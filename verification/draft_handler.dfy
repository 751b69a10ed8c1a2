/**
  The diagram-drafting handler: prompt-template validation, prompt
  construction and the single model call of `process`.

  The handler's own source is not part of this model; what is modelled is
  the behaviour its unit tests and the integration tests fix.  The prompt
  object loaded from the template store is a rendering function over the
  prompt's keyword arguments, the content check applied to the reply is a
  function, and the language model is a function that takes its own state
  and a prompt and returns a reply (or an exception) and its next state, so
  that the number of calls made is visible in the state.
 */
module DraftHandler {
  import opened Outcomes
  import opened Text
  import opened Template

  /** What the handler is asked to draft. */
  datatype DraftRequest = DraftRequest(diagramType: string, description: string, theme: Option<string>)

  /** A language model: one call with a prompt, from a state to the next. */
  type Llm<!S> = (S, string) -> (Raises<string>, S)

  /** The keyword arguments the prompt is rendered with; an absent theme is the empty string. */
  function PromptArguments(req: DraftRequest): map<string, string>
  {
    map["diagram_type" := req.diagramType,
        "description" := req.description,
        "theme" := if req.theme.Some? then req.theme.value else ""]
  }

  const MissingPlaceholders :=
    Exception(ValueError, "Prompt template must contain the placeholders {diagram_type} and {description}")
  const InvalidPlaceholder := Exception(ValueError, "Prompt template contains an invalid placeholder")
  const MissingLlm := Exception(ValueError, "missing LLM interface")

  /** Every name in `names` is an identifier. */
  predicate AllIdentifiers(names: seq<string>)
  {
    forall i :: 0 <= i < |names| ==> IsIdentifier(names[i])
  }

  /** `_validate_prompt_template`: the template must parse, must have the fields
      `diagram_type` and `description`, and every field must be an identifier. */
  function ValidatePromptTemplate(template: string): (r: Raises<()>)
    ensures r.Raised? ==> r.error.kind == ValueError
  {
    match Parse(template)
    case Raised(e) => Raised(e)
    case Returned(ps) =>
      if Field("diagram_type") !in ps || Field("description") !in ps then Raised(MissingPlaceholders)
      else if !AllIdentifiers(FieldNames(ps)) then Raised(InvalidPlaceholder)
      else Returned(())
  }

  /** The validator accepts exactly the templates that parse, name both required
      fields and use identifiers only. */
  lemma ValidateIff(template: string)
    ensures ValidatePromptTemplate(template).Returned? <==>
      && Parse(template).Returned?
      && Field("diagram_type") in Parse(template).value
      && Field("description") in Parse(template).value
      && forall n :: Field(n) in Parse(template).value ==> IsIdentifier(n)
  {
    if Parse(template).Returned? {
      var ps := Parse(template).value;
      var names := FieldNames(ps);
      if !AllIdentifiers(names) {
        var i :| 0 <= i < |names| && !IsIdentifier(names[i]);
        assert Field(names[i]) in ps;
      }
    }
  }

  /** A template without a `diagram_type` or a `description` field is rejected. */
  lemma RejectsMissingRequired(template: string)
    requires Parse(template).Returned?
    requires Field("diagram_type") !in Parse(template).value || Field("description") !in Parse(template).value
    ensures ValidatePromptTemplate(template) == Raised(MissingPlaceholders)
  {
  }

  /** A template with a field whose name starts with a digit is rejected. */
  lemma RejectsDigitPlaceholder(template: string, name: string)
    requires Parse(template).Returned? && Field(name) in Parse(template).value
    requires |name| > 0 && IsAsciiDigit(name[0])
    ensures ValidatePromptTemplate(template).Raised?
  {
    ValidateIff(template);
  }

  /** An identifier is never a positional reference. */
  lemma IdentifierIsKeyword(name: string)
    requires IsIdentifier(name)
    ensures !IsPositional(name)
  {
    assert !IsAsciiDigit(name[0]);
  }

  /** A template with one field between brace-free literals is always rejected:
      one field cannot be both required ones. */
  lemma SingleFieldRejected(a: string, n: string, b: string)
    requires BraceFree(a) && BraceFree(n) && |n| > 0 && BraceFree(b)
    ensures ValidatePromptTemplate(a + ("{" + n + "}" + b)) == Raised(MissingPlaceholders)
  {
    SingleFieldParse(a, n, b);
    var ps := Lits(a) + ([Field(n)] + Lits(b));
    assert forall k :: Field(k) in ps ==> k == n;
  }

  /** The verdict on a template with two fields between brace-free literals:
      the required names are checked before the identifier rule. */
  lemma TwoFieldValidation(a: string, n1: string, m: string, n2: string, c: string)
    requires BraceFree(a) && BraceFree(n1) && |n1| > 0 && BraceFree(m) && BraceFree(n2) && |n2| > 0 && BraceFree(c)
    ensures var t := a + ("{" + n1 + "}" + (m + ("{" + n2 + "}" + c)));
      ValidatePromptTemplate(t) ==
        if "diagram_type" !in {n1, n2} || "description" !in {n1, n2} then Raised(MissingPlaceholders)
        else if !IsIdentifier(n1) || !IsIdentifier(n2) then Raised(InvalidPlaceholder)
        else Returned(())
  {
    var t := a + ("{" + n1 + "}" + (m + ("{" + n2 + "}" + c)));
    TwoFieldParse(a, n1, m, n2, c);
    var ps := Lits(a) + ([Field(n1)] + (Lits(m) + ([Field(n2)] + Lits(c))));
    assert ps[|a|] == Field(n1);
    assert ps[|a| + 1 + |m|] == Field(n2);
    assert forall k :: Field(k) in ps <==> k == n1 || k == n2;
    ValidateIff(t);
  }

  /** A validated template whose fields are among `diagram_type`, `description`
      and `theme` formats for every request without raising. */
  lemma ValidatedTemplateFormats(template: string, req: DraftRequest)
    requires ValidatePromptTemplate(template).Returned?
    requires forall n :: Field(n) in Parse(template).value ==> n in {"diagram_type", "description", "theme"}
    ensures Format(template, PromptArguments(req)).Returned?
  {
    var ps := Parse(template).value;
    ValidateIff(template);
    forall n | Field(n) in ps
      ensures !IsPositional(n) && n in PromptArguments(req)
    {
      IdentifierIsKeyword(n);
    }
    FillSucceeds(ps, PromptArguments(req));
    FormatIsFill(template, PromptArguments(req));
  }

  /** `construct_prompt`: the rendered prompt object with the handler's context
      text appended.  Rendering is a call that may raise. */
  function ConstructPrompt(render: map<string, string> -> Raises<string>, context: string,
                           req: DraftRequest): (r: Raises<string>)
    ensures r.Raised? <==> render(PromptArguments(req)).Raised?
    ensures r.Raised? ==> r.error == render(PromptArguments(req)).error
    ensures r.Returned? ==> render(PromptArguments(req)).value <= r.value
  {
    match render(PromptArguments(req))
    case Raised(e) => Raised(e)
    case Returned(text) => Returned(text + context)
  }

  /** `process`: fail fast without a model, otherwise build the prompt, call the
      model once and pass the reply through the content check.  Nothing raised
      along the way is caught.  The second component is the model's state: it
      is the state after exactly one call, or unchanged when no call is made. */
  function Process<S>(render: map<string, string> -> Raises<string>, context: string,
                      check: string -> Raises<string>, req: DraftRequest,
                      llm: Option<Llm<S>>, s: S): (out: (Raises<string>, S))
    ensures llm.None? ==> out == (Raised(MissingLlm), s)
    ensures llm.Some? && ConstructPrompt(render, context, req).Raised? ==>
      out == (Raised(ConstructPrompt(render, context, req).error), s)
    ensures llm.Some? && ConstructPrompt(render, context, req).Returned? ==>
      var reply := llm.value(s, ConstructPrompt(render, context, req).value);
      && out.1 == reply.1
      && (reply.0.Raised? ==> out.0 == reply.0)
      && (reply.0.Returned? ==> out.0 == check(reply.0.value))
  {
    if llm.None? then (Raised(MissingLlm), s)
    else
      match ConstructPrompt(render, context, req)
      case Raised(e) => (Raised(e), s)
      case Returned(prompt) =>
        var (reply, s1) := llm.value(s, prompt);
        match reply
        case Raised(e) => (Raised(e), s1)
        case Returned(text) => (check(text), s1)
  }
}
