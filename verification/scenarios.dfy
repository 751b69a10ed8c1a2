/**
  The situations the repository's tests set up, replayed against the model:
  the stand-in prompt object, a mock model that answers from a queue, and the
  retry engine driving `process` as the integration tests do.

  The texts of a test are passed in as parameters fixed by a precondition,
  so that the statements are about exactly the tests' strings.
 */
module Scenarios {
  import opened Outcomes
  import opened Text
  import opened Template
  import opened DraftHandler
  import opened Retry

  /** `kwargs.get(key, default)`. */
  function Get(kwargs: map<string, string>, key: string, default: string): string
  {
    if key in kwargs then kwargs[key] else default
  }

  /** The tests' stand-in prompt object: it ignores its template and lists the
      three arguments (a missing one shows as `None`, a missing theme as ""). */
  function DummyPrompt(kwargs: map<string, string>): Raises<string>
  {
    Returned(("Diagram: " + Get(kwargs, "diagram_type", "None")) + ", "
             + ("Desc: " + Get(kwargs, "description", "None")) + ", "
             + ("Theme: " + Get(kwargs, "theme", "")))
  }

  /** The content check the tests install: the identity. */
  function Identity(text: string): Raises<string>
  {
    Returned(text)
  }

  const Uml := "@startuml\nclass Foo\n@enduml"

  /** `test_construct_prompt_appends_context`: the prompt shows each argument
      after its label (for the test, "Diagram: class", "Desc: A system" and
      "Theme: bluegray"), whatever context the handler appends. */
  lemma DummyPromptShows(dt: string, d: string, th: string, context: string)
    ensures var p := ConstructPrompt(DummyPrompt, context, DraftRequest(dt, d, Some(th)));
      && p.Returned?
      && Contains(p.value, "Diagram: " + dt)
      && Contains(p.value, "Desc: " + d)
      && Contains(p.value, "Theme: " + th)
  {
    var args := PromptArguments(DraftRequest(dt, d, Some(th)));
    assert Get(args, "diagram_type", "None") == dt;
    assert Get(args, "description", "None") == d;
    assert Get(args, "theme", "") == th;
    PartsShown("Diagram: " + dt, "Desc: " + d, "Theme: " + th, context);
  }

  lemma PartsShown(first: string, second: string, third: string, context: string)
    ensures var p := first + ", " + second + ", " + third + context;
      Contains(p, first) && Contains(p, second) && Contains(p, third)
  {
    var p := first + ", " + second + ", " + third + context;
    assert p == first + (", " + second + ", " + third + context);
    PrefixContained(p, first, ", " + second + ", " + third + context);
    assert p == first + ", " + second + (", " + third + context);
    InfixContained(p, first + ", ", second, ", " + third + context);
    InfixContained(p, first + ", " + second + ", ", third, context);
  }

  lemma UmlShowsClass()
    ensures Contains(Uml, "@startuml") && Contains(Uml, "class Foo")
  {
    assert Uml == "@startuml" + "\n" + "class Foo" + "\n@enduml";
    PrefixContained(Uml, "@startuml", "\n" + "class Foo" + "\n@enduml");
    InfixContained(Uml, "@startuml" + "\n", "class Foo", "\n@enduml");
  }

  /** A mock model that always answers `Uml`; its state counts the calls. */
  function FixedReply(calls: nat, prompt: string): (Raises<string>, nat)
  {
    (Returned(Uml), calls + 1)
  }

  /** `test_process_invokes_llm_and_returns_diagram`: with the identity check,
      `process` returns the model's answer after one call. */
  lemma ProcessReturnsReply(context: string, calls: nat)
    ensures Process(DummyPrompt, context, Identity, DraftRequest("class", "Foo system", Some("bluegray")),
                    Some(FixedReply), calls) == (Returned(Uml), calls + 1)
    ensures Contains(Uml, "@startuml") && Contains(Uml, "class Foo")
  {
    UmlShowsClass();
  }

  /** `test_process_raises_on_missing_llm`: without a model, `process` raises
      `ValueError` and nothing is called. */
  lemma ProcessRaisesWithoutLlm<S>(context: string, check: string -> Raises<string>, s: S)
    ensures var out := Process(DummyPrompt, context, check, DraftRequest("class", "Foo system", Some("bluegray")),
                               None, s);
      && out.0.Raised? && out.0.error.kind == ValueError
      && out.1 == s
  {
  }

  /** `test_validate_prompt_template_missing_required`: "Generate a {theme}
      diagram" has neither required field and is rejected with `ValueError`. */
  lemma RejectsThemeOnlyTemplate(a: string, n: string, b: string)
    requires a == "Generate a " && n == "theme" && b == " diagram"
    ensures ValidatePromptTemplate(a + ("{" + n + "}" + b)) == Raised(MissingPlaceholders)
    ensures MissingPlaceholders.kind == ValueError
  {
    SingleFieldRejected(a, n, b);
  }

  /** `test_validate_prompt_template_malformed`: "Generate a {123bad} diagram
      for: {description}" is rejected with `ValueError`.  The verdict is the
      missing `diagram_type` field, which is checked before the identifier rule. */
  lemma RejectsDigitLedTemplate(a: string, n1: string, m: string, n2: string, c: string)
    requires a == "Generate a " && n1 == "123bad" && m == " diagram for: " && n2 == "description" && c == ""
    ensures ValidatePromptTemplate(a + ("{" + n1 + "}" + (m + ("{" + n2 + "}" + c)))) == Raised(MissingPlaceholders)
    ensures !IsIdentifier(n1)
  {
    TwoFieldValidation(a, n1, m, n2, c);
    assert IsAsciiDigit(n1[0]);
  }

  // ---------------------------------------------------------------------------
  // The integration tests: the retry engine driving `process`

  /** A mock model answering from a queue of outcomes, as the first integration
      test's list of calls; popping an empty list raises `IndexError`. */
  function QueuedReply(queue: seq<Raises<string>>, prompt: string): (Raises<string>, seq<Raises<string>>)
  {
    if |queue| == 0 then (Raised(Exception(IndexError, "pop from empty list")), queue)
    else (queue[0], queue[1..])
  }

  /** The tests' operation: `process("class", "Foo system", "bluegray")` with its
      exception turned into the returned value. */
  function DraftOnce<S>(context: string, llm: Llm<S>, s: S): (Raises<string>, S)
  {
    Process(DummyPrompt, context, Identity, DraftRequest("class", "Foo system", Some("bluegray")), Some(llm), s)
  }

  /** The tests' failure predicate: the operation's value is an exception. */
  predicate IsException(r: Raises<string>)
  {
    r.Raised?
  }

  const LlmError := Exception(GenericException, "LLM error")
  const AlwaysFails := Exception(GenericException, "Always fails")

  /** `test_chat_uml_revision_with_error_handler`: the model fails once and then
      answers; with two attempts the run returns the answer, the callback ran
      once, for attempt 1, with the failure whose text is "LLM error", and the
      queue is used up. */
  lemma RetryRecoversAfterOneFailure(context: string)
    ensures var op := (q: seq<Raises<string>>) => DraftOnce(context, QueuedReply, q);
      var r := Run(op, IsException, 2, [Raised(LlmError), Returned(Uml)]);
      && r == Succeeded(Returned(Uml), [Correction(1, Raised(LlmError))], [])
      && r.corrections[0].lastResult.error.message == "LLM error"
      && Contains(r.value.value, "@startuml")
  {
    var op := (q: seq<Raises<string>>) => DraftOnce(context, QueuedReply, q);
    var q0: seq<Raises<string>> := [Raised(LlmError), Returned(Uml)];
    assert op(q0) == (Raised(LlmError), [Returned(Uml)]);
    assert op([Returned(Uml)]) == (Returned(Uml), []);
    UmlShowsClass();
  }

  /** A mock model that always raises; its state counts the calls. */
  function FailingReply(calls: nat, prompt: string): (Raises<string>, nat)
  {
    (Raised(AlwaysFails), calls + 1)
  }

  /** `test_integration_respects_retry_limit`: a model that always fails, with
      three attempts, exhausts the run (the engine's `RuntimeError`) after
      exactly three calls, with the callback run for attempts 1, 2 and 3. */
  lemma RetryRespectsLimit(context: string)
    ensures var op := (n: nat) => DraftOnce(context, FailingReply, n);
      Run(op, IsException, 3, 0)
        == Exhausted([Correction(1, Raised(AlwaysFails)), Correction(2, Raised(AlwaysFails)),
                      Correction(3, Raised(AlwaysFails))], 3)
  {
    var op := (n: nat) => DraftOnce(context, FailingReply, n);
    forall n: nat
      ensures op(n) == (Raised(AlwaysFails), n + 1)
    {
    }
  }

  /** The bound is a bound on calls: when the answer would come on the third
      call but only two attempts are allowed, the run is exhausted and the
      answer is still waiting in the queue. */
  lemma RetryStopsAtLimit(context: string)
    ensures var op := (q: seq<Raises<string>>) => DraftOnce(context, QueuedReply, q);
      Run(op, IsException, 2, [Raised(LlmError), Raised(LlmError), Returned(Uml)])
        == Exhausted([Correction(1, Raised(LlmError)), Correction(2, Raised(LlmError))], [Returned(Uml)])
  {
    var op := (q: seq<Raises<string>>) => DraftOnce(context, QueuedReply, q);
    var q0: seq<Raises<string>> := [Raised(LlmError), Raised(LlmError), Returned(Uml)];
    assert q0[1..] == [Raised(LlmError), Returned(Uml)];
    assert op(q0) == (Raised(LlmError), [Raised(LlmError), Returned(Uml)]);
    assert op([Raised(LlmError), Returned(Uml)]) == (Raised(LlmError), [Returned(Uml)]);
  }
}
