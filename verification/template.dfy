/**
  Python's `str.format` with keyword arguments only, for the templates the
  modelled code formats: prompt templates, the fallback diagram template
  and the rendering-server URL template.

  `{{` and `}}` stand for single braces; `{name}` is replaced by the keyword
  argument `name`.  Python parses and substitutes in one left-to-right pass,
  so the first problem met is the exception raised: a malformed brace is a
  `ValueError`, a missing keyword a `KeyError`, and an empty or all-digit
  field (a positional reference) an `IndexError`.
 */
module Template {
  import opened Outcomes
  import opened Text

  predicate IsBrace(c: char)
  {
    c == '{' || c == '}'
  }

  predicate BraceFree(s: string)
  {
    forall i :: 0 <= i < |s| ==> !IsBrace(s[i])
  }

  /** The number of characters of `s` before its first brace. */
  function NameLength(s: string): (n: nat)
    ensures n <= |s| && BraceFree(s[..n])
    ensures n < |s| ==> IsBrace(s[n])
    decreases |s|
  {
    if |s| == 0 || IsBrace(s[0]) then 0
    else
      var n := NameLength(s[1..]);
      assert s[..1 + n] == [s[0]] + s[1..][..n];
      1 + n
  }

  const SingleOpen := Exception(ValueError, "Single '{' encountered in format string")
  const SingleClose := Exception(ValueError, "Single '}' encountered in format string")
  const ExpectedClose := Exception(ValueError, "expected '}' before end of string")
  const BraceInName := Exception(ValueError, "unexpected '{' in field name")

  predicate IsAsciiDigit(c: char)
  {
    '0' <= c <= '9'
  }

  predicate IsAsciiLetter(c: char)
  {
    ('a' <= c <= 'z') || ('A' <= c <= 'Z')
  }

  /** Python's `str.isidentifier()`, restricted to ASCII. */
  predicate IsIdentifier(s: string)
  {
    && |s| > 0
    && (IsAsciiLetter(s[0]) || s[0] == '_')
    && forall i :: 0 < i < |s| ==> IsAsciiLetter(s[i]) || IsAsciiDigit(s[i]) || s[i] == '_'
  }

  /** A field naming a positional argument: empty (automatic numbering) or all digits. */
  predicate IsPositional(name: string)
  {
    forall i :: 0 <= i < |name| ==> IsAsciiDigit(name[i])
  }

  /** The value of one replacement field, given keyword arguments only. */
  function Lookup(name: string, kwargs: map<string, string>): (r: Raises<string>)
    ensures r.Returned? <==> !IsPositional(name) && name in kwargs
    ensures r.Returned? ==> r.value == kwargs[name]
    ensures r.Raised? && !IsPositional(name) ==> r.error == Exception(KeyError, "'" + name + "'")
    ensures r.Raised? && IsPositional(name) ==> r.error.kind == IndexError
  {
    if IsPositional(name) then
      var index := if name == "" then "0" else name;
      Raised(Exception(IndexError, "Replacement index " + index + " out of range for positional args tuple"))
    else if name in kwargs then Returned(kwargs[name])
    else Raised(Exception(KeyError, "'" + name + "'"))
  }

  function PrependText(s: string, r: Raises<string>): Raises<string>
  {
    match r
    case Returned(v) => Returned(s + v)
    case Raised(e) => Raised(e)
  }

  /** `template.format(**kwargs)`. */
  function Format(template: string, kwargs: map<string, string>): (r: Raises<string>)
    ensures r.Raised? ==> r.error.kind in {ValueError, KeyError, IndexError}
    decreases |template|
  {
    var t := template;
    if |t| == 0 then Returned("")
    else if t[0] == '{' then
      if |t| == 1 then Raised(SingleOpen)
      else if t[1] == '{' then PrependText("{", Format(t[2..], kwargs))
      else
        var n := NameLength(t[1..]);
        if n + 1 == |t| then Raised(ExpectedClose)
        else if t[n + 1] == '{' then Raised(BraceInName)
        else
          match Lookup(t[1..n + 1], kwargs)
          case Raised(e) => Raised(e)
          case Returned(v) => PrependText(v, Format(t[n + 2..], kwargs))
    else if t[0] == '}' then
      if |t| > 1 && t[1] == '}' then PrependText("}", Format(t[2..], kwargs))
      else Raised(SingleClose)
    else PrependText([t[0]], Format(t[1..], kwargs))
  }

  // ---------------------------------------------------------------------------
  // Reference reading: parse into pieces, then fill the fields

  /** A parsed template: literal characters and replacement fields. */
  datatype Piece = Lit(ch: char) | Field(name: string)

  function PrependPiece(p: Piece, r: Raises<seq<Piece>>): Raises<seq<Piece>>
  {
    match r
    case Returned(ps) => Returned([p] + ps)
    case Raised(e) => Raised(e)
  }

  /** The pieces of a template, or the `ValueError` of its first malformed brace. */
  function Parse(template: string): (r: Raises<seq<Piece>>)
    ensures r.Raised? ==> r.error.kind == ValueError
    decreases |template|
  {
    var t := template;
    if |t| == 0 then Returned([])
    else if t[0] == '{' then
      if |t| == 1 then Raised(SingleOpen)
      else if t[1] == '{' then PrependPiece(Lit('{'), Parse(t[2..]))
      else
        var n := NameLength(t[1..]);
        if n + 1 == |t| then Raised(ExpectedClose)
        else if t[n + 1] == '{' then Raised(BraceInName)
        else PrependPiece(Field(t[1..n + 1]), Parse(t[n + 2..]))
    else if t[0] == '}' then
      if |t| > 1 && t[1] == '}' then PrependPiece(Lit('}'), Parse(t[2..]))
      else Raised(SingleClose)
    else PrependPiece(Lit(t[0]), Parse(t[1..]))
  }

  /** The text of a parsed template with its fields filled in order. */
  function Fill(ps: seq<Piece>, kwargs: map<string, string>): Raises<string>
    decreases |ps|
  {
    if |ps| == 0 then Returned("")
    else match ps[0]
      case Lit(c) => PrependText([c], Fill(ps[1..], kwargs))
      case Field(name) =>
        match Lookup(name, kwargs)
        case Raised(e) => Raised(e)
        case Returned(v) => PrependText(v, Fill(ps[1..], kwargs))
  }

  /** The field names of a parsed template, in order. */
  function FieldNames(ps: seq<Piece>): (names: seq<string>)
    ensures forall n :: n in names <==> Field(n) in ps
    decreases |ps|
  {
    if |ps| == 0 then []
    else
      var rest := FieldNames(ps[1..]);
      assert forall p :: p in ps <==> p == ps[0] || p in ps[1..];
      match ps[0]
      case Lit(_) => rest
      case Field(n) => [n] + rest
  }

  /** Pieces that some template text parses to: field names hold no brace. */
  predicate WellFormed(ps: seq<Piece>)
  {
    forall i :: 0 <= i < |ps| && ps[i].Field? ==> BraceFree(ps[i].name)
  }

  /** The template text of one piece; a literal brace is doubled. */
  function Token(p: Piece): string
  {
    match p
    case Lit(c) => if IsBrace(c) then [c, c] else [c]
    case Field(n) => "{" + n + "}"
  }

  /** Writes pieces back as template text. */
  function Unparse(ps: seq<Piece>): string
    decreases |ps|
  {
    if |ps| == 0 then "" else Token(ps[0]) + Unparse(ps[1..])
  }

  /** Formatting is parsing followed by filling, whenever the template parses. */
  lemma {:induction false} FormatIsFill(template: string, kwargs: map<string, string>)
    requires Parse(template).Returned?
    ensures Format(template, kwargs) == Fill(Parse(template).value, kwargs)
    decreases |template|
  {
    var t := template;
    if |t| > 0 {
      var ps := Parse(t).value;
      if t[0] == '{' && t[1] == '{' {
        FormatIsFill(t[2..], kwargs);
        assert ps[1..] == Parse(t[2..]).value;
      } else if t[0] == '{' {
        var n := NameLength(t[1..]);
        FormatIsFill(t[n + 2..], kwargs);
        assert ps[1..] == Parse(t[n + 2..]).value;
      } else if t[0] == '}' {
        FormatIsFill(t[2..], kwargs);
        assert ps[1..] == Parse(t[2..]).value;
      } else {
        FormatIsFill(t[1..], kwargs);
        assert ps[1..] == Parse(t[1..]).value;
      }
    }
  }

  /** A template that fails to parse fails to format, with an exception
      raised no later than the malformed brace. */
  lemma {:induction false} MalformedNeverFormats(template: string, kwargs: map<string, string>)
    requires Parse(template).Raised?
    ensures Format(template, kwargs).Raised?
    decreases |template|
  {
    var t := template;
    if |t| > 1 {
      if t[0] == '{' && t[1] == '{' {
        MalformedNeverFormats(t[2..], kwargs);
      } else if t[0] == '{' {
        var n := NameLength(t[1..]);
        if n + 1 < |t| && t[n + 1] == '}' {
          MalformedNeverFormats(t[n + 2..], kwargs);
        }
      } else if t[0] == '}' {
        if t[1] == '}' {
          MalformedNeverFormats(t[2..], kwargs);
        }
      } else {
        MalformedNeverFormats(t[1..], kwargs);
      }
    }
  }

  /** Parsing undoes `Unparse`: writing pieces out and reading them back gives them again. */
  lemma {:induction false} ParseUnparse(ps: seq<Piece>)
    requires WellFormed(ps)
    ensures Parse(Unparse(ps)) == Returned(ps)
    decreases |ps|
  {
    if |ps| > 0 {
      var rest := Unparse(ps[1..]);
      assert Unparse(ps) == Token(ps[0]) + rest;
      assert WellFormed(ps[1..]);
      ParseUnparse(ps[1..]);
      ParseToken(ps[0], rest);
      assert [ps[0]] + ps[1..] == ps;
    }
  }

  /** The parser reads one token and goes on with the rest. */
  lemma ParseToken(p: Piece, rest: string)
    requires p.Field? ==> BraceFree(p.name)
    ensures Parse(Token(p) + rest) == PrependPiece(p, Parse(rest))
  {
    match p
    case Lit(c) => ParseLiteralToken(c, rest);
    case Field(n) =>
      if |n| > 0 {
        ParseFieldPrefix(n, rest);
      } else {
        var t := Token(p) + rest;
        assert t[0] == '{' && t[1] == '}' && t[1..][0] == '}';
        assert t[1..1] == n;
        assert t[2..] == rest;
      }
  }

  lemma ParseLiteralToken(c: char, rest: string)
    ensures Parse(Token(Lit(c)) + rest) == PrependPiece(Lit(c), Parse(rest))
  {
    var t := Token(Lit(c)) + rest;
    if IsBrace(c) {
      assert t[2..] == rest;
    } else {
      assert t[1..] == rest;
    }
  }

  /** Scanning a brace-free name followed by a brace stops at the brace. */
  lemma {:induction false} NameLengthOfName(n: string, rest: string)
    requires BraceFree(n) && |rest| > 0 && IsBrace(rest[0])
    ensures NameLength(n + rest) == |n|
    decreases |n|
  {
    if |n| == 0 {
      assert n + rest == rest;
    } else {
      assert (n + rest)[0] == n[0] && !IsBrace(n[0]);
      assert (n + rest)[1..] == n[1..] + rest;
      assert BraceFree(n[1..]);
      NameLengthOfName(n[1..], rest);
    }
  }

  /** Every field of a template appears in its text as `{name}`. */
  lemma {:induction false} FieldOccurs(template: string, name: string)
    requires Parse(template).Returned? && Field(name) in Parse(template).value
    ensures Contains(template, "{" + name + "}")
    decreases |template|
  {
    var t := template;
    var ps := Parse(t).value;
    assert ps == [ps[0]] + ps[1..];
    if t[0] == '{' && t[1] == '{' {
      assert ps[0] == Lit('{');
      FieldOccurs(t[2..], name);
      ContainsInSuffix(t, 2, "{" + name + "}");
    } else if t[0] == '{' {
      var n := NameLength(t[1..]);
      if ps[0] == Field(name) {
        assert t == "" + "{" + name + "}" + t[n + 2..];
        InfixContained(t, "", "{" + name + "}", t[n + 2..]);
      } else {
        FieldOccurs(t[n + 2..], name);
        ContainsInSuffix(t, n + 2, "{" + name + "}");
      }
    } else if t[0] == '}' {
      FieldOccurs(t[2..], name);
      ContainsInSuffix(t, 2, "{" + name + "}");
    } else {
      FieldOccurs(t[1..], name);
      ContainsInSuffix(t, 1, "{" + name + "}");
    }
  }

  lemma ContainsInSuffix(s: string, k: nat, needle: string)
    requires k <= |s| && Contains(s[k..], needle)
    ensures Contains(s, needle)
  {
    var i: nat :| i <= |s[k..]| && OccursAt(needle, s[k..], i);
    assert s[k + i..k + i + |needle|] == s[k..][i..i + |needle|];
    assert OccursAt(needle, s, k + i);
  }

  /** Text without braces formats to itself, whatever the arguments. */
  lemma {:induction false} BraceFreeFormatsToItself(template: string, kwargs: map<string, string>)
    requires BraceFree(template)
    ensures Format(template, kwargs) == Returned(template)
    decreases |template|
  {
    var t := template;
    if |t| > 0 {
      assert !IsBrace(t[0]);
      assert BraceFree(t[1..]);
      BraceFreeFormatsToItself(t[1..], kwargs);
      assert [t[0]] + t[1..] == t;
    }
  }

  /** A template that parses and whose fields all name supplied keyword
      arguments formats without raising. */
  lemma {:induction false} FillSucceeds(ps: seq<Piece>, kwargs: map<string, string>)
    requires forall n :: Field(n) in ps ==> !IsPositional(n) && n in kwargs
    ensures Fill(ps, kwargs).Returned?
    decreases |ps|
  {
    if |ps| > 0 {
      assert forall n :: Field(n) in ps[1..] ==> Field(n) in ps;
      FillSucceeds(ps[1..], kwargs);
      assert ps[0] in ps;
    }
  }

  /** A field that names a missing keyword argument, with no earlier field
      failing, makes formatting raise `KeyError`. */
  lemma {:induction false} MissingKeywordRaises(ps: seq<Piece>, kwargs: map<string, string>, i: nat)
    requires i < |ps| && ps[i].Field? && !IsPositional(ps[i].name) && ps[i].name !in kwargs
    requires forall j :: 0 <= j < i && ps[j].Field? ==> !IsPositional(ps[j].name) && ps[j].name in kwargs
    ensures Fill(ps, kwargs) == Raised(Exception(KeyError, "'" + ps[i].name + "'"))
    decreases |ps|
  {
    if i > 0 {
      assert ps[1..][i - 1] == ps[i];
      MissingKeywordRaises(ps[1..], kwargs, i - 1);
    }
  }

  /** Formatting a literal that holds no brace copies it. */
  lemma {:induction false} FormatLiteralPrefix(lit: string, rest: string, kwargs: map<string, string>)
    requires BraceFree(lit)
    ensures Format(lit + rest, kwargs) == PrependText(lit, Format(rest, kwargs))
    decreases |lit|
  {
    if |lit| > 0 {
      var t := lit + rest;
      assert t[0] == lit[0] && !IsBrace(lit[0]);
      assert t[1..] == lit[1..] + rest;
      assert BraceFree(lit[1..]);
      FormatLiteralPrefix(lit[1..], rest, kwargs);
      if Format(rest, kwargs).Returned? {
        var v := Format(rest, kwargs).value;
        assert [lit[0]] + (lit[1..] + v) == lit + v;
      }
    } else {
      assert lit + rest == rest;
      if Format(rest, kwargs).Returned? {
        assert lit + Format(rest, kwargs).value == Format(rest, kwargs).value;
      }
    }
  }

  /** Formatting a leading field looks it up, then formats the rest. */
  lemma FormatFieldPrefix(name: string, rest: string, kwargs: map<string, string>)
    requires BraceFree(name) && |name| > 0
    ensures Lookup(name, kwargs).Raised? ==>
      Format("{" + name + "}" + rest, kwargs) == Raised(Lookup(name, kwargs).error)
    ensures Lookup(name, kwargs).Returned? ==>
      Format("{" + name + "}" + rest, kwargs) == PrependText(Lookup(name, kwargs).value, Format(rest, kwargs))
  {
    var t := "{" + name + "}" + rest;
    assert t[1..] == name + ("}" + rest);
    NameLengthOfName(name, "}" + rest);
    assert t[1] == name[0] && !IsBrace(name[0]);
    assert t[1..|name| + 1] == name;
    assert t[|name| + 2..] == rest;
  }

  /** The pieces of a literal text, one per character. */
  function Lits(s: string): (ps: seq<Piece>)
    ensures |ps| == |s|
    ensures forall i :: 0 <= i < |s| ==> ps[i] == Lit(s[i])
  {
    if |s| == 0 then [] else [Lit(s[0])] + Lits(s[1..])
  }

  /** Parsing a literal that holds no brace yields its characters as pieces. */
  lemma {:induction false} ParseLiteralPrefix(lit: string, rest: string)
    requires BraceFree(lit)
    ensures Parse(rest).Raised? ==> Parse(lit + rest) == Parse(rest)
    ensures Parse(rest).Returned? ==> Parse(lit + rest) == Returned(Lits(lit) + Parse(rest).value)
    decreases |lit|
  {
    if |lit| > 0 {
      var t := lit + rest;
      assert t[0] == lit[0] && !IsBrace(lit[0]);
      assert t[1..] == lit[1..] + rest;
      assert BraceFree(lit[1..]);
      ParseLiteralPrefix(lit[1..], rest);
      if Parse(rest).Returned? {
        assert [Lit(lit[0])] + (Lits(lit[1..]) + Parse(rest).value) == Lits(lit) + Parse(rest).value;
      }
    } else {
      assert lit + rest == rest;
      if Parse(rest).Returned? {
        assert Lits(lit) + Parse(rest).value == Parse(rest).value;
      }
    }
  }

  /** Parsing a leading field yields that field, then the pieces of the rest. */
  lemma ParseFieldPrefix(name: string, rest: string)
    requires BraceFree(name) && |name| > 0
    ensures Parse("{" + name + "}" + rest) == PrependPiece(Field(name), Parse(rest))
  {
    var t := "{" + name + "}" + rest;
    assert t[1..] == name + ("}" + rest);
    NameLengthOfName(name, "}" + rest);
    assert t[1] == name[0] && !IsBrace(name[0]);
    assert t[1..|name| + 1] == name;
    assert t[|name| + 2..] == rest;
  }

  /** Text without braces parses to its characters. */
  lemma LiteralParse(b: string)
    requires BraceFree(b)
    ensures Parse(b) == Returned(Lits(b))
  {
    ParseLiteralPrefix(b, "");
    assert b + "" == b;
    assert Lits(b) + [] == Lits(b);
  }

  /** A literal, a field, then a literal: the pieces are exactly those. */
  lemma SingleFieldParse(a: string, n: string, b: string)
    requires BraceFree(a) && BraceFree(n) && |n| > 0 && BraceFree(b)
    ensures Parse(a + ("{" + n + "}" + b)) == Returned(Lits(a) + ([Field(n)] + Lits(b)))
  {
    LiteralParse(b);
    ParseFieldPrefix(n, b);
    ParseLiteralPrefix(a, "{" + n + "}" + b);
  }

  /** Two fields between brace-free literals: the pieces are exactly those. */
  lemma TwoFieldParse(a: string, n1: string, m: string, n2: string, c: string)
    requires BraceFree(a) && BraceFree(n1) && |n1| > 0 && BraceFree(m) && BraceFree(n2) && |n2| > 0 && BraceFree(c)
    ensures Parse(a + ("{" + n1 + "}" + (m + ("{" + n2 + "}" + c))))
         == Returned(Lits(a) + ([Field(n1)] + (Lits(m) + ([Field(n2)] + Lits(c)))))
  {
    SingleFieldParse(m, n2, c);
    ParseFieldPrefix(n1, m + ("{" + n2 + "}" + c));
    ParseLiteralPrefix(a, "{" + n1 + "}" + (m + ("{" + n2 + "}" + c)));
  }
}
