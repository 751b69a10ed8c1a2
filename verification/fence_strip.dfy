/**
  Removal of Markdown code fences from a model reply, as `generate_diagram`
  does: the reply is trimmed, a multi-line regular-expression substitution
  deletes every line-initial fence (with an optional `plantuml` tag and the
  whitespace after it) and every fence right before a line end, and the
  result is trimmed again.

  The substitution is a left-to-right scan of the trimmed text.  At each
  offset the pattern is tried; if it matches, the matched text is dropped
  and the scan resumes after it, otherwise one character is copied.  Line
  starts and line ends (`^` and `$` under MULTILINE) are judged in the text
  being scanned, not in the text produced so far.
 */
module FenceStrip {
  import opened Text

  /** A code fence, three backticks, starts at offset `p` of `t`. */
  predicate FenceAt(t: string, p: nat)
  {
    p + 3 <= |t| && t[p] == '`' && t[p + 1] == '`' && t[p + 2] == '`'
  }

  /** The language tag `plantuml` starts at offset `p` of `t`. */
  predicate TagAt(t: string, p: nat)
  {
    p + 8 <= |t| && t[p..p + 8] == "plantuml"
  }

  /** No code fence anywhere in `t`. */
  predicate NoFence(t: string)
  {
    forall k :: 0 <= k < |t| ==> !FenceAt(t, k)
  }

  /** `^` under MULTILINE: offset 0, or just after a newline. */
  predicate AtLineStart(t: string, p: nat)
  {
    p == 0 || (p <= |t| && t[p - 1] == '\n')
  }

  /** `$` under MULTILINE: the end of the text, or just before a newline. */
  predicate AtLineEnd(t: string, p: nat)
  {
    p == |t| || (p < |t| && t[p] == '\n')
  }

  /** Length of the whitespace run of `t` starting at `p` (what greedy `\s*` takes). */
  function SpaceRun(t: string, p: nat): (n: nat)
    requires p <= |t|
    ensures p + n <= |t| && AllSpace(t[p..p + n])
    ensures p + n == |t| || !IsSpace(t[p + n])
    decreases |t| - p
  {
    if p < |t| && IsSpace(t[p]) then
      var n := SpaceRun(t, p + 1);
      assert t[p..p + 1 + n] == [t[p]] + t[p + 1..p + 1 + n];
      1 + n
    else 0
  }

  /** The length of the text the pattern matches at offset `p`, or 0 when it
      does not match there.  The first alternative (a line-initial fence, an
      optional `plantuml` tag, then whitespace) is tried before the second
      (a fence just before a line end). */
  function MatchLength(t: string, p: nat): (n: nat)
    requires p <= |t|
    ensures p + n <= |t|
  {
    if AtLineStart(t, p) && FenceAt(t, p) then
      var q := if TagAt(t, p + 3) then p + 11 else p + 3;
      q - p + SpaceRun(t, q)
    else if FenceAt(t, p) && AtLineEnd(t, p + 3) then 3
    else 0
  }

  /** Declarative reading of the pattern: it matches exactly `t[p..q]`. */
  predicate Matches(t: string, p: nat, q: nat)
    requires p <= q <= |t|
  {
    || (&& AtLineStart(t, p) && FenceAt(t, p) && p + 3 <= q
        && (|| AllSpace(t[p + 3..q])
            || (TagAt(t, p + 3) && p + 11 <= q && AllSpace(t[p + 11..q]))))
    || (q == p + 3 && FenceAt(t, p) && AtLineEnd(t, q))
  }

  /** The backtracking matcher's choice is the longest match: when the pattern
      matches at `p` at all, `MatchLength` is positive, it is a match, and no
      match is longer. */
  lemma MatchLengthIsLongest(t: string, p: nat)
    requires p <= |t|
    ensures MatchLength(t, p) > 0 ==> p + MatchLength(t, p) <= |t| && Matches(t, p, p + MatchLength(t, p))
    ensures forall q :: p <= q <= |t| && Matches(t, p, q) ==> 0 < MatchLength(t, p) && q <= p + MatchLength(t, p)
  {
    forall q | p <= q <= |t| && Matches(t, p, q)
      ensures 0 < MatchLength(t, p) && q <= p + MatchLength(t, p)
    {
      if AtLineStart(t, p) && FenceAt(t, p) && p + 3 <= q {
        var a := if TagAt(t, p + 3) then p + 11 else p + 3;
        if AllSpace(t[p + 3..q]) {
          SpaceRunCovers(t, p + 3, a, q);
        } else {
          SpaceRunCovers(t, p + 11, a, q);
        }
      }
    }
  }

  /** A whitespace stretch `t[lo..q]` is taken whole by the greedy run from
      any offset `a` at or after `lo`. */
  lemma SpaceRunCovers(t: string, lo: nat, a: nat, q: nat)
    requires lo <= a <= |t| && lo <= q <= |t| && AllSpace(t[lo..q])
    ensures q <= a + SpaceRun(t, a)
  {
    forall i | lo <= i < q
      ensures IsSpace(t[i])
    {
      assert t[lo..q][i - lo] == t[i];
    }
  }

  /** `re.sub` of the pattern with "" on `t`, from offset `p` on. */
  function Substitute(t: string, p: nat): (r: string)
    requires p <= |t|
    ensures |r| <= |t| - p
    decreases |t| - p
  {
    if p == |t| then ""
    else if MatchLength(t, p) > 0 then Substitute(t, p + MatchLength(t, p))
    else [t[p]] + Substitute(t, p + 1)
  }

  /** `generate_diagram`'s clean-up of the model's reply; the result never
      starts or ends with whitespace. */
  function StripFences(code: string): (r: string)
    ensures Trimmed(r)
  {
    Strip(Substitute(Strip(code), 0))
  }

  /** The substitution only deletes: its output is a subsequence of its input. */
  lemma {:induction false} SubstituteIsSubsequence(t: string, p: nat)
    requires p <= |t|
    ensures IsSubsequence(Substitute(t, p), t[p..])
    decreases |t| - p
  {
    if p < |t| {
      var m := MatchLength(t, p);
      if m > 0 {
        SubstituteIsSubsequence(t, p + m);
        DroppedMatchIsSubsequence(t, p, m);
      } else {
        SubstituteIsSubsequence(t, p + 1);
        CopiedCharIsSubsequence(t, p);
      }
    }
  }

  /** The step that drops a match keeps the output a subsequence. */
  lemma DroppedMatchIsSubsequence(t: string, p: nat, m: nat)
    requires p < |t| && m == MatchLength(t, p) && m > 0
    requires IsSubsequence(Substitute(t, p + m), t[p + m..])
    ensures IsSubsequence(Substitute(t, p), t[p..])
  {
    var r := Substitute(t, p + m);
    assert Substitute(t, p) == r;
    SubsequenceOfLonger(r, t[p..p + m], t[p + m..]);
    assert t[p..] == t[p..p + m] + t[p + m..];
  }

  /** The step that copies a character keeps the output a subsequence. */
  lemma CopiedCharIsSubsequence(t: string, p: nat)
    requires p < |t| && MatchLength(t, p) == 0
    requires IsSubsequence(Substitute(t, p + 1), t[p + 1..])
    ensures IsSubsequence(Substitute(t, p), t[p..])
  {
    assert Substitute(t, p) == [t[p]] + Substitute(t, p + 1);
    assert t[p..] == [t[p]] + t[p + 1..];
    SubsequenceCons(t[p], Substitute(t, p + 1), t[p + 1..]);
  }

  /** Where the pattern matches nowhere, the substitution copies the text. */
  lemma {:induction false} SubstituteWithoutMatch(t: string, p: nat)
    requires p <= |t|
    requires forall k :: p <= k < |t| ==> MatchLength(t, k) == 0
    ensures Substitute(t, p) == t[p..]
    decreases |t| - p
  {
    if p < |t| {
      SubstituteWithoutMatch(t, p + 1);
      assert t[p..] == [t[p]] + t[p + 1..];
    }
  }

  /** A match at or after `p` makes the output strictly shorter. */
  lemma {:induction false} SubstituteShortens(t: string, p: nat, k: nat)
    requires p <= k < |t| && MatchLength(t, k) > 0
    ensures |Substitute(t, p)| < |t| - p
    decreases |t| - p
  {
    if MatchLength(t, p) == 0 {
      SubstituteShortens(t, p + 1, k);
    }
  }

  /** The substitution leaves the text unchanged exactly when the pattern
      matches at no offset. */
  lemma SubstituteIdentityIff(t: string)
    ensures Substitute(t, 0) == t <==> forall k :: 0 <= k < |t| ==> MatchLength(t, k) == 0
  {
    if forall k :: 0 <= k < |t| ==> MatchLength(t, k) == 0 {
      SubstituteWithoutMatch(t, 0);
    } else {
      var k :| 0 <= k < |t| && MatchLength(t, k) > 0;
      SubstituteShortens(t, 0, k);
    }
  }

  /** Text without a fence has no match. */
  lemma NoFenceNoMatch(t: string)
    requires NoFence(t)
    ensures forall k :: 0 <= k < |t| ==> MatchLength(t, k) == 0
  {
  }

  /** The clean-up keeps the order of what it keeps: nothing is added or moved. */
  lemma StripFencesIsSubsequence(code: string)
    ensures IsSubsequence(StripFences(code), code)
  {
    var t := Strip(code);
    var u := Substitute(t, 0);
    SubstituteIsSubsequence(t, 0);
    assert t[0..] == t;
    StripIsSubsequence(code);
    StripIsSubsequence(u);
    SubsequenceTransitive(Strip(u), u, t);
    SubsequenceTransitive(Strip(u), t, code);
  }

  /** Stripping keeps text free of fences. */
  lemma StripKeepsNoFence(code: string)
    requires NoFence(code)
    ensures NoFence(Strip(code))
  {
    var t := Strip(code);
    var a, b := StripDecomposition(code);
    forall k | 0 <= k < |t|
      ensures !FenceAt(t, k)
    {
      assert !FenceAt(code, |a| + k);
    }
  }

  /** Text with no fence at all comes back merely trimmed. */
  lemma StripFencesWithoutFence(code: string)
    requires NoFence(code)
    ensures StripFences(code) == Strip(code)
  {
    var t := Strip(code);
    StripKeepsNoFence(code);
    NoFenceNoMatch(t);
    SubstituteWithoutMatch(t, 0);
    assert t[0..] == t;
    StripIdempotent(code);
  }

  // ---------------------------------------------------------------------------
  // Worked cases

  /** One step of the scan: copy a character where nothing matches, skip the match otherwise. */
  lemma SubstituteStep(t: string, p: nat)
    requires p < |t|
    ensures MatchLength(t, p) == 0 ==> Substitute(t, p) == [t[p]] + Substitute(t, p + 1)
    ensures MatchLength(t, p) > 0 ==> Substitute(t, p) == Substitute(t, p + MatchLength(t, p))
  {
  }

  /** A character that is neither whitespace nor a backtick. */
  predicate Plain(c: char)
  {
    !IsSpace(c) && c != '`'
  }

  /** A line holding a tagged fence that runs straight into a closing fence. */
  function TaggedLine(x: char, y: char): string
  {
    [x] + "\n```plantuml```" + [y]
  }

  lemma TaggedLineMatches(x: char, y: char)
    requires Plain(x) && Plain(y)
    ensures var t := TaggedLine(x, y);
      && |t| == 17
      && MatchLength(t, 0) == 0 && MatchLength(t, 1) == 0 && MatchLength(t, 2) == 11
      && MatchLength(t, 13) == 0 && MatchLength(t, 14) == 0 && MatchLength(t, 15) == 0 && MatchLength(t, 16) == 0
  {
    var t := TaggedLine(x, y);
    assert t[5..13] == "plantuml" by {
      assert forall i :: 0 <= i < 8 ==> t[5..13][i] == t[5 + i];
    }
    assert SpaceRun(t, 13) == 0;
  }

  /** The first pass deletes the tagged opening fence only: the closing fence
      that follows is not at a line end, so it stays. */
  lemma TaggedLineFirstPass(x: char, y: char)
    requires Plain(x) && Plain(y)
    ensures Substitute(TaggedLine(x, y), 0) == [x] + "\n```" + [y]
  {
    var t := TaggedLine(x, y);
    TaggedLineMatches(x, y);
    TaggedLineTail(x, y);
    SubstituteStep(t, 0);
    SubstituteStep(t, 1);
    SubstituteStep(t, 2);
    assert [t[0]] + ([t[1]] + ("```" + [y])) == [x] + "\n```" + [y];
  }

  lemma TaggedLineTail(x: char, y: char)
    requires Plain(x) && Plain(y)
    ensures Substitute(TaggedLine(x, y), 13) == "```" + [y]
  {
    var t := TaggedLine(x, y);
    TaggedLineMatches(x, y);
    SubstituteStep(t, 13);
    SubstituteStep(t, 14);
    SubstituteStep(t, 15);
    SubstituteStep(t, 16);
    assert [t[13], t[14], t[15], t[16]] == "```" + [y];
  }

  /** On the second pass the surviving fence is line-initial and is deleted. */
  lemma TaggedLineSecondPass(x: char, y: char)
    requires Plain(x) && Plain(y)
    ensures Substitute([x] + "\n```" + [y], 0) == [x, '\n', y]
  {
    var u := [x] + "\n```" + [y];
    assert u == [x, '\n', '`', '`', '`', y];
    assert MatchLength(u, 5) == 0;
    SubstituteStep(u, 5);
    assert Substitute(u, 5) == [y];
    assert SpaceRun(u, 5) == 0;
    assert MatchLength(u, 2) == 3;
    SubstituteStep(u, 2);
    assert MatchLength(u, 1) == 0;
    SubstituteStep(u, 1);
    assert MatchLength(u, 0) == 0;
    SubstituteStep(u, 0);
  }

  /** The clean-up is not idempotent: a second application can delete a fence
      that the first one left in place. */
  lemma StripFencesNotIdempotent(x: char, y: char)
    requires Plain(x) && Plain(y)
    ensures StripFences(TaggedLine(x, y)) == [x] + "\n```" + [y]
    ensures StripFences(StripFences(TaggedLine(x, y))) == [x, '\n', y]
    ensures StripFences(StripFences(TaggedLine(x, y))) != StripFences(TaggedLine(x, y))
  {
    var t := TaggedLine(x, y);
    var u := [x] + "\n```" + [y];
    assert Trimmed(t);
    StripFixedIff(t);
    TaggedLineFirstPass(x, y);
    assert Trimmed(u);
    StripFixedIff(u);
    TaggedLineSecondPass(x, y);
    assert Trimmed([x, '\n', y]);
    StripFixedIff([x, '\n', y]);
  }

  /** A fence with a language tag other than `plantuml` loses only its
      backticks: ```` ```python ```` leaves `python`. */
  lemma OtherTagSurvives(w: string)
    requires |w| > 0 && Trimmed(w) && NoFence(w)
    requires |w| < 8 || w[..8] != "plantuml"
    ensures StripFences("```" + w) == w
  {
    var t := "```" + w;
    assert !IsSpace(t[0]) && t[|t| - 1] == w[|w| - 1];
    StripFixedIff(t);
    OtherTagMatches(w);
    SubstituteWithoutMatch(t, 3);
    SubstituteStep(t, 0);
    assert t[3..] == w;
    StripFixedIff(w);
  }

  lemma OtherTagMatches(w: string)
    requires |w| > 0 && Trimmed(w) && NoFence(w)
    requires |w| < 8 || w[..8] != "plantuml"
    ensures MatchLength("```" + w, 0) == 3
    ensures forall k :: 3 <= k < |w| + 3 ==> MatchLength("```" + w, k) == 0
  {
    var t := "```" + w;
    assert !TagAt(t, 3) by {
      if |w| >= 8 {
        assert t[3..11] == w[..8];
      }
    }
    assert t[3] == w[0];
    assert SpaceRun(t, 3) == 0;
    forall k | 3 <= k < |t|
      ensures MatchLength(t, k) == 0
    {
      assert !FenceAt(w, k - 3);
    }
  }

  // ---------------------------------------------------------------------------
  // Fenced blocks: what the clean-up is for

  /** Over a stretch where the pattern matches nowhere, the substitution copies. */
  lemma {:induction false} SubstituteCopies(t: string, p: nat, q: nat)
    requires p <= q <= |t|
    requires forall k :: p <= k < q ==> MatchLength(t, k) == 0
    ensures Substitute(t, p) == t[p..q] + Substitute(t, q)
    decreases q - p
  {
    if p < q {
      SubstituteCopies(t, p + 1, q);
      assert MatchLength(t, p) == 0;
      SubstituteStep(t, p);
      var rest := Substitute(t, q);
      assert t[p..q] == [t[p]] + t[p + 1..q];
      assert [t[p]] + (t[p + 1..q] + rest) == ([t[p]] + t[p + 1..q]) + rest;
    }
  }

  /** Joining two fence-free texts with a newline makes no fence. */
  lemma NoFenceJoin(a: string, b: string)
    requires NoFence(a) && NoFence(b)
    ensures NoFence(a + "\n" + b)
  {
    var t := a + "\n" + b;
    forall k | 0 <= k < |t|
      ensures !FenceAt(t, k)
    {
      if k + 3 <= |a| {
        assert !FenceAt(a, k);
      } else if k > |a| {
        assert !FenceAt(b, k - |a| - 1);
      } else {
        assert t[|a|] == '\n';
      }
    }
  }

  /** In `open + body + "\n```"` no match starts inside the body or at the
      newline, and the closing fence, at a line start, is one 3-character match. */
  lemma FencedBodyMatches(t: string, open: string, body: string)
    requires t == open + body + "\n```" && NoFence(body)
    ensures forall k :: |open| <= k <= |open| + |body| ==> MatchLength(t, k) == 0
    ensures MatchLength(t, |open| + |body| + 1) == 3
  {
    var nl := |open| + |body|;
    assert t[nl] == '\n';
    forall k | |open| <= k <= nl
      ensures !FenceAt(t, k)
    {
      if k + 3 <= nl {
        assert !FenceAt(body, k - |open|);
        assert t[k] == body[k - |open|] && t[k + 1] == body[k - |open| + 1] && t[k + 2] == body[k - |open| + 2];
      }
    }
    assert FenceAt(t, nl + 1) && AtLineStart(t, nl + 1) && !TagAt(t, nl + 4);
  }

  /** A trimmed text followed by a newline strips back to the text. */
  lemma StripTrailingNewline(b: string)
    requires |b| > 0 && Trimmed(b)
    ensures Strip(b + "\n") == b
  {
    var s := b + "\n";
    assert SkipSpace(s, 0) == 0;
    assert SkipSpaceBack(s, 0, |s|) == SkipSpaceBack(s, 0, |s| - 1) == |b|;
    assert s[..|b|] == b;
  }

  /** The clean-up of `open + body + "\n```"`, when the pattern at offset 0
      takes exactly the opening `open`, is the body. */
  lemma FencedBlockStrips(t: string, open: string, body: string)
    requires t == open + body + "\n```"
    requires |open| > 0 && open[0] == '`' && MatchLength(t, 0) == |open|
    requires |body| > 0 && Trimmed(body) && NoFence(body)
    ensures StripFences(t) == body
  {
    assert Trimmed(t);
    StripTrimmed(t);
    FencedBodyMatches(t, open, body);
    var nl := |open| + |body|;
    SubstituteCopies(t, |open|, nl + 1);
    assert t[|open|..nl + 1] == body + "\n";
    assert Substitute(t, nl + 1) == Substitute(t, |t|) == "";
    assert Substitute(t, 0) == Substitute(t, |open|) == body + "\n";
    assert Strip(t) == t;
    StripTrailingNewline(body);
  }

  /** A reply fenced as ```` ```plantuml ```` cleans to the code inside. */
  lemma PlantUmlBlockStrips(b: string)
    requires |b| > 0 && Trimmed(b) && NoFence(b)
    ensures StripFences("```plantuml\n" + b + "\n```") == b
  {
    var open := "```plantuml\n";
    var t := open + b + "\n```";
    assert t[3..11] == "plantuml";
    assert t[11] == '\n' && t[12] == b[0];
    assert SpaceRun(t, 11) == 1 + SpaceRun(t, 12) == 1;
    FencedBlockStrips(t, open, b);
  }

  /** A reply in a bare ```` ``` ```` fence cleans to the code inside. */
  lemma BareBlockStrips(b: string)
    requires |b| > 0 && Trimmed(b) && NoFence(b)
    ensures StripFences("```\n" + b + "\n```") == b
  {
    var open := "```\n";
    var t := open + b + "\n```";
    assert !TagAt(t, 3) by {
      if 11 <= |t| {
        assert t[3..11][0] == '\n';
      }
    }
    assert t[3] == '\n' && t[4] == b[0];
    assert SpaceRun(t, 3) == 1 + SpaceRun(t, 4) == 1;
    FencedBlockStrips(t, open, b);
  }

  /** A reply fenced with another tag, such as ```` ```python ````, loses only
      the fences: the tag stays as the first line of the cleaned code. */
  lemma OtherTagBlockKeepsTag(w: string, b: string)
    requires |w| > 0 && Trimmed(w) && NoFence(w)
    requires |w| < 8 || w[..8] != "plantuml"
    requires |b| > 0 && Trimmed(b) && NoFence(b)
    ensures StripFences("```" + w + "\n" + b + "\n```") == w + "\n" + b
  {
    var body := w + "\n" + b;
    var t := "```" + body + "\n```";
    assert t == "```" + w + "\n" + b + "\n```";
    assert !TagAt(t, 3) by {
      if 11 <= |t| {
        if |w| >= 8 {
          assert t[3..11] == w[..8];
        } else {
          assert t[3..11][|w|] == t[3 + |w|] == '\n';
        }
      }
    }
    assert t[3] == w[0];
    assert SpaceRun(t, 3) == 0;
    NoFenceJoin(w, b);
    assert body[0] == w[0] && body[|body| - 1] == b[|b| - 1];
    FencedBlockStrips(t, "```", body);
  }
}
