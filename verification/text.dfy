/**
  Text primitives shared by the model: Python's notion of whitespace,
  `str.strip()`, substring containment and subsequences.
 */
module Text {

  /** Python's whitespace: what `str.isspace()` accepts and what `\s` matches
      in a `str` pattern.  ASCII 9-13 and 28-32, then the Unicode separators. */
  predicate IsSpace(c: char)
  {
    var n := c as int;
    || 9 <= n <= 13 || 28 <= n <= 32
    || n == 0x85 || n == 0xA0 || n == 0x1680
    || 0x2000 <= n <= 0x200A
    || n == 0x2028 || n == 0x2029 || n == 0x202F || n == 0x205F || n == 0x3000
  }

  predicate AllSpace(s: string)
  {
    forall i :: 0 <= i < |s| ==> IsSpace(s[i])
  }

  /** Neither end of `s` is whitespace. */
  predicate Trimmed(s: string)
  {
    |s| > 0 ==> !IsSpace(s[0]) && !IsSpace(s[|s| - 1])
  }

  /** The first offset at or after `i` that holds no whitespace (or `|s|`). */
  function SkipSpace(s: string, i: nat): (k: nat)
    requires i <= |s|
    ensures i <= k <= |s|
    ensures forall x :: i <= x < k ==> IsSpace(s[x])
    ensures k < |s| ==> !IsSpace(s[k])
    decreases |s| - i
  {
    if i < |s| && IsSpace(s[i]) then SkipSpace(s, i + 1) else i
  }

  /** The last offset at or before `j`, and not before `i`, that follows a
      character that is no whitespace (or `i`). */
  function SkipSpaceBack(s: string, i: nat, j: nat): (k: nat)
    requires i <= j <= |s|
    ensures i <= k <= j
    ensures forall x :: k <= x < j ==> IsSpace(s[x])
    ensures k > i ==> !IsSpace(s[k - 1])
    decreases j
  {
    if j > i && IsSpace(s[j - 1]) then SkipSpaceBack(s, i, j - 1) else j
  }

  /** Python's `s.strip()`: `s` with whitespace removed from both ends. */
  function Strip(s: string): (r: string)
    ensures Trimmed(r)
    ensures |r| <= |s|
  {
    var i := SkipSpace(s, 0);
    s[i..SkipSpaceBack(s, i, |s|)]
  }

  /** What `Strip` removes is whitespace at the two ends and nothing else. */
  lemma StripDecomposition(s: string) returns (a: string, b: string)
    ensures s == a + Strip(s) + b
    ensures AllSpace(a) && AllSpace(b)
  {
    var i := SkipSpace(s, 0);
    var j := SkipSpaceBack(s, i, |s|);
    a, b := s[..i], s[j..];
    assert s == s[..j] + b;
    assert s[..j] == a + s[i..j];
  }

  /** Stripping keeps a trimmed string as it is. */
  lemma StripTrimmed(s: string)
    requires Trimmed(s)
    ensures Strip(s) == s
  {
    if |s| > 0 {
      assert SkipSpace(s, 0) == 0;
      assert SkipSpaceBack(s, 0, |s|) == |s|;
    }
  }

  /** `str.strip()` is idempotent. */
  lemma StripIdempotent(s: string)
    ensures Strip(Strip(s)) == Strip(s)
  {
    StripTrimmed(Strip(s));
  }

  /** A string without whitespace at either end is its own strip, and only then. */
  lemma StripFixedIff(s: string)
    ensures Strip(s) == s <==> Trimmed(s)
  {
    if Trimmed(s) {
      StripTrimmed(s);
    }
  }

  /** `needle` occurs in `s` starting at offset `i`. */
  predicate OccursAt(needle: string, s: string, i: nat)
  {
    i + |needle| <= |s| && s[i..i + |needle|] == needle
  }

  /** Python's `needle in s` for strings. */
  predicate Contains(s: string, needle: string)
  {
    exists i: nat | i <= |s| :: OccursAt(needle, s, i)
  }

  lemma PrefixContained(s: string, p: string, q: string)
    requires s == p + q
    ensures Contains(s, p) && Contains(s, q)
  {
    assert OccursAt(p, s, 0);
    assert OccursAt(q, s, |p|);
  }

  lemma InfixContained(s: string, p: string, m: string, q: string)
    requires s == p + m + q
    ensures Contains(s, m)
  {
    assert s[|p|..|p| + |m|] == m;
    assert OccursAt(m, s, |p|);
  }

  /** `a` is obtained from `b` by deleting characters (order is kept). */
  predicate IsSubsequence<T(==)>(a: seq<T>, b: seq<T>)
    decreases |b|
  {
    || |a| == 0
    || (&& |b| > 0
        && ((a[0] == b[0] && IsSubsequence(a[1..], b[1..])) || IsSubsequence(a, b[1..])))
  }

  lemma {:induction false} SubsequenceReflexive<T>(s: seq<T>)
    ensures IsSubsequence(s, s)
    decreases |s|
  {
    if |s| > 0 {
      SubsequenceReflexive(s[1..]);
    }
  }

  /** Deleting a prefix of the bigger sequence is one more deletion. */
  lemma {:induction false} SubsequenceOfLonger<T>(a: seq<T>, p: seq<T>, b: seq<T>)
    requires IsSubsequence(a, b)
    ensures IsSubsequence(a, p + b)
    decreases |p|
  {
    if |p| > 0 {
      SubsequenceOfLonger(a, p[1..], b);
      assert (p + b)[1..] == p[1..] + b;
    } else {
      assert p + b == b;
    }
  }

  /** Keeping a common first element keeps the relation. */
  lemma SubsequenceCons<T>(x: T, a: seq<T>, b: seq<T>)
    requires IsSubsequence(a, b)
    ensures IsSubsequence([x] + a, [x] + b)
  {
    assert ([x] + a)[1..] == a;
    assert ([x] + b)[1..] == b;
  }

  lemma {:induction false} SubsequenceTransitive<T>(a: seq<T>, b: seq<T>, c: seq<T>)
    requires IsSubsequence(a, b) && IsSubsequence(b, c)
    ensures IsSubsequence(a, c)
    decreases |c|
  {
    if |a| > 0 {
      if b[0] == c[0] && IsSubsequence(b[1..], c[1..]) {
        if a[0] == b[0] && IsSubsequence(a[1..], b[1..]) {
          SubsequenceTransitive(a[1..], b[1..], c[1..]);
        } else {
          SubsequenceTransitive(a, b[1..], c[1..]);
        }
      } else {
        SubsequenceTransitive(a, b, c[1..]);
      }
    }
  }

  /** A contiguous middle part is a subsequence. */
  lemma {:induction false} InfixIsSubsequence<T>(p: seq<T>, m: seq<T>, q: seq<T>)
    ensures IsSubsequence(m, p + m + q)
    decreases |m|
  {
    if |m| == 0 {
    } else {
      InfixIsSubsequence([], m[1..], q);
      assert [] + m[1..] + q == m[1..] + q;
      assert m + q == [m[0]] + (m[1..] + q);
      SubsequenceCons(m[0], m[1..], m[1..] + q);
      assert [m[0]] + m[1..] == m;
      assert p + m + q == p + (m + q);
      SubsequenceOfLonger(m, p, m + q);
    }
  }

  /** What `Strip` keeps is a subsequence of its input. */
  lemma StripIsSubsequence(s: string)
    ensures IsSubsequence(Strip(s), s)
  {
    var a, b := StripDecomposition(s);
    InfixIsSubsequence(a, Strip(s), b);
  }
}
