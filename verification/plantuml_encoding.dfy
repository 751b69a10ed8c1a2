/**
  The text encoding a PlantUML server expects in its URL: the diagram text is
  encoded as UTF-8, compressed with raw deflate (RFC 1951, no zlib header or
  trailer), written as standard base64 (section 4 of RFC 4648, with `=`
  padding), and finally every base64 digit is replaced by the digit of the
  same value in PlantUML's URL alphabet `0-9A-Za-z-_`.

  Deflate is not modelled: it is a parameter of the encoder.
 */
module PlantUmlEncoding {
  import opened Outcomes

  newtype byte = x: int | 0 <= x < 256

  // ---------------------------------------------------------------------------
  // The two 64-digit alphabets

  /** The base64 digit of value `i`: the i-th character of
      `ABCDEFGHIJKLMNOPQRSTUVWXYZabcdefghijklmnopqrstuvwxyz0123456789+/`. */
  function StandardChar(i: nat): char
    requires i < 64
  {
    if i < 26 then ('A' as int + i) as char
    else if i < 52 then ('a' as int + (i - 26)) as char
    else if i < 62 then ('0' as int + (i - 52)) as char
    else if i == 62 then '+'
    else '/'
  }

  predicate IsStandardChar(c: char)
  {
    ('A' <= c <= 'Z') || ('a' <= c <= 'z') || ('0' <= c <= '9') || c == '+' || c == '/'
  }

  /** The value of a base64 digit. */
  function StandardIndex(c: char): (i: nat)
    requires IsStandardChar(c)
    ensures i < 64 && StandardChar(i) == c
  {
    if 'A' <= c <= 'Z' then c as int - 'A' as int
    else if 'a' <= c <= 'z' then c as int - 'a' as int + 26
    else if '0' <= c <= '9' then c as int - '0' as int + 52
    else if c == '+' then 62
    else 63
  }

  /** The PlantUML digit of value `i`: the i-th character of
      `0123456789ABCDEFGHIJKLMNOPQRSTUVWXYZabcdefghijklmnopqrstuvwxyz-_`. */
  function PlantUmlChar(i: nat): char
    requires i < 64
  {
    if i < 10 then ('0' as int + i) as char
    else if i < 36 then ('A' as int + (i - 10)) as char
    else if i < 62 then ('a' as int + (i - 36)) as char
    else if i == 62 then '-'
    else '_'
  }

  predicate IsPlantUmlChar(c: char)
  {
    ('0' <= c <= '9') || ('A' <= c <= 'Z') || ('a' <= c <= 'z') || c == '-' || c == '_'
  }

  /** The value of a PlantUML digit. */
  function PlantUmlIndex(c: char): (i: nat)
    requires IsPlantUmlChar(c)
    ensures i < 64 && PlantUmlChar(i) == c
  {
    if '0' <= c <= '9' then c as int - '0' as int
    else if 'A' <= c <= 'Z' then c as int - 'A' as int + 10
    else if 'a' <= c <= 'z' then c as int - 'a' as int + 36
    else if c == '-' then 62
    else 63
  }

  /** Each alphabet lists every one of its digits once and nothing else. */
  lemma DigitValuesRoundTrip(i: nat)
    requires i < 64
    ensures IsStandardChar(StandardChar(i)) && StandardIndex(StandardChar(i)) == i
    ensures IsPlantUmlChar(PlantUmlChar(i)) && PlantUmlIndex(PlantUmlChar(i)) == i
  {
  }

  // ---------------------------------------------------------------------------
  // Translation between the alphabets (`str.translate` with `str.maketrans`)

  /** One character of `b64.translate(trans)`: a base64 digit becomes the PlantUML
      digit of the same value; any other character (the `=` padding) is kept. */
  function TranslateChar(c: char): char
  {
    if IsStandardChar(c) then PlantUmlChar(StandardIndex(c)) else c
  }

  /** The reverse table: a PlantUML digit back to the base64 digit of the same value. */
  function UntranslateChar(c: char): char
  {
    if IsPlantUmlChar(c) then StandardChar(PlantUmlIndex(c)) else c
  }

  function Translate(s: string): (r: string)
    ensures |r| == |s|
    ensures forall i :: 0 <= i < |s| ==> r[i] == TranslateChar(s[i])
  {
    seq(|s|, i requires 0 <= i < |s| => TranslateChar(s[i]))
  }

  function Untranslate(s: string): (r: string)
    ensures |r| == |s|
    ensures forall i :: 0 <= i < |s| ==> r[i] == UntranslateChar(s[i])
  {
    seq(|s|, i requires 0 <= i < |s| => UntranslateChar(s[i]))
  }

  /** The characters base64 can produce: digits and padding. */
  predicate IsBase64Text(s: string)
  {
    forall i :: 0 <= i < |s| ==> IsStandardChar(s[i]) || s[i] == '='
  }

  /** The translation maps the i-th base64 digit to the i-th PlantUML digit and
      leaves the padding alone. */
  lemma TranslateTable(i: nat)
    requires i < 64
    ensures TranslateChar(StandardChar(i)) == PlantUmlChar(i)
    ensures UntranslateChar(PlantUmlChar(i)) == StandardChar(i)
    ensures TranslateChar('=') == '=' && UntranslateChar('=') == '='
  {
    DigitValuesRoundTrip(i);
  }

  /** The reverse table recovers any base64 text from its translation. */
  lemma UntranslateTranslate(s: string)
    requires IsBase64Text(s)
    ensures Untranslate(Translate(s)) == s
  {
    forall i | 0 <= i < |s|
      ensures UntranslateChar(TranslateChar(s[i])) == s[i]
    {
      if IsStandardChar(s[i]) {
        DigitValuesRoundTrip(StandardIndex(s[i]));
      }
    }
  }

  /** The translation is one-to-one on base64 text. */
  lemma TranslateInjective(s: string, t: string)
    requires IsBase64Text(s) && IsBase64Text(t)
    requires Translate(s) == Translate(t)
    ensures s == t
  {
    UntranslateTranslate(s);
    UntranslateTranslate(t);
  }

  // ---------------------------------------------------------------------------
  // Standard base64 (section 4 of RFC 4648)

  /** Number of `=` characters that end the encoding of `n` bytes. */
  function PaddingLength(n: nat): nat
  {
    (3 - n % 3) % 3
  }

  /** The four digits for one complete three-byte group. */
  function EncodeGroup(b0: byte, b1: byte, b2: byte): string
  {
    [ StandardChar(b0 as int / 4),
      StandardChar((b0 as int % 4) * 16 + b1 as int / 16),
      StandardChar((b1 as int % 16) * 4 + b2 as int / 64),
      StandardChar(b2 as int % 64) ]
  }

  /** `base64.b64encode`: every three bytes become four digits; a final group of
      one or two bytes is zero-filled and padded with `=` to four characters. */
  function Base64Encode(data: seq<byte>): (r: string)
    ensures |r| == 4 * ((|data| + 2) / 3)
    decreases |data|
  {
    if |data| == 0 then ""
    else if |data| == 1 then
      [StandardChar(data[0] as int / 4), StandardChar((data[0] as int % 4) * 16), '=', '=']
    else if |data| == 2 then
      [ StandardChar(data[0] as int / 4),
        StandardChar((data[0] as int % 4) * 16 + data[1] as int / 16),
        StandardChar((data[1] as int % 16) * 4),
        '=' ]
    else
      EncodeGroup(data[0], data[1], data[2]) + Base64Encode(data[3..])
  }

  /** The encoding uses only base64 digits and `=`. */
  lemma {:induction false} Base64Alphabet(data: seq<byte>)
    ensures IsBase64Text(Base64Encode(data))
    decreases |data|
  {
    var r := Base64Encode(data);
    if |data| == 1 {
      DigitValuesRoundTrip(data[0] as int / 4);
      DigitValuesRoundTrip((data[0] as int % 4) * 16);
    } else if |data| == 2 {
      DigitValuesRoundTrip(data[0] as int / 4);
      DigitValuesRoundTrip((data[0] as int % 4) * 16 + data[1] as int / 16);
      DigitValuesRoundTrip((data[1] as int % 16) * 4);
    } else if |data| > 2 {
      Base64Alphabet(data[3..]);
      var g, rest := EncodeGroup(data[0], data[1], data[2]), Base64Encode(data[3..]);
      GroupRoundTrip(data[0], data[1], data[2]);
      assert r == g + rest;
      forall i | 0 <= i < |r|
        ensures IsStandardChar(r[i]) || r[i] == '='
      {
        if i >= 4 {
          assert r[i] == rest[i - 4];
        }
      }
    }
  }

  /** Padding: exactly the last `PaddingLength(|data|)` characters are `=`. */
  lemma {:induction false} Base64Padding(data: seq<byte>)
    ensures forall i :: 0 <= i < |Base64Encode(data)| ==>
      (Base64Encode(data)[i] == '=' <==> |Base64Encode(data)| - PaddingLength(|data|) <= i)
    decreases |data|
  {
    if |data| == 1 {
      DigitValuesRoundTrip(data[0] as int / 4);
      DigitValuesRoundTrip((data[0] as int % 4) * 16);
    } else if |data| == 2 {
      DigitValuesRoundTrip(data[0] as int / 4);
      DigitValuesRoundTrip((data[0] as int % 4) * 16 + data[1] as int / 16);
      DigitValuesRoundTrip((data[1] as int % 16) * 4);
    } else if |data| > 2 {
      Base64Padding(data[3..]);
      var g := EncodeGroup(data[0], data[1], data[2]);
      GroupRoundTrip(data[0], data[1], data[2]);
      assert Base64Encode(data) == g + Base64Encode(data[3..]);
      PaddingOfRest(|data|);
      PaddingAfterGroup(g, Base64Encode(data[3..]), PaddingLength(|data|));
    }
  }

  /** A group of digits in front keeps the `=` exactly in the last `p` places. */
  lemma PaddingAfterGroup(g: string, rest: string, p: nat)
    requires |g| == 4 && AllStandard(g) && p <= |rest|
    requires forall i :: 0 <= i < |rest| ==> (rest[i] == '=' <==> |rest| - p <= i)
    ensures forall i :: 0 <= i < |g + rest| ==> ((g + rest)[i] == '=' <==> |g + rest| - p <= i)
  {
    var r := g + rest;
    forall i | 0 <= i < |r|
      ensures r[i] == '=' <==> |r| - p <= i
    {
      if i < 4 {
        assert r[i] == g[i] && IsStandardChar(g[i]);
      } else {
        assert r[i] == rest[i - 4];
      }
    }
  }

  /** Dropping a full group keeps the padding, which fits in what follows the group. */
  lemma PaddingOfRest(n: nat)
    requires n > 2
    ensures PaddingLength(n - 3) == PaddingLength(n)
    ensures PaddingLength(n) <= 4 * ((n - 3 + 2) / 3)
  {
  }

  predicate AllStandard(s: string)
  {
    forall i :: 0 <= i < |s| ==> IsStandardChar(s[i])
  }

  /** The three bytes carried by four digit values. */
  function DecodeDigits(c0: nat, c1: nat, c2: nat, c3: nat): (r: seq<byte>)
    requires c0 < 64 && c1 < 64 && c2 < 64 && c3 < 64
    ensures |r| == 3
  {
    [(c0 * 4 + c1 / 16) as byte, ((c1 % 16) * 16 + c2 / 4) as byte, ((c2 % 4) * 64 + c3) as byte]
  }

  /** The three bytes carried by four base64 digits. */
  function DecodeGroup(g: string): (r: seq<byte>)
    requires |g| == 4 && AllStandard(g)
    ensures |r| == 3
  {
    DecodeDigits(StandardIndex(g[0]), StandardIndex(g[1]), StandardIndex(g[2]), StandardIndex(g[3]))
  }

  /** Inverse of `Base64Encode`: `None` for text of a length that is not a
      multiple of four, with a character outside the alphabet, or with padding
      anywhere but the end of the last group. */
  function Base64Decode(s: string): (r: Option<seq<byte>>)
    decreases |s|
  {
    if |s| == 0 then Some([])
    else if |s| < 4 then None
    else if |s| == 4 && s[2] == '=' && s[3] == '=' then
      if AllStandard(s[..2]) then
        Some(DecodeDigits(StandardIndex(s[0]), StandardIndex(s[1]), 0, 0)[..1])
      else None
    else if |s| == 4 && s[3] == '=' then
      if AllStandard(s[..3]) then
        Some(DecodeDigits(StandardIndex(s[0]), StandardIndex(s[1]), StandardIndex(s[2]), 0)[..2])
      else None
    else if AllStandard(s[..4]) then
      match Base64Decode(s[4..])
      case Some(rest) => Some(DecodeGroup(s[..4]) + rest)
      case None => None
    else None
  }

  /** The digit arithmetic of a group undone: the 6-bit pieces reassemble the bytes. */
  lemma GroupArithmetic(b0: byte, b1: byte, b2: byte)
    ensures var x0, x1, x2, x3 := b0 as int / 4, (b0 as int % 4) * 16 + b1 as int / 16,
                                  (b1 as int % 16) * 4 + b2 as int / 64, b2 as int % 64;
      && x0 < 64 && x1 < 64 && x2 < 64 && x3 < 64
      && DecodeDigits(x0, x1, x2, x3) == [b0, b1, b2]
  {
    var x1, x2 := (b0 as int % 4) * 16 + b1 as int / 16, (b1 as int % 16) * 4 + b2 as int / 64;
    assert x1 / 16 == b0 as int % 4 && x1 % 16 == b1 as int / 16;
    assert x2 / 4 == b1 as int % 16 && x2 % 4 == b2 as int / 64;
  }

  /** Four digit values written as base64 digits read back as the same values. */
  lemma DigitsRoundTrip(x0: nat, x1: nat, x2: nat, x3: nat)
    requires x0 < 64 && x1 < 64 && x2 < 64 && x3 < 64
    ensures var g := [StandardChar(x0), StandardChar(x1), StandardChar(x2), StandardChar(x3)];
      AllStandard(g) && DecodeGroup(g) == DecodeDigits(x0, x1, x2, x3)
  {
    DigitValuesRoundTrip(x0);
    DigitValuesRoundTrip(x1);
    DigitValuesRoundTrip(x2);
    DigitValuesRoundTrip(x3);
  }

  /** Decoding the four digits of a group gives back its three bytes. */
  lemma GroupRoundTrip(b0: byte, b1: byte, b2: byte)
    ensures var g := EncodeGroup(b0, b1, b2);
      AllStandard(g) && DecodeGroup(g) == [b0, b1, b2]
  {
    var x0, x1, x2, x3 := b0 as int / 4, (b0 as int % 4) * 16 + b1 as int / 16,
                          (b1 as int % 16) * 4 + b2 as int / 64, b2 as int % 64;
    GroupArithmetic(b0, b1, b2);
    DigitsRoundTrip(x0, x1, x2, x3);
  }

  /** A full leading group is decoded on its own, then the rest. */
  lemma DecodeLeadingGroup(g: string, rest: string, tail: seq<byte>)
    requires |g| == 4 && AllStandard(g)
    requires Base64Decode(rest) == Some(tail)
    ensures Base64Decode(g + rest) == Some(DecodeGroup(g) + tail)
  {
    var s := g + rest;
    assert s[..4] == g && s[4..] == rest;
    assert IsStandardChar(g[3]);
  }

  /** A final group of one digit pair and `==` decodes to one byte. */
  lemma DecodeOneByteTail(x0: nat, x1: nat)
    requires x0 < 64 && x1 < 64
    ensures Base64Decode([StandardChar(x0), StandardChar(x1), '=', '='])
      == Some(DecodeDigits(x0, x1, 0, 0)[..1])
  {
    var s := [StandardChar(x0), StandardChar(x1), '=', '='];
    DigitValuesRoundTrip(x0);
    DigitValuesRoundTrip(x1);
    assert s[..2] == [StandardChar(x0), StandardChar(x1)];
  }

  /** A final group of three digits and `=` decodes to two bytes. */
  lemma DecodeTwoByteTail(x0: nat, x1: nat, x2: nat)
    requires x0 < 64 && x1 < 64 && x2 < 64
    ensures Base64Decode([StandardChar(x0), StandardChar(x1), StandardChar(x2), '='])
      == Some(DecodeDigits(x0, x1, x2, 0)[..2])
  {
    var s := [StandardChar(x0), StandardChar(x1), StandardChar(x2), '='];
    DigitValuesRoundTrip(x0);
    DigitValuesRoundTrip(x1);
    DigitValuesRoundTrip(x2);
    assert s[..3] == [StandardChar(x0), StandardChar(x1), StandardChar(x2)];
  }

  /** A final group of one byte decodes back to it. */
  lemma OneByteRoundTrip(data: seq<byte>)
    requires |data| == 1
    ensures Base64Decode(Base64Encode(data)) == Some(data)
  {
    var x0, x1 := data[0] as int / 4, (data[0] as int % 4) * 16;
    GroupArithmetic(data[0], 0, 0);
    DecodeOneByteTail(x0, x1);
    TakeBytes(data, DecodeDigits(x0, x1, 0, 0), 1);
  }

  /** A final group of two bytes decodes back to them. */
  lemma TwoByteRoundTrip(data: seq<byte>)
    requires |data| == 2
    ensures Base64Decode(Base64Encode(data)) == Some(data)
  {
    var x0, x1, x2 := data[0] as int / 4, (data[0] as int % 4) * 16 + data[1] as int / 16,
                      (data[1] as int % 16) * 4;
    GroupArithmetic(data[0], data[1], 0);
    DecodeTwoByteTail(x0, x1, x2);
    TakeBytes(data, DecodeDigits(x0, x1, x2, 0), 2);
  }

  lemma TakeBytes(data: seq<byte>, h: seq<byte>, n: nat)
    requires |data| == n <= |h| && forall i :: 0 <= i < n ==> h[i] == data[i]
    ensures h[..n] == data
  {
  }

  /** A full leading group survives the round trip whenever the rest does. */
  lemma LeadingGroupRoundTrip(data: seq<byte>)
    requires |data| > 2
    requires Base64Decode(Base64Encode(data[3..])) == Some(data[3..])
    ensures Base64Decode(Base64Encode(data)) == Some(data)
  {
    var g, e := EncodeGroup(data[0], data[1], data[2]), Base64Encode(data[3..]);
    GroupRoundTrip(data[0], data[1], data[2]);
    DecodeLeadingGroup(g, e, data[3..]);
    SplitOffGroup(data, DecodeGroup(g));
    assert Base64Encode(data) == g + e;
  }

  lemma SplitOffGroup(data: seq<byte>, h: seq<byte>)
    requires |data| > 2 && h == [data[0], data[1], data[2]]
    ensures h + data[3..] == data
  {
  }

  /** Base64 loses nothing: decoding an encoding gives back the bytes. */
  lemma {:induction false} Base64RoundTrip(data: seq<byte>)
    ensures Base64Decode(Base64Encode(data)) == Some(data)
    decreases |data|
  {
    if |data| == 1 {
      OneByteRoundTrip(data);
    } else if |data| == 2 {
      TwoByteRoundTrip(data);
    } else if |data| > 2 {
      Base64RoundTrip(data[3..]);
      LeadingGroupRoundTrip(data);
    }
  }

  // ---------------------------------------------------------------------------
  // UTF-8 (`text.encode("utf-8")`)

  /** The UTF-8 bytes of one Unicode scalar value (section 3 of RFC 3629): the
      code point's bits in groups of six, the highest group in the lead byte. */
  function Utf8Char(c: char): (r: seq<byte>)
    ensures 1 <= |r| <= 4
    ensures |r| == 1 <==> c as int < 0x80
  {
    var n := c as int;
    var q1 := n / 64;
    var q2 := q1 / 64;
    var q3 := q2 / 64;
    if n < 0x80 then [n as byte]
    else if n < 0x800 then [(0xC0 + q1) as byte, (0x80 + n % 64) as byte]
    else if n < 0x1_0000 then
      [(0xE0 + q2) as byte, (0x80 + q1 % 64) as byte, (0x80 + n % 64) as byte]
    else
      [(0xF0 + q3) as byte, (0x80 + q2 % 64) as byte, (0x80 + q1 % 64) as byte, (0x80 + n % 64) as byte]
  }

  predicate IsAscii(s: string)
  {
    forall i :: 0 <= i < |s| ==> s[i] as int < 0x80
  }

  /** `text.encode("utf-8")`.  At least one byte per character; ASCII text is
      its own code points, one byte each. */
  function Utf8Encode(text: string): (r: seq<byte>)
    ensures |text| <= |r| <= 4 * |text|
    ensures IsAscii(text) ==> |r| == |text| && forall i :: 0 <= i < |text| ==> r[i] as int == text[i] as int
    decreases |text|
  {
    if |text| == 0 then []
    else
      var rest := Utf8Encode(text[1..]);
      assert IsAscii(text) ==> IsAscii(text[1..]);
      Utf8Char(text[0]) + rest
  }

  // ---------------------------------------------------------------------------
  // Reference reading: a UTF-8 decoder, written from RFC 3629

  /** A continuation byte, `10xxxxxx`. */
  predicate IsContinuation(b: byte)
  {
    0x80 <= b < 0xC0
  }

  /** The six payload bits of a continuation byte. */
  function Payload(b: byte): int
  {
    b as int - 0x80
  }

  /** The first character of `bs` and the number of bytes it takes, or `None`
      when `bs` does not start with a well-formed sequence: an overlong form,
      a surrogate or a code point above U+10FFFF is not well-formed. */
  function DecodeUtf8Char(bs: seq<byte>): (r: Option<(char, nat)>)
    requires |bs| > 0
    ensures r.Some? ==> 1 <= r.value.1 <= |bs|
  {
    var b0 := bs[0] as int;
    if b0 < 0x80 then Some((b0 as char, 1))
    else if 0xC2 <= b0 < 0xE0 && |bs| >= 2 && IsContinuation(bs[1]) then
      Some((((b0 - 0xC0) * 64 + Payload(bs[1])) as char, 2))
    else if 0xE0 <= b0 < 0xF0 && |bs| >= 3 && IsContinuation(bs[1]) && IsContinuation(bs[2]) then
      var n := ((b0 - 0xE0) * 64 + Payload(bs[1])) * 64 + Payload(bs[2]);
      if 0x800 <= n && (n < 0xD800 || 0xE000 <= n) then Some((n as char, 3)) else None
    else if 0xF0 <= b0 < 0xF5 && |bs| >= 4 && IsContinuation(bs[1]) && IsContinuation(bs[2]) && IsContinuation(bs[3]) then
      var n := (((b0 - 0xF0) * 64 + Payload(bs[1])) * 64 + Payload(bs[2])) * 64 + Payload(bs[3]);
      if 0x1_0000 <= n < 0x11_0000 then Some((n as char, 4)) else None
    else None
  }

  /** The text whose UTF-8 bytes are `bs`, or `None` for bytes that are not UTF-8. */
  function Utf8Decode(bs: seq<byte>): (r: Option<string>)
    ensures r.Some? ==> |r.value| <= |bs|
    decreases |bs|
  {
    if |bs| == 0 then Some([])
    else
      match DecodeUtf8Char(bs)
      case None => None
      case Some((c, k)) =>
        match Utf8Decode(bs[k..])
        case None => None
        case Some(s) => Some([c] + s)
  }

  /** The decoder reads back the character `Utf8Char` wrote, whatever follows. */
  lemma Utf8CharDecodes(c: char, rest: seq<byte>)
    ensures DecodeUtf8Char(Utf8Char(c) + rest) == Some((c, |Utf8Char(c)|))
  {
    var n := c as int;
    if n < 0x80 {
    } else if n < 0x800 {
      TwoByteCharDecodes(c, rest);
    } else if n < 0x1_0000 {
      ThreeByteCharDecodes(c, rest);
    } else {
      FourByteCharDecodes(c, rest);
    }
  }

  /** The two-byte form, for U+0080 to U+07FF. */
  lemma TwoByteCharDecodes(c: char, rest: seq<byte>)
    requires 0x80 <= c as int < 0x800
    ensures DecodeUtf8Char(Utf8Char(c) + rest) == Some((c, 2))
  {
    var n := c as int;
    assert n == (n / 64) * 64 + n % 64;
  }

  /** The three-byte form, for U+0800 to U+FFFF. */
  lemma ThreeByteCharDecodes(c: char, rest: seq<byte>)
    requires 0x800 <= c as int < 0x1_0000
    ensures DecodeUtf8Char(Utf8Char(c) + rest) == Some((c, 3))
  {
    var n := c as int;
    var q1 := n / 64;
    assert n == q1 * 64 + n % 64;
    assert q1 == (q1 / 64) * 64 + q1 % 64;
  }

  /** The four-byte form, for U+10000 and above. */
  lemma FourByteCharDecodes(c: char, rest: seq<byte>)
    requires 0x1_0000 <= c as int
    ensures DecodeUtf8Char(Utf8Char(c) + rest) == Some((c, 4))
  {
    var n := c as int;
    var q1 := n / 64;
    var q2 := q1 / 64;
    assert n == q1 * 64 + n % 64;
    assert q1 == q2 * 64 + q1 % 64;
    assert q2 == (q2 / 64) * 64 + q2 % 64;
  }

  /** The bytes `Utf8Encode` writes are the UTF-8 form of the text: the
      decoder gives the text back. */
  lemma {:induction false} Utf8RoundTrip(text: string)
    ensures Utf8Decode(Utf8Encode(text)) == Some(text)
    decreases |text|
  {
    if |text| > 0 {
      var head, rest := Utf8Char(text[0]), Utf8Encode(text[1..]);
      assert Utf8Encode(text) == head + rest;
      Utf8CharDecodes(text[0], rest);
      assert (head + rest)[|head|..] == rest;
      Utf8RoundTrip(text[1..]);
      assert text == [text[0]] + text[1..];
    }
  }

  // ---------------------------------------------------------------------------
  // The pipeline of `_plantuml_encode`

  /** `_plantuml_encode(text)` with the raw-deflate compressor supplied as `deflate`.
      The result has 4 characters for every started group of 3 compressed bytes,
      uses only PlantUML digits and `=`, and any `=` comes at the very end. */
  function Encode(deflate: seq<byte> -> seq<byte>, text: string): (r: string)
    ensures var n := |deflate(Utf8Encode(text))|;
      && |r| == 4 * ((n + 2) / 3)
      && (forall i :: 0 <= i < |r| ==> IsPlantUmlChar(r[i]) || r[i] == '=')
      && (forall i :: 0 <= i < |r| ==> (r[i] == '=' <==> |r| - PaddingLength(n) <= i))
  {
    var data := deflate(Utf8Encode(text));
    var b64 := Base64Encode(data);
    Base64Alphabet(data);
    Base64Padding(data);
    var r := Translate(b64);
    forall i | 0 <= i < |r|
      ensures IsPlantUmlChar(r[i]) || r[i] == '='
      ensures r[i] == '=' <==> |r| - PaddingLength(|data|) <= i
    {
      if IsStandardChar(b64[i]) {
        DigitValuesRoundTrip(StandardIndex(b64[i]));
      }
    }
    r
  }

  /** A decoder that inverts `Encode` up to the deflate step: the reverse
      alphabet, then base64 decoding.  It is the encoder's reference partner. */
  function Decode(encoded: string): Option<seq<byte>>
  {
    Base64Decode(Untranslate(encoded))
  }

  /** The URL text determines the compressed bytes exactly. */
  lemma EncodeRoundTrip(deflate: seq<byte> -> seq<byte>, text: string)
    ensures Decode(Encode(deflate, text)) == Some(deflate(Utf8Encode(text)))
  {
    var data := deflate(Utf8Encode(text));
    Base64Alphabet(data);
    UntranslateTranslate(Base64Encode(data));
    Base64RoundTrip(data);
  }
}
