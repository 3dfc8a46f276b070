/** UTF-8 (RFC 3629) as the browser uses it: the bytes that
    `unescape(encodeURIComponent(s))` yields for a string, and what
    `new TextDecoder().decode(bytes)` gives back, following the UTF-8 decoder
    of the WHATWG Encoding standard (malformed input becomes U+FFFD, and a
    leading byte order mark is dropped because `ignoreBOM` is false). */
module Utf8 {
  import opened Bytes

  const Replacement: char := '\U{FFFD}'
  const ByteOrderMark: char := '\U{FEFF}'

  /** The one to four bytes that encode one scalar value. */
  function EncodeChar(c: char): (b: seq<byte>)
    ensures 1 <= |b| <= 4
  {
    var n := c as int;
    if n < 0x80 then [n as byte]
    else if n < 0x800 then [(0xC0 + n / 64) as byte, (0x80 + n % 64) as byte]
    else if n < 0x10000 then
      [(0xE0 + n / 4096) as byte, (0x80 + n / 64 % 64) as byte, (0x80 + n % 64) as byte]
    else
      [(0xF0 + n / 262144) as byte, (0x80 + n / 4096 % 64) as byte,
       (0x80 + n / 64 % 64) as byte, (0x80 + n % 64) as byte]
  }

  function Encode(s: string): (b: seq<byte>)
    ensures |b| >= |s|
    decreases |s|
  {
    if s == [] then [] else EncodeChar(s[0]) + Encode(s[1..])
  }

  /** Byte `j` after the lead byte is present and within [lower, upper]. */
  predicate ContinuationAt(b: seq<byte>, j: nat, lower: int, upper: int) {
    j < |b| && lower <= b[j] as int <= upper
  }

  /** How many of the `need` continuation bytes after the lead byte `b[0]` are
      acceptable before the first one that is missing or out of range; the
      first is bounded by [lower, upper], the others by [0x80, 0xBF]. */
  function ContinuationRun(b: seq<byte>, need: nat, lower: int, upper: int): (k: nat)
    requires 1 <= need <= 3 && |b| >= 1
    ensures k <= need && k < |b|
    ensures k >= 1 ==> ContinuationAt(b, 1, lower, upper)
    ensures k >= 2 ==> ContinuationAt(b, 2, 0x80, 0xBF)
    ensures k >= 3 ==> ContinuationAt(b, 3, 0x80, 0xBF)
    ensures k < need ==> !ContinuationAt(b, k + 1, if k == 0 then lower else 0x80, if k == 0 then upper else 0xBF)
  {
    if !ContinuationAt(b, 1, lower, upper) then 0
    else if need == 1 || !ContinuationAt(b, 2, 0x80, 0xBF) then 1
    else if need == 2 || !ContinuationAt(b, 3, 0x80, 0xBF) then 2
    else 3
  }

  /** The bounds the WHATWG decoder puts on the first continuation byte after
      the lead byte `lead`, which exclude overlong forms, surrogates and
      values above U+10FFFF. */
  function LowerBound(lead: int): int {
    if lead == 0xE0 then 0xA0 else if lead == 0xF0 then 0x90 else 0x80
  }

  function UpperBound(lead: int): int {
    if lead == 0xED then 0x9F else if lead == 0xF4 then 0x8F else 0xBF
  }

  /** Number of continuation bytes a lead byte announces, 0 for an ASCII byte
      or a byte that cannot start a sequence. */
  function Needed(lead: int): nat {
    if 0xC2 <= lead <= 0xDF then 1
    else if 0xE0 <= lead <= 0xEF then 2
    else if 0xF0 <= lead <= 0xF4 then 3
    else 0
  }

  /** The scalar value of a complete, well-formed sequence at the head of `b`. */
  function ScalarAt(b: seq<byte>): (c: char)
    requires |b| >= 1 && Needed(b[0] as int) >= 1
    requires ContinuationRun(b, Needed(b[0] as int), LowerBound(b[0] as int), UpperBound(b[0] as int)) == Needed(b[0] as int)
  {
    var lead := b[0] as int;
    var need := Needed(lead);
    assert ContinuationAt(b, 1, LowerBound(lead), UpperBound(lead));
    var c1 := b[1] as int - 0x80;
    if need == 1 then
      ((lead - 0xC0) * 64 + c1) as char
    else
      assert ContinuationAt(b, 2, 0x80, 0xBF);
      var c2 := b[2] as int - 0x80;
      if need == 2 then
        ((lead - 0xE0) * 4096 + c1 * 64 + c2) as char
      else
        assert ContinuationAt(b, 3, 0x80, 0xBF);
        var c3 := b[3] as int - 0x80;
        ((lead - 0xF0) * 262144 + c1 * 4096 + c2 * 64 + c3) as char
  }

  /** The WHATWG UTF-8 decoder over a whole byte stream: a malformed sequence
      yields one U+FFFD and decoding resumes at the offending byte; a sequence
      cut off by the end of the stream yields one U+FFFD. */
  function DecodeStream(b: seq<byte>): (s: string)
    decreases |b|
  {
    if b == [] then []
    else
      var lead := b[0] as int;
      var need := Needed(lead);
      if lead < 0x80 then [lead as char] + DecodeStream(b[1..])
      else if need == 0 then [Replacement] + DecodeStream(b[1..])
      else
        var k := ContinuationRun(b, need, LowerBound(lead), UpperBound(lead));
        if k == need then [ScalarAt(b)] + DecodeStream(b[need + 1..])
        else [Replacement] + DecodeStream(b[k + 1..])
  }

  /** `new TextDecoder().decode(b)`: decoding, then dropping a leading U+FEFF. */
  function TextDecode(b: seq<byte>): (s: string)
  {
    var t := DecodeStream(b);
    if |t| > 0 && t[0] == ByteOrderMark then t[1..] else t
  }

  lemma DecodeTwoByteChar(c: char, rest: seq<byte>)
    requires 0x80 <= c as int < 0x800
    ensures DecodeStream(EncodeChar(c) + rest) == [c] + DecodeStream(rest)
  {
    var n := c as int;
    var b := EncodeChar(c) + rest;
    var lead := b[0] as int;
    assert lead == 0xC0 + n / 64 && b[1] as int == 0x80 + n % 64;
    assert Needed(lead) == 1;
    assert ContinuationRun(b, 1, LowerBound(lead), UpperBound(lead)) == 1;
    assert ScalarAt(b) == c;
    assert b[2..] == rest;
  }

  lemma DecodeThreeByteChar(c: char, rest: seq<byte>)
    requires 0x800 <= c as int < 0x10000
    ensures DecodeStream(EncodeChar(c) + rest) == [c] + DecodeStream(rest)
  {
    var n := c as int;
    var b := EncodeChar(c) + rest;
    var lead := b[0] as int;
    assert lead == 0xE0 + n / 4096;
    assert b[1] as int == 0x80 + n / 64 % 64 && b[2] as int == 0x80 + n % 64;
    assert Needed(lead) == 2;
    assert LowerBound(lead) <= b[1] as int <= UpperBound(lead);
    assert ContinuationRun(b, 2, LowerBound(lead), UpperBound(lead)) == 2;
    assert (lead - 0xE0) * 4096 + (n / 64 % 64) * 64 + n % 64 == n;
    assert ScalarAt(b) == c;
    assert b[3..] == rest;
  }

  lemma DecodeFourByteChar(c: char, rest: seq<byte>)
    requires 0x10000 <= c as int
    ensures DecodeStream(EncodeChar(c) + rest) == [c] + DecodeStream(rest)
  {
    var n := c as int;
    var b := EncodeChar(c) + rest;
    var lead := b[0] as int;
    assert lead == 0xF0 + n / 262144;
    assert b[1] as int == 0x80 + n / 4096 % 64;
    assert b[2] as int == 0x80 + n / 64 % 64 && b[3] as int == 0x80 + n % 64;
    assert Needed(lead) == 3;
    assert LowerBound(lead) <= b[1] as int <= UpperBound(lead);
    assert ContinuationRun(b, 3, LowerBound(lead), UpperBound(lead)) == 3;
    assert (lead - 0xF0) * 262144 + (n / 4096 % 64) * 4096 + (n / 64 % 64) * 64 + n % 64 == n;
    assert ScalarAt(b) == c;
    assert b[4..] == rest;
  }

  /** The decoder reads back exactly one encoded scalar value. */
  lemma DecodeEncodedChar(c: char, rest: seq<byte>)
    ensures DecodeStream(EncodeChar(c) + rest) == [c] + DecodeStream(rest)
  {
    var n := c as int;
    if n < 0x80 {
      var b := EncodeChar(c) + rest;
      assert b[1..] == rest;
    } else if n < 0x800 {
      DecodeTwoByteChar(c, rest);
    } else if n < 0x10000 {
      DecodeThreeByteChar(c, rest);
    } else {
      DecodeFourByteChar(c, rest);
    }
  }

  lemma {:induction false} DecodeStreamEncode(s: string)
    ensures DecodeStream(Encode(s)) == s
    decreases |s|
  {
    if s != [] {
      DecodeEncodedChar(s[0], Encode(s[1..]));
      DecodeStreamEncode(s[1..]);
      assert [s[0]] + s[1..] == s;
    }
  }

  /** Decoding what was encoded gives back the text, except that a leading
      U+FEFF is taken for a byte order mark and dropped. */
  lemma TextDecodeEncode(s: string)
    ensures s == [] || s[0] != ByteOrderMark ==> TextDecode(Encode(s)) == s
    ensures s != [] && s[0] == ByteOrderMark ==> TextDecode(Encode(s)) == s[1..]
  {
    DecodeStreamEncode(s);
  }

}
