/** Base64 with the alphabet and padding of section 4 of RFC 4648, as the
    browser's `btoa` produces it, and the "forgiving-base64 decode" of the
    WHATWG Infra standard that the browser's `atob` performs. */
module Base64 {
  import opened Results
  import opened Bytes

  /** The character that encodes the 6-bit value `v`. */
  function IndexToChar(v: int): (c: char)
    requires 0 <= v < 64
  {
    if v < 26 then (65 + v) as char
    else if v < 52 then (97 + v - 26) as char
    else if v < 62 then (48 + v - 52) as char
    else if v == 62 then '+'
    else '/'
  }

  predicate IsAlphabet(c: char) {
    ('A' <= c <= 'Z') || ('a' <= c <= 'z') || ('0' <= c <= '9') || c == '+' || c == '/'
  }

  /** The 6-bit value a character of the alphabet stands for. */
  function CharToIndex(c: char): (v: int)
    requires IsAlphabet(c)
    ensures 0 <= v < 64 && IndexToChar(v) == c
  {
    if 'A' <= c <= 'Z' then c as int - 65
    else if 'a' <= c <= 'z' then c as int - 97 + 26
    else if '0' <= c <= '9' then c as int - 48 + 52
    else if c == '+' then 62
    else 63
  }

  lemma IndexToCharInverse(v: int)
    requires 0 <= v < 64
    ensures IsAlphabet(IndexToChar(v)) && CharToIndex(IndexToChar(v)) == v
  {
  }

  /** The four characters for three bytes. */
  function Quad(x: byte, y: byte, z: byte): (s: string)
    ensures |s| == 4 && forall i :: 0 <= i < 4 ==> IsAlphabet(s[i])
  {
    IndexToCharInverse(x as int / 4);
    IndexToCharInverse((x as int % 4) * 16 + y as int / 16);
    IndexToCharInverse((y as int % 16) * 4 + z as int / 64);
    IndexToCharInverse(z as int % 64);
    [IndexToChar(x as int / 4), IndexToChar((x as int % 4) * 16 + y as int / 16),
     IndexToChar((y as int % 16) * 4 + z as int / 64), IndexToChar(z as int % 64)]
  }

  /** The characters for the final one or two bytes, before padding. */
  function Tail(b: seq<byte>): (s: string)
    requires 1 <= |b| <= 2
    ensures |s| == |b| + 1 && forall i :: 0 <= i < |s| ==> IsAlphabet(s[i])
  {
    var x := b[0] as int;
    IndexToCharInverse(x / 4);
    if |b| == 1 then
      IndexToCharInverse((x % 4) * 16);
      [IndexToChar(x / 4), IndexToChar((x % 4) * 16)]
    else
      var y := b[1] as int;
      IndexToCharInverse((x % 4) * 16 + y / 16);
      IndexToCharInverse((y % 16) * 4);
      [IndexToChar(x / 4), IndexToChar((x % 4) * 16 + y / 16), IndexToChar((y % 16) * 4)]
  }

  /** The encoding without its `=` padding. */
  function EncodeUnpadded(b: seq<byte>): (s: string)
    ensures |s| % 4 == (if |b| % 3 == 0 then 0 else |b| % 3 + 1)
    ensures forall i :: 0 <= i < |s| ==> IsAlphabet(s[i])
    decreases |b|
  {
    if |b| == 0 then ""
    else if |b| < 3 then Tail(b)
    else Quad(b[0], b[1], b[2]) + EncodeUnpadded(b[3..])
  }

  function Padding(n: nat): string {
    if n % 3 == 1 then "==" else if n % 3 == 2 then "=" else ""
  }

  /** Base64 of a byte sequence, padded to a multiple of four characters. */
  function Encode(b: seq<byte>): (s: string)
    ensures |s| % 4 == 0
    ensures forall i :: 0 <= i < |s| ==> IsAlphabet(s[i]) || s[i] == '='
  {
    EncodeUnpadded(b) + Padding(|b|)
  }

  predicate IsAsciiWhitespace(c: char) {
    c == '\t' || c == '\n' || c == '\U{C}' || c == '\r' || c == ' '
  }

  function RemoveAsciiWhitespace(s: string): (r: string)
    ensures forall i :: 0 <= i < |r| ==> !IsAsciiWhitespace(r[i])
    decreases |s|
  {
    if s == [] then []
    else if IsAsciiWhitespace(s[0]) then RemoveAsciiWhitespace(s[1..])
    else [s[0]] + RemoveAsciiWhitespace(s[1..])
  }

  /** Step 2 of forgiving-base64 decode: a length divisible by four loses one
      or two trailing `=`. */
  function StripPadding(s: string): string {
    if |s| % 4 != 0 then s
    else if |s| >= 2 && s[|s| - 2..] == "==" then s[..|s| - 2]
    else if |s| >= 1 && s[|s| - 1] == '=' then s[..|s| - 1]
    else s
  }

  /** Bytes of a padding-free run of alphabet characters: six bits per
      character, the bits left over at the end are discarded. */
  function DecodeSextets(s: string): (b: seq<byte>)
    requires |s| % 4 != 1
    requires forall i :: 0 <= i < |s| ==> IsAlphabet(s[i])
    decreases |s|
  {
    if |s| < 2 then []
    else
      var a, c := CharToIndex(s[0]), CharToIndex(s[1]);
      var x := (a * 4 + c / 16) as byte;
      if |s| == 2 then [x]
      else
        var d := CharToIndex(s[2]);
        var y := ((c % 16) * 16 + d / 4) as byte;
        if |s| == 3 then [x, y]
        else
          var e := CharToIndex(s[3]);
          [x, y, ((d % 4) * 64 + e) as byte] + DecodeSextets(s[4..])
  }

  /** What `atob` returns, as bytes; `None` where it throws. */
  function Decode(s: string): (r: Option<seq<byte>>)
  {
    var t := StripPadding(RemoveAsciiWhitespace(s));
    if |t| % 4 == 1 then None
    else if exists i :: 0 <= i < |t| && !IsAlphabet(t[i]) then None
    else Some(DecodeSextets(t))
  }

  lemma QuadDecodes(x: byte, y: byte, z: byte, rest: string)
    requires |rest| % 4 != 1
    requires forall i :: 0 <= i < |rest| ==> IsAlphabet(rest[i])
    ensures |Quad(x, y, z) + rest| % 4 != 1
    ensures DecodeSextets(Quad(x, y, z) + rest) == [x, y, z] + DecodeSextets(rest)
  {
    var s := Quad(x, y, z) + rest;
    assert s[4..] == rest;
    var a, c := x as int / 4, (x as int % 4) * 16 + y as int / 16;
    var d, e := (y as int % 16) * 4 + z as int / 64, z as int % 64;
    IndexToCharInverse(a);
    IndexToCharInverse(c);
    IndexToCharInverse(d);
    IndexToCharInverse(e);
    assert a * 4 + c / 16 == x as int;
    assert (c % 16) * 16 + d / 4 == y as int;
    assert (d % 4) * 64 + e == z as int;
  }

  lemma TailDecodes(b: seq<byte>)
    requires 1 <= |b| <= 2
    ensures DecodeSextets(Tail(b)) == b
  {
    var x := b[0] as int;
    IndexToCharInverse(x / 4);
    if |b| == 1 {
      IndexToCharInverse((x % 4) * 16);
    } else {
      var y := b[1] as int;
      IndexToCharInverse((x % 4) * 16 + y / 16);
      IndexToCharInverse((y % 16) * 4);
      assert (((x % 4) * 16 + y / 16) % 16) * 16 + ((y % 16) * 4) / 4 == y;
    }
  }

  lemma {:induction false} DecodeSextetsOfEncodeUnpadded(b: seq<byte>)
    ensures DecodeSextets(EncodeUnpadded(b)) == b
    decreases |b|
  {
    if |b| == 0 {
    } else if |b| < 3 {
      TailDecodes(b);
    } else {
      var rest := EncodeUnpadded(b[3..]);
      assert EncodeUnpadded(b) == Quad(b[0], b[1], b[2]) + rest;
      DecodeSextetsOfEncodeUnpadded(b[3..]);
      QuadDecodes(b[0], b[1], b[2], rest);
      assert [b[0], b[1], b[2]] + b[3..] == b;
    }
  }

  lemma {:induction false} NoWhitespaceUnchanged(s: string)
    requires forall i :: 0 <= i < |s| ==> !IsAsciiWhitespace(s[i])
    ensures RemoveAsciiWhitespace(s) == s
    decreases |s|
  {
    if s != [] {
      NoWhitespaceUnchanged(s[1..]);
      assert [s[0]] + s[1..] == s;
    }
  }

  lemma StripPaddingOfEncode(b: seq<byte>)
    ensures StripPadding(Encode(b)) == EncodeUnpadded(b)
  {
    var u := EncodeUnpadded(b);
    var s := Encode(b);
    if |b| % 3 == 1 {
      assert s[|s| - 2..] == "==";
      assert s[..|s| - 2] == u;
    } else if |b| % 3 == 2 {
      assert s[|s| - 2] == u[|u| - 1];
      assert s[|s| - 2..] != "==";
      assert s[..|s| - 1] == u;
    } else {
      assert s == u;
      if |s| >= 2 {
        assert s[|s| - 1] != '=';
        assert s[|s| - 2..] != "==";
      }
    }
  }

  /** `atob(btoa(b))` gives back `b`. */
  lemma {:induction false} DecodeEncode(b: seq<byte>)
    ensures Decode(Encode(b)) == Some(b)
  {
    var s := Encode(b);
    NoWhitespaceUnchanged(s);
    StripPaddingOfEncode(b);
    var t := EncodeUnpadded(b);
    assert StripPadding(RemoveAsciiWhitespace(s)) == t;
    assert |t| % 4 != 1;
    DecodeSextetsOfEncodeUnpadded(b);
  }

}
