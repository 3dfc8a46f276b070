/** Bytes and JavaScript "binary strings": strings every character of which
    has a code below 256, one character per byte (what `atob` returns, what
    `btoa` accepts, and what `unescape(encodeURIComponent(s))` produces). */
module Bytes {

  newtype byte = x: int | 0 <= x < 256

  predicate IsBinaryString(s: string) {
    forall i :: 0 <= i < |s| ==> s[i] as int < 256
  }

  /** The binary string whose character codes are the given bytes. */
  function ToBinaryString(b: seq<byte>): (s: string)
    ensures |s| == |b| && IsBinaryString(s)
    ensures forall i :: 0 <= i < |b| ==> s[i] as int == b[i] as int
  {
    seq(|b|, i requires 0 <= i < |b| => b[i] as int as char)
  }

  /** The character codes of a binary string (`charCodeAt` at every index). */
  function CharCodes(s: string): (b: seq<byte>)
    requires IsBinaryString(s)
    ensures |b| == |s|
    ensures forall i :: 0 <= i < |s| ==> b[i] as int == s[i] as int
  {
    seq(|s|, i requires 0 <= i < |s| => s[i] as int as byte)
  }

  lemma CharCodesOfBinaryString(b: seq<byte>)
    ensures CharCodes(ToBinaryString(b)) == b
  {
    var s := ToBinaryString(b);
    assert forall i :: 0 <= i < |b| ==> CharCodes(s)[i] == b[i];
  }

}
