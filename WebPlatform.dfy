/** The browser functions the client calls on strings, in terms of Base64 and
    UTF-8: `btoa`, `atob`, the `unescape(encodeURIComponent(s))` idiom that
    turns text into the binary string of its UTF-8 bytes, and the payload of a
    `FileReader.readAsDataURL` result after its comma. */
module WebPlatform {
  import opened Results
  import opened Bytes
  import Base64
  import Utf8

  /** `btoa(s)`; `None` where it throws, that is, for a character above U+00FF. */
  function Btoa(s: string): (r: Option<string>)
    ensures r.Some? <==> IsBinaryString(s)
  {
    if IsBinaryString(s) then Some(Base64.Encode(CharCodes(s))) else None
  }

  /** `atob(s)`, a binary string; `None` where it throws. */
  function Atob(s: string): (r: Option<string>)
    ensures r.Some? ==> IsBinaryString(r.value)
  {
    match Base64.Decode(s)
    case None => None
    case Some(b) => Some(ToBinaryString(b))
  }

  /** `unescape(encodeURIComponent(s))`: one character per UTF-8 byte of `s`. */
  function Utf8BinaryString(s: string): (r: string)
    ensures IsBinaryString(r)
  {
    ToBinaryString(Utf8.Encode(s))
  }

  /** The Base64 part of the data URL `readAsDataURL` produces for a file
      with the given bytes. */
  function DataUrlBase64(content: seq<byte>): string {
    Base64.Encode(content)
  }

  /** `atob` undoes `btoa` on every string `btoa` accepts. */
  lemma AtobBtoa(s: string)
    requires IsBinaryString(s)
    ensures Btoa(s).Some? && Atob(Btoa(s).value) == Some(s)
  {
    var b := CharCodes(s);
    Base64.DecodeEncode(b);
    assert ToBinaryString(b) == s;
  }

  /** `btoa(unescape(encodeURIComponent(text)))` never throws, and `atob` on
      its result gives back the UTF-8 bytes of `text`. */
  lemma EncodedTextDecodes(text: string)
    ensures Btoa(Utf8BinaryString(text)).Some?
    ensures Atob(Btoa(Utf8BinaryString(text)).value) == Some(Utf8BinaryString(text))
    ensures CharCodes(Utf8BinaryString(text)) == Utf8.Encode(text)
  {
    AtobBtoa(Utf8BinaryString(text));
    CharCodesOfBinaryString(Utf8.Encode(text));
  }

}
