/** The chat service: turning a send into an ordered list of message parts,
    folding the streamed reply into a running total, the lazily created and
    reusable remote chat session, and the remapping of one remote error. */
module GeminiService {
  import opened Results
  import opened Bytes
  import opened JsText
  import opened WebPlatform
  import opened ChatTypes
  import Utf8

  const TextPlain := "text/plain"
  const FallbackInstruction :=
    "Please analyze the uploaded documents and provide a professional summary based on Indian legal standards."
  const EntityNotFound := "Requested entity was not found"
  /** The message that replaces a "not found" error. It is written in short
      pieces because the verifier inspects the characters of a short string
      literal, which `ApiKeyIssueLacksEntityNotFound` relies on. */
  const ApiKeyIssue := "API Key configuration " + "issue. Please ensure " + "your project is " + "properly set up."

  // ---------------------------------------------------------------- decoding

  /** What `base64ToUtf8` returns: the UTF-8 text whose bytes the Base64 string
      encodes, or the empty string where `atob` throws. */
  function DecodedText(base64: string): string {
    match Atob(base64)
    case None => ""
    case Some(binary) => Utf8.TextDecode(CharCodes(binary))
  }

  /** Text stored as `btoa(unescape(encodeURIComponent(text)))` decodes back to
      itself, unless it starts with U+FEFF, which the decoder drops as a byte
      order mark. */
  lemma DecodedTextRoundTrip(text: string)
    ensures Btoa(Utf8BinaryString(text)).Some?
    ensures var back := DecodedText(Btoa(Utf8BinaryString(text)).value);
      && (text == [] || text[0] != Utf8.ByteOrderMark ==> back == text)
      && (text != [] && text[0] == Utf8.ByteOrderMark ==> back == text[1..])
  {
    EncodedTextDecodes(text);
    Utf8.TextDecodeEncode(text);
  }

  /** `base64ToUtf8`: `atob`, the character codes copied into a byte array,
      then `TextDecoder`; any failure of `atob` gives "". */
  method Base64ToUtf8(base64: string) returns (text: string)
    ensures text == DecodedText(base64)
    ensures Atob(base64).None? ==> text == ""
  {
    var decoded := Atob(base64);
    if decoded.None? {
      return "";
    }
    var binaryString := decoded.value;
    var bytes := new byte[|binaryString|];
    for i := 0 to |binaryString|
      invariant forall k :: 0 <= k < i ==> bytes[k] as int == binaryString[k] as int
    {
      // a Uint8Array stores its value modulo 256
      bytes[i] := (binaryString[i] as int % 256) as byte;
    }
    assert bytes[..] == CharCodes(binaryString);
    text := Utf8.TextDecode(bytes[..]);
  }

  // ---------------------------------------------------------- message parts

  datatype Part = TextPart(text: string) | InlineData(mimeType: string, data: string)

  /** A file goes out as text when it is plain text by type or by name. */
  predicate IsTextFile(file: UploadedFile) {
    file.mimeType == TextPlain || EndsWith(file.name, ".txt")
  }

  /** The part that carries one file. */
  function FilePart(file: UploadedFile): Part {
    if IsTextFile(file) then TextPart("[Document: " + file.name + "]\n" + DecodedText(file.data))
    else InlineData(file.mimeType, file.data)
  }

  /** `parts` is the message for `text` and `files`: one part per file in
      order, then the text if there is any, else the fallback instruction if
      there is a file. */
  ghost predicate PartsFor(text: string, files: seq<UploadedFile>, parts: seq<Part>) {
    && |parts| == |files| + (if text != "" || files != [] then 1 else 0)
    && (forall i :: 0 <= i < |files| ==> parts[i] == FilePart(files[i]))
    && (text != "" ==> parts[|files|] == TextPart(text))
    && (text == "" && files != [] ==> parts[|files|] == TextPart(FallbackInstruction))
  }

  /** The parts of a message, as `sendMessageStream` pushes them. */
  method BuildParts(text: string, newFiles: seq<UploadedFile>) returns (parts: seq<Part>)
    ensures PartsFor(text, newFiles, parts)
  {
    parts := [];
    for i := 0 to |newFiles|
      invariant |parts| == i
      invariant forall k :: 0 <= k < i ==> parts[k] == FilePart(newFiles[k])
    {
      var file := newFiles[i];
      if file.mimeType == TextPlain || EndsWith(file.name, ".txt") {
        var decodedContent := Base64ToUtf8(file.data);
        parts := parts + [TextPart("[Document: " + file.name + "]\n" + decodedContent)];
      } else {
        parts := parts + [InlineData(file.mimeType, file.data)];
      }
    }
    if text != "" {
      parts := parts + [TextPart(text)];
    }
    if |parts| > 0 && text == "" && |newFiles| > 0 {
      parts := parts + [TextPart(FallbackInstruction)];
    }
  }

  /** The message parts are determined by the text and the files alone, and
      are empty only when both are. */
  lemma PartsForUnique(text: string, files: seq<UploadedFile>, p: seq<Part>, q: seq<Part>)
    requires PartsFor(text, files, p) && PartsFor(text, files, q)
    ensures p == q
    ensures p == [] <==> text == "" && files == []
  {
    forall i | 0 <= i < |p| ensures p[i] == q[i] {
      if i < |files| {
        assert p[i] == FilePart(files[i]) == q[i];
      }
    }
  }

  // ------------------------------------------------------ stream accumulation

  /** What the SDK's promise is rejected with: an `Error` with a message, or
      some other thrown value. */
  datatype Thrown = ErrorObject(message: string) | NonError

  /** The remote reply to one turn: the text of each streamed chunk in order
      ("" for a chunk without text), then possibly a failure. */
  datatype RemoteReply = RemoteReply(fragments: seq<string>, failure: Option<Thrown>)

  /** How `sendMessageStream` settles: resolved with the full text, or rejected. */
  datatype StreamOutcome = Completed(fullText: string) | Failed(error: Thrown)

  /** The running total after all the fragments. */
  function Concat(fragments: seq<string>): string
    decreases |fragments|
  {
    if fragments == [] then ""
    else Concat(fragments[..|fragments| - 1]) + fragments[|fragments| - 1]
  }

  /** The values handed to `onChunk`: the running total after every fragment
      that has text. */
  function Published(fragments: seq<string>): seq<string>
    decreases |fragments|
  {
    if fragments == [] then []
    else
      var n := |fragments|;
      Published(fragments[..n - 1]) + (if fragments[n - 1] != "" then [Concat(fragments)] else [])
  }

  /** The number of fragments that have text. */
  function NonEmptyCount(fragments: seq<string>): nat
    decreases |fragments|
  {
    if fragments == [] then 0
    else NonEmptyCount(fragments[..|fragments| - 1]) + (if fragments[|fragments| - 1] != "" then 1 else 0)
  }

  /** `onChunk` is called once per fragment with text; every value strictly
      extends the one before; the last one is the full text, and the full
      text is empty when nothing was published. */
  lemma {:induction false} PublishedGrows(fragments: seq<string>)
    ensures |Published(fragments)| == NonEmptyCount(fragments)
    ensures forall k :: 0 <= k < |Published(fragments)| - 1 ==>
      Published(fragments)[k] < Published(fragments)[k + 1]
    ensures Published(fragments) != [] ==> Published(fragments)[|Published(fragments)| - 1] == Concat(fragments)
    ensures Published(fragments) == [] ==> Concat(fragments) == ""
    ensures forall k :: 0 <= k < |Published(fragments)| ==> Published(fragments)[k] <= Concat(fragments)
    decreases |fragments|
  {
    if fragments != [] {
      var n := |fragments|;
      var init := fragments[..n - 1];
      PublishedGrows(init);
      var p, c := Published(init), Concat(init);
      assert Concat(fragments) == c + fragments[n - 1];
      assert c <= Concat(fragments);
    }
  }

  /** The `for await` loop of `sendMessageStream`: `fullText` accumulates the
      fragments, and each fragment with text republishes it. */
  method AccumulateStream(fragments: seq<string>) returns (published: seq<string>, fullText: string)
    ensures published == Published(fragments)
    ensures fullText == Concat(fragments)
    ensures fullText == if published == [] then "" else published[|published| - 1]
  {
    published, fullText := [], "";
    for i := 0 to |fragments|
      invariant published == Published(fragments[..i])
      invariant fullText == Concat(fragments[..i])
    {
      assert fragments[..i + 1][..i] == fragments[..i];
      var chunkText := fragments[i];
      if chunkText != "" {
        fullText := fullText + chunkText;
        published := published + [fullText];
      } else {
        assert fullText + chunkText == fullText;
      }
    }
    assert fragments[..|fragments|] == fragments;
    PublishedGrows(fragments);
  }

  // ------------------------------------------------------------------ errors

  /** The error `sendMessageStream` rethrows for a remote failure. */
  function MapError(e: Thrown): Thrown {
    if e.ErrorObject? && Includes(e.message, EntityNotFound) then ErrorObject(ApiKeyIssue) else e
  }

  lemma ApiKeyIssueLacksEntityNotFound()
    ensures !Includes(ApiKeyIssue, EntityNotFound)
  {
    assert 'R' !in ApiKeyIssue;
    assert EntityNotFound[0] == 'R';
  }

  /** After remapping, no error carries the "not found" text, and an error that
      did not carry it is passed through unchanged; so remapping is idempotent. */
  lemma MapErrorRemovesNotFound(e: Thrown)
    ensures !(MapError(e).ErrorObject? && Includes(MapError(e).message, EntityNotFound))
    ensures !(e.ErrorObject? && Includes(e.message, EntityNotFound)) ==> MapError(e) == e
    ensures MapError(MapError(e)) == MapError(e)
  {
    ApiKeyIssueLacksEntityNotFound();
  }

  // ------------------------------------------------------------ the service

  /** A remote chat session; `serial` tells sessions apart. */
  datatype ChatHandle = ChatHandle(serial: nat)

  /** The module-level state of the service: the client `ai` (created on
      first use) and the chat session `chatSession` (created on first send,
      discarded by `ResetChat`). */
  class ChatService {
    var ai: bool
    var chatSession: Option<ChatHandle>
    var handlesCreated: nat

    /** Every session handed out so far has a serial below `handlesCreated`. */
    ghost predicate Valid()
      reads this
    {
      chatSession.Some? ==> chatSession.value.serial < handlesCreated
    }

    constructor ()
      ensures Valid()
      ensures !ai && chatSession == None && handlesCreated == 0
    {
      ai := false;
      chatSession := None;
      handlesCreated := 0;
    }

    /** `initGemini`: creates the client (a missing API key is only logged). */
    method InitGemini()
      modifies this`ai
      ensures ai
    {
      ai := true;
    }

    /** `resetChat`: the next send starts a new remote session. */
    method ResetChat()
      requires Valid()
      modifies this`chatSession
      ensures Valid() && chatSession == None
    {
      chatSession := None;
    }

    /** `sendMessageStream`: creates the session only when there is none,
        sends the parts, publishes the running totals, and settles with the
        full text or with the remapped error. A failure keeps the session. */
    method SendMessageStream(text: string, newFiles: seq<UploadedFile>, reply: RemoteReply)
      returns (parts: seq<Part>, published: seq<string>, outcome: StreamOutcome)
      requires Valid()
      modifies this
      ensures Valid() && ai
      ensures old(chatSession).Some? ==> chatSession == old(chatSession) && handlesCreated == old(handlesCreated)
      ensures old(chatSession).None? ==>
        chatSession == Some(ChatHandle(old(handlesCreated))) && handlesCreated == old(handlesCreated) + 1
      ensures PartsFor(text, newFiles, parts)
      ensures published == Published(reply.fragments)
      ensures outcome == match reply.failure
        case Some(e) => Failed(MapError(e))
        case None => Completed(Concat(reply.fragments))
    {
      if !ai {
        InitGemini();
      }
      if chatSession.None? {
        chatSession := Some(ChatHandle(handlesCreated));
        handlesCreated := handlesCreated + 1;
      }
      parts := BuildParts(text, newFiles);
      var fullText;
      published, fullText := AccumulateStream(reply.fragments);
      match reply.failure
      case Some(e) =>
        outcome := Failed(MapError(e));
      case None =>
        outcome := Completed(fullText);
    }
  }

}
