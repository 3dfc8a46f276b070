/** The client's state (`files`, `messages`, `input`, `status`) and its
    handlers: batch upload, removal by id, reset, and a send whose streamed
    reply is reconciled into the placeholder message. Each handler runs
    atomically on the current state; identities are supplied by the caller. */
module ChatApp {
  import opened Results
  import opened JsText
  import opened ChatTypes
  import opened Seqs
  import opened Upload
  import opened GeminiService
  import opened WebPlatform
  import Utf8

  const AttachedFilesPrompt := "Please analyze the attached files."
  const ConnectionFailed := "Connection failed"

  // -------------------------------------------------------------- file list

  function KeepOthers(id: string): UploadedFile -> bool {
    (f: UploadedFile) => f.id != id
  }

  /** `files.filter(f => f.id !== id)`. */
  function WithoutId(files: seq<UploadedFile>, id: string): seq<UploadedFile> {
    Filter(files, KeepOthers(id))
  }

  /** Removal keeps exactly the entries with another id, never adds one, and
      removing twice is removing once. */
  lemma WithoutIdMembers(files: seq<UploadedFile>, id: string)
    ensures |WithoutId(files, id)| <= |files|
    ensures forall f :: f in WithoutId(files, id) <==> f in files && f.id != id
    ensures WithoutId(WithoutId(files, id), id) == WithoutId(files, id)
  {
    FilterMembers(files, KeepOthers(id));
    FilterIdempotent(files, KeepOthers(id));
  }

  /** Removal keeps the relative order of the remaining entries: it acts on
      each part of a list separately. */
  lemma WithoutIdAppend(a: seq<UploadedFile>, b: seq<UploadedFile>, id: string)
    ensures WithoutId(a + b, id) == WithoutId(a, id) + WithoutId(b, id)
  {
    FilterAppend(a, b, KeepOthers(id));
  }

  /** Removing an id no entry carries changes nothing. */
  lemma {:induction false} WithoutAbsentId(files: seq<UploadedFile>, id: string)
    requires forall f :: f in files ==> f.id != id
    ensures WithoutId(files, id) == files
    decreases |files|
  {
    if files != [] {
      var init := files[..|files| - 1];
      assert files == init + [files[|files| - 1]];
      WithoutAbsentId(init, id);
    }
  }

  predicate IsUnsent(f: UploadedFile) {
    !f.isSent
  }

  /** `files.every(f => f.isSent)`. */
  predicate AllSent(files: seq<UploadedFile>) {
    forall f :: f in files ==> f.isSent
  }

  /** `files.filter(f => !f.isSent)`: the files the next send carries. */
  function PendingFiles(files: seq<UploadedFile>): seq<UploadedFile> {
    Filter(files, IsUnsent)
  }

  /** Some entry of `pending` has identity `id`. */
  predicate Listed(pending: seq<UploadedFile>, id: string) {
    exists k :: 0 <= k < |pending| && pending[k].id == id
  }

  /** The `map` that sets `isSent` on every file whose id is among the
      pending ones. No file loses `isSent`, and nothing but `isSent` changes. */
  function MarkSent(files: seq<UploadedFile>, pending: seq<UploadedFile>): (r: seq<UploadedFile>)
    ensures |r| == |files|
    ensures forall i :: 0 <= i < |files| ==>
      && r[i].(isSent := files[i].isSent) == files[i]
      && (r[i].isSent <==> files[i].isSent || Listed(pending, files[i].id))
  {
    seq(|files|, i requires 0 <= i < |files| =>
      if Listed(pending, files[i].id) then files[i].(isSent := true) else files[i])
  }

  /** Marking the pending files of a list leaves every file sent, and changes
      exactly the files that were unsent. */
  lemma MarkPendingSent(files: seq<UploadedFile>)
    ensures AllSent(MarkSent(files, PendingFiles(files)))
    ensures forall i :: 0 <= i < |files| ==>
      (MarkSent(files, PendingFiles(files))[i] != files[i] <==> !files[i].isSent)
  {
    var pending := PendingFiles(files);
    var r := MarkSent(files, pending);
    FilterMembers(files, IsUnsent);
    forall i | 0 <= i < |files|
      ensures r[i].isSent && (r[i] != files[i] <==> !files[i].isSent)
    {
      if !files[i].isSent {
        assert files[i] in pending;
        var k :| 0 <= k < |pending| && pending[k] == files[i];
        assert Listed(pending, files[i].id);
      }
    }
  }

  /** Marking the same files twice is marking them once. */
  lemma MarkSentIdempotent(files: seq<UploadedFile>, pending: seq<UploadedFile>)
    ensures MarkSent(MarkSent(files, pending), pending) == MarkSent(files, pending)
  {
    var once := MarkSent(files, pending);
    var twice := MarkSent(once, pending);
    forall i | 0 <= i < |files| ensures twice[i] == once[i] {
      assert once[i].id == files[i].id;
    }
  }

  /** The send guard: the status is idle, and there is text after trimming or
      a file not yet sent. */
  predicate CanSend(input: string, files: seq<UploadedFile>, status: ChatStatus) {
    status == Idle && (Trim(input) != "" || !AllSent(files))
  }

  /** A send that passes the guard always has something to send: text, or a
      pending file. So its message parts are never empty. */
  lemma GuardedSendHasContent(input: string, files: seq<UploadedFile>, status: ChatStatus)
    requires CanSend(input, files, status)
    ensures Trim(input) != "" || PendingFiles(files) != []
  {
    FilterMembers(files, IsUnsent);
    if Trim(input) == "" {
      var f :| f in files && !f.isSent;
      assert f in PendingFiles(files);
    }
  }

  // --------------------------------------------------------------- messages

  /** The user's entry: the trimmed text, or a fixed prompt when there is
      none, with the pending files attached. */
  function UserMessage(id: string, text: string, pending: seq<UploadedFile>): (m: Message)
    ensures m.id == id && m.role == User && m.content != "" && !m.isThinking && m.attachments == pending
    ensures text != "" ==> m.content == text
    ensures text == "" ==> m.content == AttachedFilesPrompt
  {
    Message(id, User, if text != "" then text else AttachedFilesPrompt, false, pending)
  }

  /** The model's entry before any reply arrives. */
  function Placeholder(id: string): Message {
    Message(id, Model, "", true, [])
  }

  /** The `map` that gives the entry with identity `id` new content and
      clears its thinking flag; every other entry is untouched. */
  function UpdateMessage(messages: seq<Message>, id: string, content: string): (r: seq<Message>)
    ensures |r| == |messages|
    ensures forall i :: 0 <= i < |messages| && messages[i].id != id ==> r[i] == messages[i]
    ensures forall i :: 0 <= i < |messages| && messages[i].id == id ==>
      r[i].content == content && !r[i].isThinking
      && r[i].(content := messages[i].content, isThinking := messages[i].isThinking) == messages[i]
  {
    seq(|messages|, i requires 0 <= i < |messages| =>
      if messages[i].id == id then messages[i].(content := content, isThinking := false) else messages[i])
  }

  /** Updating an identity no entry carries changes nothing (a reply that
      arrives after a reset is dropped). */
  lemma UpdateAbsent(messages: seq<Message>, id: string, content: string)
    requires forall m :: m in messages ==> m.id != id
    ensures UpdateMessage(messages, id, content) == messages
  {
    var r := UpdateMessage(messages, id, content);
    forall i | 0 <= i < |messages| ensures r[i] == messages[i] {
      assert messages[i] in messages;
    }
  }

  /** Of two updates of the same entry, the later one wins. */
  lemma UpdateTwice(messages: seq<Message>, id: string, a: string, b: string)
    ensures UpdateMessage(UpdateMessage(messages, id, a), id, b) == UpdateMessage(messages, id, b)
  {
    var once := UpdateMessage(messages, id, a);
    var twice := UpdateMessage(once, id, b);
    var direct := UpdateMessage(messages, id, b);
    forall i | 0 <= i < |messages| ensures twice[i] == direct[i] {
      assert once[i].id == messages[i].id;
    }
  }

  /** An update acts on each part of a transcript separately. */
  lemma UpdateAppend(a: seq<Message>, b: seq<Message>, id: string, content: string)
    ensures UpdateMessage(a + b, id, content) == UpdateMessage(a, id, content) + UpdateMessage(b, id, content)
  {
    var whole := UpdateMessage(a + b, id, content);
    var parts := UpdateMessage(a, id, content) + UpdateMessage(b, id, content);
    forall i | 0 <= i < |a + b| ensures whole[i] == parts[i] {
      if i >= |a| {
        assert (a + b)[i] == b[i - |a|];
      }
    }
  }

  /** The transcript after the chunk callback ran once per published value. */
  function ApplyChunks(messages: seq<Message>, id: string, chunks: seq<string>): seq<Message>
    decreases |chunks|
  {
    if chunks == [] then messages
    else UpdateMessage(ApplyChunks(messages, id, chunks[..|chunks| - 1]), id, chunks[|chunks| - 1])
  }

  /** Since each chunk replaces the content, only the last one shows. */
  lemma {:induction false} ChunksLastWins(messages: seq<Message>, id: string, chunks: seq<string>)
    ensures ApplyChunks(messages, id, chunks) ==
      if chunks == [] then messages else UpdateMessage(messages, id, chunks[|chunks| - 1])
    decreases |chunks|
  {
    if |chunks| > 1 {
      var init := chunks[..|chunks| - 1];
      ChunksLastWins(messages, id, init);
      assert init[|init| - 1] == chunks[|chunks| - 2];
      UpdateTwice(messages, id, init[|init| - 1], chunks[|chunks| - 1]);
    } else if |chunks| == 1 {
      assert chunks[..0] == [];
    }
  }

  /** The text shown for a failed send. */
  function ErrorText(e: Thrown): (t: string)
    ensures StartsWith(t, "**Error:** ") && EndsWith(t, ". Please try again later.")
  {
    "**Error:** " + (match e case ErrorObject(message) => message case NonError => ConnectionFailed)
      + ". Please try again later."
  }

  /** The transcript once the reply to a send has settled: every published
      value applied to the placeholder, then the error text on a failure. */
  function Settled(messages: seq<Message>, botId: string, reply: RemoteReply): seq<Message> {
    var streamed := ApplyChunks(messages, botId, Published(reply.fragments));
    match reply.failure
    case None => streamed
    case Some(e) => UpdateMessage(streamed, botId, ErrorText(MapError(e)))
  }

  /** The model's entry once the reply has settled: the error text after a
      failure, the full reply text when something was published, otherwise
      the untouched placeholder. */
  function FinalReply(botId: string, reply: RemoteReply): (m: Message)
    ensures m.id == botId && m.role == Model && m.attachments == []
    ensures m.isThinking <==> reply.failure.None? && NonEmptyCount(reply.fragments) == 0
  {
    PublishedGrows(reply.fragments);
    match reply.failure
    case Some(e) => Message(botId, Model, ErrorText(MapError(e)), false, [])
    case None =>
      if Published(reply.fragments) == [] then Placeholder(botId)
      else Message(botId, Model, Concat(reply.fragments), false, [])
  }

  /** Updating the last entry of a transcript, when no earlier entry has
      its identity, changes that entry alone. */
  lemma UpdateLast(prefix: seq<Message>, m: Message, content: string)
    requires forall p :: p in prefix ==> p.id != m.id
    ensures UpdateMessage(prefix + [m], m.id, content) == prefix + [m.(content := content, isThinking := false)]
  {
    var r := UpdateMessage(prefix + [m], m.id, content);
    forall i | 0 <= i < |prefix| ensures r[i] == prefix[i] {
      assert (prefix + [m])[i] == prefix[i] && prefix[i] in prefix;
    }
  }

  /** The transcript with its placeholder last, once the published values
      are applied: the placeholder alone has changed, to the full reply text
      if anything was published. */
  lemma StreamedTranscript(prefix: seq<Message>, botId: string, fragments: seq<string>)
    requires forall p :: p in prefix ==> p.id != botId
    ensures ApplyChunks(prefix + [Placeholder(botId)], botId, Published(fragments)) ==
      prefix + [if Published(fragments) == [] then Placeholder(botId)
                else Message(botId, Model, Concat(fragments), false, [])]
  {
    var chunks := Published(fragments);
    PublishedGrows(fragments);
    ChunksLastWins(prefix + [Placeholder(botId)], botId, chunks);
    if chunks != [] {
      UpdateLast(prefix, Placeholder(botId), chunks[|chunks| - 1]);
    }
  }

  /** With identities not already in the transcript, a send appends exactly
      two entries, the user's and the model's, and the model's entry ends as
      `FinalReply`; no earlier entry changes. */
  lemma SendTranscript(messages: seq<Message>, userId: string, botId: string, text: string,
                       pending: seq<UploadedFile>, reply: RemoteReply)
    requires userId != botId
    requires forall m :: m in messages ==> m.id != botId
    ensures Settled(messages + [UserMessage(userId, text, pending), Placeholder(botId)], botId, reply)
      == messages + [UserMessage(userId, text, pending), FinalReply(botId, reply)]
  {
    var prefix := messages + [UserMessage(userId, text, pending)];
    assert forall p :: p in prefix ==> p.id != botId;
    assert messages + [UserMessage(userId, text, pending), Placeholder(botId)] == prefix + [Placeholder(botId)];
    StreamedTranscript(prefix, botId, reply.fragments);
    if reply.failure.Some? {
      var bot := if Published(reply.fragments) == [] then Placeholder(botId)
                 else Message(botId, Model, Concat(reply.fragments), false, []);
      UpdateLast(prefix, bot, ErrorText(MapError(reply.failure.value)));
    }
  }

  /** The status once the reply has settled. */
  function SettledStatus(reply: RemoteReply): (s: ChatStatus)
    ensures s == Error <==> reply.failure.Some?
    ensures s != Error ==> s == Idle
  {
    if reply.failure.Some? then Error else Idle
  }

  /** A failed send leaves the error status, under which the guard refuses
      every send whatever the input and the files; only a reset, which sets
      the status back to idle, lets a send through again. */
  lemma FailureBlocksSends(reply: RemoteReply, input: string, files: seq<UploadedFile>)
    requires reply.failure.Some?
    ensures SettledStatus(reply) == Error
    ensures !CanSend(input, files, SettledStatus(reply))
    ensures CanSend(input, files, Idle) <==> Trim(input) != "" || exists f :: f in files && !f.isSent
  {
  }

  /** A word document or a spreadsheet that is accepted reaches the model as
      a text part naming the file and carrying the extracted text, less a
      leading U+FEFF. */
  lemma ConvertedFileReachesModel(f: RawFile, id: string, env: Collaborators, text: string)
    requires f.size <= MaxFileSize && f.content.Some?
    requires || (Classify(f) == Docx && env.extractRawText(f.content.value) == Some(text))
             || (Classify(f) == Excel && env.readWorkbook(f.content.value).Some?
                 && text == SheetText(env.readWorkbook(f.content.value).value))
    ensures Accept(f, id, env).Some?
    ensures FilePart(Accept(f, id, env).value) ==
      TextPart("[Document: " + f.name + "]\n" + (if text != [] && text[0] == Utf8.ByteOrderMark then text[1..] else text))
  {
    DecodedTextRoundTrip(text);
    var u := Accept(f, id, env).value;
    assert u.mimeType == TextPlain && u.data == Btoa(Utf8BinaryString(text)).value;
  }

  // --------------------------------------------------------------- the app

  /** The `App` component's state, with the chat service it sends through. */
  class App {
    var files: seq<UploadedFile>
    var messages: seq<Message>
    var input: string
    var status: ChatStatus
    const service: ChatService

    ghost predicate Valid()
      reads this, service
    {
      service.Valid()
    }

    /** The initial state: nothing uploaded, no messages, empty input, idle. */
    constructor (service: ChatService)
      requires service.Valid()
      ensures Valid() && this.service == service
      ensures files == [] && messages == [] && input == "" && status == Idle
    {
      this.service := service;
      files, messages, input, status := [], [], "", Idle;
    }

    /** `handleFileUpload`: each picked file is checked and converted on its
        own; file `i` that is accepted gets identity `ids[i]`; the accepted
        files are appended in input order. */
    method HandleFileUpload(fileList: seq<RawFile>, ids: seq<string>, env: Collaborators)
      requires |ids| == |fileList|
      modifies this`files
      ensures files == old(files) + AcceptedFiles(fileList, ids, env)
    {
      var newFiles := AcceptBatch(fileList, ids, env);
      files := files + newFiles;
    }

    /** `handleRemoveFile`. */
    method HandleRemoveFile(id: string)
      modifies this`files
      ensures files == WithoutId(old(files), id)
    {
      files := WithoutId(files, id);
    }

    /** `handleReset`: clears the state and discards the remote session. */
    method HandleReset()
      requires Valid()
      modifies this, service`chatSession
      ensures Valid()
      ensures files == [] && messages == [] && input == "" && status == Idle
      ensures service.chatSession == None
    {
      files, messages, input := [], [], "";
      status := Idle;
      service.ResetChat();
    }

    /** The synchronous start of `handleSendMessage`: the guard; then the input
        is cleared, the status becomes thinking, the user entry and the
        placeholder are appended, and the pending files are marked sent. */
    method BeginSend(userId: string, botId: string)
      returns (sent: bool, text: string, pending: seq<UploadedFile>)
      modifies this
      ensures sent <==> old(CanSend(input, files, status))
      ensures !sent ==> files == old(files) && messages == old(messages) && input == old(input) && status == old(status)
      ensures sent ==>
        && text == Trim(old(input))
        && pending == PendingFiles(old(files))
        && input == "" && status == Thinking
        && messages == old(messages) + [UserMessage(userId, text, pending), Placeholder(botId)]
        && files == MarkSent(old(files), pending)
    {
      if (Trim(input) == "" && AllSent(files)) || status != Idle {
        return false, "", [];
      }
      sent := true;
      text := Trim(input);
      input := "";
      status := Thinking;
      pending := PendingFiles(files);
      messages := messages + [UserMessage(userId, text, pending), Placeholder(botId)];
      files := MarkSent(files, pending);
    }

    /** The chunk callback: streaming, and the placeholder shows the chunk. */
    method OnChunk(botId: string, chunk: string)
      modifies this`messages, this`status
      ensures status == Streaming
      ensures messages == UpdateMessage(old(messages), botId, chunk)
    {
      status := Streaming;
      messages := UpdateMessage(messages, botId, chunk);
    }

    /** The callback run for each published value, in order. */
    method DeliverChunks(botId: string, published: seq<string>)
      modifies this`messages, this`status
      ensures messages == ApplyChunks(old(messages), botId, published)
      ensures status == if published == [] then old(status) else Streaming
    {
      for i := 0 to |published|
        invariant messages == ApplyChunks(old(messages), botId, published[..i])
        invariant status == if i == 0 then old(status) else Streaming
      {
        assert published[..i + 1][..i] == published[..i];
        OnChunk(botId, published[i]);
      }
      assert published[..|published|] == published;
    }

    /** The `catch` block: the placeholder shows the error and the status
        becomes error. */
    method OnStreamError(botId: string, error: Thrown)
      modifies this`messages, this`status
      ensures status == Error
      ensures messages == UpdateMessage(old(messages), botId, ErrorText(error))
    {
      messages := UpdateMessage(messages, botId, ErrorText(error));
      status := Error;
    }

    /** `handleSendMessage`, with `userId` and `botId` for the two new entries
        and `reply` for what the remote side streams back. A send the guard
        refuses changes nothing; in particular, after a failure every send
        is refused until a reset. */
    method HandleSendMessage(userId: string, botId: string, reply: RemoteReply)
      returns (sent: bool, parts: seq<Part>)
      requires Valid()
      modifies this, service
      ensures Valid()
      ensures sent <==> old(CanSend(input, files, status))
      ensures old(status) != Idle ==> !sent
      ensures !sent ==> files == old(files) && messages == old(messages) && input == old(input) && status == old(status)
      ensures !sent ==> service.chatSession == old(service.chatSession)
      ensures !sent ==> service.ai == old(service.ai) && service.handlesCreated == old(service.handlesCreated)
      ensures sent ==>
        && input == ""
        && files == MarkSent(old(files), PendingFiles(old(files)))
        && AllSent(files)
        && messages == Settled(old(messages) + [UserMessage(userId, Trim(old(input)), PendingFiles(old(files))),
                                                Placeholder(botId)], botId, reply)
        && status == SettledStatus(reply)
        && PartsFor(Trim(old(input)), PendingFiles(old(files)), parts) && parts != []
        && (old(service.chatSession).Some? ==> service.chatSession == old(service.chatSession))
        && (old(service.chatSession).None? ==> service.chatSession == Some(ChatHandle(old(service.handlesCreated))))
    {
      ghost var oldFiles := files;
      var text, pending;
      sent, text, pending := BeginSend(userId, botId);
      if !sent {
        return false, [];
      }
      MarkPendingSent(oldFiles);
      GuardedSendHasContent(old(input), oldFiles, old(status));
      var published, outcome;
      parts, published, outcome := service.SendMessageStream(text, pending, reply);
      PartsForUnique(text, pending, parts, parts);
      DeliverChunks(botId, published);
      match outcome {
        case Completed(_) =>
          status := Idle;
        case Failed(error) =>
          OnStreamError(botId, error);
      }
    }
  }

  /** Two sends in a row, the first answered with a failure: whether or not
      the first one went through, the second is refused, because a failure
      leaves the error status and a refused send leaves the guard's inputs
      as they were. */
  method SendAfterFailure(app: App, userId: string, botId: string, reply: RemoteReply,
                          nextUserId: string, nextBotId: string, nextReply: RemoteReply)
    returns (nextSent: bool)
    requires app.Valid() && reply.failure.Some?
    modifies app, app.service
    ensures !nextSent
  {
    var sent, parts := app.HandleSendMessage(userId, botId, reply);
    nextSent, parts := app.HandleSendMessage(nextUserId, nextBotId, nextReply);
  }
}
