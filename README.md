# LexAI chat client — a Dafny model of its core

LexAI is a browser chat client for legal questions. The user uploads documents
(PDF, plain text, Word, Excel), types a question and sends both to a remote
language model. The reply streams back into the transcript. This project models
the logic behind that:

- **Attachment intake** (`handleFileUpload` in `App.tsx`). It applies the 50 MiB
  size limit and classifies each file by MIME type or name suffix. Word
  documents and spreadsheets are converted to UTF-8 text and stored in Base64
  as `text/plain`. Everything else stores the Base64 of its bytes. Accepted
  files are appended in input order, and a failing file never disturbs the
  others.
- **The file list and the transcript** (`handleRemoveFile`, `handleReset`,
  `handleSendMessage`). A send is allowed only while idle, and only with text
  or a pending file. It appends a user entry and a placeholder, then marks
  exactly the pending files as sent. Streamed values replace the
  placeholder's content. A failure shows an error text and sets the status to
  error.
- **The chat service** (`services/geminiService.ts`):
  - the ordered message parts;
  - the running total republished for every non-empty fragment;
  - the lazily created, reusable chat session that `resetChat` discards;
  - the remapping of the "entity not found" error;
  - `base64ToUtf8`.

The platform functions the code relies on are modelled concretely, not
axiomatized:

- `btoa`: Base64 as in section 4 of RFC 4648.
- `atob`: the forgiving-base64 decoder of the WHATWG Infra standard. It removes
  ASCII whitespace and accepts missing padding.
- `unescape(encodeURIComponent(…))`: UTF-8 as in RFC 3629.
- `TextDecoder`: the WHATWG UTF-8 decoder, with U+FFFD replacement.

Because of this, the round trip from stored text back to text is proved, not
assumed. `TextDecoder` drops a leading U+FEFF as a byte order mark, so a text
that starts with U+FEFF comes back without it. `GeminiService.DecodedTextRoundTrip`
states both cases.

Modules:

| module | models |
|---|---|
| `ChatTypes` | the records of `types.ts` |
| `Bytes`, `Base64`, `Utf8`, `WebPlatform` | `btoa`, `atob`, UTF-8 encoding and `TextDecoder` |
| `JsText` | `trim`, `endsWith`, `includes` |
| `Seqs` | the list folds used by `filter`, `+=` and `push` |
| `Upload` | the per-file logic of `handleFileUpload` |
| `GeminiService` | `services/geminiService.ts`, with the module state as class `ChatService` |
| `ChatApp` | the `App` component's state and handlers, as class `App` |

Two behaviours of the code are worth stating outright:

- After a failed send the status stays `error` (App.tsx:183). The send guard
  requires the idle status (App.tsx:133), so every later send is refused
  until a reset (`ChatApp.FailureBlocksSends`, `ChatApp.SendAfterFailure`).
- A reply that publishes nothing leaves the placeholder empty and still
  thinking, while the status returns to idle (App.tsx:162-172,
  `ChatApp.FinalReply`).

## Model

| member | source | states |
|---|---|---|
| `Bytes.CharCodesOfBinaryString` | services/geminiService.ts:9-12 | copying the character codes of a binary string gives back the bytes it was made from |
| `Base64.Encode` | App.tsx:60 | the encoding is a whole number of four-character groups of alphabet characters and `=` |
| `Base64.DecodeEncode` | services/geminiService.ts:8 | decoding the Base64 encoding of any bytes gives those bytes |
| `Utf8.TextDecodeEncode` | services/geminiService.ts:13 | decoding the UTF-8 encoding of a text gives the text, less a leading U+FEFF |
| `WebPlatform.Btoa` | App.tsx:60 | `btoa` succeeds exactly on binary strings |
| `WebPlatform.Atob` | services/geminiService.ts:8 | whatever `atob` returns is a binary string |
| `WebPlatform.AtobBtoa` | services/geminiService.ts:8 | `atob` undoes `btoa` |
| `WebPlatform.EncodedTextDecodes` | App.tsx:90 | the UTF-8 binary string of any text is accepted by `btoa`, survives `atob`, and its character codes are the UTF-8 bytes |
| `JsText.TrimStart` | App.tsx:133 | the result is a suffix that is empty or starts with a character other than whitespace |
| `JsText.TrimStartDropsWhitespace` | App.tsx:133 | everything removed from the front is whitespace |
| `JsText.TrimEnd` | App.tsx:133 | the result is a prefix that is empty or ends with a character other than whitespace |
| `JsText.TrimEndDropsWhitespace` | App.tsx:133 | everything removed from the end is whitespace |
| `JsText.TrimEmptyIffWhitespace` | App.tsx:85 | a string trims to empty exactly when it is all whitespace |
| `GeminiService.DecodedTextRoundTrip` | services/geminiService.ts:6-18 | text stored by the upload step decodes to itself, or loses only a leading U+FEFF |
| `GeminiService.Base64ToUtf8` | services/geminiService.ts:6-18 | the byte loop yields the decoded text, and "" whenever `atob` fails |
| `GeminiService.BuildParts` | services/geminiService.ts:66-94 | one part per file in order; then the text if non-empty, else the fallback instruction if there are files |
| `GeminiService.PartsForUnique` | services/geminiService.ts:86-94 | the parts are determined by text and files, and are empty only when both are |
| `GeminiService.PublishedGrows` | services/geminiService.ts:99-107 | one callback per non-empty fragment; each value strictly extends the previous; the last is the full text; the text is "" when nothing was published |
| `GeminiService.AccumulateStream` | services/geminiService.ts:99-107 | the loop publishes exactly the running totals and returns the last one, or "" |
| `GeminiService.ApiKeyIssueLacksEntityNotFound` | services/geminiService.ts:111-113 | the replacement message does not itself contain the "not found" text |
| `GeminiService.MapErrorRemovesNotFound` | services/geminiService.ts:108-115 | no rethrown error carries the "not found" text; any other error passes unchanged; remapping is idempotent |
| `GeminiService.ChatService.constructor` | services/geminiService.ts:20-21 | no client and no session at start |
| `GeminiService.ChatService.InitGemini` | services/geminiService.ts:23-29 | the client exists afterwards |
| `GeminiService.ChatService.ResetChat` | services/geminiService.ts:31-33 | the session is discarded |
| `GeminiService.ChatService.SendMessageStream` | services/geminiService.ts:35-115 | an existing session is reused and otherwise a fresh one is created; the parts, the published values and the outcome are as specified; a failure keeps the session |
| `Upload.Classify` | App.tsx:28-36 | each kind is characterised by the type tests; a Word match wins over a spreadsheet match |
| `Upload.SheetTextAppend` | App.tsx:81-88 | the workbook text of two sheet lists is the text of the first followed by the text of the second |
| `Upload.SheetTextSnoc` | App.tsx:82-87 | one more sheet adds its own section at the end |
| `Upload.SheetContribution` | App.tsx:82-88 | each sheet contributes its section at its own position |
| `Upload.BlankSheetAddsNothing` | App.tsx:85-87 | a sheet whose CSV trims to empty contributes nothing |
| `Upload.AssembleSheetText` | App.tsx:81-88 | the `forEach` builds exactly the workbook text |
| `Upload.ConvertFile` | App.tsx:38-99 | the conversion of a supported file, failing where reading or the library fails |
| `Upload.AcceptFile` | App.tsx:21-114 | one loop iteration yields the file's entry or skips it |
| `Upload.AcceptBatch` | App.tsx:17-115 | the loop collects exactly the accepted files, in input order, each with its own identity |
| `Upload.AcceptedEntry` | App.tsx:101-109 | an accepted file is within the limit and supported; it keeps name, type and size, is unsent; its `mimeType` is `text/plain` for Word and Excel and the declared type otherwise |
| `Upload.AcceptedExactly` | App.tsx:20-114 | a file is accepted exactly when it is within the limit, supported, readable, and its library call succeeds |
| `Upload.AcceptedFilesAppend` | App.tsx:20-117 | batches compose: a failing file does not affect the files after it |
| `Upload.AcceptedFilesSnoc` | App.tsx:20-115 | one more file adds its entry, if accepted, at the end |
| `Upload.AcceptedFilesMembers` | App.tsx:20-117 | an entry is added exactly when some file is accepted as it; never more entries than files |
| `ChatApp.ConvertedFileReachesModel` | App.tsx:42-91 | an accepted Word document or spreadsheet reaches the model as a text part naming the file and carrying the extracted text, less a leading U+FEFF |
| `ChatApp.App.constructor` | App.tsx:11-14 | empty lists, empty input, idle |
| `ChatApp.App.HandleFileUpload` | App.tsx:16-118 | the file list becomes the old list followed by the accepted files in input order |
| `ChatApp.App.HandleRemoveFile` | App.tsx:120-122 | the file list loses exactly the entries with that id |
| `ChatApp.WithoutIdMembers` | App.tsx:120-122 | removal keeps exactly the entries with another id and is idempotent |
| `ChatApp.WithoutIdAppend` | App.tsx:120-122 | removal keeps the relative order of the remaining entries |
| `ChatApp.WithoutAbsentId` | App.tsx:120-122 | removing an id no entry has changes nothing |
| `ChatApp.App.HandleReset` | App.tsx:124-130 | files and messages are empty, the input is "", the status is idle, and the session is discarded |
| `ChatApp.GuardedSendHasContent` | App.tsx:133 | a send that passes the guard has text or a pending file |
| `ChatApp.MarkSent` | App.tsx:159 | only `isSent` changes; it becomes true exactly for the listed files; it never goes from true to false |
| `ChatApp.MarkPendingSent` | App.tsx:139-159 | after a send every file is sent, and exactly the previously unsent files changed |
| `ChatApp.MarkSentIdempotent` | App.tsx:159 | marking twice is marking once |
| `ChatApp.UserMessage` | App.tsx:141-147 | the user entry has the given identity and carries the trimmed text, or "Please analyze the attached files." when there is none, and the pending files |
| `ChatApp.App.BeginSend` | App.tsx:133-159 | a refused send changes nothing; otherwise the input clears, the status is thinking, the two entries are appended and the pending files are marked |
| `ChatApp.UpdateMessage` | App.tsx:164-170 | the entries with that id get the content and stop thinking; every other entry is untouched |
| `ChatApp.UpdateAbsent` | App.tsx:164-170 | an update for an id no entry has changes nothing |
| `ChatApp.UpdateTwice` | App.tsx:164-170 | of two updates of the same entry the later wins |
| `ChatApp.UpdateAppend` | App.tsx:176-182 | an update acts on each part of the transcript separately |
| `ChatApp.UpdateLast` | App.tsx:176-182 | updating a last entry whose id is unique changes that entry alone |
| `ChatApp.ChunksLastWins` | App.tsx:162-171 | after all chunk callbacks the placeholder shows only the last value |
| `ChatApp.App.OnChunk` | App.tsx:162-171 | the status becomes streaming and the placeholder shows the chunk |
| `ChatApp.App.DeliverChunks` | App.tsx:162-171 | the transcript is the chunks applied in order; the status is streaming after any chunk |
| `ChatApp.ErrorText` | App.tsx:175-179 | the error text starts with `**Error:** ` and ends with `. Please try again later.` |
| `ChatApp.App.OnStreamError` | App.tsx:173-184 | the placeholder shows the error text and the status is error |
| `ChatApp.FailureBlocksSends` | App.tsx:133 | a failed send leaves the error status, under which every send is refused; only the idle status that a reset restores lets a send through |
| `ChatApp.SendAfterFailure` | App.tsx:132-134 | after a send whose reply fails, the next send is refused whatever the input and files |
| `ChatApp.FinalReply` | App.tsx:150-184 | the model's entry keeps its id; it still thinks exactly when the reply succeeded with no text |
| `ChatApp.StreamedTranscript` | App.tsx:162-172 | after streaming only the placeholder changed, and it holds the full reply text if anything was published |
| `ChatApp.SendTranscript` | App.tsx:158-184 | with fresh ids a send appends exactly the user entry and the settled model entry; earlier entries are unchanged |
| `ChatApp.App.HandleSendMessage` | App.tsx:132-185 | a refused send changes nothing, in the client or the service, and after a failure every send is refused; an accepted send clears the input, marks all files sent, settles the transcript and the status, sends non-empty parts, reuses an existing session and otherwise creates a fresh one |

## Left out

- Loading the Word and spreadsheet libraries from a CDN is browser I/O. The
  text extractor and the workbook reader are function parameters (`Upload.Collaborators`)
  that may fail.
- Reading a file (`arrayBuffer`, `FileReader.readAsDataURL`) is I/O. The bytes
  are given, or are missing where reading fails. The data URL is modelled as its
  Base64 part.
- The remote SDK (`GoogleGenAI`, `chats.create`, `sendMessageStream`) is the
  network. A reply is a given list of fragment texts, with an optional failure.
  A chunk without text counts as "". The model name and the system instruction
  are constant data and are not modelled.
- `async`/`await` and React state batching are not modelled. Each handler runs
  atomically. The chunk callbacks run after the service call returns rather
  than during it; the service never reads the client's state, so the end state
  is the same. A reset while a reply is still streaming is not modelled as an
  interleaving. `ChatApp.UpdateAbsent` shows that the stale reply leaves the
  new transcript alone. Its effect on the status is not modelled: the stale
  callbacks still set the status to streaming and then to idle or error
  (App.tsx:163, 172, 183), so a failure that arrives after a reset leaves the
  new session in the error status.
- `Math.random` identities are parameters. No handler requires them to be
  unique; only the transcript lemmas `ChatApp.SendTranscript`,
  `ChatApp.StreamedTranscript` and `ChatApp.UpdateLast` assume that no earlier
  entry has the placeholder's identity.
- `alert`, `console.error` and `Date` timestamps have no effect on the state
  and are not modelled.
- The check `if (!ai) throw` right after `initGemini` can never fire, so it is
  not modelled.
- Only `Error` objects carry a message in the model. A thrown non-`Error`
  value that has a `message` property is treated as having none. Such a value
  is neither remapped by the service nor shown with its message by the client.
- A rejection that is `null` or `undefined` is modelled as `NonError`, so the
  client shows "Connection failed". In the code, `error.message?.includes`
  (services/geminiService.ts:111) itself throws a `TypeError` on such a value;
  that `TypeError` escapes the `catch`, and the client shows its
  engine-specific message (App.tsx:175-179). This path is not modelled.
- Lone surrogates: characters are Unicode scalar values. JavaScript strings
  may hold unpaired UTF-16 surrogates, which make `encodeURIComponent` throw.
- The user interface components (`components/ChatArea.tsx`, `components/Sidebar.tsx`)
  are not part of this model. That includes the size display in megabytes.
