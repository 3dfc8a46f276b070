/** The records the client keeps in its state. */
module ChatTypes {

  /** An accepted attachment. `data` is Base64 without the data URL prefix;
      `mimeType` is what is sent (`text/plain` for converted documents);
      `isSent` records that the file went out with a message. */
  datatype UploadedFile = UploadedFile(
    id: string,
    name: string,
    fileType: string,
    size: nat,
    data: string,
    mimeType: string,
    isSent: bool)

  datatype Role = User | Model

  /** One transcript entry. An absent `isThinking` is `false`; a model entry
      carries no attachments. */
  datatype Message = Message(
    id: string,
    role: Role,
    content: string,
    isThinking: bool,
    attachments: seq<UploadedFile>)

  datatype ChatStatus = Idle | Thinking | Streaming | Error

}
