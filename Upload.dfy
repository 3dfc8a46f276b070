/** Attachment intake (`handleFileUpload`): the size limit, the type
    classification, the per-file conversion to a Base64 payload, and the
    batch result that is appended to the file list. */
module Upload {
  import opened Results
  import opened Bytes
  import opened JsText
  import opened WebPlatform
  import opened ChatTypes
  import opened Seqs

  const MaxFileSize: nat := 50 * 1024 * 1024

  const PdfType := "application/pdf"
  const TextType := "text/plain"
  const DocxType := "application/vnd.openxmlformats-officedocument.wordprocessingml.document"
  const XlsType := "application/vnd.ms-excel"
  const XlsxType := "application/vnd.openxmlformats-officedocument.spreadsheetml.sheet"

  /** A file the user picked: its name, declared type and size, and its
      bytes, `None` where reading them fails. */
  datatype RawFile = RawFile(name: string, fileType: string, size: nat, content: Option<seq<byte>>)

  /** One entry of a workbook's `SheetNames`, with `sheet_to_csv` of its sheet. */
  datatype SheetCsv = SheetCsv(name: string, csv: string)

  /** The document libraries, loaded on demand: `mammoth.extractRawText` and
      `XLSX.read` followed by `sheet_to_csv` per sheet. `None` where loading
      the library or parsing the document fails. */
  datatype Collaborators = Collaborators(
    extractRawText: seq<byte> -> Option<string>,
    readWorkbook: seq<byte> -> Option<seq<SheetCsv>>)

  predicate IsPdf(f: RawFile) { f.fileType == PdfType }

  predicate IsTxt(f: RawFile) { f.fileType == TextType || EndsWith(f.name, ".txt") }

  predicate IsDocx(f: RawFile) { f.fileType == DocxType || EndsWith(f.name, ".docx") }

  predicate IsExcel(f: RawFile) {
    f.fileType == XlsType || f.fileType == XlsxType || EndsWith(f.name, ".xls") || EndsWith(f.name, ".xlsx")
  }

  /** How a file is handled: text extraction for word documents, sheet
      rendering for spreadsheets, a data URL for PDF and plain text. */
  datatype FileKind = Docx | Excel | DataUrl | Unsupported

  /** The kind of a file. The word-document test comes first, so a file that
      passes both it and the spreadsheet test is a word document. */
  function Classify(f: RawFile): (k: FileKind)
    ensures k == Unsupported <==> !IsPdf(f) && !IsTxt(f) && !IsDocx(f) && !IsExcel(f)
    ensures k == Docx <==> IsDocx(f)
    ensures k == Excel <==> IsExcel(f) && !IsDocx(f)
    ensures k == DataUrl <==> (IsPdf(f) || IsTxt(f)) && !IsDocx(f) && !IsExcel(f)
  {
    if !IsPdf(f) && !IsTxt(f) && !IsDocx(f) && !IsExcel(f) then Unsupported
    else if IsDocx(f) then Docx
    else if IsExcel(f) then Excel
    else DataUrl
  }

  // ------------------------------------------------------- spreadsheet text

  /** What one sheet adds to the text: a header naming it, its CSV and a blank
      line, or nothing when the CSV is blank. */
  function SheetSection(sheet: SheetCsv): string {
    if Trim(sheet.csv) != "" then "--- Sheet: " + sheet.name + " ---\n" + sheet.csv + "\n\n" else ""
  }

  /** The section of each sheet, in order. */
  function Sections(sheets: seq<SheetCsv>): (r: seq<string>)
    ensures |r| == |sheets|
  {
    seq(|sheets|, i requires 0 <= i < |sheets| => SheetSection(sheets[i]))
  }

  /** The text of a workbook: the sections of its sheets in order. */
  function SheetText(sheets: seq<SheetCsv>): string {
    Flatten(Sections(sheets))
  }

  /** Sheet text distributes over concatenation of the sheet list: each sheet
      contributes its section independently and in order. */
  lemma SheetTextAppend(a: seq<SheetCsv>, b: seq<SheetCsv>)
    ensures SheetText(a + b) == SheetText(a) + SheetText(b)
  {
    assert Sections(a + b) == Sections(a) + Sections(b);
    FlattenAppend(Sections(a), Sections(b));
  }

  /** One more sheet adds its section at the end. */
  lemma SheetTextSnoc(sheets: seq<SheetCsv>, sheet: SheetCsv)
    ensures SheetText(sheets + [sheet]) == SheetText(sheets) + SheetSection(sheet)
  {
    assert Sections(sheets + [sheet]) == Sections(sheets) + [SheetSection(sheet)];
    assert (Sections(sheets) + [SheetSection(sheet)])[..|sheets|] == Sections(sheets);
  }

  /** Wherever a sheet stands, it contributes its own section at that place. */
  lemma SheetContribution(before: seq<SheetCsv>, sheet: SheetCsv, after: seq<SheetCsv>)
    ensures SheetText(before + [sheet] + after) == SheetText(before) + SheetSection(sheet) + SheetText(after)
  {
    SheetTextAppend(before + [sheet], after);
    SheetTextSnoc(before, sheet);
  }

  /** A sheet whose CSV is blank after trimming leaves no trace in the text. */
  lemma BlankSheetAddsNothing(before: seq<SheetCsv>, sheet: SheetCsv, after: seq<SheetCsv>)
    requires Trim(sheet.csv) == ""
    ensures SheetText(before + [sheet] + after) == SheetText(before + after)
  {
    SheetContribution(before, sheet, after);
    SheetTextAppend(before, after);
    var t := SheetText(before);
    assert SheetSection(sheet) == "";
    assert t + "" == t;
  }

  /** The `forEach` over `SheetNames` that builds `allText`. */
  method AssembleSheetText(sheets: seq<SheetCsv>) returns (allText: string)
    ensures allText == SheetText(sheets)
  {
    allText := "";
    for i := 0 to |sheets|
      invariant allText == SheetText(sheets[..i])
    {
      assert sheets[..i + 1] == sheets[..i] + [sheets[i]];
      SheetTextSnoc(sheets[..i], sheets[i]);
      var csv := sheets[i].csv;
      if csv != "" && Trim(csv) != "" {
        allText := allText + ("--- Sheet: " + sheets[i].name + " ---\n" + csv + "\n\n");
      }
    }
    assert sheets[..|sheets|] == sheets;
  }

  // ------------------------------------------------------------- conversion

  /** The stored form of a file: Base64 payload and the type it is sent as. */
  datatype Payload = Payload(data: string, mimeType: string)

  /** `btoa(unescape(encodeURIComponent(text)))` as a text payload. */
  function TextPayload(text: string): Option<Payload> {
    match Btoa(Utf8BinaryString(text))
    case None => None
    case Some(data) => Some(Payload(data, TextType))
  }

  /** The `try` block for one supported file; `None` where it throws. */
  function Convert(f: RawFile, env: Collaborators): Option<Payload> {
    match f.content
    case None => None
    case Some(bytes) =>
      match Classify(f)
      case Docx =>
        (match env.extractRawText(bytes)
         case None => None
         case Some(text) => TextPayload(text))
      case Excel =>
        (match env.readWorkbook(bytes)
         case None => None
         case Some(sheets) => TextPayload(SheetText(sheets)))
      case _ => Some(Payload(DataUrlBase64(bytes), f.fileType))
  }

  /** The entry a picked file becomes, or `None` where it is skipped: too
      large, of an unsupported type, or failing to convert. */
  function Accept(f: RawFile, id: string, env: Collaborators): Option<UploadedFile> {
    if f.size > MaxFileSize then None
    else if Classify(f) == Unsupported then None
    else
      match Convert(f, env)
      case None => None
      case Some(p) => Some(UploadedFile(id, f.name, f.fileType, f.size, p.data, p.mimeType, false))
  }

  /** An accepted file is within the size limit and of a supported type; it
      keeps its name, declared type and size, and is not yet sent. Its
      `mimeType` is `text/plain` for a word document or a spreadsheet and the
      declared type otherwise; PDF and text files carry the Base64 of their
      bytes. */
  lemma AcceptedEntry(f: RawFile, id: string, env: Collaborators)
    requires Accept(f, id, env).Some?
    ensures f.size <= MaxFileSize && Classify(f) != Unsupported && f.content.Some?
    ensures var u := Accept(f, id, env).value;
      && u.id == id && u.name == f.name && u.fileType == f.fileType && u.size == f.size && !u.isSent
      && u.mimeType == (if Classify(f) in {Docx, Excel} then TextType else f.fileType)
      && (Classify(f) == DataUrl ==> u.data == DataUrlBase64(f.content.value))
  {
  }

  /** Text never fails to encode, so a file within the limit and of a
      supported type is accepted exactly when its bytes can be read and, for
      a word document or a spreadsheet, its library call succeeds. */
  lemma AcceptedExactly(f: RawFile, id: string, env: Collaborators)
    ensures Accept(f, id, env).Some? <==>
      && f.size <= MaxFileSize
      && Classify(f) != Unsupported
      && f.content.Some?
      && (Classify(f) == Docx ==> env.extractRawText(f.content.value).Some?)
      && (Classify(f) == Excel ==> env.readWorkbook(f.content.value).Some?)
  {
    if f.content.Some? {
      var bytes := f.content.value;
      if Classify(f) == Docx && env.extractRawText(bytes).Some? {
        EncodedTextDecodes(env.extractRawText(bytes).value);
      }
      if Classify(f) == Excel && env.readWorkbook(bytes).Some? {
        EncodedTextDecodes(SheetText(env.readWorkbook(bytes).value));
      }
    }
  }

  /** What becomes of each file of a batch, in input order. */
  function Outcomes(files: seq<RawFile>, ids: seq<string>, env: Collaborators): (r: seq<Option<UploadedFile>>)
    requires |ids| == |files|
    ensures |r| == |files| && forall i :: 0 <= i < |files| ==> r[i] == Accept(files[i], ids[i], env)
  {
    seq(|files|, i requires 0 <= i < |files| => Accept(files[i], ids[i], env))
  }

  /** The files a batch adds, in input order; file `i` gets identity `ids[i]`. */
  function AcceptedFiles(files: seq<RawFile>, ids: seq<string>, env: Collaborators): seq<UploadedFile>
    requires |ids| == |files|
  {
    Somes(Outcomes(files, ids, env))
  }

  /** Per-file fault isolation: the result for a batch is the result for its
      first part followed by the result for the rest. */
  lemma AcceptedFilesAppend(a: seq<RawFile>, ia: seq<string>, b: seq<RawFile>, ib: seq<string>, env: Collaborators)
    requires |ia| == |a| && |ib| == |b|
    ensures AcceptedFiles(a + b, ia + ib, env) == AcceptedFiles(a, ia, env) + AcceptedFiles(b, ib, env)
  {
    var whole, left, right := Outcomes(a + b, ia + ib, env), Outcomes(a, ia, env), Outcomes(b, ib, env);
    forall k | 0 <= k < |whole| ensures whole[k] == (left + right)[k] {
      if k < |a| {
        assert (a + b)[k] == a[k] && (ia + ib)[k] == ia[k];
      } else {
        assert (a + b)[k] == b[k - |a|] && (ia + ib)[k] == ib[k - |a|];
      }
    }
    assert whole == left + right;
    SomesAppend(Outcomes(a, ia, env), Outcomes(b, ib, env));
  }

  /** One more file adds its entry, if it is accepted, at the end. */
  lemma AcceptedFilesSnoc(files: seq<RawFile>, ids: seq<string>, f: RawFile, id: string, env: Collaborators)
    requires |ids| == |files|
    ensures AcceptedFiles(files + [f], ids + [id], env) ==
      AcceptedFiles(files, ids, env) + (match Accept(f, id, env) case None => [] case Some(u) => [u])
  {
    assert Outcomes(files + [f], ids + [id], env) == Outcomes(files, ids, env) + [Accept(f, id, env)];
    SomesSnoc(Outcomes(files, ids, env), Accept(f, id, env));
  }

  /** An entry is in the batch result exactly when some input file was
      accepted as it; no batch yields more entries than it has files. */
  lemma AcceptedFilesMembers(files: seq<RawFile>, ids: seq<string>, env: Collaborators)
    requires |ids| == |files|
    ensures |AcceptedFiles(files, ids, env)| <= |files|
    ensures forall u :: u in AcceptedFiles(files, ids, env) <==>
      exists i :: 0 <= i < |files| && Accept(files[i], ids[i], env) == Some(u)
  {
    var outcomes := Outcomes(files, ids, env);
    SomesMembers(outcomes);
    forall u ensures Some(u) in outcomes <==> exists i :: 0 <= i < |files| && Accept(files[i], ids[i], env) == Some(u) {
      if Some(u) in outcomes {
        var i :| 0 <= i < |outcomes| && outcomes[i] == Some(u);
        assert Accept(files[i], ids[i], env) == Some(u);
      }
    }
  }

  /** The `try` block for one supported file, with the sheet loop. */
  method ConvertFile(f: RawFile, env: Collaborators) returns (r: Option<Payload>)
    requires Classify(f) != Unsupported
    ensures r == Convert(f, env)
    ensures r.Some? ==> f.content.Some?
  {
    if f.content.None? {
      return None;
    }
    var bytes := f.content.value;
    var kind := Classify(f);
    if kind == Docx {
      var extracted := env.extractRawText(bytes);
      if extracted.None? {
        return None;
      }
      r := TextPayload(extracted.value);
    } else if kind == Excel {
      var workbook := env.readWorkbook(bytes);
      if workbook.None? {
        return None;
      }
      var allText := AssembleSheetText(workbook.value);
      r := TextPayload(allText);
    } else {
      r := Some(Payload(DataUrlBase64(bytes), f.fileType));
    }
  }

  /** The body of the upload loop for one file: the size check, the type
      check, then the conversion; `None` where the file is skipped. */
  method AcceptFile(f: RawFile, id: string, env: Collaborators) returns (r: Option<UploadedFile>)
    ensures r == Accept(f, id, env)
  {
    if f.size > MaxFileSize {
      return None;
    }
    if !IsPdf(f) && !IsTxt(f) && !IsDocx(f) && !IsExcel(f) {
      return None;
    }
    var payload := ConvertFile(f, env);
    if payload.None? {
      return None;
    }
    r := Some(UploadedFile(id, f.name, f.fileType, f.size, payload.value.data, payload.value.mimeType, false));
  }

  /** The loop of `handleFileUpload` that fills `newFiles`: file `i`, when
      accepted, is pushed with identity `ids[i]`. */
  method AcceptBatch(fileList: seq<RawFile>, ids: seq<string>, env: Collaborators) returns (newFiles: seq<UploadedFile>)
    requires |ids| == |fileList|
    ensures newFiles == AcceptedFiles(fileList, ids, env)
  {
    ghost var outcomes := Outcomes(fileList, ids, env);
    newFiles := [];
    for i := 0 to |fileList|
      invariant newFiles == Somes(outcomes[..i])
    {
      var entry := AcceptFile(fileList[i], ids[i], env);
      assert entry == outcomes[i];
      SomesPrefixStep(outcomes, i);
      if entry.Some? {
        newFiles := newFiles + [entry.value];
      }
    }
    assert outcomes[..|fileList|] == outcomes;
  }

}
