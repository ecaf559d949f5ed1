/** The upload form's validation (the schema's file and instruction
    rules) and its submit guard. The schema library runs every rule on
    the field even after an earlier rule failed, so the size and type
    rules look at `files[0]` even when the count rule already failed. */
module UploadForm {
  import opened Maybe
  import JsonValue

  /** The largest accepted file, in bytes (10 MiB). */
  const MaxFileSize: nat := 10 * 1024 * 1024

  /** The accepted MIME types. */
  const AcceptedFileTypes: seq<string> := ["application/pdf"]

  /** The fewest characters the extraction instructions may have. */
  const MinInstructionLength: nat := 10

  /** One chosen file as the browser describes it. */
  datatype FileInfo = FileInfo(name: string, size: nat, mimeType: string)

  /** The form's values: the chosen file list (`None` while no file was
      ever chosen, the field then being `undefined`) and the instructions. */
  datatype FormValues = FormValues(pdfFile: Option<seq<FileInfo>>, instructions: string)

  /** The messages a rejected form shows, one per failed rule. */
  datatype Issue = FileRequired | FileTooLarge | NotPdf | InstructionsTooShort

  /** How one rule judges a value; `Throws` when evaluating the rule
      reads a property of a missing first file. */
  datatype Check = Holds | Fails | Throws

  /** The outcome of validating the whole form. */
  datatype Validation = Accepted | Rejected(issues: seq<Issue>) | Threw

  /** `files && files.length === 1`. */
  function CountCheck(files: Option<seq<FileInfo>>): Check {
    if files.Some? && |files.value| == 1 then Holds else Fails
  }

  /** `files && files[0].size <= MAX_FILE_SIZE`. */
  function SizeCheck(files: Option<seq<FileInfo>>): Check {
    match files
    case None => Fails
    case Some(fs) =>
      if |fs| == 0 then Throws
      else if fs[0].size <= MaxFileSize then Holds
      else Fails
  }

  /** `files && ACCEPTED_FILE_TYPES.includes(files[0].type)`. */
  function TypeCheck(files: Option<seq<FileInfo>>): Check {
    match files
    case None => Fails
    case Some(fs) =>
      if |fs| == 0 then Throws
      else if fs[0].mimeType in AcceptedFileTypes then Holds
      else Fails
  }

  /** The minimum-length rule on the instructions; no trimming. */
  function InstructionsCheck(instructions: string): Check {
    if |instructions| >= MinInstructionLength then Holds else Fails
  }

  /** The issue a failed rule contributes. */
  function IssueIf(c: Check, issue: Issue): seq<Issue> {
    if c.Fails? then [issue] else []
  }

  /** The issues of the rules that failed, in schema order; no issue
      means the form is valid. */
  function Assemble(count: Check, size: Check, kind: Check, instructions: Check): Validation {
    var issues :=
      IssueIf(count, FileRequired) + IssueIf(size, FileTooLarge)
      + IssueIf(kind, NotPdf) + IssueIf(instructions, InstructionsTooShort);
    if issues == [] then Accepted else Rejected(issues)
  }

  /** Validation of the form as written: the file rules in order, then
      the instruction rule; a rule that throws aborts validation. */
  function Validate(v: FormValues): (r: Validation)
    ensures r.Accepted? <==>
      && v.pdfFile.Some? && |v.pdfFile.value| == 1
      && v.pdfFile.value[0].size <= 10485760
      && v.pdfFile.value[0].mimeType == "application/pdf"
      && |v.instructions| >= 10
    ensures r.Threw? <==> v.pdfFile == Some([])
    ensures r.Rejected? ==> |r.issues| > 0
    ensures r.Rejected? ==> (FileRequired in r.issues <==> !(v.pdfFile.Some? && |v.pdfFile.value| == 1))
    ensures r.Rejected? ==> (InstructionsTooShort in r.issues <==> |v.instructions| < 10)
    ensures r.Rejected? ==>
      (FileTooLarge in r.issues <==> (v.pdfFile.None? || v.pdfFile.value[0].size > 10485760))
    ensures r.Rejected? ==>
      (NotPdf in r.issues <==> (v.pdfFile.None? || v.pdfFile.value[0].mimeType != "application/pdf"))
  {
    var size := SizeCheck(v.pdfFile);
    var kind := TypeCheck(v.pdfFile);
    if size.Throws? || kind.Throws? then Threw
    else Assemble(CountCheck(v.pdfFile), size, kind, InstructionsCheck(v.instructions))
  }

  /** A rule that would throw on a missing first file counts as failed. */
  function Guard(c: Check): Check {
    if c.Throws? then Fails else c
  }

  /** Validation as evidently intended: a missing first file fails the
      size and type rules instead of throwing, so an empty file list is
      reported as "PDF file is required.". */
  function ValidateGuarded(v: FormValues): (r: Validation)
    ensures !r.Threw?
    ensures r.Accepted? <==> Validate(v).Accepted?
    ensures !Validate(v).Threw? ==> r == Validate(v)
    ensures r.Rejected? ==> |r.issues| > 0
    ensures v.pdfFile == Some([]) ==> r.Rejected? && r.issues[0] == FileRequired
    ensures r.Rejected? ==> (FileRequired in r.issues <==> !(v.pdfFile.Some? && |v.pdfFile.value| == 1))
  {
    Assemble(CountCheck(v.pdfFile), Guard(SizeCheck(v.pdfFile)), Guard(TypeCheck(v.pdfFile)),
             InstructionsCheck(v.instructions))
  }

  /** An empty file list, as left by a cancelled file picker, makes the
      size rule read a property of a missing file: validation as written
      throws, and the guarded version reports the missing file. */
  lemma EmptyFileListThrows(instructions: string)
    ensures Validate(FormValues(Some([]), instructions)) == Threw
    ensures ValidateGuarded(FormValues(Some([]), instructions)).Rejected?
    ensures ValidateGuarded(FormValues(Some([]), instructions)).issues[..3]
            == [FileRequired, FileTooLarge, NotPdf]
  {
  }

  /** The text shown for each issue. The size message derives its number
      from the limit. */
  function IssueMessage(issue: Issue): string {
    match issue
    case FileRequired => "PDF file is required."
    case FileTooLarge => "Max file size is " + JsonValue.NatToString(MaxFileSize / (1024 * 1024)) + "MB."
    case NotPdf => "Only .pdf files are accepted."
    case InstructionsTooShort => "Extraction instructions must be at least 10 characters long."
  }

  /** The size message reads "Max file size is 10MB.". */
  lemma SizeMessage()
    ensures IssueMessage(FileTooLarge) == "Max file size is 10MB."
  {
    assert JsonValue.NatToString(10) == "10";
  }

  /** The size bound is inclusive: exactly 10485760 bytes passes, one
      byte more fails, other rules being met. */
  lemma SizeLimitInclusive(name: string, instructions: string)
    requires |instructions| >= 10
    ensures Validate(FormValues(Some([FileInfo(name, 10485760, "application/pdf")]), instructions)) == Accepted
    ensures Validate(FormValues(Some([FileInfo(name, 10485761, "application/pdf")]), instructions))
            == Rejected([FileTooLarge])
  {
  }

  /** Only the exact type `application/pdf` passes; the failure names the
      type rule alone when the rest is valid. */
  lemma TypeMustBePdf(f: FileInfo, instructions: string)
    requires f.size <= MaxFileSize && |instructions| >= 10
    requires f.mimeType != "application/pdf"
    ensures Validate(FormValues(Some([f]), instructions)) == Rejected([NotPdf])
  {
  }

  /** With no file ever chosen, all three file rules fail. */
  lemma NoFileRejected(instructions: string)
    ensures Validate(FormValues(None, instructions)).Rejected?
    ensures Validate(FormValues(None, instructions)).issues[..3] == [FileRequired, FileTooLarge, NotPdf]
  {
  }

  /** Two or more files fail the count rule, while the size and type
      rules only look at the first file. */
  lemma SeveralFilesRejected(fs: seq<FileInfo>, instructions: string)
    requires |fs| >= 2
    requires fs[0].size <= MaxFileSize && fs[0].mimeType == "application/pdf"
    requires |instructions| >= 10
    ensures Validate(FormValues(Some(fs), instructions)) == Rejected([FileRequired])
  {
  }

  /** The instruction rule counts characters as typed: ten spaces pass,
      nine characters fail. */
  lemma InstructionsNotTrimmed(f: FileInfo)
    requires f.size <= MaxFileSize && f.mimeType == "application/pdf"
    ensures Validate(FormValues(Some([f]), "          ")) == Accepted
    ensures Validate(FormValues(Some([f]), "123456789")) == Rejected([InstructionsTooShort])
  {
  }

  /** What `onExtract` receives besides the file's content. */
  datatype ExtractRequest = ExtractRequest(instructions: string, fileName: string)

  /** The submit handler: no first file means no extraction. */
  function OnSubmit(files: seq<FileInfo>, instructions: string): (r: Option<ExtractRequest>)
    ensures r.None? <==> |files| == 0
    ensures r.Some? ==> r.value.fileName == files[0].name && r.value.instructions == instructions
  {
    if |files| == 0 then None else Some(ExtractRequest(instructions, files[0].name))
  }

  /** Submitting the form: validation as written, then the submit
      handler. An extraction is requested exactly
      for a valid form, with its one file's name and the instructions. */
  function Submit(v: FormValues): (r: Option<ExtractRequest>)
    ensures r.Some? <==>
      && v.pdfFile.Some? && |v.pdfFile.value| == 1
      && v.pdfFile.value[0].size <= 10485760
      && v.pdfFile.value[0].mimeType == "application/pdf"
      && |v.instructions| >= 10
    ensures r.Some? ==> r.value == ExtractRequest(v.instructions, v.pdfFile.value[0].name)
  {
    if Validate(v).Accepted? then OnSubmit(v.pdfFile.value, v.instructions) else None
  }
}
