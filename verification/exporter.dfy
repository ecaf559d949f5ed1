/** The preparation step of DataTable's `handleExport`: the guard, the
    wrapping of the retained parsed value into a list of row objects, and
    the name of the workbook file. Writing the workbook itself is left
    to the spreadsheet library. */
module Exporter {
  import opened Maybe
  import opened JsonValue
  import opened JsText
  import opened Normalizer
  import opened Display

  /** The name of the one worksheet in the exported workbook. */
  const SheetName: string := "ExtractedData"

  /** The file name used when no source file name is known. */
  const DefaultFileName: string := "extracted_data.xlsx"

  /** Appended to the source file name, less its `.pdf`. */
  const ExtractedSuffix: string := "_extracted.xlsx"

  /** Why an export is refused. */
  datatype ExportError =
    | NoData              // nothing parsed, or the retained value is falsy
    | UnsupportedFormat   // the retained value is a truthy number or `true`

  /** What is handed to the spreadsheet library. */
  datatype ExportPlan = ExportPlan(sheetName: string, rows: seq<Json>, fileName: string)

  /** The row source before element normalisation: arrays as they are,
      an object wrapped in a one-element list, a string wrapped as one
      "Extracted Content" object. */
  function RowSource(original: Json): Result<seq<Json>, ExportError> {
    match original
    case JArr(items) => Ok(items)
    case JObj(_) => Ok([original])
    case JStr(s) => Ok([JObj([("Extracted Content", JStr(s))])])
    case _ => Err(UnsupportedFormat)
  }

  /** One element as a row object: arrays and objects as they are, any
      other value as `{value: item}`. */
  function AsRowObject(item: Json): Json {
    if IsObjectLike(item) then item else JObj([("value", item)])
  }

  /** The normalisation pass: when some element is not an object, every
      element goes through `AsRowObject`; otherwise the list is kept. */
  function NormaliseRows(src: seq<Json>): (r: seq<Json>)
    ensures |r| == |src|
    ensures forall i :: 0 <= i < |src| ==> IsObjectLike(r[i])
    ensures forall i :: 0 <= i < |src| && IsObjectLike(src[i]) ==> r[i] == src[i]
    ensures forall i :: 0 <= i < |src| && !IsObjectLike(src[i]) ==> r[i] == JObj([("value", src[i])])
  {
    if exists i :: 0 <= i < |src| && !IsObjectLike(src[i]) then
      seq(|src|, i requires 0 <= i < |src| => AsRowObject(src[i]))
    else
      src
  }

  /** The name of the downloaded file. */
  function ExportFileName(fileName: Option<string>): string {
    if fileName.None? || fileName.value == "" then DefaultFileName
    else StripPdf(fileName.value) + ExtractedSuffix
  }

  /** `handleExport` up to the spreadsheet calls, for the parsed data the
      component holds (`None` for none) and the source file name. */
  function Export(parsed: Option<ParsedData>, fileName: Option<string>): (r: Result<ExportPlan, ExportError>)
    ensures (parsed.None? || !Truthy(parsed.value.originalData)) ==> r == Err(NoData)
    ensures r.Ok? ==> r.value.sheetName == "ExtractedData"
    ensures r.Ok? ==> r.value.fileName == ExportFileName(fileName)
    ensures r.Ok? ==> forall i :: 0 <= i < |r.value.rows| ==> IsObjectLike(r.value.rows[i])
    ensures r.Err? && r.error.UnsupportedFormat? ==>
      parsed.Some? && (parsed.value.originalData.JNum? || parsed.value.originalData.JBool?)
  {
    if parsed.None? || !Truthy(parsed.value.originalData) then Err(NoData)
    else
      match RowSource(parsed.value.originalData)
      case Err(e) => Err(e)
      case Ok(src) => Ok(ExportPlan(SheetName, NormaliseRows(src), ExportFileName(fileName)))
  }

  /** The rows exported for each retained shape: an array element by
      element (non-objects wrapped as `{value: item}`), an object as the
      single row, a non-empty string as one "Extracted Content" row; a
      truthy number or `true` is refused as unsupported. */
  lemma ExportRows(p: ParsedData, fileName: Option<string>)
    requires Truthy(p.originalData)
    ensures var r := Export(Some(p), fileName);
      match p.originalData
      case JArr(items) =>
        && r.Ok? && |r.value.rows| == |items|
        && (forall i :: 0 <= i < |items| && IsObjectLike(items[i]) ==> r.value.rows[i] == items[i])
        && (forall i :: 0 <= i < |items| && !IsObjectLike(items[i]) ==> r.value.rows[i] == JObj([("value", items[i])]))
      case JObj(_) => r.Ok? && r.value.rows == [p.originalData]
      case JStr(s) => r.Ok? && r.value.rows == [JObj([("Extracted Content", JStr(s))])]
      case _ => r == Err(UnsupportedFormat)
  {
  }

  /** The normalisation pass, guard included, treats every element the
      same as an unconditional `map` with `AsRowObject`. */
  lemma NormaliseIsMap(src: seq<Json>)
    ensures NormaliseRows(src) == seq(|src|, i requires 0 <= i < |src| => AsRowObject(src[i]))
  {
  }

  /** Every table the component shows can be exported, unless it retains
      the empty string (a JSON text `""`), which is falsy. */
  lemma DisplayedTableExports(raw: string, parse: string -> Option<Json>, fileName: Option<string>)
    requires Decide(Some(raw), parse).Table?
    ensures var t := Decide(Some(raw), parse).data;
      t.originalData != JStr("") <==> Export(Some(t), fileName).Ok?
  {
    TableShapes(raw, parse);
  }

  /** A parsed empty string shows a one-cell table but exports nothing. */
  lemma EmptyStringNotExported(raw: string, parse: string -> Option<Json>, fileName: Option<string>)
    requires raw != "" && parse(raw) == Some(JStr(""))
    ensures Decide(Some(raw), parse) == Table(ParsedData(["Extracted Text"], [[CText("")]], false, JStr("")))
    ensures Export(Some(Decide(Some(raw), parse).data), fileName) == Err(NoData)
  {
  }

  /** Any spelling of `.pdf`: a dot then p, d, f in either case. */
  predicate IsPdfExtension(ext: string) {
    && |ext| == 4 && ext[0] == '.'
    && ext[1] in {'p', 'P'} && ext[2] in {'d', 'D'} && ext[3] in {'f', 'F'}
  }

  /** The file name is the source name with one trailing `.pdf` removed,
      in any letter case, followed by `_extracted.xlsx`. */
  lemma PdfNameExported(base: string, ext: string)
    requires IsPdfExtension(ext)
    ensures ExportFileName(Some(base + ext)) == base + "_extracted.xlsx"
  {
    var name := base + ext;
    assert name[|name| - 4..] == ext;
    assert name[..|name| - 4] == base;
  }

  /** Other non-empty names keep their full text; an absent or empty
      name gives `extracted_data.xlsx`. */
  lemma OtherNamesExported(name: string)
    ensures name == "" ==> ExportFileName(Some(name)) == "extracted_data.xlsx"
    ensures ExportFileName(None) == "extracted_data.xlsx"
    ensures name != "" && !EndsWithPdf(name) ==> ExportFileName(Some(name)) == name + "_extracted.xlsx"
  {
  }

  /** Only the last `.pdf` goes: `report.pdf.PDF` becomes
      `report.pdf_extracted.xlsx`. */
  lemma OnlyOnePdfRemoved()
    ensures ExportFileName(Some("report.pdf.PDF")) == "report.pdf_extracted.xlsx"
  {
    PdfNameExported("report.pdf", ".PDF");
  }
}
