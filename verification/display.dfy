/** The decision DataTable's effect takes whenever the extraction result
    text changes: show a table, show the parse error, or show nothing. */
module Display {
  import opened Maybe
  import opened JsonValue
  import opened JsText
  import opened Normalizer

  /** The header of the table shown for raw text that is not JSON. */
  const ExtractedContentHeader: string := "Extracted Content"

  /** The error text shown when no table can be made. */
  const ParseErrorMessage: string :=
    "Failed to parse extracted data or the structure is not suitable for table display. The raw JSON might be malformed."

  /** What the component ends up holding: no data and no error, a table,
      or an error message. */
  datatype DisplayOutcome =
    | NoDisplay
    | Table(data: ParsedData)
    | ParseError(message: string)

  /** The untrimmed text starts with `{` or `[`. */
  predicate LooksStructured(raw: string) {
    StartsWithChar(raw, '{') || StartsWithChar(raw, '[')
  }

  /** The one-cell table that shows raw text as it is. */
  function PlainTextTable(raw: string): ParsedData {
    ParsedData([ExtractedContentHeader], [[CText(raw)]], false, JStr(raw))
  }

  /** The effect's decision for the text `jsonData` (`None` for `null`),
      with `JSON.parse` supplied as `parse`. A table `parseJsonData`
      builds is the one shown, unchanged. */
  function Decide(jsonData: Option<string>, parse: string -> Option<Json>): (r: DisplayOutcome)
    ensures r.NoDisplay? <==> (jsonData.None? || jsonData.value == "")
    ensures r.Table? ==> Rectangular(r.data)
    ensures r.Table? ==>
      || Some(r.data.originalData) == parse(jsonData.value)
      || r.data.originalData == JStr(jsonData.value)
    ensures r.ParseError? ==> r.message == ParseErrorMessage && ParseJsonData(jsonData.value, parse).None?
    ensures jsonData.Some? && jsonData.value != "" && ParseJsonData(jsonData.value, parse).Some? ==>
      r == Table(ParseJsonData(jsonData.value, parse).value)
  {
    if jsonData.None? || jsonData.value == "" then NoDisplay
    else
      var raw := jsonData.value;
      match ParseJsonData(raw, parse)
      case Some(t) => Table(t)
      case None =>
        if Trim(raw) != "" && !LooksStructured(raw) then Table(PlainTextTable(raw))
        else ParseError(ParseErrorMessage)
  }

  /** When `parseJsonData` gives no table for non-empty text: text that
      is not all whitespace and does not start with `{` or `[` is shown
      as a one-cell "Extracted Content" table, and everything else is the
      parse error. */
  lemma FallbackRule(raw: string, parse: string -> Option<Json>)
    requires raw != ""
    requires ParseJsonData(raw, parse).None?
    ensures !AllWhitespace(raw) && !LooksStructured(raw) ==>
      Decide(Some(raw), parse) == Table(PlainTextTable(raw))
    ensures AllWhitespace(raw) || LooksStructured(raw) ==>
      Decide(Some(raw), parse) == ParseError(ParseErrorMessage)
  {
    TrimEmptyIff(raw);
  }

  /** Whenever a table is shown its headers are one of the fixed label
      sets or the first element's keys, and its retained data is the
      parsed value, or the raw text for the "Extracted Content" table. */
  lemma TableShapes(raw: string, parse: string -> Option<Json>)
    requires Decide(Some(raw), parse).Table?
    ensures var t := Decide(Some(raw), parse).data;
      || (parse(raw).Some? && IsObjectArray(parse(raw).value)
          && t.isObjectArray && t.originalData == parse(raw).value
          && t.headers == OwnKeys(parse(raw).value.items[0]))
      || (parse(raw).Some? && parse(raw).value.JObj?
          && !t.isObjectArray && t.originalData == parse(raw).value
          && t.headers == ["Key", "Value"])
      || (parse(raw).Some? && parse(raw).value.JStr?
          && t == ParsedData(["Extracted Text"], [[CText(parse(raw).value.s)]], false, parse(raw).value))
      || (t == ParsedData(["Extracted Content"], [[CText(raw)]], false, JStr(raw))
          && !AllWhitespace(raw) && !LooksStructured(raw))
  {
    TrimEmptyIff(raw);
  }

  /** Empty text, like `null`, shows neither a table nor an error. */
  lemma EmptyShowsNothing(parse: string -> Option<Json>)
    ensures Decide(None, parse) == NoDisplay
    ensures Decide(Some(""), parse) == NoDisplay
  {
  }

  /** Whitespace-only text that does not parse is an error, not a table. */
  lemma WhitespaceIsError(raw: string, parse: string -> Option<Json>)
    requires raw != "" && AllWhitespace(raw)
    requires parse(raw).None?
    ensures Decide(Some(raw), parse) == ParseError(ParseErrorMessage)
  {
    TrimEmptyIff(raw);
  }

  /** Top-level `null`, numbers and booleans have no table of their own,
      but their text does not start with `{` or `[`, so it is shown as
      plain "Extracted Content". */
  lemma ScalarFallsThrough(raw: string, parse: string -> Option<Json>)
    requires parse(raw).Some? && (parse(raw).value.JNull? || parse(raw).value.JBool? || parse(raw).value.JNum?)
    requires !AllWhitespace(raw) && !LooksStructured(raw)
    ensures Decide(Some(raw), parse) == Table(PlainTextTable(raw))
  {
    UnsupportedShapes(parse(raw).value);
    TrimEmptyIff(raw);
  }

  /** The `{`/`[` test looks at the untrimmed text: unparsable text that
      starts with whitespace and then `{` is still shown as plain text. */
  lemma UntrimmedBraceIsPlainText(raw: string, parse: string -> Option<Json>)
    requires |raw| >= 2 && IsJsWhitespace(raw[0]) && raw[1] == '{'
    requires parse(raw).None?
    ensures Decide(Some(raw), parse) == Table(PlainTextTable(raw))
  {
    assert !IsJsWhitespace(raw[1]);
    TrimEmptyIff(raw);
  }

  /** A `null` element after the first object makes the header lookup
      throw; the text starts with `[`, so the outcome is the error. */
  lemma NullElementIsError(raw: string, parse: string -> Option<Json>)
    requires parse(raw).Some? && IsObjectArray(parse(raw).value)
    requires OwnKeys(parse(raw).value.items[0]) != []
    requires exists i :: 0 <= i < |parse(raw).value.items| && parse(raw).value.items[i].JNull?
    requires StartsWithChar(raw, '[')
    ensures Decide(Some(raw), parse) == ParseError(ParseErrorMessage)
  {
    NullElementFails(parse(raw).value);
  }

  /** `[{"Part number":"A1","quantity":"5"}]` shows as headers
      `Part number`, `quantity` and the single row `A1`, `5`. */
  lemma ExamplePartList(raw: string, parse: string -> Option<Json>)
    requires parse(raw) == Some(JArr([JObj([("Part number", JStr("A1")), ("quantity", JStr("5"))])]))
    requires raw != ""
    ensures Decide(Some(raw), parse).Table?
    ensures Decide(Some(raw), parse).data.headers == ["Part number", "quantity"]
    ensures Decide(Some(raw), parse).data.rows == [[CText("A1"), CText("5")]]
  {
    var data := parse(raw).value;
    var entries := data.items[0].entries;
    assert Keys(entries) == ["Part number", "quantity"];
    ObjectArrayTable(data);
    var t := TableOf(data).value;
    assert Find(entries, "Part number") == Some(JStr("A1"));
    assert Find(entries, "quantity") == Some(JStr("5"));
    assert t.rows[0] == [CText("A1"), CText("5")];
  }

  /** `[]` parses but has no table, and its text starts with `[`: error. */
  lemma ExampleEmptyArray(raw: string, parse: string -> Option<Json>)
    requires parse(raw) == Some(JArr([]))
    requires StartsWithChar(raw, '[')
    ensures Decide(Some(raw), parse) == ParseError(ParseErrorMessage)
  {
    UnsupportedShapes(JArr([]));
  }
}
