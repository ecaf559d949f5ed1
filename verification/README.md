# Extraction-result normalisation and export, in Dafny

This project models the client-side core of a PDF data-extraction tool.
A language model returns its extraction result as text that is meant to be
JSON. The `DataTable` component turns that text into a table and later
exports it to a spreadsheet. The model covers four parts of that component:

- `parseJsonData`. It dispatches on the shape of the parsed value: an array
  of objects, a single object or a bare string. It produces headers, rows,
  the `isObjectArray` tag and the parsed value, kept unflattened.
- The effect's fallback decision. When there is no table, it shows the raw
  text as an "Extracted Content" table, reports the parse error, or shows
  nothing.
- `handleExport`'s preparation step. This covers the no-data guard, the
  wrapping of the kept value into row objects, the `{value: item}`
  normalisation and the workbook file name.
- The upload form's validation. This covers the file-count, size, MIME-type
  and instruction-length rules, and the submit handler's no-file guard.

`JSON.parse` is a function parameter `parse: string -> Option<Json>`. `None`
means it threw. `JSON.stringify` is a small compact serialiser
(`JsonValue.Stringify`). JavaScript property access `obj[key]` is
`JsonValue.Member`:

- `null` throws;
- an object answers its own entries;
- an array or a string answers `length` and its canonical index keys;
- numbers and booleans answer `undefined`.

Files: `maybe.dfy` (Option/Result), `json.dfy` (values, access,
serialisation), `js_text.dfy` (`trim`, `startsWith`, `/\.pdf$/i`),
`normalizer.dfy`, `display.dfy`, `exporter.dfy` and `upload_form.dfy`.

Two behaviours of the code are worth stating up front:

- A result that parses to `""` is shown as a one-cell table, but export
  refuses it because `originalData` is falsy (`Exporter.EmptyStringNotExported`).
- A parsed JSON string of whitespace, such as `"   "`, still gives the
  `Extracted Text` table (`Normalizer.StringTable`). Among all-whitespace
  inputs, only raw text that does not parse is an error (`Display.WhitespaceIsError`).

## Model

| member | source | states |
|---|---|---|
| JsonValue.Member | src/components/docu-extract/DataTable.tsx:31-32 | `obj[header]` throws exactly for a `null` element. For an object it is `undefined` exactly when the key is not one of its keys. Otherwise it is a value stored under that key. |
| JsonValue.OwnKeys | src/components/docu-extract/DataTable.tsx:30 | `Object.keys` of an object is its entry keys in order, and a key is listed exactly when reading `obj[key]` answers a value. An array has one key per element. Every listed key answers a value when read, so the header lookups at line 32 find a value in the first element. |
| JsonValue.Stringify | src/components/docu-extract/DataTable.tsx:33-34 | The serialisation of a nested array is bracketed by `[`…`]`, and that of an object by `{`…`}`. |
| JsonValue.FindDistinct | src/components/docu-extract/DataTable.tsx:32 | When keys are distinct, looking up the k-th entry's key yields the k-th entry's value. |
| Normalizer.DisplayCellFaithful | src/components/docu-extract/DataTable.tsx:33-46 | A nested array or object becomes its serialised text, starting with `[` or `{`. A scalar or `null` passes through and reads back unchanged. |
| Normalizer.RowOf | src/components/docu-extract/DataTable.tsx:31-37 | One element's row has one cell per header, each being the shown `element[header]`. It fails exactly when the element is `null` and there is a header. |
| Normalizer.RowsOf | src/components/docu-extract/DataTable.tsx:31-37 | There is one row per array element, in order. The mapping fails exactly when there is a header and some element is `null`. |
| Normalizer.TableOf | src/components/docu-extract/DataTable.tsx:28-53 | A table exists exactly in three cases: an object, a string, or an array whose first element is an object and that has no `null` element (or has no headers). Every row has header-count cells, and the kept data is the parsed value. |
| Normalizer.ParseJsonData | src/components/docu-extract/DataTable.tsx:24-58 | A parse failure gives `null`. A parsed value gives exactly the table `TableOf` builds for it, so a table exists exactly when the value is an object, a string, or an object array with no `null` element. A result keeps the parsed value as `originalData`, with rectangular rows. |
| Normalizer.ObjectArrayTable | src/components/docu-extract/DataTable.tsx:28-38 | Headers are the first element's keys in order, and `isObjectArray` holds. Rows correspond one-to-one with elements. A key missing from an object element gives an `undefined` cell; a present key gives its shown value. |
| Normalizer.HeadersFromFirstElementOnly | src/components/docu-extract/DataTable.tsx:28-30 | Two arrays with the same first element get the same headers, whatever keys later elements add. |
| Normalizer.NullElementFails | src/components/docu-extract/DataTable.tsx:31-57 | The array branch gives `null` exactly when there are headers and some element is `null`. |
| Normalizer.SingleObjectTable | src/components/docu-extract/DataTable.tsx:39-48 | Headers are `Key`,`Value`, with one two-cell row per entry in entry order. Each row holds the key and the shown value. `isObjectArray` is false and the object is kept. |
| Normalizer.StringTable | src/components/docu-extract/DataTable.tsx:49-51 | A bare string gives the single header `Extracted Text` and one row with one cell: the string. The string is kept. |
| Normalizer.UnsupportedShapes | src/components/docu-extract/DataTable.tsx:28-53 | `null`, booleans, numbers, `[]` and arrays that start with a scalar have no table. |
| Normalizer.FlatArrayRoundTrip | src/components/docu-extract/DataTable.tsx:28-38 | Take an array of flat objects that have the first object's distinct keys in the first object's order. Rebuilding objects from its headers and rows gives back the array. |
| Normalizer.FlatArrayKeySetRoundTrip | src/components/docu-extract/DataTable.tsx:28-38 | Take an array of flat objects that have the first object's distinct keys in any order. Each object rebuilt from the headers and rows holds the same value as the original under every key. |
| Normalizer.FlatObjectRoundTrip | src/components/docu-extract/DataTable.tsx:39-48 | Reading the `Key`/`Value` rows of a flat object back gives the object, entry for entry. |
| JsText.TrimEmptyIff | src/components/docu-extract/DataTable.tsx:75 | `trim()` is empty exactly for strings made only of whitespace. |
| Display.Decide | src/components/docu-extract/DataTable.tsx:66-92 | Nothing is shown exactly for `null` or empty text. A shown table is rectangular and keeps either the parsed value or the raw text. When `parseJsonData` returns a table, that table is shown unchanged: headers, rows and kept value. An error occurs only when `parseJsonData` gave `null`. |
| Display.FallbackRule | src/components/docu-extract/DataTable.tsx:72-86 | Take non-empty text for which `parseJsonData` gave `null`. It becomes the one-cell `Extracted Content` table if it is not all whitespace and its untrimmed text starts with neither `{` nor `[`. Otherwise it is the parse error. |
| Display.TableShapes | src/components/docu-extract/DataTable.tsx:67-77 | A shown table is one of four tables. (1) The object-array table has the first element's keys as headers, has `isObjectArray` set and keeps the parsed array. (2) The `Key`/`Value` table keeps the parsed object. (3) The `Extracted Text` table comes from a parsed string. (4) The `Extracted Content` table shows raw text that is not all whitespace and starts with neither `{` nor `[`, and keeps that text. |
| Display.EmptyShowsNothing | src/components/docu-extract/DataTable.tsx:67-91 | `null` and `""` give neither a table nor an error. |
| Display.WhitespaceIsError | src/components/docu-extract/DataTable.tsx:75-80 | Whitespace-only text that does not parse is the error. |
| Display.ScalarFallsThrough | src/components/docu-extract/DataTable.tsx:53-77 | Top-level `null`, numbers and booleans are shown as plain `Extracted Content` text. |
| Display.UntrimmedBraceIsPlainText | src/components/docu-extract/DataTable.tsx:75-76 | Unparsable text with whitespace before `{` still becomes plain text, because the `{` test uses the untrimmed text. |
| Display.NullElementIsError | src/components/docu-extract/DataTable.tsx:54-80 | A later `null` element in an object array with headers makes text starting with `[` an error. |
| Display.ExamplePartList | src/components/docu-extract/DataTable.tsx:28-38 | `[{"Part number":"A1","quantity":"5"}]` gives headers `Part number`,`quantity` and the row `A1`,`5`. |
| Display.ExampleEmptyArray | src/components/docu-extract/DataTable.tsx:53-80 | `[]` is the parse error. |
| JsText.StripPdf | src/components/docu-extract/DataTable.tsx:127 | If the name ends in `.pdf` (any case), exactly those four characters are removed. Otherwise the name is unchanged. The result is always a prefix of the name. |
| Exporter.NormaliseRows | src/components/docu-extract/DataTable.tsx:118-121 | Length is preserved and every result element is an object. Object elements are unchanged; any other element `x` becomes `{value: x}`. |
| Exporter.Export | src/components/docu-extract/DataTable.tsx:94-127 | Export is refused with "no data" when nothing is parsed or `originalData` is falsy. It is refused as unsupported only for a number or boolean. A successful export uses sheet `ExtractedData` and object rows. Its file name follows the rule at line 127, as `ExportFileName` gives it (see `PdfNameExported` and `OtherNamesExported`). |
| Exporter.ExportRows | src/components/docu-extract/DataTable.tsx:104-121 | An array is used element for element. An object becomes `[obj]`. A string becomes `[{"Extracted Content": s}]`. A truthy number or `true` is unsupported. |
| Exporter.NormaliseIsMap | src/components/docu-extract/DataTable.tsx:119-120 | The `some(...)` guard makes no difference: the pass equals an unconditional per-element wrap. |
| Exporter.DisplayedTableExports | src/components/docu-extract/DataTable.tsx:95-116 | A shown table exports exactly when its kept value is not the empty string. |
| Exporter.EmptyStringNotExported | src/components/docu-extract/DataTable.tsx:95-102 | A parsed `""` is shown as a one-cell table, but export is refused with "no data". |
| Exporter.PdfNameExported | src/components/docu-extract/DataTable.tsx:127 | `base` followed by `.pdf` in any letter case gives `base_extracted.xlsx`. |
| Exporter.OtherNamesExported | src/components/docu-extract/DataTable.tsx:127 | A missing or empty name gives `extracted_data.xlsx`. Any other name not ending in `.pdf` keeps its full text before `_extracted.xlsx`. |
| Exporter.OnlyOnePdfRemoved | src/components/docu-extract/DataTable.tsx:127 | Only one trailing `.pdf` is removed: `report.pdf.PDF` gives `report.pdf_extracted.xlsx`. |
| UploadForm.Validate | src/components/docu-extract/PdfUploadForm.tsx:15-28 | The form is accepted exactly when all four rules hold: one file, size ≤ 10485760, type `application/pdf`, and instructions of length ≥ 10. It throws exactly for an empty file list. Each of the four issues (file required, too large, not PDF, instructions too short) is reported exactly when its rule fails. The size and type rules judge the first file. |
| UploadForm.ValidateGuarded | src/components/docu-extract/PdfUploadForm.tsx:19-26 | It never throws and accepts exactly what `Validate` accepts. It agrees with `Validate` wherever `Validate` does not throw. An empty file list gets "PDF file is required." first. |
| UploadForm.EmptyFileListThrows | src/components/docu-extract/PdfUploadForm.tsx:21-22 | An empty file list makes validation as written throw. The guarded version reports the three file issues instead. |
| UploadForm.SizeMessage | src/components/docu-extract/PdfUploadForm.tsx:22 | The size message derived from the limit reads "Max file size is 10MB.". |
| UploadForm.SizeLimitInclusive | src/components/docu-extract/PdfUploadForm.tsx:15-22 | A file of exactly 10485760 bytes is accepted. A file of 10485761 bytes is rejected for size alone. |
| UploadForm.TypeMustBePdf | src/components/docu-extract/PdfUploadForm.tsx:16-26 | Any type other than exactly `application/pdf` is rejected for type alone. |
| UploadForm.NoFileRejected | src/components/docu-extract/PdfUploadForm.tsx:19-26 | With no file ever chosen, the count, size and type rules all fail. |
| UploadForm.SeveralFilesRejected | src/components/docu-extract/PdfUploadForm.tsx:21-26 | Two or more files fail the count rule only. Size and type are judged on the first file. |
| UploadForm.InstructionsNotTrimmed | src/components/docu-extract/PdfUploadForm.tsx:27 | Ten spaces pass the length rule, because there is no trimming. Nine characters fail it. |
| UploadForm.OnSubmit | src/components/docu-extract/PdfUploadForm.tsx:45-52 | No first file means no extraction. Otherwise the extraction gets the first file's name and the instructions. |
| UploadForm.Submit | src/components/docu-extract/PdfUploadForm.tsx:45-52 | An extraction is requested exactly for a valid form, carrying its one file's name and the instructions. |

## Left out

- The React state, the toasts and the rendering of the table and the error panel. This includes hiding a table with zero rows, such as the one for `{}`. These are UI plumbing; the effect's decision is modelled as the pure `Display.Decide`.
- The spreadsheet library calls (`json_to_sheet`, `book_new`, `book_append_sheet`, `writeFile`) and the `catch` around them. They are a foreign library and file I/O. Only the sheet name `ExtractedData` and the file name are modelled.
- The internals of `JSON.parse`. Parsing is a parameter, and the lemmas state what they need of it (for example, that it failed).
- JSON.stringify's handling of non-integer numbers and of lone UTF-16 surrogates. Numbers are integers and characters are Unicode scalar values.
- JavaScript's number semantics, such as floats, `NaN` and `-0`. Numbers are `int`, so `0` is the only falsy number.
- The `Object.keys` rule that moves integer-like keys first. An object's entry sequence is taken as its enumeration order.
- JsonValue.Member: inherited prototype properties are not modelled. For example, `obj["toString"]` on an object lacking that key yields a function in JavaScript, but `Absent` here. Number and boolean elements likewise answer nothing.
- JsonValue.Member: duplicate keys in a parsed object are not merged as `JSON.parse` merges them. Lookup takes the first entry, and the lemmas that need it assume distinct keys.
- String lengths count characters rather than UTF-16 code units. This affects the instruction-length rule and `length` on string elements.
- `FileReader` and the data-URI conversion, the async `onExtract` call and `form.reset`. These are async I/O. The schema library and form library machinery is also left out; only their predicates are modelled.
- The page component, the language-model flows, the server function stub, the other upload form and the model selector. They are UI glue or external calls.

## Findings

| source | as written | input that shows it | evidently intended | confidence | as-written member | corrected member |
|---|---|---|---|---|---|---|
| src/components/docu-extract/PdfUploadForm.tsx:21-22 | The size rule evaluates `files && files[0].size`. The schema runs it even after the count rule failed. | An empty file list, as left by cancelling the file picker: `files[0]` is `undefined`, so `.size` throws and validation throws instead of reporting. | The missing file is reported as "PDF file is required." | medium (relies on the schema library running later rules after a failed one); not executed | UploadForm.EmptyFileListThrows | UploadForm.ValidateGuarded |
