/** `parseJsonData` of DataTable.tsx: the shape dispatch that turns a
    parsed extraction result into table headers and rows, keeping the
    parsed value itself, unflattened, for export. */
module Normalizer {
  import opened Maybe
  import opened JsonValue

  /** A table cell as the table component receives it: `undefined` for a
      key the row's object lacks, otherwise a string, number, boolean or
      null. */
  datatype Cell = Undefined | CNull | CBool(b: bool) | CNum(n: int) | CText(t: string)

  /** The result record of `parseJsonData`. */
  datatype ParsedData = ParsedData(
    headers: seq<string>,
    rows: seq<seq<Cell>>,
    isObjectArray: bool,
    originalData: Json)

  /** The header pair used for a single object. */
  const KeyValueHeaders: seq<string> := ["Key", "Value"]

  /** The header used when the parsed value is a bare string. */
  const ExtractedTextHeader: string := "Extracted Text"

  /** Every row has exactly one cell per header. */
  predicate Rectangular(p: ParsedData) {
    forall i :: 0 <= i < |p.rows| ==> |p.rows[i]| == |p.headers|
  }

  /** Values shown as they are (everything but arrays and objects). */
  predicate IsScalar(v: Json) {
    !IsObjectLike(v)
  }

  /** The cell shown for a value: arrays and objects are replaced by
      their JSON serialisation, scalars pass through. */
  function DisplayCell(v: Json): Cell {
    match v
    case JNull => CNull
    case JBool(b) => CBool(b)
    case JNum(n) => CNum(n)
    case JStr(s) => CText(s)
    case JArr(_) => CText(Stringify(v))
    case JObj(_) => CText(Stringify(v))
  }

  /** The cell for the outcome of a property access that did not throw. */
  function CellOf(l: Lookup): Cell
    requires !l.TypeError?
  {
    if l.Absent? then Undefined else DisplayCell(l.value)
  }

  /** Reads a cell back as the JSON value it shows; an undefined cell
      reads back as nothing. */
  function CellValue(c: Cell): Option<Json> {
    match c
    case Undefined => None
    case CNull => Some(JNull)
    case CBool(b) => Some(JBool(b))
    case CNum(n) => Some(JNum(n))
    case CText(t) => Some(JStr(t))
  }

  /** A nested array or object is shown as its serialisation, which
      starts with `[` or `{`; a scalar is shown as itself and reads back
      unchanged. */
  lemma DisplayCellFaithful(v: Json)
    ensures IsObjectLike(v) ==> DisplayCell(v) == CText(Stringify(v))
    ensures IsObjectLike(v) ==> |DisplayCell(v).t| > 0 && DisplayCell(v).t[0] in {'[', '{'}
    ensures IsScalar(v) ==> CellValue(DisplayCell(v)) == Some(v)
    ensures DisplayCell(v) != Undefined
  {
  }

  /** `headers.map(header => obj[header], shown as a cell)` for one array
      element. `None` when the access throws, which happens exactly when
      the element is `null` and there is at least one header. */
  function RowOf(obj: Json, headers: seq<string>): (r: Option<seq<Cell>>)
    ensures r.Some? <==> (headers == [] || !obj.JNull?)
    ensures r.Some? ==> |r.value| == |headers|
    ensures r.Some? ==> forall k :: 0 <= k < |headers| ==> r.value[k] == CellOf(Member(obj, headers[k]))
    decreases |headers|
  {
    if headers == [] then Some([])
    else
      var l := Member(obj, headers[0]);
      if l.TypeError? then None
      else
        match RowOf(obj, headers[1..])
        case None => None
        case Some(rest) => Some([CellOf(l)] + rest)
  }

  /** `data.map(obj => row of obj)` over all elements of the array. */
  function RowsOf(items: seq<Json>, headers: seq<string>): (r: Option<seq<seq<Cell>>>)
    ensures r.Some? <==> (headers == [] || forall i :: 0 <= i < |items| ==> !items[i].JNull?)
    ensures r.Some? ==> |r.value| == |items|
    ensures r.Some? ==> forall i :: 0 <= i < |items| ==> RowOf(items[i], headers) == Some(r.value[i])
    decreases |items|
  {
    if |items| == 0 then Some([])
    else
      match RowOf(items[0], headers)
      case None => None
      case Some(row) =>
        match RowsOf(items[1..], headers)
        case None =>
          assert headers != [] && exists i :: 0 <= i < |items[1..]| && items[1..][i].JNull?;
          None
        case Some(rest) =>
          var r := [row] + rest;
          assert forall i :: 1 <= i < |items| ==> items[i] == items[1..][i - 1];
          Some(r)
  }

  /** One `[key, value]` row per entry of a single object. */
  function EntryRows(entries: seq<(string, Json)>): seq<seq<Cell>> {
    seq(|entries|, i requires 0 <= i < |entries| => [CText(entries[i].0), DisplayCell(entries[i].1)])
  }

  /** The array branch applies: a non-empty array whose first element is
      an array or object. */
  predicate IsObjectArray(data: Json) {
    data.JArr? && |data.items| > 0 && IsObjectLike(data.items[0])
  }

  /** The shape dispatch of `parseJsonData` once the text has parsed to
      `data`; `None` stands for its `null` result. */
  function TableOf(data: Json): (r: Option<ParsedData>)
    ensures r.Some? ==> r.value.originalData == data && Rectangular(r.value)
    ensures r.Some? <==>
      || data.JObj?
      || data.JStr?
      || (IsObjectArray(data)
          && (OwnKeys(data.items[0]) == [] || forall i :: 0 <= i < |data.items| ==> !data.items[i].JNull?))
  {
    if IsObjectArray(data) then
      var headers := OwnKeys(data.items[0]);
      match RowsOf(data.items, headers)
      case None => None
      case Some(rows) =>
        assert forall i :: 0 <= i < |rows| ==> RowOf(data.items[i], headers) == Some(rows[i]);
        Some(ParsedData(headers, rows, true, data))
    else if data.JObj? then
      Some(ParsedData(KeyValueHeaders, EntryRows(data.entries), false, data))
    else if data.JStr? then
      Some(ParsedData([ExtractedTextHeader], [[CText(data.s)]], false, data))
    else
      None
  }

  /** `parseJsonData(jsonString)`, with `JSON.parse` supplied as `parse`
      (`None` when it throws). Any exception yields `None`; a parsed
      value gives exactly the table `TableOf` builds for it. */
  function ParseJsonData(jsonString: string, parse: string -> Option<Json>): (r: Option<ParsedData>)
    ensures parse(jsonString).None? ==> r.None?
    ensures r.Some? ==> Some(r.value.originalData) == parse(jsonString) && Rectangular(r.value)
    ensures r.Some? <==> parse(jsonString).Some? && TableOf(parse(jsonString).value).Some?
    ensures parse(jsonString).Some? ==> r == TableOf(parse(jsonString).value)
  {
    match parse(jsonString)
    case None => None
    case Some(data) => TableOf(data)
  }

  /** Array branch: the headers are the first element's keys in order,
      every element gives one row of one cell per header, and each cell
      is what `element[header]` yields, shown as a cell. For an object
      element that is the value stored under the header, or `undefined`
      when it lacks the key. Keys only later elements have are not shown. */
  lemma ObjectArrayTable(data: Json)
    requires IsObjectArray(data)
    requires TableOf(data).Some?
    ensures var t := TableOf(data).value;
      && t.isObjectArray
      && t.headers == OwnKeys(data.items[0])
      && (data.items[0].JObj? ==> t.headers == Keys(data.items[0].entries))
      && |t.rows| == |data.items|
      && (forall i :: 0 <= i < |t.rows| ==> |t.rows[i]| == |t.headers|)
      && (forall i, k :: 0 <= i < |t.rows| && 0 <= k < |t.headers| ==>
            !data.items[i].JNull? && t.rows[i][k] == CellOf(Member(data.items[i], t.headers[k])))
      && (forall i, k :: 0 <= i < |t.rows| && 0 <= k < |t.headers| && data.items[i].JObj? ==>
            && (t.headers[k] !in Keys(data.items[i].entries) ==> t.rows[i][k] == Undefined)
            && (t.headers[k] in Keys(data.items[i].entries) ==>
                  exists v :: (t.headers[k], v) in data.items[i].entries && t.rows[i][k] == DisplayCell(v)))
  {
    var t := TableOf(data).value;
    var items := data.items;
    forall i, k | 0 <= i < |t.rows| && 0 <= k < |t.headers|
      ensures !items[i].JNull? && t.rows[i][k] == CellOf(Member(items[i], t.headers[k]))
    {
      assert RowOf(items[i], t.headers) == Some(t.rows[i]);
    }
  }

  /** Headers come from the first element alone: two arrays that agree on
      their first element get the same headers, whatever
      extra keys their later elements carry. */
  lemma HeadersFromFirstElementOnly(a: seq<Json>, b: seq<Json>)
    requires |a| > 0 && |b| > 0 && a[0] == b[0]
    requires TableOf(JArr(a)).Some? && TableOf(JArr(b)).Some?
    requires IsObjectLike(a[0])
    ensures TableOf(JArr(a)).value.headers == TableOf(JArr(b)).value.headers
  {
  }

  /** The array branch throws, and `parseJsonData` returns `null`,
      exactly when there is a header and some element is `null`. */
  lemma NullElementFails(data: Json)
    requires IsObjectArray(data)
    ensures TableOf(data).None? <==>
      (OwnKeys(data.items[0]) != [] && exists i :: 0 <= i < |data.items| && data.items[i].JNull?)
  {
  }

  /** Single-object branch: headers `Key`/`Value`, one row per entry in
      entry order holding the key and the value as shown. */
  lemma SingleObjectTable(entries: seq<(string, Json)>)
    ensures TableOf(JObj(entries)).Some?
    ensures var t := TableOf(JObj(entries)).value;
      && t.headers == ["Key", "Value"]
      && !t.isObjectArray
      && t.originalData == JObj(entries)
      && |t.rows| == |entries|
      && forall i :: 0 <= i < |entries| ==>
           |t.rows[i]| == 2 && t.rows[i][0] == CText(entries[i].0) && t.rows[i][1] == DisplayCell(entries[i].1)
  {
  }

  /** Bare-string branch: one header, one row, one cell holding the string. */
  lemma StringTable(s: string)
    ensures TableOf(JStr(s)) == Some(ParsedData(["Extracted Text"], [[CText(s)]], false, JStr(s)))
  {
  }

  /** `null`, booleans, numbers, the empty array and arrays whose first
      element is a scalar have no table. */
  lemma UnsupportedShapes(data: Json)
    requires
      || data.JNull? || data.JBool? || data.JNum?
      || (data.JArr? && (|data.items| == 0 || IsScalar(data.items[0])))
    ensures TableOf(data).None?
  {
  }

  /** An object whose values are all scalars. */
  predicate FlatObject(v: Json) {
    v.JObj? && forall i :: 0 <= i < |v.entries| ==> IsScalar(v.entries[i].1)
  }

  /** Non-empty array of flat objects, all with the first one's keys in
      the first one's order, and those keys distinct. */
  predicate UniformFlatObjects(items: seq<Json>) {
    && |items| > 0
    && items[0].JObj?
    && DistinctKeys(items[0].entries)
    && forall i :: 0 <= i < |items| ==> FlatObject(items[i]) && Keys(items[i].entries) == Keys(items[0].entries)
  }

  /** The object a table row stands for: one entry per defined cell. */
  function RowEntries(headers: seq<string>, row: seq<Cell>): seq<(string, Json)>
    requires |row| == |headers|
    decreases |headers|
  {
    if |headers| == 0 then []
    else
      (match CellValue(row[0])
       case None => []
       case Some(v) => [(headers[0], v)])
      + RowEntries(headers[1..], row[1..])
  }

  /** The array of objects a rectangular table stands for. */
  function RebuildObjects(headers: seq<string>, rows: seq<seq<Cell>>): Json
    requires forall i :: 0 <= i < |rows| ==> |rows[i]| == |headers|
  {
    JArr(seq(|rows|, i requires 0 <= i < |rows| => JObj(RowEntries(headers, rows[i]))))
  }

  /** A row of displayed scalars reads back as the entries it came from. */
  lemma {:induction false} RowEntriesOfFlat(entries: seq<(string, Json)>, row: seq<Cell>)
    requires |row| == |entries|
    requires forall k :: 0 <= k < |entries| ==> IsScalar(entries[k].1) && row[k] == DisplayCell(entries[k].1)
    ensures RowEntries(Keys(entries), row) == entries
    decreases |entries|
  {
    if |entries| > 0 {
      DisplayCellFaithful(entries[0].1);
      assert Keys(entries)[1..] == Keys(entries[1..]);
      RowEntriesOfFlat(entries[1..], row[1..]);
    }
  }

  /** Display round trip for arrays of uniform flat objects: re-deriving
      objects from the headers and rows gives back the parsed array. */
  lemma FlatArrayRoundTrip(items: seq<Json>)
    requires UniformFlatObjects(items)
    ensures TableOf(JArr(items)).Some?
    ensures var t := TableOf(JArr(items)).value;
      RebuildObjects(t.headers, t.rows) == JArr(items)
  {
    var headers := Keys(items[0].entries);
    assert forall i :: 0 <= i < |items| ==> !items[i].JNull?;
    var t := TableOf(JArr(items)).value;
    assert t.headers == headers;
    forall i | 0 <= i < |items|
      ensures RowEntries(headers, t.rows[i]) == items[i].entries
    {
      var e := items[i].entries;
      assert Keys(e) == headers;
      assert DistinctKeys(e) by {
        forall a, b | 0 <= a < b < |e| ensures e[a].0 != e[b].0 {
          assert Keys(e)[a] == e[a].0 && Keys(e)[b] == e[b].0;
        }
      }
      assert RowOf(items[i], headers) == Some(t.rows[i]);
      forall k | 0 <= k < |e|
        ensures t.rows[i][k] == DisplayCell(e[k].1)
      {
        FindDistinct(e, k);
        assert Keys(e)[k] == e[k].0;
        assert Member(items[i], headers[k]) == Present(e[k].1);
      }
      RowEntriesOfFlat(e, t.rows[i]);
    }
    assert RebuildObjects(t.headers, t.rows).items == items;
  }

  /** A row whose cells are all defined reads back as one entry per
      header, in header order. */
  lemma {:induction false} RowEntriesDefined(headers: seq<string>, row: seq<Cell>)
    requires |row| == |headers|
    requires forall k :: 0 <= k < |row| ==> CellValue(row[k]).Some?
    ensures |RowEntries(headers, row)| == |headers|
    ensures forall k :: 0 <= k < |headers| ==> RowEntries(headers, row)[k] == (headers[k], CellValue(row[k]).value)
    decreases |headers|
  {
    if |headers| > 0 {
      RowEntriesDefined(headers[1..], row[1..]);
    }
  }

  /** Objects of an array that hold the first object's keys, in any order. */
  ghost predicate SameKeySetFlatObjects(items: seq<Json>) {
    && |items| > 0
    && items[0].JObj?
    && forall i :: 0 <= i < |items| ==>
         && FlatObject(items[i])
         && DistinctKeys(items[i].entries)
         && forall key :: key in Keys(items[i].entries) <==> key in Keys(items[0].entries)
  }

  /** One flat object's row, taken under headers that list exactly its
      distinct keys, reads back with the same value under `key`. */
  lemma RebuiltObjectAgrees(obj: Json, headers: seq<string>, row: seq<Cell>, key: string)
    requires FlatObject(obj) && DistinctKeys(obj.entries)
    requires forall a, b :: 0 <= a < b < |headers| ==> headers[a] != headers[b]
    requires forall k :: k in Keys(obj.entries) <==> k in headers
    requires RowOf(obj, headers) == Some(row)
    ensures Find(RowEntries(headers, row), key) == Find(obj.entries, key)
  {
    var e := obj.entries;
    RowEntriesDefined(headers, row);
    var r := RowEntries(headers, row);
    assert Keys(r) == headers;
    assert DistinctKeys(r);
    if key in headers {
      var k :| 0 <= k < |headers| && headers[k] == key;
      assert key in Keys(e);
      var x := Find(e, key).value;
      var j :| 0 <= j < |e| && e[j] == (key, x);
      assert IsScalar(e[j].1);
      assert Member(obj, key) == Present(x);
      DisplayCellFaithful(x);
      assert CellValue(row[k]) == Some(x);
      FindDistinct(r, k);
    } else {
      assert key !in Keys(r) && key !in Keys(e);
    }
  }

  /** Display round trip per key set: when every object of the array has
      the first object's distinct keys, in whatever order, each rebuilt
      object holds the same value as the original under every key. */
  lemma FlatArrayKeySetRoundTrip(items: seq<Json>)
    requires SameKeySetFlatObjects(items)
    ensures TableOf(JArr(items)).Some?
    ensures var t := TableOf(JArr(items)).value;
      && |RebuildObjects(t.headers, t.rows).items| == |items|
      && forall i, key :: 0 <= i < |items| ==>
           Find(RebuildObjects(t.headers, t.rows).items[i].entries, key) == Find(items[i].entries, key)
  {
    var headers := Keys(items[0].entries);
    assert forall i :: 0 <= i < |items| ==> !items[i].JNull?;
    var t := TableOf(JArr(items)).value;
    assert t.headers == headers;
    var rebuilt := RebuildObjects(t.headers, t.rows);
    assert forall a, b :: 0 <= a < b < |headers| ==> headers[a] != headers[b] by {
      assert DistinctKeys(items[0].entries);
    }
    forall i | 0 <= i < |items|
      ensures forall key :: Find(rebuilt.items[i].entries, key) == Find(items[i].entries, key)
    {
      assert RowOf(items[i], headers) == Some(t.rows[i]);
      assert rebuilt.items[i].entries == RowEntries(headers, t.rows[i]);
      forall key
        ensures Find(rebuilt.items[i].entries, key) == Find(items[i].entries, key)
      {
        RebuiltObjectAgrees(items[i], headers, t.rows[i], key);
      }
    }
  }

  /** The object a `Key`/`Value` table stands for. */
  function RebuildObject(rows: seq<seq<Cell>>): Json
    requires forall i :: 0 <= i < |rows| ==> |rows[i]| == 2 && rows[i][0].CText? && CellValue(rows[i][1]).Some?
  {
    JObj(seq(|rows|, i requires 0 <= i < |rows| => (rows[i][0].t, CellValue(rows[i][1]).value)))
  }

  /** Display round trip for a flat single object: the `Key`/`Value`
      rows read back as the parsed object, entry for entry. */
  lemma FlatObjectRoundTrip(v: Json)
    requires FlatObject(v)
    ensures TableOf(v).Some?
    ensures var rows := TableOf(v).value.rows;
      && (forall i :: 0 <= i < |rows| ==> |rows[i]| == 2 && rows[i][0].CText? && CellValue(rows[i][1]).Some?)
      && RebuildObject(rows) == v
  {
    var rows := TableOf(v).value.rows;
    forall i | 0 <= i < |rows|
      ensures CellValue(rows[i][1]) == Some(v.entries[i].1)
    {
      DisplayCellFaithful(v.entries[i].1);
    }
    assert RebuildObject(rows).entries == v.entries;
  }
}
