/** The JSON values the extraction result parses to, JavaScript's
    property access on them, and the compact serialisation that
    `JSON.stringify` produces for nested values shown in a cell. */
module JsonValue {
  import opened Maybe

  /** A value as `JSON.parse` builds it. Numbers are integers in this
      model. An object's entries are listed in enumeration order, which
      is the order `Object.keys` and `Object.entries` report. */
  datatype Json =
    | JNull
    | JBool(b: bool)
    | JNum(n: int)
    | JStr(s: string)
    | JArr(items: seq<Json>)
    | JObj(entries: seq<(string, Json)>)

  /** `typeof v === "object" && v !== null`: arrays and plain objects. */
  predicate IsObjectLike(v: Json) {
    v.JArr? || v.JObj?
  }

  /** JavaScript truthiness of a parsed value (`!v` is its negation). */
  predicate Truthy(v: Json) {
    match v
    case JNull => false
    case JBool(b) => b
    case JNum(n) => n != 0
    case JStr(s) => s != ""
    case JArr(_) => true
    case JObj(_) => true
  }

  /** The keys of an object's entries, in enumeration order. */
  function Keys(entries: seq<(string, Json)>): seq<string> {
    seq(|entries|, i requires 0 <= i < |entries| => entries[i].0)
  }

  /** Keys of a parsed object are pairwise different. */
  predicate DistinctKeys(entries: seq<(string, Json)>) {
    forall i, j :: 0 <= i < j < |entries| ==> entries[i].0 != entries[j].0
  }

  /** The value stored under `key` among an object's own entries. */
  function Find(entries: seq<(string, Json)>, key: string): (r: Option<Json>)
    ensures r.None? <==> key !in Keys(entries)
    ensures r.Some? ==> exists i :: 0 <= i < |entries| && entries[i] == (key, r.value)
  {
    if |entries| == 0 then None
    else if entries[0].0 == key then
      assert Keys(entries)[0] == key;
      Some(entries[0].1)
    else
      var rest := Find(entries[1..], key);
      assert Keys(entries) == [entries[0].0] + Keys(entries[1..]);
      if rest.Some? then
        var i :| 0 <= i < |entries[1..]| && entries[1..][i] == (key, rest.value);
        assert entries[i + 1] == (key, rest.value);
        rest
      else
        rest
  }

  /** With distinct keys, looking up the key of the k-th entry yields
      that entry's value. */
  lemma {:induction false} FindDistinct(entries: seq<(string, Json)>, k: nat)
    requires DistinctKeys(entries)
    requires k < |entries|
    ensures Find(entries, entries[k].0) == Some(entries[k].1)
  {
    if k > 0 {
      assert entries[0].0 != entries[k].0;
      assert DistinctKeys(entries[1..]) by {
        forall i, j | 0 <= i < j < |entries[1..]|
          ensures entries[1..][i].0 != entries[1..][j].0
        {
          assert entries[1..][i] == entries[i + 1] && entries[1..][j] == entries[j + 1];
        }
      }
      FindDistinct(entries[1..], k - 1);
    }
  }

  /** The decimal digit for `d`. */
  function DigitChar(d: nat): char
    requires d < 10
  {
    "0123456789"[d]
  }

  /** The canonical decimal spelling of a natural number, as JavaScript
      writes an array index or a non-negative integer. */
  function NatToString(n: nat): (s: string)
    ensures |s| > 0
    ensures forall i :: 0 <= i < |s| ==> '0' <= s[i] <= '9'
    decreases n
  {
    if n < 10 then [DigitChar(n)] else NatToString(n / 10) + [DigitChar(n % 10)]
  }

  /** The decimal spelling of an integer, with a leading minus sign for
      negatives. */
  function IntToString(n: int): string {
    if n < 0 then "-" + NatToString(-n) else NatToString(n)
  }

  /** The index below `n` whose canonical spelling is `key`, searching
      upwards from `from`. */
  function IndexFrom(key: string, from: nat, n: nat): (r: Option<nat>)
    ensures r.Some? ==> from <= r.value < n && NatToString(r.value) == key
    ensures r.None? ==> forall i :: from <= i < n ==> NatToString(i) != key
    decreases n - from
  {
    if from >= n then None
    else if NatToString(from) == key then Some(from)
    else IndexFrom(key, from + 1, n)
  }

  /** The array index that a property key names, for a length-`n`
      array or string; keys that are not canonical indices name none. */
  function IndexOf(key: string, n: nat): (r: Option<nat>)
    ensures r.Some? ==> r.value < n && NatToString(r.value) == key
    ensures r.None? ==> forall i :: 0 <= i < n ==> NatToString(i) != key
  {
    IndexFrom(key, 0, n)
  }

  /** The three outcomes of evaluating `v[key]` in JavaScript. */
  datatype Lookup =
    | TypeError          // `v` is null: the access throws
    | Absent             // the access yields `undefined`
    | Present(value: Json)

  /** `v[key]` for a parsed value `v`. Objects answer their own entries;
      arrays and strings answer `length` and their index keys; numbers
      and booleans answer nothing; `null` throws. */
  function Member(v: Json, key: string): (r: Lookup)
    ensures r.TypeError? <==> v.JNull?
    ensures v.JObj? ==> (r.Absent? <==> key !in Keys(v.entries))
    ensures v.JObj? && r.Present? ==> (key, r.value) in v.entries
  {
    match v
    case JNull => TypeError
    case JBool(_) => Absent
    case JNum(_) => Absent
    case JStr(s) =>
      if key == "length" then Present(JNum(|s|))
      else (match IndexOf(key, |s|)
            case Some(i) => Present(JStr([s[i]]))
            case None => Absent)
    case JArr(items) =>
      if key == "length" then Present(JNum(|items|))
      else (match IndexOf(key, |items|)
            case Some(i) => Present(items[i])
            case None => Absent)
    case JObj(entries) =>
      var found := Find(entries, key);
      if found.Some? then
        var i :| 0 <= i < |entries| && entries[i] == (key, found.value);
        assert entries[i] in entries;
        Present(found.value)
      else Absent
  }

  /** `Object.keys(v)` for an array or plain object: index spellings for
      an array, entry keys for an object. Every listed key answers a value
      when `v[key]` is read, and for an object the listed keys are exactly
      those that do. */
  function OwnKeys(v: Json): (ks: seq<string>)
    requires IsObjectLike(v)
    ensures v.JObj? ==> ks == Keys(v.entries)
    ensures v.JObj? ==> forall k :: k in ks <==> Member(v, k).Present?
    ensures v.JArr? ==> |ks| == |v.items|
    ensures forall i :: 0 <= i < |ks| ==> Member(v, ks[i]).Present?
  {
    match v
    case JArr(items) => seq(|items|, i requires 0 <= i < |items| => NatToString(i))
    case JObj(entries) => Keys(entries)
  }

  /** A lower-case hexadecimal digit. */
  function HexDigit(d: nat): char
    requires d < 16
  {
    "0123456789abcdef"[d]
  }

  /** The escaped form of one character inside a JSON string literal. */
  function EscapeChar(c: char): string {
    var code := c as int;
    if c == '"' then "\\\""
    else if c == '\\' then "\\\\"
    else if code == 0x08 then "\\b"
    else if code == 0x09 then "\\t"
    else if code == 0x0A then "\\n"
    else if code == 0x0C then "\\f"
    else if code == 0x0D then "\\r"
    else if code < 0x20 then "\\u00" + [HexDigit(code / 16), HexDigit(code % 16)]
    else [c]
  }

  /** The escaped body of a JSON string literal. */
  function Escape(s: string): string
    decreases |s|
  {
    if |s| == 0 then "" else EscapeChar(s[0]) + Escape(s[1..])
  }

  /** A JSON string literal for `s`. */
  function Quote(s: string): string {
    "\"" + Escape(s) + "\""
  }

  /** Comma-separated concatenation. */
  function JoinCommas(parts: seq<string>): string
    decreases |parts|
  {
    if |parts| == 0 then ""
    else if |parts| == 1 then parts[0]
    else parts[0] + "," + JoinCommas(parts[1..])
  }

  /** The compact serialisation `JSON.stringify(v)` produces. */
  function Stringify(v: Json): (s: string)
    ensures v.JArr? ==> |s| >= 2 && s[0] == '[' && s[|s| - 1] == ']'
    ensures v.JObj? ==> |s| >= 2 && s[0] == '{' && s[|s| - 1] == '}'
    decreases v
  {
    match v
    case JNull => "null"
    case JBool(b) => if b then "true" else "false"
    case JNum(n) => IntToString(n)
    case JStr(t) => Quote(t)
    case JArr(items) =>
      "[" + JoinCommas(seq(|items|, i requires 0 <= i < |items| => Stringify(items[i]))) + "]"
    case JObj(entries) =>
      "{" + JoinCommas(seq(|entries|, i requires 0 <= i < |entries| =>
                             Quote(entries[i].0) + ":" + Stringify(entries[i].1))) + "}"
  }
}
