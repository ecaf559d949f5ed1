/** The string operations the display and export code relies on:
    `String.prototype.trim`, `startsWith` with a one-character prefix,
    and the case-insensitive `/\.pdf$/i` replacement of a file name. */
module JsText {

  /** The characters `trim` removes: ECMAScript WhiteSpace and
      LineTerminator code points. */
  predicate IsJsWhitespace(c: char) {
    var n := c as int;
    || n == 0x09 || n == 0x0A || n == 0x0B || n == 0x0C || n == 0x0D
    || n == 0x20 || n == 0xA0 || n == 0x1680
    || (0x2000 <= n <= 0x200A)
    || n == 0x2028 || n == 0x2029 || n == 0x202F || n == 0x205F
    || n == 0x3000 || n == 0xFEFF
  }

  /** Every character of `s` is whitespace (vacuously so for ""). */
  predicate AllWhitespace(s: string) {
    forall i :: 0 <= i < |s| ==> IsJsWhitespace(s[i])
  }

  /** `s` with its leading whitespace removed. */
  function TrimStart(s: string): (r: string)
    ensures |r| <= |s| && r == s[|s| - |r|..]
    ensures r == "" || !IsJsWhitespace(r[0])
    decreases |s|
  {
    if |s| > 0 && IsJsWhitespace(s[0]) then TrimStart(s[1..]) else s
  }

  /** `s` with its trailing whitespace removed. */
  function TrimEnd(s: string): (r: string)
    ensures |r| <= |s| && r == s[..|r|]
    ensures r == "" || !IsJsWhitespace(r[|r| - 1])
    decreases |s|
  {
    if |s| > 0 && IsJsWhitespace(s[|s| - 1]) then TrimEnd(s[..|s| - 1]) else s
  }

  /** `s.trim()`. */
  function Trim(s: string): string {
    TrimEnd(TrimStart(s))
  }

  /** Removing leading whitespace leaves nothing exactly when there was
      nothing but whitespace. */
  lemma {:induction false} TrimStartEmptyIff(s: string)
    ensures TrimStart(s) == "" <==> AllWhitespace(s)
    decreases |s|
  {
    if |s| > 0 {
      if IsJsWhitespace(s[0]) {
        assert TrimStart(s) == TrimStart(s[1..]);
        TrimStartEmptyIff(s[1..]);
        assert AllWhitespace(s) <==> AllWhitespace(s[1..]) by {
          if AllWhitespace(s[1..]) {
            forall i | 0 <= i < |s| ensures IsJsWhitespace(s[i]) {
              if i > 0 { assert s[i] == s[1..][i - 1]; }
            }
          }
        }
      } else {
        assert TrimStart(s) == s;
        assert !AllWhitespace(s);
      }
    }
  }

  /** `s.trim() === ""` holds exactly for strings made only of
      whitespace, the empty string included. */
  lemma TrimEmptyIff(s: string)
    ensures Trim(s) == "" <==> AllWhitespace(s)
  {
    TrimStartEmptyIff(s);
    var t := TrimStart(s);
    if t != "" {
      assert TrimEnd(t) != "" by {
        var u := TrimEnd(t);
        if u == "" {
          // TrimEnd only strips whitespace, and t's first character is not.
          TrimEndEmptyOnlyForWhitespace(t);
        }
      }
    }
  }

  /** Removing trailing whitespace leaves nothing only from a string of
      whitespace. */
  lemma {:induction false} TrimEndEmptyOnlyForWhitespace(s: string)
    requires TrimEnd(s) == ""
    ensures AllWhitespace(s)
    decreases |s|
  {
    if |s| > 0 {
      assert IsJsWhitespace(s[|s| - 1]);
      TrimEndEmptyOnlyForWhitespace(s[..|s| - 1]);
      forall i | 0 <= i < |s| ensures IsJsWhitespace(s[i]) {
        if i < |s| - 1 { assert s[i] == s[..|s| - 1][i]; }
      }
    }
  }

  /** `s.startsWith(c)` for a one-character prefix. */
  predicate StartsWithChar(s: string, c: char) {
    |s| > 0 && s[0] == c
  }

  /** ASCII lower-casing, the case folding `/i` applies to the letters of
      `.pdf`. */
  function AsciiLower(c: char): char {
    if 'A' <= c <= 'Z' then (c as int + 32) as char else c
  }

  /** The name ends in `.pdf`, in any mix of letter case. */
  predicate EndsWithPdf(name: string) {
    && |name| >= 4
    && name[|name| - 4] == '.'
    && AsciiLower(name[|name| - 3]) == 'p'
    && AsciiLower(name[|name| - 2]) == 'd'
    && AsciiLower(name[|name| - 1]) == 'f'
  }

  /** `name.replace(/\.pdf$/i, "")`: one trailing `.pdf` is dropped. */
  function StripPdf(name: string): (r: string)
    ensures EndsWithPdf(name) ==> |r| == |name| - 4
    ensures !EndsWithPdf(name) ==> r == name
    ensures r == name[..|r|]
  {
    if EndsWithPdf(name) then name[..|name| - 4] else name
  }
}
