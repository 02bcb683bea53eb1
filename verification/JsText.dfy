/** Text as the two runtimes see it. Python counts code points, which are Dafny `char`s here;
    JavaScript counts UTF-16 code units. */
module JsText {

  newtype CodeUnit = u: int | 0 <= u < 0x10000

  type JsString = seq<CodeUnit>

  /** Longest string a JavaScript number can count exactly: 2^53 - 1. */
  const MAX_SAFE_INTEGER: nat := 9007199254740991

  /** Every code point lies in the Basic Multilingual Plane, so it is one code unit. */
  predicate AllBmp(s: string) {
    forall i :: 0 <= i < |s| ==> s[i] as int < 0x10000
  }

  /** The UTF-16 encoding; code points above the BMP become a surrogate pair. */
  function Utf16(s: string): (u: JsString)
    ensures |u| >= |s|
  {
    if s == "" then [] else
    var c := s[0] as int;
    (if c < 0x10000 then [c as CodeUnit]
     else [(0xD800 + (c - 0x10000) / 0x400) as CodeUnit, (0xDC00 + (c - 0x10000) % 0x400) as CodeUnit])
    + Utf16(s[1..])
  }

  predicate IsHigh(u: CodeUnit) {
    0xD800 <= u < 0xDC00
  }

  predicate IsLow(u: CodeUnit) {
    0xDC00 <= u < 0xE000
  }

  /** The text a JavaScript string stands for; a surrogate without its partner reads as U+FFFD. */
  function FromUtf16(u: JsString): string
    decreases |u|
  {
    if u == [] then ""
    else if IsHigh(u[0]) && |u| > 1 && IsLow(u[1]) then
      [(0x10000 + (u[0] as int - 0xD800) * 0x400 + (u[1] as int - 0xDC00)) as char] + FromUtf16(u[2..])
    else [if IsHigh(u[0]) || IsLow(u[0]) then 0xFFFD as char else u[0] as int as char] + FromUtf16(u[1..])
  }

  lemma {:induction false} Utf16ReadsBack(s: string)
    ensures FromUtf16(Utf16(s)) == s
  {
    if s != "" {
      var rest := Utf16(s[1..]);
      Utf16ReadsBack(s[1..]);
      if s[0] as int < 0x10000 {
        assert Utf16(s)[1..] == rest;
      } else {
        assert Utf16(s)[2..] == rest;
      }
    }
  }

  /** Code points above the BMP. */
  function Astral(s: string): nat {
    if s == "" then 0 else (if s[0] as int < 0x10000 then 0 else 1) + Astral(s[1..])
  }

  lemma {:induction false} Utf16Length(s: string)
    ensures |Utf16(s)| == |s| + Astral(s)
    ensures Astral(s) == 0 <==> AllBmp(s)
  {
    if s != "" {
      Utf16Length(s[1..]);
    }
  }

  /** `separator.join(texts)`. */
  function JoinTexts(texts: seq<string>, separator: string): string {
    if |texts| == 0 then ""
    else if |texts| == 1 then texts[0]
    else texts[0] + separator + JoinTexts(texts[1..], separator)
  }

  lemma JoinStartsWith(texts: seq<string>, separator: string)
    requires texts != []
    ensures |texts[0]| <= |JoinTexts(texts, separator)| && JoinTexts(texts, separator)[..|texts[0]|] == texts[0]
  {
  }

  /** Index of the first line feed, or the length. */
  function FirstNewline(s: string): (k: nat)
    ensures k <= |s| && '\n' !in s[..k] && (k < |s| ==> s[k] == '\n')
  {
    if s == "" || s[0] == '\n' then 0 else
    var k := FirstNewline(s[1..]);
    assert s[..k + 1] == [s[0]] + s[1..][..k];
    k + 1
  }

  // ---- white space ----

  /** White space and line terminators, as `\s` and `trim()` understand them. */
  predicate IsJsSpace(c: char) {
    var u := c as int;
    || 9 <= u <= 13 || u == 0x20 || u == 0xA0 || u == 0x1680 || 0x2000 <= u <= 0x200A
    || u == 0x2028 || u == 0x2029 || u == 0x202F || u == 0x205F || u == 0x3000 || u == 0xFEFF
  }

  /** Characters `.` does not match. */
  predicate IsLineTerminator(c: char) {
    c == '\n' || c == '\r' || c as int == 0x2028 || c as int == 0x2029
  }

  function TrimStart(s: string): string {
    if s != "" && IsJsSpace(s[0]) then TrimStart(s[1..]) else s
  }

  function TrimEnd(s: string): string {
    if s != "" && IsJsSpace(s[|s| - 1]) then TrimEnd(s[..|s| - 1]) else s
  }

  function Trim(s: string): string {
    TrimEnd(TrimStart(s))
  }

  predicate AllSpace(s: string) {
    forall i :: 0 <= i < |s| ==> IsJsSpace(s[i])
  }

  lemma {:induction false} TrimStartIs(s: string)
    ensures var t := TrimStart(s);
      && |t| <= |s| && s == s[..|s| - |t|] + t && AllSpace(s[..|s| - |t|]) && (t == "" || !IsJsSpace(t[0]))
  {
    if s != "" && IsJsSpace(s[0]) {
      TrimStartIs(s[1..]);
      var k := |s| - |TrimStart(s)|;
      assert s[..k] == [s[0]] + s[1..][..k - 1];
    }
  }

  lemma {:induction false} TrimEndIs(s: string)
    ensures var t := TrimEnd(s);
      && t <= s && AllSpace(s[|t|..]) && (t == "" || !IsJsSpace(t[|t| - 1]))
  {
    if s != "" && IsJsSpace(s[|s| - 1]) {
      TrimEndIs(s[..|s| - 1]);
      var k := |TrimEnd(s)|;
      assert s[k..] == s[..|s| - 1][k..] + [s[|s| - 1]];
    }
  }

  /** What trimming takes is white space, and what it leaves neither starts nor ends with any. */
  lemma TrimIs(s: string) returns (before: string, after: string)
    ensures s == before + Trim(s) + after && AllSpace(before) && AllSpace(after)
    ensures Trim(s) != "" ==> !IsJsSpace(Trim(s)[0]) && !IsJsSpace(Trim(s)[|Trim(s)| - 1])
  {
    var t := TrimStart(s);
    TrimStartIs(s);
    TrimEndIs(t);
    hide TrimStart, TrimEnd, IsJsSpace;
    before, after := s[..|s| - |t|], t[|Trim(s)|..];
    assert t == Trim(s) + after;
    assert before + (Trim(s) + after) == before + Trim(s) + after;
  }

  lemma SpaceOnlyIff(a: string, x: string, b: string)
    requires AllSpace(a) && AllSpace(b) && (x != "" ==> !IsJsSpace(x[0]))
    ensures AllSpace(a + x + b) <==> x == ""
  {
    if x != "" {
      assert (a + x + b)[|a|] == x[0];
    }
  }

  /** And that determines what is left. */
  lemma TrimIsUnique(a: string, x: string, b: string, c: string, y: string, d: string)
    requires a + x + b == c + y + d && AllSpace(a) && AllSpace(b) && AllSpace(c) && AllSpace(d)
    requires x != "" ==> !IsJsSpace(x[0]) && !IsJsSpace(x[|x| - 1])
    requires y != "" ==> !IsJsSpace(y[0]) && !IsJsSpace(y[|y| - 1])
    ensures x == y
  {
    var s := a + x + b;
    SpaceOnlyIff(a, x, b);
    SpaceOnlyIff(c, y, d);
    if x != "" {
      assert s[|a|] == x[0] && s[|c|] == y[0] && s[|a| + |x| - 1] == x[|x| - 1] && s[|c| + |y| - 1] == y[|y| - 1];
      assert forall i :: 0 <= i < |a| ==> s[i] == a[i];
      assert forall i :: 0 <= i < |c| ==> s[i] == c[i];
      assert |a| == |c|;
      assert forall i :: |a| + |x| <= i < |s| ==> s[i] == b[i - |a| - |x|];
      assert forall i :: |c| + |y| <= i < |s| ==> s[i] == d[i - |c| - |y|];
      assert |x| == |y|;
      assert x == s[|a|..|a| + |x|] && y == s[|c|..|c| + |y|];
    }
  }

  lemma TrimDropsSpace(before: string, text: string, after: string)
    requires AllSpace(before) && AllSpace(after)
    ensures Trim(before + text + after) == Trim(text)
  {
    var a, b := TrimIs(text);
    var c, d := TrimIs(before + text + after);
    assert before + text + after == (before + a) + Trim(text) + (b + after);
    TrimIsUnique(before + a, Trim(text), b + after, c, Trim(before + text + after), d);
  }

  /** `text.substring(0, n)`: out-of-range ends are clamped, never an error. */
  function SubstringTo(s: JsString, n: int): JsString {
    if n <= 0 then [] else if n >= |s| then s else s[..n]
  }
}
