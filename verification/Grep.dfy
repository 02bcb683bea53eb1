/** `parseGrepMatches`: read grep's `path:line: text` and `path-line- text` output back into records. */
module Grep {
  import opened Wrappers
  import opened Decimal
  import opened JsText

  datatype GrepMatch = GrepMatch(path: string, line: nat, text: string, context: bool)

  // ---- the regular expression ^(.*?)([:\-])(\d+)([:\-])\s?(.*)$ on one line ----

  predicate IsSeparator(c: char) {
    c == ':' || c == '-'
  }

  predicate SingleLine(s: string) {
    forall i :: 0 <= i < |s| ==> !IsLineTerminator(s[i])
  }

  /** A separator, digits, separator starting at `i`; the result is the second separator's index. */
  function HeaderAt(s: string, i: nat): (r: Option<nat>)
    ensures r.Some? ==> i + 1 < r.value < |s| && AllDigits(s[i + 1..r.value])
  {
    if i < |s| && IsSeparator(s[i]) then
      var e := EndOfDigits(s, i + 1);
      if i + 1 < e < |s| && IsSeparator(s[e]) then Some(e) else None
    else None
  }

  /** The part after the header: one optional white space, then the rest of the line. */
  function RestOfLine(rest: string): Option<string> {
    if rest != "" && IsJsSpace(rest[0]) && SingleLine(rest[1..]) then Some(rest[1..])
    else if SingleLine(rest) then Some(rest)
    else None
  }

  function MatchAt(line: string, i: nat): Option<GrepMatch> {
    var e := HeaderAt(line, i);
    if e.None? then None else
    var text := RestOfLine(line[e.value + 1..]);
    if text.None? then None
    else Some(GrepMatch(line[..i], Value(line[i + 1..e.value]), text.value, line[i] == '-' || line[e.value] == '-'))
  }

  /** The lazy path grows until the remainder matches. */
  function MatchFrom(line: string, i: nat): Option<GrepMatch>
    requires i <= |line|
    decreases |line| - i
  {
    if MatchAt(line, i).Some? then MatchAt(line, i)
    else if i < |line| && !IsLineTerminator(line[i]) then MatchFrom(line, i + 1)
    else None
  }

  function MatchLine(line: string): Option<GrepMatch> {
    MatchFrom(line, 0)
  }

  // ---- the parser ----

  function DropCarriageReturn(s: string): string {
    if s != "" && s[|s| - 1] == '\r' then s[..|s| - 1] else s
  }

  /** `text.split(/\r?\n/)`. */
  function SplitLines(s: string): seq<string>
    decreases |s|
  {
    var k := FirstNewline(s);
    if k == |s| then [s] else [DropCarriageReturn(s[..k])] + SplitLines(s[k + 1..])
  }

  function MatchesIn(lines: seq<string>): seq<GrepMatch> {
    if lines == [] then [] else
    var m := MatchLine(lines[|lines| - 1]);
    MatchesIn(lines[..|lines| - 1]) + if m.Some? then [m.value] else []
  }

  function GrepMatches(text: string): seq<GrepMatch> {
    var trimmed := Trim(text);
    if trimmed == "" || trimmed == "No matches found" then [] else MatchesIn(SplitLines(trimmed))
  }

  method ParseGrepMatches(text: string) returns (matches: seq<GrepMatch>)
    ensures matches == GrepMatches(text)
  {
    var trimmed := Trim(text);
    matches := [];
    if trimmed == "" || trimmed == "No matches found" {
      return;
    }
    var lines := SplitLines(trimmed);
    for i := 0 to |lines|
      invariant matches == MatchesIn(lines[..i])
    {
      assert lines[..i + 1][..i] == lines[..i];
      var m := MatchLine(lines[i]);
      if m.Some? {
        matches := matches + [m.value];
      }
    }
    assert lines[..|lines|] == lines;
  }

  // ---- the printer ----

  function Separator(r: GrepMatch): (c: char)
    ensures IsSeparator(c)
  {
    if r.context then '-' else ':'
  }

  function Header(r: GrepMatch): string {
    [Separator(r)] + Digits(r.line) + [Separator(r)]
  }

  function PrintRecord(r: GrepMatch): string {
    r.path + Header(r) + (" " + r.text)
  }

  function PrintRecords(rs: seq<GrepMatch>): seq<string> {
    seq(|rs|, i requires 0 <= i < |rs| => PrintRecord(rs[i]))
  }

  function PrintGrep(rs: seq<GrepMatch>): string {
    JoinTexts(PrintRecords(rs), "\n")
  }

  /** What one line of grep output can hold, with a line number JavaScript represents exactly. */
  predicate Printable(r: GrepMatch) {
    SingleLine(r.path) && SingleLine(r.text) && r.line <= MAX_SAFE_INTEGER
  }

  // ---- when a printed record is read back ----

  /** No separator-digits-separator starts inside the path; the record's own separator may end one. */
  predicate PathIsClear(path: string, separator: char) {
    forall i :: 0 <= i < |path| ==> HeaderAt(path + [separator], i).None?
  }

  predicate StartsClear(s: string) {
    s == "" || !IsJsSpace(s[0])
  }

  predicate EndsClear(s: string) {
    s == "" || !IsJsSpace(s[|s| - 1])
  }

  /** A header that starts inside the path ends at the record's separator at the latest, so what
      follows it does not matter. */
  lemma HeaderInPath(path: string, separator: char, rest: string, i: nat)
    requires i < |path| && IsSeparator(separator)
    ensures HeaderAt(path + [separator] + rest, i) == HeaderAt(path + [separator], i)
  {
    var short, long := path + [separator], path + [separator] + rest;
    var e := EndOfDigits(short, i + 1);
    assert !IsDigit(short[|path|]) && e <= |path|;
    assert long[i + 1..e] == short[i + 1..e] && long[e] == short[e];
    EndOfDigitsIs(long, i + 1, e);
  }

  lemma OwnHeader(path: string, r: GrepMatch, tail: string)
    ensures HeaderAt(path + Header(r) + tail, |path|) == Some(|path| + 1 + |Digits(r.line)|)
  {
    var s := path + Header(r) + tail;
    var e := |path| + 1 + |Digits(r.line)|;
    assert s[|path| + 1..e] == Digits(r.line);
    assert s[e] == Separator(r);
    EndOfDigitsIs(s, |path| + 1, e);
  }

  function DropSpace(tail: string): string {
    if tail != "" && IsJsSpace(tail[0]) then tail[1..] else tail
  }

  lemma SingleLineParts(s: string, i: nat)
    requires SingleLine(s) && i <= |s|
    ensures SingleLine(s[i..]) && SingleLine(s[..i])
  {
  }

  lemma OwnParts(path: string, r: GrepMatch, tail: string)
    ensures var s := path + Header(r) + tail;
      var e := |path| + 1 + |Digits(r.line)|;
      && |s| == e + 1 + |tail|
      && s[..|path|] == path && s[|path|] == s[e] == Separator(r)
      && s[|path| + 1..e] == Digits(r.line) && s[e + 1..] == tail
  {
    hide Digits;
  }

  lemma MatchAtOwnHeader(path: string, r: GrepMatch, tail: string)
    requires SingleLine(tail)
    ensures MatchAt(path + Header(r) + tail, |path|) == Some(GrepMatch(path, r.line, DropSpace(tail), r.context))
  {
    var s := path + Header(r) + tail;
    var e := |path| + 1 + |Digits(r.line)|;
    OwnHeader(path, r, tail);
    OwnParts(path, r, tail);
    ValueOfDigits(r.line);
    assert RestOfLine(tail) == Some(DropSpace(tail)) by {
      if tail != "" {
        SingleLineParts(tail, 1);
      }
    }
    hide HeaderAt, RestOfLine, DropSpace, Digits, Value;
  }

  lemma MatchAtPathHeader(path: string, r: GrepMatch, tail: string, i: nat)
    requires SingleLine(path) && SingleLine(tail) && i < |path|
    ensures MatchAt(path + Header(r) + tail, i).Some? <==> HeaderAt(path + [Separator(r)], i).Some?
    ensures MatchAt(path + Header(r) + tail, i).Some? ==> |MatchAt(path + Header(r) + tail, i).value.path| == i
  {
    var s := path + Header(r) + tail;
    assert s == path + [Separator(r)] + (Digits(r.line) + [Separator(r)] + tail);
    HeaderInPath(path, Separator(r), Digits(r.line) + [Separator(r)] + tail, i);
    assert SingleLine(s);
  }

  lemma {:induction false} FirstHeaderWins(path: string, r: GrepMatch, tail: string, i: nat)
    requires r.line <= MAX_SAFE_INTEGER
    requires SingleLine(path) && SingleLine(tail) && i <= |path|
    ensures var m := MatchFrom(path + Header(r) + tail, i);
      && m.Some? && |m.value.path| <= |path|
      && (m.value.path == path ==> m.value == GrepMatch(path, r.line, DropSpace(tail), r.context))
      && (m.value.path == path <==> forall j :: i <= j < |path| ==> HeaderAt(path + [Separator(r)], j).None?)
    decreases |path| - i
  {
    hide MatchAt, HeaderAt, Header, DropSpace, Digits;
    var s := path + Header(r) + tail;
    if i == |path| {
      MatchAtOwnHeader(path, r, tail);
    } else {
      MatchAtPathHeader(path, r, tail, i);
      assert s[i] == path[i];
      FirstHeaderWins(path, r, tail, i + 1);
    }
  }

  // ---- trimming and splitting the whole output ----

  lemma {:induction false} TrimStartStops(p: string, x: string)
    requires x != "" && !IsJsSpace(x[0])
    ensures TrimStart(p + x) == TrimStart(p) + x
  {
    if p == "" {
      assert p + x == x;
    } else if IsJsSpace(p[0]) {
      assert (p + x)[1..] == p[1..] + x;
      TrimStartStops(p[1..], x);
    }
  }

  lemma {:induction false} TrimEndStops(y: string, t: string)
    requires y != "" && !IsJsSpace(y[|y| - 1])
    ensures TrimEnd(y + t) == y + TrimEnd(t)
  {
    if t == "" {
      assert y + t == y;
    } else if IsJsSpace(t[|t| - 1]) {
      assert (y + t)[..|y + t| - 1] == y + t[..|t| - 1];
      TrimEndStops(y, t[..|t| - 1]);
    }
  }

  lemma {:induction false} TrimStartLength(s: string)
    ensures TrimStart(s) == s || |TrimStart(s)| < |s|
    ensures TrimStart(s) == s <==> StartsClear(s)
    ensures SingleLine(s) ==> SingleLine(TrimStart(s))
  {
    if s != "" && IsJsSpace(s[0]) {
      TrimStartLength(s[1..]);
    }
  }

  lemma {:induction false} TrimEndLength(s: string)
    ensures TrimEnd(s) == s || |TrimEnd(s)| < |s|
    ensures TrimEnd(s) == s <==> EndsClear(s)
    ensures SingleLine(s) ==> SingleLine(TrimEnd(s))
  {
    if s != "" && IsJsSpace(s[|s| - 1]) {
      TrimEndLength(s[..|s| - 1]);
    }
  }

  /** The space before the text is trimmed only together with all of the text. */
  lemma {:induction false} TrimEndOfTail(text: string)
    ensures DropSpace(TrimEnd(" " + text)) == TrimEnd(text)
    ensures SingleLine(text) ==> SingleLine(TrimEnd(" " + text))
  {
    var t := " " + text;
    TrimEndLength(t);
    if text == "" {
      assert t[..|t| - 1] == "";
    } else if IsJsSpace(text[|text| - 1]) {
      assert t[..|t| - 1] == " " + text[..|text| - 1];
      TrimEndOfTail(text[..|text| - 1]);
    } else {
      assert t[1..] == text;
    }
  }

  lemma JoinFirst(a: string, b: string, rest: seq<string>, separator: string)
    ensures JoinTexts([a + b] + rest, separator) == a + JoinTexts([b] + rest, separator)
  {
    assert ([a + b] + rest)[1..] == rest && ([b] + rest)[1..] == rest;
  }

  lemma {:induction false} JoinLast(front: seq<string>, a: string, b: string, separator: string)
    ensures JoinTexts(front + [a + b], separator) == JoinTexts(front + [a], separator) + b
  {
    if front == [] {
      assert front + [a + b] == [a + b] && front + [a] == [a];
    } else {
      JoinLast(front[1..], a, b, separator);
      assert (front + [a + b])[1..] == front[1..] + [a + b];
      assert (front + [a])[1..] == front[1..] + [a];
    }
  }

  lemma {:induction false} JoinEnds(texts: seq<string>, separator: string)
    requires texts != []
    ensures var j := JoinTexts(texts, separator);
      && (texts[0] != "" ==> j != "" && j[0] == texts[0][0])
      && (texts[|texts| - 1] != "" ==> j != "" && j[|j| - 1] == texts[|texts| - 1][|texts[|texts| - 1]| - 1])
  {
    if |texts| > 1 {
      JoinEnds(texts[1..], separator);
    }
  }

  lemma {:induction false} FirstNewlineIs(a: string, b: string)
    requires SingleLine(a)
    ensures FirstNewline(a + "\n" + b) == |a| && FirstNewline(a) == |a|
  {
    if a != "" {
      FirstNewlineIs(a[1..], b);
      assert (a + "\n" + b)[1..] == a[1..] + "\n" + b;
    }
  }

  lemma {:induction false} SplitOfJoin(lines: seq<string>)
    requires lines != [] && forall i :: 0 <= i < |lines| ==> SingleLine(lines[i])
    ensures SplitLines(JoinTexts(lines, "\n")) == lines
  {
    FirstNewlineIs(lines[0], "");
    if |lines| > 1 {
      var rest := JoinTexts(lines[1..], "\n");
      var s := lines[0] + "\n" + rest;
      assert JoinTexts(lines, "\n") == s;
      FirstNewlineIs(lines[0], rest);
      assert s[..|lines[0]|] == lines[0] && s[|lines[0]| + 1..] == rest;
      SplitOfJoin(lines[1..]);
    }
  }

  // ---- the whole output ----

  /** Path and tail of record `i` once the whole output has been trimmed. */
  function TrimmedPath(rs: seq<GrepMatch>, i: nat): string
    requires i < |rs|
  {
    if i == 0 then TrimStart(rs[i].path) else rs[i].path
  }

  function TrimmedTail(rs: seq<GrepMatch>, i: nat): string
    requires i < |rs|
  {
    if i == |rs| - 1 then TrimEnd(" " + rs[i].text) else " " + rs[i].text
  }

  function TrimmedLines(rs: seq<GrepMatch>): seq<string> {
    seq(|rs|, i requires 0 <= i < |rs| => TrimmedPath(rs, i) + Header(rs[i]) + TrimmedTail(rs, i))
  }

  lemma TrimStartOfPrint(rs: seq<GrepMatch>)
    requires rs != []
    ensures TrimStart(PrintGrep(rs))
         == JoinTexts([TrimStart(rs[0].path) + Header(rs[0]) + (" " + rs[0].text)] + PrintRecords(rs)[1..], "\n")
  {
    var rest := PrintRecords(rs)[1..];
    var path, x := rs[0].path, Header(rs[0]) + (" " + rs[0].text);
    assert PrintRecord(rs[0]) == path + x;
    assert PrintRecords(rs) == [path + x] + rest;
    JoinFirst(path, x, rest, "\n");
    JoinEnds([x] + rest, "\n");
    TrimStartStops(path, JoinTexts([x] + rest, "\n"));
    JoinFirst(TrimStart(path), x, rest, "\n");
    assert TrimStart(path) + x == TrimStart(path) + Header(rs[0]) + (" " + rs[0].text);
  }

  lemma TrimEndOfLines(front: seq<string>, y: string, t: string)
    requires y != "" && !IsJsSpace(y[|y| - 1])
    ensures TrimEnd(JoinTexts(front + [y + t], "\n")) == JoinTexts(front + [y + TrimEnd(t)], "\n")
  {
    JoinLast(front, y, t, "\n");
    JoinEnds(front + [y], "\n");
    TrimEndStops(JoinTexts(front + [y], "\n"), t);
    JoinLast(front, y, TrimEnd(t), "\n");
  }

  lemma TrimOfPrint(rs: seq<GrepMatch>)
    requires rs != []
    ensures Trim(PrintGrep(rs)) == JoinTexts(TrimmedLines(rs), "\n")
  {
    hide TrimStart, TrimEnd, JoinTexts;
    var n := |rs|;
    TrimStartOfPrint(rs);
    var first := TrimStart(rs[0].path) + Header(rs[0]) + (" " + rs[0].text);
    var lines := [first] + PrintRecords(rs)[1..];
    var front := lines[..n - 1];
    var y := TrimmedPath(rs, n - 1) + Header(rs[n - 1]);
    var t := " " + rs[n - 1].text;
    assert lines[n - 1] == y + t;
    assert lines == front + [y + t];
    TrimEndOfLines(front, y, t);
    assert TrimmedLines(rs)[n - 1] == y + TrimEnd(t);
    assert forall i :: 0 <= i < n - 1 ==> TrimmedLines(rs)[i] == front[i];
    assert TrimmedLines(rs) == front + [y + TrimEnd(t)];
  }

  lemma {:induction false} AllLinesMatch(lines: seq<string>)
    requires forall i :: 0 <= i < |lines| ==> MatchLine(lines[i]).Some?
    ensures |MatchesIn(lines)| == |lines|
    ensures forall i :: 0 <= i < |lines| ==> MatchesIn(lines)[i] == MatchLine(lines[i]).value
  {
    hide MatchLine;
    if lines != [] {
      AllLinesMatch(lines[..|lines| - 1]);
    }
  }

  /** What is read back for record `i` is the record, exactly when its path is clear and it loses
      nothing to the outer trim. */
  predicate Survives(rs: seq<GrepMatch>, i: nat)
    requires i < |rs|
  {
    && PathIsClear(rs[i].path, Separator(rs[i]))
    && (i == 0 ==> StartsClear(rs[i].path))
    && (i == |rs| - 1 ==> EndsClear(rs[i].text))
  }

  lemma TrimmedParts(rs: seq<GrepMatch>, i: nat)
    requires i < |rs| && Printable(rs[i])
    ensures var path, tail := TrimmedPath(rs, i), TrimmedTail(rs, i);
      && SingleLine(path) && SingleLine(tail) && SingleLine(path + Header(rs[i]) + tail)
      && (path == rs[i].path || |path| < |rs[i].path|)
      && (path == rs[i].path <==> (i == 0 ==> StartsClear(rs[i].path)))
      && (DropSpace(tail) == rs[i].text <==> (i == |rs| - 1 ==> EndsClear(rs[i].text)))
  {
    TrimStartLength(rs[i].path);
    TrimEndLength(rs[i].text);
    TrimEndOfTail(rs[i].text);
    SpacedText(rs[i].text);
    HeaderIsSingleLine(rs[i]);
    hide TrimStart, TrimEnd, DropSpace, Header, IsLineTerminator, IsJsSpace, StartsClear, EndsClear;
  }

  lemma SpacedText(text: string)
    ensures DropSpace(" " + text) == text && (SingleLine(text) ==> SingleLine(" " + text))
  {
    assert (" " + text)[1..] == text;
  }

  lemma HeaderIsSingleLine(r: GrepMatch)
    ensures SingleLine(Header(r))
  {
  }

  lemma LineReadBack(rs: seq<GrepMatch>, i: nat)
    requires i < |rs| && Printable(rs[i])
    ensures SingleLine(TrimmedLines(rs)[i])
    ensures MatchLine(TrimmedLines(rs)[i]).Some?
    ensures MatchLine(TrimmedLines(rs)[i]).value == rs[i] <==> Survives(rs, i)
  {
    hide MatchFrom, HeaderAt, Header, DropSpace, TrimmedPath, TrimmedTail, StartsClear, EndsClear;
    TrimmedParts(rs, i);
    FirstHeaderWins(TrimmedPath(rs, i), rs[i], TrimmedTail(rs, i), 0);
  }

  lemma PrintedTextIsNotEmpty(rs: seq<GrepMatch>, text: string)
    requires rs != [] && text == JoinTexts(TrimmedLines(rs), "\n")
    ensures text != "" && text != "No matches found"
  {
    var line := TrimmedLines(rs)[0];
    var k := |TrimmedPath(rs, 0)|;
    JoinStartsWith(TrimmedLines(rs), "\n");
    assert IsSeparator(line[k]);
    assert text[..|line|][k] == line[k];
    assert IsSeparator(text[k]);
  }

  /** Printing and parsing returns the same records, for any list of printable records, exactly when
      every path is clear and the outer white space is not the first path's or the last text's. */
  lemma RoundTripIff(rs: seq<GrepMatch>)
    requires forall i :: 0 <= i < |rs| ==> Printable(rs[i])
    ensures GrepMatches(PrintGrep(rs)) == rs <==> forall i :: 0 <= i < |rs| ==> Survives(rs, i)
  {
    if rs != [] {
      var lines := TrimmedLines(rs);
      forall i | 0 <= i < |rs|
        ensures SingleLine(lines[i]) && MatchLine(lines[i]).Some?
        ensures MatchLine(lines[i]).value == rs[i] <==> Survives(rs, i)
      {
        LineReadBack(rs, i);
      }
      hide MatchLine, Survives, SplitLines, JoinTexts, TrimmedLines;
      TrimOfPrint(rs);
      PrintedTextIsNotEmpty(rs, Trim(PrintGrep(rs)));
      SplitOfJoin(lines);
      AllLinesMatch(lines);
      assert GrepMatches(PrintGrep(rs)) == MatchesIn(lines);
    }
  }

  lemma OneRecord(r: GrepMatch)
    requires Printable(r)
    ensures MatchLine(TrimmedLines([r])[0]).Some?
    ensures GrepMatches(PrintGrep([r])) == [MatchLine(TrimmedLines([r])[0]).value]
  {
    var lines := TrimmedLines([r]);
    LineReadBack([r], 0);
    TrimOfPrint([r]);
    PrintedTextIsNotEmpty([r], Trim(PrintGrep([r])));
    assert lines == [lines[0]];
    hide Trim, MatchLine, TrimmedLines, PrintGrep, SplitLines, JoinTexts;
    SplitOfJoin(lines);
    AllLinesMatch(lines);
    assert MatchesIn(lines) == [MatchLine(lines[0]).value];
  }

  /** A path that holds a header itself is misread: what comes before that header is taken for the path,
      and what follows it, the record's own header included, for the text. */
  lemma HeaderInPathIsMisread(r: GrepMatch, inner: GrepMatch, rest: string)
    requires inner.line <= MAX_SAFE_INTEGER
    requires Printable(r) && r.path == inner.path + Header(inner) + rest && PathIsClear(inner.path, Separator(inner))
    requires StartsClear(r.path) && r.text != "" && EndsClear(r.text)
    ensures GrepMatches(PrintGrep([r]))
         == [GrepMatch(inner.path, inner.line, DropSpace(rest + Header(r) + (" " + r.text)), inner.context)]
  {
    var tail := rest + Header(r) + (" " + r.text);
    OneRecord(r);
    UntrimmedLine(r);
    hide *;
    SingleLineConcat(inner.path + Header(inner), rest);
    SingleLineConcat(inner.path, Header(inner));
    SpacedText(r.text);
    HeaderIsSingleLine(r);
    SingleLineConcat(rest, Header(r));
    SingleLineConcat(rest + Header(r), " " + r.text);
    Regroup(inner.path + Header(inner), rest, Header(r), " " + r.text);
    FirstHeaderInPath(inner, tail);
  }

  lemma UntrimmedLine(r: GrepMatch)
    requires Printable(r) && StartsClear(r.path) && r.text != "" && EndsClear(r.text)
    ensures TrimmedLines([r]) == [r.path + Header(r) + (" " + r.text)]
    ensures SingleLine(r.path) && SingleLine(r.text)
  {
    TrimStartLength(r.path);
    TrimEndLength(" " + r.text);
    hide Header, TrimStart, TrimEnd;
  }

  lemma SingleLineConcat(a: string, b: string)
    ensures SingleLine(a + b) <==> SingleLine(a) && SingleLine(b)
  {
    hide IsLineTerminator;
    assert forall i :: 0 <= i < |b| ==> (a + b)[|a| + i] == b[i];
    assert forall i :: 0 <= i < |a| ==> (a + b)[i] == a[i];
  }

  lemma Regroup(a: string, b: string, c: string, d: string)
    ensures a + b + c + d == a + (b + c + d)
  {
  }

  lemma FirstHeaderInPath(inner: GrepMatch, tail: string)
    requires inner.line <= MAX_SAFE_INTEGER
    requires PathIsClear(inner.path, Separator(inner)) && SingleLine(inner.path) && SingleLine(tail)
    ensures MatchLine(inner.path + Header(inner) + tail)
         == Some(GrepMatch(inner.path, inner.line, DropSpace(tail), inner.context))
  {
    hide HeaderAt, MatchFrom, Header, DropSpace, SingleLine;
    FirstHeaderWins(inner.path, inner, tail, 0);
  }

  /** So a match on line 5 of the file `a:1:b` comes back as one on line 1 of the file `a`. */
  lemma MisreadExample(text: string)
    requires SingleLine(text) && text != "" && EndsClear(text)
    ensures var r := GrepMatch("a:1:b", 5, text, false);
      Printable(r) && GrepMatches(PrintGrep([r])) == [GrepMatch("a", 1, "b:5: " + text, false)]
  {
    var r, inner := GrepMatch("a:1:b", 5, text, false), GrepMatch("a", 1, "", false);
    assert Header(r) == ":5:" && Header(inner) == ":1:";
    assert "a:1:b" == "a" + ":1:" + "b" && "b:5:" == "b" + ":5:";
    hide Header, GrepMatches, PrintGrep;
    HeaderInPathIsMisread(r, inner, "b");
    assert "b" + ":5:" + (" " + text) == "b:5: " + text;
  }

  // ---- other lines, outer space, line ends ----

  /** Each line is read on its own: nothing read before or after depends on it. */
  lemma {:induction false} LinesAreIndependent(a: seq<string>, b: seq<string>)
    ensures MatchesIn(a + b) == MatchesIn(a) + MatchesIn(b)
  {
    hide MatchLine;
    if b == [] {
      assert a + b == a;
    } else {
      LinesAreIndependent(a, b[..|b| - 1]);
      assert (a + b)[..|a + b| - 1] == a + b[..|b| - 1];
    }
  }

  /** A line of output: a record, or anything else on which no header starts. */
  datatype OutputLine = Record(r: GrepMatch) | Other(text: string)

  predicate Plausible(l: OutputLine) {
    match l
    case Record(r) => Printable(r)
    case Other(text) => SingleLine(text) && forall i :: 0 <= i < |text| ==> HeaderAt(text, i).None?
  }

  function LineText(l: OutputLine): string {
    if l.Record? then PrintRecord(l.r) else l.text
  }

  function LineTexts(ls: seq<OutputLine>): seq<string> {
    if ls == [] then [] else LineTexts(ls[..|ls| - 1]) + [LineText(ls[|ls| - 1])]
  }

  function RecordsOf(ls: seq<OutputLine>): seq<GrepMatch> {
    if ls == [] then [] else
    RecordsOf(ls[..|ls| - 1]) + if ls[|ls| - 1].Record? then [ls[|ls| - 1].r] else []
  }

  predicate PathsAreClear(rs: seq<GrepMatch>) {
    forall i :: 0 <= i < |rs| ==> PathIsClear(rs[i].path, Separator(rs[i]))
  }

  lemma {:induction false} NoHeaderNoMatch(text: string, i: nat)
    requires i <= |text| && forall j :: i <= j < |text| ==> HeaderAt(text, j).None?
    ensures MatchFrom(text, i).None?
    decreases |text| - i
  {
    if i < |text| {
      NoHeaderNoMatch(text, i + 1);
    }
  }

  lemma RecordLineReads(r: GrepMatch)
    requires Printable(r)
    ensures SingleLine(PrintRecord(r)) && MatchLine(PrintRecord(r)).Some?
    ensures MatchLine(PrintRecord(r)).value == r <==> PathIsClear(r.path, Separator(r))
  {
    SpacedText(r.text);
    HeaderIsSingleLine(r);
    SingleLineConcat(r.path, Header(r));
    SingleLineConcat(r.path + Header(r), " " + r.text);
    hide MatchFrom, HeaderAt, Header, DropSpace, SingleLine;
    FirstHeaderWins(r.path, r, " " + r.text, 0);
  }

  lemma {:induction false} MixedLinesReadBack(ls: seq<OutputLine>)
    requires forall i :: 0 <= i < |ls| ==> Plausible(ls[i])
    ensures |LineTexts(ls)| == |ls| && forall i :: 0 <= i < |ls| ==> SingleLine(LineTexts(ls)[i])
    ensures |MatchesIn(LineTexts(ls))| == |RecordsOf(ls)|
    ensures MatchesIn(LineTexts(ls)) == RecordsOf(ls) <==> PathsAreClear(RecordsOf(ls))
  {
    if ls != [] {
      hide MatchLine, PathIsClear, PrintRecord, SingleLine, HeaderAt;
      var front, last := ls[..|ls| - 1], ls[|ls| - 1];
      MixedLinesReadBack(front);
      var read, records := MatchesIn(LineTexts(front)), RecordsOf(front);
      assert LineTexts(ls) == LineTexts(front) + [LineText(last)];
      assert LineTexts(ls)[..|front|] == LineTexts(front);
      if last.Record? {
        RecordLineReads(last.r);
        var m := MatchLine(PrintRecord(last.r)).value;
        assert MatchesIn(LineTexts(ls)) == read + [m] && RecordsOf(ls) == records + [last.r];
        LastDecides(read, m, records, last.r);
        ClearSnoc(records, last.r);
      } else {
        OtherLineIsSkipped(last.text);
        assert MatchesIn(LineTexts(ls)) == read && RecordsOf(ls) == records;
      }
    }
  }

  lemma OtherLineIsSkipped(text: string)
    requires Plausible(Other(text))
    ensures MatchLine(text).None? && SingleLine(text)
  {
    NoHeaderNoMatch(text, 0);
  }

  lemma LastDecides(a: seq<GrepMatch>, x: GrepMatch, b: seq<GrepMatch>, y: GrepMatch)
    requires |a| == |b|
    ensures a + [x] == b + [y] <==> a == b && x == y
  {
    assert (a + [x])[..|a|] == a && (b + [y])[..|b|] == b && (a + [x])[|a|] == x && (b + [y])[|b|] == y;
  }

  lemma ClearSnoc(rs: seq<GrepMatch>, r: GrepMatch)
    ensures PathsAreClear(rs + [r]) <==> PathsAreClear(rs) && PathIsClear(r.path, Separator(r))
  {
    hide PathIsClear;
    assert (rs + [r])[|rs|] == r && forall i :: 0 <= i < |rs| ==> (rs + [r])[i] == rs[i];
  }

  /** The two shortcuts of the parser change nothing: it reads every line of the trimmed text. */
  lemma ShortcutsChangeNothing(text: string)
    ensures GrepMatches(text) == MatchesIn(SplitLines(Trim(text)))
  {
    hide Trim;
    OneLineWithoutHeader("");
    OneLineWithoutHeader("No matches found");
  }

  lemma OneLineWithoutHeader(line: string)
    requires SingleLine(line) && forall i :: 0 <= i < |line| ==> !IsSeparator(line[i])
    ensures MatchesIn(SplitLines(line)) == []
  {
    FirstNewlineIs(line, "");
    NoHeaderNoMatch(line, 0);
    assert SplitLines(line) == [line];
    assert [line][..0] == [];
  }

  /** Records printed among other lines come back, exactly they and in order, if and only if every path is
      clear, with either kind of line end, as long as the outer trim takes nothing. */
  lemma MixedOutputIff(ls: seq<OutputLine>, lineEnd: string, text: string)
    requires ls != [] && forall i :: 0 <= i < |ls| ==> Plausible(ls[i])
    requires lineEnd == "\n" || lineEnd == "\r\n"
    requires text == JoinTexts(LineTexts(ls), lineEnd) && StartsClear(text) && EndsClear(text)
    ensures GrepMatches(text) == RecordsOf(ls) <==> PathsAreClear(RecordsOf(ls))
  {
    MixedLinesReadBack(ls);
    ShortcutsChangeNothing(text);
    TrimStartLength(text);
    TrimEndLength(text);
    hide *;
    UntrimmedText(text);
    SplitOfJoinedLines(LineTexts(ls), lineEnd);
  }

  lemma UntrimmedText(text: string)
    requires StartsClear(text) && EndsClear(text)
    ensures Trim(text) == text
  {
    TrimStartLength(text);
    TrimEndLength(text);
  }

  lemma {:induction false} SplitOfJoinedLines(lines: seq<string>, lineEnd: string)
    requires lines != [] && forall i :: 0 <= i < |lines| ==> SingleLine(lines[i])
    requires lineEnd == "\n" || lineEnd == "\r\n"
    ensures SplitLines(JoinTexts(lines, lineEnd)) == lines
  {
    if lineEnd == "\n" {
      SplitOfJoin(lines);
    } else {
      SplitOfCrlf(lines);
    }
  }

  lemma {:induction false} FirstNewlineAfterReturn(a: string, b: string)
    requires SingleLine(a)
    ensures FirstNewline(a + "\r\n" + b) == |a| + 1
  {
    if a == "" {
      assert ("" + "\r\n" + b)[1..] == "\n" + b;
    } else {
      FirstNewlineAfterReturn(a[1..], b);
      assert (a + "\r\n" + b)[1..] == a[1..] + "\r\n" + b;
    }
  }

  lemma {:induction false} SplitOfCrlf(lines: seq<string>)
    requires lines != [] && forall i :: 0 <= i < |lines| ==> SingleLine(lines[i])
    ensures SplitLines(JoinTexts(lines, "\r\n")) == lines
  {
    FirstNewlineIs(lines[0], "");
    if |lines| > 1 {
      var rest := JoinTexts(lines[1..], "\r\n");
      var s := lines[0] + "\r\n" + rest;
      assert JoinTexts(lines, "\r\n") == s;
      FirstNewlineAfterReturn(lines[0], rest);
      assert s[..|lines[0]| + 1] == lines[0] + "\r" && s[|lines[0]| + 2..] == rest;
      SplitOfCrlf(lines[1..]);
    }
  }

  /** White space around the output makes no difference. */
  lemma OuterSpaceIsIgnored(before: string, text: string, after: string)
    requires forall i :: 0 <= i < |before| ==> IsJsSpace(before[i])
    requires forall i :: 0 <= i < |after| ==> IsJsSpace(after[i])
    ensures GrepMatches(before + text + after) == GrepMatches(text)
  {
    TrimDropsSpace(before, text, after);
    ShortcutsChangeNothing(before + text + after);
    ShortcutsChangeNothing(text);
  }

  // ---- what a match tells of its line ----

  /** The line is path, separator, digits, separator and the rest; the text is the rest without one leading
      space; and a dash on either side makes it context. */
  predicate Splits(line: string, m: GrepMatch, a: char, digits: string, b: char, rest: string) {
    && line == m.path + [a] + digits + [b] + rest && IsSeparator(a) && IsSeparator(b)
    && digits != "" && AllDigits(digits) && Value(digits) == m.line
    && (m.context <==> a == '-' || b == '-')
    && (m.text == rest || (rest != "" && IsJsSpace(rest[0]) && m.text == rest[1..]))
  }

  ghost predicate TellsOfLine(m: GrepMatch, line: string) {
    exists a: char, digits: string, b: char, rest: string :: Splits(line, m, a, digits, b, rest)
  }

  lemma {:induction false} MatchTellsOfLine(line: string, i: nat)
    requires i <= |line| && MatchFrom(line, i).Some?
    ensures TellsOfLine(MatchFrom(line, i).value, line)
    decreases |line| - i
  {
    if MatchAt(line, i).Some? {
      var e := HeaderAt(line, i).value;
      var digits, rest := line[i + 1..e], line[e + 1..];
      HeaderIsSeparated(line, i);
      assert line == line[..i] + [line[i]] + digits + [line[e]] + rest;
      assert Splits(line, MatchAt(line, i).value, line[i], digits, line[e], rest);
    } else {
      MatchTellsOfLine(line, i + 1);
    }
  }

  lemma HeaderIsSeparated(line: string, i: nat)
    requires HeaderAt(line, i).Some?
    ensures i < HeaderAt(line, i).value < |line| && IsSeparator(line[i]) && IsSeparator(line[HeaderAt(line, i).value])
  {
  }
}
