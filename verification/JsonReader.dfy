/** Printed JSON reads back. The reader follows the grammar of RFC 8259 and knows nothing of the printer's
    layout; what it returns has the keys of each object in printed, that is sorted, order. */
module JsonReader {
  import opened Wrappers
  import opened Decimal
  import opened JsText
  import opened Json

  // ---- blanks ----

  predicate IsBlank(c: char) {
    c == ' ' || c == '\n' || c == '\r' || c == '\t'
  }

  predicate AllBlank(s: string) {
    forall i :: 0 <= i < |s| ==> IsBlank(s[i])
  }

  function SkipBlanks(s: string): (r: string)
    ensures |r| <= |s|
  {
    if s != "" && IsBlank(s[0]) then SkipBlanks(s[1..]) else s
  }

  lemma {:induction false} BlanksAreSkipped(blanks: string, s: string)
    requires AllBlank(blanks) && s != "" && !IsBlank(s[0])
    ensures SkipBlanks(blanks + s) == s
  {
    if blanks == "" {
      assert blanks + s == s;
    } else {
      BlanksAreSkipped(blanks[1..], s);
      assert (blanks + s)[1..] == blanks[1..] + s;
    }
  }

  // ---- strings ----

  function HexValue(c: char): Option<nat> {
    if '0' <= c <= '9' then Some(c as int - 48)
    else if 'a' <= c <= 'f' then Some(c as int - 87)
    else if 'A' <= c <= 'F' then Some(c as int - 55)
    else None
  }

  /** What a character after a backslash stands for, unless it is `u`. */
  function Unescaped(c: char): Option<char> {
    if c == '"' || c == '\\' || c == '/' then Some(c)
    else if c == 'n' then Some('\n')
    else if c == 'r' then Some('\r')
    else if c == 't' then Some('\t')
    else if c == 'f' then Some(12 as char)
    else if c == 'b' then Some(8 as char)
    else None
  }

  /** The character of four hexadecimal digits; a surrogate alone is none. */
  function HexChar(s: string): Option<char>
    requires |s| == 4
  {
    var a, b, c, d := HexValue(s[0]), HexValue(s[1]), HexValue(s[2]), HexValue(s[3]);
    if a.None? || b.None? || c.None? || d.None? then None else
    var n := a.value * 4096 + b.value * 256 + c.value * 16 + d.value;
    if n < 0xD800 || 0xDFFF < n < 0x10000 then Some(n as char) else None
  }

  function Prepend(c: char, r: Option<(string, string)>): Option<(string, string)> {
    if r.None? then None else Some(([c] + r.value.0, r.value.1))
  }

  /** A string after its opening quote, and what follows its closing one. */
  function ReadChars(s: string): (r: Option<(string, string)>)
    ensures r.Some? ==> |r.value.1| < |s|
    decreases |s|
  {
    if s == "" then None
    else if s[0] == '"' then Some(("", s[1..]))
    else if s[0] == '\\' then
      if |s| >= 2 && Unescaped(s[1]).Some? then Prepend(Unescaped(s[1]).value, ReadChars(s[2..]))
      else if |s| >= 6 && s[1] == 'u' && HexChar(s[2..6]).Some? then
        Prepend(HexChar(s[2..6]).value, ReadChars(s[6..]))
      else None
    else if s[0] as int < 32 then None
    else Prepend(s[0], ReadChars(s[1..]))
  }

  /** A backslash and one character. */
  lemma ReadShortEscape(c: char, tail: string)
    requires |Escape(c)| == 2
    ensures ReadChars(Escape(c) + tail) == Prepend(c, ReadChars(tail))
  {
    var e := Escape(c);
    assert e[0] == '\\' && Unescaped(e[1]) == Some(c);
    hide Escape;
    var s := e + tail;
    assert s[0] == '\\' && s[1] == e[1] && s[2..] == tail;
  }

  lemma ReadPlain(c: char, tail: string)
    requires c as int >= 32 && c != '"' && c != '\\'
    ensures ReadChars([c] + tail) == Prepend(c, ReadChars(tail))
  {
    assert ([c] + tail)[1..] == tail;
  }

  lemma ReadHexEscape(e: string, c: char, tail: string)
    requires |e| == 6 && e[0] == '\\' && e[1] == 'u' && HexChar(e[2..6]) == Some(c)
    ensures ReadChars(e + tail) == Prepend(c, ReadChars(tail))
  {
    hide HexChar;
    var s := e + tail;
    assert s[0] == '\\' && s[1] == 'u' && s[2..6] == e[2..6] && s[6..] == tail;
  }

  lemma ReadEscape(c: char, tail: string)
    ensures ReadChars(Escape(c) + tail) == Prepend(c, ReadChars(tail))
  {
    EscapeForms(c);
    hide ReadChars, HexChar, Escape;
    if |Escape(c)| == 2 {
      ReadShortEscape(c, tail);
    } else if |Escape(c)| == 1 {
      ReadPlain(c, tail);
    } else {
      ReadHexEscape(Escape(c), c, tail);
    }
  }

  /** A character is escaped as itself, by one letter, or by its number. */
  lemma EscapeForms(c: char)
    ensures var e := Escape(c);
      || |e| == 2
      || (e == [c] && c as int >= 32 && c != '"' && c != '\\')
      || (|e| == 6 && e[0] == '\\' && e[1] == 'u' && HexChar(e[2..6]) == Some(c))
  {
    if c as int < 32 && Escape(c)[1] == 'u' {
      HexOfControl(c);
    }
  }

  lemma HexOfControl(c: char)
    requires c as int < 32 && Escape(c)[1] == 'u'
    ensures |Escape(c)| == 6 && HexChar(Escape(c)[2..6]) == Some(c)
  {
    var e := Escape(c)[2..6];
    assert e[0] == '0' && e[1] == '0' && e[2] == HexDigit(c as int / 16) && e[3] == HexDigit(c as int % 16);
  }

  lemma {:induction false} ReadEscaped(t: string, rest: string)
    ensures ReadChars(EscapeAll(t) + "\"" + rest) == Some((t, rest))
  {
    if t == "" {
      assert EscapeAll(t) + "\"" + rest == "\"" + rest;
    } else {
      EscapeHead(t);
      hide EscapeAll, ReadChars, Escape;
      ReadEscaped(t[1..], rest);
      ReadEscape(t[0], EscapeAll(t[1..]) + "\"" + rest);
      Regroup(Escape(t[0]), EscapeAll(t[1..]), "\"", rest);
      assert [t[0]] + t[1..] == t;
    }
  }

  lemma EscapeHead(t: string)
    requires t != ""
    ensures EscapeAll(t) == Escape(t[0]) + EscapeAll(t[1..])
  {
    EscapeOne(t[0]);
    hide EscapeAll, Escape;
    EscapeAllConcat([t[0]], t[1..]);
    assert t == [t[0]] + t[1..];
  }

  lemma EscapeOne(c: char)
    ensures EscapeAll([c]) == Escape(c)
  {
    hide Escape;
    EscapeAllSnoc("", c);
    assert "" + [c] == [c];
    assert EscapeAll("") + Escape(c) == Escape(c);
  }

  lemma Regroup(a: string, b: string, c: string, d: string)
    ensures a + b + c + d == a + (b + c + d)
  {
  }

  // ---- numbers ----

  predicate IsNumberChar(c: char) {
    IsDigit(c) || c == '-' || c == '+' || c == '.' || c == 'e' || c == 'E'
  }

  predicate StartsNumber(s: string) {
    s != "" && IsNumberChar(s[0])
  }

  function NumberRun(s: string): (k: nat)
    ensures k <= |s| && (forall i :: 0 <= i < k ==> IsNumberChar(s[i])) && (k < |s| ==> !IsNumberChar(s[k]))
  {
    if s == "" || !IsNumberChar(s[0]) then 0 else 1 + NumberRun(s[1..])
  }

  lemma {:induction false} NumberRunIs(a: string, rest: string)
    requires (forall i :: 0 <= i < |a| ==> IsNumberChar(a[i])) && !StartsNumber(rest)
    ensures NumberRun(a + rest) == |a|
  {
    if a == "" {
      assert a + rest == rest;
    } else {
      NumberRunIs(a[1..], rest);
      assert (a + rest)[1..] == a[1..] + rest;
    }
  }

  predicate IsIntText(s: string) {
    (s != "" && AllDigits(s)) || (|s| > 1 && s[0] == '-' && AllDigits(s[1..]))
  }

  /** A number without fraction and exponent is an integer. */
  function NumberOf(s: string): Json {
    if s != "" && AllDigits(s) then Int(Value(s))
    else if |s| > 1 && s[0] == '-' && AllDigits(s[1..]) then Int(0 - Value(s[1..]))
    else Float(s)
  }

  lemma IntReadsBack(n: int)
    ensures IsIntText(IntText(n)) && NumberOf(IntText(n)) == Int(n)
    ensures forall i :: 0 <= i < |IntText(n)| ==> IsNumberChar(IntText(n)[i])
    ensures IntText(n)[0] == '-' || IsDigit(IntText(n)[0])
  {
    hide Digits, Value;
    if n < 0 {
      ValueOfDigits(-n);
      assert IntText(n)[1..] == Digits(-n) && !IsDigit(IntText(n)[0]);
    } else {
      ValueOfDigits(n);
    }
  }

  // ---- values ----

  function ReadValue(s: string): (r: Option<(Json, string)>)
    ensures r.Some? ==> |r.value.1| < |s|
    decreases |s|, 1
  {
    if s == "" then None
    else if s[0] == '"' then
      var text := ReadChars(s[1..]);
      if text.None? then None else Some((Str(text.value.0), text.value.1))
    else if s[0] == '[' then
      var r := SkipBlanks(s[1..]);
      if r != "" && r[0] == ']' then Some((List([]), r[1..])) else
      var items := ReadItems(r);
      if items.None? then None else Some((List(items.value.0), items.value.1))
    else if s[0] == '{' then
      var r := SkipBlanks(s[1..]);
      if r != "" && r[0] == '}' then Some((Dict([]), r[1..])) else
      var entries := ReadEntries(r);
      if entries.None? then None else Some((Dict(entries.value.0), entries.value.1))
    else if "null" <= s then Some((Null, s[4..]))
    else if "true" <= s then Some((Bool(true), s[4..]))
    else if "false" <= s then Some((Bool(false), s[5..]))
    else
      var k := NumberRun(s);
      if k == 0 then None else Some((NumberOf(s[..k]), s[k..]))
  }

  /** The values of a list up to its closing bracket. */
  function ReadItems(s: string): (r: Option<(seq<Json>, string)>)
    ensures r.Some? ==> |r.value.1| < |s|
    decreases |s|, 2
  {
    var first := ReadValue(s);
    if first.None? then None else
    var r := SkipBlanks(first.value.1);
    if r == "" then None
    else if r[0] == ']' then Some(([first.value.0], r[1..]))
    else if r[0] == ',' then
      var others := ReadItems(SkipBlanks(r[1..]));
      if others.None? then None else Some(([first.value.0] + others.value.0, others.value.1))
    else None
  }

  function ReadEntry(s: string): (r: Option<(Entry, string)>)
    ensures r.Some? ==> |r.value.1| < |s|
    decreases |s|, 2
  {
    if s == "" || s[0] != '"' then None else
    var key := ReadChars(s[1..]);
    if key.None? then None else
    var r := SkipBlanks(key.value.1);
    if r == "" || r[0] != ':' then None else
    var v := ReadValue(SkipBlanks(r[1..]));
    if v.None? then None else Some((Entry(key.value.0, v.value.0), v.value.1))
  }

  /** The members of an object up to its closing brace. */
  function ReadEntries(s: string): (r: Option<(seq<Entry>, string)>)
    ensures r.Some? ==> |r.value.1| < |s|
    decreases |s|, 3
  {
    var first := ReadEntry(s);
    if first.None? then None else
    var r := SkipBlanks(first.value.1);
    if r == "" then None
    else if r[0] == '}' then Some(([first.value.0], r[1..]))
    else if r[0] == ',' then
      var others := ReadEntries(SkipBlanks(r[1..]));
      if others.None? then None else Some(([first.value.0] + others.value.0, others.value.1))
    else None
  }

  // ---- the same value with sorted keys ----

  function InsertEntry(e: Entry, entries: seq<Entry>): seq<Entry> {
    if entries != [] && KeyLess(entries[0].key, e.key) then [entries[0]] + InsertEntry(e, entries[1..])
    else [e] + entries
  }

  function SortEntries(entries: seq<Entry>): seq<Entry> {
    if entries == [] then [] else InsertEntry(entries[0], SortEntries(entries[1..]))
  }

  function Sorted(v: Json): Json
    decreases v, 1
  {
    match v
    case List(items) => List(SortedItems(items))
    case Dict(entries) => Dict(SortEntries(SortedValues(entries)))
    case _ => v
  }

  function SortedItems(items: seq<Json>): (r: seq<Json>)
    ensures |r| == |items|
    decreases items, 0
  {
    if items == [] then [] else [Sorted(items[0])] + SortedItems(items[1..])
  }

  function SortedValues(entries: seq<Entry>): (r: seq<Entry>)
    ensures |r| == |entries|
    decreases entries, 0
  {
    if entries == [] then []
    else [Entry(entries[0].key, Sorted(entries[0].value))] + SortedValues(entries[1..])
  }

  lemma {:induction false} InsertKeepsAll(e: Entry, entries: seq<Entry>)
    ensures multiset(InsertEntry(e, entries)) == multiset(entries) + multiset{e}
  {
    if entries != [] && KeyLess(entries[0].key, e.key) {
      InsertKeepsAll(e, entries[1..]);
      assert entries == [entries[0]] + entries[1..];
    }
  }

  /** Sorting keeps every entry, with its own value. */
  lemma {:induction false} SortKeepsAll(entries: seq<Entry>)
    ensures multiset(SortEntries(entries)) == multiset(entries)
  {
    if entries != [] {
      SortKeepsAll(entries[1..]);
      InsertKeepsAll(entries[0], SortEntries(entries[1..]));
      assert entries == [entries[0]] + entries[1..];
    }
  }

  lemma {:induction false} InsertThenSort(e: Entry, entries: seq<Entry>)
    ensures SortedValues(InsertEntry(e, entries)) == InsertEntry(Entry(e.key, Sorted(e.value)), SortedValues(entries))
  {
    hide Sorted, KeyLess;
    if entries != [] && KeyLess(entries[0].key, e.key) {
      InsertThenSort(e, entries[1..]);
      assert SortedValues(entries)[1..] == SortedValues(entries[1..]);
      assert InsertEntry(e, entries)[1..] == InsertEntry(e, entries[1..]);
    } else {
      assert InsertEntry(e, entries)[1..] == entries;
    }
  }

  /** Whether values are sorted before or after their keys makes no difference. */
  lemma {:induction false} SortCommutes(entries: seq<Entry>)
    ensures SortedValues(SortEntries(entries)) == SortEntries(SortedValues(entries))
  {
    hide Sorted, InsertEntry;
    if entries != [] {
      SortCommutes(entries[1..]);
      InsertThenSort(entries[0], SortEntries(entries[1..]));
      assert SortedValues(entries)[1..] == SortedValues(entries[1..]);
    }
  }

  lemma {:induction false} InsertFieldOf(e: Entry, entries: seq<Entry>, style: Style, level: nat)
    ensures PrintFields(InsertEntry(e, entries), style, level)
         == InsertField(PrintFields([e], style, level)[0], PrintFields(entries, style, level))
  {
    hide Print, KeyLess;
    assert PrintFields([e], style, level)[0].key == e.key;
    if entries != [] && KeyLess(entries[0].key, e.key) {
      InsertFieldOf(e, entries[1..], style, level);
      assert PrintFields(entries, style, level)[1..] == PrintFields(entries[1..], style, level);
      assert InsertEntry(e, entries)[1..] == InsertEntry(e, entries[1..]);
    } else {
      assert InsertEntry(e, entries)[1..] == entries;
    }
  }

  /** The printer's fields are those of the sorted entries. */
  lemma {:induction false} SortedFields(entries: seq<Entry>, style: Style, level: nat)
    ensures SortFields(PrintFields(entries, style, level)) == PrintFields(SortEntries(entries), style, level)
  {
    hide Print, InsertField, InsertEntry;
    if entries != [] {
      SortedFields(entries[1..], style, level);
      InsertFieldOf(entries[0], SortEntries(entries[1..]), style, level);
      assert PrintFields(entries, style, level)[1..] == PrintFields(entries[1..], style, level);
      assert PrintFields(entries, style, level)[0] == PrintFields([entries[0]], style, level)[0];
    }
  }

  // ---- the round trip ----

  /** Numbers with a fraction or an exponent are spelled as JSON spells them. */
  predicate FloatText(repr: string) {
    && repr != "" && (repr[0] == '-' || IsDigit(repr[0])) && !IsIntText(repr)
    && forall i :: 0 <= i < |repr| ==> IsNumberChar(repr[i])
  }

  ghost predicate Readable(v: Json)
    decreases v
  {
    match v
    case Float(repr) => FloatText(repr)
    case List(items) => forall i :: 0 <= i < |items| ==> Readable(items[i])
    case Dict(entries) => forall i :: 0 <= i < |entries| ==> Readable(entries[i].value)
    case _ => true
  }

  ghost predicate ReadsBack(v: Json, style: Style, level: nat) {
    && Print(v, style, level) != "" && !IsBlank(Print(v, style, level)[0])
    && Print(v, style, level)[0] != ']' && Print(v, style, level)[0] != '}'
    && forall rest :: !StartsNumber(rest) ==> ReadValue(Print(v, style, level) + rest) == Some((Sorted(v), rest))
  }

  lemma NumberReads(text: string, v: Json, rest: string)
    requires text != "" && (text[0] == '-' || IsDigit(text[0])) && NumberOf(text) == v
    requires (forall i :: 0 <= i < |text| ==> IsNumberChar(text[i])) && !StartsNumber(rest)
    ensures ReadValue(text + rest) == Some((v, rest))
  {
    var s := text + rest;
    NumberRunIs(text, rest);
    assert s[0] == text[0] && s[..|text|] == text && s[|text|..] == rest;
    hide NumberRun, ReadChars, ReadItems, ReadEntries;
  }

  lemma StringReads(t: string, rest: string)
    ensures ReadValue(Quote(t) + rest) == Some((Str(t), rest))
  {
    ReadEscaped(t, rest);
    hide EscapeAll, ReadChars;
    assert (Quote(t) + rest)[1..] == EscapeAll(t) + "\"" + rest;
  }

  lemma WordsRead(rest: string)
    ensures ReadValue("null" + rest) == Some((Null, rest))
    ensures ReadValue("true" + rest) == Some((Bool(true), rest))
    ensures ReadValue("false" + rest) == Some((Bool(false), rest))
  {
    assert ("null" + rest)[4..] == rest && ("true" + rest)[4..] == rest && ("false" + rest)[5..] == rest;
    hide ReadChars, ReadItems, ReadEntries, NumberRun;
  }

  lemma NewLineIsBlank(style: Style, level: nat)
    ensures AllBlank(NewLine(style, level))
  {
  }

  // ---- containers ----

  lemma JoinMore(x: string, others: seq<string>, separator: string, tail: string)
    ensures JoinTexts([x] + others, separator) + tail
         == x + if others == [] then tail else separator + (JoinTexts(others, separator) + tail)
  {
    assert ([x] + others)[1..] == others;
  }

  /** The separator, then blanks, then something that is no blank. */
  lemma AfterSeparator(c: char, blanks: string, s: string)
    requires !IsBlank(c) && AllBlank(blanks) && s != "" && !IsBlank(s[0])
    ensures var text := [c] + blanks + s; SkipBlanks(text) == text && SkipBlanks(text[1..]) == s
  {
    BlanksAreSkipped(blanks, s);
    assert ([c] + blanks + s)[1..] == blanks + s;
  }

  lemma LastItemReads(text: string, v: Json, tail: string, rest: string)
    requires ReadValue(text) == Some((v, tail)) && SkipBlanks(tail) == "]" + rest
    ensures ReadItems(text) == Some(([v], rest))
  {
    hide ReadValue;
    assert ("]" + rest)[1..] == rest;
  }

  lemma MoreItemsRead(text: string, v: Json, tail: string, more: string, vs: seq<Json>, rest: string)
    requires ReadValue(text) == Some((v, tail)) && SkipBlanks(tail) == "," + more
    requires ReadItems(SkipBlanks(more)) == Some((vs, rest))
    ensures ReadItems(text) == Some(([v] + vs, rest))
  {
    assert ("," + more)[1..] == more;
    hide ReadValue;
  }

  /** Blanks and then something that is no blank do not start a number, if that does not. */
  lemma BlanksAreNoNumber(blanks: string, s: string)
    requires AllBlank(blanks) && s != "" && !StartsNumber(s)
    ensures blanks + s != "" && !StartsNumber(blanks + s)
  {
  }

  lemma EndingReads(c: char, last: string, rest: string)
    requires AllBlank(last) && (c == ']' || c == '}')
    ensures var ending := last + [c] + rest; !StartsNumber(ending) && SkipBlanks(ending) == [c] + rest
  {
    BlanksAreNoNumber(last, [c] + rest);
    BlanksAreSkipped(last, [c] + rest);
    assert last + [c] + rest == last + ([c] + rest);
  }

  lemma {:induction false} ItemsRead(items: seq<Json>, style: Style, level: nat, blanks: string, last: string,
                                     rest: string)
    requires items != [] && AllBlank(blanks) && AllBlank(last)
    requires forall i :: 0 <= i < |items| ==> ReadsBack(items[i], style, level)
    ensures var text := JoinTexts(PrintItems(items, style, level), "," + blanks);
      && ReadItems(text + (last + "]" + rest)) == Some((SortedItems(items), rest))
      && text != "" && !IsBlank(text[0]) && text[0] != ']'
  {
    hide Print, ReadValue, ReadItems, SkipBlanks, JoinTexts, Sorted;
    var first, more := Print(items[0], style, level), PrintItems(items[1..], style, level);
    var ending := last + "]" + rest;
    assert ReadsBack(items[0], style, level);
    assert PrintItems(items, style, level) == [first] + more;
    assert SortedItems(items) == [Sorted(items[0])] + SortedItems(items[1..]);
    hide PrintItems, SortedItems, ReadsBack;
    JoinStartsWith([first] + more, "," + blanks);
    assert JoinTexts([first] + more, "," + blanks)[0] == first[0];
    JoinMore(first, more, "," + blanks, ending);
    EndingReads(']', last, rest);
    if items[1..] == [] {
      assert more == [] && SortedItems(items) == [Sorted(items[0])];
      LastItemReads(first + ending, Sorted(items[0]), ending, rest);
    } else {
      ItemsRead(items[1..], style, level, blanks, last, rest);
      var others := JoinTexts(more, "," + blanks) + ending;
      AfterSeparator(',', blanks, others);
      var tail := "," + blanks + others;
      assert tail == "," + (blanks + others) && !StartsNumber(tail);
      assert tail[1..] == blanks + others;
      MoreItemsRead(first + tail, Sorted(items[0]), tail, blanks + others, SortedItems(items[1..]), rest);
    }
  }

  lemma EntryReads(e: Entry, style: Style, level: nat, rest: string)
    requires ReadsBack(e.value, style, level) && !StartsNumber(rest)
    ensures ReadEntry(Quote(e.key) + KeySeparator(style) + Print(e.value, style, level) + rest)
         == Some((Entry(e.key, Sorted(e.value)), rest))
  {
    var text := Print(e.value, style, level);
    var after := KeySeparator(style) + text + rest;
    var blanks := if style.Indented? then " " else "";
    ReadEscaped(e.key, after);
    hide EscapeAll, ReadChars, Print, ReadValue;
    assert Quote(e.key) + KeySeparator(style) + text + rest == Quote(e.key) + after;
    assert (Quote(e.key) + after)[1..] == EscapeAll(e.key) + "\"" + after;
    assert after == ":" + blanks + (text + rest);
    AfterSeparator(':', blanks, text + rest);
  }

  lemma LastEntryReads(text: string, e: Entry, tail: string, rest: string)
    requires ReadEntry(text) == Some((e, tail)) && SkipBlanks(tail) == "}" + rest
    ensures ReadEntries(text) == Some(([e], rest))
  {
    hide ReadEntry;
    assert ("}" + rest)[1..] == rest;
  }

  lemma MoreEntriesRead(text: string, e: Entry, tail: string, more: string, es: seq<Entry>, rest: string)
    requires ReadEntry(text) == Some((e, tail)) && SkipBlanks(tail) == "," + more
    requires ReadEntries(SkipBlanks(more)) == Some((es, rest))
    ensures ReadEntries(text) == Some(([e] + es, rest))
  {
    assert ("," + more)[1..] == more;
    hide ReadEntry;
  }

  function TextsOf(entries: seq<Entry>, style: Style, level: nat): seq<string> {
    FieldTexts(PrintFields(entries, style, level))
  }

  lemma TextsCons(entries: seq<Entry>, style: Style, level: nat)
    requires entries != []
    ensures TextsOf(entries, style, level)
         == [Quote(entries[0].key) + KeySeparator(style) + Print(entries[0].value, style, level)]
            + TextsOf(entries[1..], style, level)
    ensures (TextsOf(entries[1..], style, level) == [] <==> entries[1..] == [])
  {
    hide Print, Quote;
  }

  lemma EntriesHead(entries: seq<Entry>, style: Style, level: nat)
    requires entries != []
    ensures var texts, more := TextsOf(entries, style, level), TextsOf(entries[1..], style, level);
      && texts != [] && texts == [texts[0]] + more && texts[0] != "" && texts[0][0] == '"'
      && texts[0] == Quote(entries[0].key) + KeySeparator(style) + Print(entries[0].value, style, level)
      && (more == [] <==> entries[1..] == [])
      && SortedValues(entries) == [Entry(entries[0].key, Sorted(entries[0].value))] + SortedValues(entries[1..])
  {
    TextsCons(entries, style, level);
    hide TextsOf, Print, EscapeAll;
  }

  lemma {:induction false} EntriesRead(entries: seq<Entry>, style: Style, level: nat, blanks: string, last: string,
                                       rest: string)
    requires entries != [] && AllBlank(blanks) && AllBlank(last)
    requires forall i :: 0 <= i < |entries| ==> ReadsBack(entries[i].value, style, level)
    ensures var text := JoinTexts(TextsOf(entries, style, level), "," + blanks);
      && ReadEntries(text + (last + "}" + rest)) == Some((SortedValues(entries), rest))
      && text != "" && text[0] == '"'
  {
    hide *;
    EntriesHead(entries, style, level);
    var first, more := TextsOf(entries, style, level)[0], TextsOf(entries[1..], style, level);
    var e, es := Entry(entries[0].key, Sorted(entries[0].value)), SortedValues(entries[1..]);
    var ending := last + "}" + rest;
    JoinStartsWith([first] + more, "," + blanks);
    assert JoinTexts([first] + more, "," + blanks)[0] == first[0];
    JoinMore(first, more, "," + blanks, ending);
    EndingReads('}', last, rest);
    if entries[1..] == [] {
      assert more == [] && |es| == 0 && [e] + es == [e];
      EntryReads(entries[0], style, level, ending);
      LastEntryReads(first + ending, e, ending, rest);
    } else {
      EntriesRead(entries[1..], style, level, blanks, last, rest);
      var others := JoinTexts(more, "," + blanks) + ending;
      AfterQuote(blanks, others);
      EntryReads(entries[0], style, level, "," + blanks + others);
      MoreEntriesRead(first + ("," + blanks + others), e, "," + blanks + others, blanks + others, es, rest);
    }
  }

  lemma AfterQuote(blanks: string, others: string)
    requires AllBlank(blanks) && others != "" && others[0] == '"'
    ensures var tail := "," + blanks + others;
      && tail == "," + (blanks + others) && !StartsNumber(tail)
      && SkipBlanks(tail) == tail && SkipBlanks(blanks + others) == others
  {
    AfterSeparator(',', blanks, others);
    assert ("," + blanks + others)[1..] == blanks + others;
  }

  lemma FrameParts(open: string, blanks: string, body: string, last: string, close: string, rest: string)
    requires |open| == 1
    ensures var text := open + blanks + body + last + close + rest;
      text[0] == open[0] && text[1..] == blanks + (body + (last + close + rest))
  {
  }

  lemma ListReads(blanks: string, body: string, last: string, items: seq<Json>, rest: string)
    requires AllBlank(blanks) && body != "" && !IsBlank(body[0]) && body[0] != ']'
    requires ReadItems(body + (last + "]" + rest)) == Some((items, rest))
    ensures ReadValue("[" + blanks + body + last + "]" + rest) == Some((List(items), rest))
  {
    hide ReadItems, ReadEntries, ReadChars, NumberRun, SkipBlanks;
    FrameParts("[", blanks, body, last, "]", rest);
    BlanksAreSkipped(blanks, body + (last + "]" + rest));
  }

  lemma DictReads(blanks: string, body: string, last: string, entries: seq<Entry>, rest: string)
    requires AllBlank(blanks) && body != "" && body[0] == '"'
    requires ReadEntries(body + (last + "}" + rest)) == Some((entries, rest))
    ensures ReadValue("{" + blanks + body + last + "}" + rest) == Some((Dict(entries), rest))
  {
    hide ReadItems, ReadEntries, ReadChars, NumberRun, SkipBlanks;
    FrameParts("{", blanks, body, last, "}", rest);
    BlanksAreSkipped(blanks, body + (last + "}" + rest));
  }

  lemma EmptyReads(rest: string)
    ensures ReadValue("[" + "]" + rest) == Some((List([]), rest))
    ensures ReadValue("{" + "}" + rest) == Some((Dict([]), rest))
  {
    hide ReadItems, ReadEntries, ReadChars, NumberRun;
    assert ("[" + "]" + rest)[1..] == "]" + rest && ("{" + "}" + rest)[1..] == "}" + rest;
    assert ("]" + rest)[1..] == rest && ("}" + rest)[1..] == rest;
  }

  lemma ListFrameReads(items: seq<Json>, style: Style, level: nat, rest: string)
    requires forall i :: 0 <= i < |items| ==> ReadsBack(items[i], style, level + 1)
    ensures ReadValue(Frame("[", PrintItems(items, style, level + 1), "]", style, level) + rest)
         == Some((List(SortedItems(items)), rest))
  {
    var texts := PrintItems(items, style, level + 1);
    var blanks, last := NewLine(style, level + 1), NewLine(style, level);
    NewLineIsBlank(style, level + 1);
    NewLineIsBlank(style, level);
    hide ReadItems, ReadValue, PrintItems, SortedItems, NewLine, AllBlank, ReadsBack;
    if items == [] {
      EmptyReads(rest);
      assert SortedItems(items) == [];
    } else {
      ItemsRead(items, style, level + 1, blanks, last, rest);
      ListReads(blanks, JoinTexts(texts, "," + blanks), last, SortedItems(items), rest);
    }
  }

  lemma ListReadsBack(items: seq<Json>, style: Style, level: nat)
    requires forall i :: 0 <= i < |items| ==> ReadsBack(items[i], style, level + 1)
    ensures ReadsBack(List(items), style, level)
  {
    assert Print(List(items), style, level) == Frame("[", PrintItems(items, style, level + 1), "]", style, level);
    assert Sorted(List(items)) == List(SortedItems(items));
    hide ReadValue, Print, PrintItems, Sorted, SortedItems, Frame, ReadsBack;
    forall rest | !StartsNumber(rest)
      ensures ReadValue(Print(List(items), style, level) + rest) == Some((Sorted(List(items)), rest))
    {
      ListFrameReads(items, style, level, rest);
    }
    FrameReads(List(items), "[", PrintItems(items, style, level + 1), "]", style, level);
  }

  lemma SortedMembers(entries: seq<Entry>)
    ensures |SortEntries(entries)| == |entries|
    ensures forall i :: 0 <= i < |entries| ==> SortEntries(entries)[i] in entries
  {
    SortKeepsAll(entries);
    hide SortEntries;
    var sorted := SortEntries(entries);
    assert |multiset(sorted)| == |multiset(entries)|;
    forall i | 0 <= i < |sorted|
      ensures sorted[i] in entries
    {
      assert sorted[i] in multiset(sorted);
    }
  }

  lemma DictPrints(entries: seq<Entry>, style: Style, level: nat)
    ensures var sorted := SortEntries(entries);
      && Print(Dict(entries), style, level) == Frame("{", TextsOf(sorted, style, level + 1), "}", style, level)
      && Sorted(Dict(entries)) == Dict(SortedValues(sorted))
      && |TextsOf(sorted, style, level + 1)| == |sorted|
  {
    SortedFields(entries, style, level + 1);
    SortCommutes(entries);
    hide SortEntries, SortFields, Frame, PrintFields, SortedValues;
  }

  lemma DictFrameReads(sorted: seq<Entry>, style: Style, level: nat, rest: string)
    requires forall i :: 0 <= i < |sorted| ==> ReadsBack(sorted[i].value, style, level + 1)
    requires |TextsOf(sorted, style, level + 1)| == |sorted|
    ensures ReadValue(Frame("{", TextsOf(sorted, style, level + 1), "}", style, level) + rest)
         == Some((Dict(SortedValues(sorted)), rest))
  {
    var texts := TextsOf(sorted, style, level + 1);
    var blanks, last := NewLine(style, level + 1), NewLine(style, level);
    NewLineIsBlank(style, level + 1);
    NewLineIsBlank(style, level);
    hide ReadEntries, ReadValue, TextsOf, SortedValues, NewLine, AllBlank, ReadsBack;
    if sorted == [] {
      EmptyReads(rest);
      assert SortedValues(sorted) == [];
    } else {
      EntriesRead(sorted, style, level + 1, blanks, last, rest);
      DictReads(blanks, JoinTexts(texts, "," + blanks), last, SortedValues(sorted), rest);
    }
  }

  lemma DictReadsBack(entries: seq<Entry>, style: Style, level: nat)
    requires forall i :: 0 <= i < |entries| ==> ReadsBack(entries[i].value, style, level + 1)
    ensures ReadsBack(Dict(entries), style, level)
  {
    var sorted := SortEntries(entries);
    DictPrints(entries, style, level);
    SortedMembers(entries);
    hide ReadValue, Print, TextsOf, Sorted, SortedValues, SortEntries, Frame, ReadsBack;
    forall i | 0 <= i < |sorted|
      ensures ReadsBack(sorted[i].value, style, level + 1)
    {
      assert sorted[i] in entries;
    }
    forall rest | !StartsNumber(rest)
      ensures ReadValue(Print(Dict(entries), style, level) + rest) == Some((Sorted(Dict(entries)), rest))
    {
      DictFrameReads(sorted, style, level, rest);
    }
    FrameReads(Dict(entries), "{", TextsOf(sorted, style, level + 1), "}", style, level);
  }

  lemma FrameReads(v: Json, open: string, texts: seq<string>, close: string, style: Style, level: nat)
    requires Print(v, style, level) == Frame(open, texts, close, style, level) && (open == "[" || open == "{")
    requires forall rest :: !StartsNumber(rest) ==> ReadValue(Print(v, style, level) + rest) == Some((Sorted(v), rest))
    ensures ReadsBack(v, style, level)
  {
    hide Print, ReadValue, Sorted, NewLine, JoinTexts;
  }

  lemma ScalarReadsBack(v: Json, style: Style, level: nat)
    requires !v.List? && !v.Dict? && Readable(v)
    ensures ReadsBack(v, style, level)
  {
    hide ReadValue;
    forall rest | !StartsNumber(rest)
      ensures ReadValue(Print(v, style, level) + rest) == Some((v, rest))
    {
      match v
      case Null => WordsRead(rest);
      case Bool(_) => WordsRead(rest);
      case Int(n) =>
        IntReadsBack(n);
        NumberReads(IntText(n), v, rest);
      case Float(repr) => NumberReads(repr, v, rest);
      case Str(t) => StringReads(t, rest);
    }
    if v.Int? {
      IntReadsBack(v.n);
    }
  }

  /** The printer's text reads back as the same value, with the keys of its objects sorted, in both styles, at
      any level, and whatever follows. */
  lemma {:induction false} PrintReadsBack(v: Json, style: Style, level: nat)
    requires Readable(v)
    ensures ReadsBack(v, style, level)
    decreases v
  {
    hide ReadsBack;
    match v
    case List(items) =>
      forall i | 0 <= i < |items|
        ensures ReadsBack(items[i], style, level + 1)
      {
        PrintReadsBack(items[i], style, level + 1);
      }
      ListReadsBack(items, style, level);
    case Dict(entries) =>
      forall i | 0 <= i < |entries|
        ensures ReadsBack(entries[i].value, style, level + 1)
      {
        PrintReadsBack(entries[i].value, style, level + 1);
      }
      DictReadsBack(entries, style, level);
    case _ => ScalarReadsBack(v, style, level);
  }

  /** Values that differ otherwise than in the order of keys are printed differently. */
  lemma PrintIsFaithful(a: Json, b: Json, style: Style, level: nat)
    requires Readable(a) && Readable(b) && Print(a, style, level) == Print(b, style, level)
    ensures Sorted(a) == Sorted(b)
  {
    PrintReadsBack(a, style, level);
    PrintReadsBack(b, style, level);
    hide Print, ReadValue, Sorted;
    assert !StartsNumber("");
    assert ReadValue(Print(a, style, level) + "") == Some((Sorted(a), ""));
    assert ReadValue(Print(b, style, level) + "") == Some((Sorted(b), ""));
  }

  // ---- the order of keys ----

  /** The first `k` code points agree, and then the first key ends or has the smaller one. */
  predicate SmallerAt(a: string, b: string, k: nat) {
    k <= |a| && k < |b| && a[..k] == b[..k] && (k == |a| || a[k] < b[k])
  }

  lemma {:induction false} SmallerIsLess(a: string, b: string, k: nat)
    requires SmallerAt(a, b, k)
    ensures KeyLess(a, b)
  {
    if k > 0 {
      assert a[..k][0] == a[0] && b[..k][0] == b[0];
      assert a[1..][..k - 1] == a[..k][1..] && b[1..][..k - 1] == b[..k][1..];
      SmallerIsLess(a[1..], b[1..], k - 1);
    }
  }

  lemma {:induction false} LessIsSmaller(a: string, b: string) returns (k: nat)
    requires KeyLess(a, b)
    ensures SmallerAt(a, b, k)
  {
    if a == "" || a[0] < b[0] {
      k := 0;
    } else {
      var j := LessIsSmaller(a[1..], b[1..]);
      k := j + 1;
      assert a[..k] == [a[0]] + a[1..][..j] && b[..k] == [b[0]] + b[1..][..j];
    }
  }

  /** Keys are compared by their first differing code point; a prefix comes first. */
  lemma KeyLessMeans(a: string, b: string)
    ensures KeyLess(a, b) <==> exists k: nat :: SmallerAt(a, b, k)
  {
    if KeyLess(a, b) {
      var k := LessIsSmaller(a, b);
    }
    if k: nat :| SmallerAt(a, b, k) {
      SmallerIsLess(a, b, k);
    }
  }
}
