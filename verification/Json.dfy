/** JSON values as Python holds them after a dumps/loads round trip, and `json.dumps` with
    `ensure_ascii=False, sort_keys=True`, in its indented and its compact form. */
module Json {
  import opened Decimal
  import opened JsText

  datatype Json =
    | Null
    | Bool(b: bool)
    | Int(n: int)
    | Float(repr: string)
    | Str(s: string)
    | List(items: seq<Json>)
    | Dict(entries: seq<Entry>) // insertion order

  datatype Entry = Entry(key: string, value: Json)

  /** `indent=2`, or no indent with `separators=(",", ":")`. */
  datatype Style = Indented | Compact

  // ---- strings ----

  function HexDigit(d: nat): char
    requires d < 16
  {
    if d < 10 then (d + 48) as char else (d + 87) as char
  }

  /** One character inside a string literal (section 7 of RFC 8259). */
  function Escape(c: char): (e: string)
    ensures |e| >= 1
  {
    if c == '"' then "\\\""
    else if c == '\\' then "\\\\"
    else if c == '\n' then "\\n"
    else if c == '\r' then "\\r"
    else if c == '\t' then "\\t"
    else if c as int == 12 then "\\f"
    else if c as int == 8 then "\\b"
    else if c as int < 32 then "\\u00" + [HexDigit(c as int / 16), HexDigit(c as int % 16)]
    else [c]
  }

  function EscapeAll(s: string): string {
    if s == "" then "" else EscapeAll(s[..|s| - 1]) + Escape(s[|s| - 1])
  }

  function Quote(s: string): string {
    "\"" + EscapeAll(s) + "\""
  }

  lemma EscapeAllSnoc(s: string, c: char)
    ensures EscapeAll(s + [c]) == EscapeAll(s) + Escape(c)
  {
    assert (s + [c])[..|s + [c]| - 1] == s;
  }

  lemma {:induction false} EscapeAllConcat(a: string, b: string)
    ensures EscapeAll(a + b) == EscapeAll(a) + EscapeAll(b)
  {
    hide Escape;
    if b == "" {
      assert a + b == a;
    } else {
      var front, last := b[..|b| - 1], b[|b| - 1];
      EscapeAllConcat(a, front);
      EscapeAllSnoc(a + front, last);
      EscapeAllSnoc(front, last);
      assert a + b == a + front + [last] && b == front + [last];
      assert EscapeAll(a) + EscapeAll(front) + Escape(last) == EscapeAll(a) + (EscapeAll(front) + Escape(last));
    }
  }

  lemma {:induction false} EscapeAllGrows(s: string)
    ensures |EscapeAll(s)| >= |s|
  {
    if s != "" {
      EscapeAllGrows(s[..|s| - 1]);
    }
  }

  /** Text without quotes, backslashes and control characters is printed as it is. */
  lemma {:induction false} PlainText(s: string)
    requires forall i :: 0 <= i < |s| ==> s[i] as int >= 32 && s[i] != '"' && s[i] != '\\'
    ensures EscapeAll(s) == s
  {
    if s != "" {
      assert Escape(s[|s| - 1]) == [s[|s| - 1]];
      hide Escape;
      PlainText(s[..|s| - 1]);
      assert s == s[..|s| - 1] + [s[|s| - 1]];
    }
  }

  // ---- the printer ----

  function Spaces(n: nat): (s: string)
    ensures |s| == n
  {
    seq(n, _ => ' ')
  }

  function NewLine(style: Style, level: nat): string {
    if style.Indented? then "\n" + Spaces(2 * level) else ""
  }

  function KeySeparator(style: Style): string {
    if style.Indented? then ": " else ":"
  }

  function IntText(n: int): (s: string)
    ensures |s| >= 1
  {
    if n < 0 then "-" + Digits(-n) else Digits(n)
  }

  datatype Field = Field(key: string, text: string)

  /** Python orders strings by code point. */
  predicate KeyLess(a: string, b: string) {
    b != "" && (a == "" || a[0] < b[0] || (a[0] == b[0] && KeyLess(a[1..], b[1..])))
  }

  function InsertField(f: Field, fields: seq<Field>): seq<Field> {
    if fields != [] && KeyLess(fields[0].key, f.key) then [fields[0]] + InsertField(f, fields[1..])
    else [f] + fields
  }

  function SortFields(fields: seq<Field>): seq<Field> {
    if fields == [] then [] else InsertField(fields[0], SortFields(fields[1..]))
  }

  predicate Ordered(fields: seq<Field>) {
    forall i :: 0 <= i < |fields| - 1 ==> !KeyLess(fields[i + 1].key, fields[i].key)
  }

  lemma {:induction false} KeyLessAsymmetric(a: string, b: string)
    requires KeyLess(a, b)
    ensures !KeyLess(b, a)
  {
    if a != "" && a[0] == b[0] {
      KeyLessAsymmetric(a[1..], b[1..]);
    }
  }

  lemma {:induction false} InsertKeepsOrder(f: Field, fields: seq<Field>)
    requires Ordered(fields)
    ensures var r := InsertField(f, fields);
      Ordered(r) && multiset(r) == multiset(fields) + multiset{f} && (r[0] == f || (fields != [] && r[0] == fields[0]))
  {
    if fields != [] && KeyLess(fields[0].key, f.key) {
      KeyLessAsymmetric(fields[0].key, f.key);
      hide KeyLess;
      InsertKeepsOrder(f, fields[1..]);
      assert fields == [fields[0]] + fields[1..];
    }
  }

  /** `sort_keys`: the fields of an object are printed in key order, each of them once. */
  lemma {:induction false} SortedByKey(fields: seq<Field>)
    ensures Ordered(SortFields(fields)) && multiset(SortFields(fields)) == multiset(fields)
  {
    if fields != [] {
      SortedByKey(fields[1..]);
      InsertKeepsOrder(fields[0], SortFields(fields[1..]));
      assert fields == [fields[0]] + fields[1..];
    }
  }

  function FieldTexts(fields: seq<Field>): seq<string> {
    seq(|fields|, i requires 0 <= i < |fields| => fields[i].text)
  }

  /** A container: its members on lines of their own, one level deeper, unless there are none. */
  function Frame(open: string, texts: seq<string>, close: string, style: Style, level: nat): string {
    if texts == [] then open + close
    else
      open + NewLine(style, level + 1)
      + JoinTexts(texts, "," + NewLine(style, level + 1))
      + NewLine(style, level) + close
  }

  function Print(v: Json, style: Style, level: nat): string
    decreases v, 1
  {
    match v
    case Null => "null"
    case Bool(b) => if b then "true" else "false"
    case Int(n) => IntText(n)
    case Float(repr) => repr
    case Str(s) => Quote(s)
    case List(items) => Frame("[", PrintItems(items, style, level + 1), "]", style, level)
    case Dict(entries) =>
      Frame("{", FieldTexts(SortFields(PrintFields(entries, style, level + 1))), "}", style, level)
  }

  function PrintItems(items: seq<Json>, style: Style, level: nat): (texts: seq<string>)
    ensures |texts| == |items|
    decreases items, 0
  {
    if items == [] then []
    else [Print(items[0], style, level)] + PrintItems(items[1..], style, level)
  }

  function PrintFields(entries: seq<Entry>, style: Style, level: nat): (fields: seq<Field>)
    ensures |fields| == |entries|
    decreases entries, 0
  {
    if entries == [] then []
    else
      [Field(entries[0].key,
             Quote(entries[0].key) + KeySeparator(style) + Print(entries[0].value, style, level))]
      + PrintFields(entries[1..], style, level)
  }

  /** `_measure_json_chars`. */
  function MeasureJsonChars(v: Json): nat {
    |Print(v, Indented, 0)|
  }

  // ---- its length, which does not depend on the key order ----

  function TotalLength(texts: seq<string>): nat {
    if texts == [] then 0 else |texts[0]| + TotalLength(texts[1..])
  }

  function FieldLength(e: Entry, style: Style, level: nat): nat {
    |Quote(e.key)| + |KeySeparator(style)| + |Print(e.value, style, level)|
  }

  function FieldsLength(entries: seq<Entry>, style: Style, level: nat): nat {
    if entries == [] then 0
    else FieldLength(entries[0], style, level) + FieldsLength(entries[1..], style, level)
  }

  lemma {:induction false} JoinLength(texts: seq<string>, separator: string)
    requires texts != []
    ensures |JoinTexts(texts, separator)| == TotalLength(texts) + (|texts| - 1) * |separator|
  {
    if |texts| == 1 {
      assert texts[1..] == [];
    } else {
      JoinLength(texts[1..], separator);
    }
  }

  lemma {:induction false} InsertLength(f: Field, fields: seq<Field>)
    ensures |InsertField(f, fields)| == |fields| + 1
    ensures TotalLength(FieldTexts(InsertField(f, fields))) == |f.text| + TotalLength(FieldTexts(fields))
  {
    if fields != [] && KeyLess(fields[0].key, f.key) {
      InsertLength(f, fields[1..]);
      assert FieldTexts(InsertField(f, fields))[1..] == FieldTexts(InsertField(f, fields[1..]));
      assert FieldTexts(fields)[1..] == FieldTexts(fields[1..]);
    } else {
      assert FieldTexts(InsertField(f, fields))[1..] == FieldTexts(fields);
    }
  }

  lemma {:induction false} SortLength(fields: seq<Field>)
    ensures |SortFields(fields)| == |fields|
    ensures TotalLength(FieldTexts(SortFields(fields))) == TotalLength(FieldTexts(fields))
  {
    if fields != [] {
      SortLength(fields[1..]);
      InsertLength(fields[0], SortFields(fields[1..]));
      assert FieldTexts(fields)[1..] == FieldTexts(fields[1..]);
    }
  }

  lemma {:induction false} PrintFieldsLength(entries: seq<Entry>, style: Style, level: nat)
    ensures TotalLength(FieldTexts(PrintFields(entries, style, level))) == FieldsLength(entries, style, level)
  {
    if entries != [] {
      PrintFieldsLength(entries[1..], style, level);
      assert FieldTexts(PrintFields(entries, style, level))[1..]
          == FieldTexts(PrintFields(entries[1..], style, level));
    }
  }

  /** Brackets, line breaks and commas around `n` members. */
  function Framing(n: nat, style: Style, level: nat): int {
    2 + |NewLine(style, level)| + |NewLine(style, level + 1)| + (n - 1) * (1 + |NewLine(style, level + 1)|)
  }

  lemma FrameLength(open: string, texts: seq<string>, close: string, style: Style, level: nat)
    requires texts != [] && |open| == |close| == 1
    ensures |Frame(open, texts, close, style, level)| == TotalLength(texts) + Framing(|texts|, style, level)
  {
    JoinLength(texts, "," + NewLine(style, level + 1));
  }

  /** The size of a printed dict: its fields, plus framing that depends only on how many there are. */
  lemma DictLength(entries: seq<Entry>, style: Style, level: nat)
    requires entries != []
    ensures |Print(Dict(entries), style, level)|
         == FieldsLength(entries, style, level + 1) + Framing(|entries|, style, level)
  {
    var fields := PrintFields(entries, style, level + 1);
    var texts := FieldTexts(SortFields(fields));
    SortLength(fields);
    PrintFieldsLength(entries, style, level + 1);
    FrameLength("{", texts, "}", style, level);
    assert Print(Dict(entries), style, level) == Frame("{", texts, "}", style, level);
  }

  /** The compact form spends one character per member besides the members, and one more in all; the indented
      form puts each on a line of its own, two columns deeper, and the closing bracket on another. */
  lemma FramingMeans(n: nat, level: nat)
    requires n >= 1
    ensures Framing(n, Compact, level) == n + 1
    ensures Framing(n, Indented, level) == 2 + (1 + 2 * level) + n * (1 + 2 * (level + 1)) + (n - 1)
    ensures KeySeparator(Compact) == ":" && KeySeparator(Indented) == ": "
  {
    assert |NewLine(Compact, level)| == |NewLine(Compact, level + 1)| == 0;
    assert |NewLine(Indented, level)| == 1 + 2 * level;
    assert |NewLine(Indented, level + 1)| == 1 + 2 * (level + 1);
  }

  lemma {:induction false} FieldsLengthUpdate(entries: seq<Entry>, i: nat, e: Entry, style: Style, level: nat)
    requires i < |entries|
    ensures FieldsLength(entries[i := e], style, level) + FieldLength(entries[i], style, level)
         == FieldsLength(entries, style, level) + FieldLength(e, style, level)
  {
    if i > 0 {
      FieldsLengthUpdate(entries[1..], i - 1, e, style, level);
      assert entries[i := e][1..] == entries[1..][i - 1 := e];
    } else {
      assert entries[i := e][1..] == entries[1..];
    }
  }

  lemma FieldLengthUpdate(e: Entry, v: Json, style: Style, level: nat)
    ensures FieldLength(Entry(e.key, v), style, level) + |Print(e.value, style, level)|
         == FieldLength(e, style, level) + |Print(v, style, level)|
  {
  }

  /** Replacing one value of a dict changes the printed size by exactly the change of that value. */
  lemma DictUpdateLength(entries: seq<Entry>, i: nat, v: Json, style: Style, level: nat)
    requires i < |entries|
    ensures |Print(Dict(entries[i := Entry(entries[i].key, v)]), style, level)|
          + |Print(entries[i].value, style, level + 1)|
         == |Print(Dict(entries), style, level)| + |Print(v, style, level + 1)|
  {
    var e := Entry(entries[i].key, v);
    var updated := entries[i := e];
    assert |updated| == |entries|;
    DictLength(entries, style, level);
    DictLength(updated, style, level);
    FieldsLengthUpdate(entries, i, e, style, level + 1);
    FieldLengthUpdate(entries[i], v, style, level + 1);
  }
}
