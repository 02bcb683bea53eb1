/** `fit_output` around the compaction: limits, the result envelope, and the loop that shrinks the
    preview until the printed envelope fits the character budget. */
module FitBudget {
  import opened Wrappers
  import opened Decimal
  import opened Json
  import opened Compaction

  // ---- limits ----

  /** A Python argument where an optional positive integer is expected. `bool` is not an `int` here. */
  datatype Argument = NoneArgument | IntArgument(n: int) | OtherArgument(typeName: string)

  const DEFAULT_MAX_ITEMS: nat := 10
  const DEFAULT_MAX_DEPTH: nat := 3

  /** None, or a positive integer. */
  predicate Acceptable(a: Argument) {
    a.NoneArgument? || (a.IntArgument? && a.n >= 1)
  }

  const COMPLAINT := " must be a positive integer"

  function NormalizePositiveInt(name: string, value: Argument, default: nat): (r: Result<nat, string>)
    requires default >= 1
    ensures r.Ok? <==> Acceptable(value)
    ensures r.Ok? ==> r.value == if value.IntArgument? then value.n else default
    ensures r.Err? ==>
      r.error == name + COMPLAINT + if value.OtherArgument? then " (got " + value.typeName + ")" else ""
  {
    match value
    case NoneArgument => Ok(default)
    case OtherArgument(t) => Err(name + COMPLAINT + (" (got " + t + ")"))
    case IntArgument(n) => if n < 1 then Err(name + COMPLAINT + "") else Ok(n)
  }

  /** What the caller asks for, within what the session allows. */
  function CharBudget(maxChars: Argument, session: int): int {
    if maxChars.IntArgument? then Min(maxChars.n, Max(1, session)) else Max(1, session)
  }

  /** The character limit is the caller's, but never more than the session's; the other two are the caller's
      or the defaults. The error names the first argument that is not acceptable. */
  function NormalizeLimits(maxChars: Argument, maxItems: Argument, maxDepth: Argument, session: int)
    : (r: Result<Limits, string>)
    ensures r.Ok? <==> Acceptable(maxChars) && Acceptable(maxItems) && Acceptable(maxDepth)
    ensures r.Ok? ==>
      && r.value.maxChars == CharBudget(maxChars, session)
      && r.value.maxItems == (if maxItems.IntArgument? then maxItems.n else DEFAULT_MAX_ITEMS)
      && r.value.maxDepth == (if maxDepth.IntArgument? then maxDepth.n else DEFAULT_MAX_DEPTH)
      && r.value.maxChars >= 1 && r.value.maxItems >= 1 && r.value.maxDepth >= 1
    ensures r.Err? ==>
      (if !Acceptable(maxChars) then "max_chars" else if !Acceptable(maxItems) then "max_items" else "max_depth")
      + COMPLAINT <= r.error
  {
    var sessionChars := Max(1, session);
    var chars := NormalizePositiveInt("max_chars", maxChars, sessionChars);
    var items := NormalizePositiveInt("max_items", maxItems, DEFAULT_MAX_ITEMS);
    var depth := NormalizePositiveInt("max_depth", maxDepth, DEFAULT_MAX_DEPTH);
    if chars.Err? then Err(chars.error)
    else if items.Err? then Err(items.error)
    else if depth.Err? then Err(depth.error)
    else Ok(Limits(Min(chars.value, sessionChars), items.value, depth.value))
  }

  // ---- the envelope ----

  datatype EnvelopeStats = EnvelopeStats(
    originalChars: nat, previewChars: nat, omittedItems: nat, omittedKeys: nat,
    depthLimited: bool, previewKind: Option<string>)
  {
    function Entries(): seq<Entry> {
      [Entry("originalChars", Int(originalChars)), Entry("previewChars", Int(previewChars)),
       Entry("omittedItems", Int(omittedItems)), Entry("omittedKeys", Int(omittedKeys)),
       Entry("depthLimited", Bool(depthLimited))]
      + if previewKind.Some? then [Entry("previewKind", Str(previewKind.value))] else []
    }
  }

  datatype Envelope = Envelope(
    originalKind: string, preview: Json, truncated: bool, limits: Limits, stats: EnvelopeStats)
  {
    function Entries(): seq<Entry> {
      [Entry("kind", Str("fit_output")), Entry("originalKind", Str(originalKind)),
       Entry("preview", preview), Entry("truncated", Bool(truncated)),
       Entry("limits", Dict([Entry("maxChars", Int(limits.maxChars)), Entry("maxItems", Int(limits.maxItems)),
                             Entry("maxDepth", Int(limits.maxDepth))])),
       Entry("stats", Dict(stats.Entries()))]
    }

    function ToJson(): Json {
      Dict(Entries())
    }

    function Size(): nat {
      MeasureJsonChars(ToJson())
    }

    /** The envelope with its preview replaced by a text. */
    function WithText(text: string): Envelope {
      this.(preview := Str(text), truncated := true,
            stats := stats.(previewKind := Some("text"), previewChars := |text|))
    }
  }

  function Minimal(originalKind: string): Json {
    Dict([Entry("kind", Str("fit_output")), Entry("originalKind", Str(originalKind)),
          Entry("preview", Str("...")), Entry("truncated", Bool(true))])
  }

  const LAST_RESORT := Dict([Entry("kind", Str("fit_output")), Entry("truncated", Bool(true))])

  /** Size of the last-resort object. */
  const LAST_RESORT_CHARS: nat := 47

  // ---- shrinking ----

  function Shrink(text: string, overflow: nat): string {
    text[..Min(|text|, Max(1, |text| - Max(overflow + 3, 8)))] + "..."
  }

  /** What is left is a prefix and dots, and no more is lost than the overflow (or five characters), unless
      that would leave nothing. */
  lemma ShrinkLosesLittle(text: string, overflow: nat)
    requires |text| > 4
    ensures var shrunk := Shrink(text, overflow);
      && |shrunk| > 3 && shrunk[|shrunk| - 3..] == "..."
      && shrunk[..|shrunk| - 3] <= text
      && |text| - |shrunk| == Min(Max(overflow, 5), |text| - 4)
  {
  }

  /** `_fit_result_to_char_budget`, with at most one shrink of the preview text. */
  function FitToBudget(envelope: Envelope, maxChars: nat): (r: Json)
    ensures r.Dict?
  {
    if envelope.Size() <= maxChars then envelope.ToJson() else
    var text := Print(envelope.preview, Compact, 0);
    var whole := envelope.WithText(text);
    var fitted := if whole.Size() > maxChars && |text| > 4
                  then envelope.WithText(Shrink(text, whole.Size() - maxChars)) else whole;
    if fitted.Size() <= maxChars then fitted.ToJson()
    else if MeasureJsonChars(Minimal(envelope.originalKind)) <= maxChars then Minimal(envelope.originalKind)
    else LAST_RESORT
  }

  method FitResultToCharBudget(envelope: Envelope, maxChars: nat) returns (r: Json)
    ensures r == FitToBudget(envelope, maxChars)
  {
    var result := envelope;
    hide MeasureJsonChars, Print;
    if result.Size() <= maxChars {
      return result.ToJson();
    }

    var text := Print(result.preview, Compact, 0);
    var previewText := text;
    result := result.WithText(previewText);
    while result.Size() > maxChars && |previewText| > 4
      invariant result == envelope.WithText(previewText)
      // Either no pass has run, or one has and the loop is about to stop.
      invariant previewText == text
             || (|text| > 4 && envelope.WithText(text).Size() > maxChars
                 && previewText == Shrink(text, envelope.WithText(text).Size() - maxChars)
                 && (result.Size() <= maxChars || |previewText| <= 4))
      decreases |previewText|
    {
      var overflow := result.Size() - maxChars;
      OneShrinkSuffices(envelope, previewText, maxChars);
      previewText := Shrink(previewText, overflow);
      result := result.(preview := Str(previewText), stats := result.stats.(previewChars := |previewText|));
    }

    if result.Size() <= maxChars {
      return result.ToJson();
    }
    if MeasureJsonChars(Minimal(result.originalKind)) <= maxChars {
      return Minimal(result.originalKind);
    }
    return LAST_RESORT;
  }

  lemma PreviewSize(e: Envelope, p: Json)
    ensures e.(preview := p).Size() + |Print(e.preview, Indented, 1)| == e.Size() + |Print(p, Indented, 1)|
  {
    hide Print;
    DictUpdateLength(e.Entries(), 2, p, Indented, 0);
    assert e.(preview := p).Entries() == e.Entries()[2 := Entry("preview", p)];
  }

  lemma StatsSize(e: Envelope, stats: EnvelopeStats)
    ensures e.(stats := stats).Size() + |Print(Dict(e.stats.Entries()), Indented, 1)|
         == e.Size() + |Print(Dict(stats.Entries()), Indented, 1)|
  {
    hide Print;
    var d := Dict(stats.Entries());
    DictUpdateLength(e.Entries(), 5, d, Indented, 0);
    assert e.(stats := stats).Entries() == e.Entries()[5 := Entry("stats", d)];
  }

  lemma PreviewCharsSize(stats: EnvelopeStats, n: nat)
    ensures |Print(Dict(stats.(previewChars := n).Entries()), Indented, 1)| + |Digits(stats.previewChars)|
         == |Print(Dict(stats.Entries()), Indented, 1)| + |Digits(n)|
  {
    assert Print(Int(n), Indented, 2) == Digits(n);
    assert Print(Int(stats.previewChars), Indented, 2) == Digits(stats.previewChars);
    hide Print;
    DictUpdateLength(stats.Entries(), 1, Int(n), Indented, 1);
    assert stats.(previewChars := n).Entries() == stats.Entries()[1 := Entry("previewChars", Int(n))];
  }

  /** Replacing the preview text changes the printed size by the change of the escaped text and of
      the digits of `previewChars`. */
  lemma TextSize(envelope: Envelope, a: string, b: string)
    ensures envelope.WithText(a).Size() + |EscapeAll(b)| + |Digits(|b|)|
         == envelope.WithText(b).Size() + |EscapeAll(a)| + |Digits(|a|)|
  {
    var ea, eb := envelope.WithText(a), envelope.WithText(b);
    assert |Print(Str(a), Indented, 1)| == |EscapeAll(a)| + 2;
    assert |Print(Str(b), Indented, 1)| == |EscapeAll(b)| + 2;
    hide Print;
    PreviewSize(eb, Str(a));
    StatsSize(eb.(preview := Str(a)), ea.stats);
    PreviewCharsSize(eb.stats, |a|);
    assert ea == eb.(preview := Str(a)).(stats := ea.stats);
  }

  /** Cutting a text costs it at least as many escaped characters as it loses before the dots. */
  lemma CutEscapes(text: string, keep: nat)
    requires keep <= |text|
    ensures |EscapeAll(text[..keep] + "...")| + |text| - keep <= |EscapeAll(text)| + 3
  {
    assert text == text[..keep] + text[keep..];
    EscapeAllConcat(text[..keep], text[keep..]);
    EscapeAllGrows(text[keep..]);
    EscapeAllConcat(text[..keep], "...");
    PlainText("...");
    hide EscapeAll;
  }

  /** One pass of the loop strictly shortens the text, and afterwards the loop stops: the envelope
      fits or only four characters are left, whatever was cut and however it is escaped. */
  lemma OneShrinkSuffices(envelope: Envelope, text: string, maxChars: nat)
    requires envelope.WithText(text).Size() > maxChars && |text| > 4
    ensures var shrunk := Shrink(text, envelope.WithText(text).Size() - maxChars);
      4 <= |shrunk| < |text| && (envelope.WithText(shrunk).Size() <= maxChars || |shrunk| == 4)
  {
    hide Print, MeasureJsonChars, EscapeAll, Digits;
    var overflow := envelope.WithText(text).Size() - maxChars;
    var shrunk := Shrink(text, overflow);
    if |text| - Max(overflow + 3, 8) >= 1 {
      CutEscapes(text, |text| - Max(overflow + 3, 8));
      DigitCountMonotone(|shrunk|, |text|);
      TextSize(envelope, text, shrunk);
    }
  }

  // ---- fit_output ----

  function DescribeKind(v: Json): string {
    match v
    case Null => "null"
    case Bool(_) => "bool"
    case Int(_) => "int"
    case Float(_) => "float"
    case Str(_) => "str"
    case List(_) => "list"
    case Dict(_) => "dict"
  }

  function InitialEnvelope(value: Json, limits: Limits): Envelope {
    var (preview, stats) := Compacted(value, limits, limits.maxDepth);
    var originalChars, previewChars := MeasureJsonChars(value), MeasureJsonChars(preview);
    Envelope(DescribeKind(value), preview,
             stats.truncated || originalChars > limits.maxChars || previewChars > limits.maxChars,
             limits,
             EnvelopeStats(originalChars, previewChars, stats.omittedItems, stats.omittedKeys,
                           stats.depthLimited, None))
  }

  function FitValue(value: Json, limits: Limits): (r: Json)
    ensures r.Dict?
  {
    FitToBudget(InitialEnvelope(value, limits), limits.maxChars)
  }

  method FitOutput(value: Json, maxChars: Argument, maxItems: Argument, maxDepth: Argument, session: int)
    returns (r: Result<Json, string>)
    requires PythonValue(value)
    ensures var limits := NormalizeLimits(maxChars, maxItems, maxDepth, session);
      r == if limits.Ok? then Ok(FitValue(value, limits.value)) else Err(limits.error)
    ensures r.Ok? ==> MeasureJsonChars(r.value) <= Max(CharBudget(maxChars, session), LAST_RESORT_CHARS)
    ensures r.Ok? <==> Acceptable(maxChars) && Acceptable(maxItems) && Acceptable(maxDepth)
  {
    var limits := NormalizeLimits(maxChars, maxItems, maxDepth, session);
    if limits.Err? {
      return Err(limits.error);
    }
    var preview, stats := CompactPreview(value, limits.value, limits.value.maxDepth);
    var originalChars, previewChars := MeasureJsonChars(value), MeasureJsonChars(preview);
    var envelope := Envelope(
      DescribeKind(value), preview, stats.truncated, limits.value,
      EnvelopeStats(originalChars, previewChars, stats.omittedItems, stats.omittedKeys, stats.depthLimited, None));
    envelope := envelope.(truncated :=
      envelope.truncated || originalChars > limits.value.maxChars || previewChars > limits.value.maxChars);
    var fitted := FitResultToCharBudget(envelope, limits.value.maxChars);
    FitValueSize(value, limits.value);
    r := Ok(fitted);
  }

  // ---- sizes ----

  lemma QuotedPlainText(s: string)
    requires forall i :: 0 <= i < |s| ==> s[i] as int >= 32 && s[i] != '"' && s[i] != '\\'
    ensures |Quote(s)| == |s| + 2
  {
    PlainText(s);
  }

  lemma KindField()
    ensures FieldLength(Entry("kind", Str("fit_output")), Indented, 1) == 20
  {
    QuotedPlainText("kind");
    QuotedPlainText("fit_output");
  }

  lemma TruncatedField(b: bool)
    ensures FieldLength(Entry("truncated", Bool(b)), Indented, 1) == if b then 17 else 18
  {
    QuotedPlainText("truncated");
  }

  lemma {:induction false} OneFieldIsPart(entries: seq<Entry>, i: nat, style: Style, level: nat)
    requires i < |entries|
    ensures FieldsLength(entries, style, level) >= FieldLength(entries[i], style, level)
  {
    if i > 0 {
      OneFieldIsPart(entries[1..], i - 1, style, level);
    }
  }

  lemma LastResortSize()
    ensures MeasureJsonChars(LAST_RESORT) == LAST_RESORT_CHARS
  {
    KindField();
    TruncatedField(true);
    DictLength(LAST_RESORT.entries, Indented, 0);
    assert LAST_RESORT.entries[1..] == [Entry("truncated", Bool(true))];
    assert LAST_RESORT.entries[1..][1..] == [];
  }

  lemma FramingGrows(n: nat)
    requires n >= 2
    ensures Framing(n, Indented, 0) >= 10
  {
    assert |NewLine(Indented, 0)| == 1 && |NewLine(Indented, 1)| == 3;
  }

  /** Every object that starts with the kind and carries the flag is at least as big. */
  lemma TaggedSize(entries: seq<Entry>, i: nat, b: bool)
    requires 1 <= i < |entries|
    requires entries[0] == Entry("kind", Str("fit_output")) && entries[i] == Entry("truncated", Bool(b))
    ensures MeasureJsonChars(Dict(entries)) >= LAST_RESORT_CHARS
  {
    KindField();
    TruncatedField(b);
    hide Print, Quote;
    DictLength(entries, Indented, 0);
    OneFieldIsPart(entries[1..], i - 1, Indented, 1);
    FramingGrows(|entries|);
  }

  lemma FitToBudgetSize(envelope: Envelope, maxChars: nat)
    ensures LAST_RESORT_CHARS <= MeasureJsonChars(FitToBudget(envelope, maxChars)) <= Max(maxChars, LAST_RESORT_CHARS)
  {
    hide Print;
    LastResortSize();
    TaggedSize(Minimal(envelope.originalKind).entries, 3, true);
    forall e: Envelope
      ensures e.Size() >= LAST_RESORT_CHARS
    {
      TaggedSize(e.Entries(), 3, e.truncated);
    }
  }

  lemma FitValueSize(value: Json, limits: Limits)
    ensures LAST_RESORT_CHARS <= MeasureJsonChars(FitValue(value, limits)) <= Max(limits.maxChars, LAST_RESORT_CHARS)
  {
    FitToBudgetSize(InitialEnvelope(value, limits), limits.maxChars);
  }

  /** The budget is met, for any value, exactly when it has room for the last-resort object. */
  lemma BudgetIsMetIff(value: Json, limits: Limits)
    ensures MeasureJsonChars(FitValue(value, limits)) <= limits.maxChars <==> limits.maxChars >= LAST_RESORT_CHARS
  {
    FitValueSize(value, limits);
  }

  // ---- an untruncated result is lossless ----

  function Lookup(v: Json, key: string): Option<Json>
    requires v.Dict?
  {
    LookupIn(v.entries, key)
  }

  function LookupIn(entries: seq<Entry>, key: string): Option<Json> {
    if entries == [] then None
    else if entries[0].key == key then Some(entries[0].value)
    else LookupIn(entries[1..], key)
  }

  lemma {:induction false} LookupAt(entries: seq<Entry>, i: nat)
    requires i < |entries| && forall j :: 0 <= j < i ==> entries[j].key != entries[i].key
    ensures LookupIn(entries, entries[i].key) == Some(entries[i].value)
  {
    if i > 0 {
      LookupAt(entries[1..], i - 1);
    }
  }

  lemma EnvelopeLookup(e: Envelope)
    ensures Lookup(e.ToJson(), "truncated") == Some(Bool(e.truncated))
    ensures Lookup(e.ToJson(), "preview") == Some(e.preview)
  {
    LookupAt(e.Entries(), 3);
    LookupAt(e.Entries(), 2);
  }

  /** A value of a dict inside a dict. */
  function Inner(v: Json, key: string, inner: string): Option<Json>
    requires v.Dict?
  {
    var d := Lookup(v, key);
    if d.Some? && d.value.Dict? then Lookup(d.value, inner) else None
  }

  lemma EnvelopeHeadTells(e: Envelope)
    ensures Lookup(e.ToJson(), "kind") == Some(Str("fit_output"))
    ensures Lookup(e.ToJson(), "originalKind") == Some(Str(e.originalKind))
    ensures Lookup(e.ToJson(), "limits") == Some(e.Entries()[4].value)
    ensures Lookup(e.ToJson(), "stats") == Some(Dict(e.stats.Entries()))
  {
    LookupAt(e.Entries(), 0);
    LookupAt(e.Entries(), 1);
    LookupAt(e.Entries(), 4);
    LookupAt(e.Entries(), 5);
  }

  lemma LimitsTell(e: Envelope)
    ensures var l := e.Entries()[4].value.entries;
      && LookupIn(l, "maxChars") == Some(Int(e.limits.maxChars))
      && LookupIn(l, "maxItems") == Some(Int(e.limits.maxItems))
      && LookupIn(l, "maxDepth") == Some(Int(e.limits.maxDepth))
  {
    var l := e.Entries()[4].value.entries;
    LookupAt(l, 0);
    LookupAt(l, 1);
    LookupAt(l, 2);
  }

  lemma StatsTell(stats: EnvelopeStats)
    ensures var l := stats.Entries();
      && LookupIn(l, "originalChars") == Some(Int(stats.originalChars))
      && LookupIn(l, "previewChars") == Some(Int(stats.previewChars))
      && LookupIn(l, "omittedItems") == Some(Int(stats.omittedItems))
      && LookupIn(l, "omittedKeys") == Some(Int(stats.omittedKeys))
      && LookupIn(l, "depthLimited") == Some(Bool(stats.depthLimited))
      && LookupIn(l, "previewKind") == if stats.previewKind.Some? then Some(Str(stats.previewKind.value)) else None
  {
    var l := stats.Entries();
    LookupAt(l, 0);
    LookupAt(l, 1);
    LookupAt(l, 2);
    LookupAt(l, 3);
    LookupAt(l, 4);
    if stats.previewKind.Some? {
      LookupAt(l, 5);
    } else {
      NotInEntries(l, "previewKind");
    }
  }

  lemma {:induction false} NotInEntries(entries: seq<Entry>, key: string)
    requires forall i :: 0 <= i < |entries| ==> entries[i].key != key
    ensures LookupIn(entries, key).None?
  {
    if entries != [] {
      NotInEntries(entries[1..], key);
    }
  }

  /** What a result with statistics says of the value it was made from, and of its own preview. */
  predicate TellsTheTruth(r: Json, value: Json, limits: Limits)
    requires r.Dict?
  {
    var stats := Compacted(value, limits, limits.maxDepth).1;
    && Lookup(r, "kind") == Some(Str("fit_output"))
    && Lookup(r, "originalKind") == Some(Str(DescribeKind(value)))
    && Inner(r, "limits", "maxChars") == Some(Int(limits.maxChars))
    && Inner(r, "limits", "maxItems") == Some(Int(limits.maxItems))
    && Inner(r, "limits", "maxDepth") == Some(Int(limits.maxDepth))
    && Inner(r, "stats", "originalChars") == Some(Int(MeasureJsonChars(value)))
    && Inner(r, "stats", "omittedItems") == Some(Int(stats.omittedItems))
    && Inner(r, "stats", "omittedKeys") == Some(Int(stats.omittedKeys))
    && Inner(r, "stats", "depthLimited") == Some(Bool(stats.depthLimited))
    && var preview := Lookup(r, "preview");
       && preview.Some?
       && match Inner(r, "stats", "previewKind")
          case None =>
            && preview == Some(Compacted(value, limits, limits.maxDepth).0)
            && Inner(r, "stats", "previewChars") == Some(Int(MeasureJsonChars(preview.value)))
          case Some(kind) =>
            && kind == Str("text") && preview.value.Str?
            && Inner(r, "stats", "previewChars") == Some(Int(|preview.value.s|))
  }

  lemma EnvelopeTells(e: Envelope, value: Json, limits: Limits)
    requires var stats := Compacted(value, limits, limits.maxDepth).1;
      && e.originalKind == DescribeKind(value) && e.limits == limits
      && e.stats.originalChars == MeasureJsonChars(value) && e.stats.omittedItems == stats.omittedItems
      && e.stats.omittedKeys == stats.omittedKeys && e.stats.depthLimited == stats.depthLimited
    requires
      || (e.preview == Compacted(value, limits, limits.maxDepth).0 && e.stats.previewKind.None?
          && e.stats.previewChars == MeasureJsonChars(e.preview))
      || (e.preview.Str? && e.stats.previewKind == Some("text") && e.stats.previewChars == |e.preview.s|)
    ensures TellsTheTruth(e.ToJson(), value, limits)
  {
    EnvelopeHeadTells(e);
    EnvelopeLookup(e);
    LimitsTell(e);
    StatsTell(e.stats);
    hide LookupIn, MeasureJsonChars, Print, Compacted, EnvelopeStats.Entries, DescribeKind;
  }

  /** Every result with statistics tells the truth; the two bare objects have none, and carry the kind. */
  lemma ResultTellsTheTruth(value: Json, limits: Limits)
    ensures var r := FitValue(value, limits);
      TellsTheTruth(r, value, limits) || r == Minimal(DescribeKind(value)) || r == LAST_RESORT
  {
    hide MeasureJsonChars, Print, Compacted, DescribeKind, TellsTheTruth, Shrink;
    var e := InitialEnvelope(value, limits);
    var text := Print(e.preview, Compact, 0);
    EnvelopeTells(e, value, limits);
    EnvelopeTells(e.WithText(text), value, limits);
    if e.WithText(text).Size() > limits.maxChars {
      EnvelopeTells(e.WithText(Shrink(text, e.WithText(text).Size() - limits.maxChars)), value, limits);
    }
    hide Envelope.ToJson, Envelope.WithText, Minimal;
  }

  lemma BareObjectsTell(value: Json)
    ensures Lookup(Minimal(DescribeKind(value)), "kind") == Lookup(LAST_RESORT, "kind") == Some(Str("fit_output"))
    ensures Lookup(Minimal(DescribeKind(value)), "originalKind") == Some(Str(DescribeKind(value)))
    ensures Lookup(Minimal(DescribeKind(value)), "preview") == Some(Str("..."))
  {
    hide DescribeKind;
    var m := Minimal(DescribeKind(value)).entries;
    LookupAt(m, 0);
    LookupAt(m, 1);
    LookupAt(m, 2);
    LookupAt(LAST_RESORT.entries, 0);
  }

  /** The kind is Python's name of the JSON type, and no two types share one. */
  lemma KindsAreDistinct(a: Json, b: Json)
    ensures DescribeKind(a) == DescribeKind(b) <==>
      && (a.Null? <==> b.Null?) && (a.Bool? <==> b.Bool?) && (a.Int? <==> b.Int?) && (a.Float? <==> b.Float?)
      && (a.Str? <==> b.Str?) && (a.List? <==> b.List?) && (a.Dict? <==> b.Dict?)
    ensures DescribeKind(a) in {"null", "bool", "int", "float", "str", "list", "dict"}
  {
  }

  lemma MinimalLookup(originalKind: string)
    ensures Lookup(Minimal(originalKind), "truncated") == Some(Bool(true))
    ensures Lookup(LAST_RESORT, "truncated") == Some(Bool(true))
  {
    LookupAt(Minimal(originalKind).entries, 3);
    LookupAt(LAST_RESORT.entries, 1);
  }

  /** Fitting keeps the flag and the preview of an envelope that fits; all it does otherwise is flagged. */
  lemma FlagAfterFitting(envelope: Envelope, maxChars: nat)
    ensures var r := FitToBudget(envelope, maxChars);
      && r.Dict?
      && (Lookup(r, "truncated") == Some(Bool(false)) <==> !envelope.truncated && envelope.Size() <= maxChars)
      && (Lookup(r, "truncated") == Some(Bool(false)) ==> Lookup(r, "preview") == Some(envelope.preview))
  {
    hide Print, MeasureJsonChars;
    EnvelopeLookup(envelope);
    forall text: string
      ensures Lookup(envelope.WithText(text).ToJson(), "truncated") == Some(Bool(true))
    {
      EnvelopeLookup(envelope.WithText(text));
    }
    MinimalLookup(envelope.originalKind);
    hide LookupIn;
  }

  lemma InitialFlag(value: Json, limits: Limits)
    ensures !InitialEnvelope(value, limits).truncated <==>
      WithinLimits(value, limits, limits.maxDepth) && MeasureJsonChars(value) <= limits.maxChars
    ensures !InitialEnvelope(value, limits).truncated ==> InitialEnvelope(value, limits).preview == value
  {
    hide Print, MeasureJsonChars, WithinLimits, Compacted;
    TruncatedIffOverLimits(value, limits, limits.maxDepth);
    if WithinLimits(value, limits, limits.maxDepth) {
      UntruncatedIsIdentity(value, limits, limits.maxDepth);
    }
  }

  /** What is returned says `truncated: false` exactly when the value is within all limits and its
      envelope fits; its preview is then the caller's value, unchanged. */
  lemma UntruncatedIsLossless(value: Json, limits: Limits)
    ensures FitValue(value, limits).Dict?
    ensures Lookup(FitValue(value, limits), "truncated") == Some(Bool(false)) <==>
      && WithinLimits(value, limits, limits.maxDepth) && MeasureJsonChars(value) <= limits.maxChars
      && InitialEnvelope(value, limits).Size() <= limits.maxChars
    ensures Lookup(FitValue(value, limits), "truncated") == Some(Bool(false)) ==>
      Lookup(FitValue(value, limits), "preview") == Some(value)
  {
    hide Print, MeasureJsonChars, WithinLimits, Compacted, LookupIn, FitToBudget, InitialEnvelope;
    InitialFlag(value, limits);
    FlagAfterFitting(InitialEnvelope(value, limits), limits.maxChars);
  }

  /** The compacted preview is kept if its envelope fits, and the whole preview text if that fits. */
  lemma KeptIfItFits(envelope: Envelope, maxChars: nat)
    ensures envelope.Size() <= maxChars ==> FitToBudget(envelope, maxChars) == envelope.ToJson()
    ensures var text := Print(envelope.preview, Compact, 0);
      envelope.Size() > maxChars && envelope.WithText(text).Size() <= maxChars ==>
        FitToBudget(envelope, maxChars) == envelope.WithText(text).ToJson()
  {
    hide Print, MeasureJsonChars;
  }

  /** A preview is given up only when it has to be: the two bare objects appear only if not even the text
      cut to one character and dots fits. */
  lemma GivesUpOnlyWhenItMust(envelope: Envelope, maxChars: nat)
    ensures var text := Print(envelope.preview, Compact, 0);
      FitToBudget(envelope, maxChars) in [Minimal(envelope.originalKind), LAST_RESORT] && |text| > 4 ==>
        envelope.WithText(text[..1] + "...").Size() > maxChars
  {
    var text := Print(envelope.preview, Compact, 0);
    hide Print, MeasureJsonChars;
    var whole := envelope.WithText(text);
    forall e: Envelope
      ensures e.ToJson() != Minimal(envelope.originalKind) && e.ToJson() != LAST_RESORT
    {
      EnvelopesAreNotBare(e, envelope.originalKind);
    }
    hide Minimal, Envelope.ToJson, Envelope.WithText;
    if envelope.Size() > maxChars && whole.Size() > maxChars && |text| > 4 {
      OneShrinkSuffices(envelope, text, maxChars);
      if |Shrink(text, whole.Size() - maxChars)| == 4 {
        assert Shrink(text, whole.Size() - maxChars) == text[..1] + "...";
      }
    }
  }

  /** A text of up to four characters is not cut, and the bare object that keeps the kind is given up only if
      it does not fit either. */
  lemma BareObjectsComeLast(envelope: Envelope, maxChars: nat)
    ensures var text, r := Print(envelope.preview, Compact, 0), FitToBudget(envelope, maxChars);
      && (envelope.Size() > maxChars && envelope.WithText(text).Size() > maxChars && |text| <= 4 ==>
            r == Minimal(envelope.originalKind) || r == LAST_RESORT)
      && (r == LAST_RESORT ==> MeasureJsonChars(Minimal(envelope.originalKind)) > maxChars)
      && (r == Minimal(envelope.originalKind) ==> MeasureJsonChars(r) <= maxChars)
  {
    hide Print, MeasureJsonChars;
    forall e: Envelope
      ensures e.ToJson() != Minimal(envelope.originalKind) && e.ToJson() != LAST_RESORT
    {
      EnvelopesAreNotBare(e, envelope.originalKind);
    }
    assert |Minimal(envelope.originalKind).entries| == 4 && |LAST_RESORT.entries| == 2;
    hide Minimal, Envelope.ToJson, Envelope.WithText, Shrink;
  }

  lemma EnvelopesAreNotBare(e: Envelope, originalKind: string)
    ensures e.ToJson() != Minimal(originalKind) && e.ToJson() != LAST_RESORT
  {
    assert |e.Entries()| == 6;
    assert |Minimal(originalKind).entries| == 4 && |LAST_RESORT.entries| == 2;
  }
}
