/** `ptc.fit_output` end to end: what the budgeted value looks like once it is printed by the Python
    runtime, reported by Node and passed through `truncateOutput`. */
module Delivery {
  import opened Wrappers
  import opened Decimal
  import opened Json
  import opened JsText
  import opened Compaction
  import opened FitBudget
  import opened Surrogates
  import Stdout
  import Truncation

  /** `_stringify_output` on JSON values. */
  function Stringify(v: Json): string {
    match v
    case Null => ""
    case Str(s) => s
    case _ => Print(v, Indented, 0)
  }

  /** The text Node reports for user code that prints as in `ops` and returns `v`. */
  function Reported(ops: seq<Stdout.Op>, v: Json): string {
    Stdout.FinalOutput(Stdout.AppendAll("", Stdout.Run(ops + [Stdout.Flush]).0), Stringify(v))
  }

  /** A returned string arrives as it is, and None as nothing; anything else as its printed text. Printed
      output comes first, and then the whole is trimmed. */
  lemma ReturnedTextArrives(ops: seq<Stdout.Op>, v: Json)
    ensures var text := if v.Null? then "" else if v.Str? then v.s else Print(v, Indented, 0);
      Reported(ops, v) == if Stdout.Written(ops) == "" then text else Trim(Stdout.Written(ops) + text)
  {
    hide Print, Trim;
    Stdout.OutputIsPrintedThenReturned(ops, Stringify(v));
  }

  lemma ReportedSize(value: Json, limits: Limits, session: int, ops: seq<Stdout.Op>)
    requires limits.maxChars <= Max(1, session) && session >= LAST_RESORT_CHARS && Stdout.Written(ops) == ""
    ensures Reported(ops, FitValue(value, limits)) == Print(FitValue(value, limits), Indented, 0)
    ensures |Reported(ops, FitValue(value, limits))| <= session
  {
    Stdout.OutputIsPrintedThenReturned(ops, Stringify(FitValue(value, limits)));
    UntruncatedIsLossless(value, limits);
    FitValueSize(value, limits);
  }

  /** A fitted value returned without printing passes the session limit unchanged exactly when its
      code points, counting those above the BMP twice, are within the limit. */
  lemma DeliveredUnchangedIff(value: Json, maxChars: Argument, maxItems: Argument, maxDepth: Argument, session: int,
                              ops: seq<Stdout.Op>, r: JsString)
    requires NormalizeLimits(maxChars, maxItems, maxDepth, session).Ok?
    requires session >= LAST_RESORT_CHARS && Stdout.Written(ops) == ""
    requires var text := Reported(ops, FitValue(value, NormalizeLimits(maxChars, maxItems, maxDepth, session).value));
      Truncation.IsTruncation(r, Utf16(text), session)
    ensures var text := Reported(ops, FitValue(value, NormalizeLimits(maxChars, maxItems, maxDepth, session).value));
      && (r == Utf16(text) <==> |text| + Astral(text) <= session)
      && (AllBmp(text) ==> r == Utf16(text))
  {
    var limits := NormalizeLimits(maxChars, maxItems, maxDepth, session).value;
    var text := Reported(ops, FitValue(value, limits));
    ReportedSize(value, limits, session, ops);
    Utf16Length(text);
  }

  /** What a caller can check before the call: the text arrives unchanged if the session limit leaves room,
      beyond max_chars and the last-resort object, for the value's characters above the BMP; so any value
      without such characters does. */
  lemma HeadroomIsEnough(value: Json, maxChars: Argument, maxItems: Argument, maxDepth: Argument, session: int,
                         ops: seq<Stdout.Op>, r: JsString)
    requires NormalizeLimits(maxChars, maxItems, maxDepth, session).Ok?
    requires session >= LAST_RESORT_CHARS && Stdout.Written(ops) == ""
    requires var limits := NormalizeLimits(maxChars, maxItems, maxDepth, session).value;
      && Truncation.IsTruncation(r, Utf16(Reported(ops, FitValue(value, limits))), session)
      && (AstralIn(value) == 0 || Max(limits.maxChars, LAST_RESORT_CHARS) + AstralIn(value) <= session)
    ensures var limits := NormalizeLimits(maxChars, maxItems, maxDepth, session).value;
      r == Utf16(Print(FitValue(value, limits), Indented, 0))
  {
    var limits := NormalizeLimits(maxChars, maxItems, maxDepth, session).value;
    var fitted := FitValue(value, limits);
    hide FitValue, Print, Utf16, Astral, AstralIn, Reported;
    ReportedSize(value, limits, session, ops);
    FitValueSize(value, limits);
    FitValueAstral(value, limits);
    PrintAstral(fitted, Indented, 0);
    Utf16Length(Print(fitted, Indented, 0));
  }

  /** Where the envelope fits, the condition is exact on the caller's side: the envelope's size and the
      characters above the BMP that it shows, which are the value's own if it is within the limits. */
  lemma FittingValueArrivesIff(value: Json, maxChars: Argument, maxItems: Argument, maxDepth: Argument, session: int,
                               ops: seq<Stdout.Op>, r: JsString)
    requires NormalizeLimits(maxChars, maxItems, maxDepth, session).Ok?
    requires session >= LAST_RESORT_CHARS && Stdout.Written(ops) == ""
    requires var limits := NormalizeLimits(maxChars, maxItems, maxDepth, session).value;
      && Truncation.IsTruncation(r, Utf16(Reported(ops, FitValue(value, limits))), session)
      && InitialEnvelope(value, limits).Size() <= limits.maxChars
    ensures var limits := NormalizeLimits(maxChars, maxItems, maxDepth, session).value;
      var envelope := InitialEnvelope(value, limits);
      && (r == Utf16(Print(envelope.ToJson(), Indented, 0)) <==>
            envelope.Size() + AstralIn(envelope.preview) <= session)
      && (WithinLimits(value, limits, limits.maxDepth) ==> envelope.preview == value)
  {
    var limits := NormalizeLimits(maxChars, maxItems, maxDepth, session).value;
    hide NormalizeLimits, FitValue, InitialEnvelope, Print, Utf16, Astral, AstralIn, Reported, WithinLimits,
         Truncation.IsTruncation, Envelope.ToJson;
    var envelope := InitialEnvelope(value, limits);
    DeliveredUnchangedIff(value, maxChars, maxItems, maxDepth, session, ops, r);
    FittingEnvelope(value, limits);
    ReportedSize(value, limits, session, ops);
    EnvelopeAstral(envelope);
    PrintAstral(envelope.ToJson(), Indented, 0);
  }

  lemma FittingEnvelope(value: Json, limits: Limits)
    ensures var envelope := InitialEnvelope(value, limits);
      && (envelope.Size() <= limits.maxChars ==> FitValue(value, limits) == envelope.ToJson())
      && (WithinLimits(value, limits, limits.maxDepth) ==> envelope.preview == value)
      && Astral(envelope.originalKind) == 0 && envelope.stats.previewKind.None?
  {
    KindAstral(value);
    TruncatedIffOverLimits(value, limits, limits.maxDepth);
    hide Print, MeasureJsonChars, WithinLimits, Compacted, Astral;
    if WithinLimits(value, limits, limits.maxDepth) {
      UntruncatedIsIdentity(value, limits, limits.maxDepth);
    }
  }

  // ---- a value that does not arrive ----

  const FACE: char := 0x1F600 as char

  /** Ten thousand emoji fit 17000 characters as Python counts, envelope included, but not as JavaScript does. */
  const EMOJI: string := seq(10000, _ => FACE)

  const EMOJI_SESSION: nat := 17000

  lemma {:induction false} Faces(n: nat)
    ensures Astral(seq(n, _ => FACE)) == n
  {
    if n > 0 {
      Faces(n - 1);
      assert seq(n, _ => FACE)[1..] == seq(n - 1, _ => FACE);
    }
  }

  lemma {:induction false} AstralBound(s: string)
    ensures Astral(s) <= |s|
  {
    if s != "" {
      AstralBound(s[1..]);
    }
  }

  lemma {:induction false} EscapeBound(s: string)
    ensures |EscapeAll(s)| <= 6 * |s|
  {
    if s != "" {
      EscapeBound(s[..|s| - 1]);
    }
  }

  lemma FieldBound(e: Entry, level: nat)
    ensures FieldLength(e, Indented, level) <= 6 * |e.key| + 4 + |Print(e.value, Indented, level)|
  {
    hide Print;
    EscapeBound(e.key);
  }

  lemma {:induction false} FieldsBound(entries: seq<Entry>, level: nat, bound: nat)
    requires forall e :: e in entries ==> FieldLength(e, Indented, level) <= bound
    ensures FieldsLength(entries, Indented, level) <= |entries| * bound
  {
    hide FieldLength;
    if entries != [] {
      FieldsBound(entries[1..], level, bound);
      assert entries[0] in entries;
      OneMore(|entries| - 1, bound);
    }
  }

  lemma OneMore(n: nat, bound: nat)
    ensures bound + n * bound == (n + 1) * bound
  {
  }

  lemma DictBoundBy(entries: seq<Entry>, level: nat, bound: nat)
    requires entries != [] && level <= 2
    requires forall e :: e in entries ==> FieldLength(e, Indented, level + 1) <= bound
    ensures |Print(Dict(entries), Indented, level)| <= |entries| * (bound + 8) + 14
  {
    hide Print, FieldLength;
    FieldsBound(entries, level + 1, bound);
    DictLength(entries, Indented, level);
    FramingMeans(|entries|, level);
    FramingFits(|entries|, level, bound);
    hide *;
  }

  lemma DictBound(entries: seq<Entry>, level: nat, key: nat, value: nat)
    requires entries != [] && level <= 2
    requires forall e :: e in entries ==> |e.key| <= key && |Print(e.value, Indented, level + 1)| <= value
    ensures |Print(Dict(entries), Indented, level)| <= |entries| * (6 * key + 12 + value) + 14
  {
    hide Print;
    forall e | e in entries
      ensures FieldLength(e, Indented, level + 1) <= 6 * key + 4 + value
    {
      FieldBound(e, level + 1);
    }
    hide FieldLength;
    var bound := 6 * key + 4 + value;
    DictBoundBy(entries, level, bound);
    assert bound + 8 == 6 * key + 12 + value;
  }

  lemma FramingFits(n: nat, level: nat, bound: nat)
    requires level <= 2 && n >= 1
    ensures 2 + (1 + 2 * level) + n * (1 + 2 * (level + 1)) + (n - 1) + n * bound <= n * (bound + 8) + 14
  {
    assert n * (1 + 2 * (level + 1)) <= n * 7;
    assert n * (bound + 8) == n * bound + n * 8;
  }

  lemma SmallNumber(n: nat)
    requires n <= 17000
    ensures |IntText(n)| <= 5
  {
    DigitCountMonotone(n, 17000);
  }

  lemma StatsBound(stats: EnvelopeStats)
    requires stats.previewKind.None? && !stats.depthLimited
    requires stats.originalChars <= 17000 && stats.previewChars <= 17000 && stats.omittedItems == stats.omittedKeys == 0
    ensures |Print(Dict(stats.Entries()), Indented, 1)| <= 489
  {
    hide Print, IntText, Digits;
    PrintedNumber(stats.originalChars);
    PrintedNumber(stats.previewChars);
    PrintedNumber(0);
    SmallConstants(2);
    DictBound(stats.Entries(), 1, 13, 5);
  }

  lemma PrintedNumber(n: nat)
    requires n <= 17000
    ensures |Print(Int(n), Indented, 2)| <= 5
  {
    SmallNumber(n);
  }

  lemma LimitsBound(entries: seq<Entry>)
    requires |entries| == 3 && forall e :: e in entries ==> |e.key| <= 8 && e.value.Int? && 0 <= e.value.n <= 17000
    ensures |Print(Dict(entries), Indented, 1)| <= 489
  {
    forall e | e in entries
      ensures |Print(e.value, Indented, 2)| <= 5
    {
      SmallNumber(e.value.n);
    }
    hide Print;
    DictBound(entries, 1, 8, 5);
  }

  lemma EmojiEnvelope()
    ensures NormalizeLimits(NoneArgument, NoneArgument, NoneArgument, EMOJI_SESSION) == Ok(Limits(17000, 10, 3))
    ensures var e := InitialEnvelope(Str(EMOJI), Limits(17000, 10, 3));
      e.preview == Str(EMOJI) && e.originalKind == "str" && !e.truncated && e.Size() <= EMOJI_SESSION
  {
    var e := InitialEnvelope(Str(EMOJI), Limits(17000, 10, 3));
    PlainText(EMOJI);
    assert |Print(Str(EMOJI), Indented, 0)| == |Print(Str(EMOJI), Indented, 1)| == 10002;
    assert e.stats == EnvelopeStats(10002, 10002, 0, 0, false, None);
    hide EscapeAll;
    StatsBound(e.stats);
    var bare := e.(preview := Null);
    PreviewSize(e, Null);
    LimitsBound(bare.Entries()[4].value.entries);
    hide Print;
    BareBound(bare);
  }

  lemma StrBound(s: string, level: nat)
    ensures |Print(Str(s), Indented, level)| <= 6 * |s| + 2
  {
    EscapeBound(s);
  }

  lemma BareBound(e: Envelope)
    requires e.preview == Null && e.originalKind == "str" && !e.truncated
    requires |Print(Dict(e.stats.Entries()), Indented, 1)| <= 489
    requires |Print(e.Entries()[4].value, Indented, 1)| <= 489
    ensures e.Size() <= 3452
  {
    hide Print, EnvelopeStats.Entries;
    BareEntries(e.Entries()[4].value, Dict(e.stats.Entries()));
    DictBound(e.Entries(), 0, 12, 489);
  }

  lemma BareEntries(limits: Json, stats: Json)
    requires |Print(limits, Indented, 1)| <= 489 && |Print(stats, Indented, 1)| <= 489
    ensures var entries := [Entry("kind", Str("fit_output")), Entry("originalKind", Str("str")), Entry("preview", Null),
                            Entry("truncated", Bool(false)), Entry("limits", limits), Entry("stats", stats)];
      forall e :: e in entries ==> |e.key| <= 12 && |Print(e.value, Indented, 1)| <= 489
  {
    hide Print;
    SmallConstants(1);
    StrBound("fit_output", 1);
    StrBound("str", 1);
  }

  lemma SmallConstants(level: nat)
    ensures |Print(Null, Indented, level)| == 4 && |Print(Bool(false), Indented, level)| == 5
  {
  }

  /** Returned through `fit_output` with default limits, the emoji text is flagged as complete, and then cut. */
  lemma EmojiAreCut(ops: seq<Stdout.Op>, r: JsString)
    requires Stdout.Written(ops) == ""
    requires Truncation.IsTruncation(r, Utf16(Reported(ops, FitValue(Str(EMOJI), Limits(17000, 10, 3)))), EMOJI_SESSION)
    ensures NormalizeLimits(NoneArgument, NoneArgument, NoneArgument, EMOJI_SESSION) == Ok(Limits(17000, 10, 3))
    ensures var fitted := FitValue(Str(EMOJI), Limits(17000, 10, 3));
      && fitted.Dict?
      && Lookup(fitted, "truncated") == Some(Bool(false)) && Lookup(fitted, "preview") == Some(Str(EMOJI))
      && r != Utf16(Reported(ops, fitted))
  {
    var limits := Limits(17000, 10, 3);
    var e := InitialEnvelope(Str(EMOJI), limits);
    EmojiEnvelope();
    assert FitValue(Str(EMOJI), limits) == e.ToJson();
    var text := Print(e.ToJson(), Indented, 0);
    EnvelopeLookup(e);
    ReportedSize(Str(EMOJI), limits, EMOJI_SESSION, ops);
    Faces(10000);
    hide Print, Astral, Reported, FitValue, InitialEnvelope;
    assert Astral("str") == 0 by {
      Utf16Length("str");
    }
    EnvelopeAstral(e);
    StrAstral(EMOJI);
    PrintAstral(e.ToJson(), Indented, 0);
    AstralBound(text);
    Utf16Length(text);
  }
}
