/** What printed JSON costs JavaScript beyond Python's count: one more unit for every character above
    the Basic Multilingual Plane. Printing keeps these characters, and fitting never adds any. */
module Surrogates {
  import opened Wrappers
  import opened Decimal
  import opened JsText
  import opened Json
  import opened Compaction
  import opened FitBudget

  // ---- in texts ----

  lemma {:induction false} AstralConcat(a: string, b: string)
    ensures Astral(a + b) == Astral(a) + Astral(b)
  {
    if a == "" {
      assert a + b == b;
    } else {
      AstralConcat(a[1..], b);
      assert (a + b)[1..] == a[1..] + b;
    }
  }

  lemma {:induction false} EscapeAstral(s: string)
    ensures Astral(EscapeAll(s)) == Astral(s)
  {
    if s != "" {
      var front, c := s[..|s| - 1], s[|s| - 1];
      EscapeAstral(front);
      AstralConcat(EscapeAll(front), Escape(c));
      AstralConcat(front, [c]);
      assert s == front + [c];
      EscapeCharAstral(c);
    }
  }

  lemma EscapeCharAstral(c: char)
    ensures Astral(Escape(c)) == Astral([c])
  {
    if c as int < 0x10000 {
      Utf16Length(Escape(c));
    } else {
      assert Escape(c) == [c];
    }
  }

  lemma QuoteAstral(s: string)
    ensures Astral(Quote(s)) == Astral(s)
  {
    EscapeAstral(s);
    AstralConcat("\"", EscapeAll(s));
    AstralConcat("\"" + EscapeAll(s), "\"");
  }

  function AstralOf(texts: seq<string>): nat {
    if texts == [] then 0 else Astral(texts[0]) + AstralOf(texts[1..])
  }

  lemma {:induction false} JoinAstral(texts: seq<string>, separator: string)
    requires AllBmp(separator)
    ensures Astral(JoinTexts(texts, separator)) == AstralOf(texts)
  {
    if |texts| == 1 {
      assert texts[1..] == [];
    } else if |texts| > 1 {
      Utf16Length(separator);
      JoinAstral(texts[1..], separator);
      AstralConcat(texts[0] + separator, JoinTexts(texts[1..], separator));
      AstralConcat(texts[0], separator);
    }
  }

  lemma {:induction false} InsertAstral(f: Field, fields: seq<Field>)
    ensures AstralOf(FieldTexts(InsertField(f, fields))) == Astral(f.text) + AstralOf(FieldTexts(fields))
  {
    hide Astral;
    if fields != [] && KeyLess(fields[0].key, f.key) {
      InsertAstral(f, fields[1..]);
      assert FieldTexts(InsertField(f, fields))[1..] == FieldTexts(InsertField(f, fields[1..]));
      assert FieldTexts(fields)[1..] == FieldTexts(fields[1..]);
    } else {
      assert FieldTexts(InsertField(f, fields))[1..] == FieldTexts(fields);
    }
  }

  lemma {:induction false} SortAstral(fields: seq<Field>)
    ensures AstralOf(FieldTexts(SortFields(fields))) == AstralOf(FieldTexts(fields))
  {
    hide Astral;
    if fields != [] {
      SortAstral(fields[1..]);
      InsertAstral(fields[0], SortFields(fields[1..]));
      assert FieldTexts(fields)[1..] == FieldTexts(fields[1..]);
    }
  }

  lemma FrameAstral(open: string, texts: seq<string>, close: string, style: Style, level: nat)
    requires AllBmp(open) && AllBmp(close)
    ensures Astral(Frame(open, texts, close, style, level)) == AstralOf(texts)
  {
    var a, z := NewLine(style, level + 1), NewLine(style, level);
    assert AllBmp(a) && AllBmp(z) && AllBmp("," + a);
    Utf16Length(open);
    Utf16Length(close);
    Utf16Length(a);
    Utf16Length(z);
    hide NewLine, Astral, AllBmp;
    if texts == [] {
      AstralConcat(open, close);
    } else {
      var body := JoinTexts(texts, "," + a);
      JoinAstral(texts, "," + a);
      AstralConcat(open, a);
      AstralConcat(open + a, body);
      AstralConcat(open + a + body, z);
      AstralConcat(open + a + body + z, close);
    }
  }

  // ---- in values ----

  /** Characters above the BMP in the strings, keys and number texts of a value. */
  function AstralIn(v: Json): nat
    decreases v, 1
  {
    match v
    case Str(s) => Astral(s)
    case Float(repr) => Astral(repr)
    case List(items) => AstralInItems(items)
    case Dict(entries) => AstralInEntries(entries)
    case _ => 0
  }

  function AstralInItems(items: seq<Json>): nat
    decreases items, 0
  {
    if items == [] then 0 else AstralIn(items[0]) + AstralInItems(items[1..])
  }

  function AstralInEntries(entries: seq<Entry>): nat
    decreases entries, 0
  {
    if entries == [] then 0 else Astral(entries[0].key) + AstralIn(entries[0].value) + AstralInEntries(entries[1..])
  }

  /** The printed text holds exactly the value's own such characters, in either style. */
  lemma {:induction false} PrintAstral(v: Json, style: Style, level: nat)
    ensures Astral(Print(v, style, level)) == AstralIn(v)
    decreases v, 1
  {
    match v
    case Null => Utf16Length("null");
    case Bool(b) =>
      Utf16Length("true");
      Utf16Length("false");
    case Int(n) =>
      Utf16Length(IntText(n));
    case Float(_) =>
    case Str(s) => QuoteAstral(s);
    case List(items) =>
      PrintItemsAstral(items, style, level + 1);
      FrameAstral("[", PrintItems(items, style, level + 1), "]", style, level);
    case Dict(entries) =>
      var fields := PrintFields(entries, style, level + 1);
      PrintFieldsAstral(entries, style, level + 1);
      SortAstral(fields);
      FrameAstral("{", FieldTexts(SortFields(fields)), "}", style, level);
  }

  lemma {:induction false} PrintItemsAstral(items: seq<Json>, style: Style, level: nat)
    ensures AstralOf(PrintItems(items, style, level)) == AstralInItems(items)
    decreases items, 0
  {
    hide Astral;
    if items != [] {
      PrintAstral(items[0], style, level);
      PrintItemsAstral(items[1..], style, level);
    }
  }

  lemma FieldAstral(key: string, text: string, style: Style)
    ensures Astral(Quote(key) + KeySeparator(style) + text) == Astral(key) + Astral(text)
  {
    Utf16Length(KeySeparator(style));
    QuoteAstral(key);
    AstralConcat(Quote(key), KeySeparator(style));
    AstralConcat(Quote(key) + KeySeparator(style), text);
  }

  lemma {:induction false} PrintFieldsAstral(entries: seq<Entry>, style: Style, level: nat)
    ensures AstralOf(FieldTexts(PrintFields(entries, style, level))) == AstralInEntries(entries)
    decreases entries, 0
  {
    hide Astral;
    if entries != [] {
      var text := Print(entries[0].value, style, level);
      PrintAstral(entries[0].value, style, level);
      FieldAstral(entries[0].key, text, style);
      PrintFieldsAstral(entries[1..], style, level);
      var fields := PrintFields(entries, style, level);
      assert FieldTexts(fields)[1..] == FieldTexts(PrintFields(entries[1..], style, level));
    }
  }

  // ---- compaction ----

  lemma PrefixAstral(s: string, n: nat)
    requires n <= |s|
    ensures Astral(s[..n] + "...") <= Astral(s)
  {
    AstralConcat(s[..n], s[n..]);
    assert s == s[..n] + s[n..];
    AstralConcat(s[..n], "...");
    Utf16Length("...");
  }

  lemma {:induction false} ItemsSnoc(items: seq<Json>)
    requires items != []
    ensures AstralInItems(items) == AstralInItems(items[..|items| - 1]) + AstralIn(items[|items| - 1])
  {
    hide AstralIn;
    if |items| > 1 {
      ItemsSnoc(items[1..]);
      assert items[1..][..|items| - 2] == items[..|items| - 1][1..];
    } else {
      assert items[1..] == [] && items[..0] == [];
    }
  }

  lemma {:induction false} EntriesSnoc(entries: seq<Entry>)
    requires entries != []
    ensures AstralInEntries(entries) == AstralInEntries(entries[..|entries| - 1])
              + Astral(entries[|entries| - 1].key) + AstralIn(entries[|entries| - 1].value)
  {
    hide AstralIn, Astral;
    if |entries| > 1 {
      EntriesSnoc(entries[1..]);
      assert entries[1..][..|entries| - 2] == entries[..|entries| - 1][1..];
    } else {
      assert entries[1..] == [] && entries[..0] == [];
    }
  }

  lemma {:induction false} FirstItemsAstral(items: seq<Json>, n: nat)
    ensures AstralInItems(FirstItems(items, n)) <= AstralInItems(items)
    decreases |items|
  {
    if |items| > n {
      ItemsSnoc(items);
      FirstItemsAstral(items[..|items| - 1], n);
      assert items[..|items| - 1][..n] == items[..n];
    }
  }

  lemma {:induction false} FirstEntriesAstral(entries: seq<Entry>, n: nat)
    ensures AstralInEntries(FirstItems(entries, n)) <= AstralInEntries(entries)
    decreases |entries|
  {
    if |entries| > n {
      EntriesSnoc(entries);
      FirstEntriesAstral(entries[..|entries| - 1], n);
      assert entries[..|entries| - 1][..n] == entries[..n];
    }
  }

  lemma MarkerAstral(n: nat)
    ensures Astral(ListMarker(n)) == 0 && Astral(DictMarker(n)) == 0
  {
    Utf16Length(ListMarker(n));
    Utf16Length(DictMarker(n));
  }

  lemma {:induction false} CompactedAstral(v: Json, limits: Limits, depth: nat)
    ensures AstralIn(Compacted(v, limits, depth).0) <= AstralIn(v)
    decreases depth, 0
  {
    match v
    case Str(s) =>
      if |s| > limits.maxChars {
        PrefixAstral(s, Max(1, limits.maxChars - 3));
      }
    case List(items) =>
      if depth == 0 {
        MarkerAstral(|items|);
      } else {
        FirstItemsAstral(items, limits.maxItems);
        CompactedItemsAstral(FirstItems(items, limits.maxItems), limits, depth - 1);
      }
    case Dict(entries) =>
      if depth == 0 {
        MarkerAstral(|entries|);
      } else {
        FirstEntriesAstral(entries, limits.maxItems);
        CompactedEntriesAstral(FirstItems(entries, limits.maxItems), limits, depth - 1);
      }
    case _ =>
  }

  lemma {:induction false} CompactedItemsAstral(items: seq<Json>, limits: Limits, depth: nat)
    ensures AstralInItems(CompactedItems(items, limits, depth).0) <= AstralInItems(items)
    decreases depth, 1, |items|
  {
    hide AstralIn, Compacted;
    if items != [] {
      var n := |items| - 1;
      CompactedItemsAstral(items[..n], limits, depth);
      CompactedAstral(items[n], limits, depth);
      var previews := CompactedItems(items, limits, depth).0;
      assert previews[..n] == CompactedItems(items[..n], limits, depth).0;
      ItemsSnoc(items);
      ItemsSnoc(previews);
    }
  }

  lemma {:induction false} CompactedEntriesAstral(entries: seq<Entry>, limits: Limits, depth: nat)
    ensures AstralInEntries(CompactedEntries(entries, limits, depth).0) <= AstralInEntries(entries)
    decreases depth, 1, |entries|
  {
    hide AstralIn, Astral, Compacted;
    if entries != [] {
      var n := |entries| - 1;
      CompactedEntriesAstral(entries[..n], limits, depth);
      CompactedAstral(entries[n].value, limits, depth);
      var previews := CompactedEntries(entries, limits, depth).0;
      assert previews[..n] == CompactedEntries(entries[..n], limits, depth).0;
      EntriesSnoc(entries);
      EntriesSnoc(previews);
    }
  }

  // ---- the envelope ----

  /** No entry but the one at `i` holds such characters. */
  predicate OnlyAt(entries: seq<Entry>, i: nat) {
    forall j :: 0 <= j < |entries| ==> Astral(entries[j].key) == 0 && (j != i ==> AstralIn(entries[j].value) == 0)
  }

  lemma {:induction false} OneEntryAstral(entries: seq<Entry>, i: nat)
    requires i < |entries| && OnlyAt(entries, i)
    ensures AstralInEntries(entries) == AstralIn(entries[i].value)
  {
    hide AstralIn, Astral;
    if i > 0 {
      OneEntryAstral(entries[1..], i - 1);
    } else if |entries| > 1 {
      OneEntryAstral(entries[1..], 0);
    } else {
      assert entries[1..] == [];
    }
  }

  lemma Plain(s: string)
    requires AllBmp(s)
    ensures Astral(s) == 0
  {
    Utf16Length(s);
  }

  lemma KindAstral(v: Json)
    ensures Astral(DescribeKind(v)) == 0
  {
    Utf16Length(DescribeKind(v));
  }

  lemma StatsAstral(stats: EnvelopeStats)
    requires stats.previewKind.Some? ==> Astral(stats.previewKind.value) == 0
    ensures AstralInEntries(stats.Entries()) == 0
  {
    hide Astral;
    Plain("originalChars");
    Plain("previewChars");
    Plain("omittedItems");
    Plain("omittedKeys");
    Plain("depthLimited");
    Plain("previewKind");
    OneEntryAstral(stats.Entries(), 0);
  }

  lemma LimitsAstral(limits: Limits)
    ensures AstralInEntries([Entry("maxChars", Int(limits.maxChars)), Entry("maxItems", Int(limits.maxItems)),
                             Entry("maxDepth", Int(limits.maxDepth))]) == 0
  {
    hide Astral;
    Plain("maxChars");
    Plain("maxItems");
    Plain("maxDepth");
    OneEntryAstral([Entry("maxChars", Int(limits.maxChars)), Entry("maxItems", Int(limits.maxItems)),
                    Entry("maxDepth", Int(limits.maxDepth))], 0);
  }

  /** Only the preview of an envelope can hold such characters. */
  lemma EnvelopeAstral(e: Envelope)
    requires Astral(e.originalKind) == 0 && (e.stats.previewKind.Some? ==> Astral(e.stats.previewKind.value) == 0)
    ensures AstralIn(e.ToJson()) == AstralIn(e.preview)
  {
    hide Astral, AstralIn, AstralInEntries, OnlyAt, EnvelopeStats.Entries;
    StatsAstral(e.stats);
    LimitsAstral(e.limits);
    EnvelopeOnlyPreview(e);
    OneEntryAstral(e.Entries(), 2);
    DictAstral(e.Entries());
  }

  lemma DictAstral(entries: seq<Entry>)
    ensures AstralIn(Dict(entries)) == AstralInEntries(entries)
  {
  }

  lemma StrAstral(s: string)
    ensures AstralIn(Str(s)) == Astral(s)
  {
  }

  lemma EnvelopeOnlyPreview(e: Envelope)
    requires Astral(e.originalKind) == 0 && AstralInEntries(e.stats.Entries()) == 0
    requires AstralInEntries([Entry("maxChars", Int(e.limits.maxChars)), Entry("maxItems", Int(e.limits.maxItems)),
                              Entry("maxDepth", Int(e.limits.maxDepth))]) == 0
    ensures OnlyAt(e.Entries(), 2)
  {
    hide Astral, AstralInEntries;
    Plain("kind");
    Plain("originalKind");
    Plain("preview");
    Plain("truncated");
    Plain("limits");
    Plain("stats");
    Plain("fit_output");
    var entries := e.Entries();
    forall j | 0 <= j < |entries|
      ensures Astral(entries[j].key) == 0 && (j != 2 ==> AstralIn(entries[j].value) == 0)
    {
      if j == 0 {
      } else if j == 1 {
      } else if j == 3 {
      }
    }
  }

  lemma MinimalAstral(originalKind: string)
    requires Astral(originalKind) == 0
    ensures AstralIn(Minimal(originalKind)) == 0 && AstralIn(LAST_RESORT) == 0
  {
    hide Astral, AstralInEntries;
    Plain("kind");
    Plain("originalKind");
    Plain("preview");
    Plain("truncated");
    StrAstral("fit_output");
    Plain("fit_output");
    StrAstral("...");
    Plain("...");
    OneEntryAstral(Minimal(originalKind).entries, 0);
    OneEntryAstral(LAST_RESORT.entries, 0);
  }

  lemma WholeTextAstral(e: Envelope)
    requires Astral(e.originalKind) == 0
    ensures AstralIn(e.WithText(Print(e.preview, Compact, 0)).ToJson()) == AstralIn(e.preview)
  {
    var whole := e.WithText(Print(e.preview, Compact, 0));
    PrintAstral(e.preview, Compact, 0);
    Plain("text");
    StrAstral(Print(e.preview, Compact, 0));
    hide Print, Astral, AstralIn;
    EnvelopeAstral(whole);
  }

  lemma ShrinkAstral(text: string, overflow: nat)
    ensures Astral(Shrink(text, overflow)) <= Astral(text)
  {
    PrefixAstral(text, Min(|text|, Max(1, |text| - Max(overflow + 3, 8))));
  }

  lemma ShrunkTextAstral(e: Envelope, overflow: nat)
    requires Astral(e.originalKind) == 0
    ensures AstralIn(e.WithText(Shrink(Print(e.preview, Compact, 0), overflow)).ToJson()) <= AstralIn(e.preview)
  {
    var text := Print(e.preview, Compact, 0);
    PrintAstral(e.preview, Compact, 0);
    Plain("text");
    StrAstral(Shrink(text, overflow));
    hide Print, Astral, AstralIn, Shrink;
    ShrinkAstral(text, overflow);
    EnvelopeAstral(e.WithText(Shrink(text, overflow)));
  }

  lemma FitToBudgetAstral(e: Envelope, maxChars: nat)
    requires Astral(e.originalKind) == 0 && e.stats.previewKind.None?
    ensures AstralIn(FitToBudget(e, maxChars)) <= AstralIn(e.preview)
  {
    hide Print, Astral, AstralIn, MeasureJsonChars, Shrink, Minimal;
    EnvelopeAstral(e);
    MinimalAstral(e.originalKind);
    WholeTextAstral(e);
    var text := Print(e.preview, Compact, 0);
    if e.WithText(text).Size() > maxChars {
      ShrunkTextAstral(e, e.WithText(text).Size() - maxChars);
    }
  }

  /** Fitting never adds characters above the BMP, and a value without any is printed without any. */
  lemma FitValueAstral(value: Json, limits: Limits)
    ensures AstralIn(FitValue(value, limits)) <= AstralIn(value)
  {
    CompactedAstral(value, limits, limits.maxDepth);
    KindAstral(value);
    hide Astral, AstralIn, Print, MeasureJsonChars, FitToBudget;
    FitToBudgetAstral(InitialEnvelope(value, limits), limits.maxChars);
  }
}
