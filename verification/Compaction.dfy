/** The preview of `ptc.fit_output`: a JSON tree compacted under item, depth and string limits, with a
    count of what was left out. */
module Compaction {
  import opened Wrappers
  import opened Decimal
  import opened Json

  datatype Limits = Limits(maxChars: nat, maxItems: nat, maxDepth: nat)

  datatype Stats = Stats(truncated: bool, omittedItems: nat, omittedKeys: nat, depthLimited: bool)
  {
    /** How a container folds the statistics of one child into its own. */
    function Plus(child: Stats): Stats {
      Stats(truncated || child.truncated, omittedItems + child.omittedItems,
            omittedKeys + child.omittedKeys, depthLimited || child.depthLimited)
    }
  }

  const CLEAN := Stats(false, 0, 0, false)

  function ListMarker(n: nat): string {
    "<list len=" + Digits(n) + ">"
  }

  function DictMarker(n: nat): string {
    "<dict keys=" + Digits(n) + ">"
  }

  function CutText(s: string, maxChars: nat): string
    requires |s| > maxChars
  {
    s[..Max(1, maxChars - 3)] + "..."
  }

  function FirstItems<T>(s: seq<T>, n: nat): seq<T> {
    if |s| <= n then s else s[..n]
  }

  /** The preview of `v` and what was left out of it, `depth` container levels still allowed. */
  function Compacted(v: Json, limits: Limits, depth: nat): (Json, Stats)
    decreases depth, 0
  {
    match v
    case Str(s) =>
      if |s| <= limits.maxChars then (v, CLEAN)
      else (Str(CutText(s, limits.maxChars)), CLEAN.(truncated := true))
    case List(items) =>
      if depth == 0 then (Str(ListMarker(|items|)), Stats(true, |items|, 0, true)) else
      var kept := FirstItems(items, limits.maxItems);
      var (previews, stats) := CompactedItems(kept, limits, depth - 1);
      (List(previews), stats.Plus(Stats(|items| > |kept|, |items| - |kept|, 0, false)))
    case Dict(entries) =>
      if depth == 0 then (Str(DictMarker(|entries|)), Stats(true, 0, |entries|, true)) else
      var kept := FirstItems(entries, limits.maxItems);
      var (previews, stats) := CompactedEntries(kept, limits, depth - 1);
      (Dict(previews), stats.Plus(Stats(|entries| > |kept|, 0, |entries| - |kept|, false)))
    case _ => (v, CLEAN)
  }

  function CompactedItems(items: seq<Json>, limits: Limits, depth: nat): (r: (seq<Json>, Stats))
    ensures |r.0| == |items|
    decreases depth, 1, |items|
  {
    if items == [] then ([], CLEAN) else
    var (previews, stats) := CompactedItems(items[..|items| - 1], limits, depth);
    var (preview, child) := Compacted(items[|items| - 1], limits, depth);
    (previews + [preview], stats.Plus(child))
  }

  function CompactedEntries(entries: seq<Entry>, limits: Limits, depth: nat): (r: (seq<Entry>, Stats))
    ensures |r.0| == |entries|
    ensures forall i :: 0 <= i < |entries| ==> r.0[i].key == entries[i].key
    decreases depth, 1, |entries|
  {
    if entries == [] then ([], CLEAN) else
    var (previews, stats) := CompactedEntries(entries[..|entries| - 1], limits, depth);
    var (preview, child) := Compacted(entries[|entries| - 1].value, limits, depth);
    (previews + [Entry(entries[|entries| - 1].key, preview)], stats.Plus(child))
  }

  // ---- the loops of _compact_fit_output_preview ----

  /** A Python dict holds each key once. */
  predicate DistinctKeys(entries: seq<Entry>) {
    forall i, j :: 0 <= i < j < |entries| ==> entries[i].key != entries[j].key
  }

  ghost predicate PythonValue(v: Json)
    decreases v
  {
    match v
    case List(items) => forall x :: x in items ==> PythonValue(x)
    case Dict(entries) => DistinctKeys(entries) && forall e :: e in entries ==> PythonValue(e.value)
    case _ => true
  }

  /** `d[key] = value`: replace in place, or append a new key. */
  function SetKey(entries: seq<Entry>, key: string, value: Json): seq<Entry> {
    if entries == [] then [Entry(key, value)]
    else if entries[0].key == key then [Entry(key, value)] + entries[1..]
    else [entries[0]] + SetKey(entries[1..], key, value)
  }

  lemma {:induction false} SetNewKey(entries: seq<Entry>, key: string, value: Json)
    requires forall e :: e in entries ==> e.key != key
    ensures SetKey(entries, key, value) == entries + [Entry(key, value)]
  {
    if entries != [] {
      SetNewKey(entries[1..], key, value);
    }
  }

  lemma ItemsStep(items: seq<Json>, i: nat, limits: Limits, depth: nat)
    requires i < |items|
    ensures var (previews, stats) := CompactedItems(items[..i], limits, depth);
      var (preview, child) := Compacted(items[i], limits, depth);
      CompactedItems(items[..i + 1], limits, depth) == (previews + [preview], stats.Plus(child))
  {
    assert items[..i + 1][..i] == items[..i];
  }

  lemma EntriesStep(entries: seq<Entry>, i: nat, limits: Limits, depth: nat)
    requires i < |entries|
    ensures var (previews, stats) := CompactedEntries(entries[..i], limits, depth);
      var (preview, child) := Compacted(entries[i].value, limits, depth);
      CompactedEntries(entries[..i + 1], limits, depth)
        == (previews + [Entry(entries[i].key, preview)], stats.Plus(child))
  {
    assert entries[..i + 1][..i] == entries[..i];
  }

  method CompactPreview(v: Json, limits: Limits, depth: nat) returns (preview: Json, stats: Stats)
    requires PythonValue(v)
    ensures (preview, stats) == Compacted(v, limits, depth)
    decreases depth, 0
  {
    stats := CLEAN;
    match v
    case Str(s) =>
      if |s| <= limits.maxChars {
        return v, stats;
      }
      preview := Str(CutText(s, limits.maxChars));
      stats := stats.(truncated := true);
    case List(items) =>
      if depth == 0 {
        return Str(ListMarker(|items|)), Stats(true, |items|, 0, true);
      }
      var previews;
      previews, stats := CompactList(FirstItems(items, limits.maxItems), limits, depth - 1);
      var omittedItems := Max(0, |items| - |previews|);
      if omittedItems > 0 {
        stats := stats.(truncated := true, omittedItems := stats.omittedItems + omittedItems);
      }
      preview := List(previews);
    case Dict(entries) =>
      if depth == 0 {
        return Str(DictMarker(|entries|)), Stats(true, 0, |entries|, true);
      }
      var previews;
      previews, stats := CompactDict(FirstItems(entries, limits.maxItems), limits, depth - 1);
      var omittedKeys := Max(0, |entries| - |previews|);
      if omittedKeys > 0 {
        stats := stats.(truncated := true, omittedKeys := stats.omittedKeys + omittedKeys);
      }
      preview := Dict(previews);
    case _ =>
      preview := v;
  }

  /** The loop over `value[:max_items]`. */
  method CompactList(kept: seq<Json>, limits: Limits, depth: nat) returns (previews: seq<Json>, stats: Stats)
    requires forall x :: x in kept ==> PythonValue(x)
    ensures (previews, stats) == CompactedItems(kept, limits, depth)
    decreases depth, 1
  {
    previews, stats := [], CLEAN;
    var i := 0;
    while i < |kept|
      invariant 0 <= i <= |kept|
      invariant (previews, stats) == CompactedItems(kept[..i], limits, depth)
    {
      var item, child := CompactPreview(kept[i], limits, depth);
      ItemsStep(kept, i, limits, depth);
      previews := previews + [item];
      stats := stats.Plus(child);
      i := i + 1;
    }
    assert kept[..|kept|] == kept;
  }

  /** The loop over `list(value.keys())[:max_items]`, filling the preview dict key by key. */
  method CompactDict(kept: seq<Entry>, limits: Limits, depth: nat) returns (previews: seq<Entry>, stats: Stats)
    requires DistinctKeys(kept) && forall e :: e in kept ==> PythonValue(e.value)
    ensures (previews, stats) == CompactedEntries(kept, limits, depth)
    decreases depth, 1
  {
    previews, stats := [], CLEAN;
    var i := 0;
    while i < |kept|
      invariant 0 <= i <= |kept|
      invariant (previews, stats) == CompactedEntries(kept[..i], limits, depth)
    {
      var value, child := CompactPreview(kept[i].value, limits, depth);
      EntriesStep(kept, i, limits, depth);
      SetNewKey(previews, kept[i].key, value);
      previews := SetKey(previews, kept[i].key, value);
      stats := stats.Plus(child);
      i := i + 1;
    }
    assert kept[..|kept|] == kept;
  }

  // ---- the flag is exact ----

  /** Nothing is reported left out: the preview is the value itself, with all counts zero. */
  lemma {:induction false} UntruncatedIsIdentity(v: Json, limits: Limits, depth: nat)
    requires !Compacted(v, limits, depth).1.truncated
    ensures Compacted(v, limits, depth) == (v, CLEAN)
    decreases depth, 0
  {
    if depth > 0 && v.List? {
      UntruncatedItems(v.items, limits, depth - 1);
    } else if depth > 0 && v.Dict? {
      UntruncatedEntries(v.entries, limits, depth - 1);
    }
  }

  lemma {:induction false} UntruncatedItems(items: seq<Json>, limits: Limits, depth: nat)
    requires !CompactedItems(items, limits, depth).1.truncated
    ensures CompactedItems(items, limits, depth) == (items, CLEAN)
    decreases depth, 1, |items|
  {
    if items != [] {
      assert items == items[..|items| - 1] + [items[|items| - 1]];
      UntruncatedItems(items[..|items| - 1], limits, depth);
      UntruncatedIsIdentity(items[|items| - 1], limits, depth);
    }
  }

  lemma {:induction false} UntruncatedEntries(entries: seq<Entry>, limits: Limits, depth: nat)
    requires !CompactedEntries(entries, limits, depth).1.truncated
    ensures CompactedEntries(entries, limits, depth) == (entries, CLEAN)
    decreases depth, 1, |entries|
  {
    if entries != [] {
      assert entries == entries[..|entries| - 1] + [entries[|entries| - 1]];
      UntruncatedEntries(entries[..|entries| - 1], limits, depth);
      UntruncatedIsIdentity(entries[|entries| - 1].value, limits, depth);
    }
  }

  /** Something is reported left out: with at least four characters a string the preview differs. */
  lemma {:induction false} TruncatedDiffers(v: Json, limits: Limits, depth: nat)
    requires limits.maxChars >= 4 && Compacted(v, limits, depth).1.truncated
    ensures Compacted(v, limits, depth).0 != v
    decreases depth, 0
  {
    if depth > 0 && v.List? {
      if |v.items| <= limits.maxItems {
        TruncatedItemsDiffer(v.items, limits, depth - 1);
      }
    } else if depth > 0 && v.Dict? {
      if |v.entries| <= limits.maxItems {
        TruncatedEntriesDiffer(v.entries, limits, depth - 1);
      }
    }
  }

  lemma {:induction false} TruncatedItemsDiffer(items: seq<Json>, limits: Limits, depth: nat)
    requires limits.maxChars >= 4 && CompactedItems(items, limits, depth).1.truncated
    ensures CompactedItems(items, limits, depth).0 != items
    decreases depth, 1, |items|
  {
    var front, last := items[..|items| - 1], items[|items| - 1];
    assert items == front + [last];
    if Compacted(last, limits, depth).1.truncated {
      TruncatedDiffers(last, limits, depth);
      assert CompactedItems(items, limits, depth).0[|items| - 1] != last;
    } else {
      TruncatedItemsDiffer(front, limits, depth);
      assert CompactedItems(items, limits, depth).0[..|items| - 1] == CompactedItems(front, limits, depth).0;
    }
  }

  lemma {:induction false} TruncatedEntriesDiffer(entries: seq<Entry>, limits: Limits, depth: nat)
    requires limits.maxChars >= 4 && CompactedEntries(entries, limits, depth).1.truncated
    ensures CompactedEntries(entries, limits, depth).0 != entries
    decreases depth, 1, |entries|
  {
    var front, last := entries[..|entries| - 1], entries[|entries| - 1];
    assert entries == front + [last];
    if Compacted(last.value, limits, depth).1.truncated {
      TruncatedDiffers(last.value, limits, depth);
      assert CompactedEntries(entries, limits, depth).0[|entries| - 1] != last;
    } else {
      TruncatedEntriesDiffer(front, limits, depth);
      assert CompactedEntries(entries, limits, depth).0[..|entries| - 1] == CompactedEntries(front, limits, depth).0;
    }
  }

  /** The flag tells exactly whether the preview differs, for every value, if and only if strings
      may keep at least four characters: with fewer, `x...` is cut to itself. */
  lemma FlagIsExactIff(limits: Limits, depth: nat)
    requires limits.maxChars >= 1
    ensures (forall v: Json :: Compacted(v, limits, depth).1.truncated <==> Compacted(v, limits, depth).0 != v)
        <==> limits.maxChars >= 4
  {
    if limits.maxChars >= 4 {
      forall v: Json
        ensures Compacted(v, limits, depth).1.truncated <==> Compacted(v, limits, depth).0 != v
      {
        if Compacted(v, limits, depth).1.truncated {
          TruncatedDiffers(v, limits, depth);
        } else {
          UntruncatedIsIdentity(v, limits, depth);
        }
      }
    } else {
      var v := Str("x...");
      assert CutText("x...", limits.maxChars) == "x...";
      assert Compacted(v, limits, depth).1.truncated && Compacted(v, limits, depth).0 == v;
    }
  }

  // ---- what is cut, and only that ----

  /** Within the limits as they stand: `depth` more container levels, short strings, few members. */
  predicate WithinLimits(v: Json, limits: Limits, depth: nat)
    decreases depth, 0
  {
    match v
    case Str(s) => |s| <= limits.maxChars
    case List(items) => depth > 0 && |items| <= limits.maxItems && ItemsWithinLimits(items, limits, depth - 1)
    case Dict(entries) => depth > 0 && |entries| <= limits.maxItems && EntriesWithinLimits(entries, limits, depth - 1)
    case _ => true
  }

  predicate ItemsWithinLimits(items: seq<Json>, limits: Limits, depth: nat)
    decreases depth, 1, |items|
  {
    items == []
    || (ItemsWithinLimits(items[..|items| - 1], limits, depth) && WithinLimits(items[|items| - 1], limits, depth))
  }

  predicate EntriesWithinLimits(entries: seq<Entry>, limits: Limits, depth: nat)
    decreases depth, 1, |entries|
  {
    entries == []
    || (EntriesWithinLimits(entries[..|entries| - 1], limits, depth)
        && WithinLimits(entries[|entries| - 1].value, limits, depth))
  }

  /** A value is left alone exactly when it is within the limits. */
  lemma {:induction false} TruncatedIffOverLimits(v: Json, limits: Limits, depth: nat)
    ensures Compacted(v, limits, depth).1.truncated <==> !WithinLimits(v, limits, depth)
    decreases depth, 0
  {
    if depth > 0 && v.List? {
      if |v.items| <= limits.maxItems {
        TruncatedIffItemsOver(v.items, limits, depth - 1);
      }
    } else if depth > 0 && v.Dict? {
      if |v.entries| <= limits.maxItems {
        TruncatedIffEntriesOver(v.entries, limits, depth - 1);
      }
    }
  }

  lemma {:induction false} TruncatedIffItemsOver(items: seq<Json>, limits: Limits, depth: nat)
    ensures CompactedItems(items, limits, depth).1.truncated <==> !ItemsWithinLimits(items, limits, depth)
    decreases depth, 1, |items|
  {
    if items != [] {
      TruncatedIffItemsOver(items[..|items| - 1], limits, depth);
      TruncatedIffOverLimits(items[|items| - 1], limits, depth);
    }
  }

  lemma {:induction false} TruncatedIffEntriesOver(entries: seq<Entry>, limits: Limits, depth: nat)
    ensures CompactedEntries(entries, limits, depth).1.truncated <==> !EntriesWithinLimits(entries, limits, depth)
    decreases depth, 1, |entries|
  {
    if entries != [] {
      TruncatedIffEntriesOver(entries[..|entries| - 1], limits, depth);
      TruncatedIffOverLimits(entries[|entries| - 1].value, limits, depth);
    }
  }

  /** A string that is cut keeps a prefix, ends in dots, and fills the limit (or four characters). */
  lemma CutTextShape(s: string, maxChars: nat)
    requires |s| > maxChars
    ensures |CutText(s, maxChars)| == Max(maxChars, 4)
    ensures CutText(s, maxChars)[..Max(maxChars, 4) - 3] <= s
    ensures CutText(s, maxChars)[Max(maxChars, 4) - 3..] == "..."
  {
  }

  /** Lists keep their first members, each compacted on its own, in order. */
  lemma {:induction false} ItemsInOrder(items: seq<Json>, limits: Limits, depth: nat, i: nat)
    requires i < |items|
    ensures CompactedItems(items, limits, depth).0[i] == Compacted(items[i], limits, depth).0
    decreases |items|
  {
    if i < |items| - 1 {
      ItemsInOrder(items[..|items| - 1], limits, depth, i);
    }
  }

  lemma {:induction false} EntriesInOrder(entries: seq<Entry>, limits: Limits, depth: nat, i: nat)
    requires i < |entries|
    ensures CompactedEntries(entries, limits, depth).0[i]
         == Entry(entries[i].key, Compacted(entries[i].value, limits, depth).0)
    decreases |entries|
  {
    if i < |entries| - 1 {
      EntriesInOrder(entries[..|entries| - 1], limits, depth, i);
    }
  }

  /** A container that is entered keeps its first members, as many as the item limit allows, each
      compacted on its own, with one level less to go. */
  lemma FirstMembersAreKept(v: Json, limits: Limits, depth: nat)
    requires depth > 0
    ensures v.List? ==>
      var kept := Compacted(v, limits, depth).0;
      && kept.List? && |kept.items| == Min(|v.items|, limits.maxItems)
      && forall i :: 0 <= i < |kept.items| ==> kept.items[i] == Compacted(v.items[i], limits, depth - 1).0
    ensures v.Dict? ==>
      var kept := Compacted(v, limits, depth).0;
      && kept.Dict? && |kept.entries| == Min(|v.entries|, limits.maxItems)
      && forall i :: 0 <= i < |kept.entries| ==>
           kept.entries[i] == Entry(v.entries[i].key, Compacted(v.entries[i].value, limits, depth - 1).0)
  {
    if v.List? {
      var kept := FirstItems(v.items, limits.maxItems);
      forall i | 0 <= i < |kept|
        ensures CompactedItems(kept, limits, depth - 1).0[i] == Compacted(v.items[i], limits, depth - 1).0
      {
        ItemsInOrder(kept, limits, depth - 1, i);
      }
    } else if v.Dict? {
      var kept := FirstItems(v.entries, limits.maxItems);
      forall i | 0 <= i < |kept|
        ensures CompactedEntries(kept, limits, depth - 1).0[i]
             == Entry(v.entries[i].key, Compacted(v.entries[i].value, limits, depth - 1).0)
      {
        EntriesInOrder(kept, limits, depth - 1, i);
      }
    }
  }

  function AfterEquals(s: string): string {
    if s == "" then "" else if s[0] == '=' then s[1..] else AfterEquals(s[1..])
  }

  /** A depth marker tells the kind and the size of the container it stands for: the number between `=`
      and `>`. */
  lemma MarkersTellTheSize(v: Json, limits: Limits)
    requires v.List? || v.Dict?
    ensures var marker := Compacted(v, limits, 0).0;
      && marker.Str?
      && var number := AfterEquals(marker.s);
         && number != "" && AllDigits(number[..|number| - 1])
         && Value(number[..|number| - 1]) == (if v.List? then |v.items| else |v.entries|)
         && ("<list len=" <= marker.s <==> v.List?) && ("<dict keys=" <= marker.s <==> v.Dict?)
  {
    MarkerNumber(if v.List? then |v.items| else |v.entries|);
    MarkersDiffer(if v.List? then |v.items| else |v.entries|);
    hide ListMarker, DictMarker, AfterEquals, Value, Digits;
  }

  lemma MarkersDiffer(n: nat)
    ensures "<list len=" <= ListMarker(n) && !("<dict keys=" <= ListMarker(n))
    ensures "<dict keys=" <= DictMarker(n) && !("<list len=" <= DictMarker(n))
  {
    hide Digits;
    assert ListMarker(n)[1] == 'l' && DictMarker(n)[1] == 'd';
  }

  lemma MarkerNumber(n: nat)
    ensures AfterEquals(ListMarker(n)) == AfterEquals(DictMarker(n)) == Digits(n) + ">"
    ensures (Digits(n) + ">")[..|Digits(n) + ">"| - 1] == Digits(n) && Value(Digits(n)) == n
  {
    hide AfterEquals, Digits, Value;
    ValueOfDigits(n);
    AfterEqualsOf("<list len", Digits(n) + ">");
    AfterEqualsOf("<dict keys", Digits(n) + ">");
    assert ListMarker(n) == "<list len" + "=" + (Digits(n) + ">");
    assert DictMarker(n) == "<dict keys" + "=" + (Digits(n) + ">");
  }

  lemma {:induction false} AfterEqualsOf(a: string, b: string)
    requires '=' !in a
    ensures AfterEquals(a + "=" + b) == b
  {
    if a == "" {
      assert a + "=" + b == ['='] + b;
    } else {
      AfterEqualsOf(a[1..], b);
      assert (a + "=" + b)[1..] == a[1..] + "=" + b;
    }
  }

  /** Somewhere the walk comes to a container with no level left to enter it. */
  predicate MeetsDepthLimit(v: Json, limits: Limits, depth: nat)
    decreases depth, 0
  {
    match v
    case List(items) => depth == 0 || ItemsMeetDepthLimit(FirstItems(items, limits.maxItems), limits, depth - 1)
    case Dict(entries) => depth == 0 || EntriesMeetDepthLimit(FirstItems(entries, limits.maxItems), limits, depth - 1)
    case _ => false
  }

  predicate ItemsMeetDepthLimit(items: seq<Json>, limits: Limits, depth: nat)
    decreases depth, 1, |items|
  {
    items != []
    && (ItemsMeetDepthLimit(items[..|items| - 1], limits, depth)
        || MeetsDepthLimit(items[|items| - 1], limits, depth))
  }

  predicate EntriesMeetDepthLimit(entries: seq<Entry>, limits: Limits, depth: nat)
    decreases depth, 1, |entries|
  {
    entries != []
    && (EntriesMeetDepthLimit(entries[..|entries| - 1], limits, depth)
        || MeetsDepthLimit(entries[|entries| - 1].value, limits, depth))
  }

  /** `depthLimited` is set exactly when some container was replaced by a marker. */
  lemma {:induction false} DepthLimitedIff(v: Json, limits: Limits, depth: nat)
    ensures Compacted(v, limits, depth).1.depthLimited <==> MeetsDepthLimit(v, limits, depth)
    decreases depth, 0
  {
    hide ListMarker, DictMarker, CutText, CompactedItems, CompactedEntries, ItemsMeetDepthLimit, EntriesMeetDepthLimit;
    if depth > 0 && v.List? {
      ItemsDepthLimitedIff(FirstItems(v.items, limits.maxItems), limits, depth - 1);
    } else if depth > 0 && v.Dict? {
      EntriesDepthLimitedIff(FirstItems(v.entries, limits.maxItems), limits, depth - 1);
    }
  }

  lemma {:induction false} ItemsDepthLimitedIff(items: seq<Json>, limits: Limits, depth: nat)
    ensures CompactedItems(items, limits, depth).1.depthLimited <==> ItemsMeetDepthLimit(items, limits, depth)
    decreases depth, 1, |items|
  {
    if items != [] {
      ItemsDepthLimitedIff(items[..|items| - 1], limits, depth);
      DepthLimitedIff(items[|items| - 1], limits, depth);
    }
  }

  lemma {:induction false} EntriesDepthLimitedIff(entries: seq<Entry>, limits: Limits, depth: nat)
    ensures CompactedEntries(entries, limits, depth).1.depthLimited <==> EntriesMeetDepthLimit(entries, limits, depth)
    decreases depth, 1, |entries|
  {
    if entries != [] {
      EntriesDepthLimitedIff(entries[..|entries| - 1], limits, depth);
      DepthLimitedIff(entries[|entries| - 1].value, limits, depth);
    }
  }

  // ---- nothing is lost track of ----

  datatype Kind = Elements | Keys

  function Omitted(stats: Stats, kind: Kind): nat {
    if kind.Elements? then stats.omittedItems else stats.omittedKeys
  }

  /** Elements of all lists, or keys of all dicts, anywhere in a value. */
  function Members(v: Json, kind: Kind): nat
    decreases v, 1
  {
    match v
    case List(items) => (if kind.Elements? then |items| else 0) + MembersOfItems(items, kind)
    case Dict(entries) => (if kind.Keys? then |entries| else 0) + MembersOfEntries(entries, kind)
    case _ => 0
  }

  function MembersOfItems(items: seq<Json>, kind: Kind): nat
    decreases items, 0
  {
    if items == [] then 0 else MembersOfItems(items[..|items| - 1], kind) + Members(items[|items| - 1], kind)
  }

  function MembersOfEntries(entries: seq<Entry>, kind: Kind): nat
    decreases entries, 0
  {
    if entries == [] then 0
    else MembersOfEntries(entries[..|entries| - 1], kind) + Members(entries[|entries| - 1].value, kind)
  }

  /** The same count over the containers the walk meets: those it enters, and those it replaces
      by a marker. Containers past the item limit are never met. */
  function MetMembers(v: Json, kind: Kind, limits: Limits, depth: nat): nat
    decreases depth, 0
  {
    match v
    case List(items) =>
      (if kind.Elements? then |items| else 0)
      + if depth == 0 then 0 else MetInItems(FirstItems(items, limits.maxItems), kind, limits, depth - 1)
    case Dict(entries) =>
      (if kind.Keys? then |entries| else 0)
      + if depth == 0 then 0 else MetInEntries(FirstItems(entries, limits.maxItems), kind, limits, depth - 1)
    case _ => 0
  }

  function MetInItems(items: seq<Json>, kind: Kind, limits: Limits, depth: nat): nat
    decreases depth, 1, |items|
  {
    if items == [] then 0
    else MetInItems(items[..|items| - 1], kind, limits, depth) + MetMembers(items[|items| - 1], kind, limits, depth)
  }

  function MetInEntries(entries: seq<Entry>, kind: Kind, limits: Limits, depth: nat): nat
    decreases depth, 1, |entries|
  {
    if entries == [] then 0
    else
      MetInEntries(entries[..|entries| - 1], kind, limits, depth)
      + MetMembers(entries[|entries| - 1].value, kind, limits, depth)
  }

  /** Omitted plus kept is everything met, for list elements and for dict keys. */
  lemma {:induction false} OmittedPlusKept(v: Json, kind: Kind, limits: Limits, depth: nat)
    ensures var (preview, stats) := Compacted(v, limits, depth);
      Omitted(stats, kind) + Members(preview, kind) == MetMembers(v, kind, limits, depth)
    decreases depth, 0
  {
    hide ListMarker, DictMarker, CutText, CompactedItems, CompactedEntries, MembersOfItems, MembersOfEntries,
         MetInItems, MetInEntries;
    if depth > 0 && v.List? {
      OmittedPlusKeptItems(FirstItems(v.items, limits.maxItems), kind, limits, depth - 1);
    } else if depth > 0 && v.Dict? {
      OmittedPlusKeptEntries(FirstItems(v.entries, limits.maxItems), kind, limits, depth - 1);
    }
  }

  lemma {:induction false} OmittedPlusKeptItems(items: seq<Json>, kind: Kind, limits: Limits, depth: nat)
    ensures var (previews, stats) := CompactedItems(items, limits, depth);
      Omitted(stats, kind) + MembersOfItems(previews, kind) == MetInItems(items, kind, limits, depth)
    decreases depth, 1, |items|
  {
    if items != [] {
      OmittedPlusKeptItems(items[..|items| - 1], kind, limits, depth);
      OmittedPlusKept(items[|items| - 1], kind, limits, depth);
      var previews := CompactedItems(items, limits, depth).0;
      assert previews[..|items| - 1] == CompactedItems(items[..|items| - 1], limits, depth).0;
    }
  }

  lemma {:induction false} OmittedPlusKeptEntries(entries: seq<Entry>, kind: Kind, limits: Limits, depth: nat)
    ensures var (previews, stats) := CompactedEntries(entries, limits, depth);
      Omitted(stats, kind) + MembersOfEntries(previews, kind) == MetInEntries(entries, kind, limits, depth)
    decreases depth, 1, |entries|
  {
    if entries != [] {
      OmittedPlusKeptEntries(entries[..|entries| - 1], kind, limits, depth);
      OmittedPlusKept(entries[|entries| - 1].value, kind, limits, depth);
      var previews := CompactedEntries(entries, limits, depth).0;
      assert previews[..|entries| - 1] == CompactedEntries(entries[..|entries| - 1], limits, depth).0;
    }
  }

  // ---- the preview is bounded ----

  ghost predicate IsMarker(s: string) {
    exists n: nat :: s == ListMarker(n) || s == DictMarker(n)
  }

  /** Within the limits: `depth` more container levels, at most maxItems members each, strings of
      at most max(maxChars, 4) characters, and longer ones only as markers at the depth limit. */
  ghost predicate Bounded(p: Json, limits: Limits, depth: nat)
    decreases depth
  {
    match p
    case Str(s) => |s| <= Max(limits.maxChars, 4) || (depth == 0 && IsMarker(s))
    case List(items) =>
      && depth > 0 && |items| <= limits.maxItems
      && forall i :: 0 <= i < |items| ==> Bounded(items[i], limits, depth - 1)
    case Dict(entries) =>
      && depth > 0 && |entries| <= limits.maxItems
      && forall i :: 0 <= i < |entries| ==> Bounded(entries[i].value, limits, depth - 1)
    case _ => true
  }

  lemma {:induction false} PreviewIsBounded(v: Json, limits: Limits, depth: nat)
    ensures Bounded(Compacted(v, limits, depth).0, limits, depth)
    decreases depth, 0
  {
    if v.List? {
      if depth == 0 {
        assert IsMarker(ListMarker(|v.items|));
      } else {
        ItemsAreBounded(FirstItems(v.items, limits.maxItems), limits, depth - 1);
      }
    } else if v.Dict? {
      if depth == 0 {
        assert IsMarker(DictMarker(|v.entries|));
      } else {
        EntriesAreBounded(FirstItems(v.entries, limits.maxItems), limits, depth - 1);
      }
    }
  }

  lemma {:induction false} ItemsAreBounded(items: seq<Json>, limits: Limits, depth: nat)
    ensures forall i :: 0 <= i < |items| ==> Bounded(CompactedItems(items, limits, depth).0[i], limits, depth)
    decreases depth, 1, |items|
  {
    if items != [] {
      ItemsAreBounded(items[..|items| - 1], limits, depth);
      PreviewIsBounded(items[|items| - 1], limits, depth);
    }
  }

  lemma {:induction false} EntriesAreBounded(entries: seq<Entry>, limits: Limits, depth: nat)
    ensures forall i :: 0 <= i < |entries| ==>
      Bounded(CompactedEntries(entries, limits, depth).0[i].value, limits, depth)
    decreases depth, 1, |entries|
  {
    if entries != [] {
      EntriesAreBounded(entries[..|entries| - 1], limits, depth);
      PreviewIsBounded(entries[|entries| - 1].value, limits, depth);
    }
  }

  // ---- compaction is idempotent ----

  /** Every marker the walk leaves at the depth limit is itself within the string limit. */
  predicate MarkersFit(v: Json, limits: Limits, depth: nat)
    decreases depth, 0
  {
    match v
    case List(items) =>
      if depth == 0 then |ListMarker(|items|)| <= limits.maxChars
      else MarkersFitItems(FirstItems(items, limits.maxItems), limits, depth - 1)
    case Dict(entries) =>
      if depth == 0 then |DictMarker(|entries|)| <= limits.maxChars
      else MarkersFitEntries(FirstItems(entries, limits.maxItems), limits, depth - 1)
    case _ => true
  }

  predicate MarkersFitItems(items: seq<Json>, limits: Limits, depth: nat)
    decreases depth, 1, |items|
  {
    items == []
    || (MarkersFitItems(items[..|items| - 1], limits, depth) && MarkersFit(items[|items| - 1], limits, depth))
  }

  predicate MarkersFitEntries(entries: seq<Entry>, limits: Limits, depth: nat)
    decreases depth, 1, |entries|
  {
    entries == []
    || (MarkersFitEntries(entries[..|entries| - 1], limits, depth)
        && MarkersFit(entries[|entries| - 1].value, limits, depth))
  }

  /** Compacting a preview again under the same limits changes nothing and reports nothing, exactly
      when the depth markers are within the string limit. */
  lemma IdempotentIff(v: Json, limits: Limits, depth: nat)
    requires limits.maxChars >= 4
    ensures var preview := Compacted(v, limits, depth).0;
      Compacted(preview, limits, depth) == (preview, CLEAN) <==> MarkersFit(v, limits, depth)
  {
    var preview := Compacted(v, limits, depth).0;
    SecondPass(v, limits, depth);
    if !Compacted(preview, limits, depth).1.truncated {
      UntruncatedIsIdentity(preview, limits, depth);
    }
  }

  lemma SecondPassLeaf(v: Json, limits: Limits, depth: nat)
    requires limits.maxChars >= 4 && (depth == 0 || !(v.List? || v.Dict?))
    ensures Compacted(Compacted(v, limits, depth).0, limits, depth).1.truncated <==> !MarkersFit(v, limits, depth)
  {
    hide ListMarker, DictMarker;
  }

  lemma ListPreview(items: seq<Json>, limits: Limits, depth: nat)
    requires depth > 0
    ensures Compacted(List(items), limits, depth).0
         == List(CompactedItems(FirstItems(items, limits.maxItems), limits, depth - 1).0)
    ensures Compacted(List(items), limits, depth).1.truncated <==>
      |items| > limits.maxItems || CompactedItems(FirstItems(items, limits.maxItems), limits, depth - 1).1.truncated
  {
    hide CompactedItems;
  }

  lemma DictPreview(entries: seq<Entry>, limits: Limits, depth: nat)
    requires depth > 0
    ensures Compacted(Dict(entries), limits, depth).0
         == Dict(CompactedEntries(FirstItems(entries, limits.maxItems), limits, depth - 1).0)
    ensures Compacted(Dict(entries), limits, depth).1.truncated <==>
      || |entries| > limits.maxItems
      || CompactedEntries(FirstItems(entries, limits.maxItems), limits, depth - 1).1.truncated
  {
    hide CompactedEntries;
  }

  lemma {:induction false} SecondPassList(items: seq<Json>, limits: Limits, depth: nat)
    requires limits.maxChars >= 4 && depth > 0
    ensures Compacted(Compacted(List(items), limits, depth).0, limits, depth).1.truncated
       <==> !MarkersFit(List(items), limits, depth)
    decreases depth, 0, 0
  {
    var kept := FirstItems(items, limits.maxItems);
    var previews := CompactedItems(kept, limits, depth - 1).0;
    ListPreview(items, limits, depth);
    ListPreview(previews, limits, depth);
    hide Compacted, CompactedItems, MarkersFitItems;
    SecondPassItems(kept, limits, depth - 1);
    assert FirstItems(previews, limits.maxItems) == previews;
  }

  lemma {:induction false} SecondPassDict(entries: seq<Entry>, limits: Limits, depth: nat)
    requires limits.maxChars >= 4 && depth > 0
    ensures Compacted(Compacted(Dict(entries), limits, depth).0, limits, depth).1.truncated
       <==> !MarkersFit(Dict(entries), limits, depth)
    decreases depth, 0, 0
  {
    var kept := FirstItems(entries, limits.maxItems);
    var previews := CompactedEntries(kept, limits, depth - 1).0;
    DictPreview(entries, limits, depth);
    DictPreview(previews, limits, depth);
    hide Compacted, CompactedEntries, MarkersFitEntries;
    SecondPassEntries(kept, limits, depth - 1);
    assert FirstItems(previews, limits.maxItems) == previews;
  }

  lemma {:induction false} SecondPass(v: Json, limits: Limits, depth: nat)
    requires limits.maxChars >= 4
    ensures Compacted(Compacted(v, limits, depth).0, limits, depth).1.truncated <==> !MarkersFit(v, limits, depth)
    decreases depth, 0, 1
  {
    if depth == 0 || !(v.List? || v.Dict?) {
      SecondPassLeaf(v, limits, depth);
    } else {
      hide Compacted, MarkersFit;
      if v.List? {
        SecondPassList(v.items, limits, depth);
      } else {
        SecondPassDict(v.entries, limits, depth);
      }
    }
  }

  lemma {:induction false} SecondPassItems(items: seq<Json>, limits: Limits, depth: nat)
    requires limits.maxChars >= 4
    ensures CompactedItems(CompactedItems(items, limits, depth).0, limits, depth).1.truncated
       <==> !MarkersFitItems(items, limits, depth)
    decreases depth, 1, |items|
  {
    if items != [] {
      SecondPassItems(items[..|items| - 1], limits, depth);
      SecondPass(items[|items| - 1], limits, depth);
      var previews := CompactedItems(items, limits, depth).0;
      assert previews[..|items| - 1] == CompactedItems(items[..|items| - 1], limits, depth).0;
    }
  }

  lemma {:induction false} SecondPassEntries(entries: seq<Entry>, limits: Limits, depth: nat)
    requires limits.maxChars >= 4
    ensures CompactedEntries(CompactedEntries(entries, limits, depth).0, limits, depth).1.truncated
       <==> !MarkersFitEntries(entries, limits, depth)
    decreases depth, 1, |entries|
  {
    if entries != [] {
      SecondPassEntries(entries[..|entries| - 1], limits, depth);
      SecondPass(entries[|entries| - 1].value, limits, depth);
      var previews := CompactedEntries(entries, limits, depth).0;
      assert previews[..|entries| - 1] == CompactedEntries(entries[..|entries| - 1], limits, depth).0;
    }
  }
}
