/** `truncateOutput`: cut an over-long result and append a notice that tells how much is shown.
    The notice spends part of the budget, and its own length depends on the number it prints,
    so the code searches for a number that agrees with itself. */
module Truncation {
  import opened Wrappers
  import opened Decimal
  import opened JsText

  /** Characters of the notice other than its two numbers. */
  const FIXED_NOTICE_CHARS: nat := 52

  function NoticeWords(shown: nat, total: nat): string {
    "\n\n[Output truncated - showing first " + Digits(shown) + " characters of " + Digits(total) + "]"
  }

  function NoticeText(shown: nat, total: nat): (notice: JsString)
    ensures |notice| == FIXED_NOTICE_CHARS + |Digits(shown)| + |Digits(total)|
  {
    WordsAreBmp(shown, total);
    Utf16Length(NoticeWords(shown, total));
    Utf16(NoticeWords(shown, total))
  }

  lemma WordsAreBmp(shown: nat, total: nat)
    ensures AllBmp(NoticeWords(shown, total))
  {
  }

  // ---- reading a notice ----

  /** What follows the first occurrence of `marker`. */
  function After(text: string, marker: string): Option<string> {
    if marker <= text then Some(text[|marker|..])
    else if text == "" then None
    else After(text[1..], marker)
  }

  /** The number a text starts with. */
  function LeadingNumber(text: string): Option<nat> {
    var e := EndOfDigits(text, 0);
    if e == 0 then None else Some(Value(text[0..e]))
  }

  /** How many characters a notice says are shown. */
  function ShownNumber(notice: JsString): Option<nat> {
    var rest := After(FromUtf16(notice), "showing first ");
    if rest.None? then None else LeadingNumber(rest.value)
  }

  /** Of how many, as a notice says. */
  function TotalNumber(notice: JsString): Option<nat> {
    var rest := After(FromUtf16(notice), "showing first ");
    if rest.None? then None else
    var total := After(rest.value, "of ");
    if total.None? then None else LeadingNumber(total.value)
  }

  lemma {:induction false} AfterFirst(a: string, marker: string, b: string)
    requires marker != "" && marker[0] !in a
    ensures After(a + marker + b, marker) == Some(b)
  {
    var text := a + marker + b;
    if a == "" {
      assert text == marker + b;
      assert marker <= text;
    } else {
      assert text[0] == a[0] && a[0] in a;
      assert text[1..] == a[1..] + marker + b;
      AfterFirst(a[1..], marker, b);
    }
  }

  lemma LeadingNumberOf(n: nat, rest: string)
    requires rest != "" && !IsDigit(rest[0])
    ensures LeadingNumber(Digits(n) + rest) == Some(n)
  {
    var text := Digits(n) + rest;
    assert text[0..|Digits(n)|] == Digits(n);
    EndOfDigitsIs(text, 0, |Digits(n)|);
    ValueOfDigits(n);
  }

  lemma DigitsAreNotLetters(n: nat, c: char)
    requires !IsDigit(c)
    ensures c !in Digits(n)
  {
  }

  function AfterShown(total: nat): string {
    " characters of " + Digits(total) + "]"
  }

  lemma ShownIsFirst(shown: nat, total: nat)
    ensures After(NoticeWords(shown, total), "showing first ") == Some(Digits(shown) + AfterShown(total))
  {
    hide Digits, After;
    assert NoticeWords(shown, total)
        == "\n\n[Output truncated - " + "showing first " + (Digits(shown) + AfterShown(total));
    AfterFirst("\n\n[Output truncated - ", "showing first ", Digits(shown) + AfterShown(total));
  }

  lemma TotalIsSecond(shown: nat, total: nat)
    ensures After(Digits(shown) + AfterShown(total), "of ") == Some(Digits(total) + "]")
  {
    DigitsAreNotLetters(shown, 'o');
    hide Digits, After;
    assert 'o' !in Digits(shown) + " characters ";
    assert Digits(shown) + AfterShown(total) == Digits(shown) + " characters " + "of " + (Digits(total) + "]");
    AfterFirst(Digits(shown) + " characters ", "of ", Digits(total) + "]");
  }

  /** A notice reads back: the number shown first, then the total. */
  lemma NoticeReadsBack(shown: nat, total: nat)
    ensures ShownNumber(NoticeText(shown, total)) == Some(shown)
    ensures TotalNumber(NoticeText(shown, total)) == Some(total)
  {
    Utf16ReadsBack(NoticeWords(shown, total));
    ShownIsFirst(shown, total);
    TotalIsSecond(shown, total);
    LeadingNumberOf(shown, AfterShown(total));
    LeadingNumberOf(total, "]");
    hide Digits, After, LeadingNumber, FromUtf16, NoticeWords, AfterShown;
  }

  /** Room left for the payload once a notice naming `shown` characters is appended. */
  function Budget(shown: nat, total: nat, m: nat): int {
    m - |NoticeText(shown, total)|
  }

  /** A notice naming the limit itself leaves room for at least one character. */
  predicate NoticeFits(total: nat, m: nat) {
    Budget(m, total, m) > 0
  }

  /** `k` characters followed by a notice that says `k` fill the limit exactly. */
  predicate SelfConsistent(k: nat, total: nat, m: nat) {
    Budget(k, total, m) == k
  }

  /** What `truncateOutput` promises for an over-long text when the notice fits. */
  ghost predicate TruncatedTo(r: JsString, output: JsString, m: nat, prefix: nat, shown: nat) {
    && 1 <= prefix <= |output|
    && r == output[..prefix] + NoticeText(shown, |output|)
    && ShownNumber(r[prefix..]) == Some(shown) && TotalNumber(r[prefix..]) == Some(|output|)
    && |r| == m
    && (shown == prefix || (shown == prefix + 1 && IsPowerOfTen(shown)))
    && (shown == prefix <==> exists k: nat :: SelfConsistent(k, |output|, m))
  }

  /** A text within the limit is returned as it is; an over-long one becomes exactly as long as
      the limit, with a notice if there is room for one and by a hard cut if not. */
  ghost predicate IsTruncation(r: JsString, output: JsString, maxOutputChars: int) {
    var m := Max(1, maxOutputChars);
    if |output| <= m then r == output
    else if !NoticeFits(|output|, m) then r == output[..m]
    else exists prefix: nat, shown: nat :: TruncatedTo(r, output, m, prefix, shown)
  }

  method TruncateOutput(output: JsString, maxOutputChars: int) returns (r: JsString)
    requires |output| <= MAX_SAFE_INTEGER
    ensures IsTruncation(r, output, maxOutputChars)
    ensures |output| > Max(1, maxOutputChars) ==> |r| == Max(1, maxOutputChars)
  {
    var m := Max(1, maxOutputChars);
    if |output| <= m {
      return output;
    }

    hide Digits, NoticeText;
    ghost var total := |output|;
    var notice := NoticeText(m, |output|);
    var payloadBudget := m - |notice|;
    if payloadBudget <= 0 {
      return SubstringTo(output, m);
    }

    ghost var b0 := payloadBudget;
    FirstBudget(total, m);
    ghost var b1 := Budget(b0, total, m);
    ghost var shownLast, raised := b0, false;
    var attempt := 0;
    while attempt < 4
      invariant 0 <= attempt <= 4
      invariant payloadBudget == if raised then b1 else b0
      invariant raised <==> attempt == 1 || attempt == 3
      // Past the first pass the search is between b0 and b0 + 1; past the second it alternates.
      invariant attempt >= 1 ==> b1 == b0 + 1 && shownLast == (if raised then b0 else b1)
      invariant attempt >= 1 ==> notice == NoticeText(shownLast, total)
      invariant attempt >= 2 ==> Budget(b1, total, m) == b0
    {
      var shownChars := Max(0, payloadBudget);
      notice := NoticeText(shownChars, |output|);
      shownLast := shownChars;
      var nextBudget := m - |notice|;
      if nextBudget == payloadBudget {
        break;
      }
      SecondBudget(total, m);
      payloadBudget, raised := nextBudget, !raised;
      if payloadBudget <= 0 {
        assert false; // the hard cut inside the search is never taken
      }
      attempt := attempt + 1;
    }

    var bounded := SubstringTo(output, Max(0, payloadBudget)) + notice;
    assert bounded == output[..payloadBudget] + NoticeText(shownLast, total);
    SearchEnds(output, m, payloadBudget, shownLast);
    hide TruncatedTo, Budget;
    // The final clamp changes nothing: the bounded text has the limit's length exactly.
    r := if |bounded| <= m then bounded else SubstringTo(bounded, m);
  }

  // ---- the search ----

  /** The search ends on a number that agrees with itself, or between two that answer each other. */
  lemma SearchEnds(output: JsString, m: nat, prefix: nat, shown: nat)
    requires |output| <= MAX_SAFE_INTEGER && |output| > m && NoticeFits(|output|, m)
    requires 1 <= prefix <= |output| && Budget(shown, |output|, m) == prefix
    requires
      || shown == prefix
      || (prefix == Budget(m, |output|, m) && shown == prefix + 1 && Budget(prefix, |output|, m) == shown)
    ensures TruncatedTo(output[..prefix] + NoticeText(shown, |output|), output, m, prefix, shown)
  {
    var notice := NoticeText(shown, |output|);
    NoticeReadsBack(shown, |output|);
    assert (output[..prefix] + notice)[prefix..] == notice;
    hide Digits, NoticeText, ShownNumber, TotalNumber;
    if shown == prefix {
      assert SelfConsistent(prefix, |output|, m);
    } else {
      OscillationMeansNoNumber(|output|, m);
    }
  }

  /** The digit count drops by at most one from the limit to the first budget. */
  lemma DigitGap(total: nat, m: nat)
    requires total <= MAX_SAFE_INTEGER && NoticeFits(total, m)
    ensures var b0 := Budget(m, total, m);
      |Digits(m)| - 1 <= |Digits(b0)| <= |Digits(m)|
  {
    var b0 := Budget(m, total, m);
    var d := |Digits(m)|;
    DigitCountMonotone(b0, m);
    SafeTotalDigits(total);
    DigitCount(m);
    if d >= 3 {
      NoticeIsSmall(d);
      // m >= 10^(d-1), and the notice takes at most 52 + 16 + d <= 9 * 10^(d-2) of it
      assert Pow10(d - 1) == 10 * Pow10(d - 2);
      DigitCount(b0);
      Pow10Reflects(d - 2, |Digits(b0)|);
    }
  }

  lemma {:induction false} NoticeIsSmall(d: nat)
    requires d >= 3
    ensures FIXED_NOTICE_CHARS + 16 + d <= 9 * Pow10(d - 2)
  {
    if d == 3 {
      assert Pow10(0) == 1 && Pow10(1) == 10;
    } else {
      NoticeIsSmall(d - 1);
      assert Pow10(d - 2) == 10 * Pow10(d - 3);
    }
  }

  lemma SafeTotalDigits(total: nat)
    requires total <= MAX_SAFE_INTEGER
    ensures |Digits(total)| <= 16
  {
    DigitCountMonotone(total, MAX_SAFE_INTEGER);
    assert Pow10(15) == 1000000000000000 by {
      assert Pow10(5) == 100000;
      assert Pow10(10) == 10000000000;
    }
    DigitCountIs(MAX_SAFE_INTEGER, 16);
  }

  lemma FirstBudget(total: nat, m: nat)
    requires total <= MAX_SAFE_INTEGER && NoticeFits(total, m)
    ensures var b0 := Budget(m, total, m);
      b0 <= Budget(b0, total, m) <= b0 + 1
  {
    DigitGap(total, m);
  }

  /** When the first pass moved the budget up by one, the second either stays there or, if the
      number gained a digit, falls back. */
  lemma SecondBudget(total: nat, m: nat)
    requires total <= MAX_SAFE_INTEGER && NoticeFits(total, m)
    ensures var b0 := Budget(m, total, m);
      Budget(b0, total, m) == b0 + 1 ==> Budget(b0 + 1, total, m) == b0 + 1 || Budget(b0 + 1, total, m) == b0
  {
    var b0 := Budget(m, total, m);
    DigitGap(total, m);
    DigitCountMonotone(b0, b0 + 1);
    DigitCountMonotone(b0 + 1, m);
  }

  /** If the search falls back, no number of characters agrees with its own notice, and the
      number it printed last is a power of ten. */
  lemma OscillationMeansNoNumber(total: nat, m: nat)
    requires total <= MAX_SAFE_INTEGER && NoticeFits(total, m)
    requires var b0 := Budget(m, total, m);
      Budget(b0, total, m) == b0 + 1 && Budget(b0 + 1, total, m) == b0
    ensures IsPowerOfTen(Budget(m, total, m) + 1)
    ensures !exists k: nat :: SelfConsistent(k, total, m)
  {
    var b0 := Budget(m, total, m);
    DigitCount(b0);
    DigitCount(b0 + 1);
    assert b0 + 1 == Pow10(|Digits(b0)|);
    forall k: nat
      ensures !SelfConsistent(k, total, m)
    {
      if k <= b0 {
        DigitCountMonotone(k, b0);
      } else {
        DigitCountMonotone(b0 + 1, k);
      }
    }
  }

  // ---- when the printed number is the true one ----

  /** The notice tells the truth except for the limits that leave exactly 10^d + d characters,
      d >= 1, for the payload and the printed number together. */
  lemma HonestNumberIff(total: nat, m: nat)
    requires total <= MAX_SAFE_INTEGER && NoticeFits(total, m)
    ensures (exists k: nat :: SelfConsistent(k, total, m))
        <==> !exists d: nat :: d >= 1 && m - FIXED_NOTICE_CHARS - |Digits(total)| == Pow10(d) + d
  {
    var w := m - FIXED_NOTICE_CHARS - |Digits(total)|;
    forall d: nat | d >= 1 && w == Pow10(d) + d
      ensures !exists k: nat :: SelfConsistent(k, total, m)
    {
      NoConsistentNumber(total, m, d);
    }
    if !exists k: nat :: SelfConsistent(k, total, m) {
      var b0 := Budget(m, total, m);
      FirstBudget(total, m);
      SecondBudget(total, m);
      assert !SelfConsistent(b0, total, m) && !SelfConsistent(b0 + 1, total, m);
      DigitCount(b0);
      DigitCount(b0 + 1);
      assert w == Pow10(|Digits(b0)|) + |Digits(b0)|;
    }
  }

  lemma NoConsistentNumber(total: nat, m: nat, d: nat)
    requires d >= 1 && m - FIXED_NOTICE_CHARS - |Digits(total)| == Pow10(d) + d
    ensures !exists k: nat :: SelfConsistent(k, total, m)
  {
    DigitCountIs(Pow10(d), d + 1);
    Pow10Monotone(d - 1, d);
    assert Pow10(d) == 10 * Pow10(d - 1);
    DigitCountIs(Pow10(d) - 1, d);
    forall k: nat
      ensures !SelfConsistent(k, total, m)
    {
      if k < Pow10(d) {
        DigitCountMonotone(k, Pow10(d) - 1);
      } else {
        DigitCountMonotone(Pow10(d), k);
      }
    }
  }

  /** The printed number can be off: a 200-character text cut at 66 keeps nine characters and
      says it shows ten. */
  lemma DishonestExample(output: JsString, r: JsString, prefix: nat, shown: nat)
    requires |output| == 200 && TruncatedTo(r, output, 66, prefix, shown)
    ensures prefix == 9 && shown == 10
  {
    assert Pow10(1) == 10;
    assert |Digits(200)| == 3;
    NoConsistentNumber(200, 66, 1);
    DigitCountIs(9, 1);
    DigitCountIs(10, 2);
    DigitCountMonotone(Min(shown, 10), Max(shown, 10));
  }

  /** The description fixes the text: there is at most one prefix length and printed number. */
  lemma TruncationIsUnique(r1: JsString, r2: JsString, output: JsString, m: nat,
                           p1: nat, s1: nat, p2: nat, s2: nat)
    requires TruncatedTo(r1, output, m, p1, s1) && TruncatedTo(r2, output, m, p2, s2)
    ensures p1 == p2 && s1 == s2 && r1 == r2
  {
    DigitCountMonotone(Min(s1, s2), Max(s1, s2));
  }
}
