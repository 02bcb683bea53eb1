/** Decimal numerals: how Python's `str(int)` and JavaScript's `String(number)` print a
    natural number, and how `parseInt(text, 10)` reads a run of digits back. */
module Decimal {

  predicate IsDigit(c: char) {
    '0' <= c <= '9'
  }

  predicate AllDigits(s: string) {
    forall i :: 0 <= i < |s| ==> IsDigit(s[i])
  }

  function DigitChar(d: nat): (c: char)
    requires d < 10
    ensures IsDigit(c) && c as int - 48 == d
  {
    (d + 48) as char
  }

  function Digits(n: nat): (s: string)
    ensures |s| >= 1 && AllDigits(s)
  {
    if n < 10 then [DigitChar(n)] else Digits(n / 10) + [DigitChar(n % 10)]
  }

  /** The number a run of digits denotes, read most significant digit first. */
  function Value(s: string): nat
    requires AllDigits(s)
  {
    if s == "" then 0 else 10 * Value(s[..|s| - 1]) + (s[|s| - 1] as int - 48)
  }

  lemma {:induction false} ValueOfDigits(n: nat)
    ensures Value(Digits(n)) == n
  {
    var s := Digits(n);
    if n < 10 {
      assert s[..|s| - 1] == "";
    } else {
      ValueOfDigits(n / 10);
      assert s[..|s| - 1] == Digits(n / 10);
    }
  }

  lemma DigitsInjective(a: nat, b: nat)
    requires Digits(a) == Digits(b)
    ensures a == b
  {
    ValueOfDigits(a);
    ValueOfDigits(b);
  }

  // ---- runs of digits ----

  function EndOfDigits(s: string, i: nat): (e: nat)
    requires i <= |s|
    ensures i <= e <= |s| && AllDigits(s[i..e]) && (e < |s| ==> !IsDigit(s[e]))
    decreases |s| - i
  {
    if i < |s| && IsDigit(s[i]) then
      var e := EndOfDigits(s, i + 1);
      assert s[i..e] == [s[i]] + s[i + 1..e];
      e
    else i
  }

  lemma {:induction false} EndOfDigitsIs(s: string, i: nat, e: nat)
    requires i <= e <= |s| && AllDigits(s[i..e]) && (e < |s| ==> !IsDigit(s[e]))
    ensures EndOfDigits(s, i) == e
    decreases e - i
  {
    if i < e {
      assert s[i] == s[i..e][0];
      assert s[i + 1..e] == s[i..e][1..];
      EndOfDigitsIs(s, i + 1, e);
    }
  }

  // ---- how many digits ----

  function Pow10(k: nat): (p: nat)
    ensures p >= 1
  {
    if k == 0 then 1 else 10 * Pow10(k - 1)
  }

  /** A numeral of `d` digits denotes a number below 10^d and, unless it is a single digit,
      at least 10^(d-1). */
  lemma {:induction false} DigitCount(n: nat)
    ensures n < Pow10(|Digits(n)|)
    ensures n > 0 ==> Pow10(|Digits(n)| - 1) <= n
  {
    if n >= 10 {
      DigitCount(n / 10);
      assert Pow10(|Digits(n)| - 1) == 10 * Pow10(|Digits(n / 10)| - 1);
    } else {
      assert Pow10(0) == 1 && Pow10(1) == 10;
    }
  }

  lemma {:induction false} Pow10Monotone(a: nat, b: nat)
    requires a <= b
    ensures Pow10(a) <= Pow10(b)
    decreases b
  {
    if a < b {
      Pow10Monotone(a, b - 1);
    }
  }

  lemma Pow10Reflects(a: nat, b: nat)
    requires Pow10(a) < Pow10(b)
    ensures a < b
  {
    if b <= a {
      Pow10Monotone(b, a);
    }
  }

  /** Longer numerals belong to larger numbers. */
  lemma DigitCountMonotone(a: nat, b: nat)
    requires a <= b
    ensures |Digits(a)| <= |Digits(b)|
  {
    DigitCount(a);
    DigitCount(b);
    if a > 0 {
      Pow10Reflects(|Digits(a)| - 1, |Digits(b)|);
    }
  }

  /** The digit count of `n` is `d` exactly when `n` lies in the `d`-digit range. */
  lemma DigitCountIs(n: nat, d: nat)
    requires d >= 1 && n < Pow10(d)
    requires n > 0 ==> Pow10(d - 1) <= n
    requires n == 0 ==> d == 1
    ensures |Digits(n)| == d
  {
    DigitCount(n);
    if n > 0 {
      Pow10Reflects(d - 1, |Digits(n)|);
      Pow10Reflects(|Digits(n)| - 1, d);
    }
  }

  ghost predicate IsPowerOfTen(n: nat) {
    exists k: nat :: n == Pow10(k)
  }
}
