// Decimal text of natural numbers: `to_string`, `{:06}` padding and `str::parse`.
module Decimal {
  import opened Prelude

  predicate IsDigit(c: char) {
    '0' <= c <= '9'
  }

  predicate AllDigits(s: string) {
    forall i :: 0 <= i < |s| ==> IsDigit(s[i])
  }

  function DigitChar(d: nat): (c: char)
    requires d < 10
    ensures IsDigit(c) && DigitValue(c) == d
  {
    '0' + (d as char)
  }

  function DigitValue(c: char): (d: nat)
    requires IsDigit(c)
    ensures d < 10
  {
    (c - '0') as nat
  }

  /** Decimal digits without leading zeros; "0" for zero. */
  function Digits(n: nat): (s: string)
    ensures AllDigits(s) && |s| > 0
  {
    if n < 10 then [DigitChar(n)] else Digits(n / 10) + [DigitChar(n % 10)]
  }

  function Value(s: string): nat
    requires AllDigits(s)
  {
    if s == [] then 0 else 10 * Value(s[..|s| - 1]) + DigitValue(s[|s| - 1])
  }

  /** `str::parse` for an unsigned integer whose largest value is `max`. */
  function ParseUnsigned(s: string, max: nat): Option<nat> {
    var digits := if |s| > 1 && s[0] == '+' then s[1..] else s;
    if digits == [] || !AllDigits(digits) || Value(digits) > max then None else Some(Value(digits))
  }

  /** A number is read from its digits, with or without a plus sign. */
  lemma {:induction false} ParseUnsignedMeaning(s: string, max: nat)
    ensures match ParseUnsigned(s, max)
            case Some(n) => n <= max && exists digits :: ReadsDigits(s, digits) && Value(digits) == n
            case None => forall digits :: ReadsDigits(s, digits) ==> Value(digits) > max
  {
    var digits := if |s| > 1 && s[0] == '+' then s[1..] else s;
    if digits != "" && AllDigits(digits) {
      assert ReadsDigits(s, digits);
    }
    forall other | ReadsDigits(s, other)
      ensures other == digits
    {
      assert IsDigit(other[0]);
    }
  }

  predicate ReadsDigits(s: string, digits: string) {
    digits != "" && AllDigits(digits) && (s == digits || s == "+" + digits)
  }

  function Zeros(n: nat): (s: string)
    ensures |s| == n && AllDigits(s)
  {
    seq(n, _ => '0')
  }

  /** `format!("{n:0width}")`. */
  function ZeroPad(n: nat, width: nat): (s: string)
    ensures AllDigits(s) && |s| >= width && |s| > 0
  {
    if |Digits(n)| >= width then Digits(n) else Zeros(width - |Digits(n)|) + Digits(n)
  }

  function Pow10(k: nat): (p: nat)
    ensures p > 0
  {
    if k == 0 then 1 else 10 * Pow10(k - 1)
  }

  lemma {:induction false} ValueOfDigits(n: nat)
    ensures Value(Digits(n)) == n
  {
    if n < 10 {
      assert Digits(n)[..0] == [];
    } else {
      ValueOfDigits(n / 10);
      assert Digits(n)[..|Digits(n)| - 1] == Digits(n / 10);
    }
  }

  lemma {:induction false} ValueOfZeroPrefix(k: nat, s: string)
    requires AllDigits(s)
    ensures Value(Zeros(k) + s) == Value(s)
  {
    if s == [] {
      assert Zeros(k) + s == Zeros(k);
      if k > 0 {
        assert Zeros(k)[..k - 1] == Zeros(k - 1);
        ValueOfZeroPrefix(k - 1, s);
        assert Zeros(k - 1) + s == Zeros(k - 1);
      }
    } else {
      assert (Zeros(k) + s)[..k + |s| - 1] == Zeros(k) + s[..|s| - 1];
      ValueOfZeroPrefix(k, s[..|s| - 1]);
    }
  }

  lemma {:induction false} ValueOfZeroPad(n: nat, width: nat)
    ensures Value(ZeroPad(n, width)) == n
  {
    ValueOfDigits(n);
    if |Digits(n)| < width {
      ValueOfZeroPrefix(width - |Digits(n)|, Digits(n));
    }
  }

  /** A number below 10^k has at most k digits, and one from 10^k on has more. */
  lemma {:induction false} DigitsLength(n: nat, k: nat)
    requires k > 0
    ensures |Digits(n)| <= k <==> n < Pow10(k)
  {
    assert Pow10(k) == 10 * Pow10(k - 1);
    if n >= 10 {
      if k > 1 {
        DigitsLength(n / 10, k - 1);
      } else {
        assert Pow10(0) == 1;
      }
    } else {
      assert Pow10(k - 1) >= 1;
    }
  }

  lemma {:induction false} ParseOfDigits(n: nat, max: nat)
    requires n <= max
    ensures ParseUnsigned(Digits(n), max) == Some(n)
  {
    ValueOfDigits(n);
    assert IsDigit(Digits(n)[0]);
  }
}
