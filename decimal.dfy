/**
 * Decimal rendering of integers, as Swift's `String(_: Int)` produces it:
 * an optional minus sign followed by the digits, most significant first,
 * without leading zeros. `ParseDecimal` is an independent reader of such
 * text; the round trip between the two is what makes a rendered metric
 * value recoverable by whoever receives it.
 */
module Decimal {
  import opened Wrappers

  predicate IsDigit(c: char) {
    '0' <= c <= '9'
  }

  predicate AllDigits(s: string) {
    forall i :: 0 <= i < |s| ==> IsDigit(s[i])
  }

  function DigitValue(c: char): (d: nat)
    requires IsDigit(c)
    ensures d < 10
  {
    c as int - '0' as int
  }

  function DigitChar(d: nat): (c: char)
    requires d < 10
    ensures IsDigit(c) && DigitValue(c) == d
  {
    ('0' as int + d) as char
  }

  /** The digits of `n`: never empty, and a leading '0' only for zero itself. */
  function NatToDigits(n: nat): (s: string)
    ensures |s| > 0 && AllDigits(s)
    ensures s[0] == '0' ==> n == 0
    decreases n
  {
    if n < 10 then [DigitChar(n)] else NatToDigits(n / 10) + [DigitChar(n % 10)]
  }

  /** The number a string of digits denotes (leading zeros allowed). */
  function DigitsValue(s: string): nat
    requires AllDigits(s)
  {
    if s == [] then 0 else DigitsValue(s[..|s| - 1]) * 10 + DigitValue(s[|s| - 1])
  }

  lemma {:induction false} DigitsRoundTrip(n: nat)
    ensures DigitsValue(NatToDigits(n)) == n
    decreases n
  {
    if n >= 10 {
      var s := NatToDigits(n);
      assert s[..|s| - 1] == NatToDigits(n / 10);
      DigitsRoundTrip(n / 10);
    }
  }

  /** Reads an optionally negative decimal numeral; anything else is rejected. */
  function ParseDecimal(s: string): Option<int> {
    if |s| > 0 && AllDigits(s) then Some(DigitsValue(s) as int)
    else if |s| > 1 && s[0] == '-' && AllDigits(s[1..]) then Some(0 - DigitsValue(s[1..]))
    else None
  }

  /** `String(n)`: the rendering reads back as exactly `n`, and a non-negative
      number renders as digits only. */
  function IntToDecimal(n: int): (s: string)
    ensures ParseDecimal(s) == Some(n)
    ensures n >= 0 ==> |s| > 0 && AllDigits(s)
    ensures n >= 0 && |s| > 1 ==> s[0] != '0'
    ensures n < 0 ==> |s| > 1 && s[0] == '-' && s[1] != '0'
  {
    if n < 0 then
      var digits := NatToDigits(-n);
      DigitsRoundTrip(-n);
      assert ("-" + digits)[0] == '-' && ("-" + digits)[1..] == digits;
      "-" + digits
    else
      DigitsRoundTrip(n);
      NatToDigits(n)
  }

  /** Distinct numbers never share a rendering. */
  lemma IntToDecimalInjective(a: int, b: int)
    requires IntToDecimal(a) == IntToDecimal(b)
    ensures a == b
  {
  }
}
