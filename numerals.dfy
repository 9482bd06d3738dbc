/**
 * Decimal text of integers. The program writes every number of its data file
 * with `<<` and reads it back with `>>`; floating-point amounts are modelled
 * here as exact integers (cents), so a number is written as an optional minus
 * sign followed by its decimal digits.
 */
module Numerals {
  import opened Wrappers

  predicate IsDigit(c: char) {
    '0' <= c <= '9'
  }

  predicate AllDigits(s: string) {
    forall i :: 0 <= i < |s| ==> IsDigit(s[i])
  }

  function DigitValue(c: char): (d: nat)
    requires IsDigit(c)
    ensures d < 10
  {
    c as int - '0' as int
  }

  function DigitChar(d: nat): (c: char)
    requires d < 10
    ensures IsDigit(c) && DigitValue(c) == d
  {
    (d + '0' as int) as char
  }

  /** The decimal digits of `n`, most significant first, without leading zeros. */
  function NatToText(n: nat): (s: string)
    ensures |s| > 0 && AllDigits(s)
    decreases n
  {
    if n < 10 then [DigitChar(n)] else NatToText(n / 10) + [DigitChar(n % 10)]
  }

  /** The value of a string of decimal digits. */
  function DigitsValue(s: string): nat
    requires AllDigits(s)
    decreases |s|
  {
    if s == [] then 0 else 10 * DigitsValue(s[..|s| - 1]) + DigitValue(s[|s| - 1])
  }

  /** The text `<<` writes for an integer: one non-empty line. */
  function IntToText(x: int): (s: string)
    ensures |s| > 0 && '\n' !in s
  {
    if x < 0 then "-" + NatToText(-x) else NatToText(x)
  }

  /** Reads one whole line as an integer; any other line is a read failure. */
  function ParseInt(s: string): Option<int> {
    if |s| > 0 && AllDigits(s) then Some(DigitsValue(s))
    else if |s| > 1 && s[0] == '-' && AllDigits(s[1..]) then Some(0 - DigitsValue(s[1..]) as int)
    else None
  }

  lemma {:induction false} DigitsOfNatToText(n: nat)
    ensures DigitsValue(NatToText(n)) == n
    decreases n
  {
    if n >= 10 {
      var s := NatToText(n);
      assert s[..|s| - 1] == NatToText(n / 10);
      DigitsOfNatToText(n / 10);
    }
  }

  /** Reading back the text of any integer gives that integer. */
  lemma ParseIntRoundTrip(x: int)
    ensures ParseInt(IntToText(x)) == Some(x)
  {
    var s := IntToText(x);
    if x < 0 {
      assert s[1..] == NatToText(-x);
      assert !IsDigit(s[0]);
      DigitsOfNatToText(-x);
    } else {
      DigitsOfNatToText(x);
    }
  }
}
