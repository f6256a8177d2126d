/** Decimal text of numbers, as Python renders it with `str`.

    The age and height checks both apply a pattern to `str(value)` and then
    compare the value itself, so the model needs the rendering and its inverse.
 */
module Decimal {
  import opened CharClasses

  /** `str(n)` for a non-negative integer: its digits, most significant first. */
  function NatText(n: nat): (t: string)
    ensures |t| >= 1 && All(t, IsDigit)
    decreases n
  {
    if n < 10 then [DigitChar(n)] else NatText(n / 10) + [DigitChar(n % 10)]
  }

  /** `str(n)` for any integer: a minus sign precedes the digits of a negative one. */
  function IntText(n: int): (t: string)
    ensures |t| >= 1
    ensures t[0] == '-' <==> n < 0
    ensures n >= 0 ==> All(t, IsDigit)
  {
    if n < 0 then ['-'] + NatText(-n) else NatText(n)
  }

  /** Ten to the power `k`. */
  function Pow10(k: nat): (p: nat)
    ensures p >= 1
  {
    if k == 0 then 1 else 10 * Pow10(k - 1)
  }

  /** `int(s)` for a string of decimal digits: below ten to the number of digits. */
  function DigitsValue(s: string): (v: nat)
    requires All(s, IsDigit)
    ensures v < Pow10(|s|)
    decreases |s|
  {
    if |s| == 0 then 0 else DigitsValue(s[..|s| - 1]) * 10 + DigitValue(s[|s| - 1])
  }

  /** Reading the digits back gives the number that was rendered. */
  lemma {:induction false} NatTextRoundTrip(n: nat)
    ensures DigitsValue(NatText(n)) == n
    decreases n
  {
    if n >= 10 {
      NatTextRoundTrip(n / 10);
      var t := NatText(n);
      assert t[..|t| - 1] == NatText(n / 10);
    }
  }

  /** One digit renders the numbers below ten, two digits exactly 10..99. */
  lemma {:induction false} NatTextLength(n: nat)
    ensures |NatText(n)| == 1 <==> n < 10
    ensures |NatText(n)| == 2 <==> 10 <= n < 100
    decreases n
  {
    if n >= 10 {
      NatTextLength(n / 10);
    }
  }

  /** The fractional digits `repr` prints for `fp` hundredths: at least one
      digit, and no trailing zero after the first. */
  function FractionText(fp: nat): (t: string)
    requires fp < 100
    ensures 1 <= |t| <= 2 && All(t, IsDigit)
  {
    if fp == 0 then "0"
    else if fp % 10 == 0 then [DigitChar(fp / 10)]
    else [DigitChar(fp / 10), DigitChar(fp % 10)]
  }

  /** `str(h / 100)` for a float holding a whole number `h` of hundredths below 100:
      the shortest decimal that reads back as the same float. */
  function HundredthsText(h: nat): (t: string)
    requires h < 10000
    ensures 3 <= |t| <= 5
    ensures IsDigit(t[0]) && IsDigit(t[|t| - 1])
    ensures exists w :: 1 <= w <= 2 && t[w] == '.' && All(t[..w], IsDigit) && All(t[w + 1..], IsDigit)
  {
    NatTextLength(h / 100);
    var whole, frac := NatText(h / 100), FractionText(h % 100);
    var t := whole + "." + frac;
    assert t[..|whole|] == whole && t[|whole| + 1..] == frac;
    t
  }
}
