/** The two JavaScript number behaviours the display relies on: `Math.round`
    and the decimal text an integer renders as. Numbers are exact reals
    here; IEEE-754 rounding of the operands is not modelled. */
module JsMath {

  /** `Math.round`: the integer nearest to `x`, halves rounded up (towards
      +infinity, so -2.5 rounds to -2). */
  function Round(x: real): (n: int)
    ensures n as real - 0.5 <= x < n as real + 0.5
  {
    (x + 0.5).Floor
  }

  /** `Round` is monotone: a larger input never rounds to a smaller integer. */
  lemma RoundMonotone(x: real, y: real)
    requires x <= y
    ensures Round(x) <= Round(y)
  {
  }

  /** The percentage shown for a confidence score: `Math.round(c * 100)`. */
  function Percent(confidence: real): (p: int)
    ensures p as real - 0.5 <= confidence * 100.0 < p as real + 0.5
    ensures 0.0 <= confidence <= 1.0 ==> 0 <= p <= 100
  {
    Round(confidence * 100.0)
  }

  /** Higher confidence never shows a lower percentage. */
  lemma PercentMonotone(c: real, d: real)
    requires c <= d
    ensures Percent(c) <= Percent(d)
  {
  }

  predicate IsDigit(ch: char) {
    '0' <= ch <= '9'
  }

  predicate AllDigits(s: string) {
    forall i :: 0 <= i < |s| ==> IsDigit(s[i])
  }

  function DigitChar(d: nat): (ch: char)
    requires d < 10
    ensures IsDigit(ch)
    ensures DigitValue(ch) == d
  {
    (('0' as int) + d) as char
  }

  function DigitValue(ch: char): (d: nat)
    requires IsDigit(ch)
    ensures d < 10
  {
    (ch as int) - ('0' as int)
  }

  /** The decimal digits of `n`, most significant first, without leading
      zeros. */
  function NatToDecimal(n: nat): (s: string)
    ensures 1 <= |s|
    ensures AllDigits(s)
    ensures s[0] == '0' ==> n == 0
    ensures n == 0 ==> s == "0"
    decreases n
  {
    if n < 10 then [DigitChar(n)] else NatToDecimal(n / 10) + [DigitChar(n % 10)]
  }

  /** The value of a string of decimal digits. */
  function DecimalValue(s: string): nat
    requires AllDigits(s)
    decreases |s|
  {
    if s == [] then 0 else 10 * DecimalValue(s[..|s| - 1]) + DigitValue(s[|s| - 1])
  }

  /** Reading the digits of `n` back gives `n`. */
  lemma {:induction false} NatDecimalRoundTrip(n: nat)
    ensures DecimalValue(NatToDecimal(n)) == n
    decreases n
  {
    var s := NatToDecimal(n);
    if n >= 10 {
      assert s[..|s| - 1] == NatToDecimal(n / 10);
      NatDecimalRoundTrip(n / 10);
    }
  }

  /** The text an integer number renders as: an optional minus sign followed
      by its decimal digits (`-0` and `0` both render as "0"). */
  function IntToDecimal(n: int): (s: string)
    ensures 1 <= |s|
    ensures n < 0 <==> s[0] == '-'
    ensures n >= 0 ==> AllDigits(s)
    ensures n < 0 ==> 2 <= |s| && AllDigits(s[1..])
    ensures var digits := if n < 0 then s[1..] else s;
      |digits| > 1 ==> digits[0] != '0'
  {
    if n < 0 then "-" + NatToDecimal(-n) else NatToDecimal(n)
  }

  /** Reads the text produced by `IntToDecimal`. */
  function ParseInt(s: string): int
    requires (1 <= |s| && s[0] == '-' && AllDigits(s[1..])) || AllDigits(s)
  {
    if 1 <= |s| && s[0] == '-' then 0 - DecimalValue(s[1..]) else DecimalValue(s)
  }

  /** The rendered text determines the integer: parsing it gives it back. */
  lemma IntDecimalRoundTrip(n: int)
    ensures ParseInt(IntToDecimal(n)) == n
  {
    var s := IntToDecimal(n);
    if n < 0 {
      assert s[1..] == NatToDecimal(-n);
      NatDecimalRoundTrip(-n);
    } else {
      NatDecimalRoundTrip(n);
    }
  }
}
