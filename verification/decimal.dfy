/**
 * The decimal text of an integer, as JavaScript produces it for `'' + n`
 * when `n` holds an integral number of magnitude below 10^21 (index.js:94
 * sends the target temperature this way), together with the parser a
 * receiver would use. Larger magnitudes, which JavaScript writes in exponent
 * form or cannot hold exactly, are rendered here as plain digits.
 */
module Decimal {
  import opened Wrappers

  predicate IsDigit(c: char) {
    '0' <= c <= '9'
  }

  predicate AllDigits(s: string) {
    forall i :: 0 <= i < |s| ==> IsDigit(s[i])
  }

  function DigitChar(d: nat): (c: char)
    requires d < 10
    ensures IsDigit(c)
  {
    ('0' as int + d) as char
  }

  function DigitValue(c: char): (d: nat)
    requires IsDigit(c)
    ensures d < 10
  {
    c as int - '0' as int
  }

  /** Base-10 digits of `n`, most significant first, without leading zeros. */
  function NatToDigits(n: nat): (s: string)
    ensures 1 <= |s|
    ensures AllDigits(s)
    ensures |s| > 1 ==> s[0] != '0'
    decreases n
  {
    if n < 10 then [DigitChar(n)] else NatToDigits(n / 10) + [DigitChar(n % 10)]
  }

  /** The value of a non-empty run of decimal digits. */
  function ParseDigits(s: string): nat
    requires 1 <= |s|
    requires AllDigits(s)
    decreases |s|
  {
    if |s| == 1 then DigitValue(s[0])
    else 10 * ParseDigits(s[..|s| - 1]) + DigitValue(s[|s| - 1])
  }

  /** JavaScript's `'' + n` for an integral number `n` with |n| < 10^21. */
  function IntToDecimal(n: int): (s: string)
    ensures 1 <= |s|
    ensures n < 0 <==> s[0] == '-'
    ensures n >= 0 ==> AllDigits(s)
    ensures n < 0 ==> 2 <= |s| && AllDigits(s[1..])
    ensures n >= 0 && |s| > 1 ==> s[0] != '0'
    ensures n < 0 ==> s[1] != '0'
  {
    if n < 0 then "-" + NatToDigits(-n) else NatToDigits(n)
  }

  /** Reads an optionally negated run of decimal digits; anything else is rejected. */
  function ParseDecimal(s: string): Option<int> {
    if |s| == 0 then None
    else if s[0] == '-' then
      if 2 <= |s| && AllDigits(s[1..]) then Some(-(ParseDigits(s[1..]) as int)) else None
    else if AllDigits(s) then Some(ParseDigits(s))
    else None
  }

  lemma {:induction false} DigitsRoundTrip(n: nat)
    ensures ParseDigits(NatToDigits(n)) == n
    decreases n
  {
    if n >= 10 {
      var prefix := NatToDigits(n / 10);
      var s := NatToDigits(n);
      assert s == prefix + [DigitChar(n % 10)];
      assert s[..|s| - 1] == prefix;
      DigitsRoundTrip(n / 10);
    }
  }

  /** The receiver reads back exactly the integer that was rendered. */
  lemma DecimalRoundTrip(n: int)
    ensures ParseDecimal(IntToDecimal(n)) == Some(n)
  {
    if n < 0 {
      var s := IntToDecimal(n);
      assert s[1..] == NatToDigits(-n);
      DigitsRoundTrip(-n);
    } else {
      DigitsRoundTrip(n);
    }
  }

  /** Distinct targets are rendered as distinct texts. */
  lemma DecimalInjective(m: int, n: int)
    requires IntToDecimal(m) == IntToDecimal(n)
    ensures m == n
  {
    DecimalRoundTrip(m);
    DecimalRoundTrip(n);
  }
}
