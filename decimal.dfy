/**
 * Decimal text of integers, as produced by Swift string interpolation
 * ("\(n)") and read back by `Int(String)`.
 */
module Decimal {
  import opened Wrappers

  /** The largest value of Swift's 64-bit `Int`; the smallest is -(IntMax + 1). */
  const IntMax := 0x7FFF_FFFF_FFFF_FFFF

  predicate IsDigit(c: char) { '0' <= c <= '9' }

  function DigitChar(d: nat): (c: char)
    requires d < 10
    ensures IsDigit(c) && c as int - '0' as int == d
  {
    ['0', '1', '2', '3', '4', '5', '6', '7', '8', '9'][d]
  }

  /** Interpolation of a non-negative Int: no sign, no leading zeros. */
  function NatToString(n: nat): (s: string)
    decreases n
  {
    if n < 10 then [DigitChar(n)] else NatToString(n / 10) + [DigitChar(n % 10)]
  }

  /** The value of a non-empty run of decimal digits. */
  predicate AllDigits(s: string) { forall i :: 0 <= i < |s| ==> IsDigit(s[i]) }

  function DigitValue(c: char): nat
    requires IsDigit(c)
  {
    c as int - '0' as int
  }

  /** The value of a run of decimal digits. */
  function DigitsValue(s: string): nat
    requires AllDigits(s)
  {
    if |s| == 0 then 0 else DigitsValue(s[..|s| - 1]) * 10 + DigitValue(s[|s| - 1])
  }

  /**
   * `Int(String)`: an optional sign followed by at least one digit, nothing
   * else, and a value that fits in a 64-bit `Int`.
   */
  function ParseInt(s: string): (r: Option<int>)
    ensures r.Some? ==> |s| > 0 && -(IntMax + 1) <= r.value <= IntMax
  {
    if |s| > 0 && (s[0] == '-' || s[0] == '+') then
      if |s| > 1 && AllDigits(s[1..]) then
        var v := if s[0] == '-' then 0 - DigitsValue(s[1..]) else DigitsValue(s[1..]);
        if -(IntMax + 1) <= v <= IntMax then Some(v) else None
      else None
    else if |s| > 0 && AllDigits(s) && DigitsValue(s) <= IntMax then Some(DigitsValue(s))
    else None
  }

  lemma {:induction false} NatToStringDigits(n: nat)
    ensures |NatToString(n)| > 0 && AllDigits(NatToString(n))
    ensures DigitsValue(NatToString(n)) == n
    decreases n
  {
    if n >= 10 {
      NatToStringDigits(n / 10);
      var s := NatToString(n);
      assert s[..|s| - 1] == NatToString(n / 10);
    }
  }

  /** Reading back what interpolation wrote gives the number again, for every number an `Int` holds. */
  lemma NatToStringRoundTrip(n: nat)
    requires n <= IntMax
    ensures ParseInt(NatToString(n)) == Some(n)
  {
    NatToStringDigits(n);
  }

  /** Different numbers are written differently. */
  lemma NatToStringInjective(m: nat, n: nat)
    requires NatToString(m) == NatToString(n)
    ensures m == n
  {
    NatToStringDigits(m);
    NatToStringDigits(n);
  }

  /** A run of digits too large for an `Int` is not read as a number. */
  lemma ParseIntOverflow(n: nat)
    requires n > IntMax
    ensures ParseInt(NatToString(n)) == None
  {
    NatToStringDigits(n);
  }

  lemma NatToStringHasNoComma(n: nat)
    ensures ',' !in NatToString(n)
  {
    NatToStringDigits(n);
  }
}
