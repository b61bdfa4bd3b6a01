/**
 * Decimal text: the digit characters, the value of a string of them, and
 * the shortest decimal string of a natural number, as `to_string` writes it.
 */
module Decimal {
  predicate IsDigitChar(c: char) {
    '0' <= c <= '9'
  }

  predicate AllDigits(s: string) {
    forall i :: 0 <= i < |s| ==> IsDigitChar(s[i])
  }

  function CharValue(c: char): (d: nat)
    requires IsDigitChar(c)
    ensures d <= 9
  {
    c as int - '0' as int
  }

  function DigitChar(d: nat): (c: char)
    requires d <= 9
    ensures IsDigitChar(c) && CharValue(c) == d
  {
    ('0' as int + d) as char
  }

  /** The value of a string of digits, most significant first; 0 for the empty string. */
  function StringValue(s: string): nat
    requires AllDigits(s)
  {
    if s == [] then 0 else 10 * StringValue(s[..|s| - 1]) + CharValue(s[|s| - 1])
  }

  /** `n.to_string()` for a natural number: no sign, no leading zeros. */
  function DecimalString(n: nat): (s: string)
    ensures |s| >= 1 && AllDigits(s)
    ensures n > 0 ==> s[0] != '0'
    decreases n
  {
    if n < 10 then [DigitChar(n)] else DecimalString(n / 10) + [DigitChar(n % 10)]
  }

  /** Reading `DecimalString(n)` back gives `n`. */
  lemma {:induction false} DecimalStringValue(n: nat)
    ensures StringValue(DecimalString(n)) == n
    decreases n
  {
    var s := DecimalString(n);
    if n >= 10 {
      DecimalStringValue(n / 10);
      assert s[..|s| - 1] == DecimalString(n / 10);
    }
  }

  /** Equal strings only for equal numbers. */
  lemma DecimalStringInjective(m: nat, n: nat)
    requires DecimalString(m) == DecimalString(n)
    ensures m == n
  {
    DecimalStringValue(m);
    DecimalStringValue(n);
  }
}
