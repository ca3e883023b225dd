/**
 * The few pieces of the PHP runtime that the plugin leans on: how an option
 * value (always a string) is read as a boolean, and how an integer is turned
 * into text when it is concatenated with `.`.
 */
module Php {

  /**
   * A string is false in a PHP boolean context exactly when it is "" or "0":
   * the empty string is false, a single character is true unless it is the
   * digit zero, and every longer string ("00", "0.0", " ") is true.
   */
  predicate Truthy(s: string)
    ensures |s| == 0 ==> !Truthy(s)
    ensures |s| == 1 ==> (Truthy(s) <==> s[0] != '0')
    ensures |s| >= 2 ==> Truthy(s)
  {
    s != "" && s != "0"
  }

  predicate IsDigit(c: char) {
    '0' <= c <= '9'
  }

  predicate AllDigits(s: string) {
    forall i :: 0 <= i < |s| ==> IsDigit(s[i])
  }

  function DigitChar(d: nat): (c: char)
    requires d < 10
    ensures IsDigit(c) && c as int - '0' as int == d
  {
    ('0' as int + d) as char
  }

  /**
   * The decimal text of a non-negative integer, as PHP produces it when an
   * int (or an integral float such as the result of `round`) is concatenated
   * into a string: at least one digit and no leading zero.
   */
  function NatToString(n: nat): (r: string)
    ensures |r| >= 1 && AllDigits(r)
    ensures |r| > 1 ==> r[0] != '0'
    decreases n
  {
    if n < 10 then [DigitChar(n)] else NatToString(n / 10) + [DigitChar(n % 10)]
  }

  /** The number a string of decimal digits denotes: the reading of NatToString. */
  function DecimalValue(s: string): nat
    requires AllDigits(s)
  {
    if s == [] then 0 else 10 * DecimalValue(s[..|s| - 1]) + (s[|s| - 1] as int - '0' as int)
  }

  /** Reading back the printed number gives the number. */
  lemma {:induction false} DecimalRoundTrip(n: nat)
    ensures DecimalValue(NatToString(n)) == n
  {
    if n >= 10 {
      var s := NatToString(n);
      DecimalRoundTrip(n / 10);
      assert s[..|s| - 1] == NatToString(n / 10);
    }
  }

  /** Distinct counts are printed as distinct texts. */
  lemma NatToStringInjective(a: nat, b: nat)
    requires NatToString(a) == NatToString(b)
    ensures a == b
  {
    DecimalRoundTrip(a);
    DecimalRoundTrip(b);
  }
}
