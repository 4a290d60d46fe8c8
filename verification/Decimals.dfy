/** Decimal numbers as text: printing, reading, and their agreement. */
module Decimals {
  predicate AllDigits(s: string) {
    forall i :: 0 <= i < |s| ==> '0' <= s[i] <= '9'
  }

  function DecimalValue(s: string): nat
    requires AllDigits(s)
  {
    if s == "" then 0 else DecimalValue(s[..|s| - 1]) * 10 + (s[|s| - 1] as int - '0' as int)
  }

  /** `std::to_string`. */
  function DecimalText(n: int): (s: string)
    ensures s != "" && forall i :: 0 <= i < |s| ==> s[i] == '-' || '0' <= s[i] <= '9'
    decreases n < 0, if n < 0 then -n else n
  {
    if n < 0 then "-" + DecimalText(-n)
    else if n < 10 then [Digit(n)]
    else DecimalText(n / 10) + [Digit(n % 10)]
  }

  function Digit(n: nat): (c: char)
    requires n < 10
    ensures '0' <= c <= '9' && c as int - '0' as int == n
  {
    ('0' as int + n) as char
  }

  /** Printing a number and reading the digits back gives the number. */
  lemma {:induction false} DecimalRoundTrip(n: nat)
    ensures AllDigits(DecimalText(n)) && DecimalValue(DecimalText(n)) == n
    decreases n
  {
    if n >= 10 {
      DecimalRoundTrip(n / 10);
      var front, s := DecimalText(n / 10), DecimalText(n);
      assert s[..|s| - 1] == front;
    } else {
      assert DecimalText(n)[..0] == "";
    }
  }

  /** Decimal digits worth `n`, behind a minus sign if it is negative. */
  ghost predicate IsNumeral(s: string, n: int)
    decreases n < 0
  {
    if n < 0 then s != "" && s[0] == '-' && IsNumeral(s[1..], -n)
    else s != "" && AllDigits(s) && DecimalValue(s) == n
  }

  /** What is printed for a number is a numeral worth it. */
  lemma NumeralText(n: int)
    ensures IsNumeral(DecimalText(n), n)
  {
    if n < 0 {
      DecimalRoundTrip(-n);
      assert DecimalText(n) == "-" + DecimalText(-n);
      hide DecimalText, AllDigits, DecimalValue;
      assert DecimalText(n)[1..] == DecimalText(-n);
    } else {
      hide DecimalText, AllDigits, DecimalValue;
      DecimalRoundTrip(n);
    }
  }

  lemma DecimalInjective(m: nat, n: nat)
    requires DecimalText(m) == DecimalText(n)
    ensures m == n
  {
    DecimalRoundTrip(m);
    DecimalRoundTrip(n);
  }

  /** A longer digit string is worth at least as much. */
  lemma {:induction false} DecimalPrefix(s: string, k: nat)
    requires AllDigits(s) && k <= |s|
    ensures DecimalValue(s[..k]) <= DecimalValue(s)
    decreases |s|
  {
    if k < |s| {
      assert s[..|s| - 1][..k] == s[..k];
      DecimalPrefix(s[..|s| - 1], k);
    } else {
      assert s[..k] == s;
    }
  }
}
