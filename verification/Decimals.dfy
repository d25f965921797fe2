/** Natural numbers in decimal digits, and back. */
module Decimals {
  predicate IsDigit(c: char) {
    '0' <= c <= '9'
  }

  predicate AllDigits(s: string) {
    forall i :: 0 <= i < |s| ==> IsDigit(s[i])
  }

  function ValueOf(c: char): nat
    requires IsDigit(c)
  {
    c as int - '0' as int
  }

  function Digit(n: nat): (c: char)
    requires n < 10
    ensures IsDigit(c) && ValueOf(c) == n
  {
    ('0' as int + n) as char
  }

  function Digits(n: nat): string {
    if n < 10 then [Digit(n)] else Digits(n / 10) + [Digit(n % 10)]
  }

  function Value(s: string): nat
    requires AllDigits(s)
  {
    if s == "" then 0 else 10 * Value(s[..|s| - 1]) + ValueOf(s[|s| - 1])
  }

  /** Digits written for a number are digits, at least one, and read back as the number. */
  lemma {:induction false} DigitsReadBack(n: nat)
    ensures |Digits(n)| > 0 && AllDigits(Digits(n)) && Value(Digits(n)) == n
  {
    if n < 10 {
      assert Digits(n)[..0] == "";
    } else {
      DigitsReadBack(n / 10);
      assert Digits(n)[..|Digits(n)| - 1] == Digits(n / 10);
    }
  }

  lemma ShortValues(s: string)
    requires AllDigits(s) && |s| <= 2
    ensures |s| == 1 ==> Value(s) == ValueOf(s[0])
    ensures |s| == 2 ==> Value(s) == 10 * ValueOf(s[0]) + ValueOf(s[1])
  {
    if |s| == 1 {
      assert s[..0] == "";
    } else if |s| == 2 {
      assert s[..1][..0] == "" && s[..1][0] == s[0];
    }
  }

  lemma DigitsInjective(m: nat, n: nat)
    requires Digits(m) == Digits(n)
    ensures m == n
  {
    DigitsReadBack(m);
    DigitsReadBack(n);
  }

  function Power(n: nat): nat {
    if n == 0 then 1 else 10 * Power(n - 1)
  }

  /** A number below a power of ten has no more digits than the power has zeros. */
  lemma {:induction false} DigitsAreFew(n: nat, count: nat)
    requires n < Power(count) && count > 0
    ensures |Digits(n)| <= count
  {
    if n >= 10 {
      DigitsAreFew(n / 10, count - 1);
    }
  }
}
