/** Integers written in decimal. */
module Decimal {
  predicate IsDigit(c: char) { '0' <= c <= '9' }

  predicate AllDigits(s: string) { s != [] && forall i :: 0 <= i < |s| ==> IsDigit(s[i]) }

  function Digit(n: nat): (c: char)
    requires n < 10
    ensures IsDigit(c) && c as int - '0' as int == n
  {
    ('0' as int + n) as char
  }

  function Digits(n: nat): string {
    if n < 10 then [Digit(n)] else Digits(n / 10) + [Digit(n % 10)]
  }

  function Format(n: int): string {
    if n < 0 then "-" + Digits(-n) else Digits(n)
  }

  function ValueOf(s: string): nat
    requires forall i :: 0 <= i < |s| ==> IsDigit(s[i])
  {
    if s == [] then 0 else assert IsDigit(s[|s| - 1]); 10 * ValueOf(s[..|s| - 1]) + (s[|s| - 1] as int - '0' as int)
  }

  /** Reading back what was written. */
  lemma {:induction false} ReadsBack(n: nat)
    ensures AllDigits(Digits(n)) && ValueOf(Digits(n)) == n
  {
    if n < 10 {
      assert Digits(n)[..0] == [];
      assert ValueOf([]) == 0;
    } else {
      ReadsBack(n / 10);
      var s := Digits(n);
      assert s[..|s| - 1] == Digits(n / 10);
    }
  }

  /** A negative number is no sequence of digits. */
  lemma {:induction false} NegativeIsNoDigits(n: int)
    requires n < 0
    ensures !AllDigits(Format(n))
  {
    assert Format(n)[0] == '-';
  }
}
