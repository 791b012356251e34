/** Decimal numerals, as str and int render and read them. */
module Decimal {

  predicate IsDigit(c: char) {
    '0' <= c <= '9'
  }

  predicate AllDigits(s: string) {
    forall i :: 0 <= i < |s| ==> IsDigit(s[i])
  }

  function Digit(d: nat): char
    requires d < 10
  {
    '0' + d as char
  }

  function DigitValue(c: char): nat
    requires IsDigit(c)
  {
    (c - '0') as nat
  }

  function Numeral(n: nat): string {
    if n < 10 then [Digit(n)] else Numeral(n / 10) + [Digit(n % 10)]
  }

  function Value(s: string): nat
    requires AllDigits(s)
  {
    if s == [] then 0 else Value(s[..|s| - 1]) * 10 + DigitValue(s[|s| - 1])
  }

  lemma {:induction false} NumeralValue(n: nat)
    ensures Numeral(n) != [] && AllDigits(Numeral(n)) && Value(Numeral(n)) == n
    ensures n > 0 ==> Numeral(n)[0] != '0'
    ensures n == 0 ==> Numeral(n) == "0"
  {
    if n >= 10 {
      NumeralValue(n / 10);
      assert Numeral(n)[..|Numeral(n)| - 1] == Numeral(n / 10);
    } else {
      assert Numeral(n)[..0] == [];
    }
  }
}
