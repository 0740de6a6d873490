/** Integers as decimal text, the form `stringifyNumber` prints and ids travel in. */
module Decimal {
  const DIGITS := "0123456789"

  predicate IsDigit(c: char) { '0' <= c <= '9' }

  function Digits(n: nat): (r: string)
    ensures r != []
    ensures forall c <- r :: IsDigit(c)
  {
    if n < 10 then [DIGITS[n]] else Digits(n / 10) + [DIGITS[n % 10]]
  }

  function DecimalText(n: int): string {
    if n < 0 then "-" + Digits(-n) else Digits(n)
  }

  /** The number a digit string denotes. */
  function ValueOf(ds: string): int {
    if ds == [] then 0 else ValueOf(ds[..|ds| - 1]) * 10 + (ds[|ds| - 1] as int - '0' as int)
  }

  lemma {:induction false} ValueOfDigits(n: nat)
    ensures ValueOf(Digits(n)) == n
  {
    if n >= 10 {
      ValueOfDigits(n / 10);
      assert Digits(n)[..|Digits(n)| - 1] == Digits(n / 10);
      assert DIGITS[n % 10] as int - '0' as int == n % 10;
    } else {
      assert DIGITS[n] as int - '0' as int == n;
    }
  }

  lemma DigitsInjective(m: nat, n: nat)
    requires Digits(m) == Digits(n)
    ensures m == n
  {
    ValueOfDigits(m);
    ValueOfDigits(n);
  }
}
