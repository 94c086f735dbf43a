/** Decimal rendering of naturals, as a number is printed in names and addresses. */
module Decimal {

  const DIGITS := "0123456789"

  function Digits(n: nat): string {
    if n < 10 then [DIGITS[n]] else Digits(n / 10) + [DIGITS[n % 10]]
  }

  function DigitValue(c: char): int { c as int - '0' as int }

  function Value(s: string): int {
    if s == [] then 0 else Value(s[..|s| - 1]) * 10 + DigitValue(s[|s| - 1])
  }

  predicate IsDigit(c: char) { '0' <= c <= '9' }

  lemma {:induction false} ValueOfDigits(n: nat)
    ensures Value(Digits(n)) == n
    ensures forall c :: c in Digits(n) ==> IsDigit(c)
    ensures |Digits(n)| > 0
  {
    var d := DIGITS[n % 10];
    assert DigitValue(d) == n % 10 && IsDigit(d);
    if n < 10 {
      assert Digits(n)[..0] == [];
    } else {
      ValueOfDigits(n / 10);
      var s := Digits(n / 10) + [d];
      assert s[..|s| - 1] == Digits(n / 10);
    }
  }
}
