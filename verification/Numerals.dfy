/** Decimal numerals: how an integer is written, and what digits are worth. */
module Numerals {
  const DECIMALS: string := "0123456789"

  function Digits(n: nat): string {
    if n < 10 then [DECIMALS[n]] else Digits(n / 10) + [DECIMALS[n % 10]]
  }

  function Decimal(n: int): string {
    if n < 0 then "-" + Digits(-n) else Digits(n)
  }

  predicate IsDigit(c: char) {
    '0' <= c <= '9'
  }

  predicate EndsNumber(rest: string) {
    rest == [] || !IsDigit(rest[0])
  }

  function DigitRun(t: string): (k: nat)
    ensures k <= |t|
  {
    if t == [] || !IsDigit(t[0]) then 0 else 1 + DigitRun(t[1..])
  }

  function Parsed(digits: string): int {
    if digits == [] then 0 else Parsed(digits[..|digits| - 1]) * 10 + (digits[|digits| - 1] as int - '0' as int)
  }

  lemma DecimalDigit(d: nat)
    requires d < 10
    ensures IsDigit(DECIMALS[d]) && DECIMALS[d] as int - '0' as int == d
  {
  }

  lemma {:induction false} DigitsRead(n: nat)
    ensures Digits(n) != [] && Parsed(Digits(n)) == n
    ensures forall c :: c in Digits(n) ==> IsDigit(c)
  {
    if n >= 10 {
      DigitsRead(n / 10);
      assert Digits(n)[..|Digits(n)| - 1] == Digits(n / 10);
    }
    DecimalDigit(n % 10);
  }

  lemma {:induction false} DigitRunOf(digits: string, rest: string)
    requires forall c :: c in digits ==> IsDigit(c)
    requires rest == [] || !IsDigit(rest[0])
    ensures DigitRun(digits + rest) == |digits|
    decreases |digits|
  {
    if digits == [] {
      assert digits + rest == rest;
    } else {
      assert digits[0] in digits;
      assert (digits + rest)[1..] == digits[1..] + rest;
      DigitRunOf(digits[1..], rest);
    }
  }
}
