/** Decimal numerals: printing a natural number, and reading one off the front of a string. */
module Decimal {
  predicate IsDigit(c: char) {
    '0' <= c <= '9'
  }

  predicate AllDigits(s: string) {
    forall i | 0 <= i < |s| :: IsDigit(s[i])
  }

  function DigitOf(n: nat): (c: char)
    requires n < 10
    ensures IsDigit(c) && ValueOf(c) == n
  {
    "0123456789"[n]
  }

  function ValueOf(c: char): nat
    requires IsDigit(c)
  {
    c as int - '0' as int
  }

  /** `String(n)` */
  function Print(n: nat): string {
    if n < 10 then [DigitOf(n)] else Print(n / 10) + [DigitOf(n % 10)]
  }

  /** Reads digits for as long as there are any, continuing from `value`. */
  function Read(s: string, value: nat): (nat, string) {
    if s != [] && IsDigit(s[0]) then Read(s[1..], value * 10 + ValueOf(s[0])) else (value, s)
  }

  lemma {:induction false} ReadPrinted(n: nat, rest: string)
    ensures Read(Print(n) + rest, 0) == Read(rest, n)
  {
    if n < 10 {
      assert ([DigitOf(n)] + rest)[1..] == rest;
    } else {
      var last := [DigitOf(n % 10)];
      ReadPrinted(n / 10, last + rest);
      assert Print(n) + rest == Print(n / 10) + (last + rest);
      assert (last + rest)[1..] == rest;
    }
  }
}
