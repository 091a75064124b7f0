/**
 Decimal numerals: what `%d` prints, and the number a run of digits denotes.
 */
module Decimals {

  predicate IsDigit(c: char) {
    '0' <= c <= '9'
  }

  function Value(digits: string): nat
    requires forall c | c in digits :: IsDigit(c)
  {
    if digits == "" then 0
    else
      var last := digits[|digits| - 1];
      assert IsDigit(last);
      10 * Value(digits[..|digits| - 1]) + (last as int - '0' as int)
  }

  function Digit(n: nat): char
    requires n < 10
  {
    '0' + (n as char)
  }

  function Decimal(n: nat): (s: string)
    ensures s != "" && forall c | c in s :: IsDigit(c)
  {
    if n < 10 then [Digit(n)] else Decimal(n / 10) + [Digit(n % 10)]
  }

  lemma {:induction false} DecimalValue(n: nat)
    ensures Value(Decimal(n)) == n
  {
    if n < 10 {
      assert Decimal(n)[..0] == "";
    } else {
      var s := Decimal(n);
      assert s[..|s| - 1] == Decimal(n / 10);
      DecimalValue(n / 10);
    }
  }

  function IntText(n: int): (s: string)
    ensures s != "" && forall c | c in s :: IsDigit(c) || c == '-'
  {
    if n < 0 then "-" + Decimal(-n) else Decimal(n)
  }

  function IntOf(s: string): int
    requires s != "" && forall c | c in s :: IsDigit(c) || c == '-'
  {
    if s[0] == '-' && (forall c | c in s[1..] :: IsDigit(c)) then 0 - Value(s[1..])
    else if forall c | c in s :: IsDigit(c) then Value(s)
    else 0
  }

  lemma IntTextDenotes(n: int)
    ensures IntOf(IntText(n)) == n
  {
    DecimalValue(if n < 0 then -n else n);
    if n < 0 {
      assert IntText(n)[1..] == Decimal(-n);
    } else {
      assert Decimal(n)[0] in Decimal(n);
    }
  }
}
