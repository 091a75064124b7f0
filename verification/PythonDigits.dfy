/**
 The decimal digits of Python: what `\d` matches in text and `int` reads, the decimal digits of Unicode 15.0.
 Each script has its ten digits in a row, from a zero on.
 */
module PythonDigits {
  import opened Decimals

  // k stands in the row of that zero.
  predicate Row(k: int, zero: int) {
    zero <= k < zero + 10
  }

  // The zero whose row k stands in, or -1: in the range below U+1000, in the rest of the basic plane, above it.
  function ZeroLow(k: int): (z: int)
    ensures z == -1 || Row(k, z)
  {
    if Row(k, 0x660) then 0x660 else if Row(k, 0x6F0) then 0x6F0 else if Row(k, 0x7C0) then 0x7C0 else
    if Row(k, 0x966) then 0x966 else if Row(k, 0x9E6) then 0x9E6 else if Row(k, 0xA66) then 0xA66 else
    if Row(k, 0xAE6) then 0xAE6 else if Row(k, 0xB66) then 0xB66 else if Row(k, 0xBE6) then 0xBE6 else
    if Row(k, 0xC66) then 0xC66 else if Row(k, 0xCE6) then 0xCE6 else if Row(k, 0xD66) then 0xD66 else
    if Row(k, 0xDE6) then 0xDE6 else if Row(k, 0xE50) then 0xE50 else if Row(k, 0xED0) then 0xED0 else
    if Row(k, 0xF20) then 0xF20 else -1
  }

  function ZeroMiddle(k: int): (z: int)
    ensures z == -1 || Row(k, z)
  {
    if Row(k, 0x1040) then 0x1040 else if Row(k, 0x1090) then 0x1090 else if Row(k, 0x17E0) then 0x17E0 else
    if Row(k, 0x1810) then 0x1810 else if Row(k, 0x1946) then 0x1946 else if Row(k, 0x19D0) then 0x19D0 else
    if Row(k, 0x1A80) then 0x1A80 else if Row(k, 0x1A90) then 0x1A90 else if Row(k, 0x1B50) then 0x1B50 else
    if Row(k, 0x1BB0) then 0x1BB0 else if Row(k, 0x1C40) then 0x1C40 else if Row(k, 0x1C50) then 0x1C50 else
    if Row(k, 0xA620) then 0xA620 else if Row(k, 0xA8D0) then 0xA8D0 else if Row(k, 0xA900) then 0xA900 else
    if Row(k, 0xA9D0) then 0xA9D0 else if Row(k, 0xA9F0) then 0xA9F0 else if Row(k, 0xAA50) then 0xAA50 else
    if Row(k, 0xABF0) then 0xABF0 else if Row(k, 0xFF10) then 0xFF10 else -1
  }

  function ZeroHigh(k: int): (z: int)
    ensures z == -1 || Row(k, z)
  {
    if Row(k, 0x104A0) then 0x104A0 else if Row(k, 0x10D30) then 0x10D30 else if Row(k, 0x11066) then 0x11066 else
    if Row(k, 0x110F0) then 0x110F0 else if Row(k, 0x11136) then 0x11136 else if Row(k, 0x111D0) then 0x111D0 else
    if Row(k, 0x112F0) then 0x112F0 else if Row(k, 0x11450) then 0x11450 else if Row(k, 0x114D0) then 0x114D0 else
    if Row(k, 0x11650) then 0x11650 else if Row(k, 0x116C0) then 0x116C0 else if Row(k, 0x11730) then 0x11730 else
    if Row(k, 0x118E0) then 0x118E0 else if Row(k, 0x11950) then 0x11950 else if Row(k, 0x11C50) then 0x11C50 else
    if Row(k, 0x11D50) then 0x11D50 else if Row(k, 0x11DA0) then 0x11DA0 else if Row(k, 0x11F50) then 0x11F50 else
    if Row(k, 0x16A60) then 0x16A60 else if Row(k, 0x16AC0) then 0x16AC0 else if Row(k, 0x16B50) then 0x16B50 else
    if Row(k, 0x1D7CE) then 0x1D7CE else if Row(k, 0x1D7D8) then 0x1D7D8 else if Row(k, 0x1D7E2) then 0x1D7E2 else
    if Row(k, 0x1D7EC) then 0x1D7EC else if Row(k, 0x1D7F6) then 0x1D7F6 else if Row(k, 0x1E140) then 0x1E140 else
    if Row(k, 0x1E2F0) then 0x1E2F0 else if Row(k, 0x1E4F0) then 0x1E4F0 else if Row(k, 0x1E950) then 0x1E950 else
    if Row(k, 0x1FBF0) then 0x1FBF0 else -1
  }

  function ZeroOf(c: char): (z: int)
    ensures z == -1 || Row(c as int, z)
  {
    var k := c as int;
    if c < '0' then -1
    else if Row(k, 0x30) then 0x30
    else if k < 0x1000 then ZeroLow(k)
    else if k < 0x10000 then ZeroMiddle(k)
    else ZeroHigh(k)
  }

  predicate IsDecimal(c: char) {
    ZeroOf(c) != -1
  }

  function DigitValue(c: char): (d: nat)
    requires IsDecimal(c)
    ensures d < 10
  {
    c as int - ZeroOf(c)
  }

  // int() of a run of decimal digits, which may be of several scripts.
  function Number(digits: string): nat
    requires forall c | c in digits :: IsDecimal(c)
  {
    if digits == "" then 0
    else
      var last := digits[|digits| - 1];
      assert IsDecimal(last);
      10 * Number(digits[..|digits| - 1]) + DigitValue(last)
  }

  // The digits git prints are among them, with their own value; blanks and commas are not.
  lemma AsciiDigits(c: char)
    ensures IsDigit(c) ==> IsDecimal(c) && DigitValue(c) == c as int - '0' as int
    ensures c < '0' ==> !IsDecimal(c)
  {
  }

  lemma {:induction false} AsciiNumber(digits: string)
    requires forall c | c in digits :: IsDigit(c)
    ensures forall c | c in digits :: IsDecimal(c)
    ensures Number(digits) == Value(digits)
  {
    hide IsDecimal, DigitValue;
    forall c | c in digits ensures IsDecimal(c) { AsciiDigits(c); }
    if digits != "" {
      AsciiDigits(digits[|digits| - 1]);
      AsciiNumber(digits[..|digits| - 1]);
    }
  }
}
