/** Decimal numerals, as fmt prints them with "%d" and strconv reads them. */
module Decimal {

  const MAX_INT: int := 0x7FFF_FFFF_FFFF_FFFF

  predicate IsDigit(c: char) {
    '0' <= c <= '9'
  }

  predicate AllDigits(s: string) {
    forall i :: 0 <= i < |s| ==> IsDigit(s[i])
  }

  function DigitChar(d: nat): char
    requires d < 10
  {
    '0' + d as char
  }

  function DigitValue(c: char): nat
    requires IsDigit(c)
  {
    c as int - '0' as int
  }

  /** The numeral of a natural number, without leading zeros. */
  function Numeral(n: nat): string {
    if n < 10 then [DigitChar(n)] else Numeral(n / 10) + [DigitChar(n % 10)]
  }

  /** What fmt writes for "%d". */
  function FormatInt(n: int): string {
    if n < 0 then "-" + Numeral(-n) else Numeral(n)
  }

  /** The number a run of digits denotes. */
  function Value(s: string): nat
    requires AllDigits(s)
  {
    if s == "" then 0 else Value(s[..|s| - 1]) * 10 + DigitValue(s[|s| - 1])
  }

  /** Reading a numeral back gives the number it was written for. */
  lemma {:induction false} NumeralRoundTrip(n: nat)
    ensures Numeral(n) != "" && AllDigits(Numeral(n)) && Value(Numeral(n)) == n
  {
    var s := Numeral(n);
    if n < 10 {
      assert s[..0] == "";
      assert Value(s) == Value(s[..0]) * 10 + DigitValue(s[0]);
    } else {
      NumeralRoundTrip(n / 10);
      assert s[..|s| - 1] == Numeral(n / 10);
    }
  }

  /** The length of the digits a text starts with. */
  function DigitLength(s: string): (n: nat)
    ensures n <= |s| && AllDigits(s[..n])
    ensures n < |s| ==> !IsDigit(s[n])
  {
    if s != "" && IsDigit(s[0]) then 1 + DigitLength(s[1..]) else 0
  }

  lemma {:induction false} DigitLengthOf(digits: string, rest: string)
    requires AllDigits(digits) && (rest != "" ==> !IsDigit(rest[0]))
    ensures DigitLength(digits + rest) == |digits|
  {
    if digits == "" {
      assert digits + rest == rest;
    } else {
      DigitLengthOf(digits[1..], rest);
      assert (digits + rest)[1..] == digits[1..] + rest;
    }
  }

  lemma {:induction false} DigitsEndAt(s: string, k: nat)
    requires k <= DigitLength(s) && k < |s| && !IsDigit(s[k])
    ensures DigitLength(s) == k
  {
    var n := DigitLength(s);
    assert forall i :: 0 <= i < n ==> s[..n][i] == s[i];
  }
}
