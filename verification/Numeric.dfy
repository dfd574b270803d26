/** The i;ascii-numeric value of a string, section 9.1 of RFC 4790 (interp/test_string.go, interp/test_body.go). */
module Numeric {
  import opened Wrappers
  import opened Decimal
  import opened Sequences

  const MAX_UINT64: nat := 0xFFFF_FFFF_FFFF_FFFF

  function RunLength(isDigit: char -> bool, s: string): (n: nat)
    ensures n <= |s| && (forall i :: 0 <= i < n ==> isDigit(s[i])) && (n < |s| ==> !isDigit(s[n]))
  {
    if s != "" && isDigit(s[0]) then 1 + RunLength(isDigit, s[1..]) else 0
  }

  predicate Fits(s: string) {
    AllDigits(s) && Value(s) <= MAX_UINT64
  }

  /**
   * The number at the front of s; none when it is not ASCII or does not fit 64 bits.
   * isDigit stands for unicode.IsDigit, which knows digits beyond ASCII.
   */
  function NumericPrefix(isDigit: char -> bool, s: string): Option<nat> {
    var run := s[..RunLength(isDigit, s)];
    if run != "" && Fits(run) then Some(Value(run)) else None
  }

  lemma {:induction false} ValueSnoc(s: string, c: char)
    requires AllDigits(s) && IsDigit(c)
    ensures AllDigits(s + [c]) && Value(s + [c]) == 10 * Value(s) + DigitValue(c)
  {
    assert (s + [c])[..|s|] == s;
  }

  lemma UnfitExtends(s: string, c: char)
    requires !Fits(s)
    ensures !Fits(s + [c])
  {
    if AllDigits(s + [c]) {
      assert forall i :: 0 <= i < |s| ==> s[i] == (s + [c])[i];
      assert (s + [c])[|s|] == c;
      ValueSnoc(s, c);
    }
  }

  /** The overflow test is exact. */
  lemma {:induction false} OverflowTest(s: string, c: char)
    requires Fits(s) && IsDigit(c)
    ensures Fits(s + [c]) <==> Value(s) <= (MAX_UINT64 - DigitValue(c)) / 10
    ensures Fits(s + [c]) ==> Value(s + [c]) == Value(s) * 10 + DigitValue(c)
  {
    ValueSnoc(s, c);
  }

  lemma NonAsciiUnfit(s: string, c: char)
    requires !IsDigit(c)
    ensures !Fits(s + [c])
  {
    assert (s + [c])[|s|] == c;
  }

  lemma {:induction false} RunLengthAt(isDigit: char -> bool, s: string, n: nat)
    requires n <= |s| && (forall i :: 0 <= i < n ==> isDigit(s[i])) && (n < |s| ==> !isDigit(s[n]))
    ensures RunLength(isDigit, s) == n
  {
    if n > 0 {
      RunLengthAt(isDigit, s[1..], n - 1);
    }
  }

  /** strconv.ParseUint in base 10: no signs, no separators, 64 bits. */
  function ParseUint(s: string): Option<nat> {
    if s != "" && Fits(s) then Some(Value(s)) else None
  }

  /** numericValue: cut the digits off, then parse them. */
  method NumericValue(isDigit: char -> bool, s: string) returns (r: Option<nat>)
    ensures r == NumericPrefix(isDigit, s)
  {
    if |s| == 0 {
      return None;
    }
    if !isDigit(s[0]) {
      return None;
    }
    var sl := "";
    var i := 0;
    while i < |s|
      invariant 0 <= i <= |s| && sl == ""
      invariant forall j :: 0 <= j < i ==> isDigit(s[j])
    {
      if !isDigit(s[i]) {
        sl := s[..i];
        break;
      }
      i := i + 1;
    }
    RunLengthAt(isDigit, s, i);
    if sl == "" {
      sl := s;
    }
    assert s[..|s|] == s;
    r := ParseUint(sl);
  }

  /** What the reader knows after the digits p. */
  ghost predicate Reads(p: string, value: nat, overflow: bool) {
    if overflow then !Fits(p) else Fits(p) && value == Value(p)
  }

  /** One more digit c. */
  method Accumulate(ghost p: string, c: char, value: nat, overflow: bool) returns (value': nat, overflow': bool)
    requires Reads(p, value, overflow)
    ensures Reads(p + [c], value', overflow')
  {
    value', overflow' := value, overflow;
    if c < '0' || c > '9' {
      NonAsciiUnfit(p, c);
      overflow' := true;
    } else if overflow {
      UnfitExtends(p, c);
    } else {
      var digit := DigitValue(c);
      OverflowTest(p, c);
      if value > (MAX_UINT64 - digit) / 10 {
        overflow' := true;
      } else {
        value' := value * 10 + digit;
      }
    }
  }

  /** numericValueReader: digit by digit with an overflow test that itself cannot overflow. */
  method NumericValueReader(isDigit: char -> bool, s: string) returns (r: Option<nat>)
    ensures r == NumericPrefix(isDigit, s)
  {
    if s == "" {
      return None;
    }
    if !isDigit(s[0]) {
      return None;
    }
    if s[0] < '0' || s[0] > '9' {
      FirstUnfit(isDigit, s);
      return None;
    }
    var value, overflow, i := DigitValue(s[0]), false, 1;
    FirstDigit(s);
    while i < |s|
      invariant 1 <= i <= |s|
      invariant forall j :: 0 <= j < i ==> isDigit(s[j])
      invariant Reads(s[..i], value, overflow)
    {
      if !isDigit(s[i]) {
        break;
      }
      assert s[..i + 1] == s[..i] + [s[i]];
      value, overflow := Accumulate(s[..i], s[i], value, overflow);
      i := i + 1;
    }
    RunLengthAt(isDigit, s, i);
    ghost var run := s[..i];
    assert Reads(run, value, overflow) && run != "";
    r := if overflow then None else Some(value);
  }

  lemma FirstDigit(s: string)
    requires s != "" && IsDigit(s[0])
    ensures Reads(s[..1], DigitValue(s[0]), false)
  {
    assert s[..1] == [] + [s[0]];
    ValueSnoc([], s[0]);
  }

  lemma FirstUnfit(isDigit: char -> bool, s: string)
    requires s != "" && isDigit(s[0]) && !IsDigit(s[0])
    ensures NumericPrefix(isDigit, s).None?
  {
    var run := s[..RunLength(isDigit, s)];
    assert run[0] == s[0];
  }

  // ----- which texts have which value -----

  function Zeros(n: nat): string {
    if n == 0 then "" else "0" + Zeros(n - 1)
  }

  lemma {:induction false} ZerosAre(n: nat)
    ensures AllDigits(Zeros(n)) && Value(Zeros(n)) == 0 && Zeros(n) + "0" == Zeros(n + 1)
  {
    if n > 0 {
      ZerosAre(n - 1);
      var s := Zeros(n);
      assert s == Zeros(n - 1) + "0";
      assert s[..|s| - 1] == Zeros(n - 1);
    }
  }

  lemma {:induction false} PaddedValue(z: nat, n: nat)
    ensures AllDigits(Zeros(z) + Numeral(n)) && Value(Zeros(z) + Numeral(n)) == n
    decreases n
  {
    var d := [DigitChar(n % 10)];
    ZerosAre(z);
    if n < 10 {
      ValueSnoc(Zeros(z), d[0]);
    } else {
      PaddedValue(z, n / 10);
      assert Zeros(z) + Numeral(n) == (Zeros(z) + Numeral(n / 10)) + d;
      ValueSnoc(Zeros(z) + Numeral(n / 10), d[0]);
    }
  }

  lemma {:induction false} PaddedSnoc(z: nat, v: nat, c: char)
    requires IsDigit(c)
    ensures var z' := if v == 0 then z + 1 else z;
            (Zeros(z) + Numeral(v)) + [c] == Zeros(z') + Numeral(10 * v + DigitValue(c))
  {
    if v == 0 {
      ZerosAre(z);
      assert Numeral(0) == "0" && Numeral(DigitValue(c)) == [c];
    } else {
      var n := 10 * v + DigitValue(c);
      assert n / 10 == v && n % 10 == DigitValue(c);
      Associate(Zeros(z), Numeral(v), [c]);
    }
  }

  lemma {:induction false} PaddedForm(ds: string) returns (z: nat)
    requires ds != "" && AllDigits(ds)
    ensures ds == Zeros(z) + Numeral(Value(ds))
    decreases |ds|
  {
    var front, c := ds[..|ds| - 1], ds[|ds| - 1];
    assert ds == front + [c];
    if front == "" {
      z := 0;
    } else {
      var z' := PaddedForm(front);
      z := if Value(front) == 0 then z' + 1 else z';
      PaddedSnoc(z', Value(front), c);
    }
  }

  /** The text is the number, perhaps after zeros, and does not go on with a digit. */
  predicate StartsWith(isDigit: char -> bool, s: string, n: nat, z: nat, rest: string) {
    s == Zeros(z) + Numeral(n) + rest && (rest == "" || !isDigit(rest[0]))
  }

  /** A text has a numeric value exactly when it starts with it and the number has 64 bits at most. */
  lemma NumericExactly(isDigit: char -> bool, s: string, n: nat)
    requires forall c :: '0' <= c <= '9' ==> isDigit(c)
    ensures NumericPrefix(isDigit, s) == Some(n)
       <==> n <= 18446744073709551615 && exists z, rest :: StartsWith(isDigit, s, n, z, rest)
  {
    var k := RunLength(isDigit, s);
    if NumericPrefix(isDigit, s) == Some(n) {
      var z := PaddedForm(s[..k]);
      assert s == s[..k] + s[k..];
      assert StartsWith(isDigit, s, n, z, s[k..]);
    }
    if z, rest :| n <= 18446744073709551615 && StartsWith(isDigit, s, n, z, rest) {
      var run := Zeros(z) + Numeral(n);
      PaddedValue(z, n);
      NumeralRoundTrip(n);
      RunLengthAt(isDigit, s, |run|);
      Parted(run, rest);
    }
  }
}
