/** Modified Julian days (interp/date.go; section 4.2 of RFC 5260). */
module Julian {

  datatype Date = Date(year: int, month: int, day: int)

  /** modifiedJulianDay; from year 0 on no operand of a division is negative. */
  function ModifiedJulianDay(d: Date): int {
    var a := (14 - d.month) / 12;
    var y := d.year + 4800 - a;
    var m := d.month + 12 * a - 3;
    var jdn := d.day + (153 * m + 2) / 5 + 365 * y + y / 4 - y / 100 + y / 400 - 32045;
    jdn - 2400001
  }

  // ----- the Gregorian calendar -----

  predicate IsLeap(year: int) {
    year % 4 == 0 && (year % 100 != 0 || year % 400 == 0)
  }

  function DaysIn(year: int, month: int): int {
    if month == 2 then if IsLeap(year) then 29 else 28
    else if month == 4 || month == 6 || month == 9 || month == 11 then 30
    else 31
  }

  predicate IsDate(d: Date) {
    d.year >= 0 && 1 <= d.month <= 12 && 1 <= d.day <= DaysIn(d.year, d.month)
  }

  function Tomorrow(d: Date): Date {
    if d.day < DaysIn(d.year, d.month) then Date(d.year, d.month, d.day + 1)
    else if d.month < 12 then Date(d.year, d.month + 1, 1)
    else Date(d.year + 1, 1, 1)
  }

  const EPOCH := Date(1858, 11, 17)

  // ----- the number in parts: day, month from March on, year from March on -----

  /** The year, beginning in March, that a date falls in. */
  function MarchYear(year: int, month: int): int {
    if month <= 2 then year + 4799 else year + 4800
  }

  /** Days from the first of March to the first of the month. */
  function MonthStart(month: int): int {
    var m := if month <= 2 then month + 9 else month - 3;
    (153 * m + 2) / 5
  }

  function LeapDays(y: int): int {
    y / 4 - y / 100 + y / 400
  }

  lemma Parts(d: Date)
    requires 1 <= d.month <= 12
    ensures var y := MarchYear(d.year, d.month);
            ModifiedJulianDay(d) == d.day + MonthStart(d.month) + 365 * y + LeapDays(y) - 2432046
  {
    var a := (14 - d.month) / 12;
    assert a == if d.month <= 2 then 1 else 0;
  }

  lemma MonthStarts()
    ensures MonthStart(3) == 0 && MonthStart(4) == 31 && MonthStart(5) == 61 && MonthStart(6) == 92
    ensures MonthStart(7) == 122 && MonthStart(8) == 153 && MonthStart(9) == 184 && MonthStart(10) == 214
    ensures MonthStart(11) == 245 && MonthStart(12) == 275 && MonthStart(1) == 306 && MonthStart(2) == 337
  {
  }

  /** The month after. */
  function NextMonth(month: int): int {
    if month == 12 then 1 else month + 1
  }

  lemma MonthGap(month: int)
    requires 1 <= month <= 12 && month != 2
    ensures MonthStart(NextMonth(month)) - MonthStart(month) == DaysIn(0, month)
  {
    MonthStarts();
  }

  lemma MonthEnds(d: Date)
    requires IsDate(d) && d.month != 2 && d.day == DaysIn(d.year, d.month)
    ensures ModifiedJulianDay(Tomorrow(d)) == ModifiedJulianDay(d) + 1
  {
    var next := Tomorrow(d);
    MonthGap(d.month);
    assert next.month == NextMonth(d.month) && next.day == 1 && d.day == DaysIn(0, d.month);
    assert MarchYear(next.year, next.month) == MarchYear(d.year, d.month);
    Parts(d);
    Parts(next);
  }

  lemma FebruaryEnds(year: int)
    requires year >= 0
    ensures ModifiedJulianDay(Date(year, 3, 1)) == ModifiedJulianDay(Date(year, 2, DaysIn(year, 2))) + 1
  {
    Parts(Date(year, 3, 1));
    Parts(Date(year, 2, DaysIn(year, 2)));
    MonthStarts();
    LeapDayAdded(year);
  }

  lemma MonthGoesOn(year: int, month: int, day: int)
    ensures ModifiedJulianDay(Date(year, month, day + 1)) == ModifiedJulianDay(Date(year, month, day)) + 1
  {
  }

  /** Each day is one more than the day before, across months, years and leap days. */
  lemma TomorrowIsOneMore(d: Date)
    requires IsDate(d)
    ensures IsDate(Tomorrow(d)) && ModifiedJulianDay(Tomorrow(d)) == ModifiedJulianDay(d) + 1
  {
    if d.day < DaysIn(d.year, d.month) {
      MonthGoesOn(d.year, d.month, d.day);
    } else if d.month == 2 {
      FebruaryEnds(d.year);
    } else {
      MonthEnds(d);
    }
  }

  /** A March year has one leap day more than the one before exactly when it begins in a leap year. */
  lemma LeapDayAdded(year: int)
    requires year >= 0
    ensures LeapDays(year + 4800) - LeapDays(year + 4799) == if IsLeap(year) then 1 else 0
  {
    var y := year + 4800;
    Quotients(y, 4);
    Quotients(y, 100);
    Quotients(y, 400);
    SameRemainders(year);
    if year % 400 == 0 {
      DivisibleBy100(year);
    }
    if year % 100 == 0 {
      DivisibleBy4(year);
    }
  }

  function Hit(y: int, n: int): int
    requires n > 0
  {
    if y % n == 0 then 1 else 0
  }

  lemma Quotients(y: int, n: int)
    requires y > 0 && (n == 4 || n == 100 || n == 400)
    ensures y / n - (y - 1) / n == Hit(y, n)
  {
  }

  lemma SameRemainders(year: int)
    ensures (year + 4800) % 4 == year % 4 && (year + 4800) % 100 == year % 100 && (year + 4800) % 400 == year % 400
  {
    AddMultiple(year, 4, 1200);
    AddMultiple(year, 100, 48);
    AddMultiple(year, 400, 12);
  }

  lemma AddMultiple(y: int, n: int, k: int)
    requires (n == 4 && k == 1200) || (n == 100 && k == 48) || (n == 400 && k == 12)
    ensures (y + n * k) % n == y % n
  {
    assert (y + n * k) - y == n * k;
  }

  lemma DivisibleBy100(y: int)
    requires y % 400 == 0
    ensures y % 100 == 0
  {
    var q := y / 400;
    assert y == 100 * (4 * q);
  }

  lemma DivisibleBy4(y: int)
    requires y % 100 == 0
    ensures y % 4 == 0
  {
    var q := y / 100;
    assert y == 4 * (25 * q);
  }

  function DaysLater(d: Date, n: nat): Date
    decreases n
  {
    if n == 0 then d else DaysLater(Tomorrow(d), n - 1)
  }

  /** The number of a date is the count of days since 1858-11-17. */
  lemma {:induction false} CountsDaysFrom(d: Date, n: nat)
    requires IsDate(d)
    ensures IsDate(DaysLater(d, n)) && ModifiedJulianDay(DaysLater(d, n)) == ModifiedJulianDay(d) + n
    decreases n
  {
    if n > 0 {
      var next := Tomorrow(d);
      TomorrowIsOneMore(d);
      CountsDaysFrom(next, n - 1);
      assert DaysLater(d, n) == DaysLater(next, n - 1);
    }
  }

  lemma {:induction false} CountsDaysSinceEpoch(n: nat)
    ensures ModifiedJulianDay(EPOCH) == 0 && ModifiedJulianDay(DaysLater(EPOCH, n)) == n
  {
    CountsDaysFrom(EPOCH, n);
  }
}
