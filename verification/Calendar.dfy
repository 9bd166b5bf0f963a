/**
 * The proleptic Gregorian calendar of ECMA-262 `Date` in UTC (section 21.4.1): days are counted
 * from 1970-01-01 and instants in milliseconds from its start. The numbers are unbounded here.
 */
module Calendar {

  const DAY_MS: int := 24 * 60 * 60 * 1000

  /** Day number of an instant; `/` rounds towards minus infinity for a positive divisor. */
  function DayOf(instant: int): int {
    instant / DAY_MS
  }

  function StartOf(day: int): int {
    day * DAY_MS
  }

  predicate LeapYear(y: int) {
    y % 4 == 0 && (y % 100 != 0 || y % 400 == 0)
  }

  function DayFromYear(y: int): int {
    365 * (y - 1970) + (y - 1969) / 4 - (y - 1901) / 100 + (y - 1601) / 400
  }

  lemma FourthYears(y: int)
    ensures (y - 1968) / 4 - (y - 1969) / 4 == if y % 4 == 0 then 1 else 0
  {
  }

  lemma HundredthYears(y: int)
    ensures (y - 1900) / 100 - (y - 1901) / 100 == if y % 100 == 0 then 1 else 0
  {
  }

  lemma FourHundredthYears(y: int)
    ensures (y - 1600) / 400 - (y - 1601) / 400 == if y % 400 == 0 then 1 else 0
  {
  }

  lemma CenturiesAreFourths(y: int)
    ensures y % 100 == 0 ==> y % 4 == 0
    ensures y % 400 == 0 ==> y % 100 == 0
  {
    if y % 100 == 0 { MultipleOf(y, 25 * (y / 100), 4); }
    if y % 400 == 0 { MultipleOf(y, 4 * (y / 400), 100); }
  }

  lemma MultipleOf(y: int, quotient: int, n: int)
    requires n == 4 || n == 100
    requires y == n * quotient
    ensures y % n == 0
  {
  }

  lemma YearLength(y: int)
    ensures DayFromYear(y + 1) - DayFromYear(y) == if LeapYear(y) then 366 else 365
  {
    FourthYears(y);
    HundredthYears(y);
    FourHundredthYears(y);
    CenturiesAreFourths(y);
    assert DayFromYear(y + 1) == 365 * (y - 1969) + (y - 1968) / 4 - (y - 1900) / 100 + (y - 1600) / 400;
  }

  /** Year starts stay within a day and a half of the mean Gregorian year of 365.2425 days. */
  lemma YearStartBounds(k: int)
    ensures 146097 * k - 506 <= 400 * DayFromYear(1970 + k) <= 146097 * k + 589
  {
    var a, b, c := (k + 1) / 4, (k + 69) / 100, (k + 369) / 400;
    assert 4 * a <= k + 1 < 4 * a + 4;
    assert 100 * b <= k + 69 < 100 * b + 100;
    assert 400 * c <= k + 369 < 400 * c + 400;
    assert DayFromYear(1970 + k) == 365 * k + a - b + c;
  }

  lemma {:induction false} YearStartsIncrease(y: int, z: int)
    requires y < z
    ensures DayFromYear(y + 1) <= DayFromYear(z)
    decreases z - y
  {
    if y + 1 < z {
      YearStartsIncrease(y, z - 1);
      YearLength(z - 1);
    }
  }

  /** The year containing a day: the mean year locates it, and one comparison each way corrects it. */
  function YearOf(day: int): (y: int)
    ensures DayFromYear(y) <= day < DayFromYear(y + 1)
  {
    var k := 400 * day / 146097;
    YearStartBounds(k - 1);
    YearStartBounds(k);
    YearStartBounds(k + 1);
    YearStartBounds(k + 2);
    var guess := 1970 + k;
    if DayFromYear(guess) > day then guess - 1
    else if DayFromYear(guess + 1) <= day then guess + 1
    else guess
  }

  lemma YearIsUnique(y: int, day: int)
    requires DayFromYear(y) <= day < DayFromYear(y + 1)
    ensures YearOf(day) == y
  {
    var z := YearOf(day);
    if y < z { YearStartsIncrease(y, z); }
    if z < y { YearStartsIncrease(z, y); }
  }

  /** Days of the year before month `m` (0 is January, 12 is the next January). */
  function DaysBefore(m: int, leap: bool): int
    requires 0 <= m <= 12
  {
    var extra := if leap then 1 else 0;
    if m == 0 then 0
    else if m == 1 then 31
    else if m == 2 then 59 + extra
    else if m == 3 then 90 + extra
    else if m == 4 then 120 + extra
    else if m == 5 then 151 + extra
    else if m == 6 then 181 + extra
    else if m == 7 then 212 + extra
    else if m == 8 then 243 + extra
    else if m == 9 then 273 + extra
    else if m == 10 then 304 + extra
    else if m == 11 then 334 + extra
    else 365 + extra
  }

  function MonthLength(y: int, m: int): int
    requires 0 <= m < 12
  {
    DaysBefore(m + 1, LeapYear(y)) - DaysBefore(m, LeapYear(y))
  }

  function DayInYear(day: int): (n: int)
    ensures 0 <= n < if LeapYear(YearOf(day)) then 366 else 365
  {
    YearLength(YearOf(day));
    day - DayFromYear(YearOf(day))
  }

  /** Month holding the `n`-th day of a year, searched from month `m` up. */
  function MonthFrom(n: int, leap: bool, m: int): (r: int)
    requires 0 <= m < 12 && DaysBefore(m, leap) <= n < DaysBefore(12, leap)
    ensures m <= r < 12 && DaysBefore(r, leap) <= n < DaysBefore(r + 1, leap)
    decreases 12 - m
  {
    if n < DaysBefore(m + 1, leap) then m else MonthFrom(n, leap, m + 1)
  }

  function MonthOf(day: int): (m: int)
    ensures 0 <= m < 12
    ensures DaysBefore(m, LeapYear(YearOf(day))) <= DayInYear(day) < DaysBefore(m + 1, LeapYear(YearOf(day)))
  {
    MonthFrom(DayInYear(day), LeapYear(YearOf(day)), 0)
  }

  function DateOf(day: int): (d: int)
    ensures 1 <= d <= MonthLength(YearOf(day), MonthOf(day))
  {
    DayInYear(day) - DaysBefore(MonthOf(day), LeapYear(YearOf(day))) + 1
  }

  predicate ExistingDate(y: int, m: int, d: int) {
    0 <= m < 12 && 1 <= d <= MonthLength(y, m)
  }

  /** MakeDay (section 21.4.1.28): months and days outside their range roll over. */
  function MakeDay(y: int, m: int, d: int): int {
    var year := y + m / 12;
    DayFromYear(year) + DaysBefore(m % 12, LeapYear(year)) + d - 1
  }

  /** MakeFullYear (section 21.4.1.30): two-digit years name the twentieth century. */
  function MakeFullYear(y: int): int {
    if 0 <= y <= 99 then 1900 + y else y
  }

  /** `Date.UTC(y, m, d)`, as a day number. */
  function DateUTC(y: int, m: int, d: int): int {
    MakeDay(MakeFullYear(y), m, d)
  }

  lemma MakeDayInYear(y: int, m: int, d: int)
    requires 0 <= m < 12
    ensures MakeDay(y, m, d) == DayFromYear(y) + DaysBefore(m, LeapYear(y)) + d - 1
  {
    assert y + m / 12 == y && m % 12 == m;
  }

  /** Reading a day's fields and making the day again gives the day. */
  lemma MakeDayOfFields(day: int)
    ensures MakeDay(YearOf(day), MonthOf(day), DateOf(day)) == day
    ensures ExistingDate(YearOf(day), MonthOf(day), DateOf(day))
  {
    hide MakeDay, DaysBefore, DayFromYear, LeapYear, YearOf, MonthOf;
    MakeDayInYear(YearOf(day), MonthOf(day), DateOf(day));
  }

  lemma MonthsIncrease(m: int, n: int, leap: bool)
    requires 0 <= m < n <= 12
    ensures DaysBefore(m + 1, leap) <= DaysBefore(n, leap)
  {
  }

  /** Making a day of an existing date and reading its fields gives the date. */
  lemma FieldsOfMakeDay(y: int, m: int, d: int)
    requires ExistingDate(y, m, d)
    ensures YearOf(MakeDay(y, m, d)) == y && MonthOf(MakeDay(y, m, d)) == m && DateOf(MakeDay(y, m, d)) == d
  {
    hide MakeDay, YearOf, MonthOf, DayFromYear;
    var day, leap := MakeDay(y, m, d), LeapYear(y);
    MakeDayInYear(y, m, d);
    YearLength(y);
    MonthWithinYear(m, leap);
    YearIsUnique(y, day);
    assert DaysBefore(m, leap) <= DayInYear(day) < DaysBefore(m + 1, leap);
    var r := MonthOf(day);
    if m < r { MonthsIncrease(m, r, leap); }
    if r < m { MonthsIncrease(r, m, leap); }
  }

  lemma MonthWithinYear(m: int, leap: bool)
    requires 0 <= m < 12
    ensures 0 <= DaysBefore(m, leap) <= DaysBefore(m + 1, leap) <= DaysBefore(12, leap)
    ensures DaysBefore(12, leap) == if leap then 366 else 365
  {
  }

  /** The three field comparisons of the original accept exactly the dates that exist. */
  lemma FieldsAgreeExactlyOnExistingDates(y: int, m: int, d: int)
    ensures
      var day := MakeDay(y, m, d);
      (YearOf(day) == y && MonthOf(day) == m && DateOf(day) == d) <==> ExistingDate(y, m, d)
  {
    if ExistingDate(y, m, d) { FieldsOfMakeDay(y, m, d); }
  }

  /** Only February depends on the year, so a date fits every year's month, at most rolling by a day. */
  lemma DateFits(y: int, m: int, d: int, z: int)
    requires ExistingDate(y, m, d)
    ensures 1 <= d <= 31
    ensures 0 <= DaysBefore(m, LeapYear(z)) + d - 1 < DaysBefore(12, LeapYear(z))
  {
    if m == 1 {
      assert d <= 29 && DaysBefore(1, LeapYear(z)) == 31;
    } else {
      assert DaysBefore(m + 1, LeapYear(z)) - DaysBefore(m, LeapYear(z)) == MonthLength(y, m);
      assert DaysBefore(m + 1, LeapYear(z)) <= DaysBefore(12, LeapYear(z));
    }
  }

  /** Moving an existing date to another year stays in that year, even where February 29 rolls over. */
  lemma YearOfMovedDate(y: int, m: int, d: int, z: int)
    requires ExistingDate(y, m, d)
    ensures YearOf(MakeDay(z, m, d)) == z
  {
    assert z + m / 12 == z && m % 12 == m;
    DateFits(y, m, d, z);
    YearLength(z);
    YearIsUnique(z, MakeDay(z, m, d));
  }

  // ----- The calendar as a walk from day to day -----

  /** The lengths of the months, February's being 29 in the years divisible by 4 but not by 100, or by 400. */
  function DaysIn(y: int, m: int): int {
    if m == 1 then (if y % 400 == 0 || (y % 4 == 0 && y % 100 != 0) then 29 else 28)
    else if m == 3 || m == 5 || m == 8 || m == 10 then 30
    else 31
  }

  lemma MonthsHaveTheirLengths(y: int, m: int)
    requires 0 <= m < 12
    ensures MonthLength(y, m) == DaysIn(y, m)
  {
    CenturiesAreFourths(y);
  }

  lemma EpochDate()
    ensures YearOf(0) == 1970 && MonthOf(0) == 0 && DateOf(0) == 1
  {
    hide YearOf, MonthOf, DateOf;
    assert MakeDay(1970, 0, 1) == 0 by { FirstDay(); }
    FirstDates();
    FieldsOfMakeDay(1970, 0, 1);
  }

  lemma FirstDay()
    ensures MakeDay(1970, 0, 1) == 0
  {
    MakeDayInYear(1970, 0, 1);
    hide MakeDay, LeapYear;
  }

  /** Every month has a first day. */
  lemma FirstDates()
    ensures forall y, m :: 0 <= m < 12 ==> ExistingDate(y, m, 1)
  {
    forall y, m | 0 <= m < 12 ensures ExistingDate(y, m, 1) {
      MonthsHaveTheirLengths(y, m);
    }
  }

  lemma NextMonth(y: int, m: int)
    requires 0 <= m < 11
    ensures MakeDay(y, m + 1, 1) == MakeDay(y, m, DaysIn(y, m)) + 1
  {
    MonthsHaveTheirLengths(y, m);
    MakeDayInYear(y, m + 1, 1);
    MakeDayInYear(y, m, DaysIn(y, m));
    hide MakeDay, DaysBefore, DayFromYear, LeapYear, DaysIn;
  }

  lemma NextYear(y: int)
    ensures MakeDay(y + 1, 0, 1) == MakeDay(y, 11, 31) + 1
  {
    YearLength(y);
    MakeDayInYear(y + 1, 0, 1);
    MakeDayInYear(y, 11, 31);
    hide MakeDay, DayFromYear;
  }

  /** Day 0 is 1970-01-01, and each day's date is followed by the next of its month, or the first of the next month. */
  lemma DatesAdvance(day: int)
    ensures YearOf(0) == 1970 && MonthOf(0) == 0 && DateOf(0) == 1
    ensures
      var y, m, d := YearOf(day), MonthOf(day), DateOf(day);
      if d < DaysIn(y, m) then YearOf(day + 1) == y && MonthOf(day + 1) == m && DateOf(day + 1) == d + 1
      else if m < 11 then YearOf(day + 1) == y && MonthOf(day + 1) == m + 1 && DateOf(day + 1) == 1
      else YearOf(day + 1) == y + 1 && MonthOf(day + 1) == 0 && DateOf(day + 1) == 1
  {
    hide *;
    var y, m, d := YearOf(day), MonthOf(day), DateOf(day);
    EpochDate();
    MakeDayOfFields(day);
    NextDate(y, m, d, day);
  }

  lemma NextDate(y: int, m: int, d: int, day: int)
    requires ExistingDate(y, m, d) && MakeDay(y, m, d) == day
    ensures
      if d < DaysIn(y, m) then YearOf(day + 1) == y && MonthOf(day + 1) == m && DateOf(day + 1) == d + 1
      else if m < 11 then YearOf(day + 1) == y && MonthOf(day + 1) == m + 1 && DateOf(day + 1) == 1
      else YearOf(day + 1) == y + 1 && MonthOf(day + 1) == 0 && DateOf(day + 1) == 1
  {
    hide *;
    ExistsExactly(y, m, d);
    ExistsExactly(y, m, d + 1);
    FirstDates();
    if d < DaysIn(y, m) {
      NextInMonth(y, m, d);
      FieldsOfMakeDay(y, m, d + 1);
    } else if m < 11 {
      NextMonth(y, m);
      FieldsOfMakeDay(y, m + 1, 1);
    } else {
      LastOfDecember(y);
      NextYear(y);
      FieldsOfMakeDay(y + 1, 0, 1);
    }
  }

  lemma ExistsExactly(y: int, m: int, d: int)
    ensures ExistingDate(y, m, d) <==> 0 <= m < 12 && 1 <= d <= DaysIn(y, m)
  {
    if 0 <= m < 12 { MonthsHaveTheirLengths(y, m); }
    hide DaysIn, MonthLength;
  }

  lemma NextInMonth(y: int, m: int, d: int)
    requires 0 <= m < 12
    ensures MakeDay(y, m, d + 1) == MakeDay(y, m, d) + 1
  {
    MakeDayInYear(y, m, d);
    MakeDayInYear(y, m, d + 1);
    hide MakeDay, DayFromYear, DaysBefore, LeapYear;
  }

  lemma LastOfDecember(y: int)
    ensures DaysIn(y, 11) == 31
  {
  }
}
