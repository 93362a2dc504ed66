/**
 * UTC calendar arithmetic of contribution periods: the ECMAScript Date setters the source uses
 * (ECMA-262 edition 5.1, sections 15.9.1.3 to 15.9.1.13) and the end of a period.
 */
module Calendar {
  import opened Prelude

  const MS_PER_DAY := 86400000

  function Day(t: int): int { t / MS_PER_DAY }
  function TimeWithinDay(t: int): int { t % MS_PER_DAY }

  predicate Leap(y: int) { y % 4 == 0 && (y % 100 != 0 || y % 400 == 0) }

  /** The day number of 1 January of year `y`. */
  function DayFromYear(y: int): int {
    365 * (y - 1970) + (y - 1969) / 4 - (y - 1901) / 100 + (y - 1601) / 400
  }

  function DaysInYear(y: int): int { if Leap(y) then 366 else 365 }

  lemma Quotient4(y: int)
    ensures (y - 1968) / 4 - (y - 1969) / 4 == if y % 4 == 0 then 1 else 0
  {
  }

  lemma Quotient100(y: int)
    ensures (y - 1900) / 100 - (y - 1901) / 100 == if y % 100 == 0 then 1 else 0
  {
  }

  lemma Quotient400(y: int)
    ensures (y - 1600) / 400 - (y - 1601) / 400 == if y % 400 == 0 then 1 else 0
  {
  }

  lemma DivisibleDown(y: int)
    ensures y % 400 == 0 ==> y % 100 == 0
    ensures y % 100 == 0 ==> y % 4 == 0
  {
  }

  lemma YearLength(y: int)
    ensures DayFromYear(y + 1) - DayFromYear(y) == DaysInYear(y)
  {
    Quotient4(y);
    Quotient100(y);
    Quotient400(y);
    DivisibleDown(y);
  }

  function SearchUp(y: int, d: int): (r: int)
    requires DayFromYear(y) <= d
    ensures DayFromYear(r) <= d < DayFromYear(r + 1)
    decreases d - DayFromYear(y)
  {
    YearLength(y);
    if d < DayFromYear(y + 1) then y else SearchUp(y + 1, d)
  }

  function SearchDown(y: int, d: int): (r: int)
    requires d < DayFromYear(y + 1)
    ensures DayFromYear(r) <= d < DayFromYear(r + 1)
    decreases DayFromYear(y + 1) - d
  {
    YearLength(y);
    if DayFromYear(y) <= d then y else SearchDown(y - 1, d)
  }

  function YearFromDay(d: int): (y: int)
    ensures DayFromYear(y) <= d < DayFromYear(y + 1)
  {
    if DayFromYear(1970) <= d then SearchUp(1970, d) else SearchDown(1969, d)
  }

  // --- months -------------------------------------------------------------------------------

  /** Months count from 0, as the Date getters do. */
  function DaysInMonth(m: int, leap: bool): int
    requires 0 <= m < 12
  {
    if m == 1 then (if leap then 29 else 28)
    else if m == 3 || m == 5 || m == 8 || m == 10 then 30
    else 31
  }

  /** Days of the year before month `m`. */
  function DaysBefore(m: int, leap: bool): int
    requires 0 <= m <= 12
    decreases m
  {
    if m == 0 then 0 else DaysBefore(m - 1, leap) + DaysInMonth(m - 1, leap)
  }

  lemma YearOfMonths(leap: bool)
    ensures DaysBefore(12, leap) == if leap then 366 else 365
  {
    var extra := if leap then 1 else 0;
    assert DaysBefore(1, leap) == 31;
    assert DaysBefore(2, leap) == 59 + extra;
    assert DaysBefore(4, leap) == 120 + extra;
    assert DaysBefore(6, leap) == 181 + extra;
    assert DaysBefore(8, leap) == 243 + extra;
    assert DaysBefore(10, leap) == 304 + extra;
  }

  function SearchMonth(m: int, dayInYear: int, leap: bool): (r: int)
    requires 0 <= m < 12 && DaysBefore(m, leap) <= dayInYear < DaysBefore(12, leap)
    ensures 0 <= r < 12 && DaysBefore(r, leap) <= dayInYear < DaysBefore(r + 1, leap)
    decreases 12 - m
  {
    if dayInYear < DaysBefore(m + 1, leap) then m else SearchMonth(m + 1, dayInYear, leap)
  }

  function DayInYear(d: int): (r: int)
    ensures 0 <= r < DaysInYear(YearFromDay(d))
  {
    YearLength(YearFromDay(d));
    d - DayFromYear(YearFromDay(d))
  }

  function MonthFromDay(d: int): (m: int)
    ensures 0 <= m < 12
    ensures DaysBefore(m, Leap(YearFromDay(d))) <= DayInYear(d) < DaysBefore(m + 1, Leap(YearFromDay(d)))
  {
    YearOfMonths(Leap(YearFromDay(d)));
    SearchMonth(0, DayInYear(d), Leap(YearFromDay(d)))
  }

  function DateFromDay(d: int): (date: int)
    ensures 1 <= date <= DaysInMonth(MonthFromDay(d), Leap(YearFromDay(d)))
  {
    DayInYear(d) - DaysBefore(MonthFromDay(d), Leap(YearFromDay(d))) + 1
  }

  /** The first day of month `m` of year `y`; months outside 0..11 roll the year over. */
  function FirstDay(y: int, m: int): int {
    DayFromYear(y + m / 12) + DaysBefore(m % 12, Leap(y + m / 12))
  }

  function MakeDay(y: int, m: int, date: int): int { FirstDay(y, m) + date - 1 }

  function MakeDate(day: int, time: int): int { day * MS_PER_DAY + time }

  lemma FieldsOfDay(d: int)
    ensures d == MakeDay(YearFromDay(d), MonthFromDay(d), DateFromDay(d))
  {
    var m := MonthFromDay(d);
    assert m / 12 == 0 && m % 12 == m;
  }

  /** The step from one month to the next is the length of the earlier month, across year ends too. */
  lemma MonthStep(y: int, m: int)
    requires 0 <= m
    ensures FirstDay(y, m + 1) - FirstDay(y, m) == DaysInMonth(m % 12, Leap(y + m / 12))
  {
    var year := y + m / 12;
    if m % 12 < 11 {
      assert (m + 1) / 12 == m / 12 && (m + 1) % 12 == m % 12 + 1;
    } else {
      assert (m + 1) / 12 == m / 12 + 1 && (m + 1) % 12 == 0;
      YearOfMonths(Leap(year));
      YearLength(year);
      assert DaysBefore(12, Leap(year)) == DaysBefore(11, Leap(year)) + 31;
    }
  }

  // --- the Date object ----------------------------------------------------------------------

  class UtcDate {
    var time: int

    constructor (time: int)
      ensures this.time == time
    {
      this.time := time;
    }

    method SetUTCDate(date: int)
      modifies this
      ensures time == MakeDate(
        MakeDay(YearFromDay(Day(old(time))), MonthFromDay(Day(old(time))), date), TimeWithinDay(old(time)))
    {
      var day := Day(time);
      time := MakeDate(MakeDay(YearFromDay(day), MonthFromDay(day), date), TimeWithinDay(time));
    }

    method SetUTCMonth(month: int)
      modifies this
      ensures time == MakeDate(
        MakeDay(YearFromDay(Day(old(time))), month, DateFromDay(Day(old(time)))), TimeWithinDay(old(time)))
    {
      var day := Day(time);
      time := MakeDate(MakeDay(YearFromDay(day), month, DateFromDay(day)), TimeWithinDay(time));
    }

    method SetUTCFullYear(year: int)
      modifies this
      ensures time == MakeDate(
        MakeDay(year, MonthFromDay(Day(old(time))), DateFromDay(Day(old(time)))), TimeWithinDay(old(time)))
    {
      var day := Day(time);
      time := MakeDate(MakeDay(year, MonthFromDay(day), DateFromDay(day)), TimeWithinDay(time));
    }
  }

  // --- period ends --------------------------------------------------------------------------

  /** How many days a period lasts, read off the calendar at its start. */
  function PeriodDays(start: int, length: PeriodLength): int {
    var y, m := YearFromDay(Day(start)), MonthFromDay(Day(start));
    match length
    case WEEKLY => 7
    case MONTHLY => DaysInMonth(m, Leap(y))
    case QUARTERLY => DaysInMonth(m, Leap(y)) + DaysInMonth((m + 1) % 12, Leap(y + (m + 1) / 12))
                      + DaysInMonth((m + 2) % 12, Leap(y + (m + 2) / 12))
    case YEARLY => if m <= 1 then DaysInYear(y) else DaysInYear(y + 1)
  }

  function PeriodEnd(start: int, length: PeriodLength): int { start + PeriodDays(start, length) * MS_PER_DAY }

  lemma DateShift(t: int, days: int)
    ensures MakeDate(Day(t) + days, TimeWithinDay(t)) == t + days * MS_PER_DAY
    ensures Day(t + days * MS_PER_DAY) == Day(t) + days
    ensures TimeWithinDay(t + days * MS_PER_DAY) == TimeWithinDay(t)
  {
  }

  lemma MonthsLand(d: int, y: int, m: int, date: int)
    requires y == YearFromDay(d) && m == MonthFromDay(d) && date == DateFromDay(d)
    ensures MakeDay(y, m, date + 7) == d + 7
    ensures MakeDay(y, m + 1, date) == d + DaysInMonth(m, Leap(y))
    ensures MakeDay(y, m + 3, date) == d + DaysInMonth(m, Leap(y))
      + DaysInMonth((m + 1) % 12, Leap(y + (m + 1) / 12)) + DaysInMonth((m + 2) % 12, Leap(y + (m + 2) / 12))
    ensures MakeDay(y + 1, m, date) == d + if m <= 1 then DaysInYear(y) else DaysInYear(y + 1)
  {
    hide FirstDay, Leap, DaysInMonth, DaysInYear, DayFromYear, YearFromDay, MonthFromDay, DateFromDay, Day, TimeWithinDay;
    FieldsOfDay(d);
    MonthStep(y, m);
    MonthStep(y, m + 1);
    MonthStep(y, m + 2);
    YearStep(y, m);
    assert m / 12 == 0 && m % 12 == m;
  }

  /** The setters of the source, applied to a copy of the start, land exactly `PeriodDays` later. */
  method PeriodEndDate(start: int, length: PeriodLength) returns (end: int)
    ensures end == PeriodEnd(start, length)
  {
    hide FirstDay, MakeDay, Leap, DaysInMonth, DaysInYear, DayFromYear, YearFromDay, MonthFromDay;
    hide DateFromDay, Day, TimeWithinDay, MakeDate;
    var d := new UtcDate(start);
    var day := Day(start);
    var y, m := YearFromDay(day), MonthFromDay(day);
    match length {
      case WEEKLY => d.SetUTCDate(DateFromDay(day) + 7);
      case MONTHLY => d.SetUTCMonth(m + 1);
      case QUARTERLY => d.SetUTCMonth(m + 3);
      case YEARLY => d.SetUTCFullYear(y + 1);
    }
    MonthsLand(day, y, m, DateFromDay(day));
    DateShift(start, PeriodDays(start, length));
    return d.time;
  }

  lemma YearStep(y: int, m: int)
    requires 0 <= m < 12
    ensures FirstDay(y + 1, m) - FirstDay(y, m) == if m <= 1 then DaysInYear(y) else DaysInYear(y + 1)
  {
    YearLength(y);
    LeapShift(m, Leap(y), Leap(y + 1));
  }

  lemma {:induction false} LeapShift(m: int, a: bool, b: bool)
    requires 0 <= m <= 12
    ensures DaysBefore(m, b) - DaysBefore(m, a) == if m <= 1 then 0 else (if b then 1 else 0) - (if a then 1 else 0)
    decreases m
  {
    if m > 0 { LeapShift(m - 1, a, b); }
  }

  /** A period always ends after it starts, by a whole number of days the length bounds. */
  lemma PeriodEndBounds(start: int, length: PeriodLength)
    ensures TimeWithinDay(PeriodEnd(start, length)) == TimeWithinDay(start)
    ensures PeriodEnd(start, length) >= start + 7 * MS_PER_DAY
    ensures match length
      case WEEKLY => PeriodDays(start, length) == 7
      case MONTHLY => 28 <= PeriodDays(start, length) <= 31
      case QUARTERLY => 89 <= PeriodDays(start, length) <= 92
      case YEARLY => 365 <= PeriodDays(start, length) <= 366
  {
    hide Leap, YearFromDay, MonthFromDay, Day, TimeWithinDay;
    QuarterBounds(YearFromDay(Day(start)), MonthFromDay(Day(start)));
    DateShift(start, PeriodDays(start, length));
  }

  lemma QuarterBounds(y: int, m: int)
    requires 0 <= m < 12
    ensures 89 <= DaysInMonth(m, Leap(y)) + DaysInMonth((m + 1) % 12, Leap(y + (m + 1) / 12))
                  + DaysInMonth((m + 2) % 12, Leap(y + (m + 2) / 12)) <= 92
  {
  }

  // --- what the end date means --------------------------------------------------------------

  lemma {:induction false} LaterYearLaterDay(y: int, z: int)
    requires y <= z
    ensures DayFromYear(y) + 365 * (z - y) <= DayFromYear(z)
    decreases z - y
  {
    if y < z {
      LaterYearLaterDay(y, z - 1);
      YearLength(z - 1);
    }
  }

  lemma {:induction false} LaterMonthLaterDay(m: int, n: int, leap: bool)
    requires 0 <= m <= n <= 12
    ensures DaysBefore(m, leap) <= DaysBefore(n, leap)
    decreases n - m
  {
    if m < n { LaterMonthLaterDay(m, n - 1, leap); }
  }

  /** A day number has one reading as a calendar date: the getters invert `MakeDay`. */
  lemma GettersInvertMakeDay(y: int, m: int, date: int)
    requires 0 <= m < 12 && 1 <= date <= DaysInMonth(m, Leap(y))
    ensures var d := MakeDay(y, m, date);
      YearFromDay(d) == y && MonthFromDay(d) == m && DateFromDay(d) == date
  {
    var d := MakeDay(y, m, date);
    assert m / 12 == 0 && m % 12 == m;
    assert d == DayFromYear(y) + DaysBefore(m, Leap(y)) + date - 1;
    MonthInYear(y, m, date, d);
    YearLength(y);
    LaterMonthLaterDay(0, m, Leap(y));
    LaterMonthLaterDay(m + 1, 12, Leap(y));
    YearOfMonths(Leap(y));
    OnlyYear(y, d);
  }

  lemma OnlyYear(y: int, d: int)
    requires DayFromYear(y) <= d < DayFromYear(y + 1)
    ensures YearFromDay(d) == y
  {
    hide DayFromYear;
    var z := YearFromDay(d);
    if z < y { LaterYearLaterDay(z + 1, y); }
    if y < z { LaterYearLaterDay(y + 1, z); }
  }

  lemma MonthInYear(y: int, m: int, date: int, d: int)
    requires 0 <= m < 12 && 1 <= date <= DaysInMonth(m, Leap(y))
    requires d == DayFromYear(y) + DaysBefore(m, Leap(y)) + date - 1
    ensures YearFromDay(d) == y ==> MonthFromDay(d) == m && DateFromDay(d) == date
  {
    hide DayFromYear;
    hide YearFromDay;
    if YearFromDay(d) == y {
      var n := MonthFromDay(d);
      assert DaysBefore(m + 1, Leap(y)) == DaysBefore(m, Leap(y)) + DaysInMonth(m, Leap(y));
      if n < m { LaterMonthLaterDay(n + 1, m, Leap(y)); }
      if m < n { LaterMonthLaterDay(m + 1, n, Leap(y)); }
    }
  }

  /**
   * The same time of day, `n` months later on the same date when that month has it; otherwise the
   * missing days spill into the month after (31 January plus a month is in March).
   */
  ghost predicate MonthsLater(start: int, end: int, n: nat) {
    var d, e := Day(start), Day(end);
    var y', m' := YearFromDay(d) + (MonthFromDay(d) + n) / 12, (MonthFromDay(d) + n) % 12;
    && TimeWithinDay(end) == TimeWithinDay(start)
    && if DateFromDay(d) <= DaysInMonth(m', Leap(y')) then
         YearFromDay(e) == y' && MonthFromDay(e) == m' && DateFromDay(e) == DateFromDay(d)
       else
         YearFromDay(e) == y' && MonthFromDay(e) == m' + 1 && DateFromDay(e) == DateFromDay(d) - DaysInMonth(m', Leap(y'))
  }

  /** Seven days, one month, three months or twelve months after the start. */
  ghost predicate EndsOnSchedule(start: int, end: int, length: PeriodLength) {
    match length
    case WEEKLY => end == start + 7 * 86400000
    case MONTHLY => MonthsLater(start, end, 1)
    case QUARTERLY => MonthsLater(start, end, 3)
    case YEARLY => MonthsLater(start, end, 12)
  }

  lemma DaysOfMonths(start: int, n: nat, days: int)
    requires Day(start) + days == MakeDay(YearFromDay(Day(start)), MonthFromDay(Day(start)) + n, DateFromDay(Day(start)))
    ensures MonthsLater(start, start + days * MS_PER_DAY, n)
  {
    hide FirstDay, Leap, DaysInYear, DayFromYear, YearFromDay, MonthFromDay, DateFromDay, Day, TimeWithinDay;
    var d := Day(start);
    var y, m, date := YearFromDay(d), MonthFromDay(d), DateFromDay(d);
    DateShift(start, days);
    FirstDayNormal(y, m + n);
    SpillOver(y + (m + n) / 12, (m + n) % 12, date, d + days);
  }

  lemma SameFieldsSameTime(start: int, end: int, end': int, n: nat)
    requires MonthsLater(start, end, n) && MonthsLater(start, end', n)
    ensures end == end'
  {
    hide MakeDay, Leap, YearFromDay, MonthFromDay, DateFromDay, DaysInMonth;
    FieldsOfDay(Day(end));
    FieldsOfDay(Day(end'));
  }

  /** The calendar date of a period's end, and no other time, is what the setters produce. */
  lemma PeriodEndDates(start: int, end: int, length: PeriodLength)
    ensures EndsOnSchedule(start, end, length) <==> end == PeriodEnd(start, length)
  {
    hide FirstDay, Leap, DaysInMonth, DaysInYear, DayFromYear, YearFromDay, MonthFromDay, DateFromDay, Day, MonthsLater;
    var d := Day(start);
    var y, m, date := YearFromDay(d), MonthFromDay(d), DateFromDay(d);
    MonthsLand(d, y, m, date);
    FirstDayNormal(y, m + 12);
    FirstDayNormal(y + 1, m);
    var n := match length case WEEKLY => 0 case MONTHLY => 1 case QUARTERLY => 3 case YEARLY => 12;
    if length != WEEKLY {
      DaysOfMonths(start, n, PeriodDays(start, length));
      if MonthsLater(start, end, n) { SameFieldsSameTime(start, end, PeriodEnd(start, length), n); }
    }
  }

  /** Days count from 1 January 1970; 2000 was a leap year and 1900 was not. */
  lemma KnownDates()
    ensures Leap(2000) && !Leap(1900)
    ensures MakeDay(1970, 0, 1) == 0 && MakeDay(1969, 11, 31) == -1
    ensures MakeDay(2000, 1, 29) == 11016
    ensures MakeDay(1900, 1, 28) == -25509 && MakeDay(1900, 2, 1) == -25508
  {
    hide DaysBefore, FirstDay;
    MonthOffsets(false);
    MonthOffsets(true);
    FirstDayInYear(1970, 0);
    FirstDayInYear(1969, 11);
    FirstDayInYear(2000, 1);
    FirstDayInYear(1900, 1);
    FirstDayInYear(1900, 2);
  }

  lemma FirstDayInYear(y: int, m: int)
    requires 0 <= m < 12
    ensures FirstDay(y, m) == DayFromYear(y) + DaysBefore(m, Leap(y))
  {
    assert m / 12 == 0 && m % 12 == m;
  }

  /** 1 March is day 59 or 60 of its year, 1 December day 334 or 335, and so on. */
  lemma MonthOffsets(leap: bool)
    ensures DaysBefore(0, leap) == 0 && DaysBefore(1, leap) == 31
    ensures var extra := if leap then 1 else 0;
      && DaysBefore(2, leap) == 59 + extra && DaysBefore(3, leap) == 90 + extra && DaysBefore(4, leap) == 120 + extra
      && DaysBefore(5, leap) == 151 + extra && DaysBefore(6, leap) == 181 + extra && DaysBefore(7, leap) == 212 + extra
      && DaysBefore(8, leap) == 243 + extra && DaysBefore(9, leap) == 273 + extra && DaysBefore(10, leap) == 304 + extra
      && DaysBefore(11, leap) == 334 + extra && DaysBefore(12, leap) == 365 + extra
  {
  }

  lemma SpillOver(y: int, m: int, date: int, e: int)
    requires 0 <= m < 12 && 1 <= date <= 31 && e == MakeDay(y, m, date)
    ensures if date <= DaysInMonth(m, Leap(y)) then
        YearFromDay(e) == y && MonthFromDay(e) == m && DateFromDay(e) == date
      else
        YearFromDay(e) == y && MonthFromDay(e) == m + 1 && DateFromDay(e) == date - DaysInMonth(m, Leap(y))
  {
    hide FirstDay, Leap, DayFromYear, YearFromDay, MonthFromDay, DateFromDay;
    if date <= DaysInMonth(m, Leap(y)) {
      GettersInvertMakeDay(y, m, date);
    } else {
      MonthStep(y, m);
      GettersInvertMakeDay(y, m + 1, date - DaysInMonth(m, Leap(y)));
    }
  }

  lemma FirstDayNormal(y: int, m: int)
    ensures FirstDay(y, m) == FirstDay(y + m / 12, m % 12)
    ensures m % 12 / 12 == 0
  {
  }
}
