/**
 * Civil (time-zone-free) dates of the proleptic Gregorian calendar, as Python's `datetime`
 * module represents them: years 1 through 9999, leap years every fourth year except
 * centuries not divisible by 400.  `NextDay` is what `+ timedelta(days=1)` does to the date
 * part; `Ordinal` is `date.toordinal()` (0001-01-01 is day 1) and serves as the independent
 * reference against which `NextDay` is proved.
 */
module CivilDate {

  const MinYear := 1
  const MaxYear := 9999

  datatype Date = Date(year: int, month: int, day: int)

  predicate IsLeapYear(y: int) {
    y % 4 == 0 && (y % 100 != 0 || y % 400 == 0)
  }

  function DaysInMonth(y: int, m: int): (n: int)
    requires 1 <= m <= 12
    ensures 28 <= n <= 31
    ensures n == 29 <==> m == 2 && IsLeapYear(y)
    ensures n == 28 <==> m == 2 && !IsLeapYear(y)
  {
    if m == 2 then (if IsLeapYear(y) then 29 else 28)
    else if m == 4 || m == 6 || m == 9 || m == 11 then 30
    else 31
  }

  /** A real calendar date, without the upper year bound. */
  predicate WellFormed(d: Date) {
    d.year >= MinYear && 1 <= d.month <= 12 && 1 <= d.day <= DaysInMonth(d.year, d.month)
  }

  /** A date Python's `datetime` can represent. */
  predicate ValidDate(d: Date) {
    WellFormed(d) && d.year <= MaxYear
  }

  /** The calendar day after `d`, rolling over month and year ends. */
  function NextDay(d: Date): (r: Date)
    requires WellFormed(d)
    ensures WellFormed(r)
    ensures ValidDate(d) ==> (ValidDate(r) <==> d != Date(MaxYear, 12, 31))
  {
    if d.day < DaysInMonth(d.year, d.month) then Date(d.year, d.month, d.day + 1)
    else if d.month < 12 then Date(d.year, d.month + 1, 1)
    else Date(d.year + 1, 1, 1)
  }

  // ---------------------------------------------------------------------------------------
  // Day numbers: the reference definition of "one calendar day later"
  // ---------------------------------------------------------------------------------------

  function YearLength(y: int): int {
    if IsLeapYear(y) then 366 else 365
  }

  /** Days in the years 1 .. y-1. */
  function DaysBeforeYear(y: int): nat
    requires y >= MinYear
    decreases y
  {
    if y == MinYear then 0 else DaysBeforeYear(y - 1) + YearLength(y - 1)
  }

  /** Days in the months 1 .. m-1 of year y (m == 13 gives the whole year). */
  function DaysBeforeMonth(y: int, m: int): nat
    requires 1 <= m <= 13
    decreases m
  {
    if m == 1 then 0 else DaysBeforeMonth(y, m - 1) + DaysInMonth(y, m - 1)
  }

  /** Python's `date.toordinal()`: 0001-01-01 is day 1. */
  function Ordinal(d: Date): int
    requires WellFormed(d)
  {
    DaysBeforeYear(d.year) + DaysBeforeMonth(d.year, d.month) + d.day
  }

  /** The twelve months add up to the length of the year. */
  lemma {:induction false} MonthsFillYear(y: int)
    ensures DaysBeforeMonth(y, 13) == YearLength(y)
  {
    var feb := if IsLeapYear(y) then 29 else 28;
    assert DaysBeforeMonth(y, 2) == 31;
    assert DaysBeforeMonth(y, 3) == 31 + feb;
    assert DaysBeforeMonth(y, 4) == 62 + feb;
    assert DaysBeforeMonth(y, 5) == 92 + feb;
    assert DaysBeforeMonth(y, 6) == 123 + feb;
    assert DaysBeforeMonth(y, 7) == 153 + feb;
    assert DaysBeforeMonth(y, 8) == 184 + feb;
    assert DaysBeforeMonth(y, 9) == 215 + feb;
    assert DaysBeforeMonth(y, 10) == 245 + feb;
    assert DaysBeforeMonth(y, 11) == 276 + feb;
    assert DaysBeforeMonth(y, 12) == 306 + feb;
  }

  /** `NextDay` moves the day number forward by exactly one, across month and year ends. */
  lemma {:induction false} NextDayIsOneDayLater(d: Date)
    requires WellFormed(d)
    ensures Ordinal(NextDay(d)) == Ordinal(d) + 1
  {
    if d.day < DaysInMonth(d.year, d.month) {
    } else if d.month < 12 {
      assert DaysBeforeMonth(d.year, d.month + 1)
        == DaysBeforeMonth(d.year, d.month) + DaysInMonth(d.year, d.month);
    } else {
      MonthsFillYear(d.year);
      assert DaysBeforeMonth(d.year, 13) == DaysBeforeMonth(d.year, 12) + 31;
      assert DaysBeforeYear(d.year + 1) == DaysBeforeYear(d.year) + YearLength(d.year);
    }
  }

  /** Later months start after earlier months end. */
  lemma {:induction false} MonthsIncrease(y: int, m1: int, m2: int)
    requires 1 <= m1 < m2 <= 13
    ensures DaysBeforeMonth(y, m1) + DaysInMonth(y, m1) <= DaysBeforeMonth(y, m2)
    decreases m2
  {
    if m2 > m1 + 1 {
      MonthsIncrease(y, m1, m2 - 1);
    }
  }

  /** Later years start after earlier years end. */
  lemma {:induction false} YearsIncrease(y1: int, y2: int)
    requires MinYear <= y1 < y2
    ensures DaysBeforeYear(y1) + YearLength(y1) <= DaysBeforeYear(y2)
    decreases y2
  {
    if y2 > y1 + 1 {
      YearsIncrease(y1, y2 - 1);
    }
  }

  /** A date's day number lies within its own year. */
  lemma {:induction false} OrdinalWithinYear(d: Date)
    requires WellFormed(d)
    ensures DaysBeforeYear(d.year) < Ordinal(d) <= DaysBeforeYear(d.year) + YearLength(d.year)
  {
    MonthsFillYear(d.year);
    if d.month < 12 {
      MonthsIncrease(d.year, d.month, 13);
    }
  }

  /** Distinct dates have distinct day numbers. */
  lemma {:induction false} OrdinalInjective(d1: Date, d2: Date)
    requires WellFormed(d1) && WellFormed(d2)
    requires Ordinal(d1) == Ordinal(d2)
    ensures d1 == d2
  {
    OrdinalWithinYear(d1);
    OrdinalWithinYear(d2);
    if d1.year < d2.year {
      YearsIncrease(d1.year, d2.year);
    } else if d2.year < d1.year {
      YearsIncrease(d2.year, d1.year);
    } else if d1.month < d2.month {
      MonthsIncrease(d1.year, d1.month, d2.month);
    } else if d2.month < d1.month {
      MonthsIncrease(d1.year, d2.month, d1.month);
    }
  }

  /** `NextDay(d)` is the one real date whose day number follows that of `d`. */
  lemma NextDayUnique(d: Date, e: Date)
    requires WellFormed(d) && WellFormed(e)
    ensures Ordinal(e) == Ordinal(d) + 1 <==> e == NextDay(d)
  {
    NextDayIsOneDayLater(d);
    if Ordinal(e) == Ordinal(d) + 1 {
      OrdinalInjective(e, NextDay(d));
    }
  }

  /** Rollover at the ends of February in leap and common years, at a month end and at a year end. */
  lemma NextDayRollovers()
    ensures NextDay(Date(2024, 2, 28)) == Date(2024, 2, 29)
    ensures NextDay(Date(2024, 2, 29)) == Date(2024, 3, 1)
    ensures NextDay(Date(2023, 2, 28)) == Date(2023, 3, 1)
    ensures NextDay(Date(1900, 2, 28)) == Date(1900, 3, 1)
    ensures NextDay(Date(2000, 2, 28)) == Date(2000, 2, 29)
    ensures NextDay(Date(2025, 4, 30)) == Date(2025, 5, 1)
    ensures NextDay(Date(2024, 12, 31)) == Date(2025, 1, 1)
  {
  }
}
