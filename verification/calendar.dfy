/**
 The proleptic Gregorian calendar rules that `Date` relies on: the leap-year
 test, month lengths, and a day ordinal that numbers every (year, month, day)
 so that the day of 0001-01-01 is 1.
 */
module Calendar {

  /** Leap year: divisible by 4 and not by 100, or divisible by 400.
      Python's `%` and Dafny's `%` agree for a positive divisor (both give a
      non-negative remainder), so the rule is the same for negative years.
      Every leap year is a multiple of 4. */
  predicate IsLeapYear(year: int)
    ensures IsLeapYear(year) ==> year % 4 == 0
  {
    MultipleOf400IsMultipleOf4(year);
    (year % 4 == 0 && year % 100 != 0) || year % 400 == 0
  }

  /** The months that have 30 days. */
  predicate IsThirtyDayMonth(month: int) {
    month == 4 || month == 6 || month == 9 || month == 11
  }

  /** Number of days in `month` of `year`. Month values outside 1..12 are not
      rejected: like every month that is neither February nor a 30-day month,
      they get 31 days. */
  function DaysInMonth(year: int, month: int): (n: int)
    ensures 28 <= n <= 31
    ensures n == 30 <==> IsThirtyDayMonth(month)
    ensures n == 29 <==> month == 2 && IsLeapYear(year)
    ensures n == 28 <==> month == 2 && !IsLeapYear(year)
    ensures n == 31 <==> month != 2 && !IsThirtyDayMonth(month)
  {
    if IsThirtyDayMonth(month) then 30
    else if month == 2 then (if IsLeapYear(year) then 29 else 28)
    else 31
  }

  function DaysInYear(year: int): int {
    if IsLeapYear(year) then 366 else 365
  }

  predicate ValidMonth(month: int) {
    1 <= month <= 12
  }

  /** Sum of the lengths of months 1 .. month-1 of `year`. */
  function DaysBeforeMonth(year: int, month: int): (n: int)
    requires 1 <= month <= 13
    ensures 28 * (month - 1) <= n <= 31 * (month - 1)
  {
    if month == 1 then 0 else DaysBeforeMonth(year, month - 1) + DaysInMonth(year, month - 1)
  }

  /** Number of days in the years 1 .. year-1 (negative for years before 1),
      in closed form; Dafny's `/` by a positive constant rounds down. */
  function DaysBeforeYear(year: int): int {
    var y := year - 1;
    365 * y + y / 4 - y / 100 + y / 400
  }

  /** Day number of (year, month, day). It is linear in `day`, so it is
      meaningful even when `day` is out of range for the month. */
  function Ordinal(year: int, month: int, day: int): int
    requires ValidMonth(month)
  {
    DaysBeforeYear(year) + DaysBeforeMonth(year, month) + day
  }

  lemma IsLeapYearExamples()
    ensures IsLeapYear(2000) && IsLeapYear(2024)
    ensures !IsLeapYear(1900) && !IsLeapYear(2023)
  {}

  /** The rule repeats every 400 years, and such a cycle has 146097 days:
      303 common years and 97 leap years. */
  lemma LeapYearCycle(year: int)
    ensures IsLeapYear(year + 400) == IsLeapYear(year)
    ensures DaysBeforeYear(year + 400) == DaysBeforeYear(year) + 146097
  {
    var y := year - 1;
    assert (y + 400) / 4 == y / 4 + 100;
    assert (y + 400) / 100 == y / 100 + 4;
    assert (y + 400) / 400 == y / 400 + 1;
  }

  /** Stepping from y - 1 to y raises the quotient by a positive constant
      exactly when y is a multiple of it. */
  lemma QuotientStep4(y: int)
    ensures y / 4 - (y - 1) / 4 == (if y % 4 == 0 then 1 else 0)
  {}

  lemma QuotientStep100(y: int)
    ensures y / 100 - (y - 1) / 100 == (if y % 100 == 0 then 1 else 0)
  {}

  lemma QuotientStep400(y: int)
    ensures y / 400 - (y - 1) / 400 == (if y % 400 == 0 then 1 else 0)
  {}

  lemma Divisible400Then100(y: int)
    requires y % 400 == 0
    ensures y % 100 == 0
  {
    var k := 4 * (y / 400);
    assert y == 100 * k;
  }

  lemma Divisible100Then4(y: int)
    requires y % 100 == 0
    ensures y % 4 == 0
  {
    var k := 25 * (y / 100);
    assert y == 4 * k;
  }

  lemma MultipleOf400IsMultipleOf4(y: int)
    ensures y % 400 == 0 ==> y % 4 == 0
  {
    if y % 400 == 0 {
      Divisible400Then100(y);
      Divisible100Then4(y);
    }
  }

  /** The closed form of `DaysBeforeYear` advances by the length of each year. */
  lemma DaysBeforeNextYear(year: int)
    ensures DaysBeforeYear(year + 1) == DaysBeforeYear(year) + DaysInYear(year)
  {
    var a, b, c := year / 4 - (year - 1) / 4, year / 100 - (year - 1) / 100, year / 400 - (year - 1) / 400;
    assert DaysBeforeYear(year + 1) == DaysBeforeYear(year) + 365 + a - b + c;
    QuotientStep4(year);
    QuotientStep100(year);
    QuotientStep400(year);
    if year % 400 == 0 {
      Divisible400Then100(year);
    }
    if year % 100 == 0 {
      Divisible100Then4(year);
    }
  }

  /** Months 1..12 of a year add up to the year's length. */
  lemma MonthsFillYear(year: int)
    ensures DaysBeforeMonth(year, 13) == DaysInYear(year)
  {
    var f := if IsLeapYear(year) then 1 else 0;
    assert DaysBeforeMonth(year, 2) == 31;
    assert DaysBeforeMonth(year, 3) == 59 + f;
    assert DaysBeforeMonth(year, 4) == 90 + f;
    assert DaysBeforeMonth(year, 5) == 120 + f;
    assert DaysBeforeMonth(year, 6) == 151 + f;
    assert DaysBeforeMonth(year, 7) == 181 + f;
    assert DaysBeforeMonth(year, 8) == 212 + f;
    assert DaysBeforeMonth(year, 9) == 243 + f;
    assert DaysBeforeMonth(year, 10) == 273 + f;
    assert DaysBeforeMonth(year, 11) == 304 + f;
    assert DaysBeforeMonth(year, 12) == 334 + f;
  }

  /** Days before a later month are at least those before an earlier month
      plus the earlier month's length. */
  lemma {:induction false} DaysBeforeMonthGrows(year: int, m1: int, m2: int)
    requires 1 <= m1 < m2 <= 13
    ensures DaysBeforeMonth(year, m1) + DaysInMonth(year, m1) <= DaysBeforeMonth(year, m2)
    decreases m2 - m1
  {
    if m1 + 1 < m2 {
      DaysBeforeMonthGrows(year, m1, m2 - 1);
    }
  }

  /** Each later year starts at least 365 days per year later. */
  lemma {:induction false} DaysBeforeYearGrows(y1: int, y2: int)
    requires y1 <= y2
    ensures DaysBeforeYear(y1) + 365 * (y2 - y1) <= DaysBeforeYear(y2)
    decreases y2 - y1
  {
    if y1 < y2 {
      DaysBeforeYearGrows(y1, y2 - 1);
      DaysBeforeNextYear(y2 - 1);
    }
  }

  /** A valid date's ordinal lies inside its year's range of day numbers. */
  lemma OrdinalWithinYear(year: int, month: int, day: int)
    requires ValidMonth(month) && 1 <= day <= DaysInMonth(year, month)
    ensures DaysBeforeYear(year) < Ordinal(year, month, day) <= DaysBeforeYear(year + 1)
  {
    if month < 12 {
      DaysBeforeMonthGrows(year, month, 13);
    }
    MonthsFillYear(year);
    DaysBeforeNextYear(year);
    assert DaysBeforeMonth(year, month) + DaysInMonth(year, month) <= DaysInYear(year);
  }

  /** Valid dates with equal ordinals are the same date. */
  lemma OrdinalInjective(y1: int, m1: int, d1: int, y2: int, m2: int, d2: int)
    requires ValidMonth(m1) && 1 <= d1 <= DaysInMonth(y1, m1)
    requires ValidMonth(m2) && 1 <= d2 <= DaysInMonth(y2, m2)
    requires Ordinal(y1, m1, d1) == Ordinal(y2, m2, d2)
    ensures y1 == y2 && m1 == m2 && d1 == d2
  {
    OrdinalWithinYear(y1, m1, d1);
    OrdinalWithinYear(y2, m2, d2);
    if y1 < y2 {
      DaysBeforeYearGrows(y1 + 1, y2);
    } else if y2 < y1 {
      DaysBeforeYearGrows(y2 + 1, y1);
    }
    assert y1 == y2;
    if m1 < m2 {
      DaysBeforeMonthGrows(y1, m1, m2);
    } else if m2 < m1 {
      DaysBeforeMonthGrows(y1, m2, m1);
    }
  }

  /** Moving past the end of a month into the next one (wrapping December into
      January of the next year) keeps the ordinal when the day is reduced by
      the month's length. */
  lemma NextMonthOrdinal(year: int, month: int, day: int)
    ensures ValidMonth(month) && month < 12 ==>
      Ordinal(year, month + 1, day - DaysInMonth(year, month)) == Ordinal(year, month, day)
    ensures month == 12 ==>
      Ordinal(year + 1, 1, day - DaysInMonth(year, month)) == Ordinal(year, month, day)
  {
    if month == 12 {
      MonthsFillYear(year);
      DaysBeforeNextYear(year);
    }
  }
}
