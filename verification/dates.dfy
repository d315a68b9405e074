/**
 The `Date` value of Lab3_1: a (year, month, day) triple that is advanced by
 bumping the day and then carrying day overflow into months and years.
 The source mutates a `Date` object in place; here every operation returns
 the new value.
 */
module Dates {
  import opened Calendar

  /** No field is checked on construction: the day may exceed its month and
      the month may lie outside 1..12. Normalization moves a month of 0 or
      more into 1..12 only when it carries at least once; it never checks
      the month otherwise. */
  datatype Date = Date(year: int, month: int, day: int)

  /** A date whose month is 1..12 and whose day exists in that month. */
  predicate Valid(d: Date) {
    ValidMonth(d.month) && 1 <= d.day <= DaysInMonth(d.year, d.month)
  }

  function DayNumber(d: Date): int
    requires ValidMonth(d.month)
  {
    Ordinal(d.year, d.month, d.day)
  }

  /** One iteration of the normalization loop: drop the current month's
      length from the day and move to the next month, wrapping past 12 into
      January of the next year. */
  function Carry(d: Date): (r: Date)
    ensures r.day < d.day
    ensures 0 <= d.month ==> ValidMonth(r.month)
    ensures ValidMonth(d.month) ==> DayNumber(r) == DayNumber(d)
  {
    NextMonthOrdinal(d.year, d.month, d.day);
    var day := d.day - DaysInMonth(d.year, d.month);
    if d.month + 1 > 12 then Date(d.year + 1, 1, day) else Date(d.year, d.month + 1, day)
  }

  /** The normalization loop as a function: repeat `Carry` while the day
      exceeds the length of the current month. */
  function Normalize(d: Date): (r: Date)
    decreases d.day
    ensures r.day <= DaysInMonth(r.year, r.month)
    ensures d.day <= DaysInMonth(d.year, d.month) ==> r == d
    ensures d.day > DaysInMonth(d.year, d.month) ==> 1 <= r.day
    ensures r.day <= d.day
    ensures d.year <= r.year
    ensures ValidMonth(d.month) ==> ValidMonth(r.month)
    ensures 0 <= d.month && d.day > DaysInMonth(d.year, d.month) ==> ValidMonth(r.month)
    ensures 1 <= d.day ==> Valid(r) || !ValidMonth(d.month)
  {
    if d.day > DaysInMonth(d.year, d.month) then Normalize(Carry(d)) else d
  }

  /** Normalization never changes which day is denoted. */
  lemma {:induction false} NormalizeKeepsDayNumber(d: Date)
    requires ValidMonth(d.month)
    ensures DayNumber(Normalize(d)) == DayNumber(d)
    decreases d.day
  {
    if d.day > DaysInMonth(d.year, d.month) {
      NormalizeKeepsDayNumber(Carry(d));
    }
  }

  /** Normalizing twice is the same as normalizing once. */
  lemma NormalizeIdempotent(d: Date)
    ensures Normalize(Normalize(d)) == Normalize(d)
  {}

  /** The `while` loop of `normalize_date`, statement by statement. */
  method NormalizeDate(d: Date) returns (r: Date)
    ensures r == Normalize(d)
    ensures r.day <= DaysInMonth(r.year, r.month)
    ensures ValidMonth(d.month) ==> ValidMonth(r.month) && DayNumber(r) == DayNumber(d)
  {
    var a, b, c := d.year, d.month, d.day;
    while c > DaysInMonth(a, b)
      invariant Normalize(Date(a, b, c)) == Normalize(d)
      invariant ValidMonth(d.month) ==> ValidMonth(b) && Ordinal(a, b, c) == DayNumber(d)
      decreases c
    {
      c := c - DaysInMonth(a, b);
      b := b + 1;
      if b > 12 {
        b := 1;
        a := a + 1;
      }
    }
    r := Date(a, b, c);
  }

  /** `increase_date_by_n_days`: add `n` to the day, then normalize. */
  function IncreaseByDays(d: Date, n: int): (r: Date)
    ensures Valid(d) && 0 <= n ==> Valid(r) && DayNumber(r) == DayNumber(d) + n
    ensures Valid(d) && n == 0 ==> r == d
    ensures d.year <= r.year
  {
    var bumped := d.(day := d.day + n);
    if ValidMonth(d.month) then
      NormalizeKeepsDayNumber(bumped);
      Normalize(bumped)
    else
      Normalize(bumped)
  }

  /** `Date.increase_by_one`: add one to the day, then normalize. */
  function IncreaseByOne(d: Date): (r: Date)
    ensures r == IncreaseByDays(d, 1)
    ensures Valid(d) ==> Valid(r) && DayNumber(r) == DayNumber(d) + 1
  {
    Normalize(d.(day := d.day + 1))
  }

  /** The result of advancing a valid date is the only valid date with the
      advanced day number. */
  lemma IncreaseByDaysUnique(d: Date, n: nat, e: Date)
    requires Valid(d) && Valid(e)
    ensures IncreaseByDays(d, n) == e <==> DayNumber(e) == DayNumber(d) + n
  {
    var r := IncreaseByDays(d, n);
    if DayNumber(e) == DayNumber(d) + n {
      OrdinalInjective(r.year, r.month, r.day, e.year, e.month, e.day);
    }
  }

  /** Advancing by m days and then by n days is advancing by m + n days. */
  lemma IncreaseByDaysAdds(d: Date, m: nat, n: nat)
    requires Valid(d)
    ensures IncreaseByDays(IncreaseByDays(d, m), n) == IncreaseByDays(d, m + n)
  {
    var r1 := IncreaseByDays(IncreaseByDays(d, m), n);
    var r2 := IncreaseByDays(d, m + n);
    OrdinalInjective(r1.year, r1.month, r1.day, r2.year, r2.month, r2.day);
  }

  /** Advancing by n days is advancing one day at a time, n times. */
  lemma {:induction false} IncreaseByDaysIsRepeatedIncrease(d: Date, n: nat)
    requires Valid(d)
    ensures IncreaseByDays(d, n + 1) == IncreaseByOne(IncreaseByDays(d, n))
  {
    IncreaseByDaysAdds(d, n, 1);
    assert IncreaseByDays(IncreaseByDays(d, n), 1) == IncreaseByOne(IncreaseByDays(d, n));
  }

  /** The dates of the demonstration block of Lab3_1. */
  lemma DemoYearEnd()
    ensures IncreaseByOne(Date(2023, 12, 31)) == Date(2024, 1, 1)
  {}

  lemma DemoThirtyDays()
    ensures IncreaseByDays(IncreaseByOne(Date(2023, 12, 31)), 30) == Date(2024, 1, 31)
  {
    DemoYearEnd();
  }

  /** Months outside 1..12: a negative month climbs by one per carry and
      reaches 1..12 if the day is large enough; otherwise it stops below 1,
      at 0 or at a negative month. A month above 12 wraps to January. */
  lemma NormalizeOutOfRangeMonths()
    ensures Normalize(Date(2023, -1, 100)) == Date(2023, 2, 7)
    ensures Normalize(Date(2023, -1, 40)) == Date(2023, 0, 9)
    ensures Normalize(Date(2023, -3, 40)) == Date(2023, -2, 9)
    ensures Normalize(Date(2023, 13, 40)) == Date(2024, 1, 9)
  {}

  lemma DemoLeapDay()
    ensures IncreaseByOne(Date(2024, 2, 28)) == Date(2024, 2, 29)
  {}

  lemma DemoYearAfterCommonYear()
    ensures IncreaseByDays(Date(2023, 1, 1), 365) == Date(2024, 1, 1)
  {
    DaysBeforeNextYear(2023);
    IncreaseByDaysUnique(Date(2023, 1, 1), 365, Date(2024, 1, 1));
  }

  lemma DemoYearAfterLeapYear()
    ensures IncreaseByDays(Date(2024, 1, 1), 365) == Date(2024, 12, 31)
  {
    MonthsFillYear(2024);
    assert DaysBeforeMonth(2024, 12) == 335;
    assert DayNumber(Date(2024, 12, 31)) == DayNumber(Date(2024, 1, 1)) + 365;
    IncreaseByDaysUnique(Date(2024, 1, 1), 365, Date(2024, 12, 31));
  }
}
