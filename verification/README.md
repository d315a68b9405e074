# Triad/Date and Series, modelled in Dafny

This project models the two teaching components of the OOP_3 laboratory work.

- **Lab3_1**: `Triad` is a triple of numbers whose `increase_by_one` adds one
  to each field. `Date` reuses the triple as (year, month, day). Its
  `increase_by_one` and `increase_date_by_n_days` add to the day and then call
  `normalize_date`. That loop carries an overflowing day into the following
  months and years. Month lengths come from `days_in_month`, which uses the
  proleptic Gregorian leap-year rule of `is_leap_year`.
- **Lab3_2**: the abstract `Series` and its two subclasses. `Linear` is an
  arithmetic progression. `Exponential` is a geometric progression. Each
  gives its j-th term (`get_element`) and the closed-form sum of terms 0..n
  (`get_sum`), and has property setters for `a0`, `d` and `r`.

Modules:

- `Triads` (`triads.dfy`): `Triad.increase_by_one`.
- `Calendar` (`calendar.dfy`): the leap-year rule and month lengths. It also
  defines a day ordinal: days before the year, plus days before the month,
  plus the day. The ordinal is linear in the day, so it also has a meaning
  while the day is out of range.
- `Dates` (`dates.dfy`): `Date`, the normalization loop and the two
  increase operations. There are two forms of the loop. `Normalize` is a
  recursive function. `NormalizeDate` is the `while` loop itself, proved
  equal to `Normalize`. The main property is that normalization keeps the
  ordinal. Advancing a valid date by `n >= 0` days therefore yields the only
  valid date whose ordinal is `n` larger.
- `DateText` (`date_text.dfy`): `Date.__str__`, which uses Python's `04d` and
  `02d` zero-padded formats. A digit reader shows that each field of the
  string reads back as its value.
- `Progressions` (`progressions.dfy`): `Series` is a datatype with the
  constructors `Linear(a0, d)` and `Exponential(a0, r)`. `Element` and `Sum`
  model the source formulas. `TermSum`, the terms added one by one, is the
  independent reference that the closed forms are proved against.

Python objects change in place. Here every operation returns a new value.
Python's `%` and Dafny's `%` agree for the positive divisors 4, 100 and 400,
so the leap-year rule is modelled exactly for negative years as well.

The model follows what the code does, including these details:

- Normalization never checks the month. A date whose day already fits its
  month is returned unchanged, even if the month is outside 1..12. Once the
  loop carries at least once, a month of 0 or more ends in 1..12: 0 steps to
  1, and any month of 12 or more wraps to 1 of the next year. A negative
  month climbs by one per carry. It reaches 1..12 only if the day is large
  enough; otherwise it stops below 1, at 0 or at a negative month. `Normalize` states the first two
  facts, and `NormalizeOutOfRangeMonths` shows the negative case on concrete
  dates.
- Normalization never repairs a day below 1. `Normalize` promises
  `1 <= day` only if the loop ran at least once or the day was already
  positive.
- In `input_data`, a failed second `float(input(...))` leaves `a0` already
  overwritten, so the parameters are not "left unchanged" on error. That
  operation is not modelled (see Left out).

## Model

| member | source | states |
|---|---|---|
| Triads.IncreaseByOne | code/Lab3_1.py:29-35 | each of a, b and c rises by exactly one and nothing else changes; nothing carries between fields |
| Triads.IncreaseByOneInvertible | code/Lab3_1.py:29-35 | subtracting one from each field undoes the increase, so distinct triads stay distinct |
| Triads.IncreaseByOneExample | code/Lab3_1.py:115-118 | the demo triad (1, 2, 3) becomes (2, 3, 4) |
| Calendar.IsLeapYear | code/Lab3_1.py:78-85 | the predicate is the rule of line 85, and every leap year it accepts is a multiple of 4 |
| Calendar.LeapYearCycle | code/Lab3_1.py:78-85 | the leap-year rule repeats every 400 years, and 400 consecutive years have 146097 days |
| Calendar.IsLeapYearExamples | code/Lab3_1.py:78-85 | 2000 and 2024 are leap years; 1900 and 2023 are not |
| Calendar.DaysInMonth | code/Lab3_1.py:87-100 | the result is 28..31: 30 exactly for months 4, 6, 9 and 11; 29 or 28 exactly for month 2 in a leap or common year; 31 for every other month value, including values outside 1..12 |
| Calendar.DaysBeforeNextYear | code/Lab3_1.py:78-85 | the closed-form count of days before a year grows by 366 after a leap year and by 365 after any other year |
| Calendar.MonthsFillYear | code/Lab3_1.py:87-100 | the twelve month lengths add up to 366 in a leap year and 365 otherwise |
| Calendar.NextMonthOrdinal | code/Lab3_1.py:107-111 | moving to the next month, or from December to January of the next year, while taking the month length off the day keeps the ordinal |
| Calendar.OrdinalInjective | code/Lab3_1.py:102-111 | two valid dates with the same ordinal are the same date, so a normalized date is fixed by its ordinal |
| Dates.Carry | code/Lab3_1.py:107-111 | one loop iteration lowers the day; a month of 0 or more moves into 1..12; from a month in 1..12 the ordinal is kept |
| Dates.Normalize | code/Lab3_1.py:102-111 | on exit the day is at most the month length; the value is unchanged if the day already fits; year never decreases and day never increases; a month in 1..12 stays in 1..12; a month of 0 or more ends in 1..12 if the loop ran; with a positive day and a month in 1..12 the result is a valid date |
| Dates.NormalizeOutOfRangeMonths | code/Lab3_1.py:106-111 | month -1 with day 100 in 2023 becomes 2023-02-07; month -1 with day 40 stops at month 0, day 9; month -3 with day 40 stops at month -2, day 9; month 13 with day 40 in 2023 becomes 2024-01-09 |
| Dates.NormalizeKeepsDayNumber | code/Lab3_1.py:102-111 | for a month in 1..12, normalization keeps the ordinal |
| Dates.NormalizeIdempotent | code/Lab3_1.py:106-111 | normalizing twice is the same as normalizing once |
| Dates.NormalizeDate | code/Lab3_1.py:102-111 | the loop terminates because the day falls at each step; it computes `Normalize`, so the day fits its month and, for a month in 1..12, the ordinal is kept |
| Dates.IncreaseByDays | code/Lab3_1.py:69-76 | for a valid date and n >= 0, the result is valid and its ordinal is n larger; n = 0 leaves a valid date unchanged; the year never decreases |
| Dates.IncreaseByOne | code/Lab3_1.py:61-66 | equals advancing by one day, so a valid date moves to the valid date with the next ordinal |
| Dates.IncreaseByDaysUnique | code/Lab3_1.py:69-76 | advancing a valid date by n days gives a valid date e exactly when e's ordinal is n larger |
| Dates.IncreaseByDaysAdds | code/Lab3_1.py:69-76 | advancing by m days and then by n days is the same as advancing by m + n days |
| Dates.IncreaseByDaysIsRepeatedIncrease | code/Lab3_1.py:61-76 | advancing by n + 1 days is advancing by n days and then calling `increase_by_one` |
| Dates.DemoYearEnd | code/Lab3_1.py:121-124 | 2023-12-31 plus one day is 2024-01-01 |
| Dates.DemoThirtyDays | code/Lab3_1.py:121-127 | 2023-12-31 plus one day and then 30 more days is 2024-01-31 |
| Dates.DemoLeapDay | code/Lab3_1.py:129-132 | 2024-02-28 plus one day is 2024-02-29 |
| Dates.DemoYearAfterCommonYear | code/Lab3_1.py:134-136 | 2023-01-01 plus 365 days is 2024-01-01 |
| Dates.DemoYearAfterLeapYear | code/Lab3_1.py:138-140 | 2024-01-01 plus 365 days is 2024-12-31, because 2024 is a leap year |
| DateText.FormatInt | code/Lab3_1.py:59 | the zero-padded field is at least as wide as requested; a negative value is '-' followed only by digits, and a non-negative one is all digits |
| DateText.Render | code/Lab3_1.py:53-59 | the string of any date has at least ten characters, and every character is a digit or '-' |
| DateText.FormatNatRoundTrip | code/Lab3_1.py:59 | a natural with at most `width` digits is formatted to exactly `width` characters, and they read back as the natural |
| DateText.RenderShape | code/Lab3_1.py:59 | for a valid date with year 0..9999 the string has 10 characters, '-' at positions 4 and 7, and the year, month and day read back from positions 0-3, 5-6 and 8-9 |
| DateText.FormatExamples | code/Lab3_1.py:59 | 2024 is formatted as "2024" at width 4; 2 as "02" and 29 as "29" at width 2; -1 as "-001" at width 4 |
| Progressions.Element | code/Lab3_2.py:144-150 | for the geometric term here and the arithmetic term of lines 80-86: term 0 is a0; an arithmetic progression with difference 0 and a geometric one with ratio 1 are constant |
| Progressions.Sum | code/Lab3_2.py:28-35 | for both kinds of series, the closed forms of lines 88-95 and 152-161 give the sum of terms 0..n, as the abstract method documents |
| Progressions.LinearStep | code/Lab3_2.py:80-86 | term 0 of an arithmetic progression is a0, and consecutive terms differ by exactly d |
| Progressions.ExponentialStep | code/Lab3_2.py:144-150 | term 0 of a geometric progression is a0, and each later term is r times the one before it |
| Progressions.LinearSumIsTermSum | code/Lab3_2.py:88-95 | the closed form (n+1)(a0 + a_n)/2 equals the sum of terms 0..n |
| Progressions.GeometricSumIsTermSum | code/Lab3_2.py:152-161 | both branches of the geometric `get_sum` equal the sum of terms 0..n: (n+1)a0 when r = 1, and (a0 - a_n r)/(1 - r) otherwise |
| Progressions.ConstantRatioTermSum | code/Lab3_2.py:158-160 | with ratio 1 the terms 0..n add up to (n+1)a0, the value of the r == 1 branch |
| Progressions.SetA0 | code/Lab3_2.py:58-63 | after the setter, a0 is the new value; the kind of series and its d or r are unchanged |
| Progressions.SetD | code/Lab3_2.py:122-127 | on a Linear series only d changes; a0 and the kind stay; an Exponential series is unchanged |
| Progressions.SetR | code/Lab3_2.py:190-195 | on an Exponential series only r changes; a0 and the kind stay; a Linear series is unchanged |
| Progressions.SettersAreLenses | code/Lab3_2.py:51-195 | writing back the value just read changes nothing, and a second write overrides the first, for all three setters |
| Progressions.SetA0Terms | code/Lab3_2.py:58-63 | a new a0 shifts every arithmetic term by the change, and makes each geometric term new a0 times r^j |
| Progressions.SetDTerms | code/Lab3_2.py:122-127 | a new d changes the j-th arithmetic term by j times the change in d |
| Progressions.LinearDemo | code/Lab3_2.py:212-216 | for Linear(1, 2), term 5 is 11 and the sum of terms 0..5 is 36 |
| Progressions.ExponentialDemo | code/Lab3_2.py:213-217 | for Exponential(2, 3), term 5 is 486 and the sum of terms 0..5 is 728 |

## Left out

- `input_data`, `output_data`, `print_series_info` and both `__main__` blocks are console I/O. Their demo values appear only as the computed demo lemmas. `input_data` also does not restore `a0` when the second number fails to parse.
- `Triad.__str__` is not modelled. It is plain `str` formatting of three numbers and nothing depends on it.
- Floating point: the series use exact `real` arithmetic. Float rounding is not modelled. Neither is the `OverflowError` that Python raises when a float `r ** j`, or a huge integer power times a float `a0`, is out of range. Parsing of float input is not modelled either. The indices `j` and `n` are naturals.
- Python's `ABC` and `abstractmethod` machinery, and the Date-is-a-Triad inheritance, are not modelled. `Series` is a two-constructor datatype and `Date` is its own datatype.
- Triads.IncreaseByOne: fields are modelled as `int`. The source accepts any number, but only integers are used with it.
- Dates.IncreaseByDays: the function accepts any integer `n`, like the source. Its ordinal guarantee covers only valid dates and `n >= 0`. For a negative `n` the source runs no loop iterations and may leave a day below 1, and the model does the same.
- DateText.RenderShape: the fixed ten-character shape is stated only for years 0..9999. `FormatInt` models the other years, including Python's sign-then-zeros padding for negative values, but no shape is claimed for them.
- Dates.NormalizeDate: in the source, `normalize_date` changes the object in place. The method instead returns the normalized value.
