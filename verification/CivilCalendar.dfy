/**
 Proleptic Gregorian dates and day numbers, as section 21.4.1 of ECMA-262 defines them for `Date`.
 Day 0 is 1970-01-01. The wall-clock recurrence of the automations shifts a civil date with
 `new Date(Date.UTC(year, month - 1, day + step))` and reads the result back field by field.
 */
module CivilCalendar {
  import opened Wrappers

  datatype CivilDate = CivilDate(year: int, month: int, day: int)

  /** A `Date` holds at most 8.64e15 milliseconds on either side of the epoch: this many days. */
  const MAX_DAY: int := 100_000_000

  predicate IsLeap(y: int) {
    y % 4 == 0 && (y % 100 != 0 || y % 400 == 0)
  }

  function DaysInYear(y: int): int {
    if IsLeap(y) then 366 else 365
  }

  /** Day number of the first of January of year y. */
  function DayFromYear(y: int): int {
    365 * (y - 1970) + (y - 1969) / 4 - (y - 1901) / 100 + (y - 1601) / 400
  }

  /** Days of a year that lie before the first of month m; month 13 stands for the whole year. */
  function DaysBeforeMonth(m: int, leap: bool): int {
    var late := if leap then 1 else 0;
    if m <= 1 then 0 else if m == 2 then 31 else if m == 3 then 59 + late
    else if m == 4 then 90 + late else if m == 5 then 120 + late else if m == 6 then 151 + late
    else if m == 7 then 181 + late else if m == 8 then 212 + late else if m == 9 then 243 + late
    else if m == 10 then 273 + late else if m == 11 then 304 + late else if m == 12 then 334 + late
    else 365 + late
  }

  function DaysInMonth(y: int, m: int): int {
    DaysBeforeMonth(m + 1, IsLeap(y)) - DaysBeforeMonth(m, IsLeap(y))
  }

  predicate ValidDate(c: CivilDate) {
    1 <= c.month <= 12 && 1 <= c.day <= DaysInMonth(c.year, c.month)
  }

  function DayNumber(c: CivilDate): int {
    DayFromYear(c.year) + DaysBeforeMonth(c.month, IsLeap(c.year)) + c.day - 1
  }

  /** The year of a day: the largest y whose first day is not after it. */
  function YearFromDay(n: int): (y: int)
    ensures DayFromYear(y) <= n < DayFromYear(y + 1)
  {
    if n >= 0 then YearSearch(n, 1970) else YearsEarlier(n); YearSearch(n, 1970 + n)
  }

  function YearSearch(n: int, from: int): (y: int)
    requires DayFromYear(from) <= n
    ensures DayFromYear(y) <= n < DayFromYear(y + 1)
    decreases n - DayFromYear(from)
  {
    YearLength(from);
    if n < DayFromYear(from + 1) then from else YearSearch(n, from + 1)
  }

  function MonthSearch(d: int, leap: bool, from: int): (m: int)
    requires 1 <= from <= 12
    requires DaysBeforeMonth(from, leap) <= d < DaysBeforeMonth(13, leap)
    ensures from <= m <= 12
    ensures DaysBeforeMonth(m, leap) <= d < DaysBeforeMonth(m + 1, leap)
    decreases 12 - from
  {
    if from == 12 || d < DaysBeforeMonth(from + 1, leap) then from else MonthSearch(d, leap, from + 1)
  }

  function CivilInYear(y: int, inYear: int): (c: CivilDate)
    requires 0 <= inYear < DaysInYear(y)
    ensures ValidDate(c) && c.year == y && DayNumber(c) == DayFromYear(y) + inYear
  {
    var m := MonthSearch(inYear, IsLeap(y), 1);
    CivilDate(y, m, inYear - DaysBeforeMonth(m, IsLeap(y)) + 1)
  }

  function CivilFromDay(n: int): (c: CivilDate)
    ensures ValidDate(c) && DayNumber(c) == n
  {
    var y := YearFromDay(n);
    YearLength(y);
    CivilInYear(y, n - DayFromYear(y))
  }

  /** `new Date(Date.UTC(year, month - 1, day + step))`, read back; None is an invalid `Date`. */
  function ShiftDate(c: CivilDate, step: int): Option<CivilDate> {
    var year := if 0 <= c.year <= 99 then 1900 + c.year else c.year;
    var n := DayNumber(CivilDate(year, c.month, 1)) + (c.day + step) - 1;
    if -MAX_DAY <= n <= MAX_DAY then Some(CivilFromDay(n)) else None
  }

  lemma YearLength(y: int)
    ensures DayFromYear(y + 1) == DayFromYear(y) + DaysInYear(y)
  {
    FourthYear(y);
    HundredthYear(y);
    FourHundredthYear(y);
    LeapNesting(y);
  }

  lemma FourthYear(y: int)
    ensures (y - 1968) / 4 == (y - 1969) / 4 + (if y % 4 == 0 then 1 else 0)
  {
  }

  lemma HundredthYear(y: int)
    ensures (y - 1900) / 100 == (y - 1901) / 100 + (if y % 100 == 0 then 1 else 0)
  {
  }

  lemma FourHundredthYear(y: int)
    ensures (y - 1600) / 400 == (y - 1601) / 400 + (if y % 400 == 0 then 1 else 0)
  {
  }

  lemma LeapNesting(y: int)
    ensures y % 400 == 0 ==> y % 100 == 0
    ensures y % 100 == 0 ==> y % 4 == 0
  {
  }

  /** Walking one year per day backwards from 1970 is always far enough. */
  lemma {:induction false} YearsEarlier(n: int)
    requires n <= 0
    ensures DayFromYear(1970 + n) <= n
    decreases -n
  {
    if n < 0 {
      YearsEarlier(n + 1);
      YearLength(1970 + n);
    }
  }

  lemma {:induction false} YearStartsIncrease(y: int, z: int)
    requires y < z
    ensures DayFromYear(y + 1) <= DayFromYear(z)
    decreases z - y
  {
    if y + 1 < z {
      YearStartsIncrease(y + 1, z);
      YearLength(y + 1);
    }
  }

  /** The day number determines the date, so reading a date back after writing it changes nothing. */
  lemma CivilRoundTrip(c: CivilDate)
    requires ValidDate(c)
    ensures CivilFromDay(DayNumber(c)) == c
  {
    SameDaySameDate(c, CivilFromDay(DayNumber(c)));
  }

  lemma SameDaySameDate(c: CivilDate, d: CivilDate)
    requires ValidDate(c) && ValidDate(d) && DayNumber(c) == DayNumber(d)
    ensures c == d
  {
    assert c.year == d.year by {
      DateInItsYear(c);
      DateInItsYear(d);
      if c.year < d.year {
        YearStartsIncrease(c.year, d.year);
      } else if d.year < c.year {
        YearStartsIncrease(d.year, c.year);
      }
    }
    if c.month < d.month {
      MonthStartsIncrease(c.month, d.month, IsLeap(c.year));
    } else if d.month < c.month {
      MonthStartsIncrease(d.month, c.month, IsLeap(c.year));
    }
  }

  lemma MonthStartsIncrease(m: int, k: int, leap: bool)
    requires 1 <= m < k <= 13
    ensures DaysBeforeMonth(m + 1, leap) <= DaysBeforeMonth(k, leap)
  {
  }

  lemma DateInItsYear(c: CivilDate)
    requires ValidDate(c)
    ensures DayFromYear(c.year) <= DayNumber(c) < DayFromYear(c.year + 1)
  {
    YearLength(c.year);
  }

  /** Later days never fall in earlier years. */
  lemma YearsFollowDays(m: int, n: int)
    requires m <= n
    ensures CivilFromDay(m).year <= CivilFromDay(n).year
  {
    var y, z := YearFromDay(m), YearFromDay(n);
    if z < y {
      YearStartsIncrease(z, y);
    }
  }

  /**
   Month-end and leap-year rollover: shifting a date of year 100 or later adds the step to its day
   number. (Below year 100 `Date.UTC` reads the year as 1900 + year, which is why it is excluded.)
   */
  lemma ShiftAddsDays(c: CivilDate, step: int)
    requires ValidDate(c) && !(0 <= c.year <= 99)
    ensures ShiftDate(c, step) ==
      (if -MAX_DAY <= DayNumber(c) + step <= MAX_DAY then Some(CivilFromDay(DayNumber(c) + step)) else None)
  {
    assert DayNumber(CivilDate(c.year, c.month, 1)) + (c.day + step) - 1 == DayNumber(c) + step;
  }

  // ---------------------------------------------------------------- the Gregorian calendar

  function MonthLength(y: int, m: int): int {
    if m == 2 then (if IsLeap(y) then 29 else 28) else if m in {4, 6, 9, 11} then 30 else 31
  }

  /** The date on the next page of the calendar. */
  function NextDate(c: CivilDate): CivilDate {
    if c.day < MonthLength(c.year, c.month) then c.(day := c.day + 1)
    else if c.month < 12 then CivilDate(c.year, c.month + 1, 1)
    else CivilDate(c.year + 1, 1, 1)
  }

  lemma NextDateAddsOne(c: CivilDate)
    requires ValidDate(c)
    ensures ValidDate(NextDate(c)) && DayNumber(NextDate(c)) == DayNumber(c) + 1
  {
    YearLength(c.year);
    hide DayFromYear, IsLeap;
  }

  /** Day numbers count the pages of the Gregorian calendar from the first of January 1970. */
  lemma DayNumbersCountDates(c: CivilDate)
    requires ValidDate(c)
    ensures DayNumber(CivilDate(1970, 1, 1)) == 0
    ensures CivilFromDay(DayNumber(c) + 1) == NextDate(c)
  {
    assert DayNumber(CivilDate(1970, 1, 1)) == 0;
    hide DayNumber, DayFromYear, NextDate, ValidDate, CivilFromDay;
    NextDateAddsOne(c);
    CivilRoundTrip(NextDate(c));
  }

  /** A shift by one is the next date, and a shift by more is repeated shifting by one. */
  lemma ShiftIsRepeatedNextDate(c: CivilDate, step: int)
    requires ValidDate(c) && 0 <= step && 100 <= c.year && -MAX_DAY <= DayNumber(c) && DayNumber(c) + step + 1 <= MAX_DAY
    ensures ShiftDate(c, 0) == Some(c)
    ensures ShiftDate(c, step).Some? && ShiftDate(c, step + 1) == Some(NextDate(ShiftDate(c, step).value))
  {
    hide DayNumber, ShiftDate, NextDate, ValidDate, CivilFromDay;
    ShiftAddsDays(c, 0);
    ShiftAddsDays(c, step);
    ShiftAddsDays(c, step + 1);
    CivilRoundTrip(c);
    DayNumbersCountDates(CivilFromDay(DayNumber(c) + step));
  }

  /** Dates of the years 0 to 99 are read as dates of the twentieth century. */
  lemma TwoDigitYears(c: CivilDate, step: int)
    requires 0 <= c.year <= 99
    ensures ShiftDate(c, step) == ShiftDate(c.(year := 1900 + c.year), step)
  {
    hide DayNumber, CivilFromDay;
  }
}
