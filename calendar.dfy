/**
 * The proleptic Gregorian calendar of Python's `datetime.date`. A date is
 * represented by its day number: the count of days since 1970-01-01, which is
 * `date.toordinal()` minus the ordinal of the Unix epoch.
 */
module Calendar {

  predicate IsLeap(y: int) {
    y % 4 == 0 && (y % 100 != 0 || y % 400 == 0)
  }

  function DaysInMonth(y: int, m: int): int
    requires 1 <= m <= 12
  {
    if m == 2 then (if IsLeap(y) then 29 else 28)
    else if m == 4 || m == 6 || m == 9 || m == 11 then 30
    else 31
  }

  /** What `date(y, m, d)` accepts; anything else raises ValueError. */
  predicate IsValidDate(y: int, m: int, d: int) {
    1 <= y <= 9999 && 1 <= m <= 12 && 1 <= d <= DaysInMonth(y, m)
  }

  /** Days in the months of year `y` before month `m`. */
  function DaysBeforeMonth(y: int, m: int): int
    requires 1 <= m <= 12
  {
    if m == 1 then 0 else DaysBeforeMonth(y, m - 1) + DaysInMonth(y, m - 1)
  }

  /** Days in the years before year `y`, counted from 0001-01-01. */
  function DaysBeforeYear(y: int): int
    requires y >= 1
  {
    var p := y - 1;
    p * 365 + p / 4 - p / 100 + p / 400
  }

  /** `date(y, m, d).toordinal()`: 0001-01-01 is day 1. */
  function Ordinal(y: int, m: int, d: int): int
    requires IsValidDate(y, m, d)
  {
    DaysBeforeYear(y) + DaysBeforeMonth(y, m) + d
  }

  /** `date(1970, 1, 1).toordinal()`. */
  const EpochOrdinal := 719163

  /** The day number of a valid date: days since 1970-01-01. */
  function DayNumber(y: int, m: int, d: int): int
    requires IsValidDate(y, m, d)
  {
    Ordinal(y, m, d) - EpochOrdinal
  }

  /** `date.weekday()` of a day number: Monday is 0 and Sunday is 6. */
  function Weekday(day: int): (w: int)
    ensures 0 <= w < 7
  {
    (day + EpochOrdinal + 6) % 7
  }

  const Saturday := 5
  const Sunday := 6

  /** The calendar date after a valid date, by the month lengths alone. */
  function NextDate(y: int, m: int, d: int): (int, int, int)
    requires IsValidDate(y, m, d)
  {
    if d < DaysInMonth(y, m) then (y, m, d + 1)
    else if m < 12 then (y, m + 1, 1)
    else (y + 1, 1, 1)
  }

  /**
   * Day numbers count calendar days: 1970-01-01 is day 0, a Thursday, and the
   * date after any valid date (up to 9999-12-31) is valid and has the next day
   * number, so the difference of two day numbers is the number of days between.
   */
  lemma {:induction false} DayNumberCountsDays(y: int, m: int, d: int)
    requires IsValidDate(y, m, d) && y < 9999
    ensures DayNumber(1970, 1, 1) == 0 && Weekday(0) == 3
    ensures var (y', m', d') := NextDate(y, m, d);
      IsValidDate(y', m', d') && DayNumber(y', m', d') == DayNumber(y, m, d) + 1
  {
    var (y', m', d') := NextDate(y, m, d);
    if d == DaysInMonth(y, m) && m == 12 {
      DaysInYear(y);
      assert DaysBeforeYear(y + 1) == DaysBeforeYear(y) + DaysBeforeMonth(y, 12) + 31;
    }
  }

  /** A year has 365 days, plus one when it is a leap year. */
  lemma DaysInYear(y: int)
    requires y >= 1
    ensures DaysBeforeYear(y + 1) - DaysBeforeYear(y) == DaysBeforeMonth(y, 12) + 31
  {
    LeapStep(y);
    MonthTable(y);
    assert DaysBeforeYear(y + 1) == y * 365 + y / 4 - y / 100 + y / 400;
    assert DaysBeforeYear(y) == (y - 1) * 365 + (y - 1) / 4 - (y - 1) / 100 + (y - 1) / 400;
  }

  /** The leap-year rule is what the quotients in `DaysBeforeYear` count. */
  lemma LeapStep(y: int)
    requires y >= 1
    ensures (y / 4 - (y - 1) / 4) - (y / 100 - (y - 1) / 100) + (y / 400 - (y - 1) / 400)
         == if IsLeap(y) then 1 else 0
  {
    StepQuotients(y - 1);
    assert y % 400 == 0 ==> y % 100 == 0 && y % 4 == 0;
    assert y % 100 == 0 ==> y % 4 == 0;
  }

  lemma MonthTable(y: int)
    ensures DaysBeforeMonth(y, 12) == 334 + if IsLeap(y) then 1 else 0
  {
    var leapDay := if IsLeap(y) then 1 else 0;
    assert DaysBeforeMonth(y, 2) == 31;
    assert DaysBeforeMonth(y, 3) == 59 + leapDay;
    assert DaysBeforeMonth(y, 4) == 90 + leapDay;
    assert DaysBeforeMonth(y, 5) == 120 + leapDay;
    assert DaysBeforeMonth(y, 6) == 151 + leapDay;
    assert DaysBeforeMonth(y, 7) == 181 + leapDay;
    assert DaysBeforeMonth(y, 8) == 212 + leapDay;
    assert DaysBeforeMonth(y, 9) == 243 + leapDay;
    assert DaysBeforeMonth(y, 10) == 273 + leapDay;
    assert DaysBeforeMonth(y, 11) == 304 + leapDay;
    assert DaysBeforeMonth(y, 12) == 334 + leapDay;
  }

  /** Moving from `p` to `p + 1` steps `p / 4`, `p / 100` and `p / 400` exactly at multiples. */
  lemma StepQuotients(p: int)
    requires p >= 0
    ensures (p + 1) / 4 - p / 4 == if (p + 1) % 4 == 0 then 1 else 0
    ensures (p + 1) / 100 - p / 100 == if (p + 1) % 100 == 0 then 1 else 0
    ensures (p + 1) / 400 - p / 400 == if (p + 1) % 400 == 0 then 1 else 0
  {
  }
}
