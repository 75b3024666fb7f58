/**
 * The proleptic Gregorian calendar of Python's `datetime`, on which the
 * date parameters and the date display of filters rest. A time is an
 * integer number of seconds since 1970-01-01T00:00:00 UTC; a day is an
 * ordinal, 0001-01-01 being day 1 as in `date.toordinal()`.
 */
module Dates {
  import opened Common

  /** Seconds in a day. */
  const Day: int := 86400

  /** The largest day count a `timedelta` accepts (`timedelta.max.days`). */
  const MaxDays: int := 999999999

  /** `date(1970, 1, 1).toordinal()`. */
  const EpochOrdinal: int := 719163

  predicate IsLeap(y: int) {
    y % 4 == 0 && (y % 100 != 0 || y % 400 == 0)
  }

  function DaysInMonth(y: int, m: int): (n: int)
    requires 1 <= m <= 12
    ensures 28 <= n <= 31
  {
    if m == 2 then (if IsLeap(y) then 29 else 28)
    else if m == 4 || m == 6 || m == 9 || m == 11 then 30
    else 31
  }

  /** A date `datetime` accepts: years 1 to 9999, and a day that exists in its month. */
  predicate ValidDate(y: int, m: int, d: int) {
    1 <= y <= 9999 && 1 <= m <= 12 && 1 <= d <= DaysInMonth(y, m)
  }

  /** `_days_before_year`. */
  function DaysBeforeYear(y: int): int
    requires y >= 1
  {
    var p := y - 1;
    p * 365 + p / 4 - p / 100 + p / 400
  }

  /** `_days_before_month`. */
  function DaysBeforeMonth(y: int, m: int): (n: int)
    requires 1 <= m <= 12
    ensures 0 <= n <= 335
  {
    var before := [0, 0, 31, 59, 90, 120, 151, 181, 212, 243, 273, 304, 334];
    before[m] + (if m > 2 && IsLeap(y) then 1 else 0)
  }

  /** `date(y, m, d).toordinal()`. */
  function Ordinal(y: int, m: int, d: int): int
    requires ValidDate(y, m, d)
  {
    DaysBeforeYear(y) + DaysBeforeMonth(y, m) + d
  }

  /** `datetime(y, m, d, tzinfo=timezone.utc)` as a time. */
  function Timestamp(y: int, m: int, d: int): int
    requires ValidDate(y, m, d)
  {
    (Ordinal(y, m, d) - EpochOrdinal) * Day
  }

  /** `datetime.min` in UTC: 0001-01-01T00:00:00. */
  const MinTime: int := (1 - EpochOrdinal) * Day

  lemma MinTimeIsFirstDay()
    ensures Timestamp(1, 1, 1) == MinTime
  {
  }
}
