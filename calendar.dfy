/** The proleptic Gregorian calendar of Python's `datetime` (years 1 to 9999)
    and the fixed shift `timedelta(hours=2)` applied by
    `FotmobAPI.add_hours_and_format`. */
module Calendar {
  import opened Errors

  const MinYear: int := 1
  const MaxYear: int := 9999
  /** The shift added to every UTC kick-off time, in hours. */
  const OffsetHours: int := 2
  const SecondsPerDay: int := 86400

  /** A naive datetime; `microsecond` is kept because the addition keeps it. */
  datatype DateTime = DateTime(year: int, month: int, day: int,
                               hour: int, minute: int, second: int, microsecond: int)

  predicate IsLeapYear(y: int)
  {
    y % 4 == 0 && (y % 100 != 0 || y % 400 == 0)
  }

  function DaysInYear(y: int): int
  {
    if IsLeapYear(y) then 366 else 365
  }

  function DaysInMonth(y: int, m: int): (n: int)
    requires 1 <= m <= 12
    ensures 28 <= n <= 31
    ensures n == 29 <==> m == 2 && IsLeapYear(y)
    ensures n == 28 <==> m == 2 && !IsLeapYear(y)
  {
    if m == 2 then (if IsLeapYear(y) then 29 else 28)
    else if m == 4 || m == 6 || m == 9 || m == 11 then 30
    else 31
  }

  /** The ranges the `datetime` constructor enforces. */
  predicate ValidDate(y: int, m: int, d: int)
  {
    MinYear <= y <= MaxYear && 1 <= m <= 12 && 1 <= d <= DaysInMonth(y, m)
  }

  predicate Valid(dt: DateTime)
  {
    && ValidDate(dt.year, dt.month, dt.day)
    && 0 <= dt.hour < 24 && 0 <= dt.minute < 60 && 0 <= dt.second < 60
    && 0 <= dt.microsecond < 1000000
  }

  // ----- Day numbering (the proleptic Gregorian ordinal, 0001-01-01 is day 1) -----

  function DaysBeforeYear(y: int): int
    requires y >= MinYear
  {
    var p := y - 1;
    p * 365 + p / 4 - p / 100 + p / 400
  }

  function DaysBeforeMonth(y: int, m: int): int
    requires 1 <= m <= 12
  {
    var table := [0, 0, 31, 59, 90, 120, 151, 181, 212, 243, 273, 304, 334];
    table[m] + (if m > 2 && IsLeapYear(y) then 1 else 0)
  }

  function Ordinal(y: int, m: int, d: int): int
    requires y >= MinYear && 1 <= m <= 12
  {
    DaysBeforeYear(y) + DaysBeforeMonth(y, m) + d
  }

  /** Seconds since 0001-01-01T00:00:00 (the microsecond is left aside). */
  function Seconds(dt: DateTime): int
    requires Valid(dt)
  {
    (Ordinal(dt.year, dt.month, dt.day) - 1) * SecondsPerDay
      + dt.hour * 3600 + dt.minute * 60 + dt.second
  }

  lemma MonthLength(y: int, m: int)
    requires 1 <= m < 12
    ensures DaysBeforeMonth(y, m + 1) == DaysBeforeMonth(y, m) + DaysInMonth(y, m)
  {
  }

  lemma YearLength(y: int)
    requires y >= MinYear
    ensures DaysBeforeYear(y + 1) == DaysBeforeYear(y) + DaysInYear(y)
    ensures DaysBeforeMonth(y, 12) + DaysInMonth(y, 12) == DaysInYear(y)
  {
    var p := y - 1;
    assert y / 4 - p / 4 == (if y % 4 == 0 then 1 else 0);
    assert y / 100 - p / 100 == (if y % 100 == 0 then 1 else 0);
    assert y / 400 - p / 400 == (if y % 400 == 0 then 1 else 0);
    assert y % 400 == 0 ==> y % 100 == 0;
    assert y % 100 == 0 ==> y % 4 == 0;
  }

  /** Whether the date is the last day `datetime` can represent. */
  predicate IsLastDay(y: int, m: int, d: int)
  {
    y == MaxYear && m == 12 && d == 31
  }

  /** The calendar day after a valid date, rolling over month and year ends. */
  function NextDay(y: int, m: int, d: int): (r: (int, int, int))
    requires ValidDate(y, m, d) && !IsLastDay(y, m, d)
    ensures ValidDate(r.0, r.1, r.2)
    ensures Ordinal(r.0, r.1, r.2) == Ordinal(y, m, d) + 1
  {
    if d < DaysInMonth(y, m) then (y, m, d + 1)
    else if m < 12 then
      MonthLength(y, m);
      (y, m + 1, 1)
    else
      YearLength(y);
      (y + 1, 1, 1)
  }

  /** `dt + timedelta(hours=2)`: OverflowError past the last representable day. */
  function AddOffset(dt: DateTime): (r: Result<DateTime>)
    requires Valid(dt)
    ensures r.Ok? <==> !(IsLastDay(dt.year, dt.month, dt.day) && dt.hour + OffsetHours >= 24)
    ensures r.Err? ==> r.error == DateOverflow
    ensures r.Ok? ==> Valid(r.value)
    ensures r.Ok? ==> Seconds(r.value) == Seconds(dt) + OffsetHours * 3600
    ensures r.Ok? ==> r.value.microsecond == dt.microsecond
  {
    var h := dt.hour + OffsetHours;
    if h < 24 then Ok(dt.(hour := h))
    else if IsLastDay(dt.year, dt.month, dt.day) then Err(DateOverflow)
    else
      var (y, m, d) := NextDay(dt.year, dt.month, dt.day);
      Ok(dt.(year := y, month := m, day := d, hour := h - 24))
  }

  /** `Seconds` tells valid datetimes apart up to the microsecond, so the
      shifted datetime of `AddOffset` is the only valid one two hours later. */
  lemma SecondsDetermineDateTime(a: DateTime, b: DateTime)
    requires Valid(a) && Valid(b)
    requires Seconds(a) == Seconds(b)
    ensures a.(microsecond := 0) == b.(microsecond := 0)
  {
    if (a.year, a.month, a.day) != (b.year, b.month, b.day) {
      if a.year < b.year || (a.year == b.year && (a.month < b.month || (a.month == b.month && a.day < b.day))) {
        OrdinalMonotone(a.year, a.month, a.day, b.year, b.month, b.day);
      } else {
        OrdinalMonotone(b.year, b.month, b.day, a.year, a.month, a.day);
      }
      assert false;
    }
  }

  /** Earlier valid dates have smaller day numbers. */
  lemma {:induction false} OrdinalMonotone(y: int, m: int, d: int, y': int, m': int, d': int)
    requires ValidDate(y, m, d) && ValidDate(y', m', d')
    requires (y, m, d) != (y', m', d')
    requires y < y' || (y == y' && (m < m' || (m == m' && d < d')))
    ensures Ordinal(y, m, d) < Ordinal(y', m', d')
  {
    if y < y' {
      YearLength(y);
      assert DaysBeforeMonth(y, m) + d <= DaysInYear(y) by {
        if m < 12 { MonthsBefore(y, m, 12); }
      }
      DaysBeforeYearMonotone(y + 1, y');
    } else if m < m' {
      MonthsBefore(y, m, m');
    }
  }

  lemma {:induction false} MonthsBefore(y: int, m: int, m': int)
    requires 1 <= m < m' <= 12
    ensures DaysBeforeMonth(y, m) + DaysInMonth(y, m) <= DaysBeforeMonth(y, m')
    decreases m' - m
  {
    MonthLength(y, m);
    if m + 1 < m' {
      MonthsBefore(y, m + 1, m');
    }
  }

  lemma {:induction false} DaysBeforeYearMonotone(y: int, y': int)
    requires MinYear <= y <= y'
    ensures DaysBeforeYear(y) <= DaysBeforeYear(y')
    decreases y' - y
  {
    if y < y' {
      YearLength(y);
      DaysBeforeYearMonotone(y + 1, y');
    }
  }

  /** Rollovers of the two-hour shift at month, February and year ends. */
  lemma RolloverExamples()
    ensures AddOffset(DateTime(2024, 3, 10, 15, 0, 0, 0)) == Ok(DateTime(2024, 3, 10, 17, 0, 0, 0))
    ensures AddOffset(DateTime(2024, 4, 30, 23, 15, 0, 0)) == Ok(DateTime(2024, 5, 1, 1, 15, 0, 0))
    ensures AddOffset(DateTime(2023, 2, 28, 22, 0, 0, 0)) == Ok(DateTime(2023, 3, 1, 0, 0, 0, 0))
    ensures AddOffset(DateTime(2024, 2, 28, 22, 0, 0, 0)) == Ok(DateTime(2024, 2, 29, 0, 0, 0, 0))
    ensures AddOffset(DateTime(1900, 2, 28, 23, 0, 0, 0)) == Ok(DateTime(1900, 3, 1, 1, 0, 0, 0))
    ensures AddOffset(DateTime(2000, 2, 28, 23, 0, 0, 0)) == Ok(DateTime(2000, 2, 29, 1, 0, 0, 0))
    ensures AddOffset(DateTime(2024, 2, 28, 23, 0, 0, 0)) == Ok(DateTime(2024, 2, 29, 1, 0, 0, 0))
    ensures AddOffset(DateTime(2024, 12, 31, 23, 30, 0, 0)) == Ok(DateTime(2025, 1, 1, 1, 30, 0, 0))
    ensures AddOffset(DateTime(2024, 12, 31, 23, 59, 59, 5)) == Ok(DateTime(2025, 1, 1, 1, 59, 59, 5))
    ensures AddOffset(DateTime(9999, 12, 31, 22, 0, 0, 0)) == Err(DateOverflow)
    ensures AddOffset(DateTime(9999, 12, 31, 21, 59, 59, 0)) == Ok(DateTime(9999, 12, 31, 23, 59, 59, 0))
  {
  }
}
