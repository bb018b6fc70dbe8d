/** UTC date-times as Go's time package breaks them down, and the instants they
    denote, in seconds since the start of year 0 of the proleptic Gregorian calendar. */
module Calendar {

  datatype DateTime = DateTime(year: int, month: int, day: int, hour: int, minute: int, second: int)

  /** A UTC time.Time: a second and the nanoseconds after it. */
  datatype Time = Time(civil: DateTime, nanos: nat)

  predicate Leap(y: int) { y % 4 == 0 && (y % 100 != 0 || y % 400 == 0) }

  function DaysIn(m: int, y: int): (d: int)
    ensures 28 <= d <= 31
  {
    if m == 2 then (if Leap(y) then 29 else 28)
    else if m == 4 || m == 6 || m == 9 || m == 11 then 30
    else 31
  }

  predicate Valid(d: DateTime) {
    && 0 <= d.year <= 9999 && 1 <= d.month <= 12 && 1 <= d.day <= DaysIn(d.month, d.year)
    && 0 <= d.hour < 24 && 0 <= d.minute < 60 && 0 <= d.second < 60
  }

  function DaysBeforeMonth(m: int, y: int): int
    requires 1 <= m <= 13
  {
    if m == 1 then 0 else DaysBeforeMonth(m - 1, y) + DaysIn(m - 1, y)
  }

  function DaysBeforeYear(y: nat): int {
    if y == 0 then 0 else DaysBeforeYear(y - 1) + DaysBeforeMonth(13, y - 1)
  }

  function Day(d: DateTime): int
    requires Valid(d)
  {
    DaysBeforeYear(d.year) + DaysBeforeMonth(d.month, d.year) + d.day - 1
  }

  function Clock(d: DateTime): int { (d.hour * 60 + d.minute) * 60 + d.second }

  function Instant(d: DateTime): int
    requires Valid(d)
  {
    Day(d) * 86400 + Clock(d)
  }

  /** The order of the six fields, most significant first. */
  predicate FieldsBefore(a: DateTime, b: DateTime) {
    || a.year < b.year
    || (a.year == b.year && (a.month < b.month
    || (a.month == b.month && (a.day < b.day
    || (a.day == b.day && (a.hour < b.hour
    || (a.hour == b.hour && (a.minute < b.minute
    || (a.minute == b.minute && a.second < b.second)))))))))
  }

  lemma {:induction false} MonthsAscend(m: int, n: int, y: int)
    requires 1 <= m < n <= 13
    ensures DaysBeforeMonth(m, y) + DaysIn(m, y) <= DaysBeforeMonth(n, y)
    decreases n
  {
    if m < n - 1 { MonthsAscend(m, n - 1, y); }
  }

  lemma {:induction false} YearsAscend(y: nat, z: nat)
    requires y < z
    ensures DaysBeforeYear(y) + DaysBeforeMonth(13, y) <= DaysBeforeYear(z)
    decreases z
  {
    if y < z - 1 {
      YearsAscend(y, z - 1);
      MonthsAscend(1, 13, z - 1);
    }
  }

  lemma DayWithinYear(d: DateTime)
    requires Valid(d)
    ensures DaysBeforeYear(d.year) <= Day(d) < DaysBeforeYear(d.year) + DaysBeforeMonth(13, d.year)
  {
    MonthsAscend(d.month, 13, d.year);
    if d.month > 1 { MonthsAscend(1, d.month, d.year); }
  }

  lemma DaysAscend(a: DateTime, b: DateTime)
    requires Valid(a) && Valid(b)
    requires (a.year, a.month, a.day) != (b.year, b.month, b.day) && FieldsBefore(a, b)
    ensures Day(a) < Day(b)
  {
    DayWithinYear(a);
    DayWithinYear(b);
    if a.year < b.year {
      YearsAscend(a.year, b.year);
    } else if a.month < b.month {
      MonthsAscend(a.month, b.month, a.year);
    }
  }

  lemma FieldsTotal(a: DateTime, b: DateTime)
    ensures a == b || FieldsBefore(a, b) || FieldsBefore(b, a)
  {
  }

  lemma BeforeInstant(a: DateTime, b: DateTime)
    requires Valid(a) && Valid(b) && FieldsBefore(a, b)
    ensures Instant(a) < Instant(b)
  {
    if (a.year, a.month, a.day) != (b.year, b.month, b.day) {
      DaysAscend(a, b);
      assert Clock(a) < 86400 && 0 <= Clock(b);
    } else {
      assert Clock(a) < Clock(b);
    }
  }

  /** Date-times are ordered field by field exactly as the instants they denote. */
  lemma FieldOrderIsTimeOrder(a: DateTime, b: DateTime)
    requires Valid(a) && Valid(b)
    ensures FieldsBefore(a, b) <==> Instant(a) < Instant(b)
    ensures a == b <==> Instant(a) == Instant(b)
  {
    FieldsTotal(a, b);
    if FieldsBefore(a, b) {
      BeforeInstant(a, b);
    } else if FieldsBefore(b, a) {
      BeforeInstant(b, a);
    }
  }
}
