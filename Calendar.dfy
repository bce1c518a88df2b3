/** Go's `time` package as the reports use it: instants in nanoseconds since the
    Unix epoch, each carrying the fixed UTC offset of its location; the
    proleptic Gregorian calendar; `time.Date` normalisation of out-of-range
    months and days. */
module Calendar {
  import opened Strings

  const NsPerSecond: int := 1_000_000_000
  const NsPerHour: int := 3600 * NsPerSecond
  const NsPerDay: int := 86400 * NsPerSecond

  predicate IsLeap(y: int)
  {
    y % 4 == 0 && (y % 100 != 0 || y % 400 == 0)
  }

  function DaysInYear(y: int): int
  {
    if IsLeap(y) then 366 else 365
  }

  function DaysInMonth(y: int, m: int): int
    requires 1 <= m <= 12
  {
    if m == 2 then (if IsLeap(y) then 29 else 28)
    else if m == 4 || m == 6 || m == 9 || m == 11 then 30
    else 31
  }

  /** Days of year `y` before the first of month `m`. */
  function DaysBeforeMonth(y: int, m: int): int
    requires 1 <= m <= 12
  {
    [0, 31, 59, 90, 120, 151, 181, 212, 243, 273, 304, 334][m - 1] + (if m > 2 && IsLeap(y) then 1 else 0)
  }

  /** Day number (days since 1970-01-01) of January 1st of year `y`. */
  function YearStart(y: int): int
    decreases if y >= 1970 then y - 1970 else 1970 - y
  {
    if y == 1970 then 0
    else if y > 1970 then YearStart(y - 1) + DaysInYear(y - 1)
    else YearStart(y + 1) - DaysInYear(y)
  }

  lemma YearStep(y: int)
    ensures YearStart(y + 1) == YearStart(y) + DaysInYear(y)
  {
  }

  lemma MonthStep(y: int, m: int)
    requires 1 <= m < 12
    ensures DaysBeforeMonth(y, m + 1) == DaysBeforeMonth(y, m) + DaysInMonth(y, m)
  {
  }

  lemma LastMonthEndsYear(y: int)
    ensures DaysBeforeMonth(y, 12) + DaysInMonth(y, 12) == DaysInYear(y)
  {
  }

  /** A calendar date, as `Year()`, `Month()` and `Day()` report it. */
  datatype YearMonthDay = YMD(year: int, month: int, day: int)

  predicate ValidDate(d: YearMonthDay)
  {
    1 <= d.month <= 12 && 1 <= d.day <= DaysInMonth(d.year, d.month)
  }

  /** `time.Date` first folds an out-of-range month into the year. */
  function NormalizeMonth(y: int, m: int): (r: (int, int))
    ensures 1 <= r.1 <= 12
    ensures r.0 * 12 + r.1 == y * 12 + m
  {
    (y + (m - 1) / 12, (m - 1) % 12 + 1)
  }

  /** Day number of day `d` of month `m` of year `y`, where month and day may be
      out of range: they carry into the year and month as in `time.Date`. */
  function DayNumber(y: int, m: int, d: int): int
  {
    var (ny, nm) := NormalizeMonth(y, m);
    YearStart(ny) + DaysBeforeMonth(ny, nm) + d - 1
  }

  /** Moving the day field by `k` moves the day number by `k`. */
  lemma ShiftDay(y: int, m: int, d: int, k: int)
    ensures DayNumber(y, m, d + k) == DayNumber(y, m, d) + k
  {
  }

  /** Day 0 of a month is the last day of the month before, and the month after
      December is January of the next year. */
  lemma {:induction false} DayZeroIsLastOfPreviousMonth(y: int, m: int)
    ensures var (py, pm) := NormalizeMonth(y, m - 1);
            DayNumber(y, m, 0) == DayNumber(py, pm, DaysInMonth(py, pm))
  {
    var (py, pm) := NormalizeMonth(y, m - 1);
    var (ny, nm) := NormalizeMonth(y, m);
    if pm < 12 {
      assert ny == py && nm == pm + 1;
      MonthStep(py, pm);
    } else {
      assert ny == py + 1 && nm == 1;
      YearStep(py);
      LastMonthEndsYear(py);
    }
  }

  lemma {:induction false} YearStartMonotonic(a: int, b: int)
    requires a < b
    ensures YearStart(a) < YearStart(b)
    decreases b - a
  {
    YearStep(a);
    if a + 1 < b {
      YearStartMonotonic(a + 1, b);
    }
  }

  /** A valid date's day number lies within its year and its month. */
  lemma {:induction false} DayNumberWithin(d: YearMonthDay)
    requires ValidDate(d)
    ensures YearStart(d.year) <= DayNumber(d.year, d.month, d.day) < YearStart(d.year + 1)
    ensures var start := YearStart(d.year) + DaysBeforeMonth(d.year, d.month);
            start <= DayNumber(d.year, d.month, d.day) < start + DaysInMonth(d.year, d.month)
  {
    YearStep(d.year);
    assert NormalizeMonth(d.year, d.month) == (d.year, d.month);
    if d.month < 12 {
      MonthStep(d.year, d.month);
      MonthStartsBefore(d.year, d.month + 1);
    } else {
      LastMonthEndsYear(d.year);
    }
  }

  lemma {:induction false} MonthStartsBefore(y: int, m: int)
    requires 1 <= m <= 12
    ensures DaysBeforeMonth(y, m) + DaysInMonth(y, m) <= DaysInYear(y)
  {
  }

  /** The year holding day number `n`. */
  function YearOfDay(n: int): (y: int)
    ensures YearStart(y) <= n < YearStart(y + 1)
  {
    if n >= 0 then YearUp(n, 1970) else YearDown(n, 1969)
  }

  function YearUp(n: int, y: int): (r: int)
    requires YearStart(y) <= n
    ensures YearStart(r) <= n < YearStart(r + 1)
    decreases n - YearStart(y)
  {
    YearStep(y);
    if n < YearStart(y + 1) then y else YearUp(n, y + 1)
  }

  function YearDown(n: int, y: int): (r: int)
    requires n < YearStart(y + 1)
    ensures YearStart(r) <= n < YearStart(r + 1)
    decreases YearStart(y + 1) - n
  {
    YearStep(y);
    if YearStart(y) <= n then y else YearDown(n, y - 1)
  }

  /** The month of year `y` holding day `r` of that year (0-based). */
  function MonthOfDay(y: int, r: int, m: int): (res: int)
    requires 1 <= m <= 12 && DaysBeforeMonth(y, m) <= r < DaysInYear(y)
    ensures m <= res <= 12
    ensures DaysBeforeMonth(y, res) <= r < DaysBeforeMonth(y, res) + DaysInMonth(y, res)
    decreases 12 - m
  {
    if m == 12 then
      LastMonthEndsYear(y);
      m
    else if r < DaysBeforeMonth(y, m) + DaysInMonth(y, m) then m
    else
      MonthStep(y, m);
      MonthOfDay(y, r, m + 1)
  }

  /** The calendar date of day number `n`. */
  function CivilFromDays(n: int): (d: YearMonthDay)
    ensures ValidDate(d)
    ensures DayNumber(d.year, d.month, d.day) == n
  {
    var y := YearOfDay(n);
    YearStep(y);
    var m := MonthOfDay(y, n - YearStart(y), 1);
    var d := YMD(y, m, n - YearStart(y) - DaysBeforeMonth(y, m) + 1);
    assert NormalizeMonth(y, m) == (y, m);
    d
  }

  /** Different valid dates have different day numbers, so `CivilFromDays`
      undoes `DayNumber` on them. */
  lemma {:induction false} CivilFromDayNumber(d: YearMonthDay)
    requires ValidDate(d)
    ensures CivilFromDays(DayNumber(d.year, d.month, d.day)) == d
  {
    var e := CivilFromDays(DayNumber(d.year, d.month, d.day));
    SameDayNumberSameYear(d, e);
    DayNumberWithin(d);
    DayNumberWithin(e);
    if e.month < d.month {
      MonthsOrdered(d.year, e.month, d.month);
    }
    if e.month > d.month {
      MonthsOrdered(d.year, d.month, e.month);
    }
  }

  /** Valid dates with the same day number are in the same year. */
  lemma {:induction false} SameDayNumberSameYear(d: YearMonthDay, e: YearMonthDay)
    requires ValidDate(d) && ValidDate(e)
    requires DayNumber(d.year, d.month, d.day) == DayNumber(e.year, e.month, e.day)
    ensures d.year == e.year
  {
    DayNumberWithin(d);
    DayNumberWithin(e);
    if e.year + 1 < d.year {
      YearStartMonotonic(e.year + 1, d.year);
    }
    if d.year + 1 < e.year {
      YearStartMonotonic(d.year + 1, e.year);
    }
  }

  lemma {:induction false} MonthsOrdered(y: int, a: int, b: int)
    requires 1 <= a < b <= 12
    ensures DaysBeforeMonth(y, a) + DaysInMonth(y, a) <= DaysBeforeMonth(y, b)
    decreases b - a
  {
    MonthStep(y, a);
    if a + 1 < b {
      MonthsOrdered(y, a + 1, b);
    }
  }

  /** A point in time: nanoseconds since 1970-01-01T00:00:00Z, and the offset in
      seconds east of UTC of the location it is displayed in (a location is
      modelled as one fixed offset). */
  datatype Time = Time(ns: int, offset: int)

  /** Nanoseconds since the epoch of the wall clock in `t`'s location. */
  function WallNs(t: Time): int
  {
    t.ns + t.offset * NsPerSecond
  }

  /** Day number of `t`'s date in its location. */
  function DayOf(t: Time): int
  {
    WallNs(t) / NsPerDay
  }

  /** Nanoseconds since midnight of `t`'s date in its location. */
  function ClockNs(t: Time): int
  {
    WallNs(t) % NsPerDay
  }

  function Civil(t: Time): YearMonthDay
  {
    CivilFromDays(DayOf(t))
  }

  /** `t.Weekday()`: 0 is Sunday; 1970-01-01 was a Thursday. */
  function Weekday(t: Time): int
  {
    (DayOf(t) + 4) % 7
  }

  /** The weekday of a time on day number `day`. */
  lemma WeekdayOf(t: Time, day: int)
    requires DayOf(t) == day
    ensures Weekday(t) == (day + 4) % 7
  {
  }

  /** `t.UTC()`: the same instant, displayed in UTC. */
  function UTC(t: Time): Time
  {
    Time(t.ns, 0)
  }

  /** Stepping back from day `n` by its weekday `w` reaches the Sunday of its
      week; `first` is the Sunday a week earlier and `last` the Saturday just
      before the week. */
  lemma PreviousWeek(n: int, w: int, first: int, last: int)
    requires w == (n + 4) % 7 && first == n - w - 7 && last == n - w - 1
    ensures (first + 4) % 7 == 0 && (last + 4) % 7 == 6
    ensures first + 7 <= n < first + 14 && last == first + 6
  {
  }

  /** `a.Before(b)`. */
  predicate Before(a: Time, b: Time)
  {
    a.ns < b.ns
  }

  /** `time.Date(y, mo, d, h, mi, s, ns, loc)` for a location with offset `offset`:
      every field may be out of range and carries into the next larger one. */
  function Date(y: int, mo: int, d: int, h: int, mi: int, s: int, ns: int, offset: int): (t: Time)
    ensures t.offset == offset
  {
    Time(DayNumber(y, mo, d) * NsPerDay + ((h * 60 + mi) * 60 + s) * NsPerSecond + ns - offset * NsPerSecond, offset)
  }

  /** A `time.Date` whose clock fields are within a day lands on day `DayNumber`
      at that clock time. */
  lemma {:induction false} DateFields(y: int, mo: int, d: int, h: int, mi: int, s: int, ns: int, offset: int)
    requires 0 <= h < 24 && 0 <= mi < 60 && 0 <= s < 60 && 0 <= ns < NsPerSecond
    ensures var t := Date(y, mo, d, h, mi, s, ns, offset);
            DayOf(t) == DayNumber(y, mo, d) && ClockNs(t) == ((h * 60 + mi) * 60 + s) * NsPerSecond + ns
  {
    var t := Date(y, mo, d, h, mi, s, ns, offset);
    var clock := ((h * 60 + mi) * 60 + s) * NsPerSecond + ns;
    assert 0 <= clock < NsPerDay;
    assert WallNs(t) == DayNumber(y, mo, d) * NsPerDay + clock;
    DivMod(DayNumber(y, mo, d), clock, NsPerDay);
  }

  lemma DivMod(q: int, r: int, n: int)
    requires n > 0 && 0 <= r < n
    ensures (q * n + r) / n == q && (q * n + r) % n == r
  {
    var a := q * n + r;
    var k := a / n - q;
    assert n * k == r - a % n;
    if k > 0 {
      MulAtLeast(k, n);
    } else if k < 0 {
      MulAtLeast(-k, n);
    }
  }

  lemma MulAtLeast(k: int, n: int)
    requires k >= 1 && n > 0
    ensures n * k >= n
  {
    if k > 1 {
      MulAtLeast(k - 1, n);
      assert n * k == n * (k - 1) + n;
    }
  }

  /** The date in `t`'s location as `t.Format("2006-01-02")` prints it. */
  function IsoDate(t: Time): string
  {
    var d := Civil(t);
    FormatInt(d.year, 4) + "-" + FormatInt(d.month, 2) + "-" + FormatInt(d.day, 2)
  }
}
