/** reports/reports_route.go: the decision whether a user may see an AWS
    account's reports, and the week a report mail covers. The two database
    lookups arrive as their results. */
module ReportsRoute {
  import opened Common
  import opened Calendar

  /** `isUserAccount`: the owner may; otherwise a user the account is shared
      with may; a failed lookup refuses with its error. `accountOwner` is the
      result of `AwsAccountByID` (the owner's user id), `sharedWith` that of
      `SharedAccountsByAccountID` (the user id of each row). */
  method IsUserAccount(userId: int, accountOwner: Result<int>, sharedWith: Result<seq<int>>)
    returns (ok: bool, err: Option<string>)
    ensures accountOwner.Err? ==> ok == false && err == Some(accountOwner.msg)
    ensures accountOwner.Ok? && accountOwner.value == userId ==> ok && err.None?
    ensures accountOwner.Ok? && accountOwner.value != userId && sharedWith.Err? ==>
              ok == false && err == Some(sharedWith.msg)
    ensures accountOwner.Ok? && accountOwner.value != userId && sharedWith.Ok? ==>
              ok == (userId in sharedWith.value) && err.None?
  {
    if accountOwner.Err? {
      return false, Some(accountOwner.msg);
    }
    if accountOwner.value == userId {
      return true, None;
    }
    if sharedWith.Err? {
      return false, Some(sharedWith.msg);
    }
    var saDB := sharedWith.value;
    var i := 0;
    while i < |saDB|
      invariant 0 <= i <= |saDB| && userId !in saDB[..i]
    {
      if saDB[i] == userId {
        return true, None;
      }
      assert saDB[..i + 1] == saDB[..i] + [saDB[i]];
      i := i + 1;
    }
    assert saDB[..i] == saDB;
    return false, None;
  }

  /** `getWeekDates(date)`: from midnight on the Sunday a week before the
      Sunday of `date`'s week to 23:59:59 on the Saturday before that week,
      both in `date`'s location and returned in UTC. */
  function WeekDates(date: Time): (Time, Time)
  {
    (WeekBegin(date), WeekEnd(date))
  }

  function WeekBegin(date: Time): Time
  {
    var d := Civil(date);
    UTC(Date(d.year, d.month, d.day - Weekday(date) - 7, 0, 0, 0, 0, date.offset))
  }

  function WeekEnd(date: Time): Time
  {
    var d := Civil(date);
    UTC(Date(d.year, d.month, d.day - Weekday(date) - 1, 23, 59, 59, 0, date.offset))
  }

  /** `t` seen in `date`'s location. */
  function InLocationOf(t: Time, date: Time): Time
  {
    Time(t.ns, date.offset)
  }

  /** In `date`'s location, the window starts on a Sunday at midnight, a
      week before the Sunday of `date`'s week, and ends six days later, on
      the Saturday before that week, at 23:59:59. */
  lemma WeekDatesWindow(date: Time)
    ensures var (begin, end) := WeekDates(date);
            var b := InLocationOf(begin, date);
            var e := InLocationOf(end, date);
            && begin.offset == 0 && end.offset == 0
            && Weekday(b) == 0 && ClockNs(b) == 0
            && DayOf(b) + 7 <= DayOf(date) < DayOf(b) + 14
            && Weekday(e) == 6 && DayOf(e) == DayOf(b) + 6
            && ClockNs(e) == (23 * 3600 + 59 * 60 + 59) * NsPerSecond
            && end.ns - begin.ns == 7 * NsPerDay - NsPerSecond
  {
    var b := InLocationOf(WeekBegin(date), date);
    var e := InLocationOf(WeekEnd(date), date);
    WeekBeginDay(date);
    WeekEndDay(date);
    var k := DayOf(date);
    var w := Weekday(date);
    WeekdayOf(date, k);
    PreviousWeek(k, w, k - w - 7, k - w - 1);
    WeekdayOf(b, k - w - 7);
    WeekdayOf(e, k - w - 1);
    SameDayClock(b, e, k - w - 7);
  }

  /** The window opens at midnight, seven days before the Sunday of
      `date`'s week. */
  lemma WeekBeginDay(date: Time)
    ensures WeekBegin(date).offset == 0
    ensures var b := InLocationOf(WeekBegin(date), date);
            DayOf(b) == DayOf(date) - Weekday(date) - 7 && ClockNs(b) == 0
  {
    var d := Civil(date);
    var t := Date(d.year, d.month, d.day - Weekday(date) - 7, 0, 0, 0, 0, date.offset);
    assert InLocationOf(WeekBegin(date), date) == t;
    DateFields(d.year, d.month, d.day - Weekday(date) - 7, 0, 0, 0, 0, date.offset);
    ShiftDay(d.year, d.month, d.day, -Weekday(date) - 7);
  }

  /** The window closes at 23:59:59, the day before the Sunday of `date`'s
      week. */
  lemma WeekEndDay(date: Time)
    ensures WeekEnd(date).offset == 0
    ensures var e := InLocationOf(WeekEnd(date), date);
            DayOf(e) == DayOf(date) - Weekday(date) - 1
            && ClockNs(e) == (23 * 3600 + 59 * 60 + 59) * NsPerSecond
  {
    var d := Civil(date);
    var t := Date(d.year, d.month, d.day - Weekday(date) - 1, 23, 59, 59, 0, date.offset);
    assert InLocationOf(WeekEnd(date), date) == t;
    DateFields(d.year, d.month, d.day - Weekday(date) - 1, 23, 59, 59, 0, date.offset);
    ShiftDay(d.year, d.month, d.day, -Weekday(date) - 1);
  }

  /** Two times in one location, `6` days and 23:59:59 apart on the clock,
      are a week less a second apart. */
  lemma SameDayClock(b: Time, e: Time, day: int)
    requires b.offset == e.offset
    requires DayOf(b) == day && ClockNs(b) == 0
    requires DayOf(e) == day + 6 && ClockNs(e) == (23 * 3600 + 59 * 60 + 59) * NsPerSecond
    ensures e.ns - b.ns == 7 * NsPerDay - NsPerSecond
  {
    assert WallNs(b) == day * NsPerDay;
    assert WallNs(e) == (day + 6) * NsPerDay + (23 * 3600 + 59 * 60 + 59) * NsPerSecond;
  }
}
