/** The reporting window of the analytics service: a range token
    ("today", "week", "month", "custom") and optional custom bounds become
    an inclusive interval from a local midnight to the last millisecond of
    a local day. The clock reading `now` and the fixed offset `tz` of the
    server's time zone are parameters. */
module AnalyticsRange {
  import opened Common
  import opened Domain

  const TodayToken: string := "today"
  const WeekToken: string := "week"
  const MonthToken: string := "month"
  const CustomToken: string := "custom"

  /** The interval getDateRange picks. `startDate`/`endDate` are instants
      already parsed from the query (None when absent or empty). An
      unknown token is treated like "today". */
  function DateRange(token: string, startDate: Option<int>, endDate: Option<int>, now: int, tz: int): (int, int)
  {
    if token == WeekToken then
      (StartOfLocalDay(now - 7 * MsPerDay, tz), EndOfLocalDay(now, tz))
    else if token == MonthToken then
      (StartOfLocalDay(now - 30 * MsPerDay, tz), EndOfLocalDay(now, tz))
    else if token == CustomToken then
      var s := if startDate.Some? then startDate.value else now - 7 * MsPerDay;
      var e := if endDate.Some? then endDate.value else now;
      (StartOfLocalDay(s, tz), EndOfLocalDay(e, tz))
    else
      (StartOfLocalDay(now, tz), EndOfLocalDay(now, tz))
  }

  /** getDateRange, following the source's mutation of one Date value:
      `now` is first moved to the end of its day, and the "today" and
      default branches then move it back to the start of that same day. */
  method GetDateRange(token: string, startDate: Option<int>, endDate: Option<int>, clock: int, tz: int)
    returns (start: int, end: int)
    ensures (start, end) == DateRange(token, startDate, endDate, clock, tz)
    ensures LocalTimeOfDay(start, tz) == 0 && LocalTimeOfDay(end, tz) == MsPerDay - 1
  {
    var now := clock;
    now := EndOfLocalDay(now, tz);
    end := now;
    if token == TodayToken {
      now := StartOfLocalDay(now, tz);
      start := now;
      now := EndOfLocalDay(now, tz);
      end := now;
      SameDayBounds(clock, end, tz);
    } else if token == WeekToken {
      start := clock - 7 * MsPerDay;
      start := StartOfLocalDay(start, tz);
    } else if token == MonthToken {
      start := clock - 30 * MsPerDay;
      start := StartOfLocalDay(start, tz);
    } else if token == CustomToken {
      start := if startDate.Some? then startDate.value else clock - 7 * MsPerDay;
      end := if endDate.Some? then endDate.value else clock;
      start := StartOfLocalDay(start, tz);
      end := EndOfLocalDay(end, tz);
    } else {
      now := StartOfLocalDay(now, tz);
      start := now;
      SameDayBounds(clock, end, tz);
    }
  }

  /** Instants of one local day share their day boundaries. */
  lemma SameDayBounds(t: int, u: int, tz: int)
    requires LocalDay(u, tz) == LocalDay(t, tz)
    ensures StartOfLocalDay(u, tz) == StartOfLocalDay(t, tz)
    ensures EndOfLocalDay(u, tz) == EndOfLocalDay(t, tz)
  {
  }

  /** The preset windows end with today and start k local days earlier:
      they hold exactly the instants whose local day is in [today - k, today]. */
  lemma {:induction false} PresetWindow(token: string, now: int, tz: int, t: int)
    requires token == WeekToken || token == MonthToken
    ensures var k := if token == WeekToken then 7 else 30;
            var (s, e) := DateRange(token, None, None, now, tz);
            s <= t <= e <==> LocalDay(now, tz) - k <= LocalDay(t, tz) <= LocalDay(now, tz)
  {
    var k := if token == WeekToken then 7 else 30;
    var (s, e) := DateRange(token, None, None, now, tz);
    ShiftDays(now, tz, k);
    var d0 := LocalDay(now - k * MsPerDay, tz);
    var d1 := LocalDay(now, tz);
    assert s == d0 * MsPerDay - tz && e == (d1 + 1) * MsPerDay - 1 - tz;
    DayOrder(t, tz, d0, d1);
  }

  /** Going back k whole days moves the local day back by k. */
  lemma ShiftDays(t: int, tz: int, k: int)
    ensures LocalDay(t - k * MsPerDay, tz) == LocalDay(t, tz) - k
  {
    var d := LocalDay(t, tz);
    FloorDivUnique(t - k * MsPerDay + tz, MsPerDay, d - k);
  }

  /** An instant lies between the midnight opening day d0 and the last
      millisecond of day d1 exactly when its local day is in [d0, d1]. */
  lemma DayOrder(t: int, tz: int, d0: int, d1: int)
    ensures d0 * MsPerDay - tz <= t <= (d1 + 1) * MsPerDay - 1 - tz
        <==> d0 <= LocalDay(t, tz) <= d1
  {
    var d := LocalDay(t, tz);
    MulMonotone(MsPerDay, d0, d);
    MulMonotone(MsPerDay, d + 1, d0);
    MulMonotone(MsPerDay, d, d1);
    MulMonotone(MsPerDay, d1 + 1, d);
  }

  /** "today" and every unknown token give the bounds of the current local day. */
  lemma TodayWindow(token: string, startDate: Option<int>, endDate: Option<int>, now: int, tz: int, t: int)
    requires token != WeekToken && token != MonthToken && token != CustomToken
    ensures var (s, e) := DateRange(token, startDate, endDate, now, tz);
            s <= t <= e <==> LocalDay(t, tz) == LocalDay(now, tz)
  {
    SameLocalDay(now, t, tz);
  }
}
