/** getProductivityTrend and getTimeDistribution. The trend splits the
    `days` local days before today into consecutive half-open one-day
    buckets and reports, per bucket, the completed tasks last updated in it
    and the tracked seconds of the entries started in it. The distribution
    reports, per category of the user, the tracked time of the recent
    entries of its tasks. */
module AnalyticsTrend {
  import opened Common
  import opened Domain
  import opened AnalyticsRange

  /** The elements whose key lies in the half-open interval [a, b). */
  function Within<T>(key: T -> int, a: int, b: int): T -> bool
  {
    (x: T) => a <= key(x) < b
  }

  /** Adjacent intervals: counting over [a, b) and [b, c) counts over [a, c). */
  lemma {:induction false} CountWithin<T>(s: seq<T>, key: T -> int, a: int, b: int, c: int)
    requires a <= b <= c
    ensures Count(s, Within(key, a, b)) + Count(s, Within(key, b, c)) == Count(s, Within(key, a, c))
  {
    if s != [] {
      CountWithin(s[1..], key, a, b, c);
    }
  }

  /** Adjacent intervals: summing over [a, b) and [b, c) sums over [a, c). */
  lemma {:induction false} SumWithin<T>(s: seq<T>, key: T -> int, a: int, b: int, c: int, f: T -> int)
    requires a <= b <= c
    ensures SumOf(Filter(s, Within(key, a, b)), f) + SumOf(Filter(s, Within(key, b, c)), f)
         == SumOf(Filter(s, Within(key, a, c)), f)
  {
    if s != [] {
      SumWithin(s[1..], key, a, b, c, f);
      FilterCons(s, Within(key, a, b));
      FilterCons(s, Within(key, b, c));
      FilterCons(s, Within(key, a, c));
      SumOfConcat(if Within(key, a, b)(s[0]) then [s[0]] else [], Filter(s[1..], Within(key, a, b)), f);
      SumOfConcat(if Within(key, b, c)(s[0]) then [s[0]] else [], Filter(s[1..], Within(key, b, c)), f);
      SumOfConcat(if Within(key, a, c)(s[0]) then [s[0]] else [], Filter(s[1..], Within(key, a, c)), f);
    }
  }

  // ---------------------------------------------------------------------
  // Productivity trend
  // ---------------------------------------------------------------------

  /** One day of the trend: the UTC day number of the bucket's first
      instant, the completed tasks, and the hours in hundredths. */
  datatype TrendPoint = TrendPoint(day: int, tasksCompleted: nat, hoursTracked: int)

  function TasksCompleted(p: TrendPoint): int { p.tasksCompleted }

  /** Local midnight `days` days ago: the first instant of the trend. */
  function TrendStart(days: int, now: int, tz: int): int
  {
    StartOfLocalDay(now - days * MsPerDay, tz)
  }

  /** The trend's task query: the user's completed tasks updated since start. */
  function FetchedTask(userId: Id, start: int): Task -> bool
  {
    (t: Task) => t.userId == userId && t.status == Completed && t.updatedAt >= start
  }

  /** The trend's entry query: the user's entries started since start. */
  function FetchedEntry(userId: Id, start: int): TimeEntry -> bool
  {
    (e: TimeEntry) => e.userId == userId && e.startTime >= start
  }

  /** The seconds tracked by the entries started in the day from d. */
  function BucketSeconds(entries: seq<TimeEntry>, d: int): int
  {
    SumOf(Filter(entries, Within(StartTime, d, d + MsPerDay)), DurationOrZero)
  }

  /** The bucket that starts i days after start. Hours are hundredths of
      seconds / 3600, rounded. */
  function PointAt(tasks: seq<Task>, entries: seq<TimeEntry>, start: int, i: int): TrendPoint
  {
    var d := start + i * MsPerDay;
    TrendPoint(UtcDay(d), Count(tasks, Within(UpdatedAt, d, d + MsPerDay)),
               RoundDiv(BucketSeconds(entries, d), 36))
  }

  /** The first n buckets. */
  function Trend(tasks: seq<Task>, entries: seq<TimeEntry>, start: int, n: nat): (r: seq<TrendPoint>)
    ensures |r| == n
  {
    if n == 0 then [] else Trend(tasks, entries, start, n - 1) + [PointAt(tasks, entries, start, n - 1)]
  }

  /** getProductivityTrend over the task and entry tables; `now` is the
      clock reading and `tz` the server's offset from UTC. */
  method ProductivityTrend(userId: Id, days: int, now: int, tz: int, taskTable: seq<Task>, entryTable: seq<TimeEntry>)
    returns (trend: seq<TrendPoint>)
    ensures var start := TrendStart(days, now, tz);
      trend == Trend(Filter(taskTable, FetchedTask(userId, start)), Filter(entryTable, FetchedEntry(userId, start)),
                     start, if days > 0 then days else 0)
  {
    var startDate := now - days * MsPerDay;
    startDate := StartOfLocalDay(startDate, tz);
    var tasks := Filter(taskTable, FetchedTask(userId, startDate));
    var entries := Filter(entryTable, FetchedEntry(userId, startDate));
    trend := [];
    var i := 0;
    while i < days
      invariant 0 <= i <= (if days > 0 then days else 0)
      invariant trend == Trend(tasks, entries, startDate, i)
    {
      var date := startDate + i * MsPerDay;
      var nextDate := date + MsPerDay;
      var completed := Count(tasks, Within(UpdatedAt, date, nextDate));
      var seconds := SumOf(Filter(entries, Within(StartTime, date, nextDate)), DurationOrZero);
      var point := TrendPoint(UtcDay(date), completed, RoundDiv(seconds, 36));
      assert point == PointAt(tasks, entries, startDate, i);
      trend := trend + [point];
      i := i + 1;
    }
    assert i == if days > 0 then days else 0;
    assert startDate == TrendStart(days, now, tz);
  }

  /** The buckets partition the window: the completions of all buckets add
      up to the completions in [start, start + n days). */
  lemma {:induction false} TrendCompleted(tasks: seq<Task>, entries: seq<TimeEntry>, start: int, n: nat)
    ensures SumOf(Trend(tasks, entries, start, n), TasksCompleted)
         == Count(tasks, Within(UpdatedAt, start, start + n * MsPerDay))
  {
    if n > 0 {
      var mid := start + (n - 1) * MsPerDay;
      var end := start + n * MsPerDay;
      TrendCompleted(tasks, entries, start, n - 1);
      LastCompleted(tasks, entries, start, n);
      CountWithin(tasks, UpdatedAt, start, mid, end);
      assert SumOf(Trend(tasks, entries, start, n), TasksCompleted)
          == Count(tasks, Within(UpdatedAt, start, mid)) + Count(tasks, Within(UpdatedAt, mid, end));
    } else {
      assert start + n * MsPerDay == start;
      CountEmpty(tasks, UpdatedAt, start);
    }
  }

  /** The last bucket adds the completions of its day. */
  lemma LastCompleted(tasks: seq<Task>, entries: seq<TimeEntry>, start: int, n: nat)
    requires n > 0
    ensures SumOf(Trend(tasks, entries, start, n), TasksCompleted)
         == SumOf(Trend(tasks, entries, start, n - 1), TasksCompleted)
          + Count(tasks, Within(UpdatedAt, start + (n - 1) * MsPerDay, start + n * MsPerDay))
  {
    var d := start + (n - 1) * MsPerDay;
    assert d + MsPerDay == start + n * MsPerDay;
    SumOfSnoc(Trend(tasks, entries, start, n - 1), PointAt(tasks, entries, start, n - 1), TasksCompleted);
  }

  lemma {:induction false} CountEmpty<T>(s: seq<T>, key: T -> int, a: int)
    ensures Count(s, Within(key, a, a)) == 0
  {
    if s != [] {
      CountEmpty(s[1..], key, a);
    }
  }

  /** The seconds of the first n buckets. */
  function BucketsSeconds(entries: seq<TimeEntry>, start: int, n: nat): int
  {
    if n == 0 then 0 else BucketsSeconds(entries, start, n - 1) + BucketSeconds(entries, start + (n - 1) * MsPerDay)
  }

  /** Every entry of the window is in exactly one bucket: the buckets'
      seconds add up to the seconds of [start, start + n days). */
  lemma {:induction false} TrendSeconds(entries: seq<TimeEntry>, start: int, n: nat)
    ensures BucketsSeconds(entries, start, n)
         == SumOf(Filter(entries, Within(StartTime, start, start + n * MsPerDay)), DurationOrZero)
  {
    if n > 0 {
      TrendSeconds(entries, start, n - 1);
      SumWithin(entries, StartTime, start, start + (n - 1) * MsPerDay, start + n * MsPerDay, DurationOrZero);
    } else {
      FilterEmpty(entries, StartTime, start);
    }
  }

  lemma {:induction false} FilterEmpty<T>(s: seq<T>, key: T -> int, a: int)
    ensures Filter(s, Within(key, a, a)) == []
  {
    if s != [] {
      FilterEmpty(s[1..], key, a);
    }
  }

  /** The buckets are consecutive UTC days, in ascending order. */
  lemma TrendDays(tasks: seq<Task>, entries: seq<TimeEntry>, start: int, n: nat, i: int)
    requires 0 <= i < n
    ensures Trend(tasks, entries, start, n)[i] == PointAt(tasks, entries, start, i)
    ensures Trend(tasks, entries, start, n)[i].day == UtcDay(start) + i
  {
    TrendAt(tasks, entries, start, n, i);
    FloorDivUnique(start + i * MsPerDay, MsPerDay, UtcDay(start) + i);
  }

  lemma {:induction false} TrendAt(tasks: seq<Task>, entries: seq<TimeEntry>, start: int, n: nat, i: int)
    requires 0 <= i < n
    ensures Trend(tasks, entries, start, n)[i] == PointAt(tasks, entries, start, i)
  {
    if i < n - 1 {
      TrendAt(tasks, entries, start, n - 1, i);
    }
  }

  /** The window ends at today's local midnight: the trend covers the
      `days` days before today, and today is in none of its buckets. */
  lemma TrendEndsToday(days: int, now: int, tz: int)
    ensures TrendStart(days, now, tz) + days * MsPerDay == StartOfLocalDay(now, tz)
  {
    ShiftDays(now, tz, days);
  }

  /** The day label of a local midnight is its local day when the zone is
      at or west of UTC, and the day before when it is east of UTC. */
  lemma MidnightLabel(t: int, tz: int)
    requires -MsPerDay < tz < MsPerDay
    ensures tz <= 0 ==> UtcDay(StartOfLocalDay(t, tz)) == LocalDay(t, tz)
    ensures tz > 0 ==> UtcDay(StartOfLocalDay(t, tz)) == LocalDay(t, tz) - 1
  {
    var d := LocalDay(t, tz);
    if tz <= 0 {
      FloorDivUnique(d * MsPerDay - tz, MsPerDay, d);
    } else {
      FloorDivUnique(d * MsPerDay - tz, MsPerDay, d - 1);
    }
  }

  // ---------------------------------------------------------------------
  // Time distribution
  // ---------------------------------------------------------------------

  /** One category of the distribution; `hours` in hundredths. */
  datatype CategoryHours = CategoryHours(name: string, hours: int, color: Option<string>)

  /** 'week' looks back 7 days, any other period 30. */
  function PeriodDays(period: string): int
  {
    if period == WeekToken then 7 else 30
  }

  function OwnedBy(userId: Id): Category -> bool
  {
    (c: Category) => c.userId == userId
  }

  function InCategory(id: Id): TaskDetail -> bool
  {
    (d: TaskDetail) => d.task.categoryId == Some(id)
  }

  function StartsFrom(start: int): TimeEntry -> bool
  {
    (e: TimeEntry) => e.startTime >= start
  }

  /** The seconds of one task's entries started since start. */
  function TaskSeconds(start: int): TaskDetail -> int
  {
    (d: TaskDetail) => SumOf(Filter(d.timeEntries, StartsFrom(start)), DurationOrZero)
  }

  /** The seconds of the category's tasks since start. */
  function CategorySeconds(tasks: seq<TaskDetail>, start: int): Category -> int
  {
    (c: Category) => SumOf(Filter(tasks, InCategory(c.id)), TaskSeconds(start))
  }

  function HoursOfCategory(tasks: seq<TaskDetail>, start: int): Category -> CategoryHours
  {
    (c: Category) => CategoryHours(c.name, RoundDiv(CategorySeconds(tasks, start)(c), 36), c.color)
  }

  /** getTimeDistribution: one record per category of the user, in table
      order, with the recent tracked time of its tasks. */
  function TimeDistribution(userId: Id, period: string, now: int, tz: int,
                            categories: seq<Category>, tasks: seq<TaskDetail>): (r: seq<CategoryHours>)
    ensures var owned := Filter(categories, OwnedBy(userId));
      |r| == |owned| &&
      forall i :: 0 <= i < |r| ==>
        var c := owned[i];
        var start := StartOfLocalDay(now - PeriodDays(period) * MsPerDay, tz);
        && c in categories && c.userId == userId
        && r[i].name == c.name && r[i].color == c.color
        && 2 * 36 * r[i].hours <= 2 * CategorySeconds(tasks, start)(c) + 36 < 2 * 36 * (r[i].hours + 1)
  {
    var start := StartOfLocalDay(now - PeriodDays(period) * MsPerDay, tz);
    var owned := Filter(categories, OwnedBy(userId));
    FilterMembers(categories, OwnedBy(userId));
    Map(owned, HoursOfCategory(tasks, start))
  }

  function Ids(cs: seq<Category>): seq<Id>
  {
    if cs == [] then [] else [cs[0].id] + Ids(cs[1..])
  }

  function InCategories(ids: seq<Id>): TaskDetail -> bool
  {
    (d: TaskDetail) => d.task.categoryId.Some? && d.task.categoryId.value in ids
  }

  /** Summing over one of two disjoint conditions and then the other sums
      over their union. */
  lemma {:induction false} SumOfUnion<T>(s: seq<T>, p: T -> bool, q: T -> bool, u: T -> bool, f: T -> int)
    requires forall i :: 0 <= i < |s| ==> (u(s[i]) <==> p(s[i]) || q(s[i])) && !(p(s[i]) && q(s[i]))
    ensures SumOf(Filter(s, u), f) == SumOf(Filter(s, p), f) + SumOf(Filter(s, q), f)
  {
    if s != [] {
      assert forall i :: 1 <= i < |s| ==> s[1..][i - 1] == s[i];
      SumOfUnion(s[1..], p, q, u, f);
      FilterCons(s, p);
      FilterCons(s, q);
      FilterCons(s, u);
      SumOfConcat(if p(s[0]) then [s[0]] else [], Filter(s[1..], p), f);
      SumOfConcat(if q(s[0]) then [s[0]] else [], Filter(s[1..], q), f);
      SumOfConcat(if u(s[0]) then [s[0]] else [], Filter(s[1..], u), f);
    }
  }

  lemma {:induction false} SumOfNothing<T>(s: seq<T>, p: T -> bool, f: T -> int)
    requires forall i :: 0 <= i < |s| ==> !p(s[i])
    ensures SumOf(Filter(s, p), f) == 0
  {
    if s != [] {
      assert forall i :: 1 <= i < |s| ==> s[1..][i - 1] == s[i];
      SumOfNothing(s[1..], p, f);
    }
  }

  /** With distinct category ids, no task is counted twice: the seconds of
      all the categories add up to the seconds of the tasks that have one
      of them. */
  lemma {:induction false} CategoriesCover(tasks: seq<TaskDetail>, start: int, cs: seq<Category>)
    requires forall i, j :: 0 <= i < j < |cs| ==> cs[i].id != cs[j].id
    ensures SumOf(cs, CategorySeconds(tasks, start))
         == SumOf(Filter(tasks, InCategories(Ids(cs))), TaskSeconds(start))
  {
    if cs == [] {
      SumOfNothing(tasks, InCategories([]), TaskSeconds(start));
    } else {
      var rest := cs[1..];
      assert forall i, j :: 0 <= i < j < |rest| ==> rest[i].id == cs[i + 1].id && rest[j].id == cs[j + 1].id;
      CategoriesCover(tasks, start, rest);
      IdsMembers(rest);
      assert cs[0].id !in Ids(rest);
      SumOfUnion(tasks, InCategory(cs[0].id), InCategories(Ids(rest)), InCategories(Ids(cs)), TaskSeconds(start));
    }
  }

  lemma {:induction false} IdsMembers(cs: seq<Category>)
    ensures forall id :: id in Ids(cs) <==> exists k :: 0 <= k < |cs| && cs[k].id == id
  {
    if cs != [] {
      IdsMembers(cs[1..]);
      assert forall k :: 1 <= k < |cs| ==> cs[1..][k - 1] == cs[k];
      forall id | exists k :: 0 <= k < |cs| && cs[k].id == id
        ensures id in Ids(cs)
      {
        var k :| 0 <= k < |cs| && cs[k].id == id;
        if k > 0 {
          assert cs[1..][k - 1].id == id;
        }
      }
    }
  }
}
