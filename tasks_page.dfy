/** The task board's list: the fetched tasks pass through the page's
    filters one after another, the survivors are grouped by their local
    creation day, the days are listed newest first and each day's tasks
    newest first. Days are day numbers and times of day minutes. */
module TasksPage {
  import opened Common
  import opened Domain
  import opened Sorting

  /** The page's filter state; "" and None stand for an unset field. The
      dates are local day numbers, the times `HH:mm` texts. */
  datatype PageFilters = PageFilters(
    status: string, priority: string, categoryId: string, search: string,
    startDate: Option<int>, endDate: Option<int>, startTime: string, endTime: string)

  // ---------------------------------------------------------------------
  // The filters
  // ---------------------------------------------------------------------

  function StatusOk(f: PageFilters): TaskDetail -> bool
  {
    (t: TaskDetail) => f.status == "" || StatusName(t.task.status) == f.status
  }

  function PriorityOk(f: PageFilters): TaskDetail -> bool
  {
    (t: TaskDetail) => f.priority == "" || PriorityName(t.task.priority) == f.priority
  }

  function CategoryOk(f: PageFilters): TaskDetail -> bool
  {
    (t: TaskDetail) => f.categoryId == "" || t.task.categoryId == Some(f.categoryId)
  }

  /** The term occurs, ignoring case, in the title, the description or the
      category's name; an absent description or category does not match. */
  predicate MatchesTerm(t: TaskDetail, term: string)
  {
    || ContainsIgnoringCase(t.task.title, term)
    || (t.task.description.Some? && ContainsIgnoringCase(t.task.description.value, term))
    || (t.category.Some? && ContainsIgnoringCase(t.category.value.name, term))
  }

  function SearchOk(f: PageFilters): TaskDetail -> bool
  {
    (t: TaskDetail) => f.search == "" || MatchesTerm(t, f.search)
  }

  /** Local midnight of a day and the last millisecond of a day. */
  function DayStart(day: int, tz: int): int { day * MsPerDay - tz }
  function DayEnd(day: int, tz: int): int { (day + 1) * MsPerDay - 1 - tz }

  /** `isWithinInterval(x, { start: a, end: b })` of date-fns 3 and later:
      the two bounds are put in order first, and both are inclusive. */
  predicate WithinInterval(x: int, a: int, b: int)
  {
    if a <= b then a <= x <= b else b <= x <= a
  }

  /** With both dates set, the creation instant lies in the interval from
      the start of the first day to the end of the last day; with one date
      set, it lies on the inclusive side of that bound; an unset bound does
      not limit. */
  predicate WithinDates(f: PageFilters, t: TaskDetail, tz: int)
  {
    if f.startDate.Some? && f.endDate.Some? then
      WithinInterval(t.task.createdAt, DayStart(f.startDate.value, tz), DayEnd(f.endDate.value, tz))
    else
      && (f.startDate.Some? ==> DayStart(f.startDate.value, tz) <= t.task.createdAt)
      && (f.endDate.Some? ==> t.task.createdAt <= DayEnd(f.endDate.value, tz))
  }

  function DateOk(f: PageFilters, tz: int): TaskDetail -> bool
  {
    (t: TaskDetail) => WithinDates(f, t, tz)
  }

  /** A number below 100 as two decimal digits. */
  function TwoDigits(n: int): (r: string)
    requires 0 <= n < 100
    ensures |r| == 2
  {
    [DigitChar(n / 10), DigitChar(n % 10)]
  }

  /** `format(date, 'HH:mm')` of the minute m of a day. */
  function Clock(m: int): (r: string)
    requires 0 <= m < 24 * 60
    ensures |r| == 5
  {
    TwoDigits(m / 60) + ":" + TwoDigits(m % 60)
  }

  /** The local minute of day of an instant. */
  function MinuteOfDay(t: int, tz: int): (m: int)
    ensures 0 <= m < 24 * 60
  {
    LocalTimeOfDay(t, tz) / MsPerMinute
  }

  /** The creation time of day, compared as text with the bounds, both
      inclusive; nothing wraps past midnight. */
  predicate WithinTimes(f: PageFilters, t: TaskDetail, tz: int)
  {
    var clock := Clock(MinuteOfDay(t.task.createdAt, tz));
    && (f.startTime != "" ==> StrLe(f.startTime, clock))
    && (f.endTime != "" ==> StrLe(clock, f.endTime))
  }

  function TimeOk(f: PageFilters, tz: int): TaskDetail -> bool
  {
    (t: TaskDetail) => WithinTimes(f, t, tz)
  }

  /** All filters of the page at once. */
  predicate Passes(f: PageFilters, tz: int, t: TaskDetail)
  {
    StatusOk(f)(t) && PriorityOk(f)(t) && CategoryOk(f)(t) && SearchOk(f)(t) && DateOk(f, tz)(t) && TimeOk(f, tz)(t)
  }

  /** The survivors of the six filters, applied in the page's order. */
  function Visible(tasks: seq<TaskDetail>, f: PageFilters, tz: int): seq<TaskDetail>
  {
    Filter(Filter(Filter(Filter(Filter(Filter(tasks, StatusOk(f)), PriorityOk(f)), CategoryOk(f)), SearchOk(f)), DateOk(f, tz)), TimeOk(f, tz))
  }

  /** The filters only remove tasks: a task survives exactly when it passes
      every filter, and no task is duplicated. */
  lemma VisibleExactly(tasks: seq<TaskDetail>, f: PageFilters, tz: int)
    ensures multiset(Visible(tasks, f, tz)) <= multiset(tasks)
    ensures forall i :: 0 <= i < |Visible(tasks, f, tz)| ==>
      Visible(tasks, f, tz)[i] in tasks && Passes(f, tz, Visible(tasks, f, tz)[i])
    ensures forall k :: 0 <= k < |tasks| && Passes(f, tz, tasks[k]) ==> tasks[k] in Visible(tasks, f, tz)
  {
    var a := Filter(tasks, StatusOk(f));
    var b := Filter(a, PriorityOk(f));
    var c := Filter(b, CategoryOk(f));
    var d := Filter(c, SearchOk(f));
    var e := Filter(d, DateOk(f, tz));
    var v := Filter(e, TimeOk(f, tz));
    FilterMembers(tasks, StatusOk(f));
    FilterMembers(a, PriorityOk(f));
    FilterMembers(b, CategoryOk(f));
    FilterMembers(c, SearchOk(f));
    FilterMembers(d, DateOk(f, tz));
    FilterMembers(e, TimeOk(f, tz));
    forall i | 0 <= i < |v| ensures v[i] in tasks && Passes(f, tz, v[i]) {
      assert v[i] in e && v[i] in d && v[i] in c && v[i] in b && v[i] in a;
    }
  }

  /** The date bounds select whole local days: unless both are set with
      the start after the end, a task passes exactly when its local
      creation day lies between the two days. A start after the end swaps
      the bounds of the interval: then a task passes exactly when it was
      created on a day strictly between them, at the last millisecond of
      the end day or at midnight of the start day. */
  lemma DatesByDay(f: PageFilters, t: TaskDetail, tz: int)
    ensures !(f.startDate.Some? && f.endDate.Some? && f.startDate.value > f.endDate.value) ==>
      (WithinDates(f, t, tz) <==>
        && (f.startDate.Some? ==> f.startDate.value <= LocalDay(t.task.createdAt, tz))
        && (f.endDate.Some? ==> LocalDay(t.task.createdAt, tz) <= f.endDate.value))
    ensures f.startDate.Some? && f.endDate.Some? && f.startDate.value > f.endDate.value ==>
      (WithinDates(f, t, tz) <==>
        || f.endDate.value < LocalDay(t.task.createdAt, tz) < f.startDate.value
        || t.task.createdAt == DayEnd(f.endDate.value, tz)
        || t.task.createdAt == DayStart(f.startDate.value, tz))
  {
    var day := LocalDay(t.task.createdAt, tz);
    if f.startDate.Some? && f.endDate.Some? {
      var s := f.startDate.value;
      var e := f.endDate.value;
      if s <= e {
        MulMonotone(MsPerDay, s, e + 1);
      } else {
        MulMonotone(MsPerDay, e + 1, s);
      }
    }
    if f.startDate.Some? {
      var s := f.startDate.value;
      MulMonotone(MsPerDay, s, day);
      MulMonotone(MsPerDay, day + 1, s);
    }
    if f.endDate.Some? {
      var e := f.endDate.value;
      MulMonotone(MsPerDay, day, e);
      MulMonotone(MsPerDay, e + 1, day);
    }
  }

  lemma DigitCharOrder(a: nat, b: nat)
    requires a < 10 && b < 10
    ensures DigitChar(a) < DigitChar(b) <==> a < b
    ensures DigitChar(a) == DigitChar(b) <==> a == b
  {
  }

  /** Two-digit texts compare as their numbers do, and a tie is decided by
      what follows. */
  lemma TwoDigitsOrder(x: int, y: int, s: string, t: string)
    requires 0 <= x < 100 && 0 <= y < 100
    ensures StrLe(TwoDigits(x) + s, TwoDigits(y) + t) <==> x < y || (x == y && StrLe(s, t))
  {
    var a := TwoDigits(x) + s;
    var b := TwoDigits(y) + t;
    DigitCharOrder(x / 10, y / 10);
    DigitCharOrder(x % 10, y % 10);
    assert a[1..][1..] == s && b[1..][1..] == t;
    assert a[0] == DigitChar(x / 10) && b[0] == DigitChar(y / 10);
    assert a[1..][0] == DigitChar(x % 10) && b[1..][0] == DigitChar(y % 10);
    assert x == 10 * (x / 10) + x % 10 && y == 10 * (y / 10) + y % 10;
  }

  /** `HH:mm` texts compare as the minutes they name. */
  lemma ClockOrder(a: int, b: int)
    requires 0 <= a < 24 * 60 && 0 <= b < 24 * 60
    ensures StrLe(Clock(a), Clock(b)) <==> a <= b
  {
    var ra := ":" + TwoDigits(a % 60);
    var rb := ":" + TwoDigits(b % 60);
    assert Clock(a) == TwoDigits(a / 60) + ra && Clock(b) == TwoDigits(b / 60) + rb;
    TwoDigitsOrder(a / 60, b / 60, ra, rb);
    assert ra[1..] == TwoDigits(a % 60) + "" && rb[1..] == TwoDigits(b % 60) + "";
    TwoDigitsOrder(a % 60, b % 60, "", "");
    assert a == 60 * (a / 60) + a % 60 && b == 60 * (b / 60) + b % 60;
  }

  /** With bounds typed as `HH:mm`, the time filter keeps the tasks created
      between the two minutes of the day, both inclusive; a start after
      the end keeps none. */
  lemma TimesByMinute(f: PageFilters, t: TaskDetail, tz: int, lo: int, hi: int)
    requires 0 <= lo < 24 * 60 && 0 <= hi < 24 * 60
    requires f.startTime == Clock(lo) && f.endTime == Clock(hi)
    ensures WithinTimes(f, t, tz) <==> lo <= MinuteOfDay(t.task.createdAt, tz) <= hi
  {
    var m := MinuteOfDay(t.task.createdAt, tz);
    ClockOrder(lo, m);
    ClockOrder(m, hi);
  }

  // ---------------------------------------------------------------------
  // The grouping
  // ---------------------------------------------------------------------

  function DayKey(tz: int): TaskDetail -> int
  {
    (t: TaskDetail) => LocalDay(t.task.createdAt, tz)
  }

  function OnDay(day: int, tz: int): TaskDetail -> bool
  {
    KeyIs(DayKey(tz), day)
  }

  /** The grouping of the survivors s: the days newest first without
      repeats, exactly the days some survivor was created on, and for each
      day its survivors newest first. */
  ghost predicate IsGrouping(s: seq<TaskDetail>, tz: int, grouped: map<int, seq<TaskDetail>>, dates: seq<int>)
  {
    && (forall i, j :: 0 <= i < j < |dates| ==> dates[i] > dates[j])
    && (forall day :: day in grouped <==> day in dates)
    && (forall i :: 0 <= i < |s| ==> LocalDay(s[i].task.createdAt, tz) in grouped)
    && (forall day :: day in grouped ==> grouped[day] == SortDesc(Filter(s, OnDay(day, tz)), CreatedAt) && grouped[day] != [])
  }

  function Identity(d: int): int { d }

  /** The chain of `result = result.filter(...)`, each filter applied only
      when its field is set. */
  method ApplyFilters(tasks: seq<TaskDetail>, f: PageFilters, tz: int) returns (result: seq<TaskDetail>)
    ensures result == Visible(tasks, f, tz)
  {
    result := FilterWhen(tasks, StatusOk(f), f.status != "");
    result := FilterWhen(result, PriorityOk(f), f.priority != "");
    result := FilterWhen(result, CategoryOk(f), f.categoryId != "");
    result := FilterWhen(result, SearchOk(f), f.search != "");
    result := FilterWhen(result, DateOk(f, tz), f.startDate.Some? || f.endDate.Some?);
    result := FilterWhen(result, TimeOk(f, tz), f.startTime != "" || f.endTime != "");
  }

  /** One `if (...) result = result.filter(p)`: a filter that is not
      applied is one every task passes. */
  method FilterWhen(s: seq<TaskDetail>, p: TaskDetail -> bool, active: bool) returns (r: seq<TaskDetail>)
    requires !active ==> forall k :: 0 <= k < |s| ==> p(s[k])
    ensures r == Filter(s, p)
  {
    if active {
      r := Filter(s, p);
    } else {
      FilterAll(s, p);
      r := s;
    }
  }

  /** The forEach that fills `grouped`, pushing each task onto the list of
      its day; `keys` is the dictionary's key order. */
  method GroupByDay(s: seq<TaskDetail>, tz: int) returns (grouped: map<int, seq<TaskDetail>>, keys: seq<int>)
    ensures Distinct(keys) && forall day :: day in grouped <==> day in keys
    ensures forall day :: day in grouped ==> grouped[day] == Filter(s, OnDay(day, tz)) && grouped[day] != []
    ensures forall i :: 0 <= i < |s| ==> LocalDay(s[i].task.createdAt, tz) in grouped
  {
    grouped := map[];
    keys := [];
    var i := 0;
    while i < |s|
      invariant 0 <= i <= |s|
      invariant Distinct(keys) && forall day :: day in grouped <==> day in keys
      invariant forall day :: day in grouped ==> grouped[day] == Filter(s[..i], OnDay(day, tz)) && grouped[day] != []
      invariant forall day :: day !in grouped ==> Filter(s[..i], OnDay(day, tz)) == []
    {
      var t := s[i];
      var day := LocalDay(t.task.createdAt, tz);
      assert s[..i + 1] == s[..i] + [t];
      forall d ensures Filter(s[..i + 1], OnDay(d, tz)) == Filter(s[..i], OnDay(d, tz)) + (if d == day then [t] else []) {
        FilterSnoc(s[..i], t, OnDay(d, tz));
      }
      if day !in grouped {
        grouped := grouped[day := []];
        keys := keys + [day];
      }
      grouped := grouped[day := grouped[day] + [t]];
      i := i + 1;
    }
    assert s[..i] == s;
    forall k | 0 <= k < |s| ensures LocalDay(s[k].task.createdAt, tz) in grouped {
      var day := LocalDay(s[k].task.createdAt, tz);
      FilterMembers(s, OnDay(day, tz));
      assert OnDay(day, tz)(s[k]);
    }
  }

  /** The forEach over the sorted days that sorts each day's list, newest
      first. */
  method SortGroups(grouped: map<int, seq<TaskDetail>>, dates: seq<int>) returns (sorted: map<int, seq<TaskDetail>>)
    requires Distinct(dates) && forall day :: day in grouped <==> day in dates
    ensures sorted.Keys == grouped.Keys
    ensures forall day :: day in sorted ==> sorted[day] == SortDesc(grouped[day], CreatedAt)
  {
    sorted := grouped;
    var k := 0;
    while k < |dates|
      invariant 0 <= k <= |dates|
      invariant sorted.Keys == grouped.Keys
      invariant forall day :: day in sorted ==> sorted[day] == if day in dates[..k] then SortDesc(grouped[day], CreatedAt) else grouped[day]
    {
      var day := dates[k];
      assert day !in dates[..k];
      assert dates[..k + 1] == dates[..k] + [day];
      sorted := sorted[day := SortDesc(sorted[day], CreatedAt)];
      k := k + 1;
    }
    assert dates[..k] == dates;
  }

  /** filteredAndGroupedTasks. `tz` is the browser's offset from UTC. */
  method FilterAndGroup(tasks: seq<TaskDetail>, f: PageFilters, tz: int)
    returns (grouped: map<int, seq<TaskDetail>>, dates: seq<int>, totalCount: nat)
    ensures totalCount == |Visible(tasks, f, tz)|
    ensures IsGrouping(Visible(tasks, f, tz), tz, grouped, dates)
  {
    var result := ApplyFilters(tasks, f, tz);
    var byDay, keys := GroupByDay(result, tz);
    dates := SortDesc(keys, Identity);
    SortedDays(keys, dates);
    grouped := SortGroups(byDay, dates);
    forall day | day in grouped ensures grouped[day] != [] {
      assert |grouped[day]| == |byDay[day]|;
    }
    totalCount := |result|;
  }

  /** The distinct days, sorted newest first, are the same days in strictly
      decreasing order. */
  lemma SortedDays(keys: seq<int>, dates: seq<int>)
    requires Distinct(keys) && multiset(dates) == multiset(keys) && SortedDesc(dates, Identity)
    ensures Distinct(dates) && forall day :: day in dates <==> day in keys
    ensures forall i, j :: 0 <= i < j < |dates| ==> dates[i] > dates[j]
  {
    DistinctPermutation(keys, dates);
    SameMembers(keys, dates);
    forall i, j | 0 <= i < j < |dates| ensures dates[i] > dates[j] {
      assert Identity(dates[i]) >= Identity(dates[j]);
    }
  }

  lemma SameMembers(keys: seq<int>, dates: seq<int>)
    requires multiset(keys) == multiset(dates)
    ensures forall day :: day in dates <==> day in keys
  {
    forall day ensures day in dates <==> day in keys {
      assert day in dates <==> day in multiset(dates);
      assert day in keys <==> day in multiset(keys);
    }
  }

  function GroupSize(grouped: map<int, seq<TaskDetail>>): int -> int
  {
    (day: int) => if day in grouped then |grouped[day]| else 0
  }

  /** Every survivor lands in exactly one group, the one of its creation
      day, and the group sizes add up to the number of survivors. */
  lemma GroupsPartition(s: seq<TaskDetail>, tz: int, grouped: map<int, seq<TaskDetail>>, dates: seq<int>)
    requires IsGrouping(s, tz, grouped, dates)
    ensures forall i, day :: 0 <= i < |s| && day in grouped ==> (s[i] in grouped[day] <==> day == LocalDay(s[i].task.createdAt, tz))
    ensures SumOf(dates, GroupSize(grouped)) == |s|
  {
    forall i, day | 0 <= i < |s| && day in grouped
      ensures s[i] in grouped[day] <==> day == LocalDay(s[i].task.createdAt, tz)
    {
      FilterMembers(s, OnDay(day, tz));
      assert s[i] in grouped[day] <==> s[i] in multiset(Filter(s, OnDay(day, tz)));
    }
    assert Distinct(dates);
    forall j | 0 <= j < |dates| ensures GroupSize(grouped)(dates[j]) == CountByKey(s, DayKey(tz))(dates[j]) {
      assert dates[j] in dates;
    }
    SumOfPointwise(dates, GroupSize(grouped), CountByKey(s, DayKey(tz)));
    CountPartition(s, dates, DayKey(tz));
  }
}
