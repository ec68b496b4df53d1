/** getAnalytics: the report over the tasks a query selects. The date
    range is computed from the query, the where clause is built field by
    field, and the fetched tasks are reduced to a summary, the per-task
    times, the daily series, the category distribution and the task list. */
module AnalyticsService {
  import opened Common
  import opened Domain
  import opened Sorting
  import opened AnalyticsRange
  import opened AnalyticsData
  import opened AnalyticsDaily
  import opened AnalyticsCategories

  /** The report's query string; "" stands for an absent field. The two
      dates are the instants the query's date strings denote. */
  datatype Query = Query(
    timeRange: string, startDate: Option<int>, endDate: Option<int>,
    categoryId: string, priority: string, status: string)

  /** A priority or status filter that is not a value of its enumeration:
      the database client rejects the query. */
  datatype AnalyticsError = InvalidEnumFilter

  datatype Summary = Summary(
    totalTasks: nat, completedTasks: nat,
    totalHours: int, avgTimePerTask: int,
    start: int, end: int)

  /** One element of the report's `tasks` list. */
  datatype TaskRow = TaskRow(
    id: Id, title: string, description: string,
    status: Status, priority: Priority,
    category: string, categoryColor: string,
    createdAt: int, updatedAt: int, totalHours: int)

  datatype Analytics = Analytics(
    summary: Summary,
    timePerTask: seq<TaskTime>,
    dailyHours: seq<DayHours>,
    categoryDistribution: seq<CategoryShare>,
    tasks: seq<TaskRow>)

  predicate IsCompleted(d: TaskDetail) { d.task.status == Completed }

  /** The summary: totals are taken over the already-rounded per-task
      minutes; totalHours and avgTimePerTask are in hundredths of an hour. */
  function SummaryOf(f: seq<TaskDetail>, times: seq<TaskTime>, start: int, end: int): (s: Summary)
    ensures s.totalTasks == |f| && s.completedTasks == Count(f, IsCompleted)
    ensures s.completedTasks <= s.totalTasks
    ensures 2 * 60 * s.totalHours <= 200 * SumOf(times, Minutes) + 60 < 2 * 60 * (s.totalHours + 1)
    ensures |f| > 0 ==>
      2 * 60 * |f| * s.avgTimePerTask <= 200 * SumOf(times, Minutes) + 60 * |f| < 2 * 60 * |f| * (s.avgTimePerTask + 1)
    ensures |f| == 0 ==> s.avgTimePerTask == 0
    ensures s.start == start && s.end == end
  {
    var minutes := SumOf(times, Minutes);
    Summary(|f|, Count(f, IsCompleted), RoundDiv(100 * minutes, 60),
            if |f| > 0 then RoundDiv(100 * minutes, 60 * |f|) else 0,
            start, end)
  }

  /** `timePerTask.find(t => t.id === id)`: the first record with the id. */
  function FindById(times: seq<TaskTime>, id: Id): (r: Option<TaskTime>)
    ensures r.Some? ==> r.value in times && r.value.id == id
    ensures r.Some? ==> exists k :: 0 <= k < |times| && times[k] == r.value && forall j :: 0 <= j < k ==> times[j].id != id
    ensures r.None? ==> forall k :: 0 <= k < |times| ==> times[k].id != id
  {
    if times == [] then None
    else if times[0].id == id then Some(times[0])
    else
      var r := FindById(times[1..], id);
      assert forall k :: 1 <= k < |times| ==> times[k] == times[1..][k - 1];
      if r.Some? then
        var k :| 0 <= k < |times[1..]| && times[1..][k] == r.value && forall j :: 0 <= j < k ==> times[1..][j].id != id;
        assert times[k + 1] == r.value && forall j :: 0 <= j < k + 1 ==> times[j].id != id;
        r
      else r
  }

  /** `find(...)?.hours || 0`: the hours of the first record with the id,
      or 0 when no record has it. */
  function HoursOf(times: seq<TaskTime>, id: Id): (h: int)
    ensures (forall k :: 0 <= k < |times| ==> times[k].id != id) ==> h == 0
    ensures forall k :: 0 <= k < |times| && times[k].id == id && (forall j :: 0 <= j < k ==> times[j].id != id) ==> h == times[k].hours
  {
    var found := FindById(times, id);
    if found.Some? then found.value.hours else 0
  }

  function TaskRowOf(d: TaskDetail, times: seq<TaskTime>): TaskRow
  {
    var t := d.task;
    TaskRow(t.id, t.title, if t.description.Some? then t.description.value else "",
            t.status, t.priority, CategoryLabel(d), CategoryColor(d),
            t.createdAt, t.updatedAt, HoursOf(times, t.id))
  }

  /** The `tasks` list: one row per fetched task, in fetch order. */
  function TaskRows(f: seq<TaskDetail>, times: seq<TaskTime>): (rows: seq<TaskRow>)
    ensures |rows| == |f|
    ensures forall i :: 0 <= i < |f| ==> rows[i].id == f[i].task.id && rows[i].createdAt == f[i].task.createdAt
    ensures forall i :: 0 <= i < |f| ==>
      && rows[i].title == f[i].task.title
      && rows[i].status == f[i].task.status
      && rows[i].priority == f[i].task.priority
      && rows[i].updatedAt == f[i].task.updatedAt
    ensures forall i :: 0 <= i < |f| && f[i].task.description.Some? && f[i].task.description.value != "" ==>
      rows[i].description == f[i].task.description.value
    ensures forall i :: 0 <= i < |f| && (f[i].task.description.None? || f[i].task.description.value == "") ==>
      rows[i].description == ""
    ensures forall i :: 0 <= i < |f| ==> rows[i].category == CategoryLabel(f[i]) && rows[i].categoryColor == CategoryColor(f[i])
    ensures forall i :: 0 <= i < |f| ==> rows[i].totalHours == HoursOf(times, f[i].task.id)
  {
    Map(f, (d: TaskDetail) => TaskRowOf(d, times))
  }

  predicate DistinctIds(f: seq<TaskDetail>)
  {
    forall i, j :: 0 <= i < j < |f| ==> f[i].task.id != f[j].task.id
  }

  /** Each row's hours are its own task's hours: the lookup by id in the
      sorted per-task list finds the record built from that very task,
      because the fetched tasks have distinct ids. */
  lemma TaskRowHours(f: seq<TaskDetail>, times: seq<TaskTime>, i: int)
    requires DistinctIds(f) && 0 <= i < |f|
    requires multiset(times) == multiset(Map(f, TaskTimeOf))
    ensures TaskRows(f, times)[i].totalHours == TaskTimeOf(f[i]).hours
  {
    var images := Map(f, TaskTimeOf);
    var id := f[i].task.id;
    assert images[i] in multiset(times);
    var found := FindById(times, id);
    assert found.Some?;
    assert found.value in multiset(images);
    var j :| 0 <= j < |images| && images[j] == found.value;
    assert f[j].task.id == id;
    assert j == i;
  }

  /** The where clause of the query for one date range. An empty filter
      string and an unknown enumeration value both give no condition here;
      GetAnalytics rejects the latter before using it. */
  function QueryWhere(userId: Id, q: Query, start: int, end: int): Where
  {
    Where(userId, start, end,
          if q.categoryId == "" then None else Some(q.categoryId),
          ParsePriority(q.priority), ParseStatus(q.status))
  }

  predicate RejectedFilters(q: Query)
  {
    (q.priority != "" && ParsePriority(q.priority).None?) || (q.status != "" && ParseStatus(q.status).None?)
  }

  /** The report over the fetched tasks f for the range [start, end]. */
  ghost predicate IsReportOf(f: seq<TaskDetail>, start: int, end: int, a: Analytics)
  {
    var times := Map(f, TaskTimeOf);
    && a.summary == SummaryOf(f, times, start, end)
    && a.timePerTask == SortDesc(times, Minutes)
    && IsDailySeries(f, a.dailyHours)
    && a.categoryDistribution == Distribution(f)
    && a.tasks == TaskRows(f, a.timePerTask)
  }

  /** The report for the tasks the query selects, given its date range. */
  ghost predicate IsReport(table: seq<TaskDetail>, userId: Id, q: Query, now: int, tz: int, a: Analytics)
  {
    var (start, end) := DateRange(q.timeRange, q.startDate, q.endDate, now, tz);
    IsReportOf(Retrieve(table, QueryWhere(userId, q, start, end)), start, end, a)
  }

  /** The reduction of the fetched tasks to the parts of the report. */
  method BuildReport(f: seq<TaskDetail>, start: int, end: int) returns (a: Analytics)
    ensures IsReportOf(f, start, end, a)
  {
    var times := Map(f, TaskTimeOf);
    var daily := DailyHours(f);
    var buckets := CategoryBuckets(f);
    var distribution := SortDesc(Map(buckets, ShareOf), ShareMinutes);
    assert distribution == Distribution(f);
    var summary := SummaryOf(f, times, start, end);
    var sorted := SortDesc(times, Minutes);
    a := Analytics(summary, sorted, daily, distribution, TaskRows(f, sorted));
  }

  /** The where clause, built one supplied filter at a time; an enumeration
      value that is not one of its names rejects the query. */
  method BuildWhere(userId: Id, q: Query, start: int, end: int) returns (r: Result<Where, AnalyticsError>)
    ensures r.Failure? <==> RejectedFilters(q)
    ensures r.Success? ==> r.value == QueryWhere(userId, q, start, end)
  {
    var w := Where(userId, start, end, None, None, None);
    if q.categoryId != "" {
      w := w.(categoryId := Some(q.categoryId));
    }
    if q.priority != "" {
      var p := ParsePriority(q.priority);
      if p.None? {
        return Failure(InvalidEnumFilter);
      }
      w := w.(priority := p);
    }
    if q.status != "" {
      var s := ParseStatus(q.status);
      if s.None? {
        return Failure(InvalidEnumFilter);
      }
      w := w.(status := s);
    }
    r := Success(w);
  }

  /** getAnalytics. `now` is the clock reading and `tz` the server's
      offset from UTC; the task table is the snapshot the query runs on. */
  method GetAnalytics(table: seq<TaskDetail>, userId: Id, q: Query, now: int, tz: int)
    returns (r: Result<Analytics, AnalyticsError>)
    ensures r.Failure? <==> RejectedFilters(q)
    ensures r.Success? ==> IsReport(table, userId, q, now, tz, r.value)
  {
    var token := if q.timeRange == "" then TodayToken else q.timeRange;
    var start, end := GetDateRange(token, q.startDate, q.endDate, now, tz);
    assert (start, end) == DateRange(q.timeRange, q.startDate, q.endDate, now, tz);
    var w := BuildWhere(userId, q, start, end);
    if w.Failure? {
      return Failure(w.error);
    }
    var f := Retrieve(table, w.value);
    var a := BuildReport(f, start, end);
    r := Success(a);
  }

  /** What the report promises about its parts, for the fetched tasks f:
      the per-task list is a permutation of one record per task, most
      minutes first, and each task row carries its own task's hours. */
  lemma ReportParts(table: seq<TaskDetail>, userId: Id, q: Query, now: int, tz: int, a: Analytics)
    requires IsReport(table, userId, q, now, tz, a)
    ensures var (start, end) := DateRange(q.timeRange, q.startDate, q.endDate, now, tz);
      var f := Retrieve(table, QueryWhere(userId, q, start, end));
      && multiset(a.timePerTask) == multiset(Map(f, TaskTimeOf))
      && SortedDesc(a.timePerTask, Minutes)
      && a.summary.totalTasks == |a.tasks| == |f|
      && (DistinctIds(f) ==> forall i :: 0 <= i < |f| ==> a.tasks[i].totalHours == TaskTimeOf(f[i]).hours)
  {
    var (start, end) := DateRange(q.timeRange, q.startDate, q.endDate, now, tz);
    var f := Retrieve(table, QueryWhere(userId, q, start, end));
    if DistinctIds(f) {
      forall i | 0 <= i < |f| ensures a.tasks[i].totalHours == TaskTimeOf(f[i]).hours {
        TaskRowHours(f, a.timePerTask, i);
      }
    }
  }

  /** With no matching task every list is empty and every total is zero. */
  lemma EmptyReport(f: seq<TaskDetail>, start: int, end: int)
    requires f == []
    ensures SummaryOf(f, Map(f, TaskTimeOf), start, end) == Summary(0, 0, 0, 0, start, end)
    ensures Distribution(f) == [] && TaskRows(f, []) == []
  {
  }
}
