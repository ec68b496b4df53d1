/** The task query of the analytics report: which tasks are fetched, with
    which time entries, in which order, and what each task contributes.
    The task table is an in-memory snapshot: each row carries its category
    and all of its time entries. */
module AnalyticsData {
  import opened Common
  import opened Domain
  import opened Sorting

  /** The conditions of the report's task query. `categoryId`, `priority`
      and `status` are None when the query leaves them out. */
  datatype Where = Where(
    userId: Id, start: int, end: int,
    categoryId: Option<Id>, priority: Option<Priority>, status: Option<Status>)

  /** The task satisfies every condition of the where clause. */
  predicate Matches(w: Where, t: Task)
  {
    && t.userId == w.userId
    && w.start <= t.createdAt <= w.end
    && (w.categoryId.Some? ==> t.categoryId == w.categoryId)
    && (w.priority.Some? ==> t.priority == w.priority.value)
    && (w.status.Some? ==> t.status == w.status.value)
  }

  function MatchesRow(w: Where): TaskDetail -> bool
  {
    (d: TaskDetail) => Matches(w, d.task)
  }

  predicate IsClosed(e: TimeEntry) { e.endTime.Some? }

  /** The row with only the entries whose endTime is set (the query's
      `endTime: { not: null }` include). */
  function WithClosedEntries(d: TaskDetail): (r: TaskDetail)
    ensures r.task == d.task && r.category == d.category
    ensures forall j :: 0 <= j < |r.timeEntries| ==> IsClosed(r.timeEntries[j])
  {
    var es := Filter(d.timeEntries, IsClosed);
    FilterMembers(d.timeEntries, IsClosed);
    d.(timeEntries := es)
  }

  /** The fetched tasks: the matching rows with their closed entries,
      newest first (a stable order among equal creation times). */
  function Retrieve(table: seq<TaskDetail>, w: Where): seq<TaskDetail>
  {
    SortDesc(Map(Filter(table, MatchesRow(w)), WithClosedEntries), CreatedAt)
  }

  /** What is fetched: one row per matching row of the table, newest
      first, each a matching row of the table with only its closed entries. */
  lemma RetrieveSound(table: seq<TaskDetail>, w: Where)
    ensures |Retrieve(table, w)| == Count(table, MatchesRow(w))
    ensures SortedDesc(Retrieve(table, w), CreatedAt)
    ensures forall i :: 0 <= i < |Retrieve(table, w)| ==>
      exists k :: 0 <= k < |table| && Matches(w, table[k].task) && Retrieve(table, w)[i] == WithClosedEntries(table[k])
  {
    RetrieveFromTable(table, w);
  }

  /** Every fetched row is a matching row of the table with only its closed
      entries. */
  lemma RetrieveFromTable(table: seq<TaskDetail>, w: Where)
    ensures forall i :: 0 <= i < |Retrieve(table, w)| ==>
      exists k :: 0 <= k < |table| && Matches(w, table[k].task) && Retrieve(table, w)[i] == WithClosedEntries(table[k])
  {
    var kept := Filter(table, MatchesRow(w));
    SortedMapMembers(kept, WithClosedEntries, CreatedAt);
    FilterMembers(table, MatchesRow(w));
    var r := Retrieve(table, w);
    assert r == SortDesc(Map(kept, WithClosedEntries), CreatedAt);
    forall i | 0 <= i < |r|
      ensures exists k :: 0 <= k < |table| && Matches(w, table[k].task) && r[i] == WithClosedEntries(table[k])
    {
      var j :| 0 <= j < |kept| && r[i] == WithClosedEntries(kept[j]);
      assert MatchesRow(w)(kept[j]);
      var k :| 0 <= k < |table| && table[k] == kept[j];
    }
  }

  /** Every matching row of the table is fetched. Together with
      RetrieveSound: a row is fetched exactly when it satisfies every
      condition of the where clause. */
  lemma RetrieveComplete(table: seq<TaskDetail>, w: Where)
    ensures forall k :: 0 <= k < |table| && Matches(w, table[k].task) ==> WithClosedEntries(table[k]) in Retrieve(table, w)
  {
    var kept := Filter(table, MatchesRow(w));
    SortedMapMembers(kept, WithClosedEntries, CreatedAt);
    FilterMembers(table, MatchesRow(w));
    forall k | 0 <= k < |table| && Matches(w, table[k].task)
      ensures WithClosedEntries(table[k]) in Retrieve(table, w)
    {
      assert MatchesRow(w)(table[k]);
      var j :| 0 <= j < |kept| && kept[j] == table[k];
    }
  }

  // ---------------------------------------------------------------------
  // What one task contributes
  // ---------------------------------------------------------------------

  /** The tracked length of one entry, endTime - startTime; nothing for a
      running entry. */
  function EntryMs(e: TimeEntry): int
  {
    if e.endTime.Some? then e.endTime.value - e.startTime else 0
  }

  /** The unrounded tracked time of a task, in milliseconds. */
  function TrackedMs(d: TaskDetail): int
  {
    SumOf(d.timeEntries, EntryMs)
  }

  /** Running entries contribute nothing: the tracked time of a row is the
      same before and after the fetch drops its open entries. */
  lemma {:induction false} TrackedMsIgnoresOpen(es: seq<TimeEntry>)
    ensures SumOf(Filter(es, IsClosed), EntryMs) == SumOf(es, EntryMs)
  {
    if es != [] {
      TrackedMsIgnoresOpen(es[1..]);
      FilterCons(es, IsClosed);
      if IsClosed(es[0]) {
        assert ([es[0]] + Filter(es[1..], IsClosed))[1..] == Filter(es[1..], IsClosed);
      }
    }
  }

  const UncategorizedName: string := "Uncategorized"
  const DefaultCategoryColor: string := "#9CA3AF"

  /** `task.category?.name || 'Uncategorized'`: an absent category or an
      empty name both give the placeholder. */
  function CategoryLabel(d: TaskDetail): (r: string)
    ensures r != ""
    ensures r == UncategorizedName || (d.category.Some? && r == d.category.value.name)
    ensures d.category.Some? && d.category.value.name != "" ==> r == d.category.value.name
    ensures d.category.None? || d.category.value.name == "" ==> r == UncategorizedName
  {
    if d.category.Some? && d.category.value.name != "" then d.category.value.name
    else UncategorizedName
  }

  /** `task.category?.color || '#9CA3AF'`: an absent category, an absent
      colour or an empty one all give the default grey. */
  function CategoryColor(d: TaskDetail): (r: string)
    ensures r != ""
    ensures d.category.None? ==> r == DefaultCategoryColor
    ensures d.category.Some? && d.category.value.color.Some? && d.category.value.color.value != ""
      ==> r == d.category.value.color.value
    ensures d.category.Some? && (d.category.value.color.None? || d.category.value.color.value == "")
      ==> r == DefaultCategoryColor
  {
    if d.category.Some? && d.category.value.color.Some? && d.category.value.color.value != ""
    then d.category.value.color.value
    else DefaultCategoryColor
  }

  /** Hundredths of an hour per millisecond, rounded: toFixed(2) of hours. */
  const MsPerCentiHour: int := 36000

  /** One record of `timePerTask`. `minutes` is the rounded tracked time in
      minutes, `hours` the tracked time in hundredths of an hour. */
  datatype TaskTime = TaskTime(
    id: Id, title: string, minutes: int, hours: int,
    category: string, categoryColor: string, priority: Priority, status: Status)

  function Minutes(t: TaskTime): int { t.minutes }

  /** The per-task record: the minutes and hours are the nearest whole
      minute and hundredth of an hour to the tracked time. */
  function TaskTimeOf(d: TaskDetail): (r: TaskTime)
    ensures r.id == d.task.id && r.title == d.task.title
    ensures 2 * MsPerMinute * r.minutes <= 2 * TrackedMs(d) + MsPerMinute < 2 * MsPerMinute * (r.minutes + 1)
    ensures 2 * MsPerCentiHour * r.hours <= 2 * TrackedMs(d) + MsPerCentiHour < 2 * MsPerCentiHour * (r.hours + 1)
    ensures r.category == CategoryLabel(d) && r.categoryColor == CategoryColor(d)
    ensures r.priority == d.task.priority && r.status == d.task.status
  {
    var ms := TrackedMs(d);
    TaskTime(d.task.id, d.task.title, RoundDiv(ms, MsPerMinute), RoundDiv(ms, MsPerCentiHour),
             CategoryLabel(d), CategoryColor(d), d.task.priority, d.task.status)
  }
}
