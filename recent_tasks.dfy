/** The dashboard's list of recent tasks: each task's tracked time and its
    display, the list ordered by last update, the per-status counts above
    the list and the status a click on a task's checkbox asks for. */
module RecentTasks {
  import opened Common
  import opened Domain
  import opened Sorting
  import TasksService

  // ---------------------------------------------------------------------
  // Tracked time of one task
  // ---------------------------------------------------------------------

  predicate HasDuration(e: TimeEntry) { e.duration.Some? }

  /** calculateTotalTime: the sum of the entries' durations in seconds,
      0 for a task without entries; an entry without a duration adds
      nothing. */
  function CalculateTotalTime(d: TaskDetail): (r: int)
    ensures d.timeEntries == [] ==> r == 0
    ensures r == SumOf(Filter(d.timeEntries, HasDuration), DurationOrZero)
  {
    if d.timeEntries == [] then 0
    else
      TotalTimeRecorded(d.timeEntries);
      TotalTime(d.timeEntries)
  }

  lemma {:induction false} TotalTimeRecorded(es: seq<TimeEntry>)
    ensures TotalTime(es) == SumOf(Filter(es, HasDuration), DurationOrZero)
  {
    if es != [] {
      TotalTimeRecorded(es[1..]);
      FilterCons(es, HasDuration);
      if HasDuration(es[0]) {
        assert ([es[0]] + Filter(es[1..], HasDuration))[1..] == Filter(es[1..], HasDuration);
      }
    }
  }

  /** With no negative duration the total is not negative. */
  lemma CalculateTotalTimeNonNegative(d: TaskDetail)
    requires forall j :: 0 <= j < |d.timeEntries| ==> DurationOrZero(d.timeEntries[j]) >= 0
    ensures CalculateTotalTime(d) >= 0
  {
    SumOfNonNegative(d.timeEntries, DurationOrZero);
  }

  // ---------------------------------------------------------------------
  // Displaying a duration
  // ---------------------------------------------------------------------

  /** formatDuration: whole hours and the whole minutes left over, with
      the remaining seconds dropped; "0m" when both are zero. Division
      floors and `%` keeps the sign of the dividend, as in JavaScript, so
      a negative input displays negative parts. */
  function FormatDuration(seconds: int): (r: string)
    ensures 0 <= seconds < 60 ==> r == "0m"
    ensures 60 <= seconds < 3600 ==> r == NatText(seconds / 60) + "m"
    ensures seconds >= 3600 && seconds % 3600 < 60 ==> r == NatText(seconds / 3600) + "h"
    ensures seconds >= 3600 && seconds % 3600 >= 60 ==>
      r == NatText(seconds / 3600) + "h " + NatText(seconds % 3600 / 60) + "m"
    ensures seconds < 0 ==> |r| > 0 && r[0] == '-'
  {
    if seconds == 0 then "0m"
    else
      var hours := FloorDiv(seconds, 3600);
      var minutes := FloorDiv(JsRem(seconds, 3600), 60);
      if hours == 0 && minutes == 0 then "0m"
      else if hours == 0 then IntText(minutes) + "m"
      else if minutes == 0 then IntText(hours) + "h"
      else IntText(hours) + "h " + IntText(minutes) + "m"
  }

  predicate AllDigits(s: string)
  {
    forall i :: 0 <= i < |s| ==> IsDigit(s[i])
  }

  /** The number in a "<digits><unit>" part, None for any other text. */
  function UnitValue(s: string, unit: char): (r: Option<nat>)
    ensures r.Some? ==> |s| >= 2 && s[|s| - 1] == unit
  {
    if |s| >= 2 && s[|s| - 1] == unit && AllDigits(s[..|s| - 1]) then Some(DigitsValue(s[..|s| - 1]))
    else None
  }

  /** Reading a displayed duration back as whole minutes: "<m>m", "<h>h"
      or "<h>h <m>m". */
  function ParseDuration(t: string): Option<int>
  {
    PartsDuration(Split(t, ' '))
  }

  /** The minutes that the ' '-separated parts of a display stand for. */
  function PartsDuration(parts: seq<string>): Option<int>
    requires |parts| >= 1
  {
    if |parts| == 1 then
      var m := UnitValue(parts[0], 'm');
      var h := UnitValue(parts[0], 'h');
      if m.Some? then Some(m.value) else if h.Some? then Some(60 * h.value) else None
    else if |parts| == 2 then
      var h := UnitValue(parts[0], 'h');
      var m := UnitValue(parts[1], 'm');
      if h.Some? && m.Some? then Some(60 * h.value + m.value) else None
    else None
  }

  /** The hours and the leftover minutes make up the whole minutes. */
  lemma MinutesSplit(s: int)
    requires s >= 0
    ensures s / 60 == 60 * (s / 3600) + s % 3600 / 60
    ensures 0 <= s % 3600 / 60 < 60
  {
    var a := s / 3600;
    var r := s % 3600;
    var b := r / 60;
    var c := r % 60;
    assert s == 3600 * a + r;
    assert r == 60 * b + c;
    assert s == 60 * (60 * a + b) + c;
  }

  /** "<n><unit>" is read back as n. */
  lemma UnitValueOfText(n: nat, unit: char)
    requires !IsDigit(unit)
    ensures UnitValue(NatText(n) + [unit], unit) == Some(n)
    ensures ' ' != unit ==> ' ' !in NatText(n) + [unit]
  {
    var s := NatText(n) + [unit];
    assert s[..|s| - 1] == NatText(n);
    NatTextValue(n);
  }

  /** A display of one part, "<n><unit>", is read back by its unit. */
  lemma OnePartRead(n: nat, unit: char)
    requires unit == 'm' || unit == 'h'
    ensures ParseDuration(NatText(n) + [unit]) == Some(if unit == 'm' then n else 60 * n)
  {
    UnitValueOfText(n, unit);
    SplitWithout(NatText(n) + [unit], ' ');
    if unit == 'h' {
      assert UnitValue(NatText(n) + [unit], 'm').None?;
    }
  }

  /** A display of two parts, "<h>h <m>m", is read back as 60 h + m. */
  lemma TwoPartsRead(h: nat, m: nat)
    ensures ParseDuration(NatText(h) + "h " + NatText(m) + "m") == Some(60 * h + m)
  {
    TwoPartsSplit(h, m);
    TwoPartsValue(h, m);
  }

  /** "<h>h <m>m" splits at its one space. */
  lemma TwoPartsSplit(h: nat, m: nat)
    ensures Split(NatText(h) + "h " + NatText(m) + "m", ' ') == [NatText(h) + ['h'], NatText(m) + ['m']]
  {
    var hs := NatText(h) + ['h'];
    var ms := NatText(m) + ['m'];
    UnitValueOfText(h, 'h');
    UnitValueOfText(m, 'm');
    assert NatText(h) + "h " + NatText(m) + "m" == hs + [' '] + ms;
    SplitAfter(hs, ms, ' ');
    SplitWithout(ms, ' ');
  }

  /** The parts "<h>h" and "<m>m" stand for 60 h + m minutes. */
  lemma TwoPartsValue(h: nat, m: nat)
    ensures PartsDuration([NatText(h) + ['h'], NatText(m) + ['m']]) == Some(60 * h + m)
  {
    UnitValueOfText(h, 'h');
    UnitValueOfText(m, 'm');
  }

  /** The display determines the whole minutes of a non-negative
      duration: reading it back gives seconds / 60. */
  lemma FormatDurationRoundTrip(seconds: int)
    requires seconds >= 0
    ensures ParseDuration(FormatDuration(seconds)) == Some(seconds / 60)
  {
    MinutesSplit(seconds);
    if seconds < 60 {
      OnePartRead(0, 'm');
      assert FormatDuration(seconds) == NatText(0) + ['m'];
    } else if seconds < 3600 {
      OnePartRead(seconds / 60, 'm');
      assert FormatDuration(seconds) == NatText(seconds / 60) + ['m'];
    } else if seconds % 3600 < 60 {
      OnePartRead(seconds / 3600, 'h');
      assert FormatDuration(seconds) == NatText(seconds / 3600) + ['h'];
    } else {
      TwoPartsRead(seconds / 3600, seconds % 3600 / 60);
    }
  }

  /** Two non-negative durations display alike exactly when they have the
      same whole minutes. */
  lemma FormatDurationSameMinutes(s: int, t: int)
    requires s >= 0 && t >= 0
    ensures FormatDuration(s) == FormatDuration(t) <==> s / 60 == t / 60
  {
    FormatDurationRoundTrip(s);
    FormatDurationRoundTrip(t);
    if s / 60 == t / 60 {
      MinutesSplit(s);
      MinutesSplit(t);
      assert s / 3600 == t / 3600;
      assert s % 3600 / 60 == t % 3600 / 60;
    }
  }

  // ---------------------------------------------------------------------
  // The list
  // ---------------------------------------------------------------------

  function TaskUpdatedAt(d: TaskDetail): int { d.task.updatedAt }

  /** sortedTasks: a sorted copy of the tasks, most recently updated first;
      the component's own list is left as it is. */
  function SortedTasks(tasks: seq<TaskDetail>): (r: seq<TaskDetail>)
    ensures |r| == |tasks| && multiset(r) == multiset(tasks)
    ensures forall i, j :: 0 <= i < j < |r| ==> r[i].task.updatedAt >= r[j].task.updatedAt
  {
    var r := SortDesc(tasks, TaskUpdatedAt);
    assert SortedDesc(r, TaskUpdatedAt);
    r
  }

  /** Tasks updated at the same instant keep their order in the list. */
  lemma SortedTasksStable(tasks: seq<TaskDetail>, at: int)
    ensures Filter(SortedTasks(tasks), KeyIs(TaskUpdatedAt, at)) == Filter(tasks, KeyIs(TaskUpdatedAt, at))
  {
    SortDescStable(tasks, TaskUpdatedAt, at);
  }

  function HasStatus(s: Status): TaskDetail -> bool
  {
    (d: TaskDetail) => d.task.status == s
  }

  datatype StatusCounts = StatusCounts(todo: nat, inProgress: nat, completed: nat)

  /** The three counts above the list. */
  function CountsOf(tasks: seq<TaskDetail>): (c: StatusCounts)
    ensures c.todo + c.inProgress + c.completed == |tasks|
  {
    CountsTotal(tasks);
    StatusCounts(Count(tasks, HasStatus(Todo)), Count(tasks, HasStatus(InProgress)),
                 Count(tasks, HasStatus(Completed)))
  }

  /** Every task has exactly one of the three statuses. */
  lemma {:induction false} CountsTotal(tasks: seq<TaskDetail>)
    ensures Count(tasks, HasStatus(Todo)) + Count(tasks, HasStatus(InProgress))
          + Count(tasks, HasStatus(Completed)) == |tasks|
  {
    if tasks != [] {
      CountsTotal(tasks[1..]);
    }
  }

  /** Counting after sorting: the counts are those of the unsorted tasks. */
  lemma CountsIgnoreOrder(tasks: seq<TaskDetail>)
    ensures CountsOf(SortedTasks(tasks)) == CountsOf(tasks)
  {
    var r := SortedTasks(tasks);
    CountPermutation(r, tasks, HasStatus(Todo));
    CountPermutation(r, tasks, HasStatus(InProgress));
    CountPermutation(r, tasks, HasStatus(Completed));
  }

  // ---------------------------------------------------------------------
  // The checkbox
  // ---------------------------------------------------------------------

  /** handleToggleStatus's new status: a completed task goes back to in
      progress, any other is completed. */
  function ToggleTarget(s: Status): (r: Status)
    ensures r == InProgress <==> s == Completed
    ensures r == Completed <==> s != Completed
  {
    if s == Completed then InProgress else Completed
  }

  /** The checkbox and the server's toggle endpoint agree except on a
      completed task, which the server sends back to to-do. */
  lemma ToggleTargetVersusServer(s: Status)
    ensures ToggleTarget(s) == TasksService.ToggledStatus(s) <==> s != Completed
  {
  }
}
