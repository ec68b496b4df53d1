/** The entities shared by the backend services and the client: the
    enumerations of the relational schema, the rows of the task, category
    and time-entry tables, and millisecond time arithmetic. */
module Domain {
  import opened Common

  /** Opaque identities (the database's generated string ids). */
  type Id = string

  datatype Status = Todo | InProgress | Completed

  datatype Priority = Low | Medium | High | Urgent

  /** The enum's wire value, as stored and as sent in query strings. */
  function StatusName(s: Status): string
  {
    match s
    case Todo => "TODO"
    case InProgress => "IN_PROGRESS"
    case Completed => "COMPLETED"
  }

  function PriorityName(p: Priority): string
  {
    match p
    case Low => "LOW"
    case Medium => "MEDIUM"
    case High => "HIGH"
    case Urgent => "URGENT"
  }

  /** The status whose wire value is s; None for any other string (the
      database layer rejects such a value). */
  function ParseStatus(s: string): (r: Option<Status>)
    ensures r.Some? ==> StatusName(r.value) == s
    ensures r.None? ==> forall st: Status :: StatusName(st) != s
  {
    if s == "TODO" then Some(Todo)
    else if s == "IN_PROGRESS" then Some(InProgress)
    else if s == "COMPLETED" then Some(Completed)
    else None
  }

  function ParsePriority(s: string): (r: Option<Priority>)
    ensures r.Some? ==> PriorityName(r.value) == s
    ensures r.None? ==> forall p: Priority :: PriorityName(p) != s
  {
    if s == "LOW" then Some(Low)
    else if s == "MEDIUM" then Some(Medium)
    else if s == "HIGH" then Some(High)
    else if s == "URGENT" then Some(Urgent)
    else None
  }

  // ---------------------------------------------------------------------
  // Rows of the relational tables
  // ---------------------------------------------------------------------

  /** A category; `color` is None when the row holds no colour of its own. */
  datatype Category = Category(id: Id, name: string, color: Option<string>, userId: Id)

  /** A time entry; `endTime` and `duration` (whole seconds) are absent
      while the timer runs. Times are milliseconds since the epoch. */
  datatype TimeEntry = TimeEntry(
    id: Id, taskId: Id, userId: Id,
    startTime: int, endTime: Option<int>, duration: Option<int>)

  datatype Task = Task(
    id: Id, title: string, description: Option<string>,
    status: Status, priority: Priority, categoryId: Option<Id>,
    userId: Id, createdAt: int, updatedAt: int)

  /** A task as the API returns it, with its category and time entries. */
  datatype TaskDetail = TaskDetail(task: Task, category: Option<Category>, timeEntries: seq<TimeEntry>)

  predicate IsOpen(e: TimeEntry) { e.endTime.None? }

  /** `entry.duration` where a missing value adds nothing to a sum. */
  function DurationOrZero(e: TimeEntry): int
  {
    if e.duration.Some? then e.duration.value else 0
  }

  /** The total tracked seconds of a list of entries: the sum of their
      durations, where a running entry's missing duration adds nothing. */
  function TotalTime(es: seq<TimeEntry>): int
  {
    SumOf(es, DurationOrZero)
  }

  /** Sort keys of the ORDER BY clauses and comparators. */
  function StartTime(e: TimeEntry): int { e.startTime }
  function TaskCreatedAt(t: Task): int { t.createdAt }
  function CreatedAt(d: TaskDetail): int { d.task.createdAt }
  function UpdatedAt(t: Task): int { t.updatedAt }
  function CategoryName(c: Category): string { c.name }

  // ---------------------------------------------------------------------
  // Time: milliseconds since the epoch. Local time is UTC shifted by a
  // fixed offset `tz` (milliseconds east of UTC).
  // ---------------------------------------------------------------------

  const MsPerSecond: int := 1000
  const MsPerMinute: int := 60 * 1000
  const MsPerHour: int := 60 * 60 * 1000
  const MsPerDay: int := 24 * 60 * 60 * 1000

  /** The UTC calendar day of an instant, as a day number: the key that
      `toISOString().split('T')[0]` renders as yyyy-MM-dd. */
  function UtcDay(t: int): (d: int)
    ensures d * MsPerDay <= t < (d + 1) * MsPerDay
  {
    FloorDiv(t, MsPerDay)
  }

  /** The local calendar day of an instant, as a day number. */
  function LocalDay(t: int, tz: int): (d: int)
    ensures d * MsPerDay <= t + tz < (d + 1) * MsPerDay
  {
    FloorDiv(t + tz, MsPerDay)
  }

  /** Milliseconds since local midnight. */
  function LocalTimeOfDay(t: int, tz: int): (r: int)
    ensures 0 <= r < MsPerDay
  {
    t + tz - LocalDay(t, tz) * MsPerDay
  }

  /** `setHours(0, 0, 0, 0)`: local midnight of the instant's day. */
  function StartOfLocalDay(t: int, tz: int): (r: int)
    ensures r <= t && LocalDay(r, tz) == LocalDay(t, tz) && LocalTimeOfDay(r, tz) == 0
  {
    var r := LocalDay(t, tz) * MsPerDay - tz;
    assert LocalDay(r, tz) == LocalDay(t, tz) by {
      FloorDivUnique(r + tz, MsPerDay, LocalDay(t, tz));
    }
    r
  }

  /** `setHours(23, 59, 59, 999)`: the last millisecond of the instant's local day. */
  function EndOfLocalDay(t: int, tz: int): (r: int)
    ensures t <= r && LocalDay(r, tz) == LocalDay(t, tz) && LocalTimeOfDay(r, tz) == MsPerDay - 1
  {
    var r := (LocalDay(t, tz) + 1) * MsPerDay - 1 - tz;
    assert LocalDay(r, tz) == LocalDay(t, tz) by {
      FloorDivUnique(r + tz, MsPerDay, LocalDay(t, tz));
    }
    r
  }

  lemma FloorDivUnique(n: int, d: int, q: int)
    requires d > 0 && d * q <= n < d * (q + 1)
    ensures FloorDiv(n, d) == q
  {
    var f := FloorDiv(n, d);
    MulMonotone(d, f + 1, q);
    MulMonotone(d, q + 1, f);
  }

  lemma MulMonotone(d: int, a: int, b: int)
    requires d > 0
    ensures a <= b ==> d * a <= d * b
  {
  }

  /** Two instants lie on the same local day exactly when they lie between
      the same local midnight and end of day. */
  lemma SameLocalDay(t: int, u: int, tz: int)
    ensures LocalDay(u, tz) == LocalDay(t, tz)
        <==> StartOfLocalDay(t, tz) <= u <= EndOfLocalDay(t, tz)
  {
    var d := LocalDay(t, tz);
    if StartOfLocalDay(t, tz) <= u <= EndOfLocalDay(t, tz) {
      FloorDivUnique(u + tz, MsPerDay, d);
    }
  }
}
