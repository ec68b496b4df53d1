/** The time-entry table as a timer: a user starts a timer on one of
    their tasks, stops it later, asks for the running one, and lists a
    task's entries. At most one entry per user is running at any time. */
module TimeEntriesService {
  import opened Common
  import opened Domain
  import opened Sorting
  import opened Tables

  /** The user's running entries. */
  function OpenOf(userId: Id): TimeEntry -> bool
  {
    (e: TimeEntry) => e.userId == userId && IsOpen(e)
  }

  /** `findFirst({ where: { userId, endTime: null } })`. */
  function ActiveEntry(es: seq<TimeEntry>, userId: Id): (r: Option<TimeEntry>)
    ensures r.Some? ==> r.value in es && r.value.userId == userId && IsOpen(r.value)
    ensures r.None? ==> forall k :: 0 <= k < |es| && es[k].userId == userId ==> !IsOpen(es[k])
  {
    var k := FirstIndex(es, OpenOf(userId));
    if k.Some? then Some(es[k.value]) else None
  }

  /** Under the open-timer invariant the running entry is unique: whatever
      running entry of the user there is, it is the one found. */
  lemma ActiveEntryUnique(es: seq<TimeEntry>, userId: Id, k: int)
    requires OneOpenPerUser(es)
    requires 0 <= k < |es| && es[k].userId == userId && IsOpen(es[k])
    ensures ActiveEntry(es, userId) == Some(es[k])
  {
    var i := FirstIndex(es, OpenOf(userId));
    assert OpenOf(userId)(es[k]);
    assert i.Some? && i.value <= k;
  }

  function EntryIndex(es: seq<TimeEntry>, id: Id): Option<nat>
  {
    FirstIndex(es, EntryHasId(id))
  }

  /** The entry exists and belongs to the user. */
  predicate OwnsEntry(es: seq<TimeEntry>, id: Id, userId: Id)
  {
    var e := FindEntry(es, id);
    e.Some? && e.value.userId == userId
  }

  /** The entry closed at `now`: its duration is the elapsed time in whole
      seconds, rounded down. */
  function Stopped(e: TimeEntry, now: int): (r: TimeEntry)
    ensures r.id == e.id && r.taskId == e.taskId && r.userId == e.userId && r.startTime == e.startTime
    ensures r.endTime == Some(now) && r.duration.Some?
    ensures MsPerSecond * r.duration.value <= now - e.startTime < MsPerSecond * (r.duration.value + 1)
  {
    e.(endTime := Some(now), duration := Some(FloorDiv(now - e.startTime, MsPerSecond)))
  }

  /** `findMany({ where: { taskId }, orderBy: { startTime: 'desc' } })`. */
  function TaskEntries(es: seq<TimeEntry>, taskId: Id): (r: seq<TimeEntry>)
    ensures SortedDesc(r, StartTime)
    ensures multiset(r) == multiset(Filter(es, OfTask(taskId)))
    ensures forall i :: 0 <= i < |r| ==> r[i].taskId == taskId
    ensures forall k :: 0 <= k < |es| && es[k].taskId == taskId ==> es[k] in r
  {
    var r := SortDesc(Filter(es, OfTask(taskId)), StartTime);
    SameEntries(es, taskId, r);
    r
  }

  /** A reordering of the task's entries holds exactly the task's entries. */
  lemma SameEntries(es: seq<TimeEntry>, taskId: Id, r: seq<TimeEntry>)
    requires multiset(r) == multiset(Filter(es, OfTask(taskId)))
    ensures forall i :: 0 <= i < |r| ==> r[i].taskId == taskId
    ensures forall k :: 0 <= k < |es| && es[k].taskId == taskId ==> es[k] in r
  {
    var kept := Filter(es, OfTask(taskId));
    FilterMembers(es, OfTask(taskId));
    forall i | 0 <= i < |r| ensures r[i].taskId == taskId {
      assert r[i] in multiset(kept);
    }
    forall k | 0 <= k < |es| && es[k].taskId == taskId ensures es[k] in r {
      assert OfTask(taskId)(es[k]);
      assert es[k] in multiset(r);
    }
  }

  class TimeEntriesService {
    const db: Database

    constructor(db: Database)
      ensures this.db == db
    {
      this.db := db;
    }

    /** startTimer. `now` is the clock reading and `newId` the id the
        database assigns to the new row. */
    method StartTimer(taskId: Id, userId: Id, now: int, newId: Id) returns (r: Result<TimeEntry, ServiceError>)
      requires db.Valid()
      requires forall k :: 0 <= k < |db.entries| ==> db.entries[k].id != newId
      modifies db
      ensures db.Valid()
      ensures db.tasks == old(db.tasks) && db.categories == old(db.categories)
      ensures r == Failure(NotFound) <==> !OwnsTask(old(db.tasks), taskId, userId)
      ensures r == Failure(BadRequest) <==> OwnsTask(old(db.tasks), taskId, userId) && ActiveEntry(old(db.entries), userId).Some?
      ensures r.Success? <==> OwnsTask(old(db.tasks), taskId, userId) && ActiveEntry(old(db.entries), userId).None?
      ensures r.Failure? ==> db.entries == old(db.entries)
      ensures r.Success? ==> r.value == TimeEntry(newId, taskId, userId, now, None, None) && db.entries == old(db.entries) + [r.value]
    {
      var task := FindTask(db.tasks, taskId);
      if task.None? || task.value.userId != userId {
        return Failure(NotFound);
      }
      var active := ActiveEntry(db.entries, userId);
      if active.Some? {
        return Failure(BadRequest);
      }
      var entry := TimeEntry(newId, taskId, userId, now, None, None);
      db.entries := db.entries + [entry];
      r := Success(entry);
    }

    /** stopTimer. */
    method StopTimer(entryId: Id, userId: Id, now: int) returns (r: Result<TimeEntry, ServiceError>)
      requires db.Valid()
      modifies db
      ensures db.Valid()
      ensures db.tasks == old(db.tasks) && db.categories == old(db.categories)
      ensures r == Failure(NotFound) <==> !OwnsEntry(old(db.entries), entryId, userId)
      ensures r == Failure(BadRequest) <==> OwnsEntry(old(db.entries), entryId, userId) && !IsOpen(FindEntry(old(db.entries), entryId).value)
      ensures r.Success? <==> OwnsEntry(old(db.entries), entryId, userId) && IsOpen(FindEntry(old(db.entries), entryId).value)
      ensures r.Failure? ==> db.entries == old(db.entries)
      ensures r.Success? ==>
        && EntryIndex(old(db.entries), entryId).Some?
        && EntryIndex(old(db.entries), entryId).value < |old(db.entries)|
        && r.value == Stopped(old(db.entries)[EntryIndex(old(db.entries), entryId).value], now)
        && db.entries == old(db.entries)[EntryIndex(old(db.entries), entryId).value := r.value]
    {
      var k := EntryIndex(db.entries, entryId);
      if k.None? || db.entries[k.value].userId != userId {
        return Failure(NotFound);
      }
      var entry := db.entries[k.value];
      if entry.endTime.Some? {
        return Failure(BadRequest);
      }
      var closed := Stopped(entry, now);
      db.entries := db.entries[k.value := closed];
      r := Success(closed);
    }

    /** getActiveTimer. */
    method GetActiveTimer(userId: Id) returns (r: Option<TimeEntry>)
      ensures r == ActiveEntry(db.entries, userId)
      ensures r.Some? ==> r.value in db.entries && r.value.userId == userId && IsOpen(r.value)
      ensures r.None? ==> forall k :: 0 <= k < |db.entries| && db.entries[k].userId == userId ==> !IsOpen(db.entries[k])
    {
      r := ActiveEntry(db.entries, userId);
    }

    /** getTaskTimeEntries: the task's entries, latest start first. */
    method GetTaskTimeEntries(taskId: Id, userId: Id) returns (r: Result<seq<TimeEntry>, ServiceError>)
      ensures r.Failure? <==> !OwnsTask(db.tasks, taskId, userId)
      ensures r.Failure? ==> r.error == NotFound
      ensures r.Success? ==> r.value == TaskEntries(db.entries, taskId)
    {
      var task := FindTask(db.tasks, taskId);
      if task.None? || task.value.userId != userId {
        return Failure(NotFound);
      }
      r := Success(TaskEntries(db.entries, taskId));
    }
  }

  // ---------------------------------------------------------------------
  // The timer's state machine
  // ---------------------------------------------------------------------

  /** Once started, a second start by the same user is refused: the new
      entry is the user's running entry. */
  lemma SecondStartFails(es: seq<TimeEntry>, newId: Id, taskId: Id, userId: Id, now: int)
    requires OneOpenPerUser(es) && ActiveEntry(es, userId).None?
    ensures ActiveEntry(es + [TimeEntry(newId, taskId, userId, now, None, None)], userId)
         == Some(TimeEntry(newId, taskId, userId, now, None, None))
  {
    var e := TimeEntry(newId, taskId, userId, now, None, None);
    var es' := es + [e];
    assert OneOpenPerUser(es');
    ActiveEntryUnique(es', userId, |es|);
  }

  /** Once stopped, a second stop of the same entry is refused: the entry
      found by that id is no longer running. */
  lemma SecondStopFails(es: seq<TimeEntry>, entryId: Id, now: int)
    requires DistinctEntryIds(es)
    requires EntryIndex(es, entryId).Some?
    ensures var k := EntryIndex(es, entryId).value;
      k < |es| && FindEntry(es[k := Stopped(es[k], now)], entryId) == Some(Stopped(es[k], now))
  {
    var k := EntryIndex(es, entryId).value;
    var es' := es[k := Stopped(es[k], now)];
    var j := FirstIndex(es', EntryHasId(entryId));
    assert EntryHasId(entryId)(es'[k]);
    assert j.Some? && j.value <= k;
  }

  /** Stopping the running entry leaves the user with none, so the next
      start is accepted. */
  lemma StopClearsActive(es: seq<TimeEntry>, k: int, now: int)
    requires OneOpenPerUser(es)
    requires 0 <= k < |es| && IsOpen(es[k])
    ensures ActiveEntry(es[k := Stopped(es[k], now)], es[k].userId).None?
  {
    var es' := es[k := Stopped(es[k], now)];
    var u := es[k].userId;
    forall i | 0 <= i < |es'| && es'[i].userId == u ensures !IsOpen(es'[i]) {
      if i > k {
        assert !(IsOpen(es[k]) && IsOpen(es[i]));
      }
    }
  }

  /** Starting a timer leaves every task's total time as it was. */
  lemma TotalAfterStart(es: seq<TimeEntry>, e: TimeEntry, taskId: Id)
    requires IsOpen(e) && e.duration.None?
    ensures TotalTime(Filter(es + [e], OfTask(taskId))) == TotalTime(Filter(es, OfTask(taskId)))
  {
    FilterConcat(es, [e], OfTask(taskId));
    FilterCons([e], OfTask(taskId));
    assert [e][1..] == [];
    SumOfConcat(Filter(es, OfTask(taskId)), Filter([e], OfTask(taskId)), DurationOrZero);
  }

  /** Stopping a timer adds its whole seconds to its own task's total
      time, and to no other task's. */
  lemma TotalAfterStop(es: seq<TimeEntry>, k: int, now: int, taskId: Id)
    requires 0 <= k < |es| && es[k].duration.None?
    ensures TotalTime(Filter(es[k := Stopped(es[k], now)], OfTask(taskId)))
         == TotalTime(Filter(es, OfTask(taskId))) + (if es[k].taskId == taskId then FloorDiv(now - es[k].startTime, MsPerSecond) else 0)
  {
    SumOfFilterUpdate(es, k, Stopped(es[k], now), OfTask(taskId), DurationOrZero);
  }
}
