/** The task table's service: creation with defaults, the filtered
    listing with total tracked time, the owner-checked lookup, and the
    update, delete and status toggle that go through that lookup. */
module TasksService {
  import opened Common
  import opened Domain
  import opened Sorting
  import opened Tables

  /** The body of a create request; "" stands for an absent string field. */
  datatype NewTask = NewTask(title: string, description: string, priority: Option<Priority>, categoryId: string)

  /** The body of an update request: None leaves the field as it is. */
  datatype TaskPatch = TaskPatch(
    title: Option<string>, description: Option<string>, status: Option<Status>,
    priority: Option<Priority>, categoryId: Option<Id>)

  /** The listing's query strings; "" stands for an absent parameter. */
  datatype TaskFilters = TaskFilters(status: string, priority: string, categoryId: string, search: string)

  /** The where clause of the listing. */
  datatype TaskWhere = TaskWhere(
    userId: Id, status: Option<Status>, priority: Option<Priority>,
    categoryId: Option<Id>, search: Option<string>)

  /** A task with its joins and its total tracked seconds. */
  datatype TaskTotal = TaskTotal(detail: TaskDetail, totalTime: int)

  /** The row a create request stores. The status and the two timestamps
      are the table's defaults. */
  function CreatedTask(userId: Id, dto: NewTask, now: int, newId: Id): (t: Task)
    ensures t.id == newId && t.userId == userId && t.title == dto.title
    ensures t.description.None? <==> dto.description == ""
    ensures t.description.Some? ==> t.description.value == dto.description
    ensures t.categoryId.None? <==> dto.categoryId == ""
    ensures t.categoryId.Some? ==> t.categoryId.value == dto.categoryId
    ensures dto.priority.None? ==> t.priority == Medium
    ensures dto.priority.Some? ==> t.priority == dto.priority.value
    ensures t.status == Todo && t.createdAt == now && t.updatedAt == now
  {
    Task(newId, dto.title,
         if dto.description == "" then None else Some(dto.description),
         Todo,
         if dto.priority.Some? then dto.priority.value else Medium,
         if dto.categoryId == "" then None else Some(dto.categoryId),
         userId, now, now)
  }

  /** Title or description contains the term, ignoring case; a task
      without a description matches on its title only. */
  predicate MatchesSearch(t: Task, term: string)
  {
    ContainsIgnoringCase(t.title, term) || (t.description.Some? && ContainsIgnoringCase(t.description.value, term))
  }

  predicate TaskMatches(w: TaskWhere, t: Task)
  {
    && t.userId == w.userId
    && (w.status.Some? ==> t.status == w.status.value)
    && (w.priority.Some? ==> t.priority == w.priority.value)
    && (w.categoryId.Some? ==> t.categoryId == w.categoryId)
    && (w.search.Some? ==> MatchesSearch(t, w.search.value))
  }

  function MatchesWhere(w: TaskWhere): Task -> bool
  {
    (t: Task) => TaskMatches(w, t)
  }

  /** The where clause of a listing whose enumeration filters parse. */
  function FiltersWhere(userId: Id, f: TaskFilters): TaskWhere
  {
    TaskWhere(userId, ParseStatus(f.status), ParsePriority(f.priority),
              if f.categoryId == "" then None else Some(f.categoryId),
              if f.search == "" then None else Some(f.search))
  }

  /** A status or priority parameter that is not an enumeration value:
      the database client rejects the query. */
  predicate RejectedTaskFilters(f: TaskFilters)
  {
    (f.status != "" && ParseStatus(f.status).None?) || (f.priority != "" && ParsePriority(f.priority).None?)
  }

  function Totalled(cs: seq<Category>, es: seq<TimeEntry>): Task -> TaskTotal
  {
    (t: Task) => var d := DetailOf(t, cs, es); TaskTotal(d, TotalTime(d.timeEntries))
  }

  /** The listing: the matching rows, newest first, each with its joins
      and its total time. */
  function Listing(ts: seq<Task>, cs: seq<Category>, es: seq<TimeEntry>, w: TaskWhere): seq<TaskTotal>
  {
    Map(SortDesc(Filter(ts, MatchesWhere(w)), TaskCreatedAt), Totalled(cs, es))
  }

  /** What the listing holds: one element per matching row, newest first,
      each a matching row of the table with the sum of that task's
      durations; and every matching row is listed. */
  lemma ListingMatches(ts: seq<Task>, cs: seq<Category>, es: seq<TimeEntry>, w: TaskWhere)
    ensures |Listing(ts, cs, es, w)| == Count(ts, MatchesWhere(w))
    ensures forall i, j :: 0 <= i < j < |Listing(ts, cs, es, w)| ==>
      Listing(ts, cs, es, w)[i].detail.task.createdAt >= Listing(ts, cs, es, w)[j].detail.task.createdAt
    ensures forall i :: 0 <= i < |Listing(ts, cs, es, w)| ==>
      var l := Listing(ts, cs, es, w)[i];
      l.detail.task in ts && TaskMatches(w, l.detail.task)
      && l.totalTime == TotalTime(Filter(es, OfTask(l.detail.task.id)))
    ensures forall k :: 0 <= k < |ts| && TaskMatches(w, ts[k]) ==>
      exists i :: 0 <= i < |Listing(ts, cs, es, w)| && Listing(ts, cs, es, w)[i].detail.task == ts[k]
  {
    ListingSound(ts, cs, es, w);
    ListingComplete(ts, cs, es, w);
  }

  /** Every listed task is a matching row of the table. */
  lemma ListingSound(ts: seq<Task>, cs: seq<Category>, es: seq<TimeEntry>, w: TaskWhere)
    ensures forall i :: 0 <= i < |Listing(ts, cs, es, w)| ==>
      Listing(ts, cs, es, w)[i].detail.task in ts && TaskMatches(w, Listing(ts, cs, es, w)[i].detail.task)
  {
    var kept := Filter(ts, MatchesWhere(w));
    var sorted := SortDesc(kept, TaskCreatedAt);
    var l := Listing(ts, cs, es, w);
    FilterMembers(ts, MatchesWhere(w));
    assert forall i :: 0 <= i < |sorted| ==> sorted[i] in multiset(kept);
    forall i | 0 <= i < |l|
      ensures l[i].detail.task in ts && TaskMatches(w, l[i].detail.task)
    {
      assert l[i].detail.task == sorted[i];
      assert MatchesWhere(w)(sorted[i]);
    }
  }

  /** Every matching row of the table is listed. */
  lemma ListingComplete(ts: seq<Task>, cs: seq<Category>, es: seq<TimeEntry>, w: TaskWhere)
    ensures forall k :: 0 <= k < |ts| && TaskMatches(w, ts[k]) ==>
      exists i :: 0 <= i < |Listing(ts, cs, es, w)| && Listing(ts, cs, es, w)[i].detail.task == ts[k]
  {
    var kept := Filter(ts, MatchesWhere(w));
    var sorted := SortDesc(kept, TaskCreatedAt);
    var l := Listing(ts, cs, es, w);
    FilterMembers(ts, MatchesWhere(w));
    forall k | 0 <= k < |ts| && TaskMatches(w, ts[k])
      ensures exists i :: 0 <= i < |l| && l[i].detail.task == ts[k]
    {
      assert MatchesWhere(w)(ts[k]);
      assert ts[k] in multiset(sorted);
      var i :| 0 <= i < |sorted| && sorted[i] == ts[k];
      assert l[i].detail.task == ts[k];
    }
  }

  /** The status a toggle sets: a completed task is reopened as to-do,
      anything else is completed. */
  function ToggledStatus(s: Status): (r: Status)
    ensures r == Completed <==> s != Completed
    ensures r == Todo <==> s == Completed
  {
    if s == Completed then Todo else Completed
  }

  /** Toggling twice restores a to-do or completed task, but a task in
      progress comes back as to-do. */
  lemma ToggleTwice(s: Status)
    ensures s != InProgress ==> ToggledStatus(ToggledStatus(s)) == s
    ensures s == InProgress ==> ToggledStatus(ToggledStatus(s)) == Todo
  {
  }

  /** The row after an update: the supplied fields replace the stored
      ones; the id, the owner and the creation time never change. */
  function Patched(t: Task, p: TaskPatch, now: int): (r: Task)
    ensures r.id == t.id && r.userId == t.userId && r.createdAt == t.createdAt && r.updatedAt == now
    ensures r.title == (if p.title.Some? then p.title.value else t.title)
    ensures r.description == (if p.description.Some? then p.description else t.description)
    ensures r.status == (if p.status.Some? then p.status.value else t.status)
    ensures r.priority == (if p.priority.Some? then p.priority.value else t.priority)
    ensures r.categoryId == (if p.categoryId.Some? then p.categoryId else t.categoryId)
  {
    t.(title := if p.title.Some? then p.title.value else t.title,
       description := if p.description.Some? then p.description else t.description,
       status := if p.status.Some? then p.status.value else t.status,
       priority := if p.priority.Some? then p.priority.value else t.priority,
       categoryId := if p.categoryId.Some? then p.categoryId else t.categoryId,
       updatedAt := now)
  }

  /** An empty update only moves the update time. */
  lemma EmptyPatch(t: Task, now: int)
    ensures Patched(t, TaskPatch(None, None, None, None, None), now) == t.(updatedAt := now)
  {
  }

  /** Updating rows in place keeps the ids distinct when ids are kept. */
  lemma ReplaceKeepsIds(ts: seq<Task>, k: int, t: Task)
    requires DistinctTaskIds(ts) && 0 <= k < |ts| && t.id == ts[k].id
    ensures DistinctTaskIds(ts[k := t])
  {
  }

  lemma RemoveKeepsIds(ts: seq<Task>, k: int)
    requires DistinctTaskIds(ts) && 0 <= k < |ts|
    ensures DistinctTaskIds(RemoveRow(ts, k))
    ensures forall i :: 0 <= i < |RemoveRow(ts, k)| ==> RemoveRow(ts, k)[i].id != ts[k].id
  {
    var r := RemoveRow(ts, k);
    forall i, j | 0 <= i < j < |r| ensures r[i].id != r[j].id {
      var i' := if i < k then i else i + 1;
      var j' := if j < k then j else j + 1;
      assert r[i] == ts[i'] && r[j] == ts[j'];
    }
    forall i | 0 <= i < |r| ensures r[i].id != ts[k].id {
      var i' := if i < k then i else i + 1;
      assert r[i] == ts[i'];
    }
  }

  class TasksService {
    const db: Database

    constructor(db: Database)
      ensures this.db == db
    {
      this.db := db;
    }

    /** create. `now` is the clock reading and `newId` the id the database
        assigns; the request body has passed validation. A category id that
        names no category breaks the foreign key, and the database refuses
        the row. */
    method Create(userId: Id, dto: NewTask, now: int, newId: Id) returns (r: Result<TaskDetail, ServiceError>)
      requires db.Valid()
      requires dto.title != ""
      requires forall k :: 0 <= k < |db.tasks| ==> db.tasks[k].id != newId
      modifies db
      ensures db.Valid()
      ensures db.categories == old(db.categories) && db.entries == old(db.entries)
      ensures r.Failure? <==> !CategoryRefOk(db.categories, CreatedTask(userId, dto, now, newId).categoryId)
      ensures r.Failure? ==> r.error == ForeignKeyViolation && db.tasks == old(db.tasks)
      ensures r.Success? ==> db.tasks == old(db.tasks) + [CreatedTask(userId, dto, now, newId)]
      ensures r.Success? ==> r.value == DetailOf(CreatedTask(userId, dto, now, newId), db.categories, db.entries)
      ensures TasksReferenceCategories(old(db.tasks), db.categories) ==> TasksReferenceCategories(db.tasks, db.categories)
    {
      var t := CreatedTask(userId, dto, now, newId);
      if !CategoryRefOk(db.categories, t.categoryId) {
        return Failure(ForeignKeyViolation);
      }
      if TasksReferenceCategories(db.tasks, db.categories) {
        WriteKeepsReferences(db.tasks, db.categories, t, 0);
      }
      db.tasks := db.tasks + [t];
      r := Success(DetailOf(t, db.categories, db.entries));
    }

    /** findAll. The where clause starts with the owner and gains one
        condition per supplied parameter. */
    method FindAll(userId: Id, f: TaskFilters) returns (r: Result<seq<TaskTotal>, ServiceError>)
      ensures r.Failure? <==> RejectedTaskFilters(f)
      ensures r.Failure? ==> r.error == InvalidEnumFilter
      ensures r.Success? ==> r.value == Listing(db.tasks, db.categories, db.entries, FiltersWhere(userId, f))
    {
      var w := TaskWhere(userId, None, None, None, None);
      if f.status != "" {
        var s := ParseStatus(f.status);
        if s.None? {
          return Failure(InvalidEnumFilter);
        }
        w := w.(status := s);
      }
      if f.priority != "" {
        var p := ParsePriority(f.priority);
        if p.None? {
          return Failure(InvalidEnumFilter);
        }
        w := w.(priority := p);
      }
      if f.categoryId != "" {
        w := w.(categoryId := Some(f.categoryId));
      }
      if f.search != "" {
        w := w.(search := Some(f.search));
      }
      assert w == FiltersWhere(userId, f);
      var found := SortDesc(Filter(db.tasks, MatchesWhere(w)), TaskCreatedAt);
      r := Success(Map(found, Totalled(db.categories, db.entries)));
    }

    /** findOne: NotFound for a missing task, Forbidden for another
        user's task. */
    method FindOne(id: Id, userId: Id) returns (r: Result<TaskTotal, ServiceError>)
      ensures r == Failure(NotFound) <==> FindTask(db.tasks, id).None?
      ensures r == Failure(Forbidden) <==> FindTask(db.tasks, id).Some? && FindTask(db.tasks, id).value.userId != userId
      ensures r.Success? <==> OwnsTask(db.tasks, id, userId)
      ensures r.Success? ==>
        && TaskIndex(db.tasks, id).Some? && TaskIndex(db.tasks, id).value < |db.tasks|
        && r.value.detail == DetailOf(db.tasks[TaskIndex(db.tasks, id).value], db.categories, db.entries)
        && r.value.totalTime == TotalTime(Filter(db.entries, OfTask(id)))
    {
      var k := TaskIndex(db.tasks, id);
      if k.None? {
        return Failure(NotFound);
      }
      var t := db.tasks[k.value];
      if t.userId != userId {
        return Failure(Forbidden);
      }
      var d := DetailOf(t, db.categories, db.entries);
      r := Success(TaskTotal(d, TotalTime(d.timeEntries)));
    }

    /** update: the owner check of findOne, then the supplied fields; a
        supplied category id that names no category breaks the foreign key
        and the database refuses the write. */
    method Update(id: Id, userId: Id, p: TaskPatch, now: int) returns (r: Result<TaskDetail, ServiceError>)
      requires db.Valid()
      modifies db
      ensures db.Valid()
      ensures db.categories == old(db.categories) && db.entries == old(db.entries)
      ensures r == Failure(NotFound) <==> FindTask(old(db.tasks), id).None?
      ensures r == Failure(Forbidden) <==> FindTask(old(db.tasks), id).Some? && FindTask(old(db.tasks), id).value.userId != userId
      ensures r == Failure(ForeignKeyViolation) <==> OwnsTask(old(db.tasks), id, userId) && !CategoryRefOk(db.categories, p.categoryId)
      ensures r.Success? <==> OwnsTask(old(db.tasks), id, userId) && CategoryRefOk(db.categories, p.categoryId)
      ensures TasksReferenceCategories(old(db.tasks), db.categories) ==> TasksReferenceCategories(db.tasks, db.categories)
      ensures r.Failure? ==> db.tasks == old(db.tasks)
      ensures r.Success? ==>
        && TaskIndex(old(db.tasks), id).Some? && TaskIndex(old(db.tasks), id).value < |old(db.tasks)|
        && db.tasks == old(db.tasks)[TaskIndex(old(db.tasks), id).value := Patched(old(db.tasks)[TaskIndex(old(db.tasks), id).value], p, now)]
        && r.value == DetailOf(db.tasks[TaskIndex(old(db.tasks), id).value], db.categories, db.entries)
    {
      var found := FindOne(id, userId);
      if found.Failure? {
        return Failure(found.error);
      }
      if !CategoryRefOk(db.categories, p.categoryId) {
        return Failure(ForeignKeyViolation);
      }
      var k := TaskIndex(db.tasks, id).value;
      var t := Patched(db.tasks[k], p, now);
      ReplaceKeepsIds(db.tasks, k, t);
      if TasksReferenceCategories(db.tasks, db.categories) {
        assert CategoryRefOk(db.categories, t.categoryId) by {
          if p.categoryId.None? {
            assert t.categoryId == db.tasks[k].categoryId;
          }
        }
        WriteKeepsReferences(db.tasks, db.categories, t, k);
      }
      db.tasks := db.tasks[k := t];
      r := Success(DetailOf(t, db.categories, db.entries));
    }

    /** remove: the owner check of findOne, then the row is deleted; the
        time-entry relation cascades, so the task's entries go with it. */
    method Remove(id: Id, userId: Id) returns (r: Result<Task, ServiceError>)
      requires db.Valid()
      modifies db
      ensures db.Valid()
      ensures db.categories == old(db.categories)
      ensures r.Failure? ==> db.entries == old(db.entries)
      ensures r.Success? ==> db.entries == Filter(old(db.entries), OfOtherTask(id))
      ensures r.Success? ==> forall j :: 0 <= j < |db.entries| ==> db.entries[j].taskId != id
      ensures r.Success? && EntriesReferenceTasks(old(db.tasks), old(db.entries)) ==> EntriesReferenceTasks(db.tasks, db.entries)
      ensures r == Failure(NotFound) <==> FindTask(old(db.tasks), id).None?
      ensures r == Failure(Forbidden) <==> FindTask(old(db.tasks), id).Some? && FindTask(old(db.tasks), id).value.userId != userId
      ensures r.Success? <==> OwnsTask(old(db.tasks), id, userId)
      ensures r.Failure? ==> db.tasks == old(db.tasks)
      ensures r.Success? ==>
        && TaskIndex(old(db.tasks), id).Some? && TaskIndex(old(db.tasks), id).value < |old(db.tasks)|
        && r.value == old(db.tasks)[TaskIndex(old(db.tasks), id).value]
        && db.tasks == RemoveRow(old(db.tasks), TaskIndex(old(db.tasks), id).value)
        && FindTask(db.tasks, id).None?
    {
      var found := FindOne(id, userId);
      if found.Failure? {
        return Failure(found.error);
      }
      var k := TaskIndex(db.tasks, id).value;
      var t := db.tasks[k];
      RemoveKeepsIds(db.tasks, k);
      FilterKeepsEntries(db.entries, OfOtherTask(id));
      FilterMembers(db.entries, OfOtherTask(id));
      if EntriesReferenceTasks(db.tasks, db.entries) {
        CascadeKeepsReferences(db.tasks, db.entries, k);
      }
      db.tasks := RemoveRow(db.tasks, k);
      db.entries := Filter(db.entries, OfOtherTask(id));
      r := Success(t);
    }

    /** toggleStatus: the owner check of findOne, then the toggled status. */
    method ToggleStatus(id: Id, userId: Id, now: int) returns (r: Result<TaskDetail, ServiceError>)
      requires db.Valid()
      modifies db
      ensures db.Valid()
      ensures db.categories == old(db.categories) && db.entries == old(db.entries)
      ensures r == Failure(NotFound) <==> FindTask(old(db.tasks), id).None?
      ensures r == Failure(Forbidden) <==> FindTask(old(db.tasks), id).Some? && FindTask(old(db.tasks), id).value.userId != userId
      ensures r.Success? <==> OwnsTask(old(db.tasks), id, userId)
      ensures r.Failure? ==> db.tasks == old(db.tasks)
      ensures r.Success? ==>
        && TaskIndex(old(db.tasks), id).Some? && TaskIndex(old(db.tasks), id).value < |old(db.tasks)|
        && (var t := old(db.tasks)[TaskIndex(old(db.tasks), id).value];
            && db.tasks == old(db.tasks)[TaskIndex(old(db.tasks), id).value := t.(status := ToggledStatus(t.status), updatedAt := now)]
            && r.value.task.status == ToggledStatus(t.status)
            && r.value == DetailOf(db.tasks[TaskIndex(old(db.tasks), id).value], db.categories, db.entries))
    {
      var found := FindOne(id, userId);
      if found.Failure? {
        return Failure(found.error);
      }
      var k := TaskIndex(db.tasks, id).value;
      var t := db.tasks[k];
      var toggled := t.(status := ToggledStatus(t.status), updatedAt := now);
      ReplaceKeepsIds(db.tasks, k, toggled);
      db.tasks := db.tasks[k := toggled];
      r := Success(DetailOf(toggled, db.categories, db.entries));
    }
  }
}
