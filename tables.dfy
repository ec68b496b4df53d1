/** The relational tables behind the backend services, held in memory:
    one sequence of rows per table, in insertion order. The invariants are
    the ones the schema and the services maintain together: ids are
    unique, a user has at most one running time entry, and category names
    are unique per user. */
module Tables {
  import opened Common
  import opened Domain

  /** The exceptions the services raise, and the database's refusal of a
      write that breaks a unique index or names a missing row. */
  datatype ServiceError = NotFound | Forbidden | BadRequest | Conflict | UniqueViolation | InvalidEnumFilter | ForeignKeyViolation

  /** The position of the first element satisfying p (findUnique/findFirst). */
  function FirstIndex<T>(s: seq<T>, p: T -> bool): (r: Option<nat>)
    ensures r.Some? ==> r.value < |s| && p(s[r.value]) && forall k :: 0 <= k < r.value ==> !p(s[k])
    ensures r.None? ==> forall k :: 0 <= k < |s| ==> !p(s[k])
  {
    if s == [] then None
    else if p(s[0]) then Some(0)
    else
      var r := FirstIndex(s[1..], p);
      assert forall k :: 1 <= k < |s| ==> s[k] == s[1..][k - 1];
      if r.Some? then Some(r.value + 1) else None
  }

  function TaskHasId(id: Id): Task -> bool { (t: Task) => t.id == id }
  function EntryHasId(id: Id): TimeEntry -> bool { (e: TimeEntry) => e.id == id }
  function CategoryHasId(id: Id): Category -> bool { (c: Category) => c.id == id }

  function TaskIndex(ts: seq<Task>, id: Id): Option<nat>
  {
    FirstIndex(ts, TaskHasId(id))
  }

  /** `findUnique({ where: { id } })` on the task table. */
  function FindTask(ts: seq<Task>, id: Id): (r: Option<Task>)
    ensures r.Some? ==> r.value in ts && r.value.id == id
    ensures r.None? ==> forall k :: 0 <= k < |ts| ==> ts[k].id != id
  {
    var k := TaskIndex(ts, id);
    if k.Some? then Some(ts[k.value]) else None
  }

  function FindEntry(es: seq<TimeEntry>, id: Id): (r: Option<TimeEntry>)
    ensures r.Some? ==> r.value in es && r.value.id == id
    ensures r.None? ==> forall k :: 0 <= k < |es| ==> es[k].id != id
  {
    var k := FirstIndex(es, EntryHasId(id));
    if k.Some? then Some(es[k.value]) else None
  }

  function FindCategory(cs: seq<Category>, id: Id): (r: Option<Category>)
    ensures r.Some? ==> r.value in cs && r.value.id == id
    ensures r.None? ==> forall k :: 0 <= k < |cs| ==> cs[k].id != id
  {
    var k := FirstIndex(cs, CategoryHasId(id));
    if k.Some? then Some(cs[k.value]) else None
  }

  /** The task exists and belongs to the user: the guard of every task
      lookup that answers NotFound for both failures. */
  predicate OwnsTask(ts: seq<Task>, id: Id, userId: Id)
  {
    var t := FindTask(ts, id);
    t.Some? && t.value.userId == userId
  }

  /** With unique ids, ownership is a property of the row with that id. */
  lemma OwnsTaskRow(ts: seq<Task>, id: Id, userId: Id, k: int)
    requires DistinctTaskIds(ts) && 0 <= k < |ts| && ts[k].id == id
    ensures OwnsTask(ts, id, userId) <==> ts[k].userId == userId
    ensures FindTask(ts, id) == Some(ts[k])
  {
    var i := FirstIndex(ts, TaskHasId(id));
    assert i.Some?;
    assert ts[i.value].id == id;
  }

  predicate DistinctTaskIds(ts: seq<Task>)
  {
    forall i, j :: 0 <= i < j < |ts| ==> ts[i].id != ts[j].id
  }

  predicate DistinctEntryIds(es: seq<TimeEntry>)
  {
    forall i, j :: 0 <= i < j < |es| ==> es[i].id != es[j].id
  }

  predicate DistinctCategoryIds(cs: seq<Category>)
  {
    forall i, j :: 0 <= i < j < |cs| ==> cs[i].id != cs[j].id
  }

  /** The open-timer invariant: no two running entries of one user. */
  predicate OneOpenPerUser(es: seq<TimeEntry>)
  {
    forall i, j :: 0 <= i < j < |es| && es[i].userId == es[j].userId ==> !(IsOpen(es[i]) && IsOpen(es[j]))
  }

  /** The (userId, name) unique index of the category table. */
  predicate UniqueNames(cs: seq<Category>)
  {
    forall i, j :: 0 <= i < j < |cs| && cs[i].userId == cs[j].userId ==> cs[i].name != cs[j].name
  }

  function OfTask(taskId: Id): TimeEntry -> bool
  {
    (e: TimeEntry) => e.taskId == taskId
  }

  /** The entries that survive the deletion of a task: the time-entry
      relation cascades, so the task's entries go with it. */
  function OfOtherTask(taskId: Id): TimeEntry -> bool
  {
    (e: TimeEntry) => e.taskId != taskId
  }

  /** A task after the deletion of a category: the optional relation
      sets a reference to the deleted row to null. */
  function DetachFrom(categoryId: Id): Task -> Task
  {
    (t: Task) => if t.categoryId == Some(categoryId) then t.(categoryId := None) else t
  }

  /** Every time entry names an existing task. */
  predicate EntriesReferenceTasks(ts: seq<Task>, es: seq<TimeEntry>)
  {
    forall j :: 0 <= j < |es| ==> FindTask(ts, es[j].taskId).Some?
  }

  /** An optional category id the foreign key accepts: none, or the id of
      an existing category. */
  predicate CategoryRefOk(cs: seq<Category>, categoryId: Option<Id>)
  {
    categoryId.None? || FindCategory(cs, categoryId.value).Some?
  }

  /** Every task's category id names an existing category. */
  predicate TasksReferenceCategories(ts: seq<Task>, cs: seq<Category>)
  {
    forall i :: 0 <= i < |ts| && ts[i].categoryId.Some? ==> FindCategory(cs, ts[i].categoryId.value).Some?
  }

  /** Dropping entries keeps entry ids distinct and the open-timer
      invariant. */
  lemma {:induction false} FilterKeepsEntries(es: seq<TimeEntry>, p: TimeEntry -> bool)
    requires DistinctEntryIds(es) && OneOpenPerUser(es)
    ensures DistinctEntryIds(Filter(es, p)) && OneOpenPerUser(Filter(es, p))
  {
    var r := Filter(es, p);
    forall i, j | 0 <= i < j < |r|
      ensures r[i].id != r[j].id && (r[i].userId == r[j].userId ==> !(IsOpen(r[i]) && IsOpen(r[j])))
    {
      SubsequenceOrder(es, p, i, j);
      var a, b :| 0 <= a < b < |es| && r[i] == es[a] && r[j] == es[b];
    }
  }

  /** A row whose category id the foreign key accepts keeps every
      reference valid, whether it is appended or replaces a row. */
  lemma {:induction false} WriteKeepsReferences(ts: seq<Task>, cs: seq<Category>, t: Task, k: nat)
    requires TasksReferenceCategories(ts, cs) && CategoryRefOk(cs, t.categoryId)
    ensures TasksReferenceCategories(ts + [t], cs)
    ensures k < |ts| ==> TasksReferenceCategories(ts[k := t], cs)
  {
    var a := ts + [t];
    forall i | 0 <= i < |a| && a[i].categoryId.Some? ensures FindCategory(cs, a[i].categoryId.value).Some? {
      if i < |ts| {
        assert a[i] == ts[i];
      }
    }
    if k < |ts| {
      var b := ts[k := t];
      forall i | 0 <= i < |b| && b[i].categoryId.Some? ensures FindCategory(cs, b[i].categoryId.value).Some? {
        if i != k {
          assert b[i] == ts[i];
        }
      }
    }
  }

  /** Detaching tasks from a category keeps every row's id. */
  lemma {:induction false} DetachKeepsIds(ts: seq<Task>, categoryId: Id)
    requires DistinctTaskIds(ts)
    ensures DistinctTaskIds(Map(ts, DetachFrom(categoryId)))
    ensures forall i :: 0 <= i < |ts| ==> Map(ts, DetachFrom(categoryId))[i].id == ts[i].id
  {
  }

  /** The cascade leaves no entry of a deleted task behind: when every
      entry named an existing task before, it still does afterwards. */
  lemma {:induction false} CascadeKeepsReferences(ts: seq<Task>, es: seq<TimeEntry>, k: nat)
    requires DistinctTaskIds(ts) && k < |ts| && EntriesReferenceTasks(ts, es)
    ensures EntriesReferenceTasks(RemoveRow(ts, k), Filter(es, OfOtherTask(ts[k].id)))
  {
    var r := RemoveRow(ts, k);
    var f := Filter(es, OfOtherTask(ts[k].id));
    FilterMembers(es, OfOtherTask(ts[k].id));
    forall j | 0 <= j < |f| ensures FindTask(r, f[j].taskId).Some? {
      var e := f[j];
      var a :| 0 <= a < |es| && es[a] == e;
      var t := FindTask(ts, e.taskId);
      var i :| 0 <= i < |ts| && ts[i] == t.value;
      assert ts[i].id == e.taskId && i != k;
      var i' := if i < k then i else i - 1;
      assert r[i'] == ts[i];
    }
  }

  /** Setting references to a deleted category to null leaves no task
      naming it: when every category id named a row before, the remaining
      ones still do. */
  lemma {:induction false} SetNullKeepsReferences(ts: seq<Task>, cs: seq<Category>, k: nat)
    requires DistinctCategoryIds(cs) && k < |cs| && TasksReferenceCategories(ts, cs)
    ensures TasksReferenceCategories(Map(ts, DetachFrom(cs[k].id)), RemoveRow(cs, k))
    ensures forall i :: 0 <= i < |ts| ==> Map(ts, DetachFrom(cs[k].id))[i].categoryId != Some(cs[k].id)
  {
    var m := Map(ts, DetachFrom(cs[k].id));
    var r := RemoveRow(cs, k);
    forall i | 0 <= i < |m| && m[i].categoryId.Some? ensures FindCategory(r, m[i].categoryId.value).Some? {
      var c := FindCategory(cs, ts[i].categoryId.value);
      var a :| 0 <= a < |cs| && cs[a] == c.value;
      assert cs[a].id == m[i].categoryId.value && a != k;
      var a' := if a < k then a else a - 1;
      assert r[a'] == cs[a];
    }
  }

  /** A task row with its category and its time entries, as the query's
      `include: { category: true, timeEntries: true }` joins them. A
      category id that names no row joins no category. */
  function DetailOf(t: Task, cs: seq<Category>, es: seq<TimeEntry>): (d: TaskDetail)
    ensures d.task == t
    ensures d.category.Some? ==> d.category.value in cs && t.categoryId == Some(d.category.value.id)
    ensures t.categoryId.Some? && d.category.None? ==> forall k :: 0 <= k < |cs| ==> cs[k].id != t.categoryId.value
    ensures forall j :: 0 <= j < |d.timeEntries| ==> d.timeEntries[j].taskId == t.id && d.timeEntries[j] in es
    ensures forall k :: 0 <= k < |es| && es[k].taskId == t.id ==> es[k] in d.timeEntries
  {
    FilterMembers(es, OfTask(t.id));
    TaskDetail(t, if t.categoryId.Some? then FindCategory(cs, t.categoryId.value) else None, Filter(es, OfTask(t.id)))
  }

  /** Removing the row at position k. */
  function RemoveRow<T>(s: seq<T>, k: nat): (r: seq<T>)
    requires k < |s|
    ensures |r| == |s| - 1
    ensures forall i :: 0 <= i < |r| ==> r[i] == if i < k then s[i] else s[i + 1]
  {
    s[..k] + s[k + 1..]
  }

  class Database {
    var tasks: seq<Task>
    var categories: seq<Category>
    var entries: seq<TimeEntry>

    ghost predicate Valid()
      reads this
    {
      && DistinctTaskIds(tasks)
      && DistinctCategoryIds(categories)
      && DistinctEntryIds(entries)
      && OneOpenPerUser(entries)
      && UniqueNames(categories)
    }

    /** An empty database. */
    constructor()
      ensures Valid()
      ensures tasks == [] && categories == [] && entries == []
    {
      tasks := [];
      categories := [];
      entries := [];
    }
  }
}
