/** The client's task store: the list of tasks the pages show, a loading
    flag and the last fetch error. Every action sends one request and, once
    the server answers, replaces the list by a function of the old one and
    the answer. The server's answer is a parameter: Success with the body,
    or Failure with the error's message. */
module TaskStore {
  import opened Common
  import opened Domain

  function HasId(id: Id): TaskDetail -> bool
  {
    (d: TaskDetail) => d.task.id == id
  }

  /** No two tasks of the list share an id. */
  predicate UniqueIds(ts: seq<TaskDetail>)
  {
    forall i, j :: 0 <= i < j < |ts| ==> ts[i].task.id != ts[j].task.id
  }

  /** The list after an update or a toggle: the answer takes the place of
      the task with that id. */
  function Updated(ts: seq<TaskDetail>, id: Id, answer: TaskDetail): (r: seq<TaskDetail>)
    ensures |r| == |ts|
    ensures forall i :: 0 <= i < |ts| ==> r[i] == if ts[i].task.id == id then answer else ts[i]
  {
    ReplaceWhere(ts, HasId(id), answer)
  }

  /** The list after a delete: the tasks with another id, in their order. */
  function Deleted(ts: seq<TaskDetail>, id: Id): (r: seq<TaskDetail>)
    ensures |r| == |ts| - Count(ts, HasId(id))
    ensures forall i :: 0 <= i < |r| ==> r[i].task.id != id && r[i] in ts
    ensures forall k :: 0 <= k < |ts| && ts[k].task.id != id ==> ts[k] in r
    ensures multiset(r) <= multiset(ts)
  {
    var r := Filter(ts, Not(HasId(id)));
    FilterMembers(ts, Not(HasId(id)));
    CountComplement(ts, HasId(id));
    r
  }

  /** Deleting a task just created gives back the list before the create. */
  lemma DeleteUndoesCreate(ts: seq<TaskDetail>, t: TaskDetail)
    requires forall k :: 0 <= k < |ts| ==> ts[k].task.id != t.task.id
    ensures Deleted([t] + ts, t.task.id) == ts
  {
    var p := Not(HasId(t.task.id));
    FilterCons([t] + ts, p);
    assert ([t] + ts)[1..] == ts;
    FilterAll(ts, p);
  }

  /** Deleting after updating the same task is deleting alone, and deleting
      twice is deleting once. */
  lemma DeleteAfterUpdate(ts: seq<TaskDetail>, id: Id, answer: TaskDetail)
    requires answer.task.id == id
    ensures Deleted(Updated(ts, id, answer), id) == Deleted(ts, id)
    ensures Deleted(Deleted(ts, id), id) == Deleted(ts, id)
  {
    FilterReplaceWhere(ts, HasId(id), answer);
    FilterIdempotent(ts, Not(HasId(id)));
  }

  /** Every action keeps the ids unique, when created tasks get new ids and
      an answer keeps the id it was asked for. */
  lemma ActionsKeepIdsUnique(ts: seq<TaskDetail>, id: Id, t: TaskDetail)
    requires UniqueIds(ts)
    ensures (forall k :: 0 <= k < |ts| ==> ts[k].task.id != t.task.id) ==> UniqueIds([t] + ts)
    ensures t.task.id == id ==> UniqueIds(Updated(ts, id, t))
    ensures UniqueIds(Deleted(ts, id))
  {
    var r := Deleted(ts, id);
    forall i, j | 0 <= i < j < |r| ensures r[i].task.id != r[j].task.id {
      SubsequenceOrder(ts, Not(HasId(id)), i, j);
    }
    if forall k :: 0 <= k < |ts| ==> ts[k].task.id != t.task.id {
      forall i, j | 0 <= i < j < |[t] + ts| ensures ([t] + ts)[i].task.id != ([t] + ts)[j].task.id {
        if i > 0 {
          assert ([t] + ts)[i] == ts[i - 1];
        }
      }
    }
  }

  class Store {
    var tasks: seq<TaskDetail>
    var isLoading: bool
    var error: Option<string>

    /** The store's initial state. */
    constructor()
      ensures tasks == [] && !isLoading && error.None?
    {
      tasks := [];
      isLoading := false;
      error := None;
    }

    /** fetchTasks: the answer replaces the list; a failure keeps the list
      and records the message. Either way loading ends. */
    method FetchTasks(answer: Result<seq<TaskDetail>, string>)
      modifies this
      ensures !isLoading
      ensures answer.Success? ==> tasks == answer.value && error == old(error)
      ensures answer.Failure? ==> tasks == old(tasks) && error == Some(answer.error)
    {
      isLoading := true;
      if answer.Success? {
        tasks := answer.value;
        isLoading := false;
      } else {
        error := Some(answer.error);
        isLoading := false;
      }
    }

    /** createTask: the created task goes first, the old list after it. */
    method CreateTask(answer: Result<TaskDetail, string>) returns (r: Result<(), string>)
      modifies this
      ensures r.Failure? <==> answer.Failure?
      ensures answer.Failure? ==> r.error == answer.error && tasks == old(tasks)
      ensures answer.Success? ==> tasks == [answer.value] + old(tasks)
      ensures isLoading == old(isLoading) && error == old(error)
    {
      if answer.Failure? {
        return Failure(answer.error);
      }
      tasks := [answer.value] + tasks;
      r := Success(());
    }

    /** updateTask and toggleTask: the answer for the task replaces it. */
    method UpdateTask(id: Id, answer: Result<TaskDetail, string>) returns (r: Result<(), string>)
      modifies this
      ensures r.Failure? <==> answer.Failure?
      ensures answer.Failure? ==> r.error == answer.error && tasks == old(tasks)
      ensures answer.Success? ==> tasks == Updated(old(tasks), id, answer.value)
      ensures isLoading == old(isLoading) && error == old(error)
    {
      if answer.Failure? {
        return Failure(answer.error);
      }
      tasks := Updated(tasks, id, answer.value);
      r := Success(());
    }

    /** deleteTask: once the server confirms, the task leaves the list. */
    method DeleteTask(id: Id, answer: Result<(), string>) returns (r: Result<(), string>)
      modifies this
      ensures r == answer
      ensures answer.Failure? ==> tasks == old(tasks)
      ensures answer.Success? ==> tasks == Deleted(old(tasks), id)
      ensures isLoading == old(isLoading) && error == old(error)
    {
      if answer.Failure? {
        return Failure(answer.error);
      }
      tasks := Deleted(tasks, id);
      r := answer;
    }
  }
}
