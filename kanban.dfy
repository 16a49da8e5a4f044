/** The task list of the kanban board: the local list updates of
    web/src/components/space/KanbanBoard/useKanbanSSE.tsx after each request
    and the column partition and drop handling of KanbanBoard.tsx. The HTTP
    requests themselves are outside the model; each operation is told
    whether its request went through. Statuses are plain strings, since the
    `as` casts in the source check nothing. */
module Kanban {
  import opened Wrappers
  import Decimal

  datatype Task = Task(
    id: string,
    status: string,
    title: string,
    description: string,
    priority: string,
    createdAt: string,
    dueDate: string)

  // ---------------------------------------------------------------------
  // Filtering and counting

  /** The tasks `keep` accepts, in their original order (`Array.filter`). */
  function Filter(tasks: seq<Task>, keep: Task -> bool): (r: seq<Task>)
    ensures |r| <= |tasks|
    ensures forall t :: t in r ==> t in tasks && keep(t)
  {
    if tasks == [] then []
    else
      var rest := Filter(tasks[1..], keep);
      if keep(tasks[0]) then [tasks[0]] + rest else rest
  }

  /** A filter keeps every task it accepts as often as it occurs, and drops
      every other task entirely. */
  lemma {:induction false} FilterCounts(tasks: seq<Task>, keep: Task -> bool, t: Task)
    ensures multiset(Filter(tasks, keep))[t] == if keep(t) then multiset(tasks)[t] else 0
    decreases |tasks|
  {
    if tasks != [] {
      FilterCounts(tasks[1..], keep, t);
      assert tasks == [tasks[0]] + tasks[1..];
    }
  }

  /** Filtering a joined list is joining the filtered parts: a filter keeps
      the relative order of what it keeps. */
  lemma {:induction false} FilterConcat(a: seq<Task>, b: seq<Task>, keep: Task -> bool)
    ensures Filter(a + b, keep) == Filter(a, keep) + Filter(b, keep)
    decreases |a|
  {
    if a == [] {
      assert a + b == b;
    } else {
      assert (a + b)[0] == a[0] && (a + b)[1..] == a[1..] + b;
      FilterConcat(a[1..], b, keep);
    }
  }

  /** A filter that accepts everything in the list changes nothing. */
  lemma {:induction false} FilterAll(tasks: seq<Task>, keep: Task -> bool)
    requires forall k :: 0 <= k < |tasks| ==> keep(tasks[k])
    ensures Filter(tasks, keep) == tasks
    decreases |tasks|
  {
    if tasks != [] {
      FilterAll(tasks[1..], keep);
    }
  }

  // ---------------------------------------------------------------------
  // The local list updates

  /** The `prev.map` after a successful PATCH: tasks with id `taskId` get
      the new status, all others are kept as they are. */
  function SetStatus(tasks: seq<Task>, taskId: string, status: string): (r: seq<Task>)
    ensures |r| == |tasks|
    ensures forall k :: 0 <= k < |tasks| ==>
      r[k] == if tasks[k].id == taskId then tasks[k].(status := status) else tasks[k]
  {
    if tasks == [] then []
    else
      var t := tasks[0];
      [if t.id == taskId then t.(status := status) else t] + SetStatus(tasks[1..], taskId, status)
  }

  /** Doing the same update twice is doing it once. */
  lemma SetStatusIdempotent(tasks: seq<Task>, taskId: string, status: string)
    ensures SetStatus(SetStatus(tasks, taskId, status), taskId, status) == SetStatus(tasks, taskId, status)
  {
  }

  /** An update for an id no task has changes nothing. */
  lemma SetStatusUnknownId(tasks: seq<Task>, taskId: string, status: string)
    requires forall k :: 0 <= k < |tasks| ==> tasks[k].id != taskId
    ensures SetStatus(tasks, taskId, status) == tasks
  {
  }

  /** The test `task.id !== taskId`. */
  function NotId(taskId: string): Task -> bool {
    (u: Task) => u.id != taskId
  }

  /** The tasks without id `taskId`: the `prev.filter` after a DELETE. */
  function WithoutId(tasks: seq<Task>, taskId: string): seq<Task> {
    Filter(tasks, NotId(taskId))
  }

  /** After a delete no task has the id, every other task keeps its count,
      and tasks keep their order. */
  lemma WithoutIdExact(tasks: seq<Task>, taskId: string, t: Task, rest: seq<Task>)
    ensures forall u :: u in WithoutId(tasks, taskId) ==> u.id != taskId
    ensures multiset(WithoutId(tasks, taskId))[t] == if t.id != taskId then multiset(tasks)[t] else 0
    ensures WithoutId(tasks + rest, taskId) == WithoutId(tasks, taskId) + WithoutId(rest, taskId)
  {
    FilterCounts(tasks, NotId(taskId), t);
    FilterConcat(tasks, rest, NotId(taskId));
  }

  /** The result of a request: the new list and the value the function
      returns. */
  datatype Outcome = Outcome(tasks: seq<Task>, succeeded: bool)

  /** `updateTaskStatus`: on success the list is updated and true returned;
      when the request throws the list is untouched and false returned. */
  function UpdateTaskStatus(tasks: seq<Task>, taskId: string, status: string, requestOk: bool): (r: Outcome)
    ensures r.succeeded == requestOk
    ensures !requestOk ==> r.tasks == tasks
    ensures requestOk ==> r.tasks == SetStatus(tasks, taskId, status)
  {
    if requestOk then Outcome(SetStatus(tasks, taskId, status), true) else Outcome(tasks, false)
  }

  /** `deleteTask`, the same way. */
  function DeleteTask(tasks: seq<Task>, taskId: string, requestOk: bool): (r: Outcome)
    ensures r.succeeded == requestOk
    ensures !requestOk ==> r.tasks == tasks
    ensures requestOk ==> r.tasks == WithoutId(tasks, taskId)
  {
    if requestOk then Outcome(WithoutId(tasks, taskId), true) else Outcome(tasks, false)
  }

  /** `createTask` only reports whether the POST went through: the new task
      shows up on the next fetch, not in the list. */
  function CreateTask(tasks: seq<Task>, requestOk: bool): (r: Outcome)
    ensures r.tasks == tasks && r.succeeded == requestOk
  {
    Outcome(tasks, requestOk)
  }

  // ---------------------------------------------------------------------
  // Loading the list

  /** A task row as the server sends it. A missing or empty description or
      due date is `None`. */
  datatype Record = Record(
    taskId: nat,
    status: string,
    title: string,
    description: Option<string>,
    priority: string,
    createdAt: string,
    dueDate: Option<string>)

  /** The `data.map` in `fetchTasks`: the numeric id becomes its decimal
      string and a missing description or due date becomes "". The creation
      time is taken as already converted. */
  function FromRecord(r: Record): (t: Task)
    ensures forall i :: 0 <= i < |t.id| ==> Decimal.IsDigit(t.id[i])
    ensures Decimal.ValueOf(t.id) == r.taskId
    ensures t.description == r.description.GetOr("") && t.dueDate == r.dueDate.GetOr("")
    ensures t.status == r.status && t.title == r.title && t.priority == r.priority
  {
    Decimal.ValueOfNatToString(r.taskId);
    Task(Decimal.NatToString(r.taskId), r.status, r.title, r.description.GetOr(""),
         r.priority, r.createdAt, r.dueDate.GetOr(""))
  }

  function FromRecords(data: seq<Record>): (ts: seq<Task>)
    ensures |ts| == |data|
    ensures forall k :: 0 <= k < |data| ==> ts[k] == FromRecord(data[k])
  {
    seq(|data|, k requires 0 <= k < |data| => FromRecord(data[k]))
  }

  /** Rows with distinct numeric ids give tasks with distinct string ids, so
      an update or a delete by id touches one task. */
  lemma FromRecordsDistinctIds(data: seq<Record>)
    requires forall k, l :: 0 <= k < l < |data| ==> data[k].taskId != data[l].taskId
    ensures var ts := FromRecords(data);
      forall k, l :: 0 <= k < l < |ts| ==> ts[k].id != ts[l].id
  {
  }

  /** What the fetch returned: the rows, or an error (the `status ===
      "error"` reply, or a request that threw). */
  datatype Fetched = Rows(data: seq<Record>) | FetchFailed

  /** The hook's state. */
  datatype Board = Board(tasks: seq<Task>, error: Option<string>)

  /** `fetchTasks`: rows replace the list; a failure keeps the list and
      sets the error message. */
  function Load(b: Board, f: Fetched): (r: Board)
    ensures f.Rows? ==> r == b.(tasks := FromRecords(f.data))
    ensures f.FetchFailed? ==> r == b.(error := Some("Failed to load tasks"))
  {
    match f
    case Rows(data) => b.(tasks := FromRecords(data))
    case FetchFailed => b.(error := Some("Failed to load tasks"))
  }

  // ---------------------------------------------------------------------
  // Columns

  /** The ids of `COLUMNS`, in display order. */
  const Columns: seq<string> := ["TODO", "IN_PROGRESS", "IN_REVIEW", "DONE"]

  /** The test `task.status === column.id`. */
  function HasStatus(columnId: string): Task -> bool {
    (u: Task) => u.status == columnId
  }

  /** The tasks a column shows. */
  function Column(tasks: seq<Task>, columnId: string): seq<Task> {
    Filter(tasks, HasStatus(columnId))
  }

  /** No two columns share an id, so no status names two columns. */
  lemma ColumnsDistinct()
    ensures forall k, l :: 0 <= k < l < |Columns| ==> Columns[k] != Columns[l]
  {
  }

  /** A column shows each task with its status as often as it occurs, no
      other task, and in list order. */
  lemma ColumnExact(tasks: seq<Task>, columnId: string, t: Task, rest: seq<Task>)
    ensures multiset(Column(tasks, columnId))[t] == if t.status == columnId then multiset(tasks)[t] else 0
    ensures Column(tasks + rest, columnId) == Column(tasks, columnId) + Column(rest, columnId)
  {
    FilterCounts(tasks, HasStatus(columnId), t);
    FilterConcat(tasks, rest, HasStatus(columnId));
  }

  /** A task is shown by at most one column, and by none when its status is
      not a column id. */
  lemma ColumnOfTask(tasks: seq<Task>, t: Task, k: nat)
    requires t in tasks && k < |Columns|
    ensures t in Column(tasks, Columns[k]) <==> t.status == Columns[k]
    ensures t.status !in Columns ==> forall l :: 0 <= l < |Columns| ==> t !in Column(tasks, Columns[l])
    ensures t in Column(tasks, Columns[k]) ==>
      forall l :: 0 <= l < |Columns| && l != k ==> t !in Column(tasks, Columns[l])
  {
    ColumnExact(tasks, Columns[k], t, []);
    assert t in multiset(tasks);
    ColumnsDistinct();
    forall l | 0 <= l < |Columns| && l != k && t in Column(tasks, Columns[k])
      ensures t !in Column(tasks, Columns[l])
    {
      ColumnExact(tasks, Columns[l], t, []);
    }
    forall l | 0 <= l < |Columns| && t.status !in Columns
      ensures t !in Column(tasks, Columns[l])
    {
      ColumnExact(tasks, Columns[l], t, []);
    }
  }

  /** `handleDragEnd`: a drop outside every column does nothing; a drop on
      a column asks to move the dragged task there. */
  function DragEnd(tasks: seq<Task>, active: string, over: Option<string>, requestOk: bool): (r: Outcome)
    ensures over.None? ==> r == Outcome(tasks, false)
    ensures over.Some? ==> r == UpdateTaskStatus(tasks, active, over.value, requestOk)
  {
    match over
    case None => Outcome(tasks, false)
    case Some(target) => UpdateTaskStatus(tasks, active, target, requestOk)
  }

  /** A drop that goes through moves the dragged task into the target
      column and out of every other one, when ids are distinct. */
  lemma DropMovesTask(tasks: seq<Task>, k: nat, target: string, other: string)
    requires k < |tasks| && other != target
    requires forall i, j :: 0 <= i < j < |tasks| ==> tasks[i].id != tasks[j].id
    ensures var after := DragEnd(tasks, tasks[k].id, Some(target), true).tasks;
      && tasks[k].(status := target) in Column(after, target)
      && forall u :: u in Column(after, other) ==> u.id != tasks[k].id
  {
    var after := DragEnd(tasks, tasks[k].id, Some(target), true).tasks;
    var moved := tasks[k].(status := target);
    assert after[k] == moved;
    ColumnExact(after, target, moved, []);
    assert moved in multiset(after);
    forall u | u in Column(after, other)
      ensures u.id != tasks[k].id
    {
      var i :| 0 <= i < |after| && after[i] == u;
      if i != k {
        assert after[i] == tasks[i];
      }
    }
  }
}
