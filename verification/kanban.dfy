/**
 * The Kanban projector of `src/components/KanbanView.tsx`: the fixed column
 * table, the grouping of tasks into columns, and the resolution of a drag
 * into at most one status-only task update.
 */
module Kanban {
  import opened Seqs
  import opened Types
  import DataService
  import Sync

  /** The column ids, in display order. */
  const Columns: seq<string> := [Todo, InProgress, Done]

  /** `grouped[task.status]` is defined exactly for the three column ids. */
  predicate IsColumn(s: string) {
    s in Columns
  }

  /** The tasks of one column, in input order (the pushes made up to the last task). */
  function ColumnOf(tasks: seq<Task>, c: string): seq<Task> {
    if |tasks| == 0 then []
    else
      var last := tasks[|tasks| - 1];
      ColumnOf(tasks[..|tasks| - 1], c) + (if last.status == c then [last] else [])
  }

  /** How many tasks carry a column status. */
  function Recognised(tasks: seq<Task>): nat {
    if |tasks| == 0 then 0
    else Recognised(tasks[..|tasks| - 1]) + (if IsColumn(tasks[|tasks| - 1].status) then 1 else 0)
  }

  /** `tasksByColumn`. */
  datatype Board = Board(todo: seq<Task>, inProgress: seq<Task>, done: seq<Task>)

  /** The column a board holds under a column id. */
  function Column(b: Board, c: string): seq<Task>
    requires IsColumn(c)
  {
    if c == Todo then b.todo else if c == InProgress then b.inProgress else b.done
  }

  /**
   * The `forEach` that pushes each task onto its column, skipping tasks whose
   * status names no column.
   */
  method GroupByColumn(tasks: seq<Task>) returns (b: Board)
    ensures forall c :: IsColumn(c) ==> Column(b, c) == ColumnOf(tasks, c)
  {
    var todo, inProgress, done := [], [], [];
    for i := 0 to |tasks|
      invariant todo == ColumnOf(tasks[..i], Todo)
      invariant inProgress == ColumnOf(tasks[..i], InProgress)
      invariant done == ColumnOf(tasks[..i], Done)
    {
      var t := tasks[i];
      assert tasks[..i + 1] == tasks[..i] + [t];
      if t.status == Todo {
        todo := todo + [t];
      } else if t.status == InProgress {
        inProgress := inProgress + [t];
      } else if t.status == Done {
        done := done + [t];
      }
    }
    assert tasks[..|tasks|] == tasks;
    b := Board(todo, inProgress, done);
  }

  /**
   * A task with a column status is in that column and no other, a task with
   * any other status is in no column, and each column keeps input order.
   */
  lemma {:induction false} ColumnMembership(tasks: seq<Task>, t: Task, c: string)
    requires IsColumn(c)
    ensures t in ColumnOf(tasks, c) <==> t in tasks && t.status == c
    ensures !IsColumn(t.status) ==> t !in ColumnOf(tasks, c)
    ensures IsSubsequence(ColumnOf(tasks, c), tasks)
    decreases |tasks|
  {
    if |tasks| > 0 {
      var init := tasks[..|tasks| - 1];
      var last := tasks[|tasks| - 1];
      ColumnMembership(init, t, c);
      assert tasks == init + [last];
      if last.status != c {
        assert ColumnOf(tasks, c) == ColumnOf(init, c);
        SubsequenceOfPrefix(ColumnOf(init, c), init, last);
      } else {
        var col := ColumnOf(tasks, c);
        assert col[..|col| - 1] == ColumnOf(init, c);
      }
    }
  }

  /** The three columns together hold exactly the tasks with a recognised status. */
  lemma {:induction false} ColumnSizes(tasks: seq<Task>)
    ensures |ColumnOf(tasks, Todo)| + |ColumnOf(tasks, InProgress)| + |ColumnOf(tasks, Done)|
            == Recognised(tasks)
    decreases |tasks|
  {
    if |tasks| > 0 {
      var init := tasks[..|tasks| - 1];
      var t := tasks[|tasks| - 1];
      ColumnSizes(init);
      assert tasks == init + [t];
    }
  }

  /** `over` of a drag-end event: the id under the cursor and its sortable container. */
  datatype Over = Over(id: string, containerId: Option<string>)

  /** `targetColumnId`: the drop id itself if it names a column, else its container. */
  function TargetColumn(over: Over): (r: Option<string>)
    ensures IsColumn(over.id) ==> r == Some(over.id)
    ensures !IsColumn(over.id) ==> r == over.containerId
    ensures r.Some? ==> r.value == over.id || over.containerId == r
  {
    if IsColumn(over.id) then Some(over.id) else over.containerId
  }

  /**
   * `handleDragEnd`: the task id and status-only patch handed to
   * `onUpdateTask`, or nothing.
   */
  function DragEnd(tasks: seq<Task>, activeId: string, over: Option<Over>): (r: Option<(string, TaskPatch)>)
    ensures over.None? ==> r.None?
    ensures over.Some? && over.value.id == activeId ==> r.None?
    ensures (forall t :: t in tasks ==> t.id != activeId) ==> r.None?
    ensures r.Some? ==> r.value.0 == activeId
    ensures r.Some? ==> exists s :: s != "" && r.value.1 == TaskPatch(None, Some(s), None)
    ensures r.Some? ==> Truthy(TargetColumn(over.value))
                        && r.value.1.status == TargetColumn(over.value)
                        && FindKey(tasks, TaskKey, activeId).value.status != TargetColumn(over.value).value
  {
    if over.None? || activeId == over.value.id then None
    else
      match FindKey(tasks, TaskKey, activeId)
      case None => None
      case Some(task) =>
        var target := TargetColumn(over.value);
        if Truthy(target) && task.status != target.value then
          Some((task.id, TaskPatch(None, target, None)))
        else None
  }

  /** Dropping a task onto its own column issues nothing. */
  lemma DropOnOwnColumn(tasks: seq<Task>, activeId: string, over: Over)
    requires FindKey(tasks, TaskKey, activeId).Some?
    requires TargetColumn(over) == Some(FindKey(tasks, TaskKey, activeId).value.status)
    ensures DragEnd(tasks, activeId, Some(over)).None?
  {
  }

  /**
   * A drop issues an update exactly when the target is set and differs from
   * the dragged task's status (the first task with the id).
   */
  lemma DragIssuesUpdate(tasks: seq<Task>, activeId: string, over: Over, f: int)
    requires over.id != activeId
    requires FirstWith(tasks, TaskKey, activeId, f)
    ensures DragEnd(tasks, activeId, Some(over)).Some?
            <==> Truthy(TargetColumn(over)) && tasks[f].status != TargetColumn(over).value
  {
    FindKeyFirst(tasks, TaskKey, activeId, f);
  }

  /** A drag-driven update carries a status, so when it is saved no success toast shows. */
  lemma DragUpdateIsSilent(tasks: seq<Task>, activeId: string, over: Option<Over>, owner: string,
                           client: DataService.Client, data: AppData, answer: DataService.Response<TaskRow>)
    requires DragEnd(tasks, activeId, over).Some?
    ensures var (id, u) := DragEnd(tasks, activeId, over).value;
            Sync.UpdateTask(Some(owner), client, data, id, u, answer).notice != Sync.Succeeded
  {
    var (id, u) := DragEnd(tasks, activeId, over).value;
    Sync.UpdateTaskNotice(owner, client, data, id, u, answer);
  }
}
