/**
 * The task board page: the search filter and the split into three columns,
 * the drag-end rule that turns a drop into a status/order update, and the
 * page's own state (the dragged task shown in the overlay, the task modal).
 */
module Board {
  import opened Wrappers
  import opened Text
  import opened Seqs
  import opened Tasks

  // ---------------------------------------------------------------------
  // Search and columns
  // ---------------------------------------------------------------------

  /**
   * The search test: the lower-cased title includes the lower-cased term,
   * or the task has a non-empty description whose lower-cased form does.
   */
  predicate Matches(t: Task, term: string): (r: bool)
    ensures r <==>
      || Occurs(ToLower(t.title), ToLower(term))
      || (t.description.Some? && t.description.value != ""
          && Occurs(ToLower(t.description.value), ToLower(term)))
  {
    ContainsIff(ToLower(t.title), ToLower(term));
    match t.description
    case None =>
      Contains(ToLower(t.title), ToLower(term))
    case Some(d) =>
      ContainsIff(ToLower(d), ToLower(term));
      Contains(ToLower(t.title), ToLower(term)) || (d != "" && Contains(ToLower(d), ToLower(term)))
  }

  function MatchesTerm(term: string): Task -> bool
  {
    (t: Task) => Matches(t, term)
  }

  function HasStatus(status: string): Task -> bool
  {
    (t: Task) => t.status == status
  }

  /** The tasks the board shows for search term `term`. */
  function FilteredTasks(tasks: seq<Task>, term: string): (r: seq<Task>)
    ensures |r| <= |tasks|
    ensures forall i :: 0 <= i < |r| ==> Matches(r[i], term)
  {
    Filter(tasks, MatchesTerm(term))
  }

  /** One column: the filtered tasks whose status is exactly `status`. */
  function ColumnTasks(filtered: seq<Task>, status: string): (r: seq<Task>)
    ensures |r| <= |filtered|
    ensures forall i :: 0 <= i < |r| ==> r[i].status == status
  {
    Filter(filtered, HasStatus(status))
  }

  /** The status strings of the three columns, which also serve as their droppable ids. */
  const TodoStatus: string := "todo"
  const InProgressStatus: string := "in_progress"
  const DoneStatus: string := "done"

  datatype Columns = Columns(todo: seq<Task>, inProgress: seq<Task>, done: seq<Task>)

  /** The three columns of the board for search term `term`. */
  function SplitColumns(tasks: seq<Task>, term: string): (c: Columns)
    ensures forall i :: 0 <= i < |c.todo| ==>
      c.todo[i].status == TodoStatus && c.todo[i] in FilteredTasks(tasks, term)
    ensures forall i :: 0 <= i < |c.inProgress| ==>
      c.inProgress[i].status == InProgressStatus && c.inProgress[i] in FilteredTasks(tasks, term)
    ensures forall i :: 0 <= i < |c.done| ==>
      c.done[i].status == DoneStatus && c.done[i] in FilteredTasks(tasks, term)
  {
    var filtered := FilteredTasks(tasks, term);
    Columns(ColumnTasks(filtered, TodoStatus),
            ColumnTasks(filtered, InProgressStatus),
            ColumnTasks(filtered, DoneStatus))
  }

  /**
   * The search keeps exactly the matching tasks, each as often as the list
   * holds it, in their original relative order.
   */
  lemma SearchKeepsExactlyMatches(tasks: seq<Task>, term: string, t: Task)
    ensures t in FilteredTasks(tasks, term) <==> t in tasks && Matches(t, term)
    ensures multiset(FilteredTasks(tasks, term))[t] == if Matches(t, term) then multiset(tasks)[t] else 0
    ensures IsSubsequence(FilteredTasks(tasks, term), tasks)
  {
    FilterMembership(tasks, MatchesTerm(term), t);
    FilterMultiplicity(tasks, MatchesTerm(term), t);
    FilterIsSubsequence(tasks, MatchesTerm(term));
  }

  /** An empty search term keeps every task. */
  lemma SearchEmptyTermKeepsAll(tasks: seq<Task>)
    ensures FilteredTasks(tasks, "") == tasks
  {
    forall i | 0 <= i < |tasks| ensures MatchesTerm("")(tasks[i]) {
      ContainsEmpty(ToLower(tasks[i].title));
    }
    FilterKeepsAll(tasks, MatchesTerm(""));
  }

  /**
   * A task is in a column exactly when it passes the search and its status
   * is that column's status; each column keeps the filtered list's order.
   */
  lemma ColumnMembership(filtered: seq<Task>, status: string, t: Task)
    ensures t in ColumnTasks(filtered, status) <==> t in filtered && t.status == status
    ensures IsSubsequence(ColumnTasks(filtered, status), filtered)
  {
    FilterMembership(filtered, HasStatus(status), t);
    FilterIsSubsequence(filtered, HasStatus(status));
  }

  /**
   * The three columns are order-preserving subsequences of the filtered
   * list (and so of the whole list), no task is in two of them, and a task
   * whose status is none of the three column statuses is in none of them.
   */
  lemma ColumnsPartition(tasks: seq<Task>, term: string, t: Task)
    ensures var c := SplitColumns(tasks, term);
      var filtered := FilteredTasks(tasks, term);
      && IsSubsequence(c.todo, filtered)
      && IsSubsequence(c.inProgress, filtered)
      && IsSubsequence(c.done, filtered)
      && IsSubsequence(c.todo, tasks) && IsSubsequence(c.inProgress, tasks) && IsSubsequence(c.done, tasks)
      && !(t in c.todo && t in c.inProgress)
      && !(t in c.todo && t in c.done)
      && !(t in c.inProgress && t in c.done)
      && (t.status != TodoStatus && t.status != InProgressStatus && t.status != DoneStatus ==>
            t !in c.todo && t !in c.inProgress && t !in c.done)
  {
    var filtered := FilteredTasks(tasks, term);
    ColumnMembership(filtered, TodoStatus, t);
    ColumnMembership(filtered, InProgressStatus, t);
    ColumnMembership(filtered, DoneStatus, t);
    var c := SplitColumns(tasks, term);
    FilterIsSubsequence(tasks, MatchesTerm(term));
    SubsequenceTransitive(c.todo, filtered, tasks);
    SubsequenceTransitive(c.inProgress, filtered, tasks);
    SubsequenceTransitive(c.done, filtered, tasks);
  }

  /**
   * The task form offers the status 'in-progress', which is none of the
   * column statuses: such a task is listed by the search but shown in no column.
   */
  lemma FormInProgressStatusInNoColumn(tasks: seq<Task>, term: string, t: Task)
    requires t in tasks && Matches(t, term) && t.status == "in-progress"
    ensures var c := SplitColumns(tasks, term);
      t in FilteredTasks(tasks, term) && t !in c.todo && t !in c.inProgress && t !in c.done
  {
    SearchKeepsExactlyMatches(tasks, term, t);
    ColumnsPartition(tasks, term, t);
  }

  // ---------------------------------------------------------------------
  // Drag end
  // ---------------------------------------------------------------------

  /**
   * Where a drag ended: a column (its droppable is marked as a column and
   * its id is the column's status) or a task (its id).
   */
  datatype DropTarget = DropTarget(id: string, isColumn: bool)

  /** The update a drop sends: the dragged task's id with its new status and order. */
  datatype Update = Update(id: string, status: string, order: real)

  function OthersKeep(status: string, activeId: string): Task -> bool
  {
    (t: Task) => t.status == status && t.id != activeId
  }

  /** The tasks of column `status` other than the dragged one, in list order. */
  function OthersInColumn(tasks: seq<Task>, status: string, activeId: string): (r: seq<Task>)
    ensures |r| <= |tasks|
    ensures forall i :: 0 <= i < |r| ==> r[i].status == status && r[i].id != activeId
  {
    Filter(tasks, OthersKeep(status, activeId))
  }

  /** `Math.max(0, ...col.map(t => t.order))`. */
  function MaxOrder(col: seq<Task>): (r: real)
    ensures r >= 0.0
    ensures forall i :: 0 <= i < |col| ==> col[i].order <= r
    ensures r == 0.0 || exists i :: 0 <= i < |col| && col[i].order == r
  {
    if col == [] then 0.0
    else
      var rest := MaxOrder(col[1..]);
      if col[0].order > rest then col[0].order else rest
  }

  /**
   * The order for a drop onto `col[k]`: the midpoint between the task before
   * it in the column (0 when it is first) and the task itself.
   */
  function MidpointOrder(col: seq<Task>, k: nat): (r: real)
    requires k < |col|
    ensures var before := if k > 0 then col[k - 1].order else 0.0;
      && r - before == col[k].order - r
      && (before < col[k].order ==> before < r < col[k].order)
  {
    ((if k > 0 then col[k - 1].order else 0.0) + col[k].order) / 2.0
  }

  /** The new status of a drop: the column's id, or the target task's status when it is known. */
  function DropStatus(over: DropTarget, tasks: seq<Task>): (r: Option<string>)
    ensures over.isColumn ==> r == Some(over.id)
    ensures !over.isColumn ==> (r.None? <==> Find(tasks, over.id).None?)
    ensures !over.isColumn && r.Some? ==> r.value == Find(tasks, over.id).value.status
  {
    if over.isColumn then Some(over.id)
    else match Find(tasks, over.id)
      case Some(t) => Some(t.status)
      case None => None
  }

  /**
   * Looking an id up in a filtered list finds the same task as looking it up
   * in the whole list, when the filter keeps that task.
   */
  lemma {:induction false} FindThroughFilter(ts: seq<Task>, keep: Task -> bool, id: string)
    requires Find(ts, id).Some? && keep(Find(ts, id).value)
    ensures Find(Filter(ts, keep), id) == Find(ts, id)
  {
    var r := Filter(ts, keep);
    if ts[0].id != id {
      assert FindIndex(ts, id) == FindIndex(ts[1..], id) + 1;
      FindThroughFilter(ts[1..], keep, id);
      if keep(ts[0]) {
        assert r[0] == ts[0] && r[1..] == Filter(ts[1..], keep);
        assert FindIndex(r, id) == FindIndex(r[1..], id) + 1;
      }
    } else {
      assert r[0] == ts[0];
    }
  }

  /**
   * A drop onto a task always finds that very task in the column it is
   * dropped into: it has that column's status and is not the dragged task.
   */
  lemma TargetInColumn(tasks: seq<Task>, overId: string, activeId: string)
    requires Find(tasks, overId).Some? && overId != activeId
    ensures var col := OthersInColumn(tasks, Find(tasks, overId).value.status, activeId);
      var k := FindIndex(col, overId);
      0 <= k < |col| && col[k] == Find(tasks, overId).value
  {
    var target := Find(tasks, overId).value;
    FindThroughFilter(tasks, OthersKeep(target.status, activeId), overId);
  }

  /**
   * The drag-end rule. No update when there is no drop target, the target is
   * the dragged task itself, the dragged task is not in the list, or the new
   * status is unknown or empty. A drop onto a column appends to it; a drop
   * onto a task takes the midpoint between that task and its predecessor.
   */
  function DragEndUpdate(activeId: string, over: Option<DropTarget>, tasks: seq<Task>): (u: Option<Update>)
    ensures u.Some? ==> u.value.id == activeId
  {
    if over.None? || activeId == over.value.id then None
    else if Find(tasks, activeId).None? then None
    else match DropStatus(over.value, tasks)
      case None => None
      case Some(newStatus) =>
        if newStatus == "" then None
        else
          var col := OthersInColumn(tasks, newStatus, activeId);
          if over.value.isColumn then
            Some(Update(activeId, newStatus, MaxOrder(col) + 1.0))
          else
            TargetInColumn(tasks, over.value.id, activeId);
            Some(Update(activeId, newStatus, MidpointOrder(col, FindIndex(col, over.value.id))))
  }

  /** Exactly the listed no-op conditions make a drop issue no update. */
  lemma DragEndNoUpdateIff(activeId: string, over: Option<DropTarget>, tasks: seq<Task>)
    ensures DragEndUpdate(activeId, over, tasks).None? <==>
      || over.None?
      || over.value.id == activeId
      || Find(tasks, activeId).None?
      || (over.value.isColumn && over.value.id == "")
      || (!over.value.isColumn && Find(tasks, over.value.id).None?)
      || (!over.value.isColumn && Find(tasks, over.value.id).value.status == "")
  {
  }

  /**
   * A drop onto column `column` moves the dragged task into that column with
   * order `max(0, other orders in the column) + 1`: at least 1, at least 1
   * above every other order there, one more than one of them or exactly 1,
   * and 1 when the column holds no other task.
   */
  lemma ColumnDrop(activeId: string, column: string, tasks: seq<Task>)
    requires column != activeId && column != "" && Find(tasks, activeId).Some?
    ensures var u := DragEndUpdate(activeId, Some(DropTarget(column, true)), tasks);
      && u.Some? && u.value.id == activeId && u.value.status == column
      && u.value.order == MaxOrder(OthersInColumn(tasks, column, activeId)) + 1.0
      && u.value.order >= 1.0
      && (forall t :: t in tasks && t.status == column && t.id != activeId ==> t.order <= u.value.order - 1.0)
      && (u.value.order == 1.0 ||
          exists t :: t in tasks && t.status == column && t.id != activeId && t.order == u.value.order - 1.0)
      && ((forall t :: t in tasks && t.status == column ==> t.id == activeId) ==> u.value.order == 1.0)
  {
    var col := OthersInColumn(tasks, column, activeId);
    var m := MaxOrder(col);
    forall t | t in tasks && t.status == column && t.id != activeId ensures t.order <= m {
      FilterMembership(tasks, OthersKeep(column, activeId), t);
      var i :| 0 <= i < |col| && col[i] == t;
    }
    if m != 0.0 {
      var i :| 0 <= i < |col| && col[i].order == m;
      FilterMembership(tasks, OthersKeep(column, activeId), col[i]);
    }
  }

  /**
   * A drop onto task `overId` gives the dragged task the target's status and
   * the midpoint order between the target and the task before it in the
   * target's column (the dragged task left out), 0 standing for a missing
   * predecessor.
   */
  lemma TaskDrop(activeId: string, overId: string, tasks: seq<Task>)
    requires overId != activeId && Find(tasks, activeId).Some?
    requires Find(tasks, overId).Some? && Find(tasks, overId).value.status != ""
    ensures var target := Find(tasks, overId).value;
      var col := OthersInColumn(tasks, target.status, activeId);
      var k := FindIndex(col, overId);
      && 0 <= k < |col| && col[k] == target
      && DragEndUpdate(activeId, Some(DropTarget(overId, false)), tasks)
           == Some(Update(activeId, target.status, MidpointOrder(col, k)))
  {
    TargetInColumn(tasks, overId, activeId);
  }

  /** The orders of `col` increase strictly along the sequence. */
  ghost predicate Ascending(col: seq<Task>)
  {
    forall i, j :: 0 <= i < j < |col| ==> col[i].order < col[j].order
  }

  ghost predicate PositiveOrders(col: seq<Task>)
  {
    forall i :: 0 <= i < |col| ==> col[i].order > 0.0
  }

  /**
   * When the column's orders are positive and ascending, the midpoint order
   * places the dropped task immediately before the target: exactly the tasks
   * before position `k` have a smaller order.
   */
  lemma MidpointPlacesBefore(col: seq<Task>, k: nat)
    requires k < |col| && Ascending(col) && PositiveOrders(col)
    ensures var m := MidpointOrder(col, k);
      && (k > 0 ==> col[k - 1].order < m)
      && m < col[k].order
      && forall i :: 0 <= i < |col| ==> (col[i].order < m <==> i < k)
  {
    var m := MidpointOrder(col, k);
    forall i | 0 <= i < |col| ensures col[i].order < m <==> i < k {
      if i < k - 1 {
        assert col[i].order < col[k - 1].order;
      } else if i > k {
        assert col[k].order < col[i].order;
      }
    }
  }

  // ---------------------------------------------------------------------
  // The board after an update
  // ---------------------------------------------------------------------

  /**
   * The task list once an update is applied as the partial payload it is:
   * the tasks with the update's id take its status and order, all other
   * fields and all other tasks stay as they were.
   */
  function ApplyUpdate(tasks: seq<Task>, u: Update): (r: seq<Task>)
    ensures |r| == |tasks|
    ensures forall i :: 0 <= i < |tasks| && tasks[i].id != u.id ==> r[i] == tasks[i]
    ensures forall i :: 0 <= i < |tasks| && tasks[i].id == u.id ==>
      r[i] == tasks[i].(status := u.status, order := u.order)
  {
    seq(|tasks|, i requires 0 <= i < |tasks| =>
      if tasks[i].id == u.id then tasks[i].(status := u.status, order := u.order) else tasks[i])
  }

  /**
   * After a drop onto a column, the dragged task sits in that column last:
   * its order is greater than that of every other task there. No other task
   * changes, and the dragged task keeps every field but status and order.
   */
  lemma ColumnDropPlacesLast(activeId: string, column: string, tasks: seq<Task>)
    requires column != activeId && column != "" && Find(tasks, activeId).Some?
    ensures var u := DragEndUpdate(activeId, Some(DropTarget(column, true)), tasks);
      u.Some? &&
      var after := ApplyUpdate(tasks, u.value);
      && (forall i :: 0 <= i < |tasks| && tasks[i].id != activeId ==> after[i] == tasks[i])
      && (forall i :: 0 <= i < |tasks| && tasks[i].id == activeId ==>
            after[i] == tasks[i].(status := column, order := u.value.order))
      && (forall i, j ::
            (0 <= i < |after| && 0 <= j < |after| && after[i].id == activeId
             && after[j].status == column && after[j].id != activeId) ==> after[j].order < after[i].order)
  {
    ColumnDrop(activeId, column, tasks);
    var u := DragEndUpdate(activeId, Some(DropTarget(column, true)), tasks).value;
    var after := ApplyUpdate(tasks, u);
    forall i, j | 0 <= i < |after| && 0 <= j < |after| && after[i].id == activeId
        && after[j].status == column && after[j].id != activeId
      ensures after[j].order < after[i].order
    {
      assert after[j] == tasks[j] && tasks[j] in tasks;
    }
  }

  /**
   * After a drop onto a task of a column with positive ascending orders, the
   * dragged task sits immediately before the target among the column's other
   * tasks: exactly those before the target have a smaller order.
   */
  lemma TaskDropPlacesBefore(activeId: string, overId: string, tasks: seq<Task>)
    requires overId != activeId && Find(tasks, activeId).Some?
    requires Find(tasks, overId).Some? && Find(tasks, overId).value.status != ""
    requires Ascending(OthersInColumn(tasks, Find(tasks, overId).value.status, activeId))
    requires PositiveOrders(OthersInColumn(tasks, Find(tasks, overId).value.status, activeId))
    ensures var target := Find(tasks, overId).value;
      var col := OthersInColumn(tasks, target.status, activeId);
      var k := FindIndex(col, overId);
      var u := DragEndUpdate(activeId, Some(DropTarget(overId, false)), tasks);
      && 0 <= k < |col|
      && u.Some? && u.value.status == target.status
      && (k > 0 ==> col[k - 1].order < u.value.order)
      && u.value.order < col[k].order
      && forall i :: 0 <= i < |col| ==> (col[i].order < u.value.order <==> i < k)
  {
    TaskDrop(activeId, overId, tasks);
    var target := Find(tasks, overId).value;
    var col := OthersInColumn(tasks, target.status, activeId);
    MidpointPlacesBefore(col, FindIndex(col, overId));
  }

  // ---------------------------------------------------------------------
  // Page state
  // ---------------------------------------------------------------------

  /** The board page's own state: the task in the drag overlay and the task modal. */
  class TaskboardView {
    var activeTask: Option<Task>
    var isModalOpen: bool
    var selectedTask: Option<Task>

    constructor ()
      ensures activeTask == None && !isModalOpen && selectedTask == None
    {
      activeTask := None;
      isModalOpen := false;
      selectedTask := None;
    }

    /** Opens the modal with no task selected, to create one. */
    method OpenCreateModal()
      modifies this
      ensures selectedTask == None && isModalOpen
      ensures activeTask == old(activeTask)
    {
      selectedTask := None;
      isModalOpen := true;
    }

    /** Opens the modal on `task`, to edit it. */
    method OpenEditModal(task: Task)
      modifies this
      ensures selectedTask == Some(task) && isModalOpen
      ensures activeTask == old(activeTask)
    {
      selectedTask := Some(task);
      isModalOpen := true;
    }

    /** Closes the modal and forgets the selected task. */
    method CloseModal()
      modifies this
      ensures !isModalOpen && selectedTask == None
      ensures activeTask == old(activeTask)
    {
      isModalOpen := false;
      selectedTask := None;
    }

    /** A drag starts: the overlay shows the dragged task, or nothing when it is not in the list. */
    method DragStart(tasks: seq<Task>, activeId: string)
      modifies this
      ensures activeTask == Find(tasks, activeId)
      ensures activeTask.Some? ==> activeTask.value in tasks && activeTask.value.id == activeId
      ensures isModalOpen == old(isModalOpen) && selectedTask == old(selectedTask)
    {
      activeTask := Find(tasks, activeId);
    }

    /**
     * A drag ends: the overlay is cleared on every path, no-op or not, and
     * the update the drop calls for, if any, is returned.
     */
    method DragEnd(activeId: string, over: Option<DropTarget>, tasks: seq<Task>) returns (u: Option<Update>)
      modifies this
      ensures activeTask == None
      ensures u == DragEndUpdate(activeId, over, tasks)
      ensures isModalOpen == old(isModalOpen) && selectedTask == old(selectedTask)
    {
      activeTask := None;
      u := DragEndUpdate(activeId, over, tasks);
    }
  }
}
