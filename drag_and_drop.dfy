/**
 * The drag-and-drop hook of app/hooks/useDragAndDrop.ts: which item is being
 * dragged, the live cross-board move while the pointer is over another board,
 * and the drop itself (board reorder, reorder inside one board, move across
 * boards, with a rollback when the board reassignment fails), together with
 * the remote calls each branch issues.
 */
module DragAndDrop {
  import opened Wrappers
  import opened JsArray
  import opened Kanban
  import opened BoardEquality
  import BoardStore

  /** The board a drop over `overId` goes to: the board whose id is `overId`,
      else the first board holding a task with that id, else -1. */
  function DropTargetIndex(bs: seq<Board>, overId: string): (i: int)
    ensures -1 <= i < |bs|
    ensures (exists j :: 0 <= j < |bs| && bs[j].id == overId) ==>
      0 <= i && bs[i].id == overId && forall j :: 0 <= j < i ==> bs[j].id != overId
    ensures (forall j :: 0 <= j < |bs| ==> bs[j].id != overId) ==>
      && (0 <= i ==> HasTask(bs[i], overId) && forall j :: 0 <= j < i ==> !HasTask(bs[j], overId))
      && (i == -1 ==> forall j :: 0 <= j < |bs| ==> !HasTask(bs[j], overId))
  {
    var b := BoardIndex(bs, overId);
    if b != -1 then b else OwnerIndex(bs, overId)
  }

  /**
   * The destination tasks after `task` is dropped over `overId`. The insertion
   * point is `to.tasks?.findIndex(t => t.id === overId) ?? to.tasks?.length`, and
   * the new array is `[...slice(0, i), task, ...slice(i)]`. `findIndex` answers
   * -1, never `undefined`, so the fallback to the length only fires when the board
   * has no task array; a miss in a present array slices at -1.
   */
  function DropIntoTasks(to: Board, overId: string, task: Task): (r: seq<Task>)
    ensures |r| == |TasksOf(to)| + 1
    ensures |TasksOf(to)| == 0 ==> r == [task]
    ensures var ts, k := TasksOf(to), TaskIndex(TasksOf(to), overId);
      k != -1 ==> r == ts[..k] + [task] + ts[k..]
    ensures var ts := TasksOf(to);
      0 < |ts| && TaskIndex(ts, overId) == -1 ==> r == ts[..|ts| - 1] + [task, ts[|ts| - 1]]
  {
    match to.tasks
    case None => [task]
    case Some(ts) => InsertAt(ts, TaskIndex(ts, overId), task)
  }

  /** `{ ...board, tasks: board.tasks?.filter(task => task.id !== id) }` */
  function FilterTasks(b: Board, id: string): Board {
    b.(tasks := match b.tasks case None => None case Some(ts) => Some(Without(ts, id)))
  }

  /** The arrangement computed inside the drag-over frame (lines 63-112). */
  function PlanDragOver(bs: seq<Board>, activeId: string, overId: string): (plan: DropPlan)
    ensures plan.NoMove? || plan.MoveTask?
  {
    var fi := OwnerIndex(bs, activeId);
    if fi == -1 then NoMove
    else
      var ti := DropTargetIndex(bs, overId);
      if ti == -1 || bs[fi].id == bs[ti].id then NoMove
      else
        var from, to := bs[fi], bs[ti];
        var k := TaskIndex(TasksOf(from), activeId);
        if k == -1 then NoMove
        else
          var newTo := DropIntoTasks(to, overId, TasksOf(from)[k]);
          MoveTask(DragOverBoards(bs, from.id, to.id, activeId, newTo), from.id, to.id, newTo)
  }

  /** The `prev.map` of the drag-over frame: the source board filtered, the
      destination given its new tasks, every other board as it was. */
  function DragOverBoards(bs: seq<Board>, fromId: string, toId: string, activeId: string, newTo: seq<Task>): seq<Board> {
    seq(|bs|, i requires 0 <= i < |bs| =>
      if bs[i].id == fromId then FilterTasks(bs[i], activeId)
      else if bs[i].id == toId then bs[i].(tasks := Some(newTo))
      else bs[i])
  }

  /** The arrangement computed by the drop handler once `over` is known and differs
      from `active` (lines 158-259): a board reorder when both ids name boards, else
      a task drop. */
  function PlanDragEnd(bs: seq<Board>, activeId: string, overId: string): DropPlan {
    var ai := BoardIndex(bs, activeId);
    var oi := BoardIndex(bs, overId);
    if ai != -1 && oi != -1 then MoveBoards(ArrayMove(bs, ai, oi))
    else PlanTaskDrop(bs, activeId, overId)
  }

  /** The task part of the drop (lines 183-259): nothing when the dragged task, its
      board or the target board is not found, a reorder when both boards are one,
      a move across otherwise. */
  function PlanTaskDrop(bs: seq<Board>, activeId: string, overId: string): DropPlan {
    var fi := OwnerIndex(bs, activeId);
    if fi == -1 then NoMove
    else
      var ti := DropTargetIndex(bs, overId);
      if ti == -1 then NoMove
      else
        var k := TaskIndex(TasksOf(bs[fi]), activeId);
        if k == -1 then NoMove
        else if bs[fi].id == bs[ti].id then ReorderWithin(bs, bs[fi], k, TaskIndex(TasksOf(bs[fi]), overId))
        else MoveAcross(bs, bs[fi], bs[ti], activeId, TasksOf(bs[fi])[k], overId)
  }

  /** `arrayMove(fromBoard.tasks, taskIndex, newTaskIndex)` put in place of the
      board's tasks by `map`. */
  function ReorderWithin(bs: seq<Board>, from: Board, k: nat, to: int): DropPlan
    requires k < |TasksOf(from)|
  {
    var newTasks := ArrayMove(TasksOf(from), k, to);
    ReorderTasks(ReplaceTasks(bs, from.id, newTasks), newTasks)
  }

  /** The cross-board move: `task` filtered out of `from`, inserted into `to` at the
      target index, both put in place by the two-way `map`. */
  function MoveAcross(bs: seq<Board>, from: Board, to: Board, activeId: string, task: Task, overId: string): DropPlan {
    var newTo := DropIntoTasks(to, overId, task);
    var updatedFrom := from.(tasks := Some(Without(TasksOf(from), activeId)));
    var updatedTo := to.(tasks := Some(newTo));
    MoveTask(ReplaceMoved(bs, updatedFrom, updatedTo), from.id, to.id, newTo)
  }

  /** The order writes of the debounced board reassignment: those of the
      destination's tasks in `updatedBoards`, or none when it is not found. */
  function DestinationOrderWrites(updatedBoards: seq<Board>, toBoardId: string): seq<RemoteCall> {
    var i := BoardIndex(updatedBoards, toBoardId);
    if i == -1 then [] else TaskOrderWrites(TasksOf(updatedBoards[i]))
  }

  /** The remote calls of the drag-over move, in issue order: the board
      reassignment, then, on success, the order writes of the destination as it
      stands in the moved list. */
  function PreviewIssued(bs: seq<Board>, plan: DropPlan, activeId: string, taskBoardOk: bool): seq<RemoteCall> {
    match plan
    case MoveTask(nb, f, t, _) =>
      if AreBoardsEqual(bs, nb) then []
      else [UpdateTaskBoard(activeId, f, t)] + (if taskBoardOk then DestinationOrderWrites(nb, t) else [])
    case _ => []
  }

  /** The list the drop leaves in the store, given whether `updateTaskBoard` succeeds. */
  function Committed(bs: seq<Board>, plan: DropPlan, taskBoardOk: bool): seq<Board> {
    match plan
    case NoMove => bs
    case MoveBoards(nb) => if AreBoardsEqual(bs, nb) then bs else nb
    case ReorderTasks(nb, _) => if AreBoardsEqual(bs, nb) then bs else nb
    case MoveTask(nb, _, _, _) => if AreBoardsEqual(bs, nb) || !taskBoardOk then bs else nb
  }

  /** The remote calls the drop issues, in issue order. */
  function Issued(bs: seq<Board>, plan: DropPlan, activeId: string, taskBoardOk: bool): seq<RemoteCall> {
    match plan
    case NoMove => []
    case MoveBoards(nb) => if AreBoardsEqual(bs, nb) then [] else BoardOrderWrites(nb)
    case ReorderTasks(nb, nt) => if AreBoardsEqual(bs, nb) then [] else TaskOrderWrites(nt)
    case MoveTask(nb, f, t, nt) =>
      if AreBoardsEqual(bs, nb) then []
      else [UpdateTaskBoard(activeId, f, t)] + (if taskBoardOk then TaskOrderWrites(nt) else [])
  }

  class DragAndDropHook {
    const store: BoardStore.Store
    var draggingTask: Option<Task>
    var draggingBoard: Option<Board>

    /** Nothing is being dragged at first. */
    constructor (store: BoardStore.Store)
      ensures this.store == store
      ensures draggingTask.None? && draggingBoard.None?
    {
      this.store := store;
      draggingTask := None;
      draggingBoard := None;
    }

    /** `handleDragStart`: remembers the dragged task and the dragged board, each
        only when `activeId` names one (an earlier value is kept otherwise). */
    method HandleDragStart(activeId: string)
      modifies this
      ensures var t := FindTask(store.boardList, activeId);
        draggingTask == if t.Some? then t else old(draggingTask)
      ensures var b := BoardIndex(store.boardList, activeId);
        draggingBoard == if b != -1 then Some(store.boardList[b]) else old(draggingBoard)
    {
      var task := FindTask(store.boardList, activeId);
      if task.Some? {
        draggingTask := task;
      }
      var b := BoardIndex(store.boardList, activeId);
      if b != -1 {
        draggingBoard := Some(store.boardList[b]);
      }
    }

    /** `handleDragOver`, run as its animation frame fires: a task over another
        board moves there at once, and the debounced board reassignment follows
        (its timer is modelled as firing; `taskBoardOk` says whether
        `updateTaskBoard` succeeds, after which the destination's order writes go
        out; a failure is only logged). */
    method HandleDragOver(activeId: string, over: Option<string>, taskBoardOk: bool)
      returns (calls: seq<RemoteCall>)
      modifies store
      ensures over.None? || over.value == activeId ==> store.boardList == old(store.boardList) && calls == []
      ensures over.Some? && over.value != activeId ==>
        var plan := PlanDragOver(old(store.boardList), activeId, over.value);
        store.boardList == Committed(old(store.boardList), plan, true)
        && calls == PreviewIssued(old(store.boardList), plan, activeId, taskBoardOk)
    {
      calls := [];
      if over.None? || over.value == activeId {
        return;
      }
      var boardList := store.boardList;
      var plan := PlanDragOver(boardList, activeId, over.value);
      if plan.MoveTask? && !AreBoardsEqual(boardList, plan.boards) {
        BoardStore.GuardedReplaceDifferent(boardList, plan.boards);
        store.SetBoardList(plan.boards);
        calls := [UpdateTaskBoard(activeId, plan.fromBoardId, plan.toBoardId)];
        if taskBoardOk {
          calls := calls + DestinationOrderWrites(plan.boards, plan.toBoardId);
        }
      }
    }

    /** `handleDragEnd`: the dragged items are cleared; with no target, or a drop
        on itself, nothing else happens; otherwise the planned arrangement is stored
        when it differs, and when the board reassignment of a cross-board move
        fails the list taken before the move is put back. */
    method HandleDragEnd(activeId: string, over: Option<string>, taskBoardOk: bool)
      returns (calls: seq<RemoteCall>)
      modifies this, store
      ensures draggingTask.None? && draggingBoard.None?
      ensures over.None? || over.value == activeId ==> store.boardList == old(store.boardList) && calls == []
      ensures over.Some? && over.value != activeId ==>
        var plan := PlanDragEnd(old(store.boardList), activeId, over.value);
        store.boardList == Committed(old(store.boardList), plan, taskBoardOk)
        && calls == Issued(old(store.boardList), plan, activeId, taskBoardOk)
      ensures (over.Some? && over.value != activeId && !taskBoardOk
        && PlanDragEnd(old(store.boardList), activeId, over.value).MoveTask?) ==>
        store.boardList == old(store.boardList)
    {
      draggingTask := None;
      draggingBoard := None;
      calls := [];
      if over.None? || over.value == activeId {
        return;
      }
      var plan := PlanDragEnd(store.boardList, activeId, over.value);
      calls := ApplyDrop(activeId, plan, taskBoardOk);
    }

    /** The body of the drop once its arrangement is planned: the list is stored
        when it differs from the snapshot taken first, the matching remote calls are
        issued, and a failed board reassignment stores the snapshot again. */
    method ApplyDrop(activeId: string, plan: DropPlan, taskBoardOk: bool)
      returns (calls: seq<RemoteCall>)
      modifies store
      ensures store.boardList == Committed(old(store.boardList), plan, taskBoardOk)
      ensures calls == Issued(old(store.boardList), plan, activeId, taskBoardOk)
    {
      calls := [];
      var rollbackState := store.boardList;
      match plan {
        case NoMove =>
        case MoveBoards(nb) =>
          if !AreBoardsEqual(rollbackState, nb) {
            BoardStore.GuardedReplaceDifferent(rollbackState, nb);
            store.SetBoardList(nb);
            calls := BoardOrderWrites(nb);
          }
        case ReorderTasks(nb, nt) =>
          if !AreBoardsEqual(rollbackState, nb) {
            BoardStore.GuardedReplaceDifferent(rollbackState, nb);
            store.SetBoardList(nb);
            calls := TaskOrderWrites(nt);
          }
        case MoveTask(nb, f, t, nt) =>
          if !AreBoardsEqual(rollbackState, nb) {
            BoardStore.GuardedReplaceDifferent(rollbackState, nb);
            store.SetBoardList(nb);
            calls := [UpdateTaskBoard(activeId, f, t)];
            if taskBoardOk {
              calls := calls + TaskOrderWrites(nt);
            } else {
              AreBoardsEqualSymmetric(rollbackState, nb);
              BoardStore.GuardedReplaceDifferent(nb, rollbackState);
              store.SetBoardList(rollbackState);
            }
          }
      }
    }
  }

  // ----- Properties of the drop -----

  /** Which kind of arrangement a drop computes: a board reorder exactly when both
      ids name boards; otherwise, once the dragged task's board and the target
      board are both found, a reorder when they are one board and a move across
      when they differ; nothing in every other case. */
  lemma DragEndKinds(bs: seq<Board>, activeId: string, overId: string)
    ensures var plan := PlanDragEnd(bs, activeId, overId);
      var boards := BoardIndex(bs, activeId) != -1 && BoardIndex(bs, overId) != -1;
      var fi, ti := OwnerIndex(bs, activeId), DropTargetIndex(bs, overId);
      && (plan.MoveBoards? <==> boards)
      && (plan.ReorderTasks? <==> !boards && fi != -1 && ti != -1 && bs[fi].id == bs[ti].id)
      && (plan.MoveTask? <==> !boards && fi != -1 && ti != -1 && bs[fi].id != bs[ti].id)
  {
    if !(BoardIndex(bs, activeId) != -1 && BoardIndex(bs, overId) != -1) {
      assert PlanDragEnd(bs, activeId, overId) == PlanTaskDrop(bs, activeId, overId);
      TaskDropKinds(bs, activeId, overId);
    }
  }

  /** The task part of the drop does nothing exactly when the dragged task's board
      or the target board is missing; otherwise it reorders when they are one
      board and moves across when they differ. */
  lemma TaskDropKinds(bs: seq<Board>, activeId: string, overId: string)
    ensures var plan := PlanTaskDrop(bs, activeId, overId);
      var fi, ti := OwnerIndex(bs, activeId), DropTargetIndex(bs, overId);
      && (plan.NoMove? <==> fi == -1 || ti == -1)
      && (plan.ReorderTasks? <==> fi != -1 && ti != -1 && bs[fi].id == bs[ti].id)
      && (plan.MoveTask? <==> fi != -1 && ti != -1 && bs[fi].id != bs[ti].id)
  {
  }

  /** Dropping a board on a board reorders the boards: the result is a permutation
      with the dragged board at the target's index and the others in their order,
      and its order writes give every board its new index, once each. */
  lemma DragEndBoardReorder(bs: seq<Board>, activeId: string, overId: string)
    requires BoardIndex(bs, activeId) != -1 && BoardIndex(bs, overId) != -1
    requires UniqueBoardIds(bs)
    ensures var ai, oi := BoardIndex(bs, activeId), BoardIndex(bs, overId);
      var plan := PlanDragEnd(bs, activeId, overId);
      && plan.MoveBoards?
      && multiset(plan.boards) == multiset(bs)
      && plan.boards[oi] == bs[ai]
      && RemoveAt(plan.boards, oi) == RemoveAt(bs, ai)
      && forall i :: 0 <= i < |bs| ==> BoardOrdersFor(BoardOrderWrites(plan.boards), plan.boards[i].id) == [i]
  {
    var ai, oi := BoardIndex(bs, activeId), BoardIndex(bs, overId);
    MoveTargetInside(|bs|, oi);
    ArrayMovePermutation(bs, ai, oi);
    ArrayMoveUniqueBoardIds(bs, ai, oi);
    BoardOrderWritesNumberPositions(ArrayMove(bs, ai, oi));
  }

  /** A reorder inside one board changes only that board's task list, into a
      permutation of it with the dragged task at the `arrayMove` target, and its
      order writes give every task its new index, once each. */
  lemma DragEndSameBoardReorder(bs: seq<Board>, activeId: string, overId: string)
    requires UniqueIds(bs)
    requires PlanDragEnd(bs, activeId, overId).ReorderTasks?
    ensures var plan := PlanDragEnd(bs, activeId, overId);
      var fi := OwnerIndex(bs, activeId);
      var ts := TasksOf(bs[fi]);
      var k := TaskIndex(ts, activeId);
      && fi != -1 && k != -1
      && |plan.boards| == |bs|
      && (forall i :: 0 <= i < |bs| && i != fi ==> plan.boards[i] == bs[i])
      && plan.boards[fi] == bs[fi].(tasks := Some(plan.tasks))
      && |plan.tasks| == |ts|
      && multiset(plan.tasks) == multiset(ts)
      && plan.tasks[MoveTarget(|ts|, TaskIndex(ts, overId))] == ts[k]
      && forall j :: 0 <= j < |plan.tasks| ==> TaskOrdersFor(TaskOrderWrites(plan.tasks), plan.tasks[j].id) == [j]
  {
    var plan := PlanTaskDrop(bs, activeId, overId);
    assert PlanDragEnd(bs, activeId, overId) == plan;
    var fi, ti := OwnerIndex(bs, activeId), DropTargetIndex(bs, overId);
    assert fi != -1 && ti != -1 && bs[fi].id == bs[ti].id;
    var ts := TasksOf(bs[fi]);
    var k := TaskIndex(ts, activeId);
    assert k != -1;
    assert plan == ReorderWithin(bs, bs[fi], k, TaskIndex(ts, overId));
    ReorderWithinSpec(bs, fi, k, TaskIndex(ts, overId));
  }

  /** A reorder within board `fi`, with distinct ids: the list is `bs` with only
      that board's tasks replaced, by a permutation of them with the moved task at
      the `arrayMove` target; its order writes number every task once by its
      index; the number of tasks is kept. */
  lemma ReorderWithinSpec(bs: seq<Board>, fi: nat, k: nat, to: int)
    requires fi < |bs| && k < |TasksOf(bs[fi])|
    requires UniqueBoardIds(bs) && UniqueTaskIds(TasksOf(bs[fi]))
    ensures var plan := ReorderWithin(bs, bs[fi], k, to);
      var ts := TasksOf(bs[fi]);
      && |plan.boards| == |bs|
      && (forall i :: 0 <= i < |bs| && i != fi ==> plan.boards[i] == bs[i])
      && plan.boards[fi] == bs[fi].(tasks := Some(plan.tasks))
      && multiset(plan.tasks) == multiset(ts)
      && plan.tasks[MoveTarget(|ts|, to)] == ts[k]
      && RemoveAt(plan.tasks, MoveTarget(|ts|, to)) == RemoveAt(ts, k)
      && (forall j :: 0 <= j < |plan.tasks| ==> TaskOrdersFor(TaskOrderWrites(plan.tasks), plan.tasks[j].id) == [j])
      && TotalTasks(plan.boards) == TotalTasks(bs)
  {
    var ts := TasksOf(bs[fi]);
    var nt := ArrayMove(ts, k, to);
    ReplaceTasksUnique(bs, fi, nt);
    ArrayMovePermutation(ts, k, to);
    ArrayMoveUniqueTaskIds(ts, k, to);
    TaskOrderWritesNumberPositions(nt);
    TotalTasksUpdate(bs, fi, bs[fi].(tasks := Some(nt)));
  }

  /** A reorder within board `fi`, with distinct board ids, keeps the number of tasks. */
  lemma ReorderWithinKeepsCount(bs: seq<Board>, fi: nat, k: nat, to: int)
    requires UniqueBoardIds(bs) && fi < |bs| && k < |TasksOf(bs[fi])|
    ensures TotalTasks(ReorderWithin(bs, bs[fi], k, to).boards) == TotalTasks(bs)
  {
    var nt := ArrayMove(TasksOf(bs[fi]), k, to);
    ReplaceTasksUnique(bs, fi, nt);
    TotalTasksUpdate(bs, fi, bs[fi].(tasks := Some(nt)));
  }

  /** A move across boards `fi` and `ti`, with distinct ids, keeps the number of
      tasks: the source loses exactly the moved task and the destination gains it. */
  lemma MoveAcrossKeepsCount(bs: seq<Board>, fi: nat, ti: nat, activeId: string, overId: string)
    requires UniqueBoardIds(bs) && fi < |bs| && ti < |bs| && fi != ti
    requires UniqueTaskIds(TasksOf(bs[fi])) && TaskIndex(TasksOf(bs[fi]), activeId) != -1
    ensures var task := TasksOf(bs[fi])[TaskIndex(TasksOf(bs[fi]), activeId)];
      TotalTasks(MoveAcross(bs, bs[fi], bs[ti], activeId, task, overId).boards) == TotalTasks(bs)
  {
    var from, to := bs[fi], bs[ti];
    var task := TasksOf(from)[TaskIndex(TasksOf(from), activeId)];
    var updatedFrom := from.(tasks := Some(Without(TasksOf(from), activeId)));
    var updatedTo := to.(tasks := Some(DropIntoTasks(to, overId, task)));
    WithoutUnique(TasksOf(from), activeId);
    ReplaceMovedUnique(bs, fi, ti, updatedFrom, updatedTo);
    TotalTasksUpdate(bs, fi, updatedFrom);
    TotalTasksUpdate(bs[fi := updatedFrom], ti, updatedTo);
  }

  /** Dropping a task over the board it already sits on moves it to the end of
      that board: `findIndex` misses, and `arrayMove(tasks, i, -1)` appends. */
  lemma DragEndSameBoardOnBoard(bs: seq<Board>, activeId: string, overId: string)
    requires BoardIndex(bs, activeId) == -1
    requires OwnerIndex(bs, activeId) != -1
    requires BoardIndex(bs, overId) == OwnerIndex(bs, activeId)
    requires TaskIndex(TasksOf(bs[OwnerIndex(bs, activeId)]), overId) == -1
    ensures var ts := TasksOf(bs[OwnerIndex(bs, activeId)]);
      var k := TaskIndex(ts, activeId);
      var plan := PlanDragEnd(bs, activeId, overId);
      && k != -1
      && plan.ReorderTasks?
      && plan.tasks == RemoveAt(ts, k) + [ts[k]]
  {
    var ts := TasksOf(bs[OwnerIndex(bs, activeId)]);
    ArrayMoveToLast(ts, TaskIndex(ts, activeId));
  }

  /** A cross-board move: the two boards differ; the source loses the dragged task
      (its other tasks in order), the destination gets `DropIntoTasks`, and every
      other board is unchanged. */
  lemma DragEndCrossBoard(bs: seq<Board>, activeId: string, overId: string)
    requires PlanDragEnd(bs, activeId, overId).MoveTask?
    ensures var plan := PlanDragEnd(bs, activeId, overId);
      var fi, ti := OwnerIndex(bs, activeId), DropTargetIndex(bs, overId);
      && fi != -1 && ti != -1
      && plan.fromBoardId == bs[fi].id && plan.toBoardId == bs[ti].id
      && plan.fromBoardId != plan.toBoardId
      && var task := TasksOf(bs[fi])[TaskIndex(TasksOf(bs[fi]), activeId)];
      && task.id == activeId
      && plan.toTasks == DropIntoTasks(bs[ti], overId, task)
      && |plan.boards| == |bs|
      && (forall i :: 0 <= i < |bs| && bs[i].id != plan.fromBoardId && bs[i].id != plan.toBoardId ==>
            plan.boards[i] == bs[i])
      && (forall i :: 0 <= i < |bs| && bs[i].id == plan.fromBoardId ==>
            plan.boards[i] == bs[fi].(tasks := Some(Without(TasksOf(bs[fi]), activeId))))
      && (forall i :: 0 <= i < |bs| && bs[i].id == plan.toBoardId ==>
            plan.boards[i] == bs[ti].(tasks := Some(plan.toTasks)))
  {
    var fi, ti := OwnerIndex(bs, activeId), DropTargetIndex(bs, overId);
    var task := TasksOf(bs[fi])[TaskIndex(TasksOf(bs[fi]), activeId)];
    assert PlanDragEnd(bs, activeId, overId) == MoveAcross(bs, bs[fi], bs[ti], activeId, task, overId);
  }

  /** Dropped over a task of another board, the dragged task takes that task's
      index, and the tasks before and after it stay where they were. */
  lemma DragEndOverTask(bs: seq<Board>, activeId: string, overId: string)
    requires BoardIndex(bs, overId) == -1
    requires PlanDragEnd(bs, activeId, overId).MoveTask?
    ensures var plan := PlanDragEnd(bs, activeId, overId);
      var ts := TasksOf(bs[OwnerIndex(bs, overId)]);
      var k := TaskIndex(ts, overId);
      var from := bs[OwnerIndex(bs, activeId)];
      var task := TasksOf(from)[TaskIndex(TasksOf(from), activeId)];
      && 0 <= k < |ts|
      && plan.toTasks == ts[..k] + [task] + ts[k..]
      && plan.toTasks[k] == task
  {
  }

  /** Dropped over a board body whose task array holds tasks (none with the id
      `overId`), the dragged task goes BEFORE the last task, not after it: the
      `?? length` fallback never fires because `findIndex` answers -1. */
  lemma DragEndOverBoardQuirk(bs: seq<Board>, activeId: string, overId: string)
    requires PlanDragEnd(bs, activeId, overId).MoveTask?
    requires BoardIndex(bs, overId) != -1
    requires bs[BoardIndex(bs, overId)].tasks.Some?
    requires |TasksOf(bs[BoardIndex(bs, overId)])| > 0
    requires TaskIndex(TasksOf(bs[BoardIndex(bs, overId)]), overId) == -1
    ensures var plan := PlanDragEnd(bs, activeId, overId);
      var ts := TasksOf(bs[BoardIndex(bs, overId)]);
      var from := bs[OwnerIndex(bs, activeId)];
      var task := TasksOf(from)[TaskIndex(TasksOf(from), activeId)];
      plan.toTasks == ts[..|ts| - 1] + [task, ts[|ts| - 1]]
  {
    var fi, ti := OwnerIndex(bs, activeId), BoardIndex(bs, overId);
    var task := TasksOf(bs[fi])[TaskIndex(TasksOf(bs[fi]), activeId)];
    assert PlanDragEnd(bs, activeId, overId) == PlanTaskDrop(bs, activeId, overId);
    assert PlanTaskDrop(bs, activeId, overId).toTasks == DropIntoTasks(bs[ti], overId, task);
    DropIntoTasksBeforeLast(bs[ti], overId, task);
  }

  /** Into a non-empty task array without the id `overId`, the task lands at
      position -1, which `arrayMove`-style insertion reads as before the last. */
  lemma DropIntoTasksBeforeLast(to: Board, overId: string, task: Task)
    requires to.tasks.Some? && |to.tasks.value| > 0
    requires TaskIndex(to.tasks.value, overId) == -1
    ensures var ts := to.tasks.value;
      DropIntoTasks(to, overId, task) == ts[..|ts| - 1] + [task, ts[|ts| - 1]]
  {
    var ts := to.tasks.value;
    assert RelativeIndex(-1, |ts|) == |ts| - 1;
    assert ts[|ts| - 1..] == [ts[|ts| - 1]];
  }

  /** With distinct ids, the destination gains the dragged task exactly once:
      filtering its id out of the new destination gives the old destination back. */
  lemma DragEndDestinationGainsOnce(bs: seq<Board>, activeId: string, overId: string)
    requires UniqueIds(bs)
    requires PlanDragEnd(bs, activeId, overId).MoveTask?
    ensures var plan := PlanDragEnd(bs, activeId, overId);
      var to := bs[DropTargetIndex(bs, overId)];
      && |plan.toTasks| == |TasksOf(to)| + 1
      && Without(plan.toTasks, activeId) == TasksOf(to)
  {
    var fi, ti := OwnerIndex(bs, activeId), DropTargetIndex(bs, overId);
    var from, to := bs[fi], bs[ti];
    var task := TasksOf(from)[TaskIndex(TasksOf(from), activeId)];
    assert PlanDragEnd(bs, activeId, overId).toTasks == DropIntoTasks(to, overId, task);
    assert fi != ti;
    assert forall j :: 0 <= j < |TasksOf(to)| ==> TasksOf(to)[j].id != activeId by {
      assert 0 <= TaskIndex(TasksOf(from), activeId) < |TasksOf(from)|;
    }
    DropIntoTasksWithout(to, overId, task);
  }

  /** Inserting a task whose id the board does not hold, then filtering that id
      out, gives the board's tasks back. */
  lemma DropIntoTasksWithout(to: Board, overId: string, task: Task)
    requires forall j :: 0 <= j < |TasksOf(to)| ==> TasksOf(to)[j].id != task.id
    ensures Without(DropIntoTasks(to, overId, task), task.id) == TasksOf(to)
  {
    match to.tasks {
      case None =>
        assert Without([task], task.id) == [] + Without([], task.id);
      case Some(ts) =>
        var p := RelativeIndex(TaskIndex(ts, overId), |ts|);
        assert TasksOf(to) == ts;
        WithoutInsert(ts, p, task);
    }
  }

  /** With distinct ids, a drop never creates or loses a task: the number of
      tasks on all boards is the same before and after. */
  lemma DragEndKeepsTaskCount(bs: seq<Board>, activeId: string, overId: string)
    requires UniqueIds(bs)
    ensures TotalTasks(BoardsAfter(bs, PlanDragEnd(bs, activeId, overId))) == TotalTasks(bs)
  {
    var ai, oi := BoardIndex(bs, activeId), BoardIndex(bs, overId);
    if ai != -1 && oi != -1 {
      TotalTasksPermutation(bs, ai, oi);
    } else {
      assert PlanDragEnd(bs, activeId, overId) == PlanTaskDrop(bs, activeId, overId);
      TaskDropKeepsTaskCount(bs, activeId, overId);
    }
  }

  /** The task part of the drop keeps the number of tasks, with distinct ids. */
  lemma TaskDropKeepsTaskCount(bs: seq<Board>, activeId: string, overId: string)
    requires UniqueIds(bs)
    ensures TotalTasks(BoardsAfter(bs, PlanTaskDrop(bs, activeId, overId))) == TotalTasks(bs)
  {
    var fi := OwnerIndex(bs, activeId);
    var ti := DropTargetIndex(bs, overId);
    if fi != -1 && ti != -1 && TaskIndex(TasksOf(bs[fi]), activeId) != -1 {
      var ts := TasksOf(bs[fi]);
      var k := TaskIndex(ts, activeId);
      assert UniqueBoardIds(bs) && UniqueTaskIds(ts);
      if bs[fi].id == bs[ti].id {
        ReorderWithinKeepsCount(bs, fi, k, TaskIndex(ts, overId));
      } else {
        MoveAcrossKeepsCount(bs, fi, ti, activeId, overId);
      }
    }
  }

  /** A task dropped across boards goes to the board named by `over` when there
      is one; only otherwise to the first board holding a task named by `over`. */
  lemma DragEndDestination(bs: seq<Board>, activeId: string, overId: string)
    requires PlanDragEnd(bs, activeId, overId).MoveTask?
    ensures var plan := PlanDragEnd(bs, activeId, overId);
      var b := BoardIndex(bs, overId);
      if b != -1 then plan.toBoardId == overId
      else OwnerIndex(bs, overId) != -1 && plan.toBoardId == bs[OwnerIndex(bs, overId)].id
  {
    var fi, ti := OwnerIndex(bs, activeId), DropTargetIndex(bs, overId);
    var k := TaskIndex(TasksOf(bs[fi]), activeId);
    assert fi != -1 && ti != -1 && k != -1 && bs[fi].id != bs[ti].id;
    assert PlanDragEnd(bs, activeId, overId) == MoveAcross(bs, bs[fi], bs[ti], activeId, TasksOf(bs[fi])[k], overId);
  }

  /** Reordering inside a board keeps every id distinct. */
  lemma ReorderWithinKeepsUniqueIds(bs: seq<Board>, fi: nat, k: nat, to: int)
    requires UniqueIds(bs) && fi < |bs| && k < |TasksOf(bs[fi])|
    ensures UniqueIds(ReorderWithin(bs, bs[fi], k, to).boards)
  {
    ReplaceTasksUnique(bs, fi, ArrayMove(TasksOf(bs[fi]), k, to));
    ArrayMoveTasksKeepsUniqueIds(bs, fi, k, to);
  }

  /** Moving a task across boards keeps every id distinct: the task leaves its
      board and lands on a board that did not hold its id. */
  lemma MoveAcrossKeepsUniqueIds(bs: seq<Board>, fi: nat, ti: nat, activeId: string, overId: string)
    requires UniqueIds(bs) && fi < |bs| && ti < |bs| && fi != ti
    requires TaskIndex(TasksOf(bs[fi]), activeId) != -1
    ensures UniqueIds(MoveAcross(bs, bs[fi], bs[ti], activeId, TasksOf(bs[fi])[TaskIndex(TasksOf(bs[fi]), activeId)], overId).boards)
  {
    var k := TaskIndex(TasksOf(bs[fi]), activeId);
    var task := TasksOf(bs[fi])[k];
    var to := bs[ti];
    assert !HasTask(to, TasksOf(bs[fi])[k].id);
    match to.tasks {
      case None =>
      case Some(ts) => InsertAtKeepsUniqueTaskIds(ts, TaskIndex(ts, overId), task);
    }
    MoveBetweenKeepsUniqueIds(bs, fi, ti, activeId, DropIntoTasks(to, overId, task));
  }

  /** A drop keeps board ids distinct and every task id on one board, once. */
  lemma DragEndKeepsUniqueIds(bs: seq<Board>, activeId: string, overId: string)
    requires UniqueIds(bs)
    ensures UniqueIds(BoardsAfter(bs, PlanDragEnd(bs, activeId, overId)))
  {
    var ai, oi := BoardIndex(bs, activeId), BoardIndex(bs, overId);
    if ai != -1 && oi != -1 {
      ArrayMoveKeepsUniqueIds(bs, ai, oi);
    } else {
      assert PlanDragEnd(bs, activeId, overId) == PlanTaskDrop(bs, activeId, overId);
      TaskDropKeepsUniqueIds(bs, activeId, overId);
    }
  }

  /** The task part of the drop keeps ids distinct. */
  lemma TaskDropKeepsUniqueIds(bs: seq<Board>, activeId: string, overId: string)
    requires UniqueIds(bs)
    ensures UniqueIds(BoardsAfter(bs, PlanTaskDrop(bs, activeId, overId)))
  {
    var fi := OwnerIndex(bs, activeId);
    var ti := DropTargetIndex(bs, overId);
    if fi != -1 && ti != -1 && TaskIndex(TasksOf(bs[fi]), activeId) != -1 {
      var ts := TasksOf(bs[fi]);
      var k := TaskIndex(ts, activeId);
      if bs[fi].id == bs[ti].id {
        ReorderWithinKeepsUniqueIds(bs, fi, k, TaskIndex(ts, overId));
      } else {
        MoveAcrossKeepsUniqueIds(bs, fi, ti, activeId, overId);
      }
    }
  }

  /** When the board reassignment of a cross-board move fails, the drop leaves the
      list it started from, and that reassignment is the only call it issued. */
  lemma RollbackRestoresSnapshot(bs: seq<Board>, plan: DropPlan, activeId: string)
    requires plan.MoveTask?
    ensures Committed(bs, plan, false) == bs
    ensures Issued(bs, plan, activeId, false) == if AreBoardsEqual(bs, plan.boards) then []
      else [UpdateTaskBoard(activeId, plan.fromBoardId, plan.toBoardId)]
  {
  }

  /** On a cross-board move that changes something, `updateTaskBoard` is the first
      call, and the destination's order writes follow it only on success. */
  lemma CrossBoardCallOrder(bs: seq<Board>, plan: DropPlan, activeId: string, ok: bool)
    requires plan.MoveTask? && !AreBoardsEqual(bs, plan.boards)
    ensures var calls := Issued(bs, plan, activeId, ok);
      && |calls| == 1 + (if ok then |plan.toTasks| else 0)
      && calls[0] == UpdateTaskBoard(activeId, plan.fromBoardId, plan.toBoardId)
      && calls[1..] == (if ok then TaskOrderWrites(plan.toTasks) else [])
  {
  }

  // ----- Properties of the drag-over preview -----

  /** Drag-over proposes nothing when the dragged task has no board, the target
      resolves to no board, or both are the same board. */
  lemma DragOverNoMove(bs: seq<Board>, activeId: string, overId: string)
    requires OwnerIndex(bs, activeId) == -1 || DropTargetIndex(bs, overId) == -1
      || bs[OwnerIndex(bs, activeId)].id == bs[DropTargetIndex(bs, overId)].id
    ensures PlanDragOver(bs, activeId, overId) == NoMove
  {
  }

  /** Drag-over proposes a move exactly when the dragged task's board and the
      target board are both found and differ, and that move goes from the one to
      the other. */
  lemma DragOverMoves(bs: seq<Board>, activeId: string, overId: string)
    ensures var plan := PlanDragOver(bs, activeId, overId);
      var fi, ti := OwnerIndex(bs, activeId), DropTargetIndex(bs, overId);
      && (plan.MoveTask? <==> fi != -1 && ti != -1 && bs[fi].id != bs[ti].id)
      && (plan.MoveTask? ==> plan.fromBoardId == bs[fi].id && plan.toBoardId == bs[ti].id)
  {
  }

  /** With distinct ids, the arrangement previewed while dragging a task over
      another board is the one the drop on the same target commits. */
  lemma DragOverPreviewsDragEnd(bs: seq<Board>, activeId: string, overId: string)
    requires UniqueIds(bs)
    requires BoardIndex(bs, activeId) == -1
    requires PlanDragOver(bs, activeId, overId).MoveTask?
    ensures PlanDragOver(bs, activeId, overId) == PlanDragEnd(bs, activeId, overId)
  {
    var fi, ti := OwnerIndex(bs, activeId), DropTargetIndex(bs, overId);
    var from, to := bs[fi], bs[ti];
    var task := TasksOf(from)[TaskIndex(TasksOf(from), activeId)];
    var newTo := DropIntoTasks(to, overId, task);
    assert PlanDragOver(bs, activeId, overId) == MoveTask(DragOverBoards(bs, from.id, to.id, activeId, newTo), from.id, to.id, newTo);
    assert PlanDragEnd(bs, activeId, overId) == MoveAcross(bs, from, to, activeId, task, overId);
    DragOverBoardsIsReplaceMoved(bs, fi, ti, activeId, newTo);
  }

  /** With distinct board ids, the drag-over `map` is the drop's move across: the
      filtered source and the destination with its new tasks put in place. */
  lemma DragOverBoardsIsReplaceMoved(bs: seq<Board>, fi: nat, ti: nat, activeId: string, newTo: seq<Task>)
    requires UniqueBoardIds(bs) && fi < |bs| && ti < |bs| && fi != ti
    requires bs[fi].tasks.Some?
    ensures DragOverBoards(bs, bs[fi].id, bs[ti].id, activeId, newTo)
      == ReplaceMoved(bs, bs[fi].(tasks := Some(Without(TasksOf(bs[fi]), activeId))), bs[ti].(tasks := Some(newTo)))
  {
    var over := DragOverBoards(bs, bs[fi].id, bs[ti].id, activeId, newTo);
    var end := ReplaceMoved(bs, bs[fi].(tasks := Some(Without(TasksOf(bs[fi]), activeId))), bs[ti].(tasks := Some(newTo)));
    forall i | 0 <= i < |bs| ensures over[i] == end[i] {
      if bs[i].id == bs[fi].id {
        assert i == fi;
      } else if bs[i].id == bs[ti].id {
        assert i == ti;
      }
    }
  }

  /** The drag-over preview keeps ids distinct. */
  lemma DragOverKeepsUniqueIds(bs: seq<Board>, activeId: string, overId: string)
    requires UniqueIds(bs)
    ensures UniqueIds(BoardsAfter(bs, PlanDragOver(bs, activeId, overId)))
  {
    if PlanDragOver(bs, activeId, overId).MoveTask? {
      var fi, ti := OwnerIndex(bs, activeId), DropTargetIndex(bs, overId);
      var k := TaskIndex(TasksOf(bs[fi]), activeId);
      assert fi != -1 && ti != -1 && k != -1 && bs[fi].id != bs[ti].id;
      var from, to := bs[fi], bs[ti];
      var newTo := DropIntoTasks(to, overId, TasksOf(from)[k]);
      assert PlanDragOver(bs, activeId, overId).boards == DragOverBoards(bs, from.id, to.id, activeId, newTo);
      DragOverBoardsIsReplaceMoved(bs, fi, ti, activeId, newTo);
      MoveAcrossKeepsUniqueIds(bs, fi, ti, activeId, overId);
    }
  }

  // ----- Worked scenarios -----

  /** Boards [B1, B2, B3]: dropping B3 on B1 gives [B3, B1, B2]. */
  lemma ExampleBoardReorder(b1: Board, b2: Board, b3: Board)
    requires b1.id == "b1" && b2.id == "b2" && b3.id == "b3"
    ensures PlanDragEnd([b1, b2, b3], "b3", "b1") == MoveBoards([b3, b1, b2])
  {
    var bs := [b1, b2, b3];
    assert bs[1..] == [b2, b3] && [b2, b3][1..] == [b3];
    assert BoardIndex([b3], "b3") == 0;
    assert BoardIndex([b2, b3], "b3") == 1;
    assert BoardIndex(bs, "b3") == 2;
    assert BoardIndex(bs, "b1") == 0;
    assert ArrayMove(bs, 2, 0) == [b3, b1, b2];
  }

  /** ... and the drop then writes the orders 0, 1 and 2 for B3, B1 and B2. */
  lemma ExampleBoardReorderCalls(b1: Board, b2: Board, b3: Board, ok: bool)
    requires b1.id == "b1" && b2.id == "b2" && b3.id == "b3"
    ensures Issued([b1, b2, b3], MoveBoards([b3, b1, b2]), "b3", ok)
      == [UpdateBoardOrder("b3", 0), UpdateBoardOrder("b1", 1), UpdateBoardOrder("b2", 2)]
  {
    assert !SameBoard([b1, b2, b3][0], [b3, b1, b2][0]);
  }

  /** Board A holding [t1, t2, t3]: dropping t1 on t3 gives [t2, t3, t1]. */
  lemma ExampleSameBoardReorder(t1: Task, t2: Task, t3: Task)
    requires t1.id == "t1" && t2.id == "t2" && t3.id == "t3"
    ensures var a := Board("A", "", 0, Some([t1, t2, t3]));
      PlanDragEnd([a], "t1", "t3") == ReorderTasks([a.(tasks := Some([t2, t3, t1]))], [t2, t3, t1])
  {
    var a := Board("A", "", 0, Some([t1, t2, t3]));
    var ts := [t1, t2, t3];
    assert ts[1..] == [t2, t3] && [t2, t3][1..] == [t3];
    assert BoardIndex([a], "t1") == -1 && BoardIndex([a], "t3") == -1 by {
      assert [a][1..] == [];
    }
    assert TaskIndex(ts, "t1") == 0;
    assert TaskIndex([t3], "t3") == 0;
    assert TaskIndex([t2, t3], "t3") == 1;
    assert TaskIndex(ts, "t3") == 2;
    assert TasksOf(a) == ts;
    assert OwnerIndex([a], "t1") == 0;
    assert OwnerIndex([a], "t3") == 0;
    assert DropTargetIndex([a], "t3") == 0;
    assert ArrayMove(ts, 0, 2) == [t2, t3, t1];
  }

  /** A holding [t1, t2, t3] and an empty B: dropping t2 on B gives A [t1, t3] and
      B [t2], and the order writes number them 0, 1 and 0. */
  lemma ExampleMoveToEmptyBoard(t1: Task, t2: Task, t3: Task)
    requires t1.id == "t1" && t2.id == "t2" && t3.id == "t3"
    ensures var a := Board("A", "", 0, Some([t1, t2, t3]));
      var b := Board("B", "", 1, Some([]));
      PlanDragEnd([a, b], "t2", "B")
        == MoveTask([a.(tasks := Some([t1, t3])), b.(tasks := Some([t2]))], "A", "B", [t2])
    ensures TaskOrderWrites([t2]) == [UpdateTaskOrder("t2", 0)]
  {
    var a := Board("A", "", 0, Some([t1, t2, t3]));
    var b := Board("B", "", 1, Some([]));
    var bs := [a, b];
    var ts := [t1, t2, t3];
    assert bs[1..] == [b] && [b][1..] == [];
    assert ts[1..] == [t2, t3] && [t2, t3][1..] == [t3] && [t3][1..] == [];
    assert BoardIndex(bs, "t2") == -1;
    assert BoardIndex(bs, "B") == 1;
    assert DropTargetIndex(bs, "B") == 1;
    assert TaskIndex([t2, t3], "t2") == 0;
    assert TaskIndex(ts, "t2") == 1;
    assert TasksOf(a) == ts;
    assert OwnerIndex(bs, "t2") == 0;
    assert Without(ts, "t2") == [t1, t3] by {
      assert Without([], "t2") == [];
      assert Without([t3], "t2") == [t3];
      assert Without([t2, t3], "t2") == [t3];
    }
    assert DropIntoTasks(b, "B", t2) == [t2] by {
      assert TaskIndex([], "B") == -1;
      assert RelativeIndex(-1, 0) == 0;
    }
    var uf := a.(tasks := Some([t1, t3]));
    var ut := b.(tasks := Some([t2]));
    assert ReplaceMoved(bs, uf, ut) == [uf, ut];
  }
}
