/**
 * The older drop handler of app/components/kanbanboard/BoardList.tsx, over the
 * task store of app/lib/store.ts: board reorder, a reorder inside one board only
 * when both tasks are found, and a cross-board move that appends the task to the
 * end of the destination. The list is stored without a change test and nothing
 * is rolled back.
 */
module BoardList {
  import opened Wrappers
  import opened JsArray
  import opened Kanban
  import TaskStore
  import DragAndDrop

  /** The destination of a task drop: the first board holding a task `overId`,
      else the first board whose id is `overId`, else -1. */
  function TaskFirstTargetIndex(bs: seq<Board>, overId: string): (i: int)
    ensures -1 <= i < |bs|
    ensures (exists j :: 0 <= j < |bs| && HasTask(bs[j], overId)) ==>
      0 <= i && HasTask(bs[i], overId) && forall j :: 0 <= j < i ==> !HasTask(bs[j], overId)
    ensures (forall j :: 0 <= j < |bs| ==> !HasTask(bs[j], overId)) ==>
      && (0 <= i ==> bs[i].id == overId && forall j :: 0 <= j < i ==> bs[j].id != overId)
      && (i == -1 ==> forall j :: 0 <= j < |bs| ==> bs[j].id != overId)
  {
    var o := OwnerIndex(bs, overId);
    if o != -1 then o else BoardIndex(bs, overId)
  }

  /** The arrangement the handler stores, once `over` is known and differs from
      `active` (lines 48-122): a board reorder when both ids name boards, else a
      task drop. */
  function PlanBoardListDrop(bs: seq<Board>, activeId: string, overId: string): DropPlan {
    var ai := BoardIndex(bs, activeId);
    var oi := BoardIndex(bs, overId);
    if ai != -1 && oi != -1 then MoveBoards(ArrayMove(bs, ai, oi))
    else PlanBoardListTaskDrop(bs, activeId, overId)
  }

  /** The task part of the handler (lines 68-122). */
  function PlanBoardListTaskDrop(bs: seq<Board>, activeId: string, overId: string): DropPlan {
    var fi := OwnerIndex(bs, activeId);
    if fi == -1 then NoMove
    else
      var ti := TaskFirstTargetIndex(bs, overId);
      if ti == -1 then NoMove
      else if bs[fi].id == bs[ti].id then
        if bs[fi].tasks.None? then NoMove
        else
          var k := TaskIndex(TasksOf(bs[fi]), activeId);
          var n := TaskIndex(TasksOf(bs[fi]), overId);
          if k == -1 || n == -1 then NoMove
          else DragAndDrop.ReorderWithin(bs, bs[fi], k, n)
      else
        var k := TaskIndex(TasksOf(bs[fi]), activeId);
        if k == -1 then NoMove
        else AppendAcross(bs, bs[fi], bs[ti], activeId, TasksOf(bs[fi])[k])
  }

  /** The cross-board move of this handler: `task` filtered out of `from` and
      appended to the end of `to`, both put in place by the two-way `map`. */
  function AppendAcross(bs: seq<Board>, from: Board, to: Board, activeId: string, task: Task): DropPlan {
    var newTo := TasksOf(to) + [task];
    var updatedFrom := from.(tasks := Some(Without(TasksOf(from), activeId)));
    var updatedTo := to.(tasks := Some(newTo));
    MoveTask(ReplaceMoved(bs, updatedFrom, updatedTo), from.id, to.id, newTo)
  }

  /** The remote calls of the handler, in issue order. A failed `updateTaskBoard`
      rejects the handler before the order writes go out. */
  function BoardListIssued(plan: DropPlan, activeId: string, taskBoardOk: bool): seq<RemoteCall> {
    match plan
    case NoMove => []
    case MoveBoards(nb) => BoardOrderWrites(nb)
    case ReorderTasks(_, nt) => TaskOrderWrites(nt)
    case MoveTask(_, f, t, nt) =>
      [UpdateTaskBoard(activeId, f, t)] + (if taskBoardOk then TaskOrderWrites(nt) else [])
  }

  /** `handleDragEnd` of the board list: the planned list is stored with
      `setBoards`, without a change test, and the matching calls are issued. */
  method HandleDragEnd(store: TaskStore.Store, activeId: string, over: Option<string>, taskBoardOk: bool)
    returns (calls: seq<RemoteCall>)
    modifies store
    ensures over.None? || over.value == activeId ==> store.boards == old(store.boards) && calls == []
    ensures over.Some? && over.value != activeId ==>
      var plan := PlanBoardListDrop(old(store.boards), activeId, over.value);
      store.boards == BoardsAfter(old(store.boards), plan)
      && calls == BoardListIssued(plan, activeId, taskBoardOk)
  {
    calls := [];
    if over.None? || over.value == activeId {
      return;
    }
    var plan := PlanBoardListDrop(store.boards, activeId, over.value);
    calls := ApplyBoardListDrop(store, activeId, plan, taskBoardOk);
  }

  /** The body of the handler once its arrangement is planned. */
  method ApplyBoardListDrop(store: TaskStore.Store, activeId: string, plan: DropPlan, taskBoardOk: bool)
    returns (calls: seq<RemoteCall>)
    modifies store
    ensures store.boards == BoardsAfter(old(store.boards), plan)
    ensures calls == BoardListIssued(plan, activeId, taskBoardOk)
  {
    calls := [];
    match plan {
      case NoMove =>
      case MoveBoards(nb) =>
        store.SetBoards(nb);
        calls := BoardOrderWrites(nb);
      case ReorderTasks(nb, nt) =>
        store.SetBoards(nb);
        calls := TaskOrderWrites(nt);
      case MoveTask(nb, f, t, nt) =>
        store.SetBoards(nb);
        calls := [UpdateTaskBoard(activeId, f, t)];
        if taskBoardOk {
          calls := calls + TaskOrderWrites(nt);
        }
    }
  }

  /** Which kind of arrangement the handler stores: a board reorder exactly when
      both ids name boards; otherwise, once the dragged task's board and the
      target board are both found, an append across when they differ, and a
      reorder when they are one board and the target task is on it; nothing in
      every other case. */
  lemma BoardListKinds(bs: seq<Board>, activeId: string, overId: string)
    ensures var plan := PlanBoardListDrop(bs, activeId, overId);
      var boards := BoardIndex(bs, activeId) != -1 && BoardIndex(bs, overId) != -1;
      var fi, ti := OwnerIndex(bs, activeId), TaskFirstTargetIndex(bs, overId);
      && (plan.MoveBoards? <==> boards)
      && (plan.MoveTask? <==> !boards && fi != -1 && ti != -1 && bs[fi].id != bs[ti].id)
      && (plan.ReorderTasks? <==>
            !boards && fi != -1 && ti != -1 && bs[fi].id == bs[ti].id && TaskIndex(TasksOf(bs[fi]), overId) != -1)
  {
    if !(BoardIndex(bs, activeId) != -1 && BoardIndex(bs, overId) != -1) {
      assert PlanBoardListDrop(bs, activeId, overId) == PlanBoardListTaskDrop(bs, activeId, overId);
    }
  }

  /** Dropping a board on a board stores `arrayMove(boardList, a, o)`: a
      permutation with the dragged board at the target's index, the others in their
      order, and order writes that give every board its new index, once each. */
  lemma BoardListBoardReorder(bs: seq<Board>, activeId: string, overId: string)
    requires BoardIndex(bs, activeId) != -1 && BoardIndex(bs, overId) != -1
    requires UniqueBoardIds(bs)
    ensures var ai, oi := BoardIndex(bs, activeId), BoardIndex(bs, overId);
      var plan := PlanBoardListDrop(bs, activeId, overId);
      && plan == MoveBoards(ArrayMove(bs, ai, oi))
      && multiset(plan.boards) == multiset(bs)
      && plan.boards[oi] == bs[ai]
      && RemoveAt(plan.boards, oi) == RemoveAt(bs, ai)
      && forall i :: 0 <= i < |bs| ==> BoardOrdersFor(BoardListIssued(plan, activeId, true), plan.boards[i].id) == [i]
  {
    var ai, oi := BoardIndex(bs, activeId), BoardIndex(bs, overId);
    ArrayMovePermutation(bs, ai, oi);
    ArrayMoveUniqueBoardIds(bs, ai, oi);
    BoardOrderWritesNumberPositions(ArrayMove(bs, ai, oi));
  }

  /** A drop between two tasks of one board reorders that board exactly when both
      tasks are found in it; a drop on the board itself changes nothing. */
  lemma BoardListSameBoardGuard(bs: seq<Board>, activeId: string, overId: string)
    requires BoardIndex(bs, activeId) == -1
    requires OwnerIndex(bs, activeId) != -1 && TaskFirstTargetIndex(bs, overId) != -1
    requires bs[OwnerIndex(bs, activeId)].id == bs[TaskFirstTargetIndex(bs, overId)].id
    ensures var ts := TasksOf(bs[OwnerIndex(bs, activeId)]);
      PlanBoardListDrop(bs, activeId, overId).ReorderTasks? <==> TaskIndex(ts, overId) != -1
    ensures var ts := TasksOf(bs[OwnerIndex(bs, activeId)]);
      TaskIndex(ts, overId) == -1 ==> PlanBoardListDrop(bs, activeId, overId) == NoMove
  {
    var fi := OwnerIndex(bs, activeId);
    assert bs[fi].tasks.Some?;
  }

  /** A reorder inside one board is the drop handler's reorder (whose frame,
      permutation and order writes `DragAndDrop.ReorderWithinSpec` states), taken
      from the dragged task's index to the index of the task it was dropped on;
      the dragged task lands exactly there, and the calls are the board's order
      writes. */
  lemma BoardListSameBoardReorder(bs: seq<Board>, activeId: string, overId: string)
    requires PlanBoardListDrop(bs, activeId, overId).ReorderTasks?
    ensures var plan := PlanBoardListDrop(bs, activeId, overId);
      var fi := OwnerIndex(bs, activeId);
      && fi != -1
      && var ts := TasksOf(bs[fi]);
      && var k, n := TaskIndex(ts, activeId), TaskIndex(ts, overId);
      && k != -1 && n != -1
      && plan == DragAndDrop.ReorderWithin(bs, bs[fi], k, n)
      && plan.tasks[n] == ts[k]
      && BoardListIssued(plan, activeId, true) == TaskOrderWrites(plan.tasks)
  {
    var plan := PlanBoardListTaskDrop(bs, activeId, overId);
    assert PlanBoardListDrop(bs, activeId, overId) == plan;
    var fi, ti := OwnerIndex(bs, activeId), TaskFirstTargetIndex(bs, overId);
    assert fi != -1 && ti != -1 && bs[fi].id == bs[ti].id;
    var ts := TasksOf(bs[fi]);
    var k, n := TaskIndex(ts, activeId), TaskIndex(ts, overId);
    assert k != -1 && n != -1;
    assert plan == DragAndDrop.ReorderWithin(bs, bs[fi], k, n);
    MoveTargetInside(|ts|, n);
  }

  /** The destination of a cross-board move is the board holding the task
      dropped on, and only when no board holds one, the board with that id. */
  lemma BoardListDestination(bs: seq<Board>, activeId: string, overId: string)
    requires PlanBoardListDrop(bs, activeId, overId).MoveTask?
    ensures var plan := PlanBoardListDrop(bs, activeId, overId);
      var o := OwnerIndex(bs, overId);
      if o != -1 then plan.toBoardId == bs[o].id
      else BoardIndex(bs, overId) != -1 && plan.toBoardId == bs[BoardIndex(bs, overId)].id
  {
  }

  /** A cross-board move appends the dragged task to the END of the destination,
      takes every task with its id off the source, and leaves every other board
      as it was. */
  lemma BoardListCrossBoardAppends(bs: seq<Board>, activeId: string, overId: string)
    requires PlanBoardListDrop(bs, activeId, overId).MoveTask?
    ensures var plan := PlanBoardListDrop(bs, activeId, overId);
      var fi, ti := OwnerIndex(bs, activeId), TaskFirstTargetIndex(bs, overId);
      && fi != -1 && ti != -1
      && var from, to := bs[fi], bs[ti];
      && var task := TasksOf(from)[TaskIndex(TasksOf(from), activeId)];
      && task.id == activeId
      && plan.fromBoardId == from.id && plan.toBoardId == to.id && from.id != to.id
      && plan.toTasks == TasksOf(to) + [task]
      && |plan.boards| == |bs|
      && (forall i :: 0 <= i < |bs| && bs[i].id != from.id && bs[i].id != to.id ==> plan.boards[i] == bs[i])
      && (forall i :: 0 <= i < |bs| && bs[i].id == from.id ==>
            plan.boards[i] == from.(tasks := Some(Without(TasksOf(from), activeId))))
      && (forall i :: 0 <= i < |bs| && bs[i].id == to.id ==> plan.boards[i] == to.(tasks := Some(plan.toTasks)))
  {
  }

  /** With distinct board ids, the cross-board move of this handler is the task
      store's `onTaskMove` from the source to the destination. */
  lemma BoardListCrossBoardIsOnTaskMove(bs: seq<Board>, activeId: string, overId: string)
    requires UniqueBoardIds(bs)
    requires PlanBoardListDrop(bs, activeId, overId).MoveTask?
    ensures var plan := PlanBoardListDrop(bs, activeId, overId);
      plan.boards == TaskStore.TaskMoved(bs, activeId, plan.fromBoardId, plan.toBoardId)
  {
    var fi, ti := OwnerIndex(bs, activeId), TaskFirstTargetIndex(bs, overId);
    AppendAcrossIsOnTaskMove(bs, fi, ti, activeId);
  }

  /** `AppendAcross` between boards `fi` and `ti` is `onTaskMove` between their ids. */
  lemma AppendAcrossIsOnTaskMove(bs: seq<Board>, fi: nat, ti: nat, activeId: string)
    requires UniqueBoardIds(bs) && fi < |bs| && ti < |bs|
    requires TaskIndex(TasksOf(bs[fi]), activeId) != -1
    ensures var task := TasksOf(bs[fi])[TaskIndex(TasksOf(bs[fi]), activeId)];
      AppendAcross(bs, bs[fi], bs[ti], activeId, task).boards == TaskStore.TaskMoved(bs, activeId, bs[fi].id, bs[ti].id)
  {
    assert BoardIndex(bs, bs[fi].id) == fi;
    assert BoardIndex(bs, bs[ti].id) == ti;
  }

  /** With distinct ids, no drop of this handler creates or loses a task. */
  lemma BoardListKeepsTaskCount(bs: seq<Board>, activeId: string, overId: string)
    requires UniqueIds(bs)
    ensures TotalTasks(BoardsAfter(bs, PlanBoardListDrop(bs, activeId, overId))) == TotalTasks(bs)
  {
    var ai, oi := BoardIndex(bs, activeId), BoardIndex(bs, overId);
    if ai != -1 && oi != -1 {
      TotalTasksPermutation(bs, ai, oi);
    } else {
      assert PlanBoardListDrop(bs, activeId, overId) == PlanBoardListTaskDrop(bs, activeId, overId);
      TaskDropKeepsTaskCount(bs, activeId, overId);
    }
  }

  /** The task part of the handler keeps the number of tasks, with distinct ids. */
  lemma TaskDropKeepsTaskCount(bs: seq<Board>, activeId: string, overId: string)
    requires UniqueIds(bs)
    ensures TotalTasks(BoardsAfter(bs, PlanBoardListTaskDrop(bs, activeId, overId))) == TotalTasks(bs)
  {
    var fi := OwnerIndex(bs, activeId);
    var ti := TaskFirstTargetIndex(bs, overId);
    if fi != -1 && ti != -1 {
      var ts := TasksOf(bs[fi]);
      var k, n := TaskIndex(ts, activeId), TaskIndex(ts, overId);
      assert UniqueBoardIds(bs) && UniqueTaskIds(ts);
      if bs[fi].id == bs[ti].id {
        if bs[fi].tasks.Some? && k != -1 && n != -1 {
          DragAndDrop.ReorderWithinKeepsCount(bs, fi, k, n);
        }
      } else if k != -1 {
        AppendAcrossKeepsCount(bs, fi, ti, activeId);
      }
    }
  }

  /** A move across boards `fi` and `ti`, with distinct ids, keeps the number
      of tasks. */
  lemma AppendAcrossKeepsCount(bs: seq<Board>, fi: nat, ti: nat, activeId: string)
    requires UniqueIds(bs) && fi < |bs| && ti < |bs| && bs[fi].id != bs[ti].id
    requires TaskIndex(TasksOf(bs[fi]), activeId) != -1
    ensures var task := TasksOf(bs[fi])[TaskIndex(TasksOf(bs[fi]), activeId)];
      TotalTasks(AppendAcross(bs, bs[fi], bs[ti], activeId, task).boards) == TotalTasks(bs)
  {
    AppendAcrossIsOnTaskMove(bs, fi, ti, activeId);
    TaskStore.TaskMovedKeepsTasks(bs, activeId, bs[fi].id, bs[ti].id);
  }

  /** With distinct ids, every drop of this handler keeps board ids distinct and
      every task id on one board, once. */
  lemma BoardListKeepsUniqueIds(bs: seq<Board>, activeId: string, overId: string)
    requires UniqueIds(bs)
    ensures UniqueIds(BoardsAfter(bs, PlanBoardListDrop(bs, activeId, overId)))
  {
    var ai, oi := BoardIndex(bs, activeId), BoardIndex(bs, overId);
    if ai != -1 && oi != -1 {
      ArrayMoveKeepsUniqueIds(bs, ai, oi);
    } else {
      assert PlanBoardListDrop(bs, activeId, overId) == PlanBoardListTaskDrop(bs, activeId, overId);
      var fi, ti := OwnerIndex(bs, activeId), TaskFirstTargetIndex(bs, overId);
      if fi != -1 && ti != -1 && TaskIndex(TasksOf(bs[fi]), activeId) != -1 {
        var ts := TasksOf(bs[fi]);
        var k := TaskIndex(ts, activeId);
        if bs[fi].id == bs[ti].id {
          if TaskIndex(ts, overId) != -1 {
            DragAndDrop.ReorderWithinKeepsUniqueIds(bs, fi, k, TaskIndex(ts, overId));
          }
        } else {
          AppendAcrossIsOnTaskMove(bs, fi, ti, activeId);
          TaskStore.TaskMovedKeepsUniqueIds(bs, activeId, bs[fi].id, bs[ti].id);
        }
      }
    }
  }

  /** On a cross-board move, `updateTaskBoard` goes out first, and the
      destination's order writes follow it only when it succeeds. */
  lemma BoardListCallOrder(plan: DropPlan, activeId: string, ok: bool)
    requires plan.MoveTask?
    ensures var calls := BoardListIssued(plan, activeId, ok);
      && |calls| == 1 + (if ok then |plan.toTasks| else 0)
      && calls[0] == UpdateTaskBoard(activeId, plan.fromBoardId, plan.toBoardId)
      && calls[1..] == (if ok then TaskOrderWrites(plan.toTasks) else [])
  {
  }
}
