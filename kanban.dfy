/**
 * The records the board views work on, the lookups they make with
 * `find`/`findIndex`/`some`/`filter`/`flatMap`, and the remote calls they issue.
 */
module Kanban {
  import opened Wrappers
  import opened JsArray

  /** A task card: its identity, its text and its persisted position key. */
  datatype Task = Task(id: string, title: string, order: int)

  /** A board (column). `tasks` is `None` for a record that carries no task
      array at all, which the code tells apart from an empty one (`tasks?.`). */
  datatype Board = Board(id: string, title: string, order: int, tasks: Option<seq<Task>>)

  /** `board.tasks || []` */
  function TasksOf(b: Board): seq<Task> {
    match b.tasks
    case Some(ts) => ts
    case None => []
  }

  /** `boards.findIndex(board => board.id === id)`: the first board with that id, or -1. */
  function BoardIndex(bs: seq<Board>, id: string): (i: int)
    ensures -1 <= i < |bs|
    ensures 0 <= i ==> bs[i].id == id && forall j :: 0 <= j < i ==> bs[j].id != id
    ensures i == -1 ==> forall j :: 0 <= j < |bs| ==> bs[j].id != id
  {
    if |bs| == 0 then -1
    else if bs[0].id == id then 0
    else
      var k := BoardIndex(bs[1..], id);
      if k == -1 then -1 else k + 1
  }

  /** `tasks.findIndex(task => task.id === id)`: the first task with that id, or -1.
      The same search as `BoardIndex`, over a task array. */
  function TaskIndex(ts: seq<Task>, id: string): (i: int)
    ensures -1 <= i < |ts|
    ensures 0 <= i ==> ts[i].id == id && forall j :: 0 <= j < i ==> ts[j].id != id
    ensures i == -1 ==> forall j :: 0 <= j < |ts| ==> ts[j].id != id
  {
    if |ts| == 0 then -1
    else if ts[0].id == id then 0
    else
      var k := TaskIndex(ts[1..], id);
      if k == -1 then -1 else k + 1
  }

  /** `board.tasks?.some(task => task.id === id)` */
  predicate HasTask(b: Board, id: string) {
    TaskIndex(TasksOf(b), id) != -1
  }

  /** `boards.find(board => board.tasks?.some(task => task.id === id))`, as an index:
      the first board holding a task with that id, or -1. */
  function OwnerIndex(bs: seq<Board>, taskId: string): (i: int)
    ensures -1 <= i < |bs|
    ensures 0 <= i ==> HasTask(bs[i], taskId) && forall j :: 0 <= j < i ==> !HasTask(bs[j], taskId)
    ensures i == -1 ==> forall j :: 0 <= j < |bs| ==> !HasTask(bs[j], taskId)
  {
    if |bs| == 0 then -1
    else if HasTask(bs[0], taskId) then 0
    else
      var k := OwnerIndex(bs[1..], taskId);
      assert forall j :: 1 <= j < |bs| ==> bs[j] == bs[1..][j - 1];
      if k == -1 then -1 else k + 1
  }

  /** `boards.flatMap(board => board.tasks || [])` */
  function AllTasks(bs: seq<Board>): seq<Task> {
    if bs == [] then [] else TasksOf(bs[0]) + AllTasks(bs[1..])
  }

  /** `boards.flatMap(board => board.tasks || []).find(task => task.id === id)` */
  function FindTask(bs: seq<Board>, id: string): (r: Option<Task>)
    ensures r.Some? ==> r.value.id == id && r.value in AllTasks(bs)
    ensures r.None? ==> forall t :: t in AllTasks(bs) ==> t.id != id
  {
    var k := TaskIndex(AllTasks(bs), id);
    if k == -1 then None else Some(AllTasks(bs)[k])
  }

  /** `tasks.filter(task => task.id !== id)` */
  function Without(ts: seq<Task>, id: string): (r: seq<Task>)
    ensures |r| <= |ts|
    ensures forall j :: 0 <= j < |r| ==> r[j].id != id
  {
    if ts == [] then []
    else (if ts[0].id == id then [] else [ts[0]]) + Without(ts[1..], id)
  }

  /** `boards.map(board => board.id === id ? { ...board, tasks } : board)` */
  function ReplaceTasks(bs: seq<Board>, id: string, tasks: seq<Task>): (r: seq<Board>)
    ensures |r| == |bs|
    ensures forall i :: 0 <= i < |bs| && bs[i].id != id ==> r[i] == bs[i]
    ensures forall i :: 0 <= i < |bs| && bs[i].id == id ==> r[i] == bs[i].(tasks := Some(tasks))
  {
    seq(|bs|, i requires 0 <= i < |bs| => if bs[i].id == id then bs[i].(tasks := Some(tasks)) else bs[i])
  }

  /** `boards.map(board => board.id === from.id ? from : board.id === to.id ? to : board)`:
      the two rebuilt boards of a move put in place, the source one first. */
  function ReplaceMoved(bs: seq<Board>, from: Board, to: Board): (r: seq<Board>)
    ensures |r| == |bs|
    ensures forall i :: 0 <= i < |bs| ==> r[i].id == bs[i].id
    ensures forall i :: 0 <= i < |bs| && bs[i].id != from.id && bs[i].id != to.id ==> r[i] == bs[i]
  {
    seq(|bs|, i requires 0 <= i < |bs| =>
      if bs[i].id == from.id then from else if bs[i].id == to.id then to else bs[i])
  }

  /** Board ids are pairwise distinct. */
  predicate UniqueBoardIds(bs: seq<Board>) {
    forall i, j :: 0 <= i < j < |bs| ==> bs[i].id != bs[j].id
  }

  /** Task ids are pairwise distinct. */
  predicate UniqueTaskIds(ts: seq<Task>) {
    forall i, j :: 0 <= i < j < |ts| ==> ts[i].id != ts[j].id
  }

  /** The identity invariant of committed state: every board id occurs once,
      every task id occurs once in its board, and no task id is in two boards. */
  predicate UniqueIds(bs: seq<Board>) {
    && UniqueBoardIds(bs)
    && (forall i :: 0 <= i < |bs| ==> UniqueTaskIds(TasksOf(bs[i])))
    && (forall i, j, p :: 0 <= i < |bs| && 0 <= j < |bs| && i != j && 0 <= p < |TasksOf(bs[i])| ==>
          !HasTask(bs[j], TasksOf(bs[i])[p].id))
  }

  /** The number of tasks on all boards. */
  function TotalTasks(bs: seq<Board>): nat {
    |AllTasks(bs)|
  }

  /** A remote persistence call, as issued by the views. */
  datatype RemoteCall =
    | UpdateBoardOrder(boardId: string, order: int)
    | UpdateTaskOrder(taskId: string, order: int)
    | UpdateTaskBoard(taskId: string, fromBoardId: string, toBoardId: string)

  /** `boards.map((board, index) => updateBoardOrder(board.id, index))` */
  function BoardOrderWrites(bs: seq<Board>): (w: seq<RemoteCall>)
    ensures |w| == |bs|
  {
    seq(|bs|, i requires 0 <= i < |bs| => UpdateBoardOrder(bs[i].id, i))
  }

  /** `tasks.map((task, index) => updateTaskOrder(task.id, index))` */
  function TaskOrderWrites(ts: seq<Task>): (w: seq<RemoteCall>)
    ensures |w| == |ts|
  {
    seq(|ts|, i requires 0 <= i < |ts| => UpdateTaskOrder(ts[i].id, i))
  }

  /** The orders that a batch of calls writes for board `id`, in issue order. */
  function BoardOrdersFor(calls: seq<RemoteCall>, id: string): seq<int> {
    if calls == [] then []
    else
      var last := calls[|calls| - 1];
      BoardOrdersFor(calls[..|calls| - 1], id)
        + (if last.UpdateBoardOrder? && last.boardId == id then [last.order] else [])
  }

  /** The orders that a batch of calls writes for task `id`, in issue order. */
  function TaskOrdersFor(calls: seq<RemoteCall>, id: string): seq<int> {
    if calls == [] then []
    else
      var last := calls[|calls| - 1];
      TaskOrdersFor(calls[..|calls| - 1], id)
        + (if last.UpdateTaskOrder? && last.taskId == id then [last.order] else [])
  }

  /** The board order writes number the boards by position: with distinct ids,
      each board gets exactly one write, carrying its index (so the batch can run
      in any order, every order is at least 0, and together they are 0..n-1). */
  lemma {:induction false} BoardOrderWritesNumberPositions(bs: seq<Board>)
    requires UniqueBoardIds(bs)
    ensures forall i :: 0 <= i < |bs| ==> BoardOrdersFor(BoardOrderWrites(bs), bs[i].id) == [i]
    ensures forall id :: BoardIndex(bs, id) == -1 ==> BoardOrdersFor(BoardOrderWrites(bs), id) == []
  {
    var w := BoardOrderWrites(bs);
    forall id ensures BoardOrdersFor(w, id) == BoardOrdersUpTo(bs, |bs|, id) {
      BoardOrderWritesPrefix(bs, |bs|, id);
      assert w[..|bs|] == w;
    }
  }

  /** The positions below `k` at which board `id` stands. */
  function BoardOrdersUpTo(bs: seq<Board>, k: nat, id: string): (r: seq<int>)
    requires k <= |bs|
    ensures UniqueBoardIds(bs) ==> forall i :: 0 <= i < |bs| && bs[i].id == id ==> r == (if i < k then [i] else [])
    ensures (forall j :: 0 <= j < k ==> bs[j].id != id) ==> r == []
  {
    if k == 0 then [] else BoardOrdersUpTo(bs, k - 1, id) + (if bs[k - 1].id == id then [k - 1] else [])
  }

  lemma {:induction false} BoardOrderWritesPrefix(bs: seq<Board>, k: nat, id: string)
    requires k <= |bs|
    ensures BoardOrdersFor(BoardOrderWrites(bs)[..k], id) == BoardOrdersUpTo(bs, k, id)
  {
    if k > 0 {
      var w := BoardOrderWrites(bs);
      BoardOrderWritesPrefix(bs, k - 1, id);
      assert w[..k][..k - 1] == w[..k - 1];
    }
  }

  /** The task order writes number the tasks by position: with distinct ids,
      each task gets exactly one write, carrying its index, which is never negative. */
  lemma {:induction false} TaskOrderWritesNumberPositions(ts: seq<Task>)
    requires UniqueTaskIds(ts)
    ensures forall i :: 0 <= i < |ts| ==> TaskOrdersFor(TaskOrderWrites(ts), ts[i].id) == [i]
    ensures forall id :: TaskIndex(ts, id) == -1 ==> TaskOrdersFor(TaskOrderWrites(ts), id) == []
  {
    var w := TaskOrderWrites(ts);
    forall id ensures TaskOrdersFor(w, id) == TaskOrdersUpTo(ts, |ts|, id) {
      TaskOrderWritesPrefix(ts, |ts|, id);
      assert w[..|ts|] == w;
    }
  }

  /** The positions below `k` at which task `id` stands. */
  function TaskOrdersUpTo(ts: seq<Task>, k: nat, id: string): (r: seq<int>)
    requires k <= |ts|
    ensures UniqueTaskIds(ts) ==> forall i :: 0 <= i < |ts| && ts[i].id == id ==> r == (if i < k then [i] else [])
    ensures (forall j :: 0 <= j < k ==> ts[j].id != id) ==> r == []
  {
    if k == 0 then [] else TaskOrdersUpTo(ts, k - 1, id) + (if ts[k - 1].id == id then [k - 1] else [])
  }

  lemma {:induction false} TaskOrderWritesPrefix(ts: seq<Task>, k: nat, id: string)
    requires k <= |ts|
    ensures TaskOrdersFor(TaskOrderWrites(ts)[..k], id) == TaskOrdersUpTo(ts, k, id)
  {
    if k > 0 {
      var w := TaskOrderWrites(ts);
      TaskOrderWritesPrefix(ts, k - 1, id);
      assert w[..k][..k - 1] == w[..k - 1];
    }
  }

  /** With distinct ids, filtering a present id out is removing its one position:
      the other tasks keep their relative order. */
  lemma {:induction false} WithoutUnique(ts: seq<Task>, id: string)
    requires UniqueTaskIds(ts)
    requires TaskIndex(ts, id) != -1
    ensures Without(ts, id) == RemoveAt(ts, TaskIndex(ts, id))
  {
    if ts[0].id == id {
      WithoutAbsent(ts[1..], id);
      assert RemoveAt(ts, 0) == ts[1..];
    } else {
      WithoutUnique(ts[1..], id);
      var k := TaskIndex(ts[1..], id);
      assert TaskIndex(ts, id) == k + 1;
      assert RemoveAt(ts, k + 1) == [ts[0]] + RemoveAt(ts[1..], k);
    }
  }

  /** Filtering out an id nobody has changes nothing. */
  lemma {:induction false} WithoutAbsent(ts: seq<Task>, id: string)
    requires forall j :: 0 <= j < |ts| ==> ts[j].id != id
    ensures Without(ts, id) == ts
  {
    if ts != [] {
      WithoutAbsent(ts[1..], id);
      assert [ts[0]] + ts[1..] == ts;
    }
  }

  /** Filtering an id out again undoes inserting a task with that id anywhere
      into tasks that do not hold it. */
  lemma {:induction false} WithoutInsert(ts: seq<Task>, p: nat, task: Task)
    requires p <= |ts|
    requires forall j :: 0 <= j < |ts| ==> ts[j].id != task.id
    ensures Without(ts[..p] + [task] + ts[p..], task.id) == ts
  {
    var s := ts[..p] + [task] + ts[p..];
    if p == 0 {
      assert s[1..] == ts by { assert s == [task] + ts; }
      WithoutAbsent(ts, task.id);
    } else {
      var t := ts[1..];
      assert s[1..] == t[..p - 1] + [task] + t[p - 1..] by {
        assert ts[..p] == [ts[0]] + t[..p - 1];
        assert ts[p..] == t[p - 1..];
      }
      WithoutInsert(t, p - 1, task);
      assert ts == [ts[0]] + t;
    }
  }

  /** Filtering distributes over concatenation. */
  lemma {:induction false} WithoutAppend(a: seq<Task>, b: seq<Task>, id: string)
    ensures Without(a + b, id) == Without(a, id) + Without(b, id)
  {
    if a != [] {
      WithoutAppend(a[1..], b, id);
      assert (a + b)[1..] == a[1..] + b;
    } else {
      assert a + b == b;
    }
  }

  /** Task counts add up over concatenated board lists. */
  lemma {:induction false} TotalTasksAppend(a: seq<Board>, b: seq<Board>)
    ensures TotalTasks(a + b) == TotalTasks(a) + TotalTasks(b)
  {
    if a == [] {
      assert a + b == b;
    } else {
      TotalTasksAppend(a[1..], b);
      assert (a + b)[1..] == a[1..] + b;
    }
  }

  /** Replacing one board changes the task count by the difference in its tasks. */
  lemma TotalTasksUpdate(bs: seq<Board>, i: nat, b: Board)
    requires i < |bs|
    ensures TotalTasks(bs[i := b]) + |TasksOf(bs[i])| == TotalTasks(bs) + |TasksOf(b)|
  {
    assert bs == bs[..i] + [bs[i]] + bs[i + 1..];
    assert bs[i := b] == bs[..i] + [b] + bs[i + 1..];
    TotalTasksAppend(bs[..i] + [bs[i]], bs[i + 1..]);
    TotalTasksAppend(bs[..i], [bs[i]]);
    TotalTasksAppend(bs[..i] + [b], bs[i + 1..]);
    TotalTasksAppend(bs[..i], [b]);
    assert AllTasks([b]) == TasksOf(b) + AllTasks([]);
    assert AllTasks([bs[i]]) == TasksOf(bs[i]) + AllTasks([]);
  }

  /** Reordering the boards keeps the number of tasks. */
  lemma TotalTasksPermutation(bs: seq<Board>, from: nat, to: int)
    requires from < |bs|
    ensures TotalTasks(ArrayMove(bs, from, to)) == TotalTasks(bs)
  {
    var rest := RemoveAt(bs, from);
    assert bs == bs[..from] + [bs[from]] + bs[from + 1..];
    assert rest == bs[..from] + bs[from + 1..];
    TotalTasksAppend(bs[..from] + [bs[from]], bs[from + 1..]);
    TotalTasksAppend(bs[..from], [bs[from]]);
    TotalTasksAppend(bs[..from], bs[from + 1..]);
    var p := RelativeIndex(if to < 0 then |bs| + to else to, |rest|);
    var r := ArrayMove(bs, from, to);
    assert r == rest[..p] + [bs[from]] + rest[p..];
    assert rest == rest[..p] + rest[p..];
    TotalTasksAppend(rest[..p] + [bs[from]], rest[p..]);
    TotalTasksAppend(rest[..p], [bs[from]]);
    TotalTasksAppend(rest[..p], rest[p..]);
  }

  /** With distinct board ids, replacing the boards of two distinct ids is two point updates. */
  lemma ReplaceMovedUnique(bs: seq<Board>, fi: nat, ti: nat, from: Board, to: Board)
    requires UniqueBoardIds(bs)
    requires fi < |bs| && ti < |bs| && fi != ti
    requires from.id == bs[fi].id && to.id == bs[ti].id
    ensures ReplaceMoved(bs, from, to) == bs[fi := from][ti := to]
  {
    var r := ReplaceMoved(bs, from, to);
    forall i | 0 <= i < |bs| ensures r[i] == bs[fi := from][ti := to][i] {
      if i != fi { assert bs[i].id != bs[fi].id; }
      if i != ti { assert bs[i].id != bs[ti].id; }
    }
  }

  /** With distinct board ids, replacing the tasks of one board is one point update. */
  lemma ReplaceTasksUnique(bs: seq<Board>, fi: nat, tasks: seq<Task>)
    requires UniqueBoardIds(bs)
    requires fi < |bs|
    ensures ReplaceTasks(bs, bs[fi].id, tasks) == bs[fi := bs[fi].(tasks := Some(tasks))]
  {
    var r := ReplaceTasks(bs, bs[fi].id, tasks);
    forall i | 0 <= i < |bs| ensures r[i] == bs[fi := bs[fi].(tasks := Some(tasks))][i] {
      if i != fi { assert bs[i].id != bs[fi].id; }
    }
  }

  /** What a drop gesture computes: nothing, a new board sequence, a new task
      sequence for one board, or a task moved between two boards. */
  datatype DropPlan =
    | NoMove
    | MoveBoards(boards: seq<Board>)
    | ReorderTasks(boards: seq<Board>, tasks: seq<Task>)
    | MoveTask(boards: seq<Board>, fromBoardId: string, toBoardId: string, toTasks: seq<Task>)

  /** The board list a plan proposes (the current one when it proposes nothing). */
  function BoardsAfter(bs: seq<Board>, plan: DropPlan): seq<Board> {
    if plan.NoMove? then bs else plan.boards
  }

  /** A reorder keeps board ids distinct. */
  lemma ArrayMoveUniqueBoardIds(bs: seq<Board>, from: nat, to: int)
    requires from < |bs| && UniqueBoardIds(bs)
    ensures UniqueBoardIds(ArrayMove(bs, from, to))
  {
    var r := ArrayMove(bs, from, to);
    forall i, j | 0 <= i < j < |r| ensures r[i].id != r[j].id {
      ArrayMoveAt(bs, from, to, i);
      ArrayMoveAt(bs, from, to, j);
      MoveSourceInjective(|bs|, from, to, i, j);
      var si, sj := MoveSource(|bs|, from, to, i), MoveSource(|bs|, from, to, j);
      if si < sj { assert bs[si].id != bs[sj].id; } else { assert bs[sj].id != bs[si].id; }
    }
  }

  /** A reorder keeps task ids distinct. */
  lemma ArrayMoveUniqueTaskIds(ts: seq<Task>, from: nat, to: int)
    requires from < |ts| && UniqueTaskIds(ts)
    ensures UniqueTaskIds(ArrayMove(ts, from, to))
  {
    var r := ArrayMove(ts, from, to);
    forall i, j | 0 <= i < j < |r| ensures r[i].id != r[j].id {
      ArrayMoveAt(ts, from, to, i);
      ArrayMoveAt(ts, from, to, j);
      MoveSourceInjective(|ts|, from, to, i, j);
      var si, sj := MoveSource(|ts|, from, to, i), MoveSource(|ts|, from, to, j);
      if si < sj { assert ts[si].id != ts[sj].id; } else { assert ts[sj].id != ts[si].id; }
    }
  }

  /** `findIndex` over a concatenation: a hit in the first part wins, else the
      index is found in the second part and shifted past the first. */
  lemma TaskIndexAppend(a: seq<Task>, b: seq<Task>, id: string)
    ensures TaskIndex(a + b, id) ==
      if TaskIndex(a, id) != -1 then TaskIndex(a, id)
      else if TaskIndex(b, id) == -1 then -1
      else |a| + TaskIndex(b, id)
  {
    var ka, kb := TaskIndex(a, id), TaskIndex(b, id);
    if ka != -1 {
      assert (a + b)[ka] == a[ka];
    } else if kb != -1 {
      assert (a + b)[|a| + kb] == b[kb];
    }
  }

  /** The task `FindTask` looks up in the flattened list is the first task with
      that id on the first board holding one: searching the boards and then that
      board's tasks finds the same task. */
  lemma {:induction false} FindTaskInOwner(bs: seq<Board>, id: string)
    ensures OwnerIndex(bs, id) == -1 ==> FindTask(bs, id).None?
    ensures OwnerIndex(bs, id) != -1 ==>
      FindTask(bs, id) == Some(TasksOf(bs[OwnerIndex(bs, id)])[TaskIndex(TasksOf(bs[OwnerIndex(bs, id)]), id)])
  {
    if bs != [] {
      var head, rest := TasksOf(bs[0]), AllTasks(bs[1..]);
      assert AllTasks(bs) == head + rest;
      TaskIndexAppend(head, rest, id);
      var kh := TaskIndex(head, id);
      if kh != -1 {
        assert OwnerIndex(bs, id) == 0;
        assert (head + rest)[kh] == head[kh];
      } else {
        FindTaskInOwner(bs[1..], id);
        var o, kr := OwnerIndex(bs[1..], id), TaskIndex(rest, id);
        if o == -1 {
          assert OwnerIndex(bs, id) == -1;
        } else {
          assert OwnerIndex(bs, id) == o + 1;
          assert bs[o + 1] == bs[1..][o];
          assert (head + rest)[|head| + kr] == rest[kr];
        }
      }
    }
  }

  // ----- The identity invariant across gestures -----

  /** A task a board holds is found on it by id. */
  lemma HasTaskIn(b: Board, t: Task)
    requires t in TasksOf(b)
    ensures HasTask(b, t.id)
  {
    var q :| 0 <= q < |TasksOf(b)| && TasksOf(b)[q] == t;
  }

  /** Giving board `fi` new tasks keeps ids distinct when the new tasks have
      distinct ids, none of them held by another board. */
  lemma ReplaceOneKeepsUniqueIds(bs: seq<Board>, fi: nat, b: Board)
    requires UniqueIds(bs) && fi < |bs| && b.id == bs[fi].id
    requires UniqueTaskIds(TasksOf(b))
    requires forall p, j :: 0 <= p < |TasksOf(b)| && 0 <= j < |bs| && j != fi ==> !HasTask(bs[j], TasksOf(b)[p].id)
    ensures UniqueIds(bs[fi := b])
  {
    var r := bs[fi := b];
    forall i, j | 0 <= i < j < |r| ensures r[i].id != r[j].id {
      assert r[i].id == bs[i].id && r[j].id == bs[j].id;
    }
    forall i, j, p | 0 <= i < |r| && 0 <= j < |r| && i != j && 0 <= p < |TasksOf(r[i])|
      ensures !HasTask(r[j], TasksOf(r[i])[p].id)
    {
      var id := TasksOf(r[i])[p].id;
      if j == fi && HasTask(b, id) {
        var q := TaskIndex(TasksOf(b), id);
        assert false;
      }
    }
  }

  /** New tasks for board `fi`, all taken from its own tasks and with distinct
      ids, keep ids distinct. */
  lemma ReplaceBySubsetKeepsUniqueIds(bs: seq<Board>, fi: nat, b: Board)
    requires UniqueIds(bs) && fi < |bs| && b.id == bs[fi].id
    requires UniqueTaskIds(TasksOf(b))
    requires forall p :: 0 <= p < |TasksOf(b)| ==> TasksOf(b)[p] in TasksOf(bs[fi])
    ensures UniqueIds(bs[fi := b])
  {
    forall p, j | 0 <= p < |TasksOf(b)| && 0 <= j < |bs| && j != fi
      ensures !HasTask(bs[j], TasksOf(b)[p].id)
    {
      var q :| 0 <= q < |TasksOf(bs[fi])| && TasksOf(bs[fi])[q] == TasksOf(b)[p];
      assert !HasTask(bs[j], TasksOf(bs[fi])[q].id);
    }
    ReplaceOneKeepsUniqueIds(bs, fi, b);
  }

  /** Filtering a task out of board `fi` keeps ids distinct. */
  lemma WithoutKeepsUniqueIds(bs: seq<Board>, fi: nat, id: string)
    requires UniqueIds(bs) && fi < |bs| && TaskIndex(TasksOf(bs[fi]), id) != -1
    ensures UniqueIds(bs[fi := bs[fi].(tasks := Some(Without(TasksOf(bs[fi]), id)))])
  {
    var ts := TasksOf(bs[fi]);
    var k := TaskIndex(ts, id);
    WithoutUnique(ts, id);
    var w := RemoveAt(ts, k);
    forall p | 0 <= p < |w| ensures w[p] == ts[if p < k then p else p + 1] {
      assert w == ts[..k] + ts[k + 1..];
    }
    forall p | 0 <= p < |w| ensures w[p] in ts {
      assert w[p] == ts[if p < k then p else p + 1];
    }
    forall p, q | 0 <= p < q < |w| ensures w[p].id != w[q].id {
      var p', q' := if p < k then p else p + 1, if q < k then q else q + 1;
      assert w[p] == ts[p'] && w[q] == ts[q'];
      assert ts[p'].id != ts[q'].id;
    }
    ReplaceBySubsetKeepsUniqueIds(bs, fi, bs[fi].(tasks := Some(w)));
  }

  /** Reordering the tasks of board `fi` keeps ids distinct. */
  lemma ArrayMoveTasksKeepsUniqueIds(bs: seq<Board>, fi: nat, k: nat, to: int)
    requires UniqueIds(bs) && fi < |bs| && k < |TasksOf(bs[fi])|
    ensures UniqueIds(bs[fi := bs[fi].(tasks := Some(ArrayMove(TasksOf(bs[fi]), k, to)))])
  {
    var ts := TasksOf(bs[fi]);
    var nt := ArrayMove(ts, k, to);
    ArrayMoveUniqueTaskIds(ts, k, to);
    forall p | 0 <= p < |nt| ensures nt[p] in ts {
      ArrayMoveAt(ts, k, to, p);
    }
    ReplaceBySubsetKeepsUniqueIds(bs, fi, bs[fi].(tasks := Some(nt)));
  }

  /** Reordering the boards keeps ids distinct. */
  lemma ArrayMoveKeepsUniqueIds(bs: seq<Board>, from: nat, to: int)
    requires from < |bs| && UniqueIds(bs)
    ensures UniqueIds(ArrayMove(bs, from, to))
  {
    var r := ArrayMove(bs, from, to);
    ArrayMoveUniqueBoardIds(bs, from, to);
    forall i | 0 <= i < |r| ensures UniqueTaskIds(TasksOf(r[i])) {
      ArrayMoveAt(bs, from, to, i);
    }
    forall i, j, p | 0 <= i < |r| && 0 <= j < |r| && i != j && 0 <= p < |TasksOf(r[i])|
      ensures !HasTask(r[j], TasksOf(r[i])[p].id)
    {
      ArrayMoveAt(bs, from, to, i);
      ArrayMoveAt(bs, from, to, j);
      MoveSourceInjective(|bs|, from, to, i, j);
    }
  }

  /** Inserting a task whose id the array lacks keeps ids distinct; every element
      of the result is that task or one of the array's. */
  lemma InsertAtKeepsUniqueTaskIds(ts: seq<Task>, k: int, task: Task)
    requires UniqueTaskIds(ts)
    requires forall q :: 0 <= q < |ts| ==> ts[q].id != task.id
    ensures UniqueTaskIds(InsertAt(ts, k, task))
    ensures forall p :: 0 <= p < |InsertAt(ts, k, task)| ==> InsertAt(ts, k, task)[p] == task || InsertAt(ts, k, task)[p] in ts
  {
    var c := RelativeIndex(k, |ts|);
    var r := InsertAt(ts, k, task);
    forall p | 0 <= p < |r| ensures r[p] == if p < c then ts[p] else if p == c then task else ts[p - 1] {
      assert r == ts[..c] + [task] + ts[c..];
    }
    forall p, q | 0 <= p < q < |r| ensures r[p].id != r[q].id {
      if p != c && q != c {
        var p', q' := if p < c then p else p - 1, if q < c then q else q - 1;
        assert ts[p'].id != ts[q'].id;
      }
    }
  }

  /** Appending a task whose id the array lacks keeps ids distinct. */
  lemma AppendKeepsUniqueTaskIds(ts: seq<Task>, task: Task)
    requires UniqueTaskIds(ts)
    requires forall q :: 0 <= q < |ts| ==> ts[q].id != task.id
    ensures UniqueTaskIds(ts + [task])
    ensures forall p :: 0 <= p < |ts + [task]| ==> (ts + [task])[p] == task || (ts + [task])[p] in ts
  {
    InsertAtKeepsUniqueTaskIds(ts, |ts|, task);
    assert ts + [task] == InsertAt(ts, |ts|, task);
  }

  /**
   * Moving the task `id` from board `fi` to board `ti`, filtering it out of the
   * source and giving the destination `newTo`, keeps ids distinct when `newTo`
   * holds distinct ids, each the moved task's or one of the destination's.
   */
  lemma MoveBetweenKeepsUniqueIds(bs: seq<Board>, fi: nat, ti: nat, id: string, newTo: seq<Task>)
    requires UniqueIds(bs) && fi < |bs| && ti < |bs| && fi != ti
    requires TaskIndex(TasksOf(bs[fi]), id) != -1
    requires UniqueTaskIds(newTo)
    requires forall p :: 0 <= p < |newTo| ==> newTo[p].id == id || newTo[p] in TasksOf(bs[ti])
    ensures UniqueIds(ReplaceMoved(bs, bs[fi].(tasks := Some(Without(TasksOf(bs[fi]), id))), bs[ti].(tasks := Some(newTo))))
  {
    var uf := bs[fi].(tasks := Some(Without(TasksOf(bs[fi]), id)));
    var ut := bs[ti].(tasks := Some(newTo));
    ReplaceMovedUnique(bs, fi, ti, uf, ut);
    WithoutKeepsUniqueIds(bs, fi, id);
    var bs1 := bs[fi := uf];
    var k := TaskIndex(TasksOf(bs[fi]), id);
    forall p, j | 0 <= p < |newTo| && 0 <= j < |bs1| && j != ti
      ensures !HasTask(bs1[j], newTo[p].id)
    {
      if newTo[p].id == id {
        if j == fi {
          assert TaskIndex(TasksOf(uf), id) == -1;
        } else {
          assert !HasTask(bs[j], TasksOf(bs[fi])[k].id);
        }
      } else {
        var q :| 0 <= q < |TasksOf(bs[ti])| && TasksOf(bs[ti])[q] == newTo[p];
        assert !HasTask(bs1[j], TasksOf(bs1[ti])[q].id);
      }
    }
    ReplaceOneKeepsUniqueIds(bs1, ti, ut);
  }
}
