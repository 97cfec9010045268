/**
 * `areBoardsEqual`, the change test that both the drag hook
 * (app/hooks/useDragAndDrop.ts) and the board store (app/store/useBoardStore.ts)
 * define, in two identical copies, to skip updates that change nothing visible.
 */
module BoardEquality {
  import opened Wrappers
  import opened Kanban

  /** The task part of the test: both task arrays absent, or both present with the
      same length and the same id and title at every position. Task `order` is not looked at. */
  predicate SameTasks(p: Option<seq<Task>>, q: Option<seq<Task>>) {
    match p
    case None => q.None?
    case Some(s) =>
      q.Some? && |s| == |q.value| &&
      forall j :: 0 <= j < |s| ==> s[j].id == q.value[j].id && s[j].title == q.value[j].title
  }

  /** One position of the test: same id, title and order, and `SameTasks`. */
  predicate SameBoard(a: Board, b: Board) {
    a.id == b.id && a.title == b.title && a.order == b.order && SameTasks(a.tasks, b.tasks)
  }

  /** `areBoardsEqual(prevBoards, newBoards)` */
  predicate AreBoardsEqual(prev: seq<Board>, next: seq<Board>) {
    |prev| == |next| && forall i :: 0 <= i < |prev| ==> SameBoard(prev[i], next[i])
  }

  // A reference definition: what of a board list the test can see.

  datatype TaskShape = TaskShape(id: string, title: string)
  datatype BoardShape = BoardShape(id: string, title: string, order: int, tasks: Option<seq<TaskShape>>)

  function TaskShapes(ts: seq<Task>): (r: seq<TaskShape>)
    ensures |r| == |ts|
  {
    seq(|ts|, j requires 0 <= j < |ts| => TaskShape(ts[j].id, ts[j].title))
  }

  function BoardShapeOf(b: Board): BoardShape {
    BoardShape(b.id, b.title, b.order,
      match b.tasks
      case None => None
      case Some(ts) => Some(TaskShapes(ts)))
  }

  function Shape(bs: seq<Board>): (r: seq<BoardShape>)
    ensures |r| == |bs|
  {
    seq(|bs|, i requires 0 <= i < |bs| => BoardShapeOf(bs[i]))
  }

  lemma SameBoardIffSameShape(a: Board, b: Board)
    ensures SameBoard(a, b) <==> BoardShapeOf(a) == BoardShapeOf(b)
  {
    if a.tasks.Some? && b.tasks.Some? {
      var s, t := a.tasks.value, b.tasks.value;
      if TaskShapes(s) == TaskShapes(t) {
        forall j | 0 <= j < |s| ensures s[j].id == t[j].id && s[j].title == t[j].title {
          assert TaskShapes(s)[j] == TaskShapes(t)[j];
        }
      }
      if SameTasks(a.tasks, b.tasks) {
        assert TaskShapes(s) == TaskShapes(t);
      }
    }
  }

  /** The change test holds exactly when the two lists look the same once task
      `order` fields are forgotten: same boards (id, title, order, presence of a
      task array) in the same sequence, and the same task ids and titles in each. */
  lemma AreBoardsEqualIffSameShape(prev: seq<Board>, next: seq<Board>)
    ensures AreBoardsEqual(prev, next) <==> Shape(prev) == Shape(next)
  {
    if |prev| == |next| {
      forall i | 0 <= i < |prev| ensures SameBoard(prev[i], next[i]) <==> Shape(prev)[i] == Shape(next)[i] {
        SameBoardIffSameShape(prev[i], next[i]);
      }
      if Shape(prev) == Shape(next) {
        assert forall i :: 0 <= i < |prev| ==> Shape(prev)[i] == Shape(next)[i];
      }
    }
  }

  /** Every list is equal to itself. */
  lemma AreBoardsEqualReflexive(bs: seq<Board>)
    ensures AreBoardsEqual(bs, bs)
  {
    AreBoardsEqualIffSameShape(bs, bs);
  }

  /** The test does not depend on the order of its arguments. */
  lemma AreBoardsEqualSymmetric(prev: seq<Board>, next: seq<Board>)
    ensures AreBoardsEqual(prev, next) == AreBoardsEqual(next, prev)
  {
    AreBoardsEqualIffSameShape(prev, next);
    AreBoardsEqualIffSameShape(next, prev);
  }

  /** Equal to equal lists are equal. */
  lemma AreBoardsEqualTransitive(a: seq<Board>, b: seq<Board>, c: seq<Board>)
    requires AreBoardsEqual(a, b) && AreBoardsEqual(b, c)
    ensures AreBoardsEqual(a, c)
  {
    AreBoardsEqualIffSameShape(a, b);
    AreBoardsEqualIffSameShape(b, c);
    AreBoardsEqualIffSameShape(a, c);
  }

  /** Lists of different lengths are never equal. */
  lemma AreBoardsEqualLength(prev: seq<Board>, next: seq<Board>)
    requires |prev| != |next|
    ensures !AreBoardsEqual(prev, next)
  {
  }

  /** Each task's `order` set to its position, as the task order writes persist it. */
  function Renumbered(bs: seq<Board>): (r: seq<Board>)
    ensures |r| == |bs|
  {
    seq(|bs|, i requires 0 <= i < |bs| =>
      match bs[i].tasks
      case None => bs[i]
      case Some(ts) => bs[i].(tasks := Some(seq(|ts|, j requires 0 <= j < |ts| => ts[j].(order := j)))))
  }

  /** Lists that differ only in task `order` fields compare equal: position by
      position the boards agree, and so do their tasks but for `order`. */
  lemma TaskOrderIgnored(a: seq<Board>, b: seq<Board>)
    requires |a| == |b|
    requires forall i :: 0 <= i < |a| ==>
      && a[i].id == b[i].id && a[i].title == b[i].title && a[i].order == b[i].order
      && a[i].tasks.Some? == b[i].tasks.Some?
      && |TasksOf(a[i])| == |TasksOf(b[i])|
      && forall j :: 0 <= j < |TasksOf(a[i])| ==> TasksOf(b[i])[j] == TasksOf(a[i])[j].(order := TasksOf(b[i])[j].order)
    ensures AreBoardsEqual(a, b)
  {
    forall i | 0 <= i < |a| ensures SameBoard(a[i], b[i]) {
      if a[i].tasks.Some? {
        assert b[i].tasks.Some?;
      }
    }
  }

  /** Renumbering the tasks, as the order writes do, is invisible to the change test. */
  lemma RenumberingIgnored(bs: seq<Board>)
    ensures AreBoardsEqual(bs, Renumbered(bs))
  {
    TaskOrderIgnored(bs, Renumbered(bs));
  }

  /** A board without a task array differs from the same board with an empty one. */
  lemma AbsentTasksDifferFromEmpty(b: Board)
    requires b.tasks.None?
    ensures !AreBoardsEqual([b], [b.(tasks := Some([]))])
  {
    var empty := b.(tasks := Some([]));
    assert !SameBoard([b][0], [empty][0]);
  }
}
