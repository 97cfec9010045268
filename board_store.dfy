/**
 * The board store of app/store/useBoardStore.ts: one `boardList`, replaced by
 * `setBoardList` only when the new list differs from a non-empty current one,
 * and patched board by board by `updateBoard`.
 */
module BoardStore {
  import opened Wrappers
  import opened Kanban
  import opened BoardEquality

  /** `Partial<BoardType>`: the fields a patch carries; absent ones are kept. */
  datatype BoardPatch = BoardPatch(
    id: Option<string>, title: Option<string>, order: Option<int>, tasks: Option<seq<Task>>)

  /** A patch that sets only the task array. */
  function TasksPatch(tasks: seq<Task>): BoardPatch {
    BoardPatch(None, None, None, Some(tasks))
  }

  /** `{ ...board, ...patch }`: every field the patch carries wins. */
  function Merge(b: Board, p: BoardPatch): (r: Board)
    ensures r.id == (if p.id.Some? then p.id.value else b.id)
    ensures r.title == (if p.title.Some? then p.title.value else b.title)
    ensures r.order == (if p.order.Some? then p.order.value else b.order)
    ensures r.tasks == (if p.tasks.Some? then p.tasks else b.tasks)
  {
    Board(
      match p.id case Some(v) => v case None => b.id,
      match p.title case Some(v) => v case None => b.title,
      match p.order case Some(v) => v case None => b.order,
      match p.tasks case Some(v) => Some(v) case None => b.tasks)
  }

  /** The new list of `setBoardList(boards)` over the current `prev`. */
  function GuardedReplace(prev: seq<Board>, boards: seq<Board>): seq<Board> {
    if |prev| == 0 then boards
    else if !AreBoardsEqual(prev, boards) then boards
    else prev
  }

  /** The new list of `updateBoard(boardId, patch)` over the current `bs`. */
  function UpdatedBoards(bs: seq<Board>, boardId: string, patch: BoardPatch): seq<Board> {
    seq(|bs|, i requires 0 <= i < |bs| => if bs[i].id == boardId then Merge(bs[i], patch) else bs[i])
  }

  class Store {
    var boardList: seq<Board>

    /** The store starts with no boards. */
    constructor ()
      ensures boardList == []
    {
      boardList := [];
    }

    /** `setBoardList(boards)` */
    method SetBoardList(boards: seq<Board>)
      modifies this
      ensures boardList == GuardedReplace(old(boardList), boards)
    {
      var prevBoards := boardList;
      if |prevBoards| == 0 {
        boardList := boards;
      } else if !AreBoardsEqual(prevBoards, boards) {
        boardList := boards;
      }
    }

    /** `updateBoard(boardId, patch)` */
    method UpdateBoard(boardId: string, patch: BoardPatch)
      modifies this
      ensures boardList == UpdatedBoards(old(boardList), boardId, patch)
    {
      boardList := UpdatedBoards(boardList, boardId, patch);
    }
  }

  /** Whatever the store held, after `setBoardList(boards)` it holds a list equal
      to `boards`: `boards` itself when the store was empty or the lists differ,
      the old list (already equal) otherwise. */
  lemma GuardedReplaceSettles(prev: seq<Board>, boards: seq<Board>)
    ensures AreBoardsEqual(GuardedReplace(prev, boards), boards)
    ensures |prev| == 0 ==> GuardedReplace(prev, boards) == boards
    ensures |prev| != 0 && !AreBoardsEqual(prev, boards) ==> GuardedReplace(prev, boards) == boards
    ensures AreBoardsEqual(prev, boards) && |prev| != 0 ==> GuardedReplace(prev, boards) == prev
  {
    AreBoardsEqualReflexive(boards);
  }

  /** Setting the same list twice has the effect of setting it once. */
  lemma GuardedReplaceIdempotent(prev: seq<Board>, boards: seq<Board>)
    ensures GuardedReplace(GuardedReplace(prev, boards), boards) == GuardedReplace(prev, boards)
  {
    GuardedReplaceSettles(prev, boards);
  }

  /** A list different from the current one is always stored: this is what lets
      a caller that has just checked `!areBoardsEqual` rely on its new list. */
  lemma GuardedReplaceDifferent(prev: seq<Board>, boards: seq<Board>)
    requires !AreBoardsEqual(prev, boards)
    ensures GuardedReplace(prev, boards) == boards
  {
  }

  /** `updateBoard` keeps the length, applies the patch to every board with the
      id, and leaves every other board as it was. */
  lemma UpdatedBoardsFrame(bs: seq<Board>, boardId: string, patch: BoardPatch)
    ensures |UpdatedBoards(bs, boardId, patch)| == |bs|
    ensures forall i :: 0 <= i < |bs| && bs[i].id != boardId ==> UpdatedBoards(bs, boardId, patch)[i] == bs[i]
    ensures forall i :: 0 <= i < |bs| && bs[i].id == boardId ==> UpdatedBoards(bs, boardId, patch)[i] == Merge(bs[i], patch)
  {
  }

  /** `updateBoard` with an id no board has changes nothing. */
  lemma UpdatedBoardsUnknownId(bs: seq<Board>, boardId: string, patch: BoardPatch)
    requires BoardIndex(bs, boardId) == -1
    ensures UpdatedBoards(bs, boardId, patch) == bs
  {
  }
}
