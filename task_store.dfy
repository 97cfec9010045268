/**
 * The task store of app/lib/store.ts: a `boards` list replaced wholesale by
 * `setBoards`, and `onTaskMove`, which takes a task out of one board and
 * appends it to another.
 */
module TaskStore {
  import opened Wrappers
  import opened JsArray
  import opened Kanban

  /** The new list of `onTaskMove(taskId, fromBoardId, toBoardId)` over `bs`. */
  function TaskMoved(bs: seq<Board>, taskId: string, fromBoardId: string, toBoardId: string): seq<Board> {
    var fi := BoardIndex(bs, fromBoardId);
    var ti := BoardIndex(bs, toBoardId);
    if fi == -1 || ti == -1 then bs
    else
      var k := TaskIndex(TasksOf(bs[fi]), taskId);
      if k == -1 then bs
      else
        var task := TasksOf(bs[fi])[k];
        var updatedFrom := bs[fi].(tasks := Some(Without(TasksOf(bs[fi]), taskId)));
        var updatedTo := bs[ti].(tasks := Some(TasksOf(bs[ti]) + [task]));
        ReplaceMoved(bs, updatedFrom, updatedTo)
  }

  class Store {
    var boards: seq<Board>

    /** The store starts with no boards. */
    constructor ()
      ensures boards == []
    {
      boards := [];
    }

    /** `setBoards(boards)`: the list is replaced as given. */
    method SetBoards(newBoards: seq<Board>)
      modifies this
      ensures boards == newBoards
    {
      boards := newBoards;
    }

    /** `onTaskMove(taskId, fromBoardId, toBoardId)` */
    method OnTaskMove(taskId: string, fromBoardId: string, toBoardId: string)
      modifies this
      ensures boards == TaskMoved(old(boards), taskId, fromBoardId, toBoardId)
    {
      var fromIndex := BoardIndex(boards, fromBoardId);
      var toIndex := BoardIndex(boards, toBoardId);
      if fromIndex == -1 || toIndex == -1 {
        return;
      }
      var fromBoard, toBoard := boards[fromIndex], boards[toIndex];
      var k := TaskIndex(TasksOf(fromBoard), taskId);
      if k == -1 {
        return;
      }
      var task := TasksOf(fromBoard)[k];
      var updatedFromBoard := fromBoard.(tasks := Some(Without(TasksOf(fromBoard), taskId)));
      var updatedToBoard := toBoard.(tasks := Some(TasksOf(toBoard) + [task]));
      boards := ReplaceMoved(boards, updatedFromBoard, updatedToBoard);
    }
  }

  /** An unknown source or destination board leaves the list as it was. */
  lemma TaskMovedUnknownBoard(bs: seq<Board>, taskId: string, fromBoardId: string, toBoardId: string)
    requires BoardIndex(bs, fromBoardId) == -1 || BoardIndex(bs, toBoardId) == -1
    ensures TaskMoved(bs, taskId, fromBoardId, toBoardId) == bs
  {
  }

  /** A task the source board does not hold leaves the list as it was. */
  lemma TaskMovedUnknownTask(bs: seq<Board>, taskId: string, fromBoardId: string, toBoardId: string)
    requires BoardIndex(bs, fromBoardId) != -1
    requires !HasTask(bs[BoardIndex(bs, fromBoardId)], taskId)
    ensures TaskMoved(bs, taskId, fromBoardId, toBoardId) == bs
  {
  }

  /** A successful move keeps the boards (count, ids, sequence), takes every task
      with the id off the source board, appends the task to the end of the
      destination board, and leaves every other board identical. */
  lemma TaskMovedSuccess(bs: seq<Board>, taskId: string, fromBoardId: string, toBoardId: string)
    requires BoardIndex(bs, fromBoardId) != -1 && BoardIndex(bs, toBoardId) != -1
    requires HasTask(bs[BoardIndex(bs, fromBoardId)], taskId)
    requires fromBoardId != toBoardId
    ensures var r := TaskMoved(bs, taskId, fromBoardId, toBoardId);
      var from := bs[BoardIndex(bs, fromBoardId)];
      var to := bs[BoardIndex(bs, toBoardId)];
      var task := TasksOf(from)[TaskIndex(TasksOf(from), taskId)];
      && |r| == |bs|
      && (forall i :: 0 <= i < |bs| ==> r[i].id == bs[i].id)
      && (forall i :: 0 <= i < |bs| && bs[i].id != fromBoardId && bs[i].id != toBoardId ==> r[i] == bs[i])
      && (forall i :: 0 <= i < |bs| && bs[i].id == fromBoardId ==>
            r[i] == from.(tasks := Some(Without(TasksOf(from), taskId))))
      && (forall i :: 0 <= i < |bs| && bs[i].id == toBoardId ==>
            r[i] == to.(tasks := Some(TasksOf(to) + [task])))
      && task.id == taskId
  {
  }

  /** With distinct ids, a successful move keeps the total number of tasks, and the
      source board loses exactly the moved task, the others in their order. */
  lemma TaskMovedKeepsTasks(bs: seq<Board>, taskId: string, fromBoardId: string, toBoardId: string)
    requires UniqueIds(bs)
    requires BoardIndex(bs, fromBoardId) != -1 && BoardIndex(bs, toBoardId) != -1
    requires HasTask(bs[BoardIndex(bs, fromBoardId)], taskId)
    requires fromBoardId != toBoardId
    ensures TotalTasks(TaskMoved(bs, taskId, fromBoardId, toBoardId)) == TotalTasks(bs)
    ensures var fi := BoardIndex(bs, fromBoardId);
      TasksOf(TaskMoved(bs, taskId, fromBoardId, toBoardId)[fi])
        == RemoveAt(TasksOf(bs[fi]), TaskIndex(TasksOf(bs[fi]), taskId))
  {
    var fi, ti := BoardIndex(bs, fromBoardId), BoardIndex(bs, toBoardId);
    var from, to := bs[fi], bs[ti];
    var k := TaskIndex(TasksOf(from), taskId);
    var updatedFrom := from.(tasks := Some(Without(TasksOf(from), taskId)));
    var updatedTo := to.(tasks := Some(TasksOf(to) + [TasksOf(from)[k]]));
    WithoutUnique(TasksOf(from), taskId);
    ReplaceMovedUnique(bs, fi, ti, updatedFrom, updatedTo);
    TotalTasksUpdate(bs, fi, updatedFrom);
    TotalTasksUpdate(bs[fi := updatedFrom], ti, updatedTo);
  }

  /** When source and destination are the same board, the source branch of the
      rebuild wins: the task is removed and not added back. */
  lemma TaskMovedSameBoard(bs: seq<Board>, taskId: string, boardId: string)
    requires BoardIndex(bs, boardId) != -1
    requires HasTask(bs[BoardIndex(bs, boardId)], taskId)
    ensures var r := TaskMoved(bs, taskId, boardId, boardId);
      var b := bs[BoardIndex(bs, boardId)];
      forall i :: 0 <= i < |bs| && bs[i].id == boardId ==>
        r[i] == b.(tasks := Some(Without(TasksOf(b), taskId))) && !HasTask(r[i], taskId)
  {
    var b := bs[BoardIndex(bs, boardId)];
    var w := Without(TasksOf(b), taskId);
    assert TaskIndex(w, taskId) == -1;
  }

  /** `onTaskMove` keeps board ids distinct and every task id on one board, once:
      between two boards the task leaves its board for one that did not hold its
      id, and on one board it is only removed. */
  lemma TaskMovedKeepsUniqueIds(bs: seq<Board>, taskId: string, fromBoardId: string, toBoardId: string)
    requires UniqueIds(bs)
    ensures UniqueIds(TaskMoved(bs, taskId, fromBoardId, toBoardId))
  {
    var fi, ti := BoardIndex(bs, fromBoardId), BoardIndex(bs, toBoardId);
    if fi != -1 && ti != -1 && TaskIndex(TasksOf(bs[fi]), taskId) != -1 {
      var k := TaskIndex(TasksOf(bs[fi]), taskId);
      var task := TasksOf(bs[fi])[k];
      var updatedFrom := bs[fi].(tasks := Some(Without(TasksOf(bs[fi]), taskId)));
      if fi != ti {
        assert !HasTask(bs[ti], TasksOf(bs[fi])[k].id);
        AppendKeepsUniqueTaskIds(TasksOf(bs[ti]), task);
        MoveBetweenKeepsUniqueIds(bs, fi, ti, taskId, TasksOf(bs[ti]) + [task]);
      } else {
        var r := TaskMoved(bs, taskId, fromBoardId, toBoardId);
        forall i | 0 <= i < |bs| ensures r[i] == bs[fi := updatedFrom][i] {
          if i != fi { assert bs[i].id != bs[fi].id; }
        }
        WithoutKeepsUniqueIds(bs, fi, taskId);
      }
    }
  }
}
