/**
 * The editing helpers of app/components/kanbanboard/BoardListTest.tsx over the
 * board store: retitling one task, appending a new task to a board, and the
 * ids of the most recently created task and board (which get the focus).
 */
module BoardListTest {
  import opened Wrappers
  import opened Kanban
  import BoardStore

  /** `tasks.map(task => task.id === taskId && task.title !== newTitle ? { ...task, title: newTitle } : task)` */
  function RetitledTasks(ts: seq<Task>, taskId: string, newTitle: string): (r: seq<Task>)
    ensures |r| == |ts|
  {
    seq(|ts|, j requires 0 <= j < |ts| =>
      if ts[j].id == taskId && ts[j].title != newTitle then ts[j].(title := newTitle) else ts[j])
  }

  /** The board list after `handleTaskChange(taskId, newTitle)`. */
  function TaskChanged(bs: seq<Board>, taskId: string, newTitle: string): seq<Board> {
    var o := OwnerIndex(bs, taskId);
    if o == -1 then bs
    else BoardStore.UpdatedBoards(bs, bs[o].id, BoardStore.TasksPatch(RetitledTasks(TasksOf(bs[o]), taskId, newTitle)))
  }

  /** The board list after `handleTaskCreated(boardId, newTask)`. */
  function TaskCreated(bs: seq<Board>, boardId: string, newTask: Task): seq<Board> {
    var i := BoardIndex(bs, boardId);
    if i == -1 then bs
    else BoardStore.UpdatedBoards(bs, boardId, BoardStore.TasksPatch(TasksOf(bs[i]) + [newTask]))
  }

  class BoardListView {
    const store: BoardStore.Store
    var newTaskId: Option<string>
    var newBoardId: Option<string>

    /** No task and no board has been created yet. */
    constructor (store: BoardStore.Store)
      ensures this.store == store
      ensures newTaskId.None? && newBoardId.None?
    {
      this.store := store;
      newTaskId := None;
      newBoardId := None;
    }

    /** `handleTaskChange`: the board holding the task gets its task array with
        that task retitled, through `updateBoard`; an unknown task changes nothing. */
    method HandleTaskChange(taskId: string, newTitle: string)
      modifies store
      ensures store.boardList == TaskChanged(old(store.boardList), taskId, newTitle)
    {
      var boardList := store.boardList;
      var o := OwnerIndex(boardList, taskId);
      if o == -1 {
        return;
      }
      var board := boardList[o];
      var updatedTasks := RetitledTasks(TasksOf(board), taskId, newTitle);
      store.UpdateBoard(board.id, BoardStore.TasksPatch(updatedTasks));
    }

    /** `handleTaskCreated`: the task is appended to the board's tasks and becomes
        the newest task; an unknown board changes nothing at all. */
    method HandleTaskCreated(boardId: string, newTask: Task)
      modifies this, store
      ensures store.boardList == TaskCreated(old(store.boardList), boardId, newTask)
      ensures newTaskId == if BoardIndex(old(store.boardList), boardId) == -1 then old(newTaskId) else Some(newTask.id)
      ensures newBoardId == old(newBoardId)
    {
      var boardList := store.boardList;
      var i := BoardIndex(boardList, boardId);
      if i == -1 {
        return;
      }
      var board := boardList[i];
      store.UpdateBoard(boardId, BoardStore.TasksPatch(TasksOf(board) + [newTask]));
      newTaskId := Some(newTask.id);
    }

    /** `handleBoardCreated`: the board becomes the newest board. */
    method HandleBoardCreated(boardId: string)
      modifies this
      ensures newBoardId == Some(boardId)
      ensures newTaskId == old(newTaskId)
    {
      newBoardId := Some(boardId);
    }
  }

  /** Retitling keeps every task's id and order, gives every task with the id the
      new title, and leaves every other task as it was. */
  lemma RetitledTasksSpec(ts: seq<Task>, taskId: string, newTitle: string)
    ensures var r := RetitledTasks(ts, taskId, newTitle);
      forall j :: 0 <= j < |ts| ==>
        && r[j].id == ts[j].id && r[j].order == ts[j].order
        && r[j].title == (if ts[j].id == taskId then newTitle else ts[j].title)
        && (ts[j].id != taskId ==> r[j] == ts[j])
  {
  }

  /** Retitling to the title the task already has gives the same tasks back: the
      `title !==` guard makes the edit idempotent. */
  lemma RetitledTasksIdempotent(ts: seq<Task>, taskId: string, newTitle: string)
    ensures RetitledTasks(RetitledTasks(ts, taskId, newTitle), taskId, newTitle) == RetitledTasks(ts, taskId, newTitle)
    ensures (forall j :: 0 <= j < |ts| && ts[j].id == taskId ==> ts[j].title == newTitle) ==>
      RetitledTasks(ts, taskId, newTitle) == ts
  {
  }

  /** A task no board holds changes nothing. */
  lemma TaskChangedUnknownTask(bs: seq<Board>, taskId: string, newTitle: string)
    requires OwnerIndex(bs, taskId) == -1
    ensures TaskChanged(bs, taskId, newTitle) == bs
  {
  }

  /** With distinct ids, a title change retitles exactly the tasks with that id:
      every board keeps its id, its fields and the presence of its task array,
      every task keeps its position, id and order, and only its title can change. */
  lemma TaskChangedRetitlesOnlyThatTask(bs: seq<Board>, taskId: string, newTitle: string)
    requires UniqueIds(bs)
    ensures var r := TaskChanged(bs, taskId, newTitle);
      && |r| == |bs|
      && forall i :: 0 <= i < |bs| ==>
        && r[i].id == bs[i].id && r[i].title == bs[i].title && r[i].order == bs[i].order
        && r[i].tasks.Some? == bs[i].tasks.Some?
        && |TasksOf(r[i])| == |TasksOf(bs[i])|
        && forall p :: 0 <= p < |TasksOf(bs[i])| ==>
          && TasksOf(r[i])[p].id == TasksOf(bs[i])[p].id
          && TasksOf(r[i])[p].order == TasksOf(bs[i])[p].order
          && TasksOf(r[i])[p].title == (if TasksOf(bs[i])[p].id == taskId then newTitle else TasksOf(bs[i])[p].title)
  {
    var o := OwnerIndex(bs, taskId);
    if o != -1 {
      var r := TaskChanged(bs, taskId, newTitle);
      var nt := RetitledTasks(TasksOf(bs[o]), taskId, newTitle);
      BoardStore.UpdatedBoardsFrame(bs, bs[o].id, BoardStore.TasksPatch(nt));
      RetitledTasksSpec(TasksOf(bs[o]), taskId, newTitle);
      forall i | 0 <= i < |bs|
        ensures r[i].tasks.Some? == bs[i].tasks.Some?
        ensures |TasksOf(r[i])| == |TasksOf(bs[i])|
        ensures forall p :: 0 <= p < |TasksOf(bs[i])| ==>
          && TasksOf(r[i])[p].id == TasksOf(bs[i])[p].id
          && TasksOf(r[i])[p].order == TasksOf(bs[i])[p].order
          && TasksOf(r[i])[p].title == (if TasksOf(bs[i])[p].id == taskId then newTitle else TasksOf(bs[i])[p].title)
      {
        if i == o {
          assert bs[o].tasks.Some?;
        } else {
          assert bs[i].id != bs[o].id by {
            assert UniqueBoardIds(bs);
            if i < o { assert bs[i].id != bs[o].id; } else { assert bs[o].id != bs[i].id; }
          }
          forall p | 0 <= p < |TasksOf(bs[i])| ensures TasksOf(bs[i])[p].id != taskId {
            assert !HasTask(bs[o], TasksOf(bs[i])[p].id);
          }
        }
      }
    }
  }

  /** An unknown board changes nothing. */
  lemma TaskCreatedUnknownBoard(bs: seq<Board>, boardId: string, newTask: Task)
    requires BoardIndex(bs, boardId) == -1
    ensures TaskCreated(bs, boardId, newTask) == bs
  {
  }

  /** A created task is appended to the END of its board's tasks (an absent task
      array becoming a one-task one), every other board is left as it was, and with
      distinct board ids the number of tasks grows by exactly one. */
  lemma TaskCreatedAppends(bs: seq<Board>, boardId: string, newTask: Task)
    requires BoardIndex(bs, boardId) != -1
    ensures var r := TaskCreated(bs, boardId, newTask);
      var b := bs[BoardIndex(bs, boardId)];
      && |r| == |bs|
      && (forall i :: 0 <= i < |bs| && bs[i].id != boardId ==> r[i] == bs[i])
      && (forall i :: 0 <= i < |bs| && bs[i].id == boardId ==>
            r[i] == bs[i].(tasks := Some(TasksOf(b) + [newTask])))
    ensures UniqueBoardIds(bs) ==> TotalTasks(TaskCreated(bs, boardId, newTask)) == TotalTasks(bs) + 1
  {
    var i := BoardIndex(bs, boardId);
    var b := bs[i];
    var patch := BoardStore.TasksPatch(TasksOf(b) + [newTask]);
    BoardStore.UpdatedBoardsFrame(bs, boardId, patch);
    if UniqueBoardIds(bs) {
      var r := TaskCreated(bs, boardId, newTask);
      var nb := b.(tasks := Some(TasksOf(b) + [newTask]));
      assert r == bs[i := nb] by {
        forall j | 0 <= j < |bs| ensures r[j] == bs[i := nb][j] {
          if j != i {
            if j < i { assert bs[j].id != bs[i].id; } else { assert bs[i].id != bs[j].id; }
          }
        }
      }
      TotalTasksUpdate(bs, i, nb);
    }
  }
}
