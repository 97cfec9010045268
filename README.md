# Kanban drag-and-drop reconciliation, in Dafny

This project models the part of a Next.js kanban board (JSO_ToDoPage) that rearranges the
board list when a user drags a board or a task. A board has an id, a title, an `order` and an
optional task array. A task has an id, a title and an `order`.

- **Drag hook.** `useDragAndDrop` classifies a drop as one of three gestures and computes the
  new list for it: a board reorder, a reorder inside one board, or a move to another board.
  It stores the list only when the `areBoardsEqual` change test says it differs. It records
  the remote calls it issues: order writes and `updateTaskBoard`. When `updateTaskBoard`
  fails, it puts the list from before the drop back. While the pointer is over another board,
  its drag-over handler previews the cross-board move in the store.
- **Older drop handler.** `BoardList` does the same job over the task store, with no change
  test and no rollback. It appends a moved task at the end of its destination.
- **Stores.** `useBoardStore` has `setBoardList`, which replaces the list only when it is
  empty or the new one differs, and `updateBoard`, which merges a patch by board id. The task
  store in `app/lib/store.ts` has `setBoards` and `onTaskMove`.
- **Editing helpers.** `BoardListTest` retitles a task and appends a new task.
- **No-drag filter.** `useCustomSensors` refuses to start a drag when the pressed element, or
  any of its ancestors, carries a non-empty `data-no-dnd` attribute.

Modules:

- `Wrappers`: `Option`.
- `JsArray`: `slice` index normalisation, splice-style removal and insertion, and the
  `arrayMove` of the sortable library.
- `Kanban`: the entities, the `find`/`findIndex`/`filter`/`map` lookups, the id-uniqueness
  invariant, the order writes and the drop plans.
- `BoardEquality`: `areBoardsEqual`.
- `BoardStore`, `TaskStore`: the two stores.
- `DragAndDrop`: the drag hook.
- `BoardList`: the older drop handler.
- `BoardListTest`: the editing helpers.
- `CustomSensors`: the no-drag filter.

The stores, the hook's dragging state, the view's "newest id" state and the DOM elements are
classes whose methods update their fields. Each method is specified by a function of the old
state, and the lemmas are proved about those functions.

Three behaviours of the code are easy to misread. The model follows the code in each:

- **`arrayMove`.** The library puts the moved element AT the target index. So t1 dropped on
  t3 in [t1,t2,t3] gives [t2,t3,t1]. A negative target counts from the end of the original
  array, so -1 means "last".
- **Target index.** `findIndex(...) ?? length` never falls back to the length, because
  `findIndex` answers -1, not `undefined`. So in the drag hook a task dropped on the body of a
  board that has tasks lands before its last task. `DragEndOverBoardQuirk` states this.
- **Same-board drop on the board itself.** In the drag hook, `newTaskIndex` is -1 here and the
  `!== undefined` guard lets it through. `arrayMove(tasks, i, -1)` then moves the task to the
  end of the board. `DragEndSameBoardOnBoard` states this.

## Model

| member | source | states |
|---|---|---|
| JsArray.RelativeIndex | app/hooks/useDragAndDrop.ts:102-104 | `slice` clamps its index into 0..len, counting a negative index from the end. |
| JsArray.InsertAt | app/hooks/useDragAndDrop.ts:101-105 | `[...slice(0,i), x, ...slice(i)]` has one more element, with `x` at the normalised index. |
| JsArray.InsertAtInverse | app/hooks/useDragAndDrop.ts:101-105 | Removing `x` again at the normalised index gives the array back, and the multiset gains exactly `x`. |
| JsArray.RemoveAt | app/hooks/useDragAndDrop.ts:163-167 | The splice-out half of `arrayMove`: one element fewer, the elements before the index in place and those after it shifted down by one. |
| JsArray.RemoveAtMultiset | app/hooks/useDragAndDrop.ts:163-167 | The multiset loses exactly the removed element. |
| JsArray.RemoveInsertRoundTrip | app/hooks/useDragAndDrop.ts:163-167 | Taking an element out and putting it back at the same index restores the array. |
| JsArray.MoveTarget | app/hooks/useDragAndDrop.ts:213-217 | The index `arrayMove` puts the element at is always inside the array. |
| JsArray.ArrayMove | app/hooks/useDragAndDrop.ts:163-167 | `arrayMove(a, from, to)` keeps the length and puts `a[from]` at the target index. |
| JsArray.ArrayMovePermutation | app/hooks/useDragAndDrop.ts:163-167 | The result is a permutation of `a`. Removing the moved element at the target gives `a` without `a[from]`, the others in their original order. |
| JsArray.ArrayMoveAt | app/hooks/useDragAndDrop.ts:213-217 | Every position of the result holds the element from one source position (`MoveSource`). |
| JsArray.MoveSourceInjective | app/hooks/useDragAndDrop.ts:213-217 | Different result positions come from different source positions. |
| JsArray.ArrayMoveToLast | app/hooks/useDragAndDrop.ts:208-216 | A move to -1 takes the element out and appends it at the end. |
| JsArray.ArrayMoveOntoItself | app/hooks/useDragAndDrop.ts:163-167 | Moving an element onto its own index changes nothing. |
| Kanban.BoardIndex | app/hooks/useDragAndDrop.ts:159-160 | `findIndex` by board id gives the first board with that id, or -1 exactly when none has it. |
| Kanban.TaskIndex | app/hooks/useDragAndDrop.ts:207-210 | `findIndex` by task id gives the first task with that id, or -1 exactly when none has it. |
| Kanban.OwnerIndex | app/hooks/useDragAndDrop.ts:183-185 | `find` of the board holding a task gives the first board that holds it, or none exactly when no board does. |
| Kanban.FindTask | app/hooks/useDragAndDrop.ts:49-51 | A found task has the id and is one of the listed tasks. With no result, no task on any board has that id. |
| Kanban.AllTasks | app/hooks/useDragAndDrop.ts:49-50 | `flatMap(board => board.tasks || [])`: every board's tasks, in board order, none for a board without a task array. `FindTaskInOwner` states what a search in it finds. |
| Kanban.TaskIndexAppend | app/hooks/useDragAndDrop.ts:49-51 | `findIndex` over a concatenation finds a hit in the first part first, else the hit in the second part shifted past the first, else -1. |
| Kanban.FindTaskInOwner | app/hooks/useDragAndDrop.ts:76-82 | The task found in the flattened list is the first task with that id on the first board holding one, and there is none exactly when no board holds one. So the two-step lookup of the drop target ends on the board holding `overId`. |
| Kanban.Without | app/hooks/useDragAndDrop.ts:237 | `filter` leaves no task with the id and never grows the array. |
| Kanban.WithoutUnique | app/hooks/useDragAndDrop.ts:237 | With distinct task ids, the filter removes exactly the one task with that id, keeping the others in order. |
| Kanban.WithoutInsert | app/hooks/useDragAndDrop.ts:237-250 | Filtering an id out of tasks that did not hold it, after inserting a task with that id anywhere, gives the tasks back. |
| Kanban.ReplaceTasks | app/hooks/useDragAndDrop.ts:218-220 | The `map` gives each board with the id the new task array and leaves every other board identical. |
| Kanban.ReplaceMoved | app/hooks/useDragAndDrop.ts:253-259 | The rebuild keeps the length and every board id, and leaves boards with neither id identical. |
| Kanban.ReplaceTasksUnique | app/hooks/useDragAndDrop.ts:218-220 | With distinct board ids, the `map` replaces exactly one board: the one at the owner's index. |
| Kanban.ReplaceMovedUnique | app/hooks/useDragAndDrop.ts:253-259 | With distinct board ids, the rebuild replaces exactly the source and the destination, at their own indices. |
| Kanban.BoardOrderWritesNumberPositions | app/hooks/useDragAndDrop.ts:172-176 | With distinct board ids, the board order writes give each board exactly one write: its index. Boards not in the list get none. |
| Kanban.TaskOrderWritesNumberPositions | app/hooks/useDragAndDrop.ts:225-227 | With distinct task ids, the task order writes give each task exactly one write: its index (so all are ≥ 0). Absent tasks get none. |
| Kanban.BoardOrderWrites | app/hooks/useDragAndDrop.ts:172-176 | One `updateBoardOrder` per board, in list order; `BoardOrderWritesNumberPositions` states that each board is written once with its index. |
| Kanban.TaskOrderWrites | app/hooks/useDragAndDrop.ts:225-227 | One `updateTaskOrder` per task, in array order; `TaskOrderWritesNumberPositions` states that each task is written once with its index. |
| Kanban.TotalTasksPermutation | app/hooks/useDragAndDrop.ts:163-167 | Reordering the boards keeps the number of tasks. |
| Kanban.ArrayMoveUniqueBoardIds | app/hooks/useDragAndDrop.ts:163-167 | Reordering the boards keeps board ids distinct. |
| Kanban.ArrayMoveUniqueTaskIds | app/hooks/useDragAndDrop.ts:213-217 | Reordering a board's tasks keeps task ids distinct. |
| Kanban.ReplaceOneKeepsUniqueIds | app/hooks/useDragAndDrop.ts:218-220 | Giving one board new tasks keeps every id distinct when the new tasks have distinct ids and no other board holds any of them. |
| Kanban.ReplaceBySubsetKeepsUniqueIds | app/hooks/useDragAndDrop.ts:218-220 | New tasks for a board, all taken from its own tasks and with distinct ids, keep every id distinct. |
| Kanban.WithoutKeepsUniqueIds | app/hooks/useDragAndDrop.ts:237 | Filtering a task out of its board keeps every id distinct. |
| Kanban.ArrayMoveTasksKeepsUniqueIds | app/hooks/useDragAndDrop.ts:213-220 | Reordering one board's tasks keeps every id distinct. |
| Kanban.ArrayMoveKeepsUniqueIds | app/hooks/useDragAndDrop.ts:163-167 | Reordering the boards keeps board ids distinct and every task id on one board, once. |
| Kanban.InsertAtKeepsUniqueTaskIds | app/hooks/useDragAndDrop.ts:246-250 | Inserting a task whose id the array lacks keeps task ids distinct, and every element is that task or one of the array's. |
| Kanban.AppendKeepsUniqueTaskIds | app/components/kanbanboard/BoardList.tsx:109-112 | Appending a task whose id the array lacks keeps task ids distinct, and every element is that task or one of the array's. |
| Kanban.MoveBetweenKeepsUniqueIds | app/hooks/useDragAndDrop.ts:235-259 | Filtering a task out of its board and giving another board new tasks, each the moved task or one the destination held, with distinct ids, keeps every id distinct. |
| BoardEquality.AreBoardsEqualIffSameShape | app/hooks/useDragAndDrop.ts:20-36 | The change test holds exactly when both lists have the same board ids, titles, orders and task-array presence in sequence, and the same task ids and titles in each. |
| BoardEquality.SameTasks | app/hooks/useDragAndDrop.ts:28-33 | Both task arrays absent, or both present with equal lengths and the same id and title at every position; task `order` is not compared. Characterised by `AreBoardsEqualIffSameShape`. |
| BoardEquality.SameBoard | app/hooks/useDragAndDrop.ts:25-33 | One position of the test: same id, title and order, and `SameTasks`. Characterised by `SameBoardIffSameShape`. |
| BoardEquality.AreBoardsEqual | app/hooks/useDragAndDrop.ts:20-36 | `areBoardsEqual`: equal lengths and `SameBoard` at every position. Characterised by `AreBoardsEqualIffSameShape`. |
| BoardEquality.SameBoardIffSameShape | app/hooks/useDragAndDrop.ts:25-33 | One position of the test holds exactly when the two boards have the same shape. |
| BoardEquality.AreBoardsEqualReflexive | app/store/useBoardStore.ts:5-21 | Every list equals itself. |
| BoardEquality.AreBoardsEqualSymmetric | app/hooks/useDragAndDrop.ts:20-36 | The test does not depend on argument order. |
| BoardEquality.AreBoardsEqualTransitive | app/hooks/useDragAndDrop.ts:20-36 | Lists equal to a common list are equal. |
| BoardEquality.AreBoardsEqualLength | app/hooks/useDragAndDrop.ts:21 | Lists of different lengths are never equal. |
| BoardEquality.TaskOrderIgnored | app/hooks/useDragAndDrop.ts:25-33 | Any two lists that agree, position by position, on every board field and on every task field but `order` compare equal. |
| BoardEquality.RenumberingIgnored | app/hooks/useDragAndDrop.ts:225-227 | Giving every task its index as `order`, as the order writes persist it, is invisible to the change test. |
| BoardEquality.AbsentTasksDifferFromEmpty | app/hooks/useDragAndDrop.ts:28 | A board with no task array differs from the same board with an empty one. |
| BoardStore.Merge | app/store/useBoardStore.ts:46 | `{...board, ...patch}`: every field the patch carries wins and every other field is kept. |
| BoardStore.GuardedReplace | app/store/useBoardStore.ts:32-41 | `setBoardList`'s rule: the new list when the store is empty or the lists differ, else the old list. Its properties are the `GuardedReplace…` lemmas. |
| BoardStore.UpdatedBoards | app/store/useBoardStore.ts:43-48 | `updateBoard`'s `map`: every board with the id merged with the patch. `UpdatedBoardsFrame` and `UpdatedBoardsUnknownId` state its properties. |
| BoardStore.Store.SetBoardList | app/store/useBoardStore.ts:32-41 | The new list is `GuardedReplace` of the old list and the argument. |
| BoardStore.Store.UpdateBoard | app/store/useBoardStore.ts:43-48 | The new list is `UpdatedBoards` of the old list. |
| BoardStore.GuardedReplaceSettles | app/store/useBoardStore.ts:32-41 | After `setBoardList(b)` the store always holds a list equal to `b`. It holds `b` itself when the store was empty or the lists differ, and keeps the old list otherwise. |
| BoardStore.GuardedReplaceIdempotent | app/store/useBoardStore.ts:32-41 | Setting the same list twice is the same as setting it once. |
| BoardStore.GuardedReplaceDifferent | app/store/useBoardStore.ts:37-39 | A list that differs under the test is always stored. |
| BoardStore.UpdatedBoardsFrame | app/store/useBoardStore.ts:43-48 | `updateBoard` keeps the length, patches every board with the id and leaves every other board identical. |
| BoardStore.UpdatedBoardsUnknownId | app/store/useBoardStore.ts:45-46 | An unknown board id changes nothing. |
| TaskStore.Store.SetBoards | app/lib/store.ts:12 | The list is replaced as given. |
| TaskStore.Store.OnTaskMove | app/lib/store.ts:13-44 | The new list is `TaskMoved` of the old one. |
| TaskStore.TaskMoved | app/lib/store.ts:13-44 | `onTaskMove` as a function of the list: both boards looked up by id, the task found on the source, the source filtered and the task appended to the destination. Its properties are the `TaskMoved…` lemmas. |
| TaskStore.TaskMovedUnknownBoard | app/lib/store.ts:15-18 | An unknown source or destination board leaves the list unchanged. |
| TaskStore.TaskMovedUnknownTask | app/lib/store.ts:20-21 | A task the source does not hold leaves the list unchanged. |
| TaskStore.TaskMovedSuccess | app/lib/store.ts:24-41 | Count and ids are kept. The source loses every task with the id, the task is appended to the end of the destination, and all other boards are identical. |
| TaskStore.TaskMovedKeepsTasks | app/lib/store.ts:24-41 | With distinct ids, the total number of tasks is kept and the source loses exactly the moved task. |
| TaskStore.TaskMovedSameBoard | app/lib/store.ts:35-41 | When source and destination are the same board, the source branch wins and the task disappears. |
| TaskStore.TaskMovedKeepsUniqueIds | app/lib/store.ts:13-44 | `onTaskMove` keeps board ids distinct and every task id on one board, once, including when source and destination are the same board. |
| DragAndDrop.DropTargetIndex | app/hooks/useDragAndDrop.ts:188-196 | When a board has the id `over`, the target is the first such board. Otherwise it is the first board holding a task with that id, and -1 exactly when no board holds one. |
| DragAndDrop.DropIntoTasks | app/hooks/useDragAndDrop.ts:240-250 | The destination gains exactly one task: `[task]` when it has no tasks, the task just before the one named `over` when that is found, and just before the last task when it is not. |
| DragAndDrop.FilterTasks | app/hooks/useDragAndDrop.ts:93-99 | The drag-over source board: the dragged task filtered out of a present task array; an absent array stays absent. `DragOverBoardsIsReplaceMoved` relates it to the drop. |
| DragAndDrop.PlanDragOver | app/hooks/useDragAndDrop.ts:63-112 | Drag-over only ever proposes a cross-board move or nothing; `DragOverMoves` states when it moves. |
| DragAndDrop.DragOverMoves | app/hooks/useDragAndDrop.ts:69-112 | Drag-over proposes a move exactly when the dragged task's board and the target board are both found and differ, and the move goes from the one to the other. |
| DragAndDrop.DragOverBoards | app/hooks/useDragAndDrop.ts:93-112 | The drag-over `map`: the source filtered, the destination given its new tasks, every other board kept. `DragOverBoardsIsReplaceMoved` states what it equals. |
| DragAndDrop.PlanDragEnd | app/hooks/useDragAndDrop.ts:158-259 | The drop: a board reorder when both ids name boards, else the task drop. `DragEndKinds` states which kind of plan each case gives. |
| DragAndDrop.PlanTaskDrop | app/hooks/useDragAndDrop.ts:183-259 | The task part of the drop. `TaskDropKinds` states which kind of plan each case gives. |
| DragAndDrop.DragEndKinds | app/hooks/useDragAndDrop.ts:158-259 | A drop is a board reorder exactly when both ids name boards. Otherwise, with both the dragged task's board and the target board found, it is a reorder when they are one board and a move across when they differ, and nothing in every other case. |
| DragAndDrop.TaskDropKinds | app/hooks/useDragAndDrop.ts:183-259 | The task drop does nothing exactly when the dragged task's board or the target board is missing. It reorders when they are one board and moves across when they differ. |
| DragAndDrop.ReorderWithin | app/hooks/useDragAndDrop.ts:213-220 | `arrayMove` of one board's tasks, put in place by `map`. `ReorderWithinSpec` states its properties. |
| DragAndDrop.MoveAcross | app/hooks/useDragAndDrop.ts:235-259 | The task filtered out of the source and inserted into the destination, both put in place. `DragEndCrossBoard` and `MoveAcrossKeepsCount` state its properties. |
| DragAndDrop.DestinationOrderWrites | app/hooks/useDragAndDrop.ts:133-137 | The drag-over order writes: those of the destination's tasks in the moved list, none when it is missing. |
| DragAndDrop.PreviewIssued | app/hooks/useDragAndDrop.ts:114-138 | The drag-over calls: none without a change, else `updateTaskBoard` and, on success, the destination's order writes. |
| DragAndDrop.Committed | app/hooks/useDragAndDrop.ts:156-281 | The list a drop leaves: unchanged without a plan or a change, the pre-drop list after a failed reassignment, the planned list otherwise. `RollbackRestoresSnapshot` states the rollback. |
| DragAndDrop.Issued | app/hooks/useDragAndDrop.ts:156-281 | The calls a drop issues, in order, for each kind of plan. `CrossBoardCallOrder` states the order for a move across. |
| DragAndDrop.DragAndDropHook.HandleDragStart | app/hooks/useDragAndDrop.ts:45-56 | The dragged task and board are remembered only when the active id names one. Otherwise the earlier value is kept. |
| DragAndDrop.DragAndDropHook.HandleDragOver | app/hooks/useDragAndDrop.ts:59-144 | With no target or a drop on itself, nothing happens. Otherwise the stored list and the calls are `Committed` and `PreviewIssued` of the drag-over plan: when `DragOverMoves` says the task moves and the list changes, the preview is stored, then come `updateTaskBoard` and, on success, the destination's order writes. There is no rollback. |
| DragAndDrop.DragAndDropHook.HandleDragEnd | app/hooks/useDragAndDrop.ts:147-282 | The dragging state is always cleared. With no target or a drop on itself, the list and the calls are untouched. Otherwise the stored list and the calls are `Committed` and `Issued` of the plan. A failed board reassignment leaves the snapshot. |
| DragAndDrop.DragAndDropHook.ApplyDrop | app/hooks/useDragAndDrop.ts:156-281 | Stores the planned list when it differs, issues its calls, and re-stores the snapshot when `updateTaskBoard` fails. |
| DragAndDrop.DragEndBoardReorder | app/hooks/useDragAndDrop.ts:159-179 | A board drop gives a permutation with the dragged board at the target's index and the others in order. Its writes number every board by its new index, once each. |
| DragAndDrop.DragEndSameBoardReorder | app/hooks/useDragAndDrop.ts:206-231 | Only the owning board changes. Its tasks are a permutation with the dragged task at the `arrayMove` target, and each task is written once with its index. |
| DragAndDrop.ReorderWithinSpec | app/hooks/useDragAndDrop.ts:213-227 | For any board and indices, with distinct ids: only that board changes, into a permutation with the moved task at the target. Removing it there leaves the other tasks in order. Each task is written once with its index, and the task count is kept. |
| DragAndDrop.ReorderWithinKeepsCount | app/hooks/useDragAndDrop.ts:213-220 | With distinct board ids, a reorder within one board keeps the number of tasks. |
| DragAndDrop.DragEndSameBoardOnBoard | app/hooks/useDragAndDrop.ts:207-217 | A task dropped on its own board moves to the end of that board. |
| DragAndDrop.DragEndCrossBoard | app/hooks/useDragAndDrop.ts:235-259 | The two boards differ. The source has the task filtered out, the destination gets the task inserted, and all other boards are identical. |
| DragAndDrop.DragEndOverTask | app/hooks/useDragAndDrop.ts:240-250 | A task dropped on a task of another board takes that task's index, with the others on both sides in place. |
| DragAndDrop.DragEndOverBoardQuirk | app/hooks/useDragAndDrop.ts:240-250 | A task dropped on a board body that has tasks lands before the last task. |
| DragAndDrop.DropIntoTasksBeforeLast | app/hooks/useDragAndDrop.ts:240-250 | Inserting at the -1 that `findIndex` answers for a missing id puts the task before the last one. |
| DragAndDrop.DragEndDestinationGainsOnce | app/hooks/useDragAndDrop.ts:244-251 | With distinct ids, the destination gains the task once: filtering it out gives the old destination back. |
| DragAndDrop.DropIntoTasksWithout | app/hooks/useDragAndDrop.ts:237-250 | Filtering the inserted task's id out of the destination's new tasks gives its old tasks back, including for a board with no task array. |
| DragAndDrop.DragEndKeepsTaskCount | app/hooks/useDragAndDrop.ts:158-259 | With distinct ids, no drop creates or loses a task. |
| DragAndDrop.TaskDropKeepsTaskCount | app/hooks/useDragAndDrop.ts:183-259 | With distinct ids, no task drop creates or loses a task. |
| DragAndDrop.MoveAcrossKeepsCount | app/hooks/useDragAndDrop.ts:235-259 | With distinct ids, a cross-board move keeps the number of tasks: the source loses exactly the moved task and the destination gains it. |
| DragAndDrop.RollbackRestoresSnapshot | app/hooks/useDragAndDrop.ts:264-280 | For every cross-board plan, when `updateTaskBoard` fails the list is the pre-drop snapshot. That reassignment is the only call, and there is none when the change test found no change. |
| DragAndDrop.CrossBoardCallOrder | app/hooks/useDragAndDrop.ts:261-276 | For every cross-board plan that changes the list, `updateTaskBoard` goes first. The destination's order writes follow, one per task, only on success. |
| DragAndDrop.DragEndDestination | app/hooks/useDragAndDrop.ts:188-197 | A task dropped across boards goes to the board whose id is `over` when there is one, and only otherwise to the board holding the task `over`. |
| DragAndDrop.ReorderWithinKeepsUniqueIds | app/hooks/useDragAndDrop.ts:213-220 | Reordering inside a board keeps every id distinct. |
| DragAndDrop.MoveAcrossKeepsUniqueIds | app/hooks/useDragAndDrop.ts:235-259 | A move across boards keeps every id distinct: the task leaves its board for one that did not hold its id. |
| DragAndDrop.DragEndKeepsUniqueIds | app/hooks/useDragAndDrop.ts:158-259 | Every drop keeps board ids distinct and every task id on one board, once. |
| DragAndDrop.TaskDropKeepsUniqueIds | app/hooks/useDragAndDrop.ts:183-259 | Every task drop keeps every id distinct. |
| DragAndDrop.DragOverNoMove | app/hooks/useDragAndDrop.ts:69-87 | Drag-over does nothing when the source is unresolved, the target is unresolved, or they are the same board. |
| DragAndDrop.DragOverPreviewsDragEnd | app/hooks/useDragAndDrop.ts:93-112 | With distinct ids, the drag-over preview is exactly what a drop on the same target commits. |
| DragAndDrop.DragOverBoardsIsReplaceMoved | app/hooks/useDragAndDrop.ts:93-112 | With distinct board ids, the drag-over `map` equals the drop's two-way rebuild with the filtered source and the extended destination. |
| DragAndDrop.DragOverKeepsUniqueIds | app/hooks/useDragAndDrop.ts:63-112 | The drag-over preview keeps board ids distinct and every task id on one board, once. |
| DragAndDrop.ExampleBoardReorder | app/hooks/useDragAndDrop.ts:162-167 | Dropping B3 on B1 in [B1,B2,B3] gives [B3,B1,B2]. |
| DragAndDrop.ExampleBoardReorderCalls | app/hooks/useDragAndDrop.ts:169-177 | That drop writes orders 0, 1 and 2 for B3, B1 and B2. |
| DragAndDrop.ExampleSameBoardReorder | app/hooks/useDragAndDrop.ts:206-220 | Dropping t1 on t3 in [t1,t2,t3] gives [t2,t3,t1]. |
| DragAndDrop.ExampleMoveToEmptyBoard | app/hooks/useDragAndDrop.ts:235-259 | Moving t2 from A [t1,t2,t3] to an empty B gives A [t1,t3] and B [t2]. |
| BoardList.TaskFirstTargetIndex | app/components/kanbanboard/BoardList.tsx:74-76 | When a board holds a task `over`, the target is the first such board. Otherwise it is the first board whose id is `over`, and -1 exactly when there is none. |
| BoardList.PlanBoardListDrop | app/components/kanbanboard/BoardList.tsx:48-122 | The handler's drop: a board reorder when both ids name boards, else the task drop. `BoardListKinds` states which kind of plan each case gives. |
| BoardList.PlanBoardListTaskDrop | app/components/kanbanboard/BoardList.tsx:68-122 | The task part of the handler. `BoardListKinds` states which kind of plan each case gives. |
| BoardList.BoardListKinds | app/components/kanbanboard/BoardList.tsx:48-122 | The handler stores a board reorder exactly when both ids name boards. Otherwise, with the dragged task's board and the target board found, it stores an append across when they differ and a reorder when they are one board and the target task is on it. In every other case it stores the list unchanged. |
| BoardList.AppendAcross | app/components/kanbanboard/BoardList.tsx:100-122 | The task filtered out of the source and appended to the destination. `AppendAcrossIsOnTaskMove` equates it with `onTaskMove`. |
| BoardList.BoardListIssued | app/components/kanbanboard/BoardList.tsx:57-130 | The handler's calls, in order, for each kind of plan. `BoardListCallOrder` states the order for a move across. |
| BoardList.HandleDragEnd | app/components/kanbanboard/BoardList.tsx:40-132 | With no target or a drop on itself, nothing happens. Otherwise the planned list is stored unconditionally and the calls are `BoardListIssued` of the plan. |
| BoardList.ApplyBoardListDrop | app/components/kanbanboard/BoardList.tsx:57-130 | Stores the planned list and issues its calls, in order. |
| BoardList.BoardListBoardReorder | app/components/kanbanboard/BoardList.tsx:48-64 | A board drop stores `arrayMove(boardList, a, o)`, a permutation with the dragged board at `o`. Its writes number every board once by its new index. |
| BoardList.BoardListSameBoardGuard | app/components/kanbanboard/BoardList.tsx:81-86 | Inside one board, a reorder happens exactly when the target task is found. A drop on the board itself changes nothing. |
| BoardList.BoardListSameBoardReorder | app/components/kanbanboard/BoardList.tsx:86-97 | The reorder is the drag hook's reorder (`DragAndDrop.ReorderWithinSpec`: only that board changes, into a permutation), from the dragged task's index to the target task's. The dragged task lands at exactly that index, and the calls are that board's order writes. |
| BoardList.BoardListDestination | app/components/kanbanboard/BoardList.tsx:74-78 | The destination is the board holding the target task, and only failing that, the board with the target id. |
| BoardList.BoardListCrossBoardAppends | app/components/kanbanboard/BoardList.tsx:100-122 | The task is appended at the end of the destination and filtered out of the source. All other boards are identical. |
| BoardList.BoardListCrossBoardIsOnTaskMove | app/components/kanbanboard/BoardList.tsx:100-122 | With distinct board ids, the cross-board move equals the task store's `onTaskMove`. |
| BoardList.AppendAcrossIsOnTaskMove | app/components/kanbanboard/BoardList.tsx:100-122 | With distinct board ids, the append-and-filter between any two boards equals `onTaskMove` between their ids. |
| BoardList.AppendAcrossKeepsCount | app/components/kanbanboard/BoardList.tsx:100-122 | With distinct ids, that move keeps the number of tasks. |
| BoardList.BoardListKeepsTaskCount | app/components/kanbanboard/BoardList.tsx:48-122 | With distinct ids, no drop creates or loses a task. |
| BoardList.TaskDropKeepsTaskCount | app/components/kanbanboard/BoardList.tsx:68-122 | With distinct ids, no task drop creates or loses a task. |
| BoardList.BoardListKeepsUniqueIds | app/components/kanbanboard/BoardList.tsx:48-122 | Every drop of this handler keeps board ids distinct and every task id on one board, once. |
| BoardList.BoardListCallOrder | app/components/kanbanboard/BoardList.tsx:125-130 | For every cross-board plan, `updateTaskBoard` goes first. The destination's order writes follow, one per task, only on success. |
| BoardListTest.RetitledTasks | app/components/kanbanboard/BoardListTest.tsx:54-58 | The task `map` of `handleTaskChange`. `RetitledTasksSpec` and `RetitledTasksIdempotent` state its properties. |
| BoardListTest.TaskChanged | app/components/kanbanboard/BoardListTest.tsx:48-60 | `handleTaskChange` as a function of the list. `TaskChangedUnknownTask` and `TaskChangedRetitlesOnlyThatTask` state its properties. |
| BoardListTest.TaskCreated | app/components/kanbanboard/BoardListTest.tsx:62-69 | `handleTaskCreated` as a function of the list. `TaskCreatedUnknownBoard` and `TaskCreatedAppends` state its properties. |
| BoardListTest.RetitledTasksSpec | app/components/kanbanboard/BoardListTest.tsx:54-58 | Ids and orders are kept. Every task with the id gets the new title and every other task is unchanged. |
| BoardListTest.RetitledTasksIdempotent | app/components/kanbanboard/BoardListTest.tsx:55 | Retitling twice is retitling once. When the title already matches, nothing changes. |
| BoardListTest.BoardListView.HandleTaskChange | app/components/kanbanboard/BoardListTest.tsx:48-60 | The new list is `TaskChanged` of the old one. |
| BoardListTest.BoardListView.HandleTaskCreated | app/components/kanbanboard/BoardListTest.tsx:62-71 | The new list is `TaskCreated` of the old one. The new task becomes the newest only when its board exists. |
| BoardListTest.BoardListView.HandleBoardCreated | app/components/kanbanboard/BoardListTest.tsx:73-75 | The board becomes the newest board. |
| BoardListTest.TaskChangedUnknownTask | app/components/kanbanboard/BoardListTest.tsx:49-52 | A task that no board holds changes nothing. |
| BoardListTest.TaskChangedRetitlesOnlyThatTask | app/components/kanbanboard/BoardListTest.tsx:48-60 | With distinct ids, board fields and task positions, ids and orders are kept, and exactly the tasks with the id get the new title. |
| BoardListTest.TaskCreatedUnknownBoard | app/components/kanbanboard/BoardListTest.tsx:63-64 | An unknown board changes nothing. |
| BoardListTest.TaskCreatedAppends | app/components/kanbanboard/BoardListTest.tsx:62-69 | The task is appended at the end of its board and other boards are identical. With distinct board ids, the task count grows by one. |
| CustomSensors.IsMarked | app/hooks/useCustomSensors.ts:7 | `element.dataset.noDnd` is truthy: present and non-empty. |
| CustomSensors.Activates | app/hooks/useCustomSensors.ts:6-13 | The walk's answer on a chain of markers: false at the first marked element, true at the end. |
| CustomSensors.ActivatesIffUnmarked | app/hooks/useCustomSensors.ts:5-14 | A drag may start exactly when no element on the chain has a truthy `noDnd`. |
| CustomSensors.Element.constructor | app/hooks/useCustomSensors.ts:10 | An element's chain is its own marker followed by its parent's chain. |
| CustomSensors.CustomHandleEvent | app/hooks/useCustomSensors.ts:5-14 | The ancestor walk answers true for no element, and otherwise `Activates` of the element's chain. |

## Left out

- **Persistence** (`app/lib/actions.ts`). This is not part of this model. Remote calls are
  recorded as values in issue order. Whether `updateTaskBoard` succeeds is a parameter, and the
  order writes are assumed not to fail.
- **Timing.** Not modelled:
  - the `requestAnimationFrame` coalescing of drag-over events;
  - the 300 ms debounce of the drag-over board reassignment;
  - the 300 ms `setTimeout` before order writes;
  - the concurrency of `Promise.all`.
  Each handler runs to completion as if its timers fire before the next event.
- **Stale state.** Handlers read the list captured at render time. The model reads the store's
  current list. A handler acting on an outdated list is not captured.
- **dnd-kit internals.** Not modelled: collision detection, the sensors, the keyboard
  coordinate getter, and the `SortableContext` rendering. `arrayMove` comes from a library not
  shown, and is defined here as splice-out then splice-in at the target normalised against the
  original length.
- **Activator registration** (app/hooks/useCustomSensors.ts:16-30). Installing the pointer and
  touch activators into dnd-kit's sensor classes is not modelled. Both call `CustomHandleEvent`
  on the event target.
- CustomSensors.CustomHandleEvent: assumes a finite, acyclic ancestor chain (`Valid`), as the
  DOM provides.
- BoardStore.Merge: a patch field explicitly set to `undefined` overwrites the field in
  JavaScript. Here an absent field is always kept.
- **Other sources.** Rendering (JSX, `Board`, `Task`, the add buttons), console logging, and the
  React effects that seed the stores from props are out of scope. The effects are the plain
  `SetBoards` / `SetBoardList` calls.
- DragAndDrop.DragAndDropHook.HandleDragOver: the board reassignment is modelled as issued at
  once, without the 300 ms debounce.
