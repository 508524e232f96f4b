# Kanban board: reducer, drag reconciliation and form normalisation

A Dafny model of the core of a single-page Kanban board. It has two parts.

The first part is the entity records and the state transition function. A
snapshot (`AppState`) holds three id-keyed maps (boards, columns, tasks) and
a UI part whose active board may be null. A column's ordered `taskIds` list
is the only link between a task and its column. In the reducer only
ADD_TASK has a case. It is a no-op for an unknown column and for a task id
already in use. Otherwise it adds the task and appends its id to the
column's list. MOVE_TASK, UPDATE_TASK and DELETE_TASK have no case and fall
to the default branch, which returns the snapshot unchanged.

The second part is the view-side logic that turns user input into actions:

- the board page's drag-end reconciliation and its column search;
- the columns it renders, the create form's options and default column;
- its editor save and delete guards;
- the task editor's change set;
- the create form's validation, normalisation and reset;
- the column page's guard, form and list.

Dispatch goes through a `Store` (the `useReducer` store) that logs every action
and applies the reducer. So the model proves two things outright. Every
move, update or delete the board page dispatches leaves the snapshot
unchanged. Every snapshot reachable from the initial state keeps these
invariants:

- every listed id is a task;
- no id is listed twice, in one column or in two;
- every task is listed;
- every column a board orders exists;
- no board orders a column twice.

Modelling decisions:

- JavaScript records are Dafny maps.
- `null` and `undefined` are `Option`.
- JavaScript's truthiness of the empty string is written out wherever the
  code tests a string (`if (!overId)`, `if (!fromColumnId)`,
  `if (targetColByTask)`, `if (!columnId)`, `!activeBoardId`).
- A TypeError the code would raise by reading a field of `undefined` is an
  explicit outcome (`Lookup.Fault`, `Outcome.Threw`, `BoardView.Crashed`).
  It is not excluded by a precondition.
- `String.prototype.trim` is modelled with ECMAScript's white-space and
  line-terminator code points.
- Ids, timestamps, drop targets and route parameters are inputs.

Move, update and delete have no reducer case, so the model gives them none:
no index adjustment, clamping, merging or `updatedAt` stamping. The
code's `Action` type declares only ADD_TASK (the other three are
commented-out union members). So the board page's other dispatches do not
type-check as written, but at run time they reach the reducer's default
branch. The model gives `Action` all four payload shapes the page builds.

## Model

| member | source | states |
|---|---|---|
| `Reducer.InitialState` | src/app/reducer.ts:17-32 | board "board-1" ordering todo, doing, done; those columns empty; no tasks; "board-1" active |
| `Reducer.InitialStateValid` | src/app/reducer.ts:17-32 | the initial snapshot satisfies every invariant |
| `Reducer.Reduce` | src/app/reducer.ts:35-74 | ADD_TASK to an unknown column, or with a task id already in use, returns the snapshot unchanged; a successful ADD_TASK adds the task, appends its id at the end of the column's list, keeps the column's id and title, and changes no other task, column, board or UI field; every other action returns the snapshot unchanged |
| `Reducer.ReduceAll` | src/app/BoardProvider.tsx:19 | replaying a log of actions never changes the boards, the active board or the set of columns |
| `Reducer.ReduceAllSnoc` | src/app/BoardProvider.tsx:19 | applying a log and then one more action is applying the longer log |
| `Reducer.AddPreservesValid` | src/app/reducer.ts:40-55 | because of the duplicate guard and the append, a successful ADD_TASK keeps every invariant, including "no id listed twice" |
| `Reducer.ReducePreservesValid` | src/app/reducer.ts:35-74 | every action keeps the invariants |
| `Reducer.ReduceAllPreservesValid` | src/app/BoardProvider.tsx:19 | any sequence of dispatched actions keeps the invariants |
| `Reducer.ReachableIsValid` | src/app/BoardProvider.tsx:19 | every snapshot reachable from the initial state satisfies the invariants |
| `Reducer.AddThenResolve` | src/app/reducer.ts:46-55 | after adding a fresh task, its column lists its id exactly once, no other column lists it, and the task map holds the task |
| `Reducer.AddTaskTwiceIsOnce` | src/app/reducer.ts:43 | dispatching the same ADD_TASK twice equals dispatching it once |
| `Provider.Store.constructor` | src/app/BoardProvider.tsx:19 | the store starts at the initial snapshot with an empty log |
| `Provider.Store.Dispatch` | src/app/BoardProvider.tsx:19-21 | the next snapshot is the reducer applied to the current one; the action is logged; the snapshot stays the log applied to the initial state |
| `TaskLists.ResolveTasks` | src/pages/BoardPage.tsx:165-167 | the shown tasks are no more than the listed ids, and each is the task of some listed id |
| `TaskLists.ResolveTasksSnoc` | src/pages/ColumnPage.tsx:34 | listing one more id appends its task at the end if it resolves, and nothing otherwise, so list order is kept and unresolved ids are dropped |
| `TaskLists.ResolveTasksTotal` | src/pages/BoardPage.tsx:165-167 | when every id resolves, the shown list is the tasks of the ids one for one, in order |
| `TaskLists.ResolveTasksIgnoresOthers` | src/app/reducer.ts:46-49 | adding a task under an id a list does not mention leaves that list's tasks unchanged |
| `Strings.Trim` | src/components/CreateTaskModal.tsx:33 | `trim` leaves no white space at either end and is no longer than its input |
| `Strings.LeadingSpaceEnd` | src/components/CreateTaskModal.tsx:33 | the returned index ends a run of white space starting at `i` and is the end of the string or a non-space |
| `Strings.TrailingSpaceStart` | src/components/CreateTaskModal.tsx:33 | the returned index starts a run of white space ending at `j`, and is the left bound or follows a non-space |
| `Strings.TrimIsSlice` | src/components/CreateTaskModal.tsx:33 | the trimmed string is a slice of the input with only white space around it |
| `Strings.TrimEmptyIffBlank` | src/pages/ColumnPage.tsx:19-20 | the trimmed string is empty exactly when the input is all white space, which is what `if (!trimmed) return` tests |
| `Strings.TrimmedIsFixed` | src/components/TaskEditor.tsx:25 | trimming a string with no surrounding white space returns it unchanged |
| `Strings.TrimIdempotent` | src/components/TaskEditor.tsx:25 | trimming twice equals trimming once |
| `TaskEditor.ChangeSet` | src/components/TaskEditor.tsx:24-27 | `title` is present exactly when the trimmed title differs from the task's title, and holds the trimmed value; `description` is present exactly when the description differs from `task.description ?? ""`, and holds it untrimmed; there are no other keys |
| `TaskEditor.ChangeSetRecoversEdits` | src/components/TaskEditor.tsx:24-27 | the task plus the change set give back the trimmed edited title and the edited description |
| `TaskEditor.NoEditsNoChanges` | src/components/TaskEditor.tsx:19-28 | saving the fields as the editor opened them gives an empty change set whenever the task's title is already trimmed |
| `TaskEditor.EnabledSaveSendsTitle` | src/components/TaskEditor.tsx:75 | while Save is enabled, a title in the change set is non-empty and trimmed |
| `TaskEditor.Editor.constructor` | src/components/TaskEditor.tsx:19-20 | the fields start as the task's title and `description ?? ""` |
| `TaskEditor.Editor.SetTitle` | src/components/TaskEditor.tsx:39 | only the title field changes |
| `TaskEditor.Editor.SetDescription` | src/components/TaskEditor.tsx:49 | only the description field changes |
| `TaskEditor.Editor.SaveDisabled` | src/components/TaskEditor.tsx:75 | Save is disabled exactly when the title is all white space |
| `TaskEditor.Editor.HandleSubmit` | src/components/TaskEditor.tsx:22-29 | the change set built field by field is `ChangeSet` of the task and the current fields |
| `CreateTaskModal.SubmitData` | src/components/CreateTaskModal.tsx:33-38 | no payload for a blank title; otherwise the trimmed, non-empty title, the selected column, and a description that is absent exactly when the description is blank and is otherwise the trimmed text |
| `CreateTaskModal.SubmitDataTrimmed` | src/components/CreateTaskModal.tsx:33-38 | created titles and descriptions have no surrounding white space, and a present description is non-empty |
| `CreateTaskModal.Form.constructor` | src/components/CreateTaskModal.tsx:27-29 | title and description start empty and the selection at the default column |
| `CreateTaskModal.Form.SetDefaultColumn` | src/components/CreateTaskModal.tsx:29 | a new default-column prop does not change the selection, because `useState` reads its argument only once |
| `CreateTaskModal.Form.SetTitle` | src/components/CreateTaskModal.tsx:55 | only the title changes |
| `CreateTaskModal.Form.SelectColumn` | src/components/CreateTaskModal.tsx:65 | only the selection changes |
| `CreateTaskModal.Form.SetDescription` | src/components/CreateTaskModal.tsx:80 | only the description changes |
| `CreateTaskModal.Form.SubmitDisabled` | src/components/CreateTaskModal.tsx:90 | the button is disabled exactly when a submit would create nothing |
| `CreateTaskModal.Form.Submit` | src/components/CreateTaskModal.tsx:31-44 | a blank title calls nothing and leaves every field as it was; otherwise `onCreate` receives `SubmitData`, title and description reset to "", the selection resets to the default column, and `onClose` is called |
| `ColumnPage.ViewOf` | src/pages/ColumnPage.tsx:12-34 | a missing or empty parameter gives "no column given"; an unknown column gives "not found"; otherwise the page shows the column's title and its resolved tasks |
| `ColumnPage.SubmitAction` | src/pages/ColumnPage.tsx:17-29 | no action for a blank title; otherwise one ADD_TASK to the page's column whose task has the given id and time, the trimmed title and no description |
| `ColumnPage.SubmitAppendsToListing` | src/pages/ColumnPage.tsx:22-34 | with a fresh id, a valid submit makes the new task the last one listed, after the tasks listed before |
| `ColumnPage.Page.constructor` | src/pages/ColumnPage.tsx:7-9 | the title field starts empty |
| `ColumnPage.Page.SetTitle` | src/pages/ColumnPage.tsx:44 | the title field takes the typed value |
| `ColumnPage.Page.HandleSubmit` | src/pages/ColumnPage.tsx:17-31 | dispatches exactly `SubmitAction`, if any; the snapshot is the reducer's result; the field empties only after a dispatch; the page still shows its column |
| `BoardPage.ColumnOf` | src/pages/BoardPage.tsx:90-94 | a found column is on the board, exists and lists the task; "not found" holds exactly when every board column exists and none lists the task; a throw happens only if some board column is missing |
| `BoardPage.ColumnOfFoundFirst` | src/pages/BoardPage.tsx:90-94 | the found column is the first column in board order that lists the task |
| `BoardPage.FirstHolderIsFound` | src/pages/BoardPage.tsx:90-94 | the first column in board order that lists the task is what the search returns |
| `BoardPage.ColumnOfIsOwner` | src/pages/BoardPage.tsx:90-94 | with the invariants, the search returns the one column that lists the task whenever that column is on the board |
| `BoardPage.ColumnOfNeverFaults` | src/pages/BoardPage.tsx:92 | when every board column exists, the search never throws |
| `BoardPage.IndexOf` | src/pages/BoardPage.tsx:117 | `indexOf` gives -1 exactly when the id is absent, and otherwise the first position holding it |
| `BoardPage.DragEnd` | src/pages/BoardPage.tsx:100-128 | a dispatched action is one MOVE_TASK of the dragged task out of the column the search finds for it; its target column exists and `0 <= toIndex <= ` the target list's length; a task dropped on itself in its own column moves nothing |
| `BoardPage.DragWithoutTargetOrSource` | src/pages/BoardPage.tsx:103-107 | no drop target, or a dragged id in no column, dispatches nothing |
| `BoardPage.DropOnTask` | src/pages/BoardPage.tsx:110-122 | dropped on a task, the move targets that task's column at that task's position (insert before it); dropped on itself, nothing |
| `BoardPage.DropOnColumn` | src/pages/BoardPage.tsx:111-114 | dropped where no task is, the target id is read as a column id: the move appends to that column, and the handler throws if no such column exists |
| `BoardPage.DragEndThrowsOnlyOnStrayTarget` | src/pages/BoardPage.tsx:111-114 | with the invariants, a drag end throws exactly when the target is neither a task on the board nor a column |
| `BoardPage.DragMovesChangeNothing` | src/pages/BoardPage.tsx:124-127 | the reducer leaves the snapshot unchanged under every move a drag produces |
| `BoardPage.ColumnsLite` | src/pages/BoardPage.tsx:41-47 | each create-form option is the id and title of an existing column on the board, and there are no more options than board columns |
| `BoardPage.DefaultColumnId` | src/pages/BoardPage.tsx:66 | the preselected column is the first option's id, or "todo" when there are no options |
| `BoardPage.DefaultIsFirstExisting` | src/pages/BoardPage.tsx:66 | the default column is the id of the first existing board column, or "todo" when none exists |
| `BoardPage.Lanes` | src/pages/BoardPage.tsx:161-167 | each rendered column is an existing board column with its title and resolved tasks, and missing columns are skipped |
| `BoardPage.ColumnsLiteFollowOrder` | src/pages/BoardPage.tsx:41-47 | when every board column exists, the k-th option is the id and title of the k-th column of the order |
| `BoardPage.LanesFollowOrder` | src/pages/BoardPage.tsx:161-167 | when every board column exists, the k-th rendered column is the k-th column of the order with its resolved tasks |
| `BoardPage.Render` | src/pages/BoardPage.tsx:57-66 | with the guard first, no active board shows the message and a missing active board throws; otherwise the page shows that board's options and columns |
| `BoardPage.BoardKey` | src/pages/BoardPage.tsx:43 | the key read from `boards` is the active board id, and is "null" exactly when no board is active or the id is itself "null" |
| `BoardPage.RenderAsWritten` | src/pages/BoardPage.tsx:41-66 | the page as written throws exactly when the key it reads first is not a board; otherwise a missing or empty active id shows the message, and an active one shows that board's options and columns |
| `BoardPage.ReachableNeverCrashesAsWritten` | src/pages/BoardPage.tsx:41-60 | on every snapshot reachable from the initial state the page as written shows the board and agrees with `Render`, so its crash is latent |
| `BoardPage.NoActiveBoardCrashesAsWritten` | src/pages/BoardPage.tsx:41-60 | with the active board null, the page as written throws where `Render` shows the message |
| `BoardPage.RenderAgreesWhenActive` | src/pages/BoardPage.tsx:41-66 | when a board is active, the page as written and `Render` agree |
| `BoardPage.InitialRender` | src/pages/BoardPage.tsx:41-66 | the initial snapshot renders Todo, Doing and Done, all empty, with "todo" preselected |
| `BoardPage.Page.constructor` | src/pages/BoardPage.tsx:32-35 | no task is open in the editor and none is being dragged |
| `BoardPage.Page.HandleDragStart` | src/pages/BoardPage.tsx:97-99 | the dragged id is recorded |
| `BoardPage.Page.HandleDragEnd` | src/pages/BoardPage.tsx:100-128 | the outcome is `DragEnd`; the dragged id is cleared whatever the outcome; at most that one MOVE_TASK is logged; the snapshot does not change |
| `BoardPage.Page.HandleCreateTask` | src/pages/BoardPage.tsx:69-87 | dispatches one ADD_TASK to the chosen column with the form's title and description and the given id and time; the page stays shown |
| `BoardPage.Page.EditorOpen` | src/pages/BoardPage.tsx:130 | while the edit modal is open, the active task id is set and names a task in the snapshot |
| `BoardPage.Page.OnTaskClick` | src/pages/BoardPage.tsx:178 | the clicked task opens in the editor |
| `BoardPage.Page.CloseEditor` | src/pages/BoardPage.tsx:214 | the editor closes |
| `Types.TaskChanges.IsEmpty` | src/pages/BoardPage.tsx:219 | a change set is empty exactly when it holds neither a title nor a description |
| `BoardPage.Page.OnSave` | src/pages/BoardPage.tsx:218-228 | an empty change set dispatches nothing, any other dispatches one UPDATE_TASK; the editor closes either way; the snapshot does not change |
| `BoardPage.Page.OnDelete` | src/pages/BoardPage.tsx:229-237 | a task in no board column dispatches nothing and the editor stays open; otherwise one DELETE_TASK for its column and the editor closes; the snapshot does not change |
| `BoardPage.Page.OnCardDelete` | src/pages/BoardPage.tsx:179-184 | a card's delete dispatches one DELETE_TASK, and the snapshot does not change |

## Left out

- Move, update and delete semantics: the reducer has no case for them, so the model has none.
- Persistence of the snapshot: no serialisation code exists among the modelled files.
- Id and timestamp generation (`crypto.randomUUID`, `Date.now`, `new Date().toISOString()`): nondeterministic, so ids and times are parameters. Two ColumnPage submits within one millisecond would share an id, and the second would then be dropped by the duplicate guard. The model covers this through that guard.
- The drag library: collision detection, the pointer sensor's activation distance, sortable and droppable registration. The drop target id is an input.
- The context provider and the `useBoard` missing-provider throw: framework plumbing. The store is modelled as `Provider.Store`.
- Routing and the layout's outlet context: the route parameter and the create modal's open flag are inputs.
- Presentational components (modal Escape and backdrop handling, card event propagation, navbar, column markup and its "task"/"tasks" plural), and the drag overlay's card.
- Inherited object keys: JavaScript records also answer prototype names such as "constructor". The maps here hold only their own keys.
- React render snapshots and batching: each handler reads the store snapshot, then dispatches at most once. So reading the store's current state is the same as reading the render's state. What React does after a handler throws is not modelled: `Threw` ends the handler.
- Rendered columns are keyed by `col.id`; React's reconciliation of duplicate keys is not modelled.

## Findings

| source | as written | input that shows it | evidently intended | confidence | as-written member | corrected member |
|---|---|---|---|---|---|---|
| src/pages/BoardPage.tsx:41-60 | the `columnsLite` memo reads `state.boards[state.ui.activeBoardId!].columnOrder` before the `if (!activeBoardId)` guard, so with no active board it reads property "null" of `boards`, gets `undefined` and throws | the initial snapshot with `ui.activeBoardId = null`; no snapshot the store reaches has it, since no action changes `ui` or `boards` (`BoardPage.ReachableNeverCrashesAsWritten`), so the crash is latent | the page shows "No board is active yet." | high; not executed | `BoardPage.NoActiveBoardCrashesAsWritten` | `BoardPage.Render` |
