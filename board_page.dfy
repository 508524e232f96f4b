/**
 * The board page: the columns of the active board with their tasks, the
 * options of the create form, and the handlers that turn drags, edits and
 * deletes into dispatched actions.
 */
module BoardPage {
  import opened Wrappers
  import opened Strings
  import opened Types
  import opened Reducer
  import opened Provider
  import opened TaskLists
  import opened CreateTaskModal

  /** What a handler did: nothing, one dispatch, or a TypeError before any dispatch. */
  datatype Outcome = Nothing | Sent(action: Action) | Threw

  /**
   * The column search for a task: the first column of the board order whose
   * list includes the task, if any; a missing column in the way throws
   * (`Fault`), since its `taskIds` is read from `undefined`.
   */
  datatype Lookup = Found(columnId: ID) | NotFound | Fault

  function ColumnOf(s: AppState, order: seq<ID>, taskId: ID): (r: Lookup)
    ensures r.Found? ==> r.columnId in order && r.columnId in s.columns && taskId in s.columns[r.columnId].taskIds
    ensures r.NotFound? <==> forall k :: 0 <= k < |order| ==> order[k] in s.columns && taskId !in s.columns[order[k]].taskIds
    ensures r.Fault? ==> exists k :: 0 <= k < |order| && order[k] !in s.columns
    decreases |order|
  {
    if order == [] then NotFound
    else if order[0] !in s.columns then Fault
    else if taskId in s.columns[order[0]].taskIds then Found(order[0])
    else
      var r := ColumnOf(s, order[1..], taskId);
      assert forall k :: 1 <= k < |order| ==> order[k] == order[1..][k - 1];
      r
  }

  /** Column `order[k]` lists the task and is the first in `order` to do so; every column before it exists. */
  ghost predicate FirstHolder(s: AppState, order: seq<ID>, taskId: ID, k: int) {
    && 0 <= k < |order|
    && order[k] in s.columns && taskId in s.columns[order[k]].taskIds
    && forall j :: 0 <= j < k ==> order[j] in s.columns && taskId !in s.columns[order[j]].taskIds
  }

  /** A found column is the first holder of the task in `order`. */
  lemma {:induction false} ColumnOfFoundFirst(s: AppState, order: seq<ID>, taskId: ID) returns (k: nat)
    requires ColumnOf(s, order, taskId).Found?
    ensures FirstHolder(s, order, taskId, k) && order[k] == ColumnOf(s, order, taskId).columnId
    decreases |order|
  {
    if taskId in s.columns[order[0]].taskIds {
      k := 0;
    } else {
      var k' := ColumnOfFoundFirst(s, order[1..], taskId);
      k := k' + 1;
      forall j | 0 <= j < k
        ensures order[j] in s.columns && taskId !in s.columns[order[j]].taskIds
      {
        if j > 0 {
          assert order[j] == order[1..][j - 1];
        }
      }
    }
  }

  /** Conversely, the first holder is what the search returns. */
  lemma {:induction false} FirstHolderIsFound(s: AppState, order: seq<ID>, taskId: ID, k: int)
    requires FirstHolder(s, order, taskId, k)
    ensures ColumnOf(s, order, taskId) == Found(order[k])
    decreases |order|
  {
    if k > 0 {
      assert FirstHolder(s, order[1..], taskId, k - 1) by {
        forall j | 0 <= j < k - 1
          ensures order[1..][j] in s.columns && taskId !in s.columns[order[1..][j]].taskIds
        {
          assert order[1..][j] == order[j + 1];
        }
      }
      FirstHolderIsFound(s, order[1..], taskId, k - 1);
    }
  }

  /**
   * With the invariants, searching a board's column order never throws, and
   * it finds the one column that lists the task whenever that column is on
   * the board.
   */
  lemma {:induction false} ColumnOfIsOwner(s: AppState, order: seq<ID>, taskId: ID, c: ID)
    requires Valid(s) && forall k :: 0 <= k < |order| ==> order[k] in s.columns
    requires c in order && c in s.columns && taskId in s.columns[c].taskIds
    ensures ColumnOf(s, order, taskId) == Found(c)
    decreases |order|
  {
    if order[0] != c {
      assert c in order[1..];
      ColumnOfIsOwner(s, order[1..], taskId, c);
    }
  }

  /** `ids.indexOf(x)`: the first position of `x`, or -1. */
  function IndexOf(ids: seq<ID>, x: ID): (r: int)
    ensures -1 <= r < |ids|
    ensures r == -1 <==> x !in ids
    ensures r >= 0 ==> ids[r] == x && forall j :: 0 <= j < r ==> ids[j] != x
    decreases |ids|
  {
    if ids == [] then -1
    else if ids[0] == x then 0
    else
      var k := IndexOf(ids[1..], x);
      if k == -1 then -1 else k + 1
  }

  /**
   * `handleDragEnd` for a drag of `activeId` released over `over` (none when
   * there is no drop target). Dropped on a task, the move goes before that
   * task in its column; dropped elsewhere, `over` is taken as a column id and
   * the move appends to it.
   */
  function DragEnd(s: AppState, order: seq<ID>, activeId: ID, over: Option<ID>): (r: Outcome)
    ensures r.Sent? ==> r.action.MoveTask? && r.action.taskId == activeId
    ensures r.Sent? ==> ColumnOf(s, order, activeId) == Found(r.action.fromColumnId)
    ensures r.Sent? ==> r.action.toColumnId in s.columns
    ensures r.Sent? ==> 0 <= r.action.toIndex <= |s.columns[r.action.toColumnId].taskIds|
    ensures r.Sent? ==> !(r.action.fromColumnId == r.action.toColumnId && over == Some(activeId))
  {
    if over.None? || !Truthy(over.value) then Nothing
    else
      var overId := over.value;
      match ColumnOf(s, order, activeId)
      case Fault => Threw
      case NotFound => Nothing
      case Found(fromColumnId) =>
        if !Truthy(fromColumnId) then Nothing
        else
          var byTask := ColumnOf(s, order, overId);
          if byTask.Fault? then Threw
          else
            var toColumnId := if byTask.Found? then byTask.columnId else overId;
            if toColumnId !in s.columns then Threw
            else
              var ids := s.columns[toColumnId].taskIds;
              var toIndex :=
                if byTask.Found? && Truthy(byTask.columnId) && IndexOf(ids, overId) != -1
                then IndexOf(ids, overId) else |ids|;
              if fromColumnId == toColumnId && activeId == overId then Nothing
              else Sent(MoveTask(activeId, fromColumnId, toColumnId, toIndex))
  }

  /** A drag with no drop target, or whose dragged task is in no column, dispatches nothing. */
  lemma DragWithoutTargetOrSource(s: AppState, order: seq<ID>, activeId: ID, over: Option<ID>)
    ensures over.None? ==> DragEnd(s, order, activeId, over) == Nothing
    ensures over.Some? && Truthy(over.value) && ColumnOf(s, order, activeId).NotFound? ==>
      DragEnd(s, order, activeId, over) == Nothing
  {
  }

  /**
   * Dropped on a task: the move targets that task's column at the task's
   * position, so the dragged task would land just before it; dropping a task
   * on itself moves nothing.
   */
  lemma DropOnTask(s: AppState, order: seq<ID>, activeId: ID, overId: ID)
    requires Truthy(overId)
    requires ColumnOf(s, order, activeId).Found? && Truthy(ColumnOf(s, order, activeId).columnId)
    requires ColumnOf(s, order, overId).Found? && Truthy(ColumnOf(s, order, overId).columnId)
    ensures var from := ColumnOf(s, order, activeId).columnId;
      var to := ColumnOf(s, order, overId).columnId;
      var k := IndexOf(s.columns[to].taskIds, overId);
      && 0 <= k < |s.columns[to].taskIds| && s.columns[to].taskIds[k] == overId
      && DragEnd(s, order, activeId, Some(overId)) ==
        if activeId == overId then Nothing else Sent(MoveTask(activeId, from, to, k))
  {
  }

  /**
   * Dropped where no task of the board is: `overId` is read as a column id;
   * the move appends to that column, and throws when there is no such column.
   */
  lemma DropOnColumn(s: AppState, order: seq<ID>, activeId: ID, overId: ID)
    requires Truthy(overId)
    requires ColumnOf(s, order, activeId).Found? && Truthy(ColumnOf(s, order, activeId).columnId)
    requires ColumnOf(s, order, overId).NotFound?
    ensures overId !in s.columns ==> DragEnd(s, order, activeId, Some(overId)) == Threw
    ensures overId in s.columns ==>
      DragEnd(s, order, activeId, Some(overId)) ==
        Sent(MoveTask(activeId, ColumnOf(s, order, activeId).columnId, overId, |s.columns[overId].taskIds|))
  {
  }

  /**
   * With the invariants, on a shown board a drag end throws only when its
   * target is neither a task of the board nor a column.
   */
  lemma DragEndThrowsOnlyOnStrayTarget(s: AppState, b: ID, activeId: ID, over: Option<ID>)
    requires Valid(s) && b in s.boards
    ensures var order := s.boards[b].columnOrder;
      DragEnd(s, order, activeId, over) == Threw <==>
        && over.Some? && Truthy(over.value)
        && ColumnOf(s, order, activeId).Found? && Truthy(ColumnOf(s, order, activeId).columnId)
        && ColumnOf(s, order, over.value).NotFound?
        && over.value !in s.columns
  {
    var order := s.boards[b].columnOrder;
    ColumnOfNeverFaults(s, order, activeId);
    if over.Some? {
      ColumnOfNeverFaults(s, order, over.value);
    }
  }

  lemma ColumnOfNeverFaults(s: AppState, order: seq<ID>, taskId: ID)
    requires forall k :: 0 <= k < |order| ==> order[k] in s.columns
    ensures !ColumnOf(s, order, taskId).Fault?
  {
  }

  /** The reducer has no MOVE_TASK case, so every move a drag produces leaves the snapshot as it was. */
  lemma DragMovesChangeNothing(s: AppState, order: seq<ID>, activeId: ID, over: Option<ID>)
    requires DragEnd(s, order, activeId, over).Sent?
    ensures Reduce(s, DragEnd(s, order, activeId, over).action) == s
  {
  }

  // ---- Rendering ----

  /** An option of the create form's column select. */
  datatype ColumnLite = ColumnLite(id: ID, title: string)

  /** One rendered column and the tasks it shows. */
  datatype Lane = Lane(columnId: ID, title: string, tasks: seq<Task>)

  datatype BoardView =
    | NoActiveBoard
    | Crashed
    | Page(options: seq<ColumnLite>, defaultColumnId: ID, lanes: seq<Lane>)

  /** The create form's options: the id and title of each board column that exists, in board order. */
  function ColumnsLite(s: AppState, order: seq<ID>): (r: seq<ColumnLite>)
    ensures |r| <= |order|
    ensures forall o :: o in r ==> exists c :: c in order && c in s.columns && o == ColumnLite(s.columns[c].id, s.columns[c].title)
    decreases |order|
  {
    if order == [] then []
    else
      var rest := ColumnsLite(s, order[1..]);
      assert forall c :: c in order[1..] ==> c in order;
      (if order[0] in s.columns then [ColumnLite(s.columns[order[0]].id, s.columns[order[0]].title)] else []) + rest
  }

  /** The preselected column: the first option's id, or "todo" when there are no options. */
  function DefaultColumnId(options: seq<ColumnLite>): (r: ID)
    ensures options == [] ==> r == "todo"
    ensures options != [] ==> r == options[0].id
  {
    if options != [] then options[0].id else "todo"
  }

  /** Column `order[k]` exists and is the first in `order` that does. */
  ghost predicate FirstExisting(s: AppState, order: seq<ID>, k: int) {
    0 <= k < |order| && order[k] in s.columns && forall j :: 0 <= j < k ==> order[j] !in s.columns
  }

  /** The default column is the first existing column of the board, or "todo" when none exists. */
  lemma {:induction false} DefaultIsFirstExisting(s: AppState, order: seq<ID>)
    ensures (forall k :: 0 <= k < |order| ==> order[k] !in s.columns) ==> DefaultColumnId(ColumnsLite(s, order)) == "todo"
    ensures forall k :: FirstExisting(s, order, k) ==> DefaultColumnId(ColumnsLite(s, order)) == s.columns[order[k]].id
    decreases |order|
  {
    if order != [] {
      DefaultIsFirstExisting(s, order[1..]);
      forall k | FirstExisting(s, order, k) && k > 0
        ensures FirstExisting(s, order[1..], k - 1)
      {
        forall j | 0 <= j < k - 1 ensures order[1..][j] !in s.columns {
          assert order[1..][j] == order[j + 1];
        }
      }
      if order[0] !in s.columns {
        assert forall k :: 0 <= k < |order[1..]| ==> order[1..][k] == order[k + 1];
      }
    }
  }

  /** The columns of `order` that exist, each with its resolved tasks. */
  function Lanes(s: AppState, order: seq<ID>): (r: seq<Lane>)
    ensures |r| <= |order|
    ensures forall l :: l in r ==>
      exists c :: c in order && c in s.columns && l == Lane(s.columns[c].id, s.columns[c].title, ResolveTasks(s.columns[c].taskIds, s.tasks))
    decreases |order|
  {
    if order == [] then []
    else
      assert forall c :: c in order[1..] ==> c in order;
      (if order[0] in s.columns then
        var col := s.columns[order[0]];
        [Lane(col.id, col.title, ResolveTasks(col.taskIds, s.tasks))]
      else []) + Lanes(s, order[1..])
  }

  /** When every column of the board exists, the options follow `order` one for one. */
  lemma {:induction false} ColumnsLiteFollowOrder(s: AppState, order: seq<ID>)
    requires forall k :: 0 <= k < |order| ==> order[k] in s.columns
    ensures |ColumnsLite(s, order)| == |order|
    ensures forall k :: 0 <= k < |order| ==>
      ColumnsLite(s, order)[k] == ColumnLite(s.columns[order[k]].id, s.columns[order[k]].title)
    decreases |order|
  {
    if order != [] {
      var rest := order[1..];
      ColumnsLiteFollowOrder(s, rest);
      var options := ColumnsLite(s, order);
      assert options == [ColumnLite(s.columns[order[0]].id, s.columns[order[0]].title)] + ColumnsLite(s, rest);
      forall k | 0 < k < |order|
        ensures options[k] == ColumnsLite(s, rest)[k - 1] && rest[k - 1] == order[k]
      {
      }
    }
  }

  /** When every column of the board exists, the lanes follow `order` one for one. */
  lemma {:induction false} LanesFollowOrder(s: AppState, order: seq<ID>)
    requires forall k :: 0 <= k < |order| ==> order[k] in s.columns
    ensures |Lanes(s, order)| == |order|
    ensures forall k :: 0 <= k < |order| ==>
      var col := s.columns[order[k]];
      Lanes(s, order)[k] == Lane(col.id, col.title, ResolveTasks(col.taskIds, s.tasks))
    decreases |order|
  {
    if order != [] {
      var rest := order[1..];
      LanesFollowOrder(s, rest);
      var col := s.columns[order[0]];
      var lanes := Lanes(s, order);
      assert lanes == [Lane(col.id, col.title, ResolveTasks(col.taskIds, s.tasks))] + Lanes(s, rest);
      forall k | 0 < k < |order|
        ensures lanes[k] == Lanes(s, rest)[k - 1] && rest[k - 1] == order[k]
      {
      }
    }
  }

  function PageOf(s: AppState, board: Board): BoardView {
    var options := ColumnsLite(s, board.columnOrder);
    Page(options, DefaultColumnId(options), Lanes(s, board.columnOrder))
  }

  /** The property key JavaScript reads for `boards[activeBoardId!]`: `null` becomes "null". */
  function BoardKey(active: Option<ID>): (r: ID)
    ensures active.Some? ==> r == active.value
    ensures r == "null" <==> active.None? || active.value == "null"
  {
    match active
    case None => "null"
    case Some(id) => id
  }

  /**
   * The page as written: the `columnsLite` memo reads the active board
   * before the "no active board" guard runs, so with no active board it
   * throws unless a board happens to be keyed "null" or "".
   */
  function RenderAsWritten(s: AppState): (v: BoardView)
    ensures v.Crashed? <==> BoardKey(s.ui.activeBoardId) !in s.boards
    ensures v.NoActiveBoard? <==>
      BoardKey(s.ui.activeBoardId) in s.boards && (s.ui.activeBoardId.None? || !Truthy(s.ui.activeBoardId.value))
    ensures v.Page? ==> v == PageOf(s, s.boards[s.ui.activeBoardId.value])
  {
    var key := BoardKey(s.ui.activeBoardId);
    if key !in s.boards then Crashed
    else if s.ui.activeBoardId.None? || !Truthy(s.ui.activeBoardId.value) then NoActiveBoard
    else PageOf(s, s.boards[key])
  }

  /** The page with the guard first: no active board shows the message, a missing board still throws. */
  function Render(s: AppState): (v: BoardView)
    ensures v.NoActiveBoard? <==> s.ui.activeBoardId.None? || !Truthy(s.ui.activeBoardId.value)
    ensures v.Crashed? <==> s.ui.activeBoardId.Some? && Truthy(s.ui.activeBoardId.value) && s.ui.activeBoardId.value !in s.boards
    ensures v.Page? ==> v == PageOf(s, s.boards[s.ui.activeBoardId.value])
  {
    if s.ui.activeBoardId.None? || !Truthy(s.ui.activeBoardId.value) then NoActiveBoard
    else if s.ui.activeBoardId.value !in s.boards then Crashed
    else PageOf(s, s.boards[s.ui.activeBoardId.value])
  }

  /** With no active board the written page throws where the guard means to show its message. */
  lemma NoActiveBoardCrashesAsWritten()
    ensures var s := InitialState().(ui := Ui(None));
      RenderAsWritten(s) == Crashed && Render(s) == NoActiveBoard
  {
    var s := InitialState().(ui := Ui(None));
    assert s.boards.Keys == {"board-1"};
    assert "null" != "board-1";
  }

  /** Whenever a board is active the two renderings agree. */
  lemma RenderAgreesWhenActive(s: AppState)
    requires s.ui.activeBoardId.Some? && Truthy(s.ui.activeBoardId.value)
    ensures Render(s) == RenderAsWritten(s)
  {
  }

  /**
   * The crash of `RenderAsWritten` is latent: no action changes the boards or
   * the active board, so every snapshot the store reaches keeps "board-1"
   * active and present, and the page as written shows it like `Render`.
   */
  lemma ReachableNeverCrashesAsWritten(log: seq<Action>)
    ensures var s := ReduceAll(InitialState(), log);
      RenderAsWritten(s).Page? && RenderAsWritten(s) == Render(s)
  {
  }

  /** The initial board shows Todo, Doing and Done, all empty, and preselects "todo". */
  lemma InitialRender()
    ensures Render(InitialState()) == Page(
      [ColumnLite("todo", "Todo"), ColumnLite("doing", "Doing"), ColumnLite("done", "Done")],
      "todo",
      [Lane("todo", "Todo", []), Lane("doing", "Doing", []), Lane("done", "Done", [])])
  {
    var s := InitialState();
    var order := ["todo", "doing", "done"];
    assert order[1..] == ["doing", "done"] && order[1..][1..] == ["done"] && order[1..][1..][1..] == [];
  }

  // ---- Handlers ----

  class Page {
    const store: Store
    /** The task open in the editor. */
    var activeTaskId: Option<ID>
    /** The task being dragged, shown in the drag overlay. */
    var activeDragTaskId: Option<ID>

    constructor (store: Store)
      ensures this.store == store && activeTaskId == None && activeDragTaskId == None
    {
      this.store := store;
      activeTaskId := None;
      activeDragTaskId := None;
    }

    /** The page got past its guards and shows the active board. */
    predicate Shown()
      reads this, store
    {
      Render(store.state).Page?
    }

    /** The column order of the shown board. */
    function Order(): seq<ID>
      reads this, store
      requires Shown()
    {
      store.state.boards[store.state.ui.activeBoardId.value].columnOrder
    }

    /** The edit modal is open: the active task id is set and names a task. */
    predicate EditorOpen()
      reads this
      reads store
      ensures EditorOpen() ==> activeTaskId.Some? && activeTaskId.value in store.state.tasks
    {
      activeTaskId.Some? && Truthy(activeTaskId.value) && activeTaskId.value in store.state.tasks
    }

    method HandleDragStart(activeId: ID)
      modifies this
      ensures activeDragTaskId == Some(activeId) && activeTaskId == old(activeTaskId)
    {
      activeDragTaskId := Some(activeId);
    }

    /**
     * `handleDragEnd`: the drag overlay is cleared whatever the outcome; at
     * most one MOVE_TASK is dispatched, and the snapshot does not change.
     */
    method HandleDragEnd(activeId: ID, over: Option<ID>) returns (outcome: Outcome)
      requires Shown()
      modifies this, store
      ensures outcome == DragEnd(old(store.state), old(Order()), activeId, over)
      ensures activeDragTaskId == None && activeTaskId == old(activeTaskId)
      ensures store.log == old(store.log) + (if outcome.Sent? then [outcome.action] else [])
      ensures store.state == old(store.state)
    {
      outcome := DragEnd(store.state, Order(), activeId, over);
      activeDragTaskId := None;
      if outcome.Sent? {
        store.Dispatch(outcome.action);
      }
    }

    /** `handleCreateTask`: ADD_TASK with the form's data and the given id and creation time. */
    method HandleCreateTask(data: NewTask, id: ID, now: string)
      modifies store
      ensures store.state == Reduce(old(store.state), AddTask(data.columnId, Task(id, data.title, data.description, now, None)))
      ensures store.log == old(store.log) + [AddTask(data.columnId, Task(id, data.title, data.description, now, None))]
      ensures old(Shown()) ==> Shown()
    {
      store.Dispatch(AddTask(data.columnId, Task(id, data.title, data.description, now, None)));
    }

    method OnTaskClick(id: ID)
      modifies this
      ensures activeTaskId == Some(id) && activeDragTaskId == old(activeDragTaskId)
    {
      activeTaskId := Some(id);
    }

    method CloseEditor()
      modifies this
      ensures activeTaskId == None && activeDragTaskId == old(activeDragTaskId)
    {
      activeTaskId := None;
    }

    /**
     * The editor's `onSave`: an empty change set dispatches nothing; either
     * way the editor closes and the snapshot does not change.
     */
    method OnSave(changes: TaskChanges)
      requires EditorOpen()
      modifies this, store
      ensures activeTaskId == None && activeDragTaskId == old(activeDragTaskId)
      ensures store.log == old(store.log) +
        (if changes.IsEmpty() then [] else [UpdateTask(old(store.state.tasks[activeTaskId.value].id), changes)])
      ensures store.state == old(store.state)
    {
      if changes.IsEmpty() {
        activeTaskId := None;
        return;
      }
      var task := store.state.tasks[activeTaskId.value];
      store.Dispatch(UpdateTask(task.id, changes));
      activeTaskId := None;
    }

    /**
     * The editor's `onDelete`: nothing when the task is in no column of the
     * board (the editor stays open); otherwise one DELETE_TASK and the editor
     * closes. The snapshot does not change.
     */
    method OnDelete() returns (outcome: Outcome)
      requires Shown() && EditorOpen()
      modifies this, store
      ensures var id := old(store.state.tasks[activeTaskId.value].id);
        var c := ColumnOf(old(store.state), old(Order()), id);
        outcome == if c.Fault? then Threw
                   else if c.NotFound? || !Truthy(c.columnId) then Nothing
                   else Sent(DeleteTask(id, c.columnId))
      ensures activeTaskId == if outcome.Sent? then None else old(activeTaskId)
      ensures activeDragTaskId == old(activeDragTaskId)
      ensures store.log == old(store.log) + (if outcome.Sent? then [outcome.action] else [])
      ensures store.state == old(store.state)
    {
      var task := store.state.tasks[activeTaskId.value];
      var colId := ColumnOf(store.state, Order(), task.id);
      if colId.Fault? {
        return Threw;
      }
      if colId.NotFound? || colId.columnId == "" {
        return Nothing;
      }
      var action := DeleteTask(task.id, colId.columnId);
      store.Dispatch(action);
      activeTaskId := None;
      outcome := Sent(action);
    }

    /** A card's delete button: DELETE_TASK for that card's column, which the reducer ignores. */
    method OnCardDelete(taskId: ID, columnId: ID)
      modifies store
      ensures store.log == old(store.log) + [DeleteTask(taskId, columnId)]
      ensures store.state == old(store.state)
    {
      store.Dispatch(DeleteTask(taskId, columnId));
    }
  }
}
