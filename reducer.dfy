/**
 * The transition function of the board: `reducer(state, action)` and the
 * initial snapshot it starts from.
 *
 * Only ADD_TASK has a case. MOVE_TASK, UPDATE_TASK and DELETE_TASK are
 * dispatched by the board page but have no case in the reducer, so they reach
 * its default branch and return the snapshot unchanged.
 */
module Reducer {
  import opened Wrappers
  import opened Types

  datatype Action =
    | AddTask(columnId: ID, task: Task)
    | MoveTask(taskId: ID, fromColumnId: ID, toColumnId: ID, toIndex: int)
    | UpdateTask(taskId: ID, changes: TaskChanges)
    | DeleteTask(taskId: ID, columnId: ID)

  /** One board, three empty columns in the order Todo, Doing, Done, no tasks. */
  function InitialState(): (s: AppState)
    ensures s.tasks == map[] && s.ui.activeBoardId == Some("board-1")
    ensures s.boards.Keys == {"board-1"} && s.boards["board-1"].columnOrder == ["todo", "doing", "done"]
    ensures s.columns.Keys == {"todo", "doing", "done"}
    ensures forall c :: c in s.columns ==> s.columns[c].taskIds == [] && s.columns[c].id == c
  {
    AppState(
      map["board-1" := Board("board-1", "The Board App", ["todo", "doing", "done"])],
      map["todo" := Column("todo", "Todo", []),
          "doing" := Column("doing", "Doing", []),
          "done" := Column("done", "Done", [])],
      map[],
      Ui(Some("board-1")))
  }

  /** The initial snapshot satisfies every invariant. */
  lemma InitialStateValid()
    ensures Valid(InitialState())
  {
    var s := InitialState();
    var order := s.boards["board-1"].columnOrder;
    assert order[0] != order[1] && order[0] != order[2] && order[1] != order[2] by {
      assert order[0][0] != order[1][0] && order[0][0] != order[2][0];
      assert order[1][2] != order[2][2];
    }
  }

  /**
   * What a successful ADD_TASK does: `task` joins the task map, its id goes at
   * the end of column `columnId`'s list, and nothing else changes.
   */
  ghost predicate Added(s: AppState, r: AppState, columnId: ID, task: Task)
    requires columnId in s.columns
  {
    && r.tasks.Keys == s.tasks.Keys + {task.id}
    && r.tasks[task.id] == task
    && (forall t :: t in s.tasks && t != task.id ==> r.tasks[t] == s.tasks[t])
    && r.columns.Keys == s.columns.Keys
    && r.columns[columnId].id == s.columns[columnId].id
    && r.columns[columnId].title == s.columns[columnId].title
    && r.columns[columnId].taskIds == s.columns[columnId].taskIds + [task.id]
    && (forall c :: c in s.columns && c != columnId ==> r.columns[c] == s.columns[c])
    && r.boards == s.boards
    && r.ui == s.ui
  }

  function Reduce(s: AppState, a: Action): (r: AppState)
    ensures !a.AddTask? ==> r == s
    ensures a.AddTask? && a.columnId !in s.columns ==> r == s
    ensures a.AddTask? && a.task.id in s.tasks ==> r == s
    ensures a.AddTask? && a.columnId in s.columns && a.task.id !in s.tasks ==> Added(s, r, a.columnId, a.task)
  {
    match a
    case AddTask(columnId, task) =>
      if columnId !in s.columns then s
      else if task.id in s.tasks then s
      else
        var col := s.columns[columnId];
        s.(tasks := s.tasks[task.id := task],
           columns := s.columns[columnId := col.(taskIds := col.taskIds + [task.id])])
    case _ => s
  }

  /** Applies the actions in dispatch order. */
  function ReduceAll(s: AppState, actions: seq<Action>): (r: AppState)
    ensures r.boards == s.boards && r.ui == s.ui
    ensures r.columns.Keys == s.columns.Keys
    decreases |actions|
  {
    if actions == [] then s else ReduceAll(Reduce(s, actions[0]), actions[1..])
  }

  lemma {:induction false} ReduceAllSnoc(s: AppState, actions: seq<Action>, a: Action)
    ensures ReduceAll(s, actions + [a]) == Reduce(ReduceAll(s, actions), a)
    decreases |actions|
  {
    if actions == [] {
      assert [a][1..] == [];
    } else {
      assert (actions + [a])[1..] == actions[1..] + [a];
      ReduceAllSnoc(Reduce(s, actions[0]), actions[1..], a);
    }
  }

  /** A successful ADD_TASK keeps invariant (a): its id is the only new entry and it names the new task. */
  lemma AddKeepsListedTasksExist(s: AppState, r: AppState, columnId: ID, task: Task)
    requires ListedTasksExist(s) && columnId in s.columns
    requires Added(s, r, columnId, task)
    ensures ListedTasksExist(r)
  {
    var n := |s.columns[columnId].taskIds|;
    forall c, i | c in r.columns && 0 <= i < |r.columns[c].taskIds|
      ensures r.columns[c].taskIds[i] in r.tasks
    {
      if c != columnId || i != n {
        assert r.columns[c].taskIds[i] == s.columns[c].taskIds[i];
      }
    }
  }

  /** A successful ADD_TASK keeps invariant (b): the fresh id was listed nowhere before. */
  lemma AddKeepsListedAtMostOnce(s: AppState, r: AppState, columnId: ID, task: Task)
    requires ListedTasksExist(s) && ListedAtMostOnce(s)
    requires columnId in s.columns && task.id !in s.tasks
    requires Added(s, r, columnId, task)
    ensures ListedAtMostOnce(r)
  {
    var n := |s.columns[columnId].taskIds|;
    forall c, d, i, j |
      c in r.columns && d in r.columns &&
      0 <= i < |r.columns[c].taskIds| && 0 <= j < |r.columns[d].taskIds| &&
      r.columns[c].taskIds[i] == r.columns[d].taskIds[j]
      ensures c == d && i == j
    {
      if c != columnId || i != n {
        assert r.columns[c].taskIds[i] == s.columns[c].taskIds[i];
        assert s.columns[c].taskIds[i] in s.tasks;
      }
      if d != columnId || j != n {
        assert r.columns[d].taskIds[j] == s.columns[d].taskIds[j];
        assert s.columns[d].taskIds[j] in s.tasks;
      }
    }
  }

  /** A successful ADD_TASK keeps every task owned: the new one by the target column. */
  lemma AddKeepsTasksOwned(s: AppState, r: AppState, columnId: ID, task: Task)
    requires TasksOwned(s) && columnId in s.columns
    requires Added(s, r, columnId, task)
    ensures TasksOwned(r)
  {
    var n := |s.columns[columnId].taskIds|;
    forall t | t in r.tasks
      ensures exists c :: c in r.columns && t in r.columns[c].taskIds
    {
      if t == task.id {
        assert r.columns[columnId].taskIds[n] == t;
      } else {
        var c :| c in s.columns && t in s.columns[c].taskIds;
        if c == columnId {
          assert t in r.columns[c].taskIds;
        } else {
          assert r.columns[c] == s.columns[c];
        }
      }
    }
  }

  /** A successful ADD_TASK keeps every invariant of the snapshot. */
  lemma AddPreservesValid(s: AppState, r: AppState, columnId: ID, task: Task)
    requires Valid(s) && columnId in s.columns && task.id !in s.tasks
    requires Added(s, r, columnId, task)
    ensures Valid(r)
  {
    AddKeepsListedTasksExist(s, r, columnId, task);
    AddKeepsListedAtMostOnce(s, r, columnId, task);
    AddKeepsTasksOwned(s, r, columnId, task);
  }

  lemma ReducePreservesValid(s: AppState, a: Action)
    requires Valid(s)
    ensures Valid(Reduce(s, a))
  {
    if a.AddTask? && a.columnId in s.columns && a.task.id !in s.tasks {
      AddPreservesValid(s, Reduce(s, a), a.columnId, a.task);
    }
  }

  /** Every snapshot reached by dispatching any actions keeps the invariants. */
  lemma {:induction false} ReduceAllPreservesValid(s: AppState, actions: seq<Action>)
    requires Valid(s)
    ensures Valid(ReduceAll(s, actions))
    decreases |actions|
  {
    if actions != [] {
      ReducePreservesValid(s, actions[0]);
      ReduceAllPreservesValid(Reduce(s, actions[0]), actions[1..]);
    }
  }

  lemma ReachableIsValid(actions: seq<Action>)
    ensures Valid(ReduceAll(InitialState(), actions))
  {
    InitialStateValid();
    ReduceAllPreservesValid(InitialState(), actions);
  }

  /**
   * After adding a fresh task to an existing column, that column lists it
   * exactly once, no other column lists it, and the task map holds it.
   */
  lemma AddThenResolve(s: AppState, columnId: ID, task: Task)
    requires Valid(s) && columnId in s.columns && task.id !in s.tasks
    ensures var r := Reduce(s, AddTask(columnId, task));
      && multiset(r.columns[columnId].taskIds)[task.id] == 1
      && (forall c :: c in r.columns && c != columnId ==> task.id !in r.columns[c].taskIds)
      && r.tasks[task.id] == task
  {
    var r := Reduce(s, AddTask(columnId, task));
    var ids := s.columns[columnId].taskIds;
    assert forall i :: 0 <= i < |ids| ==> ids[i] != task.id;
    assert task.id !in ids;
    assert multiset(ids + [task.id]) == multiset(ids) + multiset{task.id};
    forall c | c in r.columns && c != columnId
      ensures task.id !in r.columns[c].taskIds
    {
      assert r.columns[c] == s.columns[c];
      assert forall i :: 0 <= i < |s.columns[c].taskIds| ==> s.columns[c].taskIds[i] != task.id;
    }
  }

  /** Dispatching the same ADD_TASK twice is the same as dispatching it once. */
  lemma AddTaskTwiceIsOnce(s: AppState, columnId: ID, task: Task)
    ensures Reduce(Reduce(s, AddTask(columnId, task)), AddTask(columnId, task)) == Reduce(s, AddTask(columnId, task))
  {
  }
}
