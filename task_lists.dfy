/**
 * The tasks a column shows: each listed id looked up in the task map, in list
 * order, with ids that name no task dropped. The board page and the column
 * page both derive their lists this way.
 */
module TaskLists {
  import opened Types

  function ResolveTasks(ids: seq<ID>, tasks: map<ID, Task>): (r: seq<Task>)
    ensures |r| <= |ids|
    ensures forall t :: t in r ==> exists id :: id in ids && id in tasks && tasks[id] == t
    decreases |ids|
  {
    if ids == [] then []
    else
      var rest := ResolveTasks(ids[1..], tasks);
      var head := if ids[0] in tasks then [tasks[ids[0]]] else [];
      assert forall id :: id in ids[1..] ==> id in ids;
      head + rest
  }

  /** Listing one more id adds its task, if it resolves, at the end: the order of `ids` is kept. */
  lemma {:induction false} ResolveTasksSnoc(ids: seq<ID>, x: ID, tasks: map<ID, Task>)
    ensures ResolveTasks(ids + [x], tasks) == ResolveTasks(ids, tasks) + (if x in tasks then [tasks[x]] else [])
    decreases |ids|
  {
    if ids == [] {
      assert ([x])[1..] == [];
    } else {
      var head := if ids[0] in tasks then [tasks[ids[0]]] else [];
      var tail := if x in tasks then [tasks[x]] else [];
      assert (ids + [x])[0] == ids[0];
      assert (ids + [x])[1..] == ids[1..] + [x];
      ResolveTasksSnoc(ids[1..], x, tasks);
      calc {
        ResolveTasks(ids + [x], tasks);
        head + ResolveTasks(ids[1..] + [x], tasks);
        head + (ResolveTasks(ids[1..], tasks) + tail);
        (head + ResolveTasks(ids[1..], tasks)) + tail;
        ResolveTasks(ids, tasks) + tail;
      }
    }
  }

  /** When every id resolves, as invariant (a) ensures, the list is the tasks of `ids` one for one. */
  lemma {:induction false} ResolveTasksTotal(ids: seq<ID>, tasks: map<ID, Task>)
    requires forall i :: 0 <= i < |ids| ==> ids[i] in tasks
    ensures |ResolveTasks(ids, tasks)| == |ids|
    ensures forall i :: 0 <= i < |ids| ==> ResolveTasks(ids, tasks)[i] == tasks[ids[i]]
    decreases |ids|
  {
    if ids != [] {
      ResolveTasksTotal(ids[1..], tasks);
      var r := ResolveTasks(ids, tasks);
      assert r == [tasks[ids[0]]] + ResolveTasks(ids[1..], tasks);
      forall i | 0 <= i < |ids|
        ensures r[i] == tasks[ids[i]]
      {
        if i > 0 {
          assert ids[1..][i - 1] == ids[i];
        }
      }
    }
  }

  /** Adding a task under an id the list does not mention leaves the list as it was. */
  lemma {:induction false} ResolveTasksIgnoresOthers(ids: seq<ID>, tasks: map<ID, Task>, x: ID, t: Task)
    requires x !in ids
    ensures ResolveTasks(ids, tasks[x := t]) == ResolveTasks(ids, tasks)
    decreases |ids|
  {
    if ids != [] {
      ResolveTasksIgnoresOthers(ids[1..], tasks, x, t);
    }
  }
}
