/**
 * The page of one column, reached by its route parameter: a not-found guard,
 * a one-field ADD_TASK form and the column's task list.
 */
module ColumnPage {
  import opened Wrappers
  import opened Strings
  import opened Types
  import opened Reducer
  import opened Provider
  import opened TaskLists

  datatype View =
    | NoColumnGiven
    | ColumnNotFound(columnId: ID)
    | Listing(title: string, tasks: seq<Task>)

  /** What the page renders for route parameter `param`; only `Listing` shows the form. */
  function ViewOf(s: AppState, param: Option<ID>): (v: View)
    ensures v.NoColumnGiven? <==> param.None? || !Truthy(param.value)
    ensures v.ColumnNotFound? <==> param.Some? && Truthy(param.value) && param.value !in s.columns
    ensures v.Listing? ==> v.title == s.columns[param.value].title
    ensures v.Listing? ==> v.tasks == ResolveTasks(s.columns[param.value].taskIds, s.tasks)
  {
    if param.None? || !Truthy(param.value) then NoColumnGiven
    else if param.value !in s.columns then ColumnNotFound(param.value)
    else
      var column := s.columns[param.value];
      Listing(column.title, ResolveTasks(column.taskIds, s.tasks))
  }

  /**
   * `handleSubmit`'s action: nothing for a blank title, otherwise ADD_TASK to
   * this column with the trimmed title, no description and the given id and
   * creation time.
   */
  function SubmitAction(columnId: ID, title: string, id: ID, now: string): (r: Option<Action>)
    ensures r.None? <==> Blank(title)
    ensures r.Some? ==> r.value.AddTask? && r.value.columnId == columnId
    ensures r.Some? ==> r.value.task == Task(id, Trim(title), None, now, None) && Trimmed(r.value.task.title)
  {
    TrimEmptyIffBlank(title);
    var trimmed := Trim(title);
    if trimmed == "" then None
    else Some(AddTask(columnId, Task(id, trimmed, None, now, None)))
  }

  /**
   * A valid submit with an id not yet taken makes the new task the last one
   * the page lists, after the tasks it listed before.
   */
  lemma SubmitAppendsToListing(s: AppState, columnId: ID, title: string, id: ID, now: string)
    requires Valid(s) && Truthy(columnId) && columnId in s.columns && id !in s.tasks
    requires !Blank(title)
    ensures var r := Reduce(s, SubmitAction(columnId, title, id, now).value);
      ViewOf(r, Some(columnId)).tasks == ViewOf(s, Some(columnId)).tasks + [Task(id, Trim(title), None, now, None)]
  {
    var task := Task(id, Trim(title), None, now, None);
    var a := SubmitAction(columnId, title, id, now).value;
    assert a == AddTask(columnId, task);
    var r := Reduce(s, a);
    var ids := s.columns[columnId].taskIds;
    assert r.columns[columnId].taskIds == ids + [id];
    assert r.tasks == s.tasks[id := task];
    assert id !in ids by {
      assert forall i :: 0 <= i < |ids| ==> ids[i] in s.tasks;
    }
    ResolveTasksSnoc(ids, id, s.tasks[id := task]);
    ResolveTasksIgnoresOthers(ids, s.tasks, id, task);
    assert ViewOf(r, Some(columnId)).tasks == ResolveTasks(ids + [id], r.tasks);
  }

  class Page {
    const store: Store
    /** The `columnId` route parameter. */
    const param: Option<ID>
    var title: string

    constructor (store: Store, param: Option<ID>)
      ensures this.store == store && this.param == param && title == ""
    {
      this.store := store;
      this.param := param;
      title := "";
    }

    /** The guards passed: the column exists and the form is on screen. */
    predicate FormShown()
      reads this, store
    {
      ViewOf(store.state, param).Listing?
    }

    method SetTitle(value: string)
      modifies this
      ensures title == value
    {
      title := value;
    }

    /** `handleSubmit`: dispatches at most one ADD_TASK and then empties the field. */
    method HandleSubmit(id: ID, now: string) returns (sent: Option<Action>)
      requires FormShown()
      modifies this, store
      ensures sent == SubmitAction(param.value, old(title), id, now)
      ensures store.log == old(store.log) + (if sent.Some? then [sent.value] else [])
      ensures store.state == if sent.Some? then Reduce(old(store.state), sent.value) else old(store.state)
      ensures title == if sent.Some? then "" else old(title)
      ensures FormShown()
    {
      sent := SubmitAction(param.value, title, id, now);
      if sent.Some? {
        store.Dispatch(sent.value);
        title := "";
      }
    }
  }
}
