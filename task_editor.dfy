/**
 * The task editor: two fields that start from the task, and a submit that
 * sends only what the user changed.
 */
module TaskEditor {
  import opened Wrappers
  import opened Strings
  import opened Types

  /**
   * The change set `handleSubmit` builds from the edited title and
   * description: a key is present exactly when its field differs from the
   * task, the title compared and sent trimmed, the description neither.
   */
  function ChangeSet(task: Task, title: string, description: string): (c: TaskChanges)
    ensures c.title.Some? <==> Trim(title) != task.title
    ensures c.title.Some? ==> c.title.value == Trim(title)
    ensures c.description.Some? <==> description != task.description.GetOr("")
    ensures c.description.Some? ==> c.description.value == description
  {
    var trimmed := Trim(title);
    TaskChanges(
      if trimmed != task.title then Some(trimmed) else None,
      if description != task.description.GetOr("") then Some(description) else None)
  }

  /** The change set carries enough to recover both edited values from the task. */
  lemma ChangeSetRecoversEdits(task: Task, title: string, description: string)
    ensures var c := ChangeSet(task, title, description);
      && c.title.GetOr(task.title) == Trim(title)
      && c.description.GetOr(task.description.GetOr("")) == description
  {
  }

  /**
   * Saving the fields as the editor opened them sends an empty change set,
   * provided the title is already trimmed, as every title created through
   * the forms is.
   */
  lemma NoEditsNoChanges(task: Task)
    requires Trimmed(task.title)
    ensures ChangeSet(task, task.title, task.description.GetOr("")).IsEmpty()
  {
    TrimmedIsFixed(task.title);
  }

  /** While Save is enabled, a title in the change set is never blank. */
  lemma EnabledSaveSendsTitle(task: Task, title: string, description: string)
    requires Trim(title) != ""
    ensures var c := ChangeSet(task, title, description);
      c.title.Some? ==> c.title.value != "" && Trimmed(c.title.value)
  {
  }

  class Editor {
    const task: Task
    var title: string
    var description: string

    /** The fields start as `task.title` and `task.description ?? ""`. */
    constructor (task: Task)
      ensures this.task == task
      ensures title == task.title && description == task.description.GetOr("")
    {
      this.task := task;
      title := task.title;
      description := task.description.GetOr("");
    }

    method SetTitle(value: string)
      modifies this
      ensures title == value && description == old(description)
    {
      title := value;
    }

    method SetDescription(value: string)
      modifies this
      ensures description == value && title == old(title)
    {
      description := value;
    }

    /** `disabled={!title.trim()}` on the Save button. */
    predicate SaveDisabled()
      reads this
      ensures SaveDisabled() <==> Blank(title)
    {
      TrimEmptyIffBlank(title);
      Trim(title) == ""
    }

    /** Starts from an empty change set and adds each changed field in turn. */
    method HandleSubmit() returns (changes: TaskChanges)
      ensures changes == ChangeSet(task, title, description)
    {
      changes := TaskChanges(None, None);
      var trimmed := Trim(title);
      if trimmed != task.title {
        changes := changes.(title := Some(trimmed));
      }
      if description != task.description.GetOr("") {
        changes := changes.(description := Some(description));
      }
    }
  }
}
