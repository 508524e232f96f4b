/**
 * The create-task form: title, optional description and target column,
 * validated and normalised on submit, then reset.
 */
module CreateTaskModal {
  import opened Wrappers
  import opened Strings
  import opened Types

  /** What `onCreate` receives. */
  datatype NewTask = NewTask(title: string, columnId: ID, description: Option<string>)

  /**
   * `submit`'s payload: nothing for a blank title; otherwise the trimmed
   * title, the selected column, and the trimmed description or none when
   * that is empty.
   */
  function SubmitData(title: string, description: string, columnId: ID): (r: Option<NewTask>)
    ensures r.None? <==> Blank(title)
    ensures r.Some? ==> r.value.title == Trim(title) && r.value.title != ""
    ensures r.Some? ==> r.value.columnId == columnId
    ensures r.Some? ==> (r.value.description.None? <==> Blank(description))
    ensures r.Some? && r.value.description.Some? ==> r.value.description.value == Trim(description)
  {
    TrimEmptyIffBlank(title);
    TrimEmptyIffBlank(description);
    var t := Trim(title);
    if t == "" then None
    else
      var d := Trim(description);
      Some(NewTask(t, columnId, if d == "" then None else Some(d)))
  }

  /** Created titles and descriptions carry no surrounding white space. */
  lemma SubmitDataTrimmed(title: string, description: string, columnId: ID)
    requires SubmitData(title, description, columnId).Some?
    ensures var n := SubmitData(title, description, columnId).value;
      Trimmed(n.title) && (n.description.Some? ==> Trimmed(n.description.value) && n.description.value != "")
  {
  }

  class Form {
    /** The `defaultColumnId` prop. */
    var defaultColumnId: ID
    var title: string
    var description: string
    var columnId: ID

    constructor (defaultColumnId: ID)
      ensures this.defaultColumnId == defaultColumnId
      ensures title == "" && description == "" && columnId == defaultColumnId
    {
      this.defaultColumnId := defaultColumnId;
      title, description, columnId := "", "", defaultColumnId;
    }

    /**
     * The parent renders with another default column. `useState` reads its
     * argument only on the first render, so the selection stays as it was.
     */
    method SetDefaultColumn(id: ID)
      modifies this
      ensures defaultColumnId == id
      ensures title == old(title) && description == old(description) && columnId == old(columnId)
    {
      defaultColumnId := id;
    }

    method SetTitle(value: string)
      modifies this
      ensures title == value
      ensures description == old(description) && columnId == old(columnId) && defaultColumnId == old(defaultColumnId)
    {
      title := value;
    }

    method SetDescription(value: string)
      modifies this
      ensures description == value
      ensures title == old(title) && columnId == old(columnId) && defaultColumnId == old(defaultColumnId)
    {
      description := value;
    }

    method SelectColumn(id: ID)
      modifies this
      ensures columnId == id
      ensures title == old(title) && description == old(description) && defaultColumnId == old(defaultColumnId)
    {
      columnId := id;
    }

    /** `disabled={!title.trim()}` on the submit button. */
    predicate SubmitDisabled()
      reads this
      ensures SubmitDisabled() <==> SubmitData(title, description, columnId).None?
    {
      TrimEmptyIffBlank(title);
      Trim(title) == ""
    }

    /**
     * `submit`: a blank title changes nothing and calls nothing; otherwise
     * `onCreate` gets the payload, the fields reset and `onClose` is called
     * (`closed`).
     */
    method Submit() returns (created: Option<NewTask>, closed: bool)
      modifies this
      ensures created == SubmitData(old(title), old(description), old(columnId))
      ensures closed <==> created.Some?
      ensures defaultColumnId == old(defaultColumnId)
      ensures created.None? ==> title == old(title) && description == old(description) && columnId == old(columnId)
      ensures created.Some? ==> title == "" && description == "" && columnId == defaultColumnId
    {
      created := SubmitData(title, description, columnId);
      if created.None? {
        return created, false;
      }
      title := "";
      description := "";
      columnId := defaultColumnId;
      closed := true;
    }
  }
}
