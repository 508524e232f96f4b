/**
 * The entity records of the board and the invariants every snapshot reached
 * from the initial state keeps.
 *
 * Every record is keyed by an opaque string id. A task belongs to a column
 * only through that column's ordered `taskIds` list: `Task` has no field
 * naming its column. Of a task's fields only `description` and `updatedAt`
 * are optional.
 */
module Types {
  import opened Wrappers

  type ID = string

  datatype Task = Task(
    id: ID,
    title: string,
    description: Option<string>,
    createdAt: string,
    updatedAt: Option<string>)

  /** A column; the display order of its tasks is the order of `taskIds`. */
  datatype Column = Column(id: ID, title: string, taskIds: seq<ID>)

  /** A board; `columnOrder` lists its columns from left to right. */
  datatype Board = Board(id: ID, name: string, columnOrder: seq<ID>)

  /** View state kept in the snapshot; no board may be active (`null`). */
  datatype Ui = Ui(activeBoardId: Option<ID>)

  /** The snapshot: three id-keyed maps and the UI part. */
  datatype AppState = AppState(
    boards: map<ID, Board>,
    columns: map<ID, Column>,
    tasks: map<ID, Task>,
    ui: Ui)

  /** `Partial<Pick<Task, "title" | "description">>`: a key is present exactly when it is `Some`. */
  datatype TaskChanges = TaskChanges(title: Option<string>, description: Option<string>) {
    /** The change set has no keys at all. */
    predicate IsEmpty()
      ensures IsEmpty() <==> this == TaskChanges(None, None)
    {
      title.None? && description.None?
    }
  }

  /** (a) every id listed by a column names a task. */
  ghost predicate ListedTasksExist(s: AppState) {
    forall c, i :: c in s.columns && 0 <= i < |s.columns[c].taskIds| ==> s.columns[c].taskIds[i] in s.tasks
  }

  /** (b) a task id is listed at most once over all columns: never in two columns, never twice in one. */
  ghost predicate ListedAtMostOnce(s: AppState) {
    forall c, d, i, j ::
      c in s.columns && d in s.columns &&
      0 <= i < |s.columns[c].taskIds| && 0 <= j < |s.columns[d].taskIds| &&
      s.columns[c].taskIds[i] == s.columns[d].taskIds[j]
      ==> c == d && i == j
  }

  /** Every task is listed by some column, so with (b) by exactly one. */
  ghost predicate TasksOwned(s: AppState) {
    forall t :: t in s.tasks ==> exists c :: c in s.columns && t in s.columns[c].taskIds
  }

  /** Every column a board orders exists. */
  ghost predicate BoardColumnsExist(s: AppState) {
    forall b, k :: b in s.boards && 0 <= k < |s.boards[b].columnOrder| ==> s.boards[b].columnOrder[k] in s.columns
  }

  /** No board orders one column twice. */
  ghost predicate ColumnOrdersDistinct(s: AppState) {
    forall b, k, l :: b in s.boards && 0 <= k < l < |s.boards[b].columnOrder| ==>
      s.boards[b].columnOrder[k] != s.boards[b].columnOrder[l]
  }

  ghost predicate Valid(s: AppState) {
    && ListedTasksExist(s)
    && ListedAtMostOnce(s)
    && TasksOwned(s)
    && BoardColumnsExist(s)
    && ColumnOrdersDistinct(s)
  }
}
