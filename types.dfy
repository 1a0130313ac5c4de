/**
 * The records shared by the task list, the task card and the timer
 * (TODO/types.ts).
 */
module Types {

  datatype Option<+T> = None | Some(value: T)

  /** Identifiers are opaque strings (the app draws them from a UUID source). */
  type Id = string

  datatype SubTask = SubTask(id: Id, title: string, completed: bool)

  datatype TaskCategory = STUDY | ASSIGNMENT | EXAM | PERSONAL | OTHER

  datatype TimerMode = FOCUS | SHORT_BREAK | LONG_BREAK

  /**
   * A task. `dueDate` and `subTasks` are optional in the record; `isExpanded`
   * is optional too, and an absent flag is read as false everywhere, so it is
   * a plain bool here.
   */
  datatype Task = Task(
    id: Id,
    title: string,
    completed: bool,
    category: TaskCategory,
    dueDate: Option<string>,
    subTasks: Option<seq<SubTask>>,
    isExpanded: bool
  )

  /** The filter bar's value: the sentinel 'All' or one category. */
  datatype CategoryFilter = All | Only(category: TaskCategory)

  /** No task of the list carries identifier `id`. */
  predicate IdUnused(ts: seq<Task>, id: Id)
  {
    forall i :: 0 <= i < |ts| ==> ts[i].id != id
  }

  /** No two tasks of the list share an identifier. */
  predicate UniqueIds(ts: seq<Task>)
  {
    forall i, j :: 0 <= i < j < |ts| ==> ts[i].id != ts[j].id
  }
}
