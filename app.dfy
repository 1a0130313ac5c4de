/**
 * The task store of the application component (TODO/App.tsx): one ordered
 * list of tasks that every user action replaces with a new list, and the
 * views derived from it (the category filter, the active and completed
 * counts, the completion ratio).
 *
 * Each action is a pure list transformation here; the class `TaskStore`
 * holds the list and applies them, as the component's state setter does.
 */
module App {
  import opened Types
  import opened Lists
  import opened Percentages

  /* ---------------------------------------------------------------- */
  /* Adding a task                                                      */
  /* ---------------------------------------------------------------- */

  /** One fresh, not yet completed sub-task per title, in title order. */
  function NewSubTasks(titles: seq<string>, ids: seq<Id>): (r: seq<SubTask>)
    requires |ids| == |titles|
    ensures |r| == |titles|
    ensures forall k :: 0 <= k < |titles| ==>
              r[k].id == ids[k] && r[k].title == titles[k] && !r[k].completed
  {
    if titles == [] then []
    else [SubTask(ids[0], titles[0], false)] + NewSubTasks(titles[1..], ids[1..])
  }

  /**
   * The record built for a new task. `id` and `subTaskIds` stand for the
   * identifiers the UUID source hands out.
   */
  function NewTask(id: Id, title: string, category: TaskCategory, dueDate: string,
                   subTaskTitles: seq<string>, subTaskIds: seq<Id>): (t: Task)
    requires |subTaskIds| == |subTaskTitles|
    ensures t.id == id && t.title == title && t.category == category
    ensures !t.completed
    ensures t.isExpanded <==> |subTaskTitles| > 0
    ensures t.dueDate.None? <==> dueDate == ""
    ensures t.dueDate.Some? ==> t.dueDate.value == dueDate
    ensures t.subTasks.Some? && |t.subTasks.value| == |subTaskTitles|
    ensures forall k :: 0 <= k < |subTaskTitles| ==>
              t.subTasks.value[k] == SubTask(subTaskIds[k], subTaskTitles[k], false)
  {
    Task(id, title, false, category,
         if dueDate == "" then None else Some(dueDate),
         Some(NewSubTasks(subTaskTitles, subTaskIds)),
         |subTaskTitles| > 0)
  }

  /** Prepending a task whose identifier is unused keeps identifiers unique. */
  lemma AddTaskKeepsIdsUnique(ts: seq<Task>, t: Task)
    requires UniqueIds(ts) && IdUnused(ts, t.id)
    ensures UniqueIds([t] + ts)
  {
    var r := [t] + ts;
    forall i, j | 0 <= i < j < |r| ensures r[i].id != r[j].id {
      assert r[j] == ts[j - 1];
      if i > 0 { assert r[i] == ts[i - 1]; }
    }
  }

  /** A new task is active: it adds one to the active count and none to the completed count. */
  lemma {:induction false} AddTaskCounts(ts: seq<Task>, t: Task)
    requires !t.completed
    ensures ActiveCount([t] + ts) == ActiveCount(ts) + 1
    ensures CompletedCount([t] + ts) == CompletedCount(ts)
  {
    assert ([t] + ts)[1..] == ts;
  }

  /* ---------------------------------------------------------------- */
  /* Toggling                                                           */
  /* ---------------------------------------------------------------- */

  /**
   * Flips `completed` on every task with identifier `id`; every other field
   * and every other task stays as it was, in the same order.
   */
  function FlipCompleted(ts: seq<Task>, id: Id): (r: seq<Task>)
    ensures |r| == |ts|
    ensures forall i :: 0 <= i < |ts| ==>
              r[i].completed == (ts[i].completed != (ts[i].id == id)) &&
              r[i].(completed := ts[i].completed) == ts[i]
  {
    Map(ts, (t: Task) => if t.id == id then t.(completed := !t.completed) else t)
  }

  lemma ToggleTaskTwice(ts: seq<Task>, id: Id)
    ensures FlipCompleted(FlipCompleted(ts, id), id) == ts
  {
    var r := FlipCompleted(FlipCompleted(ts, id), id);
    assert forall i :: 0 <= i < |ts| ==> r[i] == ts[i];
  }

  /** With unique identifiers, toggling the task at `k` moves it between the two counts. */
  lemma ToggleTaskCounts(ts: seq<Task>, id: Id, k: nat)
    requires UniqueIds(ts) && k < |ts| && ts[k].id == id
    ensures CompletedCount(FlipCompleted(ts, id)) ==
              if ts[k].completed then CompletedCount(ts) - 1 else CompletedCount(ts) + 1
    ensures ActiveCount(FlipCompleted(ts, id)) ==
              if ts[k].completed then ActiveCount(ts) + 1 else ActiveCount(ts) - 1
  {
    ToggleCompletedCount(ts, id, k);
    ActivePlusCompleted(ts);
    ActivePlusCompleted(FlipCompleted(ts, id));
  }

  lemma {:induction false} ToggleCompletedCount(ts: seq<Task>, id: Id, k: nat)
    requires UniqueIds(ts) && k < |ts| && ts[k].id == id
    ensures CompletedCount(FlipCompleted(ts, id)) ==
              if ts[k].completed then CompletedCount(ts) - 1 else CompletedCount(ts) + 1
  {
    var r := FlipCompleted(ts, id);
    assert r[1..] == FlipCompleted(ts[1..], id);
    if k == 0 {
      assert IdUnused(ts[1..], id);
      ToggleMissingIsIdentity(ts[1..], id);
    } else {
      assert r[0] == ts[0];
      ToggleCompletedCount(ts[1..], id, k - 1);
    }
  }

  /** Toggling an identifier that no task carries changes nothing. */
  lemma ToggleMissingIsIdentity(ts: seq<Task>, id: Id)
    requires IdUnused(ts, id)
    ensures FlipCompleted(ts, id) == ts
    ensures FlipExpanded(ts, id) == ts
  {
    assert forall i :: 0 <= i < |ts| ==> FlipCompleted(ts, id)[i] == ts[i];
    assert forall i :: 0 <= i < |ts| ==> FlipExpanded(ts, id)[i] == ts[i];
  }

  /** Flips `completed` on the sub-tasks with identifier `subTaskId`, keeping their order. */
  function FlipSubTaskIn(sts: seq<SubTask>, subTaskId: Id): (r: seq<SubTask>)
    ensures |r| == |sts|
    ensures forall j :: 0 <= j < |sts| ==>
              r[j].completed == (sts[j].completed != (sts[j].id == subTaskId)) &&
              r[j].(completed := sts[j].completed) == sts[j]
  {
    Map(sts, (st: SubTask) => if st.id == subTaskId then st.(completed := !st.completed) else st)
  }

  /**
   * Toggles one sub-task of the task `taskId`. A task without a sub-task
   * list is left alone; no task's own `completed` flag, title, or other
   * field changes, and no sub-task list is reordered.
   */
  function FlipSubTask(ts: seq<Task>, taskId: Id, subTaskId: Id): (r: seq<Task>)
    ensures |r| == |ts|
    ensures forall i :: 0 <= i < |ts| ==> r[i].(subTasks := ts[i].subTasks) == ts[i]
    ensures forall i :: 0 <= i < |ts| && (ts[i].id != taskId || ts[i].subTasks.None?) ==>
              r[i] == ts[i]
    ensures forall i :: 0 <= i < |ts| && ts[i].id == taskId && ts[i].subTasks.Some? ==>
              r[i].subTasks == Some(FlipSubTaskIn(ts[i].subTasks.value, subTaskId))
  {
    Map(ts, (t: Task) =>
      if t.id == taskId && t.subTasks.Some?
      then t.(subTasks := Some(FlipSubTaskIn(t.subTasks.value, subTaskId)))
      else t)
  }

  lemma FlipSubTaskInTwice(sts: seq<SubTask>, subTaskId: Id)
    ensures FlipSubTaskIn(FlipSubTaskIn(sts, subTaskId), subTaskId) == sts
  {
    var r := FlipSubTaskIn(FlipSubTaskIn(sts, subTaskId), subTaskId);
    assert forall j :: 0 <= j < |sts| ==> r[j] == sts[j];
  }

  lemma ToggleSubTaskTwice(ts: seq<Task>, taskId: Id, subTaskId: Id)
    ensures FlipSubTask(FlipSubTask(ts, taskId, subTaskId), taskId, subTaskId) == ts
  {
    var once := FlipSubTask(ts, taskId, subTaskId);
    var r := FlipSubTask(once, taskId, subTaskId);
    forall i | 0 <= i < |ts| ensures r[i] == ts[i] {
      if ts[i].id == taskId && ts[i].subTasks.Some? {
        FlipSubTaskInTwice(ts[i].subTasks.value, subTaskId);
      }
    }
  }

  /** Flips `isExpanded` on every task with identifier `id`; nothing else changes. */
  function FlipExpanded(ts: seq<Task>, id: Id): (r: seq<Task>)
    ensures |r| == |ts|
    ensures forall i :: 0 <= i < |ts| ==>
              r[i].isExpanded == (ts[i].isExpanded != (ts[i].id == id)) &&
              r[i].(isExpanded := ts[i].isExpanded) == ts[i]
  {
    Map(ts, (t: Task) => if t.id == id then t.(isExpanded := !t.isExpanded) else t)
  }

  lemma ToggleExpandTwice(ts: seq<Task>, id: Id)
    ensures FlipExpanded(FlipExpanded(ts, id), id) == ts
  {
    var r := FlipExpanded(FlipExpanded(ts, id), id);
    assert forall i :: 0 <= i < |ts| ==> r[i] == ts[i];
  }

  /* ---------------------------------------------------------------- */
  /* Deleting                                                           */
  /* ---------------------------------------------------------------- */

  /**
   * The tasks whose identifier differs from `id`, in their original order;
   * the whole list when no task carries `id`.
   */
  function RemoveTask(ts: seq<Task>, id: Id): (r: seq<Task>)
    ensures IdUnused(r, id)
    ensures forall i :: 0 <= i < |ts| && ts[i].id != id ==> ts[i] in r
    ensures forall i :: 0 <= i < |r| ==> r[i] in ts
    ensures SubsequenceOf(r, ts)
    ensures forall t :: multiset(r)[t] == if t.id == id then 0 else multiset(ts)[t]
    ensures IdUnused(ts, id) ==> r == ts
  {
    var keep := (t: Task) => t.id != id;
    FilterKeepsPassing(ts, keep);
    SubsequenceMembers(Filter(ts, keep), ts);
    forall t ensures multiset(Filter(ts, keep))[t] == if t.id == id then 0 else multiset(ts)[t] {
      FilterMultiplicity(ts, keep, t);
    }
    Filter(ts, keep)
  }

  /** With unique identifiers, deleting the task at `k` removes exactly that task. */
  lemma DeleteRemovesExactlyOne(ts: seq<Task>, id: Id, k: nat)
    requires UniqueIds(ts) && k < |ts| && ts[k].id == id
    ensures RemoveTask(ts, id) == ts[..k] + ts[k + 1..]
  {
    FilterDropsOne(ts, (t: Task) => t.id != id, k);
  }

  /* ---------------------------------------------------------------- */
  /* Derived views                                                      */
  /* ---------------------------------------------------------------- */

  /** The list shown under the filter bar. */
  function FilteredTasks(ts: seq<Task>, filter: CategoryFilter): (r: seq<Task>)
    ensures filter.All? ==> r == ts
    ensures filter.Only? ==> forall i :: 0 <= i < |r| ==> r[i] in ts && r[i].category == filter.category
    ensures filter.Only? ==> forall i :: 0 <= i < |ts| && ts[i].category == filter.category ==> ts[i] in r
    ensures SubsequenceOf(r, ts)
    ensures filter.Only? ==>
              forall t :: multiset(r)[t] == if t.category == filter.category then multiset(ts)[t] else 0
  {
    var keep := (t: Task) => filter.All? || t.category == filter.category;
    FilterKeepsPassing(ts, keep);
    SubsequenceMembers(Filter(ts, keep), ts);
    forall t ensures multiset(Filter(ts, keep))[t] == if keep(t) then multiset(ts)[t] else 0 {
      FilterMultiplicity(ts, keep, t);
    }
    Filter(ts, keep)
  }

  /** The five category views together hold every task exactly once. */
  lemma {:induction false} CategoryViewsPartition(ts: seq<Task>)
    ensures |FilteredTasks(ts, Only(STUDY))| + |FilteredTasks(ts, Only(ASSIGNMENT))|
          + |FilteredTasks(ts, Only(EXAM))| + |FilteredTasks(ts, Only(PERSONAL))|
          + |FilteredTasks(ts, Only(OTHER))| == |ts|
  {
    if ts != [] {
      CategoryViewsPartition(ts[1..]);
      CategoryViewStep(ts, STUDY);
      CategoryViewStep(ts, ASSIGNMENT);
      CategoryViewStep(ts, EXAM);
      CategoryViewStep(ts, PERSONAL);
      CategoryViewStep(ts, OTHER);
    }
  }

  /** One view grows by one exactly when the head task has its category. */
  lemma CategoryViewStep(ts: seq<Task>, c: TaskCategory)
    requires ts != []
    ensures |FilteredTasks(ts, Only(c))| ==
              |FilteredTasks(ts[1..], Only(c))| + if ts[0].category == c then 1 else 0
  {
  }

  predicate IsActive(t: Task) { !t.completed }

  predicate IsCompleted(t: Task) { t.completed }

  /** Number of tasks not yet completed (the header's "N active tasks"). */
  function ActiveCount(ts: seq<Task>): (n: nat)
    ensures n <= |ts|
    ensures n == 0 <==> forall i :: 0 <= i < |ts| ==> ts[i].completed
    ensures n == |ts| <==> forall i :: 0 <= i < |ts| ==> !ts[i].completed
  {
    FilterEmptyIff(ts, IsActive);
    FilterFullIff(ts, IsActive);
    |Filter(ts, IsActive)|
  }

  /** Number of completed tasks (the progress card's figure). */
  function CompletedCount(ts: seq<Task>): (n: nat)
    ensures n <= |ts|
    ensures n == 0 <==> forall i :: 0 <= i < |ts| ==> !ts[i].completed
    ensures n == |ts| <==> forall i :: 0 <= i < |ts| ==> ts[i].completed
  {
    FilterEmptyIff(ts, IsCompleted);
    FilterFullIff(ts, IsCompleted);
    |Filter(ts, IsCompleted)|
  }

  lemma ActivePlusCompleted(ts: seq<Task>)
    ensures ActiveCount(ts) + CompletedCount(ts) == |ts|
  {
    FilterComplement(ts, IsCompleted, IsActive);
  }

  /**
   * The width of the progress card's bar, in percent: the completed share
   * of all tasks, and 0 for an empty list.
   */
  function CompletionPercent(ts: seq<Task>): (r: real)
    ensures 0.0 <= r <= 100.0
    ensures ts == [] ==> r == 0.0
    ensures ts != [] && CompletedCount(ts) == |ts| ==> r == 100.0
    ensures CompletedCount(ts) == 0 ==> r == 0.0
  {
    if |ts| == 0 then 0.0
    else
      ActivePlusCompleted(ts);
      Percent(CompletedCount(ts), |ts|)
  }

  /* ---------------------------------------------------------------- */
  /* The store                                                          */
  /* ---------------------------------------------------------------- */

  class TaskStore {
    var tasks: seq<Task>
    var filter: CategoryFilter

    /**
     * The list read back from storage at start-up: `saved` is the parsed
     * payload, None when nothing was stored or it did not parse.
     */
    constructor (saved: Option<seq<Task>>)
      ensures tasks == (if saved.Some? then saved.value else [])
      ensures filter == All
    {
      tasks := if saved.Some? then saved.value else [];
      filter := All;
    }

    method AddTask(id: Id, title: string, category: TaskCategory, dueDate: string,
                   subTaskTitles: seq<string>, subTaskIds: seq<Id>)
      requires |subTaskIds| == |subTaskTitles|
      requires IdUnused(tasks, id)
      modifies this
      ensures tasks == [NewTask(id, title, category, dueDate, subTaskTitles, subTaskIds)] + old(tasks)
      ensures tasks[0].id == id && tasks[1..] == old(tasks)
      ensures UniqueIds(old(tasks)) ==> UniqueIds(tasks)
      ensures filter == old(filter)
    {
      var t := NewTask(id, title, category, dueDate, subTaskTitles, subTaskIds);
      if UniqueIds(tasks) {
        AddTaskKeepsIdsUnique(tasks, t);
      }
      tasks := [t] + tasks;
    }

    method ToggleTask(id: Id)
      modifies this
      ensures tasks == FlipCompleted(old(tasks), id)
      ensures UniqueIds(old(tasks)) ==> UniqueIds(tasks)
      ensures filter == old(filter)
    {
      tasks := FlipCompleted(tasks, id);
    }

    method ToggleSubTask(taskId: Id, subTaskId: Id)
      modifies this
      ensures tasks == FlipSubTask(old(tasks), taskId, subTaskId)
      ensures UniqueIds(old(tasks)) ==> UniqueIds(tasks)
      ensures filter == old(filter)
    {
      tasks := FlipSubTask(tasks, taskId, subTaskId);
    }

    method DeleteTask(id: Id)
      modifies this
      ensures tasks == RemoveTask(old(tasks), id)
      ensures UniqueIds(old(tasks)) ==> UniqueIds(tasks)
      ensures filter == old(filter)
    {
      var r := RemoveTask(tasks, id);
      if UniqueIds(tasks) {
        SubsequenceKeepsIdsUnique(r, tasks);
      }
      tasks := r;
    }

    method ToggleExpand(id: Id)
      modifies this
      ensures tasks == FlipExpanded(old(tasks), id)
      ensures UniqueIds(old(tasks)) ==> UniqueIds(tasks)
      ensures filter == old(filter)
    {
      tasks := FlipExpanded(tasks, id);
    }

    /** A click on the filter bar. */
    method SetFilter(f: CategoryFilter)
      modifies this
      ensures filter == f && tasks == old(tasks)
    {
      filter := f;
    }
  }

  /** A subsequence of a list with unique identifiers has unique identifiers. */
  lemma {:induction false} SubsequenceKeepsIdsUnique(a: seq<Task>, b: seq<Task>)
    requires SubsequenceOf(a, b) && UniqueIds(b)
    ensures UniqueIds(a)
    decreases |b|
  {
    if a != [] && b != [] {
      assert UniqueIds(b[1..]) by {
        forall i, j | 0 <= i < j < |b[1..]| ensures b[1..][i].id != b[1..][j].id {
          assert b[1..][i] == b[i + 1] && b[1..][j] == b[j + 1];
        }
      }
      if a[0] == b[0] {
        SubsequenceKeepsIdsUnique(a[1..], b[1..]);
        SubsequenceMembers(a[1..], b[1..]);
        forall i, j | 0 <= i < j < |a| ensures a[i].id != a[j].id {
          if i == 0 {
            assert a[j] == a[1..][j - 1];
            var m :| 0 <= m < |b[1..]| && b[1..][m] == a[j];
            assert b[m + 1] == a[j];
          } else {
            assert a[i] == a[1..][i - 1] && a[j] == a[1..][j - 1];
          }
        }
      } else {
        SubsequenceKeepsIdsUnique(a, b[1..]);
      }
    }
  }
}
