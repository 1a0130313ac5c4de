/**
 * The values a task card derives from its task (TODO/components/TaskItem.tsx):
 * the sub-task completion percentage, the overdue flag, and the conditions
 * under which the progress bar, the expand button and the sub-task list
 * are drawn.
 */
module TaskItem {
  import opened Types
  import opened Lists
  import App

  predicate SubTaskDone(st: SubTask) { st.completed }

  /** Number of completed sub-tasks. */
  function DoneCount(sts: seq<SubTask>): (n: nat)
    ensures n <= |sts|
    ensures n == 0 <==> forall i :: 0 <= i < |sts| ==> !sts[i].completed
    ensures n == |sts| <==> forall i :: 0 <= i < |sts| ==> sts[i].completed
  {
    FilterEmptyIff(sts, SubTaskDone);
    FilterFullIff(sts, SubTaskDone);
    |Filter(sts, SubTaskDone)|
  }

  lemma MulStrictCancel(m: int, a: int, b: int)
    requires m > 0 && m * a < m * b
    ensures a < b
  {
  }

  /** Division with remainder has only one quotient. */
  lemma QuotientUnique(m: int, q1: int, r1: int, q2: int, r2: int)
    requires m > 0 && m * q1 + r1 == m * q2 + r2
    requires 0 <= r1 < m && 0 <= r2 < m
    ensures q1 == q2
  {
    if q1 < q2 {
      MulStrictCancel(m, q2, q1 + 1);
    } else if q2 < q1 {
      MulStrictCancel(m, q1, q2 + 1);
    }
  }

  /** Integer division of naturals, by repeated subtraction. */
  function Quotient(x: nat, m: nat): (q: nat)
    requires m > 0
    ensures m * q <= x < m * q + m
    decreases x
  {
    if x < m then 0 else
      var q' := Quotient(x - m, m);
      assert m * (q' + 1) == m * q' + m;
      q' + 1
  }

  /** The subtraction loop agrees with the language's integer division on naturals. */
  lemma QuotientIsDivision(x: nat, m: nat)
    requires m > 0
    ensures Quotient(x, m) == x / m
    ensures x - m * Quotient(x, m) == x % m
  {
    var q := Quotient(x, m);
    QuotientUnique(m, q, x - m * q, x / m, x % m);
  }

  /**
   * When `r` is the quotient of `200 * done + total` by `2 * total`, it is the
   * nearest integer to `100 * done / total` (halves rounded up), between 0 and
   * 100 and exactly 0 or 100 at the ends.
   */
  lemma NearestPercent(done: nat, total: nat, r: int, rem: int)
    requires 0 < total && done <= total
    requires 200 * done + total == 2 * total * r + rem && 0 <= rem < 2 * total
    ensures total * (2 * r - 1) <= 200 * done < total * (2 * r + 1)
    ensures 0 <= r <= 100
    ensures done == 0 ==> r == 0
    ensures done == total ==> r == 100
  {
    assert total * (2 * r - 1) == 2 * total * r - total;
    assert total * (2 * r + 1) == 2 * total * r + total;
    MulStrictCancel(2 * total, r, 101);
    MulStrictCancel(2 * total, -1, r);
    if done == 0 {
      QuotientUnique(2 * total, r, rem, 0, total);
    }
    if done == total {
      QuotientUnique(2 * total, r, rem, 100, total);
    }
  }

  /**
   * `Math.round(done / total * 100)` on exact rationals: the integer nearest
   * to the percentage, halves rounded up.
   */
  function RoundedPercent(done: nat, total: nat): (r: nat)
    requires 0 < total && done <= total
    ensures total * (2 * r - 1) <= 200 * done < total * (2 * r + 1)
    ensures r <= 100
    ensures done == 0 ==> r == 0
    ensures done == total ==> r == 100
  {
    var m, x := 2 * total, 200 * done + total;
    var q := Quotient(x, m);
    NearestPercent(done, total, q, x - m * q);
    q
  }

  /** For a fixed total, more completed sub-tasks never give a smaller percentage. */
  lemma RoundedPercentMonotone(a: nat, b: nat, total: nat)
    requires 0 < total && a <= b <= total
    ensures RoundedPercent(a, total) <= RoundedPercent(b, total)
  {
    var ra: int, rb: int := RoundedPercent(a, total), RoundedPercent(b, total);
    assert total * (2 * ra - 1) <= 200 * a <= 200 * b < total * (2 * rb + 1);
    MulStrictCancel(total, 2 * ra - 1, 2 * rb + 1);
  }

  /**
   * The sub-task progress of a card: absent when the task has no sub-task
   * list or an empty one, otherwise the rounded completed share.
   */
  function SubTaskProgress(t: Task): (r: Option<nat>)
    ensures r.None? <==> t.subTasks.None? || |t.subTasks.value| == 0
    ensures r.Some? ==> r.value <= 100
    ensures r.Some? && DoneCount(t.subTasks.value) == 0 ==> r.value == 0
    ensures r.Some? && DoneCount(t.subTasks.value) == |t.subTasks.value| ==> r.value == 100
  {
    if t.subTasks.Some? && |t.subTasks.value| > 0
    then Some(RoundedPercent(DoneCount(t.subTasks.value), |t.subTasks.value|))
    else None
  }

  /**
   * The overdue flag. `isPast` stands for comparing the parsed due date with
   * the current clock; an empty due date counts as none. Only an uncompleted
   * task with a due date can be overdue, and such a task is overdue exactly
   * when that date lies in the past.
   */
  function IsOverdue(t: Task, isPast: string -> bool): (b: bool)
    ensures b ==> !t.completed && t.dueDate.Some? && t.dueDate.value != ""
    ensures !t.completed && t.dueDate.Some? && t.dueDate.value != "" ==>
              (b <==> isPast(t.dueDate.value))
  {
    t.dueDate.Some? && t.dueDate.value != "" && isPast(t.dueDate.value) && !t.completed
  }

  /** The chevron that expands and collapses the sub-task list: drawn exactly when the card has a progress figure. */
  function ShowExpandButton(t: Task): (b: bool)
    ensures b <==> SubTaskProgress(t).Some?
  {
    t.subTasks.Some? && |t.subTasks.value| > 0
  }

  /**
   * The thin progress bar under the title: drawn only for an open task with
   * a non-empty sub-task list, and then the expand button is drawn too.
   */
  function ShowProgressBar(t: Task): (b: bool)
    ensures b <==> !t.completed && ShowExpandButton(t)
  {
    SubTaskProgress(t).Some? && !t.completed
  }

  /**
   * The sub-task list below the card: only on an expanded card, and drawn
   * even when the list is empty, the one case where it shows without the
   * expand button.
   */
  function ShowSubTaskList(t: Task): (b: bool)
    ensures b ==> t.isExpanded
    ensures b && !ShowExpandButton(t) ==> t.subTasks == Some([])
    ensures ShowExpandButton(t) ==> (b <==> t.isExpanded)
  {
    t.isExpanded && t.subTasks.Some?
  }

  /** The sub-task rows drawn, in stored order. */
  function VisibleSubTasks(t: Task): (r: seq<SubTask>)
    ensures ShowSubTaskList(t) ==> r == t.subTasks.value
    ensures !ShowSubTaskList(t) ==> r == []
  {
    if ShowSubTaskList(t) then t.subTasks.value else []
  }

  /**
   * How a freshly added task is drawn: with sub-tasks it shows the expand
   * button, a progress bar at 0 and every sub-task in title order; without
   * them it shows none of these.
   */
  lemma NewTaskCard(id: Id, title: string, category: TaskCategory, dueDate: string,
                    subTaskTitles: seq<string>, subTaskIds: seq<Id>)
    requires |subTaskIds| == |subTaskTitles|
    ensures var t := App.NewTask(id, title, category, dueDate, subTaskTitles, subTaskIds);
      && (ShowExpandButton(t) <==> |subTaskTitles| > 0)
      && (ShowProgressBar(t) <==> |subTaskTitles| > 0)
      && (ShowSubTaskList(t) <==> |subTaskTitles| > 0)
      && (|subTaskTitles| > 0 ==> SubTaskProgress(t) == Some(0))
      && |VisibleSubTasks(t)| == |subTaskTitles|
      && forall k :: 0 <= k < |subTaskTitles| ==> VisibleSubTasks(t)[k].title == subTaskTitles[k]
  {
    var t := App.NewTask(id, title, category, dueDate, subTaskTitles, subTaskIds);
    var sts := t.subTasks.value;
    FilterNonePass(sts, SubTaskDone);
  }

  /** No two sub-tasks of the list share an identifier. */
  predicate UniqueSubTaskIds(sts: seq<SubTask>)
  {
    forall i, j :: 0 <= i < j < |sts| ==> sts[i].id != sts[j].id
  }

  /** With unique identifiers, toggling sub-task `k` moves the completed count by one. */
  lemma {:induction false} FlipSubTaskDoneCount(sts: seq<SubTask>, subTaskId: Id, k: nat)
    requires UniqueSubTaskIds(sts) && k < |sts| && sts[k].id == subTaskId
    ensures DoneCount(App.FlipSubTaskIn(sts, subTaskId)) ==
              if sts[k].completed then DoneCount(sts) - 1 else DoneCount(sts) + 1
  {
    var r := App.FlipSubTaskIn(sts, subTaskId);
    assert r[1..] == App.FlipSubTaskIn(sts[1..], subTaskId);
    if k == 0 {
      assert App.FlipSubTaskIn(sts[1..], subTaskId) == sts[1..] by {
        var rest := App.FlipSubTaskIn(sts[1..], subTaskId);
        assert forall j :: 0 <= j < |rest| ==> rest[j] == sts[1..][j] by {
          forall j | 0 <= j < |rest| ensures rest[j] == sts[1..][j] {
            assert sts[1..][j] == sts[j + 1];
          }
        }
      }
    } else {
      assert r[0] == sts[0];
      assert UniqueSubTaskIds(sts[1..]) by {
        forall i, j | 0 <= i < j < |sts[1..]| ensures sts[1..][i].id != sts[1..][j].id {
          assert sts[1..][i] == sts[i + 1] && sts[1..][j] == sts[j + 1];
        }
      }
      FlipSubTaskDoneCount(sts[1..], subTaskId, k - 1);
    }
  }

  /** Ticking off an open sub-task never lowers the card's progress. */
  lemma CheckingSubTaskRaisesProgress(t: Task, subTaskId: Id, k: nat)
    requires t.subTasks.Some? && UniqueSubTaskIds(t.subTasks.value)
    requires k < |t.subTasks.value| && t.subTasks.value[k].id == subTaskId
    requires !t.subTasks.value[k].completed
    ensures var t' := t.(subTasks := Some(App.FlipSubTaskIn(t.subTasks.value, subTaskId)));
      SubTaskProgress(t').Some? && SubTaskProgress(t).Some? &&
      SubTaskProgress(t).value <= SubTaskProgress(t').value
  {
    var sts := t.subTasks.value;
    var flipped := App.FlipSubTaskIn(sts, subTaskId);
    FlipSubTaskDoneCount(sts, subTaskId, k);
    assert DoneCount(flipped) <= |flipped|;
    RoundedPercentMonotone(DoneCount(sts), DoneCount(flipped), |sts|);
  }
}
