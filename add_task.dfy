/**
 * The add-task form (TODO/components/AddTask.tsx): the title, category and
 * due-date fields, the loading and expanded flags, the blank-title guard,
 * and the two ways of handing a new task to the store: a plain submit, and
 * the AI breakdown, which adds whatever sub-task titles the generator
 * returns.
 */
module AddTaskForm {
  import opened Types

  /* ---------------------------------------------------------------- */
  /* Trimming                                                           */
  /* ---------------------------------------------------------------- */

  /**
   * The characters `String.prototype.trim` strips: the white space and line
   * terminator code points of ECMAScript (ECMA-262, sections 12.2 and 12.3).
   */
  function IsWhitespace(c: char): (b: bool)
    ensures ('0' <= c <= '9' || 'a' <= c <= 'z' || 'A' <= c <= 'Z') ==> !b
    ensures c == ' ' || c == '\t' || c == '\n' || c == '\r' ==> b
  {
    c == ' ' || c == '\t' || c == '\n' || c == '\r' || c == '\U{B}' || c == '\U{C}'
    || c == '\U{A0}' || c == '\U{1680}' || ('\U{2000}' <= c <= '\U{200A}')
    || c == '\U{2028}' || c == '\U{2029}' || c == '\U{202F}' || c == '\U{205F}'
    || c == '\U{3000}' || c == '\U{FEFF}'
  }

  /** The number of white space characters `s` starts with. */
  function LeadingWhitespace(s: string): (n: nat)
    ensures n <= |s|
    ensures forall i :: 0 <= i < n ==> IsWhitespace(s[i])
    ensures n < |s| ==> !IsWhitespace(s[n])
  {
    if s != [] && IsWhitespace(s[0]) then 1 + LeadingWhitespace(s[1..]) else 0
  }

  /** Drops trailing white space. */
  function TrimEnd(s: string): (r: string)
    ensures |r| <= |s| && r == s[..|r|]
    ensures forall i :: |r| <= i < |s| ==> IsWhitespace(s[i])
    ensures r == [] || !IsWhitespace(r[|r| - 1])
  {
    if s != [] && IsWhitespace(s[|s| - 1]) then TrimEnd(s[..|s| - 1]) else s
  }

  /**
   * `title.trim()`: the piece of `s` between its leading and its trailing
   * white space; it is empty or starts and ends with a visible character.
   */
  function Trim(s: string): (r: string)
    ensures var k := LeadingWhitespace(s);
      k + |r| <= |s| && r == s[k..k + |r|]
      && forall i :: k + |r| <= i < |s| ==> IsWhitespace(s[i])
    ensures r == [] || (!IsWhitespace(r[0]) && !IsWhitespace(r[|r| - 1]))
  {
    var k := LeadingWhitespace(s);
    var r := TrimEnd(s[k..]);
    assert r == s[k..k + |r|];
    r
  }

  /** A string trims to nothing exactly when it consists of white space only. */
  lemma TrimEmptyIffAllWhitespace(s: string)
    ensures Trim(s) == "" <==> forall i :: 0 <= i < |s| ==> IsWhitespace(s[i])
  {
    var k := LeadingWhitespace(s);
    if k < |s| {
      assert Trim(s) != [] by {
        assert s[k..] != [] && s[k..][0] == s[k];
      }
    }
  }

  /** `!title.trim()`: the title is empty once trimmed, that is, white space only. */
  function IsBlank(title: string): (b: bool)
    ensures b <==> forall i :: 0 <= i < |title| ==> IsWhitespace(title[i])
  {
    TrimEmptyIffAllWhitespace(title);
    Trim(title) == ""
  }

  /** A title without white space at either end is its own trim. */
  lemma TrimKeepsTightTitle(s: string)
    requires s == [] || (!IsWhitespace(s[0]) && !IsWhitespace(s[|s| - 1]))
    ensures Trim(s) == s
  {
  }

  /** Trimming twice is trimming once. */
  lemma TrimIdempotent(s: string)
    ensures Trim(Trim(s)) == Trim(s)
  {
    TrimKeepsTightTitle(Trim(s));
  }

  /* ---------------------------------------------------------------- */
  /* Button guards                                                      */
  /* ---------------------------------------------------------------- */

  /** The Add Task button is greyed out while the title is blank. */
  function SubmitDisabled(title: string): (b: bool)
    ensures b <==> forall i :: 0 <= i < |title| ==> IsWhitespace(title[i])
  {
    IsBlank(title)
  }

  /**
   * The AI Breakdown button is greyed out while the title is blank or a
   * request is running: it is enabled only when no request runs and the
   * title has a visible character, and never while the Add Task button is
   * greyed out.
   */
  function AiDisabled(title: string, isAiLoading: bool): (b: bool)
    ensures !b <==> !isAiLoading && exists i :: 0 <= i < |title| && !IsWhitespace(title[i])
    ensures SubmitDisabled(title) ==> b
  {
    IsBlank(title) || isAiLoading
  }

  /* ---------------------------------------------------------------- */
  /* The form                                                           */
  /* ---------------------------------------------------------------- */

  /** The arguments of one `onAdd` call. */
  datatype AddCall = AddCall(title: string, category: TaskCategory, dueDate: string, subTasks: seq<string>)

  /** The field values an AI request was started with. */
  datatype Pending = Pending(title: string, category: TaskCategory, dueDate: string)

  /** How the sub-task generator finished: with a list of titles (possibly empty), or by throwing. */
  datatype Outcome = Returned(subTasks: seq<string>) | Threw

  class Form {
    var title: string
    var category: TaskCategory
    var dueDate: string
    var isAiLoading: bool
    var isExpanded: bool

    /** A collapsed, empty form with the first category selected. */
    constructor ()
      ensures title == "" && category == STUDY && dueDate == ""
      ensures !isAiLoading && !isExpanded
      ensures SubmitDisabled(title) && AiDisabled(title, isAiLoading)
    {
      title := "";
      category := STUDY;
      dueDate := "";
      isAiLoading := false;
      isExpanded := false;
    }

    /** A click on the collapsed placeholder. */
    method Open()
      modifies this
      ensures isExpanded
      ensures title == old(title) && category == old(category) && dueDate == old(dueDate)
      ensures isAiLoading == old(isAiLoading)
    {
      isExpanded := true;
    }

    /** The Cancel button: collapses the form and keeps what was typed. */
    method Cancel()
      modifies this
      ensures !isExpanded
      ensures title == old(title) && category == old(category) && dueDate == old(dueDate)
      ensures isAiLoading == old(isAiLoading)
    {
      isExpanded := false;
    }

    /** Typing into the title, picking a category, picking a date. */
    method Edit(newTitle: string, newCategory: TaskCategory, newDueDate: string)
      modifies this
      ensures title == newTitle && category == newCategory && dueDate == newDueDate
      ensures isAiLoading == old(isAiLoading) && isExpanded == old(isExpanded)
    {
      title := newTitle;
      category := newCategory;
      dueDate := newDueDate;
    }

    /** Puts the form back after a task has been handed over; the category is kept. */
    method ClearAfterAdd()
      modifies this
      ensures title == "" && dueDate == "" && !isExpanded
      ensures category == old(category) && isAiLoading == old(isAiLoading)
    {
      title := "";
      dueDate := "";
      isExpanded := false;
    }

    /**
     * The form's submit: a blank title does nothing; otherwise one `onAdd`
     * call with the title as typed (not trimmed), the selected category
     * and date and no sub-tasks, then the form clears and collapses.
     */
    method HandleSubmit() returns (call: Option<AddCall>)
      modifies this
      ensures IsBlank(old(title)) ==> call.None? && unchanged(this)
      ensures !IsBlank(old(title)) ==>
                call == Some(AddCall(old(title), old(category), old(dueDate), []))
                && title == "" && dueDate == "" && !isExpanded
                && category == old(category) && isAiLoading == old(isAiLoading)
    {
      if IsBlank(title) {
        return None;
      }
      call := Some(AddCall(title, category, dueDate, []));
      ClearAfterAdd();
    }

    /**
     * The AI button, up to the request: a blank title does nothing;
     * otherwise the loading flag goes up and the request starts with the
     * current field values, which the completion later uses.
     */
    method BeginAiBreakdown() returns (pending: Option<Pending>)
      modifies this
      ensures IsBlank(old(title)) ==> pending.None? && unchanged(this)
      ensures !IsBlank(old(title)) ==>
                pending == Some(Pending(old(title), old(category), old(dueDate)))
                && isAiLoading
                && title == old(title) && category == old(category) && dueDate == old(dueDate)
                && isExpanded == old(isExpanded)
    {
      if IsBlank(title) {
        return None;
      }
      isAiLoading := true;
      pending := Some(Pending(title, category, dueDate));
    }

    /**
     * The AI button, after the request: on success one `onAdd` call with
     * the started values and the returned list exactly as returned, then
     * the form clears and collapses; on failure no call and the fields
     * stay. Either way the loading flag comes down.
     */
    method CompleteAiBreakdown(p: Pending, outcome: Outcome) returns (call: Option<AddCall>)
      modifies this
      ensures !isAiLoading && category == old(category)
      ensures outcome.Returned? ==>
                call == Some(AddCall(p.title, p.category, p.dueDate, outcome.subTasks))
                && title == "" && dueDate == "" && !isExpanded
      ensures outcome.Threw? ==>
                call.None? && title == old(title) && dueDate == old(dueDate)
                && isExpanded == old(isExpanded)
    {
      call := None;
      if outcome.Returned? {
        call := Some(AddCall(p.title, p.category, p.dueDate, outcome.subTasks));
        ClearAfterAdd();
      }
      isAiLoading := false;
    }

    /**
     * The whole AI path with the generator's outcome given: the same guard
     * as a submit, then either one `onAdd` call carrying the returned
     * titles and a cleared form, or, on failure, no call and the fields as
     * they were; past the guard, the loading flag ends down.
     */
    method HandleAiBreakdown(outcome: Outcome) returns (call: Option<AddCall>)
      modifies this
      ensures IsBlank(old(title)) ==> call.None? && unchanged(this)
      ensures !IsBlank(old(title)) ==> !isAiLoading && category == old(category)
      ensures !IsBlank(old(title)) && outcome.Returned? ==>
                call == Some(AddCall(old(title), old(category), old(dueDate), outcome.subTasks))
                && title == "" && dueDate == "" && !isExpanded
      ensures !IsBlank(old(title)) && outcome.Threw? ==>
                call.None? && title == old(title) && dueDate == old(dueDate)
                && isExpanded == old(isExpanded)
    {
      var pending := BeginAiBreakdown();
      if pending.None? {
        return None;
      }
      call := CompleteAiBreakdown(pending.value, outcome);
    }
  }
}
