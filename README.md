# FocusFlow to-do app: a verified model

FocusFlow is a single-page study planner. It keeps a list of tasks, where each task has a category, an optional due date and an optional list of sub-tasks. Next to the list sit a Pomodoro countdown and a form for adding tasks, either typed in or split into sub-tasks by a text generator. This project models the logic behind those screens in Dafny and proves what it promises.

| file | module | what it holds |
|---|---|---|
| `types.dfy` | `Types` | `Task`, `SubTask`, `TaskCategory`, `TimerMode`, the filter value, identifier uniqueness |
| `lists.dfy` | `Lists` | the `map` and `filter` combinators the store is written with, and their laws |
| `percent.dfy` | `Percentages` | exact percentages for the two progress bars |
| `app.dfy` | `App` | the task store: the list operations as pure functions, the class `TaskStore` that applies them, the filter and the counts |
| `task_item.dfy` | `TaskItem` | what a task card derives from its task: rounded sub-task progress, the overdue flag, which parts are drawn |
| `pomodoro_timer.dfy` | `PomodoroTimer` | the countdown's transitions as pure functions on `Clock`, the class `Timer`, the `MM:SS` face and the progress bar |
| `add_task.dfy` | `AddTaskForm` | JavaScript `trim`, the blank-title guard, the button guards, and the class `Form` with its submit and AI-breakdown handlers |

The store, the timer and the form change state step by step, so each is a class whose methods state the new state. The store and the timer state it through a pure function of the old state, and the properties are proved as lemmas about those functions. The task card only computes values from its task, so it is made of functions and lemmas.

## Model

| member | source | states |
|---|---|---|
| App.NewSubTasks | TODO/App.tsx:34-38 | one sub-task per title, in title order, with the given id, that title, and not completed |
| App.NewTask | TODO/App.tsx:27-39 | the new task keeps id, title and category; it is not completed; it is expanded iff it has sub-task titles; an empty due date becomes absent and any other is stored as given; its sub-tasks match the titles one for one |
| App.AddTaskKeepsIdsUnique | TODO/App.tsx:26-41 | putting a task with an unused id in front keeps all ids distinct |
| App.AddTaskCounts | TODO/App.tsx:26-41 | a new task adds one to the active count and nothing to the completed count |
| App.TaskStore.constructor | TODO/App.tsx:8-20 | the list is the saved list, or empty when nothing was saved or it did not parse; the filter starts at All |
| App.TaskStore.AddTask | TODO/App.tsx:26-41 | the new task is at index 0, the rest of the list is the old list, ids stay unique, the filter is unchanged |
| App.FlipCompleted | TODO/App.tsx:43-47 | same length; `completed` flips exactly on the tasks with the given id; every other field and every other task is unchanged |
| App.ToggleTaskTwice | TODO/App.tsx:43-47 | toggling a task twice gives back the original list |
| App.ToggleTaskCounts | TODO/App.tsx:43-47 | with unique ids, toggling one task moves it between the completed and the active count |
| App.ToggleCompletedCount | TODO/App.tsx:43-47 | with unique ids, toggling one task changes the completed count by exactly one, in the right direction |
| App.ToggleMissingIsIdentity | TODO/App.tsx:43-47 | toggling completion or expansion of an id no task carries changes nothing |
| App.TaskStore.ToggleTask | TODO/App.tsx:43-47 | the list becomes its toggled version; ids stay unique; the filter is unchanged |
| App.FlipSubTaskIn | TODO/App.tsx:54-56 | same length and order; `completed` flips exactly on the sub-tasks with the given id; nothing else changes |
| App.FlipSubTaskInTwice | TODO/App.tsx:54-56 | toggling a sub-task twice gives back the original sub-task list |
| App.FlipSubTask | TODO/App.tsx:49-61 | only the `subTasks` of a task can change; a task with another id or no sub-task list is unchanged; the matching task's sub-task list is toggled in place |
| App.ToggleSubTaskTwice | TODO/App.tsx:49-61 | toggling a sub-task twice gives back the original list |
| App.TaskStore.ToggleSubTask | TODO/App.tsx:49-61 | the list becomes its sub-task-toggled version; ids stay unique; the filter is unchanged |
| App.RemoveTask | TODO/App.tsx:63-65 | no remaining task has the id; every task with another id is kept as many times as it occurred, and every task with the id is dropped; order is kept; a missing id leaves the list unchanged |
| App.DeleteRemovesExactlyOne | TODO/App.tsx:63-65 | with unique ids, deleting the task at position k gives the list without exactly that element |
| App.SubsequenceKeepsIdsUnique | TODO/App.tsx:63-65 | an order-keeping sub-list of a list with unique ids has unique ids, so deleting keeps ids unique |
| App.TaskStore.DeleteTask | TODO/App.tsx:63-65 | the list becomes the filtered list; ids stay unique; the filter is unchanged |
| App.FlipExpanded | TODO/App.tsx:67-71 | same length; `isExpanded` flips exactly on the tasks with the given id; nothing else changes |
| App.ToggleExpandTwice | TODO/App.tsx:67-71 | expanding twice gives back the original list |
| App.TaskStore.ToggleExpand | TODO/App.tsx:67-71 | the list becomes its expansion-toggled version; ids stay unique; the filter is unchanged |
| App.TaskStore.SetFilter | TODO/App.tsx:20 | the filter becomes the chosen value and the list is unchanged |
| App.FilteredTasks | TODO/App.tsx:73-75 | All shows the whole list; a category shows exactly the tasks of that category, each as many times as it is stored, and no other; order is kept |
| App.CategoryViewsPartition | TODO/App.tsx:73-75 | the five category views together hold every task exactly once |
| App.CategoryViewStep | TODO/App.tsx:73-75 | a category view grows by one exactly when the head task has that category |
| App.ActiveCount | TODO/App.tsx:77 | the header's active count is at most the list length, is 0 exactly when every task is completed, and equals the length exactly when none is |
| App.CompletedCount | TODO/App.tsx:171 | the completed count is at most the list length, is 0 exactly when no task is completed, and equals the length exactly when all are |
| App.ActivePlusCompleted | TODO/App.tsx:77 | the active count plus the completed count is the list length |
| App.CompletionPercent | TODO/App.tsx:177 | the bar width lies in 0..100; it is 0 for an empty list or when nothing is done, and 100 when everything is done |
| TaskItem.NearestPercent | TODO/components/TaskItem.tsx:25 | the round-half-up quotient is the integer nearest to 100·done/total, lies in 0..100, and is exactly 0 or 100 at the ends |
| TaskItem.DoneCount | TODO/components/TaskItem.tsx:25 | the completed sub-task count is at most the list length, 0 exactly when none is done, the length exactly when all are |
| TaskItem.QuotientIsDivision | TODO/components/TaskItem.tsx:25 | the quotient used for rounding is exactly integer division, with the matching remainder |
| TaskItem.RoundedPercent | TODO/components/TaskItem.tsx:25 | `Math.round(done/total*100)`: the nearest integer, between 0 and 100, 0 when nothing is done, 100 when all are done |
| TaskItem.RoundedPercentMonotone | TODO/components/TaskItem.tsx:25 | for a fixed total, more completed sub-tasks never give a smaller percentage |
| TaskItem.SubTaskProgress | TODO/components/TaskItem.tsx:24-26 | absent exactly when the sub-task list is absent or empty; otherwise in 0..100, 0 with none done, 100 with all done |
| TaskItem.FlipSubTaskDoneCount | TODO/App.tsx:54-56 | with unique sub-task ids, toggling one sub-task changes the completed count by exactly one |
| TaskItem.CheckingSubTaskRaisesProgress | TODO/components/TaskItem.tsx:24-26 | ticking off an open sub-task never lowers the card's progress |
| TaskItem.IsOverdue | TODO/components/TaskItem.tsx:21 | only an open task with a non-empty due date can be overdue, and such a task is overdue exactly when that date is past |
| TaskItem.ShowExpandButton | TODO/components/TaskItem.tsx:77 | the expand button is drawn exactly when the card has a sub-task progress figure |
| TaskItem.ShowProgressBar | TODO/components/TaskItem.tsx:65 | the bar is drawn exactly for an open task whose expand button is drawn, that is, with a non-empty sub-task list |
| TaskItem.ShowSubTaskList | TODO/components/TaskItem.tsx:97 | the list appears only on an expanded card; without the expand button it appears only for an empty list; with the button it appears exactly when expanded |
| TaskItem.VisibleSubTasks | TODO/components/TaskItem.tsx:97-99 | the drawn rows are the stored sub-tasks in stored order when the card is expanded and has a list, and none otherwise |
| TaskItem.NewTaskCard | TODO/components/TaskItem.tsx:65-99 | a freshly added task with sub-tasks shows the button, a bar at 0 and every sub-task in title order; without sub-tasks it shows none of them |
| PomodoroTimer.Duration | TODO/components/PomodoroTimer.tsx:4-8 | every mode lasts a positive whole number of minutes that fits the two-digit minute face |
| PomodoroTimer.Reset | TODO/components/PomodoroTimer.tsx:17-20 | same mode, stopped, full length; the state is in range and settled, and the bar is at 0 |
| PomodoroTimer.Toggle | TODO/components/PomodoroTimer.tsx:15 | only the running flag flips; the range invariant is kept |
| PomodoroTimer.Settle | TODO/components/PomodoroTimer.tsx:29-36 | afterwards a clock at zero is stopped; mode and time are unchanged; a settled clock is left alone |
| PomodoroTimer.Tick | TODO/components/PomodoroTimer.tsx:29-34 | one second comes off only when running with time left; the mode never changes; the range invariant is kept; a stopped clock is unchanged |
| PomodoroTimer.SelectMode | TODO/components/PomodoroTimer.tsx:22-24 | picking the mode already shown changes nothing, a running countdown included (the effect only fires when the mode value changes); picking another mode ends stopped at the full length of that mode, with the bar at 0; the range and the stop-at-zero rule are kept |
| PomodoroTimer.Ticks | TODO/components/PomodoroTimer.tsx:29-34 | any number of ticks keeps the mode, never adds time, and keeps the range invariant |
| PomodoroTimer.Progress | TODO/components/PomodoroTimer.tsx:47-50 | the bar lies in 0..100; it is 0 exactly at full length and 100 exactly at zero |
| PomodoroTimer.TickNeverLowersProgress | TODO/components/PomodoroTimer.tsx:47-50 | a tick never shrinks the bar |
| PomodoroTimer.StartAtZeroStaysStopped | TODO/components/PomodoroTimer.tsx:33-34 | pressing Start at zero ends stopped, and later ticks change nothing |
| PomodoroTimer.RunsDownToZero | TODO/components/PomodoroTimer.tsx:29-36 | a running clock with n seconds left runs for exactly n ticks and then stops at zero in the same mode |
| PomodoroTimer.StoppedClockStays | TODO/components/PomodoroTimer.tsx:29-36 | a stopped clock stays as it is however many ticks pass; no mode change happens by itself |
| PomodoroTimer.Decimal | TODO/components/PomodoroTimer.tsx:44 | `toString`: at least one digit, only digits, no leading zero, one digit below 10, at most two below 100 |
| PomodoroTimer.PadStart | TODO/components/PomodoroTimer.tsx:44 | `padStart`: the result is the string preceded by zeros up to the width; longer strings are kept |
| PomodoroTimer.TwoDigits | TODO/components/PomodoroTimer.tsx:44 | a padded number is all digits, at least two long, and exactly two below 100 |
| PomodoroTimer.FormatTime | TODO/components/PomodoroTimer.tsx:41-45 | the face is digits around a colon three from the end; it is exactly 5 characters up to 5999 seconds |
| PomodoroTimer.ParseDecimalOfDecimal | TODO/components/PomodoroTimer.tsx:44 | reading a number's digits back gives the number |
| PomodoroTimer.ParseDecimalSkipsZeros | TODO/components/PomodoroTimer.tsx:44 | padding zeros do not change the value read |
| PomodoroTimer.TwoDigitsRoundTrip | TODO/components/PomodoroTimer.tsx:44 | reading a padded number back gives the number |
| PomodoroTimer.FormatTimeRoundTrip | TODO/components/PomodoroTimer.tsx:41-45 | reading the face back as 60·minutes + seconds gives the seconds shown |
| PomodoroTimer.FormatTimeInjective | TODO/components/PomodoroTimer.tsx:41-45 | two different countdown values never show the same face |
| PomodoroTimer.WholeMinutesFace | TODO/components/PomodoroTimer.tsx:41-45 | a whole number of minutes, as every mode's full length is, shows its minutes followed by ":00" |
| PomodoroTimer.Timer.Valid | TODO/components/PomodoroTimer.tsx:47-50 | in a valid timer the time left never exceeds the mode's length, so the bar width lies between 0 and 100; a valid timer at zero is stopped with a full bar |
| PomodoroTimer.Timer.constructor | TODO/components/PomodoroTimer.tsx:11-13 | focus mode, 1500 seconds, stopped; the mount-time reset leaves this unchanged |
| PomodoroTimer.Timer.RunTickEffect | TODO/components/PomodoroTimer.tsx:29-36 | the state becomes its settled version |
| PomodoroTimer.Timer.ToggleTimer | TODO/components/PomodoroTimer.tsx:15 | the state becomes the settled toggle; mode and time unchanged; with time left the flag flips; the invariant is kept |
| PomodoroTimer.Timer.ResetTimer | TODO/components/PomodoroTimer.tsx:17-20 | the state becomes its reset, stopped at full length |
| PomodoroTimer.Timer.SetMode | TODO/components/PomodoroTimer.tsx:64 | a mode button click moves the timer to `SelectMode` of its old state: unchanged for the current mode, reset to the new mode's full length and stopped otherwise; the timer stays valid |
| PomodoroTimer.Timer.IntervalFired | TODO/components/PomodoroTimer.tsx:29-34 | the state becomes its ticked version; the invariant is kept |
| AddTaskForm.LeadingWhitespace | TODO/components/AddTask.tsx:18 | the count of leading white space: all characters before it are white space, the one at it is not |
| AddTaskForm.TrimEnd | TODO/components/AddTask.tsx:18 | a prefix of the string; everything cut off is white space; the result does not end in white space |
| AddTaskForm.Trim | TODO/components/AddTask.tsx:18 | `trim`: the part between the leading and trailing white space, empty or starting and ending visibly |
| AddTaskForm.IsWhitespace | TODO/components/AddTask.tsx:18 | the characters `trim` strips: space, tab, carriage return and newline are among them; digits and ASCII letters are not |
| AddTaskForm.TrimEmptyIffAllWhitespace | TODO/components/AddTask.tsx:18 | a string trims to nothing exactly when every character is white space |
| AddTaskForm.IsBlank | TODO/components/AddTask.tsx:18 | a title is rejected exactly when every character is white space |
| AddTaskForm.TrimKeepsTightTitle | TODO/components/AddTask.tsx:18 | a title without white space at either end is its own trim |
| AddTaskForm.TrimIdempotent | TODO/components/AddTask.tsx:18 | trimming twice is trimming once |
| AddTaskForm.SubmitDisabled | TODO/components/AddTask.tsx:114 | the Add Task button is greyed out exactly when the title is white space only |
| AddTaskForm.AiDisabled | TODO/components/AddTask.tsx:95 | the AI button is enabled exactly when no request runs and the title has a visible character; it is greyed out whenever the Add Task button is |
| AddTaskForm.Form.constructor | TODO/components/AddTask.tsx:10-14 | empty title and date, category Study, not loading, collapsed; both buttons disabled |
| AddTaskForm.Form.Open | TODO/components/AddTask.tsx:45 | the form expands and nothing else changes |
| AddTaskForm.Form.Cancel | TODO/components/AddTask.tsx:86 | the form collapses and keeps what was typed |
| AddTaskForm.Form.Edit | TODO/components/AddTask.tsx:58-78 | the three inputs take the typed values; the flags are unchanged |
| AddTaskForm.Form.ClearAfterAdd | TODO/components/AddTask.tsx:20-22 | title and date are emptied and the form collapses; the category is kept |
| AddTaskForm.Form.HandleSubmit | TODO/components/AddTask.tsx:16-23 | a blank title gives no call and no change; otherwise one call with the untrimmed title, the category, the date and no sub-tasks, then the form clears and collapses, keeping the category |
| AddTaskForm.Form.BeginAiBreakdown | TODO/components/AddTask.tsx:25-29 | a blank title gives no request and no change; otherwise loading goes up and the request carries the current values |
| AddTaskForm.Form.CompleteAiBreakdown | TODO/components/AddTask.tsx:29-38 | on success one call with the started values and the returned list unchanged, then the form clears; on failure no call and the fields stay; loading ends false either way |
| AddTaskForm.Form.HandleAiBreakdown | TODO/components/AddTask.tsx:25-39 | the whole AI path: the blank guard, then the success or failure behaviour above |

## Left out

- Storage: reading `localStorage` and `JSON.parse` at start-up, and mirroring every list change back, are browser I/O. The constructor takes the parsed payload as `Option<seq<Task>>`, where None means nothing was stored or the payload did not parse. The write-back is not modelled.
- `crypto.randomUUID`: the task and sub-task identifiers are parameters. `App.TaskStore.AddTask` requires that the task id is not already used in the list.
- The sub-task generator (TODO/services/geminiService.ts): a network call through a foreign SDK, which is not part of this model. Its result is the input `Outcome`: a list of titles, possibly empty, or a thrown error.
- Timing: `setInterval`/`clearInterval`, when React effects run, and `async`/`await` are not modelled. A tick is the method `IntervalFired`, which includes the effect run that follows it. The AI path is split at the `await` into `BeginAiBreakdown` and `CompleteAiBreakdown`, so other events may happen in between.
- App.CompletionPercent: exact rational arithmetic in place of JavaScript floating point.
- PomodoroTimer.Progress: exact rational arithmetic in place of JavaScript floating point.
- TaskItem.RoundedPercent: integer round-half-up, `(200·done + total) div (2·total)`. It stands for `Math.round` applied to a floating-point quotient; the model ignores binary rounding in the quotient.
- TaskItem.IsOverdue: `new Date(...)` parsing and the comparison with the clock become the abstract predicate `isPast`. The locale-dependent due-date label is not modelled.
- `isExpanded` is optional in the record. Every reader treats an absent flag as false, so it is a plain boolean here.
- JSX layout, class names, icons and the category colour table are not modelled.
