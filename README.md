# Task form model

A Dafny model of the add/edit dialog of a small task manager
(`src/components/AddEditTaskModal.js`). The dialog holds one task record:
title, description, status, priority, deadline, a recurrence rule
`{pattern, nextDue}` and an ordered list of subtasks `{title, status}`.
It edits that record through event handlers and, on save, validates it and
builds the HTTP request that creates or updates the task.

Files:

- `wrappers.dfy`: `Option` (an absent JavaScript field) and `Result`.
- `text.dfy`: JavaScript's `String.prototype.trim` over the ECMAScript
  whitespace and line-terminator characters, and the "blank after trimming"
  test the dialog uses. The trimming functions are plain recursive
  definitions. What they do is proved in `TrimStartSpec`, `TrimEndSpec` and
  `TrimSpec`.
- `tasks.dfy`: the record types, the blank form, the loader's
  normalisation, and the pure edits the handlers apply: `SetField`,
  `Retitle` (the indexed `map`), `Remove` (the indexed `filter`) and
  `KeepTitled` (the payload's `filter`). It also holds `Submit`, the
  declarative meaning of a save, and the lemmas about all of these.
- `task_form.dfy`: class `Form`. Its `task` field is the component's state
  and its `editingTask` field is the task the dialog was opened on. Each
  handler replaces `task` in one assignment. `SaveTask` walks the subtasks
  with a loop that stops at the first blank title, and is proved equal to
  `Submit`.

The enumerated fields stay plain strings. The form never checks them; the
three lists only feed the select menus. `EnumsNotValidated` shows that
replacing them by any strings never changes whether a task saves.

The dialog refuses to save while any subtask title is blank, so the filter
at line 74 never removes anything (`SubmitOutcomes`, `KeepTitledSpec`).

## Model

| member | source | states |
|---|---|---|
| Text.TrimStartSpec | src/components/AddEditTaskModal.js:66-74 | leading trim removes a whitespace prefix only; what remains is a suffix that is empty or starts with a kept character |
| Text.TrimEndSpec | src/components/AddEditTaskModal.js:66-74 | trailing trim removes a whitespace suffix only; what remains is a prefix that is empty or ends with a kept character |
| Text.TrimSpec | src/components/AddEditTaskModal.js:66-74 | `trim()` is empty exactly when every character is whitespace; otherwise it starts and ends with a non-whitespace character |
| Text.NonBlankIffVisibleChar | src/components/AddEditTaskModal.js:66-69 | a title passes the "required" test exactly when it holds a character that is not whitespace |
| Text.TrimIdempotent | src/components/AddEditTaskModal.js:66-74 | trimming twice equals trimming once (a sanity witness for the trim model; the dialog never trims twice) |
| Tasks.DefaultTaskShape | src/components/AddEditTaskModal.js:12-20 | the blank form has no id, an empty title and description, status `pending`, priority `medium`, the given deadline, recurrence `{none, null}` and no subtasks; status, priority and pattern are drawn from the menu lists |
| Tasks.DefaultTaskUnsaveable | src/components/AddEditTaskModal.js:12-16 | saving the untouched blank form fails with the title error, whose message is "Task title is required", in both add and edit mode |
| Tasks.Normalize | src/components/AddEditTaskModal.js:25-34 | loading a stored task copies its id and text fields; a missing or empty deadline becomes "now"; a missing rule becomes `{none, null}`; a missing subtask list becomes `[]`; a present deadline is re-serialised by `toIso`; a present rule or subtask list is kept |
| Tasks.SetField | src/components/AddEditTaskModal.js:40-43 | the named field takes the new value; every other field, the id, deadline, rule and subtasks are unchanged |
| Tasks.SetFieldToCurrent | src/components/AddEditTaskModal.js:40-43 | writing a field's own value back leaves the task equal to itself |
| Tasks.SetFieldTwice | src/components/AddEditTaskModal.js:40-43 | of two writes to one field, the later wins |
| Tasks.Retitle | src/components/AddEditTaskModal.js:45-49 | the list keeps its length; entry `idx` gets the new title and keeps its status; every other entry is unchanged; an out-of-range `idx` changes nothing |
| Tasks.RetitleToCurrent | src/components/AddEditTaskModal.js:45-49 | retyping an entry's own title leaves the list unchanged |
| Tasks.Remove | src/components/AddEditTaskModal.js:58-62 | an in-range `idx` removes exactly that entry (`s[..idx] + s[idx+1..]`, length one less, order kept); an out-of-range `idx` changes nothing |
| Tasks.RemoveUndoesAppend | src/components/AddEditTaskModal.js:52-62 | removing the entry just appended gives back the earlier list |
| Tasks.KeepTitledSpec | src/components/AddEditTaskModal.js:74 | every kept entry is an input entry with a non-blank title, every non-blank input entry is kept, the result is no longer than the input, and it is the identity when no title is blank |
| Tasks.KeepTitledAppend | src/components/AddEditTaskModal.js:74 | the filter of a concatenation is the concatenation of the filters, so it keeps order and multiplicity |
| Tasks.KeepTitledSingle | src/components/AddEditTaskModal.js:74 | on one entry the filter keeps it exactly when its title is not blank |
| Tasks.RequestFor | src/components/AddEditTaskModal.js:76-80 | PUT to `/api/tasks/<editingTask._id>` when editing, POST to `/api/tasks` otherwise, carrying the payload |
| Tasks.SubmitOutcomes | src/components/AddEditTaskModal.js:64-80 | a blank title fails with the title error, whatever the subtasks hold; a non-blank title with a blank subtask fails with the subtask error; otherwise the request carries the subtasks unfiltered and in order, every other field except the deadline unchanged, and goes to the endpoint `RequestFor` picks |
| Tasks.SubmitMessages | src/components/AddEditTaskModal.js:66-70 | a blank title fails with the message "Task title is required"; a non-blank title with a blank subtask fails with "All subtasks must have a title or be removed" |
| Tasks.NewSubtaskBlocksSave | src/components/AddEditTaskModal.js:52-70 | after "Add Subtask" with no typing, a save always fails: with the title error if the title is blank, else with the subtask error |
| Tasks.AddThenTitleSaves | src/components/AddEditTaskModal.js:45-75 | adding a subtask and giving it a non-blank title keeps a saveable task saveable; the payload then ends with that subtask, pending |
| Tasks.RemoveKeepsTitled | src/components/AddEditTaskModal.js:58-62 | removing any entry from a list with no blank titles leaves a list with no blank titles |
| Tasks.RemoveKeepsSaveable | src/components/AddEditTaskModal.js:58-70 | removing any subtask never makes a saveable task unsaveable |
| Tasks.EnumsNotValidated | src/components/AddEditTaskModal.js:64-75 | for every task, replacing status, priority and pattern by any strings leaves the save's success unchanged, and a successful save sends the replaced values: nothing validates them |
| Tasks.OffListValuesSave | src/components/AddEditTaskModal.js:18-20 | a concrete task whose status, priority and pattern lie outside the menu lists saves (a sanity witness for `EnumsNotValidated`) |
| Tasks.ReloadedTaskGoesBack | src/components/AddEditTaskModal.js:25-80 | a loaded stored task with a non-blank title and subtasks, saved unchanged, is PUT to its own address with its own id, title and subtasks |
| TaskForm.Form.constructor | src/components/AddEditTaskModal.js:23 | a new dialog starts from the blank form in add mode |
| TaskForm.Form.Open | src/components/AddEditTaskModal.js:25-38 | opening records `editingTask`; the state becomes the normalised stored task, or the blank form when there is none |
| TaskForm.Form.HandleChange | src/components/AddEditTaskModal.js:40-43 | only field `f` changes, to `value` |
| TaskForm.Form.HandleRecurringChange | src/components/AddEditTaskModal.js:133-137 | only the rule's pattern changes; `nextDue` and all other fields are kept |
| TaskForm.Form.HandleSubtaskChange | src/components/AddEditTaskModal.js:45-50 | only the subtask list changes, as `Retitle` states |
| TaskForm.Form.HandleAddSubtask | src/components/AddEditTaskModal.js:52-56 | exactly one `{title:'', status:'pending'}` is appended; earlier entries and all other fields are unchanged |
| TaskForm.Form.HandleRemoveSubtask | src/components/AddEditTaskModal.js:58-62 | only the subtask list changes, as `Remove` states |
| TaskForm.Form.SaveTask | src/components/AddEditTaskModal.js:64-80 | the title check, then the subtask loop that stops at the first blank title, then payload and endpoint: the result is exactly `Submit` of the current state |
| TaskForm.UntitledSubtaskScenario | src/components/AddEditTaskModal.js:52-70 | a dialog opened on a stored task with a non-blank title, given one more subtask and saved without typing, fails with the subtask error (`SubtaskTitleMissing`) |

## Left out

- The HTTP calls (lines 77-79), the toasts (81, 84) and the `onSaved` callback (82). These are I/O. A save returns the chosen verb, path and body as a value. A rejected request is not modelled, nor is the toast of line 84, which shows the error's own message, or "Failed to save task." when that message is empty.
- Date handling of the deadline. The blank form's deadline (line 14) is a constructor parameter. The loader's `dayjs(..).toISOString()` and `dayjs()` (lines 29-31) are the parameters `toIso` and `now`. `new Date(..)` in the payload (line 73) stays symbolic as `DateOf`. The deadline picker's handler (lines 125-128) is not modelled because it is only a date-library call.
- A date string the library cannot parse, which makes `toISOString` throw. The loader then fails, and that failure is not modelled.
- Field values other than strings, and missing fields other than deadline, rule and subtask list. The model assumes a stored task's title, description, status and priority are strings, every subtask has a string title, and the stored task has an `_id`. In the source, a missing task title (line 66) or subtask title (line 68) makes `trim()` throw a TypeError, which line 84 shows as a toast; a missing `_id` turns the path of line 77 into `/api/tasks/undefined`. These paths are not modelled.
- Fields of a stored task other than `_id` and the record's own fields (for example server timestamps), and fields of a stored subtask other than `title` and `status` (for example a subtask id). The spreads at lines 28, 47 and 72 and the filter at line 74 copy them into the state and send them back in the payload; the model drops them.
- HandleChange: only the four names bound to it (title, description, status, priority) are modelled. Any other `name` would write an arbitrary key.
- React's asynchronous, batched state updates. `handleSubtaskChange` builds the new list from the rendered `task` rather than from `prev`; the model applies every handler to the current state, one at a time.
- Rendering, Material UI, `App.js`, `TaskItem.js`, `TaskList.js` and `theme.js`. These are UI. The task service behind `/api/tasks` is not part of this repository.
