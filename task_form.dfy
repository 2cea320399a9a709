/**
 * The add/edit dialog as an object: its `task` state, the `editingTask`
 * it was opened with, and the event handlers that replace the state.
 */
module TaskForm {
  import opened Wrappers
  import opened Text
  import opened Tasks

  class Form {
    /** The record the dialog is editing (`useState`). */
    var task: Task
    /** The stored task the dialog was opened on, or none when adding. */
    var editingTask: Option<EditingTask>
    /** The deadline of the blank form, fixed when the module is loaded. */
    const defaultDeadline: string

    /** A new dialog starts from the blank form, in "add" mode. */
    constructor (defaultDeadline: string)
      ensures this.defaultDeadline == defaultDeadline
      ensures task == DefaultTask(defaultDeadline) && editingTask.None?
    {
      this.defaultDeadline := defaultDeadline;
      task := DefaultTask(defaultDeadline);
      editingTask := None;
    }

    /**
     * The effect run when the dialog is (re)opened: load the stored task,
     * filling in its missing fields, or reset to the blank form.
     * `toIso` and `now` stand for the date library's re-serialisation of
     * a deadline and for the current instant.
     */
    method Open(editing: Option<EditingTask>, toIso: string -> string, now: string)
      modifies this
      ensures editingTask == editing
      ensures editing.Some? ==> task == Normalize(editing.value, toIso, now)
      ensures editing == None ==> task == DefaultTask(defaultDeadline)
    {
      editingTask := editing;
      match editing {
        case Some(e) => task := Normalize(e, toIso, now);
        case None => task := DefaultTask(defaultDeadline);
      }
    }

    /** A text field's change event: field `f` becomes `value`, nothing else moves. */
    method HandleChange(f: Field, value: string)
      modifies this`task
      ensures task == SetField(old(task), f, value)
      ensures Get(task, f) == value
      ensures forall g: Field :: g != f ==> Get(task, g) == Get(old(task), g)
    {
      task := SetField(task, f, value);
    }

    /** The recurrence select: only the rule's pattern changes. */
    method HandleRecurringChange(pattern: string)
      modifies this`task
      ensures task == old(task).(recurring := old(task).recurring.(pattern := pattern))
    {
      task := task.(recurring := task.recurring.(pattern := pattern));
    }

    /**
     * Typing into subtask `idx`: that entry takes the new title and keeps
     * its status, every other entry and every other field stay as they
     * were, and an index outside the list changes nothing.
     */
    method HandleSubtaskChange(idx: int, value: string)
      modifies this`task
      ensures task == old(task).(subtasks := Retitle(old(task).subtasks, idx, value))
      ensures |task.subtasks| == |old(task).subtasks|
      ensures 0 <= idx < |task.subtasks| ==> task.subtasks[idx] == Subtask(value, old(task).subtasks[idx].status)
      ensures forall i :: 0 <= i < |task.subtasks| && i != idx ==> task.subtasks[i] == old(task).subtasks[i]
      ensures !(0 <= idx < |task.subtasks|) ==> task == old(task)
    {
      task := task.(subtasks := Retitle(task.subtasks, idx, value));
    }

    /** "Add Subtask": one untitled, pending entry at the end. */
    method HandleAddSubtask()
      modifies this`task
      ensures task == old(task).(subtasks := old(task).subtasks + [NewSubtask])
    {
      task := task.(subtasks := task.subtasks + [NewSubtask]);
    }

    /**
     * The remove button of subtask `idx`: exactly that entry goes, the
     * rest keep their order; an index outside the list changes nothing.
     */
    method HandleRemoveSubtask(idx: int)
      modifies this`task
      ensures task == old(task).(subtasks := Remove(old(task).subtasks, idx))
      ensures 0 <= idx < |old(task).subtasks| ==>
        task.subtasks == old(task).subtasks[..idx] + old(task).subtasks[idx + 1..]
      ensures !(0 <= idx < |old(task).subtasks|) ==> task == old(task)
    {
      task := task.(subtasks := Remove(task.subtasks, idx));
    }

    /**
     * The save button: reject a blank title, then walk the subtasks and
     * stop at the first blank title; otherwise build the payload and pick
     * the endpoint. The result is exactly `Submit` of the current state.
     */
    method SaveTask() returns (r: Result<Request, SaveError>)
      ensures r == Submit(task, editingTask)
    {
      var t, editing := task, editingTask;
      if IsBlank(t.title) {
        return Failure(TitleRequired);
      }
      var i := 0;
      while i < |t.subtasks|
        invariant 0 <= i <= |t.subtasks|
        invariant forall j :: 0 <= j < i ==> !IsBlank(t.subtasks[j].title)
      {
        if IsBlank(t.subtasks[i].title) {
          assert HasBlankSubtask(t.subtasks);
          return Failure(SubtaskTitleMissing);
        }
        i := i + 1;
      }
      assert !HasBlankSubtask(t.subtasks);
      var payload := PayloadOf(t);
      r := Success(RequestFor(editing, payload));
    }
  }

  /**
   * A dialog opened on a stored task, given one more subtask and saved
   * without typing a title for it, reports the subtask error and no
   * request is produced.
   */
  method UntitledSubtaskScenario(e: EditingTask, toIso: string -> string, now: string)
      returns (r: Result<Request, SaveError>)
    requires !IsBlank(e.title)
    ensures r == Failure(SubtaskTitleMissing)
  {
    var form := new Form("");
    form.Open(Some(e), toIso, now);
    form.HandleAddSubtask();
    NewSubtaskBlocksSave(Normalize(e, toIso, now), Some(e));
    r := form.SaveTask();
  }
}
