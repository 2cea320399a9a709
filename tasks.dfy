/**
 * The task record edited by the add/edit dialog, the pure edits its
 * handlers apply to it, and the validation and payload construction that
 * the save button performs.
 *
 * The enumerated fields (`status`, `priority`, `recurring.pattern`) are
 * plain strings here because the form never checks them: the three lists
 * below only feed the select menus.
 */
module Tasks {
  import opened Wrappers
  import opened Text

  const Priorities: seq<string> := ["low", "medium", "high"]
  const Statuses: seq<string> := ["pending", "in-progress", "completed"]
  const RecurringPatterns: seq<string> := ["none", "daily", "weekly", "custom"]

  /** One entry of the ordered subtask list. */
  datatype Subtask = Subtask(title: string, status: string)

  /** The recurrence rule; `nextDue` is `null` when absent. */
  datatype Recurring = Recurring(pattern: string, nextDue: Option<string>)

  /**
   * The form's state. `id` is the server's `_id`, present only after a
   * stored task was loaded for editing; `deadline` is an ISO-8601 string.
   */
  datatype Task = Task(
    id: Option<string>,
    title: string,
    description: string,
    status: string,
    priority: string,
    deadline: string,
    recurring: Recurring,
    subtasks: seq<Subtask>)

  /**
   * A stored task as handed to the dialog for editing. The server's record
   * may lack a deadline, a recurrence rule or a subtask list.
   */
  datatype EditingTask = EditingTask(
    id: string,
    title: string,
    description: string,
    status: string,
    priority: string,
    deadline: Option<string>,
    recurring: Option<Recurring>,
    subtasks: Option<seq<Subtask>>)

  /** The text fields bound to `handleChange` through their `name`. */
  datatype Field = Title | Description | Status | Priority

  /** `new Date(s)`: kept symbolic, the date built from the string `s`. */
  datatype DateValue = DateOf(source: string)

  /** The request body: the task with its deadline turned into a date. */
  datatype Payload = Payload(
    id: Option<string>,
    title: string,
    description: string,
    status: string,
    priority: string,
    deadline: DateValue,
    recurring: Recurring,
    subtasks: seq<Subtask>)

  datatype Verb = Put | Post

  /** The HTTP request a successful save sends. */
  datatype Request = Request(verb: Verb, path: string, body: Payload)

  /** The two validation failures, in the order they are checked. */
  datatype SaveError = TitleRequired | SubtaskTitleMissing

  /** The text the dialog shows for a validation failure. */
  function Message(e: SaveError): string {
    match e
    case TitleRequired => "Task title is required"
    case SubtaskTitleMissing => "All subtasks must have a title or be removed"
  }

  const NoRecurrence := Recurring("none", None)

  /** The entry "Add Subtask" appends. */
  const NewSubtask := Subtask("", "pending")

  /**
   * The blank form. Its deadline is fixed once, two hours after the
   * moment the module is loaded, and is passed in here.
   */
  function DefaultTask(deadline: string): Task {
    Task(None, "", "", "pending", "medium", deadline, NoRecurrence, [])
  }

  /**
   * The blank form has no id, a blank title, no subtasks, no recurrence,
   * and a status, priority and pattern taken from the select menus' lists.
   */
  lemma DefaultTaskShape(deadline: string)
    ensures var t := DefaultTask(deadline);
      && t.id == None && IsBlank(t.title) && t.subtasks == []
      && t.title == "" && t.description == "" && t.status == "pending" && t.priority == "medium"
      && t.deadline == deadline && t.recurring == NoRecurrence
      && t.status in Statuses && t.priority in Priorities
      && t.recurring.pattern in RecurringPatterns && t.recurring.nextDue == None
  {
  }

  /** The blank form cannot be saved: its title is the first thing checked. */
  lemma DefaultTaskUnsaveable(deadline: string, editing: Option<EditingTask>)
    ensures Submit(DefaultTask(deadline), editing) == Failure(TitleRequired)
    ensures Message(Submit(DefaultTask(deadline), editing).error) == "Task title is required"
  {
  }

  /** The text shown for each failed save: the title message first, then the subtask one. */
  lemma SubmitMessages(t: Task, editing: Option<EditingTask>)
    ensures IsBlank(t.title) ==>
      Message(Submit(t, editing).error) == "Task title is required"
    ensures !IsBlank(t.title) && HasBlankSubtask(t.subtasks) ==>
      Message(Submit(t, editing).error) == "All subtasks must have a title or be removed"
  {
  }

  /**
   * The task the dialog loads for an `editingTask`: its fields copied, a
   * missing or empty deadline replaced by `now`, an existing one
   * re-serialised by `toIso`, a missing rule replaced by "no recurrence"
   * and a missing subtask list by the empty list.
   */
  function Normalize(e: EditingTask, toIso: string -> string, now: string): (t: Task)
    ensures t.id == Some(e.id)
    ensures t.title == e.title && t.description == e.description
    ensures t.status == e.status && t.priority == e.priority
    ensures e.deadline.Some? && e.deadline.value != "" ==> t.deadline == toIso(e.deadline.value)
    ensures e.deadline == None || e.deadline == Some("") ==> t.deadline == now
    ensures e.recurring.Some? ==> t.recurring == e.recurring.value
    ensures e.recurring == None ==> t.recurring == Recurring("none", None)
    ensures e.subtasks.Some? ==> t.subtasks == e.subtasks.value
    ensures e.subtasks == None ==> t.subtasks == []
  {
    var deadline :=
      match e.deadline
      case Some(d) => if d != "" then toIso(d) else now
      case None => now;
    Task(Some(e.id), e.title, e.description, e.status, e.priority, deadline,
         e.recurring.GetOr(NoRecurrence), e.subtasks.GetOr([]))
  }

  /** The value of a text field. */
  function Get(t: Task, f: Field): string {
    match f
    case Title => t.title
    case Description => t.description
    case Status => t.status
    case Priority => t.priority
  }

  /** `{ ...prev, [name]: value }` for one of the text fields. */
  function SetField(t: Task, f: Field, v: string): (r: Task)
    ensures Get(r, f) == v
    ensures forall g: Field :: g != f ==> Get(r, g) == Get(t, g)
    ensures r.id == t.id && r.deadline == t.deadline
    ensures r.recurring == t.recurring && r.subtasks == t.subtasks
  {
    match f
    case Title => t.(title := v)
    case Description => t.(description := v)
    case Status => t.(status := v)
    case Priority => t.(priority := v)
  }

  /** Writing back a field's own value changes nothing. */
  lemma SetFieldToCurrent(t: Task, f: Field)
    ensures SetField(t, f, Get(t, f)) == t
  {
  }

  /** Of two writes to the same field, the later one wins. */
  lemma SetFieldTwice(t: Task, f: Field, v: string, w: string)
    ensures SetField(SetField(t, f, v), f, w) == SetField(t, f, w)
  {
  }

  /**
   * `subs.map((s, i) => i === idx ? { ...s, title: value } : s)`, walking
   * the list from the front with `idx` counted down.
   */
  function Retitle(subs: seq<Subtask>, idx: int, value: string): (r: seq<Subtask>)
    ensures |r| == |subs|
    ensures 0 <= idx < |subs| ==> r[idx] == Subtask(value, subs[idx].status)
    ensures forall i :: 0 <= i < |subs| && i != idx ==> r[i] == subs[i]
    ensures !(0 <= idx < |subs|) ==> r == subs
    decreases |subs|
  {
    if subs == [] then []
    else [if idx == 0 then subs[0].(title := value) else subs[0]] + Retitle(subs[1..], idx - 1, value)
  }

  /** `subs.filter((_, i) => i !== idx)`. */
  function Remove(subs: seq<Subtask>, idx: int): (r: seq<Subtask>)
    ensures 0 <= idx < |subs| ==> r == subs[..idx] + subs[idx + 1..]
    ensures !(0 <= idx < |subs|) ==> r == subs
    ensures |r| == if 0 <= idx < |subs| then |subs| - 1 else |subs|
    decreases |subs|
  {
    if subs == [] then []
    else (if idx == 0 then [] else [subs[0]]) + Remove(subs[1..], idx - 1)
  }

  /** Removing the entry just appended gives back the list before the append. */
  lemma RemoveUndoesAppend(subs: seq<Subtask>, s: Subtask)
    ensures Remove(subs + [s], |subs|) == subs
  {
    assert (subs + [s])[..|subs|] == subs;
  }

  /** Re-entering an entry's own title changes nothing. */
  lemma RetitleToCurrent(subs: seq<Subtask>, idx: int)
    requires 0 <= idx < |subs|
    ensures Retitle(subs, idx, subs[idx].title) == subs
  {
    var r := Retitle(subs, idx, subs[idx].title);
    assert forall i :: 0 <= i < |subs| ==> r[i] == subs[i];
  }

  /** Some subtask's title is blank after trimming. */
  predicate HasBlankSubtask(subs: seq<Subtask>) {
    exists i :: 0 <= i < |subs| && IsBlank(subs[i].title)
  }

  /** `subs.filter((s) => s.title.trim() !== '')`. */
  function KeepTitled(subs: seq<Subtask>): seq<Subtask>
    decreases |subs|
  {
    if subs == [] then []
    else (if IsBlank(subs[0].title) then [] else [subs[0]]) + KeepTitled(subs[1..])
  }

  /**
   * The filter keeps exactly the entries with a non-blank title, is no
   * longer than its input, and removes nothing when no title is blank.
   */
  lemma {:induction false} KeepTitledSpec(subs: seq<Subtask>)
    ensures |KeepTitled(subs)| <= |subs|
    ensures forall s :: s in KeepTitled(subs) ==> s in subs && !IsBlank(s.title)
    ensures forall s :: s in subs && !IsBlank(s.title) ==> s in KeepTitled(subs)
    ensures !HasBlankSubtask(subs) ==> KeepTitled(subs) == subs
    decreases |subs|
  {
    if subs != [] {
      KeepTitledSpec(subs[1..]);
      assert subs == [subs[0]] + subs[1..];
      if !HasBlankSubtask(subs) {
        assert !IsBlank(subs[0].title);
        forall i | 0 <= i < |subs| - 1 ensures !IsBlank(subs[1..][i].title) {
          assert subs[1..][i] == subs[i + 1];
        }
      }
    }
  }

  /** The filter distributes over concatenation: it works entry by entry, in order. */
  lemma {:induction false} KeepTitledAppend(a: seq<Subtask>, b: seq<Subtask>)
    ensures KeepTitled(a + b) == KeepTitled(a) + KeepTitled(b)
    decreases |a|
  {
    if a == [] {
      assert a + b == b;
    } else {
      var head := if IsBlank(a[0].title) then [] else [a[0]];
      assert (a + b)[0] == a[0];
      assert (a + b)[1..] == a[1..] + b;
      assert KeepTitled(a + b) == head + KeepTitled(a[1..] + b);
      assert KeepTitled(a) == head + KeepTitled(a[1..]);
      KeepTitledAppend(a[1..], b);
    }
  }

  /** On one entry the filter keeps it exactly when its title is not blank. */
  lemma KeepTitledSingle(s: Subtask)
    ensures KeepTitled([s]) == if IsBlank(s.title) then [] else [s]
  {
    assert [s][1..] == [];
  }

  /** `{ ...task, deadline: new Date(task.deadline), subtasks: <titled ones> }`. */
  function PayloadOf(t: Task): Payload {
    Payload(t.id, t.title, t.description, t.status, t.priority, DateOf(t.deadline),
            t.recurring, KeepTitled(t.subtasks))
  }

  /** PUT to the stored task's address when editing, POST to the collection otherwise. */
  function RequestFor(editing: Option<EditingTask>, body: Payload): (q: Request)
    ensures q.body == body
    ensures editing.Some? ==> q.verb == Put && q.path == "/api/tasks/" + editing.value.id
    ensures editing == None ==> q.verb == Post && q.path == "/api/tasks"
  {
    match editing
    case Some(e) => Request(Put, "/api/tasks/" + e.id, body)
    case None => Request(Post, "/api/tasks", body)
  }

  /**
   * What pressing save yields: the title check first, then the subtask
   * check, then the request built from the payload.
   */
  function Submit(t: Task, editing: Option<EditingTask>): Result<Request, SaveError> {
    if IsBlank(t.title) then Failure(TitleRequired)
    else if HasBlankSubtask(t.subtasks) then Failure(SubtaskTitleMissing)
    else Success(RequestFor(editing, PayloadOf(t)))
  }

  /**
   * The outcomes of a save. A blank title is reported whatever the
   * subtasks hold; with a title, a blank subtask is reported; otherwise the
   * request carries the task's subtasks unfiltered and in order, and every
   * other field of the task unchanged except the deadline, which becomes
   * a date, and goes to the stored task's address when editing.
   */
  lemma SubmitOutcomes(t: Task, editing: Option<EditingTask>)
    ensures Submit(t, editing) == Failure(TitleRequired) <==> IsBlank(t.title)
    ensures Submit(t, editing) == Failure(SubtaskTitleMissing) <==>
      !IsBlank(t.title) && HasBlankSubtask(t.subtasks)
    ensures Submit(t, editing).Success? <==> !IsBlank(t.title) && !HasBlankSubtask(t.subtasks)
    ensures Submit(t, editing).Success? ==>
      var q := Submit(t, editing).value;
      && q == RequestFor(editing, q.body)
      && q.body.subtasks == t.subtasks
      && q.body.id == t.id && q.body.title == t.title && q.body.description == t.description
      && q.body.status == t.status && q.body.priority == t.priority
      && q.body.deadline == DateOf(t.deadline) && q.body.recurring == t.recurring
  {
    KeepTitledSpec(t.subtasks);
  }

  /**
   * A freshly added, untouched subtask makes the task unsaveable: the save
   * reports the blank title if there is one, the blank subtask otherwise.
   */
  lemma NewSubtaskBlocksSave(t: Task, editing: Option<EditingTask>)
    ensures Submit(t.(subtasks := t.subtasks + [NewSubtask]), editing) ==
      Failure(if IsBlank(t.title) then TitleRequired else SubtaskTitleMissing)
  {
    var subs := t.subtasks + [NewSubtask];
    assert IsBlank(subs[|subs| - 1].title);
    assert HasBlankSubtask(subs);
  }

  /**
   * Adding a subtask and giving it a non-blank title keeps a saveable task
   * saveable, and the new entry is sent last, as pending.
   */
  lemma AddThenTitleSaves(t: Task, editing: Option<EditingTask>, title: string)
    requires Submit(t, editing).Success?
    requires !IsBlank(title)
    ensures
      var t' := t.(subtasks := Retitle(t.subtasks + [NewSubtask], |t.subtasks|, title));
      var r := Submit(t', editing);
      r.Success? && r.value.body.subtasks == t.subtasks + [Subtask(title, "pending")]
  {
    var added := t.subtasks + [NewSubtask];
    var subs := Retitle(added, |t.subtasks|, title);
    var expected := t.subtasks + [Subtask(title, "pending")];
    forall i | 0 <= i < |subs| ensures subs[i] == expected[i] {
      if i < |t.subtasks| { assert added[i] == t.subtasks[i]; }
    }
    assert subs == expected;
    assert !HasBlankSubtask(t.subtasks);
    assert !HasBlankSubtask(subs) by {
      forall i | 0 <= i < |subs| ensures !IsBlank(subs[i].title) {
        if i < |t.subtasks| { assert subs[i] == t.subtasks[i]; }
      }
    }
    KeepTitledSpec(subs);
  }

  /** Removing an entry from a list without blank titles leaves none. */
  lemma RemoveKeepsTitled(subs: seq<Subtask>, idx: int)
    requires !HasBlankSubtask(subs)
    ensures !HasBlankSubtask(Remove(subs, idx))
  {
    var r := Remove(subs, idx);
    if 0 <= idx < |subs| {
      forall i | 0 <= i < |r| ensures !IsBlank(r[i].title) {
        if i < idx { assert r[i] == subs[i]; }
        else { assert r[i] == subs[i + 1]; }
      }
    }
  }

  /** Removing a subtask never makes a saveable task unsaveable. */
  lemma RemoveKeepsSaveable(t: Task, editing: Option<EditingTask>, idx: int)
    requires Submit(t, editing).Success?
    ensures Submit(t.(subtasks := Remove(t.subtasks, idx)), editing).Success?
  {
    assert !IsBlank(t.title) && !HasBlankSubtask(t.subtasks);
    RemoveKeepsTitled(t.subtasks, idx);
  }

  /**
   * The form never checks the enumerated fields: replacing a task's
   * status, priority and pattern by any strings at all does not change
   * whether it saves, and a save sends the replaced values.
   */
  lemma EnumsNotValidated(t: Task, editing: Option<EditingTask>, status: string, priority: string, pattern: string)
    ensures
      var t' := t.(status := status, priority := priority, recurring := t.recurring.(pattern := pattern));
      var r := Submit(t', editing);
      && (r.Success? <==> Submit(t, editing).Success?)
      && (r.Success? ==>
            r.value.body.status == status && r.value.body.priority == priority
            && r.value.body.recurring.pattern == pattern)
  {
  }

  /**
   * A sanity witness for `EnumsNotValidated`: one concrete task whose
   * enumerated values lie outside every list still saves.
   */
  lemma OffListValuesSave(deadline: string)
    ensures
      var t := Task(None, "x", "", "done", "urgent", deadline, Recurring("yearly", None), []);
      t.status !in Statuses && t.priority !in Priorities && t.recurring.pattern !in RecurringPatterns
      && Submit(t, None).Success?
  {
    assert !IsWhitespace('x');
    assert "x"[0] == 'x';
  }

  /**
   * Loading a stored task and saving it without changes sends it back to
   * its own address with its own fields.
   */
  lemma ReloadedTaskGoesBack(e: EditingTask, toIso: string -> string, now: string)
    requires !IsBlank(e.title)
    requires e.subtasks.Some? ==> !HasBlankSubtask(e.subtasks.value)
    ensures
      var r := Submit(Normalize(e, toIso, now), Some(e));
      && r.Success? && r.value.verb == Put && r.value.path == "/api/tasks/" + e.id
      && r.value.body.id == Some(e.id) && r.value.body.title == e.title
      && r.value.body.subtasks == e.subtasks.GetOr([])
  {
    var t := Normalize(e, toIso, now);
    assert t.subtasks == e.subtasks.GetOr([]);
    assert !HasBlankSubtask(t.subtasks);
    KeepTitledSpec(t.subtasks);
  }
}
