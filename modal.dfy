/**
 * The task form: its fields, their defaults and edit-mode prefill, and the
 * submit rule that rejects a blank title, otherwise creates or updates one
 * task and then closes the form.
 */
module Modal {
  import opened Wrappers
  import opened Text
  import opened Tasks

  /** The form's three inputs, which are also the payload it submits. */
  datatype Fields = Fields(title: string, description: string, status: string)

  /**
   * What a submit does, in order: ask for a task to be created or updated,
   * and close the form (the caller's `onClose`).
   */
  datatype Effect =
    | CreateTask(payload: Fields)
    | UpdateTask(id: string, payload: Fields)
    | Close

  /** The fields a freshly opened form starts with. */
  const InitialFields: Fields := Fields("", "", "todo")

  /**
   * The edit-mode prefill: with a task, take its title and status and its
   * description or '' when it has none; without one, leave the fields be.
   */
  function Prefill(task: Option<Task>, current: Fields): (r: Fields)
    ensures task.None? ==> r == current
    ensures task.Some? ==> r.title == task.value.title && r.status == task.value.status
    ensures task.Some? && task.value.description.Some? ==> r.description == task.value.description.value
    ensures task.Some? && task.value.description.None? ==> r.description == ""
  {
    match task
    case None => current
    case Some(t) => Fields(t.title, t.description.GetOr(""), t.status)
  }

  /** True of a title that `trim` empties: exactly the empty and whitespace-only titles. */
  predicate IsBlank(title: string): (r: bool)
    ensures r <==> AllWhitespace(title)
  {
    TrimEmptyIff(title);
    Trim(title) == ""
  }

  /**
   * The submit rule. A blank title does nothing at all. Otherwise the form
   * updates the edited task by id, or creates a task, with the fields exactly
   * as entered (the title is not trimmed), and then closes.
   */
  function SubmitEffects(task: Option<Task>, f: Fields): (r: seq<Effect>)
    ensures IsBlank(f.title) <==> r == []
    ensures !IsBlank(f.title) ==> |r| == 2 && r[1] == Close
    ensures !IsBlank(f.title) && task.Some? ==> r[0] == UpdateTask(task.value.id, f)
    ensures !IsBlank(f.title) && task.None? ==> r[0] == CreateTask(f)
  {
    if IsBlank(f.title) then []
    else match task
      case Some(t) => [UpdateTask(t.id, f), Close]
      case None => [CreateTask(f), Close]
  }

  /** The number of `Close` effects in `effects`. */
  function CloseCount(effects: seq<Effect>): nat
  {
    if effects == [] then 0
    else (if effects[0].Close? then 1 else 0) + CloseCount(effects[1..])
  }

  /** The number of create and update requests in `effects`. */
  function RequestCount(effects: seq<Effect>): nat
  {
    if effects == [] then 0
    else (if effects[0].Close? then 0 else 1) + RequestCount(effects[1..])
  }

  /**
   * A blank title (empty or whitespace only) creates nothing, updates nothing
   * and does not close the form.
   */
  lemma BlankTitleDoesNothing(task: Option<Task>, f: Fields)
    requires forall i :: 0 <= i < |f.title| ==> IsWhitespace(f.title[i])
    ensures SubmitEffects(task, f) == []
    ensures CloseCount(SubmitEffects(task, f)) == 0 && RequestCount(SubmitEffects(task, f)) == 0
  {
    TrimEmptyIff(f.title);
  }

  /**
   * A title with a character other than whitespace is accepted: exactly one
   * request is made and the form closes exactly once, after it.
   */
  lemma ValidSubmitClosesOnceAfterRequest(task: Option<Task>, f: Fields)
    requires exists i :: 0 <= i < |f.title| && !IsWhitespace(f.title[i])
    ensures var effects := SubmitEffects(task, f);
      && CloseCount(effects) == 1 && RequestCount(effects) == 1
      && effects[|effects| - 1] == Close && !effects[0].Close?
  {
    TrimEmptyIff(f.title);
    var effects := SubmitEffects(task, f);
    assert effects[1..] == [Close] && [Close][1..] == [];
    assert CloseCount(effects[1..]) == 1 && RequestCount(effects[1..]) == 0;
  }

  /**
   * An edit prefilled from `t`, whose title is then changed to `newTitle`,
   * updates `t.id` with the new title and the task's own description and
   * status, and creates nothing.
   */
  lemma EditSubmitsTaskFields(t: Task, current: Fields, newTitle: string)
    requires Trim(newTitle) != ""
    ensures var f := Prefill(Some(t), current).(title := newTitle);
      SubmitEffects(Some(t), f) == [UpdateTask(t.id, Fields(newTitle, t.description.GetOr(""), t.status)), Close]
  {
  }

  /** A create from the initial fields with only the title and description typed in submits status 'todo'. */
  lemma CreateSubmitsDefaultStatus(title: string, description: string)
    requires Trim(title) != ""
    ensures SubmitEffects(None, InitialFields.(title := title, description := description))
      == [CreateTask(Fields(title, description, "todo")), Close]
  {
  }

  /** The open form: the task it edits (none when creating) and its current inputs. */
  class TaskForm {
    const task: Option<Task>
    var title: string
    var description: string
    var status: string

    function Current(): Fields
      reads this
    {
      Fields(title, description, status)
    }

    /** A new form starts with title '', description '' and status 'todo'. */
    constructor (task: Option<Task>)
      ensures this.task == task
      ensures Current() == InitialFields
    {
      this.task := task;
      title := "";
      description := "";
      status := "todo";
    }

    /** The prefill effect, run when the edited task is set. */
    method ApplyPrefill()
      modifies this
      ensures Current() == Prefill(task, old(Current()))
    {
      match task {
        case Some(t) =>
          title := t.title;
          description := t.description.GetOr("");
          status := t.status;
        case None =>
      }
    }

    method SetTitle(value: string)
      modifies this
      ensures Current() == old(Current()).(title := value)
    {
      title := value;
    }

    method SetDescription(value: string)
      modifies this
      ensures Current() == old(Current()).(description := value)
    {
      description := value;
    }

    method SetStatus(value: string)
      modifies this
      ensures Current() == old(Current()).(status := value)
    {
      status := value;
    }

    /** Submitting reads the inputs and changes none of them. */
    method Submit() returns (effects: seq<Effect>)
      ensures effects == SubmitEffects(task, Current())
      ensures effects == [] <==> Trim(title) == ""
    {
      if Trim(title) == "" {
        return [];
      }
      match task {
        case Some(t) => effects := [UpdateTask(t.id, Fields(title, description, status)), Close];
        case None => effects := [CreateTask(Fields(title, description, status)), Close];
      }
    }
  }
}
