/**
 * The task editor (`components/TaskForm.tsx`): the state it opens with, for
 * a new task or one being edited, and what its submit hands to the page.
 */
module TaskFormModel {
  import opened Wrappers
  import opened Text
  import opened Http
  import opened Ledger
  import opened TasksRoute

  /** The five inputs, all text. */
  datatype FormData = FormData(title: string, description: string, tags: string, priority: string, dueDate: string)

  /** The state for a new task. */
  const Empty := FormData("", "", "", DefaultPriority, "")

  /** The `useEffect` reset: the edited task's fields, absent ones as '', or the empty state. */
  function Loaded(task: Option<Task>): (f: FormData)
    ensures task.None? ==> f == Empty && f.priority == "medium"
    ensures task.Some? ==> f.title == task.value.title && f.priority == task.value.priority
  {
    match task
    case None => Empty
    case Some(t) => FormData(t.title, t.description.GetOr(""), t.tags.GetOr(""), t.priority, t.dueDate.GetOr(""))
  }

  /** What `onSave` receives: the form with empty tags and due date left out; the title is sent as typed. */
  datatype TaskPayload = TaskPayload(title: string, description: string, tags: Option<string>, priority: string, dueDate: Option<string>)

  function PayloadOf(f: FormData): (p: TaskPayload)
    ensures p.title == f.title && p.description == f.description && p.priority == f.priority
    ensures p.tags.None? <==> f.tags == ""
    ensures p.dueDate.None? <==> f.dueDate == ""
  {
    TaskPayload(f.title, f.description, NullIfEmpty(f.tags), f.priority, NullIfEmpty(f.dueDate))
  }

  /** The calls a submit makes, in order. */
  datatype Call = Alert(message: string) | Save(payload: TaskPayload) | Close

  /** `handleSubmit`: a blank title raises the alert and saves nothing; otherwise save, then close. */
  function SubmitCalls(f: FormData): (calls: seq<Call>)
    ensures IsBlank(f.title) ==> calls == [Alert(MissingTitleError)]
    ensures !IsBlank(f.title) ==> |calls| == 2 && calls[0].Save? && calls[1] == Close
  {
    if IsBlank(f.title) then [Alert(MissingTitleError)] else [Save(PayloadOf(f)), Close]
  }

  /** The JSON body the server reads: a left-out field is absent, which it reads as ''. */
  function AsNewTask(p: TaskPayload): NewTask {
    NewTask(p.title, p.description, p.tags.GetOr(""), p.priority, p.dueDate.GetOr(""))
  }

  /**
   * Whatever the form saves, the server's POST accepts, and stores the tags
   * and due date as NULL exactly when the inputs were empty.
   */
  lemma SavedTaskAccepted(f: FormData, user: nat, nextId: nat, now: Timestamp)
    requires !IsBlank(f.title)
    ensures PostReply(Some(user), AsNewTask(PayloadOf(f)), nextId) == Ok(nextId)
    ensures var t := StoredTask(user, AsNewTask(PayloadOf(f)), now);
      t.title == f.title && (t.tags.None? <==> f.tags == "") && (t.dueDate.None? <==> f.dueDate == "")
  {
    assert IsBlank("");
  }

  /**
   * Opening a task and saving it untouched sends the task's own values back,
   * as long as it has no empty-text tags or due date.
   */
  lemma LoadThenSave(t: Task)
    requires !IsBlank(t.title) && t.tags != Some("") && t.dueDate != Some("")
    ensures SubmitCalls(Loaded(Some(t))) ==
      [Save(TaskPayload(t.title, t.description.GetOr(""), t.tags, t.priority, t.dueDate)), Close]
  {
  }

  /** The editor's state. */
  class Form {
    var formData: FormData

    constructor (task: Option<Task>)
      ensures formData == Loaded(task)
    {
      formData := Loaded(task);
    }

    /** The `useEffect` that runs when the task or the open state changes. */
    method Load(task: Option<Task>)
      modifies this
      ensures formData == Loaded(task)
    {
      match task {
        case None =>
          formData := Empty;
        case Some(t) =>
          formData := FormData(t.title, t.description.GetOr(""), t.tags.GetOr(""), t.priority, t.dueDate.GetOr(""));
      }
    }

    /** `handleSubmit`: the calls it makes; the form itself is left as it is. */
    method HandleSubmit() returns (calls: seq<Call>)
      ensures calls == SubmitCalls(formData)
    {
      if Trim(formData.title) == "" {
        return [Alert(MissingTitleError)];
      }
      var payload := TaskPayload(formData.title, formData.description, NullIfEmpty(formData.tags), formData.priority,
                                 NullIfEmpty(formData.dueDate));
      calls := [Save(payload)];
      calls := calls + [Close];
    }
  }
}
