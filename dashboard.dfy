/**
 * The task form on the dashboard: its state cells, the field setters, the
 * `handleSubmit` that guards, sends and resets, and the success banner.
 * `Date.now()` is the parameter `now`; the request's outcome is the parameter
 * `created`.
 */
module Dashboard {
  import opened Options

  /** The body sent to `POST /tasks`. */
  datatype NewTask = NewTask(title: string, description: string, dueDate: string)

  const FillAllFields := "Please fill all fields"
  const CreateFailed := "Something went wrong while creating the task"

  /** The guard of `handleSubmit`: every field is truthy, that is non-empty. */
  predicate AllFilled(title: string, description: string, dueDate: string) {
    title != "" && description != "" && dueDate != ""
  }

  class TaskForm {
    var title: string
    var description: string
    var dueDate: string
    /** The `key` of the editor; a new value mounts a fresh, empty editor. */
    var editorKey: int
    /** Passed to the task list as `refreshTrigger`; each change refetches the list. */
    var refreshTasks: int
    var showSuccess: bool

    constructor (now: int)
      ensures title == "" && description == "" && dueDate == ""
      ensures editorKey == now && refreshTasks == 0 && !showSuccess
    {
      title := "";
      description := "";
      dueDate := "";
      editorKey := now;
      refreshTasks := 0;
      showSuccess := false;
    }

    /** The title input's `onChange`. */
    method SetTitle(value: string)
      modifies this
      ensures title == value
      ensures description == old(description) && dueDate == old(dueDate)
      ensures editorKey == old(editorKey) && refreshTasks == old(refreshTasks) && showSuccess == old(showSuccess)
    {
      title := value;
    }

    /** The editor's `onChange`: the HTML it emitted. */
    method SetDescription(html: string)
      modifies this
      ensures description == html
      ensures title == old(title) && dueDate == old(dueDate)
      ensures editorKey == old(editorKey) && refreshTasks == old(refreshTasks) && showSuccess == old(showSuccess)
    {
      description := html;
    }

    /** The date input's `onChange`. */
    method SetDueDate(value: string)
      modifies this
      ensures dueDate == value
      ensures title == old(title) && description == old(description)
      ensures editorKey == old(editorKey) && refreshTasks == old(refreshTasks) && showSuccess == old(showSuccess)
    {
      dueDate := value;
    }

    /** The banner's close button, and the timer two seconds after a success. */
    method HideSuccess()
      modifies this
      ensures !showSuccess
      ensures title == old(title) && description == old(description) && dueDate == old(dueDate)
      ensures editorKey == old(editorKey) && refreshTasks == old(refreshTasks)
    {
      showSuccess := false;
    }

    /**
     * `handleSubmit`, run to completion. With an empty field it only alerts.
     * Otherwise it sends the three fields as they stand, and whatever the
     * outcome empties them and gives the editor the key `now`, so the form is
     * back at the guard; only a created task bumps the refresh counter by one
     * and shows the banner, and only a failure alerts.
     */
    method HandleSubmit(created: bool, now: int) returns (payload: Option<NewTask>, alertMessage: Option<string>)
      modifies this
      ensures !AllFilled(old(title), old(description), old(dueDate)) ==>
        && payload == None && alertMessage == Some(FillAllFields)
        && title == old(title) && description == old(description) && dueDate == old(dueDate)
        && editorKey == old(editorKey) && refreshTasks == old(refreshTasks) && showSuccess == old(showSuccess)
      ensures AllFilled(old(title), old(description), old(dueDate)) ==>
        && payload == Some(NewTask(old(title), old(description), old(dueDate)))
        && title == "" && description == "" && dueDate == "" && editorKey == now
        && refreshTasks == old(refreshTasks) + (if created then 1 else 0)
        && showSuccess == (created || old(showSuccess))
        && alertMessage == (if created then None else Some(CreateFailed))
      ensures payload.Some? ==>
        && AllFilled(payload.value.title, payload.value.description, payload.value.dueDate)
        && !AllFilled(title, description, dueDate)
    {
      if !AllFilled(title, description, dueDate) {
        return None, Some(FillAllFields);
      }
      payload := Some(NewTask(title, description, dueDate));
      alertMessage := None;
      if created {
        refreshTasks := refreshTasks + 1;
        showSuccess := true;
      } else {
        alertMessage := Some(CreateFailed);
      }
      title := "";
      description := "";
      dueDate := "";
      editorKey := now;
    }
  }
}
