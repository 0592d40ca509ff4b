/**
 * The task list: its state cells (`tasks`, `loading`, `error`), the fetch that
 * fills them, the confirmed delete that filters one task out, and the choice
 * of what the component renders.
 */
module Tasks {
  import opened Options

  /** A task as the server returns it. */
  datatype Task = Task(id: int, title: string, description: string, dueDate: string)

  /** `tasks.filter((task) => task.id !== id)`: the tasks with another id, in their original order. */
  function Without(tasks: seq<Task>, id: int): (r: seq<Task>)
    ensures |r| <= |tasks|
    ensures forall t :: t in r <==> t in tasks && t.id != id
  {
    if tasks == [] then []
    else
      var rest := Without(tasks[1..], id);
      assert forall t :: t in tasks <==> t == tasks[0] || t in tasks[1..];
      if tasks[0].id != id then [tasks[0]] + rest else rest
  }

  /** Filtering works piecewise over a concatenation, so the relative order of the kept tasks is the original one. */
  lemma {:induction false} WithoutAppend(a: seq<Task>, b: seq<Task>, id: int)
    ensures Without(a + b, id) == Without(a, id) + Without(b, id)
  {
    if a == [] {
      assert a + b == b;
    } else {
      var ab := a + b;
      assert ab[0] == a[0];
      assert ab[1..] == a[1..] + b;
      WithoutAppend(a[1..], b, id);
      if a[0].id != id {
        calc {
          Without(ab, id);
          [a[0]] + Without(a[1..] + b, id);
          [a[0]] + (Without(a[1..], id) + Without(b, id));
          ([a[0]] + Without(a[1..], id)) + Without(b, id);
        }
      }
    }
  }

  /** Each task with another id is kept as often as it occurred; every task with the id is gone. */
  lemma {:induction false} WithoutCounts(tasks: seq<Task>, id: int)
    ensures forall t :: multiset(Without(tasks, id))[t] == if t.id != id then multiset(tasks)[t] else 0
  {
    if tasks != [] {
      WithoutCounts(tasks[1..], id);
      assert tasks == [tasks[0]] + tasks[1..];
      assert multiset(tasks) == multiset{tasks[0]} + multiset(tasks[1..]);
    }
  }

  /** Deleting an id no task has leaves the list as it was. */
  lemma {:induction false} WithoutAbsent(tasks: seq<Task>, id: int)
    requires forall i :: 0 <= i < |tasks| ==> tasks[i].id != id
    ensures Without(tasks, id) == tasks
  {
    if tasks != [] {
      WithoutAbsent(tasks[1..], id);
      assert [tasks[0]] + tasks[1..] == tasks;
    }
  }

  /** Deleting the same id twice is deleting it once. */
  lemma WithoutIdempotent(tasks: seq<Task>, id: int)
    ensures Without(Without(tasks, id), id) == Without(tasks, id)
  {
    var once := Without(tasks, id);
    forall i | 0 <= i < |once| ensures once[i].id != id {
      assert once[i] in once;
    }
    WithoutAbsent(once, id);
  }

  /** What the component shows. */
  datatype View = Loading | ErrorView(message: string) | NoTasks | TaskCards(cards: seq<Task>)

  /** The render branches, first match wins: loading, then error, then the empty list, then the cards. */
  function Render(loading: bool, error: Option<string>, tasks: seq<Task>): (v: View)
    ensures v == Loading <==> loading
    ensures v.ErrorView? <==> !loading && Truthy(error)
    ensures v.ErrorView? ==> v.message == error.value
    ensures v == NoTasks <==> !loading && !Truthy(error) && tasks == []
    ensures v.TaskCards? ==> v.cards == tasks && tasks != []
  {
    if loading then Loading
    else if Truthy(error) then ErrorView(error.value)
    else if |tasks| == 0 then NoTasks
    else TaskCards(tasks)
  }

  /**
   * Nothing resets `error`: once a fetch has failed with a message, every
   * later render that is not loading shows that message, whatever was fetched since.
   */
  lemma ErrorHidesLaterTasks(message: string, tasks: seq<Task>)
    requires message != ""
    ensures Render(false, Some(message), tasks) == ErrorView(message)
  {
  }

  /** How `GET /tasks` ended: the response's `data.data`, or the error's `message`. */
  datatype FetchOutcome = Fetched(data: seq<Task>) | FetchFailed(message: string)

  /** How a delete ended: dismissed in the dialog, refused by the server, or done. */
  datatype DeleteOutcome = Cancelled | DeleteFailed | Deleted

  /** The title of the dialog shown after a confirmed delete. */
  const DeletedTitle := "Deleted!"
  const DeleteErrorTitle := "Error!"

  class TasksList {
    var tasks: seq<Task>
    var loading: bool
    var error: Option<string>

    /** The initial state, before the mount effect starts the first fetch. */
    constructor ()
      ensures tasks == [] && loading && error == None
    {
      tasks := [];
      loading := true;
      error := None;
    }

    /** What the component renders now. */
    function View(): View
      reads this
    {
      Render(loading, error, tasks)
    }

    /** `fetchTasks` up to the request: shows the loading state. */
    method BeginFetch()
      modifies this
      ensures loading
      ensures tasks == old(tasks) && error == old(error)
    {
      loading := true;
    }

    /**
     * `fetchTasks` once the server has answered: a response replaces the list,
     * a failure records its message and keeps the list; either way loading
     * ends. A response does not clear an earlier error.
     */
    method CompleteFetch(outcome: FetchOutcome)
      modifies this
      ensures !loading
      ensures outcome.Fetched? ==> tasks == outcome.data && error == old(error)
      ensures outcome.FetchFailed? ==> tasks == old(tasks) && error == Some(outcome.message)
      ensures outcome.FetchFailed? && outcome.message != "" ==> View() == ErrorView(outcome.message)
      ensures outcome.Fetched? && !Truthy(old(error)) ==>
        View() == if outcome.data == [] then NoTasks else TaskCards(outcome.data)
    {
      loading := false;
      match outcome
      case Fetched(data) =>
        tasks := data;
      case FetchFailed(message) =>
        error := Some(message);
    }

    /**
     * `handleDelete`: only a confirmed delete that the server accepted removes
     * the tasks with that id; the title of the dialog shown afterwards is
     * returned.
     */
    method HandleDelete(taskId: int, outcome: DeleteOutcome) returns (dialog: Option<string>)
      modifies this
      ensures outcome == Deleted ==> tasks == Without(old(tasks), taskId)
      ensures outcome != Deleted ==> tasks == old(tasks)
      ensures loading == old(loading) && error == old(error)
      ensures dialog == match outcome
        case Cancelled => None
        case DeleteFailed => Some(DeleteErrorTitle)
        case Deleted => Some(DeletedTitle)
    {
      match outcome
      case Cancelled =>
        dialog := None;
      case DeleteFailed =>
        dialog := Some(DeleteErrorTitle);
      case Deleted =>
        tasks := Without(tasks, taskId);
        dialog := Some(DeletedTitle);
    }
  }
}
