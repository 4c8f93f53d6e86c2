/** The `TodoList` component's state and its event handlers. Each handler is
    one atomic step: it issues at most one store call, whose answer is a
    parameter, and only when that call succeeds applies one list
    transformation. */
module Controller {
  import opened Wrappers
  import opened Text
  import opened Tasks
  import opened Counts
  import opened TaskService

  class TodoList {
    var tasks: seq<Task>
    var loading: bool
    var inputValue: string
    var selectedPeriod: string
    var editingTaskId: Option<Id>
    var editingValue: string

    /** The editing slot never holds a draft without a task being edited. */
    ghost predicate Valid()
      reads this
    {
      editingTaskId.None? ==> editingValue == []
    }

    /** The state a freshly mounted screen starts from. */
    constructor ()
      ensures Valid()
      ensures tasks == [] && loading && inputValue == [] && selectedPeriod == Daily
      ensures editingTaskId == None && editingValue == []
    {
      tasks := [];
      loading := true;
      inputValue := [];
      selectedPeriod := Daily;
      editingTaskId := None;
      editingValue := [];
    }

    /** `loadTasks`: fetch every task; on success the list becomes the fetched
        rows (or empty when the store answers null), on failure it stays as
        it was; loading is off in both cases. */
    method LoadTasks(outcome: Outcome<Option<seq<Task>>>) returns (call: Call)
      requires Valid()
      modifies this
      ensures Valid()
      ensures call == FetchTasks
      ensures tasks == match outcome
                       case Ok(Some(data)) => data
                       case Ok(None) => []
                       case Err => old(tasks)
      ensures !loading
      ensures inputValue == old(inputValue) && selectedPeriod == old(selectedPeriod)
      ensures editingTaskId == old(editingTaskId) && editingValue == old(editingValue)
    {
      loading := true;
      call := FetchTasks;
      match outcome {
        case Ok(data) =>
          tasks := if data.Some? then data.value else [];
        case Err =>
      }
      loading := false;
    }

    /** `handleAddTask`: a blank input makes no call and changes nothing;
        otherwise the untrimmed input is sent with the selected period, and
        on success the returned row is appended and the input cleared. */
    method AddTask(outcome: Outcome<Task>) returns (call: Option<Call>)
      requires Valid()
      modifies this
      ensures Valid()
      ensures call == if Trim(old(inputValue)) == [] then None
                      else Some(Call.AddTask(old(inputValue), old(selectedPeriod)))
      ensures tasks == if call.Some? && outcome.Ok? then old(tasks) + [outcome.value] else old(tasks)
      ensures inputValue == if call.Some? && outcome.Ok? then [] else old(inputValue)
      ensures loading == old(loading) && selectedPeriod == old(selectedPeriod)
      ensures editingTaskId == old(editingTaskId) && editingValue == old(editingValue)
    {
      if Trim(inputValue) == [] {
        return None;
      }
      call := Some(Call.AddTask(inputValue, selectedPeriod));
      match outcome {
        case Ok(created) =>
          tasks := tasks + [created];
          inputValue := [];
        case Err =>
      }
    }

    /** `handleStartEdit`: the slot now edits this task, starting from its
        title; an edit in progress is dropped without saving. */
    method StartEdit(task: Task)
      requires Valid()
      modifies this
      ensures Valid()
      ensures editingTaskId == Some(task.id) && editingValue == task.title
      ensures tasks == old(tasks) && loading == old(loading)
      ensures inputValue == old(inputValue) && selectedPeriod == old(selectedPeriod)
    {
      editingTaskId := Some(task.id);
      editingValue := task.title;
    }

    /** `handleCancelEdit`: the slot is emptied, whatever it held. */
    method CancelEdit()
      requires Valid()
      modifies this
      ensures Valid()
      ensures editingTaskId == None && editingValue == []
      ensures tasks == old(tasks) && loading == old(loading)
      ensures inputValue == old(inputValue) && selectedPeriod == old(selectedPeriod)
    {
      editingTaskId := None;
      editingValue := [];
    }

    /** `handleUpdateTask`: a blank draft makes no call and changes nothing;
        otherwise the trimmed draft is sent as the new title of `id`, and on
        success every task with that id is renamed and the slot emptied. On
        failure the list and the slot stay as they were. */
    method UpdateTask(id: Id, outcome: Outcome<()>) returns (call: Option<Call>)
      requires Valid()
      modifies this
      ensures Valid()
      ensures call == if Trim(old(editingValue)) == [] then None
                      else Some(Call.UpdateTask(id, SetTitle(Trim(old(editingValue)))))
      ensures tasks == if call.Some? && outcome.Ok? then Rename(old(tasks), id, Trim(old(editingValue)))
                       else old(tasks)
      ensures (editingTaskId, editingValue) ==
                if call.Some? && outcome.Ok? then (None, []) else (old(editingTaskId), old(editingValue))
      ensures loading == old(loading)
      ensures inputValue == old(inputValue) && selectedPeriod == old(selectedPeriod)
    {
      var title := Trim(editingValue);
      if title == [] {
        return None;
      }
      call := Some(Call.UpdateTask(id, SetTitle(title)));
      match outcome {
        case Ok(_) =>
          tasks := Rename(tasks, id, title);
          CancelEdit();
        case Err =>
      }
    }

    /** `handleDeleteTask`: the delete is always sent; on success the tasks
        with the id are dropped and the slot is emptied exactly when it was
        editing that id. On failure nothing changes. */
    method DeleteTask(id: Id, outcome: Outcome<()>) returns (call: Call)
      requires Valid()
      modifies this
      ensures Valid()
      ensures call == Call.DeleteTask(id)
      ensures tasks == if outcome.Ok? then Remove(old(tasks), id) else old(tasks)
      ensures (editingTaskId, editingValue) ==
                if outcome.Ok? && old(editingTaskId) == Some(id) then (None, [])
                else (old(editingTaskId), old(editingValue))
      ensures loading == old(loading)
      ensures inputValue == old(inputValue) && selectedPeriod == old(selectedPeriod)
    {
      call := Call.DeleteTask(id);
      match outcome {
        case Ok(_) =>
          tasks := Remove(tasks, id);
          if editingTaskId == Some(id) {
            CancelEdit();
          }
        case Err =>
      }
    }

    /** `handleToggleCompleted`: the first task with the id decides the value
        sent; with no such task the lookup throws before any call and nothing
        changes. On success every task with the id has its flag flipped; on
        failure nothing changes. */
    method ToggleCompleted(id: Id, outcome: Outcome<()>) returns (call: Option<Call>)
      requires Valid()
      modifies this
      ensures Valid()
      ensures call == match Find(old(tasks), id)
                      case None => None
                      case Some(task) => Some(Call.UpdateTask(id, SetCompleted(!task.completed)))
      ensures tasks == if call.Some? && outcome.Ok? then Toggle(old(tasks), id) else old(tasks)
      ensures loading == old(loading)
      ensures inputValue == old(inputValue) && selectedPeriod == old(selectedPeriod)
      ensures editingTaskId == old(editingTaskId) && editingValue == old(editingValue)
    {
      var found := Find(tasks, id);
      if found.None? {
        return None;
      }
      call := Some(Call.UpdateTask(id, SetCompleted(!found.value.completed)));
      match outcome {
        case Ok(_) =>
          tasks := Toggle(tasks, id);
        case Err =>
      }
    }

    /** Typing in the new-task input. */
    method ChangeInput(text: string)
      requires Valid()
      modifies this
      ensures Valid()
      ensures inputValue == text
      ensures tasks == old(tasks) && loading == old(loading) && selectedPeriod == old(selectedPeriod)
      ensures editingTaskId == old(editingTaskId) && editingValue == old(editingValue)
    {
      inputValue := text;
    }

    /** Choosing the period of the next new task. */
    method ChangePeriod(period: string)
      requires Valid()
      modifies this
      ensures Valid()
      ensures selectedPeriod == period
      ensures tasks == old(tasks) && loading == old(loading) && inputValue == old(inputValue)
      ensures editingTaskId == old(editingTaskId) && editingValue == old(editingValue)
    {
      selectedPeriod := period;
    }

    /** Typing in the edit input, which is only on screen while a task is
        being edited. */
    method ChangeDraft(text: string)
      requires Valid() && editingTaskId.Some?
      modifies this
      ensures Valid()
      ensures editingValue == text
      ensures tasks == old(tasks) && loading == old(loading)
      ensures inputValue == old(inputValue) && selectedPeriod == old(selectedPeriod)
      ensures editingTaskId == old(editingTaskId)
    {
      editingValue := text;
    }
  }
}
