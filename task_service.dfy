/** The store client as the controller sees it: which call a handler issues,
    with which arguments, and the outcome the store answers with. The store
    itself (a hosted table reached over the network) is not modelled. */
module TaskService {
  import opened Tasks

  /** The answer of one store call: the returned value, or a thrown error. */
  datatype Outcome<+T> = Ok(value: T) | Err

  /** The field patch an update sends. */
  datatype Patch = SetTitle(title: string) | SetCompleted(completed: bool)

  /** One outbound store call, named after the client function it goes
      through: `addTask`, `fetchTasks`, `updateTask` or `deleteTask`. */
  datatype Call =
    | AddTask(title: string, period: string)
    | FetchTasks
    | UpdateTask(id: Id, patch: Patch)
    | DeleteTask(id: Id)
}
