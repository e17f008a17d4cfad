/**
 * The values held by the two stores, and the two stores of the application
 * (`TasksModelStore`, `TaskEditorModelStore`) with their initial states.
 */
module Model {
  import opened Store

  /** A task; a value, compared field by field. */
  datatype Task = Task(id: string, title: string, description: string, completed: bool)

  /** Which tasks the list shows. */
  datatype FilterType = Any | Active | Complete

  /** The kind of operation in flight (`SyncState.PROCESS.Type`); only REFRESH is used. */
  datatype ProcessType = Refresh

  /** Opaque handle that cancels an outstanding fetch (`disposable::dispose`). */
  datatype CancelHandle = CancelHandle(token: nat)

  /** Opaque failure of a fetch (the `Throwable` handed to the error callback). */
  datatype Cause = Cause(message: string)

  /** Sync status of the task list: IDLE, PROCESS(type, cancel) or ERROR(cause). */
  datatype SyncState = Idle | Process(kind: ProcessType, cancel: CancelHandle) | Error(cause: Cause)

  datatype TasksState = TasksState(tasks: seq<Task>, filter: FilterType, syncState: SyncState)

  /** The editor: nothing open, or an in-progress copy of one task. */
  datatype TaskEditorState = Closed | Editing(task: Task)

  /** `TasksModelStore`: a store of `TasksState` that starts with no tasks, filter ANY and IDLE. */
  method NewTasksModelStore() returns (store: ModelStore<TasksState>)
    ensures fresh(store) && store.Valid()
    ensures store.Value() == Created(TasksState([], Any, Idle))
  {
    store := new ModelStore(TasksState([], Any, Idle));
  }

  /** `TaskEditorModelStore`: a store of `TaskEditorState` that starts Closed. */
  method NewTaskEditorModelStore() returns (store: ModelStore<TaskEditorState>)
    ensures fresh(store) && store.Valid()
    ensures store.Value() == Created(Closed)
  {
    store := new ModelStore(Closed);
  }
}
