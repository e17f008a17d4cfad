# TodoMVI state layer in Dafny

This project models the Model-View-Intent state layer of the TodoMVI task list
application. A store (`ModelStore<S>`) holds one state value. Every change is an
intent, a function from state to state. The store applies intents one at a time,
keeps the history of states it has emitted, replays the latest state to every new
subscriber, and ends its stream for good when an intent throws.

Two state machines are built on the store:

- **Tasks state.** It holds the task list, the filter and the sync status. Its
  reducers cycle the filter, clear completed tasks, toggle one task, upsert or
  delete by id, and run the reload lifecycle IDLE → PROCESS(REFRESH) → IDLE or
  ERROR.
- **Task editor.** It is either Closed or Editing(task). Every intent names the
  one variant it is written for and throws `IllegalStateException` in the other.

The two factories turn screen events into intents. They also coordinate the two
stores: saving or deleting in the editor changes the task list, and "new task"
or "edit task" on the list opens the editor.

Files:

- `store.dfy`: the store. `StoreValue` with `Processed` is its pure meaning.
  The class `ModelStore` is proved to follow it.
- `model.dfy`: the task, filter, sync state, tasks state and editor state
  values, and the two stores with their initial states.
- `tasks_intents.dfy`: the reducers of `TasksIntentFactory`, as functions on
  `seq<Task>`. Toggle, upsert and delete follow the Kotlin list calls (`find`,
  `indexOf`, `set`, `add`, `remove`) and are proved against index-level
  statements. Clear-completed follows `filter` and is proved through multiset
  counts and concatenation. The filter cycle is proved through a position
  count mod 3.
- `editor_intents.dfy`: the `editorIntent<S>` guard and the editor's intents.
- `factories.dfy`: the two factory classes. Each is proved against a pure
  function, `ListEventStep`, `EditorEventStep` or `TasksStep`, that says
  what one step does to both stores.
- `scenarios.dfy`: the store tests and the end-to-end flows, driven through
  the classes.

How the model resolves choices the code leaves open:

- **Throwing intents.** An exception thrown inside an intent is
  `Reduced.Fatal`. The store keeps its state and its emissions, records the
  error, and ignores every later `process`.
- **Where the exception goes.** `process` does not rethrow:
  `TaskEditorModelStoreTest.kt:91-95` calls `process(invalidIntent)` and then
  asserts on the stream, with no expected exception. A failure therefore ends
  only the stream of the store that ran the intent. When an edit-task side
  effect fails the editor store, the tasks store carries on. When save runs on
  a Closed editor, it fails before it reaches the tasks store.
- **Side-effect intents.** New task and edit task return the unchanged state.
  Their store emits that state again.
- **`assert`.** Kotlin's `assert(...)` is modelled as checked. A failed
  assertion is fatal (`AssertionError`).
- **Refresh after an error.** After a failed fetch the sync state is ERROR.
  Nothing sets it back to IDLE, so the next refresh fails its assertion and ends
  the tasks stream (`ReloadStartOnlyWhenIdle`, `Scenarios.RefreshFails`).
- **Completions and handles.** The completion guard checks only for a
  PROCESS of kind REFRESH. It does not compare cancel handles, so a completion
  from a superseded fetch is accepted while any refresh is in flight
  (`CompletionIgnoresHandle`).

## Model

| member | source | states |
|---|---|---|
| Store.Processed | app/src/test/java/com/dev/lokeshkalal/todomvi/model/TasksModelStoreTest.kt:79-88 | once the stream has ended nothing changes; otherwise an accepted intent adds exactly one emission, the intent applied to the previous state, and a throwing intent keeps state and emissions and records the error; the history is only ever extended |
| Store.Created | app/src/main/java/com/dev/lokeshkalal/todomvi/model/TasksModelStore.kt:8-13 | a new store holds the initial state, has emitted exactly that state and has not failed |
| Store.ProcessAll | app/src/test/java/com/dev/lokeshkalal/todomvi/model/TasksModelStoreTest.kt:58-89 | a series of calls only extends the history, by at most one emission per call, and by exactly one per call while the stream has not ended; a failed store stays as it is |
| Store.EmissionsInCallOrder | app/src/test/java/com/dev/lokeshkalal/todomvi/model/TasksModelStoreTest.kt:79-88 | while the stream is live, the k-th call was accepted and its result, computed from the state the earlier calls left, is the k-th new emission |
| Store.ProcessAllAppend | app/src/test/java/com/dev/lokeshkalal/todomvi/model/TasksModelStoreTest.kt:58-89 | two batches of calls in sequence act like one batch |
| Store.AttachPoint | app/src/test/java/com/dev/lokeshkalal/todomvi/model/TasksModelStoreTest.kt:63-75 | a subscriber attaching now starts at the latest emission and receives exactly the current state |
| Store.SubscriberSeesLaterEmissions | app/src/test/java/com/dev/lokeshkalal/todomvi/model/TasksModelStoreTest.kt:79-88 | a subscriber keeps what it saw, then gets every later emission in order and the same end-of-stream error as the store |
| Store.LateSubscriber | app/src/test/java/com/dev/lokeshkalal/todomvi/model/TasksModelStoreTest.kt:63-88 | a subscriber attaching after earlier calls first receives the latest state, not the initial one, then exactly the emissions made after it attached |
| Store.ModelStore.constructor | app/src/main/java/com/dev/lokeshkalal/todomvi/model/TasksModelStore.kt:8-13 | a new store holds the initial state, has emitted it once and has not failed |
| Store.ModelStore.Process | app/src/test/java/com/dev/lokeshkalal/todomvi/model/TaskEditorModelStoreTest.kt:79-95 | the store's new state, history and error are `Processed` of the old ones |
| Store.ModelStore.ModelState | app/src/test/java/com/dev/lokeshkalal/todomvi/model/TasksModelStoreTest.kt:63-75 | a new subscriber observes exactly `[state]` and the store's current error |
| Model.NewTasksModelStore | app/src/main/java/com/dev/lokeshkalal/todomvi/model/TasksModelStore.kt:8-13 | a fresh tasks store holds and has emitted only `TasksState([], ANY, IDLE)` |
| Model.NewTaskEditorModelStore | app/src/test/java/com/dev/lokeshkalal/todomvi/model/TaskEditorModelStoreTest.kt:40-48 | a fresh editor store holds and has emitted only `Closed` |
| TasksIntents.ToIntent | app/src/main/java/com/dev/lokeshkalal/todomvi/intent/TasksIntentFactory.kt:27-36 | the filter button cycles the filter, clear completed clears, a tick completes that task with that flag, edit-task opens that task, new-task opens a blank task; both refresh events start a reload with the fetch's handle; exactly new-task and edit-task map to side-effect intents; no screen event maps to a completion, upsert or delete |
| TasksIntents.NextFilter | app/src/main/java/com/dev/lokeshkalal/todomvi/intent/TasksIntentFactory.kt:95-103 | the next filter differs from the current one and sits one place further round ANY, ACTIVE, COMPLETE |
| TasksIntents.CycleTimesPosition | app/src/main/java/com/dev/lokeshkalal/todomvi/intent/TasksIntentFactory.kt:95-103 | n cycles move n places round ANY, ACTIVE, COMPLETE, so any series of cycles visits them in that repeating order |
| TasksIntents.CycleThreeTimes | app/src/main/java/com/dev/lokeshkalal/todomvi/intent/TasksIntentFactory.kt:95-103 | three cycles, or any multiple of three, return the original filter |
| TasksIntents.RemoveCompleted | app/src/main/java/com/dev/lokeshkalal/todomvi/intent/TasksIntentFactory.kt:105-109 | no task left after clearing is completed, and the list does not grow |
| TasksIntents.RemoveCompletedCounts | app/src/main/java/com/dev/lokeshkalal/todomvi/intent/TasksIntentFactory.kt:107 | each task that is not completed survives as many times as it occurred; no completed task survives |
| TasksIntents.RemoveCompletedDistributes | app/src/main/java/com/dev/lokeshkalal/todomvi/intent/TasksIntentFactory.kt:107 | clearing works piece by piece over concatenation, so the survivors keep their original order |
| TasksIntents.RemoveCompletedKeepsActiveList | app/src/main/java/com/dev/lokeshkalal/todomvi/intent/TasksIntentFactory.kt:107 | clearing a list with no completed task changes nothing |
| TasksIntents.RemoveCompletedIdempotent | app/src/main/java/com/dev/lokeshkalal/todomvi/intent/TasksIntentFactory.kt:105-109 | clearing twice equals clearing once |
| TasksIntents.IndexOf | app/src/main/java/com/dev/lokeshkalal/todomvi/intent/TasksIntentFactory.kt:60 | Kotlin `indexOf`: -1 exactly when the task is absent, otherwise the first index holding an equal task |
| TasksIntents.FindById | app/src/main/java/com/dev/lokeshkalal/todomvi/intent/TasksIntentFactory.kt:115 | Kotlin `find`: nothing exactly when no task has the id, otherwise the task at the first position with that id |
| TasksIntents.IndexOfFound | app/src/main/java/com/dev/lokeshkalal/todomvi/intent/TasksIntentFactory.kt:115-116 | `indexOf` of what `find` returned is the first position with that id |
| TasksIntents.ToggleCompleted | app/src/main/java/com/dev/lokeshkalal/todomvi/intent/TasksIntentFactory.kt:55-65 | throws index out of bounds (-1) exactly when the task is absent; otherwise same length, with the first position equal to the task now holding its copy with `completed = checked` and every other position unchanged |
| TasksIntents.AddOrUpdate | app/src/main/java/com/dev/lokeshkalal/todomvi/intent/TasksIntentFactory.kt:113-120 | when some task has the id, the first such entry is replaced in place; otherwise the task is appended |
| TasksIntents.AddOrUpdateShape | app/src/main/java/com/dev/lokeshkalal/todomvi/intent/TasksIntentFactory.kt:113-120 | the length is kept when the id is present; otherwise it grows by one with the task last; the task is always in the result |
| TasksIntents.AddOrUpdateOverwrites | app/src/main/java/com/dev/lokeshkalal/todomvi/intent/TasksIntentFactory.kt:113-120 | a second upsert with the same id overwrites the first, as if only the second had happened |
| TasksIntents.AddOrUpdateIdempotent | app/src/main/java/com/dev/lokeshkalal/todomvi/intent/TasksIntentFactory.kt:113-120 | upserting the same task twice equals upserting it once |
| TasksIntents.AddOrUpdatePreservesUniqueIds | app/src/main/java/com/dev/lokeshkalal/todomvi/intent/TasksIntentFactory.kt:113-120 | an upsert never makes two tasks share an id |
| TasksIntents.DeleteById | app/src/main/java/com/dev/lokeshkalal/todomvi/intent/TasksIntentFactory.kt:123-127 | with no task of that id the list is unchanged; otherwise exactly the first task with the id is removed and the others keep their order |
| TasksIntents.DeleteByIdRemovesId | app/src/main/java/com/dev/lokeshkalal/todomvi/intent/TasksIntentFactory.kt:123-127 | with unique ids, deleting keeps them unique and leaves no task with the id |
| TasksIntents.DeleteUndoesAdd | app/src/main/java/com/dev/lokeshkalal/todomvi/intent/TasksIntentFactory.kt:113-127 | deleting the id of a task the upsert just appended restores the original list |
| TasksIntents.Reduce | app/src/main/java/com/dev/lokeshkalal/todomvi/intent/TasksIntentFactory.kt:38-127 | side-effect intents leave the state as it was; only the cycle changes the filter; only the reload lifecycle changes the sync state; cycle, reload start and reload error keep the tasks; only the intents with an assertion or an `indexOf` write can throw |
| TasksIntents.ReloadStartOnlyWhenIdle | app/src/main/java/com/dev/lokeshkalal/todomvi/intent/TasksIntentFactory.kt:71-93 | a reload starts exactly when the sync state is IDLE and sets PROCESS(REFRESH, handle) with the tasks and filter kept; a second start before completion is fatal |
| TasksIntents.StaleCompletionIsFatal | app/src/main/java/com/dev/lokeshkalal/todomvi/intent/TasksIntentFactory.kt:76-84 | a success or error completion arriving when no PROCESS is in flight fails its assertion |
| TasksIntents.CompletionIgnoresHandle | app/src/main/java/com/dev/lokeshkalal/todomvi/intent/TasksIntentFactory.kt:76-84 | while any REFRESH is in flight, a success completion installs the loaded tasks and IDLE and an error completion installs ERROR(cause), whatever handle the refresh holds |
| TasksIntents.ReloadLifecycle | app/src/main/java/com/dev/lokeshkalal/todomvi/intent/TasksIntentFactory.kt:76-91 | from IDLE, start then success gives the loaded tasks and IDLE; start then error gives ERROR(cause) with the tasks kept; the filter survives both |
| EditorIntents.Reduce | app/src/main/java/com/dev/lokeshkalal/todomvi/intent/AddEditTaskIntentFactory.kt:64-71 | an intent's block runs exactly when the state is the variant it expects; the accepted state is then the block's result; otherwise it throws IllegalStateException naming the variant expected and the one found |
| EditorIntents.ToIntent | app/src/main/java/com/dev/lokeshkalal/todomvi/intent/AddEditTaskIntentFactory.kt:26-34 | a title change sets that title, a description change sets that description; save, delete and cancel map to their own intents; every editor-screen event maps to an Editing-only intent |
| EditorIntents.Block | app/src/main/java/com/dev/lokeshkalal/todomvi/intent/AddEditTaskIntentFactory.kt:73-87 | the block of add and edit opens that task; the title block sets only the title and the description block sets only the description of the open copy; save, delete and cancel close the editor |
| EditorIntents.OpenFromClosedOnly | app/src/main/java/com/dev/lokeshkalal/todomvi/intent/AddEditTaskIntentFactory.kt:73-75 | add and edit take Closed to Editing(task) holding exactly that task, and are fatal on an open editor |
| EditorIntents.EditingOnlyIntentsFailWhenClosed | app/src/main/java/com/dev/lokeshkalal/todomvi/intent/AddEditTaskIntentFactory.kt:77-87 | title, description, cancel, save and delete on a Closed editor throw IllegalStateException |
| EditorIntents.FieldEditsTouchOneField | app/src/main/java/com/dev/lokeshkalal/todomvi/intent/AddEditTaskIntentFactory.kt:77-85 | a title change sets only the title of the open copy, and a description change only its description |
| EditorIntents.ClosingIntentsClose | app/src/main/java/com/dev/lokeshkalal/todomvi/intent/AddEditTaskIntentFactory.kt:39-56 | cancel, save and delete take an open editor to Closed |
| EditorIntents.TransitionTable | app/src/main/java/com/dev/lokeshkalal/todomvi/intent/AddEditTaskIntentFactory.kt:73-87 | an accepted intent leaves the editor Editing exactly when it opens or edits; the open task's id is then the opened task's id or the id already open |
| Factories.EditorEffect | app/src/main/java/com/dev/lokeshkalal/todomvi/intent/TasksIntentFactory.kt:38-53 | new task opens the editor on the freshly built task; edit task opens it on the given task only when the list contains it; nothing else reaches the editor |
| Factories.TasksEffect | app/src/main/java/com/dev/lokeshkalal/todomvi/intent/AddEditTaskIntentFactory.kt:39-56 | only save and delete on an open editor reach the tasks store: save upserts the open task, delete removes its id |
| Factories.SaveUpsertsThenCloses | app/src/main/java/com/dev/lokeshkalal/todomvi/intent/AddEditTaskIntentFactory.kt:39-47 | save on Editing(t) upserts t into the tasks store, which emits once, and leaves the editor Closed |
| Factories.DeleteRemovesThenCloses | app/src/main/java/com/dev/lokeshkalal/todomvi/intent/AddEditTaskIntentFactory.kt:49-56 | delete on Editing(t) removes t's id from the tasks store, which emits once, and leaves the editor Closed |
| Factories.CancelDiscards | app/src/main/java/com/dev/lokeshkalal/todomvi/intent/AddEditTaskIntentFactory.kt:87 | cancel on an open editor emits Closed and does not touch the tasks store |
| Factories.TitleChangeEditsCopy | app/src/main/java/com/dev/lokeshkalal/todomvi/intent/AddEditTaskIntentFactory.kt:77-80 | a title change edits the editor's copy and does not touch the tasks store |
| Factories.DescriptionChangeEditsCopy | app/src/main/java/com/dev/lokeshkalal/todomvi/intent/AddEditTaskIntentFactory.kt:82-85 | a description change edits the editor's copy and does not touch the tasks store |
| Factories.EditorEventStep | app/src/main/java/com/dev/lokeshkalal/todomvi/intent/AddEditTaskIntentFactory.kt:22-56 | an ended editor stream changes neither store; both stores stay consistent and their histories are only extended; title change, description change and cancel never change the tasks store, nor does any event on a Closed editor |
| Factories.TasksStep | app/src/main/java/com/dev/lokeshkalal/todomvi/intent/TasksIntentFactory.kt:23-25 | an ended tasks stream changes neither store; both stores stay consistent; each history is extended by at most one emission; only the side-effect intents reach the editor store |
| Factories.ListEventStep | app/src/main/java/com/dev/lokeshkalal/todomvi/intent/TasksIntentFactory.kt:23-36 | an ended tasks stream changes neither store; both stores stay consistent; only new-task and edit-task events reach the editor store |
| Factories.FilterClickCycles | app/src/main/java/com/dev/lokeshkalal/todomvi/intent/TasksIntentFactory.kt:95-103 | on a live tasks store the filter button moves to the next filter and emits that state; the editor is untouched |
| Factories.ClearCompletedClickClears | app/src/main/java/com/dev/lokeshkalal/todomvi/intent/TasksIntentFactory.kt:105-109 | on a live tasks store clear completed drops the completed tasks and emits that state; the editor is untouched |
| Factories.CompleteClickToggles | app/src/main/java/com/dev/lokeshkalal/todomvi/intent/TasksIntentFactory.kt:55-65 | ticking a listed task sets its flag and emits that state; ticking an unlisted task ends the tasks stream with an index-out-of-bounds at -1; the editor is untouched |
| Factories.RefreshEventsStartReload | app/src/main/java/com/dev/lokeshkalal/todomvi/intent/TasksIntentFactory.kt:71-93 | a refresh click or swipe from IDLE starts PROCESS(REFRESH) with the fetch's handle; from any other sync state it ends the tasks stream with an assertion error |
| Factories.EditorEventWhenClosedIsFatal | app/src/test/java/com/dev/lokeshkalal/todomvi/model/TaskEditorModelStoreTest.kt:79-95 | any editor-screen event on a Closed editor keeps its state and emissions, ends its stream with IllegalStateException, and leaves the tasks store alone |
| Factories.EditorEventsKeepIdsUnique | app/src/main/java/com/dev/lokeshkalal/todomvi/intent/AddEditTaskIntentFactory.kt:39-56 | editor events keep the ids of the task list unique |
| Factories.NewTaskOpensEditor | app/src/main/java/com/dev/lokeshkalal/todomvi/intent/TasksIntentFactory.kt:50-53 | new task opens the editor on the freshly built task; the tasks state is kept and emitted again |
| Factories.EditTaskOpensCopy | app/src/main/java/com/dev/lokeshkalal/todomvi/intent/TasksIntentFactory.kt:38-48 | edit task on a listed task opens the editor on it and keeps the tasks state |
| Factories.EditTaskOfUnlistedTaskIsFatal | app/src/main/java/com/dev/lokeshkalal/todomvi/intent/TasksIntentFactory.kt:42 | edit task on an unlisted task fails the assertion: the tasks stream ends with its state and emissions kept, and the editor is untouched |
| Factories.OpenWhileEditingFailsEditorOnly | app/src/main/java/com/dev/lokeshkalal/todomvi/intent/TasksIntentFactory.kt:50-53 | new task while the editor is open fails the editor store only; the tasks store carries on |
| Factories.TasksIntentFactory.Process | app/src/main/java/com/dev/lokeshkalal/todomvi/intent/TasksIntentFactory.kt:23-25 | the stores' new values are `ListEventStep` of the old ones |
| Factories.TasksIntentFactory.Run | app/src/main/java/com/dev/lokeshkalal/todomvi/intent/TasksIntentFactory.kt:38-53 | the stores' new values are `TasksStep` of the old ones: a side effect reaches the editor while the tasks intent runs |
| Factories.TasksIntentFactory.RetrofitSuccess | app/src/main/java/com/dev/lokeshkalal/todomvi/intent/TasksIntentFactory.kt:76-79 | the success callback processes the success completion on the tasks store |
| Factories.TasksIntentFactory.RetrofitError | app/src/main/java/com/dev/lokeshkalal/todomvi/intent/TasksIntentFactory.kt:81-84 | the error callback processes the error completion on the tasks store |
| Factories.AddEditTaskIntentFactory.Process | app/src/main/java/com/dev/lokeshkalal/todomvi/intent/AddEditTaskIntentFactory.kt:22-24 | the stores' new values are `EditorEventStep` of the old ones |
| Scenarios.StartingStates | app/src/test/java/com/dev/lokeshkalal/todomvi/model/TasksModelStoreTest.kt:43-56 | a subscriber to a fresh tasks store sees exactly `TasksState([], ANY, IDLE)` and one to a fresh editor store exactly `Closed`, with no error |
| Scenarios.RefreshSucceeds | app/src/test/java/com/dev/lokeshkalal/todomvi/model/TasksModelStoreTest.kt:58-89 | after a refresh, a late subscriber first gets PROCESS(REFRESH), not IDLE, and after a one-task fetch gets that task with IDLE |
| Scenarios.RefreshFails | app/src/main/java/com/dev/lokeshkalal/todomvi/intent/TasksIntentFactory.kt:71-93 | a failed fetch keeps the tasks and records ERROR(cause); the next refresh then ends the tasks stream |
| Scenarios.EditorTransitions | app/src/test/java/com/dev/lokeshkalal/todomvi/model/TaskEditorModelStoreTest.kt:50-95 | add then cancel shows Editing(task) then Closed; a second cancel ends the stream with IllegalStateException |
| Scenarios.SaveThenDelete | app/src/main/java/com/dev/lokeshkalal/todomvi/intent/AddEditTaskIntentFactory.kt:39-56 | new task, title change and save put the edited task in the list; editing and deleting it empties the list again and closes the editor |

## Left out

- UI: activities, fragments, the task adapter, the statistics screen and the event observables. They are rendering and event capture only.
- `filteredTasks` and its `distinctUntilChanged` use in the task adapter. Its definition lives in `TasksState`, which is not part of this model.
- Dependency injection (the Toothpick wiring and the `@Inject`/`@Singleton` annotations). The factories take their two stores as constructor arguments.
- The REST client, Retrofit and Gson. The fetch is replaced by its two completions, `RetrofitSuccess(loaded)` and `RetrofitError(cause)`. The order of `values.toList()` from the fetched map is whatever order the caller passes.
- RxJava schedulers, threads and `observeOn`. `process` is sequential. When one store's intent processes an intent on the other store, that inner call runs to completion first.
- The order of emissions across the two stores. Each store's own history is modelled; how the two interleave is not.
- `Disposable` cancellation. The cancel handle is an opaque value that is stored and never invoked.
- Generated values. The `Task()` that new-task builds, with its generated id, and the handle from the fetch subscription come in as the `Environment` parameter. The default field values of `Task()` are not part of this model.
- The intermediate `save()/saved()` and `delete()/deleted()` states of `TaskEditorState`. That class is not part of this model; only the net Editing(t) → Closed step is modelled.
- Exception messages. `IllegalStateException`'s message is modelled as the names of the variant expected and the variant found, not as Java class names.
- Kotlin `assert` when JVM assertions are disabled. The model always checks assertions.
- Process types other than REFRESH. `SyncState.PROCESS.Type` is not part of this model beyond REFRESH.
- Logging and the Timber setup.
