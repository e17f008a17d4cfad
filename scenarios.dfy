/**
 * The store tests and the end-to-end flows, driven through the classes: fresh
 * stores, replay to a late subscriber, the reload lifecycle, and the editor's
 * valid and invalid transitions driven from the two factories.
 */
module Scenarios {
  import opened Wrappers
  import opened Store
  import opened Model
  import TasksIntents
  import EditorIntents
  import opened Factories

  /** A subscriber to a fresh store receives exactly the initial state and no error. */
  method StartingStates() returns (tasksSeen: Observation<TasksState>, editorSeen: Observation<TaskEditorState>)
    ensures tasksSeen == Observation([TasksState([], Any, Idle)], None)
    ensures editorSeen == Observation([Closed], None)
  {
    var tasks := NewTasksModelStore();
    var editor := NewTaskEditorModelStore();
    var c := tasks.ModelState();
    tasksSeen := Observe(tasks.Value(), c);
    var d := editor.ModelState();
    editorSeen := Observe(editor.Value(), d);
  }

  /** Refreshing, then subscribing, then completing with one task: the late
      subscriber first receives PROCESS(REFRESH), not the initial IDLE state,
      and then the loaded list with IDLE. */
  method RefreshSucceeds(fetch: CancelHandle, blank: Task, t1: Task) returns (late: Observation<TasksState>)
    ensures late == Observation([TasksState([], Any, Process(Refresh, fetch)), TasksState([t1], Any, Idle)], None)
  {
    var tasks := NewTasksModelStore();
    var editor := NewTaskEditorModelStore();
    var factory := new TasksIntentFactory(tasks, editor);
    factory.Process(TasksIntents.RefreshTasksSwipe, TasksIntents.Environment(blank, fetch));
    var c := tasks.ModelState();
    factory.RetrofitSuccess([t1]);
    late := Observe(tasks.Value(), c);
  }

  /** A failed fetch keeps the tasks and records the cause. The state is then
      ERROR, not IDLE, so the next refresh fails its assert and ends the stream. */
  method RefreshFails(fetch: CancelHandle, blank: Task, cause: Cause) returns (final: TasksState, failed: bool)
    ensures final == TasksState([], Any, Error(cause))
    ensures failed
  {
    var tasks := NewTasksModelStore();
    var editor := NewTaskEditorModelStore();
    var factory := new TasksIntentFactory(tasks, editor);
    var env := TasksIntents.Environment(blank, fetch);
    factory.Process(TasksIntents.RefreshTasksClick, env);
    factory.RetrofitError(cause);
    final := tasks.state;
    factory.Process(TasksIntents.RefreshTasksClick, env);
    failed := tasks.Failed();
  }

  /** Add then cancel, then cancel again: the subscriber sees Editing(task) and
      Closed, and then the stream ends with an IllegalStateException. */
  method EditorTransitions(blank: Task, fetch: CancelHandle) returns (seen: Observation<TaskEditorState>)
    ensures seen == Observation([Editing(blank), Closed], Some(IllegalState("Editing", "Closed")))
  {
    var tasks := NewTasksModelStore();
    var editor := NewTaskEditorModelStore();
    var list := new TasksIntentFactory(tasks, editor);
    var form := new AddEditTaskIntentFactory(editor, tasks);
    var env := TasksIntents.Environment(blank, fetch);
    NewTaskOpensEditor(list.Snapshot(), env);
    list.Process(TasksIntents.NewTaskClick, env);
    var c := editor.ModelState();
    CancelDiscards(form.Snapshot());
    form.Process(EditorIntents.CancelTaskClick);
    assert editor.emitted == [Closed, Editing(blank), Closed];
    EditorEventWhenClosedIsFatal(form.Snapshot(), EditorIntents.CancelTaskClick);
    form.Process(EditorIntents.CancelTaskClick);
    seen := Observe(editor.Value(), c);
  }

  /** New task, title change, save: the task list holds the edited task. Edit
      it again, delete it: the task list is empty again and the editor Closed. */
  method SaveThenDelete(blank: Task, title: string, fetch: CancelHandle)
    returns (afterSave: seq<Task>, afterDelete: seq<Task>, editorState: TaskEditorState)
    ensures afterSave == [blank.(title := title)]
    ensures afterDelete == []
    ensures editorState == Closed
  {
    var tasks := NewTasksModelStore();
    var editor := NewTaskEditorModelStore();
    var list := new TasksIntentFactory(tasks, editor);
    var form := new AddEditTaskIntentFactory(editor, tasks);
    var env := TasksIntents.Environment(blank, fetch);
    var edited := blank.(title := title);
    NewTaskOpensEditor(list.Snapshot(), env);
    list.Process(TasksIntents.NewTaskClick, env);
    TitleChangeEditsCopy(form.Snapshot(), title);
    form.Process(EditorIntents.TitleChange(title));
    SaveUpsertsThenCloses(form.Snapshot(), edited);
    form.Process(EditorIntents.SaveTaskClick);
    afterSave := tasks.state.tasks;
    assert afterSave == [edited];
    EditTaskOpensCopy(list.Snapshot(), edited, env);
    list.Process(TasksIntents.EditTaskClick(edited), env);
    DeleteRemovesThenCloses(form.Snapshot(), edited);
    form.Process(EditorIntents.DeleteTaskClick);
    afterDelete := tasks.state.tasks;
    editorState := editor.state;
  }
}
