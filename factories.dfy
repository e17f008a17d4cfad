/**
 * The two intent factories: they turn view events into intents, hand them to
 * their own store, and coordinate with the other store. A step of either
 * factory is specified by a function on the values of both stores
 * (`ListEventStep`, `EditorEventStep`, `TasksStep`), and the classes are
 * proved to follow those functions.
 *
 * An exception thrown by an intent ends the stream of the store that runs
 * it and of no other store: `process` itself does not rethrow.
 */
module Factories {
  import opened Wrappers
  import opened Store
  import opened Model
  import TasksIntents
  import EditorIntents

  /** The values of the two stores side by side. */
  datatype Stores = Stores(tasks: StoreValue<TasksState>, editor: StoreValue<TaskEditorState>)

  /** The editor intent a side-effect tasks intent processes when it runs on
      `s`: `buildNewTaskIntent` opens a new task, `buildEditTaskIntent` opens a
      copy of a task once its `assert(tasks.contains(task))` has passed. */
  function EditorEffect(i: TasksIntents.TasksIntent, s: TasksState): (e: Option<EditorIntents.EditorIntent>)
    ensures e.Some? <==> i.OpenNewTask? || (i.OpenEditTask? && i.task in s.tasks)
    ensures i.OpenNewTask? ==> e == Some(EditorIntents.AddTask(i.blank))
    ensures e.Some? && i.OpenEditTask? ==> e == Some(EditorIntents.EditTask(i.task))
  {
    match i
    case OpenNewTask(blank) => Some(EditorIntents.AddTask(blank))
    case OpenEditTask(task) => if task in s.tasks then Some(EditorIntents.EditTask(task)) else None
    case _ => None
  }

  /** The tasks intent that save and delete process when they run on `s`;
      only an open editor gets that far (the guard throws first otherwise). */
  function TasksEffect(i: EditorIntents.EditorIntent, s: TaskEditorState): (e: Option<TasksIntents.TasksIntent>)
    ensures e.Some? <==> s.Editing? && (i.Save? || i.Delete?)
    ensures e.Some? && i.Save? ==> e == Some(TasksIntents.AddOrUpdateTask(s.task))
    ensures e.Some? && i.Delete? ==> e == Some(TasksIntents.DeleteTask(s.task.id))
  {
    match s
    case Closed => None
    case Editing(task) =>
      if i.Save? then Some(TasksIntents.AddOrUpdateTask(task))
      else if i.Delete? then Some(TasksIntents.DeleteTask(task.id))
      else None
  }

  /** `tasksModelStore.process(intent)`: nothing once the tasks stream has
      ended; otherwise the intent's side effect on the editor store happens
      while it runs, and then its result is applied to the tasks store. */
  function TasksStep(st: Stores, i: TasksIntents.TasksIntent): (r: Stores)
    ensures st.tasks.error.Some? ==> r == st
    ensures Consistent(st.tasks) && Consistent(st.editor) ==> Consistent(r.tasks) && Consistent(r.editor)
    ensures st.tasks.emitted <= r.tasks.emitted && st.editor.emitted <= r.editor.emitted
    ensures |r.tasks.emitted| <= |st.tasks.emitted| + 1 && |r.editor.emitted| <= |st.editor.emitted| + 1
    ensures !TasksIntents.IsSideEffect(i) ==> r.editor == st.editor
  {
    if st.tasks.error.Some? then st
    else
      var editor :=
        match EditorEffect(i, st.tasks.state)
        case None => st.editor
        case Some(e) => Processed(st.editor, EditorIntents.AsIntent(e));
      Stores(Processed(st.tasks, TasksIntents.AsIntent(i)), editor)
  }

  /** `TasksIntentFactory.process(event)`. */
  function ListEventStep(st: Stores, event: TasksIntents.TasksViewEvent, env: TasksIntents.Environment): (r: Stores)
    ensures st.tasks.error.Some? ==> r == st
    ensures Consistent(st.tasks) && Consistent(st.editor) ==> Consistent(r.tasks) && Consistent(r.editor)
    ensures !event.NewTaskClick? && !event.EditTaskClick? ==> r.editor == st.editor
  {
    TasksStep(st, TasksIntents.ToIntent(event, env))
  }

  /** `AddEditTaskIntentFactory.process(event)`: nothing once the editor stream
      has ended; otherwise save and delete first process their intent on the
      tasks store, and then the editor store applies the editor intent. */
  function EditorEventStep(st: Stores, event: EditorIntents.AddEditTaskViewEvents): (r: Stores)
    ensures st.editor.error.Some? ==> r == st
    ensures Consistent(st.tasks) && Consistent(st.editor) ==> Consistent(r.tasks) && Consistent(r.editor)
    ensures st.tasks.emitted <= r.tasks.emitted && st.editor.emitted <= r.editor.emitted
    ensures !event.SaveTaskClick? && !event.DeleteTaskClick? ==> r.tasks == st.tasks
    ensures st.editor.state.Closed? ==> r.tasks == st.tasks
  {
    var i := EditorIntents.ToIntent(event);
    if st.editor.error.Some? then st
    else
      var tasks :=
        match TasksEffect(i, st.editor.state)
        case None => st.tasks
        case Some(e) => Processed(st.tasks, TasksIntents.AsIntent(e));
      Stores(tasks, Processed(st.editor, EditorIntents.AsIntent(i)))
  }

  // ------------------------------------------------------ coordination facts

  /** Save on an open editor upserts the open task into the tasks store, which
      emits once, and closes the editor. */
  lemma SaveUpsertsThenCloses(st: Stores, t: Task)
    requires Consistent(st.tasks) && Consistent(st.editor)
    requires st.tasks.error.None? && st.editor.error.None? && st.editor.state == Editing(t)
    ensures var r := EditorEventStep(st, EditorIntents.SaveTaskClick);
      && r.editor.error.None? && r.editor.state == Closed
      && r.tasks.error.None?
      && r.tasks.state == st.tasks.state.(tasks := TasksIntents.AddOrUpdate(st.tasks.state.tasks, t))
      && r.tasks.emitted == st.tasks.emitted + [r.tasks.state]
  {
  }

  /** Delete on an open editor removes the open task's id from the tasks store
      and closes the editor. */
  lemma DeleteRemovesThenCloses(st: Stores, t: Task)
    requires Consistent(st.tasks) && Consistent(st.editor)
    requires st.tasks.error.None? && st.editor.error.None? && st.editor.state == Editing(t)
    ensures var r := EditorEventStep(st, EditorIntents.DeleteTaskClick);
      && r.editor.error.None? && r.editor.state == Closed
      && r.tasks.error.None?
      && r.tasks.state == st.tasks.state.(tasks := TasksIntents.DeleteById(st.tasks.state.tasks, t.id))
      && r.tasks.emitted == st.tasks.emitted + [r.tasks.state]
  {
  }

  /** Cancel on an open editor discards the copy: the editor emits Closed and
      the tasks store is untouched. */
  lemma CancelDiscards(st: Stores)
    requires Consistent(st.editor)
    requires st.editor.error.None? && st.editor.state.Editing?
    ensures var r := EditorEventStep(st, EditorIntents.CancelTaskClick);
      && r.tasks == st.tasks
      && r.editor.error.None? && r.editor.state == Closed
      && r.editor.emitted == st.editor.emitted + [Closed]
  {
  }

  /** A title change on an open editor edits the open copy only. */
  lemma TitleChangeEditsCopy(st: Stores, title: string)
    requires Consistent(st.editor)
    requires st.editor.error.None? && st.editor.state.Editing?
    ensures var r := EditorEventStep(st, EditorIntents.TitleChange(title));
      && r.tasks == st.tasks
      && r.editor.error.None? && r.editor.state == Editing(st.editor.state.task.(title := title))
  {
  }

  /** A description change on an open editor edits the open copy only. */
  lemma DescriptionChangeEditsCopy(st: Stores, description: string)
    requires Consistent(st.editor)
    requires st.editor.error.None? && st.editor.state.Editing?
    ensures var r := EditorEventStep(st, EditorIntents.DescriptionChange(description));
      && r.tasks == st.tasks
      && r.editor.error.None? && r.editor.state == Editing(st.editor.state.task.(description := description))
  {
  }

  /** Every editor-screen event on a Closed editor is fatal: the editor keeps
      its state and emissions and its stream ends; the tasks store is untouched. */
  lemma EditorEventWhenClosedIsFatal(st: Stores, event: EditorIntents.AddEditTaskViewEvents)
    requires st.editor.error.None? && st.editor.state == Closed
    ensures var r := EditorEventStep(st, event);
      && r.tasks == st.tasks
      && r.editor.state == Closed && r.editor.emitted == st.editor.emitted
      && r.editor.error == Some(IllegalState("Editing", "Closed"))
  {
  }

  /** A save or delete keeps the ids of the task list unique. */
  lemma EditorEventsKeepIdsUnique(st: Stores, event: EditorIntents.AddEditTaskViewEvents)
    requires TasksIntents.UniqueIds(st.tasks.state.tasks)
    ensures TasksIntents.UniqueIds(EditorEventStep(st, event).tasks.state.tasks)
  {
    var r := EditorEventStep(st, event);
    if st.editor.error.None? && st.editor.state.Editing? && st.tasks.error.None? {
      var t := st.editor.state.task;
      if event.SaveTaskClick? {
        TasksIntents.AddOrUpdatePreservesUniqueIds(st.tasks.state.tasks, t);
      } else if event.DeleteTaskClick? {
        TasksIntents.DeleteByIdRemovesId(st.tasks.state.tasks, t.id);
      }
    }
  }

  /** The filter button cycles the filter of a live tasks store, which emits
      the new state; the editor is not involved. */
  lemma FilterClickCycles(st: Stores, env: TasksIntents.Environment)
    requires st.tasks.error.None?
    ensures var r := ListEventStep(st, TasksIntents.FilterTypeClick, env);
      && r.editor == st.editor && r.tasks.error.None?
      && r.tasks.state == st.tasks.state.(filter := TasksIntents.NextFilter(st.tasks.state.filter))
      && r.tasks.emitted == st.tasks.emitted + [r.tasks.state]
  {
  }

  /** Clear completed drops the completed tasks of a live tasks store. */
  lemma ClearCompletedClickClears(st: Stores, env: TasksIntents.Environment)
    requires st.tasks.error.None?
    ensures var r := ListEventStep(st, TasksIntents.ClearCompletedClick, env);
      && r.editor == st.editor && r.tasks.error.None?
      && r.tasks.state == st.tasks.state.(tasks := TasksIntents.RemoveCompleted(st.tasks.state.tasks))
      && r.tasks.emitted == st.tasks.emitted + [r.tasks.state]
  {
  }

  /** Ticking a task sets `completed = checked` on its first occurrence; ticking
      an unlisted task ends the tasks stream with the write at index -1. */
  lemma CompleteClickToggles(st: Stores, t: Task, checked: bool, env: TasksIntents.Environment)
    requires st.tasks.error.None?
    ensures var r := ListEventStep(st, TasksIntents.CompleteTaskClick(t, checked), env);
      && r.editor == st.editor
      && (t in st.tasks.state.tasks ==>
            && r.tasks.error.None?
            && r.tasks.state == st.tasks.state.(tasks := TasksIntents.ToggleCompleted(st.tasks.state.tasks, t, checked).state)
            && r.tasks.emitted == st.tasks.emitted + [r.tasks.state])
      && (t !in st.tasks.state.tasks ==>
            r.tasks == st.tasks.(error := Some(IndexOutOfBounds(-1))))
  {
  }

  /** Both refresh events start a reload with the fetch's handle from IDLE,
      and end the tasks stream otherwise. */
  lemma RefreshEventsStartReload(st: Stores, event: TasksIntents.TasksViewEvent, env: TasksIntents.Environment)
    requires event.RefreshTasksClick? || event.RefreshTasksSwipe?
    requires st.tasks.error.None?
    ensures var r := ListEventStep(st, event, env);
      && r.editor == st.editor
      && (st.tasks.state.syncState == Idle ==>
            && r.tasks.error.None?
            && r.tasks.state == st.tasks.state.(syncState := Process(Refresh, env.fetch))
            && r.tasks.emitted == st.tasks.emitted + [r.tasks.state])
      && (st.tasks.state.syncState != Idle ==>
            r.tasks == st.tasks.(error := Some(AssertionError)))
  {
  }

  /** New task opens the editor on the freshly built task; the tasks state
      stays as it was and is emitted again. */
  lemma NewTaskOpensEditor(st: Stores, env: TasksIntents.Environment)
    requires Consistent(st.tasks)
    requires st.tasks.error.None? && st.editor.error.None? && st.editor.state == Closed
    ensures var r := ListEventStep(st, TasksIntents.NewTaskClick, env);
      && r.editor.state == Editing(env.newTask) && r.editor.error.None?
      && r.tasks.state == st.tasks.state && r.tasks.error.None?
      && r.tasks.emitted == st.tasks.emitted + [st.tasks.state]
  {
  }

  /** Edit task opens the editor on a copy of a listed task. */
  lemma EditTaskOpensCopy(st: Stores, t: Task, env: TasksIntents.Environment)
    requires st.tasks.error.None? && st.editor.error.None? && st.editor.state == Closed
    requires t in st.tasks.state.tasks
    ensures var r := ListEventStep(st, TasksIntents.EditTaskClick(t), env);
      && r.editor.state == Editing(t) && r.editor.error.None?
      && r.tasks.state == st.tasks.state && r.tasks.error.None?
  {
  }

  /** Editing a task that is not listed fails the tasks store's assert: its
      stream ends, its state is kept, and the editor is not opened. */
  lemma EditTaskOfUnlistedTaskIsFatal(st: Stores, t: Task, env: TasksIntents.Environment)
    requires st.tasks.error.None? && t !in st.tasks.state.tasks
    ensures var r := ListEventStep(st, TasksIntents.EditTaskClick(t), env);
      && r.tasks.error == Some(AssertionError)
      && r.tasks.state == st.tasks.state && r.tasks.emitted == st.tasks.emitted
      && r.editor == st.editor
  {
  }

  /** Opening the editor while it is already open fails the editor store only;
      the tasks store carries on. */
  lemma OpenWhileEditingFailsEditorOnly(st: Stores, env: TasksIntents.Environment)
    requires st.tasks.error.None? && st.editor.error.None? && st.editor.state.Editing?
    ensures var r := ListEventStep(st, TasksIntents.NewTaskClick, env);
      && r.editor.error == Some(IllegalState("Closed", "Editing"))
      && r.editor.state == st.editor.state
      && r.tasks.error.None? && r.tasks.state == st.tasks.state
  {
  }

  // ------------------------------------------------------------- factories

  /** `TasksIntentFactory`. */
  class TasksIntentFactory {
    const tasksModelStore: ModelStore<TasksState>
    const taskEditorModelStore: ModelStore<TaskEditorState>

    constructor (tasksModelStore: ModelStore<TasksState>, taskEditorModelStore: ModelStore<TaskEditorState>)
      ensures this.tasksModelStore == tasksModelStore
      ensures this.taskEditorModelStore == taskEditorModelStore
    {
      this.tasksModelStore := tasksModelStore;
      this.taskEditorModelStore := taskEditorModelStore;
    }

    ghost predicate Valid()
      reads tasksModelStore, taskEditorModelStore
    {
      tasksModelStore.Valid() && taskEditorModelStore.Valid()
    }

    function Snapshot(): Stores
      reads tasksModelStore, taskEditorModelStore
    {
      Stores(tasksModelStore.Value(), taskEditorModelStore.Value())
    }

    /** `process(event)`: `tasksModelStore.process(toIntent(event))`. */
    method Process(event: TasksIntents.TasksViewEvent, env: TasksIntents.Environment)
      requires Valid()
      modifies tasksModelStore, taskEditorModelStore
      ensures Valid()
      ensures Snapshot() == ListEventStep(old(Snapshot()), event, env)
    {
      Run(TasksIntents.ToIntent(event, env));
    }

    /** `chainedIntent` from the fetch's success callback. */
    method RetrofitSuccess(loadedTasks: seq<Task>)
      requires Valid()
      modifies tasksModelStore, taskEditorModelStore
      ensures Valid()
      ensures Snapshot() == TasksStep(old(Snapshot()), TasksIntents.ReloadSucceeded(loadedTasks))
    {
      Run(TasksIntents.ReloadSucceeded(loadedTasks));
    }

    /** `chainedIntent` from the fetch's error callback. */
    method RetrofitError(cause: Cause)
      requires Valid()
      modifies tasksModelStore, taskEditorModelStore
      ensures Valid()
      ensures Snapshot() == TasksStep(old(Snapshot()), TasksIntents.ReloadFailed(cause))
    {
      Run(TasksIntents.ReloadFailed(cause));
    }

    /** The tasks store runs one intent; a side-effect intent processes its
        editor intent while it runs. */
    method Run(i: TasksIntents.TasksIntent)
      requires Valid()
      modifies tasksModelStore, taskEditorModelStore
      ensures Valid()
      ensures Snapshot() == TasksStep(old(Snapshot()), i)
    {
      if !tasksModelStore.Failed() {
        var effect := EditorEffect(i, tasksModelStore.state);
        if effect.Some? {
          taskEditorModelStore.Process(EditorIntents.AsIntent(effect.value));
        }
        tasksModelStore.Process(TasksIntents.AsIntent(i));
      }
    }
  }

  /** `AddEditTaskIntentFactory`. */
  class AddEditTaskIntentFactory {
    const taskEditorModelStore: ModelStore<TaskEditorState>
    const tasksModelStore: ModelStore<TasksState>

    constructor (taskEditorModelStore: ModelStore<TaskEditorState>, tasksModelStore: ModelStore<TasksState>)
      ensures this.taskEditorModelStore == taskEditorModelStore
      ensures this.tasksModelStore == tasksModelStore
    {
      this.taskEditorModelStore := taskEditorModelStore;
      this.tasksModelStore := tasksModelStore;
    }

    ghost predicate Valid()
      reads tasksModelStore, taskEditorModelStore
    {
      tasksModelStore.Valid() && taskEditorModelStore.Valid()
    }

    function Snapshot(): Stores
      reads tasksModelStore, taskEditorModelStore
    {
      Stores(tasksModelStore.Value(), taskEditorModelStore.Value())
    }

    /** `process(viewEvent)`: `taskEditorModelStore.process(toIntent(viewEvent))`;
        save and delete process their tasks intent while they run. */
    method Process(event: EditorIntents.AddEditTaskViewEvents)
      requires Valid()
      modifies tasksModelStore, taskEditorModelStore
      ensures Valid()
      ensures Snapshot() == EditorEventStep(old(Snapshot()), event)
    {
      var i := EditorIntents.ToIntent(event);
      if !taskEditorModelStore.Failed() {
        var effect := TasksEffect(i, taskEditorModelStore.state);
        if effect.Some? {
          tasksModelStore.Process(TasksIntents.AsIntent(effect.value));
        }
        taskEditorModelStore.Process(EditorIntents.AsIntent(i));
      }
    }
  }
}
