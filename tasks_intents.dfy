/**
 * The reducers of `TasksIntentFactory`: each one turns one `TasksState` into
 * the next, or throws. The list operations follow the Kotlin code step by
 * step (`find`, `indexOf`, `set`, `add`, `remove`), and their contracts say
 * what they do in terms of positions in the list.
 */
module TasksIntents {
  import opened Wrappers
  import opened Store
  import opened Model

  /** The events of the task list screen. */
  datatype TasksViewEvent =
    | NewTaskClick
    | FilterTypeClick
    | ClearCompletedClick
    | RefreshTasksClick
    | RefreshTasksSwipe
    | CompleteTaskClick(task: Task, checked: bool)
    | EditTaskClick(task: Task)

  /** What the world outside the model supplies when an intent runs: the task that
      `Task()` constructs (with its generated id) and the handle of the fetch that
      a reload subscribes to. */
  datatype Environment = Environment(newTask: Task, fetch: CancelHandle)

  /** The intents over `TasksState`. */
  datatype TasksIntent =
    | CycleFilter
    | ClearCompleted
    | CompleteTask(task: Task, checked: bool)
    | ReloadStart(cancel: CancelHandle)
    | ReloadSucceeded(loaded: seq<Task>)
    | ReloadFailed(cause: Cause)
    | AddOrUpdateTask(task: Task)
    | DeleteTask(taskId: string)
    | OpenNewTask(blank: Task)
    | OpenEditTask(task: Task)

  /** Side-effect intents leave `TasksState` alone and act on the editor store instead. */
  predicate IsSideEffect(i: TasksIntent) {
    i.OpenNewTask? || i.OpenEditTask?
  }

  /** `toIntent`: the intent each event of the list screen stands for. */
  function ToIntent(event: TasksViewEvent, env: Environment): (i: TasksIntent)
    ensures i.ReloadStart? <==> event.RefreshTasksClick? || event.RefreshTasksSwipe?
    ensures i.ReloadStart? ==> i.cancel == env.fetch
    ensures IsSideEffect(i) <==> event.NewTaskClick? || event.EditTaskClick?
    ensures event.NewTaskClick? ==> i == OpenNewTask(env.newTask)
    ensures !i.ReloadSucceeded? && !i.ReloadFailed? && !i.AddOrUpdateTask? && !i.DeleteTask?
    ensures event.FilterTypeClick? ==> i == CycleFilter
    ensures event.ClearCompletedClick? ==> i == ClearCompleted
    ensures event.CompleteTaskClick? ==> i == CompleteTask(event.task, event.checked)
    ensures event.EditTaskClick? ==> i == OpenEditTask(event.task)
  {
    match event
    case ClearCompletedClick => ClearCompleted
    case FilterTypeClick => CycleFilter
    case RefreshTasksSwipe => ReloadStart(env.fetch)
    case RefreshTasksClick => ReloadStart(env.fetch)
    case NewTaskClick => OpenNewTask(env.newTask)
    case CompleteTaskClick(t, checked) => CompleteTask(t, checked)
    case EditTaskClick(t) => OpenEditTask(t)
  }

  // ---------------------------------------------------------------- filter

  /** Position of a filter in the cycle ANY, ACTIVE, COMPLETE. */
  function FilterPosition(f: FilterType): (p: nat)
    ensures p < 3
  {
    match f
    case Any => 0
    case Active => 1
    case Complete => 2
  }

  /** The filter cycle: ANY -> ACTIVE -> COMPLETE -> ANY. */
  function NextFilter(f: FilterType): (r: FilterType)
    ensures r != f
    ensures FilterPosition(r) == (FilterPosition(f) + 1) % 3
  {
    match f
    case Any => Active
    case Active => Complete
    case Complete => Any
  }

  /** The filter after `n` cycle steps. */
  function CycleTimes(f: FilterType, n: nat): FilterType
  {
    if n == 0 then f else NextFilter(CycleTimes(f, n - 1))
  }

  /** Cycling `n` times moves `n` places round ANY, ACTIVE, COMPLETE. */
  lemma {:induction false} CycleTimesPosition(f: FilterType, n: nat)
    ensures FilterPosition(CycleTimes(f, n)) == (FilterPosition(f) + n) % 3
  {
    if n > 0 {
      CycleTimesPosition(f, n - 1);
    }
  }

  /** Positions identify filters. */
  lemma FilterPositionInjective(f: FilterType, g: FilterType)
    requires FilterPosition(f) == FilterPosition(g)
    ensures f == g
  {
  }

  /** Three cycle steps, or any multiple of three, give back the filter. */
  lemma CycleThreeTimes(f: FilterType, m: nat)
    ensures NextFilter(NextFilter(NextFilter(f))) == f
    ensures CycleTimes(f, 3 * m) == f
  {
    CycleTimesPosition(f, 3 * m);
    FilterPositionInjective(CycleTimes(f, 3 * m), f);
  }

  // ------------------------------------------------------- clear completed

  /** `tasks.filter { !it.completed }`. */
  function RemoveCompleted(tasks: seq<Task>): (r: seq<Task>)
    ensures forall t :: t in r ==> !t.completed
    ensures |r| <= |tasks|
  {
    if tasks == [] then []
    else (if tasks[0].completed then [] else [tasks[0]]) + RemoveCompleted(tasks[1..])
  }

  /** Every task that is not completed survives clearing as often as it occurred;
      no completed one survives. */
  lemma {:induction false} RemoveCompletedCounts(tasks: seq<Task>)
    ensures forall t :: multiset(RemoveCompleted(tasks))[t] == if t.completed then 0 else multiset(tasks)[t]
  {
    if tasks != [] {
      assert tasks == [tasks[0]] + tasks[1..];
      RemoveCompletedCounts(tasks[1..]);
    }
  }

  /** Clearing a list without completed tasks changes nothing. */
  lemma {:induction false} RemoveCompletedKeepsActiveList(tasks: seq<Task>)
    requires forall t :: t in tasks ==> !t.completed
    ensures RemoveCompleted(tasks) == tasks
  {
    if tasks != [] {
      assert forall t :: t in tasks[1..] ==> t in tasks;
      RemoveCompletedKeepsActiveList(tasks[1..]);
    }
  }

  /** Clearing completed tasks twice is clearing them once. */
  lemma RemoveCompletedIdempotent(tasks: seq<Task>)
    ensures RemoveCompleted(RemoveCompleted(tasks)) == RemoveCompleted(tasks)
  {
    RemoveCompletedKeepsActiveList(RemoveCompleted(tasks));
  }

  /** Clearing works piece by piece: the survivors keep their original order. */
  lemma {:induction false} RemoveCompletedDistributes(a: seq<Task>, b: seq<Task>)
    ensures RemoveCompleted(a + b) == RemoveCompleted(a) + RemoveCompleted(b)
  {
    if a == [] {
      assert a + b == b;
    } else {
      var head := if a[0].completed then [] else [a[0]];
      assert (a + b)[0] == a[0] && (a + b)[1..] == a[1..] + b;
      assert RemoveCompleted(a + b) == head + RemoveCompleted(a[1..] + b);
      RemoveCompletedDistributes(a[1..], b);
      assert RemoveCompleted(a) == head + RemoveCompleted(a[1..]);
    }
  }

  // ------------------------------------------------- finding tasks by id

  ghost predicate HasId(tasks: seq<Task>, id: string) {
    exists j :: 0 <= j < |tasks| && tasks[j].id == id
  }

  ghost predicate IsFirstWithId(tasks: seq<Task>, id: string, k: int) {
    && 0 <= k < |tasks|
    && tasks[k].id == id
    && forall j :: 0 <= j < k ==> tasks[j].id != id
  }

  /** No two tasks share an id. */
  ghost predicate UniqueIds(tasks: seq<Task>) {
    forall i, j :: 0 <= i < j < |tasks| ==> tasks[i].id != tasks[j].id
  }

  /** The first position holding a task with the given id. */
  ghost function FirstIdIndex(tasks: seq<Task>, id: string): (k: nat)
    requires HasId(tasks, id)
    ensures IsFirstWithId(tasks, id, k)
  {
    if tasks[0].id == id then 0
    else
      var j :| 0 <= j < |tasks| && tasks[j].id == id;
      assert tasks[1..][j - 1].id == id;
      FirstIdIndex(tasks[1..], id) + 1
  }

  /** The first position is determined by its defining property. */
  lemma FirstIdIndexUnique(tasks: seq<Task>, id: string, k: int)
    requires IsFirstWithId(tasks, id, k)
    ensures HasId(tasks, id) && FirstIdIndex(tasks, id) == k
  {
  }

  /** Kotlin `indexOf(x)`: the first index holding a task equal to `x`, or -1. */
  function IndexOf(tasks: seq<Task>, x: Task): (i: int)
    ensures -1 <= i < |tasks|
    ensures i == -1 <==> x !in tasks
    ensures 0 <= i ==> tasks[i] == x && x !in tasks[..i]
  {
    if tasks == [] then -1
    else if tasks[0] == x then 0
    else
      var j := IndexOf(tasks[1..], x);
      assert tasks[1..] == tasks[..|tasks|][1..];
      if j == -1 then -1
      else
        assert tasks[..j + 1] == [tasks[0]] + tasks[1..][..j];
        j + 1
  }

  /** Kotlin `find { it.id == id }`: the first task with that id, if any. */
  function FindById(tasks: seq<Task>, id: string): (r: Option<Task>)
    ensures r.None? <==> !HasId(tasks, id)
    ensures r.Some? ==> r.value == tasks[FirstIdIndex(tasks, id)]
  {
    if tasks == [] then None
    else if tasks[0].id == id then Some(tasks[0])
    else
      var r := FindById(tasks[1..], id);
      assert HasId(tasks, id) ==> HasId(tasks[1..], id) by {
        if HasId(tasks, id) {
          var j :| 0 <= j < |tasks| && tasks[j].id == id;
          assert tasks[1..][j - 1].id == id;
        }
      }
      assert HasId(tasks[1..], id) ==> HasId(tasks, id) by {
        if HasId(tasks[1..], id) {
          var j :| 0 <= j < |tasks[1..]| && tasks[1..][j].id == id;
          assert tasks[j + 1].id == id;
        }
      }
      if r.Some? then
        FirstIdIndexUnique(tasks, id, FirstIdIndex(tasks[1..], id) + 1);
        r
      else r
  }

  /** `indexOf(find { it.id == id })` is the first position with that id: the
      element `find` returns cannot occur earlier, since an equal task has the same id. */
  lemma IndexOfFound(tasks: seq<Task>, id: string)
    requires HasId(tasks, id)
    ensures IndexOf(tasks, tasks[FirstIdIndex(tasks, id)]) == FirstIdIndex(tasks, id)
  {
  }

  // ------------------------------------------------------- complete toggle

  /** `mutableList[tasks.indexOf(task)] = task.copy(completed = checked)`;
      when the task is absent `indexOf` gives -1 and the write throws. */
  function ToggleCompleted(tasks: seq<Task>, task: Task, checked: bool): (r: Reduced<seq<Task>>)
    ensures r.Fatal? <==> task !in tasks
    ensures r.Fatal? ==> r.violation == IndexOutOfBounds(-1)
    ensures r.Next? ==>
      && |r.state| == |tasks|
      && forall j :: 0 <= j < |tasks| ==>
           r.state[j] == if tasks[j] == task && task !in tasks[..j] then task.(completed := checked) else tasks[j]
  {
    var i := IndexOf(tasks, task);
    if i < 0 then Fatal(IndexOutOfBounds(i))
    else
      assert forall j :: i < j < |tasks| ==> tasks[..j][i] == task;
      Next(tasks[i := task.(completed := checked)])
  }

  // --------------------------------------------------------- add or update

  /** `buildAddOrUpdateTaskIntent`: replace the task `find` finds, at the index
      `indexOf` gives for it, or else `add` at the end. */
  function AddOrUpdate(tasks: seq<Task>, task: Task): (r: seq<Task>)
    ensures HasId(tasks, task.id) ==> r == tasks[FirstIdIndex(tasks, task.id) := task]
    ensures !HasId(tasks, task.id) ==> r == tasks + [task]
  {
    match FindById(tasks, task.id)
    case Some(found) =>
      IndexOfFound(tasks, task.id);
      tasks[IndexOf(tasks, found) := task]
    case None => tasks + [task]
  }

  /** An upsert keeps the length when the id is present and adds one task, at
      the end, when it is not. */
  lemma AddOrUpdateShape(tasks: seq<Task>, task: Task)
    ensures HasId(tasks, task.id) ==> |AddOrUpdate(tasks, task)| == |tasks|
    ensures !HasId(tasks, task.id) ==>
      |AddOrUpdate(tasks, task)| == |tasks| + 1 && AddOrUpdate(tasks, task)[|tasks|] == task
    ensures task in AddOrUpdate(tasks, task)
  {
    if HasId(tasks, task.id) {
      assert AddOrUpdate(tasks, task)[FirstIdIndex(tasks, task.id)] == task;
    } else {
      assert AddOrUpdate(tasks, task)[|tasks|] == task;
    }
  }

  /** After an upsert the id sits at the same first position as before, or at
      the end if it was absent. */
  lemma AddOrUpdateFirstIndex(tasks: seq<Task>, task: Task)
    ensures HasId(AddOrUpdate(tasks, task), task.id)
    ensures FirstIdIndex(AddOrUpdate(tasks, task), task.id)
         == if HasId(tasks, task.id) then FirstIdIndex(tasks, task.id) else |tasks|
  {
    var r := AddOrUpdate(tasks, task);
    if HasId(tasks, task.id) {
      FirstIdIndexUnique(r, task.id, FirstIdIndex(tasks, task.id));
    } else {
      FirstIdIndexUnique(r, task.id, |tasks|);
    }
  }

  /** A second upsert with the same id overwrites the first: the length stays
      and the entry is the second task. */
  lemma AddOrUpdateOverwrites(tasks: seq<Task>, task: Task, task': Task)
    requires task'.id == task.id
    ensures AddOrUpdate(AddOrUpdate(tasks, task), task') == AddOrUpdate(tasks, task')
  {
    AddOrUpdateFirstIndex(tasks, task);
  }

  /** Upserting the same task twice is upserting it once. */
  lemma AddOrUpdateIdempotent(tasks: seq<Task>, task: Task)
    ensures AddOrUpdate(AddOrUpdate(tasks, task), task) == AddOrUpdate(tasks, task)
  {
    AddOrUpdateOverwrites(tasks, task, task);
  }

  /** Upserts never produce two tasks with one id. */
  lemma AddOrUpdatePreservesUniqueIds(tasks: seq<Task>, task: Task)
    requires UniqueIds(tasks)
    ensures UniqueIds(AddOrUpdate(tasks, task))
  {
  }

  // ----------------------------------------------------------- delete by id

  /** `buildDeleteTaskIntent`: `find` the first task with the id and `remove`
      it, which drops the first task equal to it; no-op when no task has the id. */
  function DeleteById(tasks: seq<Task>, id: string): (r: seq<Task>)
    ensures !HasId(tasks, id) ==> r == tasks
    ensures HasId(tasks, id) ==>
      var k := FirstIdIndex(tasks, id);
      |r| == |tasks| - 1 && r == tasks[..k] + tasks[k + 1..]
  {
    match FindById(tasks, id)
    case None => tasks
    case Some(found) =>
      IndexOfFound(tasks, id);
      var i := IndexOf(tasks, found);
      tasks[..i] + tasks[i + 1..]
  }

  /** Deleting keeps ids unique, and with unique ids the id is gone afterwards. */
  lemma DeleteByIdRemovesId(tasks: seq<Task>, id: string)
    requires UniqueIds(tasks)
    ensures UniqueIds(DeleteById(tasks, id))
    ensures !HasId(DeleteById(tasks, id), id)
  {
    var r := DeleteById(tasks, id);
    if HasId(tasks, id) {
      var k := FirstIdIndex(tasks, id);
      assert forall j :: 0 <= j < |r| ==> r[j] == if j < k then tasks[j] else tasks[j + 1];
    }
  }

  /** Deleting a task just added by an upsert gives back the original list. */
  lemma DeleteUndoesAdd(tasks: seq<Task>, task: Task)
    requires !HasId(tasks, task.id)
    ensures DeleteById(AddOrUpdate(tasks, task), task.id) == tasks
  {
    AddOrUpdateFirstIndex(tasks, task);
    assert (tasks + [task])[..|tasks|] == tasks;
  }

  // ---------------------------------------------------------------- reduce

  /** What each intent does to a `TasksState`. `assert` failures and the write at
      index -1 are fatal. */
  function Reduce(i: TasksIntent, s: TasksState): (r: Reduced<TasksState>)
    ensures r.Next? && IsSideEffect(i) ==> r.state == s
    ensures r.Next? && !i.CycleFilter? ==> r.state.filter == s.filter
    ensures r.Next? && !(i.ReloadStart? || i.ReloadSucceeded? || i.ReloadFailed?) ==> r.state.syncState == s.syncState
    ensures r.Next? && (i.CycleFilter? || i.ReloadStart? || i.ReloadFailed?) ==> r.state.tasks == s.tasks
    ensures r.Fatal? ==> i.CompleteTask? || i.ReloadStart? || i.ReloadSucceeded? || i.ReloadFailed? || i.OpenEditTask?
  {
    match i
    case CycleFilter => Next(s.(filter := NextFilter(s.filter)))
    case ClearCompleted => Next(s.(tasks := RemoveCompleted(s.tasks)))
    case CompleteTask(task, checked) =>
      (match ToggleCompleted(s.tasks, task, checked)
       case Next(list) => Next(s.(tasks := list))
       case Fatal(e) => Fatal(e))
    case ReloadStart(cancel) =>
      if s.syncState == Idle then Next(s.(syncState := Process(Refresh, cancel)))
      else Fatal(AssertionError)
    case ReloadSucceeded(loaded) =>
      if s.syncState.Process? && s.syncState.kind == Refresh then Next(s.(tasks := loaded, syncState := Idle))
      else Fatal(AssertionError)
    case ReloadFailed(cause) =>
      if s.syncState.Process? && s.syncState.kind == Refresh then Next(s.(syncState := Error(cause)))
      else Fatal(AssertionError)
    case AddOrUpdateTask(task) => Next(s.(tasks := AddOrUpdate(s.tasks, task)))
    case DeleteTask(taskId) => Next(s.(tasks := DeleteById(s.tasks, taskId)))
    case OpenNewTask(_) => Next(s)
    case OpenEditTask(task) => if task in s.tasks then Next(s) else Fatal(AssertionError)
  }

  /** The intent as the function a store applies. */
  function AsIntent(i: TasksIntent): Intent<TasksState> {
    s => Reduce(i, s)
  }

  /** Starting a reload is accepted exactly when nothing is in flight, and sets
      PROCESS(REFRESH, handle); a second start before completion is fatal. */
  lemma ReloadStartOnlyWhenIdle(s: TasksState, cancel: CancelHandle, cancel': CancelHandle)
    ensures Reduce(ReloadStart(cancel), s).Next? <==> s.syncState == Idle
    ensures Reduce(ReloadStart(cancel), s).Next? ==>
      Reduce(ReloadStart(cancel), s).state == TasksState(s.tasks, s.filter, Process(Refresh, cancel))
      && Reduce(ReloadStart(cancel'), Reduce(ReloadStart(cancel), s).state) == Fatal(AssertionError)
  {
  }

  /** A completion that arrives when no REFRESH is in flight is fatal. */
  lemma StaleCompletionIsFatal(s: TasksState, loaded: seq<Task>, cause: Cause)
    requires !s.syncState.Process?
    ensures Reduce(ReloadSucceeded(loaded), s) == Fatal(AssertionError)
    ensures Reduce(ReloadFailed(cause), s) == Fatal(AssertionError)
  {
  }

  /** A completion checks only that some REFRESH is in flight, not which one:
      it is accepted whatever handle the PROCESS state carries. */
  lemma CompletionIgnoresHandle(s: TasksState, cancel: CancelHandle, loaded: seq<Task>, cause: Cause)
    requires s.syncState == Process(Refresh, cancel)
    ensures Reduce(ReloadSucceeded(loaded), s) == Next(TasksState(loaded, s.filter, Idle))
    ensures Reduce(ReloadFailed(cause), s) == Next(TasksState(s.tasks, s.filter, Error(cause)))
  {
  }

  /** The reload lifecycle IDLE -> PROCESS(REFRESH) -> IDLE with the loaded
      tasks, or -> ERROR(cause) with the tasks kept. The filter survives both. */
  lemma ReloadLifecycle(s: TasksState, cancel: CancelHandle, loaded: seq<Task>, cause: Cause)
    requires s.syncState == Idle
    ensures var p := Reduce(ReloadStart(cancel), s).state;
      && Reduce(ReloadSucceeded(loaded), p) == Next(TasksState(loaded, s.filter, Idle))
      && Reduce(ReloadFailed(cause), p) == Next(TasksState(s.tasks, s.filter, Error(cause)))
  {
  }
}
