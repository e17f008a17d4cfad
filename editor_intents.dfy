/**
 * The task editor state machine of `AddEditTaskIntentFactory`: every intent
 * declares the one variant it is defined over (`editorIntent<S>`), runs its
 * block only in that variant and throws `IllegalStateException` otherwise.
 */
module EditorIntents {
  import opened Store
  import opened Model

  /** The events of the editor screen. */
  datatype AddEditTaskViewEvents =
    | TitleChange(title: string)
    | DescriptionChange(description: string)
    | SaveTaskClick
    | DeleteTaskClick
    | CancelTaskClick

  /** The two variants of `TaskEditorState`, as the `S` of `editorIntent<S>`. */
  datatype Variant = ClosedVariant | EditingVariant

  function VariantOf(s: TaskEditorState): Variant {
    if s.Closed? then ClosedVariant else EditingVariant
  }

  function VariantName(v: Variant): string {
    if v.ClosedVariant? then "Closed" else "Editing"
  }

  /** The intents over `TaskEditorState`. */
  datatype EditorIntent =
    | AddTask(task: Task)
    | EditTask(task: Task)
    | EditTitle(title: string)
    | EditDescription(description: string)
    | Cancel
    | Save
    | Delete

  /** The variant each intent is written for. */
  function Expects(i: EditorIntent): Variant {
    if i.AddTask? || i.EditTask? then ClosedVariant else EditingVariant
  }

  /** The block of each intent, run on a state of the variant it expects.
      Save and delete go through `save().saved()` and `delete().deleted()`; only
      their net effect, Closed, is modelled. */
  function Block(i: EditorIntent, s: TaskEditorState): (r: TaskEditorState)
    requires VariantOf(s) == Expects(i)
    ensures r.Editing? <==> (i.AddTask? || i.EditTask? || i.EditTitle? || i.EditDescription?)
    ensures i.AddTask? || i.EditTask? ==> r == Editing(i.task)
    ensures i.EditTitle? ==>
      && r.task.title == i.title
      && r.task.id == s.task.id && r.task.description == s.task.description && r.task.completed == s.task.completed
    ensures i.EditDescription? ==>
      && r.task.description == i.description
      && r.task.id == s.task.id && r.task.title == s.task.title && r.task.completed == s.task.completed
  {
    match i
    case AddTask(task) => Editing(task)
    case EditTask(task) => Editing(task)
    case EditTitle(title) => Editing(s.task.(title := title))
    case EditDescription(description) => Editing(s.task.(description := description))
    case Cancel => Closed
    case Save => Closed
    case Delete => Closed
  }

  /** `editorIntent<S>(block)`: the block runs when the state is variant `S`;
      any other state throws, naming the variant looked for and the one found. */
  function Reduce(i: EditorIntent, s: TaskEditorState): (r: Reduced<TaskEditorState>)
    ensures r.Next? <==> VariantOf(s) == Expects(i)
    ensures r.Next? ==> r.state == Block(i, s)
    ensures r.Fatal? ==> r.violation == IllegalState(VariantName(Expects(i)), VariantName(VariantOf(s)))
  {
    if VariantOf(s) == Expects(i) then Next(Block(i, s))
    else Fatal(IllegalState(VariantName(Expects(i)), VariantName(VariantOf(s))))
  }

  /** The intent as the function a store applies. */
  function AsIntent(i: EditorIntent): Intent<TaskEditorState> {
    s => Reduce(i, s)
  }

  /** `toIntent`: every event of the editor screen is an Editing-only intent. */
  function ToIntent(event: AddEditTaskViewEvents): (i: EditorIntent)
    ensures Expects(i) == EditingVariant
    ensures event.TitleChange? ==> i == EditTitle(event.title)
    ensures event.DescriptionChange? ==> i == EditDescription(event.description)
    ensures event.SaveTaskClick? <==> i.Save?
    ensures event.DeleteTaskClick? <==> i.Delete?
    ensures event.CancelTaskClick? <==> i.Cancel?
  {
    match event
    case TitleChange(title) => EditTitle(title)
    case DescriptionChange(description) => EditDescription(description)
    case SaveTaskClick => Save
    case DeleteTaskClick => Delete
    case CancelTaskClick => Cancel
  }

  /** Add and edit open the editor on exactly the given task, and only from Closed. */
  lemma OpenFromClosedOnly(i: EditorIntent, t: Task)
    requires i.AddTask? || i.EditTask?
    ensures Reduce(i, Closed) == Next(Editing(i.task))
    ensures Reduce(i, Editing(t)) == Fatal(IllegalState("Closed", "Editing"))
  {
  }

  /** Edit, save, delete and cancel on a Closed editor are fatal. */
  lemma EditingOnlyIntentsFailWhenClosed(i: EditorIntent)
    requires !(i.AddTask? || i.EditTask?)
    ensures Reduce(i, Closed) == Fatal(IllegalState("Editing", "Closed"))
  {
  }

  /** A title change edits only the title of the open task, and a description
      change only its description. */
  lemma FieldEditsTouchOneField(t: Task, text: string)
    ensures Reduce(EditTitle(text), Editing(t)).Next?
    ensures var e := Reduce(EditTitle(text), Editing(t)).state;
      e.Editing? && e.task.title == text
      && e.task.id == t.id && e.task.description == t.description && e.task.completed == t.completed
    ensures Reduce(EditDescription(text), Editing(t)).Next?
    ensures var e := Reduce(EditDescription(text), Editing(t)).state;
      e.Editing? && e.task.description == text
      && e.task.id == t.id && e.task.title == t.title && e.task.completed == t.completed
  {
  }

  /** Cancel, save and delete close an open editor. */
  lemma ClosingIntentsClose(i: EditorIntent, t: Task)
    requires i.Cancel? || i.Save? || i.Delete?
    ensures Reduce(i, Editing(t)) == Next(Closed)
  {
  }

  /** The transition table is closed: an accepted intent ends in Editing exactly
      when it opens or edits, and then holds a task whose id is the opened task's
      or the one already open. */
  lemma TransitionTable(i: EditorIntent, s: TaskEditorState)
    requires Reduce(i, s).Next?
    ensures Reduce(i, s).state.Editing? <==> (i.AddTask? || i.EditTask? || i.EditTitle? || i.EditDescription?)
    ensures Reduce(i, s).state.Editing? ==>
      Reduce(i, s).state.task.id == if i.AddTask? || i.EditTask? then i.task.id else s.task.id
  {
  }
}
