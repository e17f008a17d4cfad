/**
 * The generic state store (`ModelStore<S>`): it holds one current state,
 * applies intents one at a time, replays the latest state to every new
 * subscriber, and ends its stream for good when an intent throws.
 *
 * The store is specified twice: `StoreValue` with `Processed` is the pure
 * meaning of a store, and the class `ModelStore` is proved to follow it.
 */
module Store {
  import opened Wrappers

  /** The exceptions an intent can throw; each one is fatal to the store running it. */
  datatype Violation =
    | IllegalState(expected: string, actual: string)  // IllegalStateException from the editor's variant guard
    | AssertionError                                  // a failed `assert(...)`
    | IndexOutOfBounds(index: int)                    // writing a list at the index `indexOf` gave back

  /** What an intent does to the state it is given: the next state, or a fatal exception. */
  datatype Reduced<S> = Next(state: S) | Fatal(violation: Violation)

  /** `Intent<S>`: one atomic state transition. */
  type Intent<!S> = S -> Reduced<S>

  /** Everything an observer can learn about a store: its current state, every
      state it has emitted (the first is the initial state) and the error that
      ended its stream, if any. */
  datatype StoreValue<S> = StoreValue(state: S, emitted: seq<S>, error: Option<Violation>)

  /** The latest emission is the current state. */
  ghost predicate Consistent<S>(v: StoreValue<S>) {
    |v.emitted| >= 1 && v.emitted[|v.emitted| - 1] == v.state
  }

  /** A store just built from its initial state. */
  function Created<S>(initial: S): (v: StoreValue<S>)
    ensures v.state == initial
    ensures Consistent(v) && v.error.None?
    ensures |v.emitted| == 1
  {
    StoreValue(initial, [initial], None)
  }

  /** `process(intent)`: once the stream has ended nothing more happens; otherwise
      an accepted intent replaces the state and emits it, and a throwing intent
      leaves the state alone and ends the stream with its exception. */
  function Processed<S>(v: StoreValue<S>, intent: Intent<S>): (r: StoreValue<S>)
    ensures Consistent(v) ==> Consistent(r)
    ensures v.emitted <= r.emitted
    ensures v.error.Some? ==> r == v
    ensures v.error.None? && intent(v.state).Next? ==>
      && r.error.None?
      && |r.emitted| == |v.emitted| + 1
      && r.emitted[|v.emitted|] == r.state == intent(v.state).state
    ensures v.error.None? && intent(v.state).Fatal? ==>
      && r.state == v.state
      && |r.emitted| == |v.emitted|
      && r.error == Some(intent(v.state).violation)
  {
    if v.error.Some? then v
    else
      match intent(v.state)
      case Next(s) => StoreValue(s, v.emitted + [s], None)
      case Fatal(e) => StoreValue(v.state, v.emitted, Some(e))
  }

  /** `process` called once per intent, in order. */
  function ProcessAll<S>(v: StoreValue<S>, intents: seq<Intent<S>>): (r: StoreValue<S>)
    ensures Consistent(v) ==> Consistent(r)
    ensures v.emitted <= r.emitted
    ensures |r.emitted| <= |v.emitted| + |intents|
    ensures v.error.Some? ==> r == v
    ensures r.error.None? ==> |r.emitted| == |v.emitted| + |intents|
    decreases |intents|
  {
    if intents == [] then v else ProcessAll(Processed(v, intents[0]), intents[1..])
  }

  /** While a store's stream has not ended, the k-th call to `process` was
      accepted, and its result, the new state computed from the state left by
      the calls before it, is the k-th new emission. */
  lemma {:induction false} EmissionsInCallOrder<S>(v: StoreValue<S>, intents: seq<Intent<S>>, k: nat)
    requires k < |intents|
    requires ProcessAll(v, intents).error.None?
    ensures |ProcessAll(v, intents).emitted| == |v.emitted| + |intents|
    ensures intents[k](ProcessAll(v, intents[..k]).state) == Next(ProcessAll(v, intents).emitted[|v.emitted| + k])
    decreases k
  {
    var v1 := Processed(v, intents[0]);
    assert ProcessAll(v, intents) == ProcessAll(v1, intents[1..]);
    assert v1.error.None?;
    if k == 0 {
      assert intents[..0] == [];
    } else {
      EmissionsInCallOrder(v1, intents[1..], k - 1);
      assert intents[1..][k - 1] == intents[k];
      assert intents[..k][0] == intents[0] && intents[..k][1..] == intents[1..][..k - 1];
      assert ProcessAll(v, intents[..k]) == ProcessAll(v1, intents[1..][..k - 1]);
    }
  }

  /** Running two batches of intents one after the other is running them in one batch. */
  lemma {:induction false} ProcessAllAppend<S>(v: StoreValue<S>, a: seq<Intent<S>>, b: seq<Intent<S>>)
    ensures ProcessAll(v, a + b) == ProcessAll(ProcessAll(v, a), b)
    decreases |a|
  {
    if a == [] {
      assert a + b == b;
    } else {
      assert (a + b)[0] == a[0] && (a + b)[1..] == a[1..] + b;
      ProcessAllAppend(Processed(v, a[0]), a[1..], b);
    }
  }

  /** What one subscriber (a `TestObserver`) has received: its values, and the
      error that ended the stream, if it has ended. */
  datatype Observation<S> = Observation(values: seq<S>, terminal: Option<Violation>)

  /** The observation of a subscriber that attached when `cursor` was the index
      of the latest emission. */
  function Observe<S>(v: StoreValue<S>, cursor: nat): Observation<S>
    requires cursor <= |v.emitted|
  {
    Observation(v.emitted[cursor..], v.error)
  }

  /** Where a subscriber that attaches now starts: at the latest emission (replay of one). */
  function AttachPoint<S>(v: StoreValue<S>): (cursor: nat)
    requires Consistent(v)
    ensures cursor < |v.emitted|
    ensures Observe(v, cursor).values == [v.state]
  {
    |v.emitted| - 1
  }

  /** A subscriber keeps what it has seen and then receives every later
      emission in order, and the same end of stream as the store. */
  lemma SubscriberSeesLaterEmissions<S>(v: StoreValue<S>, intents: seq<Intent<S>>, cursor: nat)
    requires cursor <= |v.emitted|
    ensures Observe(ProcessAll(v, intents), cursor).values
         == Observe(v, cursor).values + ProcessAll(v, intents).emitted[|v.emitted|..]
    ensures Observe(ProcessAll(v, intents), cursor).terminal == ProcessAll(v, intents).error
  {
    var r := ProcessAll(v, intents);
    assert r.emitted == v.emitted + r.emitted[|v.emitted|..];
  }

  /** A subscriber attaching after some calls to `process` receives the latest
      state, not the initial one, and then exactly the emissions made after it
      attached. */
  lemma LateSubscriber<S>(v: StoreValue<S>, intents: seq<Intent<S>>)
    requires Consistent(v)
    ensures Observe(ProcessAll(v, intents), AttachPoint(v)).values
         == [v.state] + ProcessAll(v, intents).emitted[|v.emitted|..]
  {
    SubscriberSeesLaterEmissions(v, intents, AttachPoint(v));
  }

  /** The store: a class whose fields each call to `process` updates in place. */
  class ModelStore<S> {
    var state: S
    var emitted: seq<S>
    var error: Option<Violation>

    function Value(): StoreValue<S>
      reads this
    {
      StoreValue(state, emitted, error)
    }

    ghost predicate Valid()
      reads this
    {
      Consistent(Value())
    }

    /** True once an intent has thrown: the stream is over. */
    predicate Failed()
      reads this
    {
      error.Some?
    }

    constructor (initial: S)
      ensures Valid() && Value() == Created(initial)
    {
      state := initial;
      emitted := [initial];
      error := None;
    }

    method Process(intent: Intent<S>)
      requires Valid()
      modifies this
      ensures Valid()
      ensures Value() == Processed(old(Value()), intent)
    {
      if error.None? {
        match intent(state)
        case Next(s) =>
          state := s;
          emitted := emitted + [s];
        case Fatal(e) =>
          error := Some(e);
      }
    }

    /** `modelState().subscribe(...)`: returns where the new subscriber starts. */
    method ModelState() returns (cursor: nat)
      requires Valid()
      ensures cursor < |emitted|
      ensures Observe(Value(), cursor) == Observation([state], error)
    {
      cursor := |emitted| - 1;
    }
  }
}
