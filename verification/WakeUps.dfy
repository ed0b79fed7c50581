/** A queue's wake-ups: pushes, and subscribers that check the queue and wait to be notified.

A notification wakes one parked subscriber, or is kept as a single permit when none is parked. The
check and the wait are two steps, with any number of pushes between them. */
module WakeUps {
  import opened Options

  // Where a subscriber is: at rest between two polls; in a poll and about to check the queue; past an
  // empty check, about to wait; waiting; notified; or with a message that it has yet to settle. A
  // stream that goes away leaves, unless it is in the middle of a poll.
  datatype Subscriber = Resting | Checking | Emptied | Parked | Woken | Busy

  // How many messages wait, whether a permit is kept, and the subscribers.
  datatype State = State(waiting: nat, permit: bool, subscribers: map<nat, Subscriber>) {
    function With(subscriber: nat, place: Subscriber): State {
      this.(subscribers := subscribers[subscriber := place])
    }

    predicate Is(subscriber: nat, place: Subscriber) {
      subscriber in subscribers && subscribers[subscriber] == place
    }
  }

  datatype Step =
    | Join(subscriber: nat)
    | Push(woken: Option<nat>)
    | Poll(subscriber: nat)
    | Check(subscriber: nat)
    | Wait(subscriber: nat)
    | Resume(subscriber: nat)
    | Done(subscriber: nat)
    | Leave(subscriber: nat, woken: Option<nat>)

  // Whom a notification wakes: a parked subscriber, or nobody when none is parked.
  predicate CanWake(state: State, woken: Option<nat>) {
    match woken
    case Some(subscriber) => state.Is(subscriber, Parked)
    case None => forall subscriber <- state.subscribers :: state.subscribers[subscriber] != Parked
  }

  function Notify(state: State, woken: Option<nat>): State {
    match woken
    case Some(subscriber) => state.With(subscriber, Woken)
    case None => state.(permit := true)
  }

  function Without(state: State, subscriber: nat): State {
    state.(subscribers := state.subscribers - {subscriber})
  }

  ghost predicate Enabled(state: State, step: Step) {
    match step
    case Join(subscriber) => subscriber !in state.subscribers
    case Push(woken) => CanWake(state, woken)
    case Poll(subscriber) => state.Is(subscriber, Resting)
    case Check(subscriber) => state.Is(subscriber, Checking)
    case Wait(subscriber) => state.Is(subscriber, Emptied)
    case Resume(subscriber) => state.Is(subscriber, Woken)
    case Done(subscriber) => state.Is(subscriber, Busy)
    case Leave(subscriber, woken) =>
      && subscriber in state.subscribers
      && state.subscribers[subscriber] != Checking && state.subscribers[subscriber] != Emptied
      && CanWake(Without(state, subscriber), woken)
  }

  function Apply(state: State, step: Step): State
    requires Enabled(state, step)
  {
    match step
    case Join(subscriber) => state.With(subscriber, Resting)
    case Push(woken) => Notify(state.(waiting := state.waiting + 1), woken)
    case Poll(subscriber) => state.With(subscriber, Checking)
    case Check(subscriber) =>
      if state.waiting > 0 then state.(waiting := state.waiting - 1).With(subscriber, Busy)
      else state.With(subscriber, Emptied)
    case Wait(subscriber) =>
      if state.permit then state.(permit := false).With(subscriber, Checking) else state.With(subscriber, Parked)
    case Resume(subscriber) => state.With(subscriber, Checking)
    case Done(subscriber) => state.With(subscriber, Resting)
    // A wait that was notified and goes away passes its notification on, and a message that wasn't
    // settled goes back to the queue.
    case Leave(subscriber, woken) =>
      var left := Without(state, subscriber);
      if state.subscribers[subscriber] == Woken then Notify(left, woken)
      else if state.subscribers[subscriber] == Busy then Notify(left.(waiting := left.waiting + 1), woken)
      else left
  }

  // Will check the queue without being woken.
  predicate Active(state: State, subscriber: nat) {
    subscriber in state.subscribers
    && state.subscribers[subscriber] != Emptied && state.subscribers[subscriber] != Parked
  }

  // While messages wait, a permit is kept or somebody will come for them.
  ghost predicate Awake(state: State) {
    state.waiting > 0 ==> state.permit || exists subscriber <- state.subscribers :: Active(state, subscriber)
  }

  const START := State(0, false, map[])

  // A leave strands no message: the one that leaves wasn't at rest, nothing waits, a permit is kept,
  // or somebody else is active.
  ghost predicate Harmless(state: State, step: Step) {
    step.Leave? ==>
      || !state.Is(step.subscriber, Resting) || state.waiting == 0 || state.permit
      || exists other <- state.subscribers :: other != step.subscriber && Active(state, other)
  }

  lemma AwakeStep(state: State, step: Step)
    requires Awake(state) && Enabled(state, step) && Harmless(state, step)
    ensures Awake(Apply(state, step))
  {
    var next := Apply(state, step);
    if next.waiting > 0 && !next.permit {
      var active: nat;
      if step.Push? {
        active := step.woken.value;
      } else if step.Leave? && (state.Is(step.subscriber, Woken) || state.Is(step.subscriber, Busy)) {
        active := step.woken.value;
      } else if step.Leave? {
        active :| active in state.subscribers && active != step.subscriber && Active(state, active);
      } else if step.Wait? && state.permit {
        active := step.subscriber;
      } else {
        active :| active in state.subscribers && Active(state, active);
      }
      assert active in next.subscribers && Active(next, active);
    }
  }

  // A step keeps somebody awake for the waiting messages exactly when it is no harmful leave.
  lemma LeavingKeepsAwake(state: State, step: Step)
    requires Awake(state) && Enabled(state, step)
    ensures Awake(Apply(state, step)) <==> Harmless(state, step)
  {
    var next := Apply(state, step);
    if Harmless(state, step) {
      AwakeStep(state, step);
    } else if other :| other in next.subscribers && Active(next, other) {
      assert other in state.subscribers && other != step.subscriber && Active(state, other);
    }
  }

  ghost predicate Run(first: State, steps: seq<Step>, last: State)
    decreases |steps|
  {
    if steps == [] then first == last
    else Enabled(first, steps[0]) && Run(Apply(first, steps[0]), steps[1..], last)
  }

  // No leave of a run is harmful.
  ghost predicate AllHarmless(first: State, steps: seq<Step>)
    decreases |steps|
  {
    steps != [] && Enabled(first, steps[0]) ==>
      Harmless(first, steps[0]) && AllHarmless(Apply(first, steps[0]), steps[1..])
  }

  lemma {:induction false} AwakeRun(first: State, steps: seq<Step>, last: State)
    requires Awake(first) && Run(first, steps, last) && AllHarmless(first, steps)
    ensures Awake(last)
    decreases |steps|
  {
    if steps != [] {
      AwakeStep(first, steps[0]);
      hide Awake, Apply, Harmless;
      AwakeRun(Apply(first, steps[0]), steps[1..], last);
    }
  }

  // A message waits, all subscribers are parked, and no permit is kept.
  ghost predicate Stranded(state: State) {
    && state.waiting > 0 && !state.permit
    && forall subscriber <- state.subscribers :: state.subscribers[subscriber] == Parked
  }

  // No lost wake-up: in every interleaving without a harmful leave, no message waits while everybody
  // is parked and no permit is kept.
  lemma NoLostWakeUp(steps: seq<Step>, last: State)
    requires Run(START, steps, last) && AllHarmless(START, steps)
    ensures !Stranded(last)
  {
    AwakeRun(START, steps, last);
  }

  // A message is stranded once the subscribers past an empty check start to wait, as they are about to.
  ghost predicate Strands(state: State) {
    exists waits: seq<Step>, last: State :: OnlyWaits(waits) && Run(state, waits, last) && Stranded(last)
  }

  predicate OnlyWaits(steps: seq<Step>) {
    forall step <- steps :: step.Wait?
  }

  lemma {:induction false} WaitsAreHarmless(first: State, waits: seq<Step>)
    requires OnlyWaits(waits)
    ensures AllHarmless(first, waits)
    decreases |waits|
  {
    if waits != [] && Enabled(first, waits[0]) {
      WaitsAreHarmless(Apply(first, waits[0]), waits[1..]);
    }
  }

  // Those past an empty check.
  function AboutToWait(state: State): set<nat> {
    set subscriber <- state.subscribers | state.subscribers[subscriber] == Emptied
  }

  // With nobody awake for the waiting messages, all come to be parked.
  lemma {:induction false} AllPark(state: State) returns (waits: seq<Step>, last: State)
    requires !Awake(state)
    ensures OnlyWaits(waits) && Run(state, waits, last) && Stranded(last)
    decreases |AboutToWait(state)|
  {
    if AboutToWait(state) == {} {
      assert forall subscriber <- state.subscribers :: !Active(state, subscriber) && subscriber !in AboutToWait(state);
      waits, last := [], state;
    } else {
      var subscriber :| subscriber in AboutToWait(state);
      var next := Apply(state, Wait(subscriber));
      assert AboutToWait(next) == AboutToWait(state) - {subscriber};
      if other :| other in next.subscribers && Active(next, other) {
        assert Active(state, other);
      }
      waits, last := AllPark(next);
      Then(state, Wait(subscriber), waits, last, next);
      waits := [Wait(subscriber)] + waits;
    }
  }

  lemma StrandsUnlessAwake(state: State)
    ensures Strands(state) <==> !Awake(state)
  {
    if Awake(state) {
      forall waits: seq<Step>, last: State | OnlyWaits(waits) && Run(state, waits, last)
        ensures !Stranded(last)
      {
        WaitsAreHarmless(state, waits);
        AwakeRun(state, waits, last);
      }
    } else {
      var waits, last := AllPark(state);
    }
  }

  // No state of a run strands a message.
  ghost predicate NeverStrands(first: State, steps: seq<Step>)
    decreases |steps|
  {
    !Strands(first) && (steps != [] && Enabled(first, steps[0]) ==> NeverStrands(Apply(first, steps[0]), steps[1..]))
  }

  // A run never strands a message if and only if none of its leaves is harmful.
  lemma StrandsIffHarmed(steps: seq<Step>, last: State)
    requires Run(START, steps, last)
    ensures NeverStrands(START, steps) <==> AllHarmless(START, steps)
  {
    HarmedRun(START, steps, last);
  }

  lemma {:induction false} HarmedRun(first: State, steps: seq<Step>, last: State)
    requires Awake(first) && Run(first, steps, last)
    ensures NeverStrands(first, steps) <==> AllHarmless(first, steps)
    decreases |steps|
  {
    hide Strands, Harmless, Awake;
    StrandsUnlessAwake(first);
    if steps != [] {
      var next := Apply(first, steps[0]);
      LeavingKeepsAwake(first, steps[0]);
      StrandsUnlessAwake(next);
      hide Apply;
      if Awake(next) {
        HarmedRun(next, steps[1..], last);
      }
    }
  }

  const END := State(1, false, map[1 := Parked])
  const BOTH_EMPTIED := map[0 := Emptied, 1 := Emptied]
  const LAST_STEPS := [Wait(0), Check(0), Wait(1), Done(0), Leave(0, Some(1))]

  // Two pushes while two subscribers are between check and wait keep one permit. One of them takes a
  // message with it, the other parks, and the first settles its message and leaves before it polls
  // again. The second message is left behind, with everybody parked.
  lemma LeavingLosesAWakeUp() returns (steps: seq<Step>)
    ensures Run(START, steps, END) && Stranded(END)
  {
    hide Run;
    OneHandlesOneParks();
    Then(State(1, true, BOTH_EMPTIED), Push(None), LAST_STEPS, END, State(2, true, BOTH_EMPTIED));
    Then(State(0, false, BOTH_EMPTIED), Push(None), [Push(None)] + LAST_STEPS, END, State(1, true, BOTH_EMPTIED));
    steps := BothFindNothing([Push(None)] + ([Push(None)] + LAST_STEPS));
  }

  lemma OneHandlesOneParks()
    ensures Run(State(2, true, BOTH_EMPTIED), LAST_STEPS, END)
  {
    assert Run(END, [], END);
    hide Run;
    var settled := State(1, false, map[0 := Resting, 1 := Parked]);
    var handling := State(1, false, map[0 := Busy, 1 := Parked]);
    assert Without(settled, 0) == END;
    Then(settled, Leave(0, Some(1)), [], END, END);
    Then(handling, Done(0), [Leave(0, Some(1))], END, settled);
    var last := [Done(0)] + [Leave(0, Some(1))];
    Then(State(1, false, map[0 := Busy, 1 := Emptied]), Wait(1), last, END, handling);
    var rest := [Wait(1)] + last;
    Then(State(2, false, map[0 := Checking, 1 := Emptied]), Check(0), rest, END,
         State(1, false, map[0 := Busy, 1 := Emptied]));
    Then(State(2, true, BOTH_EMPTIED), Wait(0), [Check(0)] + rest, END,
         State(2, false, map[0 := Checking, 1 := Emptied]));
    assert LAST_STEPS == [Wait(0)] + ([Check(0)] + rest);
  }

  // A subscriber joins, polls and finds nothing.
  lemma FindsNothing(subscriber: nat, others: map<nat, Subscriber>, rest: seq<Step>) returns (steps: seq<Step>)
    requires subscriber !in others && Run(State(0, false, others[subscriber := Emptied]), rest, END)
    ensures Run(State(0, false, others), steps, END)
  {
    hide Run;
    var checking := State(0, false, others[subscriber := Checking]);
    assert others[subscriber := Checking][subscriber := Emptied] == others[subscriber := Emptied];
    Then(checking, Check(subscriber), rest, END, State(0, false, others[subscriber := Emptied]));
    var resting := State(0, false, others[subscriber := Resting]);
    assert others[subscriber := Resting][subscriber := Checking] == others[subscriber := Checking];
    Then(resting, Poll(subscriber), [Check(subscriber)] + rest, END, checking);
    Then(State(0, false, others), Join(subscriber), [Poll(subscriber)] + ([Check(subscriber)] + rest), END, resting);
    steps := [Join(subscriber)] + ([Poll(subscriber)] + ([Check(subscriber)] + rest));
  }

  lemma BothFindNothing(rest: seq<Step>) returns (steps: seq<Step>)
    requires Run(State(0, false, BOTH_EMPTIED), rest, END)
    ensures Run(START, steps, END)
  {
    hide Run;
    assert map[0 := Emptied][1 := Emptied] == BOTH_EMPTIED;
    var second := FindsNothing(1, map[0 := Emptied], rest);
    assert map[][0 := Emptied] == map[0 := Emptied];
    steps := FindsNothing(0, map[], second);
  }

  lemma Then(first: State, step: Step, rest: seq<Step>, last: State, next: State)
    requires Enabled(first, step) && Apply(first, step) == next && Run(next, rest, last)
    ensures Run(first, [step] + rest, last)
  {
    assert ([step] + rest)[1..] == rest;
  }
}
