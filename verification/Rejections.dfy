/** Endpoints with an inbox on the in-memory transport: when a message whose handling committed can
still reach the error destination.

Workers take deliveries and handle each in a transaction. Four things may come between a commit and
the ack: a commit that lands although it reports an error; a delivery that goes away once its message's
handling committed; a held publish that the broker refuses; and a message that is published again. A
fifth comes after an error copy: its delivery goes away, or can't be settled, and is handled once more.
`Faults` says which of them happen. */
module Rejections {
  import opened Conservation
  import opened Envelopes
  import opened Handlers
  import opened Options
  import opened Retry
  import Deliveries
  import Inbox
  import Receiving

  datatype Faults = Faults(
    unknownCommits: bool, stops: bool, refusedSends: bool, repeats: bool, lostRejects: bool)

  datatype Config = Config(inbox: Inbox.Config, faults: Faults) {
    // Nothing comes between a commit and the ack. With an outbox there are no publishes to send.
    predicate AcksFollow() {
      !faults.unknownCommits && !faults.stops && !faults.repeats && (inbox.outbox || !faults.refusedSends)
    }

    // Nor does a delivery come again whose error copy was accepted.
    predicate Faultless() {
      AcksFollow() && !faults.lostRejects
    }
  }

  datatype Delivery = Delivery(name: string, copy: nat)

  // `deliveries` are those that workers have.
  datatype System = System(transport: Deliveries.Transport, inbox: Inbox.State, deliveries: map<nat, Delivery>)

  datatype Step =
    | OnTransport(transport: Deliveries.Step)
    | Start(worker: nat, delivery: Delivery, transaction: bool)
    | OnInbox(inbox: Inbox.Step)
    | End(worker: nat)
    | Stop(worker: nat)

  ghost predicate HasRun(runs: seq<Inbox.HandlerRun>, key: Inbox.ReceiptKey) {
    exists run <- runs :: run.Key() == key
  }

  // The handling of a delivery's message committed on its endpoint.
  ghost predicate Committed(system: System, name: string, copy: nat)
    requires Deliveries.AtStage(system.transport, name, copy)
  {
    HasRun(system.inbox.runs, Inbox.KeyOf(name, EnvelopeOf(system.transport, name, copy)))
  }

  function EnvelopeOf(transport: Deliveries.Transport, name: string, copy: nat): Envelope
    requires Deliveries.AtStage(transport, name, copy)
  {
    transport.endpoints[name].inFlight[copy].pending.envelope
  }

  // Whether two envelopes are the same message for a receipt.
  predicate SameMessage(first: Envelope, second: Envelope) {
    first.id == second.id && first.time == second.time
  }

  // The envelope a step has the broker copy to its endpoints.
  function Copied(transport: Deliveries.Transport, step: Deliveries.Step): Option<Envelope>
    requires Deliveries.Enabled(transport, step)
  {
    if transport.failing then None
    else if step.Publish? then Some(step.envelope)
    else if step.SendNext? then Some(Deliveries.StageOf(transport, step.name, step.copy).left[0])
    else None
  }

  ghost predicate New(transport: Deliveries.Transport, envelope: Envelope) {
    forall name <- transport.endpoints, other <- transport.endpoints[name].copies :: !SameMessage(other, envelope)
  }

  ghost predicate TransportMay(config: Config, system: System, step: Deliveries.Step) {
    && Deliveries.Enabled(system.transport, step) && !step.Handled?
    && (step.Drop? ==>
          && Delivery(step.name, step.copy) !in system.deliveries.Values
          && (config.faults.stops || !Committed(system, step.name, step.copy))
          && (Deliveries.StageOf(system.transport, step.name, step.copy).GivenUp? ==> config.faults.lostRejects))
    && (step.SendNext? && system.transport.failing ==> config.faults.refusedSends)
    && var copied := Copied(system.transport, step);
       copied.Some? ==> config.faults.repeats || New(system.transport, copied.value)
  }

  // A worker begins a delivery's transaction, or fails to.
  function Begins(system: System, worker: nat, delivery: Delivery, transaction: bool): Inbox.Step
    requires Deliveries.AtStage(system.transport, delivery.name, delivery.copy)
  {
    var envelope := EnvelopeOf(system.transport, delivery.name, delivery.copy);
    if transaction then Inbox.Begin(worker, envelope) else Inbox.NoTransaction(worker, envelope)
  }

  ghost predicate Enabled(config: Config, system: System, step: Step) {
    match step
    case OnTransport(step) => TransportMay(config, system, step)
    case Start(worker, delivery, transaction) =>
      && worker !in system.deliveries && delivery !in system.deliveries.Values
      && config.inbox.endpoint(worker) == delivery.name
      && Deliveries.AtStage(system.transport, delivery.name, delivery.copy)
      && Deliveries.StageOf(system.transport, delivery.name, delivery.copy).Handling?
      && Inbox.Enabled(config.inbox, system.inbox, Begins(system, worker, delivery, transaction))
    case OnInbox(step) =>
      && Inbox.Enabled(config.inbox, system.inbox, step)
      && !step.Begin? && !step.NoTransaction? && !step.Settle? && !step.Crash?
      && (step.Commit? && step.outcome == Inbox.LandedUnknown && system.inbox.Stage(step.worker).Written? ==>
            config.faults.unknownCommits)
    // The pipeline returns.
    case End(worker) =>
      && worker in system.deliveries && Inbox.Enabled(config.inbox, system.inbox, Inbox.Settle(worker))
      && Deliveries.Enabled(system.transport, Ended(system, worker))
    // The worker goes away with its delivery and its transaction.
    case Stop(worker) =>
      && worker in system.deliveries
      && var Delivery(name, copy) := system.deliveries[worker];
         Deliveries.AtStage(system.transport, name, copy) && (config.faults.stops || !Committed(system, name, copy))
  }

  // What the pipeline's result does to the delivery.
  function Ended(system: System, worker: nat): Deliveries.Step
    requires worker in system.deliveries
             && (system.inbox.Stage(worker).Succeeded? || system.inbox.Stage(worker).Failed?)
  {
    var Delivery(name, copy) := system.deliveries[worker];
    var stage := system.inbox.Stage(worker);
    Deliveries.Handled(name, copy, if stage.Succeeded? then Ok(stage.held) else Err(stage.failure))
  }

  function Dropped(system: System, worker: nat): Deliveries.Step
    requires worker in system.deliveries
  {
    Deliveries.Drop(system.deliveries[worker].name, system.deliveries[worker].copy)
  }

  function Apply(config: Config, system: System, step: Step): System
    requires Enabled(config, system, step)
  {
    match step
    case OnTransport(step) => system.(transport := Deliveries.Apply(system.transport, step))
    case Start(worker, delivery, transaction) =>
      system.(inbox := Inbox.Apply(config.inbox, system.inbox, Begins(system, worker, delivery, transaction)),
              deliveries := system.deliveries[worker := delivery])
    case OnInbox(step) => system.(inbox := Inbox.Apply(config.inbox, system.inbox, step))
    case End(worker) =>
      System(Deliveries.Apply(system.transport, Ended(system, worker)),
             Inbox.Apply(config.inbox, system.inbox, Inbox.Settle(worker)), system.deliveries - {worker})
    case Stop(worker) =>
      System(Deliveries.Apply(system.transport, Dropped(system, worker)),
             Inbox.Apply(config.inbox, system.inbox, Inbox.Crash(worker)), system.deliveries - {worker})
  }

  ghost predicate Initial(system: System) {
    system.transport == Deliveries.Transport(map[], [], map[], false) && Inbox.Initial(system.inbox)
    && system.deliveries == map[]
  }

  ghost predicate Run(config: Config, first: System, steps: seq<Step>, last: System)
    decreases |steps|
  {
    if steps == [] then first == last
    else Enabled(config, first, steps[0]) && Run(config, Apply(config, first, steps[0]), steps[1..], last)
  }

  ghost predicate Reachable(config: Config, system: System) {
    exists first: System, steps: seq<Step> :: Initial(first) && Run(config, first, steps, system)
  }

  // No message is both handled for good and at the error destination.
  ghost predicate Exclusive(system: System) {
    forall name: string, error <- system.transport.Errors(name) ::
      !HasRun(system.inbox.runs, Inbox.KeyOf(name, error))
  }

  // No message is both handled for good and rejected.
  ghost predicate RejectedApart(system: System) {
    forall name <- system.transport.endpoints, pending <- system.transport.endpoints[name].rejected ::
      !HasRun(system.inbox.runs, Inbox.KeyOf(name, pending.envelope))
  }

  // A worker's delivery is in its hands, and its transaction handles that delivery's envelope.
  ghost predicate Works(config: Config, system: System, worker: nat)
    requires worker in system.deliveries
  {
    var Delivery(name, copy) := system.deliveries[worker];
    && Deliveries.AtStage(system.transport, name, copy) && Deliveries.StageOf(system.transport, name, copy).Handling?
    && config.inbox.endpoint(worker) == name
    && !system.inbox.Stage(worker).Idle?
    && system.inbox.Stage(worker).envelope == EnvelopeOf(system.transport, name, copy)
  }

  ghost predicate Assigned(config: Config, system: System) {
    && (forall worker <- system.deliveries :: Works(config, system, worker))
    && (forall worker: nat | worker !in system.deliveries :: system.inbox.Stage(worker).Idle?)
    && (forall v <- system.deliveries, w <- system.deliveries | v != w :: system.deliveries[v] != system.deliveries[w])
  }

  ghost predicate Sound(config: Config, system: System) {
    && Conservation.Reachable(system.transport) && Inbox.Reachable(config.inbox, system.inbox)
    && Assigned(config, system)
  }

  // The transport's steps leave a worker's delivery in its hands, unless it goes away.
  lemma InHands(transport: Deliveries.Transport, step: Deliveries.Step, name: string, copy: nat)
    requires Conservation.Reachable(transport) && Deliveries.Enabled(transport, step)
    requires Deliveries.AtStage(transport, name, copy)
    requires Deliveries.StageOf(transport, name, copy).Handling?
    requires !((step.Handled? || step.Drop?) && step.name == name && step.copy == copy)
    ensures var next := Deliveries.Apply(transport, step);
            Deliveries.AtStage(next, name, copy)
            && next.endpoints[name].inFlight[copy] == transport.endpoints[name].inFlight[copy]
  {
    assert !Receiving.Own(step, name, copy);
    hide Deliveries.Apply, Deliveries.Enabled, Conserved, Conservation.Reachable, Receiving.Own;
    Receiving.ReachableConserved(transport);
    Receiving.OtherStep(transport, step, name, copy);
  }

  // A worker's transaction handles one envelope to its end.
  lemma SameEnvelope(config: Inbox.Config, state: Inbox.State, step: Inbox.Step, worker: nat)
    requires Inbox.Enabled(config, state, step)
    requires !step.Begin? && !step.NoTransaction? && !step.Settle? && !step.Crash?
    ensures var before, after := state.Stage(worker), Inbox.Apply(config, state, step).Stage(worker);
            (after.Idle? <==> before.Idle?) && (!before.Idle? ==> after.envelope == before.envelope)
  {
    hide Follows;
  }

  lemma AssignedOnTransport(config: Config, system: System, step: Deliveries.Step)
    requires Sound(config, system) && Enabled(config, system, OnTransport(step))
    ensures Assigned(config, Apply(config, system, OnTransport(step)))
  {
    hide Deliveries.Apply, Deliveries.Enabled, Conservation.Reachable, Inbox.Reachable, Copied, New;
    var next := Apply(config, system, OnTransport(step));
    forall worker <- next.deliveries
      ensures Works(config, next, worker)
    {
      assert Works(config, system, worker);
      var Delivery(name, copy) := system.deliveries[worker];
      assert system.deliveries[worker] in system.deliveries.Values;
      InHands(system.transport, step, name, copy);
    }
  }

  lemma AssignedOnInbox(config: Config, system: System, step: Inbox.Step)
    requires Sound(config, system) && Enabled(config, system, OnInbox(step))
    ensures Assigned(config, Apply(config, system, OnInbox(step)))
  {
    hide Inbox.Apply, Inbox.Enabled, Conservation.Reachable, Inbox.Reachable;
    var next := Apply(config, system, OnInbox(step));
    forall worker: nat
      ensures worker in next.deliveries ==> Works(config, next, worker)
      ensures worker !in next.deliveries ==> next.inbox.Stage(worker).Idle?
    {
      SameEnvelope(config.inbox, system.inbox, step, worker);
      assert worker in system.deliveries ==> Works(config, system, worker);
    }
  }

  lemma AssignedOnStart(config: Config, system: System, worker: nat, delivery: Delivery, transaction: bool)
    requires Sound(config, system) && Enabled(config, system, Start(worker, delivery, transaction))
    ensures Assigned(config, Apply(config, system, Start(worker, delivery, transaction)))
  {
    hide Conservation.Reachable, Inbox.Reachable;
    var next := Apply(config, system, Start(worker, delivery, transaction));
    forall other <- next.deliveries
      ensures Works(config, next, other)
    {
      assert other != worker ==> Works(config, system, other);
    }
    forall v <- next.deliveries, w <- next.deliveries | v != w
      ensures next.deliveries[v] != next.deliveries[w]
    {
      assert v != worker ==> system.deliveries[v] in system.deliveries.Values;
      assert w != worker ==> system.deliveries[w] in system.deliveries.Values;
    }
  }

  // A worker that is done, or goes away, lets go of its delivery alone.
  lemma AssignedOnLeave(config: Config, system: System, next: System, worker: nat, step: Deliveries.Step)
    requires Sound(config, system) && worker in system.deliveries && Deliveries.Enabled(system.transport, step)
    requires (step.Handled? || step.Drop?) && Delivery(step.name, step.copy) == system.deliveries[worker]
    requires next.transport == Deliveries.Apply(system.transport, step)
    requires next.inbox == system.inbox.With(worker, Inbox.Idle) && next.deliveries == system.deliveries - {worker}
    ensures Assigned(config, next)
  {
    hide Deliveries.Apply, Deliveries.Enabled, Conservation.Reachable, Inbox.Reachable;
    forall other <- next.deliveries
      ensures Works(config, next, other)
    {
      assert Works(config, system, other);
      var Delivery(name, copy) := system.deliveries[other];
      InHands(system.transport, step, name, copy);
    }
  }

  lemma AssignedStep(config: Config, system: System, step: Step)
    requires Sound(config, system) && Enabled(config, system, step)
    ensures Assigned(config, Apply(config, system, step))
  {
    hide Conservation.Reachable, Inbox.Reachable, Assigned, Deliveries.Apply;
    match step
    case OnTransport(step) => AssignedOnTransport(config, system, step);
    case OnInbox(step) => AssignedOnInbox(config, system, step);
    case Start(worker, delivery, transaction) => AssignedOnStart(config, system, worker, delivery, transaction);
    case End(worker) => AssignedOnLeave(config, system, Apply(config, system, step), worker, Ended(system, worker));
    case Stop(worker) => AssignedOnLeave(config, system, Apply(config, system, step), worker, Dropped(system, worker));
  }

  lemma PartsReachable(config: Config, system: System, step: Step)
    requires Sound(config, system) && Enabled(config, system, step)
    ensures var next := Apply(config, system, step);
            Conservation.Reachable(next.transport) && Inbox.Reachable(config.inbox, next.inbox)
  {
    hide Conservation.Reachable, Inbox.Reachable, Assigned, Deliveries.Apply, Inbox.Apply;
    match step
    case OnTransport(step) => Receiving.Reach(system.transport, step);
    case OnInbox(step) => Inbox.Reach(config.inbox, system.inbox, step);
    case Start(worker, delivery, transaction) =>
      Inbox.Reach(config.inbox, system.inbox, Begins(system, worker, delivery, transaction));
    case End(worker) =>
      Receiving.Reach(system.transport, Ended(system, worker));
      Inbox.Reach(config.inbox, system.inbox, Inbox.Settle(worker));
    case Stop(worker) =>
      assert Deliveries.Enabled(system.transport, Dropped(system, worker));
      Receiving.Reach(system.transport, Dropped(system, worker));
      Inbox.Reach(config.inbox, system.inbox, Inbox.Crash(worker));
  }

  lemma SoundStep(config: Config, system: System, step: Step)
    requires Sound(config, system) && Enabled(config, system, step)
    ensures Sound(config, Apply(config, system, step))
  {
    AssignedStep(config, system, step);
    PartsReachable(config, system, step);
    hide Apply, Enabled, Assigned, Conservation.Reachable, Inbox.Reachable;
  }

  function KeyOfCopy(transport: Deliveries.Transport, name: string, copy: nat): Inbox.ReceiptKey
    requires name in transport.endpoints && copy < |transport.endpoints[name].copies|
  {
    Inbox.KeyOf(name, transport.endpoints[name].copies[copy])
  }

  // No endpoint has a message twice.
  ghost predicate EachOnce(transport: Deliveries.Transport) {
    forall name <- transport.endpoints ::
      forall i, j | 0 <= i < j < |transport.endpoints[name].copies| ::
        !SameMessage(transport.endpoints[name].copies[i], transport.endpoints[name].copies[j])
  }

  // Every committed handling was of a copy.
  ghost predicate OfCopies(system: System) {
    forall run <- system.inbox.runs ::
      run.endpoint in system.transport.endpoints
      && exists copy: nat ::
           copy < |system.transport.endpoints[run.endpoint].copies|
           && KeyOfCopy(system.transport, run.endpoint, copy) == run.Key()
  }

  // A copy whose handling succeeded is acked or on its way there.
  ghost predicate Settling(system: System, name: string, copy: nat)
    requires name in system.transport.endpoints
  {
    var endpoint := system.transport.endpoints[name];
    || copy in endpoint.acked
    || (copy in endpoint.inFlight
        && (endpoint.inFlight[copy].stage.Sending?
            || exists worker <- system.deliveries ::
                 system.deliveries[worker] == Delivery(name, copy) && system.inbox.Stage(worker).Succeeded?))
  }

  ghost predicate CommittedSettle(system: System) {
    forall name <- system.transport.endpoints, copy: nat ::
      && copy < |system.transport.endpoints[name].copies|
      && HasRun(system.inbox.runs, KeyOfCopy(system.transport, name, copy))
      ==> Settling(system, name, copy)
  }

  // With an outbox nothing is left to send.
  ghost predicate NothingLeft(config: Config, transport: Deliveries.Transport) {
    config.inbox.outbox ==>
      forall name <- transport.endpoints, copy <- transport.endpoints[name].inFlight ::
        transport.endpoints[name].inFlight[copy].stage.Sending? ==>
          transport.endpoints[name].inFlight[copy].stage.left == []
  }

  // A copy is given up: it is rejected, or about to be.
  ghost predicate GivenUp(transport: Deliveries.Transport, name: string, copy: nat)
    requires name in transport.endpoints
  {
    || Has(transport.endpoints[name].rejected, copy)
    || (Deliveries.AtStage(transport, name, copy) && Deliveries.StageOf(transport, name, copy).GivenUp?)
  }

  // Every error copy is of a copy that was given up.
  ghost predicate ErrorsGivenUp(transport: Deliveries.Transport) {
    forall name: string, error <- transport.Errors(name) :: OfGivenUp(transport, name, error)
  }

  ghost predicate OfGivenUp(transport: Deliveries.Transport, name: string, error: Envelope) {
    name in transport.endpoints
    && exists copy: nat ::
         copy < |transport.endpoints[name].copies| && KeyOfCopy(transport, name, copy) == Inbox.KeyOf(name, error)
         && GivenUp(transport, name, copy)
  }

  ghost predicate Clean(config: Config, system: System) {
    && EachOnce(system.transport) && OfCopies(system) && CommittedSettle(system)
    && NothingLeft(config, system.transport)
    && (!config.faults.lostRejects ==> ErrorsGivenUp(system.transport))
  }

  // A copy that is given up is not acked, and nobody handles or sends it.
  lemma GivenUpPlace(transport: Deliveries.Transport, name: string, copy: nat)
    requires Conservation.Reachable(transport) && name in transport.endpoints && GivenUp(transport, name, copy)
    ensures copy !in transport.endpoints[name].acked
    ensures Deliveries.AtStage(transport, name, copy) ==> Deliveries.StageOf(transport, name, copy).GivenUp?
  {
    Receiving.ReachableConserved(transport);
    assert Places(transport.endpoints[name], copy) <= 1;
    hide Conservation.Reachable;
  }

  // It is on no way to an ack.
  lemma GivenUpElsewhere(config: Config, system: System, name: string, copy: nat)
    requires Sound(config, system) && name in system.transport.endpoints && GivenUp(system.transport, name, copy)
    ensures !Settling(system, name, copy)
  {
    GivenUpPlace(system.transport, name, copy);
    hide Conservation.Reachable, Inbox.Reachable, GivenUp;
    if worker :| worker in system.deliveries && system.deliveries[worker] == Delivery(name, copy) {
      HandlingOf(config, system, worker);
    }
  }

  lemma CleanIsExclusive(config: Config, system: System)
    requires Sound(config, system) && Clean(config, system) && !config.faults.lostRejects
    ensures Exclusive(system)
  {
    hide Sound, HasRun, Settling, GivenUp, EachOnce, OfCopies, NothingLeft;
    forall name: string, error <- system.transport.Errors(name)
      ensures !HasRun(system.inbox.runs, Inbox.KeyOf(name, error))
    {
      assert OfGivenUp(system.transport, name, error);
      var copy: nat :| copy < |system.transport.endpoints[name].copies|
        && KeyOfCopy(system.transport, name, copy) == Inbox.KeyOf(name, error) && GivenUp(system.transport, name, copy);
      GivenUpElsewhere(config, system, name, copy);
    }
  }

  // A copy that is given up stays so, unless its delivery goes away before it is settled.
  lemma GivenUpStays(transport: Deliveries.Transport, step: Deliveries.Step, name: string, copy: nat)
    requires Conservation.Reachable(transport) && Deliveries.Enabled(transport, step)
    requires name in transport.endpoints && GivenUp(transport, name, copy)
    requires !(step.Drop? && step.name == name && step.copy == copy)
    ensures name in Deliveries.Apply(transport, step).endpoints
    ensures GivenUp(Deliveries.Apply(transport, step), name, copy)
  {
    EndpointsStay(transport, step);
    if Has(transport.endpoints[name].rejected, copy) {
      RejectedStays(transport, step, name);
      hide Deliveries.Apply, Deliveries.Enabled;
    } else if Receiving.Own(step, name, copy) {
      OnlyRejects(transport, step, name, copy);
      RejectsIt(transport, name, copy);
      hide Deliveries.Apply, Deliveries.Enabled, Conservation.Reachable;
    } else {
      Receiving.ReachableConserved(transport);
      Receiving.OtherStep(transport, step, name, copy);
      hide Deliveries.Apply, Deliveries.Enabled, Conserved, Conservation.Reachable;
    }
  }

  lemma OnlyRejects(transport: Deliveries.Transport, step: Deliveries.Step, name: string, copy: nat)
    requires Deliveries.Enabled(transport, step) && Receiving.Own(step, name, copy) && !step.Drop?
    requires Deliveries.AtStage(transport, name, copy) && Deliveries.StageOf(transport, name, copy).GivenUp?
    ensures step == Deliveries.Reject(name, copy)
  {
  }

  lemma RejectsIt(transport: Deliveries.Transport, name: string, copy: nat)
    requires Conservation.Reachable(transport) && Deliveries.Enabled(transport, Deliveries.Reject(name, copy))
    ensures var next := Deliveries.Apply(transport, Deliveries.Reject(name, copy));
            name in next.endpoints && Has(next.endpoints[name].rejected, copy)
  {
    Receiving.ReachableConserved(transport);
    assert Numbered(transport.endpoints[name]);
    var rejected := Deliveries.Apply(transport, Deliveries.Reject(name, copy)).endpoints[name].rejected;
    assert rejected[|rejected| - 1].copy == copy;
    hide Conservation.Reachable;
  }

  lemma RejectedStays(transport: Deliveries.Transport, step: Deliveries.Step, name: string)
    requires Deliveries.Enabled(transport, step) && name in transport.endpoints
    ensures name in Deliveries.Apply(transport, step).endpoints
    ensures transport.endpoints[name].rejected <= Deliveries.Apply(transport, step).endpoints[name].rejected
  {
    CopiedLeaves(transport, step);
    hide Deliveries.ErrorEnvelope, Deliveries.PublishTo;
  }

  // A new error copy is of the delivery that was just given up.
  lemma NewError(transport: Deliveries.Transport, step: Deliveries.Step, name: string, error: Envelope)
    requires Conservation.Reachable(transport) && Deliveries.Enabled(transport, step)
    requires error in Deliveries.Apply(transport, step).Errors(name) && error !in transport.Errors(name)
    ensures OfGivenUp(Deliveries.Apply(transport, step), name, error)
  {
    assert step.GiveUp? && step.name == name && !transport.failing by {
      hide Conservation.Reachable;
    }
    InFlightCopy(transport, name, step.copy);
    hide Conservation.Reachable;
    CopiesStay(transport, step, name, step.copy);
    var next := Deliveries.Apply(transport, step);
    assert error == Deliveries.ErrorEnvelope(
        EnvelopeOf(transport, name, step.copy), name, step.errorType, step.message,
        transport.endpoints[name].inFlight[step.copy].pending.attempt);
    assert KeyOfCopy(next, name, step.copy) == Inbox.KeyOf(name, error);
    assert GivenUp(next, name, step.copy);
  }

  lemma ErrorsStep(transport: Deliveries.Transport, step: Deliveries.Step)
    requires Conservation.Reachable(transport) && Deliveries.Enabled(transport, step) && ErrorsGivenUp(transport)
    requires step.Drop? ==> !Deliveries.StageOf(transport, step.name, step.copy).GivenUp?
    ensures ErrorsGivenUp(Deliveries.Apply(transport, step))
  {
    var next := Deliveries.Apply(transport, step);
    forall name: string, error <- next.Errors(name)
      ensures OfGivenUp(next, name, error)
    {
      if error in transport.Errors(name) {
        assert OfGivenUp(transport, name, error);
        var copy: nat :| copy < |transport.endpoints[name].copies|
          && KeyOfCopy(transport, name, copy) == Inbox.KeyOf(name, error) && GivenUp(transport, name, copy);
        DropsOther(transport, step, name, copy);
        hide Deliveries.Apply, Deliveries.Enabled, GivenUp, Conservation.Reachable;
        GivenUpStays(transport, step, name, copy);
        CopiesStay(transport, step, name, copy);
      } else {
        NewError(transport, step, name, error);
      }
    }
  }

  lemma DropsOther(transport: Deliveries.Transport, step: Deliveries.Step, name: string, copy: nat)
    requires Conservation.Reachable(transport) && Deliveries.Enabled(transport, step)
    requires name in transport.endpoints && GivenUp(transport, name, copy)
    requires step.Drop? ==> !Deliveries.StageOf(transport, step.name, step.copy).GivenUp?
    ensures !(step.Drop? && step.name == name && step.copy == copy)
  {
    GivenUpPlace(transport, name, copy);
    hide Conservation.Reachable, GivenUp;
  }

  // A rejected copy is settled already, so it isn't on its way to an ack.
  lemma CleanRejectedApart(config: Config, system: System)
    requires Sound(config, system) && Clean(config, system)
    ensures RejectedApart(system)
  {
    Receiving.ReachableConserved(system.transport);
    hide Conservation.Reachable, Inbox.Reachable, Assigned;
    forall name <- system.transport.endpoints, pending <- system.transport.endpoints[name].rejected
      ensures !HasRun(system.inbox.runs, Inbox.KeyOf(name, pending.envelope))
    {
      RejectedElsewhere(system.transport, name, pending);
      assert Inbox.KeyOf(name, pending.envelope) == KeyOfCopy(system.transport, name, pending.copy);
      assert !Settling(system, name, pending.copy);
    }
  }

  lemma RejectedElsewhere(transport: Deliveries.Transport, name: string, pending: Deliveries.Pending)
    requires Conserved(transport) && name in transport.endpoints && pending in transport.endpoints[name].rejected
    ensures var endpoint := transport.endpoints[name];
            && pending.copy < |endpoint.copies| && endpoint.copies[pending.copy] == pending.envelope
            && pending.copy !in endpoint.acked && pending.copy !in endpoint.inFlight
  {
    var endpoint := transport.endpoints[name];
    assert SameCopy(endpoint, pending);
    assert Has(endpoint.rejected, pending.copy);
    assert Places(endpoint, pending.copy) == One(pending.copy < |endpoint.copies|);
  }

  // Which copies a step makes.
  lemma CopiesGrow(transport: Deliveries.Transport, step: Deliveries.Step, name: string)
    requires Deliveries.Enabled(transport, step) && name in Deliveries.Apply(transport, step).endpoints
    ensures var next := Deliveries.Apply(transport, step).endpoints[name].copies;
            var before := if name in transport.endpoints then transport.endpoints[name].copies else [];
            next == before || (Copied(transport, step).Some? && next == before + [Copied(transport, step).value])
  {
    var copied := Copied(transport, step);
    if copied.Some? {
      OfferedCopies(transport, copied.value, name);
    }
    hide Deliveries.ErrorEnvelope, Deliveries.PublishTo;
  }

  // What a publish leaves as it is.
  lemma CopiedLeaves(transport: Deliveries.Transport, step: Deliveries.Step)
    requires Deliveries.Enabled(transport, step)
    ensures var copied := Copied(transport, step);
            copied.Some? ==>
              var published := Deliveries.PublishTo(transport, copied.value);
              && published.endpoints.Keys == transport.endpoints.Keys
              && forall name <- transport.endpoints ::
                   && published.endpoints[name].inFlight == transport.endpoints[name].inFlight
                   && published.endpoints[name].acked == transport.endpoints[name].acked
                   && published.endpoints[name].rejected == transport.endpoints[name].rejected
  {
    hide Deliveries.Enabled, Copied;
  }

  lemma OfferedCopies(transport: Deliveries.Transport, envelope: Envelope, name: string)
    ensures var published := Deliveries.PublishTo(transport, envelope);
            && published.endpoints.Keys == transport.endpoints.Keys
            && (name in transport.endpoints ==>
                  var copies := transport.endpoints[name].copies;
                  published.endpoints[name].copies == copies || published.endpoints[name].copies == copies + [envelope])
  {
  }

  lemma EndpointsStay(transport: Deliveries.Transport, step: Deliveries.Step)
    requires Deliveries.Enabled(transport, step)
    ensures transport.endpoints.Keys <= Deliveries.Apply(transport, step).endpoints.Keys
  {
    hide Deliveries.ErrorEnvelope;
  }

  lemma CopiesStay(transport: Deliveries.Transport, step: Deliveries.Step, name: string, copy: nat)
    requires Deliveries.Enabled(transport, step) && name in transport.endpoints
    requires copy < |transport.endpoints[name].copies|
    ensures var next := Deliveries.Apply(transport, step);
            && name in next.endpoints && copy < |next.endpoints[name].copies|
            && next.endpoints[name].copies[copy] == transport.endpoints[name].copies[copy]
            && KeyOfCopy(next, name, copy) == KeyOfCopy(transport, name, copy)
  {
    EndpointsStay(transport, step);
    CopiesGrow(transport, step, name);
    hide Deliveries.Apply, Deliveries.Enabled;
  }

  lemma EachOnceStep(config: Config, system: System, step: Deliveries.Step)
    requires EachOnce(system.transport) && Deliveries.Enabled(system.transport, step)
    requires var copied := Copied(system.transport, step); copied.Some? ==> New(system.transport, copied.value)
    ensures EachOnce(Deliveries.Apply(system.transport, step))
  {
    var next := Deliveries.Apply(system.transport, step);
    forall name <- next.endpoints
      ensures forall i, j | 0 <= i < j < |next.endpoints[name].copies| ::
                !SameMessage(next.endpoints[name].copies[i], next.endpoints[name].copies[j])
    {
      CopiesGrow(system.transport, step, name);
    }
    hide Deliveries.Apply, Deliveries.Enabled;
  }

  lemma AckedStays(transport: Deliveries.Transport, step: Deliveries.Step, name: string, copy: nat)
    requires Deliveries.Enabled(transport, step) && name in transport.endpoints
    requires copy in transport.endpoints[name].acked
    ensures var next := Deliveries.Apply(transport, step);
            name in next.endpoints && copy in next.endpoints[name].acked
  {
    CopiedLeaves(transport, step);
    hide Deliveries.ErrorEnvelope, Deliveries.PublishTo;
  }

  // A copy whose publishes are being sent stays so until it is acked, unless one is refused or the
  // delivery goes away.
  lemma SendingStays(transport: Deliveries.Transport, step: Deliveries.Step, name: string, copy: nat)
    requires Conservation.Reachable(transport) && Deliveries.Enabled(transport, step)
    requires Deliveries.AtStage(transport, name, copy) && Deliveries.StageOf(transport, name, copy).Sending?
    requires !(step.Drop? && step.name == name && step.copy == copy)
    requires step.SendNext? && step.name == name && step.copy == copy ==> !transport.failing
    ensures var next := Deliveries.Apply(transport, step);
            && name in next.endpoints
            && (copy in next.endpoints[name].acked
                || (Deliveries.AtStage(next, name, copy) && Deliveries.StageOf(next, name, copy).Sending?))
  {
    Receiving.ReachableConserved(transport);
    hide Conservation.Reachable, Conserved, Deliveries.ErrorEnvelope;
    if !Receiving.Own(step, name, copy) {
      Receiving.OtherStep(transport, step, name, copy);
      hide Deliveries.Apply, Deliveries.Enabled;
    } else if step.SendNext? {
      Receiving.Advances(transport, name, copy);
      hide Deliveries.Apply;
    }
  }

  lemma InFlightCopy(transport: Deliveries.Transport, name: string, copy: nat)
    requires Conservation.Reachable(transport) && Deliveries.AtStage(transport, name, copy)
    ensures copy < |transport.endpoints[name].copies|
    ensures EnvelopeOf(transport, name, copy) == transport.endpoints[name].copies[copy]
  {
    Receiving.ReachableConserved(transport);
    hide Conservation.Reachable;
    var endpoint := transport.endpoints[name];
    assert Numbered(endpoint);
    assert SameCopy(endpoint, endpoint.inFlight[copy].pending);
  }

  lemma SettlingOnTransport(config: Config, system: System, step: Deliveries.Step, name: string, copy: nat)
    requires Sound(config, system) && NothingLeft(config, system.transport) && config.AcksFollow()
    requires TransportMay(config, system, step) && name in system.transport.endpoints
    requires copy < |system.transport.endpoints[name].copies| && Settling(system, name, copy)
    requires HasRun(system.inbox.runs, KeyOfCopy(system.transport, name, copy))
    ensures var next := Apply(config, system, OnTransport(step));
            name in next.transport.endpoints && Settling(next, name, copy)
  {
    hide Conservation.Reachable, Inbox.Reachable, Assigned, Deliveries.Apply, New, Copied, HasRun;
    var endpoint := system.transport.endpoints[name];
    EndpointsStay(system.transport, step);
    if copy in endpoint.acked {
      AckedStays(system.transport, step, name, copy);
    } else {
      InFlightCopy(system.transport, name, copy);
      if endpoint.inFlight[copy].stage.Sending? {
        SendingStays(system.transport, step, name, copy);
      } else {
        var worker :| worker in system.deliveries && system.deliveries[worker] == Delivery(name, copy)
          && system.inbox.Stage(worker).Succeeded?;
        HandlingOf(config, system, worker);
        assert system.deliveries[worker] in system.deliveries.Values;
        InHands(system.transport, step, name, copy);
      }
    }
  }

  lemma HandlingOf(config: Config, system: System, worker: nat)
    requires Assigned(config, system) && worker in system.deliveries
    ensures Works(config, system, worker)
  {
  }

  // A message that is new to the endpoints has no committed handling.
  lemma NewHasNoRun(system: System, envelope: Envelope, name: string)
    requires OfCopies(system) && New(system.transport, envelope)
    ensures !HasRun(system.inbox.runs, Inbox.KeyOf(name, envelope))
  {
    if HasRun(system.inbox.runs, Inbox.KeyOf(name, envelope)) {
      var run :| run in system.inbox.runs && run.Key() == Inbox.KeyOf(name, envelope);
      var copy: nat :| copy < |system.transport.endpoints[run.endpoint].copies|
        && KeyOfCopy(system.transport, run.endpoint, copy) == run.Key();
      assert SameMessage(system.transport.endpoints[name].copies[copy], envelope);
    }
  }

  lemma CleanOnTransport(config: Config, system: System, step: Deliveries.Step)
    requires Sound(config, system) && Clean(config, system) && config.AcksFollow()
    requires Enabled(config, system, OnTransport(step))
    ensures var next := Apply(config, system, OnTransport(step));
            EachOnce(next.transport) && OfCopies(next) && CommittedSettle(next)
  {
    EachOnceStep(config, system, step);
    hide Conservation.Reachable, Inbox.Reachable, Assigned, Deliveries.Apply, Deliveries.Enabled, EachOnce, New, HasRun,
      KeyOfCopy, Settling;
    var next := Apply(config, system, OnTransport(step));
    forall name <- next.transport.endpoints, copy: nat |
      copy < |next.transport.endpoints[name].copies| && HasRun(next.inbox.runs, KeyOfCopy(next.transport, name, copy))
      ensures Settling(next, name, copy)
    {
      CopiesGrow(system.transport, step, name);
      if name in system.transport.endpoints && copy < |system.transport.endpoints[name].copies| {
        CopiesStay(system.transport, step, name, copy);
        SettlingOnTransport(config, system, step, name, copy);
      } else {
        NewHasNoRun(system, Copied(system.transport, step).value, name);
        LastKey(next.transport, name, copy);
      }
    }
    forall run <- next.inbox.runs
      ensures run.endpoint in next.transport.endpoints
      ensures exists copy: nat :: copy < |next.transport.endpoints[run.endpoint].copies|
                                  && KeyOfCopy(next.transport, run.endpoint, copy) == run.Key()
    {
      var copy: nat :| copy < |system.transport.endpoints[run.endpoint].copies|
        && KeyOfCopy(system.transport, run.endpoint, copy) == run.Key();
      CopiesStay(system.transport, step, run.endpoint, copy);
      EndpointsStay(system.transport, step);
    }
  }

  lemma LastKey(transport: Deliveries.Transport, name: string, copy: nat)
    requires name in transport.endpoints && copy < |transport.endpoints[name].copies|
    ensures KeyOfCopy(transport, name, copy) == Inbox.KeyOf(name, transport.endpoints[name].copies[copy])
  {
  }

  // Only the end of a handling makes a copy's publishes ready to send, and only sending changes them.
  lemma SendingBefore(transport: Deliveries.Transport, step: Deliveries.Step, name: string, copy: nat)
    requires Deliveries.Enabled(transport, step)
    requires !((step.Handled? || step.SendNext?) && step.name == name && step.copy == copy)
    requires var next := Deliveries.Apply(transport, step);
             Deliveries.AtStage(next, name, copy) && Deliveries.StageOf(next, name, copy).Sending?
    ensures Deliveries.AtStage(transport, name, copy)
    ensures Deliveries.StageOf(Deliveries.Apply(transport, step), name, copy)
            == Deliveries.StageOf(transport, name, copy)
  {
    CopiedLeaves(transport, step);
    hide Deliveries.ErrorEnvelope, Deliveries.PublishTo;
  }

  lemma NothingLeftOnTransport(config: Config, transport: Deliveries.Transport, step: Deliveries.Step)
    requires NothingLeft(config, transport) && Deliveries.Enabled(transport, step)
    requires step.Handled? && config.inbox.outbox ==> step.result.Err? || step.result.value == []
    ensures NothingLeft(config, Deliveries.Apply(transport, step))
  {
    var next := Deliveries.Apply(transport, step);
    if config.inbox.outbox {
      assert !step.SendNext?;
      forall name <- next.endpoints, copy <- next.endpoints[name].inFlight |
        next.endpoints[name].inFlight[copy].stage.Sending?
        ensures next.endpoints[name].inFlight[copy].stage.left == []
      {
        if step.Handled? && step.name == name && step.copy == copy {
        } else {
          SendingBefore(transport, step, name, copy);
          hide Deliveries.Apply, Deliveries.Enabled;
          assert transport.endpoints[name].inFlight[copy].stage.Sending?;
        }
      }
    }
  }

  // A worker that commits has the one copy of its message.
  lemma RunOfWorker(config: Config, system: System, worker: nat)
    requires Sound(config, system) && system.inbox.Stage(worker).Written?
    ensures worker in system.deliveries && Works(config, system, worker)
    ensures var Delivery(name, copy) := system.deliveries[worker];
            && copy < |system.transport.endpoints[name].copies|
            && KeyOfCopy(system.transport, name, copy)
               == Inbox.KeyOf(config.inbox.endpoint(worker), system.inbox.Stage(worker).envelope)
  {
    HandlingOf(config, system, worker);
    InFlightCopy(system.transport, system.deliveries[worker].name, system.deliveries[worker].copy);
    hide Conservation.Reachable, Inbox.Reachable, Assigned;
  }

  lemma OfCopiesOnInbox(config: Config, system: System, step: Inbox.Step)
    requires Sound(config, system) && OfCopies(system) && Enabled(config, system, OnInbox(step))
    ensures OfCopies(Apply(config, system, OnInbox(step)))
  {
    Inbox.RunsStep(config.inbox, system.inbox, step);
    var next := Apply(config, system, OnInbox(step));
    if next.inbox.runs != system.inbox.runs {
      RunOfWorker(config, system, step.worker);
    }
    hide Conservation.Reachable, Inbox.Reachable, Assigned, Inbox.Apply, Inbox.Enabled;
    forall run <- next.inbox.runs
      ensures run.endpoint in next.transport.endpoints
      ensures exists copy: nat :: copy < |next.transport.endpoints[run.endpoint].copies|
                                  && KeyOfCopy(next.transport, run.endpoint, copy) == run.Key()
    {
      if run !in system.inbox.runs {
        var Delivery(name, copy) := system.deliveries[step.worker];
        assert KeyOfCopy(next.transport, name, copy) == run.Key();
      }
    }
  }

  // One endpoint's copies have keys of their own.
  lemma KeysDiffer(transport: Deliveries.Transport, name: string, i: nat, j: nat)
    requires EachOnce(transport) && name in transport.endpoints
    requires i < |transport.endpoints[name].copies| && j < |transport.endpoints[name].copies|
    requires KeyOfCopy(transport, name, i) == KeyOfCopy(transport, name, j)
    ensures i == j
  {
    var copies := transport.endpoints[name].copies;
    assert i < j ==> !SameMessage(copies[i], copies[j]);
    assert j < i ==> !SameMessage(copies[j], copies[i]);
  }

  lemma StaysSucceeded(config: Inbox.Config, state: Inbox.State, step: Inbox.Step, worker: nat)
    requires Inbox.Enabled(config, state, step) && state.Stage(worker).Succeeded?
    requires !((step.Settle? || step.Crash?) && step.worker == worker)
    ensures Inbox.Apply(config, state, step).Stage(worker) == state.Stage(worker)
  {
    hide Follows;
  }

  lemma SettlingOnInbox(config: Config, system: System, step: Inbox.Step, name: string, copy: nat)
    requires Sound(config, system) && Clean(config, system) && config.AcksFollow()
    requires Enabled(config, system, OnInbox(step)) && name in system.transport.endpoints
    requires copy < |system.transport.endpoints[name].copies|
    requires HasRun(Apply(config, system, OnInbox(step)).inbox.runs, KeyOfCopy(system.transport, name, copy))
    ensures Settling(Apply(config, system, OnInbox(step)), name, copy)
  {
    var next, key := Apply(config, system, OnInbox(step)), KeyOfCopy(system.transport, name, copy);
    Inbox.RunsStep(config.inbox, system.inbox, step);
    if HasRun(system.inbox.runs, key) {
      assert Settling(system, name, copy);
      StillSettling(config, system, step, name, copy);
    } else {
      var run :| run in next.inbox.runs && run.Key() == key;
      assert run !in system.inbox.runs;
      RunOfWorker(config, system, step.worker);
      KeysDiffer(system.transport, name, copy, system.deliveries[step.worker].copy);
      assert next.inbox.Stage(step.worker).Succeeded?;
    }
    hide Conservation.Reachable, Inbox.Reachable, Assigned, Inbox.Apply, Inbox.Enabled, Clean;
  }

  lemma StillSettling(config: Config, system: System, step: Inbox.Step, name: string, copy: nat)
    requires Enabled(config, system, OnInbox(step)) && name in system.transport.endpoints
    requires Settling(system, name, copy)
    ensures Settling(Apply(config, system, OnInbox(step)), name, copy)
  {
    hide Inbox.Apply, Inbox.Enabled;
    forall worker: nat | system.inbox.Stage(worker).Succeeded?
      ensures Apply(config, system, OnInbox(step)).inbox.Stage(worker).Succeeded?
    {
      StaysSucceeded(config.inbox, system.inbox, step, worker);
    }
  }

  lemma CleanOnInbox(config: Config, system: System, step: Inbox.Step)
    requires Sound(config, system) && Clean(config, system) && config.AcksFollow()
    requires Enabled(config, system, OnInbox(step))
    ensures Clean(config, Apply(config, system, OnInbox(step)))
  {
    OfCopiesOnInbox(config, system, step);
    hide Sound, Enabled, Settling, HasRun;
    var next := Apply(config, system, OnInbox(step));
    forall name <- next.transport.endpoints, copy: nat |
      copy < |next.transport.endpoints[name].copies| && HasRun(next.inbox.runs, KeyOfCopy(next.transport, name, copy))
      ensures Settling(next, name, copy)
    {
      SettlingOnInbox(config, system, step, name, copy);
    }
  }

  lemma CleanOnStart(config: Config, system: System, worker: nat, delivery: Delivery, transaction: bool)
    requires Sound(config, system) && Clean(config, system)
    requires Enabled(config, system, Start(worker, delivery, transaction))
    ensures Clean(config, Apply(config, system, Start(worker, delivery, transaction)))
  {
    hide Conservation.Reachable, Inbox.Reachable, Assigned, EachOnce, NothingLeft, HasRun;
    var next := Apply(config, system, Start(worker, delivery, transaction));
    forall name <- next.transport.endpoints, copy: nat |
      copy < |next.transport.endpoints[name].copies| && HasRun(next.inbox.runs, KeyOfCopy(next.transport, name, copy))
      ensures Settling(next, name, copy)
    {
      assert Settling(system, name, copy);
      SettlingOnStart(system, next, worker, name, copy);
    }
  }

  lemma SettlingOnStart(system: System, next: System, worker: nat, name: string, copy: nat)
    requires name in system.transport.endpoints && Settling(system, name, copy)
    requires next.transport == system.transport && worker !in system.deliveries
    requires forall other <- system.deliveries ::
               other in next.deliveries && next.deliveries[other] == system.deliveries[other]
               && next.inbox.Stage(other) == system.inbox.Stage(other)
    ensures Settling(next, name, copy)
  {
    var endpoint := system.transport.endpoints[name];
    if copy !in endpoint.acked && !endpoint.inFlight[copy].stage.Sending? {
      var other :| other in system.deliveries && system.deliveries[other] == Delivery(name, copy)
        && system.inbox.Stage(other).Succeeded?;
      assert next.deliveries[other] == Delivery(name, copy) && next.inbox.Stage(other).Succeeded?;
    }
  }

  // A delivery whose worker failed, or that may go away, has no committed handling.
  lemma NotCommitted(config: Config, system: System, worker: nat)
    requires Sound(config, system) && CommittedSettle(system) && worker in system.deliveries
    requires !system.inbox.Stage(worker).Succeeded?
    ensures Works(config, system, worker)
    ensures !Committed(system, system.deliveries[worker].name, system.deliveries[worker].copy)
  {
    HandlingOf(config, system, worker);
    var Delivery(name, copy) := system.deliveries[worker];
    InFlightCopy(system.transport, name, copy);
    InFlightElsewhere(system.transport, name, copy);
    assert KeyOfCopy(system.transport, name, copy) == Inbox.KeyOf(name, EnvelopeOf(system.transport, name, copy));
    assert Committed(system, name, copy) ==> Settling(system, name, copy);
    hide Conservation.Reachable, Inbox.Reachable;
  }

  lemma InFlightElsewhere(transport: Deliveries.Transport, name: string, copy: nat)
    requires Conservation.Reachable(transport) && Deliveries.AtStage(transport, name, copy)
    ensures copy !in transport.endpoints[name].acked
  {
    Receiving.ReachableConserved(transport);
    InFlightNotAcked(transport.endpoints[name], copy);
  }

  // What a worker's end or stop does to its delivery's copy: it is on its way to an ack, unless its
  // handling didn't commit.
  lemma SettlingOnLeave(
    config: Config, system: System, next: System, worker: nat, step: Deliveries.Step, name: string, copy: nat)
    requires Sound(config, system) && worker in system.deliveries && Deliveries.Enabled(system.transport, step)
    requires (step.Handled? || step.Drop?) && Delivery(step.name, step.copy) == system.deliveries[worker]
    requires next.transport == Deliveries.Apply(system.transport, step)
    requires next.inbox == system.inbox.With(worker, Inbox.Idle) && next.deliveries == system.deliveries - {worker}
    requires name in system.transport.endpoints && Settling(system, name, copy)
    requires Delivery(name, copy) != system.deliveries[worker]
    ensures name in next.transport.endpoints && Settling(next, name, copy)
  {
    var endpoint := system.transport.endpoints[name];
    EndpointsStay(system.transport, step);
    if copy in endpoint.acked {
      AckedStays(system.transport, step, name, copy);
    } else if endpoint.inFlight[copy].stage.Sending? {
      SendingStays(system.transport, step, name, copy);
    } else {
      var other :| other in system.deliveries && system.deliveries[other] == Delivery(name, copy)
        && system.inbox.Stage(other).Succeeded?;
      HandlingOf(config, system, other);
      InHands(system.transport, step, name, copy);
      assert next.deliveries[other] == Delivery(name, copy) && next.inbox.Stage(other).Succeeded?;
    }
    hide Conservation.Reachable, Inbox.Reachable, Assigned, Deliveries.Apply, Deliveries.Enabled;
  }

  lemma CleanOnLeave(config: Config, system: System, next: System, worker: nat, step: Deliveries.Step)
    requires Sound(config, system) && Clean(config, system) && worker in system.deliveries
    requires Deliveries.Enabled(system.transport, step)
    requires (step.Handled? || step.Drop?) && Delivery(step.name, step.copy) == system.deliveries[worker]
    requires next.transport == Deliveries.Apply(system.transport, step)
    requires next.inbox == system.inbox.With(worker, Inbox.Idle) && next.deliveries == system.deliveries - {worker}
    requires if step.Handled? && step.result.Ok? then config.inbox.outbox ==> step.result.value == []
             else Deliveries.AtStage(system.transport, step.name, step.copy)
                  && !Committed(system, step.name, step.copy)
    ensures Clean(config, next)
  {
    NothingLeftOnTransport(config, system.transport, step);
    EachOnceStep(config, system, step);
    HandlingOf(config, system, worker);
    if !config.faults.lostRejects {
      ErrorsStep(system.transport, step);
    }
    hide Conservation.Reachable, Inbox.Reachable, Assigned, Deliveries.Apply, EachOnce, NothingLeft, HasRun, Settling,
      KeyOfCopy;
    forall name <- next.transport.endpoints, copy: nat |
      copy < |next.transport.endpoints[name].copies| && HasRun(next.inbox.runs, KeyOfCopy(next.transport, name, copy))
      ensures Settling(next, name, copy)
    {
      SameCopies(system.transport, step, name);
      CopiesStay(system.transport, step, name, copy);
      if Delivery(name, copy) != system.deliveries[worker] {
        SettlingOnLeave(config, system, next, worker, step, name, copy);
      } else {
        InFlightCopy(system.transport, name, copy);
        LastKey(system.transport, name, copy);
        HandledSends(system, next, step);
      }
    }
    forall run <- next.inbox.runs
      ensures run.endpoint in next.transport.endpoints
      ensures exists copy: nat :: copy < |next.transport.endpoints[run.endpoint].copies|
                                  && KeyOfCopy(next.transport, run.endpoint, copy) == run.Key()
    {
      var copy: nat :| copy < |system.transport.endpoints[run.endpoint].copies|
        && KeyOfCopy(system.transport, run.endpoint, copy) == run.Key();
      CopiesStay(system.transport, step, run.endpoint, copy);
      EndpointsStay(system.transport, step);
    }
  }

  lemma SameCopies(transport: Deliveries.Transport, step: Deliveries.Step, name: string)
    requires Deliveries.Enabled(transport, step) && (step.Handled? || step.Drop?)
    requires name in Deliveries.Apply(transport, step).endpoints
    ensures name in transport.endpoints
    ensures Deliveries.Apply(transport, step).endpoints[name].copies == transport.endpoints[name].copies
  {
  }

  lemma HandledSends(system: System, next: System, step: Deliveries.Step)
    requires Deliveries.Enabled(system.transport, step) && step.Handled? && step.result.Ok?
    requires next.transport == Deliveries.Apply(system.transport, step)
    ensures step.name in next.transport.endpoints && Settling(next, step.name, step.copy)
  {
  }

  lemma CleanOnEnd(config: Config, system: System, worker: nat)
    requires Sound(config, system) && Clean(config, system) && Enabled(config, system, End(worker))
    ensures Clean(config, Apply(config, system, End(worker)))
  {
    var step := Ended(system, worker);
    if system.inbox.Stage(worker).Succeeded? {
      Inbox.SuccessIsCommitted(config.inbox, system.inbox, worker);
    } else {
      NotCommitted(config, system, worker);
    }
    hide Conservation.Reachable, Inbox.Reachable, Assigned, Deliveries.Apply, Clean, Committed;
    CleanOnLeave(config, system, Apply(config, system, End(worker)), worker, step);
  }

  lemma CleanOnStop(config: Config, system: System, worker: nat)
    requires Sound(config, system) && Clean(config, system) && !config.faults.stops
    requires Enabled(config, system, Stop(worker))
    ensures Clean(config, Apply(config, system, Stop(worker)))
  {
    hide Conservation.Reachable, Inbox.Reachable, Assigned, Deliveries.Apply, Clean, Committed;
    CleanOnLeave(config, system, Apply(config, system, Stop(worker)), worker, Dropped(system, worker));
  }

  lemma CleanStep(config: Config, system: System, step: Step)
    requires Sound(config, system) && Clean(config, system) && config.AcksFollow()
    requires Enabled(config, system, step)
    ensures Clean(config, Apply(config, system, step))
  {
    match step
    case OnTransport(step) =>
      CleanOnTransport(config, system, step);
      NothingLeftOnTransport(config, system.transport, step);
      if !config.faults.lostRejects {
        ErrorsStep(system.transport, step);
      }
      hide ErrorsGivenUp, EachOnce, OfCopies, CommittedSettle, Sound, Deliveries.Apply;
    case OnInbox(step) => CleanOnInbox(config, system, step);
    case Start(worker, delivery, transaction) => CleanOnStart(config, system, worker, delivery, transaction);
    case End(worker) => CleanOnEnd(config, system, worker);
    case Stop(worker) => CleanOnStop(config, system, worker);
  }

  lemma {:induction false} CleanRun(config: Config, first: System, steps: seq<Step>, last: System)
    requires Sound(config, first) && Clean(config, first) && config.AcksFollow()
    requires Run(config, first, steps, last)
    ensures Sound(config, last) && Clean(config, last)
    decreases |steps|
  {
    if steps != [] {
      CleanStep(config, first, steps[0]);
      SoundStep(config, first, steps[0]);
      hide Sound, Clean, Enabled, Apply;
      CleanRun(config, Apply(config, first, steps[0]), steps[1..], last);
    }
  }

  lemma FirstIsSound(config: Config, first: System)
    requires Initial(first)
    ensures Sound(config, first) && Clean(config, first)
  {
    assert Conservation.Run(first.transport, [], first.transport);
    Inbox.StartIsReachable(config.inbox, first.inbox);
    assert first.transport.endpoints == map[] && first.inbox.runs == [];
  }

  // Without the faults, no message is both handled for good and rejected, or at the error destination.
  lemma FaultlessIsExclusive(config: Config, system: System)
    requires config.AcksFollow() && Reachable(config, system)
    ensures RejectedApart(system) && (config.Faultless() ==> Exclusive(system))
  {
    var first: System, steps: seq<Step> :| Initial(first) && Run(config, first, steps, system);
    FirstIsSound(config, first);
    CleanRun(config, first, steps, system);
    CleanRejectedApart(config, system);
    if config.Faultless() {
      CleanIsExclusive(config, system);
    }
  }

  lemma {:induction false} RunOn(config: Config, first: System, steps: seq<Step>, middle: System, step: Step)
    requires Run(config, first, steps, middle) && Enabled(config, middle, step)
    ensures Run(config, first, steps + [step], Apply(config, middle, step))
    decreases |steps|
  {
    hide Enabled, Apply;
    if steps == [] {
      assert ([] + [step])[1..] == [];
    } else {
      RunOn(config, Apply(config, first, steps[0]), steps[1..], middle, step);
      assert (steps + [step])[1..] == steps[1..] + [step];
    }
  }

  lemma Reach(config: Config, system: System, step: Step)
    requires Reachable(config, system) && Enabled(config, system, step)
    ensures Reachable(config, Apply(config, system, step))
  {
    var first: System, steps: seq<Step> :| Initial(first) && Run(config, first, steps, system);
    RunOn(config, first, steps, system, step);
    hide Enabled, Apply;
  }

  // A worker of an endpoint with a retry policy, where the envelope's type is handled. The others are
  // idle.
  datatype Site = Site(worker: nat, retry: RetryPolicy, envelope: Envelope) {
    function Name(config: Config): string {
      config.inbox.endpoint(worker)
    }

    function Key(config: Config): Inbox.ReceiptKey {
      Inbox.KeyOf(Name(config), envelope)
    }

    predicate Handles(config: Config) {
      config.inbox.handles(Name(config), envelope.messageType)
    }
  }

  ghost predicate Serves(config: Config, system: System, site: Site) {
    && Reachable(config, system) && !system.transport.failing && site.Handles(config)
    && site.Name(config) in system.transport.endpoints
    && system.transport.endpoints[site.Name(config)].retry == site.retry
    && site.envelope.messageType in system.transport.endpoints[site.Name(config)].types
    && forall other <- system.inbox.stages :: other != site.worker ==> system.inbox.stages[other].Idle?
  }

  // The worker is idle, too.
  ghost predicate Quiet(config: Config, system: System, site: Site) {
    Serves(config, system, site) && system.deliveries == map[] && system.inbox.Stage(site.worker).Idle?
  }

  ghost predicate Queued(transport: Deliveries.Transport, name: string, pending: Deliveries.Pending) {
    name in transport.endpoints && transport.endpoints[name].pending == [pending]
  }

  // A copy is the only one that isn't settled or with its publishes, and at some stage.
  ghost predicate Alone(
    transport: Deliveries.Transport, name: string, pending: Deliveries.Pending, stage: Deliveries.Stage)
  {
    && name in transport.endpoints && transport.endpoints[name].pending == []
    && pending.copy in transport.endpoints[name].inFlight
    && transport.endpoints[name].inFlight[pending.copy] == Deliveries.InFlight(pending, stage)
  }

  // What was committed, and what is at the error destinations.
  ghost predicate SameResults(before: System, after: System) {
    && after.inbox.runs == before.inbox.runs && after.inbox.receipts == before.inbox.receipts
    && after.transport.errors == before.transport.errors
  }

  // A delivery fails when the database gives no transaction.
  lemma Undelivered(config: Config, system: System, site: Site, pending: Deliveries.Pending) returns (failed: System)
    requires Quiet(config, system, site) && Queued(system.transport, site.Name(config), pending)
    requires pending.envelope == site.envelope
    ensures Quiet(config, failed, site) && SameResults(system, failed)
    ensures Alone(failed.transport, site.Name(config), pending, Deliveries.Failing(Handler))
  {
    hide Reachable;
    var name := site.Name(config);
    var receive := OnTransport(Deliveries.Receive(name));
    Reach(config, system, receive);
    var received := Apply(config, system, receive);
    var start := Start(site.worker, Delivery(name, pending.copy), false);
    Reach(config, received, start);
    var started := Apply(config, received, start);
    Reach(config, started, End(site.worker));
    failed := Apply(config, started, End(site.worker));
    assert failed.deliveries == map[];
  }

  // A failed delivery that may be retried is queued again.
  lemma Requeued(config: Config, system: System, site: Site, pending: Deliveries.Pending) returns (queued: System)
    requires Quiet(config, system, site)
    requires Alone(system.transport, site.Name(config), pending, Deliveries.Failing(Handler))
    requires !site.retry.IsLast(pending.attempt)
    ensures Quiet(config, queued, site) && SameResults(system, queued)
    ensures Queued(queued.transport, site.Name(config), Deliveries.Next(pending))
  {
    hide Reachable;
    var name := site.Name(config);
    var again := OnTransport(Deliveries.Retry(name, pending.copy));
    Reach(config, system, again);
    var waiting := Apply(config, system, again);
    var wake := OnTransport(Deliveries.Wake(name, pending.copy));
    Reach(config, waiting, wake);
    queued := Apply(config, waiting, wake);
  }

  // After its last attempt an error copy is accepted.
  lemma SentToErrors(config: Config, system: System, site: Site, pending: Deliveries.Pending) returns (given: System)
    requires Quiet(config, system, site) && pending.envelope == site.envelope
    requires Alone(system.transport, site.Name(config), pending, Deliveries.Failing(Handler))
    requires site.retry.IsLast(pending.attempt)
    ensures Quiet(config, given, site)
    ensures given.inbox.runs == system.inbox.runs && given.inbox.receipts == system.inbox.receipts
    ensures Alone(given.transport, site.Name(config), pending, Deliveries.GivenUp)
    ensures ErrorCopied(site.envelope, given.transport.Errors(site.Name(config)))
  {
    hide Reachable;
    var name := site.Name(config);
    var giveUp := OnTransport(Deliveries.GiveUp(name, pending.copy, "", ""));
    Reach(config, system, giveUp);
    given := Apply(config, system, giveUp);
    var errors := given.transport.Errors(name);
    assert errors[|errors| - 1].(extensions := site.envelope.extensions) == site.envelope;
  }

  // With every further delivery failing, an error copy is accepted, whatever the retry policy.
  lemma {:induction false} EndsAtErrors(config: Config, system: System, site: Site, pending: Deliveries.Pending)
    returns (given: System, last: Deliveries.Pending)
    requires Quiet(config, system, site) && pending.envelope == site.envelope
    requires Alone(system.transport, site.Name(config), pending, Deliveries.Failing(Handler))
    ensures Quiet(config, given, site) && last == pending.(attempt := last.attempt)
    ensures given.inbox.runs == system.inbox.runs && given.inbox.receipts == system.inbox.receipts
    ensures Alone(given.transport, site.Name(config), last, Deliveries.GivenUp)
    ensures ErrorCopied(site.envelope, given.transport.Errors(site.Name(config)))
    decreases site.retry.attempts - pending.attempt
  {
    hide Quiet, Queued, Alone, ErrorCopied;
    if site.retry.IsLast(pending.attempt) {
      given := SentToErrors(config, system, site, pending);
      last := pending;
    } else {
      var queued := Requeued(config, system, site, pending);
      var failed := Undelivered(config, queued, site, Deliveries.Next(pending));
      given, last := EndsAtErrors(config, failed, site, Deliveries.Next(pending));
    }
  }

  // The message was handled for good, and an error copy of it was accepted.
  ghost predicate Both(config: Config, system: System, site: Site) {
    && Reachable(config, system)
    && site.Name(config) in system.transport.endpoints
    && system.transport.endpoints[site.Name(config)].retry == site.retry
    && ErrorCopied(site.envelope, system.transport.Errors(site.Name(config)))
    && HasRun(system.inbox.runs, site.Key(config))
  }

  ghost predicate Rejected(config: Config, system: System, site: Site) {
    && site.Name(config) in system.transport.endpoints
    && exists pending <- system.transport.endpoints[site.Name(config)].rejected :: pending.envelope == site.envelope
  }

  // A failed delivery of a message that was handled for good is rejected in the end.
  lemma EndsRejected(config: Config, system: System, site: Site, pending: Deliveries.Pending) returns (last: System)
    requires Quiet(config, system, site) && pending.envelope == site.envelope
    requires Alone(system.transport, site.Name(config), pending, Deliveries.Failing(Handler))
    requires HasRun(system.inbox.runs, site.Key(config))
    ensures Both(config, last, site) && Rejected(config, last, site)
  {
    hide Reachable, HasRun, ErrorCopied;
    var given, final := EndsAtErrors(config, system, site, pending);
    var name := site.Name(config);
    var reject := OnTransport(Deliveries.Reject(name, final.copy));
    Reach(config, given, reject);
    last := Apply(config, given, reject);
    var rejected := last.transport.endpoints[name].rejected;
    assert rejected[|rejected| - 1] == final;
  }

  // The worker has the copy, and its transaction is as far as `stage`.
  ghost predicate AtWork(
    config: Config, system: System, site: Site, pending: Deliveries.Pending, stage: Inbox.Stage)
  {
    && Serves(config, system, site)
    && system.deliveries == map[site.worker := Delivery(site.Name(config), pending.copy)]
    && Alone(system.transport, site.Name(config), pending, Deliveries.Handling)
    && pending.envelope == site.envelope && system.inbox.Stage(site.worker) == stage
  }

  // The worker takes a copy and begins to handle it.
  lemma Takes(config: Config, system: System, site: Site, pending: Deliveries.Pending) returns (began: System)
    requires Quiet(config, system, site) && Queued(system.transport, site.Name(config), pending)
    requires pending.envelope == site.envelope
    ensures AtWork(config, began, site, pending, Inbox.Began(site.envelope)) && SameResults(system, began)
  {
    hide Reachable;
    var name := site.Name(config);
    var receive := OnTransport(Deliveries.Receive(name));
    Reach(config, system, receive);
    var received := Apply(config, system, receive);
    var start := Start(site.worker, Delivery(name, pending.copy), true);
    Reach(config, received, start);
    began := Apply(config, received, start);
  }

  lemma Proceeds(
    config: Config, system: System, site: Site, pending: Deliveries.Pending, stage: Inbox.Stage, step: Inbox.Step)
    returns (next: System)
    requires AtWork(config, system, site, pending, stage)
    requires (step.Record? || step.Handle? || step.Write? || step.Commit?) && step.worker == site.worker
    requires Enabled(config, system, OnInbox(step))
    ensures next == system.(inbox := Inbox.Apply(config.inbox, system.inbox, step))
    ensures AtWork(config, next, site, pending, next.inbox.Stage(site.worker))
  {
    Reach(config, system, OnInbox(step));
    hide Reachable, Follows;
    next := Apply(config, system, OnInbox(step));
  }

  lemma WorksAlone(config: Config, system: System, site: Site, pending: Deliveries.Pending, stage: Inbox.Stage)
    requires AtWork(config, system, site, pending, stage)
    ensures system.inbox.Stage(site.worker) == stage
    ensures forall other <- system.inbox.stages :: other != site.worker ==> system.inbox.stages[other].Idle?
  {
  }

  // The stage before a commit.
  function WrittenBy(config: Config, site: Site, publishes: seq<Envelope>): Inbox.Stage {
    if config.inbox.outbox then Inbox.Written(site.envelope, publishes, publishes, [], false)
    else Inbox.Written(site.envelope, publishes, [], publishes, false)
  }

  // The transaction is about to commit.
  lemma Writes(config: Config, began: System, site: Site, pending: Deliveries.Pending, publishes: seq<Envelope>)
    returns (written: System)
    requires AtWork(config, began, site, pending, Inbox.Began(site.envelope)) && Follows(site.envelope, publishes)
    requires site.Key(config) !in began.inbox.receipts
    ensures AtWork(config, written, site, pending, WrittenBy(config, site, publishes))
    ensures written.transport == began.transport && written.inbox.runs == began.inbox.runs
  {
    hide AtWork, Follows;
    var worker, envelope := site.worker, site.envelope;
    WorksAlone(config, began, site, pending, Inbox.Began(envelope));
    var recorded := Proceeds(config, began, site, pending, Inbox.Began(envelope), Inbox.Record(worker));
    var handle := Inbox.Handle(worker, Inbox.Returned(publishes, false));
    var handled := Proceeds(config, recorded, site, pending, Inbox.Recorded(envelope), handle);
    written := Proceeds(config, handled, site, pending, Inbox.Handled(envelope, publishes, false), Inbox.Write(worker));
  }

  // The stage after a commit that landed.
  function CommittedBy(config: Config, site: Site, publishes: seq<Envelope>, outcome: Inbox.Outcome): Inbox.Stage {
    if outcome != Inbox.Landed then Inbox.Failed(site.envelope, Handler)
    else Inbox.Succeeded(site.envelope, if config.inbox.outbox then [] else publishes)
  }

  lemma Commits(
    config: Config, began: System, site: Site, pending: Deliveries.Pending, publishes: seq<Envelope>,
    outcome: Inbox.Outcome)
    returns (committed: System)
    requires AtWork(config, began, site, pending, Inbox.Began(site.envelope)) && Follows(site.envelope, publishes)
    requires site.Key(config) !in began.inbox.receipts
    requires outcome == Inbox.Landed || (outcome == Inbox.LandedUnknown && config.faults.unknownCommits)
    ensures AtWork(config, committed, site, pending, CommittedBy(config, site, publishes, outcome))
    ensures committed.transport == began.transport && HasRun(committed.inbox.runs, site.Key(config))
  {
    hide AtWork, Follows;
    var written := Writes(config, began, site, pending, publishes);
    WorksAlone(config, written, site, pending, WrittenBy(config, site, publishes));
    committed :=
      Proceeds(config, written, site, pending, WrittenBy(config, site, publishes), Inbox.Commit(site.worker, outcome));
    var runs := committed.inbox.runs;
    assert runs[|runs| - 1].Key() == site.Key(config);
  }

  // The pipeline returns.
  lemma Ends(config: Config, system: System, site: Site, pending: Deliveries.Pending, stage: Inbox.Stage)
    returns (ended: System)
    requires AtWork(config, system, site, pending, stage)
    requires stage.Succeeded? || stage == Inbox.Failed(site.envelope, Handler)
    ensures Quiet(config, ended, site) && SameResults(system, ended)
    ensures Alone(ended.transport, site.Name(config), pending,
                  if stage.Failed? then Deliveries.Failing(Handler) else Deliveries.Sending([], stage.held))
    ensures ended.transport.endpoints[site.Name(config)].copies == system.transport.endpoints[site.Name(config)].copies
  {
    Reach(config, system, End(site.worker));
    hide Reachable;
    ended := Apply(config, system, End(site.worker));
    assert ended.deliveries == map[];
  }

  // The endpoint subscribes, and the message is published.
  lemma FirstPublished(config: Config, site: Site) returns (system: System)
    requires site.Handles(config)
    ensures Quiet(config, system, site) && system.inbox.receipts == map[] && system.inbox.runs == []
    ensures Queued(system.transport, site.Name(config), Deliveries.Pending(0, site.envelope, 1))
    ensures system.transport.endpoints[site.Name(config)].copies == [site.envelope]
  {
    hide Reachable;
    var first := System(Deliveries.Transport(map[], [], map[], false), Inbox.State(map[], map[], [], [], {}), map[]);
    assert Reachable(config, first) by {
      FirstReachable(config, first);
    }
    var subscribe := OnTransport(Deliveries.Subscribe(site.Name(config), {site.envelope.messageType}, site.retry));
    Reach(config, first, subscribe);
    var subscribed := Apply(config, first, subscribe);
    var publish := OnTransport(Deliveries.Publish(site.envelope));
    Reach(config, subscribed, publish);
    system := Apply(config, subscribed, publish);
  }

  lemma FirstReachable(config: Config, first: System)
    requires Initial(first)
    ensures Reachable(config, first)
  {
    assert Run(config, first, [], first);
  }

  // The first delivery's handling commits.
  lemma FirstCommits(config: Config, site: Site, publishes: seq<Envelope>, outcome: Inbox.Outcome)
    returns (system: System)
    requires site.Handles(config) && Follows(site.envelope, publishes)
    requires outcome == Inbox.Landed || (outcome == Inbox.LandedUnknown && config.faults.unknownCommits)
    ensures AtWork(config, system, site, Deliveries.Pending(0, site.envelope, 1),
                   CommittedBy(config, site, publishes, outcome))
    ensures HasRun(system.inbox.runs, site.Key(config))
  {
    hide Quiet, Queued, AtWork, Follows, HasRun;
    var pending := Deliveries.Pending(0, site.envelope, 1);
    var published := FirstPublished(config, site);
    var began := Takes(config, published, site, pending);
    system := Commits(config, began, site, pending, publishes, outcome);
  }

  // The commit landed, but the worker was told that it failed.
  lemma UnknownCommit(config: Config, site: Site) returns (last: System)
    requires site.Handles(config) && config.faults.unknownCommits
    ensures Both(config, last, site) && Rejected(config, last, site)
  {
    hide AtWork, Quiet, Alone, HasRun;
    var pending := Deliveries.Pending(0, site.envelope, 1);
    var committed := FirstCommits(config, site, [], Inbox.LandedUnknown);
    var failed := Ends(config, committed, site, pending, Inbox.Failed(site.envelope, Handler));
    last := EndsRejected(config, failed, site, pending);
  }

  // The worker stopped before its ack, and every redelivery fails.
  lemma StoppedWorker(config: Config, site: Site) returns (last: System)
    requires site.Handles(config) && config.faults.stops
    ensures Both(config, last, site) && Rejected(config, last, site)
  {
    hide Reachable, HasRun, ErrorCopied, Both, Rejected;
    var committed := FirstCommits(config, site, [], Inbox.Landed);
    Reach(config, committed, Stop(site.worker));
    var stopped := Apply(config, committed, Stop(site.worker));
    assert stopped.deliveries == map[];
    var pending := Deliveries.Pending(0, site.envelope, 2);
    var failed := Undelivered(config, stopped, site, pending);
    last := EndsRejected(config, failed, site, pending);
  }

  // Without an outbox, the broker refused a publish of the committed handling.
  lemma RefusedSend(config: Config, site: Site) returns (last: System)
    requires site.Handles(config) && config.faults.refusedSends && !config.inbox.outbox
    ensures Both(config, last, site) && Rejected(config, last, site)
  {
    hide Reachable, HasRun, ErrorCopied, Both, Rejected, AtWork;
    var pending, publishes := Deliveries.Pending(0, site.envelope, 1), [Followed(site.envelope, site.envelope)];
    var committed := FirstCommits(config, site, publishes, Inbox.Landed);
    var ended := Ends(config, committed, site, pending, Inbox.Succeeded(site.envelope, publishes));
    var failing := OnTransport(Deliveries.SetFailing(true));
    Reach(config, ended, failing);
    var down := Apply(config, ended, failing);
    var send := OnTransport(Deliveries.SendNext(site.Name(config), 0));
    Reach(config, down, send);
    var refused := Apply(config, down, send);
    var working := OnTransport(Deliveries.SetFailing(false));
    Reach(config, refused, working);
    var failed := Apply(config, refused, working);
    last := EndsRejected(config, failed, site, pending);
  }

  // The message was published again after its handling committed, and every delivery of the second
  // copy fails.
  lemma RepeatedMessage(config: Config, site: Site) returns (last: System)
    requires site.Handles(config) && config.faults.repeats
    ensures Both(config, last, site) && Rejected(config, last, site)
  {
    hide Reachable, HasRun, ErrorCopied, Both, Rejected, AtWork;
    var committed := FirstCommits(config, site, [], Inbox.Landed);
    var ended :=
      Ends(config, committed, site, Deliveries.Pending(0, site.envelope, 1), Inbox.Succeeded(site.envelope, []));
    var publish := OnTransport(Deliveries.Publish(site.envelope));
    Reach(config, ended, publish);
    var repeated := Apply(config, ended, publish);
    var copy := |ended.transport.endpoints[site.Name(config)].copies|;
    var pending := Deliveries.Pending(copy, site.envelope, 1);
    var failed := Undelivered(config, repeated, site, pending);
    last := EndsRejected(config, failed, site, pending);
  }

  // A delivery goes away after its error copy was accepted, and the next one's handling commits.
  lemma LostReject(config: Config, site: Site) returns (last: System)
    requires site.Handles(config) && config.faults.lostRejects
    ensures Both(config, last, site)
  {
    hide Reachable, HasRun, ErrorCopied, Both;
    var first, name := Deliveries.Pending(0, site.envelope, 1), site.Name(config);
    var published := FirstPublished(config, site);
    var failed := Undelivered(config, published, site, first);
    var given, pending := EndsAtErrors(config, failed, site, first);
    var drop := OnTransport(Deliveries.Drop(name, pending.copy));
    NoneRan(given.inbox, site.Key(config));
    Reach(config, given, drop);
    var dropped := Apply(config, given, drop);
    last := HandledAfterAll(config, dropped, site, Deliveries.Next(pending));
  }

  lemma NoneRan(inbox: Inbox.State, key: Inbox.ReceiptKey)
    requires inbox.runs == []
    ensures !HasRun(inbox.runs, key)
  {
  }

  lemma HandledAfterAll(config: Config, system: System, site: Site, pending: Deliveries.Pending) returns (last: System)
    requires Quiet(config, system, site) && Queued(system.transport, site.Name(config), pending)
    requires pending.envelope == site.envelope && site.Key(config) !in system.inbox.receipts
    requires ErrorCopied(site.envelope, system.transport.Errors(site.Name(config)))
    ensures Both(config, last, site)
  {
    hide Reachable, HasRun, ErrorCopied;
    var began := Takes(config, system, site, pending);
    assert Follows(site.envelope, []);
    last := Commits(config, began, site, pending, [], Inbox.Landed);
  }

  // Each of the four faults between a commit and its ack puts a message whose handling committed among
  // the rejected ones and at the error destination, alone and under any retry policy.
  lemma FaultRejects(config: Config, site: Site) returns (last: System)
    requires site.Handles(config) && !config.AcksFollow()
    ensures Both(config, last, site) && Rejected(config, last, site)
  {
    hide Both, Rejected;
    if config.faults.unknownCommits {
      last := UnknownCommit(config, site);
    } else if config.faults.stops {
      last := StoppedWorker(config, site);
    } else if config.faults.repeats {
      last := RepeatedMessage(config, site);
    } else {
      last := RefusedSend(config, site);
    }
  }

  // No message that was handled for good is ever rejected if and only if nothing comes between a commit
  // and its ack: no commit that lands without saying so, no delivery that goes away, no message
  // published twice and, without an outbox, no refused publish.
  lemma ApartIffAcksFollow(config: Config, site: Site)
    requires site.Handles(config)
    ensures (forall system: System | Reachable(config, system) :: RejectedApart(system)) <==> config.AcksFollow()
  {
    if config.AcksFollow() {
      forall system: System | Reachable(config, system)
        ensures RejectedApart(system)
      {
        FaultlessIsExclusive(config, system);
      }
    } else {
      var last := FaultRejects(config, site);
      NotApart(config, last, site);
    }
  }

  lemma NotApart(config: Config, system: System, site: Site)
    requires Both(config, system, site) && Rejected(config, system, site)
    ensures !RejectedApart(system)
  {
    hide HasRun;
    var name := site.Name(config);
    var pending :| pending in system.transport.endpoints[name].rejected && pending.envelope == site.envelope;
  }

  // No message that was handled for good is ever at the error destination if and only if, besides, no
  // delivery comes again whose error copy was accepted.
  lemma ExclusiveIffFaultless(config: Config, site: Site)
    requires site.Handles(config)
    ensures (forall system: System | Reachable(config, system) :: Exclusive(system)) <==> config.Faultless()
  {
    if config.Faultless() {
      forall system: System | Reachable(config, system)
        ensures Exclusive(system)
      {
        FaultlessIsExclusive(config, system);
      }
    } else {
      var last;
      if config.AcksFollow() {
        last := LostReject(config, site);
      } else {
        last := FaultRejects(config, site);
      }
      NotExclusive(config, last, site);
    }
  }

  lemma NotExclusive(config: Config, system: System, site: Site)
    requires Both(config, system, site)
    ensures !Exclusive(system)
  {
    hide HasRun;
    var name := site.Name(config);
    var error :| error in system.transport.Errors(name)
      && error.(extensions := site.envelope.extensions) == site.envelope;
    assert Inbox.KeyOf(name, error) == site.Key(config);
  }
}
