/** One delivery's handling in its transaction, statement by statement, while the other workers run.

`World` holds the database. Each statement of the handling is one of the steps of the transition
system, so what is shown of its reachable states holds all through. */
module Transactional {
  import opened Envelopes
  import opened Handlers
  import opened Inbox
  import opened Options

  // The worker a step belongs to.
  function Actor(step: Step): Option<nat> {
    if step.ExpireReceipts? then None else Some(step.worker)
  }

  // Which statements of a handling fail, and how its commit goes.
  datatype Faults = Faults(begin: bool, record: bool, write: bool, commit: Outcome)

  // Another open transaction holds the message's receipt.
  ghost predicate HeldElsewhere(config: Config, state: State, worker: nat, envelope: Envelope) {
    exists other <- state.stages ::
      other != worker && Holds(config, state, other) == Some(KeyOf(config.endpoint(worker), envelope))
  }

  // Why a handling may fail: there is no handler; a statement fails, or gives up waiting for another
  // transaction; the handler fails; or it left its transaction aborted.
  ghost predicate MayFail(
    config: Config, state: State, worker: nat, envelope: Envelope, work: Work, faults: Faults, failure: Failure)
  {
    if !config.handles(config.endpoint(worker), envelope.messageType) then failure == Undecodable
    else
      || work.end == Err(failure)
      || (failure == Failure.Handler
          && (faults.begin || faults.record || HeldElsewhere(config, state, worker, envelope)
              || (faults.write && config.outbox && exists message <- work.messages :: message.Ok?)
              || faults.commit != Landed || work.end == Ok(true)))
  }

  // While another worker runs, a worker's stage and the receipt it holds stay its own.
  lemma OtherStep(config: Config, state: State, step: Step, worker: nat)
    requires Reachable(config, state) && Enabled(config, state, step) && Actor(step) != Some(worker)
    ensures var next := Apply(config, state, step);
            && next.Stage(worker) == state.Stage(worker)
            && (forall run <- state.runs :: run in next.runs)
            && (forall run <- next.runs :: run in state.runs || Holds(config, state, worker) != Some(run.Key()))
  {
    RunsStep(config, state, step);
    InboxIsAtomic(config, state);
    hide Follows, Reachable, ReceiptsRight, StageRight;
    var next := Apply(config, state, step);
    if next.runs != state.runs {
      var run := next.runs[|state.runs|];
      assert Holds(config, state, step.worker) == Some(run.Key());
      assert Holds(config, state, worker) != Some(run.Key());
    }
  }

  class World {
    const config: Config
    var state: State

    ghost predicate Valid()
      reads this
    {
      Reachable(config, state)
    }

    constructor (config: Config)
      ensures Valid() && this.config == config && Initial(state)
    {
      this.config := config;
      state := State(map[], map[], [], [], {});
      new;
      StartIsReachable(config, state);
    }

    method Do(step: Step)
      requires Valid() && Enabled(config, state, step)
      modifies this
      ensures Valid() && state == Apply(config, old(state), step)
    {
      Reach(config, state, step);
      state := Apply(config, state, step);
    }

    // The other workers run: any steps of theirs, in any order.
    method Others(worker: nat)
      requires Valid()
      modifies this
      ensures Valid() && state.Stage(worker) == old(state).Stage(worker)
      ensures forall run <- old(state).runs :: run in state.runs
      ensures forall run <- state.runs :: run in old(state).runs || Holds(config, old(state), worker) != Some(run.Key())
    {
      hide Reachable;
      var schedule: seq<Step> := *;
      for i := 0 to |schedule|
        invariant Valid() && state.Stage(worker) == old(state).Stage(worker)
        invariant forall run <- old(state).runs :: run in state.runs
        invariant forall run <- state.runs ::
                  run in old(state).runs || Holds(config, old(state), worker) != Some(run.Key())
      {
        if Actor(schedule[i]) != Some(worker) && Enabled(config, state, schedule[i]) {
          OtherStep(config, state, schedule[i], worker);
          Do(schedule[i]);
        }
      }
    }

    // Finds the handler and begins the transaction.
    method Start(worker: nat, envelope: Envelope, faults: Faults) returns (result: Result<(), Failure>)
      requires Valid() && state.Stage(worker).Idle?
      modifies this
      ensures Valid()
      ensures state.Stage(worker)
              == (match result case Ok(_) => Began(envelope) case Err(failure) => Failed(envelope, failure))
      ensures result == (if !config.handles(config.endpoint(worker), envelope.messageType) then Err(Undecodable)
                         else if faults.begin then Err(Failure.Handler) else Ok(()))
    {
      hide Reachable;
      Others(worker);
      if !config.handles(config.endpoint(worker), envelope.messageType) {
        Do(NoTransaction(worker, envelope));
        return Err(Undecodable);
      }
      if faults.begin {
        Do(NoTransaction(worker, envelope));
        return Err(Failure.Handler);
      }
      Do(Begin(worker, envelope));
      return Ok(());
    }

    // Inserts the receipt, and says whether it was new. While another open transaction holds the
    // key this waits, and may give up.
    method RecordReceipt(worker: nat, faults: Faults) returns (result: Result<bool, Failure>)
      requires Valid() && state.Stage(worker).Began?
      modifies this
      ensures Valid()
      ensures var envelope := old(state).Stage(worker).envelope;
              state.Stage(worker) == (match result
                                      case Ok(recorded) => if recorded then Recorded(envelope) else Duplicate(envelope)
                                      case Err(failure) => Failed(envelope, failure))
      ensures var envelope := old(state).Stage(worker).envelope;
              match result
              case Ok(recorded) =>
                !faults.record
                && (recorded <==> ReceiptKey(config.endpoint(worker), envelope.id, envelope.time) !in state.receipts)
              case Err(failure) =>
                failure == Failure.Handler && (faults.record || HeldElsewhere(config, state, worker, envelope))
    {
      hide Reachable, Follows;
      Others(worker);
      if faults.record || !Enabled(config, state, Record(worker)) {
        ghost var before := state;
        Do(Abandon(worker));
        StillHeld(config, before, worker);
        return Err(Failure.Handler);
      }
      Do(Record(worker));
      return Ok(state.Stage(worker).Recorded?);
    }

    // Runs the handler.
    method Handle(worker: nat, work: Work) returns (result: Result<seq<Envelope>, Failure>)
      requires Valid() && state.Stage(worker).Recorded?
      modifies this
      ensures Valid()
      ensures var envelope, stage := old(state).Stage(worker).envelope, state.Stage(worker);
              match result
              case Ok(held) =>
                && work.end.Ok? && held == HeldBy(envelope, work.messages)
                && Carries(envelope, work.messages, held)
                && stage == Handled(envelope, held, work.end.value)
              case Err(failure) => work.end == Err(failure) && stage == Failed(envelope, failure)
    {
      hide Reachable;
      var context := new HandlerContext(state.Stage(worker).envelope);
      var outcome := Call(context, work);
      assert Follows(state.Stage(worker).envelope, context.held);
      hide Follows;
      Others(worker);
      match outcome
      case Err(failure) =>
        Do(Step.Handle(worker, Refused(failure)));
        return Err(failure);
      case Ok(aborted) =>
        Do(Step.Handle(worker, Returned(context.held, aborted)));
        return Ok(context.held);
    }

    // With an outbox, writes the handler's publishes to it and keeps none.
    method WriteHeld(worker: nat, publishes: seq<Envelope>, faults: Faults)
      returns (result: Result<seq<Envelope>, Failure>)
      requires Valid() && state.Stage(worker).Handled? && state.Stage(worker).publishes == publishes
      modifies this
      ensures Valid()
      ensures var envelope, stage := old(state).Stage(worker).envelope, state.Stage(worker);
              match result
              case Ok(held) =>
                && held == (if config.outbox then [] else publishes)
                && stage == Written(envelope, publishes, if config.outbox then publishes else [], held,
                                    old(state).Stage(worker).aborted)
              case Err(failure) =>
                && stage == Failed(envelope, failure) && failure == Failure.Handler
                && config.outbox && publishes != [] && (faults.write || old(state).Stage(worker).aborted)
    {
      hide Reachable, Follows;
      Others(worker);
      if config.outbox && publishes != [] && (faults.write || state.Stage(worker).aborted) {
        Do(Abandon(worker));
        return Err(Failure.Handler);
      }
      Do(Write(worker));
      return Ok(if config.outbox then [] else publishes);
    }

    // Commits, and says whether that went well. An aborted transaction fails first, and no run of its
    // message commits; a commit that reports an error may have landed.
    method CommitAll(worker: nat, faults: Faults) returns (committed: bool)
      requires Valid() && (state.Stage(worker).Duplicate? || state.Stage(worker).Written?)
      modifies this
      ensures Valid()
      ensures var stage := old(state).Stage(worker);
              && committed == (faults.commit == Landed && !(stage.Written? && stage.aborted))
              && state.Stage(worker) == (if !committed then Failed(stage.envelope, Failure.Handler)
                                         else Succeeded(stage.envelope, if stage.Written? then stage.held else []))
      ensures var stage := old(state).Stage(worker);
              stage.Written? ==>
                if stage.aborted || faults.commit == Lost
                then forall run <- state.runs ::
                       run in old(state).runs || run.Key() != KeyOf(config.endpoint(worker), stage.envelope)
                else HandlerRun(config.endpoint(worker), stage.envelope, stage.publishes) in state.runs
    {
      hide Reachable, Follows;
      Others(worker);
      var outcome := if state.Stage(worker).Written? && state.Stage(worker).aborted then Lost else faults.commit;
      RunsStep(config, state, Commit(worker, outcome));
      ghost var run := HandlerRun(config.endpoint(worker), state.Stage(worker).envelope,
                                  if state.Stage(worker).Written? then state.Stage(worker).publishes else []);
      ghost var before := state.runs;
      Do(Commit(worker, outcome));
      assert (before + [run])[|before|] == run;
      return outcome == Landed;
    }

    // Handles a delivery: the handler's database work, its receipt and its publishes commit together,
    // or, for a message that has a receipt, nothing does. `ran` are the publishes of this handling's
    // own committed run.
    method Run(worker: nat, envelope: Envelope, work: Work, faults: Faults)
      returns (result: Result<seq<Envelope>, Failure>, ran: Option<seq<Envelope>>)
      requires Valid() && state.Stage(worker).Idle?
      modifies this
      ensures Valid()
      ensures match result
              case Err(failure) =>
                state.Stage(worker) == Failed(envelope, failure)
                && MayFail(config, state, worker, envelope, work, faults, failure)
              case Ok(held) =>
                && state.Stage(worker) == Succeeded(envelope, held)
                && Recognised(config, state, worker, envelope)
                && held == (if ran.None? || config.outbox then [] else ran.value)
                && (ran.Some? ==> ran.value == HeldBy(envelope, work.messages)
                                  && Carries(envelope, work.messages, ran.value)
                                  && HandlerRun(config.endpoint(worker), envelope, ran.value) in state.runs)
      ensures !config.handles(config.endpoint(worker), envelope.messageType) ==> result == Err(Undecodable)
    {
      hide Reachable, Follows, Recognised, HeldBy, HeldElsewhere, Carries;
      HeldIsCarried(envelope, work.messages);
      ran := None;
      var started := Start(worker, envelope, faults);
      if started.Err? {
        return Err(started.error), None;
      }
      var recorded := RecordReceipt(worker, faults);
      if recorded.Err? {
        return Err(recorded.error), None;
      }
      if recorded.Ok? && recorded.value {
        var handled := Handle(worker, work);
        if handled.Err? {
          return Err(handled.error), None;
        }
        var written := WriteHeld(worker, handled.value, faults);
        if written.Err? {
          return Err(written.error), None;
        }
        result, ran := Ok(written.value), Some(handled.value);
      } else {
        result := Ok([]);
      }
      var committed := CommitAll(worker, faults);
      if !committed {
        return Err(Failure.Handler), None;
      }
      SuccessHasRun(config, state, worker);
    }
  }

  // Abandoning a transaction changes nothing about the others'.
  lemma StillHeld(config: Config, state: State, worker: nat)
    requires state.Stage(worker).Began?
    ensures Enabled(config, state, Abandon(worker))
    ensures !Enabled(config, state, Record(worker)) ==>
              HeldElsewhere(config, Apply(config, state, Abandon(worker)), worker, state.Stage(worker).envelope)
  {
    var next := Apply(config, state, Abandon(worker));
    var key := KeyOf(config.endpoint(worker), state.Stage(worker).envelope);
    if !Enabled(config, state, Record(worker)) {
      var other :| other in state.stages && other != worker && Holds(config, state, other) == Some(key);
      assert other in next.stages && Holds(config, next, other) == Some(key);
    }
  }

  lemma SuccessHasRun(config: Config, state: State, worker: nat)
    requires Reachable(config, state) && state.Stage(worker).Succeeded?
    ensures Recognised(config, state, worker, state.Stage(worker).envelope)
  {
    SuccessIsCommitted(config, state, worker);
  }
}
