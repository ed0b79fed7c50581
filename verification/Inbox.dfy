/** Endpoints with an inbox: each delivery is handled in a transaction, and a receipt in it lets a later
delivery of the message do nothing.

Any number of workers share the receipts table. A transaction that records a key another open
transaction recorded waits for it. Every step may fail, and a failed commit may have landed. */
module Inbox {
  import opened Envelopes
  import opened Handlers
  import opened Options
  import opened Rfc3339

  // What identifies a receipt.
  datatype ReceiptKey = ReceiptKey(endpoint: string, messageId: MessageId, messageTime: Timestamp)

  // A handler run: the delivered envelope and what the handler published.
  datatype HandlerRun = HandlerRun(endpoint: string, envelope: Envelope, publishes: seq<Envelope>) {
    function Key(): ReceiptKey {
      KeyOf(endpoint, envelope)
    }
  }

  function KeyOf(endpoint: string, envelope: Envelope): ReceiptKey {
    ReceiptKey(endpoint, envelope.id, envelope.time)
  }

  // `endpoint` is each worker's endpoint, `handles` says which message types it has handlers for,
  // and `outbox` whether the bus has an outbox.
  datatype Config = Config(endpoint: nat -> string, handles: (string, string) -> bool, outbox: bool)

  // Where a delivery stands. A transaction is open from `Began` to `Written`; one that a failed
  // statement left aborted can't commit. `held` are the publishes still to be sent.
  datatype Stage =
    | Idle
    | Began(envelope: Envelope)
    | Duplicate(envelope: Envelope)
    | Recorded(envelope: Envelope)
    | Handled(envelope: Envelope, publishes: seq<Envelope>, aborted: bool)
    | Written(envelope: Envelope, publishes: seq<Envelope>, rows: seq<Envelope>, held: seq<Envelope>, aborted: bool)
    | Succeeded(envelope: Envelope, held: seq<Envelope>)
    | Failed(envelope: Envelope, failure: Failure)

  // `receipts` gives for each receipt the handler run that committed with it, `rows` are the outbox
  // rows that handler runs committed, and `expired` the keys whose receipt was removed.
  datatype State = State(
    stages: map<nat, Stage>,
    receipts: map<ReceiptKey, nat>,
    runs: seq<HandlerRun>,
    rows: seq<Envelope>,
    expired: set<ReceiptKey>)
  {
    function Stage(worker: nat): Stage {
      if worker in stages then stages[worker] else Idle
    }

    function With(worker: nat, stage: Stage): State {
      this.(stages := stages[worker := stage])
    }
  }

  // The receipt a worker's open transaction holds.
  function Holds(config: Config, state: State, worker: nat): Option<ReceiptKey> {
    var stage := state.Stage(worker);
    if stage.Recorded? || stage.Handled? || stage.Written? then Some(KeyOf(config.endpoint(worker), stage.envelope))
    else None
  }

  // How a commit goes: it lands and says so, lands although it reports an error, or doesn't land.
  datatype Outcome = Landed | LandedUnknown | Lost

  datatype Handling = Returned(publishes: seq<Envelope>, aborted: bool) | Refused(failure: Failure)

  datatype Step =
    | Begin(worker: nat, envelope: Envelope)
    | NoTransaction(worker: nat, envelope: Envelope)
    | Record(worker: nat)
    | Handle(worker: nat, handling: Handling)
    | Write(worker: nat)
    | Abandon(worker: nat)
    | Commit(worker: nat, outcome: Outcome)
    | Settle(worker: nat)
    | Crash(worker: nat)
    | ExpireReceipts(keys: set<ReceiptKey>)

  predicate Enabled(config: Config, state: State, step: Step) {
    match step
    case Begin(worker, envelope) =>
      state.Stage(worker).Idle? && config.handles(config.endpoint(worker), envelope.messageType)
    // No handler for the type, or no transaction from the database.
    case NoTransaction(worker, _) => state.Stage(worker).Idle?
    case Record(worker) =>
      && state.Stage(worker).Began?
      && forall other <- state.stages ::
           other != worker ==>
             Holds(config, state, other) != Some(KeyOf(config.endpoint(worker), state.Stage(worker).envelope))
    case Handle(worker, handling) =>
      && state.Stage(worker).Recorded?
      && (handling.Returned? ==> Follows(state.Stage(worker).envelope, handling.publishes))
    case Write(worker) =>
      var stage := state.Stage(worker);
      stage.Handled? && !(config.outbox && stage.publishes != [] && stage.aborted)
    // A statement failed, which rolls everything back.
    case Abandon(worker) =>
      state.Stage(worker).Began? || state.Stage(worker).Handled?
    case Commit(worker, outcome) =>
      var stage := state.Stage(worker);
      stage.Duplicate? || (stage.Written? && (stage.aborted ==> outcome == Lost))
    case Settle(worker) => state.Stage(worker).Succeeded? || state.Stage(worker).Failed?
    case Crash(worker) => true
    case ExpireReceipts(_) => true
  }

  function Apply(config: Config, state: State, step: Step): State
    requires Enabled(config, state, step)
  {
    match step
    case Begin(worker, envelope) => state.With(worker, Began(envelope))
    case NoTransaction(worker, envelope) =>
      state.With(
        worker,
        Failed(envelope,
               if config.handles(config.endpoint(worker), envelope.messageType) then Handler else Undecodable))
    case Record(worker) =>
      var envelope := state.Stage(worker).envelope;
      state.With(worker, if KeyOf(config.endpoint(worker), envelope) in state.receipts then Duplicate(envelope)
                         else Recorded(envelope))
    case Handle(worker, Returned(publishes, aborted)) =>
      state.With(worker, Handled(state.Stage(worker).envelope, publishes, aborted))
    case Handle(worker, Refused(failure)) =>
      state.With(worker, Failed(state.Stage(worker).envelope, failure))
    // With an outbox the publishes become rows of the transaction; without one they stay held.
    case Write(worker) =>
      var stage := state.Stage(worker);
      state.With(
        worker,
        if config.outbox then Written(stage.envelope, stage.publishes, stage.publishes, [], stage.aborted)
        else Written(stage.envelope, stage.publishes, [], stage.publishes, stage.aborted))
    case Abandon(worker) => state.With(worker, Failed(state.Stage(worker).envelope, Handler))
    case Commit(worker, outcome) =>
      var stage := state.Stage(worker);
      var next := if stage.Written? && outcome != Lost then Committed(config, state, worker) else state;
      next.With(
        worker,
        if outcome != Landed then Failed(stage.envelope, Handler)
        else Succeeded(stage.envelope, if stage.Written? then stage.held else []))
    case Settle(worker) => state.With(worker, Idle)
    case Crash(worker) => state.With(worker, Idle)
    case ExpireReceipts(keys) => state.(receipts := state.receipts - keys, expired := state.expired + keys)
  }

  // The receipt, the handler's work and its outbox rows, in one.
  function Committed(config: Config, state: State, worker: nat): State
    requires state.Stage(worker).Written?
  {
    var stage := state.Stage(worker);
    var run := HandlerRun(config.endpoint(worker), stage.envelope, stage.publishes);
    state.(receipts := state.receipts[run.Key() := |state.runs|],
           runs := state.runs + [run],
           rows := state.rows + stage.rows)
  }

  ghost predicate Initial(state: State) {
    state == State(map[], map[], [], [], {})
  }

  ghost predicate Steps(config: Config, first: State, steps: seq<Step>, last: State)
    decreases |steps|
  {
    if steps == [] then first == last
    else Enabled(config, first, steps[0]) && Steps(config, Apply(config, first, steps[0]), steps[1..], last)
  }

  ghost predicate Reachable(config: Config, state: State) {
    exists first: State, steps: seq<Step> :: Initial(first) && Steps(config, first, steps, state)
  }

  // The publishes of all committed handler runs, in commit order.
  function Publishes(runs: seq<HandlerRun>): seq<Envelope> {
    if runs == [] then [] else Publishes(runs[..|runs| - 1]) + runs[|runs| - 1].publishes
  }

  // How many committed handler runs there were for a key.
  function RunsOf(runs: seq<HandlerRun>, key: ReceiptKey): nat {
    if runs == [] then 0
    else RunsOf(runs[..|runs| - 1], key) + (if runs[|runs| - 1].Key() == key then 1 else 0)
  }

  // Its receipt names the one committed handler run of a key, unless the receipt expired.
  ghost predicate ReceiptsRight(state: State) {
    && (forall key <- state.receipts ::
          state.receipts[key] < |state.runs| && state.runs[state.receipts[key]].Key() == key)
    && (forall i | 0 <= i < |state.runs| ::
          var key := state.runs[i].Key();
          key in state.expired || (key in state.receipts && state.receipts[key] == i))
  }

  // No two open transactions hold one receipt, and none holds a committed one.
  ghost predicate HoldsApart(config: Config, state: State) {
    && (forall v: nat, w: nat | v != w && Holds(config, state, v).Some? ::
          Holds(config, state, v) != Holds(config, state, w))
    && (forall w: nat | Holds(config, state, w).Some? :: Holds(config, state, w).value !in state.receipts)
  }

  // What a worker's stage promises: the publishes follow the message and are rows or held, and
  // success means that a receipt was committed.
  ghost predicate StageRight(config: Config, state: State, worker: nat) {
    var stage := state.Stage(worker);
    match stage
    case Handled(envelope, publishes, _) => Follows(envelope, publishes)
    case Written(envelope, publishes, rows, held, _) =>
      && Follows(envelope, publishes)
      && (if config.outbox then rows == publishes && held == [] else rows == [] && held == publishes)
    case Duplicate(envelope) => Recognised(config, state, worker, envelope)
    case Succeeded(envelope, held) => Recognised(config, state, worker, envelope) && (config.outbox ==> held == [])
    case _ => true
  }

  // A handler run for the message committed on the worker's endpoint.
  ghost predicate Recognised(config: Config, state: State, worker: nat, envelope: Envelope) {
    exists run <- state.runs :: run.Key() == KeyOf(config.endpoint(worker), envelope)
  }

  ghost predicate Atomic(config: Config, state: State) {
    && ReceiptsRight(state)
    && HoldsApart(config, state)
    && (forall worker: nat :: StageRight(config, state, worker))
    && (forall run <- state.runs :: Follows(run.envelope, run.publishes))
    && state.rows == (if config.outbox then Publishes(state.runs) else [])
  }

  // A worker newly holds a receipt only by recording it, when nobody has it.
  lemma HoldStep(config: Config, state: State, step: Step, worker: nat)
    requires Enabled(config, state, step) && Holds(config, Apply(config, state, step), worker).Some?
    ensures var held := Holds(config, Apply(config, state, step), worker);
            if step.Record? && step.worker == worker then
              && held.value !in state.receipts
              && forall other: nat | other != worker :: Holds(config, state, other) != held
            else held == Holds(config, state, worker) && !(step.Commit? && step.worker == worker)
  {
    hide Follows;
  }

  // A receipt appears only for the key its worker held.
  lemma ReceiptStep(config: Config, state: State, step: Step, key: ReceiptKey)
    requires Enabled(config, state, step) && key in Apply(config, state, step).receipts
    ensures key in state.receipts || (step.Commit? && Holds(config, state, step.worker) == Some(key))
  {
    hide Follows;
  }

  lemma HoldsStep(config: Config, state: State, step: Step)
    requires HoldsApart(config, state) && Enabled(config, state, step)
    ensures HoldsApart(config, Apply(config, state, step))
  {
    hide Apply, Enabled, Holds;
    var next := Apply(config, state, step);
    forall v: nat, w: nat | v != w && Holds(config, next, v).Some?
      ensures Holds(config, next, v) != Holds(config, next, w)
    {
      HoldStep(config, state, step, v);
      if Holds(config, next, w).Some? {
        HoldStep(config, state, step, w);
      }
    }
    forall w: nat | Holds(config, next, w).Some?
      ensures Holds(config, next, w).value !in next.receipts
    {
      HoldStep(config, state, step, w);
      if Holds(config, next, w).value in next.receipts {
        ReceiptStep(config, state, step, Holds(config, next, w).value);
      }
    }
  }

  lemma ReceiptsStep(config: Config, state: State, step: Step)
    requires Atomic(config, state) && Enabled(config, state, step)
    ensures ReceiptsRight(Apply(config, state, step))
  {
    if step.Commit? && state.Stage(step.worker).Written? && step.outcome != Lost {
      assert Holds(config, state, step.worker).Some?;
      hide ReceiptsRight, StageRight, Follows, Enabled, Apply;
      CommitReceipts(config, state, step);
    } else {
      hide ReceiptsRight, HoldsApart, StageRight, Follows, Enabled, Apply;
      OtherReceipts(config, state, step);
    }
  }

  // A commit adds the first run of its key.
  lemma CommitReceipts(config: Config, state: State, step: Step)
    requires ReceiptsRight(state) && Enabled(config, state, step)
    requires step.Commit? && state.Stage(step.worker).Written? && step.outcome != Lost
    requires KeyOf(config.endpoint(step.worker), state.Stage(step.worker).envelope) !in state.receipts
    ensures ReceiptsRight(Apply(config, state, step))
  {
    hide Follows;
  }

  // No other step adds a run, or takes a receipt away that doesn't expire.
  lemma OtherReceipts(config: Config, state: State, step: Step)
    requires ReceiptsRight(state) && Enabled(config, state, step)
    requires !(step.Commit? && state.Stage(step.worker).Written? && step.outcome != Lost)
    ensures ReceiptsRight(Apply(config, state, step))
  {
    hide Follows;
  }

  lemma StageStep(config: Config, state: State, step: Step, worker: nat)
    requires Atomic(config, state) && Enabled(config, state, step)
    ensures StageRight(config, Apply(config, state, step), worker)
  {
    assert StageRight(config, state, worker);
    RunsStep(config, state, step);
    if Apply(config, state, step).Stage(worker) == state.Stage(worker) {
      SameStage(config, state, Apply(config, state, step), worker);
    } else if step.Commit? {
      CommitStage(config, state, step);
    } else {
      OwnStage(config, state, step, worker);
    }
  }

  // What a stage promises stays true as runs are added.
  lemma SameStage(config: Config, state: State, next: State, worker: nat)
    requires StageRight(config, state, worker) && next.Stage(worker) == state.Stage(worker)
    requires forall run <- state.runs :: run in next.runs
    ensures StageRight(config, next, worker)
  {
    hide Follows;
  }

  lemma CommitStage(config: Config, state: State, step: Step)
    requires Enabled(config, state, step) && step.Commit? && StageRight(config, state, step.worker)
    requires forall run <- state.runs :: run in Apply(config, state, step).runs
    ensures StageRight(config, Apply(config, state, step), step.worker)
  {
    hide Follows;
    var next := Apply(config, state, step);
    if state.Stage(step.worker).Written? && step.outcome == Landed {
      assert next.runs[|state.runs|] in next.runs;
    }
  }

  lemma OwnStage(config: Config, state: State, step: Step, worker: nat)
    requires ReceiptsRight(state) && StageRight(config, state, worker) && Enabled(config, state, step) && !step.Commit?
    requires Apply(config, state, step).Stage(worker) != state.Stage(worker)
    ensures StageRight(config, Apply(config, state, step), worker)
  {
    hide Follows;
    if step.Record? {
      var key := KeyOf(config.endpoint(worker), state.Stage(worker).envelope);
      if key in state.receipts {
        assert state.runs[state.receipts[key]] in state.runs;
      }
    }
  }

  // Committed runs stay, and a step adds at most the run of its own worker.
  lemma RunsStep(config: Config, state: State, step: Step)
    requires Enabled(config, state, step)
    ensures var next := Apply(config, state, step);
            && state.runs <= next.runs
            && (forall run <- state.runs :: run in next.runs)
            && ((next.runs == state.runs && next.rows == state.rows)
                || (step.Commit? && step.outcome != Lost && state.Stage(step.worker).Written?
                    && next.runs
                       == state.runs
                          + [HandlerRun(config.endpoint(step.worker), state.Stage(step.worker).envelope,
                                        state.Stage(step.worker).publishes)]
                    && next.rows == state.rows + state.Stage(step.worker).rows))
  {
  }

  lemma AtomicStep(config: Config, state: State, step: Step)
    requires Atomic(config, state) && Enabled(config, state, step)
    ensures Atomic(config, Apply(config, state, step))
  {
    HoldsStep(config, state, step);
    ReceiptsStep(config, state, step);
    RunsStep(config, state, step);
    var next := Apply(config, state, step);
    forall worker: nat
      ensures StageRight(config, next, worker)
    {
      StageStep(config, state, step, worker);
    }
    if next.runs != state.runs {
      assert StageRight(config, state, step.worker);
      assert next.runs[..|next.runs| - 1] == state.runs;
    }
    hide Apply, Enabled, HoldsApart, ReceiptsRight, Follows;
  }

  lemma {:induction false} AtomicSteps(config: Config, first: State, steps: seq<Step>, last: State)
    requires Atomic(config, first) && Steps(config, first, steps, last)
    ensures Atomic(config, last)
    decreases |steps|
  {
    if steps != [] {
      hide Atomic, Enabled, Apply;
      AtomicStep(config, first, steps[0]);
      AtomicSteps(config, Apply(config, first, steps[0]), steps[1..], last);
    }
  }

  lemma InboxIsAtomic(config: Config, state: State)
    requires Reachable(config, state)
    ensures Atomic(config, state)
  {
    var first: State, steps: seq<Step> :| Initial(first) && Steps(config, first, steps, state);
    AtomicSteps(config, first, steps, state);
  }

  lemma {:induction false} OneRun(runs: seq<HandlerRun>, key: ReceiptKey, only: nat)
    requires only < |runs| && runs[only].Key() == key
    requires forall i | 0 <= i < |runs| && i != only :: runs[i].Key() != key
    ensures RunsOf(runs, key) == 1
  {
    var before := runs[..|runs| - 1];
    if only < |before| {
      OneRun(before, key, only);
    } else {
      NoRun(before, key);
    }
  }

  lemma {:induction false} NoRun(runs: seq<HandlerRun>, key: ReceiptKey)
    requires forall run <- runs :: run.Key() != key
    ensures RunsOf(runs, key) == 0
  {
    if runs != [] {
      NoRun(runs[..|runs| - 1], key);
    }
  }

  lemma RunsByKey(config: Config, state: State, key: ReceiptKey)
    requires Reachable(config, state) && key !in state.expired
    ensures RunsOf(state.runs, key) == (if key in state.receipts then 1 else 0)
  {
    InboxIsAtomic(config, state);
    hide Reachable, Publishes;
    if key in state.receipts {
      OneRun(state.runs, key, state.receipts[key]);
    } else {
      NoRun(state.runs, key);
    }
  }

  // While it is kept, a receipt exists if and only if exactly one handler run committed for its
  // endpoint, message id and time; otherwise none did.
  lemma ReceiptIffOneRun(config: Config, state: State, endpoint: string, id: MessageId, time: Timestamp)
    requires Reachable(config, state) && ReceiptKey(endpoint, id, time) !in state.expired
    ensures ReceiptKey(endpoint, id, time) in state.receipts
            <==> exists run <- state.runs ::
                   run.endpoint == endpoint && run.envelope.id == id && run.envelope.time == time
    ensures forall i, j | 0 <= i < j < |state.runs| ::
              var (first, second) := (state.runs[i], state.runs[j]);
              !(&& first.endpoint == second.endpoint == endpoint && first.envelope.id == second.envelope.id == id
                && first.envelope.time == second.envelope.time == time)
    // With an outbox, its rows are the publishes of exactly the committed runs, each run's as one block.
    ensures exists ends: seq<nat> :: RowsEnd(state, config.outbox, ends)
  {
    InboxIsAtomic(config, state);
    hide Reachable, Publishes, HoldsApart, StageRight, Follows, BlocksEnd, ReceiptsRight;
    OneReceipt(state, endpoint, id, time);
    var ends := BlockEnds(state.runs);
    assert RowsEnd(state, config.outbox, ends);
  }

  lemma OneReceipt(state: State, endpoint: string, id: MessageId, time: Timestamp)
    requires ReceiptsRight(state) && ReceiptKey(endpoint, id, time) !in state.expired
    ensures ReceiptKey(endpoint, id, time) in state.receipts
            <==> exists run <- state.runs ::
                   run.endpoint == endpoint && run.envelope.id == id && run.envelope.time == time
    ensures forall i, j | 0 <= i < j < |state.runs| ::
              var (first, second) := (state.runs[i], state.runs[j]);
              !(&& first.endpoint == second.endpoint == endpoint && first.envelope.id == second.envelope.id == id
                && first.envelope.time == second.envelope.time == time)
  {
    var key := ReceiptKey(endpoint, id, time);
    if key in state.receipts {
      assert state.runs[state.receipts[key]] in state.runs;
    }
  }

  // Where the rows of each run end: they begin where those of the run before it do.
  ghost predicate RowsEnd(state: State, outbox: bool, ends: seq<nat>) {
    if outbox then BlocksEnd(state.runs, state.rows, ends) else state.rows == []
  }

  ghost predicate BlocksEnd(runs: seq<HandlerRun>, rows: seq<Envelope>, ends: seq<nat>) {
    && |ends| == |runs|
    && |rows| == (if runs == [] then 0 else ends[|runs| - 1])
    && forall i | 0 <= i < |runs| :: IsBlock(rows, ends, i, runs[i])
  }

  ghost predicate IsBlock(rows: seq<Envelope>, ends: seq<nat>, i: nat, run: HandlerRun)
    requires i < |ends|
  {
    var start := if i == 0 then 0 else ends[i - 1];
    start <= ends[i] <= |rows| && rows[start..ends[i]] == run.publishes
  }

  lemma OneMoreBlock(runs: seq<HandlerRun>, rows: seq<Envelope>, ends: seq<nat>, run: HandlerRun)
    requires BlocksEnd(runs, rows, ends)
    ensures BlocksEnd(runs + [run], rows + run.publishes, ends + [|rows| + |run.publishes|])
  {
    var more, all := ends + [|rows| + |run.publishes|], rows + run.publishes;
    forall i | 0 <= i < |runs + [run]|
      ensures IsBlock(all, more, i, (runs + [run])[i])
    {
      if i < |runs| {
        assert IsBlock(rows, ends, i, runs[i]);
        assert all[if i == 0 then 0 else ends[i - 1]..ends[i]] == rows[if i == 0 then 0 else ends[i - 1]..ends[i]];
      }
    }
  }

  lemma {:induction false} BlockEnds(runs: seq<HandlerRun>) returns (ends: seq<nat>)
    ensures BlocksEnd(runs, Publishes(runs), ends)
  {
    if runs == [] {
      ends := [];
    } else {
      hide BlocksEnd;
      var before, run := runs[..|runs| - 1], runs[|runs| - 1];
      ends := BlockEnds(before);
      OneMoreBlock(before, Publishes(before), ends, run);
      ends := ends + [|Publishes(before)| + |run.publishes|];
      assert runs == before + [run];
    }
  }

  // A delivery succeeds only once a handler run for its message committed.
  lemma SuccessIsCommitted(config: Config, state: State, worker: nat)
    requires Reachable(config, state) && state.Stage(worker).Succeeded?
    ensures Recognised(config, state, worker, state.Stage(worker).envelope)
    ensures config.outbox ==> state.Stage(worker).held == []
  {
    InboxIsAtomic(config, state);
    assert StageRight(config, state, worker);
  }

  lemma {:induction false} StepsOn(config: Config, first: State, steps: seq<Step>, middle: State, step: Step)
    requires Steps(config, first, steps, middle) && Enabled(config, middle, step)
    ensures Steps(config, first, steps + [step], Apply(config, middle, step))
    decreases |steps|
  {
    hide Enabled, Apply;
    if steps == [] {
      assert ([] + [step])[1..] == [];
    } else {
      StepsOn(config, Apply(config, first, steps[0]), steps[1..], middle, step);
      assert (steps + [step])[1..] == steps[1..] + [step];
    }
  }

  lemma Reach(config: Config, state: State, step: Step)
    requires Reachable(config, state) && Enabled(config, state, step)
    ensures Reachable(config, Apply(config, state, step))
  {
    var first: State, steps: seq<Step> :| Initial(first) && Steps(config, first, steps, state);
    StepsOn(config, first, steps, state, step);
    hide Enabled, Apply;
  }

  // A first delivery, up to the end of its commit.
  lemma FirstDelivery(config: Config, envelope: Envelope, publishes: seq<Envelope>, outcome: Outcome)
    returns (state: State)
    requires config.handles(config.endpoint(0), envelope.messageType) && Follows(envelope, publishes)
    requires outcome != Lost
    ensures Reachable(config, state)
    ensures var run := HandlerRun(config.endpoint(0), envelope, publishes);
            && state.receipts == map[run.Key() := 0] && state.runs == [run] && state.expired == {}
            && state.stages == map[0 := if outcome == Landed
                                        then Succeeded(envelope, if config.outbox then [] else publishes)
                                        else Failed(envelope, Handler)]
  {
    hide Follows, Reachable;
    var start := State(map[], map[], [], [], {});
    assert Reachable(config, start) by {
      StartIsReachable(config, start);
    }
    Reach(config, start, Begin(0, envelope));
    var began := start.With(0, Began(envelope));
    Reach(config, began, Record(0));
    var recorded := began.With(0, Recorded(envelope));
    Reach(config, recorded, Handle(0, Returned(publishes, false)));
    var handled := recorded.With(0, Handled(envelope, publishes, false));
    Reach(config, handled, Write(0));
    var written := Apply(config, handled, Write(0));
    Reach(config, written, Commit(0, outcome));
    state := Apply(config, written, Commit(0, outcome));
  }

  lemma StartIsReachable(config: Config, start: State)
    requires Initial(start)
    ensures Reachable(config, start)
  {
    assert Steps(config, start, [], start);
  }

  // A failed commit may have landed: this delivery failed although its effect committed. `Rejections`
  // follows such a message to the error destination.
  lemma FailedYetCommitted(config: Config, envelope: Envelope) returns (state: State)
    requires config.handles(config.endpoint(0), envelope.messageType)
    ensures Reachable(config, state) && state.Stage(0).Failed?
    ensures var key := KeyOf(config.endpoint(0), envelope); key in state.receipts && RunsOf(state.runs, key) == 1
  {
    state := FirstDelivery(config, envelope, [], LandedUnknown);
    RunsByKey(config, state, KeyOf(config.endpoint(0), envelope));
  }

  // Two runs of one endpoint for one message id happen only for two message times.
  lemma RunsOfOneIdDifferInTime(config: Config, state: State, i: nat, j: nat)
    requires Reachable(config, state) && i < j < |state.runs|
    requires state.runs[i].endpoint == state.runs[j].endpoint && state.runs[i].envelope.id == state.runs[j].envelope.id
    requires state.runs[i].Key() !in state.expired
    ensures state.runs[i].envelope.time != state.runs[j].envelope.time
  {
    InboxIsAtomic(config, state);
    hide Reachable, HoldsApart, StageRight, Follows, Publishes;
  }

  // And for two times they do happen: the receipt's key has the time beside the id.
  lemma OneIdOfTwoTimesRunsTwice(config: Config, envelope: Envelope, other: Envelope) returns (state: State)
    requires config.handles(config.endpoint(0), envelope.messageType)
    requires config.handles(config.endpoint(0), other.messageType)
    requires other.id == envelope.id && other.time != envelope.time
    ensures Reachable(config, state) && state.expired == {}
    ensures state.runs == [HandlerRun(config.endpoint(0), envelope, []), HandlerRun(config.endpoint(0), other, [])]
  {
    hide Reachable;
    var first := FirstDelivery(config, envelope, [], Landed);
    Reach(config, first, Settle(0));
    var settled := first.With(0, Idle);
    Reach(config, settled, Begin(0, other));
    var began := settled.With(0, Began(other));
    Reach(config, began, Record(0));
    var recorded := began.With(0, Recorded(other));
    Reach(config, recorded, Handle(0, Returned([], false)));
    var handled := recorded.With(0, Handled(other, [], false));
    Reach(config, handled, Write(0));
    var written := handled.With(0, Written(other, [], [], [], false));
    Reach(config, written, Commit(0, Landed));
    state := Apply(config, written, Commit(0, Landed));
  }

  // Without an outbox, a worker that stops after its commit loses its publishes: the redelivery
  // succeeds with nothing left to send.
  lemma HeldPublishesCanBeLost(config: Config, envelope: Envelope, publishes: seq<Envelope>) returns (state: State)
    requires config.handles(config.endpoint(0), envelope.messageType) && Follows(envelope, publishes)
    requires !config.outbox
    ensures Reachable(config, state)
    ensures state.Stage(0) == Succeeded(envelope, []) && state.rows == []
    ensures state.runs == [HandlerRun(config.endpoint(0), envelope, publishes)]
  {
    hide Follows, Reachable;
    var committed := FirstDelivery(config, envelope, publishes, Landed);
    InboxRows(config, committed);
    Reach(config, committed, Crash(0));
    var stopped := committed.With(0, Idle);
    Reach(config, stopped, Begin(0, envelope));
    var began := stopped.With(0, Began(envelope));
    Reach(config, began, Record(0));
    var recorded := began.With(0, Duplicate(envelope));
    Reach(config, recorded, Commit(0, Landed));
    state := recorded.With(0, Succeeded(envelope, []));
  }

  // The rows from a place on start with a run's publishes.
  ghost predicate At(rows: seq<Envelope>, publishes: seq<Envelope>, place: nat) {
    place + |publishes| <= |rows| && rows[place..place + |publishes|] == publishes
  }

  // The publishes of a message that was handled are still to be sent, or are outbox rows in one piece.
  ghost predicate Accounted(config: Config, state: State, worker: nat)
    requires state.Stage(worker).Succeeded?
  {
    exists run <- state.runs ::
      && run.Key() == KeyOf(config.endpoint(worker), state.Stage(worker).envelope)
      && (run.publishes == state.Stage(worker).held || exists place: nat :: At(state.rows, run.publishes, place))
  }

  lemma {:induction false} RowsOfRun(runs: seq<HandlerRun>, run: HandlerRun) returns (place: nat)
    requires run in runs
    ensures At(Publishes(runs), run.publishes, place)
  {
    var before := runs[..|runs| - 1];
    if run in before {
      place := RowsOfRun(before, run);
      assert Publishes(runs)[..|Publishes(before)|] == Publishes(before);
    } else {
      place := |Publishes(before)|;
    }
  }

  // No success leaves publishes of its message behind if and only if the bus has an outbox.
  lemma NoneLostIffOutbox(config: Config, envelope: Envelope)
    requires config.handles(config.endpoint(0), envelope.messageType)
    ensures (forall state: State, worker: nat | Reachable(config, state) && state.Stage(worker).Succeeded? ::
               Accounted(config, state, worker))
            <==> config.outbox
  {
    hide Reachable;
    if config.outbox {
      forall state: State, worker: nat | Reachable(config, state) && state.Stage(worker).Succeeded?
        ensures Accounted(config, state, worker)
      {
        SuccessIsCommitted(config, state, worker);
        InboxRows(config, state);
        var run :| run in state.runs && run.Key() == KeyOf(config.endpoint(worker), state.Stage(worker).envelope);
        var place := RowsOfRun(state.runs, run);
      }
    } else {
      var lost := HeldPublishesCanBeLost(config, envelope, [Followed(envelope, envelope)]);
      assert lost.Stage(0).Succeeded?;
      assert !Accounted(config, lost, 0);
    }
  }

  lemma InboxRows(config: Config, state: State)
    requires Reachable(config, state)
    ensures state.rows == (if config.outbox then Publishes(state.runs) else [])
  {
    InboxIsAtomic(config, state);
  }
}
