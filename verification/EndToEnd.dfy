/** The outbox, the broker and the endpoints with an inbox, as one system.

Endpoints handle what the broker has, any number of times and in any order. When the bus has an outbox,
the commit of a handler run inserts its publishes as outbox rows in the same step. Message ids are
unique. */
module EndToEnd {
  import opened Envelopes
  import opened Handlers
  import opened Options
  import opened Outbox
  import opened OutboxRows
  import BrokerSafety
  import Dispatching
  import FenceLimits
  import Inbox

  datatype Config = Config(bus: Dispatching.Config, receivers: Inbox.Config)

  // `blocks` are the outbox rows that each handler run committed, and `outside` the rows that other
  // transactions inserted.
  datatype System = System(bus: Dispatching.State, receivers: Inbox.State, blocks: seq<seq<Key>>, outside: set<Key>)

  datatype Step =
    | OnBus(bus: Dispatching.Step)
    | OnReceivers(receivers: Inbox.Step)
    | CommitRun(worker: nat, outcome: Inbox.Outcome, keys: seq<Key>, inserted: Dispatching.State)

  // Whether a step commits a handler run.
  predicate Lands(state: Inbox.State, step: Inbox.Step) {
    step.Commit? && state.Stage(step.worker).Written? && step.outcome != Inbox.Lost
  }

  ghost predicate NewId(bus: Dispatching.State, id: MessageId) {
    forall key <- bus.history :: key.id != id
  }

  // The inserts of one transaction.
  function Inserts(formats: Formats, keys: seq<Key>, rows: seq<Envelope>): seq<Dispatching.Step>
    requires |keys| == |rows|
  {
    seq(|keys|, i requires 0 <= i < |keys| => Dispatching.Insert(keys[i], Split(formats, rows[i])))
  }

  // The rows of one transaction, with a new id each.
  ghost predicate NewRows(config: Config, bus: Dispatching.State, keys: seq<Key>, rows: seq<Envelope>) {
    && |keys| == |rows|
    && (forall i | 0 <= i < |keys| ::
          keys[i].id == rows[i].id && rows[i].Valid(config.bus.formats) && NewId(bus, keys[i].id))
    && (forall i, j | 0 <= i < j < |keys| :: keys[i].id != keys[j].id)
  }

  ghost predicate Enabled(config: Config, system: System, step: Step) {
    match step
    case OnBus(step) =>
      Dispatching.Enabled(config.bus, system.bus, step) && (step.Insert? ==> NewId(system.bus, step.key.id))
    case OnReceivers(step) =>
      && Inbox.Enabled(config.receivers, system.receivers, step) && !Lands(system.receivers, step)
      && (step.Begin? || step.NoTransaction? ==> step.envelope in system.bus.log)
    case CommitRun(worker, outcome, keys, inserted) =>
      && Inbox.Enabled(config.receivers, system.receivers, Inbox.Commit(worker, outcome))
      && Lands(system.receivers, Inbox.Commit(worker, outcome))
      && var rows := system.receivers.Stage(worker).rows;
         NewRows(config, system.bus, keys, rows)
         && Dispatching.Run(config.bus, system.bus, Inserts(config.bus.formats, keys, rows), inserted)
  }

  ghost function Apply(config: Config, system: System, step: Step): System
    requires Enabled(config, system, step)
  {
    match step
    case OnBus(step) =>
      system.(bus := Dispatching.Apply(config.bus, system.bus, step),
              outside := if step.Insert? then system.outside + {step.key} else system.outside)
    case OnReceivers(step) =>
      system.(receivers := Inbox.Apply(config.receivers, system.receivers, step))
    case CommitRun(worker, outcome, keys, inserted) =>
      system.(bus := inserted,
              receivers := Inbox.Apply(config.receivers, system.receivers, Inbox.Commit(worker, outcome)),
              blocks := system.blocks + [keys])
  }

  ghost predicate Initial(system: System) {
    Dispatching.Initial(system.bus) && Inbox.Initial(system.receivers) && system.blocks == [] && system.outside == {}
  }

  ghost predicate Run(config: Config, first: System, steps: seq<Step>, last: System)
    decreases |steps|
  {
    if steps == [] then first == last
    else Enabled(config, first, steps[0]) && Run(config, Apply(config, first, steps[0]), steps[1..], last)
  }

  ghost predicate Reachable(config: Config, system: System) {
    exists first: System, steps: seq<Step> :: Initial(first) && Run(config, first, steps, system)
  }

  // Endpoints handle only what the broker has.
  ghost predicate Delivered(system: System) {
    && (forall worker: nat ::
          var stage := system.receivers.Stage(worker); !stage.Idle? ==> stage.envelope in system.bus.log)
    && (forall run <- system.receivers.runs :: run.envelope in system.bus.log)
  }

  ghost predicate UniqueIds(history: map<Key, Columns>) {
    forall first <- history, second <- history :: first.id == second.id ==> first == second
  }

  // The rows of a block hold a run's publishes, in order.
  ghost predicate Holds(formats: Formats, history: map<Key, Columns>, block: seq<Key>, publishes: seq<Envelope>) {
    && |block| == |publishes|
    && forall i | 0 <= i < |block| ::
         && block[i] in history && block[i].id == publishes[i].id
         && publishes[i].Valid(formats) && history[block[i]] == Split(formats, publishes[i])
  }

  ghost predicate InBlock(blocks: seq<seq<Key>>, key: Key) {
    exists i, j :: 0 <= i < |blocks| && 0 <= j < |blocks[i]| && blocks[i][j] == key
  }

  // No row belongs to two runs, or twice to one.
  ghost predicate Apart(blocks: seq<seq<Key>>) {
    forall i, j, k, l | 0 <= i < |blocks| && 0 <= j < |blocks[i]| && 0 <= k < |blocks| && 0 <= l < |blocks[k]| ::
      blocks[i][j] == blocks[k][l] ==> i == k && j == l
  }

  // Every inserted row is from outside or in one run's block, and each run has its whole block.
  ghost predicate Blocked(config: Config, system: System) {
    var history, runs := system.bus.history, system.receivers.runs;
    && |system.blocks| == |runs|
    && (forall i | 0 <= i < |runs| ::
          Holds(config.bus.formats, history, system.blocks[i],
                if config.receivers.outbox then runs[i].publishes else []))
    && Apart(system.blocks)
    && (forall key :: key in history <==> key in system.outside || InBlock(system.blocks, key))
    && (forall key <- system.outside :: !InBlock(system.blocks, key))
  }

  ghost predicate Linked(config: Config, system: System) {
    && Dispatching.Reachable(config.bus, system.bus) && Inbox.Reachable(config.receivers, system.receivers)
    && Delivered(system) && UniqueIds(system.bus.history) && Blocked(config, system)
  }

  // What the rows of one transaction add.
  lemma {:induction false} InsertsAll(
    config: Config, bus: Dispatching.State, keys: seq<Key>, rows: seq<Envelope>, next: Dispatching.State)
    requires |keys| == |rows| && Dispatching.Reachable(config.bus, bus)
    requires Dispatching.Run(config.bus, bus, Inserts(config.bus.formats, keys, rows), next)
    ensures Dispatching.Reachable(config.bus, next) && next.log == bus.log
    ensures forall key :: key in next.history <==> key in bus.history || key in keys
    ensures forall key <- keys :: key !in bus.history
    ensures forall key <- bus.history :: next.history[key] == bus.history[key]
    ensures forall i | 0 <= i < |keys| :: next.history[keys[i]] == Split(config.bus.formats, rows[i])
    decreases |keys|
  {
    hide Split, Dispatching.Reachable, Dispatching.Enabled, Dispatching.Apply;
    if keys != [] {
      var steps := Inserts(config.bus.formats, keys, rows);
      InsertsOne(config, bus, steps[0]);
      assert steps[1..] == Inserts(config.bus.formats, keys[1..], rows[1..]);
      InsertsAll(config, Dispatching.Apply(config.bus, bus, steps[0]), keys[1..], rows[1..], next);
      assert keys == [keys[0]] + keys[1..];
    }
  }

  lemma InsertsOne(config: Config, bus: Dispatching.State, step: Dispatching.Step)
    requires step.Insert? && Dispatching.Reachable(config.bus, bus) && Dispatching.Enabled(config.bus, bus, step)
    ensures var next := Dispatching.Apply(config.bus, bus, step);
            && Dispatching.Reachable(config.bus, next) && next.log == bus.log
            && step.key !in bus.history && next.history == bus.history[step.key := step.content]
  {
    FenceLimits.Reach(config.bus, bus, step);
    hide Dispatching.Reachable;
  }

  // The bus only ever adds: to the broker's log, and rows by inserts.
  lemma BusStep(config: Config, bus: Dispatching.State, step: Dispatching.Step)
    requires Dispatching.Enabled(config.bus, bus, step)
    ensures var next := Dispatching.Apply(config.bus, bus, step);
            && (forall envelope <- bus.log :: envelope in next.log)
            && next.history == (if step.Insert? then bus.history[step.key := step.content] else bus.history)
            && (step.Insert? ==> step.key !in bus.history && step.content.id == step.key.id)
  {
    hide ReadRow, Readable, Unreadable, Selects, MarkDispatched, PutBack, MarkUnreadable, Leased;
  }

  // Where a worker's envelope comes from.
  lemma StageStep(config: Inbox.Config, state: Inbox.State, step: Inbox.Step, worker: nat)
    requires Inbox.Enabled(config, state, step) && !Inbox.Apply(config, state, step).Stage(worker).Idle?
    ensures var stage := Inbox.Apply(config, state, step).Stage(worker);
            || (!state.Stage(worker).Idle? && stage.envelope == state.Stage(worker).envelope)
            || ((step.Begin? || step.NoTransaction?) && stage.envelope == step.envelope)
  {
    hide Follows;
  }

  lemma DeliveredStep(config: Config, system: System, step: Step)
    requires Linked(config, system) && Enabled(config, system, step)
    ensures Delivered(Apply(config, system, step))
  {
    hide Dispatching.Reachable, Inbox.Reachable, Blocked, Inbox.Apply, Inbox.Enabled, Dispatching.Apply,
      Dispatching.Enabled;
    var next := Apply(config, system, step);
    match step
    case OnBus(step) => BusStep(config, system.bus, step);
    case OnReceivers(step) => ReceiversDelivered(config, system.receivers, step, system.bus.log);
    case CommitRun(worker, outcome, keys, inserted) =>
      InsertsAll(config, system.bus, keys, system.receivers.Stage(worker).rows, inserted);
      ReceiversDelivered(config, system.receivers, Inbox.Commit(worker, outcome), system.bus.log);
  }

  lemma ReceiversDelivered(config: Config, state: Inbox.State, step: Inbox.Step, log: seq<Envelope>)
    requires Inbox.Enabled(config.receivers, state, step)
    requires step.Begin? || step.NoTransaction? ==> step.envelope in log
    requires forall worker: nat :: !state.Stage(worker).Idle? ==> state.Stage(worker).envelope in log
    requires forall run <- state.runs :: run.envelope in log
    ensures var next := Inbox.Apply(config.receivers, state, step);
            && (forall worker: nat :: !next.Stage(worker).Idle? ==> next.Stage(worker).envelope in log)
            && (forall run <- next.runs :: run.envelope in log)
  {
    Inbox.RunsStep(config.receivers, state, step);
    hide Inbox.Apply, Inbox.Enabled;
    forall worker: nat | !Inbox.Apply(config.receivers, state, step).Stage(worker).Idle?
      ensures Inbox.Apply(config.receivers, state, step).Stage(worker).envelope in log
    {
      StageStep(config.receivers, state, step, worker);
    }
  }

  lemma HoldsStays(
    formats: Formats, history: map<Key, Columns>, more: map<Key, Columns>, block: seq<Key>, publishes: seq<Envelope>)
    requires Holds(formats, history, block, publishes)
    requires forall key <- history :: key in more && more[key] == history[key]
    ensures Holds(formats, more, block, publishes)
  {
    hide Split;
  }

  lemma MoreInBlock(blocks: seq<seq<Key>>, keys: seq<Key>, key: Key)
    ensures InBlock(blocks + [keys], key) <==> InBlock(blocks, key) || key in keys
  {
    var more := blocks + [keys];
    if InBlock(blocks, key) {
      var i, j :| 0 <= i < |blocks| && 0 <= j < |blocks[i]| && blocks[i][j] == key;
      assert more[i][j] == key;
    }
    if key in keys {
      var j :| 0 <= j < |keys| && keys[j] == key;
      assert more[|blocks|][j] == key;
    }
    if InBlock(more, key) {
      var i, j :| 0 <= i < |more| && 0 <= j < |more[i]| && more[i][j] == key;
      if i < |blocks| {
        assert blocks[i][j] == key;
      }
    }
  }

  lemma StillApart(blocks: seq<seq<Key>>, keys: seq<Key>)
    requires Apart(blocks) && forall key <- keys :: !InBlock(blocks, key)
    requires forall i, j | 0 <= i < j < |keys| :: keys[i] != keys[j]
    ensures Apart(blocks + [keys])
  {
    var more := blocks + [keys];
    forall i, j, k, l | 0 <= i < |more| && 0 <= j < |more[i]| && 0 <= k < |more| && 0 <= l < |more[k]|
      ensures more[i][j] == more[k][l] ==> i == k && j == l
    {
      if more[i][j] == more[k][l] {
        if i < |blocks| {
          assert InBlock(blocks, more[i][j]);
        }
        if k < |blocks| {
          assert InBlock(blocks, more[k][l]);
        }
      }
    }
  }

  lemma StillUnique(history: map<Key, Columns>, more: map<Key, Columns>, keys: seq<Key>)
    requires UniqueIds(history)
    requires forall key <- more :: key in history || key in keys
    requires forall key <- history, added <- keys :: key.id != added.id
    requires forall i, j | 0 <= i < j < |keys| :: keys[i].id != keys[j].id
    ensures UniqueIds(more)
  {
  }

  lemma UniqueStep(config: Config, system: System, step: Step)
    requires Linked(config, system) && Enabled(config, system, step)
    ensures UniqueIds(Apply(config, system, step).bus.history)
  {
    hide Dispatching.Reachable, Inbox.Reachable, Blocked, Delivered, UniqueIds, Inbox.Apply, Inbox.Enabled,
      Dispatching.Apply, Dispatching.Enabled;
    var next := Apply(config, system, step);
    match step
    case OnBus(step) =>
      BusStep(config, system.bus, step);
      StillUnique(system.bus.history, next.bus.history, if step.Insert? then [step.key] else []);
    case OnReceivers(step) =>
    case CommitRun(worker, outcome, keys, inserted) =>
      InsertsAll(config, system.bus, keys, system.receivers.Stage(worker).rows, inserted);
      StillUnique(system.bus.history, next.bus.history, keys);
  }

  lemma BusBlocked(config: Config, system: System, step: Dispatching.Step)
    requires Linked(config, system) && Enabled(config, system, OnBus(step))
    ensures Blocked(config, Apply(config, system, OnBus(step)))
  {
    BusStep(config, system.bus, step);
    hide Dispatching.Reachable, Inbox.Reachable, Delivered, Dispatching.Apply, Dispatching.Enabled, Holds, Apart;
    var next := Apply(config, system, OnBus(step));
    forall i | 0 <= i < |next.receivers.runs|
      ensures Holds(config.bus.formats, next.bus.history, next.blocks[i],
                    if config.receivers.outbox then next.receivers.runs[i].publishes else [])
    {
      HoldsStays(config.bus.formats, system.bus.history, next.bus.history, next.blocks[i],
                 if config.receivers.outbox then next.receivers.runs[i].publishes else []);
    }
  }

  lemma CommitBlocked(
    config: Config, system: System, worker: nat, outcome: Inbox.Outcome, keys: seq<Key>, inserted: Dispatching.State)
    requires Linked(config, system) && Enabled(config, system, CommitRun(worker, outcome, keys, inserted))
    ensures Blocked(config, Apply(config, system, CommitRun(worker, outcome, keys, inserted)))
  {
    CommitHolds(config, system, worker, outcome, keys, inserted);
    CommitInserts(config, system, worker, outcome, keys, inserted);
    LinkedBlocks(config, system);
    hide Linked, Enabled, Apply, Apart, InBlock, Holds;
    var next := Apply(config, system, CommitRun(worker, outcome, keys, inserted));
    RowsInBlocks(system.bus.history, next.bus.history, system.outside, system.blocks, keys);
  }

  lemma CommitInserts(
    config: Config, system: System, worker: nat, outcome: Inbox.Outcome, keys: seq<Key>, inserted: Dispatching.State)
    requires Linked(config, system) && Enabled(config, system, CommitRun(worker, outcome, keys, inserted))
    ensures var next := Apply(config, system, CommitRun(worker, outcome, keys, inserted));
            && next.blocks == system.blocks + [keys] && next.outside == system.outside
            && forall key :: key in next.bus.history <==> key in system.bus.history || key in keys
    ensures forall key <- keys :: key !in system.bus.history
    ensures forall i, j | 0 <= i < j < |keys| :: keys[i] != keys[j]
  {
    hide Dispatching.Reachable, Inbox.Reachable, Delivered, UniqueIds, Blocked, Inbox.Apply, Inbox.Enabled;
    InsertsAll(config, system.bus, keys, system.receivers.Stage(worker).rows, inserted);
  }

  lemma LinkedBlocks(config: Config, system: System)
    requires Linked(config, system)
    ensures Blocked(config, system)
  {
  }

  // The new rows are those of the new block.
  lemma RowsInBlocks(
    history: map<Key, Columns>, more: map<Key, Columns>, outside: set<Key>, blocks: seq<seq<Key>>, keys: seq<Key>)
    requires forall key :: key in history <==> key in outside || InBlock(blocks, key)
    requires forall key <- outside :: !InBlock(blocks, key)
    requires forall key :: key in more <==> key in history || key in keys
    requires forall key <- keys :: key !in history
    requires Apart(blocks) && forall i, j | 0 <= i < j < |keys| :: keys[i] != keys[j]
    ensures forall key :: key in more <==> key in outside || InBlock(blocks + [keys], key)
    ensures forall key <- outside :: !InBlock(blocks + [keys], key)
    ensures Apart(blocks + [keys])
  {
    StillApart(blocks, keys);
    hide Apart, InBlock;
    forall key: Key
      ensures InBlock(blocks + [keys], key) <==> InBlock(blocks, key) || key in keys
    {
      MoreInBlock(blocks, keys, key);
    }
  }

  // Each run, the new one too, has its block.
  lemma CommitHolds(
    config: Config, system: System, worker: nat, outcome: Inbox.Outcome, keys: seq<Key>, inserted: Dispatching.State)
    requires Linked(config, system) && Enabled(config, system, CommitRun(worker, outcome, keys, inserted))
    ensures var next := Apply(config, system, CommitRun(worker, outcome, keys, inserted));
            && |next.blocks| == |next.receivers.runs|
            && forall i | 0 <= i < |next.receivers.runs| ::
                 Holds(config.bus.formats, next.bus.history, next.blocks[i],
                       if config.receivers.outbox then next.receivers.runs[i].publishes else [])
  {
    var formats, outbox, rows := config.bus.formats, config.receivers.outbox, system.receivers.Stage(worker).rows;
    WrittenRows(config, system, worker);
    CommitAdds(config, system, worker, outcome);
    NewBlock(config, system, worker, outcome, keys, inserted);
    InsertsAll(config, system.bus, keys, rows, inserted);
    LinkedBlocks(config, system);
    hide Linked, Inbox.Apply, Inbox.Enabled, Dispatching.Run, Dispatching.Reachable, Apart, Split, InBlock, Holds,
      NewRows;
    var next := Apply(config, system, CommitRun(worker, outcome, keys, inserted));
    var runs := next.receivers.runs;
    forall i | 0 <= i < |system.receivers.runs|
      ensures Holds(formats, next.bus.history, next.blocks[i], if outbox then runs[i].publishes else [])
    {
      HoldsStays(formats, system.bus.history, next.bus.history, system.blocks[i],
                 if outbox then runs[i].publishes else []);
    }
  }

  lemma NewBlock(
    config: Config, system: System, worker: nat, outcome: Inbox.Outcome, keys: seq<Key>, inserted: Dispatching.State)
    requires Linked(config, system) && Enabled(config, system, CommitRun(worker, outcome, keys, inserted))
    ensures Holds(config.bus.formats, inserted.history, keys, system.receivers.Stage(worker).rows)
  {
    var rows := system.receivers.Stage(worker).rows;
    assert NewRows(config, system.bus, keys, rows);
    InsertsAll(config, system.bus, keys, rows, inserted);
    hide Linked, Enabled, Dispatching.Run, Dispatching.Reachable, Split;
  }

  // The rows of an open transaction are its handler's publishes.
  lemma WrittenRows(config: Config, system: System, worker: nat)
    requires Inbox.Reachable(config.receivers, system.receivers) && system.receivers.Stage(worker).Written?
    ensures system.receivers.Stage(worker).rows
            == if config.receivers.outbox then system.receivers.Stage(worker).publishes else []
  {
    Inbox.InboxIsAtomic(config.receivers, system.receivers);
    assert Inbox.StageRight(config.receivers, system.receivers, worker);
  }

  lemma CommitAdds(config: Config, system: System, worker: nat, outcome: Inbox.Outcome)
    requires Inbox.Enabled(config.receivers, system.receivers, Inbox.Commit(worker, outcome))
    requires Lands(system.receivers, Inbox.Commit(worker, outcome))
    ensures var stage := system.receivers.Stage(worker);
            Inbox.Apply(config.receivers, system.receivers, Inbox.Commit(worker, outcome)).runs
            == system.receivers.runs
               + [Inbox.HandlerRun(config.receivers.endpoint(worker), stage.envelope, stage.publishes)]
  {
  }

  lemma LinkedStep(config: Config, system: System, step: Step)
    requires Linked(config, system) && Enabled(config, system, step)
    ensures Linked(config, Apply(config, system, step))
  {
    DeliveredStep(config, system, step);
    UniqueStep(config, system, step);
    ReachableStep(config, system, step);
    hide Dispatching.Reachable, Inbox.Reachable, Delivered, UniqueIds, Inbox.Apply, Inbox.Enabled, Dispatching.Apply,
      Dispatching.Enabled;
    match step
    case OnBus(step) => BusBlocked(config, system, step);
    case OnReceivers(step) => Inbox.RunsStep(config.receivers, system.receivers, step);
    case CommitRun(worker, outcome, keys, inserted) => CommitBlocked(config, system, worker, outcome, keys, inserted);
  }

  lemma ReachableStep(config: Config, system: System, step: Step)
    requires Linked(config, system) && Enabled(config, system, step)
    ensures var next := Apply(config, system, step);
            Dispatching.Reachable(config.bus, next.bus) && Inbox.Reachable(config.receivers, next.receivers)
  {
    hide Dispatching.Reachable, Inbox.Reachable, Delivered, Blocked, UniqueIds, Inbox.Apply, Inbox.Enabled,
      Dispatching.Apply, Dispatching.Enabled;
    match step
    case OnBus(step) => FenceLimits.Reach(config.bus, system.bus, step);
    case OnReceivers(step) => Inbox.Reach(config.receivers, system.receivers, step);
    case CommitRun(worker, outcome, keys, inserted) =>
      InsertsAll(config, system.bus, keys, system.receivers.Stage(worker).rows, inserted);
      Inbox.Reach(config.receivers, system.receivers, Inbox.Commit(worker, outcome));
  }

  lemma {:induction false} LinkedRun(config: Config, first: System, steps: seq<Step>, last: System)
    requires Linked(config, first) && Run(config, first, steps, last)
    ensures Linked(config, last)
    decreases |steps|
  {
    if steps != [] {
      hide Linked, Enabled, Apply;
      LinkedStep(config, first, steps[0]);
      LinkedRun(config, Apply(config, first, steps[0]), steps[1..], last);
    }
  }

  lemma SystemIsLinked(config: Config, system: System)
    requires Reachable(config, system)
    ensures Linked(config, system)
  {
    var first: System, steps: seq<Step> :| Initial(first) && Run(config, first, steps, system);
    Inbox.StartIsReachable(config.receivers, first.receivers);
    assert Dispatching.Run(config.bus, first.bus, [], first.bus);
    LinkedRun(config, first, steps, system);
  }

  // How many handler runs an endpoint committed for a message id.
  function RunsFor(runs: seq<Inbox.HandlerRun>, endpoint: string, id: MessageId): nat {
    if runs == [] then 0
    else
      var last := runs[|runs| - 1];
      RunsFor(runs[..|runs| - 1], endpoint, id) + (if last.endpoint == endpoint && last.envelope.id == id then 1 else 0)
  }

  // Every committed run of a row's message handled exactly the envelope the row was inserted as.
  lemma HandledAsInserted(config: Config, system: System, key: Key, run: Inbox.HandlerRun)
    requires config.bus.Valid() && Reachable(config, system)
    requires key in system.bus.history && run in system.receivers.runs && run.envelope.id == key.id
    ensures ReadRow(config.bus.formats, system.bus.history[key]) == Some(run.envelope)
  {
    SystemIsLinked(config, system);
    BrokerSafety.BrokerIsSafe(config.bus, system.bus);
    var history := system.bus.history;
    assert BrokerSafety.Written(config.bus, history, run.envelope);
    var written :| written in history && ReadRow(config.bus.formats, history[written]) == Some(run.envelope);
    ReadRowId(config.bus.formats, history[written]);
    hide ReadRow;
    assert written == key;
  }

  lemma {:induction false} SameCount(runs: seq<Inbox.HandlerRun>, endpoint: string, envelope: Envelope)
    requires forall run <- runs :: run.envelope.id == envelope.id ==> run.envelope == envelope
    ensures RunsFor(runs, endpoint, envelope.id) == Inbox.RunsOf(runs, Inbox.KeyOf(endpoint, envelope))
  {
    if runs != [] {
      SameCount(runs[..|runs| - 1], endpoint, envelope);
      assert runs[|runs| - 1] in runs;
    }
  }

  // Whatever is published twice, delivered again or handled by competing workers: an outbox row
  // causes at most one committed handler run on each endpoint while its receipt is kept, and one
  // exactly when the receipt exists. A row that doesn't read as an envelope causes none.
  lemma OneRunPerRow(config: Config, system: System, key: Key, endpoint: string)
    requires config.bus.Valid() && Reachable(config, system) && key in system.bus.history
    ensures match ReadRow(config.bus.formats, system.bus.history[key])
            case Some(envelope) =>
              var receipt := Inbox.ReceiptKey(endpoint, envelope.id, envelope.time);
              receipt !in system.receivers.expired ==>
                RunsFor(system.receivers.runs, endpoint, key.id)
                == if receipt in system.receivers.receipts then 1 else 0
            case None => RunsFor(system.receivers.runs, endpoint, key.id) == 0
  {
    SystemIsLinked(config, system);
    forall run <- system.receivers.runs | run.envelope.id == key.id
      ensures ReadRow(config.bus.formats, system.bus.history[key]) == Some(run.envelope)
    {
      HandledAsInserted(config, system, key, run);
    }
    var read := ReadRow(config.bus.formats, system.bus.history[key]);
    if read.Some? {
      BrokerSafety.BrokerIsSafe(config.bus, system.bus);
      ReadRowId(config.bus.formats, system.bus.history[key]);
      hide ReadRow;
      SameCount(system.receivers.runs, endpoint, read.value);
      if Inbox.KeyOf(endpoint, read.value) !in system.receivers.expired {
        Inbox.RunsByKey(config.receivers, system.receivers, Inbox.KeyOf(endpoint, read.value));
      }
    } else {
      NoRunFor(system.receivers.runs, endpoint, key.id);
    }
  }

  lemma {:induction false} NoRunFor(runs: seq<Inbox.HandlerRun>, endpoint: string, id: MessageId)
    requires forall run <- runs :: run.envelope.id != id
    ensures RunsFor(runs, endpoint, id) == 0
  {
    if runs != [] {
      NoRunFor(runs[..|runs| - 1], endpoint, id);
    }
  }

  // With an outbox, every inserted row is from outside or belongs to exactly one committed
  // handler run, and each run's publishes are all there, in order, each as it was published.
  lemma PublishesCommitWithTheirRun(config: Config, system: System, i: nat)
    requires config.bus.Valid() && Reachable(config, system) && config.receivers.outbox
    requires i < |system.receivers.runs|
    ensures |system.blocks| == |system.receivers.runs| && Apart(system.blocks)
    ensures forall key <- system.bus.history :: key !in system.outside <==> InBlock(system.blocks, key)
    ensures var block, publishes := system.blocks[i], system.receivers.runs[i].publishes;
            && |block| == |publishes|
            && forall j | 0 <= j < |block| ::
                 block[j] in system.bus.history
                 && ReadRow(config.bus.formats, system.bus.history[block[j]]) == Some(publishes[j])
  {
    SystemIsLinked(config, system);
    hide Dispatching.Reachable, Inbox.Reachable, Delivered, UniqueIds, InBlock, Apart, ReadRow, Split;
    var publishes := system.receivers.runs[i].publishes;
    assert Holds(config.bus.formats, system.bus.history, system.blocks[i], publishes);
    forall j | 0 <= j < |publishes|
      ensures ReadRow(config.bus.formats, Split(config.bus.formats, publishes[j])) == Some(publishes[j])
    {
      RowRoundTrip(config.bus.formats, publishes[j]);
    }
  }

  // A handler run for a message that another run published names that run's message as its cause,
  // and its correlation id and trace are the handled message's.
  lemma CauseIsCommitted(config: Config, system: System, i: nat, j: nat, caused: Inbox.HandlerRun)
    requires config.bus.Valid() && Reachable(config, system) && config.receivers.outbox
    requires i < |system.receivers.runs| && j < |system.receivers.runs[i].publishes|
    requires caused in system.receivers.runs && caused.envelope.id == system.receivers.runs[i].publishes[j].id
    ensures var cause := system.receivers.runs[i].envelope;
            && caused.envelope == system.receivers.runs[i].publishes[j]
            && caused.envelope.correlation == Correlation(cause.correlation.correlationId, Some(cause.id))
            && caused.envelope.trace == cause.trace
  {
    SystemIsLinked(config, system);
    PublishesCommitWithTheirRun(config, system, i);
    var key := system.blocks[i][j];
    assert Holds(config.bus.formats, system.bus.history, system.blocks[i], system.receivers.runs[i].publishes);
    HandledAsInserted(config, system, key, caused);
    Inbox.InboxIsAtomic(config.receivers, system.receivers);
    assert Follows(system.receivers.runs[i].envelope, system.receivers.runs[i].publishes);
  }
}
