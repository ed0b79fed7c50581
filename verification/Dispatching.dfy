/** Any number of dispatchers on one outbox table and one broker, as a transition system.

Every statement is one step at a database time. Dispatchers may crash anywhere; a publish may be
stored late, more than once, or although it was reported as an error; a mark may fail. Each
dispatcher reads a monotonic clock of its own, which runs at the rate of the database's. */
module Dispatching {
  import opened Envelopes
  import opened Options
  import opened Outbox
  import opened OutboxRows
  import opened Retry

  datatype Settings = Settings(batchSize: nat, lease: nat, pollInterval: nat, retry: RetryPolicy) {
    // Settings with a zero are refused before the dispatcher starts.
    predicate Invalid() {
      batchSize == 0 || lease == 0 || pollInterval == 0
    }
  }

  // `strict` says whether two statements may see the same time of the database's clock.
  datatype Config = Config(formats: Formats, settings: nat -> Settings, skew: nat -> int, strict: bool) {
    ghost predicate Valid() {
      formats.Lawful() && forall dispatcher: nat :: !settings(dispatcher).Invalid()
    }
  }

  // Where the publish of the next record stands.
  datatype Flight = Resting | InFlight | Refused

  // What a dispatcher holds: nothing; the time it read before its claim; or a batch, with the rows
  // it couldn't read and has yet to mark, the records to publish, and those published.
  datatype Phase =
    | Idle
    | Claiming(claimedAt: int)
    | Busy(claimedAt: int, unreadable: seq<Lease>, todo: seq<Record>, published: seq<Record>, flight: Flight)
  {
    // The rows it holds a claim on that it has yet to settle.
    function Held(): seq<Lease> {
      if Busy? then unreadable + Leases(todo) + Leases(published) else []
    }

    // The publish that the end of the lease gives up on, and the rest of the batch with it.
    function Stopped(): Phase
      requires Busy?
    {
      this.(todo := [], flight := Resting)
    }
  }

  function Leases(records: seq<Record>): (leases: seq<Lease>)
    ensures |leases| == |records|
    ensures forall i | 0 <= i < |records| :: leases[i] == records[i].Hold()
  {
    seq(|records|, i requires 0 <= i < |records| => records[i].Hold())
  }

  // `history` is every row as it was inserted, `failures` and `resets` how often each row's failed
  // publish was counted and its failed mark undone by hand.
  datatype State = State(
    now: int,
    statementAt: int,
    table: Table,
    dispatchers: map<nat, Phase>,
    sent: set<Envelope>,
    log: seq<Envelope>,
    history: map<Key, Columns>,
    failures: map<Key, nat>,
    resets: map<Key, nat>)
  {
    function Phase(dispatcher: nat): Phase {
      if dispatcher in dispatchers then dispatchers[dispatcher] else Idle
    }

    function With(dispatcher: nat, phase: Phase): State {
      this.(dispatchers := dispatchers[dispatcher := phase])
    }

    // A statement's new table, at the current time.
    function Statement(table: Table): State {
      this.(statementAt := now, table := table)
    }
  }

  function Count(counts: map<Key, nat>, key: Key): nat {
    if key in counts then counts[key] else 0
  }

  function Local(config: Config, state: State, dispatcher: nat): int {
    state.now + config.skew(dispatcher)
  }

  function Deadline(config: Config, state: State, dispatcher: nat): int
    requires state.Phase(dispatcher).Busy?
  {
    state.Phase(dispatcher).claimedAt + config.settings(dispatcher).lease
  }

  // The lease is over, by the dispatcher's own clock.
  predicate Overdue(config: Config, state: State, dispatcher: nat)
    requires state.Phase(dispatcher).Busy?
  {
    Deadline(config, state, dispatcher) <= Local(config, state, dispatcher)
  }

  datatype Step =
    | Tick(to: int)
    | Insert(key: Key, content: Columns)
    | StartRound(dispatcher: nat)
    | Claim(dispatcher: nat, locked: set<Key>, keys: seq<Key>)
    | FailUnreadable(dispatcher: nat, landed: bool)
    | Send(dispatcher: nat)
    | Store(envelope: Envelope)
    | Accepted(dispatcher: nat)
    | Rejected(dispatcher: nat)
    | Return(dispatcher: nat, landed: bool)
    | TimeOut(dispatcher: nat)
    | StopBatch(dispatcher: nat)
    | Finish(dispatcher: nat, landed: bool)
    | GiveUp(dispatcher: nat)
    | Reset(key: Key)
    | Expire(expired: set<Key>)

  // Whether a statement may run now, after the one before it.
  predicate StatementTime(config: Config, state: State) {
    if config.strict then state.statementAt < state.now else state.statementAt <= state.now
  }

  predicate Enabled(config: Config, state: State, step: Step) {
    match step
    case Tick(to) => state.now <= to
    // A row becomes visible when its transaction commits, with the time the transaction began.
    case Insert(key, content) =>
      key !in state.history && key !in state.table && key.createdAt <= state.now && content.id == key.id
    case StartRound(dispatcher) => state.Phase(dispatcher).Idle?
    case Claim(dispatcher, locked, keys) =>
      && state.Phase(dispatcher).Claiming? && StatementTime(config, state)
      && Selects(state.table, state.now, config.settings(dispatcher).batchSize, locked, keys)
    case FailUnreadable(dispatcher, _) =>
      && state.Phase(dispatcher).Busy? && state.Phase(dispatcher).unreadable != [] && StatementTime(config, state)
    // No publish starts once the lease ran out, by the dispatcher's own clock.
    case Send(dispatcher) =>
      var phase := state.Phase(dispatcher);
      && phase.Busy? && phase.unreadable == [] && phase.flight == Resting && phase.todo != []
      && !Overdue(config, state, dispatcher)
    case Store(envelope) => envelope in state.sent
    // The broker confirms a publish only once it has the envelope.
    case Accepted(dispatcher) =>
      var phase := state.Phase(dispatcher);
      phase.Busy? && phase.flight == InFlight && phase.todo != [] && phase.todo[0].envelope in state.log
    case Rejected(dispatcher) =>
      var phase := state.Phase(dispatcher);
      phase.Busy? && phase.flight == InFlight && phase.todo != []
    case Return(dispatcher, _) =>
      var phase := state.Phase(dispatcher);
      phase.Busy? && phase.flight == Refused && phase.todo != [] && StatementTime(config, state)
    // A publish that still waits is given up once the lease ran out; the timer may be late.
    case TimeOut(dispatcher) =>
      var phase := state.Phase(dispatcher);
      phase.Busy? && phase.flight == InFlight && Overdue(config, state, dispatcher)
    case StopBatch(dispatcher) =>
      var phase := state.Phase(dispatcher);
      phase.Busy? && phase.unreadable == [] && phase.flight == Resting
    case Finish(dispatcher, _) =>
      var phase := state.Phase(dispatcher);
      && phase.Busy? && phase.unreadable == [] && phase.flight == Resting && phase.todo == []
      && StatementTime(config, state)
    case GiveUp(dispatcher) => true
    case Reset(key) => key in state.table && state.table[key].status == Failed && StatementTime(config, state)
    case Expire(_) => StatementTime(config, state)
  }

  function Apply(config: Config, state: State, step: Step): State
    requires Enabled(config, state, step)
  {
    match step
    case Tick(to) =>
      state.(now := to)
    case Insert(key, content) =>
      state.(table := state.table[key := Row(content, Pending, key.createdAt, 0)],
             history := state.history[key := content])
    case StartRound(dispatcher) =>
      state.With(dispatcher, Claiming(Local(config, state, dispatcher)))
    case Claim(dispatcher, locked, keys) =>
      var until := state.now + config.settings(dispatcher).lease;
      state.Statement(Leased(state.table, keys, until)).With(
        dispatcher,
        Busy(state.Phase(dispatcher).claimedAt, Unreadable(config.formats, state.table, keys, until),
             Readable(config.formats, state.table, keys, until), [], Resting))
    case FailUnreadable(dispatcher, landed) =>
      var phase := state.Phase(dispatcher);
      var lease := phase.unreadable[0];
      state.Statement(if landed then MarkUnreadable(state.table, lease.key, lease.token) else state.table)
      .With(dispatcher, phase.(unreadable := phase.unreadable[1..]))
    case Send(dispatcher) =>
      var phase := state.Phase(dispatcher);
      state.(sent := state.sent + {phase.todo[0].envelope}).With(dispatcher, phase.(flight := InFlight))
    case Store(envelope) =>
      state.(log := state.log + [envelope])
    case Accepted(dispatcher) =>
      var phase := state.Phase(dispatcher);
      state.With(dispatcher, phase.(todo := phase.todo[1..], published := phase.published + [phase.todo[0]],
                                    flight := Resting))
    case Rejected(dispatcher) =>
      state.With(dispatcher, state.Phase(dispatcher).(flight := Refused))
    case Return(dispatcher, landed) =>
      var phase := state.Phase(dispatcher);
      var record := phase.todo[0];
      var counted := landed && Matches(state.table, record.RowKey(), record.leasedUntil);
      state.Statement(if landed then PutBack(state.table, config.settings(dispatcher).retry, record, state.now)
                      else state.table)
      .(failures := if counted then state.failures[record.RowKey() := Count(state.failures, record.RowKey()) + 1]
                    else state.failures)
      .With(dispatcher, phase.(todo := phase.todo[1..], flight := Resting))
    case TimeOut(dispatcher) =>
      state.With(dispatcher, state.Phase(dispatcher).Stopped())
    case StopBatch(dispatcher) =>
      state.With(dispatcher, state.Phase(dispatcher).Stopped())
    case Finish(dispatcher, landed) =>
      state.Statement(if landed then MarkDispatched(state.table, state.Phase(dispatcher).published) else state.table)
      .With(dispatcher, Idle)
    case GiveUp(dispatcher) =>
      state.With(dispatcher, Idle)
    case Reset(key) =>
      state.Statement(state.table[key := state.table[key].(status := Pending)])
      .(resets := state.resets[key := Count(state.resets, key) + 1])
    case Expire(expired) =>
      state.Statement(state.table - expired)
  }

  ghost predicate Initial(state: State) {
    && state.table == map[] && state.dispatchers == map[] && state.sent == {} && state.log == []
    && state.history == map[] && state.failures == map[] && state.resets == map[]
    && state.statementAt <= state.now
  }

  // A run: the steps that lead from one state to another.
  ghost predicate Run(config: Config, first: State, steps: seq<Step>, last: State)
    decreases |steps|
  {
    if steps == [] then first == last
    else Enabled(config, first, steps[0]) && Run(config, Apply(config, first, steps[0]), steps[1..], last)
  }

  ghost predicate Reachable(config: Config, state: State) {
    exists first: State, steps: seq<Step> :: Initial(first) && Run(config, first, steps, state)
  }
}
