/** How often a row is tried: the failures its `attempts` counts, and the rounds that empty the table.

Both rest on the fence: a mark that lands is the current claim's, so it counts on from the attempts
the claim read. */
module Attempts {
  import opened BrokerSafety
  import opened Dispatching
  import opened Envelopes
  import opened Fencing
  import opened Options
  import opened Outbox
  import opened OutboxRows
  import opened Retry

  // All dispatchers give up after the same number of attempts.
  ghost predicate SharedPolicy(config: Config, retry: RetryPolicy) {
    forall d: nat :: config.settings(d).retry == retry
  }

  // A claimed row that waits to be marked unreadable doesn't read.
  ghost predicate UnreadableDontRead(config: Config, state: State) {
    forall d: nat, lease | state.Phase(d).Busy? && lease in state.Phase(d).unreadable ::
      lease.key in state.history && ReadRow(config.formats, state.history[lease.key]).None?
  }

  // The attempts of a readable row: one for each failed publish whose mark landed. They stay below
  // the bound until the row fails, and each reset buys one more.
  ghost predicate Counted(config: Config, retry: RetryPolicy, state: State, key: Key)
    requires key in state.table
  {
    var row, resets := state.table[key], Count(state.resets, key);
    ReadRow(config.formats, row.content).Some? ==>
      && row.attempts == Count(state.failures, key)
      && (if row.status == Failed then row.attempts == retry.Bound() + resets
          else if resets == 0 then row.attempts < retry.Bound()
          else row.attempts == retry.Bound() + resets - 1)
  }

  ghost predicate Accounted(config: Config, retry: RetryPolicy, state: State) {
    && UnreadableDontRead(config, state)
    && state.failures.Keys <= state.history.Keys
    && state.resets.Keys <= state.history.Keys
    && forall key <- state.table :: Counted(config, retry, state, key)
  }

  lemma {:induction false} ClaimedUnreadable(config: Config, table: Table, keys: seq<Key>, until: int, lease: Lease)
    requires forall key <- keys :: key in table
    requires lease in Unreadable(config.formats, table, keys, until)
    ensures lease.key in keys && ReadRow(config.formats, table[lease.key].content).None?
  {
    hide ReadRow;
    if lease in Unreadable(config.formats, table, keys[1..], until) {
      ClaimedUnreadable(config, table, keys[1..], until, lease);
    }
  }

  lemma UnreadableStep(config: Config, state: State, step: Step)
    requires config.Valid() && RowsKept(state) && UnreadableDontRead(config, state) && Enabled(config, state, step)
    ensures UnreadableDontRead(config, Apply(config, state, step))
  {
    hide ReadRow, Apply, Enabled, RowsKept;
    var next := Apply(config, state, step);
    forall d: nat, lease | next.Phase(d).Busy? && lease in next.Phase(d).unreadable
      ensures lease.key in next.history && ReadRow(config.formats, next.history[lease.key]).None?
    {
      HistoryStep(config, state, step);
      if step.Claim? && step.dispatcher == d {
        NewlyUnreadable(config, state, step, lease);
      } else {
        UnreadableBefore(config, state, step, d);
      }
    }
  }

  lemma NewlyUnreadable(config: Config, state: State, step: Step, lease: Lease)
    requires RowsKept(state) && Enabled(config, state, step) && step.Claim?
    requires lease in Apply(config, state, step).Phase(step.dispatcher).unreadable
    ensures lease.key in state.history && ReadRow(config.formats, state.history[lease.key]).None?
  {
    hide ReadRow, Readable, Unreadable, Leased;
    SelectedRows(state, step, config);
    hide Selects;
    ClaimedUnreadable(
      config, state.table, step.keys, state.now + config.settings(step.dispatcher).lease, lease);
  }

  lemma UnreadableBefore(config: Config, state: State, step: Step, d: nat)
    requires Enabled(config, state, step) && Apply(config, state, step).Phase(d).Busy?
    requires !(step.Claim? && step.dispatcher == d)
    ensures state.Phase(d).Busy?
    ensures forall lease <- Apply(config, state, step).Phase(d).unreadable :: lease in state.Phase(d).unreadable
  {
    hide ReadRow, Readable, Unreadable, Selects, MarkDispatched, PutBack, MarkUnreadable, Leased;
  }

  lemma HistoryStep(config: Config, state: State, step: Step)
    requires Enabled(config, state, step)
    ensures forall key <- state.history ::
              key in Apply(config, state, step).history && Apply(config, state, step).history[key] == state.history[key]
  {
    hide ReadRow, Readable, Unreadable, Selects, MarkDispatched, PutBack, MarkUnreadable, Leased;
  }

  // How a step counts: a mark of a failed publish that lands adds one, and a reset adds one.
  lemma CountStep(config: Config, state: State, step: Step, key: Key)
    requires Enabled(config, state, step)
    ensures var next := Apply(config, state, step);
            && Count(next.failures, key) == Count(state.failures, key)
                 + (if FailureCounted(state, step, key) then 1 else 0)
            && Count(next.resets, key) == Count(state.resets, key) + (if step == Reset(key) then 1 else 0)
  {
    hide ReadRow, Readable, Unreadable, Selects, MarkDispatched, PutBack, MarkUnreadable, Leased;
  }

  predicate FailureCounted(state: State, step: Step, key: Key) {
    && step.Return? && step.landed
    && state.Phase(step.dispatcher).Busy? && state.Phase(step.dispatcher).todo != []
    && var record := state.Phase(step.dispatcher).todo[0];
       record.RowKey() == key && Matches(state.table, key, record.leasedUntil)
  }

  // How a step may change the status and attempts of a key's row.
  predicate StatusMoves(retry: RetryPolicy, state: State, step: Step, key: Key, before: Row, row: Row) {
    if FailureCounted(state, step, key) then
      && before.status == Pending && row.attempts == before.attempts + 1
      && row.status == (if row.attempts >= retry.attempts then Failed else Pending)
    else
      && row.attempts == before.attempts
      && (row.status == before.status || (before.status == Pending && row.status == Dispatched)
          || (step == Reset(key) && row.status == Pending))
      && (step == Reset(key) ==> before.status == Failed && row.status == Pending)
  }

  lemma StatusStep(config: Config, retry: RetryPolicy, state: State, step: Step, key: Key)
    requires config.Valid() && config.strict && SharedPolicy(config, retry)
    requires BrokerSafe(config, state) && Fenced(config, state) && Accounted(config, retry, state)
    requires Enabled(config, state, step) && key in state.table && key in Apply(config, state, step).table
    requires ReadRow(config.formats, state.table[key].content).Some?
    ensures StatusMoves(retry, state, step, key, state.table[key], Apply(config, state, step).table[key])
  {
    hide ReadRow, BrokerSafe, Fenced, Apply, StatusMoves;
    if step.Return? {
      var record := state.Phase(step.dispatcher).todo[0];
      FirstIsHeld(state.Phase(step.dispatcher));
      HeldIsOk(config, state, step.dispatcher, record.Hold());
      ReturnedTable(config, state, step);
      ReturnStatus(config, retry, state, step, key, record, Apply(config, state, step).table);
    } else if step.FailUnreadable? {
      UnreadableStays(config, retry, state, step, key);
      UnreadableMoves(config, retry, state, step, key);
    } else {
      OtherMoves(config, retry, state, step, key);
    }
    hide Accounted, UnreadableDontRead, LeaseOk, PutBack, MarkUnreadable;
  }

  lemma ReturnedTable(config: Config, state: State, step: Step)
    requires Enabled(config, state, step) && step.Return?
    ensures var record, retry := state.Phase(step.dispatcher).todo[0], config.settings(step.dispatcher).retry;
            Apply(config, state, step).table
            == if step.landed then PutBack(state.table, retry, record, state.now) else state.table
  {
    hide PutBack;
  }

  lemma UnreadableMoves(config: Config, retry: RetryPolicy, state: State, step: Step, key: Key)
    requires Enabled(config, state, step) && step.FailUnreadable? && key in state.table
    requires step.landed ==>
               var lease := state.Phase(step.dispatcher).unreadable[0];
               lease.key != key && MarkUnreadable(state.table, lease.key, lease.token)[key] == state.table[key]
    ensures key in Apply(config, state, step).table
    ensures StatusMoves(retry, state, step, key, state.table[key], Apply(config, state, step).table[key])
  {
  }

  lemma OtherMoves(config: Config, retry: RetryPolicy, state: State, step: Step, key: Key)
    requires Enabled(config, state, step) && !step.Return? && !step.FailUnreadable?
    requires key in state.table && key in Apply(config, state, step).table
    ensures StatusMoves(retry, state, step, key, state.table[key], Apply(config, state, step).table[key])
  {
    hide ReadRow, Readable, Unreadable, Selects, PutBack, MarkUnreadable;
  }

  // Marking an unreadable row leaves the readable ones alone.
  lemma UnreadableStays(config: Config, retry: RetryPolicy, state: State, step: Step, key: Key)
    requires BrokerSafe(config, state) && Accounted(config, retry, state)
    requires Enabled(config, state, step) && step.FailUnreadable? && key in state.table
    requires ReadRow(config.formats, state.table[key].content).Some?
    ensures step.landed ==>
              var lease := state.Phase(step.dispatcher).unreadable[0];
              lease.key != key && MarkUnreadable(state.table, lease.key, lease.token)[key] == state.table[key]
  {
    hide ReadRow, BrokerSafe, Counted, Apply;
    var lease := state.Phase(step.dispatcher).unreadable[0];
    assert lease in state.Phase(step.dispatcher).unreadable;
    KeptContent(config, state, lease.key);
  }

  // The mark of a failed publish, on the row whose hold it matches.
  lemma ReturnMoves(table: Table, retry: RetryPolicy, record: Record, now: int, key: Key)
    requires key in table
    requires record.RowKey() == key && Matches(table, key, record.leasedUntil) ==>
               record.attempts == table[key].attempts
    ensures var next := PutBack(table, retry, record, now);
            && key in next
            && if record.RowKey() == key && Matches(table, key, record.leasedUntil) then
                 && table[key].status == Pending && next[key].attempts == table[key].attempts + 1
                 && next[key].status == (if next[key].attempts >= retry.attempts then Failed else Pending)
               else next[key] == table[key]
  {
  }

  lemma ReturnStatus(
    config: Config, retry: RetryPolicy, state: State, step: Step, key: Key, record: Record, table: Table)
    requires config.strict && step.Return? && key in state.table
    requires var phase := state.Phase(step.dispatcher); phase.Busy? && phase.todo != [] && phase.todo[0] == record
    requires LeaseOk(config, state, record.Hold())
    requires table == if step.landed then PutBack(state.table, retry, record, state.now) else state.table
    ensures key in table && StatusMoves(retry, state, step, key, state.table[key], table[key])
  {
    hide PutBack;
    ReturnMoves(state.table, retry, record, state.now, key);
  }

  lemma HeldIsOk(config: Config, state: State, d: nat, lease: Lease)
    requires Fenced(config, state) && lease in state.Phase(d).Held()
    ensures LeaseOk(config, state, lease)
  {
  }

  lemma KeptContent(config: Config, state: State, key: Key)
    requires BrokerSafe(config, state)
    ensures key in state.table ==> key in state.history && state.table[key].content == state.history[key]
  {
  }

  lemma StillCounted(config: Config, retry: RetryPolicy, state: State, step: Step, key: Key)
    requires config.Valid() && config.strict && SharedPolicy(config, retry)
    requires BrokerSafe(config, state) && Fenced(config, state) && Accounted(config, retry, state)
    requires Enabled(config, state, step) && key in state.table && key in Apply(config, state, step).table
    requires Apply(config, state, step).table[key].content == state.table[key].content
    ensures Counted(config, retry, Apply(config, state, step), key)
  {
    hide ReadRow, BrokerSafe, Fenced, Apply, Enabled;
    CountStep(config, state, step, key);
    assert Counted(config, retry, state, key);
    if ReadRow(config.formats, state.table[key].content).Some? {
      StatusStep(config, retry, state, step, key);
    }
    hide Accounted;
  }

  lemma CountedStep(config: Config, retry: RetryPolicy, state: State, step: Step, key: Key)
    requires config.Valid() && config.strict && SharedPolicy(config, retry)
    requires BrokerSafe(config, state) && Fenced(config, state) && Accounted(config, retry, state)
    requires Enabled(config, state, step) && key in Apply(config, state, step).table
    ensures Counted(config, retry, Apply(config, state, step), key)
  {
    hide ReadRow, BrokerSafe, Fenced;
    CountStep(config, state, step, key);
    if key !in state.table {
      OnlyInsertsAdd(config, state, step, key);
      assert key !in state.failures && key !in state.resets;
    } else {
      assert Counted(config, retry, state, key);
      DispatchedStays(config, state, step, key);
      StillCounted(config, retry, state, step, key);
      hide Apply, Enabled;
    }
  }

  lemma AccountedStep(config: Config, retry: RetryPolicy, state: State, step: Step)
    requires config.Valid() && config.strict && SharedPolicy(config, retry)
    requires BrokerSafe(config, state) && Fenced(config, state) && Accounted(config, retry, state)
    requires Enabled(config, state, step)
    ensures Accounted(config, retry, Apply(config, state, step))
  {
    var next := Apply(config, state, step);
    UnreadableStep(config, state, step);
    forall key <- next.table
      ensures Counted(config, retry, next, key)
    {
      CountedStep(config, retry, state, step, key);
    }
    CountsOfRows(config, state, step);
    hide Apply, Enabled, Counted, UnreadableDontRead;
  }

  lemma CountsOfRows(config: Config, state: State, step: Step)
    requires RowsKept(state) && Enabled(config, state, step)
    requires state.failures.Keys <= state.history.Keys && state.resets.Keys <= state.history.Keys
    ensures var next := Apply(config, state, step);
            next.failures.Keys <= next.history.Keys && next.resets.Keys <= next.history.Keys
  {
    hide ReadRow, Readable, Unreadable, Selects, MarkDispatched, PutBack, MarkUnreadable, Leased;
  }

  lemma {:induction false} AccountedRun(
    config: Config, retry: RetryPolicy, first: State, steps: seq<Step>, last: State)
    requires config.Valid() && config.strict && SharedPolicy(config, retry)
    requires BrokerSafe(config, first) && Fenced(config, first) && Accounted(config, retry, first)
    requires Run(config, first, steps, last)
    ensures Accounted(config, retry, last)
    decreases |steps|
  {
    if steps != [] {
      BrokerStep(config, first, steps[0]);
      FencedStep(config, first, steps[0]);
      AccountedStep(config, retry, first, steps[0]);
      hide BrokerSafe, Fenced, Accounted, SharedPolicy, Enabled, Apply;
      AccountedRun(config, retry, Apply(config, first, steps[0]), steps[1..], last);
    }
  }

  lemma FirstAccounted(config: Config, retry: RetryPolicy, first: State)
    requires Initial(first)
    ensures BrokerSafe(config, first) && Fenced(config, first) && Accounted(config, retry, first)
  {
    hide ReadRow;
  }

  // A readable row's attempts are its failed publishes whose mark landed. It is failed exactly when
  // they reach the policy's bound, plus one for each reset by hand; before any reset, an unfailed
  // row has fewer than the bound.
  lemma AttemptsCounted(config: Config, retry: RetryPolicy, state: State, key: Key)
    requires config.Valid() && config.strict && SharedPolicy(config, retry) && Reachable(config, state)
    requires key in state.table && ReadRow(config.formats, state.table[key].content).Some?
    ensures var row, resets := state.table[key], Count(state.resets, key);
            var bound := if retry.attempts > 0 then retry.attempts else 1;
            && row.attempts == Count(state.failures, key)
            && row.attempts <= bound + resets
            && (row.status == Failed <==> row.attempts == bound + resets)
            && (row.status != Failed && resets > 0 ==> row.attempts == bound + resets - 1)
  {
    var first: State, steps: seq<Step> :| Initial(first) && Run(config, first, steps, state);
    FirstAccounted(config, retry, first);
    AccountedRun(config, retry, first, steps, state);
    hide ReadRow, BrokerSafe, Fenced, Initial, Run, SharedPolicy, UnreadableDontRead;
    assert Counted(config, retry, state, key);
  }

  function PendingRows(table: Table): set<Key> {
    set key | key in table && table[key].status == Pending
  }

  // A full round: a whole batch published, and marked while its claims still held. The dispatcher's
  // own `true` says only that the batch was full: its mark may have failed, or come too late.
  predicate FullRound(config: Config, state: State, step: Step) {
    && step.Finish? && step.landed
    && state.Phase(step.dispatcher).Busy?
    && |state.Phase(step.dispatcher).published| == config.settings(step.dispatcher).batchSize
    && forall record <- state.Phase(step.dispatcher).published ::
       Matches(state.table, record.RowKey(), record.leasedUntil)
  }

  // The mark of a full batch takes all of it when it lands before the lease runs out, as far as the
  // statements before it tell, and no row expired.
  lemma RoundInTime(config: Config, state: State, step: Step)
    requires config.Valid() && Reachable(config, state) && Enabled(config, state, step) && step.Finish? && step.landed
    requires |state.Phase(step.dispatcher).published| == config.settings(step.dispatcher).batchSize
    requires forall record <- state.Phase(step.dispatcher).published ::
               record.RowKey() in state.table && state.statementAt < record.leasedUntil
    ensures FullRound(config, state, step)
  {
    LeasesAreFenced(config, state);
    assert state.Phase(step.dispatcher).Busy?;
    hide BrokerSafe, Fenced, Reachable, Enabled, Matches;
    forall record <- state.Phase(step.dispatcher).published
      ensures Matches(state.table, record.RowKey(), record.leasedUntil)
    {
      StillMatches(config, state, step.dispatcher, record);
    }
  }

  lemma StillMatches(config: Config, state: State, d: nat, record: Record)
    requires Fenced(config, state) && state.Phase(d).Busy? && record in state.Phase(d).published
    requires record.RowKey() in state.table && state.statementAt < record.leasedUntil
    ensures Matches(state.table, record.RowKey(), record.leasedUntil)
  {
    hide Fenced;
    var phase := state.Phase(d);
    var i :| 0 <= i < |phase.published| && phase.published[i] == record;
    assert phase.Held()[|phase.unreadable| + |phase.todo| + i] == record.Hold();
    HeldIsOk(config, state, d, record.Hold());
  }

  // The rows the full rounds of a run took: a batch each.
  ghost function Taken(config: Config, first: State, steps: seq<Step>): nat
    decreases |steps|
  {
    if steps == [] || !Enabled(config, first, steps[0]) then 0
    else (if FullRound(config, first, steps[0]) then config.settings(steps[0].dispatcher).batchSize else 0)
         + Taken(config, Apply(config, first, steps[0]), steps[1..])
  }

  // Without inserts and resets, no step makes a row pending, and a full round takes a batch away.
  lemma PendingStep(config: Config, state: State, step: Step)
    requires Fenced(config, state) && Enabled(config, state, step) && !step.Insert? && !step.Reset?
    ensures PendingRows(Apply(config, state, step).table) <= PendingRows(state.table)
    ensures FullRound(config, state, step) ==>
              |PendingRows(Apply(config, state, step).table)| + config.settings(step.dispatcher).batchSize
              == |PendingRows(state.table)|
  {
    forall key <- Apply(config, state, step).table
      ensures key in state.table
      ensures Apply(config, state, step).table[key].status == Pending ==> state.table[key].status == Pending
    {
      StillPending(config, state, step, key);
    }
    if FullRound(config, state, step) {
      RoundTakes(config, state, step);
    }
    hide Apply, Enabled;
  }

  lemma StillPending(config: Config, state: State, step: Step, key: Key)
    requires Enabled(config, state, step) && !step.Insert? && !step.Reset? && key in Apply(config, state, step).table
    ensures key in state.table
    ensures Apply(config, state, step).table[key].status == Pending ==> state.table[key].status == Pending
  {
    hide ReadRow, Readable, Unreadable, Selects;
  }

  lemma RoundTakes(config: Config, state: State, step: Step)
    requires Fenced(config, state) && Enabled(config, state, step) && FullRound(config, state, step)
    ensures |PendingRows(Apply(config, state, step).table)| + config.settings(step.dispatcher).batchSize
            == |PendingRows(state.table)|
  {
    hide ReadRow, Readable, Unreadable, Selects, PendingRows, MarkDispatched;
    var phase := state.Phase(step.dispatcher);
    assert Distinct(phase.Held());
    PublishedApart(phase);
    MarkTakes(state.table, phase.published);
  }

  lemma PublishedApart(phase: Phase)
    requires phase.Busy? && Distinct(phase.Held())
    ensures forall i, j | 0 <= i < j < |phase.published| :: phase.published[i].RowKey() != phase.published[j].RowKey()
  {
    var held, start := phase.Held(), |phase.unreadable| + |phase.todo|;
    assert held[start..] == Leases(phase.published);
    hide Phase.Held;
    forall i, j | 0 <= i < j < |phase.published|
      ensures phase.published[i].RowKey() != phase.published[j].RowKey()
    {
      assert held[start..][i] == held[start + i] && held[start..][j] == held[start + j];
    }
  }

  // A mark whose records all match takes one pending row for each.
  lemma MarkTakes(table: Table, records: seq<Record>)
    requires forall i, j | 0 <= i < j < |records| :: records[i].RowKey() != records[j].RowKey()
    requires forall record <- records :: Matches(table, record.RowKey(), record.leasedUntil)
    ensures |PendingRows(MarkDispatched(table, records))| + |records| == |PendingRows(table)|
  {
    DistinctKeys(records);
    var keys := set i | 0 <= i < |records| :: records[i].RowKey();
    assert keys <= PendingRows(table);
    assert PendingRows(MarkDispatched(table, records)) == PendingRows(table) - keys;
  }

  lemma {:induction false} DistinctKeys(records: seq<Record>)
    requires forall i, j | 0 <= i < j < |records| :: records[i].RowKey() != records[j].RowKey()
    ensures |set i | 0 <= i < |records| :: records[i].RowKey()| == |records|
  {
    var keys := set i | 0 <= i < |records| :: records[i].RowKey();
    if records != [] {
      var before := records[..|records| - 1];
      DistinctKeys(before);
      var others := set i | 0 <= i < |before| :: before[i].RowKey();
      assert keys == others + {records[|records| - 1].RowKey()};
    }
  }

  // The busy loop ends: with no inserts or resets, the full rounds of all dispatchers together take
  // no more rows than were pending.
  lemma {:induction false} FullRoundsEnd(config: Config, first: State, steps: seq<Step>, last: State)
    requires config.Valid() && BrokerSafe(config, first) && Fenced(config, first) && Run(config, first, steps, last)
    requires forall step <- steps :: !step.Insert? && !step.Reset?
    ensures |PendingRows(last.table)| + Taken(config, first, steps) <= |PendingRows(first.table)|
    decreases |steps|
  {
    if steps != [] {
      var next := Apply(config, first, steps[0]);
      BrokerStep(config, first, steps[0]);
      FencedStep(config, first, steps[0]);
      PendingStep(config, first, steps[0]);
      Subset(PendingRows(next.table), PendingRows(first.table));
      hide BrokerSafe, Fenced, Enabled, Apply, PendingRows, FullRound;
      FullRoundsEnd(config, next, steps[1..], last);
    }
  }

  lemma Subset<T>(inner: set<T>, outer: set<T>)
    requires inner <= outer
    ensures |inner| <= |outer|
  {
    assert outer == inner + (outer - inner);
  }
}
