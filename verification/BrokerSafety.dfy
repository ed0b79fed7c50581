/** What reaches the broker: only the envelopes of inserted rows, and every dispatched row's. */
module BrokerSafety {
  import opened Dispatching
  import opened Envelopes
  import opened Options
  import opened Outbox
  import opened OutboxRows

  // Some inserted row reads as the envelope.
  ghost predicate Written(config: Config, history: map<Key, Columns>, envelope: Envelope) {
    exists key <- history :: ReadRow(config.formats, history[key]) == Some(envelope)
  }

  // A record in a batch holds the envelope its row was inserted with.
  ghost predicate RecordReads(config: Config, history: map<Key, Columns>, record: Record) {
    record.RowKey() in history && ReadRow(config.formats, history[record.RowKey()]) == Some(record.envelope)
  }

  ghost predicate BatchReads(config: Config, state: State, phase: Phase) {
    phase.Busy? ==>
      && (forall record <- phase.todo :: RecordReads(config, state.history, record))
      && (forall record <- phase.published ::
            RecordReads(config, state.history, record) && record.envelope in state.log)
      && (phase.flight != Resting ==> phase.todo != [] && phase.unreadable == [])
  }

  ghost predicate RowsKept(state: State) {
    && (forall key <- state.table :: key in state.history && state.table[key].content == state.history[key])
    && (forall key <- state.history :: state.history[key].id == key.id)
  }

  // The row of a key was accepted by the broker at least once.
  ghost predicate Accepted(config: Config, state: State, key: Key)
    requires key in state.history
  {
    exists envelope <- state.log :: ReadRow(config.formats, state.history[key]) == Some(envelope)
  }

  ghost predicate BrokerSafe(config: Config, state: State) {
    && RowsKept(state)
    && (forall dispatcher: nat :: BatchReads(config, state, state.Phase(dispatcher)))
    && (forall envelope <- state.sent :: Written(config, state.history, envelope))
    && (forall envelope <- state.log :: envelope in state.sent)
    && (forall key <- state.table :: state.table[key].status == Dispatched ==> Accepted(config, state, key))
  }

  // What a claim hands out: for each row a record or a hold, with its envelope, attempts and token.
  lemma {:induction false} ClaimedRecords(config: Config, table: Table, keys: seq<Key>, until: int, record: Record)
    requires config.Valid()
    requires forall key <- keys :: key in table && table[key].content.id == key.id
    requires record in Readable(config.formats, table, keys, until)
    ensures record.RowKey() in keys && record.leasedUntil == until
    ensures record.attempts == table[record.RowKey()].attempts
    ensures ReadRow(config.formats, table[record.RowKey()].content) == Some(record.envelope)
  {
    hide ReadRow;
    var row := table[keys[0]];
    if ReadRow(config.formats, row.content).Some? {
      ReadRowId(config.formats, row.content);
    }
    if record in Readable(config.formats, table, keys[1..], until) {
      ClaimedRecords(config, table, keys[1..], until, record);
    }
  }

  // Later states keep what a batch holds: rows stay as they were written and the log only grows.
  lemma BatchStillReads(config: Config, state: State, next: State, phase: Phase)
    requires BatchReads(config, state, phase)
    requires forall key <- state.history :: key in next.history && next.history[key] == state.history[key]
    requires forall envelope <- state.log :: envelope in next.log
    ensures BatchReads(config, next, phase)
  {
    hide ReadRow;
  }

  lemma BatchStep(config: Config, state: State, step: Step, dispatcher: nat)
    requires config.Valid() && BrokerSafe(config, state) && Enabled(config, state, step)
    ensures BatchReads(config, Apply(config, state, step), Apply(config, state, step).Phase(dispatcher))
  {
    hide ReadRow, Readable, Unreadable, Selects, MarkDispatched, PutBack, MarkUnreadable, Leased;
    var next := Apply(config, state, step);
    if step.Claim? && step.dispatcher == dispatcher {
      ClaimedBatch(config, state, step);
      hide Apply, Enabled;
    } else {
      hide RowsKept, Accepted, Written;
      BatchStillReads(config, state, next, state.Phase(dispatcher));
    }
  }

  lemma ClaimedBatch(config: Config, state: State, step: Step)
    requires config.Valid() && BrokerSafe(config, state) && Enabled(config, state, step) && step.Claim?
    ensures BatchReads(config, Apply(config, state, step), Apply(config, state, step).Phase(step.dispatcher))
  {
    hide ReadRow, Readable, Unreadable, Selects, Leased;
    SelectedRows(state, step, config);
    var until := state.now + config.settings(step.dispatcher).lease;
    forall record <- Readable(config.formats, state.table, step.keys, until)
      ensures RecordReads(config, state.history, record)
    {
      ClaimedRecords(config, state.table, step.keys, until, record);
    }
  }

  lemma SelectedRows(state: State, step: Step, config: Config)
    requires RowsKept(state) && step.Claim? && Enabled(config, state, step)
    ensures forall key <- step.keys :: key in state.table && state.table[key].content.id == key.id
  {
  }

  lemma RowsStep(config: Config, state: State, step: Step)
    requires RowsKept(state) && Enabled(config, state, step)
    ensures RowsKept(Apply(config, state, step))
  {
    hide ReadRow, Readable, Unreadable, Selects, MarkDispatched, PutBack, MarkUnreadable, Leased;
    var next := Apply(config, state, step);
    forall key <- next.table
      ensures key in next.history && next.table[key].content == next.history[key]
    {
      if key in state.table {
        DispatchedStays(config, state, step, key);
      } else {
        OnlyInsertsAdd(config, state, step, key);
      }
    }
  }

  lemma OnlyInsertsAdd(config: Config, state: State, step: Step, key: Key)
    requires Enabled(config, state, step) && key !in state.table && key in Apply(config, state, step).table
    ensures step.Insert? && step.key == key
  {
    hide ReadRow, Readable, Unreadable, Selects;
  }

  // A row is newly dispatched only by the mark of a record that was published.
  lemma NewlyDispatched(config: Config, state: State, step: Step, key: Key)
    requires Enabled(config, state, step) && key in Apply(config, state, step).table
    requires Apply(config, state, step).table[key].status == Dispatched
    requires key in state.table ==> state.table[key].status != Dispatched
    ensures step.Finish? && exists record <- state.Phase(step.dispatcher).published :: record.RowKey() == key
    ensures state.Phase(step.dispatcher).Busy?
  {
    hide ReadRow, Readable, Unreadable, Selects;
  }

  lemma StillAccepted(config: Config, state: State, step: Step, key: Key)
    requires Enabled(config, state, step) && key in state.history && Accepted(config, state, key)
    ensures key in Apply(config, state, step).history && Accepted(config, Apply(config, state, step), key)
  {
    hide ReadRow, Readable, Unreadable, Selects, MarkDispatched, PutBack, MarkUnreadable, Leased;
    var next := Apply(config, state, step);
    assert next.history[key] == state.history[key];
    var envelope :| envelope in state.log && ReadRow(config.formats, state.history[key]) == Some(envelope);
    assert envelope in next.log;
  }

  lemma DispatchedStep(config: Config, state: State, step: Step, key: Key)
    requires BrokerSafe(config, state) && Enabled(config, state, step)
    requires var next := Apply(config, state, step);
             key in next.table && next.table[key].status == Dispatched && key in next.history
    ensures Accepted(config, Apply(config, state, step), key)
  {
    hide ReadRow, Apply, Enabled, Written;
    if !(key in state.table && state.table[key].status == Dispatched) {
      NewlyDispatched(config, state, step, key);
      var phase := state.Phase(step.dispatcher);
      assert BatchReads(config, state, phase);
      var record :| record in phase.published && record.RowKey() == key;
      assert RecordReads(config, state.history, record);
    }
    assert Accepted(config, state, key);
    StillAccepted(config, state, step, key);
  }

  // Every step keeps the broker safe.
  lemma BrokerStep(config: Config, state: State, step: Step)
    requires config.Valid() && BrokerSafe(config, state) && Enabled(config, state, step)
    ensures BrokerSafe(config, Apply(config, state, step))
  {
    var next := Apply(config, state, step);
    forall dispatcher: nat
      ensures BatchReads(config, next, next.Phase(dispatcher))
    {
      BatchStep(config, state, step, dispatcher);
    }
    forall envelope <- next.sent
      ensures Written(config, next.history, envelope)
    {
      SentStep(config, state, step, envelope);
    }
    RowsStep(config, state, step);
    forall key <- next.table
      ensures next.table[key].status == Dispatched ==> Accepted(config, next, key)
    {
      if next.table[key].status == Dispatched {
        DispatchedStep(config, state, step, key);
      }
    }
    LogStep(config, state, step);
    hide Apply, Enabled, Written, Accepted, BatchReads;
  }

  lemma LogStep(config: Config, state: State, step: Step)
    requires BrokerSafe(config, state) && Enabled(config, state, step)
    ensures forall envelope <- Apply(config, state, step).log :: envelope in Apply(config, state, step).sent
  {
    hide ReadRow, Readable, Unreadable, Selects, Accepted, Written, BatchReads, MarkDispatched, PutBack;
  }

  lemma SentStep(config: Config, state: State, step: Step, envelope: Envelope)
    requires config.Valid() && BrokerSafe(config, state) && Enabled(config, state, step)
    requires envelope in Apply(config, state, step).sent
    ensures Written(config, Apply(config, state, step).history, envelope)
  {
    hide ReadRow, Readable, Unreadable, Selects, MarkDispatched, PutBack, MarkUnreadable, Leased;
    var key: Key;
    if envelope in state.sent {
      key :| key in state.history && ReadRow(config.formats, state.history[key]) == Some(envelope);
    } else {
      var record := state.Phase(step.dispatcher).todo[0];
      assert BatchReads(config, state, state.Phase(step.dispatcher));
      assert RecordReads(config, state.history, record);
      key := record.RowKey();
    }
    assert ReadRow(config.formats, Apply(config, state, step).history[key]) == Some(envelope);
  }

  lemma {:induction false} BrokerRun(config: Config, first: State, steps: seq<Step>, last: State)
    requires config.Valid() && BrokerSafe(config, first) && Run(config, first, steps, last)
    ensures BrokerSafe(config, last)
    decreases |steps|
  {
    if steps != [] {
      hide BrokerSafe, Enabled, Apply;
      BrokerStep(config, first, steps[0]);
      BrokerRun(config, Apply(config, first, steps[0]), steps[1..], last);
    }
  }

  // In every reachable state, the broker holds only what inserted rows read as, and a dispatched
  // row's envelope among it.
  lemma BrokerIsSafe(config: Config, state: State)
    requires config.Valid() && Reachable(config, state)
    ensures BrokerSafe(config, state)
  {
    var first: State, steps: seq<Step> :| Initial(first) && Run(config, first, steps, state);
    BrokerRun(config, first, steps, state);
  }

  // A row an envelope was inserted as only ever reaches the broker as that very envelope.
  lemma PublishedAsInserted(config: Config, state: State, key: Key, envelope: Envelope, published: Envelope)
    requires config.Valid() && Reachable(config, state)
    requires envelope.Valid(config.formats)
    requires key in state.history && state.history[key] == Split(config.formats, envelope)
    ensures ReadRow(config.formats, state.history[key]) == Some(published) <==> published == envelope
    ensures key in state.table && state.table[key].status == Dispatched ==> envelope in state.log
    ensures key in state.table ==> state.table[key].content == Split(config.formats, envelope)
  {
    BrokerIsSafe(config, state);
    RowRoundTrip(config.formats, envelope);
    hide ReadRow;
    if key in state.table && state.table[key].status == Dispatched {
      assert Accepted(config, state, key);
    }
  }

  // A dispatched row stays dispatched, whatever runs; only expiring removes a row, and no step
  // changes what a row holds.
  lemma DispatchedStays(config: Config, state: State, step: Step, key: Key)
    requires Enabled(config, state, step) && key in state.table
    ensures var next := Apply(config, state, step).table;
            && (key !in next <==> step.Expire? && key in step.expired)
            && (key in next ==> next[key].content == state.table[key].content)
            && (key in next && state.table[key].status == Dispatched ==> next[key].status == Dispatched)
  {
    hide ReadRow, Readable, Unreadable, Selects;
  }
}
