/** What the fence and the exclusion of the leases rest on. */
module FenceLimits {
  import opened Dispatching
  import opened Envelopes
  import opened Fencing
  import opened Options
  import opened Outbox
  import opened OutboxRows
  import opened Retry

  lemma {:induction false} RunOn(config: Config, first: State, steps: seq<Step>, middle: State, step: Step)
    requires Run(config, first, steps, middle) && Enabled(config, middle, step)
    ensures Run(config, first, steps + [step], Apply(config, middle, step))
    decreases |steps|
  {
    hide Enabled, Apply;
    if steps == [] {
      assert ([] + [step])[1..] == [];
    } else {
      RunOn(config, Apply(config, first, steps[0]), steps[1..], middle, step);
      assert (steps + [step])[1..] == steps[1..] + [step];
    }
  }

  // A step from a reachable state leads to a reachable state.
  lemma Reach(config: Config, state: State, step: Step)
    requires Reachable(config, state) && Enabled(config, state, step)
    ensures Reachable(config, Apply(config, state, step))
  {
    var first: State, steps: seq<Step> :| Initial(first) && Run(config, first, steps, state);
    RunOn(config, first, steps, state, step);
    hide Enabled, Apply;
  }

  // A mark matches its row only while the row has the attempts that its claim saw.
  ghost predicate FenceHolds(config: Config) {
    forall state: State, d: nat, lease |
      Reachable(config, state) && lease in state.Phase(d).Held() && Matches(state.table, lease.key, lease.token) ::
      state.table[lease.key].attempts == lease.attempts
  }

  // The fence holds exactly when no two statements see the same time, whatever the settings are.
  lemma FenceNeedsStrictTimes(config: Config, envelope: Envelope)
    requires config.Valid() && envelope.Valid(config.formats)
    ensures FenceHolds(config) <==> config.strict
  {
    hide Reachable;
    if config.strict {
      forall state: State, d: nat, lease |
        Reachable(config, state) && lease in state.Phase(d).Held() && Matches(state.table, lease.key, lease.token)
        ensures state.table[lease.key].attempts == lease.attempts
      {
        LeasesAreFenced(config, state);
        MatchingHold(config, state, d, lease);
      }
    } else {
      var state, lease := ResetBreaksTheFence(config, envelope);
      assert state.Phase(0).Held()[0] == lease;
    }
  }

  // The same for runs in which nobody sets a failed row back by hand.
  ghost predicate UnresetFenceHolds(config: Config) {
    forall state: State, d: nat, lease |
      Reachable(config, state) && state.resets == map[] && lease in state.Phase(d).Held()
      && Matches(state.table, lease.key, lease.token) ::
      state.table[lease.key].attempts == lease.attempts
  }

  // Without resets the fence holds exactly when no two statements see the same time or every retry has
  // a delay.
  lemma UnresetFenceNeedsDelays(config: Config, envelope: Envelope)
    requires config.Valid() && envelope.Valid(config.formats)
    ensures UnresetFenceHolds(config) <==> config.strict || Delays(config)
  {
    hide Reachable;
    if config.strict || Delays(config) {
      forall state: State, d: nat, lease |
        Reachable(config, state) && state.resets == map[] && lease in state.Phase(d).Held()
        && Matches(state.table, lease.key, lease.token)
        ensures state.table[lease.key].attempts == lease.attempts
      {
        LeasesAreFenced(config, state);
        MatchingHold(config, state, d, lease);
      }
    } else {
      var d: nat :| config.settings(d).retry.attempts > 1 && config.settings(d).retry.DelayAfter(1) <= 0;
      var holder := if d == 0 then 1 else 0;
      var state, lease := NoDelayBreaksTheFence(config, envelope, holder, d);
      assert state.Phase(holder).Held()[0] == lease;
    }
  }

  lemma MatchingHold(config: Config, state: State, d: nat, lease: Lease)
    requires Fenced(config, state) && lease in state.Phase(d).Held()
    requires config.strict || (Delays(config) && state.resets == map[])
    requires Matches(state.table, lease.key, lease.token)
    ensures state.table[lease.key].attempts == lease.attempts
  {
    assert LeaseOk(config, state, lease);
  }

  // The table holds one pending row, which is due.
  ghost predicate Waiting(config: Config, state: State, key: Key, row: Row, envelope: Envelope) {
    && Reachable(config, state) && state.statementAt <= state.now && state.table == map[key := row]
    && row.status == Pending && row.availableAt <= state.now
    && row.content.id == key.id == envelope.id && ReadRow(config.formats, row.content) == Some(envelope)
  }

  // A dispatcher claims the row.
  lemma ClaimOnly(config: Config, state: State, d: nat, key: Key, row: Row, envelope: Envelope)
    returns (claimed: State, record: Record)
    requires config.Valid() && Waiting(config, state, key, row, envelope) && state.Phase(d).Idle?
    requires StatementTime(config, state)
    ensures Reachable(config, claimed)
    ensures claimed.now == claimed.statementAt == state.now && claimed.resets == state.resets
    ensures record == Record(envelope, key.createdAt, row.attempts, state.now + config.settings(d).lease)
    ensures claimed.table == map[key := row.(availableAt := record.leasedUntil)]
    ensures claimed.Phase(d) == Busy(Local(config, state, d), [], [record], [], Resting)
    ensures forall e: nat | e != d :: claimed.Phase(e) == state.Phase(e)
  {
    hide ReadRow, Reachable;
    Reach(config, state, StartRound(d));
    var claiming := state.With(d, Claiming(Local(config, state, d)));
    record := Record(envelope, key.createdAt, row.attempts, state.now + config.settings(d).lease);
    OnlySelected(config, state, key, row, record);
    hide Selects, Readable, Unreadable, Leased;
    var step := Claim(d, {}, [key]);
    assert Selects(state.table, state.now, config.settings(d).batchSize, {}, [key]) by {
      SelectsOnly(state.table, state.now, config.settings(d).batchSize, key);
    }
    Reach(config, claiming, step);
    claimed := Apply(config, claiming, step);
  }

  lemma SelectsOnly(table: Table, now: int, limit: nat, key: Key)
    requires limit > 0 && table.Keys == {key} && table[key].status == Pending && table[key].availableAt <= now
    ensures Selects(table, now, limit, {}, [key])
  {
    assert Due(table, now) == {key};
  }

  lemma OnlySelected(config: Config, state: State, key: Key, row: Row, record: Record)
    requires state.table == map[key := row] && ReadRow(config.formats, row.content) == Some(record.envelope)
    requires record.createdAt == key.createdAt && record.attempts == row.attempts
    ensures Readable(config.formats, state.table, [key], record.leasedUntil) == [record]
    ensures Unreadable(config.formats, state.table, [key], record.leasedUntil) == []
    ensures Leased(state.table, [key], record.leasedUntil) == map[key := row.(availableAt := record.leasedUntil)]
  {
    hide ReadRow;
    assert [key][1..] == [];
  }

  // Its publish is refused at once, the row put back or failed, and the round ends.
  lemma RefuseOnly(config: Config, state: State, d: nat, key: Key, row: Row, record: Record) returns (refused: State)
    requires config.Valid() && !config.strict && Reachable(config, state) && state.statementAt <= state.now
    requires state.Phase(d) == Busy(Local(config, state, d), [], [record], [], Resting)
    requires state.table == map[key := row] && row.status == Pending && row.availableAt == record.leasedUntil
    requires record.RowKey() == key && record.attempts == row.attempts
    ensures Reachable(config, refused)
    ensures refused.now == refused.statementAt == state.now && refused.resets == state.resets
    ensures var retry := config.settings(d).retry;
            refused.table
            == map[key := if retry.IsLast(row.attempts + 1) then Row(row.content, Failed, state.now, row.attempts + 1)
                                        else Row(row.content, Pending, state.now + retry.DelayAfter(row.attempts + 1),
                                                 row.attempts + 1)]
    ensures refused.Phase(d).Idle? && forall e: nat | e != d :: refused.Phase(e) == state.Phase(e)
  {
    hide ReadRow, Reachable, PutBack, MarkDispatched;
    var rejected := Refuse(config, state, d, record);
    var step := Return(d, true);
    assert Leases([record])[0] == record.Hold();
    Reach(config, rejected, step);
    var returned := Apply(config, rejected, step);
    PutsBack(state.table, config.settings(d).retry, key, row, record, state.now);
    Reach(config, returned, GiveUp(d));
    refused := returned.With(d, Idle);
  }

  lemma PutsBack(table: Table, retry: RetryPolicy, key: Key, row: Row, record: Record, now: int)
    requires table == map[key := row] && row.status == Pending && row.availableAt == record.leasedUntil
    requires record.RowKey() == key && record.attempts == row.attempts
    ensures PutBack(table, retry, record, now)
            == map[key := if retry.IsLast(row.attempts + 1) then Row(row.content, Failed, now, row.attempts + 1)
                          else Row(row.content, Pending, now + retry.DelayAfter(row.attempts + 1), row.attempts + 1)]
  {
  }

  // A publish that the broker refuses at once.
  lemma Refuse(config: Config, state: State, d: nat, record: Record) returns (rejected: State)
    requires config.Valid() && Reachable(config, state)
    requires state.Phase(d) == Busy(Local(config, state, d), [], [record], [], Resting)
    ensures Reachable(config, rejected) && rejected.now == state.now && rejected.statementAt == state.statementAt
    ensures rejected.table == state.table && rejected.resets == state.resets
    ensures rejected.Phase(d) == Busy(Local(config, state, d), [], [record], [], Refused)
    ensures forall e: nat | e != d :: rejected.Phase(e) == state.Phase(e)
  {
    hide ReadRow, Reachable, Selects, Readable, Unreadable, Leased, MarkDispatched, PutBack;
    var claimedAt := Local(config, state, d);
    var sent := SendOnly(config, state, d, record);
    Reach(config, sent, Rejected(d));
    rejected := sent.With(d, Busy(claimedAt, [], [record], [], Refused));
  }

  lemma Wait(config: Config, state: State, to: int) returns (later: State)
    requires Reachable(config, state) && state.now <= to
    ensures Reachable(config, later) && later.now == to
    ensures later.statementAt == state.statementAt && later.table == state.table && later.resets == state.resets
    ensures forall d: nat :: later.Phase(d) == state.Phase(d)
  {
    hide Reachable;
    Reach(config, state, Tick(to));
    later := Apply(config, state, Tick(to));
  }

  lemma SplitId(formats: Formats, envelope: Envelope)
    ensures Split(formats, envelope).id == envelope.id
  {
  }

  // The only row, as it was inserted.
  lemma InsertOnly(config: Config, envelope: Envelope) returns (state: State, key: Key, row: Row)
    requires config.Valid() && envelope.Valid(config.formats)
    ensures Waiting(config, state, key, row, envelope) && row.attempts == 0
    ensures (forall d: nat :: state.Phase(d).Idle?) && state.resets == map[]
  {
    RowRoundTrip(config.formats, envelope);
    SplitId(config.formats, envelope);
    hide ReadRow, Split, Reachable;
    var start := State(0, 0, map[], map[], {}, [], map[], map[], map[]);
    StartReachable(config, start);
    key := Key(0, envelope.id);
    var content := Split(config.formats, envelope);
    Reach(config, start, Insert(key, content));
    row := Row(content, Pending, 0, 0);
    state := Apply(config, start, Insert(key, content));
  }

  lemma StartReachable(config: Config, start: State)
    requires Initial(start)
    ensures Reachable(config, start)
  {
    assert Run(config, start, [], start);
  }

  // A row that dispatcher 1 fails to publish, up to a number of attempts below its last one.
  lemma {:induction false} FailOften(config: Config, envelope: Envelope, attempts: nat)
    returns (state: State, key: Key, row: Row)
    requires config.Valid() && !config.strict && envelope.Valid(config.formats)
    requires attempts < config.settings(1).retry.Bound()
    ensures Waiting(config, state, key, row, envelope) && row.attempts == attempts
    ensures state.Phase(0).Idle? && state.Phase(1).Idle?
  {
    hide Waiting, ReadRow, Reachable;
    if attempts == 0 {
      state, key, row := InsertOnly(config, envelope);
    } else {
      var before, sameKey, last := FailOften(config, envelope, attempts - 1);
      key := sameKey;
      state, row := FailOnce(config, before, key, last, envelope);
    }
  }

  lemma FailOnce(config: Config, before: State, key: Key, last: Row, envelope: Envelope)
    returns (state: State, row: Row)
    requires config.Valid() && !config.strict && Waiting(config, before, key, last, envelope)
    requires before.Phase(0).Idle? && before.Phase(1).Idle? && !config.settings(1).retry.IsLast(last.attempts + 1)
    ensures Waiting(config, state, key, row, envelope) && row.attempts == last.attempts + 1
    ensures state.Phase(0).Idle? && state.Phase(1).Idle?
  {
    hide ReadRow, Reachable;
    var claimed, record := ClaimOnly(config, before, 1, key, last, envelope);
    var refused := RefuseOnly(config, claimed, 1, key, last.(availableAt := record.leasedUntil), record);
    var delay := config.settings(1).retry.DelayAfter(last.attempts + 1);
    row := Row(last.content, Pending, refused.now + delay, last.attempts + 1);
    state := Wait(config, refused, refused.now + delay);
  }

  // Where two claims meet at one time: one dispatcher's lease runs out at the very time at which
  // another one claims the row and fails to publish it.
  lemma ClaimedTwice(
    config: Config, before: State, key: Key, row: Row, envelope: Envelope, holder: nat, other: nat)
    returns (refused: State, lease: Lease)
    requires config.Valid() && !config.strict && Waiting(config, before, key, row, envelope)
    requires holder != other && before.Phase(holder).Idle? && before.Phase(other).Idle?
    ensures Reachable(config, refused) && lease == Lease(key, refused.now, row.attempts)
    ensures refused.statementAt <= refused.now && refused.Phase(holder).Held() == [lease]
    ensures refused.resets == before.resets
    ensures var retry := config.settings(other).retry;
            refused.table
            == map[key := if retry.IsLast(row.attempts + 1) then Row(row.content, Failed, refused.now, row.attempts + 1)
                                        else Row(row.content, Pending, refused.now + retry.DelayAfter(row.attempts + 1),
                                                 row.attempts + 1)]
  {
    hide ReadRow, Reachable;
    var claimed, first := ClaimOnly(config, before, holder, key, row, envelope);
    var due := row.(availableAt := first.leasedUntil);
    var later := Wait(config, claimed, first.leasedUntil);
    var again, second := ClaimOnly(config, later, other, key, due, envelope);
    refused := RefuseOnly(config, again, other, key, due.(availableAt := second.leasedUntil), second);
    lease := first.Hold();
    assert refused.Phase(holder) == Busy(Local(config, before, holder), [], [first], [], Resting);
    assert Leases([first]) == [lease];
  }

  // A late timer lets two dispatchers publish one row at the same time: the one whose lease is over
  // still waits for the broker when another one has claimed the row.
  lemma LateTimersOverlap(config: Config, envelope: Envelope) returns (state: State, key: Key)
    requires config.Valid() && envelope.Valid(config.formats)
    ensures Reachable(config, state) && Publishes(state, 0, key) && Publishes(state, 1, key)
    ensures Overdue(config, state, 0) && !Overdue(config, state, 1)
  {
    hide ReadRow, Reachable;
    var inserted, rowKey, row := InsertOnly(config, envelope);
    key := rowKey;
    var before := Wait(config, inserted, inserted.now + 1);
    var claimed, first := ClaimOnly(config, before, 0, key, row, envelope);
    var sent := SendOnly(config, claimed, 0, first);
    var later := Wait(config, sent, first.leasedUntil);
    var again, second := ClaimOnly(config, later, 1, key, row.(availableAt := first.leasedUntil), envelope);
    state := SendOnly(config, again, 1, second);
  }

  lemma SendOnly(config: Config, state: State, d: nat, record: Record) returns (sent: State)
    requires config.Valid() && Reachable(config, state)
    requires state.Phase(d) == Busy(Local(config, state, d), [], [record], [], Resting)
    ensures Reachable(config, sent) && sent.now == state.now && sent.statementAt == state.statementAt
    ensures sent.table == state.table && sent.resets == state.resets
    ensures sent.Phase(d) == state.Phase(d).(flight := InFlight)
    ensures forall e: nat | e != d :: sent.Phase(e) == state.Phase(e)
  {
    hide ReadRow, Reachable, Selects, Readable, Unreadable, Leased, MarkDispatched, PutBack;
    Reach(config, state, Send(d));
    sent := Apply(config, state, Send(d));
  }

  // Without strict times, a row that failed at the time a stale token names, and is reset by hand,
  // matches that token again.
  lemma ResetBreaksTheFence(config: Config, envelope: Envelope) returns (state: State, lease: Lease)
    requires config.Valid() && !config.strict && envelope.Valid(config.formats)
    ensures Reachable(config, state)
    ensures state.Phase(0).Held() == [lease] && Matches(state.table, lease.key, lease.token)
    ensures state.table[lease.key].attempts != lease.attempts
  {
    hide ReadRow, Reachable;
    var before, key, row := FailOften(config, envelope, config.settings(1).retry.Bound() - 1);
    var refused, held := ClaimedTwice(config, before, key, row, envelope, 0, 1);
    lease := held;
    Reach(config, refused, Reset(key));
    state := Apply(config, refused, Reset(key));
  }

  // Nor does it take a reset, without a retry delay: the failed publish then makes the row due at
  // the very time that the stale token names.
  lemma NoDelayBreaksTheFence(config: Config, envelope: Envelope, holder: nat, other: nat)
    returns (state: State, lease: Lease)
    requires config.Valid() && !config.strict && envelope.Valid(config.formats) && holder != other
    requires config.settings(other).retry.attempts > 1 && config.settings(other).retry.DelayAfter(1) == 0
    ensures Reachable(config, state) && state.resets == map[]
    ensures state.Phase(holder).Held() == [lease] && Matches(state.table, lease.key, lease.token)
    ensures state.table[lease.key].attempts != lease.attempts
  {
    hide ReadRow, Reachable;
    var before, key, row := InsertOnly(config, envelope);
    state, lease := ClaimedTwice(config, before, key, row, envelope, holder, other);
  }
}
