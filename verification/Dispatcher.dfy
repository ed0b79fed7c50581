/** The dispatcher's round, step by step, while everything else runs.

`World` holds the database, the broker and the clock. Every action of the round is one of the steps
of the transition system, and between any two of them the other dispatchers, the writers, the broker
and the clock run for a while, so what is shown of reachable states holds all through a round. */
module Dispatcher {
  import opened BrokerSafety
  import opened Dispatching
  import opened Envelopes
  import opened FenceLimits
  import opened Fencing
  import opened Options
  import opened Outbox
  import opened OutboxRows
  import opened Retry
  import opened Rounds
  import Rfc3339

  datatype Outcome = Confirmed | Errored | LeaseRanOut

  // The dispatcher's lease is over, by its own clock.
  predicate LeaseOver(config: Config, state: State, dispatcher: nat, claimedAt: int) {
    Local(config, state, dispatcher) - claimedAt >= config.settings(dispatcher).lease
  }

  lemma OtherStep(config: Config, state: State, step: Step, dispatcher: nat)
    requires Enabled(config, state, step) && Actor(step) != Some(dispatcher)
    ensures var next := Apply(config, state, step);
            && next.Phase(dispatcher) == state.Phase(dispatcher)
            && (forall envelope <- state.log :: envelope in next.log)
            && (forall envelope <- state.sent :: envelope in next.sent)
  {
    hide ReadRow, Readable, Unreadable, Selects, MarkDispatched, Outbox.PutBack, MarkUnreadable, Leased;
  }

  // The records of claimed rows come in the rows' order.
  lemma {:induction false} RecordsInOrder(config: Config, table: Table, keys: seq<Key>, until: int)
    requires config.Valid()
    requires forall key <- keys :: key in table && table[key].content.id == key.id
    requires forall i, j | 0 <= i < j < |keys| :: keys[i].id <= keys[j].id
    ensures var records := Readable(config.formats, table, keys, until);
            && |records| <= |keys|
            && (forall i, j | 0 <= i < j < |records| :: records[i].envelope.id <= records[j].envelope.id)
            && (forall key <- keys | ReadRow(config.formats, table[key].content).Some? ::
                  Outbox.Record(ReadRow(config.formats, table[key].content).value, key.createdAt, table[key].attempts,
                                until) in records)
  {
    hide ReadRow;
    if keys != [] {
      RecordsInOrder(config, table, keys[1..], until);
      var records := Readable(config.formats, table, keys[1..], until);
      if ReadRow(config.formats, table[keys[0]].content).Some? {
        ReadRowId(config.formats, table[keys[0]].content);
        forall record <- records
          ensures keys[0].id <= record.envelope.id
        {
          ClaimedRecords(config, table, keys[1..], until, record);
          var i :| 0 <= i < |keys[1..]| && keys[1..][i] == record.RowKey();
          assert keys[i + 1] == record.RowKey();
        }
      }
    }
  }

  // The records are exactly those of the claimed rows that read, with the rows' attempts and the token.
  ghost predicate HandsOut(config: Config, table: Table, keys: seq<Key>, until: int, records: seq<Record>) {
    && (forall key <- keys | key in table && ReadRow(config.formats, table[key].content).Some? ::
          Outbox.Record(ReadRow(config.formats, table[key].content).value, key.createdAt, table[key].attempts, until)
          in records)
    && (forall record <- records ::
          && record.RowKey() in keys && record.RowKey() in table && record.leasedUntil == until
          && ReadRow(config.formats, table[record.RowKey()].content) == Some(record.envelope)
          && record.attempts == table[record.RowKey()].attempts)
  }

  lemma ClaimHandsOut(config: Config, table: Table, keys: seq<Key>, until: int)
    requires config.Valid()
    requires forall key <- keys :: key in table && table[key].content.id == key.id
    requires forall i, j | 0 <= i < j < |keys| :: keys[i].id <= keys[j].id
    ensures HandsOut(config, table, keys, until, Readable(config.formats, table, keys, until))
  {
    RecordsInOrder(config, table, keys, until);
    hide ReadRow, Readable;
    forall record <- Readable(config.formats, table, keys, until)
      ensures record.RowKey() in keys && record.leasedUntil == until
      ensures record.attempts == table[record.RowKey()].attempts
      ensures ReadRow(config.formats, table[record.RowKey()].content) == Some(record.envelope)
    {
      ClaimedRecords(config, table, keys, until, record);
    }
  }

  lemma ReadFirst(config: Config, table: Table, keys: seq<Key>, until: int)
    requires keys != [] && forall key <- keys :: key in table
    ensures var read, rest := ReadRow(config.formats, table[keys[0]].content), keys[1..];
            && Readable(config.formats, table, keys, until)
               == (if read.Some?
                   then [Outbox.Record(read.value, keys[0].createdAt, table[keys[0]].attempts, until)]
                   else [])
                  + Readable(config.formats, table, rest, until)
            && Unreadable(config.formats, table, keys, until)
               == (if read.Some? then [] else [Lease(keys[0], until, table[keys[0]].attempts)])
                  + Unreadable(config.formats, table, rest, until)
  {
    hide ReadRow;
  }

  // The text of a time as the claim selects it.
  function TimeText(nanos: int): string {
    Rfc3339.Display(Rfc3339.FromUnixNanos(nanos))
  }

  lemma TimeReads(nanos: int)
    ensures Rfc3339.Parse(TimeText(nanos)).Some?
  {
    Rfc3339.TimeRoundTrip(Rfc3339.FromUnixNanos(nanos));
  }

  lemma ReadNothing(config: Config, table: Table, until: int)
    ensures Readable(config.formats, table, [], until) == [] && Unreadable(config.formats, table, [], until) == []
  {
  }

  ghost predicate InIdOrder(records: seq<Record>) {
    forall i, j | 0 <= i < j < |records| :: records[i].envelope.id <= records[j].envelope.id
  }

  lemma StillInOrder(before: seq<Record>, record: Record, after: seq<Record>)
    requires InIdOrder(before + [record] + after)
    ensures InIdOrder(before + after)
  {
    var all, rest := before + [record] + after, before + after;
    forall i | 0 <= i < |rest|
      ensures rest[i] == all[if i < |before| then i else i + 1]
    {
    }
  }

  // Once marked, no record's row is pending under its claim.
  lemma NoLongerMatches(table: Table, records: seq<Record>)
    ensures forall record <- records :: !Matches(MarkDispatched(table, records), record.RowKey(), record.leasedUntil)
  {
  }

  // The clock doesn't go back.
  lemma TimeGoesOn(config: Config, state: State, step: Step)
    requires Enabled(config, state, step)
    ensures state.now <= Apply(config, state, step).now
  {
    hide ReadRow, Readable, Unreadable, Selects, MarkDispatched, Outbox.PutBack, MarkUnreadable, Leased;
  }

  // A row's attempts change only by the mark of a refused publish or of an unreadable row: sending,
  // waiting and giving up count nothing.
  lemma OnlyMarksCount(config: Config, state: State, step: Step, key: Key)
    requires Enabled(config, state, step) && key in state.table && key in Apply(config, state, step).table
    requires !step.Insert?
    ensures Apply(config, state, step).table[key].attempts != state.table[key].attempts ==>
              (step.Return? || step.FailUnreadable?) && step.landed
  {
    hide ReadRow, Readable, Unreadable, Selects;
  }

  lemma IsReachable(config: Config, first: State, trace: seq<Step>, state: State)
    requires Initial(first) && Run(config, first, trace, state)
    ensures Reachable(config, state)
  {
  }

  lemma {:induction false} LowestExists(keys: set<Key>)
    requires keys != {}
    ensures exists lowest <- keys :: forall key <- keys :: lowest.id <= key.id
    decreases |keys|
  {
    var some :| some in keys;
    var rest := keys - {some};
    if rest != {} {
      LowestExists(rest);
      var lowest :| lowest in rest && forall key <- rest :: lowest.id <= key.id;
      assert keys == rest + {some};
      var first := if some.id <= lowest.id then some else lowest;
      assert first in keys && forall key <- keys :: first.id <= key.id;
    } else {
      assert keys == {some};
    }
  }

  lemma MarkFirst(dispatcher: nat, faults: Faults, lease: Lease, rest: seq<Lease>)
    ensures var reply := faults.unreadable(lease.key);
            && MarkSteps(dispatcher, faults, [lease] + rest)
               == [FailUnreadable(dispatcher, reply != Lost)]
                  + (if reply == Replied then MarkSteps(dispatcher, faults, rest) else [GiveUp(dispatcher)])
            && (AllMarked(faults, [lease] + rest) <==> reply == Replied && AllMarked(faults, rest))
  {
    assert ([lease] + rest)[1..] == rest;
  }

  // How far the reading of a claim's rows is: `left` of the unreadable ones are still to be marked.
  ghost predicate Sorting(
    config: Config, dispatcher: nat, faults: Faults, claimed: Table, keys: seq<Key>, until: int, i: nat,
    readable: seq<Record>, done: seq<Step>)
    requires i <= |keys| && forall key <- keys :: key in claimed
  {
    var all, left :=
      Unreadable(config.formats, claimed, keys, until), Unreadable(config.formats, claimed, keys[i..], until);
    && Readable(config.formats, claimed, keys, until) == readable + Readable(config.formats, claimed, keys[i..], until)
    && MarkSteps(dispatcher, faults, all) == done + MarkSteps(dispatcher, faults, left)
    && (AllMarked(faults, all) <==> AllMarked(faults, left))
  }

  lemma SortingStarts(config: Config, dispatcher: nat, faults: Faults, claimed: Table, keys: seq<Key>, until: int)
    requires forall key <- keys :: key in claimed
    ensures keys[0..] == keys && Sorting(config, dispatcher, faults, claimed, keys, until, 0, [], [])
  {
    assert keys[0..] == keys;
    hide ReadRow, MarkSteps, Readable, Unreadable;
  }

  // A row that reads leaves nothing to mark.
  lemma ReadsNext(
    config: Config, dispatcher: nat, faults: Faults, claimed: Table, keys: seq<Key>, until: int, i: nat,
    readable: seq<Record>, done: seq<Step>, envelope: Envelope)
    requires i < |keys| && forall key <- keys :: key in claimed
    requires Sorting(config, dispatcher, faults, claimed, keys, until, i, readable, done)
    requires ReadRow(config.formats, claimed[keys[i]].content) == Some(envelope)
    ensures Unreadable(config.formats, claimed, keys[i..], until)
            == Unreadable(config.formats, claimed, keys[i + 1..], until)
    ensures Sorting(config, dispatcher, faults, claimed, keys, until, i + 1,
                    readable + [Outbox.Record(envelope, keys[i].createdAt, claimed[keys[i]].attempts, until)], done)
  {
    hide ReadRow, Readable, Unreadable, MarkSteps, AllMarked;
    ReadFirst(config, claimed, keys[i..], until);
    assert keys[i..][1..] == keys[i + 1..];
  }

  // A row that doesn't is marked, and a mark that reports an error is the last.
  lemma FailsNext(
    config: Config, dispatcher: nat, faults: Faults, claimed: Table, keys: seq<Key>, until: int, i: nat,
    readable: seq<Record>, done: seq<Step>)
    requires i < |keys| && forall key <- keys :: key in claimed
    requires Sorting(config, dispatcher, faults, claimed, keys, until, i, readable, done)
    requires ReadRow(config.formats, claimed[keys[i]].content).None?
    ensures Unreadable(config.formats, claimed, keys[i..], until)
            == [Lease(keys[i], until, claimed[keys[i]].attempts)]
               + Unreadable(config.formats, claimed, keys[i + 1..], until)
    ensures var reply := faults.unreadable(keys[i]);
            var mark := FailUnreadable(dispatcher, reply != Lost);
            if reply == Replied
            then Sorting(config, dispatcher, faults, claimed, keys, until, i + 1, readable, done + [mark])
            else !AllMarked(faults, Unreadable(config.formats, claimed, keys, until))
                 && MarkSteps(dispatcher, faults, Unreadable(config.formats, claimed, keys, until))
                    == done + [mark] + [GiveUp(dispatcher)]
  {
    hide ReadRow, Readable, Unreadable, MarkSteps, AllMarked;
    ReadFirst(config, claimed, keys[i..], until);
    assert keys[i..][1..] == keys[i + 1..];
    MarkFirst(dispatcher, faults, Lease(keys[i], until, claimed[keys[i]].attempts),
              Unreadable(config.formats, claimed, keys[i + 1..], until));
  }

  lemma SortingEnds(
    config: Config, dispatcher: nat, faults: Faults, claimed: Table, keys: seq<Key>, until: int, readable: seq<Record>,
    done: seq<Step>)
    requires forall key <- keys :: key in claimed
    requires Sorting(config, dispatcher, faults, claimed, keys, until, |keys|, readable, done)
    ensures readable == Readable(config.formats, claimed, keys, until)
    ensures Unreadable(config.formats, claimed, keys[|keys|..], until) == []
    ensures done == MarkSteps(dispatcher, faults, Unreadable(config.formats, claimed, keys, until))
    ensures AllMarked(faults, Unreadable(config.formats, claimed, keys, until))
  {
    assert keys[|keys|..] == [];
    ReadNothing(config, claimed, until);
    assert MarkSteps(dispatcher, faults, []) == [];
    hide ReadRow, Readable, Unreadable;
  }

  lemma NoneFailed(config: Config, first: State, trace: seq<Step>, dispatcher: nat, claimed: Table, until: int)
    ensures AllFailed(config, first, trace, trace, dispatcher, claimed, [], until)
  {
  }

  // A row that reads isn't marked.
  lemma ReadFailsNot(
    config: Config, first: State, before: seq<Step>, trace: seq<Step>, dispatcher: nat, claimed: Table,
    keys: seq<Key>, key: Key, until: int)
    requires AllFailed(config, first, before, trace, dispatcher, claimed, keys, until)
    requires key in claimed && ReadRow(config.formats, claimed[key].content).Some?
    ensures AllFailed(config, first, before, trace, dispatcher, claimed, keys + [key], until)
  {
    hide ReadRow, MarkedFailed;
  }

  lemma OneMoreFailed(
    config: Config, first: State, before: seq<Step>, trace: seq<Step>, more: seq<Step>, dispatcher: nat, claimed: Table,
    keys: seq<Key>, key: Key, until: int, marked: Moment)
    requires AllFailed(config, first, before, trace, dispatcher, claimed, keys, until) && before <= trace <= more
    requires MarkedFailed(config, first, trace, more, dispatcher, marked, key, until)
    ensures AllFailed(config, first, before, more, dispatcher, claimed, keys + [key], until)
  {
    StillFailed(config, first, before, before, trace, more, dispatcher, claimed, keys, until);
    assert MarkedFailed(config, first, before, more, dispatcher, marked, key, until);
    hide ReadRow, MarkedFailed;
  }

  lemma NoTurns(dispatcher: nat, faults: Faults, records: seq<Record>, leaseOver: bool)
    ensures TurnsFit(faults, records, [], leaseOver) && Published(records, []) == []
    ensures TurnsSteps(dispatcher, faults, records, []) == [] && !Over([]) && InIdOrder([])
  {
  }

  // One more turn, after others that didn't end the round.
  lemma OneTurn(
    dispatcher: nat, faults: Faults, records: seq<Record>, turns: seq<Turn>, turn: Turn, before: bool, leaseOver: bool)
    requires TurnsFit(faults, records, turns, before) && |turns| < |records| && !Over(turns)
    requires TurnsFit(faults, [records[|turns|]], [turn], leaseOver) && (before ==> leaseOver)
    ensures var more := turns + [turn];
            && TurnsFit(faults, records, more, leaseOver) && (Over(more) <==> Ends(turn))
            && Published(records, more) == Published(records, turns) + (if turn == Sent then [records[|turns|]] else [])
            && TurnsSteps(dispatcher, faults, records, more)
               == TurnsSteps(dispatcher, faults, records, turns) + TurnSteps(dispatcher, faults, records[|turns|], turn)
  {
    hide TurnSteps;
    var more := turns + [turn];
    assert more[..|turns|] == turns;
    assert [turn][0] == turn && [records[|turns|]][0] == records[|turns|];
    assert forall i | 0 <= i < |turns| :: more[i] == turns[i];
  }

  lemma LaterOver(config: Config, before: State, after: State, dispatcher: nat, claimedAt: int)
    requires before.now <= after.now
    ensures LeaseOver(config, before, dispatcher, claimedAt) ==> LeaseOver(config, after, dispatcher, claimedAt)
  {
  }

  lemma StillOver(faults: Faults, records: seq<Record>, turns: seq<Turn>, before: bool, leaseOver: bool)
    requires TurnsFit(faults, records, turns, before) && (before ==> leaseOver)
    ensures TurnsFit(faults, records, turns, leaseOver)
  {
  }

  // What is published of records in order is in order.
  lemma {:induction false} InOrder(records: seq<Record>, turns: seq<Turn>)
    requires |turns| <= |records| && InIdOrder(records)
    ensures InIdOrder(Published(records, turns)) && |Published(records, turns)| <= |turns|
    ensures forall record <- Published(records, turns) :: record in records[..|turns|]
  {
    if turns != [] {
      var last := |turns| - 1;
      InOrder(records, turns[..last]);
      forall record <- Published(records, turns[..last])
        ensures record in records[..|turns|] && record.envelope.id <= records[last].envelope.id
      {
        var i :| 0 <= i < last && records[i] == record;
        assert records[..|turns|][i] == record;
      }
      assert records[..|turns|][last] == records[last];
    }
  }

  class World {
    const config: Config
    // The run so far, from a state with nothing in it.
    ghost const first: State
    ghost var trace: seq<Step>
    var state: State

    ghost predicate Valid()
      reads this
    {
      config.Valid() && Initial(first) && Run(config, first, trace, state)
    }

    constructor (config: Config, now: int)
      requires config.Valid()
      ensures Valid() && this.config == config && state == first && trace == []
    {
      this.config := config;
      var start := State(now, now, map[], map[], {}, [], map[], map[], map[]);
      state, first, trace := start, start, [];
    }

    method Do(step: Step)
      requires Valid() && Enabled(config, state, step)
      modifies this
      ensures Valid() && state == Apply(config, old(state), step) && trace == old(trace) + [step]
    {
      RunOn(config, first, trace, state, step);
      trace := trace + [step];
      state := Apply(config, state, step);
    }

    // Everything else runs: any steps of the others, in any order.
    method Others(dispatcher: nat)
      requires Valid()
      modifies this
      ensures Valid() && Did(old(trace), trace, dispatcher, [])
      ensures state.Phase(dispatcher) == old(state).Phase(dispatcher) && old(state).now <= state.now
      ensures forall envelope <- old(state).log :: envelope in state.log
      ensures forall envelope <- old(state).sent :: envelope in state.sent
    {
      hide Did, Run, Initial;
      DidNothing(trace, dispatcher);
      var schedule: seq<Step> := *;
      for i := 0 to |schedule|
        invariant Valid() && Did(old(trace), trace, dispatcher, [])
        invariant state.Phase(dispatcher) == old(state).Phase(dispatcher) && old(state).now <= state.now
        invariant forall envelope <- old(state).log :: envelope in state.log
        invariant forall envelope <- old(state).sent :: envelope in state.sent
      {
        if Actor(schedule[i]) != Some(dispatcher) && Enabled(config, state, schedule[i]) {
          OtherStep(config, state, schedule[i], dispatcher);
          TimeGoesOn(config, state, schedule[i]);
          DidOne(trace, schedule[i], dispatcher);
          DidThen(old(trace), trace, trace + [schedule[i]], dispatcher, [], []);
          Do(schedule[i]);
        }
      }
    }

    // The others run, and the clock moves past the last statement.
    method OthersThenStatement(dispatcher: nat)
      requires Valid()
      modifies this
      ensures Valid() && StatementTime(config, state) && Did(old(trace), trace, dispatcher, [])
      ensures state.Phase(dispatcher) == old(state).Phase(dispatcher) && old(state).now <= state.now
      ensures forall envelope <- old(state).log :: envelope in state.log
    {
      hide Did, Run, Initial;
      Others(dispatcher);
      if !StatementTime(config, state) {
        IsReachable(config, first, trace, state);
        LeasesAreFenced(config, state);
        var tick := Tick(state.now + 1);
        OtherStep(config, state, tick, dispatcher);
        DidOne(trace, tick, dispatcher);
        DidThen(old(trace), trace, trace + [tick], dispatcher, [], []);
        Do(tick);
      }
    }

    // A step of the dispatcher's own.
    method Act(dispatcher: nat, step: Step)
      requires Valid() && Enabled(config, state, step) && Actor(step) == Some(dispatcher)
      modifies this
      ensures Valid() && state == Apply(config, old(state), step) && old(state).now <= state.now
      ensures trace == old(trace) + [step] && Did(old(trace), trace, dispatcher, [step])
      ensures Was(config, first, trace, Moment(|old(trace)|, old(state)), step)
    {
      TimeGoesOn(config, state, step);
      hide Run, Initial;
      DidOne(trace, step, dispatcher);
      assert (trace + [step])[..|trace|] == trace;
      Do(step);
    }

    // The rows that are due and that no other statement has locked, lowest ids first, up to the limit.
    method Select(table: Table, now: int, limit: nat, locked: set<Key>) returns (keys: seq<Key>)
      ensures Selects(table, now, limit, locked, keys)
    {
      var left := Due(table, now) - locked;
      ghost var free := left;
      keys := [];
      while left != {} && |keys| < limit
        invariant |keys| <= limit && left <= free
        invariant forall key <- keys :: key in free && key !in left
        invariant forall i, j | 0 <= i < j < |keys| :: keys[i] != keys[j] && keys[i].id <= keys[j].id
        invariant forall key <- free :: key in keys || key in left
        invariant forall taken <- keys, key <- left :: taken.id <= key.id
        decreases |left|
      {
        LowestExists(left);
        var lowest :| lowest in left && forall key <- left :: lowest.id <= key.id;
        keys := keys + [lowest];
        left := left - {lowest};
      }
    }

    // The claim's statement, with what it found.
    method ClaimRows(dispatcher: nat, locked: set<Key>)
      returns (keys: seq<Key>, claimed: Table, until: int, ghost moment: Moment)
      requires Valid() && state.Phase(dispatcher).Claiming? && StatementTime(config, state)
      modifies this
      ensures Valid() && old(state).now <= state.now && |keys| <= config.settings(dispatcher).batchSize
      ensures forall key <- keys :: key in claimed && claimed[key].content.id == key.id
      ensures forall i, j | 0 <= i < j < |keys| :: keys[i].id <= keys[j].id
      ensures claimed == moment.state.table && until == moment.state.now + config.settings(dispatcher).lease
      ensures Selects(claimed, moment.state.now, config.settings(dispatcher).batchSize, locked, keys)
      ensures Was(config, first, trace, moment, Step.Claim(dispatcher, locked, keys))
      ensures Did(old(trace), trace, dispatcher, [Step.Claim(dispatcher, locked, keys)])
      ensures state.Phase(dispatcher)
              == Busy(old(state).Phase(dispatcher).claimedAt, Unreadable(config.formats, claimed, keys, until),
                      Readable(config.formats, claimed, keys, until), [], Resting)
    {
      hide ReadRow, Readable, Unreadable, Run, Initial, Leased, Did, Was;
      keys := Select(state.table, state.now, config.settings(dispatcher).batchSize, locked);
      claimed, until := state.table, state.now + config.settings(dispatcher).lease;
      moment := Moment(|trace|, state);
      IsReachable(config, first, trace, state);
      LeasesAreFenced(config, state);
      SelectedRows(state, Step.Claim(dispatcher, locked, keys), config);
      Act(dispatcher, Step.Claim(dispatcher, locked, keys));
    }

    // The first row that doesn't read is marked failed, or the database fails and the claim with it.
    // `marked` is when.
    method FailFirst(dispatcher: nat, faults: Faults) returns (error: bool, ghost marked: Moment)
      requires Valid() && state.Phase(dispatcher).Busy? && state.Phase(dispatcher).unreadable != []
      requires state.Phase(dispatcher).flight == Resting
      modifies this
      ensures Valid() && old(state).now <= state.now
      ensures var before := old(state).Phase(dispatcher);
              var reply := faults.unreadable(before.unreadable[0].key);
              && error == (reply != Replied)
              && state.Phase(dispatcher) == (if error then Idle else before.(unreadable := before.unreadable[1..]))
              && Did(old(trace), trace, dispatcher,
                     [FailUnreadable(dispatcher, reply != Lost)] + if error then [GiveUp(dispatcher)] else [])
              && (!error ==> MarkedFailed(config, first, old(trace), trace, dispatcher, marked,
                                          before.unreadable[0].key, before.unreadable[0].token))
    {
      hide Run, Initial, Did, Was, FailsRow;
      ghost var began := trace;
      OthersThenStatement(dispatcher);
      var reply := faults.unreadable(state.Phase(dispatcher).unreadable[0].key);
      ghost var others := trace;
      DidGrows(began, others, dispatcher, []);
      var mark := FailUnreadable(dispatcher, reply != Lost);
      marked := Moment(|trace|, state);
      UnreadableFails(config, state, mark);
      Act(dispatcher, mark);
      DidNext(old(trace), others, trace, dispatcher, [mark]);
      error := reply != Replied;
      assert [mark] + [] == [mark];
      if error {
        ghost var last := trace;
        Act(dispatcher, GiveUp(dispatcher));
        DidThen(old(trace), last, trace, dispatcher, [mark], [GiveUp(dispatcher)]);
      }
    }

    // Reads the claimed rows in order, and marks those that don't read.
    method Sort(dispatcher: nat, claimedAt: int, keys: seq<Key>, claimed: Table, until: int, faults: Faults)
      returns (records: Option<seq<Record>>)
      requires Valid() && forall key <- keys :: key in claimed
      requires state.Phase(dispatcher)
               == Busy(claimedAt, Unreadable(config.formats, claimed, keys, until),
                       Readable(config.formats, claimed, keys, until), [], Resting)
      modifies this
      ensures Valid() && old(state).now <= state.now
      ensures Did(old(trace), trace, dispatcher,
                  MarkSteps(dispatcher, faults, Unreadable(config.formats, claimed, keys, until)))
      ensures records == (if AllMarked(faults, Unreadable(config.formats, claimed, keys, until))
                          then Some(Readable(config.formats, claimed, keys, until)) else None)
      ensures state.Phase(dispatcher)
              == if records.None? then Idle else Busy(claimedAt, [], records.value, [], Resting)
      ensures records.Some? ==> AllFailed(config, first, old(trace), trace, dispatcher, claimed, keys, until)
    {
      hide *;
      NoneFailed(config, first, trace, dispatcher, claimed, until);
      ghost var all, done := Readable(config.formats, claimed, keys, until), [];
      var readable := [];
      SortingStarts(config, dispatcher, faults, claimed, keys, until);
      DidNothing(trace, dispatcher);
      for i := 0 to |keys|
        invariant Valid() && old(state).now <= state.now && Did(old(trace), trace, dispatcher, done)
        invariant state.Phase(dispatcher)
                  == Busy(claimedAt, Unreadable(config.formats, claimed, keys[i..], until), all, [], Resting)
        invariant Sorting(config, dispatcher, faults, claimed, keys, until, i, readable, done)
        invariant old(trace) <= trace
        invariant AllFailed(config, first, old(trace), trace, dispatcher, claimed, keys[..i], until)
      {
        assert keys[..i + 1] == keys[..i] + [keys[i]];
        TimeReads(keys[i].createdAt);
        TimeReads(until);
        var row := claimed[keys[i]];
        var record := OutboxRows.Record(config.formats, row.content, TimeText(keys[i].createdAt), TimeText(until));
        match record {
          case Ok(read) =>
            ReadsNext(config, dispatcher, faults, claimed, keys, until, i, readable, done, read.envelope);
            ReadFailsNot(config, first, old(trace), trace, dispatcher, claimed, keys[..i], keys[i], until);
            readable := readable + [Outbox.Record(read.envelope, keys[i].createdAt, row.attempts, until)];
          case Err(_) =>
            FailsNext(config, dispatcher, faults, claimed, keys, until, i, readable, done);
            ghost var before := trace;
            ghost var mark := FailUnreadable(dispatcher, faults.unreadable(keys[i]) != Lost);
            var error;
            ghost var marked;
            error, marked := FailFirst(dispatcher, faults);
            if error {
              DidThen(old(trace), before, trace, dispatcher, done, [mark] + [GiveUp(dispatcher)]);
              assert done + ([mark] + [GiveUp(dispatcher)]) == done + [mark] + [GiveUp(dispatcher)];
              return None;
            }
            assert [mark] + [] == [mark];
            DidThen(old(trace), before, trace, dispatcher, done, [mark]);
            DidGrows(before, trace, dispatcher, [mark]);
            OneMoreFailed(
              config, first, old(trace), before, trace, dispatcher, claimed, keys[..i], keys[i], until, marked);
            done := done + [mark];
        }
      }
      SortingEnds(config, dispatcher, faults, claimed, keys, until, readable, done);
      assert keys[..|keys|] == keys;
      return Some(readable);
    }

    // Reads the clock before the claim.
    method Start(dispatcher: nat) returns (claimedAt: int, ghost moment: Moment)
      requires Valid() && state.Phase(dispatcher).Idle?
      modifies this
      ensures Valid() && old(state).now <= state.now && state.Phase(dispatcher) == Claiming(claimedAt)
      ensures Did(old(trace), trace, dispatcher, [StartRound(dispatcher)])
      ensures Was(config, first, trace, moment, StartRound(dispatcher))
              && claimedAt == Local(config, moment.state, dispatcher)
    {
      hide Run, Initial, Did, Was;
      Others(dispatcher);
      claimedAt := Local(config, state, dispatcher);
      ghost var others := trace;
      moment := Moment(|trace|, state);
      Act(dispatcher, StartRound(dispatcher));
      DidNext(old(trace), others, trace, dispatcher, [StartRound(dispatcher)]);
    }

    // Claims rows and marks those that don't read; none when the database fails on the way. It takes
    // no other step, so what it took then stays leased. `moment` and `keys` tell when it claimed, and
    // which rows.
    method Claim(dispatcher: nat, faults: Faults)
      returns (records: Option<seq<Record>>, ghost moment: Moment, ghost keys: seq<Key>)
      requires Valid() && state.Phase(dispatcher).Claiming?
      modifies this
      ensures Valid() && old(state).now <= state.now
      ensures forall key <- keys :: key in moment.state.table
      ensures ClaimRight(config, first, trace, dispatcher, faults, moment, keys, records)
      ensures Did(old(trace), trace, dispatcher, StepsOfClaim(config, dispatcher, faults, moment, keys))
      ensures records.None? ==> state.Phase(dispatcher).Idle?
      ensures records.Some? ==>
                && state.Phase(dispatcher)
                   == Busy(old(state).Phase(dispatcher).claimedAt, [], records.value, [], Resting)
                && |records.value| <= config.settings(dispatcher).batchSize
                && InIdOrder(records.value)
                && AllFailed(config, first, old(trace), trace, dispatcher, moment.state.table, keys,
                             moment.state.now + config.settings(dispatcher).lease)
                && HandsOut(config, moment.state.table, keys, moment.state.now + config.settings(dispatcher).lease,
                            records.value)
    {
      hide ReadRow, Readable, Unreadable, Run, Initial, Did, Was, MarkSteps, AllMarked, Selects, AllFailed,
        HandsOut;
      OthersThenStatement(dispatcher);
      ghost var others := trace;
      if faults.claim == Lost {
        moment, keys := Moment(|trace|, state), [];
        Act(dispatcher, GiveUp(dispatcher));
        DidNext(old(trace), others, trace, dispatcher, [GiveUp(dispatcher)]);
        return None, moment, keys;
      }
      var rows, claimed, until;
      rows, claimed, until, moment := ClaimRows(dispatcher, faults.locked);
      keys := rows;
      ghost var claim := Step.Claim(dispatcher, faults.locked, rows);
      ghost var taken := trace;
      DidNext(old(trace), others, taken, dispatcher, [claim]);
      RecordsInOrder(config, claimed, rows, until);
      ClaimHandsOut(config, claimed, rows, until);
      if faults.claim == LandedUnsaid {
        Act(dispatcher, GiveUp(dispatcher));
        DidThen(old(trace), taken, trace, dispatcher, [claim], [GiveUp(dispatcher)]);
        StillWas(config, first, taken, trace, moment, claim);
        return None, moment, keys;
      }
      records := Sort(dispatcher, state.Phase(dispatcher).claimedAt, rows, claimed, until, faults);
      DidThen(old(trace), taken, trace, dispatcher, [claim],
              MarkSteps(dispatcher, faults, Unreadable(config.formats, claimed, rows, until)));
      DidGrows(taken, trace, dispatcher,
               MarkSteps(dispatcher, faults, Unreadable(config.formats, claimed, rows, until)));
      if records.Some? {
        DidGrows(old(trace), taken, dispatcher, [claim]);
        StillFailed(config, first, old(trace), taken, trace, trace, dispatcher, claimed, rows, until);
      }
      StillWas(config, first, taken, trace, moment, claim);
    }

    // Whether to publish the next record: not on a stop, nor once the lease is over.
    method GoesOn(dispatcher: nat, faults: Faults) returns (goesOn: bool)
      requires Valid() && state.Phase(dispatcher).Busy? && state.Phase(dispatcher).unreadable == []
      requires state.Phase(dispatcher).flight == Resting && state.Phase(dispatcher).todo != []
      modifies this
      ensures Valid() && old(state).now <= state.now
      ensures forall envelope <- old(state).log :: envelope in state.log
      ensures Did(old(trace), trace, dispatcher, if goesOn then [] else [StopBatch(dispatcher)])
      ensures var before := old(state).Phase(dispatcher);
              && state.Phase(dispatcher) == (if goesOn then before else before.(todo := [], flight := Resting))
              && (goesOn <==>
                    && !faults.stops(before.todo[0])
                    && state.now + config.skew(dispatcher) - before.claimedAt < config.settings(dispatcher).lease)
    {
      hide Run, Initial, Did, Was;
      Others(dispatcher);
      ghost var others := trace;
      goesOn := !faults.stops(state.Phase(dispatcher).todo[0])
        && !LeaseOver(config, state, dispatcher, state.Phase(dispatcher).claimedAt);
      if !goesOn {
        Act(dispatcher, StopBatch(dispatcher));
        DidNext(old(trace), others, trace, dispatcher, [StopBatch(dispatcher)]);
      }
    }

    // Time passes until the lease is over, at the least.
    method OutlastLease(dispatcher: nat)
      requires Valid() && state.Phase(dispatcher).Busy?
      modifies this
      ensures Valid() && old(state).now <= state.now && Did(old(trace), trace, dispatcher, [])
      ensures state.Phase(dispatcher) == old(state).Phase(dispatcher) && Overdue(config, state, dispatcher)
      ensures state.log == old(state).log
    {
      hide Run, Initial, Did;
      DidNothing(trace, dispatcher);
      var end := Deadline(config, state, dispatcher) - config.skew(dispatcher);
      if state.now < end {
        DidOne(trace, Tick(end), dispatcher);
        Do(Tick(end));
      }
    }

    // Waits for the broker, and gives it up only once the lease is over. Whatever comes of it, no step
    // of this counts an attempt.
    method Publish(dispatcher: nat, faults: Faults) returns (outcome: Outcome)
      requires Valid() && state.Phase(dispatcher).Busy? && state.Phase(dispatcher).unreadable == []
      requires state.Phase(dispatcher).flight == Resting && state.Phase(dispatcher).todo != []
      requires !LeaseOver(config, state, dispatcher, state.Phase(dispatcher).claimedAt)
      modifies this
      ensures Valid() && old(state).now <= state.now
      ensures forall envelope <- old(state).log :: envelope in state.log
      ensures Did(old(trace), trace, dispatcher,
                  match outcome
                  case Confirmed => [Send(dispatcher), Accepted(dispatcher)]
                  case Errored => [Send(dispatcher), Rejected(dispatcher)]
                  case LeaseRanOut => [Send(dispatcher), TimeOut(dispatcher)])
      ensures var record := old(state).Phase(dispatcher).todo[0];
              outcome == if faults.slow(record) then LeaseRanOut
                         else if faults.refuses(record) then Errored
                         else Confirmed
      ensures var before := old(state).Phase(dispatcher);
              match outcome
              case Confirmed =>
                && before.todo[0].envelope in state.log
                && state.Phase(dispatcher)
                   == before.(todo := before.todo[1..], published := before.published + [before.todo[0]])
              case Errored =>
                state.Phase(dispatcher) == before.(flight := Refused)
              case LeaseRanOut =>
                && state.now + config.skew(dispatcher) - before.claimedAt >= config.settings(dispatcher).lease
                && state.Phase(dispatcher) == before.(todo := [], flight := Resting)
    {
      hide Run, Initial, Did, Was, ReadRow, Readable, Unreadable, Selects, MarkDispatched, Outbox.PutBack,
        MarkUnreadable, Leased, Matches;
      var record := state.Phase(dispatcher).todo[0];
      Act(dispatcher, Send(dispatcher));
      ghost var sent := trace;
      Others(dispatcher);
      DidThen(old(trace), sent, trace, dispatcher, [Send(dispatcher)], []);
      assert [Send(dispatcher)] + [] == [Send(dispatcher)];
      sent := trace;
      if faults.slow(record) {
        OutlastLease(dispatcher);
        DidThen(old(trace), sent, trace, dispatcher, [Send(dispatcher)], []);
        sent := trace;
        Act(dispatcher, TimeOut(dispatcher));
        DidThen(old(trace), sent, trace, dispatcher, [Send(dispatcher)], [TimeOut(dispatcher)]);
        assert [Send(dispatcher)] + [TimeOut(dispatcher)] == [Send(dispatcher), TimeOut(dispatcher)];
        return LeaseRanOut;
      }
      if faults.refuses(record) {
        Act(dispatcher, Rejected(dispatcher));
        DidThen(old(trace), sent, trace, dispatcher, [Send(dispatcher)], [Rejected(dispatcher)]);
        assert [Send(dispatcher)] + [Rejected(dispatcher)] == [Send(dispatcher), Rejected(dispatcher)];
        return Errored;
      }
      if record.envelope !in state.log {
        DidOne(trace, Store(record.envelope), dispatcher);
        DidThen(old(trace), sent, trace + [Store(record.envelope)], dispatcher, [Send(dispatcher)], []);
        Do(Store(record.envelope));
        sent := trace;
      }
      Act(dispatcher, Accepted(dispatcher));
      DidThen(old(trace), sent, trace, dispatcher, [Send(dispatcher)], [Accepted(dispatcher)]);
      assert [Send(dispatcher)] + [Accepted(dispatcher)] == [Send(dispatcher), Accepted(dispatcher)];
      return Confirmed;
    }

    // Marks the row whose publish was refused, for its retry or as failed. `before` is the state that the
    // mark was made in.
    method PutBack(dispatcher: nat, faults: Faults) returns (ghost before: State)
      requires Valid() && state.Phase(dispatcher).Busy?
      requires state.Phase(dispatcher).flight == Refused && state.Phase(dispatcher).todo != []
      modifies this
      ensures Valid() && old(state).now <= state.now
      ensures forall envelope <- old(state).log :: envelope in state.log
      ensures state.Phase(dispatcher)
              == old(state).Phase(dispatcher).(todo := old(state).Phase(dispatcher).todo[1..], flight := Resting)
      ensures var record, retry := old(state).Phase(dispatcher).todo[0], config.settings(dispatcher).retry;
              var landed := faults.putBack(record) != Lost;
              && Did(old(trace), trace, dispatcher, [Return(dispatcher, landed)])
              && |trace| > 0 && Was(config, first, trace, Moment(|trace| - 1, before), Return(dispatcher, landed))
      ensures var record, retry := old(state).Phase(dispatcher).todo[0], config.settings(dispatcher).retry;
              var key, attempt := Key(record.createdAt, record.envelope.id), record.attempts + 1;
              if faults.putBack(record) != Lost && key in before.table && before.table[key].status == Pending
                 && before.table[key].availableAt == record.leasedUntil
              then
                var row := before.table[key];
                state.table
                == before.table[key :=
                     if attempt >= retry.attempts
                     then row.(status := Failed, attempts := row.attempts + 1, availableAt := before.now)
                     else row.(attempts := row.attempts + 1, availableAt := before.now + retry.DelayAfter(attempt))]
              else state.table == before.table
    {
      hide Run, Initial, Did, Was;
      OthersThenStatement(dispatcher);
      var record, retry := state.Phase(dispatcher).todo[0], config.settings(dispatcher).retry;
      before := state;
      ghost var others := trace;
      var mark := Return(dispatcher, faults.putBack(record) != Lost);
      Act(dispatcher, mark);
      DidNext(old(trace), others, trace, dispatcher, [mark]);
    }

    // One turn of the round's loop: publish the next record, or stop.
    method Next(dispatcher: nat, faults: Faults) returns (turn: Turn)
      requires Valid() && state.Phase(dispatcher).Busy? && state.Phase(dispatcher).unreadable == []
      requires state.Phase(dispatcher).flight == Resting && state.Phase(dispatcher).todo != []
      modifies this
      ensures Valid() && old(state).now <= state.now
      ensures forall envelope <- old(state).log :: envelope in state.log
      ensures var before := old(state).Phase(dispatcher);
              && Did(old(trace), trace, dispatcher, TurnSteps(dispatcher, faults, before.todo[0], turn))
              && state.Phase(dispatcher) == (
                   match turn
                   case Sent => before.(todo := before.todo[1..], published := before.published + [before.todo[0]])
                   case Returned => before.(todo := before.todo[1..])
                   case _ => before.(todo := []))
              && (turn == Sent ==> before.todo[0].envelope in state.log)
              && TurnsFit(faults, [before.todo[0]], [turn], LeaseOver(config, state, dispatcher, before.claimedAt))
    {
      hide Run, Initial, Did, Was;
      var record := state.Phase(dispatcher).todo[0];
      var goesOn := GoesOn(dispatcher, faults);
      if !goesOn {
        return Stopped;
      }
      ghost var before := trace;
      var outcome := Publish(dispatcher, faults);
      match outcome
      case Confirmed =>
        DidNext(old(trace), before, trace, dispatcher, [Send(dispatcher), Accepted(dispatcher)]);
        return Sent;
      case LeaseRanOut =>
        DidNext(old(trace), before, trace, dispatcher, [Send(dispatcher), TimeOut(dispatcher)]);
        return RanOut;
      case Errored =>
        DidNext(old(trace), before, trace, dispatcher, [Send(dispatcher), Rejected(dispatcher)]);
        before := trace;
        ghost var marked := PutBack(dispatcher, faults);
        ghost var mark := Return(dispatcher, faults.putBack(record) != Lost);
        DidThen(old(trace), before, trace, dispatcher, [Send(dispatcher), Rejected(dispatcher)], [mark]);
        assert [Send(dispatcher), Rejected(dispatcher)] + [mark] == [Send(dispatcher), Rejected(dispatcher), mark];
        return Returned;
    }

    // Marks what was published, unless that is nothing. `before` is the state that the mark was made in.
    method Mark(dispatcher: nat, published: seq<Record>, faults: Faults) returns (marked: bool, ghost before: State)
      requires Valid() && state.Phase(dispatcher).Busy?
      requires state.Phase(dispatcher) == Busy(state.Phase(dispatcher).claimedAt, [], [], published, Resting)
      modifies this
      ensures Valid() && old(state).now <= state.now && state.Phase(dispatcher).Idle?
      ensures forall envelope <- old(state).log :: envelope in state.log
      ensures Did(old(trace), trace, dispatcher,
                  [if published == [] then GiveUp(dispatcher) else Finish(dispatcher, faults.finish != Lost)])
      ensures marked == (published != [] && faults.finish == Replied)
      ensures marked ==> forall record <- published :: !Matches(state.table, record.RowKey(), record.leasedUntil)
      ensures published != [] ==>
                && |trace| > 0
                && Was(config, first, trace, Moment(|trace| - 1, before), Finish(dispatcher, faults.finish != Lost))
                && if faults.finish != Lost then DispatchesRows(before.table, state.table, published)
                   else state.table == before.table
    {
      hide Run, Initial, Did, Was, MarkDispatched, DispatchesRows;
      before := state;
      if published == [] {
        Act(dispatcher, GiveUp(dispatcher));
        return false, before;
      }
      OthersThenStatement(dispatcher);
      NoLongerMatches(state.table, published);
      ghost var others := trace;
      before := state;
      PublishedDispatched(config, state, Finish(dispatcher, faults.finish != Lost));
      var finish := Finish(dispatcher, faults.finish != Lost);
      Act(dispatcher, finish);
      DidNext(old(trace), others, trace, dispatcher, [finish]);
      return faults.finish == Replied, before;
    }

    // Gives the claimed records their turns, in order, until one ends the round.
    method TakeTurns(dispatcher: nat, records: seq<Record>, faults: Faults)
      returns (published: seq<Record>, ghost turns: seq<Turn>)
      requires Valid() && state.Phase(dispatcher).Busy?
      requires state.Phase(dispatcher) == Busy(state.Phase(dispatcher).claimedAt, [], records, [], Resting)
      modifies this
      ensures Valid() && old(state).now <= state.now
      ensures var claimedAt := old(state).Phase(dispatcher).claimedAt;
              && |turns| <= |records| && (|turns| < |records| ==> Over(turns))
              && TurnsFit(faults, records, turns, LeaseOver(config, state, dispatcher, claimedAt))
              && published == Published(records, turns)
              && Did(old(trace), trace, dispatcher, TurnsSteps(dispatcher, faults, records, turns))
              && state.Phase(dispatcher) == Busy(claimedAt, [], [], published, Resting)
      ensures forall record <- published :: record.envelope in state.log
    {
      hide Run, Initial, Did, Was, TurnSteps, TurnsSteps, TurnsFit, Published, Over;
      ghost var claimedAt := state.Phase(dispatcher).claimedAt;
      var goesOn, i := true, 0;
      published, turns := [], [];
      NoTurns(dispatcher, faults, records, LeaseOver(config, state, dispatcher, claimedAt));
      DidNothing(trace, dispatcher);
      assert records[0..] == records;
      while i < |records| && goesOn
        invariant Valid() && old(state).now <= state.now && |turns| == i <= |records|
        invariant TurnsFit(faults, records, turns, LeaseOver(config, state, dispatcher, claimedAt))
        invariant goesOn <==> !Over(turns)
        invariant published == Published(records, turns)
        invariant Did(old(trace), trace, dispatcher, TurnsSteps(dispatcher, faults, records, turns))
        invariant state.Phase(dispatcher)
                  == Busy(claimedAt, [], if goesOn then records[i..] else [], published, Resting)
        invariant forall record <- published :: record.envelope in state.log
        decreases |records| - i
      {
        ghost var before, now := trace, state;
        var turn := Next(dispatcher, faults);
        assert records[i..][0] == records[i] && records[i..][1..] == records[i + 1..];
        OneTurn(dispatcher, faults, records, turns, turn, LeaseOver(config, now, dispatcher, claimedAt),
                LeaseOver(config, state, dispatcher, claimedAt));
        DidThen(old(trace), before, trace, dispatcher, TurnsSteps(dispatcher, faults, records, turns),
                TurnSteps(dispatcher, faults, records[i], turn));
        turns := turns + [turn];
        if turn == Sent {
          published := published + [records[i]];
        }
        goesOn := !Ends(turn);
        i := i + 1;
      }
      assert records[|records|..] == [];
    }

    // Publishes a claimed batch, as far as it goes, and marks what it published.
    method PublishBatch(dispatcher: nat, records: seq<Record>, faults: Faults)
      returns (full: bool, published: seq<Record>, marked: bool, ghost turns: seq<Turn>)
      requires Valid() && state.Phase(dispatcher).Busy? && InIdOrder(records)
      requires state.Phase(dispatcher) == Busy(state.Phase(dispatcher).claimedAt, [], records, [], Resting)
      requires |records| <= config.settings(dispatcher).batchSize
      modifies this
      ensures Valid() && state.Phase(dispatcher).Idle?
      ensures BatchRight(config, old(trace), trace, dispatcher, faults, records, turns,
                         LeaseOver(config, state, dispatcher, old(state).Phase(dispatcher).claimedAt), full,
                         published, marked)
      ensures |published| <= config.settings(dispatcher).batchSize && InIdOrder(published)
      ensures forall record <- published :: record.envelope in state.log
      ensures marked ==> forall record <- published :: !Matches(state.table, record.RowKey(), record.leasedUntil)
    {
      hide Run, Initial, Did, Was, TurnsSteps, TurnsFit, Published, Over, InIdOrder, Matches;
      published, turns := TakeTurns(dispatcher, records, faults);
      ghost var done, now, claimedAt := trace, state, old(state).Phase(dispatcher).claimedAt;
      ghost var atMark;
      marked, atMark := Mark(dispatcher, published, faults);
      full := |published| == config.settings(dispatcher).batchSize;
      DidThen(old(trace), done, trace, dispatcher, TurnsSteps(dispatcher, faults, records, turns),
              [if published == [] then GiveUp(dispatcher) else Finish(dispatcher, faults.finish != Lost)]);
      InOrder(records, turns);
      LaterOver(config, now, state, dispatcher, claimedAt);
      StillOver(faults, records, turns, LeaseOver(config, now, dispatcher, claimedAt),
                LeaseOver(config, state, dispatcher, claimedAt));
    }

    // One round: it claims rows, gives each readable one its turn in id order, and marks those it
    // published. `full` when that is a whole batch. `marked` says that the mark succeeded, and
    // `history` how the round went.
    method Round(dispatcher: nat, faults: Faults)
      returns (full: bool, published: seq<Record>, marked: bool, ghost history: History)
      requires Valid() && state.Phase(dispatcher).Idle?
      modifies this
      ensures Valid() && state.Phase(dispatcher).Idle?
      ensures RoundRight(config, first, old(trace), trace, dispatcher, faults, history,
                         LeaseOver(config, state, dispatcher, Local(config, history.start.state, dispatcher)), full,
                         published, marked)
      ensures |published| <= config.settings(dispatcher).batchSize && InIdOrder(published)
      ensures forall record <- published :: record.envelope in state.log
      ensures marked ==> forall record <- published :: !Matches(state.table, record.RowKey(), record.leasedUntil)
    {
      assert config.settings(dispatcher).batchSize > 0;
      hide *;
      var claimedAt;
      ghost var start, moment, keys;
      claimedAt, start := Start(dispatcher);
      ghost var began := trace;
      var claimed;
      claimed, moment, keys := Claim(dispatcher, faults);
      ghost var asked := trace;
      history := History(start, moment, keys, claimed, []);
      BeganAndClaimed(config, first, old(trace), began, asked, dispatcher, faults, history);
      if claimed.None? {
        NoTurns(dispatcher, faults, [], false);
        ClaimEnds(config, first, old(trace), began, asked, dispatcher, faults, history,
                  LeaseOver(config, state, dispatcher, claimedAt));
        return false, [], false, history;
      }
      ghost var turns;
      full, published, marked, turns := PublishBatch(dispatcher, claimed.value, faults);
      history := history.(turns := turns);
      BeganAndClaimed(config, first, old(trace), began, asked, dispatcher, faults, history);
      RoundJoins(config, first, old(trace), began, asked, trace, dispatcher, faults, history,
                 LeaseOver(config, state, dispatcher, claimedAt), full, published, marked);
    }
  }
}
