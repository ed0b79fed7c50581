/** The leases of claimed rows: who may still mark a row, and who may be publishing it.

A hold is settled by its own mark. Until then it either is the row's current claim, or its lease ran
out before the latest statement. With strictly increasing statement times, or with retry delays and
without resets, the row's due time has then moved past its token for good, so its mark changes
nothing. */
module Fencing {
  import opened BrokerSafety
  import opened Dispatching
  import opened Envelopes
  import opened Options
  import opened Outbox
  import opened OutboxRows
  import opened Retry

  ghost predicate Distinct(leases: seq<Lease>) {
    forall i, j | 0 <= i < j < |leases| :: leases[i].key != leases[j].key
  }

  // The hold is the row's latest claim, and the row is as that claim found it.
  predicate Current(table: Table, lease: Lease) {
    Matches(table, lease.key, lease.token) && table[lease.key].attempts == lease.attempts
  }

  // Every row that is put back to be tried again becomes due later than now.
  ghost predicate Delays(config: Config) {
    forall d: nat :: config.settings(d).retry.attempts > 1 ==> config.settings(d).retry.DelayAfter(1) > 0
  }

  // What keeps the row from being due at a time that an old token names.
  ghost predicate Guarded(config: Config, state: State, row: Row) {
    config.strict || (Delays(config) && state.resets == map[] && row.status == Pending)
  }

  ghost predicate LeaseOk(config: Config, state: State, lease: Lease) {
    && lease.key in state.history
    && (lease.key in state.table ==>
          || Current(state.table, lease)
          || (lease.token <= state.statementAt
              && (Guarded(config, state, state.table[lease.key]) ==>
                    lease.token < state.table[lease.key].availableAt)))
  }

  // Of two holds on one row, at most one outlives the latest statement.
  ghost predicate RivalsOk(state: State, first: Lease, second: Lease) {
    first.key == second.key ==>
      && (first.token <= state.statementAt || second.token <= state.statementAt)
      && first.token != second.token
  }

  ghost predicate Fenced(config: Config, state: State) {
    && state.statementAt <= state.now
    && (forall key <- state.table :: key in state.history)
    && (forall d: nat :: Distinct(state.Phase(d).Held()))
    && (forall d: nat, lease | lease in state.Phase(d).Held() :: LeaseOk(config, state, lease))
    && (forall d: nat, e: nat, first, second |
          d != e && first in state.Phase(d).Held() && second in state.Phase(e).Held() ::
          RivalsOk(state, first, second))
  }

  // The step takes the dispatcher's hold on the row away from it, with a mark or without.
  predicate Settles(state: State, step: Step, dispatcher: nat, key: Key) {
    var phase := state.Phase(dispatcher);
    match step
    case FailUnreadable(d, _) =>
      d == dispatcher && phase.Busy? && phase.unreadable != [] && phase.unreadable[0].key == key
    case Return(d, _) => d == dispatcher && phase.Busy? && phase.todo != [] && phase.todo[0].RowKey() == key
    case Finish(d, _) => d == dispatcher
    case GiveUp(d) => d == dispatcher
    case _ => false
  }

  // A claimed row becomes a hold, as one of the unreadable rows or as a record.
  lemma FirstClaimed(config: Config, table: Table, keys: seq<Key>, until: int)
    requires config.Valid() && keys != []
    requires forall key <- keys :: key in table && table[key].content.id == key.id
    ensures var lease := Lease(keys[0], until, table[keys[0]].attempts);
            var records, more := Readable(config.formats, table, keys, until),
                                 Readable(config.formats, table, keys[1..], until);
            var unreadable, rest := Unreadable(config.formats, table, keys, until),
                                    Unreadable(config.formats, table, keys[1..], until);
            || (unreadable == rest && Leases(records) == [lease] + Leases(more))
            || (unreadable == [lease] + rest && records == more)
  {
    hide ReadRow, Leases;
    var row, rest := table[keys[0]], Readable(config.formats, table, keys[1..], until);
    var read := ReadRow(config.formats, row.content);
    if read.Some? {
      ReadRowId(config.formats, row.content);
      LeasesMore(Record(read.value, keys[0].createdAt, row.attempts, until), rest);
    }
  }

  lemma LeasesMore(record: Record, records: seq<Record>)
    ensures Leases([record] + records) == [record.Hold()] + Leases(records)
  {
    assert forall i | 0 < i <= |records| :: ([record] + records)[i] == records[i - 1];
  }

  lemma {:induction false} ClaimedLeases(config: Config, table: Table, keys: seq<Key>, until: int)
    requires config.Valid()
    requires forall key <- keys :: key in table && table[key].content.id == key.id
    requires forall i, j | 0 <= i < j < |keys| :: keys[i] != keys[j]
    ensures var held := Unreadable(config.formats, table, keys, until)
                        + Leases(Readable(config.formats, table, keys, until));
            && Distinct(held)
            && forall lease <- held ::
                 lease.key in keys && lease.token == until && lease.attempts == table[lease.key].attempts
  {
    if keys != [] {
      hide ReadRow, Readable, Unreadable;
      ClaimedLeases(config, table, keys[1..], until);
      FirstClaimed(config, table, keys, until);
      var lease := Lease(keys[0], until, table[keys[0]].attempts);
      var rest := Unreadable(config.formats, table, keys[1..], until);
      var records := Leases(Readable(config.formats, table, keys[1..], until));
      Regrouped(rest, [lease], records);
      Regrouped([lease], rest, records);
      Added(rest, lease, records);
      Added([], lease, rest + records);
      assert [] + (rest + records) == rest + records && [] + [lease] == [lease];
    }
  }

  // A hold on a new row keeps the rows distinct, wherever it goes.
  lemma Added(before: seq<Lease>, lease: Lease, after: seq<Lease>)
    requires Distinct(before + after) && forall other <- before + after :: other.key != lease.key
    ensures Distinct(before + [lease] + after)
    ensures forall held <- before + [lease] + after :: held == lease || held in before + after
  {
    var all := before + [lease] + after;
    forall i, j | 0 <= i < j < |all|
      ensures all[i].key != all[j].key
    {
      if i < |before| < j {
        assert (before + after)[i].key != (before + after)[j - 1].key;
      } else if |before| < i {
        assert (before + after)[i - 1].key != (before + after)[j - 1].key;
      } else if j < |before| {
        assert (before + after)[i].key != (before + after)[j].key;
      } else if i == |before| {
        assert all[j] == (before + after)[j - 1];
      } else {
        assert all[i] == (before + after)[i];
      }
    }
  }

  // Taking one hold out leaves the others, on other rows.
  lemma Removed(before: seq<Lease>, lease: Lease, after: seq<Lease>)
    requires Distinct(before + [lease] + after)
    ensures Distinct(before + after)
    ensures forall held <- before + after :: held in before + [lease] + after && held.key != lease.key
  {
    var all, rest := before + [lease] + after, before + after;
    assert all[|before|] == lease;
    forall i | 0 <= i < |rest|
      ensures rest[i] in all && rest[i].key != lease.key
    {
      if i < |before| {
        assert all[i] == rest[i];
      } else {
        assert all[i + 1] == rest[i];
      }
    }
    forall i, j | 0 <= i < j < |rest|
      ensures rest[i].key != rest[j].key
    {
      assert rest[i] == all[if i < |before| then i else i + 1];
      assert rest[j] == all[if j < |before| then j else j + 1];
    }
  }

  // Moving a hold keeps the rows distinct.
  lemma Moved(before: seq<Lease>, lease: Lease, between: seq<Lease>, after: seq<Lease>)
    requires Distinct(before + [lease] + between + after)
    ensures Distinct(before + between + after + [lease])
    ensures forall held <- before + between + after + [lease] :: held in before + [lease] + between + after
  {
    assert before + [lease] + between + after == before + [lease] + (between + after);
    Removed(before, lease, between + after);
    Added(before + (between + after), lease, []);
    assert before + (between + after) + [lease] + [] == before + between + after + [lease];
    assert before + (between + after) + [] == before + (between + after);
  }

  // A new claim's holds are those of its rows; every other hold a dispatcher has, it had before.
  ghost predicate HeldBy(config: Config, state: State, step: Step, dispatcher: nat, lease: Lease) {
    if step.Claim? && step.dispatcher == dispatcher
    then && lease.key in step.keys && lease.key in state.table
         && lease.token == state.now + config.settings(dispatcher).lease
         && lease.attempts == state.table[lease.key].attempts
    else lease in state.Phase(dispatcher).Held() && !Settles(state, step, dispatcher, lease.key)
  }

  lemma ClaimHolds(config: Config, state: State, step: Step)
    requires config.Valid() && RowsKept(state) && Enabled(config, state, step) && step.Claim?
    ensures var held := Apply(config, state, step).Phase(step.dispatcher).Held();
            Distinct(held) && forall lease <- held :: HeldBy(config, state, step, step.dispatcher, lease)
  {
    hide ReadRow, Readable, Unreadable, Leased;
    SelectedRows(state, step, config);
    var until := state.now + config.settings(step.dispatcher).lease;
    ClaimedLeases(config, state.table, step.keys, until);
    var held := Unreadable(config.formats, state.table, step.keys, until)
      + Leases(Readable(config.formats, state.table, step.keys, until));
    assert Apply(config, state, step).Phase(step.dispatcher).Held() == held + Leases([]);
    assert held + Leases([]) == held;
  }

  lemma FirstUnreadable(phase: Phase)
    requires phase.Busy? && phase.unreadable != [] && Distinct(phase.Held())
    ensures var held := phase.(unreadable := phase.unreadable[1..]).Held();
            Distinct(held) && forall lease <- held :: lease in phase.Held() && lease.key != phase.unreadable[0].key
  {
    var rest := phase.unreadable[1..] + Leases(phase.todo) + Leases(phase.published);
    assert phase.Held() == [] + [phase.unreadable[0]] + rest;
    Removed([], phase.unreadable[0], rest);
    assert [] + rest == rest;
  }

  lemma FirstHeld(phase: Phase)
    requires phase.Busy? && phase.todo != []
    ensures phase.Held()
            == phase.unreadable + [phase.todo[0].Hold()] + (Leases(phase.todo[1..]) + Leases(phase.published))
  {
    assert Leases(phase.todo) == [phase.todo[0].Hold()] + Leases(phase.todo[1..]);
  }

  lemma Regrouped<T>(first: seq<T>, second: seq<T>, third: seq<T>)
    ensures first + second + third == first + (second + third)
  {
  }

  lemma FirstReturned(phase: Phase)
    requires phase.Busy? && phase.todo != [] && Distinct(phase.Held())
    ensures var held := phase.(todo := phase.todo[1..], flight := Resting).Held();
            Distinct(held) && forall lease <- held :: lease in phase.Held() && lease.key != phase.todo[0].RowKey()
  {
    var first, todo, published := phase.todo[0].Hold(), Leases(phase.todo[1..]), Leases(phase.published);
    FirstHeld(phase);
    Removed(phase.unreadable, first, todo + published);
    Regrouped(phase.unreadable, todo, published);
  }

  lemma FirstAccepted(phase: Phase)
    requires phase.Busy? && phase.todo != [] && Distinct(phase.Held())
    ensures var next :=
              phase.(todo := phase.todo[1..], published := phase.published + [phase.todo[0]], flight := Resting);
            Distinct(next.Held()) && forall lease <- next.Held() :: lease in phase.Held()
  {
    var first, todo, published := phase.todo[0].Hold(), Leases(phase.todo[1..]), Leases(phase.published);
    assert Leases(phase.todo) == [first] + todo;
    assert phase.Held() == phase.unreadable + [first] + todo + published;
    Moved(phase.unreadable, first, todo, published);
    assert Leases(phase.published + [phase.todo[0]]) == published + [first];
    assert phase.(todo := phase.todo[1..], published := phase.published + [phase.todo[0]], flight := Resting).Held()
           == phase.unreadable + todo + published + [first];
  }

  lemma HeldStep(config: Config, state: State, step: Step, dispatcher: nat)
    requires config.Valid() && RowsKept(state) && Enabled(config, state, step)
    requires Distinct(state.Phase(dispatcher).Held())
    ensures var held := Apply(config, state, step).Phase(dispatcher).Held();
            Distinct(held) && forall lease <- held :: HeldBy(config, state, step, dispatcher, lease)
  {
    hide ReadRow, Readable, Unreadable, Leased, PutBack, MarkUnreadable, MarkDispatched, Selects;
    var phase := state.Phase(dispatcher);
    if step.Claim? && step.dispatcher == dispatcher {
      ClaimHolds(config, state, step);
    } else if step.FailUnreadable? && step.dispatcher == dispatcher {
      FirstUnreadable(phase);
    } else if step.Return? && step.dispatcher == dispatcher {
      FirstReturned(phase);
    } else if step.Accepted? && step.dispatcher == dispatcher {
      FirstAccepted(phase);
    } else {
      StoppedHolds(phase);
      OtherHolds(config, state, step, dispatcher);
    }
  }

  lemma OtherHolds(config: Config, state: State, step: Step, dispatcher: nat)
    requires Enabled(config, state, step)
    requires (step.Claim? || step.FailUnreadable? || step.Return? || step.Accepted?) ==> step.dispatcher != dispatcher
    ensures var before, after := state.Phase(dispatcher), Apply(config, state, step).Phase(dispatcher);
            || (after.Held() == before.Held() && !((step.Finish? || step.GiveUp?) && step.dispatcher == dispatcher))
            || after.Held() == []
            || (before.Busy? && after == before.Stopped() && (step.TimeOut? || step.StopBatch?))
  {
    hide ReadRow, Readable, Unreadable, Leased, PutBack, MarkUnreadable, MarkDispatched, Selects;
  }

  // Giving a batch up keeps what was published before.
  lemma StoppedHolds(phase: Phase)
    requires Distinct(phase.Held())
    ensures phase.Busy? ==>
              && Distinct(phase.Stopped().Held())
              && forall lease <- phase.Stopped().Held() :: lease in phase.Held()
  {
    if phase.Busy? {
      var left, todo, right := phase.unreadable, Leases(phase.todo), Leases(phase.published);
      var all, rest := left + todo + right, left + right;
      assert Leases([]) == [];
      assert phase.Stopped().Held() == rest;
      forall i | 0 <= i < |rest|
        ensures rest[i] == all[if i < |left| then i else i + |todo|]
      {
      }
    }
  }

  // How a step may change a row that stays.
  ghost predicate Effect(config: Config, state: State, step: Step, key: Key, row: Row)
    requires key in state.table
  {
    var before := state.table[key];
    || row == before
    || (&& step.Claim? && key in step.keys && before.status == Pending && before.availableAt <= state.now
        && row == before.(availableAt := state.now + config.settings(step.dispatcher).lease))
    || (step.Reset? && before.status == Failed && row == before.(status := Pending))
    || MarkedBy(config, state, step, key, row)
  }

  // A mark changes a row only through a hold of its dispatcher that matches it.
  ghost predicate MarkedBy(config: Config, state: State, step: Step, key: Key, row: Row)
    requires key in state.table
  {
    && (step.FailUnreadable? || step.Return? || step.Finish?)
    && (exists lease <- state.Phase(step.dispatcher).Held() ::
          lease.key == key && Matches(state.table, key, lease.token))
    && Settles(state, step, step.dispatcher, key)
    && (row.availableAt == state.table[key].availableAt || row.availableAt >= state.now)
    && (Delays(config) && row.status == Pending ==> row.availableAt > state.now)
  }

  lemma RowEffect(config: Config, state: State, step: Step, key: Key)
    requires Enabled(config, state, step) && key in state.table && key in Apply(config, state, step).table
    requires step.Insert? ==> step.key != key
    ensures Effect(config, state, step, key, Apply(config, state, step).table[key])
  {
    hide ReadRow, Readable, Unreadable;
    if step.FailUnreadable? || step.Return? || step.Finish? {
      MarkEffect(config, state, step, key);
    }
  }

  lemma MarkEffect(config: Config, state: State, step: Step, key: Key)
    requires Enabled(config, state, step) && key in state.table
    requires step.FailUnreadable? || step.Return? || step.Finish?
    ensures key in Apply(config, state, step).table
    ensures var row := Apply(config, state, step).table[key];
            row == state.table[key] || MarkedBy(config, state, step, key, row)
  {
    hide ReadRow, Readable, Unreadable, Selects;
    var phase := state.Phase(step.dispatcher);
    var held := phase.Held();
    match step
    case FailUnreadable(_, _) =>
      assert held[0] == phase.unreadable[0];
    case Return(_, _) =>
      assert held[|phase.unreadable|] == phase.todo[0].Hold();
      if Delays(config) {
        Delayed(config, step.dispatcher, phase.todo[0].attempts + 1);
      }
    case Finish(_, _) =>
      forall i | 0 <= i < |phase.published|
        ensures phase.published[i].Hold() in held
      {
        assert held[|phase.unreadable| + |phase.todo| + i] == phase.published[i].Hold();
      }
  }

  lemma Delayed(config: Config, d: nat, attempt: nat)
    requires Delays(config) && attempt > 0
    ensures !config.settings(d).retry.IsLast(attempt) ==> config.settings(d).retry.DelayAfter(attempt) > 0
  {
    config.settings(d).retry.DelayGrows(1, attempt);
  }

  lemma LeaseStep(config: Config, state: State, step: Step, dispatcher: nat, lease: Lease)
    requires config.Valid() && RowsKept(state) && Fenced(config, state) && Enabled(config, state, step)
    requires lease in Apply(config, state, step).Phase(dispatcher).Held()
    ensures LeaseOk(config, Apply(config, state, step), lease)
  {
    HeldStep(config, state, step, dispatcher);
    assert HeldBy(config, state, step, dispatcher, lease);
    var next := Apply(config, state, step);
    StatementsFollow(config, state, step);
    if step.Claim? && step.dispatcher == dispatcher {
      hide ReadRow, Readable, Unreadable, Selects;
    } else if lease.key in next.table {
      assert LeaseOk(config, state, lease);
      OnlyInsertsAddRows(config, state, step, lease.key);
      RowEffect(config, state, step, lease.key);
      OldLease(config, state, step, dispatcher, lease, next.table[lease.key]);
      hide Apply, Enabled, Effect, HeldBy;
    } else {
      assert LeaseOk(config, state, lease);
      hide Apply, Enabled;
    }
  }

  lemma OnlyInsertsAddRows(config: Config, state: State, step: Step, key: Key)
    requires Enabled(config, state, step) && key in Apply(config, state, step).table && key in state.history
    ensures key in state.table && (step.Insert? ==> step.key != key)
  {
    hide ReadRow, Readable, Unreadable, Selects;
  }

  // Statement times and inserted rows only grow.
  lemma StatementsFollow(config: Config, state: State, step: Step)
    requires Enabled(config, state, step) && state.statementAt <= state.now
    ensures var next := Apply(config, state, step);
            && state.statementAt <= next.statementAt <= next.now
            && (forall key <- state.history :: key in next.history)
            && (next.resets == map[] ==> state.resets == map[] && !step.Reset?)
            && ((step.Claim? || step.FailUnreadable? || step.Return? || step.Finish? || step.Reset?) ==>
                  next.statementAt == state.now && (config.strict ==> state.statementAt < state.now))
  {
    hide ReadRow, Readable, Unreadable, Selects, MarkDispatched, PutBack, MarkUnreadable, Leased;
  }

  // A hold stays right when its row changes: by a claim after it ran out, by a reset of a row it
  // no longer holds, or by the mark of another hold, which can't match while this one is current.
  lemma OldLease(config: Config, state: State, step: Step, dispatcher: nat, lease: Lease, row: Row)
    requires config.Valid() && Fenced(config, state) && Enabled(config, state, step)
    requires lease in state.Phase(dispatcher).Held() && !Settles(state, step, dispatcher, lease.key)
    requires lease.key in state.table && Effect(config, state, step, lease.key, row)
    ensures var next := Apply(config, state, step);
            || (row.status == Pending && row.availableAt == lease.token && row.attempts == lease.attempts)
            || (lease.token <= next.statementAt && (Guarded(config, next, row) ==> lease.token < row.availableAt))
  {
    StatementsFollow(config, state, step);
    hide Apply, Enabled, Settles;
    assert LeaseOk(config, state, lease);
    if MarkedBy(config, state, step, lease.key, row) {
      var rival :| rival in state.Phase(step.dispatcher).Held() && rival.key == lease.key
        && Matches(state.table, lease.key, rival.token);
      assert step.dispatcher != dispatcher;
      assert RivalsOk(state, lease, rival);
    }
  }

  lemma RivalStep(config: Config, state: State, step: Step, d: nat, e: nat, first: Lease, second: Lease)
    requires config.Valid() && RowsKept(state) && Fenced(config, state) && Enabled(config, state, step)
    requires d != e
    requires first in Apply(config, state, step).Phase(d).Held() && second in Apply(config, state, step).Phase(e).Held()
    ensures RivalsOk(Apply(config, state, step), first, second)
  {
    HeldStep(config, state, step, d);
    HeldStep(config, state, step, e);
    StatementsFollow(config, state, step);
    if first.key == second.key {
      if step.Claim? && step.dispatcher == d {
        Reclaimed(config, state, step, e, second, first.key);
      } else if step.Claim? && step.dispatcher == e {
        Reclaimed(config, state, step, d, first, first.key);
      } else {
        assert RivalsOk(state, first, second);
      }
    }
    hide Apply, Enabled;
  }

  // A row is claimed again only after an earlier hold on it ran out.
  lemma Reclaimed(config: Config, state: State, step: Step, dispatcher: nat, lease: Lease, key: Key)
    requires config.Valid() && Fenced(config, state) && Enabled(config, state, step)
    requires step.Claim? && key in step.keys && key in state.table
    requires lease in state.Phase(dispatcher).Held() && lease.key == key
    ensures lease.token <= state.now && lease.token < state.now + config.settings(step.dispatcher).lease
  {
    hide ReadRow, Readable, Unreadable;
    assert LeaseOk(config, state, lease);
    assert key in Due(state.table, state.now);
  }

  // Every step keeps the leases right.
  lemma FencedStep(config: Config, state: State, step: Step)
    requires config.Valid() && RowsKept(state) && Fenced(config, state) && Enabled(config, state, step)
    ensures Fenced(config, Apply(config, state, step))
  {
    var next := Apply(config, state, step);
    forall d: nat
      ensures Distinct(next.Phase(d).Held())
    {
      HeldStep(config, state, step, d);
    }
    forall d: nat, lease | lease in next.Phase(d).Held()
      ensures LeaseOk(config, next, lease)
    {
      LeaseStep(config, state, step, d, lease);
    }
    forall d: nat, e: nat, first, second |
      d != e && first in next.Phase(d).Held() && second in next.Phase(e).Held()
      ensures RivalsOk(next, first, second)
    {
      RivalStep(config, state, step, d, e, first, second);
    }
    StatementsFollow(config, state, step);
    RowsStep(config, state, step);
    hide Apply, Enabled, LeaseOk, RivalsOk, Distinct;
  }

  lemma {:induction false} FencedRun(config: Config, first: State, steps: seq<Step>, last: State)
    requires config.Valid() && BrokerSafe(config, first) && Fenced(config, first) && Run(config, first, steps, last)
    ensures BrokerSafe(config, last) && Fenced(config, last)
    decreases |steps|
  {
    if steps != [] {
      BrokerStep(config, first, steps[0]);
      FencedStep(config, first, steps[0]);
      hide BrokerSafe, Fenced, Enabled, Apply;
      FencedRun(config, Apply(config, first, steps[0]), steps[1..], last);
    }
  }

  lemma LeasesAreFenced(config: Config, state: State)
    requires config.Valid() && Reachable(config, state)
    ensures BrokerSafe(config, state) && Fenced(config, state)
  {
    var first: State, steps: seq<Step> :| Initial(first) && Run(config, first, steps, state);
    FencedRun(config, first, steps, state);
  }

  lemma TwoHolds(config: Config, state: State, d: nat, e: nat, first: Lease, second: Lease)
    requires Fenced(config, state)
    requires first in state.Phase(d).Held() && second in state.Phase(e).Held() && second.key == first.key
    ensures LeaseOk(config, state, first) && LeaseOk(config, state, second)
    ensures d == e ==> first == second
    ensures d != e ==> RivalsOk(state, first, second)
  {
    hide LeaseOk, RivalsOk;
    assert Distinct(state.Phase(d).Held());
  }

  // The fence. Of all holds on a row, at most one matches it. It has the highest token, and the
  // attempts the row has.
  lemma Fence(config: Config, state: State, d: nat, e: nat, holder: Lease, other: Lease)
    requires config.Valid() && config.strict && Reachable(config, state)
    requires holder in state.Phase(d).Held() && Matches(state.table, holder.key, holder.token)
    requires other in state.Phase(e).Held() && other.key == holder.key && (d != e || other != holder)
    ensures other.token < holder.token && !Matches(state.table, other.key, other.token)
    ensures state.table[holder.key].attempts == holder.attempts
  {
    LeasesAreFenced(config, state);
    hide Reachable, BrokerSafe;
    TwoHolds(config, state, d, e, holder, other);
    hide Fenced;
  }

  // A mark leaves every row as it is that its dispatcher's holds no longer match, whatever it does to
  // the others; a batch that was superseded altogether changes nothing.
  lemma SupersededMark(config: Config, state: State, step: Step, key: Key)
    requires config.Valid() && Enabled(config, state, step)
    requires step.FailUnreadable? || step.Return? || step.Finish?
    requires forall lease <- state.Phase(step.dispatcher).Held() | lease.key == key ::
               !Matches(state.table, key, lease.token)
    ensures key in Apply(config, state, step).table <==> key in state.table
    ensures key in state.table ==> Apply(config, state, step).table[key] == state.table[key]
  {
    if key in state.table {
      MarkEffect(config, state, step, key);
    }
    hide ReadRow, Readable, Unreadable, Selects;
  }

  // The dispatcher waits for the broker with the row's envelope.
  ghost predicate Publishes(state: State, dispatcher: nat, key: Key) {
    var phase := state.Phase(dispatcher);
    phase.Busy? && phase.flight == InFlight && phase.todo != [] && phase.todo[0].RowKey() == key
  }

  // A claim's leases run out no sooner than its dispatcher thinks.
  ghost predicate Timely(config: Config, state: State) {
    forall d: nat ::
      var phase := state.Phase(d);
      && (phase.Claiming? ==> phase.claimedAt <= Local(config, state, d))
      && (phase.Busy? ==>
            forall lease <- phase.Held() :: Deadline(config, state, d) <= lease.token + config.skew(d))
  }

  lemma TimelyStep(config: Config, state: State, step: Step)
    requires config.Valid() && RowsKept(state) && Fenced(config, state) && Timely(config, state)
    requires Enabled(config, state, step)
    ensures Timely(config, Apply(config, state, step))
  {
    var next := Apply(config, state, step);
    forall d: nat
      ensures var phase := next.Phase(d);
              && (phase.Claiming? ==> phase.claimedAt <= Local(config, next, d))
              && (phase.Busy? ==>
                    forall lease <- phase.Held() :: Deadline(config, next, d) <= lease.token + config.skew(d))
    {
      HeldStep(config, state, step, d);
      TimelyPhase(config, state, step, d);
    }
  }

  lemma TimelyPhase(config: Config, state: State, step: Step, d: nat)
    requires config.Valid() && Fenced(config, state) && Timely(config, state) && Enabled(config, state, step)
    ensures var next, phase := Apply(config, state, step), Apply(config, state, step).Phase(d);
            && state.now <= next.now
            && (phase.Claiming? ==> phase.claimedAt <= Local(config, next, d))
            && (phase.Busy? ==>
                  if step.Claim? && step.dispatcher == d then phase.claimedAt <= state.now + config.skew(d)
                  else state.Phase(d).Busy? && phase.claimedAt == state.Phase(d).claimedAt)
  {
    hide ReadRow, Readable, Unreadable, Selects, MarkDispatched, PutBack, MarkUnreadable, Leased, Fenced;
  }

  lemma {:induction false} TimelyRun(config: Config, first: State, steps: seq<Step>, last: State)
    requires config.Valid() && BrokerSafe(config, first) && Fenced(config, first) && Timely(config, first)
    requires Run(config, first, steps, last)
    ensures Timely(config, last)
    decreases |steps|
  {
    if steps != [] {
      BrokerStep(config, first, steps[0]);
      FencedStep(config, first, steps[0]);
      TimelyStep(config, first, steps[0]);
      hide BrokerSafe, Fenced, Timely, Enabled, Apply;
      TimelyRun(config, Apply(config, first, steps[0]), steps[1..], last);
    }
  }

  // Lease exclusion: of two dispatchers that are publishing the same row at the same time, one has
  // outlasted its lease and is only waiting for its timer. That is so even when two statements see the
  // same time, whatever their leases are.
  lemma LeaseExclusion(config: Config, state: State, d: nat, e: nat, key: Key)
    requires config.Valid() && Reachable(config, state)
    requires Publishes(state, d, key) && Publishes(state, e, key)
    ensures d == e || Overdue(config, state, d) || Overdue(config, state, e)
  {
    LeasesAreFenced(config, state);
    var start: State, steps: seq<Step> :| Initial(start) && Run(config, start, steps, state);
    TimelyRun(config, start, steps, state);
    hide Reachable, BrokerSafe, Run, Initial;
    var first, second := state.Phase(d).todo[0].Hold(), state.Phase(e).todo[0].Hold();
    FirstIsHeld(state.Phase(d));
    FirstIsHeld(state.Phase(e));
    assert d != e ==> RivalsOk(state, first, second);
  }

  lemma FirstIsHeld(phase: Phase)
    requires phase.Busy? && phase.todo != []
    ensures phase.todo[0].Hold() in phase.Held()
  {
    assert phase.Held()[|phase.unreadable|] == phase.todo[0].Hold();
  }
}
