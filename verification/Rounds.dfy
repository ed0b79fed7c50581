/** What a dispatcher's round does, as the steps of its own in a run of the whole system. */
module Rounds {
  import opened Dispatching
  import opened Envelopes
  import opened Options
  import opened Outbox
  import opened Retry
  import OutboxRows

  // The dispatcher a step belongs to.
  function Actor(step: Step): Option<nat> {
    match step
    case StartRound(d) => Some(d)
    case Claim(d, _, _) => Some(d)
    case FailUnreadable(d, _) => Some(d)
    case Send(d) => Some(d)
    case Accepted(d) => Some(d)
    case Rejected(d) => Some(d)
    case Return(d, _) => Some(d)
    case TimeOut(d) => Some(d)
    case StopBatch(d) => Some(d)
    case Finish(d, _) => Some(d)
    case GiveUp(d) => Some(d)
    case _ => None
  }

  function Mine(step: Step, dispatcher: nat): seq<Step> {
    if Actor(step) == Some(dispatcher) then [step] else []
  }

  // A dispatcher's own steps among all.
  function Own(steps: seq<Step>, dispatcher: nat): seq<Step> {
    if steps == [] then [] else Mine(steps[0], dispatcher) + Own(steps[1..], dispatcher)
  }

  // From one trace to a later one, the dispatcher took exactly these steps; the others took any.
  ghost predicate Did(before: seq<Step>, after: seq<Step>, dispatcher: nat, own: seq<Step>) {
    before <= after && Own(after[|before|..], dispatcher) == own
  }

  lemma OwnFirst(step: Step, rest: seq<Step>, dispatcher: nat)
    ensures Own([step] + rest, dispatcher) == Mine(step, dispatcher) + Own(rest, dispatcher)
  {
    hide Mine;
    assert ([step] + rest)[1..] == rest;
  }

  lemma {:induction false} OwnJoins(first: seq<Step>, second: seq<Step>, dispatcher: nat)
    ensures Own(first + second, dispatcher) == Own(first, dispatcher) + Own(second, dispatcher)
  {
    if first == [] {
      assert first + second == second;
    } else {
      var rest := first[1..];
      hide Mine, Own;
      assert first + second == [first[0]] + (rest + second) && first == [first[0]] + rest;
      OwnFirst(first[0], rest + second, dispatcher);
      OwnFirst(first[0], rest, dispatcher);
      OwnJoins(rest, second, dispatcher);
    }
  }

  lemma DidThen(
    first: seq<Step>, second: seq<Step>, third: seq<Step>, dispatcher: nat, own: seq<Step>, next: seq<Step>)
    requires Did(first, second, dispatcher, own) && Did(second, third, dispatcher, next)
    ensures Did(first, third, dispatcher, own + next)
  {
    assert third[|first|..] == second[|first|..] + third[|second|..];
    OwnJoins(second[|first|..], third[|second|..], dispatcher);
  }

  lemma DidNext(first: seq<Step>, second: seq<Step>, third: seq<Step>, dispatcher: nat, next: seq<Step>)
    requires Did(first, second, dispatcher, []) && Did(second, third, dispatcher, next)
    ensures Did(first, third, dispatcher, next)
  {
    DidThen(first, second, third, dispatcher, [], next);
    assert [] + next == next;
  }

  lemma DidGrows(before: seq<Step>, after: seq<Step>, dispatcher: nat, own: seq<Step>)
    requires Did(before, after, dispatcher, own)
    ensures before <= after
  {
  }

  lemma DidNothing(trace: seq<Step>, dispatcher: nat)
    ensures Did(trace, trace, dispatcher, [])
  {
  }

  lemma DidOne(trace: seq<Step>, step: Step, dispatcher: nat)
    ensures Did(trace, trace + [step], dispatcher, if Actor(step) == Some(dispatcher) then [step] else [])
  {
    assert (trace + [step])[|trace|..] == [step];
    assert Own([step][1..], dispatcher) == [];
  }

  // A step of a trace, and the state it was taken in.
  datatype Moment = Moment(index: nat, state: State)

  ghost predicate Was(config: Config, first: State, trace: seq<Step>, moment: Moment, step: Step) {
    moment.index < |trace| && trace[moment.index] == step && Run(config, first, trace[..moment.index], moment.state)
  }

  lemma StillWas(config: Config, first: State, trace: seq<Step>, more: seq<Step>, moment: Moment, step: Step)
    requires Was(config, first, trace, moment, step) && trace <= more
    ensures Was(config, first, more, moment, step)
  {
    assert more[..moment.index] == trace[..moment.index];
  }

  // A row that doesn't read fails, with one more attempt, if it still has the token of its claim. Every
  // other row stays.
  ghost predicate FailsRow(before: Table, after: Table, key: Key, token: int) {
    && after.Keys == before.Keys
    && (forall other <- before :: other != key ==> after[other] == before[other])
    && (key in before ==>
          if before[key].status == Pending && before[key].availableAt == token
          then after[key] == before[key].(status := Failed, attempts := before[key].attempts + 1)
          else after[key] == before[key])
  }

  lemma UnreadableFails(config: Config, state: State, step: Step)
    requires Enabled(config, state, step) && step.FailUnreadable?
    ensures var lease, after := state.Phase(step.dispatcher).unreadable[0], Apply(config, state, step).table;
            if step.landed then FailsRow(state.table, after, lease.key, lease.token) else after == state.table
  {
    hide Readable, Unreadable, Selects, PutBack, MarkDispatched, Leased;
  }

  // The mark of a published batch dispatches those of its rows that still have the token of its claim,
  // and no other.
  ghost predicate DispatchesRows(before: Table, after: Table, published: seq<Record>) {
    && after.Keys == before.Keys
    && forall key <- before ::
         after[key] == if (exists record <- published ::
                             record.createdAt == key.createdAt && record.envelope.id == key.id
                             && before[key].status == Pending && before[key].availableAt == record.leasedUntil)
                       then before[key].(status := Dispatched) else before[key]
  }

  lemma PublishedDispatched(config: Config, state: State, step: Step)
    requires Enabled(config, state, step) && step.Finish?
    ensures var published, after := state.Phase(step.dispatcher).published, Apply(config, state, step).table;
            if step.landed then DispatchesRows(state.table, after, published) else after == state.table
  {
    hide Readable, Unreadable, Selects, PutBack, MarkUnreadable, Leased;
  }

  // A claim takes rows that are pending, due and not locked, in id order. It takes the whole batch size
  // and lower ids first, or all there are.
  lemma ClaimedAreDue(config: Config, state: State, step: Step)
    requires Enabled(config, state, step) && step.Claim?
    ensures var limit := config.settings(step.dispatcher).batchSize;
            && |step.keys| <= limit
            && (forall key <- step.keys ::
                  && key in state.table && key !in step.locked
                  && state.table[key].status == Pending && state.table[key].availableAt <= state.now)
            && (forall i, j | 0 <= i < j < |step.keys| ::
                  step.keys[i] != step.keys[j] && step.keys[i].id <= step.keys[j].id)
            && (forall key <- state.table |
                  && key !in step.locked && key !in step.keys
                  && state.table[key].status == Pending && state.table[key].availableAt <= state.now ::
                  |step.keys| == limit && forall taken <- step.keys :: taken.id <= key.id)
    // They get the end of the lease as their due time, and the other rows stay.
    ensures var until := state.now + config.settings(step.dispatcher).lease;
            Apply(config, state, step).table
            == map key | key in state.table ::
                 if key in step.keys then state.table[key].(availableAt := until) else state.table[key]
  {
    hide Readable, Unreadable, OutboxRows.ReadRow;
    assert forall key <- state.table ::
        state.table[key].status == Pending && state.table[key].availableAt <= state.now ==>
          key in Due(state.table, state.now);
  }

  // A new row is due at once: the next claim takes it, unless it is locked or the batch is full.
  lemma InsertedIsDue(config: Config, state: State, key: Key, content: OutboxRows.Columns, claim: Step)
    requires Enabled(config, state, Insert(key, content)) && claim.Claim?
    requires Enabled(config, Apply(config, state, Insert(key, content)), claim)
    ensures key in claim.keys || key in claim.locked
            || |claim.keys| == config.settings(claim.dispatcher).batchSize
  {
    hide OutboxRows.ReadRow;
    var next := Apply(config, state, Insert(key, content));
    assert key in Due(next.table, next.now);
  }

  // Since `before`, the dispatcher marked the row, which failed then.
  ghost predicate MarkedFailed(
    config: Config, first: State, before: seq<Step>, trace: seq<Step>, dispatcher: nat, mark: Moment, key: Key,
    token: int)
  {
    var step := FailUnreadable(dispatcher, true);
    && |before| <= mark.index && Was(config, first, trace, mark, step) && Enabled(config, mark.state, step)
    && FailsRow(mark.state.table, Apply(config, mark.state, step).table, key, token)
  }

  // Every claimed row that doesn't read was marked so.
  ghost predicate AllFailed(
    config: Config, first: State, before: seq<Step>, trace: seq<Step>, dispatcher: nat, claimed: Table,
    keys: seq<Key>, token: int)
  {
    forall key <- keys | key in claimed && OutboxRows.ReadRow(config.formats, claimed[key].content).None? ::
      exists mark: Moment :: MarkedFailed(config, first, before, trace, dispatcher, mark, key, token)
  }

  lemma StillFailed(
    config: Config, first: State, earlier: seq<Step>, before: seq<Step>, trace: seq<Step>, more: seq<Step>,
    dispatcher: nat, claimed: Table, keys: seq<Key>, token: int)
    requires AllFailed(config, first, before, trace, dispatcher, claimed, keys, token)
    requires earlier <= before && trace <= more
    ensures AllFailed(config, first, earlier, more, dispatcher, claimed, keys, token)
  {
    hide FailsRow, Enabled, Apply, OutboxRows.ReadRow, Was;
    forall key <- keys | key in claimed && OutboxRows.ReadRow(config.formats, claimed[key].content).None?
      ensures exists mark: Moment :: MarkedFailed(config, first, earlier, more, dispatcher, mark, key, token)
    {
      var mark: Moment :| MarkedFailed(config, first, before, trace, dispatcher, mark, key, token);
      StillWas(config, first, trace, more, mark, FailUnreadable(dispatcher, true));
      assert MarkedFailed(config, first, earlier, more, dispatcher, mark, key, token);
    }
  }

  // What a round meets: how its claim goes, past which rows that others have locked; how each mark of
  // an unreadable row goes; whether the bus asks to stop before a record; whether the broker is too
  // slow for it or refuses it; and how the marks of refused and of published records go.
  datatype Faults = Faults(
    claim: Reply,
    locked: set<Key>,
    unreadable: Key -> Reply,
    stops: Record -> bool,
    slow: Record -> bool,
    refuses: Record -> bool,
    putBack: Record -> Reply,
    finish: Reply)

  // How a record's turn ended: it was published; it was refused and put back; the bus stopped, or the
  // lease was over, before its publish; or the lease ran out while it waited.
  datatype Turn = Sent | Returned | Stopped | RanOut

  // The marks of unreadable rows, up to one that reports an error, which gives the claim up.
  function MarkSteps(dispatcher: nat, faults: Faults, unreadable: seq<Lease>): seq<Step> {
    if unreadable == [] then []
    else
      var reply := faults.unreadable(unreadable[0].key);
      [FailUnreadable(dispatcher, reply != Lost)]
      + if reply == Replied then MarkSteps(dispatcher, faults, unreadable[1..]) else [GiveUp(dispatcher)]
  }

  predicate AllMarked(faults: Faults, unreadable: seq<Lease>) {
    forall lease <- unreadable :: faults.unreadable(lease.key) == Replied
  }

  // A claim's steps. One that reports an error leaves the rows it took leased, marked or not.
  function ClaimSteps(dispatcher: nat, faults: Faults, keys: seq<Key>, unreadable: seq<Lease>): seq<Step> {
    if faults.claim == Lost then [GiveUp(dispatcher)]
    else
      [Claim(dispatcher, faults.locked, keys)]
      + if faults.claim == LandedUnsaid then [GiveUp(dispatcher)] else MarkSteps(dispatcher, faults, unreadable)
  }

  function TurnSteps(dispatcher: nat, faults: Faults, record: Record, turn: Turn): seq<Step> {
    match turn
    case Sent => [Send(dispatcher), Accepted(dispatcher)]
    case Returned => [Send(dispatcher), Rejected(dispatcher), Return(dispatcher, faults.putBack(record) != Lost)]
    case Stopped => [StopBatch(dispatcher)]
    case RanOut => [Send(dispatcher), TimeOut(dispatcher)]
  }

  function TurnsSteps(dispatcher: nat, faults: Faults, records: seq<Record>, turns: seq<Turn>): seq<Step>
    requires |turns| <= |records|
  {
    if turns == [] then []
    else
      var last := |turns| - 1;
      TurnsSteps(dispatcher, faults, records, turns[..last]) + TurnSteps(dispatcher, faults, records[last], turns[last])
  }

  // The records whose turns published them.
  function Published(records: seq<Record>, turns: seq<Turn>): seq<Record>
    requires |turns| <= |records|
  {
    if turns == [] then []
    else
      var last := |turns| - 1;
      Published(records, turns[..last]) + if turns[last] == Sent then [records[last]] else []
  }

  predicate Ends(turn: Turn) {
    turn == Stopped || turn == RanOut
  }

  // Records have their turns in order: each is published unless the broker refuses it, until the bus
  // stops, the lease is over, or the broker is too slow.
  ghost predicate TurnsFit(faults: Faults, records: seq<Record>, turns: seq<Turn>, leaseOver: bool) {
    && |turns| <= |records|
    && (forall i | 0 <= i < |turns| ::
          && (if turns[i] == Stopped then faults.stops(records[i]) || leaseOver
              else
                && !faults.stops(records[i]) && (faults.slow(records[i]) <==> turns[i] == RanOut)
                && (turns[i] == RanOut ==> leaseOver)
                && (turns[i] != RanOut ==> (faults.refuses(records[i]) <==> turns[i] == Returned)))
          && (Ends(turns[i]) ==> i == |turns| - 1))
  }

  predicate Over(turns: seq<Turn>) {
    turns != [] && Ends(turns[|turns| - 1])
  }

  // What there is to say of a round: when it began and claimed, what it claimed, and how each turn went.
  datatype History = History(
    start: Moment, claim: Moment, keys: seq<Key>, records: Option<seq<Record>>, turns: seq<Turn>)

  // What a claim of those rows, as it found them, gives: the readable ones, unless it or the mark of
  // an unreadable one reports an error.
  ghost predicate ClaimRight(
    config: Config, first: State, trace: seq<Step>, dispatcher: nat, faults: Faults, moment: Moment, keys: seq<Key>,
    records: Option<seq<Record>>)
  {
    if faults.claim == Lost then records == None
    else
      var table, until := moment.state.table, moment.state.now + config.settings(dispatcher).lease;
      && Was(config, first, trace, moment, Claim(dispatcher, faults.locked, keys))
      && Selects(table, moment.state.now, config.settings(dispatcher).batchSize, faults.locked, keys)
      && records == (if faults.claim == Replied && AllMarked(faults, Unreadable(config.formats, table, keys, until))
                     then Some(Readable(config.formats, table, keys, until)) else None)
  }

  // The steps of a claim, of those rows as it found them.
  function StepsOfClaim(config: Config, dispatcher: nat, faults: Faults, moment: Moment, keys: seq<Key>): seq<Step>
    requires forall key <- keys :: key in moment.state.table
  {
    ClaimSteps(dispatcher, faults, keys,
               Unreadable(config.formats, moment.state.table, keys,
                          moment.state.now + config.settings(dispatcher).lease))
  }

  // The steps of a claimed batch: its turns, and the mark of what they published.
  function BatchSteps(
    dispatcher: nat, faults: Faults, records: seq<Record>, turns: seq<Turn>, published: seq<Record>): seq<Step>
    requires |turns| <= |records|
  {
    TurnsSteps(dispatcher, faults, records, turns)
    + [if published == [] then GiveUp(dispatcher) else Finish(dispatcher, faults.finish != Lost)]
  }

  // A round's own steps, and no other: it claims, gives every claimed record its turn unless it has to
  // stop, and marks what it published. Its results say how that went.
  ghost predicate RoundRight(
    config: Config, first: State, before: seq<Step>, after: seq<Step>, dispatcher: nat, faults: Faults,
    history: History, leaseOver: bool, full: bool, published: seq<Record>, marked: bool)
  {
    && Was(config, first, after, history.start, StartRound(dispatcher))
    && (forall key <- history.keys :: key in history.claim.state.table)
    && ClaimRight(config, first, after, dispatcher, faults, history.claim, history.keys, history.records)
    && full == (|published| == config.settings(dispatcher).batchSize)
    && marked == (published != [] && faults.finish == Replied)
    && var claim := [StartRound(dispatcher)] + StepsOfClaim(config, dispatcher, faults, history.claim, history.keys);
       match history.records
       case None => published == [] && Did(before, after, dispatcher, claim)
       case Some(records) =>
         && TurnsFit(faults, records, history.turns, leaseOver)
         && (|history.turns| < |records| ==> Over(history.turns))
         && published == Published(records, history.turns)
         && Did(before, after, dispatcher,
                claim + BatchSteps(dispatcher, faults, records, history.turns, published))
  }

  lemma StillClaimed(
    config: Config, first: State, trace: seq<Step>, more: seq<Step>, dispatcher: nat, faults: Faults, moment: Moment,
    keys: seq<Key>, records: Option<seq<Record>>)
    requires ClaimRight(config, first, trace, dispatcher, faults, moment, keys, records) && trace <= more
    ensures ClaimRight(config, first, more, dispatcher, faults, moment, keys, records)
  {
    hide Was, Selects, Readable, Unreadable, AllMarked;
    if faults.claim != Lost {
      StillWas(config, first, trace, more, moment, Claim(dispatcher, faults.locked, keys));
    }
  }

  // What the turns of a claimed batch, and its mark, come to.
  ghost predicate BatchRight(
    config: Config, before: seq<Step>, after: seq<Step>, dispatcher: nat, faults: Faults, records: seq<Record>,
    turns: seq<Turn>, leaseOver: bool, full: bool, published: seq<Record>, marked: bool)
  {
    && TurnsFit(faults, records, turns, leaseOver)
    && (|turns| < |records| ==> Over(turns))
    && published == Published(records, turns)
    && full == (|published| == config.settings(dispatcher).batchSize)
    && marked == (published != [] && faults.finish == Replied)
    && Did(before, after, dispatcher, BatchSteps(dispatcher, faults, records, turns, published))
  }

  // A round that claims nothing ends there.
  lemma ClaimEnds(
    config: Config, first: State, before: seq<Step>, began: seq<Step>, after: seq<Step>, dispatcher: nat,
    faults: Faults, history: History, leaseOver: bool)
    requires Claims(config, first, before, began, after, dispatcher, faults, history) && history.records.None?
    requires config.settings(dispatcher).batchSize > 0
    ensures RoundRight(config, first, before, after, dispatcher, faults, history, leaseOver, false, [], false)
  {
    hide Did, Was, ClaimRight, StepsOfClaim;
    var start, claim := [StartRound(dispatcher)], StepsOfClaim(config, dispatcher, faults, history.claim, history.keys);
    DidThen(before, began, after, dispatcher, start, claim);
    DidGrows(began, after, dispatcher, claim);
    StillWas(config, first, began, after, history.start, StartRound(dispatcher));
  }

  // A round begins and claims.
  ghost predicate Claims(
    config: Config, first: State, before: seq<Step>, began: seq<Step>, claimed: seq<Step>, dispatcher: nat,
    faults: Faults, history: History)
  {
    && Did(before, began, dispatcher, [StartRound(dispatcher)])
    && Was(config, first, began, history.start, StartRound(dispatcher))
    && (forall key <- history.keys :: key in history.claim.state.table)
    && Did(began, claimed, dispatcher, StepsOfClaim(config, dispatcher, faults, history.claim, history.keys))
    && ClaimRight(config, first, claimed, dispatcher, faults, history.claim, history.keys, history.records)
  }

  lemma BeganAndClaimed(
    config: Config, first: State, before: seq<Step>, began: seq<Step>, claimed: seq<Step>, dispatcher: nat,
    faults: Faults, history: History)
    requires Did(before, began, dispatcher, [StartRound(dispatcher)])
    requires Was(config, first, began, history.start, StartRound(dispatcher))
    requires forall key <- history.keys :: key in history.claim.state.table
    requires Did(began, claimed, dispatcher, StepsOfClaim(config, dispatcher, faults, history.claim, history.keys))
    requires ClaimRight(config, first, claimed, dispatcher, faults, history.claim, history.keys, history.records)
    ensures Claims(config, first, before, began, claimed, dispatcher, faults, history)
  {
  }

  // A round's claim and its batch make the round.
  lemma RoundJoins(
    config: Config, first: State, before: seq<Step>, began: seq<Step>, claimed: seq<Step>, after: seq<Step>,
    dispatcher: nat, faults: Faults, history: History, leaseOver: bool, full: bool, published: seq<Record>,
    marked: bool)
    requires Claims(config, first, before, began, claimed, dispatcher, faults, history) && history.records.Some?
    requires BatchRight(config, claimed, after, dispatcher, faults, history.records.value, history.turns, leaseOver,
                        full, published, marked)
    ensures RoundRight(config, first, before, after, dispatcher, faults, history, leaseOver, full, published, marked)
  {
    assert |history.turns| <= |history.records.value|;
    hide Did, Was, ClaimRight, StepsOfClaim, BatchSteps, TurnsFit, Published, Over;
    var start, claim := [StartRound(dispatcher)], StepsOfClaim(config, dispatcher, faults, history.claim, history.keys);
    var batch := BatchSteps(dispatcher, faults, history.records.value, history.turns, published);
    DidThen(before, began, claimed, dispatcher, start, claim);
    DidGrows(began, claimed, dispatcher, claim);
    DidGrows(claimed, after, dispatcher, batch);
    DidThen(before, claimed, after, dispatcher, start + claim, batch);
    StillWas(config, first, began, after, history.start, StartRound(dispatcher));
    StillClaimed(config, first, claimed, after, dispatcher, faults, history.claim, history.keys, history.records);
  }
}
