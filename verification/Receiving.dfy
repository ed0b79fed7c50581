/** An endpoint's handling and settling of one delivery, step by step, while the rest of the
transport runs. */
module Receiving {
  import opened Conservation
  import opened Decimals
  import opened Deliveries
  import opened Envelopes
  import opened Handlers
  import opened Options
  import opened Retry
  import Inbox
  import Transactional

  // How a delivery was settled: acked with the publishes that were sent, put back after a delay, or
  // rejected.
  datatype Settlement =
    | Acknowledged(sent: seq<Envelope>)
    | Retried(failure: Failure, delay: Duration)
    | GaveUp(failure: Failure)

  // Whether a step handles or settles this delivery.
  predicate Own(step: Step, name: string, copy: nat) {
    && (step.Handled? || step.SendNext? || step.Ack? || step.Retry? || step.GiveUp? || step.Reject? || step.Drop?)
    && step.name == name && step.copy == copy
  }

  // What stays of a delivery while others run.
  ghost predicate Kept(before: Transport, after: Transport, name: string, copy: nat)
    requires AtStage(before, name, copy)
  {
    && AtStage(after, name, copy)
    && after.endpoints[name].inFlight[copy] == before.endpoints[name].inFlight[copy]
    && after.endpoints[name].retry == before.endpoints[name].retry
    && (copy in before.endpoints[name].succeeded ==>
          copy in after.endpoints[name].succeeded
          && after.endpoints[name].succeeded[copy] == before.endpoints[name].succeeded[copy])
    && before.endpoints[name].types <= after.endpoints[name].types
    && before.published <= after.published
    && before.Errors(name) <= after.Errors(name)
  }

  lemma OtherStep(transport: Transport, step: Step, name: string, copy: nat)
    requires Conserved(transport) && AtStage(transport, name, copy)
    requires Enabled(transport, step) && !Own(step, name, copy)
    ensures Kept(transport, Apply(transport, step), name, copy)
  {
    assert step.Receive? && step.name == name ==> transport.endpoints[name].pending[0].copy != copy by {
      if step.Receive? && step.name == name {
        ReceivesAnother(transport.endpoints[name], copy);
      }
    }
    hide Conserved;
    if step.Publish? || step.SendNext? {
      OtherPublish(transport, step, name, copy);
    } else if step.GiveUp? {
      OtherGivesUp(transport, step, name, copy);
    } else {
      OtherMove(transport, step, name, copy);
    }
  }

  lemma OtherPublish(transport: Transport, step: Step, name: string, copy: nat)
    requires AtStage(transport, name, copy) && Enabled(transport, step) && !Own(step, name, copy)
    requires step.Publish? || step.SendNext?
    ensures Kept(transport, Apply(transport, step), name, copy)
  {
    if step.Publish? {
      PublishKeeps(transport, step.envelope, name, copy);
    } else {
      PublishKeeps(transport, StageOf(transport, step.name, step.copy).left[0], name, copy);
    }
    hide PublishTo;
  }

  lemma PublishKeeps(transport: Transport, envelope: Envelope, name: string, copy: nat)
    requires AtStage(transport, name, copy)
    ensures Kept(transport, PublishTo(transport, envelope), name, copy)
  {
  }

  lemma OtherGivesUp(transport: Transport, step: Step, name: string, copy: nat)
    requires AtStage(transport, name, copy) && Enabled(transport, step) && !Own(step, name, copy)
    requires step.GiveUp?
    ensures Kept(transport, Apply(transport, step), name, copy)
  {
    hide ErrorEnvelope;
  }

  lemma OtherMove(transport: Transport, step: Step, name: string, copy: nat)
    requires AtStage(transport, name, copy) && Enabled(transport, step) && !Own(step, name, copy)
    requires step.Receive? && step.name == name ==> transport.endpoints[name].pending[0].copy != copy
    requires !step.Publish? && !step.SendNext? && !step.GiveUp?
    ensures Kept(transport, Apply(transport, step), name, copy)
  {
    if step.SetFailing? || step.name != name {
      OtherEndpoint(transport, step, name, copy);
    } else {
      OtherCopy(transport, step, name, copy);
    }
    hide Apply, Enabled, Own, Kept;
  }

  lemma OtherEndpoint(transport: Transport, step: Step, name: string, copy: nat)
    requires AtStage(transport, name, copy) && Enabled(transport, step)
    requires step.SetFailing? || (!step.Publish? && !step.SendNext? && !step.GiveUp? && step.name != name)
    ensures Kept(transport, Apply(transport, step), name, copy)
  {
    hide PublishTo, ErrorEnvelope;
  }

  lemma OtherCopy(transport: Transport, step: Step, name: string, copy: nat)
    requires AtStage(transport, name, copy) && Enabled(transport, step) && !Own(step, name, copy)
    requires !step.SetFailing? && !step.Publish? && !step.SendNext? && !step.GiveUp? && step.name == name
    requires step.Receive? ==> transport.endpoints[name].pending[0].copy != copy
    ensures Kept(transport, Apply(transport, step), name, copy)
  {
    hide PublishTo, ErrorEnvelope;
  }

  // A subscriber never receives a copy that another one has.
  lemma ReceivesAnother(endpoint: Endpoint, copy: nat)
    requires Placed(endpoint) && endpoint.pending != [] && copy in endpoint.inFlight
    ensures endpoint.pending[0].copy != copy
  {
    var first := endpoint.pending[0];
    assert Has(endpoint.pending, first.copy);
    assert Places(endpoint, copy) <= 1;
  }

  // Each endpoint with the envelope's type has one more copy, queued last as attempt 1, and is otherwise
  // as it was. Every other endpoint is unchanged.
  ghost predicate CopiedOnce(before: map<string, Endpoint>, after: map<string, Endpoint>, envelope: Envelope) {
    && after.Keys == before.Keys
    && forall name <- before ::
         if envelope.messageType in before[name].types then
           && after[name].pending == before[name].pending + [Pending(|before[name].copies|, envelope, 1)]
           && after[name].copies == before[name].copies + [envelope]
           && after[name] == before[name].(pending := after[name].pending, copies := after[name].copies)
         else after[name] == before[name]
  }

  // The error destination has the delivery's envelope, with the endpoint, what went wrong, and the
  // number of the attempt as its extensions.
  ghost predicate ErrorSaid(
    pending: Pending, errors: seq<Envelope>, endpoint: string, errorType: string, message: string)
  {
    exists error <- errors ::
      && error.(extensions := pending.envelope.extensions) == pending.envelope
      && error.extensions
         == pending.envelope.extensions
            + map["errorendpoint" := endpoint, "errortype" := errorType, "errormessage" := message,
                  "errorattempts" := DecimalText(pending.attempt)]
  }

  lemma OfferedCopies(transport: Transport, envelope: Envelope)
    ensures CopiedOnce(transport.endpoints, PublishTo(transport, envelope).endpoints, envelope)
  {
  }

  class World {
    var state: Transport

    ghost predicate Valid()
      reads this
    {
      Reachable(state)
    }

    constructor ()
      ensures Valid() && state == Transport(map[], [], map[], false)
    {
      state := Transport(map[], [], map[], false);
      new;
      assert Run(Transport(map[], [], map[], false), [], state);
    }

    method Do(step: Step)
      requires Valid() && Enabled(state, step)
      modifies this
      ensures Valid() && state == Apply(old(state), step)
    {
      Reach(state, step);
      state := Apply(state, step);
    }

    // Everything else runs: publishes, and the other deliveries.
    method Others(name: string, copy: nat)
      requires Valid() && AtStage(state, name, copy)
      modifies this
      ensures Valid() && Kept(old(state), state, name, copy)
    {
      hide Reachable, Enabled, Apply, Conserved;
      var schedule: seq<Step> := *;
      for i := 0 to |schedule|
        invariant Valid() && Kept(old(state), state, name, copy)
      {
        if !Own(schedule[i], name, copy) && Enabled(state, schedule[i]) {
          ReachableConserved(state);
          OtherStep(state, schedule[i], name, copy);
          Do(schedule[i]);
        }
      }
    }

    // Pushes a copy to each endpoint subscribed to the envelope's type.
    method CopyTo(envelope: Envelope) returns (endpoints: map<string, Endpoint>)
      ensures endpoints == PublishTo(state, envelope).endpoints
      ensures CopiedOnce(state.endpoints, endpoints, envelope)
    {
      OfferedCopies(state, envelope);
      hide CopiedOnce;
      endpoints := state.endpoints;
      var left := state.endpoints.Keys;
      while left != {}
        invariant left <= state.endpoints.Keys == endpoints.Keys
        invariant forall name <- state.endpoints ::
                    endpoints[name] == if name in left then state.endpoints[name]
                                       else Offered(state.endpoints[name], envelope)
        decreases |left|
      {
        var name :| name in left;
        if envelope.messageType in endpoints[name].types {
          endpoints := endpoints[name := Push(endpoints[name], envelope)];
        }
        left := left - {name};
      }
    }

    method Publish(envelope: Envelope) returns (accepted: bool)
      requires Valid()
      modifies this
      ensures Valid() && accepted == !old(state).failing
      ensures state == if accepted then PublishTo(old(state), envelope) else old(state)
      ensures accepted ==>
                && state.published == old(state).published + [envelope]
                && CopiedOnce(old(state).endpoints, state.endpoints, envelope)
    {
      hide Reachable;
      if state.failing {
        return false;
      }
      var endpoints := CopyTo(envelope);
      Reach(state, Step.Publish(envelope));
      state := state.(published := state.published + [envelope], endpoints := endpoints);
      return true;
    }

    // Subscribes an endpoint, which is new or gets more types.
    method Subscribe(name: string, types: set<string>, retry: RetryPolicy)
      requires Valid()
      modifies this
      ensures Valid() && state.endpoints.Keys == old(state).endpoints.Keys + {name}
      ensures types <= state.endpoints[name].types
      ensures state == old(state).(endpoints := state.endpoints)
      ensures forall other <- old(state).endpoints ::
                state.endpoints[other] == old(state).endpoints[other].(types := state.endpoints[other].types)
                && (other != name ==> state.endpoints[other] == old(state).endpoints[other])
                && old(state).endpoints[other].types <= state.endpoints[other].types
    {
      hide Reachable;
      Do(Step.Subscribe(name, types, retry));
    }

    // The next copy that waits, if there is one.
    method Pop(name: string) returns (received: Option<Pending>)
      requires Valid() && name in state.endpoints
      modifies this
      ensures Valid()
      ensures received.None? ==> state == old(state) && state.endpoints[name].pending == []
      ensures received.Some? ==>
                && old(state).endpoints[name].pending != [] && received.value == old(state).endpoints[name].pending[0]
                && state == old(state).With(name, Received(old(state).endpoints[name]))
    {
      hide Reachable;
      if state.endpoints[name].pending == [] {
        return None;
      }
      received := Some(state.endpoints[name].pending[0]);
      Do(Receive(name));
    }

    // Sends a handler's held publishes, each once the one before it was accepted, up to one that the
    // broker refuses. `count` says how many it accepted.
    method SendHeld(name: string, copy: nat, held: seq<Envelope>) returns (sent: bool, ghost count: nat)
      requires Valid() && AtStage(state, name, copy) && StageOf(state, name, copy) == Sending([], held)
      requires Succeeded(state, name, copy, held)
      modifies this
      ensures Valid() && AtStage(state, name, copy) && Succeeded(state, name, copy, held)
      ensures state.endpoints[name].retry == old(state).endpoints[name].retry
      ensures state.endpoints[name].inFlight[copy]
              == InFlight(old(state).endpoints[name].inFlight[copy].pending,
                          if sent then Sending(held, []) else Failing(Failure.Handler))
      ensures if sent then count == |held| else count < |held| && state.failing
      ensures SentSince(held[..count], old(state).published, state.published)
    {
      hide Reachable, SentSince;
      ghost var pending, retry, before :=
        state.endpoints[name].inFlight[copy].pending, state.endpoints[name].retry, state;
      var i := 0;
      NothingSent(before.published);
      while i < |held|
        invariant 0 <= i <= |held| && Valid() && AtStage(state, name, copy)
        invariant state.endpoints[name].retry == retry && Succeeded(state, name, copy, held)
        invariant state.endpoints[name].inFlight[copy] == InFlight(pending, Sending(held[..i], held[i..]))
        invariant SentSince(held[..i], before.published, state.published)
      {
        ghost var published := state.published;
        Others(name, copy);
        MoreSince(held[..i], before.published, published, state.published);
        assert held[i..][0] == held[i] && held[..i] + [held[i]] == held[..i + 1] && held[i..][1..] == held[i + 1..];
        Advances(state, name, copy);
        var failing := state.failing;
        published := state.published;
        Do(SendNext(name, copy));
        if failing {
          return false, i;
        }
        NextSince(held[..i], before.published, published, held[i]);
        i := i + 1;
      }
      assert held[..|held|] == held && held[|held|..] == [];
      return true, |held|;
    }

    // Runs the endpoint's pipeline: the handler, within a transaction when there is an inbox. `ran` are
    // the publishes of its own committed run.
    method Pipeline(
      name: string, copy: nat, inbox: Transactional.World?, worker: nat, work: Work, faults: Transactional.Faults)
      returns (result: Result<seq<Envelope>, Failure>, ghost ran: Option<seq<Envelope>>)
      requires Valid() && AtStage(state, name, copy) && StageOf(state, name, copy).Handling?
      requires inbox != null ==> inbox.Valid() && inbox.state.Stage(worker).Idle?
      modifies this, inbox
      ensures Valid() && AtStage(state, name, copy)
      ensures state.endpoints[name].retry == old(state).endpoints[name].retry
      ensures old(state).published <= state.published && old(state).endpoints[name].types <= state.endpoints[name].types
      ensures state.endpoints[name].inFlight[copy]
              == InFlight(old(state).endpoints[name].inFlight[copy].pending,
                          match result case Ok(held) => Sending([], held) case Err(failure) => Failing(failure))
      ensures result.Ok? ==> Succeeded(state, name, copy, result.value)
      ensures inbox != null ==> inbox.Valid() && inbox.state.Stage(worker).Idle?
      ensures var envelope := old(state).endpoints[name].inFlight[copy].pending.envelope;
              if inbox == null then PlainResult(state.endpoints[name].types, envelope, work, result)
              else WithinResult(inbox, worker, envelope, work, faults, result, ran)
    {
      hide Reachable, Inbox.Reachable, Conserved, PlainResult, WithinResult;
      ghost var pending := state.endpoints[name].inFlight[copy].pending;
      Others(name, copy);
      ran := None;
      var envelope := state.endpoints[name].inFlight[copy].pending.envelope;
      if inbox == null {
        result := Plain(state.endpoints[name].types, envelope, work);
      } else {
        result, ran := Within(inbox, worker, envelope, work, faults);
      }
      Do(Handled(name, copy, result));
    }

    // Handles a delivery and settles it. It is acked once the handling succeeded, its transaction
    // committed and its publishes were sent. It goes to the error destination when no retry can
    // help or none is left, and is retried while that can't be reached. `handled` is what the
    // pipeline gave, and `ran` are the publishes of its own committed run.
    method Process(
      name: string, copy: nat, inbox: Transactional.World?, worker: nat, work: Work, faults: Transactional.Faults,
      errorType: string, message: string)
      returns (settled: Settlement, ghost handled: Result<seq<Envelope>, Failure>, ghost ran: Option<seq<Envelope>>)
      requires Valid() && AtStage(state, name, copy) && StageOf(state, name, copy).Handling?
      requires inbox != null ==> inbox.Valid() && inbox.state.Stage(worker).Idle?
      modifies this, inbox
      ensures Valid() && name in state.endpoints && copy !in state.endpoints[name].inFlight
      ensures var pending, endpoint := old(state).endpoints[name].inFlight[copy].pending, state.endpoints[name];
              && (handled.Ok? ==> copy in endpoint.succeeded
                                  && endpoint.succeeded[copy] == Success(pending.attempt, handled.value))
              && match settled
                 case Acknowledged(sent) =>
                   && handled == Ok(sent) && copy in endpoint.acked && endpoint.acked[copy] == sent
                   && SentSince(sent, old(state).published, state.published)
                 case Retried(failure, delay) =>
                   && FailedBy(handled, failure)
                   && copy in endpoint.waiting && endpoint.waiting[copy] == pending.(attempt := pending.attempt + 1)
                   && delay == endpoint.retry.DelayAfter(pending.attempt)
                   && (failure == Undecodable || pending.attempt >= endpoint.retry.attempts ==> state.failing)
                 case GaveUp(failure) =>
                   && FailedBy(handled, failure) && pending in endpoint.rejected
                   && ErrorSaid(pending, state.Errors(name), name, errorType, message)
                   && (failure == Undecodable || pending.attempt >= endpoint.retry.attempts)
      ensures inbox != null ==> inbox.Valid() && inbox.state.Stage(worker).Idle?
      ensures var envelope := old(state).endpoints[name].inFlight[copy].pending.envelope;
              if inbox == null
              then exists types ::
                     old(state).endpoints[name].types <= types && PlainResult(types, envelope, work, handled)
              else WithinResult(inbox, worker, envelope, work, faults, handled, ran)
    {
      hide Reachable, Inbox.Reachable, Conserved, PlainResult, WithinResult, SentSince, ErrorCopied;
      ghost var pending, before := state.endpoints[name].inFlight[copy].pending, state;
      var result;
      result, ran := Pipeline(name, copy, inbox, worker, work, faults);
      handled := result;
      var failed := result;
      if result.Ok? {
        ghost var middle := state.published;
        ghost var count;
        var sent;
        sent, count := SendHeld(name, copy, result.value);
        if sent {
          assert result.value[..count] == result.value;
          EarlierSince(result.value, before.published, middle, state.published);
          middle := state.published;
          settled := Acknowledge(name, copy);
          MoreSince(result.value, before.published, middle, state.published);
          return;
        }
        failed := Err(Failure.Handler);
      }
      settled := SettleFailed(name, copy, errorType, message);
    }

    method Acknowledge(name: string, copy: nat) returns (settled: Settlement)
      requires Valid() && AtStage(state, name, copy)
      requires StageOf(state, name, copy).Sending? && StageOf(state, name, copy).left == []
      requires Succeeded(state, name, copy, StageOf(state, name, copy).sent)
      modifies this
      ensures Valid() && name in state.endpoints && old(state).published <= state.published
      ensures settled == Acknowledged(StageOf(old(state), name, copy).sent)
      ensures var pending, endpoint := old(state).endpoints[name].inFlight[copy].pending, state.endpoints[name];
              && copy !in endpoint.inFlight
              && copy in endpoint.acked && endpoint.acked[copy] == settled.sent
              && copy in endpoint.succeeded && endpoint.succeeded[copy] == Success(pending.attempt, settled.sent)
    {
      hide Reachable, Conserved;
      Others(name, copy);
      settled := Acknowledged(StageOf(state, name, copy).sent);
      Do(Ack(name, copy));
    }

    // Retries a failed delivery or gives it up.
    method SettleFailed(name: string, copy: nat, errorType: string, message: string) returns (settled: Settlement)
      requires Valid() && AtStage(state, name, copy) && StageOf(state, name, copy).Failing?
      modifies this
      ensures Valid() && name in state.endpoints && copy !in state.endpoints[name].inFlight
      ensures var before, endpoint := old(state).endpoints[name], state.endpoints[name];
              copy in before.succeeded ==>
                copy in endpoint.succeeded && endpoint.succeeded[copy] == before.succeeded[copy]
      ensures var InFlight(pending, stage) := old(state).endpoints[name].inFlight[copy];
              var endpoint := state.endpoints[name];
              match settled
              case Acknowledged(sent) => false
              case Retried(failure, delay) =>
                && failure == stage.failure
                && copy in endpoint.waiting && endpoint.waiting[copy] == pending.(attempt := pending.attempt + 1)
                && delay == endpoint.retry.DelayAfter(pending.attempt)
                && (failure == Undecodable || pending.attempt >= endpoint.retry.attempts ==> state.failing)
              case GaveUp(failure) =>
                && failure == stage.failure && pending in endpoint.rejected
                && ErrorSaid(pending, state.Errors(name), name, errorType, message)
                && (failure == Undecodable || pending.attempt >= endpoint.retry.attempts)
    {
      hide Reachable, Conserved, ErrorSaid, ErrorEnvelope;
      Others(name, copy);
      var InFlight(pending, stage) := state.endpoints[name].inFlight[copy];
      var failure, retry := stage.failure, state.endpoints[name].retry;
      var delay, _ := retry.Delay(pending.attempt);
      if failure == Failure.Handler && !retry.IsLast(pending.attempt) {
        Do(Retry(name, copy));
        return Retried(failure, delay);
      }
      var failing := state.failing;
      ghost var before := state;
      Do(GiveUp(name, copy, errorType, message));
      if failing {
        return Retried(failure, delay);
      }
      GivenUpSays(before, name, copy, errorType, message);
      before := state;
      Others(name, copy);
      StillSaid(pending, before.Errors(name), state.Errors(name), name, errorType, message);
      Do(Reject(name, copy));
      return GaveUp(failure);
    }
  }

  // The handling this delivery had succeeded and held these publishes.
  ghost predicate Succeeded(state: Transport, name: string, copy: nat, held: seq<Envelope>)
    requires AtStage(state, name, copy)
  {
    var endpoint := state.endpoints[name];
    copy in endpoint.succeeded && endpoint.succeeded[copy] == Success(endpoint.inFlight[copy].pending.attempt, held)
  }

  // Why a delivery failed: its pipeline did, or the broker refused one of its publishes.
  predicate FailedBy(handled: Result<seq<Envelope>, Failure>, failure: Failure) {
    handled == Err(failure) || (handled.Ok? && handled.value != [] && failure == Failure.Handler)
  }

  // The broker accepted the envelopes, in order, after the ones before.
  ghost predicate SentSince(envelopes: seq<Envelope>, before: seq<Envelope>, published: seq<Envelope>) {
    before <= published && SentInOrder(envelopes, published[|before|..])
  }

  lemma NothingSent(published: seq<Envelope>)
    ensures SentSince([], published, published)
  {
  }

  lemma MoreSince(envelopes: seq<Envelope>, before: seq<Envelope>, published: seq<Envelope>, more: seq<Envelope>)
    requires SentSince(envelopes, before, published) && published <= more
    ensures SentSince(envelopes, before, more)
  {
    MoreSent(envelopes, published[|before|..], more[|before|..]);
  }

  lemma NextSince(envelopes: seq<Envelope>, before: seq<Envelope>, published: seq<Envelope>, envelope: Envelope)
    requires SentSince(envelopes, before, published)
    ensures SentSince(envelopes + [envelope], before, published + [envelope])
  {
    NextSent(envelopes, published[|before|..], envelope);
    assert (published + [envelope])[|before|..] == published[|before|..] + [envelope];
  }

  lemma {:induction false} EarlierSent(envelopes: seq<Envelope>, first: seq<Envelope>, published: seq<Envelope>)
    requires SentInOrder(envelopes, published)
    ensures SentInOrder(envelopes, first + published)
    decreases |published|
  {
    var all := first + published;
    if envelopes != [] {
      var before, last := published[..|published| - 1], |envelopes| - 1;
      assert all[..|all| - 1] == first + before;
      if SentInOrder(envelopes, before) {
        EarlierSent(envelopes, first, before);
      } else {
        EarlierSent(envelopes[..last], first, before);
      }
    }
  }

  lemma EarlierSince(envelopes: seq<Envelope>, before: seq<Envelope>, middle: seq<Envelope>, published: seq<Envelope>)
    requires before <= middle && SentSince(envelopes, middle, published)
    ensures SentSince(envelopes, before, published)
  {
    EarlierSent(envelopes, middle[|before|..], published[|middle|..]);
    assert published[|before|..] == middle[|before|..] + published[|middle|..];
  }

  // What an endpoint without an inbox makes of a delivery.
  ghost predicate PlainResult(
    types: set<string>, envelope: Envelope, work: Work, result: Result<seq<Envelope>, Failure>)
  {
    if envelope.messageType !in types then result == Err(Undecodable)
    else
      match work.end
      case Err(failure) => result == Err(failure)
      case Ok(_) =>
        && result == Ok(HeldBy(envelope, work.messages)) && Carries(envelope, work.messages, result.value)
  }

  // The pipeline when there is no inbox.
  method Plain(types: set<string>, envelope: Envelope, work: Work) returns (result: Result<seq<Envelope>, Failure>)
    ensures PlainResult(types, envelope, work, result)
  {
    if envelope.messageType !in types {
      return Err(Undecodable);
    }
    var context := new HandlerContext(envelope);
    var outcome := Call(context, work);
    match outcome
    case Err(failure) => return Err(failure);
    case Ok(_) => return Ok(context.held);
  }

  // What the pipeline with an inbox makes of a delivery: success only with a committed run for its
  // message, and its own run's publishes only without an outbox.
  ghost predicate WithinResult(
    inbox: Transactional.World, worker: nat, envelope: Envelope, work: Work, faults: Transactional.Faults,
    result: Result<seq<Envelope>, Failure>, ran: Option<seq<Envelope>>)
    reads inbox
  {
    match result
    case Err(failure) => Transactional.MayFail(inbox.config, inbox.state, worker, envelope, work, faults, failure)
    case Ok(held) =>
      && Inbox.Recognised(inbox.config, inbox.state, worker, envelope)
      && held == (if ran.None? || inbox.config.outbox then [] else ran.value)
      && (ran.Some? ==>
            && ran.value == HeldBy(envelope, work.messages) && Carries(envelope, work.messages, ran.value)
            && Inbox.HandlerRun(inbox.config.endpoint(worker), envelope, ran.value) in inbox.state.runs)
  }

  // The pipeline when there is one.
  method Within(inbox: Transactional.World, worker: nat, envelope: Envelope, work: Work, faults: Transactional.Faults)
    returns (result: Result<seq<Envelope>, Failure>, ran: Option<seq<Envelope>>)
    requires inbox.Valid() && inbox.state.Stage(worker).Idle?
    modifies inbox
    ensures inbox.Valid() && inbox.state.Stage(worker).Idle?
    ensures WithinResult(inbox, worker, envelope, work, faults, result, ran)
  {
    hide Inbox.Reachable, HeldBy, Carries;
    result, ran := inbox.Run(worker, envelope, work, faults);
    ghost var before := inbox.state;
    inbox.Do(Inbox.Settle(worker));
    SettlesAlone(inbox.config, before, worker, envelope);
  }

  // Settling a delivery leaves the other transactions their receipts.
  lemma SettlesAlone(config: Inbox.Config, state: Inbox.State, worker: nat, envelope: Envelope)
    requires Inbox.Enabled(config, state, Inbox.Settle(worker))
    ensures var next := Inbox.Apply(config, state, Inbox.Settle(worker));
            && next.runs == state.runs
            && (Transactional.HeldElsewhere(config, state, worker, envelope) ==>
                  Transactional.HeldElsewhere(config, next, worker, envelope))
  {
    var next := Inbox.Apply(config, state, Inbox.Settle(worker));
    if Transactional.HeldElsewhere(config, state, worker, envelope) {
      var other :| other in state.stages && other != worker
        && Inbox.Holds(config, state, other) == Some(Inbox.KeyOf(config.endpoint(worker), envelope));
      assert other in next.stages && Inbox.Holds(config, next, other) == Inbox.Holds(config, state, other);
    }
  }

  lemma GivenUpSays(transport: Transport, name: string, copy: nat, errorType: string, message: string)
    requires Enabled(transport, GiveUp(name, copy, errorType, message)) && !transport.failing
    ensures ErrorSaid(transport.endpoints[name].inFlight[copy].pending,
                      Apply(transport, GiveUp(name, copy, errorType, message)).Errors(name), name, errorType, message)
  {
    hide DecimalText;
    var pending := transport.endpoints[name].inFlight[copy].pending;
    var error := ErrorEnvelope(pending.envelope, name, errorType, message, pending.attempt);
    assert Apply(transport, GiveUp(name, copy, errorType, message)).Errors(name) == transport.Errors(name) + [error];
  }

  lemma StillSaid(
    pending: Pending, errors: seq<Envelope>, more: seq<Envelope>, endpoint: string, errorType: string, message: string)
    requires ErrorSaid(pending, errors, endpoint, errorType, message) && errors <= more
    ensures ErrorSaid(pending, more, endpoint, errorType, message)
  {
    hide DecimalText;
    assert forall error <- errors :: error in more;
  }

  // Sending the next publish changes only the stage of this copy, here.
  lemma Advances(transport: Transport, name: string, copy: nat)
    requires Enabled(transport, SendNext(name, copy))
    ensures var next, Sending(sent, left) := Apply(transport, SendNext(name, copy)), StageOf(transport, name, copy);
            && AtStage(next, name, copy)
            && next.endpoints[name].retry == transport.endpoints[name].retry
            && next.endpoints[name].inFlight[copy]
               == InFlight(transport.endpoints[name].inFlight[copy].pending,
                           if transport.failing then Failing(Failure.Handler) else Sending(sent + [left[0]], left[1..]))
  {
  }

  lemma {:induction false} RunOn(first: Transport, steps: seq<Step>, middle: Transport, step: Step)
    requires Run(first, steps, middle) && Enabled(middle, step)
    ensures Run(first, steps + [step], Apply(middle, step))
    decreases |steps|
  {
    hide Enabled, Apply;
    if steps == [] {
      assert ([] + [step])[1..] == [];
    } else {
      RunOn(Apply(first, steps[0]), steps[1..], middle, step);
      assert (steps + [step])[1..] == steps[1..] + [step];
    }
  }

  lemma Reach(transport: Transport, step: Step)
    requires Reachable(transport) && Enabled(transport, step)
    ensures Reachable(Apply(transport, step))
  {
    var steps: seq<Step> :| Run(Transport(map[], [], map[], false), steps, transport);
    RunOn(Transport(map[], [], map[], false), steps, transport, step);
    hide Enabled, Apply;
  }

  lemma ReachableConserved(transport: Transport)
    requires Reachable(transport)
    ensures Conserved(transport)
  {
    var steps: seq<Step> :| Run(Transport(map[], [], map[], false), steps, transport);
    ConservedRun(Transport(map[], [], map[], false), steps, transport);
  }
}
