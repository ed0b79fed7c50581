/** The order in which an endpoint's copies are delivered for the first time. */
module FirstDeliveries {
  import opened Conservation
  import opened Deliveries
  import opened Envelopes
  import opened Handlers
  import opened Options
  import opened Retry

  // A copy that was never delivered is in the queue for its first attempt.
  ghost predicate Queued(endpoint: Endpoint, copy: nat) {
    exists pending <- endpoint.pending :: pending.copy == copy && pending.attempt == 1
  }

  // First attempts are queued in the order their copies were made, after all that were delivered.
  ghost predicate InOrder(endpoint: Endpoint) {
    && (forall i, j | 0 <= i < j < |endpoint.pending| ::
          endpoint.pending[i].attempt == endpoint.pending[j].attempt == 1 ==>
            endpoint.pending[i].copy < endpoint.pending[j].copy)
    && (forall pending <- endpoint.pending, copy <- endpoint.handed ::
          pending.attempt == 1 ==> copy < pending.copy)
    && (forall copy: nat | copy < |endpoint.copies| :: copy in endpoint.handed || Queued(endpoint, copy))
  }

  // No copy comes again as attempt 1, and each knows whether it was delivered.
  ghost predicate Attempted(endpoint: Endpoint) {
    && (forall pending <- endpoint.pending :: pending.copy < |endpoint.copies| && pending.attempt >= 1)
    && (forall pending <- endpoint.pending :: pending.attempt > 1 ==> pending.copy in endpoint.handed)
    && (forall copy <- endpoint.inFlight ::
          endpoint.inFlight[copy].pending.attempt >= 1 && endpoint.inFlight[copy].pending.copy in endpoint.handed)
    && (forall copy <- endpoint.waiting ::
          endpoint.waiting[copy].attempt > 1 && endpoint.waiting[copy].copy in endpoint.handed)
    && (forall copy <- endpoint.handed :: copy < |endpoint.copies| && endpoint.handed[copy] != [])
  }

  ghost predicate Ordered(endpoint: Endpoint) {
    InOrder(endpoint) && Attempted(endpoint)
  }

  lemma PushOrdered(endpoint: Endpoint, envelope: Envelope)
    requires Ordered(endpoint)
    ensures Ordered(Push(endpoint, envelope))
  {
    var after := Push(endpoint, envelope);
    var last := after.pending[|endpoint.pending|];
    assert last in after.pending && last.copy == |endpoint.copies| && last.attempt == 1;
    forall copy: nat | copy < |after.copies|
      ensures copy in after.handed || Queued(after, copy)
    {
      if copy < |endpoint.copies| && copy !in endpoint.handed {
        StillQueued(endpoint, after, copy);
      }
    }
    assert forall pending <- after.pending :: pending in endpoint.pending || pending == last;
    hide Queued;
  }

  lemma StillQueued(endpoint: Endpoint, after: Endpoint, copy: nat)
    requires Queued(endpoint, copy) && endpoint.pending <= after.pending
    ensures Queued(after, copy)
  {
    assert forall pending <- endpoint.pending :: pending in after.pending;
  }

  lemma ReceiveOrdered(endpoint: Endpoint)
    requires Ordered(endpoint) && endpoint.pending != []
    ensures Ordered(Received(endpoint))
  {
    ReceiveInOrder(endpoint);
    ReceiveAttempted(endpoint);
    hide InOrder, Attempted;
  }

  lemma ReceiveAttempted(endpoint: Endpoint)
    requires Attempted(endpoint) && endpoint.pending != []
    ensures Attempted(Received(endpoint))
  {
    assert endpoint.pending[0] in endpoint.pending;
    assert forall pending <- endpoint.pending[1..] :: pending in endpoint.pending;
  }

  lemma ReceiveInOrder(endpoint: Endpoint)
    requires Ordered(endpoint) && endpoint.pending != []
    ensures InOrder(Received(endpoint))
  {
    var after, head := Received(endpoint), endpoint.pending[0];
    assert head in endpoint.pending;
    LaterThanHead(endpoint);
    forall copy: nat | copy < |after.copies|
      ensures copy in after.handed || Queued(after, copy)
    {
      if copy !in after.handed {
        StaysQueued(endpoint, after, copy);
      }
    }
    hide Queued, Attempted;
    assert after.handed.Keys == endpoint.handed.Keys + {head.copy};
  }

  // The first attempts behind the head of the queue are of copies made after everything delivered,
  // with the head.
  lemma LaterThanHead(endpoint: Endpoint)
    requires Ordered(endpoint) && endpoint.pending != []
    ensures forall pending <- endpoint.pending[1..], copy: nat |
              pending.attempt == 1 && (copy in endpoint.handed || copy == endpoint.pending[0].copy) ::
              copy < pending.copy
  {
    hide Queued;
    var head := endpoint.pending[0];
    assert head in endpoint.pending;
    forall pending <- endpoint.pending[1..], copy: nat |
      pending.attempt == 1 && (copy in endpoint.handed || copy == head.copy)
      ensures copy < pending.copy
    {
      var i :| 0 <= i < |endpoint.pending| - 1 && endpoint.pending[1..][i] == pending;
      assert endpoint.pending[i + 1] == pending;
    }
  }

  lemma StaysQueued(endpoint: Endpoint, after: Endpoint, copy: nat)
    requires Queued(endpoint, copy) && endpoint.pending != [] && endpoint.pending[0].copy != copy
    requires after.pending == endpoint.pending[1..]
    ensures Queued(after, copy)
  {
    var pending :| pending in endpoint.pending && pending.copy == copy && pending.attempt == 1;
    assert endpoint.pending == [endpoint.pending[0]] + after.pending;
  }

  // Any other step adds only copies that were delivered before to the end of the queue.
  lemma OtherwiseOrdered(endpoint: Endpoint, after: Endpoint)
    requires Ordered(endpoint) && after.handed == endpoint.handed && after.copies == endpoint.copies
    requires || after.pending == endpoint.pending
             || exists again: Pending ::
                  after.pending == endpoint.pending + [again] && again.attempt > 1 && again.copy in endpoint.handed
    requires forall copy <- after.inFlight ::
               copy in endpoint.inFlight && after.inFlight[copy].pending == endpoint.inFlight[copy].pending
    requires forall copy <- after.waiting ::
               after.waiting[copy].attempt > 1 && after.waiting[copy].copy in endpoint.handed
    ensures Ordered(after)
  {
    forall copy: nat | copy < |after.copies|
      ensures copy in after.handed || Queued(after, copy)
    {
      if copy !in endpoint.handed {
        StillQueued(endpoint, after, copy);
      }
    }
    hide Queued;
  }

  lemma EndpointOrdered(transport: Transport, step: Step, name: string)
    requires Enabled(transport, step) && name in Apply(transport, step).endpoints
    requires forall other <- transport.endpoints :: Ordered(transport.endpoints[other])
    ensures Ordered(Apply(transport, step).endpoints[name])
  {
    hide Ordered, ErrorEnvelope, Push;
    match step
    case Publish(envelope) =>
      if !transport.failing {
        PublishOrdered(transport, envelope, name);
      }
    case SendNext(sender, copy) =>
      if !transport.failing {
        PublishOrdered(transport, StageOf(transport, sender, copy).left[0], name);
      }
      if sender == name {
        SendOrdered(transport, name, copy);
      }
    case Receive(receiver) =>
      if receiver == name {
        ReceiveOrdered(transport.endpoints[name]);
      }
    case Subscribe(_, types, retry) =>
      if name !in transport.endpoints {
        NewOrdered(types, retry);
      } else if step.name == name {
        OtherwiseStep(transport, step);
      }
    case SetFailing(_) =>
    case _ =>
      if step.name == name {
        OtherwiseStep(transport, step);
      }
  }

  lemma NewOrdered(types: set<string>, retry: RetryPolicy)
    ensures Ordered(Endpoint(types, retry, [], map[], map[], map[], [], [], map[], map[]))
  {
  }

  lemma PublishOrdered(transport: Transport, envelope: Envelope, name: string)
    requires name in transport.endpoints && Ordered(transport.endpoints[name])
    ensures name in PublishTo(transport, envelope).endpoints
    ensures Ordered(PublishTo(transport, envelope).endpoints[name])
  {
    PushOrdered(transport.endpoints[name], envelope);
    hide Ordered;
  }

  lemma AdvanceOrdered(endpoint: Endpoint, copy: nat, stage: Stage)
    requires Ordered(endpoint) && copy in endpoint.inFlight
    ensures Ordered(Advance(endpoint, copy, stage))
  {
    OtherwiseOrdered(endpoint, Advance(endpoint, copy, stage));
  }

  lemma SendOrdered(transport: Transport, name: string, copy: nat)
    requires Enabled(transport, SendNext(name, copy)) && Ordered(transport.endpoints[name])
    ensures Ordered(Apply(transport, SendNext(name, copy)).endpoints[name])
  {
    hide Ordered;
    var Sending(sent, left) := StageOf(transport, name, copy);
    if transport.failing {
      AdvanceOrdered(transport.endpoints[name], copy, Failing(Failure.Handler));
    } else {
      PublishOrdered(transport, left[0], name);
      AdvanceOrdered(PublishTo(transport, left[0]).endpoints[name], copy, Sending(sent + [left[0]], left[1..]));
    }
  }

  // A step that neither publishes nor hands out a copy.
  lemma OtherwiseStep(transport: Transport, step: Step)
    requires Enabled(transport, step)
    requires step.Subscribe? || step.Handled? || step.Ack? || step.Retry? || step.GiveUp? || step.Reject? || step.Wake?
             || step.Drop?
    requires step.name in transport.endpoints && Ordered(transport.endpoints[step.name])
    ensures Ordered(Apply(transport, step).endpoints[step.name])
  {
    var endpoint := transport.endpoints[step.name];
    if !step.Subscribe? && !step.Wake? {
      LeaveOrdered(endpoint, step.copy);
    }
    match step
    case Subscribe(_, types, _) => OtherwiseOrdered(endpoint, endpoint.(types := endpoint.types + types));
    case Handled(_, copy, result) => EndOrdered(endpoint, copy, result);
    case GiveUp(_, copy, _, _) => AdvanceOrdered(endpoint, copy, GivenUp);
    case Wake(_, copy) => WakeOrdered(endpoint, copy);
    case _ =>
    hide Ordered, Ended, Advance, Later, Acked, Rejected, Dropped, Woken, ErrorEnvelope;
  }

  lemma EndOrdered(endpoint: Endpoint, copy: nat, result: Result<seq<Envelope>, Failure>)
    requires Ordered(endpoint) && copy in endpoint.inFlight
    ensures Ordered(Ended(endpoint, copy, result))
  {
    OtherwiseOrdered(endpoint, Ended(endpoint, copy, result));
  }

  lemma LeaveOrdered(endpoint: Endpoint, copy: nat)
    requires Ordered(endpoint) && copy in endpoint.inFlight
    ensures Ordered(Acked(endpoint, copy)) && Ordered(Rejected(endpoint, copy))
    ensures Ordered(Later(endpoint, copy)) && Ordered(Dropped(endpoint, copy))
  {
    var again := Next(endpoint.inFlight[copy].pending);
    assert again.attempt > 1 && again.copy in endpoint.handed;
    hide InOrder;
    OtherwiseOrdered(endpoint, Acked(endpoint, copy));
    OtherwiseOrdered(endpoint, Rejected(endpoint, copy));
    OtherwiseOrdered(endpoint, Later(endpoint, copy));
    OtherwiseOrdered(endpoint, Dropped(endpoint, copy));
  }

  lemma WakeOrdered(endpoint: Endpoint, copy: nat)
    requires Ordered(endpoint) && copy in endpoint.waiting
    ensures Ordered(Woken(endpoint, copy))
  {
    OtherwiseOrdered(endpoint, Woken(endpoint, copy));
  }

  lemma {:induction false} OrderedRun(first: Transport, steps: seq<Step>, last: Transport)
    requires Run(first, steps, last)
    requires forall name <- first.endpoints :: Ordered(first.endpoints[name])
    ensures forall name <- last.endpoints :: Ordered(last.endpoints[name])
    decreases |steps|
  {
    if steps != [] {
      var next := Apply(first, steps[0]);
      forall name <- next.endpoints
        ensures Ordered(next.endpoints[name])
      {
        EndpointOrdered(first, steps[0], name);
      }
      hide Ordered, Enabled, Apply;
      OrderedRun(next, steps[1..], last);
    }
  }

  // In every run, an endpoint's copies are delivered for the first time in the order they were made,
  // however many subscribers share it and whatever is retried in between.
  lemma FirstInFirstOut(transport: Transport, name: string, earlier: nat, later: nat)
    requires Reachable(transport) && name in transport.endpoints
    requires earlier < later < |transport.endpoints[name].copies|
    ensures transport.endpoints[name].Attempts(later) != [] ==> transport.endpoints[name].Attempts(earlier) != []
  {
    var start := Transport(map[], [], map[], false);
    var steps: seq<Step> :| Run(start, steps, transport);
    OrderedRun(start, steps, transport);
    assert Ordered(transport.endpoints[name]);
  }
}
