/** No copy is lost, doubled or settled without cause, in any run of the in-memory transport. */
module Conservation {
  import opened Deliveries
  import opened Envelopes
  import opened Handlers
  import opened Options
  import opened Retry

  ghost predicate Has(places: seq<Pending>, copy: nat) {
    exists pending <- places :: pending.copy == copy
  }

  ghost predicate Unique(places: seq<Pending>) {
    forall i, j | 0 <= i < j < |places| :: places[i].copy != places[j].copy
  }

  function One(condition: bool): nat {
    if condition then 1 else 0
  }

  // In how many places a copy is.
  ghost function Places(endpoint: Endpoint, copy: nat): nat {
    One(Has(endpoint.pending, copy)) + One(copy in endpoint.inFlight) + One(copy in endpoint.waiting)
    + One(copy in endpoint.acked) + One(Has(endpoint.rejected, copy))
  }

  // A copy is in the queue, and among the rejected ones, at most once, and in exactly one place
  // altogether once it is made.
  ghost predicate Placed(endpoint: Endpoint) {
    && Unique(endpoint.pending) && Unique(endpoint.rejected)
    && (forall copy: nat :: Places(endpoint, copy) == One(copy < |endpoint.copies|))
  }

  ghost predicate SameCopy(endpoint: Endpoint, pending: Pending) {
    pending.copy < |endpoint.copies| && pending.envelope == endpoint.copies[pending.copy]
  }

  // A copy that waits is due its next attempt number; one that was handed out has the last.
  ghost predicate Waits(endpoint: Endpoint, pending: Pending) {
    SameCopy(endpoint, pending) && pending.attempt == |endpoint.Attempts(pending.copy)| + 1
  }

  ghost predicate Flies(endpoint: Endpoint, pending: Pending) {
    SameCopy(endpoint, pending) && pending.attempt == |endpoint.Attempts(pending.copy)|
  }

  ghost predicate CountsUp(attempts: seq<nat>) {
    forall i | 0 <= i < |attempts| :: attempts[i] == i + 1
  }

  // Every copy keeps its envelope, and its deliveries are numbered 1, 2, 3 and so on.
  ghost predicate Numbered(endpoint: Endpoint) {
    && (forall pending <- endpoint.pending :: Waits(endpoint, pending))
    && (forall copy <- endpoint.waiting ::
          endpoint.waiting[copy].copy == copy && Waits(endpoint, endpoint.waiting[copy]))
    && (forall copy <- endpoint.inFlight ::
          endpoint.inFlight[copy].pending.copy == copy && Flies(endpoint, endpoint.inFlight[copy].pending))
    && (forall pending <- endpoint.rejected :: SameCopy(endpoint, pending))
    && (forall copy: nat :: CountsUp(endpoint.Attempts(copy)))
    && (forall copy <- endpoint.handed :: copy < |endpoint.copies|)
  }

  // The broker accepted the envelopes in this order, whatever it accepted in between.
  ghost predicate SentInOrder(envelopes: seq<Envelope>, published: seq<Envelope>)
    decreases |published|
  {
    || envelopes == []
    || (published != []
        && var before, last := published[..|published| - 1], |envelopes| - 1;
           || SentInOrder(envelopes, before)
           || (envelopes[last] == published[|published| - 1] && SentInOrder(envelopes[..last], before)))
  }

  lemma {:induction false} MoreSent(envelopes: seq<Envelope>, published: seq<Envelope>, more: seq<Envelope>)
    requires SentInOrder(envelopes, published) && published <= more
    ensures SentInOrder(envelopes, more)
    decreases |more|
  {
    if |published| < |more| {
      MoreSent(envelopes, published, more[..|more| - 1]);
    } else {
      assert published == more;
    }
  }

  lemma NextSent(envelopes: seq<Envelope>, published: seq<Envelope>, envelope: Envelope)
    requires SentInOrder(envelopes, published)
    ensures SentInOrder(envelopes + [envelope], published + [envelope])
  {
    var more, all := envelopes + [envelope], published + [envelope];
    assert more[..|more| - 1] == envelopes && all[..|all| - 1] == published;
  }

  // What was sent in order was accepted.
  lemma {:induction false} SentAreIn(envelopes: seq<Envelope>, published: seq<Envelope>)
    requires SentInOrder(envelopes, published)
    ensures forall envelope <- envelopes :: envelope in published
    decreases |published|
  {
    if envelopes != [] {
      var before, last := published[..|published| - 1], |envelopes| - 1;
      if SentInOrder(envelopes, before) {
        SentAreIn(envelopes, before);
      } else {
        SentAreIn(envelopes[..last], before);
        assert envelopes == envelopes[..last] + [envelopes[last]];
      }
    }
  }

  // An error copy of the message was accepted.
  ghost predicate ErrorCopied(envelope: Envelope, errors: seq<Envelope>) {
    exists error <- errors :: error.(extensions := envelope.extensions) == envelope
  }

  // The handling of a copy's last delivery succeeded and held these publishes.
  ghost predicate LastHandlingHeld(endpoint: Endpoint, copy: nat, held: seq<Envelope>) {
    copy in endpoint.succeeded && endpoint.succeeded[copy] == Success(|endpoint.Attempts(copy)|, held)
  }

  // What settling a copy rests on: a handling that succeeded and whose held publishes were all
  // accepted, or an accepted error copy.
  ghost predicate Justified(endpoint: Endpoint, published: seq<Envelope>, errors: seq<Envelope>) {
    && (forall copy <- endpoint.inFlight ::
          StageJustified(endpoint, copy, endpoint.inFlight[copy].pending, endpoint.inFlight[copy].stage,
                         published, errors))
    && (forall copy <- endpoint.acked ::
          LastHandlingHeld(endpoint, copy, endpoint.acked[copy]) && SentInOrder(endpoint.acked[copy], published))
    && (forall pending <- endpoint.rejected :: ErrorCopied(pending.envelope, errors))
  }

  ghost predicate StageJustified(
    endpoint: Endpoint, copy: nat, pending: Pending, stage: Stage, published: seq<Envelope>, errors: seq<Envelope>)
  {
    && (stage.Sending? ==>
          LastHandlingHeld(endpoint, copy, stage.sent + stage.left) && SentInOrder(stage.sent, published))
    && (stage.GivenUp? ==> ErrorCopied(pending.envelope, errors))
  }

  ghost predicate Conserved(transport: Transport) {
    forall name <- transport.endpoints ::
      && Placed(transport.endpoints[name])
      && Numbered(transport.endpoints[name])
      && Justified(transport.endpoints[name], transport.published, transport.Errors(name))
  }

  ghost predicate Right(endpoint: Endpoint, published: seq<Envelope>, errors: seq<Envelope>) {
    Placed(endpoint) && Numbered(endpoint) && Justified(endpoint, published, errors)
  }

  lemma Grows(
    endpoint: Endpoint, published: seq<Envelope>, errors: seq<Envelope>, more: seq<Envelope>, others: seq<Envelope>)
    requires Right(endpoint, published, errors)
    requires published <= more && errors <= others
    ensures Right(endpoint, more, others)
  {
    hide Placed, Numbered, LastHandlingHeld, SentInOrder;
    assert forall error <- errors :: error in others;
    forall sent: seq<Envelope> | SentInOrder(sent, published)
      ensures SentInOrder(sent, more)
    {
      MoreSent(sent, published, more);
    }
  }

  lemma Appended(places: seq<Pending>, last: Pending)
    requires Unique(places) && !Has(places, last.copy)
    ensures Unique(places + [last])
    ensures forall copy: nat :: Has(places + [last], copy) <==> Has(places, copy) || copy == last.copy
  {
    var more := places + [last];
    assert forall i | 0 <= i < |places| :: more[i] == places[i] && Has(places, places[i].copy);
    forall copy: nat
      ensures Has(more, copy) <==> Has(places, copy) || copy == last.copy
    {
      assert more[|places|].copy == last.copy;
      if Has(places, copy) {
        var i :| 0 <= i < |places| && places[i].copy == copy;
        assert more[i].copy == copy;
      }
    }
  }

  lemma Popped(places: seq<Pending>)
    requires Unique(places) && places != []
    ensures Unique(places[1..]) && Has(places, places[0].copy)
    ensures forall copy: nat :: Has(places[1..], copy) <==> Has(places, copy) && copy != places[0].copy
  {
    forall copy: nat
      ensures Has(places[1..], copy) <==> Has(places, copy) && copy != places[0].copy
    {
      if Has(places, copy) && copy != places[0].copy {
        var i :| 0 <= i < |places| && places[i].copy == copy;
        assert places[1..][i - 1].copy == copy;
      }
      if Has(places[1..], copy) {
        var i :| 0 <= i < |places[1..]| && places[1..][i].copy == copy;
        assert places[i + 1].copy == copy;
      }
    }
  }

  // A copy that leaves the subscribers' hands for one other place, or the queue for them, or the
  // waiting ones for the queue, is still in one place.
  lemma PushPlaced(endpoint: Endpoint, envelope: Envelope)
    requires Placed(endpoint)
    ensures Placed(Push(endpoint, envelope))
  {
    hide Has, Unique;
    assert Places(endpoint, |endpoint.copies|) == 0;
    Appended(endpoint.pending, Pending(|endpoint.copies|, envelope, 1));
    forall copy: nat
      ensures Places(Push(endpoint, envelope), copy) == One(copy < |endpoint.copies| + 1)
    {
      assert Places(endpoint, copy) == One(copy < |endpoint.copies|);
    }
  }

  // Every other way a copy moves: from where it is to where it goes.
  lemma Moves(before: Endpoint, after: Endpoint, moved: nat)
    requires Placed(before) && before.copies == after.copies
    requires Unique(after.pending) && Unique(after.rejected)
    requires forall copy: nat | copy != moved :: Places(after, copy) == Places(before, copy)
    requires Places(before, moved) == 1 && Places(after, moved) == 1
    ensures Placed(after)
  {
    hide Places, Unique;
    assert Places(before, moved) == One(moved < |before.copies|);
  }

  lemma ReceivePlaced(endpoint: Endpoint)
    requires Placed(endpoint) && endpoint.pending != []
    ensures Placed(Received(endpoint))
  {
    hide Has, Unique;
    Popped(endpoint.pending);
    var moved := endpoint.pending[0].copy;
    assert Places(endpoint, moved) == One(moved < |endpoint.copies|);
    Moves(endpoint, Received(endpoint), moved);
  }

  lemma AdvancePlaced(endpoint: Endpoint, copy: nat, stage: Stage)
    requires Placed(endpoint) && copy in endpoint.inFlight
    ensures Placed(Advance(endpoint, copy, stage))
  {
    hide Has, Unique;
    var after := Advance(endpoint, copy, stage);
    assert after.inFlight.Keys == endpoint.inFlight.Keys;
    assert forall other: nat :: Places(after, other) == Places(endpoint, other);
  }

  lemma LeavePlaced(endpoint: Endpoint, after: Endpoint, copy: nat)
    requires Placed(endpoint) && copy in endpoint.inFlight && Numbered(endpoint)
    requires || after == Later(endpoint, copy)
             || after == Acked(endpoint, copy)
             || after == Rejected(endpoint, copy)
             || after == Dropped(endpoint, copy)
    ensures Placed(after)
  {
    LaterPlaced(endpoint, copy);
    AckedPlaced(endpoint, copy);
    RejectedPlaced(endpoint, copy);
    DroppedPlaced(endpoint, copy);
    hide Placed, Numbered, Later, Acked, Rejected, Dropped;
  }

  lemma LaterPlaced(endpoint: Endpoint, copy: nat)
    requires Placed(endpoint) && copy in endpoint.inFlight && Numbered(endpoint)
    ensures Placed(Later(endpoint, copy))
  {
    hide Has, Unique;
    assert Places(endpoint, copy) == One(copy < |endpoint.copies|);
    Moves(endpoint, Later(endpoint, copy), copy);
  }

  lemma AckedPlaced(endpoint: Endpoint, copy: nat)
    requires Placed(endpoint) && copy in endpoint.inFlight && Numbered(endpoint)
    ensures Placed(Acked(endpoint, copy))
  {
    hide Has, Unique;
    assert Places(endpoint, copy) == One(copy < |endpoint.copies|);
    Moves(endpoint, Acked(endpoint, copy), copy);
  }

  lemma RejectedPlaced(endpoint: Endpoint, copy: nat)
    requires Placed(endpoint) && copy in endpoint.inFlight && Numbered(endpoint)
    ensures Placed(Rejected(endpoint, copy))
  {
    hide Has, Unique;
    assert Places(endpoint, copy) == One(copy < |endpoint.copies|);
    Appended(endpoint.rejected, endpoint.inFlight[copy].pending);
    Moves(endpoint, Rejected(endpoint, copy), copy);
  }

  lemma DroppedPlaced(endpoint: Endpoint, copy: nat)
    requires Placed(endpoint) && copy in endpoint.inFlight && Numbered(endpoint)
    ensures Placed(Dropped(endpoint, copy))
  {
    hide Has, Unique;
    assert Places(endpoint, copy) == One(copy < |endpoint.copies|);
    Appended(endpoint.pending, Next(endpoint.inFlight[copy].pending));
    Moves(endpoint, Dropped(endpoint, copy), copy);
  }

  lemma WakePlaced(endpoint: Endpoint, copy: nat)
    requires Placed(endpoint) && copy in endpoint.waiting && Numbered(endpoint)
    ensures Placed(Woken(endpoint, copy))
  {
    hide Has, Unique;
    assert Places(endpoint, copy) == One(copy < |endpoint.copies|);
    Appended(endpoint.pending, endpoint.waiting[copy]);
    Moves(endpoint, Woken(endpoint, copy), copy);
  }

  lemma PushRight(endpoint: Endpoint, published: seq<Envelope>, errors: seq<Envelope>, envelope: Envelope)
    requires Right(endpoint, published, errors)
    ensures Right(Push(endpoint, envelope), published, errors)
  {
    PushPlaced(endpoint, envelope);
    PushNumbered(endpoint, envelope);
    hide Placed, Numbered;
  }

  // Copies that don't move are due what they were.
  lemma Untouched(before: Endpoint, after: Endpoint, pending: Pending)
    requires before.copies <= after.copies && after.Attempts(pending.copy) == before.Attempts(pending.copy)
    ensures Waits(before, pending) ==> Waits(after, pending)
    ensures Flies(before, pending) ==> Flies(after, pending)
    ensures SameCopy(before, pending) ==> SameCopy(after, pending)
  {
  }

  lemma PushNumbered(endpoint: Endpoint, envelope: Envelope)
    requires Numbered(endpoint)
    ensures Numbered(Push(endpoint, envelope))
  {
    var after := Push(endpoint, envelope);
    forall pending: Pending
      ensures Waits(endpoint, pending) ==> Waits(after, pending)
      ensures Flies(endpoint, pending) ==> Flies(after, pending)
      ensures SameCopy(endpoint, pending) ==> SameCopy(after, pending)
    {
      Untouched(endpoint, after, pending);
    }
    assert Waits(after, Pending(|endpoint.copies|, envelope, 1));
    assert forall copy: nat :: after.Attempts(copy) == endpoint.Attempts(copy);
    hide Waits, Flies, SameCopy, CountsUp;
  }

  lemma ReceiveRight(endpoint: Endpoint, published: seq<Envelope>, errors: seq<Envelope>)
    requires Right(endpoint, published, errors) && endpoint.pending != []
    ensures Right(Received(endpoint), published, errors)
  {
    ReceivePlaced(endpoint);
    ReceiveNumbered(endpoint);
    ReceiveJustified(endpoint, published, errors);
    hide Placed, Numbered, Justified;
  }

  lemma ReceiveJustified(endpoint: Endpoint, published: seq<Envelope>, errors: seq<Envelope>)
    requires Right(endpoint, published, errors) && endpoint.pending != []
    ensures Justified(Received(endpoint), published, errors)
  {
    MovedApart(endpoint);
    var after, moved := Received(endpoint), endpoint.pending[0].copy;
    forall copy: nat, held: seq<Envelope> | copy != moved
      ensures LastHandlingHeld(after, copy, held) == LastHandlingHeld(endpoint, copy, held)
    {
      assert after.Attempts(copy) == endpoint.Attempts(copy);
    }
    hide Placed, Numbered, SentInOrder, ErrorCopied, LastHandlingHeld;
  }

  lemma MovedApart(endpoint: Endpoint)
    requires Placed(endpoint) && endpoint.pending != []
    ensures var moved := endpoint.pending[0].copy;
            && moved < |endpoint.copies| && moved !in endpoint.waiting && moved !in endpoint.inFlight
            && moved !in endpoint.acked
            && forall pending <- endpoint.pending[1..] :: pending.copy != moved
  {
    var moved := endpoint.pending[0].copy;
    Popped(endpoint.pending);
    assert Places(endpoint, moved) == One(moved < |endpoint.copies|);
    hide Placed, Places, Unique;
    forall pending <- endpoint.pending[1..]
      ensures pending.copy != moved
    {
      assert Has(endpoint.pending[1..], pending.copy);
    }
  }

  lemma ReceivedOthers(endpoint: Endpoint)
    requires endpoint.pending != []
    ensures var after := Received(endpoint);
            forall pending: Pending | pending.copy != endpoint.pending[0].copy ::
              && (Waits(endpoint, pending) ==> Waits(after, pending))
              && (Flies(endpoint, pending) ==> Flies(after, pending))
    ensures forall pending: Pending :: SameCopy(endpoint, pending) ==> SameCopy(Received(endpoint), pending)
    ensures Waits(endpoint, endpoint.pending[0]) ==> Flies(Received(endpoint), endpoint.pending[0])
  {
  }

  lemma ReceiveNumbered(endpoint: Endpoint)
    requires Placed(endpoint) && Numbered(endpoint) && endpoint.pending != []
    ensures Numbered(Received(endpoint))
  {
    MovedApart(endpoint);
    ReceivedOthers(endpoint);
    HandedCountsUp(endpoint);
    hide Waits, Flies, CountsUp, Placed, SameCopy;
    var after, moved := Received(endpoint), endpoint.pending[0];
    assert Waits(endpoint, moved);
    forall copy <- after.waiting
      ensures after.waiting[copy].copy == copy && Waits(after, after.waiting[copy])
    {
      assert endpoint.waiting[copy].copy == copy;
    }
    forall copy <- after.inFlight
      ensures after.inFlight[copy].pending.copy == copy && Flies(after, after.inFlight[copy].pending)
    {
      assert copy != moved.copy ==> endpoint.inFlight[copy].pending.copy == copy;
    }
  }

  lemma HandedCountsUp(endpoint: Endpoint)
    requires Numbered(endpoint) && endpoint.pending != []
    ensures forall copy: nat :: CountsUp(Received(endpoint).Attempts(copy))
    ensures forall copy <- Received(endpoint).handed :: copy < |endpoint.copies|
  {
    var moved := endpoint.pending[0];
    assert Waits(endpoint, moved);
    assert CountsUp(endpoint.Attempts(moved.copy));
    forall copy: nat
      ensures CountsUp(Received(endpoint).Attempts(copy))
    {
      assert CountsUp(endpoint.Attempts(copy));
      assert Received(endpoint).Attempts(copy)
             == if copy == moved.copy then endpoint.Attempts(copy) + [moved.attempt] else endpoint.Attempts(copy);
    }
  }

  // Steps that hand nothing out leave what every copy is due.
  lemma SameHanded(before: Endpoint, after: Endpoint)
    requires before.copies == after.copies && before.handed == after.handed
    ensures forall pending: Pending :: Waits(after, pending) <==> Waits(before, pending)
    ensures forall pending: Pending :: Flies(after, pending) <==> Flies(before, pending)
    ensures forall pending: Pending :: SameCopy(after, pending) <==> SameCopy(before, pending)
    ensures forall copy: nat :: after.Attempts(copy) == before.Attempts(copy)
  {
  }

  lemma NextWaits(endpoint: Endpoint, pending: Pending)
    requires Flies(endpoint, pending)
    ensures SameCopy(endpoint, pending) && Waits(endpoint, Next(pending))
  {
  }

  lemma AdvanceRight(endpoint: Endpoint, published: seq<Envelope>, errors: seq<Envelope>, copy: nat, stage: Stage)
    requires Right(endpoint, published, errors) && copy in endpoint.inFlight
    requires StageJustified(endpoint, copy, endpoint.inFlight[copy].pending, stage, published, errors)
    ensures Right(Advance(endpoint, copy, stage), published, errors)
  {
    AdvancePlaced(endpoint, copy, stage);
    AdvanceNumbered(endpoint, copy, stage);
    AdvanceJustified(endpoint, published, errors, copy, stage);
    hide Placed, Numbered, Justified, StageJustified;
  }

  lemma AdvanceNumbered(endpoint: Endpoint, copy: nat, stage: Stage)
    requires Numbered(endpoint) && copy in endpoint.inFlight
    ensures Numbered(Advance(endpoint, copy, stage))
  {
    SameHanded(endpoint, Advance(endpoint, copy, stage));
    hide Waits, Flies, SameCopy, CountsUp;
  }

  lemma AdvanceJustified(endpoint: Endpoint, published: seq<Envelope>, errors: seq<Envelope>, copy: nat, stage: Stage)
    requires Justified(endpoint, published, errors) && copy in endpoint.inFlight
    requires StageJustified(endpoint, copy, endpoint.inFlight[copy].pending, stage, published, errors)
    ensures Justified(Advance(endpoint, copy, stage), published, errors)
  {
    hide SentInOrder, ErrorCopied;
    SameHandling(endpoint, Advance(endpoint, copy, stage));
    hide LastHandlingHeld;
  }

  // Recording a success touches nothing that is settled or being sent.
  lemma SucceedsRight(
    endpoint: Endpoint, published: seq<Envelope>, errors: seq<Envelope>, copy: nat, held: seq<Envelope>)
    requires Right(endpoint, published, errors) && copy in endpoint.inFlight && endpoint.inFlight[copy].stage.Handling?
    ensures Right(Succeeds(endpoint, copy, held), published, errors)
    ensures LastHandlingHeld(Succeeds(endpoint, copy, held), copy, held)
  {
    var after := Succeeds(endpoint, copy, held);
    assert Flies(endpoint, endpoint.inFlight[copy].pending);
    assert Placed(after) by {
      hide Has, Unique;
      assert forall other: nat :: Places(after, other) == Places(endpoint, other);
    }
    assert Numbered(after) by {
      SameHanded(endpoint, after);
      hide Waits, Flies, SameCopy, CountsUp;
    }
    SucceedsJustified(endpoint, published, errors, copy, held);
    hide Placed, Numbered, Justified;
  }

  lemma SucceedsJustified(
    endpoint: Endpoint, published: seq<Envelope>, errors: seq<Envelope>, copy: nat, held: seq<Envelope>)
    requires Placed(endpoint) && Justified(endpoint, published, errors)
    requires copy in endpoint.inFlight && endpoint.inFlight[copy].stage.Handling?
    ensures Justified(Succeeds(endpoint, copy, held), published, errors)
  {
    InFlightNotAcked(endpoint, copy);
    var after := Succeeds(endpoint, copy, held);
    forall other: nat, sent: seq<Envelope> | other != copy
      ensures LastHandlingHeld(after, other, sent) == LastHandlingHeld(endpoint, other, sent)
    {
      assert after.Attempts(other) == endpoint.Attempts(other);
    }
    hide Placed, SentInOrder, ErrorCopied, LastHandlingHeld;
  }

  lemma InFlightNotAcked(endpoint: Endpoint, copy: nat)
    requires Placed(endpoint) && copy in endpoint.inFlight
    ensures copy !in endpoint.acked
  {
    assert Places(endpoint, copy) <= 1;
  }

  lemma EndedRight(
    endpoint: Endpoint, published: seq<Envelope>, errors: seq<Envelope>, copy: nat,
    result: Result<seq<Envelope>, Failure>)
    requires Right(endpoint, published, errors) && copy in endpoint.inFlight && endpoint.inFlight[copy].stage.Handling?
    ensures Right(Ended(endpoint, copy, result), published, errors)
  {
    match result
    case Ok(held) =>
      SucceedsRight(endpoint, published, errors, copy, held);
      assert [] + held == held && SentInOrder([], published);
      hide Right, LastHandlingHeld;
      AdvanceRight(Succeeds(endpoint, copy, held), published, errors, copy, Sending([], held));
    case Err(failure) =>
      AdvanceRight(endpoint, published, errors, copy, Failing(failure));
  }

  lemma LeaveRight(endpoint: Endpoint, after: Endpoint, published: seq<Envelope>, errors: seq<Envelope>, copy: nat)
    requires Right(endpoint, published, errors) && copy in endpoint.inFlight
    requires var stage := endpoint.inFlight[copy].stage;
             || after == Later(endpoint, copy)
             || (after == Acked(endpoint, copy) && stage.Sending? && stage.left == [])
             || (after == Rejected(endpoint, copy) && stage.GivenUp?)
             || after == Dropped(endpoint, copy)
    ensures Right(after, published, errors)
  {
    hide Placed, Numbered, Justified, Later, Acked, Rejected, Dropped;
    LeavePlaced(endpoint, after, copy);
    LeaveNumbered(endpoint, after, copy);
    LeaveJustified(endpoint, after, published, errors, copy);
  }

  lemma LeaveJustified(endpoint: Endpoint, after: Endpoint, published: seq<Envelope>, errors: seq<Envelope>, copy: nat)
    requires Justified(endpoint, published, errors) && copy in endpoint.inFlight
    requires var stage := endpoint.inFlight[copy].stage;
             || after == Later(endpoint, copy)
             || (after == Acked(endpoint, copy) && stage.Sending? && stage.left == [])
             || (after == Rejected(endpoint, copy) && stage.GivenUp?)
             || after == Dropped(endpoint, copy)
    ensures Justified(after, published, errors)
  {
    hide SentInOrder, ErrorCopied, LastHandlingHeld;
    var InFlight(pending, stage) := endpoint.inFlight[copy];
    assert StageJustified(endpoint, copy, pending, stage, published, errors);
    assert stage.Sending? ==> stage.sent + [] == stage.sent;
    assert after.inFlight == endpoint.inFlight - {copy};
    hide Justified, StageJustified;
    LeftJustified(endpoint, after, published, errors, copy);
  }

  // Of the copies that stay in flight nothing changes, and a settled one is settled with cause.
  lemma LeftJustified(endpoint: Endpoint, after: Endpoint, published: seq<Envelope>, errors: seq<Envelope>, copy: nat)
    requires Justified(endpoint, published, errors)
    requires after.inFlight == endpoint.inFlight - {copy}
    requires after.handed == endpoint.handed && after.succeeded == endpoint.succeeded
    requires || after.acked == endpoint.acked
             || exists sent: seq<Envelope> ::
                  LastHandlingHeld(endpoint, copy, sent) && SentInOrder(sent, published)
                  && after.acked == endpoint.acked[copy := sent]
    requires || after.rejected == endpoint.rejected
             || exists pending: Pending ::
                  ErrorCopied(pending.envelope, errors) && after.rejected == endpoint.rejected + [pending]
    ensures Justified(after, published, errors)
  {
    hide SentInOrder, ErrorCopied, LastHandlingHeld;
    SameHandling(endpoint, after);
  }

  // What the handlings of the copies held depends on the numbers they were handed with, and on the
  // successes.
  lemma SameHandling(before: Endpoint, after: Endpoint)
    requires after.handed == before.handed && after.succeeded == before.succeeded
    ensures forall copy: nat, held: seq<Envelope> ::
              LastHandlingHeld(after, copy, held) == LastHandlingHeld(before, copy, held)
  {
    assert forall copy: nat :: after.Attempts(copy) == before.Attempts(copy);
  }

  lemma LeaveNumbered(endpoint: Endpoint, after: Endpoint, copy: nat)
    requires Numbered(endpoint) && copy in endpoint.inFlight
    requires || after == Later(endpoint, copy)
             || after == Acked(endpoint, copy)
             || after == Rejected(endpoint, copy)
             || after == Dropped(endpoint, copy)
    ensures Numbered(after)
  {
    hide Waits, Flies, SameCopy, CountsUp;
    var pending := endpoint.inFlight[copy].pending;
    NextWaits(endpoint, pending);
    SameHanded(endpoint, after);
    assert after.inFlight == endpoint.inFlight - {copy};
    LeftNumbered(endpoint, after, copy, pending);
  }

  lemma LeftNumbered(endpoint: Endpoint, after: Endpoint, copy: nat, moved: Pending)
    requires Numbered(endpoint) && after.copies == endpoint.copies && after.handed == endpoint.handed
    requires moved.copy == copy && SameCopy(endpoint, moved) && Waits(endpoint, Next(moved))
    requires after.inFlight == endpoint.inFlight - {copy}
    requires after.pending == endpoint.pending || after.pending == endpoint.pending + [Next(moved)]
    requires after.waiting == endpoint.waiting || after.waiting == endpoint.waiting[copy := Next(moved)]
    requires after.rejected == endpoint.rejected || after.rejected == endpoint.rejected + [moved]
    ensures Numbered(after)
  {
    SameHanded(endpoint, after);
    hide Waits, Flies, SameCopy, CountsUp;
    forall other <- after.waiting
      ensures after.waiting[other].copy == other && Waits(after, after.waiting[other])
    {
    }
    forall other <- after.inFlight
      ensures after.inFlight[other].pending.copy == other && Flies(after, after.inFlight[other].pending)
    {
    }
  }

  lemma WakeRight(endpoint: Endpoint, published: seq<Envelope>, errors: seq<Envelope>, copy: nat)
    requires Right(endpoint, published, errors) && copy in endpoint.waiting
    ensures Right(Woken(endpoint, copy), published, errors)
  {
    WakePlaced(endpoint, copy);
    SameHanded(endpoint, Woken(endpoint, copy));
    hide Placed, SentInOrder, ErrorCopied, Waits, Flies, SameCopy, CountsUp;
  }

  // Every step keeps every copy accounted for.
  lemma ConservedStep(transport: Transport, step: Step)
    requires Conserved(transport) && Enabled(transport, step)
    ensures Conserved(Apply(transport, step))
  {
    var next := Apply(transport, step);
    forall name <- next.endpoints
      ensures Right(next.endpoints[name], next.published, next.Errors(name))
    {
      EndpointStep(transport, step, name);
    }
    hide Apply, Enabled, Placed, Numbered, Justified;
  }

  lemma EndpointStep(transport: Transport, step: Step, name: string)
    requires Conserved(transport) && Enabled(transport, step) && name in Apply(transport, step).endpoints
    ensures var next := Apply(transport, step);
            Right(next.endpoints[name], next.published, next.Errors(name))
  {
    var next := Apply(transport, step);
    hide Placed, Numbered, Justified, ErrorEnvelope, PublishTo;
    match step
    case Publish(envelope) =>
      PublishedStep(transport, envelope, name);
    case SetFailing(_) =>
    case Subscribe(_, _, _) =>
      Subscribed(transport, step, name);
    case SendNext(_, _) =>
      SendStep(transport, step, name);
    case GiveUp(_, _, _, _) =>
      GiveUpStep(transport, step, name);
    case Receive(_) => MoveStep(transport, step, name);
    case Handled(_, _, _) => MoveStep(transport, step, name);
    case Wake(_, _) => MoveStep(transport, step, name);
    case Ack(_, _) => LeaveStep(transport, step, name);
    case Retry(_, _) => LeaveStep(transport, step, name);
    case Reject(_, _) => LeaveStep(transport, step, name);
    case Drop(_, _) => LeaveStep(transport, step, name);
  }

  lemma MoveStep(transport: Transport, step: Step, name: string)
    requires Conserved(transport) && Enabled(transport, step) && name in Apply(transport, step).endpoints
    requires step.Receive? || step.Handled? || step.Wake?
    ensures var next := Apply(transport, step);
            Right(next.endpoints[name], next.published, next.Errors(name))
  {
    hide Placed, Numbered, Justified;
    if step.name == name {
      var endpoint, published, errors := transport.endpoints[name], transport.published, transport.Errors(name);
      if step.Receive? {
        ReceiveRight(endpoint, published, errors);
      } else if step.Handled? {
        EndedRight(endpoint, published, errors, step.copy, step.result);
      } else {
        WakeRight(endpoint, published, errors, step.copy);
      }
    }
  }

  lemma LeaveStep(transport: Transport, step: Step, name: string)
    requires Conserved(transport) && Enabled(transport, step) && name in Apply(transport, step).endpoints
    requires step.Ack? || step.Retry? || step.Reject? || step.Drop?
    ensures var next := Apply(transport, step);
            Right(next.endpoints[name], next.published, next.Errors(name))
  {
    hide Placed, Numbered, Justified;
    if step.name == name {
      LeaveRight(transport.endpoints[name], Apply(transport, step).endpoints[name], transport.published,
                 transport.Errors(name), step.copy);
    }
  }

  lemma PublishedStep(transport: Transport, envelope: Envelope, name: string)
    requires Conserved(transport) && name in PublishTo(transport, envelope).endpoints
    ensures var next := PublishTo(transport, envelope);
            Right(next.endpoints[name], next.published, next.Errors(name))
  {
    hide Placed, Numbered, Justified;
    var next := PublishTo(transport, envelope);
    if envelope.messageType in transport.endpoints[name].types {
      PushRight(transport.endpoints[name], transport.published, transport.Errors(name), envelope);
    }
    Grows(next.endpoints[name], transport.published, transport.Errors(name), next.published, next.Errors(name));
  }

  lemma TypesRight(before: Endpoint, after: Endpoint, published: seq<Envelope>, errors: seq<Envelope>)
    requires Right(before, published, errors) && after == before.(types := after.types)
    ensures Right(after, published, errors)
  {
    assert Placed(after) by {
      hide Has, Unique;
      assert forall copy: nat :: Places(after, copy) == Places(before, copy);
    }
    assert Numbered(after) by {
      hide Waits, Flies, SameCopy, CountsUp;
      SameHanded(before, after);
    }
    hide Placed, Numbered, SentInOrder, ErrorCopied;
  }

  lemma Subscribed(transport: Transport, step: Step, name: string)
    requires Conserved(transport) && step.Subscribe? && name in Apply(transport, step).endpoints
    ensures var next := Apply(transport, step);
            Right(next.endpoints[name], next.published, next.Errors(name))
  {
    hide Placed, Numbered, Justified;
    if step.name == name {
      if name in transport.endpoints {
        TypesRight(transport.endpoints[name], Apply(transport, step).endpoints[name], transport.published,
                   transport.Errors(name));
      } else {
        NewRight(step.types, step.retry, transport.published, transport.Errors(name));
      }
    }
  }

  lemma NewRight(types: set<string>, retry: RetryPolicy, published: seq<Envelope>, errors: seq<Envelope>)
    ensures Right(Endpoint(types, retry, [], map[], map[], map[], [], [], map[], map[]), published, errors)
  {
  }

  lemma SendStep(transport: Transport, step: Step, name: string)
    requires Conserved(transport) && Enabled(transport, step) && step.SendNext?
    requires name in Apply(transport, step).endpoints
    ensures var next := Apply(transport, step);
            Right(next.endpoints[name], next.published, next.Errors(name))
  {
    hide Placed, Numbered, Justified;
    if transport.failing {
      if step.name == name {
        AdvanceRight(transport.endpoints[name], transport.published, transport.Errors(name), step.copy,
                     Failing(Failure.Handler));
      }
    } else {
      var left := StageOf(transport, step.name, step.copy).left;
      PublishedStep(transport, left[0], name);
      if step.name == name {
        SentRight(transport, name, step.copy);
      }
    }
  }

  // The sender's endpoint, once its publish was accepted.
  lemma SentRight(transport: Transport, name: string, copy: nat)
    requires Conserved(transport) && Enabled(transport, SendNext(name, copy))
    ensures var Sending(sent, left) := StageOf(transport, name, copy);
            var published := PublishTo(transport, left[0]);
            && AtStage(published, name, copy)
            && Right(Advance(published.endpoints[name], copy, Sending(sent + [left[0]], left[1..])),
                     published.published, published.Errors(name))
  {
    hide Placed, Numbered, Justified, SentInOrder, LastHandlingHeld;
    var Sending(sent, left) := StageOf(transport, name, copy);
    var published := PublishTo(transport, left[0]);
    PublishedStep(transport, left[0], name);
    StageRight(transport, name, copy);
    NextSent(sent, transport.published, left[0]);
    assert sent + left == sent + [left[0]] + left[1..];
    StillHeld(transport, left[0], name, copy, sent + left);
    hide Right, PublishTo;
    AdvanceRight(published.endpoints[name], published.published, published.Errors(name), copy,
                 Sending(sent + [left[0]], left[1..]));
  }

  lemma StageRight(transport: Transport, name: string, copy: nat)
    requires Conserved(transport) && AtStage(transport, name, copy)
    ensures var endpoint := transport.endpoints[name];
            StageJustified(endpoint, copy, endpoint.inFlight[copy].pending, endpoint.inFlight[copy].stage,
                           transport.published, transport.Errors(name))
  {
    hide Placed, Numbered, StageJustified;
  }

  // A publish leaves what is in flight, and what its handling held.
  lemma StillHeld(transport: Transport, envelope: Envelope, name: string, copy: nat, held: seq<Envelope>)
    requires AtStage(transport, name, copy)
    ensures var published := PublishTo(transport, envelope);
            && AtStage(published, name, copy)
            && published.endpoints[name].inFlight == transport.endpoints[name].inFlight
            && published.published == transport.published + [envelope]
            && LastHandlingHeld(published.endpoints[name], copy, held)
               == LastHandlingHeld(transport.endpoints[name], copy, held)
  {
  }

  lemma GiveUpStep(transport: Transport, step: Step, name: string)
    requires Conserved(transport) && Enabled(transport, step) && step.GiveUp?
    requires name in Apply(transport, step).endpoints
    ensures var next := Apply(transport, step);
            Right(next.endpoints[name], next.published, next.Errors(name))
  {
    hide Placed, Numbered, Justified;
    var endpoint := transport.endpoints[step.name];
    if step.name == name {
      if transport.failing {
        LeaveRight(endpoint, Later(endpoint, step.copy), transport.published, transport.Errors(name), step.copy);
      } else {
        var pending := endpoint.inFlight[step.copy].pending;
        var failed := ErrorEnvelope(pending.envelope, name, step.errorType, step.message, pending.attempt);
        var errors := transport.Errors(name) + [failed];
        assert errors[|transport.Errors(name)|] == failed;
        assert failed.(extensions := pending.envelope.extensions) == pending.envelope;
        assert ErrorCopied(pending.envelope, errors);
        Grows(endpoint, transport.published, transport.Errors(name), transport.published, errors);
        AdvanceRight(endpoint, transport.published, errors, step.copy, GivenUp);
      }
    }
  }

  ghost predicate Run(first: Transport, steps: seq<Step>, last: Transport)
    decreases |steps|
  {
    if steps == [] then first == last
    else Enabled(first, steps[0]) && Run(Apply(first, steps[0]), steps[1..], last)
  }

  ghost predicate Reachable(transport: Transport) {
    exists steps: seq<Step> :: Run(Transport(map[], [], map[], false), steps, transport)
  }

  lemma {:induction false} ConservedRun(first: Transport, steps: seq<Step>, last: Transport)
    requires Conserved(first) && Run(first, steps, last)
    ensures Conserved(last)
    decreases |steps|
  {
    if steps != [] {
      ConservedStep(first, steps[0]);
      hide Conserved, Enabled, Apply;
      ConservedRun(Apply(first, steps[0]), steps[1..], last);
    }
  }

  // A copy is made if and only if it is queued, with a subscriber, waiting for its retry, acked or
  // rejected, and then it is only one of these.
  ghost predicate InOnePlace(endpoint: Endpoint, copy: nat) {
    var queued := exists pending <- endpoint.pending :: pending.copy == copy;
    var rejected := exists pending <- endpoint.rejected :: pending.copy == copy;
    var (flies, waits, acked) := (copy in endpoint.inFlight, copy in endpoint.waiting, copy in endpoint.acked);
    && (copy < |endpoint.copies| <==> queued || flies || waits || acked || rejected)
    && (queued ==> !flies && !waits && !acked && !rejected)
    && (flies ==> !waits && !acked && !rejected)
    && (waits ==> !acked && !rejected)
    && (acked ==> !rejected)
  }

  lemma OnePlace(endpoint: Endpoint, copy: nat)
    requires Placed(endpoint)
    ensures InOnePlace(endpoint, copy)
  {
    assert Places(endpoint, copy) == One(copy < |endpoint.copies|);
    assert Has(endpoint.pending, copy) <==> exists pending <- endpoint.pending :: pending.copy == copy;
    hide Unique;
  }

  // Wherever it is, a copy has the envelope it was made with.
  ghost predicate KeepsEnvelope(endpoint: Endpoint, copy: nat)
    requires copy < |endpoint.copies|
  {
    var envelope := endpoint.copies[copy];
    && (forall pending <- endpoint.pending + endpoint.rejected :: pending.copy == copy ==> pending.envelope == envelope)
    && (copy in endpoint.inFlight ==> endpoint.inFlight[copy].pending.envelope == envelope)
    && (copy in endpoint.waiting ==> endpoint.waiting[copy].envelope == envelope)
  }

  lemma SameEnvelope(endpoint: Endpoint, copy: nat)
    requires Numbered(endpoint) && copy < |endpoint.copies|
    ensures KeepsEnvelope(endpoint, copy)
  {
    hide CountsUp;
  }

  // In every run, each copy made by a publish is in exactly one place, and there once. It keeps its
  // envelope, and was delivered as attempts 1, 2, 3 and so on.
  lemma CopiesConserved(transport: Transport, name: string, copy: nat)
    requires Reachable(transport) && name in transport.endpoints
    ensures var endpoint := transport.endpoints[name];
            InOnePlace(endpoint, copy) && (copy < |endpoint.copies| ==> KeepsEnvelope(endpoint, copy))
    ensures var Endpoint(_, _, pending, _, _, _, rejected, _, _, _) := transport.endpoints[name];
            && (forall i, j | 0 <= i < j < |pending| :: pending[i].copy != pending[j].copy)
            && (forall i, j | 0 <= i < j < |rejected| :: rejected[i].copy != rejected[j].copy)
    ensures var attempts := transport.endpoints[name].Attempts(copy);
            forall i | 0 <= i < |attempts| :: attempts[i] == i + 1
  {
    var steps: seq<Step> :| Run(Transport(map[], [], map[], false), steps, transport);
    ConservedRun(Transport(map[], [], map[], false), steps, transport);
    hide Run, Enabled, Justified, InOnePlace, KeepsEnvelope, Places;
    var endpoint := transport.endpoints[name];
    OnePlace(endpoint, copy);
    if copy < |endpoint.copies| {
      SameEnvelope(endpoint, copy);
    }
    assert CountsUp(endpoint.Attempts(copy));
  }

  // A copy is acked only after the handling of its last delivery succeeded and the broker took every
  // publish it held, in order; and rejected only after an error copy, the same but for its
  // extensions, was accepted.
  lemma SettledWithCause(transport: Transport, name: string)
    requires Reachable(transport) && name in transport.endpoints
    ensures var endpoint := transport.endpoints[name];
            && (forall copy <- endpoint.acked ::
                  LastHandlingHeld(endpoint, copy, endpoint.acked[copy])
                  && SentInOrder(endpoint.acked[copy], transport.published))
            && (forall pending <- endpoint.rejected ::
                  SameCopy(endpoint, pending) && ErrorCopied(endpoint.copies[pending.copy], transport.Errors(name)))
  {
    var steps: seq<Step> :| Run(Transport(map[], [], map[], false), steps, transport);
    ConservedRun(Transport(map[], [], map[], false), steps, transport);
    hide Places, CountsUp, LastHandlingHeld, SentInOrder, ErrorCopied;
  }
}
