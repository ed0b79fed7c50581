/** The in-memory transport: a copy of each message for each endpoint, shared by its subscribers, and
the endpoints that settle the copies.

A copy is numbered when a publish makes it, so a run can follow it. */
module Deliveries {
  import opened Decimals
  import opened Envelopes
  import opened Handlers
  import opened Options
  import opened Retry

  datatype Pending = Pending(copy: nat, envelope: Envelope, attempt: nat)

  // How far the handling of a delivery is: the pipeline runs; its held publishes are sent one by
  // one; it failed; or its error copy was accepted.
  datatype Stage = Handling | Sending(sent: seq<Envelope>, left: seq<Envelope>) | Failing(failure: Failure) | GivenUp

  datatype InFlight = InFlight(pending: Pending, stage: Stage)

  // A handling that succeeded: the number of the attempt, and the publishes it held.
  datatype Success = Success(attempt: nat, held: seq<Envelope>)

  // One endpoint: its copies waiting for a subscriber, those with a subscriber, those waiting for a
  // retry, and those settled, the acked ones with the publishes that were sent. `copies` are all
  // copies made so far, `handed` the attempt numbers each was delivered with, and `succeeded` the
  // last handling of each that succeeded.
  datatype Endpoint = Endpoint(
    types: set<string>,
    retry: RetryPolicy,
    pending: seq<Pending>,
    inFlight: map<nat, InFlight>,
    waiting: map<nat, Pending>,
    acked: map<nat, seq<Envelope>>,
    rejected: seq<Pending>,
    copies: seq<Envelope>,
    handed: map<nat, seq<nat>>,
    succeeded: map<nat, Success>)
  {
    // The attempt numbers a copy was delivered with.
    function Attempts(copy: nat): seq<nat> {
      if copy in handed then handed[copy] else []
    }
  }

  datatype Transport = Transport(
    endpoints: map<string, Endpoint>,
    published: seq<Envelope>,
    errors: map<string, seq<Envelope>>,
    failing: bool)
  {
    function With(name: string, endpoint: Endpoint): Transport {
      this.(endpoints := endpoints[name := endpoint])
    }

    function Errors(name: string): seq<Envelope> {
      if name in errors then errors[name] else []
    }
  }

  function Push(endpoint: Endpoint, envelope: Envelope): Endpoint {
    endpoint.(pending := endpoint.pending + [Pending(|endpoint.copies|, envelope, 1)],
              copies := endpoint.copies + [envelope])
  }

  // An endpoint gets a copy when its types include the envelope's.
  function Offered(endpoint: Endpoint, envelope: Envelope): Endpoint {
    if envelope.messageType in endpoint.types then Push(endpoint, envelope) else endpoint
  }

  function PublishTo(transport: Transport, envelope: Envelope): Transport {
    transport.(published := transport.published + [envelope],
               endpoints := map name | name in transport.endpoints :: Offered(transport.endpoints[name], envelope))
  }

  function Next(pending: Pending): Pending {
    pending.(attempt := pending.attempt + 1)
  }

  function Advance(endpoint: Endpoint, copy: nat, stage: Stage): Endpoint
    requires copy in endpoint.inFlight
  {
    endpoint.(inFlight := endpoint.inFlight[copy := endpoint.inFlight[copy].(stage := stage)])
  }

  // The handling ended: its publishes are to be sent, or it failed.
  function Ended(endpoint: Endpoint, copy: nat, result: Result<seq<Envelope>, Failure>): Endpoint
    requires copy in endpoint.inFlight
  {
    match result
    case Ok(held) => Advance(Succeeds(endpoint, copy, held), copy, Sending([], held))
    case Err(failure) => Advance(endpoint, copy, Failing(failure))
  }

  function Succeeds(endpoint: Endpoint, copy: nat, held: seq<Envelope>): Endpoint
    requires copy in endpoint.inFlight
  {
    endpoint.(succeeded := endpoint.succeeded[copy := Success(endpoint.inFlight[copy].pending.attempt, held)])
  }

  function Later(endpoint: Endpoint, copy: nat): Endpoint
    requires copy in endpoint.inFlight
  {
    endpoint.(waiting := endpoint.waiting[copy := Next(endpoint.inFlight[copy].pending)],
              inFlight := endpoint.inFlight - {copy})
  }

  // A subscriber takes the first copy.
  function Received(endpoint: Endpoint): Endpoint
    requires endpoint.pending != []
  {
    var pending := endpoint.pending[0];
    endpoint.(pending := endpoint.pending[1..],
              inFlight := endpoint.inFlight[pending.copy := InFlight(pending, Handling)],
              handed := endpoint.handed[pending.copy := endpoint.Attempts(pending.copy) + [pending.attempt]])
  }

  function Acked(endpoint: Endpoint, copy: nat): Endpoint
    requires copy in endpoint.inFlight
  {
    var stage := endpoint.inFlight[copy].stage;
    endpoint.(acked := endpoint.acked[copy := if stage.Sending? then stage.sent else []],
              inFlight := endpoint.inFlight - {copy})
  }

  function Rejected(endpoint: Endpoint, copy: nat): Endpoint
    requires copy in endpoint.inFlight
  {
    endpoint.(rejected := endpoint.rejected + [endpoint.inFlight[copy].pending], inFlight := endpoint.inFlight - {copy})
  }

  function Woken(endpoint: Endpoint, copy: nat): Endpoint
    requires copy in endpoint.waiting
  {
    endpoint.(pending := endpoint.pending + [endpoint.waiting[copy]], waiting := endpoint.waiting - {copy})
  }

  function Dropped(endpoint: Endpoint, copy: nat): Endpoint
    requires copy in endpoint.inFlight
  {
    endpoint.(pending := endpoint.pending + [Next(endpoint.inFlight[copy].pending)],
              inFlight := endpoint.inFlight - {copy})
  }

  datatype Step =
    | Publish(envelope: Envelope)
    | SetFailing(failing: bool)
    | Subscribe(name: string, types: set<string>, retry: RetryPolicy)
    | Receive(name: string)
    | Handled(name: string, copy: nat, result: Result<seq<Envelope>, Failure>)
    | SendNext(name: string, copy: nat)
    | Ack(name: string, copy: nat)
    | Retry(name: string, copy: nat)
    | GiveUp(name: string, copy: nat, errorType: string, message: string)
    | Reject(name: string, copy: nat)
    | Wake(name: string, copy: nat)
    | Drop(name: string, copy: nat)

  predicate AtStage(transport: Transport, name: string, copy: nat) {
    name in transport.endpoints && copy in transport.endpoints[name].inFlight
  }

  function StageOf(transport: Transport, name: string, copy: nat): Stage
    requires AtStage(transport, name, copy)
  {
    transport.endpoints[name].inFlight[copy].stage
  }

  // Whether a failed delivery's message is given up: it can't be handled at all, or it has no attempt
  // left.
  predicate Over(transport: Transport, name: string, copy: nat)
    requires AtStage(transport, name, copy) && StageOf(transport, name, copy).Failing?
  {
    StageOf(transport, name, copy).failure == Undecodable
    || transport.endpoints[name].retry.IsLast(transport.endpoints[name].inFlight[copy].pending.attempt)
  }

  predicate Enabled(transport: Transport, step: Step) {
    match step
    case Publish(_) => true
    case SetFailing(_) => true
    case Subscribe(_, _, _) => true
    case Receive(name) => name in transport.endpoints && transport.endpoints[name].pending != []
    case Handled(name, copy, _) => AtStage(transport, name, copy) && StageOf(transport, name, copy).Handling?
    case SendNext(name, copy) =>
      && AtStage(transport, name, copy) && StageOf(transport, name, copy).Sending?
      && StageOf(transport, name, copy).left != []
    case Ack(name, copy) =>
      && AtStage(transport, name, copy) && StageOf(transport, name, copy).Sending?
      && StageOf(transport, name, copy).left == []
    case Retry(name, copy) =>
      AtStage(transport, name, copy) && StageOf(transport, name, copy).Failing? && !Over(transport, name, copy)
    case GiveUp(name, copy, _, _) =>
      AtStage(transport, name, copy) && StageOf(transport, name, copy).Failing? && Over(transport, name, copy)
    case Reject(name, copy) => AtStage(transport, name, copy) && StageOf(transport, name, copy).GivenUp?
    case Wake(name, copy) => name in transport.endpoints && copy in transport.endpoints[name].waiting
    case Drop(name, copy) => AtStage(transport, name, copy)
  }

  function Apply(transport: Transport, step: Step): Transport
    requires Enabled(transport, step)
  {
    match step
    case Publish(envelope) => if transport.failing then transport else PublishTo(transport, envelope)
    case SetFailing(failing) => transport.(failing := failing)
    // The first subscription creates the endpoint; a later one adds its types.
    case Subscribe(name, types, retry) =>
      if name in transport.endpoints
      then transport.With(name, transport.endpoints[name].(types := transport.endpoints[name].types + types))
      else transport.With(name, Endpoint(types, retry, [], map[], map[], map[], [], [], map[], map[]))
    case Receive(name) => transport.With(name, Received(transport.endpoints[name]))
    case Handled(name, copy, result) =>
      transport.With(name, Ended(transport.endpoints[name], copy, result))
    // A refused publish makes the handling a failure after all.
    case SendNext(name, copy) =>
      var Sending(sent, left) := StageOf(transport, name, copy);
      if transport.failing then transport.With(name, Advance(transport.endpoints[name], copy, Failing(Failure.Handler)))
      else
        var published := PublishTo(transport, left[0]);
        published.With(name, Advance(published.endpoints[name], copy, Sending(sent + [left[0]], left[1..])))
    case Ack(name, copy) => transport.With(name, Acked(transport.endpoints[name], copy))
    case Retry(name, copy) =>
      transport.With(name, Later(transport.endpoints[name], copy))
    // While the error destination is out of reach there is one more attempt, whatever the policy.
    case GiveUp(name, copy, errorType, message) =>
      var endpoint := transport.endpoints[name];
      if transport.failing then transport.With(name, Later(endpoint, copy))
      else
        var pending := endpoint.inFlight[copy].pending;
        var failed := ErrorEnvelope(pending.envelope, name, errorType, message, pending.attempt);
        transport.(errors := transport.errors[name := transport.Errors(name) + [failed]])
        .With(name, Advance(endpoint, copy, GivenUp))
    case Reject(name, copy) => transport.With(name, Rejected(transport.endpoints[name], copy))
    case Wake(name, copy) => transport.With(name, Woken(transport.endpoints[name], copy))
    // An unsettled delivery that goes away comes again at once.
    case Drop(name, copy) => transport.With(name, Dropped(transport.endpoints[name], copy))
  }

  // The envelope of the error destination: the delivered one with what went wrong.
  function ErrorEnvelope(
    envelope: Envelope, endpoint: string, errorType: string, message: string, attempt: nat): Envelope
  {
    envelope.(extensions := envelope.extensions["errorendpoint" := endpoint]["errortype" := errorType]
              ["errormessage" := message]["errorattempts" := DecimalText(attempt)])
  }

  // Sets the error extensions, whose names are always allowed.
  method SetErrors(
    formats: Formats, envelope: Envelope, endpoint: string, errorType: string, message: string, attempt: nat)
    returns (failed: Envelope)
    requires envelope.Valid(formats)
    ensures failed == ErrorEnvelope(envelope, endpoint, errorType, message, attempt)
    ensures failed.Valid(formats)
    ensures failed == envelope.(extensions := failed.extensions)
    ensures failed.extensions.Keys
            == envelope.extensions.Keys + {"errorendpoint", "errortype", "errormessage", "errorattempts"}
    ensures failed.extensions["errorendpoint"] == endpoint && failed.extensions["errortype"] == errorType
    ensures failed.extensions["errormessage"] == message && failed.extensions["errorattempts"] == DecimalText(attempt)
    ensures forall name <- envelope.extensions ::
              name !in {"errorendpoint", "errortype", "errormessage", "errorattempts"} ==>
                failed.extensions[name] == envelope.extensions[name]
  {
    var names := ["errorendpoint", "errortype", "errormessage", "errorattempts"];
    var values := [endpoint, errorType, message, DecimalText(attempt)];
    ErrorNamesAllowed();
    var extensions := new Extensions.Of(envelope.extensions);
    for i := 0 to 4
      invariant fresh(extensions) && extensions.Valid()
      invariant extensions.entries
                == (if i == 0 then envelope.extensions
                    else if i == 1 then envelope.extensions[names[0] := values[0]]
                    else if i == 2 then envelope.extensions[names[0] := values[0]][names[1] := values[1]]
                    else if i == 3 then
                      envelope.extensions[names[0] := values[0]][names[1] := values[1]][names[2] := values[2]]
                    else ErrorEnvelope(envelope, endpoint, errorType, message, attempt).extensions)
    {
      var inserted := extensions.Insert(names[i], values[i]);
      assert inserted.Ok?;
    }
    failed := envelope.(extensions := extensions.entries);
  }

  lemma ErrorNamesAllowed()
    ensures NameError("errorendpoint").None? && NameError("errortype").None?
    ensures NameError("errormessage").None? && NameError("errorattempts").None?
  {
    hide NameError;
    ErrorNameAllowed("errorendpoint");
    ErrorNameAllowed("errortype");
    ErrorNameAllowed("errormessage");
    ErrorNameAllowed("errorattempts");
  }

  lemma ErrorNameAllowed(name: string)
    requires name in {"errorendpoint", "errortype", "errormessage", "errorattempts"}
    ensures NameError(name).None?
  {
    NoFieldStartsSo(name);
    hide Reserved;
  }

  lemma NoFieldStartsSo(name: string)
    requires name != "" && name[0] == 'e'
    ensures !Reserved(name)
  {
    assert forall field <- FIELDS :: field[0] != 'e';
  }
}
