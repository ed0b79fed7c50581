/** Handlers, and the publishes they hold until they return. */
module Handlers {
  import opened Envelopes
  import opened Options

  // Why handling failed: for good, or so that a retry may work.
  datatype Failure = Undecodable | Handler

  // Every publish names the handled message's id as its causation, and shares its correlation id and
  // trace.
  predicate Follows(envelope: Envelope, publishes: seq<Envelope>) {
    forall publish <- publishes ::
      && publish.correlation == Correlation(envelope.correlation.correlationId, Some(envelope.id))
      && publish.trace == envelope.trace
  }

  // What a handler does with a delivery: messages it publishes, some of which may fail to encode, and
  // how it ends. It may swallow a failed statement, which leaves its transaction aborted.
  datatype Work = Work(messages: seq<Result<Envelope, Failure>>, end: Result<bool, Failure>)

  // A message as the handling of `envelope` publishes it.
  function Followed(envelope: Envelope, message: Envelope): Envelope {
    message.(correlation := Correlation(envelope.correlation.correlationId, Some(envelope.id)), trace := envelope.trace)
  }

  // The publishes that handling `envelope` holds after some messages.
  function HeldBy(envelope: Envelope, messages: seq<Result<Envelope, Failure>>): seq<Envelope> {
    if messages == [] then []
    else
      var last := messages[|messages| - 1];
      HeldBy(envelope, messages[..|messages| - 1]) + if last.Ok? then [Followed(envelope, last.value)] else []
  }

  // The places of the messages that could be encoded, in order.
  ghost predicate Encoded(messages: seq<Result<Envelope, Failure>>, places: seq<nat>) {
    && (forall i, j | 0 <= i < j < |places| :: places[i] < places[j])
    && (forall place <- places :: place < |messages|)
    && (forall i | 0 <= i < |messages| :: messages[i].Ok? <==> i in places)
  }

  // The publishes held are the messages that could be encoded, as many and in the same order. Each is
  // changed only in its correlation and trace, which follow the handled message.
  ghost predicate Carries(
    envelope: Envelope, messages: seq<Result<Envelope, Failure>>, held: seq<Envelope>)
  {
    Follows(envelope, held)
    && exists places: seq<nat> :: Encoded(messages, places) && CarriedFrom(messages, held, places)
  }

  ghost predicate CarriedFrom(messages: seq<Result<Envelope, Failure>>, held: seq<Envelope>, places: seq<nat>) {
    && |held| == |places|
    && forall i | 0 <= i < |places| ::
         && places[i] < |messages| && messages[places[i]].Ok?
         && held[i] == messages[places[i]].value.(correlation := held[i].correlation, trace := held[i].trace)
  }

  // One more message has one more place, if it could be encoded.
  lemma EncodedMore(messages: seq<Result<Envelope, Failure>>, places: seq<nat>, message: Result<Envelope, Failure>)
    requires Encoded(messages, places)
    ensures Encoded(messages + [message], if message.Ok? then places + [|messages|] else places)
  {
    var all, more := messages + [message], if message.Ok? then places + [|messages|] else places;
    forall i, j | 0 <= i < j < |more|
      ensures more[i] < more[j]
    {
      assert i < |places| ==> places[i] in places;
    }
    forall i | 0 <= i < |all|
      ensures all[i].Ok? <==> i in more
    {
      assert i < |messages| ==> all[i] == messages[i] && (i in more <==> i in places);
      assert i == |messages| ==> i !in places;
    }
  }

  lemma CarriedMore(
    messages: seq<Result<Envelope, Failure>>, held: seq<Envelope>, places: seq<nat>, message: Result<Envelope, Failure>,
    publish: Envelope)
    requires CarriedFrom(messages, held, places)
    ensures CarriedFrom(messages + [message], held, places)
    ensures message.Ok? && publish == message.value.(correlation := publish.correlation, trace := publish.trace) ==>
              CarriedFrom(messages + [message], held + [publish], places + [|messages|])
  {
  }

  // What is held after one more message.
  lemma HeldMore(envelope: Envelope, messages: seq<Result<Envelope, Failure>>, message: Result<Envelope, Failure>)
    ensures HeldBy(envelope, messages + [message])
            == HeldBy(envelope, messages) + if message.Ok? then [Followed(envelope, message.value)] else []
  {
    assert (messages + [message])[..|messages|] == messages;
  }

  lemma {:induction false} HeldCarries(envelope: Envelope, messages: seq<Result<Envelope, Failure>>)
    returns (places: seq<nat>)
    ensures Encoded(messages, places) && CarriedFrom(messages, HeldBy(envelope, messages), places)
  {
    if messages == [] {
      places := [];
    } else {
      hide Encoded, CarriedFrom, HeldBy;
      var last := |messages| - 1;
      var before, message := messages[..last], messages[last];
      assert messages == before + [message];
      places := HeldCarries(envelope, before);
      EncodedMore(before, places, message);
      HeldMore(envelope, before, message);
      var held := HeldBy(envelope, before);
      if message.Ok? {
        CarriedMore(before, held, places, message, Followed(envelope, message.value));
        places := places + [last];
      } else {
        CarriedMore(before, held, places, message, envelope);
        assert held + [] == held;
      }
    }
  }

  lemma {:induction false} HeldFollows(envelope: Envelope, messages: seq<Result<Envelope, Failure>>)
    ensures Follows(envelope, HeldBy(envelope, messages))
  {
    if messages != [] {
      HeldFollows(envelope, messages[..|messages| - 1]);
    }
  }

  lemma HeldIsCarried(envelope: Envelope, messages: seq<Result<Envelope, Failure>>)
    ensures Carries(envelope, messages, HeldBy(envelope, messages))
    ensures HeldBy(envelope, messages) != [] <==> exists message <- messages :: message.Ok?
  {
    HeldFollows(envelope, messages);
    var places := HeldCarries(envelope, messages);
    var held := HeldBy(envelope, messages);
    hide HeldBy, Follows;
    assert held != [] <==> places != [];
    if message :| message in messages && message.Ok? {
      var i :| 0 <= i < |messages| && messages[i] == message;
      assert i in places;
    }
    if places != [] {
      assert places[0] in places && messages[places[0]].Ok?;
    }
  }

  // A handler's context: the delivered envelope and the publishes held until it returns.
  class HandlerContext {
    const envelope: Envelope
    var held: seq<Envelope>

    ghost predicate Valid()
      reads this
    {
      Follows(envelope, held)
    }

    constructor (envelope: Envelope)
      ensures Valid() && this.envelope == envelope && held == []
    {
      this.envelope := envelope;
      held := [];
    }

    // Holds a publish that follows the handled message. `encoded` is the message with its own id, time
    // and data; one that can't be encoded isn't held.
    method Publish(encoded: Result<Envelope, Failure>) returns (result: Result<(), Failure>)
      requires Valid()
      modifies this
      ensures Valid() && result.Ok? == encoded.Ok?
      ensures result.Err? ==> held == old(held)
      ensures result.Ok? ==>
                && |held| == |old(held)| + 1 && held[..|old(held)|] == old(held)
                && held[|old(held)|] == encoded.value.(correlation := held[|old(held)|].correlation,
                                                       trace := envelope.trace)
                && held[|old(held)|].correlation.causationId == Some(envelope.id)
                && held[|old(held)|].correlation.correlationId == envelope.correlation.correlationId
    {
      var message :- encoded;
      held := held + [Followed(envelope, message)];
      return Ok(());
    }
  }

  // Runs a handler on a new context, which then holds exactly the publishes that could be encoded, in
  // order.
  method Call(context: HandlerContext, work: Work) returns (result: Result<bool, Failure>)
    requires context.held == []
    modifies context
    ensures context.Valid() && result == work.end
    ensures context.held == HeldBy(context.envelope, work.messages)
    ensures Carries(context.envelope, work.messages, context.held)
  {
    hide Carries;
    HeldIsCarried(context.envelope, work.messages);
    assert work.messages[..0] == [];
    for i := 0 to |work.messages|
      invariant context.Valid() && context.held == HeldBy(context.envelope, work.messages[..i])
    {
      assert work.messages[..i + 1][..i] == work.messages[..i];
      ghost var before := context.held;
      var published := context.Publish(work.messages[i]);
      if published.Ok? {
        assert context.held == before + [Followed(context.envelope, work.messages[i].value)];
      }
    }
    assert work.messages[..|work.messages|] == work.messages;
    return work.end;
  }
}
