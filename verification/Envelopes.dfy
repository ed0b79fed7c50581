/** The envelope and its CloudEvents attributes.

On its way an envelope is a flat map of attributes, which must give the same envelope back.
The text of ids and the checks of types, sources and content types belong to other parts; `Formats`
stands for them. */
module Envelopes {
  import opened Options
  import opened Rfc3339

  type MessageId = nat
  type Byte = value: int | 0 <= value < 256
  type AttributeMap = map<string, string>

  // How ids are written and read, and which values the checked constructors take.
  datatype Formats = Formats(
    idText: MessageId -> string,
    readId: string -> Option<MessageId>,
    isSource: string -> bool,
    isMessageType: string -> bool,
    isContentType: string -> bool)
  {
    // An id reads back from its text.
    ghost predicate Lawful() {
      forall id: MessageId :: readId(idText(id)) == Some(id)
    }
  }

  datatype Correlation = Correlation(correlationId: Option<MessageId>, causationId: Option<MessageId>)

  datatype TraceContext = TraceContext(traceparent: string, tracestate: Option<string>)

  datatype Envelope = Envelope(
    id: MessageId,
    messageType: string,
    source: string,
    time: Timestamp,
    subject: Option<string>,
    contentType: string,
    dataSchema: Option<string>,
    partitionKey: Option<string>,
    correlation: Correlation,
    trace: Option<TraceContext>,
    extensions: map<string, string>,
    data: seq<Byte>)
  {
    // What the checked types of the fields allow.
    ghost predicate Valid(formats: Formats) {
      && formats.isSource(source) && formats.isMessageType(messageType) && formats.isContentType(contentType)
      && forall name <- extensions :: NameError(name).None?
    }
  }

  // The names that are fields here and not extensions, as `FromAttributes` takes them.
  const FIELDS: seq<string> := [
    "specversion", "id", "source", "type", "time", "datacontenttype",
    "subject", "dataschema", "partitionkey", "correlationid", "causationid", "tracestate", "traceparent"
  ]

  // No extension may be called `data`, which is where a structured message has its body.
  predicate Reserved(name: string) {
    name in FIELDS || name == "data"
  }

  datatype EnvelopeError = MissingAttribute(name: string) | InvalidAttribute(name: string) | InvalidMessageType
  | BadName | LongName | ReservedName

  // Why an extension can't have this name.
  function NameError(name: string): Option<EnvelopeError> {
    if name == "" || exists i | 0 <= i < |name| :: !('a' <= name[i] <= 'z' || '0' <= name[i] <= '9') then Some(BadName)
    else if |name| > 20 then Some(LongName)
    else if Reserved(name) then Some(ReservedName)
    else None
  }

  // The extensions of an envelope, whose names are checked as they are set.
  class Extensions {
    var entries: map<string, string>

    ghost predicate Valid()
      reads this
    {
      forall name <- entries :: NameError(name).None?
    }

    constructor ()
      ensures Valid() && entries == map[]
    {
      entries := map[];
    }

    constructor Of(entries: map<string, string>)
      requires forall name <- entries :: NameError(name).None?
      ensures Valid() && this.entries == entries
    {
      this.entries := entries;
    }

    // Puts a value under an allowed name, over an older one if there was one. Allowed are one to
    // twenty lower-case letters and digits that name no field of their own.
    method Insert(name: string, value: string) returns (replaced: Result<Option<string>, EnvelopeError>)
      requires Valid()
      modifies this
      ensures Valid()
      ensures var plain := name != ""
                           && forall i | 0 <= i < |name| :: 'a' <= name[i] <= 'z' || '0' <= name[i] <= '9';
              replaced == if !plain then Err(BadName)
                          else if |name| > 20 then Err(LongName)
                          else if name in {"specversion", "id", "source", "type", "time", "datacontenttype",
                                           "subject", "dataschema", "partitionkey", "correlationid",
                                           "causationid", "traceparent", "tracestate", "data"}
                          then Err(ReservedName)
                          else if name in old(entries) then Ok(Some(old(entries)[name])) else Ok(None)
      ensures entries == if replaced.Ok? then old(entries)[name := value] else old(entries)
      ensures match NameError(name)
              case Some(error) => replaced == Err(error)
              case None => replaced.Ok?
    {
      var error := NameError(name);
      if error.Some? {
        return Err(error.value);
      }
      replaced := Ok(Get(entries, name));
      entries := entries[name := value];
    }

    method Remove(name: string) returns (removed: Option<string>)
      requires Valid()
      modifies this
      ensures Valid() && removed == Get(old(entries), name) && entries == old(entries) - {name}
    {
      removed := Get(entries, name);
      entries := entries - {name};
    }
  }

  // Whether a name is another one or comes before it, letter by letter.
  predicate UpTo(name: string, other: string) {
    name == "" || (other != "" && (name[0] < other[0] || (name[0] == other[0] && UpTo(name[1..], other[1..]))))
  }

  // Where two names first differ, the smaller letter comes first.
  predicate DiffersAt(name: string, other: string, i: nat) {
    i < |name| && i < |other| && name[..i] == other[..i] && name[i] < other[i]
  }

  lemma {:induction false} LetterByLetter(name: string, other: string)
    ensures UpTo(name, other) <==> name <= other || exists i: nat :: DiffersAt(name, other, i)
  {
    if name != "" && other != "" {
      if name[0] < other[0] {
        assert DiffersAt(name, other, 0);
      } else if name[0] == other[0] {
        LetterByLetter(name[1..], other[1..]);
        if i: nat :| DiffersAt(name[1..], other[1..], i) {
          assert name[..i + 1] == [name[0]] + name[1..][..i];
          assert DiffersAt(name, other, i + 1);
        }
        if i: nat :| DiffersAt(name, other, i) {
          assert name[1..][..i - 1] == name[..i][1..];
          assert DiffersAt(name[1..], other[1..], i - 1);
        }
      }
    }
  }

  lemma {:induction false} NamesInOrder(name: string, other: string)
    ensures UpTo(name, other) || UpTo(other, name)
    ensures UpTo(name, other) && UpTo(other, name) ==> name == other
  {
    if name != "" && other != "" {
      NamesInOrder(name[1..], other[1..]);
    }
  }

  lemma {:induction false} OrderGoesOn(first: string, second: string, third: string)
    requires UpTo(first, second) && UpTo(second, third)
    ensures UpTo(first, third)
  {
    if first != "" && first[0] == second[0] == third[0] {
      OrderGoesOn(first[1..], second[1..], third[1..]);
    }
  }

  // Any names have a first one.
  lemma FirstExists(names: set<string>) returns (first: string)
    requires names != {}
    ensures first in names && forall name <- names :: UpTo(first, name)
    decreases |names|
  {
    var some :| some in names;
    NamesInOrder(some, some);
    if names == {some} {
      return some;
    }
    var rest := names - {some};
    assert names == rest + {some};
    first := FirstExists(rest);
    NamesInOrder(first, some);
    if UpTo(some, first) {
      forall name <- names
        ensures UpTo(some, name)
      {
        if name != some {
          OrderGoesOn(some, first, name);
        }
      }
      first := some;
    }
  }

  // A map's names are gone through in their order.
  method FirstOf(names: set<string>) returns (first: string)
    requires names != {}
    ensures first in names && forall name <- names :: UpTo(first, name)
  {
    ghost var it := FirstExists(names);
    first :| first in names && forall name <- names :: UpTo(first, name);
  }

  function Get(attributes: AttributeMap, name: string): Option<string> {
    if name in attributes then Some(attributes[name]) else None
  }

  type Entry = (string, Option<string>)

  function Put(attributes: AttributeMap, entry: Entry): AttributeMap {
    match entry.1
    case Some(value) => attributes[entry.0 := value]
    case None => attributes
  }

  function PutAll(entries: seq<Entry>): AttributeMap {
    if entries == [] then map[] else Put(PutAll(entries[..|entries| - 1]), entries[|entries| - 1])
  }

  function MapOption<T, U>(option: Option<T>, f: T -> U): Option<U> {
    match option
    case Some(value) => Some(f(value))
    case None => None
  }

  function RequiredEntries(formats: Formats, envelope: Envelope): (entries: seq<Entry>)
    ensures |entries| == 6
    ensures forall i | 0 <= i < 6 :: entries[i].0 == FIELDS[i]
  {
    [("specversion", Some("1.0")), ("id", Some(formats.idText(envelope.id))), ("source", Some(envelope.source)),
     ("type", Some(envelope.messageType)), ("time", Some(Display(envelope.time))),
     ("datacontenttype", Some(envelope.contentType))]
  }

  function OptionalEntries(formats: Formats, envelope: Envelope): (entries: seq<Entry>)
    ensures |entries| == |FIELDS| - 6
    ensures forall i | 0 <= i < |FIELDS| - 6 :: entries[i].0 == FIELDS[i + 6]
  {
    [("subject", envelope.subject), ("dataschema", envelope.dataSchema), ("partitionkey", envelope.partitionKey),
     ("correlationid", MapOption(envelope.correlation.correlationId, formats.idText)),
     ("causationid", MapOption(envelope.correlation.causationId, formats.idText)),
     ("tracestate", if envelope.trace.Some? then envelope.trace.value.tracestate else None),
     ("traceparent", MapOption(envelope.trace, (trace: TraceContext) => trace.traceparent))]
  }

  function Entries(formats: Formats, envelope: Envelope): (entries: seq<Entry>)
    ensures |entries| == |FIELDS|
    ensures forall i | 0 <= i < |FIELDS| :: entries[i].0 == FIELDS[i]
  {
    RequiredEntries(formats, envelope) + OptionalEntries(formats, envelope)
  }

  // An envelope as a flat map.
  function Attributes(formats: Formats, envelope: Envelope): AttributeMap {
    PutAll(Entries(formats, envelope)) + envelope.extensions
  }

  method ToAttributes(formats: Formats, envelope: Envelope) returns (attributes: AttributeMap)
    ensures attributes == Attributes(formats, envelope)
  {
    hide RequiredEntries, OptionalEntries;
    attributes := PutEach(map[], RequiredEntries(formats, envelope), []);
    assert [] + RequiredEntries(formats, envelope) == RequiredEntries(formats, envelope);
    attributes := PutEach(attributes, OptionalEntries(formats, envelope), RequiredEntries(formats, envelope));
    attributes := PutExtensions(attributes, envelope.extensions);
  }

  // Sets the entries that have a value, after those before them.
  method PutEach(attributes: AttributeMap, entries: seq<Entry>, ghost before: seq<Entry>) returns (all: AttributeMap)
    requires attributes == PutAll(before)
    ensures all == PutAll(before + entries)
  {
    all := attributes;
    assert before + entries[..0] == before;
    for i := 0 to |entries|
      invariant all == PutAll(before + entries[..i])
    {
      assert (before + entries[..i + 1])[..|before| + i] == before + entries[..i];
      all := Put(all, entries[i]);
    }
    assert entries[..|entries|] == entries;
  }

  method PutExtensions(attributes: AttributeMap, extensions: AttributeMap) returns (all: AttributeMap)
    ensures all == attributes + extensions
  {
    all := attributes;
    var left := extensions.Keys;
    while left != {}
      invariant left <= extensions.Keys && all == attributes + (extensions - left)
    {
      var name :| name in left;
      all := all[name := extensions[name]];
      left := left - {name};
    }
    assert extensions - {} == extensions;
  }

  function Required(attributes: AttributeMap, name: string): Result<string, EnvelopeError> {
    match Get(attributes, name)
    case Some(value) => Ok(value)
    case None => Err(MissingAttribute(name))
  }

  function OptionalId(formats: Formats, attributes: AttributeMap, name: string)
    : Result<Option<MessageId>, EnvelopeError>
  {
    match Get(attributes, name)
    case None => Ok(None)
    case Some(text) =>
      var id := formats.readId(text);
      if id.Some? then Ok(id) else Err(InvalidAttribute(name))
  }

  // The trace of two attributes: there is none without a `traceparent`.
  function Trace(traceparent: Option<string>, tracestate: Option<string>): Option<TraceContext> {
    MapOption(traceparent, (parent: string) => TraceContext(parent, tracestate))
  }

  // The names that have no field, which become extensions.
  function ExtensionsOf(attributes: AttributeMap): AttributeMap {
    map name | name in attributes && name !in FIELDS :: attributes[name]
  }

  datatype Head = Head(id: MessageId, source: string, messageType: string, time: Timestamp, contentType: string)

  // The attributes every envelope has.
  function HeadOf(formats: Formats, attributes: AttributeMap): Result<Head, EnvelopeError> {
    var specversion :- Required(attributes, "specversion");
    if specversion != "1.0" then Err(InvalidAttribute("specversion")) else
    var idText :- Required(attributes, "id");
    var id := formats.readId(idText);
    if id.None? then Err(InvalidAttribute("id")) else
    var source :- Required(attributes, "source");
    if !formats.isSource(source) then Err(InvalidAttribute("source")) else
    var messageType :- Required(attributes, "type");
    if !formats.isMessageType(messageType) then Err(InvalidMessageType) else
    var timeText :- Required(attributes, "time");
    var time := Parse(timeText);
    if time.None? then Err(InvalidAttribute("time")) else
    var contentType :- Required(attributes, "datacontenttype");
    if !formats.isContentType(contentType) then Err(InvalidAttribute("datacontenttype")) else
    Ok(Head(id.value, source, messageType, time.value, contentType))
  }

  // The attributes an envelope may lack, after those it has.
  datatype Tail = Tail(
    subject: Option<string>,
    dataSchema: Option<string>,
    partitionKey: Option<string>,
    correlation: Correlation,
    trace: Option<TraceContext>)

  function TailOf(formats: Formats, attributes: AttributeMap): Result<Tail, EnvelopeError> {
    var correlationId :- OptionalId(formats, attributes, "correlationid");
    var causationId :- OptionalId(formats, attributes, "causationid");
    Ok(Tail(
      Get(attributes, "subject"), Get(attributes, "dataschema"), Get(attributes, "partitionkey"),
      Correlation(correlationId, causationId), Trace(Get(attributes, "traceparent"), Get(attributes, "tracestate"))))
  }

  function Join(head: Head, tail: Tail, extensions: AttributeMap, data: seq<Byte>): Envelope {
    Envelope(
      head.id, head.messageType, head.source, head.time, tail.subject, head.contentType, tail.dataSchema,
      tail.partitionKey, tail.correlation, tail.trace, extensions, data)
  }

  // The envelope of some attributes, or the first error found before the extensions.
  function Fields(formats: Formats, attributes: AttributeMap, data: seq<Byte>): Result<Envelope, EnvelopeError> {
    var head :- HeadOf(formats, attributes);
    var tail :- TailOf(formats, attributes);
    Ok(Join(head, tail, ExtensionsOf(attributes), data))
  }

  predicate ExtensionsFit(attributes: AttributeMap) {
    forall name <- ExtensionsOf(attributes) :: NameError(name).None?
  }

  // The first name, in order, that can't be an extension's.
  ghost predicate FirstUnfit(extensions: AttributeMap, name: string) {
    && name in extensions && NameError(name).Some?
    && forall other <- extensions :: NameError(other).Some? ==> UpTo(name, other)
  }

  // What reading some attributes gives: of several invalid extension names it reports the first.
  ghost predicate Reads(
    formats: Formats, attributes: AttributeMap, data: seq<Byte>, result: Result<Envelope, EnvelopeError>)
  {
    if Fields(formats, attributes, data).Ok? && !ExtensionsFit(attributes)
    then exists name :: FirstUnfit(ExtensionsOf(attributes), name) && result == Err(NameError(name).value)
    else result == Fields(formats, attributes, data)
  }

  // No two fields share a name.
  lemma DistinctFields()
    ensures forall i, j | 0 <= i < j < |FIELDS| :: FIELDS[i] != FIELDS[j]
  {
  }

  // The names that no field took so far.
  function Untaken(attributes: AttributeMap, taken: nat): AttributeMap
    requires taken <= |FIELDS|
  {
    map name | name in attributes && name !in FIELDS[..taken] :: attributes[name]
  }

  // The envelope some attributes read as, if they do.
  function Read(formats: Formats, attributes: AttributeMap, data: seq<Byte>): (envelope: Option<Envelope>)
    ensures forall read: Envelope :: Reads(formats, attributes, data, Ok(read)) <==> envelope == Some(read)
  {
    var fields := Fields(formats, attributes, data);
    if fields.Ok? && ExtensionsFit(attributes) then Some(fields.value) else None
  }

  // The attributes while their fields are taken out of them.
  class AttributeReader {
    var rest: AttributeMap
    ghost const given: AttributeMap
    ghost var taken: nat

    ghost predicate Valid()
      reads this
    {
      taken <= |FIELDS| && rest == Untaken(given, taken)
    }

    constructor (given: AttributeMap)
      ensures Valid() && this.given == given && taken == 0
    {
      this.given := given;
      rest := given;
      taken := 0;
    }

    method Take(name: string) returns (value: Option<string>)
      requires Valid() && taken < |FIELDS| && name == FIELDS[taken]
      modifies this
      ensures Valid() && taken == old(taken) + 1
      ensures value == Get(given, name)
    {
      DistinctFields();
      value := Get(rest, name);
      rest := rest - {name};
      taken := taken + 1;
    }

    method TakeRequired(name: string) returns (value: Result<string, EnvelopeError>)
      requires Valid() && taken < |FIELDS| && name == FIELDS[taken]
      modifies this
      ensures Valid() && taken == old(taken) + 1
      ensures value == Required(given, name)
    {
      hide Untaken;
      var taken := Take(name);
      return if taken.Some? then Ok(taken.value) else Err(MissingAttribute(name));
    }
  }

  method ReadHead(formats: Formats, reader: AttributeReader) returns (head: Result<Head, EnvelopeError>)
    requires reader.Valid() && reader.taken == 0
    modifies reader
    ensures head == HeadOf(formats, reader.given)
    ensures reader.Valid() && (head.Ok? ==> reader.taken == 6)
  {
    hide Untaken, Required, Parse;
    var specversion :- reader.TakeRequired("specversion");
    if specversion != "1.0" { return Err(InvalidAttribute("specversion")); }
    var idText :- reader.TakeRequired("id");
    var id := formats.readId(idText);
    if id.None? { return Err(InvalidAttribute("id")); }
    var source :- reader.TakeRequired("source");
    if !formats.isSource(source) { return Err(InvalidAttribute("source")); }
    var messageType :- reader.TakeRequired("type");
    if !formats.isMessageType(messageType) { return Err(InvalidMessageType); }
    var timeText :- reader.TakeRequired("time");
    var time := ParseText(timeText);
    if time.None? { return Err(InvalidAttribute("time")); }
    var contentType :- reader.TakeRequired("datacontenttype");
    if !formats.isContentType(contentType) { return Err(InvalidAttribute("datacontenttype")); }
    return Ok(Head(id.value, source, messageType, time.value, contentType));
  }

  method ReadTail(formats: Formats, reader: AttributeReader) returns (tail: Result<Tail, EnvelopeError>)
    requires reader.Valid() && reader.taken == 6
    modifies reader
    ensures tail == TailOf(formats, reader.given)
    ensures reader.Valid() && (tail.Ok? ==> reader.taken == |FIELDS|)
  {
    hide Untaken;
    var subject := reader.Take("subject");
    var dataSchema := reader.Take("dataschema");
    var partitionKey := reader.Take("partitionkey");
    var correlationText := reader.Take("correlationid");
    var correlationId := ReadOptionalId(formats, correlationText);
    if correlationId.None? { return Err(InvalidAttribute("correlationid")); }
    var causationText := reader.Take("causationid");
    var causationId := ReadOptionalId(formats, causationText);
    if causationId.None? { return Err(InvalidAttribute("causationid")); }
    var tracestate := reader.Take("tracestate");
    var traceparent := reader.Take("traceparent");
    return Ok(Tail(subject, dataSchema, partitionKey, Correlation(correlationId.value, causationId.value),
                   Trace(traceparent, tracestate)));
  }

  method FromAttributes(formats: Formats, attributes: AttributeMap, data: seq<Byte>)
    returns (result: Result<Envelope, EnvelopeError>)
    ensures Reads(formats, attributes, data, result)
  {
    hide HeadOf, TailOf, Untaken, UpTo, NameError;
    var reader := new AttributeReader(attributes);
    var head := ReadHead(formats, reader);
    if head.Err? { return Err(head.error); }
    var tail := ReadTail(formats, reader);
    if tail.Err? { return Err(tail.error); }
    AllTaken(attributes);
    var extensions := ReadExtensions(reader.rest);
    if extensions.Err? { return Err(extensions.error); }
    return Ok(Join(head.value, tail.value, extensions.value, data));
  }

  lemma AllTaken(attributes: AttributeMap)
    ensures Untaken(attributes, |FIELDS|) == ExtensionsOf(attributes)
  {
    assert FIELDS[..|FIELDS|] == FIELDS;
  }

  function ReadOptionalId(formats: Formats, text: Option<string>): Option<Option<MessageId>> {
    match text
    case None => Some(None)
    case Some(value) =>
      var id := formats.readId(value);
      if id.Some? then Some(id) else None
  }

  // Sets each of the names left as an extension, up to the first that can't be one.
  method ReadExtensions(given: AttributeMap) returns (read: Result<AttributeMap, EnvelopeError>)
    ensures read.Ok? ==> read.value == given && forall name <- given :: NameError(name).None?
    ensures read.Err? ==> exists name :: FirstUnfit(given, name) && NameError(name) == Some(read.error)
  {
    var extensions := new Extensions();
    var left := given.Keys;
    while left != {}
      invariant fresh(extensions) && extensions.Valid()
      invariant left <= given.Keys && extensions.entries == given - left
    {
      var name := FirstOf(left);
      var inserted := extensions.Insert(name, given[name]);
      if inserted.Err? {
        assert forall other <- given - left :: NameError(other).None?;
        assert FirstUnfit(given, name);
        return Err(inserted.error);
      }
      left := left - {name};
    }
    assert extensions.entries == given;
    return Ok(extensions.entries);
  }

  lemma {:induction false} EntryValue(entries: seq<Entry>, i: nat)
    requires i < |entries|
    requires forall j, k | 0 <= j < k < |entries| :: entries[j].0 != entries[k].0
    ensures Get(PutAll(entries), entries[i].0) == entries[i].1
  {
    var before := entries[..|entries| - 1];
    if i < |before| {
      EntryValue(before, i);
    } else if entries[i].0 in PutAll(before) {
      EntryNames(before, entries[i].0);
    }
  }

  lemma {:induction false} EntryNames(entries: seq<Entry>, name: string)
    requires name in PutAll(entries)
    ensures exists i | 0 <= i < |entries| :: entries[i].0 == name
  {
    var before := entries[..|entries| - 1];
    if name in PutAll(before) {
      EntryNames(before, name);
      var i :| 0 <= i < |before| && before[i].0 == name;
      assert entries[i].0 == name;
    }
  }

  // An attribute with a field is the field's value, whatever the extensions are.
  lemma FieldValue(formats: Formats, envelope: Envelope, i: nat)
    requires envelope.Valid(formats) && i < |FIELDS|
    ensures Get(Attributes(formats, envelope), FIELDS[i]) == Entries(formats, envelope)[i].1
  {
    hide RequiredEntries, OptionalEntries;
    DistinctFields();
    EntryValue(Entries(formats, envelope), i);
    assert FIELDS[i] in FIELDS && FIELDS[i] !in envelope.extensions;
  }

  lemma ExtensionValues(formats: Formats, envelope: Envelope)
    requires envelope.Valid(formats)
    ensures ExtensionsOf(Attributes(formats, envelope)) == envelope.extensions
  {
    var entries := Entries(formats, envelope);
    hide RequiredEntries, OptionalEntries, Entries;
    forall name | name in PutAll(entries)
      ensures name in FIELDS
    {
      EntryNames(entries, name);
    }
    forall name | name in envelope.extensions
      ensures name !in FIELDS
    {
      assert NameError(name).None?;
    }
  }

  // Reading an envelope's attributes gives the envelope, and nothing else.
  lemma AttributesRoundTrip(formats: Formats, envelope: Envelope, result: Result<Envelope, EnvelopeError>)
    requires formats.Lawful() && envelope.Valid(formats)
    ensures Reads(formats, Attributes(formats, envelope), envelope.data, result) <==> result == Ok(envelope)
  {
    ExtensionValues(formats, envelope);
    HeadRoundTrip(formats, envelope);
    TailRoundTrip(formats, envelope);
    hide HeadOf, TailOf, Attributes;
  }

  lemma NamedValue(formats: Formats, envelope: Envelope, i: nat, name: string, value: Option<string>)
    requires envelope.Valid(formats) && i < |FIELDS|
    requires (if i < 6 then RequiredEntries(formats, envelope)[i] else OptionalEntries(formats, envelope)[i - 6])
             == (name, value)
    ensures Get(Attributes(formats, envelope), name) == value
  {
    FieldValue(formats, envelope, i);
  }

  lemma NamedHead(formats: Formats, envelope: Envelope)
    requires envelope.Valid(formats)
    ensures var written := Attributes(formats, envelope);
            && Get(written, "specversion") == Some("1.0")
            && Get(written, "id") == Some(formats.idText(envelope.id))
            && Get(written, "source") == Some(envelope.source)
            && Get(written, "type") == Some(envelope.messageType)
            && Get(written, "time") == Some(Display(envelope.time))
            && Get(written, "datacontenttype") == Some(envelope.contentType)
  {
    hide Attributes, Display;
    NamedValue(formats, envelope, 0, "specversion", Some("1.0"));
    NamedValue(formats, envelope, 1, "id", Some(formats.idText(envelope.id)));
    NamedValue(formats, envelope, 2, "source", Some(envelope.source));
    NamedValue(formats, envelope, 3, "type", Some(envelope.messageType));
    NamedValue(formats, envelope, 4, "time", Some(Display(envelope.time)));
    NamedValue(formats, envelope, 5, "datacontenttype", Some(envelope.contentType));
  }

  lemma NamedTail(formats: Formats, envelope: Envelope)
    requires envelope.Valid(formats)
    ensures var written := Attributes(formats, envelope);
            && Get(written, "subject") == envelope.subject
            && Get(written, "dataschema") == envelope.dataSchema
            && Get(written, "partitionkey") == envelope.partitionKey
            && Get(written, "correlationid") == MapOption(envelope.correlation.correlationId, formats.idText)
            && Get(written, "causationid") == MapOption(envelope.correlation.causationId, formats.idText)
            && (match envelope.trace
                case None => "traceparent" !in written && "tracestate" !in written
                case Some(trace) => Get(written, "traceparent") == Some(trace.traceparent)
                                    && Get(written, "tracestate") == trace.tracestate)
  {
    hide Attributes, Display;
    NamedValue(formats, envelope, 6, "subject", envelope.subject);
    NamedValue(formats, envelope, 7, "dataschema", envelope.dataSchema);
    NamedValue(formats, envelope, 8, "partitionkey", envelope.partitionKey);
    NamedValue(formats, envelope, 9, "correlationid", MapOption(envelope.correlation.correlationId, formats.idText));
    NamedValue(formats, envelope, 10, "causationid", MapOption(envelope.correlation.causationId, formats.idText));
    NamedValue(
      formats, envelope, 11, "tracestate", if envelope.trace.Some? then envelope.trace.value.tracestate else None);
    NamedValue(formats, envelope, 12, "traceparent", MapOption(envelope.trace, (t: TraceContext) => t.traceparent));
    hide RequiredEntries, OptionalEntries;
  }

  // The attributes of an envelope by name: one for each field that has a value, and its extensions.
  lemma NamedAttributes(formats: Formats, envelope: Envelope)
    requires envelope.Valid(formats)
    ensures var written := Attributes(formats, envelope);
            && Get(written, "specversion") == Some("1.0")
            && Get(written, "id") == Some(formats.idText(envelope.id))
            && Get(written, "source") == Some(envelope.source)
            && Get(written, "type") == Some(envelope.messageType)
            && Get(written, "time") == Some(Display(envelope.time))
            && Get(written, "datacontenttype") == Some(envelope.contentType)
            && Get(written, "subject") == envelope.subject
            && Get(written, "dataschema") == envelope.dataSchema
            && Get(written, "partitionkey") == envelope.partitionKey
            && Get(written, "correlationid") == (match envelope.correlation.correlationId
                                                 case None => None
                                                 case Some(id) => Some(formats.idText(id)))
            && Get(written, "causationid") == (match envelope.correlation.causationId
                                               case None => None
                                               case Some(id) => Some(formats.idText(id)))
            && (match envelope.trace
                case None => "traceparent" !in written && "tracestate" !in written
                case Some(trace) => Get(written, "traceparent") == Some(trace.traceparent)
                                    && Get(written, "tracestate") == trace.tracestate)
    ensures forall name: string | name !in FIELDS ::
              Get(Attributes(formats, envelope), name) == Get(envelope.extensions, name)
  {
    hide Attributes, Display;
    NamedHead(formats, envelope);
    NamedTail(formats, envelope);
    ExtensionValues(formats, envelope);
    forall name: string | name !in FIELDS
      ensures Get(Attributes(formats, envelope), name) == Get(envelope.extensions, name)
    {
      assert Get(ExtensionsOf(Attributes(formats, envelope)), name) == Get(Attributes(formats, envelope), name);
    }
  }

  lemma HeadRoundTrip(formats: Formats, envelope: Envelope)
    requires formats.Lawful() && envelope.Valid(formats)
    ensures HeadOf(formats, Attributes(formats, envelope))
            == Ok(Head(envelope.id, envelope.source, envelope.messageType, envelope.time, envelope.contentType))
  {
    hide Attributes, Parse, Display;
    TimeRoundTrip(envelope.time);
    NamedHead(formats, envelope);
  }

  lemma OptionalIdRoundTrip(formats: Formats, attributes: AttributeMap, name: string, id: Option<MessageId>)
    requires formats.Lawful() && Get(attributes, name) == MapOption(id, formats.idText)
    ensures OptionalId(formats, attributes, name) == Ok(id)
  {
  }

  lemma TailRoundTrip(formats: Formats, envelope: Envelope)
    requires formats.Lawful() && envelope.Valid(formats)
    ensures TailOf(formats, Attributes(formats, envelope))
            == Ok(Tail(envelope.subject, envelope.dataSchema, envelope.partitionKey, envelope.correlation,
                       envelope.trace))
  {
    hide Attributes, Parse, Display, Entries;
    NamedTail(formats, envelope);
    var attributes := Attributes(formats, envelope);
    OptionalIdRoundTrip(formats, attributes, "correlationid", envelope.correlation.correlationId);
    OptionalIdRoundTrip(formats, attributes, "causationid", envelope.correlation.causationId);
    hide OptionalId;
  }

  // What is read is an envelope that can be written: writing it and reading it again changes
  // nothing.
  lemma ReadingIsStable(
    formats: Formats, attributes: AttributeMap, data: seq<Byte>, envelope: Envelope,
    again: Result<Envelope, EnvelopeError>)
    requires formats.Lawful() && Reads(formats, attributes, data, Ok(envelope))
    ensures envelope.Valid(formats)
    ensures Reads(formats, Attributes(formats, envelope), data, again) <==> again == Ok(envelope)
  {
    AttributesRoundTrip(formats, envelope, again);
  }

  // Some attributes read as an envelope exactly when the six required ones are there, every value
  // with a form has it, and every other name can be an extension's.
  lemma ReadsIff(formats: Formats, attributes: AttributeMap, data: seq<Byte>)
    ensures Read(formats, attributes, data).Some?
            <==> && (forall name <- ["specversion", "id", "source", "type", "time", "datacontenttype"] ::
                       name in attributes)
                 && attributes["specversion"] == "1.0"
                 && formats.isSource(attributes["source"]) && formats.isMessageType(attributes["type"])
                 && formats.isContentType(attributes["datacontenttype"]) && Parse(attributes["time"]).Some?
                 && (forall name <- ["id", "correlationid", "causationid"] ::
                       name in attributes ==> formats.readId(attributes[name]).Some?)
                 && (forall name <- attributes :: name in FIELDS || NameError(name).None?)
  {
    hide Parse, NameError;
  }

  // Whether an error names an attribute that is missing, one that can't be read, or else is about a
  // type or a name that is there.
  predicate IsReal(formats: Formats, attributes: AttributeMap, error: EnvelopeError) {
    match error
    case MissingAttribute(name) =>
      name !in attributes && name in {"specversion", "id", "source", "type", "time", "datacontenttype"}
    case InvalidAttribute(name) =>
      && name in attributes
      && var value := attributes[name];
         || (name == "specversion" && value != "1.0")
         || (name in {"id", "correlationid", "causationid"} && formats.readId(value).None?)
         || (name == "source" && !formats.isSource(value))
         || (name == "time" && Parse(value).None?)
         || (name == "datacontenttype" && !formats.isContentType(value))
    case InvalidMessageType => "type" in attributes && !formats.isMessageType(attributes["type"])
    case _ => exists name <- attributes :: name !in FIELDS && NameError(name) == Some(error)
  }

  // No error blames what the attributes don't have.
  lemma ErrorsAreReal(formats: Formats, attributes: AttributeMap, data: seq<Byte>, error: EnvelopeError)
    requires Reads(formats, attributes, data, Err(error))
    ensures IsReal(formats, attributes, error)
  {
    HeadErrors(formats, attributes);
    TailErrors(formats, attributes);
    hide HeadOf, TailOf, IsReal, UpTo, NameError;
    if HeadOf(formats, attributes).Ok? && TailOf(formats, attributes).Ok? {
      var name :| FirstUnfit(ExtensionsOf(attributes), name) && error == NameError(name).value;
      UnfitIsReal(formats, attributes, name);
    }
  }

  // An error is the first there is: the attributes that come before its own are all read.
  lemma FirstErrorCounts(formats: Formats, attributes: AttributeMap, data: seq<Byte>, error: EnvelopeError, i: nat)
    requires Reads(formats, attributes, data, Err(error)) && i < |FIELDS|
    requires || error == MissingAttribute(FIELDS[i]) || error == InvalidAttribute(FIELDS[i])
             || (error == InvalidMessageType && FIELDS[i] == "type")
    ensures i > 0 ==> Get(attributes, "specversion") == Some("1.0")
    ensures i > 1 ==> "id" in attributes && formats.readId(attributes["id"]).Some?
    ensures i > 2 ==> "source" in attributes && formats.isSource(attributes["source"])
    ensures i > 3 ==> "type" in attributes && formats.isMessageType(attributes["type"])
    ensures i > 4 ==> "time" in attributes && Parse(attributes["time"]).Some?
    ensures i > 5 ==> "datacontenttype" in attributes && formats.isContentType(attributes["datacontenttype"])
    ensures FIELDS[i] == "causationid" && "correlationid" in attributes ==>
              formats.readId(attributes["correlationid"]).Some?
  {
    hide Parse, UpTo;
  }

  lemma HeadErrors(formats: Formats, attributes: AttributeMap)
    ensures var head := HeadOf(formats, attributes); head.Err? ==> IsReal(formats, attributes, head.error)
  {
    hide Parse, NameError;
  }

  lemma TailErrors(formats: Formats, attributes: AttributeMap)
    ensures var tail := TailOf(formats, attributes); tail.Err? ==> IsReal(formats, attributes, tail.error)
  {
    hide Parse, NameError;
  }

  lemma UnfitIsReal(formats: Formats, attributes: AttributeMap, name: string)
    requires name in attributes && name !in FIELDS && NameError(name).Some?
    ensures IsReal(formats, attributes, NameError(name).value)
  {
    hide Parse;
  }

  // The canonical form keeps every attribute but the ids and the time, which it may write another
  // way, and a `tracestate` without a `traceparent`, which it drops.
  lemma CanonicalForm(formats: Formats, attributes: AttributeMap, data: seq<Byte>, envelope: Envelope, name: string)
    requires formats.Lawful() && Reads(formats, attributes, data, Ok(envelope))
    ensures var canonical := Attributes(formats, envelope);
            if name == "tracestate" && "traceparent" !in attributes then name !in canonical
            else && (name in canonical <==> name in attributes)
                 && (name in attributes && name !in {"id", "time", "correlationid", "causationid"} ==>
                       canonical[name] == attributes[name])
  {
    hide Parse, Display;
    ReadingIsStable(formats, attributes, data, envelope, Ok(envelope));
    var canonical := Attributes(formats, envelope);
    if name in FIELDS {
      var i: nat :| i < |FIELDS| && FIELDS[i] == name;
      FieldValue(formats, envelope, i);
      hide Attributes;
      CanonicalField(formats, attributes, data, envelope, i);
    } else {
      ExtensionValues(formats, envelope);
      hide Attributes;
      assert name in canonical <==> name in ExtensionsOf(canonical);
      assert name in attributes <==> name in ExtensionsOf(attributes);
    }
  }

  lemma CanonicalField(formats: Formats, attributes: AttributeMap, data: seq<Byte>, envelope: Envelope, i: nat)
    requires Fields(formats, attributes, data) == Ok(envelope) && i < |FIELDS|
    ensures var (entry, given) := (Entries(formats, envelope)[i].1, Get(attributes, FIELDS[i]));
            if FIELDS[i] == "tracestate" && "traceparent" !in attributes then entry == None
            else (entry.Some? <==> given.Some?) && (i !in {1, 4, 9, 10} ==> entry == given)
    ensures i in {1, 4, 9, 10} <==> FIELDS[i] in {"id", "time", "correlationid", "causationid"}
  {
    hide Parse, Display;
  }
}
