/** An outbox row: the envelope's columns, and its other attributes as JSON. */
module OutboxRows {
  import opened Envelopes
  import opened Options
  import opened Rfc3339

  // An attribute of a stored row. Only a row written by other means has one that is no string.
  datatype Json = Text(value: string) | Other

  datatype Columns = Columns(
    id: MessageId,
    messageType: string,
    source: string,
    subject: Option<string>,
    partitionKey: Option<string>,
    contentType: string,
    dataSchema: Option<string>,
    attributes: map<string, Json>,
    data: seq<Byte>)

  // What a row keeps outside its attributes column.
  const COLUMN_ATTRIBUTES: seq<string> := [
    "specversion", "id", "type", "source", "subject", "partitionkey", "datacontenttype", "dataschema"
  ]

  function Remaining(formats: Formats, envelope: Envelope): AttributeMap {
    var attributes := Attributes(formats, envelope);
    map name | name in attributes && name !in COLUMN_ATTRIBUTES :: attributes[name]
  }

  method Without(all: AttributeMap, names: seq<string>) returns (attributes: AttributeMap)
    ensures attributes == map name | name in all && name !in names :: all[name]
  {
    attributes := all;
    for i := 0 to |names|
      invariant attributes == map name | name in all && name !in names[..i] :: all[name]
    {
      attributes := attributes - {names[i]};
    }
    assert names[..|names|] == names;
  }

  method RemainingAttributes(formats: Formats, envelope: Envelope) returns (attributes: AttributeMap)
    ensures attributes == Remaining(formats, envelope)
  {
    attributes := ToAttributes(formats, envelope);
    hide Attributes;
    attributes := Without(attributes, COLUMN_ATTRIBUTES);
  }

  // The row an envelope is inserted as.
  function Split(formats: Formats, envelope: Envelope): Columns {
    Columns(
      envelope.id, envelope.messageType, envelope.source, envelope.subject, envelope.partitionKey,
      envelope.contentType, envelope.dataSchema, AsJson(Remaining(formats, envelope)), envelope.data)
  }

  function AsJson(attributes: AttributeMap): map<string, Json> {
    map name | name in attributes :: Text(attributes[name])
  }

  predicate AllText(attributes: map<string, Json>) {
    forall name <- attributes :: attributes[name].Text?
  }

  function AsText(attributes: map<string, Json>): AttributeMap
    requires AllText(attributes)
  {
    map name | name in attributes :: attributes[name].value
  }

  function ColumnEntries(formats: Formats, row: Columns): seq<Entry> {
    [("specversion", Some("1.0")), ("id", Some(formats.idText(row.id))), ("type", Some(row.messageType)),
     ("source", Some(row.source)), ("datacontenttype", Some(row.contentType)), ("subject", row.subject),
     ("partitionkey", row.partitionKey), ("dataschema", row.dataSchema)]
  }

  // The attributes of a row: the stored ones, then the columns.
  function RowAttributes(formats: Formats, row: Columns): AttributeMap
    requires AllText(row.attributes)
  {
    AsText(row.attributes) + PutAll(ColumnEntries(formats, row))
  }

  // The envelope a row reads as, if it does.
  function ReadRow(formats: Formats, row: Columns): Option<Envelope> {
    if AllText(row.attributes) then Read(formats, RowAttributes(formats, row), row.data) else None
  }

  datatype RowError = NotText(name: string) | NotAnEnvelope(error: EnvelopeError) | NotATime(column: string)

  // The first stored attribute, in name order, that isn't a string.
  ghost predicate FirstOther(stored: map<string, Json>, name: string) {
    name in stored && stored[name].Other? && forall other <- stored :: stored[other].Other? ==> UpTo(name, other)
  }

  // Past attributes that are strings, the first one that isn't is the first of all.
  lemma FirstFound(stored: map<string, Json>, left: set<string>, name: string)
    requires left <= stored.Keys && AllText(stored - left)
    requires name in left && stored[name].Other? && forall other <- left :: UpTo(name, other)
    ensures FirstOther(stored, name) && !AllText(stored)
  {
    hide UpTo;
    assert forall other <- stored :: other !in left ==> (stored - left)[other] == stored[other];
  }

  // The stored attributes, if all are strings.
  method StoredAttributes(stored: map<string, Json>) returns (attributes: Result<AttributeMap, RowError>)
    ensures attributes.Ok? <==> AllText(stored)
    ensures attributes.Ok? ==> attributes.value == AsText(stored)
    ensures attributes.Err? ==> attributes.error.NotText? && FirstOther(stored, attributes.error.name)
  {
    hide UpTo;
    var texts: AttributeMap, left := map[], stored.Keys;
    while left != {}
      invariant left <= stored.Keys
      invariant AllText(stored - left) && texts == AsText(stored - left)
    {
      var name := FirstOf(left);
      if stored[name].Other? {
        FirstFound(stored, left, name);
        return Err(NotText(name));
      }
      assert stored - (left - {name}) == (stored - left)[name := stored[name]];
      texts := texts[name := stored[name].value];
      left := left - {name};
    }
    assert stored - {} == stored;
    return Ok(texts);
  }

  lemma OverMore(stored: AttributeMap, columns: seq<Entry>, column: Entry)
    ensures stored + PutAll(columns + [column]) == Put(stored + PutAll(columns), column)
  {
    assert (columns + [column])[..|columns|] == columns;
    hide PutAll;
  }

  // Sets the columns over the stored attributes.
  method PutOver(stored: AttributeMap, columns: seq<Entry>) returns (attributes: AttributeMap)
    ensures attributes == stored + PutAll(columns)
  {
    attributes := stored;
    assert columns[..0] == [];
    for i := 0 to |columns|
      invariant attributes == stored + PutAll(columns[..i])
    {
      assert columns[..i + 1] == columns[..i] + [columns[i]];
      OverMore(stored, columns[..i], columns[i]);
      attributes := Put(attributes, columns[i]);
    }
    assert columns[..|columns|] == columns;
  }

  // A claimed row's envelope, and the two times the claim selects as text.
  datatype Claimed = Claimed(envelope: Envelope, createdAt: Timestamp, availableAt: Timestamp)

  // What a claimed row reads as: its envelope and times, or the first thing that
  // doesn't read.
  ghost predicate RowReads(
    formats: Formats, row: Columns, createdAt: string, availableAt: string, record: Result<Claimed, RowError>)
  {
    match record
    case Ok(claimed) =>
      && ReadRow(formats, row) == Some(claimed.envelope)
      && Parse(createdAt) == Some(claimed.createdAt) && Parse(availableAt) == Some(claimed.availableAt)
    case Err(NotText(name)) => FirstOther(row.attributes, name)
    case Err(NotAnEnvelope(error)) =>
      AllText(row.attributes) && Reads(formats, RowAttributes(formats, row), row.data, Err(error))
    case Err(NotATime(column)) =>
      && ReadRow(formats, row).Some?
      && (if Parse(createdAt).None? then column == "created_at"
          else Parse(availableAt).None? && column == "available_at")
  }

  // Reads a claimed row.
  method Record(formats: Formats, row: Columns, createdAt: string, availableAt: string)
    returns (record: Result<Claimed, RowError>)
    ensures RowReads(formats, row, createdAt, availableAt, record)
    ensures record.Ok? <==> ReadRow(formats, row).Some? && Parse(createdAt).Some? && Parse(availableAt).Some?
    ensures record.Ok? ==> ReadRow(formats, row) == Some(record.value.envelope)
  {
    hide Reads, PutAll, AsText, ColumnEntries, Parse;
    var stored := StoredAttributes(row.attributes);
    if stored.Err? {
      return Err(stored.error);
    }
    var attributes := PutOver(stored.value, ColumnEntries(formats, row));
    var envelope := FromAttributes(formats, attributes, row.data);
    if envelope.Err? {
      NotRead(formats, attributes, row.data, envelope.error);
      return Err(NotAnEnvelope(envelope.error));
    }
    var created := ParseText(createdAt);
    if created.None? {
      return Err(NotATime("created_at"));
    }
    var available := ParseText(availableAt);
    if available.None? {
      return Err(NotATime("available_at"));
    }
    return Ok(Claimed(envelope.value, created.value, available.value));
  }

  lemma NotRead(formats: Formats, attributes: AttributeMap, data: seq<Byte>, error: EnvelopeError)
    requires Reads(formats, attributes, data, Err(error))
    ensures Read(formats, attributes, data) == None
  {
  }

  // The row of an envelope reads as that envelope: an extension can't take a column's name.
  lemma RowRoundTrip(formats: Formats, envelope: Envelope)
    requires formats.Lawful() && envelope.Valid(formats)
    ensures ReadRow(formats, Split(formats, envelope)) == Some(envelope)
  {
    SplitAttributes(formats, envelope);
    AttributesRoundTrip(formats, envelope, Ok(envelope));
    hide Attributes, Reads, RowAttributes, ColumnEntries, Remaining;
  }

  lemma SplitAttributes(formats: Formats, envelope: Envelope)
    requires envelope.Valid(formats)
    ensures RowAttributes(formats, Split(formats, envelope)) == Attributes(formats, envelope)
  {
    var row, attributes := Split(formats, envelope), Attributes(formats, envelope);
    forall name: string
      ensures Get(RowAttributes(formats, row), name) == Get(attributes, name)
    {
      SameAttribute(formats, envelope, name);
    }
    hide Get, RowAttributes, Attributes, Split;
    SameEntries(RowAttributes(formats, row), attributes);
  }

  lemma SameAttribute(formats: Formats, envelope: Envelope, name: string)
    requires envelope.Valid(formats)
    ensures Get(RowAttributes(formats, Split(formats, envelope)), name) == Get(Attributes(formats, envelope), name)
  {
    var row := Split(formats, envelope);
    var columns := ColumnEntries(formats, row);
    assert AsText(row.attributes) == Remaining(formats, envelope);
    if name in COLUMN_ATTRIBUTES {
      ColumnValue(formats, envelope, name);
    } else if name in PutAll(columns) {
      EntryNames(columns, name);
    }
  }

  lemma SameEntries(first: AttributeMap, second: AttributeMap)
    requires forall name: string :: Get(first, name) == Get(second, name)
    ensures first == second
  {
    forall name: string
      ensures name in first <==> name in second
      ensures name in first ==> first[name] == second[name]
    {
      assert Get(first, name) == Get(second, name);
    }
  }

  lemma ColumnValue(formats: Formats, envelope: Envelope, name: string)
    requires envelope.Valid(formats) && name in COLUMN_ATTRIBUTES
    ensures Get(PutAll(ColumnEntries(formats, Split(formats, envelope))), name)
            == Get(Attributes(formats, envelope), name)
  {
    Aligned(formats, envelope);
    hide Attributes, PutAll, Split, ColumnEntries, Entries;
    var i: nat :| i < |COLUMN_ATTRIBUTES| && COLUMN_ATTRIBUTES[i] == name;
    match i
    case 0 => ColumnAt(formats, envelope, 0, 0);
    case 1 => ColumnAt(formats, envelope, 1, 1);
    case 2 => ColumnAt(formats, envelope, 2, 3);
    case 3 => ColumnAt(formats, envelope, 3, 2);
    case 4 => ColumnAt(formats, envelope, 5, 6);
    case 5 => ColumnAt(formats, envelope, 6, 8);
    case 6 => ColumnAt(formats, envelope, 4, 5);
    case _ => ColumnAt(formats, envelope, 7, 7);
  }

  // Each column is one of the fields.
  lemma Aligned(formats: Formats, envelope: Envelope)
    ensures var columns, fields := ColumnEntries(formats, Split(formats, envelope)), Entries(formats, envelope);
            && |columns| == 8
            && columns[0] == fields[0] && columns[1] == fields[1] && columns[2] == fields[3]
            && columns[3] == fields[2] && columns[4] == fields[5] && columns[5] == fields[6]
            && columns[6] == fields[8] && columns[7] == fields[7]
  {
    hide Remaining, AsJson;
    var fields := Entries(formats, envelope);
    var required, optional := RequiredEntries(formats, envelope), OptionalEntries(formats, envelope);
    assert fields == required + optional;
    assert forall i | 0 <= i < 6 :: fields[i] == required[i];
    assert fields[6] == optional[0] && fields[7] == optional[1] && fields[8] == optional[2];
  }

  // A column that is also a field has the field's value.
  lemma ColumnAt(formats: Formats, envelope: Envelope, column: nat, field: nat)
    requires envelope.Valid(formats) && column < 8 && field < |FIELDS|
    requires ColumnEntries(formats, Split(formats, envelope))[column] == Entries(formats, envelope)[field]
    ensures Get(PutAll(ColumnEntries(formats, Split(formats, envelope))), FIELDS[field])
            == Get(Attributes(formats, envelope), FIELDS[field])
  {
    hide Attributes, PutAll;
    var columns := ColumnEntries(formats, Split(formats, envelope));
    DistinctColumns(columns);
    EntryValue(columns, column);
    FieldValue(formats, envelope, field);
  }

  lemma DistinctColumns(columns: seq<Entry>)
    requires |columns| == 8
    requires columns[0].0 == "specversion" && columns[1].0 == "id" && columns[2].0 == "type" && columns[3].0 == "source"
    requires columns[4].0 == "datacontenttype" && columns[5].0 == "subject"
    requires columns[6].0 == "partitionkey" && columns[7].0 == "dataschema"
    ensures forall i, j | 0 <= i < j < |columns| :: columns[i].0 != columns[j].0
  {
  }

  // Each column holds the attribute it is named for.
  lemma ColumnsByName(formats: Formats, envelope: Envelope)
    requires envelope.Valid(formats)
    ensures var row, attributes := Split(formats, envelope), Attributes(formats, envelope);
            && row.id == envelope.id && row.data == envelope.data
            && Some(row.messageType) == Get(attributes, "type")
            && Some(row.source) == Get(attributes, "source")
            && Some(row.contentType) == Get(attributes, "datacontenttype")
            && row.subject == Get(attributes, "subject")
            && row.partitionKey == Get(attributes, "partitionkey")
            && row.dataSchema == Get(attributes, "dataschema")
  {
    NamedHead(formats, envelope);
    NamedTail(formats, envelope);
    hide Attributes, Get, Remaining, AsJson;
  }

  // The attributes column has the other attributes, as strings.
  lemma StoredByName(formats: Formats, envelope: Envelope, name: string)
    ensures var stored, attributes := Split(formats, envelope).attributes, Attributes(formats, envelope);
            && (name in stored
                <==> name in attributes
                     && name !in {"specversion", "id", "type", "source", "subject", "partitionkey",
                                  "datacontenttype", "dataschema"})
            && (name in stored ==> stored[name] == Text(attributes[name]))
  {
    hide Attributes;
  }

  // Whatever wrote the row, what it reads as has the row's id.
  lemma ReadRowId(formats: Formats, row: Columns)
    requires formats.Lawful() && ReadRow(formats, row).Some?
    ensures ReadRow(formats, row).value.id == row.id
  {
    hide Read, RowAttributes;
    IdColumn(formats, row);
    ReadId(formats, RowAttributes(formats, row), row.data);
  }

  lemma IdColumn(formats: Formats, row: Columns)
    requires AllText(row.attributes)
    ensures Get(RowAttributes(formats, row), "id") == Some(formats.idText(row.id))
  {
    hide PutAll;
    var columns := ColumnEntries(formats, row);
    DistinctColumns(columns);
    EntryValue(columns, 1);
  }

  lemma ReadId(formats: Formats, attributes: AttributeMap, data: seq<Byte>)
    requires Read(formats, attributes, data).Some? && Get(attributes, "id").Some?
    ensures formats.readId(attributes["id"]) == Some(Read(formats, attributes, data).value.id)
  {
  }
}
