/** The outbox table and the statements that claim and mark its rows.

Each statement runs at one time of the database's clock. A claim sets its rows' due time,
and a mark changes only those that still have that due time. */
module Outbox {
  import opened Envelopes
  import opened Options
  import opened OutboxRows
  import opened Retry

  // A row's primary key: the time it was written at, by which the table is partitioned, and its message's
  // id. Times are nanoseconds.
  datatype Key = Key(createdAt: int, id: MessageId)

  datatype Status = Pending | Dispatched | Failed

  datatype Row = Row(content: Columns, status: Status, availableAt: int, attempts: nat)

  type Table = map<Key, Row>

  // A claim's hold on one row: until when it is leased, and how many publishes had failed then.
  datatype Lease = Lease(key: Key, token: int, attempts: nat)

  // How the database answers a statement: it says that it landed; it landed although it reports an
  // error; or it didn't land.
  datatype Reply = Replied | LandedUnsaid | Lost

  // What a claim returns for a row.
  datatype Record = Record(envelope: Envelope, createdAt: int, attempts: nat, leasedUntil: int) {
    function RowKey(): Key {
      Key(createdAt, envelope.id)
    }

    function Hold(): Lease {
      Lease(RowKey(), leasedUntil, attempts)
    }
  }

  function Due(table: Table, now: int): set<Key> {
    set key | key in table && table[key].status == Pending && table[key].availableAt <= now
  }

  // The rows a claim may take: due, not locked by another statement, lowest ids first, up to the
  // limit, and in id order.
  predicate Selects(table: Table, now: int, limit: nat, locked: set<Key>, keys: seq<Key>) {
    var free := Due(table, now) - locked;
    && |keys| <= limit
    && (forall key <- keys :: key in free)
    && (forall i, j | 0 <= i < j < |keys| :: keys[i] != keys[j] && keys[i].id <= keys[j].id)
    && (forall key <- free :: key in keys || (|keys| == limit && forall taken <- keys :: taken.id <= key.id))
  }

  function Leased(table: Table, keys: seq<Key>, until: int): Table {
    map key | key in table :: if key in keys then table[key].(availableAt := until) else table[key]
  }

  predicate Matches(table: Table, key: Key, token: int) {
    key in table && table[key].status == Pending && table[key].availableAt == token
  }

  function MarkDispatched(table: Table, records: seq<Record>): Table {
    map key | key in table ::
      if exists record <- records :: record.RowKey() == key && Matches(table, key, record.leasedUntil)
      then table[key].(status := Dispatched)
      else table[key]
  }

  function MarkRetry(table: Table, key: Key, token: int, now: int, delay: nat): Table {
    if Matches(table, key, token)
    then table[key := table[key].(attempts := table[key].attempts + 1, availableAt := now + delay)]
    else table
  }

  function MarkFailed(table: Table, key: Key, token: int, now: int): Table {
    if Matches(table, key, token)
    then table[key := table[key].(status := Failed, attempts := table[key].attempts + 1, availableAt := now)]
    else table
  }

  // The claim's own mark for a row it can't read, which keeps the due time.
  function MarkUnreadable(table: Table, key: Key, token: int): Table {
    if Matches(table, key, token)
    then table[key := table[key].(status := Failed, attempts := table[key].attempts + 1)]
    else table
  }

  // What a refused publish makes of its row: due again later, or `failed`.
  function PutBack(table: Table, retry: RetryPolicy, record: Record, now: int): Table {
    var attempt := record.attempts + 1;
    if retry.IsLast(attempt) then MarkFailed(table, record.RowKey(), record.leasedUntil, now)
    else MarkRetry(table, record.RowKey(), record.leasedUntil, now, retry.DelayAfter(attempt))
  }

  // The claimed rows that read as envelopes, in order.
  function Readable(formats: Formats, table: Table, keys: seq<Key>, until: int): seq<Record>
    requires forall key <- keys :: key in table
  {
    if keys == [] then []
    else
      var row := table[keys[0]];
      var rest := Readable(formats, table, keys[1..], until);
      match ReadRow(formats, row.content)
      case Some(envelope) => [Record(envelope, keys[0].createdAt, row.attempts, until)] + rest
      case None => rest
  }

  // The claimed rows that don't.
  function Unreadable(formats: Formats, table: Table, keys: seq<Key>, until: int): seq<Lease>
    requires forall key <- keys :: key in table
  {
    if keys == [] then []
    else
      var row := table[keys[0]];
      var rest := Unreadable(formats, table, keys[1..], until);
      if ReadRow(formats, row.content).Some? then rest else [Lease(keys[0], until, row.attempts)] + rest
  }
}
