# Sisa messaging: a verified model

Sisa is a message bus with a transactional outbox and inbox. An application writes the messages it
publishes as outbox rows in its own transaction. Dispatchers claim due rows for a lease, publish them
and mark them. Endpoints handle deliveries in a transaction that also records a receipt, so that a
redelivered message is not handled twice. Maintenance creates the tables' partitions ahead and
expires old ones.

The project models these parts as the code has them and proves what the design promises of them,
alone and together.

- **Time and calendar** (`Calendar`, `Dates`, `Decimals`, `Rfc3339`): day numbers and dates, intervals,
  and the date-time of RFC 3339, sections 5.6 and 5.7, with its parser and its printer.
- **Envelopes and rows** (`Envelopes`, `OutboxRows`): an envelope as attributes, and as an outbox row.
- **The outbox** (`Outbox`, `Dispatching`, `BrokerSafety`, `Fencing`, `FenceLimits`, `Attempts`,
  `Rounds`, `Dispatcher`, `Retry`): any number of dispatchers on one table, as a transition system, with
  crashes, lease expiries, refused and late publishes and failed marks; the invariants of all its runs;
  and the dispatcher's round as a method whose actions are steps of that system while everything else
  runs.
- **The inbox** (`Handlers`, `Inbox`, `Transactional`): competing workers, open transactions, commits
  whose outcome is unknown; and the handling of one delivery as a method.
- **The in-memory transport** (`Deliveries`, `Conservation`, `FirstDeliveries`, `WakeUps`, `Receiving`):
  copies, their order, retries, error destinations, wake-ups, and an endpoint's handling of one delivery
  as a method.
- **The whole** (`EndToEnd`, `Rejections`): outbox, broker and inboxes as one system; and the in-memory
  transport with inboxes as another.
- **Partitions** (`Partitions`, `Retention`, `Maintenance`): creating ahead, counting and expiring while
  dispatchers and writers work on the rows.

Step-by-step code is a class with methods. Its `World` holds a state of the transition system, and
`Valid()` says that the state is reachable. Between any two actions of its own, a method lets the others
take any steps, so a property of all reachable states holds in the middle of every method too. Which
calls fail, and what a handler does, are inputs of the methods, so a contract says what a given failure
does.

## What the proofs say about the code

- The receipt is recorded before the message is decoded (`crates/runtime/src/inbox.rs:153-176`), while
  `docs/02-flows.md` decodes before it begins the transaction. The model follows the code.
- The inbox promises one committed handling per endpoint and message id. Its key also has the message's
  time, so two messages of one id and different times are both handled:
  `Inbox.OneIdOfTwoTimesRunsTwice`. While the receipt is kept nothing else does this:
  `Inbox.RunsOfOneIdDifferInTime`. The documentation lists a changed time and an expired receipt among
  what it does not guarantee.
- A message whose handling committed can reach the error destination. Four things make it rejected after
  its commit, each alone and under any retry policy (`Rejections.FaultRejects`): a commit that lands
  although it reports an error; a delivery that goes away after the commit; without an outbox, a held
  publish that the broker refuses after the commit; and a message that is published again, whose second
  copy fails at every attempt. Without all four no message is both committed and rejected:
  `Rejections.ApartIffAcksFollow`. A fifth makes it commit after its error copy was accepted: the delivery
  goes away or can't be settled then, comes again and is handled (`Rejections.LostReject`). Without all
  five no message is both committed and at the error destination: `Rejections.ExclusiveIffFaultless`.
- With an inbox and no outbox, a worker that stops after its commit loses its publishes:
  `Inbox.HeldPublishesCanBeLost`. The documentation says so. `Inbox.NoneLostIffOutbox` shows that an
  outbox is exactly what prevents it.
- The fence of the marks holds exactly when no two statements see the same time:
  `FenceLimits.FenceNeedsStrictTimes`. Otherwise a row that failed at the time a stale claim's token
  names, and is set back by hand, matches that token. As long as nobody does that, retry delays keep the
  fence, too: `FenceLimits.UnresetFenceNeedsDelays` says exactly when it holds then.
- A publish is given up by a timer at the end of its lease, and the timer may be late. Until it fires,
  another dispatcher may publish the same row (`FenceLimits.LateTimersOverlap`), but never while both
  leases run: `Fencing.LeaseExclusion`.
- A subscriber of the in-memory queue that settled its message and goes away before it polls again can
  leave another message waiting with everybody asleep: `WakeUps.LeavingLosesAWakeUp`. One that goes away
  with an unsettled message can't, as that message goes back to the queue.
  `WakeUps.StrandsIffHarmed` says in which runs that can't happen: exactly those in which each one that
  goes away between two polls leaves nothing waiting, a permit or another active subscriber behind.
- A create or an expiry of a partition can land although it reports an error. A run then reports it as
  failed, and the contracts of `Maintenance` say what is there and what is gone in either case.
- Intervals tile the calendar only where no bound is clamped to the years 0000 to 9999, and
  `Dates.TilesExactly` says where that is.

## Model

| member | source | states |
|---|---|---|
| Calendar.DaysRoundTrip | crates/core/src/time.rs:17-45 | The arithmetic conversion of any day number gives the date that counting day by day from 1970-01-01 gives, that date exists, and converting back gives the day number |
| Calendar.DateRoundTrip | crates/core/src/time.rs:17-45 | Every date that exists comes back from its day number, so the two conversions are mutual inverses |
| Calendar.NextDayDate | crates/core/src/time.rs:17-55 | The next day number is the next calendar day, as the lengths of the months define it |
| Calendar.SameOrder | crates/core/src/time.rs:37-45 | Dates are in calendar order exactly when their day numbers are in order |
| Dates.YearsInRange | crates/core/src/time.rs:12-14 | The range of day numbers is exactly the years 0000 to 9999 |
| Dates.NewReads | crates/core/src/time.rs:169-177 | A date is made from exactly the days that exist in years 0000 to 9999, and gives its year, month and day back |
| Dates.TilesExactly | crates/core/src/partition.rs:35-52 | The interval of a date holds it, is the same seen from each of its days, and ends where another one starts, if and only if the date is away from the clamped ends; weeks start on ISO 8601 Mondays |
| Dates.BoundsByDate | crates/core/src/partition.rs:35-52 | Away from the clamped ends a day is its own interval, a week is the seven days from a Monday counted in sevens, and a month runs from the first of the date's month to the first of the next one |
| Dates.HoldsItsDay | crates/core/src/partition.rs:35-52 | On every date, clamped or not, the interval starts on or before it and ends after it, but for the last day there is |
| Rfc3339.ParseExact | crates/core/src/time.rs:67-135 | The parser accepts exactly the texts of well-formed fields whose instant is in range, and gives local time minus offset |
| Rfc3339.ParseText | crates/core/src/time.rs:67-135 | The parser that walks the text gives what the grammar's reader gives, for every text |
| Rfc3339.OffsetShifts | crates/core/src/time.rs:116-134 | Whatever comes before it, a text ending in `+hh:mm` reads as the instant that it gives with `Z`, less hh hours and mm minutes, and one ending in `-hh:mm` as much later; it reads exactly when the text with `Z` does and the shifted instant is in years 0000 to 9999 |
| Rfc3339.UtcTextReads | crates/core/src/time.rs:67-92 | A text in UTC without a fraction reads exactly when its digits are a date that exists and a time of day, and as that date and time: which digits are the year, month, day, hour, minute and second |
| Rfc3339.FractionReads | crates/core/src/time.rs:93-112 | A fraction changes nothing but the nanoseconds, which are its first nine digits, those it lacks counting as zeros |
| Rfc3339.ReadFraction | crates/core/src/time.rs:93-112 | The loop over a fraction keeps its first nine digits as nanoseconds and drops the rest |
| Rfc3339.TimeRoundTrip | crates/core/src/time.rs:332-351 | Every timestamp's text reads back as that timestamp |
| Rfc3339.DisplayShape | crates/core/src/time.rs:332-351 | A timestamp's text begins with the text of its date, is in UTC, and has a fraction of at most nine digits, none when there are no nanoseconds and with no zero at its end |
| Rfc3339.DateTextExact | crates/core/src/time.rs:232-263 | The texts that read as a date are exactly the texts dates are written as |
| Rfc3339.DateTextDigits | crates/core/src/time.rs:232-237 | A date's text is ten characters whose digits are the year, the month and the day that its day number is |
| Retry.RetryPolicy.Delay | crates/runtime/src/retry.rs:37-46 | The saturating loop with its early exit gives min(first delay * 2^(n-1), longest delay) over unbounded integers, and doubles only while below the longest delay |
| Retry.RetryPolicy.DelayDoubles | crates/runtime/src/retry.rs:37-46 | The first failure waits the first delay and each later one twice as long as the one before it, up to the longest delay |
| Retry.RetryPolicy.DelayGrows | crates/runtime/src/retry.rs:37-46 | Delays never shrink from one attempt to a later one and never exceed the longest delay |
| Envelopes.ToAttributes | crates/core/src/envelope.rs:335-381 | Setting the attributes in order gives the envelope's attribute map |
| Envelopes.NamedAttributes | crates/core/src/envelope.rs:335-381 | Which value each of the thirteen attribute names has, for every envelope: the field of its name, or none when that has none; every other name is an extension's |
| Envelopes.FromAttributes | crates/core/src/envelope.rs:394-440 | Taking the attributes out one by one gives an envelope or an error exactly as the reading of the whole map says; of several extension names that are not allowed it reports the first in name order |
| Envelopes.ReadsIff | crates/core/src/envelope.rs:394-440 | A map of attributes reads as an envelope if and only if the six required ones are there, each value with a form has it, and every name without a field may be an extension's |
| Envelopes.ErrorsAreReal | crates/core/src/envelope.rs:383-415 | An error is about what the attributes have: a required one that is missing, one whose value has not its form, or a name that no extension may have |
| Envelopes.FirstErrorCounts | crates/core/src/envelope.rs:394-440 | The error reported for an attribute is the first one in the order the fields are taken: every attribute before it reads |
| Envelopes.Extensions.Insert | crates/core/src/envelope.rs:175-201 | A name of one to twenty lower-case letters and digits that is none of the fourteen reserved ones is set, and its old value returned; any other changes nothing and is refused as not such letters, else as too long, else as reserved |
| Envelopes.AttributesRoundTrip | crates/core/src/envelope.rs:335-440 | Reading the attributes of any envelope gives that envelope, and no other result |
| Envelopes.ReadingIsStable | crates/core/src/envelope.rs:335-440 | What is read from any accepted map is unchanged by writing and reading it again |
| Envelopes.CanonicalForm | crates/core/src/envelope.rs:335-440 | The canonical form has the accepted map's attributes and values, but for the text of ids and times, and a tracestate without a traceparent, which goes |
| OutboxRows.RemainingAttributes | crates/postgres/src/outbox.rs:13-31 | Removing the columns' attributes one by one leaves exactly those without a column |
| OutboxRows.ColumnsByName | crates/postgres/src/outbox.rs:147-170 | Each column of an inserted row holds the attribute it is named for |
| OutboxRows.StoredByName | crates/postgres/src/outbox.rs:13-31 | The attributes column of an inserted row has exactly the attributes without a column, as strings |
| OutboxRows.Record | crates/postgres/src/outbox.rs:55-90 | A claimed row reads as its envelope and its two times, or as an error for the first attribute in name order that is no string, for its envelope, or for the first time that does not parse |
| OutboxRows.RowRoundTrip | crates/postgres/src/outbox.rs:25-90 | The row of any envelope reads as that envelope, since no extension has a column's name |
| OutboxRows.ReadRowId | crates/postgres/src/outbox.rs:55-90 | Whatever wrote a row, what it reads as has the row's id |
| BrokerSafety.BrokerStep | crates/runtime/src/dispatch.rs:84-154 | Every step keeps: batches hold what their rows were inserted as, only inserted rows' envelopes are sent and stored, and a dispatched row was accepted |
| BrokerSafety.BrokerIsSafe | crates/postgres/src/outbox.rs:147-299 | That holds in every reachable state |
| BrokerSafety.PublishedAsInserted | crates/postgres/src/outbox.rs:147-258 | An envelope's row reads as that envelope only, keeps its content, and once dispatched the broker has that envelope |
| BrokerSafety.DispatchedStays | crates/postgres/src/outbox.rs:231-299 | No step but expiring removes a row, none changes its content, and a dispatched row stays dispatched |
| Fencing.LeasesAreFenced | crates/postgres/src/outbox.rs:175-299 | In every reachable state each hold either is its row's current claim or ran out before the latest statement, and of two dispatchers' holds on one row at most one outlives it, with another token |
| Fencing.Fence | crates/postgres/src/outbox.rs:231-299 | With strictly increasing statement times, at most one hold matches a pending row: every other hold on it has a smaller token, and the holder has the row's attempts |
| Fencing.SupersededMark | crates/postgres/src/outbox.rs:231-299 | A mark leaves each row as it is that its dispatcher's holds no longer match, whatever it does to the other rows of a mixed batch |
| Fencing.LeaseExclusion | crates/runtime/src/dispatch.rs:118-146 | Of two dispatchers that are publishing the same row at one time, one has outlasted its lease and only waits for its timer, whatever the leases and clock offsets are |
| FenceLimits.FenceNeedsStrictTimes | crates/postgres/src/outbox.rs:175-299 | For every settings, a mark matches a row only with the attempts its claim saw if and only if no two statements see the same time |
| FenceLimits.NoDelayBreaksTheFence | crates/postgres/src/outbox.rs:260-281 | With equal statement times and no retry delay, the due time a retry sets can equal a stale token, without any reset |
| FenceLimits.UnresetFenceNeedsDelays | crates/postgres/src/outbox.rs:231-299 | For every settings, in runs without resets by hand a mark matches a row only with the attempts its claim saw if and only if no two statements see the same time or every retry has a delay |
| FenceLimits.LateTimersOverlap | crates/runtime/src/dispatch.rs:135-146 | For every settings there is a run in which a dispatcher whose lease is over still waits for the broker while another one publishes the same row |
| Attempts.AttemptsCounted | crates/runtime/src/dispatch.rs:84-104 | A readable row's attempts are its failed publishes whose mark landed; it is failed exactly when they reach the policy's attempts, at least one, plus one for each reset by hand |
| Attempts.PendingStep | crates/runtime/src/dispatch.rs:147-154 | Without inserts and resets no step makes a row pending, and the mark of a full batch takes exactly a batch of pending rows away when it lands while every record still matches; the `true` a round returns needs neither |
| Attempts.FullRoundsEnd | crates/runtime/src/dispatch.rs:157-175 | Without inserts and resets, the full rounds of all dispatchers whose marks landed in time take no more rows than were pending; rounds that return true without such a mark are not counted |
| Attempts.RoundInTime | crates/runtime/src/dispatch.rs:147-154 | The mark of a full batch takes all its rows whenever it lands, no statement came later than their lease's end, and none of them expired |
| Rounds.ClaimedAreDue | crates/postgres/src/outbox.rs:175-200 | A claim takes rows that are pending, due and not locked, in id order: the whole batch size with no lower id left, or all there are; it sets their due time to the lease's end and changes nothing else |
| Rounds.InsertedIsDue | migrations/postgresql/20261104000000_create_outbox_and_inbox.sql:5-18 | A new row is due at once: the next claim takes it unless it is locked or the batch is full |
| Rounds.UnreadableFails | crates/postgres/src/outbox.rs:211-224 | The mark of an unreadable row that lands leaves it failed with one more attempt if it still has its claim's lease, and changes nothing else of it and no other row |
| Rounds.PublishedDispatched | crates/postgres/src/outbox.rs:231-258 | The mark of a published batch that lands dispatches exactly the rows of its records that still have their claim's lease |
| Dispatcher.World.Round | crates/runtime/src/dispatch.rs:108-154 | A round's own steps are exactly: the start; the claim of the due rows it found, with the marks of the unreadable ones; for each record in id order a publish that was confirmed, one refused and put back, one given up after its lease as the broker was too slow, or the stop at the bus's request or the lease's end; and the mark of what was confirmed. It ends early only for those reasons or a failed claim, returns true exactly for a full batch, every confirmed envelope is with the broker, and a mark that says it landed leaves none of its records pending under the claim |
| Dispatcher.World.Claim | crates/postgres/src/outbox.rs:175-229 | A claim selects the earliest due unlocked rows, leases them, and returns the readable ones in id order; each unreadable one was marked, which left it failed with one more attempt if it still had the lease. When the claim or a mark reports an error it returns none and takes no other step, so what it took stays leased |
| Dispatcher.World.Publish | crates/runtime/src/dispatch.rs:131-146 | A publish is confirmed only with the envelope at the broker, refused as the broker says, or given up with the rest of the batch when the broker is too slow, only once the lease is over; its own steps are the send and its end, none of which counts an attempt |
| Dispatcher.World.PutBack | crates/runtime/src/dispatch.rs:84-104 | The one own step is the mark; it changes only the refused row, if that still has the claim's token and the mark lands: one more attempt, and failed after the last attempt or due again after the policy's delay |
| Dispatcher.RecordsInOrder | crates/postgres/src/outbox.rs:175-229 | The records of claimed rows are in the rows' id order, each one of a row that reads, and every row that reads has its record |
| Handlers.HandlerContext.Publish | crates/runtime/src/handler.rs:140-152 | A publish is held last, with the handled message as its cause and its correlation id and trace context; one that fails to encode is not held |
| Handlers.HeldIsCarried | crates/runtime/src/handler.rs:143-151 | The publishes a handler holds are the messages that encoded, as many and in their order, each changed only in its correlation and trace, which follow the handled message |
| Inbox.AtomicStep | crates/runtime/src/inbox.rs:153-179 | Every step keeps receipts, committed runs and outbox rows in agreement, and open transactions on distinct receipts |
| Inbox.ReceiptIffOneRun | crates/postgres/src/inbox.rs:112-161 | For every endpoint, id and time whose receipt did not expire, a receipt exists if and only if a handler run with that endpoint, id and time committed, and never two did; with an outbox its rows are the committed runs' publishes, run by run |
| Inbox.SuccessIsCommitted | crates/runtime/src/inbox.rs:153-179 | A delivery succeeds only once a run for its message committed on the endpoint, and with an outbox it holds no publishes |
| Inbox.FailedYetCommitted | crates/core/src/store.rs:186-187 | One delivery of a message can have failed although its handler run committed |
| Inbox.HeldPublishesCanBeLost | crates/runtime/src/inbox.rs:58-69 | Without an outbox, a stop after the commit loses the publishes, and the redelivery succeeds without them |
| Inbox.NoneLostIffOutbox | crates/runtime/src/inbox.rs:58-87 | In every reachable state each message that was handled has its run's publishes still to send or in one piece among the outbox rows, if and only if the bus has an outbox |
| Inbox.RunsOfOneIdDifferInTime | crates/postgres/src/inbox.rs:112-147 | Two runs of one endpoint for one message id differ in the message's time, while the first one's receipt is kept |
| Inbox.OneIdOfTwoTimesRunsTwice | migrations/postgresql/20261104000000_create_outbox_and_inbox.sql:40 | Two messages of one id and two times both run on one endpoint |
| Transactional.World.Run | crates/runtime/src/inbox.rs:153-179 | While other workers run, the pipeline succeeds with a committed run for its message, whose publishes are the handler's messages that encoded, as many and in their order; it returns them only of its own run and only without an outbox, and fails only for a missing handler, a failed call, a held receipt or the handler's own failure |
| Transactional.World.RecordReceipt | crates/postgres/src/inbox.rs:112-147 | A receipt is recorded as new exactly when there is none for the endpoint, the message's id and its time, never while another open transaction holds that key |
| Transactional.World.WriteHeld | crates/runtime/src/inbox.rs:71-87 | With an outbox all publishes become rows of the transaction and none stays held; without one all stay held |
| Transactional.World.CommitAll | crates/postgres/src/inbox.rs:149-161 | Success is reported exactly for a landed commit of a transaction that is not aborted; then, and when a commit lands although it reports an error, the run and its publishes are committed, and an aborted or lost one commits no run of its message |
| EndToEnd.OneRunPerRow | crates/runtime/src/inbox.rs:153-179 | Whatever is republished, redelivered or handled at once, an outbox row causes at most one committed handler run on each endpoint while its receipt is kept, and one exactly when the receipt exists; an unreadable row causes none |
| EndToEnd.HandledAsInserted | crates/runtime/src/dispatch.rs:108-154 | Every committed run for a row's message handled exactly the envelope the row was inserted as |
| EndToEnd.PublishesCommitWithTheirRun | crates/runtime/src/inbox.rs:71-87 | Every inserted row is from another transaction or in exactly one committed run's block, and each run's publishes are all there, in order, and read as published |
| EndToEnd.CauseIsCommitted | crates/runtime/src/handler.rs:140-152 | A run for a message that another run published handled it unchanged, with that run's message as its cause |
| Rejections.ExclusiveIffFaultless | crates/runtime/src/endpoint.rs:353-431 | No reachable system of endpoints with inboxes on the in-memory transport has a message both committed and at the error destination, if and only if no commit lands without saying so, no delivery goes away after its commit, no message is published twice, without an outbox no held publish is refused, and no delivery comes again after its error copy was accepted |
| Rejections.ApartIffAcksFollow | crates/runtime/src/endpoint.rs:330-378 | No reachable system has a message both committed and rejected, if and only if the first four of those faults don't happen, whether or not deliveries come again after their error copies |
| Rejections.FaultlessIsExclusive | crates/runtime/src/inbox.rs:153-179 | Without the first four faults a rejected message has no committed run on its endpoint, and without the fifth neither has any message whose error copy was accepted, in every run of any number of workers, whatever else fails |
| Rejections.FaultRejects | crates/core/src/store.rs:186-187 | With any one of the first four faults, and any retry policy, a run commits a message's handling, has its error copy accepted and rejects it |
| Rejections.LostReject | crates/runtime/src/endpoint.rs:404-431 | With any retry policy, a delivery that goes away after its error copy was accepted comes again, and a run commits its handling |
| Deliveries.SetErrors | crates/runtime/src/endpoint.rs:307-326 | The loop sets the endpoint, the error's type and message and the number of attempts under their four names, never fails, and changes nothing else of the envelope |
| Decimals.DecimalReads | crates/runtime/src/endpoint.rs:313-318 | The number of attempts in the error extension reads back from its text, which has no leading zero |
| Conservation.ConservedStep | crates/runtime/src/in_memory.rs:76-127 | Every step of the transport keeps each copy in one place, its deliveries numbered, and the causes of settled copies: for the acked ones, that the last handling succeeded and held exactly what was sent |
| Conservation.CopiesConserved | crates/runtime/src/in_memory.rs:204-270 | In every run, each copy a publish made is in exactly one of queued, in flight, waiting, acked and rejected, once, with the envelope it was made with, and was delivered as attempts 1, 2, 3 and so on |
| Conservation.SettledWithCause | crates/runtime/src/endpoint.rs:353-431 | An acked copy's last delivery was handled with success, and the broker accepted all publishes which that handling held, in order; a rejected copy has an accepted error copy, the same but for its extensions |
| FirstDeliveries.FirstInFirstOut | crates/runtime/src/in_memory.rs:35-49 | In every run, an endpoint's copies are delivered for the first time in the order they were made, however many subscribers share the queue and whatever is retried, dropped or rejected in between |
| Receiving.World.CopyTo | crates/runtime/src/in_memory.rs:204-222 | The loop over the endpoints gives each endpoint subscribed to the type one new copy, last in its queue as attempt 1, and leaves all else of it and every other endpoint as it was |
| Receiving.World.Publish | crates/runtime/src/in_memory.rs:204-222 | A publish is accepted unless the broker fails, is then recorded last among the published ones, and is copied once to each endpoint subscribed to its type and to no other; a refused one changes nothing |
| Receiving.World.SendHeld | crates/runtime/src/endpoint.rs:330-338 | The held publishes are accepted one after another, in order, up to the first that the broker refuses; the delivery is sent when there is none, and failed otherwise |
| Receiving.World.Process | crates/runtime/src/endpoint.rs:353-431 | A delivery is acked with exactly the publishes that its pipeline returned, all accepted since in order, and with an inbox a committed run; retried with the next number and the policy's delay; or rejected, once the error destination has its envelope with the endpoint, the error and the number of the attempt, only when no retry can help or none is left. What failed is the pipeline or one of those publishes |
| WakeUps.NoLostWakeUp | crates/runtime/src/in_memory.rs:35-49 | In every interleaving of pushes and subscribers, as long as none goes away in a harmful moment, nothing waits while all are parked and no permit is kept |
| WakeUps.LeavingKeepsAwake | crates/runtime/src/in_memory.rs:35-127 | A step keeps somebody awake for the waiting messages if and only if it is not a harmful leave: one between two polls while messages wait, no permit is kept and nobody else is active; a leave with an unsettled message puts it back and notifies |
| WakeUps.StrandsIffHarmed | crates/runtime/src/in_memory.rs:35-127 | A run ever gets to where a message is stranded once the subscribers that found nothing wait, if and only if one of its leaves is harmful |
| WakeUps.LeavingLosesAWakeUp | crates/runtime/src/in_memory.rs:35-49 | A run that ends with a message stranded, after a subscriber settled its own message and left before its next poll: it waits, the one subscriber is parked and no permit is kept |
| Partitions.GapEnd | crates/postgres/src/partitions.rs:210-215 | The gap from a free day ends at the next held day or the interval's end, and all its days are free |
| Partitions.BoundariesTile | crates/postgres/src/partitions.rs:197-223 | Below the clamp, the window's intervals are consecutive intervals of the calendar |
| Partitions.NamesDiffer | crates/postgres/src/partitions.rs:123-128 | Partitions of different first days have different names |
| Partitions.NameText | crates/postgres/src/partitions.rs:123-128 | A partition's name is its table's, `_p`, and the eight digits of its first day |
| Maintenance.World.EnsurePartitions | crates/postgres/src/partitions.rs:189-227 | From sound partitions: old ones stay, each new one is inside one interval of the window, and exactly the window's missing days are newly covered, but for creates that did not land; each of those has its reason, a database error, a taken name or rows in the default partition, and every other create reported as failed landed |
| Maintenance.World.CreatePartition | crates/postgres/src/partitions.rs:123-139 | A create for free days never overlaps another partition, and lands if and only if the database does not fail it, its name is free and the default partition has no rows of its days; one that lands is confirmed unless the database reports an error all the same |
| Maintenance.SecondRunCreatesNothing | crates/postgres/src/partitions.rs:189-227 | After a run all of whose creates landed, whatever they reported, a second one creates nothing and fails at nothing |
| Maintenance.World.Maintain | crates/runtime/src/maintenance.rs:68-116 | After a run, every day of the interval that holds today and of the `ahead` intervals after it, from today on, is covered but for creates that did not land, each with its reason; gone are exactly the partitions whose expiry was confirmed, or landed although it reported an error; of the partitions that end at least the retention's days before today, one is kept only if it had an unsent row when the run began, and any other is expired or its expiry reported an error; the run stops early only for a failed call |
| Maintenance.StillCovered | crates/runtime/src/maintenance.rs:93-114 | Expiring old partitions uncovers no day from today on |
| Retention.SafeStep | crates/runtime/src/maintenance.rs:93-114 | Every step of dispatchers, writers and maintenance keeps partitions disjoint, counted-out partitions all dispatched, and no message lost |
| Retention.OnlySentRowsExpire | crates/postgres/src/partitions.rs:141-153 | What an expiry removes are rows of one partition that the table has, all dispatched, from before the retention, although counting and expiring are separate steps |
| Retention.OnlyUnsentKeep | crates/runtime/src/maintenance.rs:93-114 | In every run an old partition is kept only for a row that was unsent when the lock was taken; one whose rows had all been sent by then still has only sent ones when it is to expire |
| Retention.CountedAsTheyAre | crates/postgres/src/partitions.rs:250-291 | A count finds pending or failed rows if and only if the partition holds an undispatched row at that time |
| Retention.NoMessageIsLost | crates/postgres/src/partitions.rs:250-291 | In every run, a row that was ever inserted is in the table, or the broker accepted its envelope |
| Retention.DayIsDate | crates/core/src/time.rs:296-312 | The day a row's time falls on, by flooring, is the date of its timestamp |

## Left out

- The NATS transport. The broker is an abstract one that may store a publish and still report an error, and deliver what it has any number of times in any order.
- SQL text, sqlx, pools, DDL, quoting, `search_path` and catalogue queries. Each statement is one step on an abstract table, and the maintenance lock has one holder.
- PostgreSQL's microseconds and isolation levels. Statements are atomic, and a receipt held by an open transaction makes others wait.
- The columns `last_error` and `dispatched_at`, and the integer widths of days and attempts. Days are clamped as in the code, and attempts are bounded by the policy.
- JSON and codecs. A handler may fail as undecodable; ids' text and the checks of types, sources and content types are parameters (`Envelopes.Formats`).
- Making ids and reading clocks. Ids are unique and ordered, and a dispatcher's clock runs at the database's rate with any offset.
- Text is a sequence of characters, not of UTF-8 bytes. All texts the parser accepts are ASCII.
- OutboxRows.Record: the outbox's transition system has a row's times as numbers, so there a row is unreadable only for its attributes and not for a time outside the years 0000 to 9999.
- Dispatcher.World.Round: the endless loop around it and its pauses are not a method.
- Attempts.FullRoundsEnd: rounds that return true without a mark that lands in time publish the same rows again and are not bounded, as nothing in the code bounds them.
- WakeUps.NoLostWakeUp: popping waits for ever, so push and pop are steps and not methods, and the queue's content is only counted there; `Conservation` has the content and `FirstDeliveries` its order.
- Transactional.World.RecordReceipt: a wait for another transaction ends with that transaction or with an error, and how long it takes is not modelled.
- Retention.OnlySentRowsExpire: it assumes that no inserting transaction is older than the retention, that the clock that gives today is not ahead of the database's, and that nobody sets a dispatched row back by hand.
- Rejections.ExclusiveIffFaultless: it is about the in-memory transport, where the error destination takes a copy when no publish fails at that moment. A dispatcher that publishes one outbox row twice is a message published twice.
- Maintenance.World.Maintain: tables that were detached or made by hand are only a reason for a create to fail. The inbox's partitions expire without counting, as receipts expire in `Inbox`.
- Starting and stopping the bus, logs, error texts, builders and settings other than those named here.
