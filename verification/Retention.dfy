/** Partitions that are created ahead and expire once they are old, while dispatchers and writers work
on the rows.

Maintenance holds a lock, so one instance at a time changes the partitions. It counts the unsent rows
of every old partition before it expires the first one, and anything may happen in between. No
transaction that inserts rows is older than the retention, and nobody sets a dispatched row back. */
module Retention {
  import opened Dates
  import opened Options
  import opened Outbox
  import opened Partitions
  import BrokerSafety
  import Dispatching
  import FenceLimits
  import OutboxRows
  import Rfc3339

  const NANOS_PER_DAY: int := SECONDS_PER_DAY * Rfc3339.NANOS_PER_SECOND

  // The UTC day of a row's time.
  function Day(nanos: int): int {
    nanos / NANOS_PER_DAY
  }

  lemma DayIsDate(nanos: int)
    requires FIRST_SECOND * Rfc3339.NANOS_PER_SECOND <= nanos < END_SECOND * Rfc3339.NANOS_PER_SECOND
    ensures Day(nanos) == Rfc3339.FromUnixNanos(nanos).Date()
  {
    var seconds := nanos / Rfc3339.NANOS_PER_SECOND;
    var days := seconds / SECONDS_PER_DAY;
    assert Day(nanos) == days by {
      assert 0 <= nanos - seconds * Rfc3339.NANOS_PER_SECOND < Rfc3339.NANOS_PER_SECOND;
      assert 0 <= seconds - days * SECONDS_PER_DAY < SECONDS_PER_DAY;
    }
  }

  predicate In(partition: Partition, key: Key) {
    partition.Holds(Day(key.createdAt))
  }

  function RowsOf(table: Table, partition: Partition): set<Key> {
    set key | key in table && In(partition, key)
  }

  function RowsAt(table: Table, partition: Partition, status: Status): set<Key> {
    set key | key in table && In(partition, key) && table[key].status == status
  }

  // `retention` is how many days rows are kept, if they ever expire.
  datatype Config = Config(bus: Dispatching.Config, table: string, retention: Option<nat>) {
    function OlderThan(today: Date): Date
      requires retention.Some?
    {
      AddDays(today, 0 - retention.value)
    }
  }

  // A partition with its unsent rows, as they were counted.
  datatype Counted = Counted(partition: Partition, pending: nat, failed: nat) {
    predicate Unsent() {
      pending > 0 || failed > 0
    }
  }

  // The partitions of some counts.
  function Names(counts: seq<Counted>): seq<Partition> {
    seq(|counts|, i requires 0 <= i < |counts| => counts[i].partition)
  }

  // What the holder of the lock does: create partitions ahead; count; or expire. `locked` is the table
  // as it was when the lock was taken.
  datatype Work =
    | Unlocked
    | Creating(today: Date, locked: Table)
    | Counting(today: Date, locked: Table, left: seq<Partition>, counted: seq<Counted>)
    | Expiring(today: Date, locked: Table, counts: seq<Counted>)

  datatype System = System(bus: Dispatching.State, partitions: seq<Partition>, work: Work)

  datatype Step =
    | OnBus(bus: Dispatching.Step)
    | Lock(today: Date)
    | Create(from: Date, to: Date)
    | List
    | CountNext
    | StartExpiring
    | Keep
    | Expire(landed: bool)
    | Release

  // A new partition may overlap no other, by days, names or rows that went to the default partition.
  predicate MayCreate(config: Config, system: System, from: Date, to: Date) {
    var created := Partition(NameOf(config.table, from), from, to);
    && from < to
    && (forall partition <- system.partitions :: Apart(created, partition))
    && RowsOf(system.bus.table, created) == {}
  }

  predicate Enabled(config: Config, system: System, step: Step) {
    match step
    case OnBus(step) =>
      && Dispatching.Enabled(config.bus, system.bus, step) && !step.Expire?
      && (step.Insert? && config.retention.Some? ==>
            Day(step.key.createdAt) >= Day(system.bus.now) - config.retention.value)
    // The clock that gives the day isn't ahead of the database's.
    case Lock(today) => system.work.Unlocked? && today <= Day(system.bus.now)
    case Create(from, to) => system.work.Creating? && MayCreate(config, system, from, to)
    case List => system.work.Creating? && config.retention.Some?
    case CountNext => system.work.Counting? && system.work.left != []
    case StartExpiring => system.work.Counting? && system.work.left == []
    case Keep => system.work.Expiring? && system.work.counts != [] && system.work.counts[0].Unsent()
    case Expire(_) =>
      && system.work.Expiring? && system.work.counts != [] && !system.work.counts[0].Unsent()
      && Dispatching.StatementTime(config.bus, system.bus)
    case Release => true
  }

  // The partitions that end no later than a day.
  function Old(partitions: seq<Partition>, olderThan: Date): (listed: seq<Partition>)
    ensures forall partition :: partition in listed <==> partition in partitions && partition.to <= olderThan
  {
    if partitions == [] then []
    else (if partitions[0].to <= olderThan then [partitions[0]] else []) + Old(partitions[1..], olderThan)
  }

  function Without(partitions: seq<Partition>, gone: Partition): (left: seq<Partition>)
    ensures forall partition :: partition in left <==> partition in partitions && partition != gone
  {
    if partitions == [] then []
    else (if partitions[0] == gone then [] else [partitions[0]]) + Without(partitions[1..], gone)
  }

  function CountOf(table: Table, partition: Partition): Counted {
    Counted(partition, |RowsAt(table, partition, Pending)|, |RowsAt(table, partition, Failed)|)
  }

  function Apply(config: Config, system: System, step: Step): System
    requires Enabled(config, system, step)
  {
    match step
    case OnBus(step) => system.(bus := Dispatching.Apply(config.bus, system.bus, step))
    case Lock(today) => system.(work := Creating(today, system.bus.table))
    case Create(from, to) =>
      system.(partitions := system.partitions + [Partition(NameOf(config.table, from), from, to)])
    case List =>
      var Creating(today, locked) := system.work;
      system.(work := Counting(today, locked, Old(system.partitions, config.OlderThan(today)), []))
    case CountNext =>
      var Counting(today, locked, left, counted) := system.work;
      system.(work := Counting(today, locked, left[1..], counted + [CountOf(system.bus.table, left[0])]))
    case StartExpiring => system.(work := Expiring(system.work.today, system.work.locked, system.work.counted))
    case Keep => system.(work := Expiring(system.work.today, system.work.locked, system.work.counts[1..]))
    case Expire(landed) =>
      var Expiring(today, locked, counts) := system.work;
      var next := system.(work := Expiring(today, locked, counts[1..]));
      if landed then
        next.(bus := Dispatching.Apply(
                       config.bus, system.bus, Dispatching.Expire(RowsOf(system.bus.table, counts[0].partition))),
              partitions := Without(system.partitions, counts[0].partition))
      else next
    case Release => system.(work := Unlocked)
  }

  ghost predicate Initial(system: System) {
    Dispatching.Initial(system.bus) && Sound(system.partitions) && system.work == Unlocked
  }

  ghost predicate Run(config: Config, first: System, steps: seq<Step>, last: System)
    decreases |steps|
  {
    if steps == [] then first == last
    else Enabled(config, first, steps[0]) && Run(config, Apply(config, first, steps[0]), steps[1..], last)
  }

  ghost predicate Reachable(config: Config, system: System) {
    exists first: System, steps: seq<Step> :: Initial(first) && Run(config, first, steps, system)
  }

  // The partition is older than the retention.
  predicate Aged(config: Config, today: Date, partition: Partition) {
    config.retention.Some? && partition.from < partition.to <= today - config.retention.value
  }

  // A listed partition is one of the table's, and older than the retention.
  ghost predicate Listed(config: Config, system: System, partition: Partition) {
    !system.work.Unlocked? && partition in system.partitions && Aged(config, system.work.today, partition)
  }

  ghost predicate AllSent(table: Table, partition: Partition) {
    forall key <- table :: In(partition, key) ==> table[key].status == Dispatched
  }

  // Old partitions with nothing left to send have nothing to send later either.
  ghost predicate SentStay(config: Config, today: Date, before: Table, after: Table) {
    forall partition: Partition | Aged(config, today, partition) && AllSent(before, partition) ::
      AllSent(after, partition)
  }

  ghost predicate NoneTwice(partitions: seq<Partition>) {
    forall i, j | 0 <= i < j < |partitions| :: partitions[i] != partitions[j]
  }

  // A count without unsent rows still holds; one with unsent rows had them when the lock was taken.
  ghost predicate CountRight(config: Config, system: System, counted: Counted) {
    && Listed(config, system, counted.partition)
    && (if counted.Unsent() then !AllSent(system.work.locked, counted.partition)
        else AllSent(system.bus.table, counted.partition))
  }

  ghost predicate CountsRight(config: Config, system: System, counts: seq<Counted>) {
    forall counted <- counts :: CountRight(config, system, counted)
  }

  ghost predicate WorkRight(config: Config, system: System) {
    && (!system.work.Unlocked? ==>
          && system.work.today <= Day(system.bus.now)
          && SentStay(config, system.work.today, system.work.locked, system.bus.table))
    && match system.work
       case Counting(_, _, left, counted) =>
         && (forall partition <- left :: Listed(config, system, partition)) && CountsRight(config, system, counted)
         && NoneTwice(Names(counted) + left)
       case Expiring(_, _, counts) => CountsRight(config, system, counts) && NoneTwice(Names(counts))
       case _ => true
  }

  // A row that was ever inserted is in the table, unless the broker accepted its envelope.
  ghost predicate NothingLost(config: Config, bus: Dispatching.State) {
    forall key <- bus.history :: key in bus.table || BrokerSafety.Accepted(config.bus, bus, key)
  }

  ghost predicate Safe(config: Config, system: System) {
    && Dispatching.Reachable(config.bus, system.bus)
    && Sound(system.partitions)
    && WorkRight(config, system)
    && NothingLost(config, system.bus)
  }

  // No row that is written now lands in an old partition.
  lemma TooNewForOld(config: Config, today: Date, now: int, partition: Partition, key: Key)
    requires Aged(config, today, partition) && today <= Day(now)
    requires Day(key.createdAt) >= Day(now) - config.retention.value
    ensures !In(partition, key)
  {
    hide Day;
  }

  // What is sent stays sent: dispatched rows stay dispatched, and rows only come in partitions of
  // the last days.
  lemma AllSentStays(config: Config, system: System, step: Dispatching.Step, today: Date)
    requires Enabled(config, system, OnBus(step)) && today <= Day(system.bus.now)
    ensures SentStay(config, today, system.bus.table, Dispatching.Apply(config.bus, system.bus, step).table)
  {
    hide Dispatching.Enabled, Dispatching.Apply, Day;
    var next := Dispatching.Apply(config.bus, system.bus, step).table;
    forall partition: Partition, key <- next |
      Aged(config, today, partition) && AllSent(system.bus.table, partition) && In(partition, key)
      ensures next[key].status == Dispatched
    {
      if key in system.bus.table {
        BrokerSafety.DispatchedStays(config.bus, system.bus, step, key);
      } else {
        BrokerSafety.OnlyInsertsAdd(config.bus, system.bus, step, key);
        TooNewForOld(config, today, system.bus.now, partition, key);
      }
    }
  }

  lemma SentStayOn(config: Config, today: Date, first: Table, second: Table, third: Table)
    requires SentStay(config, today, first, second) && SentStay(config, today, second, third)
    ensures SentStay(config, today, first, third)
  {
    hide AllSent;
  }

  // A partition counts without pending and failed rows exactly when it holds only dispatched ones.
  lemma CountsSayAllSent(table: Table, partition: Partition)
    ensures CountOf(table, partition).partition == partition
    ensures !CountOf(table, partition).Unsent() <==> AllSent(table, partition)
  {
    var pending, failed := RowsAt(table, partition, Pending), RowsAt(table, partition, Failed);
    if AllSent(table, partition) {
      assert pending == {} && failed == {};
    } else {
      var key :| key in table && In(partition, key) && table[key].status != Dispatched;
      assert key in pending + failed;
    }
  }

  lemma TimeGoesOn(config: Config, bus: Dispatching.State, step: Dispatching.Step)
    requires Dispatching.Enabled(config.bus, bus, step)
    ensures var next := Dispatching.Apply(config.bus, bus, step);
            bus.now <= next.now && Day(bus.now) <= Day(next.now)
  {
  }

  // Where partitions and dates stay, counts stay right while sent rows do.
  lemma CountsStay(config: Config, before: System, after: System, counts: seq<Counted>)
    requires CountsRight(config, before, counts) && !before.work.Unlocked? && !after.work.Unlocked?
    requires after.work.today == before.work.today && after.work.locked == before.work.locked
    requires forall counted <- counts :: counted.partition in after.partitions
    requires SentStay(config, before.work.today, before.bus.table, after.bus.table)
    ensures CountsRight(config, after, counts)
  {
    hide AllSent;
    forall counted <- counts
      ensures CountRight(config, after, counted)
    {
      assert CountRight(config, before, counted);
    }
  }

  lemma BusWork(config: Config, system: System, step: Dispatching.Step)
    requires Safe(config, system) && Enabled(config, system, OnBus(step))
    ensures WorkRight(config, Apply(config, system, OnBus(step)))
  {
    hide Dispatching.Reachable, NothingLost, Sound, Dispatching.Enabled, Dispatching.Apply, Day, AllSent;
    if !system.work.Unlocked? {
      var next := Apply(config, system, OnBus(step));
      TimeGoesOn(config, system.bus, step);
      AllSentStays(config, system, step, system.work.today);
      hide SentStay;
      SentStayOn(config, system.work.today, system.work.locked, system.bus.table, next.bus.table);
      var counts := if system.work.Counting? then system.work.counted
                    else if system.work.Expiring? then system.work.counts
                    else [];
      CountsStay(config, system, next, counts);
    }
  }

  lemma LockWork(config: Config, system: System, today: Date)
    requires Enabled(config, system, Lock(today))
    ensures WorkRight(config, Apply(config, system, Lock(today)))
  {
  }

  lemma {:induction false} OldOnce(partitions: seq<Partition>, olderThan: Date)
    requires Sound(partitions)
    ensures NoneTwice(Old(partitions, olderThan))
  {
    if partitions != [] {
      OldOnce(partitions[1..], olderThan);
      forall other <- Old(partitions[1..], olderThan)
        ensures other != partitions[0]
      {
        var i :| 0 <= i < |partitions[1..]| && partitions[1..][i] == other;
        assert Apart(partitions[0], partitions[i + 1]);
      }
    }
  }

  lemma ListWork(config: Config, system: System)
    requires Safe(config, system) && Enabled(config, system, List)
    ensures WorkRight(config, Apply(config, system, List))
  {
    hide Dispatching.Reachable, NothingLost, Day, SentStay;
    var left := Old(system.partitions, config.OlderThan(system.work.today));
    OldOnce(system.partitions, config.OlderThan(system.work.today));
    assert Names([]) + left == left;
  }

  lemma CountWork(config: Config, system: System)
    requires Safe(config, system) && Enabled(config, system, CountNext)
    ensures WorkRight(config, Apply(config, system, CountNext))
  {
    hide Dispatching.Reachable, NothingLost, Sound, Day, AllSent, CountOf;
    var Counting(_, locked, left, counted) := system.work;
    var count := CountOf(system.bus.table, left[0]);
    CountsSayAllSent(system.bus.table, left[0]);
    assert Listed(config, system, left[0]);
    var next := Apply(config, system, CountNext);
    assert Names(counted + [count]) + left[1..] == Names(counted) + left;
    hide SentStay;
    forall partition <- next.work.left
      ensures Listed(config, next, partition)
    {
      assert partition in left && Listed(config, system, partition);
    }
    forall each <- next.work.counted
      ensures CountRight(config, next, each)
    {
      assert each in counted ==> CountRight(config, system, each);
      assert each in counted || each == count;
    }
  }

  // Expiring removes exactly the partition's rows.
  lemma ExpireRows(config: Config, system: System, landed: bool, key: Key)
    requires Enabled(config, system, Expire(landed))
    ensures var next := Apply(config, system, Expire(landed)).bus;
            && (key in next.table <==> key in system.bus.table && !(landed && In(system.work.counts[0].partition, key)))
            && (key in next.table ==> next.table[key] == system.bus.table[key])
            && next.history == system.bus.history && next.log == system.bus.log
  {
  }

  lemma ExpireTime(config: Config, system: System, landed: bool)
    requires Enabled(config, system, Expire(landed))
    ensures Apply(config, system, Expire(landed)).bus.now == system.bus.now
  {
  }

  // An expiry leaves no other partition anything to send.
  lemma ExpireSent(config: Config, system: System, landed: bool, today: Date)
    requires Enabled(config, system, Expire(landed))
    ensures SentStay(config, today, system.bus.table, Apply(config, system, Expire(landed)).bus.table)
  {
    hide Day, In, Dispatching.Apply, Dispatching.Enabled;
    var next := Apply(config, system, Expire(landed)).bus.table;
    forall key: Key
      ensures key in next ==> key in system.bus.table && next[key] == system.bus.table[key]
    {
      ExpireRows(config, system, landed, key);
    }
    hide Apply, Enabled;
  }

  lemma LeaveFirst(config: Config, system: System, next: System)
    requires WorkRight(config, system) && system.work.Expiring? && system.work.counts != []
    requires next.work == Expiring(system.work.today, system.work.locked, system.work.counts[1..])
    requires next.partitions == system.partitions
             || next.partitions == Without(system.partitions, system.work.counts[0].partition)
    requires next.bus.now == system.bus.now && SentStay(config, system.work.today, system.bus.table, next.bus.table)
    ensures WorkRight(config, next)
  {
    hide Day, AllSent;
    var counts := system.work.counts;
    SentStayOn(config, system.work.today, system.work.locked, system.bus.table, next.bus.table);
    hide SentStay;
    assert Names(counts)[1..] == Names(counts[1..]);
    forall counted <- counts[1..]
      ensures counted in counts && counted.partition in next.partitions
    {
      var i :| 0 <= i < |counts[1..]| && counts[1..][i] == counted;
      assert counts[i + 1] == counted && Names(counts)[i + 1] != Names(counts)[0];
      assert CountRight(config, system, counted);
    }
    CountsStay(config, system, next, counts[1..]);
  }

  lemma WorkStep(config: Config, system: System, step: Step)
    requires Safe(config, system) && Enabled(config, system, step)
    ensures WorkRight(config, Apply(config, system, step))
  {
    match step
    case OnBus(step) => BusWork(config, system, step);
    case Lock(today) => LockWork(config, system, today);
    case List => ListWork(config, system);
    case CountNext => CountWork(config, system);
    case Keep =>
      hide Dispatching.Reachable, NothingLost, Sound, Day, WorkRight, NoneTwice;
      LeaveFirst(config, system, Apply(config, system, Keep));
    case Expire(landed) =>
      hide Dispatching.Reachable, NothingLost, Sound, Day, WorkRight, Dispatching.Apply, Dispatching.Enabled, SentStay;
      ExpireSent(config, system, landed, system.work.today);
      ExpireTime(config, system, landed);
      LeaveFirst(config, system, Apply(config, system, Expire(landed)));
    case StartExpiring =>
      hide Dispatching.Reachable, NothingLost, Sound, Day, CountsRight, SentStay;
      assert Names(system.work.counted) + system.work.left == Names(system.work.counted);
      CountsStay(config, system, Apply(config, system, step), system.work.counted);
    case _ =>
      hide Dispatching.Reachable, NothingLost, Sound, Day, AllSent, Dispatching.Apply, Dispatching.Enabled, SentStay;
  }

  // The partitions left after one is gone are still sound.
  lemma {:induction false} WithoutIsSound(partitions: seq<Partition>, gone: Partition)
    requires Sound(partitions)
    ensures Sound(Without(partitions, gone))
  {
    hide Apart;
    if partitions != [] {
      WithoutIsSound(partitions[1..], gone);
      var rest := Without(partitions[1..], gone);
      forall partition <- rest
        ensures Apart(partitions[0], partition)
      {
        var i :| 0 <= i < |partitions[1..]| && partitions[1..][i] == partition;
        assert partitions[i + 1] == partition;
      }
    }
  }

  lemma SoundStep(config: Config, system: System, step: Step)
    requires Safe(config, system) && Enabled(config, system, step)
    ensures Sound(Apply(config, system, step).partitions)
  {
    hide Dispatching.Reachable, NothingLost, WorkRight, Day, Dispatching.Apply, Dispatching.Enabled, NameOf;
    if step.Expire? {
      WithoutIsSound(system.partitions, system.work.counts[0].partition);
    } else if step.Create? {
      var created := Partition(NameOf(config.table, step.from), step.from, step.to);
      forall partition <- system.partitions
        ensures Apart(partition, created)
      {
        assert Apart(created, partition);
      }
    }
  }

  // No step loses a row that wasn't accepted: an expired partition holds only dispatched rows.
  lemma LostStep(config: Config, system: System, step: Step)
    requires config.bus.Valid() && Safe(config, system) && Enabled(config, system, step)
    ensures NothingLost(config, Apply(config, system, step).bus)
  {
    BrokerSafety.BrokerIsSafe(config.bus, system.bus);
    match step
    case OnBus(step) => BusLosesNothing(config, system, step);
    case Expire(landed) => ExpireLosesNothing(config, system, landed);
    case _ => hide Dispatching.Apply, Dispatching.Enabled, Dispatching.Reachable, Sound, WorkRight;
  }

  lemma BusLosesNothing(config: Config, system: System, step: Dispatching.Step)
    requires NothingLost(config, system.bus) && Enabled(config, system, OnBus(step))
    ensures NothingLost(config, Dispatching.Apply(config.bus, system.bus, step))
  {
    var next := Dispatching.Apply(config.bus, system.bus, step);
    GrowsOnly(config, system.bus, step);
    hide Dispatching.Enabled, Dispatching.Apply, OutboxRows.ReadRow, Day;
    forall key <- next.history
      ensures key in next.table || BrokerSafety.Accepted(config.bus, next, key)
    {
      if key in system.bus.table {
        BrokerSafety.DispatchedStays(config.bus, system.bus, step, key);
      } else if key in system.bus.history {
        assert BrokerSafety.Accepted(config.bus, system.bus, key);
        StillAccepted(config, system.bus, next, key);
      }
    }
  }

  lemma StillAccepted(config: Config, bus: Dispatching.State, next: Dispatching.State, key: Key)
    requires key in bus.history && key in next.history && next.history[key] == bus.history[key]
    requires forall envelope <- bus.log :: envelope in next.log
    requires BrokerSafety.Accepted(config.bus, bus, key)
    ensures BrokerSafety.Accepted(config.bus, next, key)
  {
  }

  lemma GrowsOnly(config: Config, bus: Dispatching.State, step: Dispatching.Step)
    requires Dispatching.Enabled(config.bus, bus, step)
    ensures var next := Dispatching.Apply(config.bus, bus, step);
            && (forall envelope <- bus.log :: envelope in next.log)
            && (forall key <- next.history :: (key in bus.history && next.history[key] == bus.history[key])
                                              || (step.Insert? && step.key == key && key in next.table))
  {
  }

  lemma ExpireLosesNothing(config: Config, system: System, landed: bool)
    requires Safe(config, system) && BrokerSafety.BrokerSafe(config.bus, system.bus)
    requires Enabled(config, system, Expire(landed))
    ensures NothingLost(config, Apply(config, system, Expire(landed)).bus)
  {
    var next := Apply(config, system, Expire(landed)).bus;
    forall key <- next.history
      ensures key in next.table || BrokerSafety.Accepted(config.bus, next, key)
    {
      ExpireRows(config, system, landed, key);
      if key !in next.table {
        if key in system.bus.table {
          ExpiredRowIsSent(config, system, key);
          SentIsAccepted(config, system, key);
        }
        StillAccepted(config, system.bus, next, key);
      }
    }
  }

  // A row that a partition about to expire holds is dispatched.
  lemma ExpiredRowIsSent(config: Config, system: System, key: Key)
    requires WorkRight(config, system) && system.work.Expiring? && system.work.counts != []
    requires !system.work.counts[0].Unsent()
    requires key in system.bus.table && In(system.work.counts[0].partition, key)
    ensures system.bus.table[key].status == Dispatched
    ensures system.work.counts[0].partition in system.partitions
    ensures config.retention.Some? && Day(key.createdAt) < Day(system.bus.now) - config.retention.value
  {
    var counted := system.work.counts[0];
    assert counted in system.work.counts;
    assert CountsRight(config, system, system.work.counts);
    hide WorkRight, CountsRight, Day;
    assert AllSent(system.bus.table, counted.partition);
    assert Listed(config, system, counted.partition);
  }

  lemma SentIsAccepted(config: Config, system: System, key: Key)
    requires BrokerSafety.BrokerSafe(config.bus, system.bus) && key in system.bus.table
    ensures key in system.bus.history
    ensures system.bus.table[key].status == Dispatched ==> BrokerSafety.Accepted(config.bus, system.bus, key)
  {
    hide BrokerSafety.Accepted, BrokerSafety.BatchReads, BrokerSafety.Written;
  }

  lemma ReachableStep(config: Config, system: System, step: Step)
    requires Dispatching.Reachable(config.bus, system.bus) && Enabled(config, system, step)
    ensures Dispatching.Reachable(config.bus, Apply(config, system, step).bus)
  {
    hide Dispatching.Reachable, Dispatching.Apply;
    if step.OnBus? {
      FenceLimits.Reach(config.bus, system.bus, step.bus);
    } else if step.Expire? && step.landed {
      FenceLimits.Reach(config.bus, system.bus,
                        Dispatching.Expire(RowsOf(system.bus.table, system.work.counts[0].partition)));
    }
  }

  lemma SafeStep(config: Config, system: System, step: Step)
    requires config.bus.Valid() && Safe(config, system) && Enabled(config, system, step)
    ensures Safe(config, Apply(config, system, step))
  {
    hide Apply, Enabled, NothingLost, Sound, WorkRight, Dispatching.Reachable;
    ReachableStep(config, system, step);
    SoundStep(config, system, step);
    WorkStep(config, system, step);
    LostStep(config, system, step);
  }

  lemma {:induction false} SafeRun(config: Config, first: System, steps: seq<Step>, last: System)
    requires config.bus.Valid() && Safe(config, first) && Run(config, first, steps, last)
    ensures Safe(config, last)
    decreases |steps|
  {
    hide Safe, Apply, Enabled;
    if steps != [] {
      SafeStep(config, first, steps[0]);
      SafeRun(config, Apply(config, first, steps[0]), steps[1..], last);
    }
  }

  lemma RetentionIsSafe(config: Config, system: System)
    requires config.bus.Valid() && Reachable(config, system)
    ensures Safe(config, system)
  {
    var first: System, steps: seq<Step> :| Initial(first) && Run(config, first, steps, system);
    assert Dispatching.Run(config.bus, first.bus, [], first.bus);
    SafeRun(config, first, steps, system);
  }

  // Whether the next expiry would remove the row.
  ghost predicate Expires(config: Config, system: System, key: Key) {
    && Enabled(config, system, Expire(true))
    && key in system.bus.table && key !in Apply(config, system, Expire(true)).bus.table
  }

  // No run of dispatchers, writers and maintenance expires an undispatched row: what a landed expiry
  // removes are the rows of one listed partition, all dispatched, from before the retention.
  lemma OnlySentRowsExpire(config: Config, system: System, key: Key)
    requires config.bus.Valid() && Reachable(config, system) && Expires(config, system, key)
    ensures system.bus.table[key].status == Dispatched
    ensures In(system.work.counts[0].partition, key) && system.work.counts[0].partition in system.partitions
    ensures config.retention.Some? && Day(key.createdAt) < Day(system.bus.now) - config.retention.value
  {
    RetentionIsSafe(config, system);
    ExpireRows(config, system, true, key);
    hide Apply, In, Reachable, Day, WorkRight, NothingLost, Sound, Dispatching.Reachable;
    ExpiredRowIsSent(config, system, key);
  }

  // An old partition is kept only for a row that was unsent when the lock was taken, and when it was
  // counted; one whose rows had all been sent by then is to expire, with all of them still sent.
  lemma OnlyUnsentKeep(config: Config, system: System)
    requires config.bus.Valid() && Reachable(config, system) && system.work.Expiring? && system.work.counts != []
    ensures var counted, locked := system.work.counts[0], system.work.locked;
            && (Enabled(config, system, Keep) ==> !AllSent(locked, counted.partition))
            && (AllSent(locked, counted.partition) ==>
                  !counted.Unsent() && AllSent(system.bus.table, counted.partition))
  {
    RetentionIsSafe(config, system);
    assert CountRight(config, system, system.work.counts[0]);
    hide AllSent;
  }

  // A count is of the rows there are when it is taken.
  lemma CountedAsTheyAre(config: Config, system: System)
    requires Enabled(config, system, CountNext)
    ensures var next, counted := Apply(config, system, CountNext), CountOf(system.bus.table, system.work.left[0]);
            && next.work.counted == system.work.counted + [counted] && counted.partition == system.work.left[0]
            && (counted.Unsent() <==> exists key <- system.bus.table ::
                  In(counted.partition, key) && system.bus.table[key].status != Dispatched)
  {
    CountsSayAllSent(system.bus.table, system.work.left[0]);
    hide CountOf, Day;
  }

  // Every row that was ever inserted is still in the table, or the broker accepted its envelope.
  lemma NoMessageIsLost(config: Config, system: System, key: Key)
    requires config.bus.Valid() && Reachable(config, system) && key in system.bus.history
    ensures key in system.bus.table || BrokerSafety.Accepted(config.bus, system.bus, key)
  {
    RetentionIsSafe(config, system);
  }
}
