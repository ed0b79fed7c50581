/** One maintenance run, step by step, while dispatchers and writers work on the rows. */
module Maintenance {
  import opened Dates
  import opened Options
  import opened Outbox
  import opened Partitions
  import opened Retention
  import BrokerSafety
  import Dispatching
  import Fencing
  import Retry

  const COUNT_MAX: nat := 0xFFFF_FFFF

  // The days of a create that failed.
  datatype Gap = Gap(from: Date, to: Date)

  predicate InGap(gaps: seq<Gap>, day: int) {
    exists gap <- gaps :: gap.from <= day < gap.to
  }

  // What a run did: nothing, as it has no lock; it stopped at an error; or it went through. `failed`
  // are the creates that failed, or none are known when the partitions could not be listed. Old
  // partitions expired, were kept for their unsent rows, or could not be expired.
  datatype Report =
    | Elsewhere
    | Stopped(failed: Option<seq<Gap>>)
    | Done(failed: Option<seq<Gap>>, expired: seq<Counted>, kept: seq<Counted>, refused: seq<Counted>)

  // Which of a run's statements the database fails, beyond what the table itself makes fail: taking
  // the lock, listing the partitions, a create, counting the default partition's rows, listing the
  // old partitions, a count and an expiry. A create and an expiry may land although they report an
  // error.
  datatype Faults = Faults(
    lock: bool,
    listing: bool,
    create: (Date, Date) -> Reply,
    defaultRows: bool,
    expirable: bool,
    count: Partition -> bool,
    expire: Partition -> Reply)

  // Why the create for a gap didn't land: the database failed it, the name is taken, or the default
  // partition holds rows of those days.
  ghost predicate Excused(config: Config, faults: Faults, partitions: seq<Partition>, table: Table, gap: Gap) {
    var partition := Partition(NameOf(config.table, gap.from), gap.from, gap.to);
    faults.create(gap.from, gap.to) == Lost || NameTaken(partitions, partition.name) || RowsOf(table, partition) != {}
  }

  ghost predicate AllExcused(config: Config, faults: Faults, partitions: seq<Partition>, table: Table, gaps: seq<Gap>) {
    forall gap <- gaps :: Excused(config, faults, partitions, table, gap)
  }

  // A create that was reported as failed either is missing, or landed.
  ghost predicate Reported(
    config: Config, faults: Faults, partitions: seq<Partition>, failed: seq<Gap>, missing: seq<Gap>)
  {
    forall gap <- failed ::
      || gap in missing
      || (faults.create(gap.from, gap.to) == LandedUnsaid
          && Partition(NameOf(config.table, gap.from), gap.from, gap.to) in partitions)
  }

  // The partitions a run knows of are there; those it doesn't know of are for days that it is past.
  ghost predicate Seen(known: seq<Partition>, partitions: seq<Partition>, upTo: int) {
    && (forall partition <- known :: partition in partitions)
    && (forall partition <- partitions :: partition in known || partition.to <= upTo)
  }

  // The rows of some days stay.
  ghost predicate RowsStay(before: Table, after: Table, days: int -> bool) {
    forall key <- before :: days(Retention.Day(key.createdAt)) ==> key in after
  }

  // Where partitions only come and the gaps' rows stay, the reasons do.
  lemma StillExcused(
    config: Config, faults: Faults, partitions: seq<Partition>, more: seq<Partition>, before: Table, after: Table,
    gaps: seq<Gap>)
    requires AllExcused(config, faults, partitions, before, gaps) && partitions <= more
    requires RowsStay(before, after, (day: int) => InGap(gaps, day))
    ensures AllExcused(config, faults, more, after, gaps)
  {
    hide NameOf, Retention.Day;
    forall gap <- gaps
      ensures Excused(config, faults, more, after, gap)
    {
      var partition := Partition(NameOf(config.table, gap.from), gap.from, gap.to);
      forall key <- RowsOf(before, partition)
        ensures key in RowsOf(after, partition)
      {
        assert InGap(gaps, Retention.Day(key.createdAt));
      }
      assert forall other <- partitions :: other in more;
    }
  }

  lemma NoGaps(config: Config, faults: Faults, partitions: seq<Partition>, table: Table, upTo: int)
    ensures AllExcused(config, faults, partitions, table, []) && Reported(config, faults, partitions, [], [])
    ensures Seen(partitions, partitions, upTo)
  {
  }

  lemma StillReported(
    config: Config, faults: Faults, partitions: seq<Partition>, more: seq<Partition>, failed: seq<Gap>,
    missing: seq<Gap>)
    requires Reported(config, faults, partitions, failed, missing) && partitions <= more
    ensures Reported(config, faults, more, failed, missing)
  {
    hide NameOf;
    assert forall partition <- partitions :: partition in more;
  }

  lemma MoreReported(
    config: Config, faults: Faults, partitions: seq<Partition>, failed: seq<Gap>, missing: seq<Gap>, gap: Gap,
    more: seq<Gap>)
    requires Reported(config, faults, partitions, failed, missing) && missing <= more
    requires || gap in more
             || (faults.create(gap.from, gap.to) == LandedUnsaid
                 && Partition(NameOf(config.table, gap.from), gap.from, gap.to) in partitions)
    ensures Reported(config, faults, partitions, failed + [gap], more)
  {
    hide NameOf;
    assert forall other <- missing :: other in more;
  }

  lemma SeenLater(known: seq<Partition>, partitions: seq<Partition>, upTo: int, later: int)
    requires Seen(known, partitions, upTo) && upTo <= later
    ensures Seen(known, partitions, later)
  {
  }

  // A new partition is seen, or is past.
  lemma KnownMore(known: seq<Partition>, partitions: seq<Partition>, created: Partition, upTo: int, told: bool)
    requires Seen(known, partitions, upTo) && upTo <= created.to
    ensures Seen(if told then known + [created] else known, partitions + [created], created.to)
  {
  }

  lemma KnownAreSound(known: seq<Partition>, partitions: seq<Partition>, upTo: int)
    requires Seen(known, partitions, upTo) && Sound(partitions)
    ensures forall partition <- known :: partition.from < partition.to
  {
  }

  lemma KnownHolds(known: seq<Partition>, partitions: seq<Partition>, holder: Partition, day: int, later: int)
    requires Seen(known, partitions, day) && holder in known && holder.Holds(day) && day <= later <= holder.to
    ensures Seen(known, partitions, later)
    ensures forall other: int | day <= other < later :: Covered(partitions, other)
  {
    forall other: int | day <= other < later
      ensures Covered(partitions, other)
    {
      assert holder in partitions && holder.Holds(other);
    }
  }

  // What is free as far as the run knows is free.
  lemma KnownGap(known: seq<Partition>, partitions: seq<Partition>, day: int, end: int)
    requires Seen(known, partitions, day)
    requires forall other: int | day <= other < end :: !Covered(known, other)
    ensures forall other: int | day <= other < end :: !Covered(partitions, other)
  {
    forall other: int, partition <- partitions | day <= other < end
      ensures !partition.Holds(other)
    {
      assert !Covered(known, other);
    }
  }

  lemma OneMoreExcused(
    config: Config, faults: Faults, partitions: seq<Partition>, table: Table, gaps: seq<Gap>, gap: Gap)
    requires AllExcused(config, faults, partitions, table, gaps) && Excused(config, faults, partitions, table, gap)
    ensures AllExcused(config, faults, partitions, table, gaps + [gap])
  {
    hide Excused;
  }

  // Why counting the old partitions' rows failed.
  ghost predicate CountFails(config: Config, faults: Faults, today: Date, partitions: seq<Partition>)
    requires config.retention.Some?
  {
    faults.expirable || exists partition <- partitions ::
                          partition.to <= today - config.retention.value && faults.count(partition)
  }

  // What becomes of an old partition: kept for a row that was unsent in `table`, and otherwise expired
  // unless the database fails that.
  ghost predicate Judged(
    faults: Faults, table: Table, expired: seq<Counted>, kept: seq<Counted>, refused: seq<Counted>)
  {
    && (forall counted <- expired :: !counted.Unsent() && faults.expire(counted.partition) == Replied)
    && (forall counted <- refused :: !counted.Unsent() && faults.expire(counted.partition) != Replied)
    && (forall counted <- kept :: counted.Unsent() && !AllSent(table, counted.partition))
  }

  function SaturatingAdd(count: nat, more: nat): nat {
    if count + more > COUNT_MAX then COUNT_MAX else count + more
  }

  predicate AnyOf(counts: seq<Counted>, partition: Partition) {
    exists counted <- counts :: counted.partition == partition
  }

  // The partition is gone: its expiry was confirmed, or landed although it reported an error.
  predicate Gone(faults: Faults, expired: seq<Counted>, refused: seq<Counted>, partition: Partition) {
    AnyOf(expired, partition) || (AnyOf(refused, partition) && faults.expire(partition) == LandedUnsaid)
  }

  ghost predicate InOneInterval(interval: Interval, from: Date, count: nat, created: Partition) {
    && created.from < created.to
    && exists k: nat ::
         k < count && Boundary(interval, from, k) <= created.from && created.to <= Boundary(interval, from, k + 1)
  }

  // Partitions up to a day, in the window's first `count` intervals: what was covered stays so, and
  // every other day is newly covered, but for those of the failed creates that didn't land. Each new
  // partition is inside one interval. Where no day was missing, nothing is created.
  ghost predicate Ensured(
    interval: Interval, from: Date, count: nat, upTo: int, before: seq<Partition>, after: seq<Partition>,
    failed: seq<Gap>, missing: seq<Gap>)
  {
    var first := Boundary(interval, from, 0);
    && before <= after
    && (forall created <- after[|before|..] :: InOneInterval(interval, from, count, created))
    && (forall day: int ::
          Covered(after, day) <==> Covered(before, day) || (first <= day < upTo && !InGap(missing, day)))
    && (forall gap <- missing :: gap in failed)
    && (forall day: int :: InGap(missing, day) ==> InGap(failed, day))
    && (forall day: int :: InGap(failed, day) ==> first <= day < upTo && !Covered(before, day))
    && (after != before || failed != [] ==> exists day: int :: first <= day < upTo && !Covered(before, day))
  }

  lemma MoreCovered(partitions: seq<Partition>, created: Partition, day: int)
    ensures Covered(partitions + [created], day) <==> Covered(partitions, day) || created.Holds(day)
  {
    assert forall partition :: partition in partitions + [created] <==> partition in partitions || partition == created;
  }

  lemma MoreGaps(gaps: seq<Gap>, gap: Gap, day: int)
    ensures InGap(gaps + [gap], day) <==> InGap(gaps, day) || gap.from <= day < gap.to
  {
    assert forall other :: other in gaps + [gap] <==> other in gaps || other == gap;
  }

  lemma Created(
    interval: Interval, from: Date, k: nat, day: Date, gapEnd: Date, name: string, before: seq<Partition>,
    after: seq<Partition>, failed: seq<Gap>, missing: seq<Gap>)
    requires Ensured(interval, from, k + 1, day, before, after, failed, missing)
    requires Boundary(interval, from, 0) <= Boundary(interval, from, k) <= day
    requires day < gapEnd <= Boundary(interval, from, k + 1)
    requires forall other: int | day <= other < gapEnd :: !Covered(after, other)
    ensures Ensured(interval, from, k + 1, gapEnd, before, after + [Partition(name, day, gapEnd)], failed, missing)
    ensures forall other: int | day <= other < gapEnd :: !Covered(before, other)
  {
    hide Covered, InGap, Boundary;
    var created := Partition(name, day, gapEnd);
    forall other: int
      ensures Covered(after + [created], other) <==> Covered(after, other) || day <= other < gapEnd
    {
      MoreCovered(after, created, other);
    }
    assert (after + [created])[|before|..] == after[|before|..] + [created];
    assert !Covered(after, day);
    assert InOneInterval(interval, from, k + 1, created);
  }

  // A create that landed is reported as failed.
  lemma Unsaid(
    interval: Interval, from: Date, k: nat, day: Date, gapEnd: Date, before: seq<Partition>, after: seq<Partition>,
    failed: seq<Gap>, missing: seq<Gap>)
    requires Ensured(interval, from, k + 1, gapEnd, before, after, failed, missing)
    requires Boundary(interval, from, 0) <= day < gapEnd
    requires forall other: int | day <= other < gapEnd :: !Covered(before, other)
    ensures Ensured(interval, from, k + 1, gapEnd, before, after, failed + [Gap(day, gapEnd)], missing)
  {
    hide Covered, InGap, Boundary, InOneInterval;
    forall other: int
      ensures InGap(failed + [Gap(day, gapEnd)], other) <==> InGap(failed, other) || day <= other < gapEnd
    {
      MoreGaps(failed, Gap(day, gapEnd), other);
    }
    assert !Covered(before, day);
  }

  lemma NotCreated(
    interval: Interval, from: Date, k: nat, day: Date, gapEnd: Date, before: seq<Partition>, after: seq<Partition>,
    failed: seq<Gap>, missing: seq<Gap>)
    requires Ensured(interval, from, k + 1, day, before, after, failed, missing)
    requires Boundary(interval, from, 0) <= day < gapEnd
    requires forall other: int | day <= other < gapEnd :: !Covered(after, other)
    ensures Ensured(interval, from, k + 1, gapEnd, before, after, failed + [Gap(day, gapEnd)],
                    missing + [Gap(day, gapEnd)])
  {
    hide Covered, InGap, Boundary, InOneInterval;
    forall other: int
      ensures InGap(failed + [Gap(day, gapEnd)], other) <==> InGap(failed, other) || day <= other < gapEnd
      ensures InGap(missing + [Gap(day, gapEnd)], other) <==> InGap(missing, other) || day <= other < gapEnd
    {
      MoreGaps(failed, Gap(day, gapEnd), other);
      MoreGaps(missing, Gap(day, gapEnd), other);
    }
    assert !Covered(after, day);
  }

  // Days that a partition already holds are passed over.
  lemma Passed(
    interval: Interval, from: Date, count: nat, day: int, next: int, before: seq<Partition>, after: seq<Partition>,
    failed: seq<Gap>, missing: seq<Gap>)
    requires Ensured(interval, from, count, day, before, after, failed, missing) && day <= next
    requires Boundary(interval, from, 0) <= day
    requires forall other: int | day <= other < next :: Covered(after, other)
    ensures Ensured(interval, from, count, next, before, after, failed, missing)
  {
    hide Covered, InGap, Boundary, InOneInterval;
  }

  lemma NextInterval(
    interval: Interval, from: Date, k: nat, before: seq<Partition>, after: seq<Partition>, failed: seq<Gap>,
    missing: seq<Gap>)
    requires Ensured(interval, from, k, Boundary(interval, from, k), before, after, failed, missing)
    ensures Ensured(interval, from, k + 1, Boundary(interval, from, k), before, after, failed, missing)
  {
    hide Covered, InGap, Boundary;
    assert forall created <- after[|before|..] ::
        InOneInterval(interval, from, k, created) ==> InOneInterval(interval, from, k + 1, created);
  }

  lemma NothingYet(interval: Interval, from: Date, partitions: seq<Partition>)
    ensures Ensured(interval, from, 0, Boundary(interval, from, 0), partitions, partitions, [], [])
  {
    hide Covered, Boundary;
  }

  // Once the whole window is covered, whatever was reported, a second run creates nothing.
  lemma SecondRunCreatesNothing(
    interval: Interval, from: Date, count: nat, before: seq<Partition>, middle: seq<Partition>, after: seq<Partition>,
    reported: seq<Gap>, failed: seq<Gap>, missing: seq<Gap>)
    requires Ensured(interval, from, count, Boundary(interval, from, count), before, middle, reported, [])
    requires Ensured(interval, from, count, Boundary(interval, from, count), middle, after, failed, missing)
    ensures after == middle && failed == []
  {
    hide Covered, Boundary, InOneInterval;
    assert forall day: int :: !InGap([], day);
  }

  predicate NameTaken(partitions: seq<Partition>, name: string) {
    exists partition <- partitions :: partition.name == name
  }

  // A partition for days that no other holds overlaps none.
  lemma GapIsApart(partitions: seq<Partition>, created: Partition)
    requires Sound(partitions) && created.from < created.to && !NameTaken(partitions, created.name)
    requires forall day: int | created.from <= day < created.to :: !Covered(partitions, day)
    ensures forall partition <- partitions :: Apart(created, partition)
  {
    forall partition <- partitions
      ensures Apart(created, partition)
    {
      var day := Retry.Max(created.from, partition.from);
      if created.from <= day < created.to {
        assert !Covered(partitions, day);
      }
    }
  }

  class World {
    const config: Config
    var system: System

    ghost predicate Valid()
      reads this
    {
      config.bus.Valid() && Reachable(config, system)
    }

    constructor (config: Config, now: int, partitions: seq<Partition>)
      requires config.bus.Valid() && Sound(partitions)
      ensures Valid() && this.config == config && Initial(system) && system.partitions == partitions
    {
      this.config := config;
      system := System(Dispatching.State(now, now, map[], map[], {}, [], map[], map[], map[]), partitions, Unlocked);
      new;
      assert Run(config, system, [], system);
    }

    method Do(step: Step)
      requires Valid() && Enabled(config, system, step)
      modifies this
      ensures Valid() && system == Apply(config, old(system), step)
    {
      Reach(config, system, step);
      system := Apply(config, system, step);
    }

    // Dispatchers and writers work on the rows. The holder of the lock alone changes partitions.
    method Others()
      requires Valid()
      modifies this
      ensures Valid() && system.partitions == old(system).partitions && system.work == old(system).work
      ensures old(system).bus.now <= system.bus.now && old(system).bus.table.Keys <= system.bus.table.Keys
    {
      hide Reachable, Dispatching.Enabled, Dispatching.Apply, Retention.Day;
      var schedule: seq<Dispatching.Step> := *;
      for i := 0 to |schedule|
        invariant Valid() && system.partitions == old(system).partitions && system.work == old(system).work
        invariant old(system).bus.now <= system.bus.now && old(system).bus.table.Keys <= system.bus.table.Keys
      {
        if Enabled(config, system, OnBus(schedule[i])) {
          TimeGoesOn(config, system.bus, schedule[i]);
          BusKeepsRows(config, system, schedule[i]);
          Do(OnBus(schedule[i]));
        }
      }
    }

    // Before this run has the lock, other instances may hold it.
    method Instances(ghost today: Date)
      requires Valid() && today <= Retention.Day(system.bus.now)
      modifies this
      ensures Valid() && today <= Retention.Day(system.bus.now)
      ensures SentStay(config, today, old(system).bus.table, system.bus.table)
    {
      hide Reachable, Enabled, Apply, Retention.Day, SentStay;
      var schedule: seq<Step> := *;
      SameStay(config, today, system.bus.table);
      for i := 0 to |schedule|
        invariant Valid() && today <= Retention.Day(system.bus.now)
        invariant SentStay(config, today, old(system).bus.table, system.bus.table)
      {
        if Enabled(config, system, schedule[i]) {
          AnyStep(config, system, schedule[i], today);
          SentStayOn(config, today, old(system).bus.table, system.bus.table,
                     Apply(config, system, schedule[i]).bus.table);
          Do(schedule[i]);
        }
      }
    }

    // Creates a partition, unless that fails: for rows in the default partition, a table of that
    // name, or a fault. It never fails for overlapping another partition. One that lands may still be
    // reported as failed.
    method CreatePartition(from: Date, to: Date, faults: Faults) returns (created: bool)
      requires Valid() && system.work.Creating? && from < to
      requires forall day: int | from <= day < to :: !Covered(system.partitions, day)
      modifies this
      ensures Valid() && system.work == old(system).work && old(system).bus.table.Keys <= system.bus.table.Keys
      ensures var partition := Partition(NameOf(config.table, from), from, to);
              var landed := faults.create(from, to) != Lost && !NameTaken(old(system).partitions, partition.name)
                            && RowsOf(system.bus.table, partition) == {};
              && system.partitions == old(system).partitions + (if landed then [partition] else [])
              && (created <==> landed && faults.create(from, to) == Replied)
    {
      hide Reachable, NameOf, Retention.Day;
      Others();
      var partition := Partition(NameOf(config.table, from), from, to);
      if faults.create(from, to) == Lost || NameTaken(system.partitions, partition.name)
         || RowsOf(system.bus.table, partition) != {} {
        assert old(system).partitions + [] == old(system).partitions;
        return false;
      }
      SoundNow(config, system);
      GapIsApart(system.partitions, partition);
      Do(Create(from, to));
      return faults.create(from, to) == Replied;
    }

    // Fills what is missing in `count` intervals from the one that holds `from`, unless the
    // partitions can't be listed. `missing` are the creates that didn't land.
    method EnsurePartitions(interval: Interval, from: Date, count: nat, faults: Faults)
      returns (failed: Option<seq<Gap>>, ghost missing: seq<Gap>)
      requires Valid() && system.work.Creating?
      modifies this
      ensures Valid() && system.work == old(system).work && (failed.None? <==> faults.listing)
      ensures failed.None? ==> system.partitions == old(system).partitions
      ensures failed.Some? ==>
                && Ensured(interval, from, count, Boundary(interval, from, count), old(system).partitions,
                           system.partitions, failed.value, missing)
                && AllExcused(config, faults, system.partitions, system.bus.table, missing)
                && Reported(config, faults, system.partitions, failed.value, missing)
    {
      hide Reachable, Ensured, NameOf, Covered, End, AllExcused, Reported, Seen;
      missing := [];
      if faults.listing {
        return None, missing;
      }
      var existing := system.partitions;
      var gaps := [];
      var start := Start(interval, from);
      NothingYet(interval, from, system.partitions);
      assert AllExcused(config, faults, system.partitions, system.bus.table, [])
        && Reported(config, faults, system.partitions, [], []) && Seen(existing, system.partitions, start) by {
        NoGaps(config, faults, system.partitions, system.bus.table, start);
      }
      for k := 0 to count
        invariant Valid() && system.work == old(system).work
        invariant start == Boundary(interval, from, k) && Seen(existing, system.partitions, start)
        invariant Ensured(interval, from, k, start, old(system).partitions, system.partitions, gaps, missing)
        invariant AllExcused(config, faults, system.partitions, system.bus.table, missing)
        invariant Reported(config, faults, system.partitions, gaps, missing)
      {
        var end := End(interval, start);
        NextInterval(interval, from, k, old(system).partitions, system.partitions, gaps, missing);
        BoundariesGrow(interval, from, 0, k);
        BoundaryGrows(interval, from, k);
        var day := start;
        while day < end
          invariant start <= day && Valid() && system.work == old(system).work
          invariant Seen(existing, system.partitions, Retry.Min(day, end))
          invariant Ensured(interval, from, k + 1, Retry.Min(day, end), old(system).partitions, system.partitions, gaps,
                            missing)
          invariant AllExcused(config, faults, system.partitions, system.bus.table, missing)
          invariant Reported(config, faults, system.partitions, gaps, missing)
        {
          existing, gaps, day, missing :=
            Fill(interval, from, k, day, end, existing, gaps, faults, old(system).partitions, missing);
        }
        start := end;
      }
      return Some(gaps), missing;
    }

    // One turn of the loop: past the partition that holds the day, or a create for the gap there.
    method Fill(
      interval: Interval, from: Date, k: nat, day: Date, end: Date, existing: seq<Partition>, failed: seq<Gap>,
      faults: Faults, ghost before: seq<Partition>, ghost missing: seq<Gap>)
      returns (now: seq<Partition>, gaps: seq<Gap>, next: Date, ghost lost: seq<Gap>)
      requires Valid() && system.work.Creating? && Seen(existing, system.partitions, day)
      requires Boundary(interval, from, 0) <= Boundary(interval, from, k) <= day < end
      requires end == Boundary(interval, from, k + 1)
      requires Ensured(interval, from, k + 1, day, before, system.partitions, failed, missing)
      requires AllExcused(config, faults, system.partitions, system.bus.table, missing)
      requires Reported(config, faults, system.partitions, failed, missing)
      modifies this
      ensures Valid() && system.work == old(system).work && day < next
      ensures Seen(now, system.partitions, Retry.Min(next, end))
      ensures Ensured(interval, from, k + 1, Retry.Min(next, end), before, system.partitions, gaps, lost)
      ensures AllExcused(config, faults, system.partitions, system.bus.table, lost)
      ensures Reported(config, faults, system.partitions, gaps, lost)
    {
      hide Reachable, Ensured, NameOf, Boundary, AllExcused, Seen, Reported;
      SoundNow(config, system);
      ghost var partitions := system.partitions;
      var holder := Holder(existing, day);
      if holder.Some? {
        next := holder.value.to;
        KnownHolds(existing, partitions, holder.value, day, Retry.Min(next, end));
        Passed(interval, from, k + 1, day, Retry.Min(next, end), before, partitions, failed, missing);
        return existing, failed, next, missing;
      }
      KnownAreSound(existing, partitions, day);
      next := GapEnd(existing, day, end);
      KnownGap(existing, partitions, day, next);
      var created := CreatePartition(day, next, faults);
      StillExcused(config, faults, partitions, system.partitions, old(system).bus.table, system.bus.table, missing);
      StillReported(config, faults, partitions, system.partitions, failed, missing);
      if created {
        Created(interval, from, k, day, next, NameOf(config.table, day), before, partitions, failed, missing);
        KnownMore(existing, partitions, Partition(NameOf(config.table, day), day, next), day, true);
        return existing + [Partition(NameOf(config.table, day), day, next)], failed, next, missing;
      }
      now, gaps, lost := existing, failed + [Gap(day, next)], missing;
      if system.partitions != partitions {
        Created(interval, from, k, day, next, NameOf(config.table, day), before, partitions, failed, missing);
        Unsaid(interval, from, k, day, next, before, system.partitions, failed, missing);
        KnownMore(existing, partitions, Partition(NameOf(config.table, day), day, next), day, false);
        MoreReported(config, faults, system.partitions, failed, missing, Gap(day, next), missing);
      } else {
        lost := missing + [Gap(day, next)];
        NotCreated(interval, from, k, day, next, before, partitions, failed, missing);
        SeenLater(existing, partitions, day, next);
        OneMoreExcused(config, faults, partitions, system.bus.table, missing, Gap(day, next));
        MoreReported(config, faults, partitions, failed, missing, Gap(day, next), lost);
      }
    }

    // Counts the unsent rows of the partitions that end on or before the retention, unless that fails.
    method CountOld(faults: Faults) returns (counted: bool)
      requires Valid() && system.work.Creating? && config.retention.Some?
      modifies this
      ensures Valid() && system.partitions == old(system).partitions
      ensures UncoveredStay(system.partitions, old(system).bus.table, system.bus.table)
      ensures var Creating(today, locked) := old(system).work;
              if counted then
                system.work.Expiring? && system.work.today == today && system.work.locked == locked
                && Names(system.work.counts) == Old(system.partitions, config.OlderThan(today))
              else CountFails(config, faults, today, system.partitions)
    {
      hide Reachable, RowsAt, Retention.Day;
      Others();
      ghost var Creating(today, locked) := system.work;
      if faults.expirable {
        return false;
      }
      Do(List);
      ghost var all := system.work.left;
      assert Names([]) + all == all;
      while system.work.left != []
        invariant Valid() && system.partitions == old(system).partitions
        invariant old(system).bus.table.Keys <= system.bus.table.Keys
        invariant system.work.Counting? && system.work.today == today && system.work.locked == locked
        invariant Names(system.work.counted) + system.work.left == all
        decreases |system.work.left|
      {
        Others();
        if faults.count(system.work.left[0]) {
          assert system.work.left[0] in all;
          SoundNow(config, system);
          OldByDays(config, today, system.partitions);
          return false;
        }
        NamesMore(system.work.counted, CountOf(system.bus.table, system.work.left[0]));
        assert [system.work.left[0]] + system.work.left[1..] == system.work.left;
        Do(CountNext);
      }
      Do(StartExpiring);
      return true;
    }

    // Expires the first partition. It takes a time of its own, after the statement before it. One that
    // lands may still report an error.
    method ExpireOne(faults: Faults) returns (told: bool)
      requires Valid() && system.work.Expiring? && system.work.counts != [] && !system.work.counts[0].Unsent()
      modifies this
      ensures Valid()
      ensures var Expiring(today, locked, counts) := old(system).work;
              && system.work == Expiring(today, locked, counts[1..])
              && (told <==> faults.expire(counts[0].partition) == Replied)
              && var landed := faults.expire(counts[0].partition) != Lost;
                 system.partitions == (if landed then Without(old(system).partitions, counts[0].partition)
                                       else old(system).partitions)
      ensures UncoveredStay(old(system).partitions, old(system).bus.table, system.bus.table)
    {
      hide Reachable, Retention.Day, RowsOf, AllSent;
      Others();
      ghost var before := system;
      if !Dispatching.StatementTime(config.bus, system.bus) {
        InOrder(config, system);
        Do(OnBus(Dispatching.Tick(system.bus.now + 1)));
      }
      var reply := faults.expire(system.work.counts[0].partition);
      OnlyListedExpire(config, system, reply != Lost);
      Do(Expire(reply != Lost));
      return reply == Replied;
    }

    // Expires the partitions that were counted without unsent rows.
    method ExpireOld(faults: Faults) returns (expired: seq<Counted>, kept: seq<Counted>, refused: seq<Counted>)
      requires Valid() && system.work.Expiring?
      modifies this
      ensures Valid() && system.work == Expiring(old(system).work.today, old(system).work.locked, [])
      ensures forall counted :: counted in old(system).work.counts <==> counted in expired + kept + refused
      ensures Judged(faults, old(system).work.locked, expired, kept, refused)
      ensures UncoveredStay(old(system).partitions, old(system).bus.table, system.bus.table)
      ensures forall partition ::
                partition in system.partitions
                <==> partition in old(system).partitions && !Gone(faults, expired, refused, partition)
    {
      hide Reachable, Retention.Day, AllSent;
      expired, kept, refused := [], [], [];
      ghost var all := system.work.counts;
      while system.work.counts != []
        invariant Valid() && system.work.Expiring? && system.work.today == old(system).work.today
        invariant system.work.locked == old(system).work.locked
        invariant forall counted :: counted in all <==> counted in expired + kept + refused + system.work.counts
        invariant Judged(faults, old(system).work.locked, expired, kept, refused)
        invariant UncoveredStay(old(system).partitions, old(system).bus.table, system.bus.table)
        invariant forall partition ::
                    partition in system.partitions
                    <==> partition in old(system).partitions && !Gone(faults, expired, refused, partition)
        decreases |system.work.counts|
      {
        var counted := system.work.counts[0];
        if counted.Unsent() {
          OnlyUnsentKeep(config, system);
          kept := kept + [counted];
          Do(Keep);
        } else {
          ghost var table, partitions := system.bus.table, system.partitions;
          var told := ExpireOne(faults);
          UncoveredStayOn(old(system).partitions, partitions, old(system).bus.table, table, system.bus.table);
          OneMoreGone(faults, expired, refused, counted);
          if told {
            expired := expired + [counted];
          } else {
            refused := refused + [counted];
          }
        }
      }
    }

    // A whole run, unless another instance holds the lock: it creates what is missing and then expires
    // what is old.
    // `before` and `ensured` are the partitions when it had the lock and when it had created what it
    // could, and `missing` the creates that didn't land.
    method Maintain(interval: Interval, ahead: nat, today: Date, faults: Faults)
      returns (
        report: Report, ghost before: seq<Partition>, ghost ensured: seq<Partition>, ghost missing: seq<Gap>)
      requires Valid() && today <= Retention.Day(system.bus.now)
      modifies this
      ensures Valid()
      ensures report.Elsewhere? ==> faults.lock || !system.work.Unlocked?
      ensures !report.Elsewhere? ==>
                && system.work.Unlocked?
                && (report.failed.None? <==> faults.listing)
                && (report.failed.None? ==> ensured == before)
                && (report.failed.Some? ==>
                      && Ahead(interval, ahead, today, before, ensured, report.failed.value, missing)
                      && CoveredAhead(interval, ahead, today, system.partitions, missing)
                      && AllExcused(config, faults, ensured, system.bus.table, missing)
                      && Reported(config, faults, ensured, report.failed.value, missing))
      ensures report.Stopped? ==>
                && system.partitions == ensured
                && (faults.defaultRows || (config.retention.Some? && CountFails(config, faults, today, ensured)))
      ensures report.Done? ==>
                && Settled(config, today, ensured, report)
                && Judged(faults, old(system).bus.table, report.expired, report.kept, report.refused)
                && forall partition ::
                     partition in system.partitions
                     <==> partition in ensured && !Gone(faults, report.expired, report.refused, partition)
    {
      hide Reachable, Retention.Day, Ensured, Boundary, Covered, InGap, CountFails, AllSent, AllExcused, SentStay,
        Reported;
      before, ensured, missing := [], [], [];
      Instances(today);
      if faults.lock || !system.work.Unlocked? {
        return Elsewhere, before, ensured, missing;
      }
      Do(Lock(today));
      ghost var locked := system.bus.table;
      before := system.partitions;
      var failed;
      failed, missing := EnsurePartitions(interval, today, SaturatingAdd(ahead, 1), faults);
      ensured := system.partitions;
      ghost var table := system.bus.table;
      if failed.Some? {
        AheadIsCovered(interval, ahead, today, before, ensured, failed.value, missing);
      }
      if faults.defaultRows || config.retention.None? {
        Do(Release);
        report := if faults.defaultRows then Stopped(failed) else Done(failed, [], [], []);
        return;
      }
      var counted := CountOld(faults);
      if counted {
        ghost var counts := system.work.counts;
        SoundNow(config, system);
        var expired, kept, refused := ExpireOld(faults);
        report := Done(failed, expired, kept, refused);
        OldAreSettled(config, today, ensured, counts, report);
        JudgedEarlier(config, faults, today, old(system).bus.table, locked, ensured, report);
        if failed.Some? {
          StillCovered(config, faults, interval, ahead, today, ensured, system.partitions, report, missing);
        }
      } else {
        report := Stopped(failed);
      }
      if failed.Some? {
        GapsStay(config, faults, interval, ahead, today, before, ensured, table, system.bus.table, failed.value,
                 missing);
      }
      Do(Release);
    }
  }

  // What a run creates.
  ghost predicate Ahead(
    interval: Interval, ahead: nat, today: Date, before: seq<Partition>, ensured: seq<Partition>, failed: seq<Gap>,
    missing: seq<Gap>)
  {
    var count := if ahead < 0xFFFF_FFFF then ahead + 1 else 0xFFFF_FFFF;
    Ensured(interval, today, count, Boundary(interval, today, count), before, ensured, failed, missing)
  }

  // Every day from today to the end of the last interval ahead is covered, but for creates that didn't
  // land.
  ghost predicate CoveredAhead(
    interval: Interval, ahead: nat, today: Date, partitions: seq<Partition>, missing: seq<Gap>)
  {
    forall day: int |
      today <= day < Boundary(interval, today, if ahead < 0xFFFF_FFFF then ahead + 1 else 0xFFFF_FFFF) ::
      Covered(partitions, day) || InGap(missing, day)
  }

  // The old partitions are those expired, kept for their unsent rows, or refused.
  ghost predicate Settled(config: Config, today: Date, partitions: seq<Partition>, report: Report)
    requires report.Done?
  {
    var all := report.expired + report.kept + report.refused;
    && (forall counted <- all :: counted.Unsent() <==> counted in report.kept)
    && (if config.retention.None? then all == []
        else forall partition ::
               AnyOf(all, partition) <==> partition in partitions && partition.to <= today - config.retention.value)
  }

  // Rows of days without a partition stay.
  ghost predicate UncoveredStay(partitions: seq<Partition>, before: Table, after: Table) {
    RowsStay(before, after, (day: int) => !Covered(partitions, day))
  }

  lemma UncoveredStayOn(partitions: seq<Partition>, fewer: seq<Partition>, first: Table, second: Table, third: Table)
    requires UncoveredStay(partitions, first, second) && UncoveredStay(fewer, second, third)
    requires forall partition <- fewer :: partition in partitions
    ensures UncoveredStay(partitions, first, third)
  {
    hide Retention.Day;
  }

  // An expiry takes only rows of one of the table's partitions.
  lemma OnlyListedExpire(config: Config, system: System, landed: bool)
    requires config.bus.Valid() && Reachable(config, system) && Enabled(config, system, Expire(landed))
    ensures UncoveredStay(system.partitions, system.bus.table, Apply(config, system, Expire(landed)).bus.table)
  {
    RetentionIsSafe(config, system);
    assert CountRight(config, system, system.work.counts[0]);
    hide Retention.Day, Reachable, Safe, Enabled, Apply;
    forall key <- system.bus.table | !Covered(system.partitions, Retention.Day(key.createdAt))
      ensures key in Apply(config, system, Expire(landed)).bus.table
    {
      ExpireRows(config, system, landed, key);
    }
  }

  // The gaps' days have no partition, so their rows outlive the expiries.
  lemma GapsStay(
    config: Config, faults: Faults, interval: Interval, ahead: nat, today: Date, before: seq<Partition>,
    ensured: seq<Partition>, table: Table, after: Table, failed: seq<Gap>, missing: seq<Gap>)
    requires Ahead(interval, ahead, today, before, ensured, failed, missing)
    requires AllExcused(config, faults, ensured, table, missing) && UncoveredStay(ensured, table, after)
    ensures AllExcused(config, faults, ensured, after, missing)
  {
    hide Boundary, Covered, InGap, AllExcused, Retention.Day;
    StillExcused(config, faults, ensured, ensured, table, after, missing);
  }

  // A partition kept for a row unsent when the lock was taken had one before, too.
  lemma JudgedEarlier(
    config: Config, faults: Faults, today: Date, before: Table, locked: Table, ensured: seq<Partition>, report: Report)
    requires config.retention.Some? && report.Done? && Settled(config, today, ensured, report) && Sound(ensured)
    requires SentStay(config, today, before, locked)
    requires Judged(faults, locked, report.expired, report.kept, report.refused)
    ensures Judged(faults, before, report.expired, report.kept, report.refused)
  {
    hide AllSent;
    var all := report.expired + report.kept + report.refused;
    forall counted <- report.kept
      ensures !AllSent(before, counted.partition)
    {
      assert counted in all && AnyOf(all, counted.partition);
      assert Aged(config, today, counted.partition);
    }
  }

  lemma AheadIsCovered(
    interval: Interval, ahead: nat, today: Date, before: seq<Partition>, ensured: seq<Partition>, failed: seq<Gap>,
    missing: seq<Gap>)
    requires Ahead(interval, ahead, today, before, ensured, failed, missing)
    ensures CoveredAhead(interval, ahead, today, ensured, missing)
  {
    FirstBoundary(interval, today);
    hide Boundary, Covered, InGap;
  }

  lemma FirstBoundary(interval: Interval, from: Date)
    ensures Boundary(interval, from, 0) <= from
  {
    HoldsItsDay(interval, from);
    hide Start, End;
  }

  // The old partitions are those that end no later than the retention before today.
  lemma OldByDays(config: Config, today: Date, partitions: seq<Partition>)
    requires config.retention.Some? && Sound(partitions)
    ensures forall partition ::
              partition in Old(partitions, config.OlderThan(today))
              <==> partition in partitions && partition.to <= today - config.retention.value
  {
  }

  lemma OldAreSettled(config: Config, today: Date, ensured: seq<Partition>, counts: seq<Counted>, report: Report)
    requires config.retention.Some? && report.Done? && Sound(ensured)
    requires Names(counts) == Old(ensured, config.OlderThan(today))
    requires forall counted :: counted in counts <==> counted in report.expired + report.kept + report.refused
    requires forall counted <- report.expired + report.refused :: !counted.Unsent()
    requires forall counted <- report.kept :: counted.Unsent()
    ensures Settled(config, today, ensured, report)
  {
    OldByDays(config, today, ensured);
    var all := report.expired + report.kept + report.refused;
    forall partition: Partition
      ensures AnyOf(all, partition) <==> partition in Names(counts)
    {
      if partition in Names(counts) {
        var i :| 0 <= i < |Names(counts)| && Names(counts)[i] == partition;
        assert counts[i] in counts;
      }
      if AnyOf(all, partition) {
        var counted :| counted in all && counted.partition == partition;
        var i :| 0 <= i < |counts| && counts[i] == counted;
        assert Names(counts)[i] == partition;
      }
    }
  }

  // Partitions that expire end before today, so what is ahead stays covered.
  lemma StillCovered(
    config: Config, faults: Faults, interval: Interval, ahead: nat, today: Date, ensured: seq<Partition>,
    after: seq<Partition>, report: Report, missing: seq<Gap>)
    requires report.Done? && CoveredAhead(interval, ahead, today, ensured, missing)
    requires config.retention.Some? && Settled(config, today, ensured, report)
    requires forall partition ::
               partition in after
               <==> partition in ensured && !Gone(faults, report.expired, report.refused, partition)
    ensures CoveredAhead(interval, ahead, today, after, missing)
  {
    hide Boundary, InGap;
    var all := report.expired + report.kept + report.refused;
    forall day: int | today <= day && Covered(ensured, day)
      ensures Covered(after, day)
    {
      var partition :| partition in ensured && partition.Holds(day);
      assert AnyOf(report.expired, partition) || AnyOf(report.refused, partition) ==> AnyOf(all, partition);
    }
  }

  // What one more expiry makes gone.
  lemma OneMoreGone(faults: Faults, expired: seq<Counted>, refused: seq<Counted>, counted: Counted)
    ensures forall partition ::
              if faults.expire(counted.partition) == Replied
              then Gone(faults, expired + [counted], refused, partition)
                   <==> Gone(faults, expired, refused, partition) || partition == counted.partition
              else Gone(faults, expired, refused + [counted], partition)
                   <==> || Gone(faults, expired, refused, partition)
                        || (partition == counted.partition && faults.expire(partition) == LandedUnsaid)
  {
    AnyMore(expired, counted);
    AnyMore(refused, counted);
    hide AnyOf;
  }

  lemma AnyMore(counts: seq<Counted>, counted: Counted)
    ensures forall partition ::
              AnyOf(counts + [counted], partition) <==> AnyOf(counts, partition) || partition == counted.partition
  {
    assert forall other :: other in counts + [counted] <==> other in counts || other == counted;
  }

  lemma NamesMore(counts: seq<Counted>, counted: Counted)
    ensures Names(counts + [counted]) == Names(counts) + [counted.partition]
  {
  }

  // No statement is later than now.
  lemma InOrder(config: Config, system: System)
    requires config.bus.Valid() && Reachable(config, system)
    ensures system.bus.statementAt <= system.bus.now
  {
    RetentionIsSafe(config, system);
    Fencing.LeasesAreFenced(config.bus, system.bus);
  }

  lemma SoundNow(config: Config, system: System)
    requires config.bus.Valid() && Reachable(config, system)
    ensures Sound(system.partitions)
  {
    RetentionIsSafe(config, system);
  }

  // Time never goes back, and old partitions with nothing left to send stay so, whatever runs.
  lemma AnyStep(config: Config, system: System, step: Step, today: Date)
    requires Enabled(config, system, step) && today <= Retention.Day(system.bus.now)
    ensures today <= Retention.Day(Apply(config, system, step).bus.now)
    ensures SentStay(config, today, system.bus.table, Apply(config, system, step).bus.table)
  {
    hide Dispatching.Enabled, Dispatching.Apply, Retention.Day, SentStay;
    SameStay(config, today, system.bus.table);
    if step.OnBus? {
      TimeGoesOn(config, system.bus, step.bus);
      AllSentStays(config, system, step.bus, today);
    } else if step.Expire? {
      ExpireTime(config, system, step.landed);
      ExpireSent(config, system, step.landed, today);
    }
  }

  lemma SameStay(config: Config, today: Date, table: Table)
    ensures SentStay(config, today, table, table)
  {
  }

  // Dispatchers and writers remove no row.
  lemma BusKeepsRows(config: Config, system: System, step: Dispatching.Step)
    requires Enabled(config, system, OnBus(step))
    ensures system.bus.table.Keys <= Apply(config, system, OnBus(step)).bus.table.Keys
  {
    hide Dispatching.Apply, Dispatching.Enabled, Retention.Day;
    forall key <- system.bus.table
      ensures key in Dispatching.Apply(config.bus, system.bus, step).table
    {
      BrokerSafety.DispatchedStays(config.bus, system.bus, step, key);
    }
  }

  lemma {:induction false} RunOn(config: Config, first: System, steps: seq<Step>, middle: System, step: Step)
    requires Run(config, first, steps, middle) && Enabled(config, middle, step)
    ensures Run(config, first, steps + [step], Apply(config, middle, step))
    decreases |steps|
  {
    hide Enabled, Apply;
    if steps == [] {
      assert ([] + [step])[1..] == [];
    } else {
      RunOn(config, Apply(config, first, steps[0]), steps[1..], middle, step);
      assert (steps + [step])[1..] == steps[1..] + [step];
    }
  }

  lemma Reach(config: Config, system: System, step: Step)
    requires Reachable(config, system) && Enabled(config, system, step)
    ensures Reachable(config, Apply(config, system, step))
  {
    var first: System, steps: seq<Step> :| Initial(first) && Run(config, first, steps, system);
    RunOn(config, first, steps, system, step);
    hide Enabled, Apply;
  }
}
