/** Partitions of a table by day, and the stretches of an interval that none of them holds. */
module Partitions {
  import opened Calendar
  import opened Dates
  import opened Decimals
  import opened Options
  import opened Rfc3339

  // A partition holds the whole days from `from` up to, and not with, `to`.
  datatype Partition = Partition(name: string, from: Date, to: Date) {
    predicate Holds(day: int) {
      from <= day < to
    }
  }

  predicate Covered(partitions: seq<Partition>, day: int) {
    exists partition <- partitions :: partition.Holds(day)
  }

  predicate Apart(first: Partition, second: Partition) {
    (first.to <= second.from || second.to <= first.from) && first.name != second.name
  }

  // Partitions are non-empty and share neither a day nor a name.
  ghost predicate Sound(partitions: seq<Partition>) {
    && (forall partition <- partitions :: partition.from < partition.to)
    && (forall i, j | 0 <= i < j < |partitions| :: Apart(partitions[i], partitions[j]))
  }

  // A partition is named after the table and its first day.
  function NameOf(table: string, from: Date): string {
    var text := DisplayDate(from);
    table + "_p" + WithoutDashes(text)
  }

  function WithoutDashes(text: string): string {
    if text == "" then ""
    else (if text[0] == '-' then "" else [text[0]]) + WithoutDashes(text[1..])
  }

  // The start of the interval number `k`, counted from the one that holds `from`.
  function Boundary(interval: Interval, from: Date, k: nat): Date {
    if k == 0 then Start(interval, from) else End(interval, Boundary(interval, from, k - 1))
  }

  // The partition that holds a day, if one does.
  method Holder(partitions: seq<Partition>, day: Date) returns (holder: Option<Partition>)
    ensures holder.None? <==> !Covered(partitions, day)
    ensures holder.Some? ==> holder.value in partitions && holder.value.Holds(day)
  {
    for i := 0 to |partitions|
      invariant forall partition <- partitions[..i] :: !partition.Holds(day)
    {
      if partitions[i].Holds(day) {
        return Some(partitions[i]);
      }
    }
    return None;
  }

  // Where the gap that begins on a day ends: at the next partition, or at `end`.
  method GapEnd(partitions: seq<Partition>, day: Date, end: Date) returns (gapEnd: Date)
    requires day < end && !Covered(partitions, day)
    requires forall partition <- partitions :: partition.from < partition.to
    ensures day < gapEnd <= end
    ensures forall other: int | day <= other < gapEnd :: !Covered(partitions, other)
    ensures gapEnd < end ==> Covered(partitions, gapEnd)
  {
    gapEnd := end;
    for i := 0 to |partitions|
      invariant day < gapEnd <= end
      invariant forall partition <- partitions[..i] :: partition.from > day ==> gapEnd <= partition.from
      invariant gapEnd < end ==> exists partition <- partitions[..i] :: partition.from == gapEnd
    {
      if day < partitions[i].from < gapEnd {
        gapEnd := partitions[i].from;
      }
      assert partitions[..i + 1][i] == partitions[i];
    }
    assert partitions[..|partitions|] == partitions;
    forall other: int, partition <- partitions | day <= other < gapEnd
      ensures !partition.Holds(other)
    {
      assert !partition.Holds(day);
    }
    if gapEnd < end {
      var next :| next in partitions && next.from == gapEnd;
      assert next.Holds(gapEnd);
    }
  }

  // Away from the end of the calendar, the window's intervals are consecutive ones of the calendar.
  lemma {:induction false} BoundariesTile(interval: Interval, from: Date, k: nat)
    requires Unclamped(interval, Boundary(interval, from, k)) && Unclamped(interval, from)
    ensures var start := Boundary(interval, from, k);
            && start < Boundary(interval, from, k + 1) && Start(interval, start) == start
            && forall day: Date | start <= day < Boundary(interval, from, k + 1) ::
                 Start(interval, day) == start && End(interval, day) == Boundary(interval, from, k + 1)
    decreases k
  {
    hide Start, End;
    StillUnclamped(interval, from, k, 0);
    TilesExactly(interval, Boundary(interval, from, k));
    TilesExactly(interval, from);
    assert Tiles(interval, from) && Tiles(interval, Boundary(interval, from, k));
    if k > 0 {
      var before := Boundary(interval, from, k - 1);
      StillUnclamped(interval, from, k, k - 1);
      BoundariesTile(interval, from, k - 1);
      TilesExactly(interval, before);
      assert Tiles(interval, before);
    }
  }

  // Boundaries before an unclamped one aren't clamped either.
  lemma StillUnclamped(interval: Interval, from: Date, k: nat, earlier: nat)
    requires Unclamped(interval, from) && Unclamped(interval, Boundary(interval, from, k)) && earlier <= k
    ensures Unclamped(interval, Boundary(interval, from, earlier))
  {
    BoundariesGrow(interval, from, 0, earlier);
    BoundariesGrow(interval, from, earlier, k);
    FirstUnclamped(interval, from);
    hide Start, End;
  }

  lemma FirstUnclamped(interval: Interval, from: Date)
    requires Unclamped(interval, from)
    ensures Unclamped(interval, Start(interval, from))
  {
    TilesExactly(interval, from);
    HoldsItsDay(interval, from);
    hide FirstOfMonth, FirstOfNextMonth;
  }

  // Boundaries never go back.
  lemma BoundaryGrows(interval: Interval, from: Date, k: nat)
    ensures Boundary(interval, from, k) <= Boundary(interval, from, k + 1)
  {
    hide Start, End;
    HoldsItsDay(interval, Boundary(interval, from, k));
  }

  lemma {:induction false} BoundariesGrow(interval: Interval, from: Date, k: nat, later: nat)
    requires k <= later
    ensures Boundary(interval, from, k) <= Boundary(interval, from, later)
    decreases later - k
  {
    hide Start, End;
    if k < later {
      BoundariesGrow(interval, from, k, later - 1);
      BoundaryGrows(interval, from, later - 1);
    }
  }

  lemma {:induction false} WithoutDashesJoins(first: string, second: string)
    ensures WithoutDashes(first + second) == WithoutDashes(first) + WithoutDashes(second)
  {
    if first == "" {
      assert first + second == second;
    } else {
      var head := if first[0] == '-' then "" else [first[0]];
      assert (first + second)[1..] == first[1..] + second && (first + second)[0] == first[0];
      assert WithoutDashes(first + second) == head + WithoutDashes(first[1..] + second);
      assert WithoutDashes(first) == head + WithoutDashes(first[1..]);
      hide WithoutDashes;
      WithoutDashesJoins(first[1..], second);
      Regroup(head, WithoutDashes(first[1..]), WithoutDashes(second));
    }
  }

  lemma Regroup(first: string, second: string, third: string)
    ensures first + (second + third) == first + second + third
  {
  }

  lemma {:induction false} DigitsStay(digits: string)
    requires AllDigits(digits)
    ensures WithoutDashes(digits) == digits
  {
    if digits != "" {
      DigitsStay(digits[1..]);
    }
  }

  lemma DashesOf(year: string, month: string, day: string)
    requires AllDigits(year) && AllDigits(month) && AllDigits(day)
    ensures WithoutDashes(year + "-" + month + "-" + day) == year + month + day
  {
    assert WithoutDashes("-") == "";
    hide WithoutDashes, IsDigit, AllDigits;
    DigitsStay(year);
    DigitsStay(month);
    DigitsStay(day);
    WithoutDashesJoins(year, "-");
    WithoutDashesJoins(year + "-", month);
    WithoutDashesJoins(year + "-" + month, "-");
    WithoutDashesJoins(year + "-" + month + "-", day);
  }

  // A date's text loses only its two dashes.
  lemma DigitsOf(date: Date)
    ensures var text, digits := DisplayDate(date), WithoutDashes(DisplayDate(date));
            |digits| == 8 && text == digits[..4] + "-" + digits[4..6] + "-" + digits[6..]
  {
    hide DateFromDays, DaysFromDate, DaysInMonth, Pad, WithoutDashes;
    var civil := DateFromDays(date);
    DaysRoundTrip(date);
    YearsInRange(civil);
    DashesOf(Pad(civil.year, 4), Pad(civil.month, 2), Pad(civil.day, 2));
  }

  // A name is the table's, `_p`, and the eight digits of the first day's year, month and day.
  lemma NameText(table: string, from: Date)
    ensures var text := DisplayDate(from);
            NameOf(table, from) == table + "_p" + (text[..4] + text[5..7] + text[8..])
  {
    DigitsOf(from);
    var text, digits := DisplayDate(from), WithoutDashes(DisplayDate(from));
    hide DisplayDate, WithoutDashes;
    assert text[..4] == digits[..4] && text[5..7] == digits[4..6] && text[8..] == digits[6..];
    assert digits == digits[..4] + digits[4..6] + digits[6..];
  }

  // Partitions of different first days have different names.
  lemma NamesDiffer(table: string, first: Date, second: Date)
    requires NameOf(table, first) == NameOf(table, second)
    ensures first == second
  {
    DateTextExact(DisplayDate(first), first);
    DateTextExact(DisplayDate(second), second);
    DigitsOf(first);
    DigitsOf(second);
    hide DisplayDate, ParseDate, WithoutDashes;
    var prefix := table + "_p";
    assert WithoutDashes(DisplayDate(first)) == NameOf(table, first)[|prefix|..];
    assert WithoutDashes(DisplayDate(second)) == NameOf(table, second)[|prefix|..];
  }
}
