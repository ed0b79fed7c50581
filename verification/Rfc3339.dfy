/** The envelope's time and its text, the `date-time` of RFC 3339 (section 5.6) without leap seconds.

The text is described by its fields: `Text` writes them, and the parser is shown to accept exactly
the texts of well-formed fields whose instant is in years 0000 to 9999, and to give that instant. */
module Rfc3339 {
  import opened Calendar
  import opened Dates
  import opened Decimals
  import opened Options

  const NANOS_PER_SECOND := 1_000_000_000

  // A point in time: whole seconds from the epoch on, rounded down, and what is left in nanoseconds.
  datatype Instant = Instant(seconds: int, nanos: int) {
    predicate Valid() {
      FIRST_SECOND <= seconds < END_SECOND && 0 <= nanos < NANOS_PER_SECOND
    }

    // The same time as one number.
    function UnixNanos(): int {
      seconds * NANOS_PER_SECOND + nanos
    }

    // The UTC day the instant falls on.
    function Date(): Date {
      FromDays(seconds / SECONDS_PER_DAY)
    }
  }

  type Timestamp = instant: Instant | instant.Valid() witness Instant(0, 0)

  // The nearest time there is to a number of nanoseconds.
  function FromUnixNanos(nanos: int): (time: Timestamp)
    ensures FIRST_SECOND * NANOS_PER_SECOND <= nanos < END_SECOND * NANOS_PER_SECOND ==> time.UnixNanos() == nanos
    ensures nanos < FIRST_SECOND * NANOS_PER_SECOND ==> time == Instant(FIRST_SECOND, 0)
    ensures nanos >= END_SECOND * NANOS_PER_SECOND ==> time == Instant(END_SECOND - 1, 999_999_999)
  {
    var first, last := FIRST_SECOND * NANOS_PER_SECOND, END_SECOND * NANOS_PER_SECOND - 1;
    var clamped := if nanos < first then first else if nanos > last then last else nanos;
    Instant(clamped / NANOS_PER_SECOND, clamped % NANOS_PER_SECOND)
  }

  datatype Zone = Utc(letter: char) | Offset(sign: char, hour: nat, minute: nat) {
    predicate WellFormed() {
      match this
      case Utc(letter) => letter == 'Z' || letter == 'z'
      case Offset(sign, hour, minute) => (sign == '+' || sign == '-') && hour <= 23 && minute <= 59
    }

    function Text(): string {
      match this
      case Utc(letter) => [letter]
      case Offset(sign, hour, minute) => [sign] + Pad(hour, 2) + ":" + Pad(minute, 2)
    }

    function Seconds(): int {
      match this
      case Utc(_) => 0
      case Offset(sign, hour, minute) =>
        if sign == '-' then -(hour * 3_600 + minute * 60) else hour * 3_600 + minute * 60
    }
  }

  // The fields of a date-time. The fraction is its digits, empty when there is none.
  datatype DateTime = DateTime(
    date: Civil, separator: char, hour: nat, minute: nat, second: nat, fraction: string, zone: Zone)
  {
    predicate WellFormed() {
      && 0 <= date.year <= 9_999 && date.Valid()
      && (separator == 'T' || separator == 't')
      && hour <= 23 && minute <= 59 && second <= 59
      && AllDigits(fraction)
      && zone.WellFormed()
    }

    // The local date and time of day, before the fraction.
    function LocalText(): (text: string)
      requires WellFormed()
      ensures |text| == 19
    {
      Pad(date.year, 4) + "-" + Pad(date.month, 2) + "-" + Pad(date.day, 2) + [separator]
      + Pad(hour, 2) + ":" + Pad(minute, 2) + ":" + Pad(second, 2)
    }

    function FractionText(): string {
      if fraction == "" then "" else "." + fraction
    }

    function Text(): string
      requires WellFormed()
    {
      LocalText() + (FractionText() + zone.Text())
    }

    // Local time minus the offset.
    function Seconds(): int {
      DaysFromDate(date) * SECONDS_PER_DAY + (hour * 3_600 + minute * 60 + second) - zone.Seconds()
    }

    function Moment(): Instant
      requires WellFormed()
    {
      Instant(Seconds(), Nanos(fraction))
    }
  }

  // The first nine digits of a fraction, digits past the ninth dropped and missing ones zero.
  function NineDigits(fraction: string): (digits: string)
    requires AllDigits(fraction)
    ensures |digits| == 9 && AllDigits(digits)
  {
    if |fraction| >= 9 then fraction[..9] else fraction + Zeros(9 - |fraction|)
  }

  function Nanos(fraction: string): nat
    requires AllDigits(fraction)
  {
    Value(NineDigits(fraction))
  }

  // Reads a part of the text as a number in decimal.
  function Number(text: string, start: nat, end: nat): Option<nat>
    requires start <= end
  {
    if end <= |text| && AllDigits(text[start..end]) then Some(Value(text[start..end])) else None
  }

  function LeadingDigits(text: string): (count: nat)
    ensures count <= |text| && AllDigits(text[..count])
    ensures count < |text| ==> !IsDigit(text[count])
  {
    if text == "" || !IsDigit(text[0]) then 0 else 1 + LeadingDigits(text[1..])
  }

  function ScanZone(rest: string): Option<Zone> {
    if |rest| == 1 && (rest[0] == 'Z' || rest[0] == 'z') then Some(Utc(rest[0]))
    else if |rest| == 6 && (rest[0] == '+' || rest[0] == '-') && rest[3] == ':' then
      var hour :- Number(rest, 1, 3);
      var minute :- Number(rest, 4, 6);
      if hour <= 23 && minute <= 59 then Some(Offset(rest[0], hour, minute)) else None
    else None
  }

  // The fraction's digits and what follows them.
  function ScanFraction(rest: string): Option<(string, string)> {
    if rest != "" && rest[0] == '.' then
      var count := LeadingDigits(rest[1..]);
      if count == 0 then None else Some((rest[1..][..count], rest[1..][count..]))
    else Some(("", rest))
  }

  // The fields of a text, or none when it is no date-time.
  function Scan(text: string): Option<DateTime> {
    if |text| < 19 || text[4] != '-' || text[7] != '-' || text[13] != ':' || text[16] != ':'
       || (text[10] != 'T' && text[10] != 't') then None
    else
      var year :- Number(text, 0, 4);
      var month :- Number(text, 5, 7);
      var day :- Number(text, 8, 10);
      var hour :- Number(text, 11, 13);
      var minute :- Number(text, 14, 16);
      var second :- Number(text, 17, 19);
      if !Civil(year, month, day).Valid() || hour > 23 || minute > 59 || second > 59 then None
      else
        var (fraction, rest) :- ScanFraction(text[19..]);
        var zone :- ScanZone(rest);
        Some(DateTime(Civil(year, month, day), text[10], hour, minute, second, fraction, zone))
  }

  // The scanned text is the text of its fields.
  lemma ScanWrites(text: string)
    requires Scan(text).Some?
    ensures Scan(text).value.WellFormed() && Scan(text).value.Text() == text
  {
    LocalReads(text);
    RestReads(text[19..]);
    assert text == text[..19] + text[19..];
  }

  lemma LocalReads(text: string)
    requires Scan(text).Some?
    ensures var fields := Scan(text).value;
            fields.date.year <= 9_999 && fields.WellFormed() && fields.LocalText() == text[..19]
  {
    hide DaysInMonth, ScanFraction, ScanZone;
    var fields := Scan(text).value;
    NumberWrites(text, 0, 4);
    NumberWrites(text, 5, 7);
    NumberWrites(text, 8, 10);
    NumberWrites(text, 11, 13);
    NumberWrites(text, 14, 16);
    NumberWrites(text, 17, 19);
    Widths();
    ScannedFraction(text[19..]);
    ZoneReads(ScanFraction(text[19..]).value.1);
    LocalParts(text);
  }

  lemma LocalParts(text: string)
    requires |text| >= 19 && text[4] == text[7] == '-' && text[13] == text[16] == ':'
    ensures text[..19] == text[0..4] + "-" + text[5..7] + "-" + text[8..10] + [text[10]]
                          + text[11..13] + ":" + text[14..16] + ":" + text[17..19]
  {
  }

  lemma NumberWrites(text: string, start: nat, end: nat)
    requires start <= end && Number(text, start, end).Some?
    ensures Number(text, start, end).value < Pow10(end - start)
    ensures text[start..end] == Pad(Number(text, start, end).value, end - start)
  {
    PadOfValue(text[start..end]);
  }

  lemma ScannedFraction(rest: string)
    requires ScanFraction(rest).Some?
    ensures AllDigits(ScanFraction(rest).value.0)
  {
  }

  lemma ZoneReads(rest: string)
    requires ScanZone(rest).Some?
    ensures ScanZone(rest).value.WellFormed() && ScanZone(rest).value.Text() == rest
  {
    if |rest| == 6 {
      PadOfValue(rest[1..3]);
      PadOfValue(rest[4..6]);
      assert rest == [rest[0]] + rest[1..3] + ":" + rest[4..6];
    }
  }

  lemma RestReads(rest: string)
    requires ScanFraction(rest).Some? && ScanZone(ScanFraction(rest).value.1).Some?
    ensures var (fraction, zone) := ScanFraction(rest).value;
            AllDigits(fraction) && (if fraction == "" then "" else "." + fraction) + ScanZone(zone).value.Text() == rest
  {
    var (fraction, zone) := ScanFraction(rest).value;
    ZoneReads(zone);
    if rest[0] == '.' {
      assert rest == "." + rest[1..][..|fraction|] + rest[1..][|fraction|..];
    }
  }

  // Scanning the text of well-formed fields gives those fields.
  lemma WritesScan(fields: DateTime)
    requires fields.WellFormed()
    ensures Scan(fields.Text()) == Some(fields)
  {
    var text := fields.Text();
    assert text[..19] == fields.LocalText();
    assert text[19..] == fields.FractionText() + fields.zone.Text();
    LocalScans(fields, text);
    FractionScans(fields.fraction, fields.zone.Text());
    ZoneScans(fields.zone);
  }

  lemma LocalScans(fields: DateTime, text: string)
    requires fields.WellFormed() && |text| >= 19 && text[..19] == fields.LocalText()
    ensures Number(text, 0, 4) == Some(fields.date.year)
    ensures Number(text, 5, 7) == Some(fields.date.month)
    ensures Number(text, 8, 10) == Some(fields.date.day)
    ensures Number(text, 11, 13) == Some(fields.hour)
    ensures Number(text, 14, 16) == Some(fields.minute)
    ensures Number(text, 17, 19) == Some(fields.second)
    ensures text[4] == text[7] == '-' && text[13] == text[16] == ':' && text[10] == fields.separator
  {
    hide DaysInMonth;
    Widths();
    MonthLengths(fields.date);
    ValueOfPad(fields.date.year, 4);
    ValueOfPad(fields.date.month, 2);
    ValueOfPad(fields.date.day, 2);
    ValueOfPad(fields.hour, 2);
    ValueOfPad(fields.minute, 2);
    ValueOfPad(fields.second, 2);
    var local := text[..19];
    assert text[0..4] == local[0..4] == Pad(fields.date.year, 4);
    assert text[5..7] == local[5..7] == Pad(fields.date.month, 2);
    assert text[8..10] == local[8..10] == Pad(fields.date.day, 2);
    assert text[11..13] == local[11..13] == Pad(fields.hour, 2);
    assert text[14..16] == local[14..16] == Pad(fields.minute, 2);
    assert text[17..19] == local[17..19] == Pad(fields.second, 2);
    assert local[4] == local[7] == '-' && local[13] == local[16] == ':' && local[10] == fields.separator;
  }

  lemma ZoneScans(zone: Zone)
    requires zone.WellFormed()
    ensures ScanZone(zone.Text()) == Some(zone)
  {
    if zone.Offset? {
      Widths();
      ValueOfPad(zone.hour, 2);
      ValueOfPad(zone.minute, 2);
      assert zone.Text()[1..3] == Pad(zone.hour, 2);
      assert zone.Text()[4..6] == Pad(zone.minute, 2);
    }
  }

  lemma FractionScans(fraction: string, after: string)
    requires AllDigits(fraction) && after != "" && !IsDigit(after[0]) && after[0] != '.'
    ensures ScanFraction((if fraction == "" then "" else "." + fraction) + after) == Some((fraction, after))
  {
    var rest := (if fraction == "" then "" else "." + fraction) + after;
    if fraction == "" {
      assert rest == after;
    } else {
      assert rest[1..] == fraction + after;
      LeadingDigitsOf(fraction, after);
    }
  }

  lemma {:induction false} LeadingDigitsOf(digits: string, rest: string)
    requires AllDigits(digits) && rest != "" && !IsDigit(rest[0])
    ensures LeadingDigits(digits + rest) == |digits|
  {
    if digits == "" {
      assert digits + rest == rest;
    } else {
      assert (digits + rest)[1..] == digits[1..] + rest;
      LeadingDigitsOf(digits[1..], rest);
    }
  }

  // What the parser gives: the instant of the fields, unless an offset carries it out of years
  // 0000 to 9999.
  function Parse(text: string): Option<Timestamp> {
    var fields :- Scan(text);
    ScanWrites(text);
    if fields.Moment().Valid() then Some(fields.Moment()) else None
  }

  // The parser accepts exactly the texts of well-formed fields in range, and a text has at most one
  // meaning: local time minus the offset.
  lemma ParseExact(text: string, time: Timestamp)
    ensures Parse(text) == Some(time)
            <==> exists fields: DateTime :: fields.WellFormed() && fields.Text() == text && fields.Moment() == time
  {
    if Parse(text) == Some(time) {
      ScanWrites(text);
    }
    if fields: DateTime :| fields.WellFormed() && fields.Text() == text && fields.Moment() == time {
      WritesScan(fields);
    }
  }

  // The number that two digits of a text write.
  function Two(text: string, at: nat): int
    requires at + 2 <= |text|
  {
    10 * (text[at] as int - '0' as int) + (text[at + 1] as int - '0' as int)
  }

  // An offset as `+hh:mm` or `-hh:mm` writes it.
  predicate OffsetText(zone: string) {
    && |zone| == 6 && (zone[0] == '+' || zone[0] == '-') && zone[3] == ':'
    && IsDigit(zone[1]) && IsDigit(zone[2]) && IsDigit(zone[4]) && IsDigit(zone[5])
    && Two(zone, 1) <= 23 && Two(zone, 4) <= 59
  }

  lemma TwoDigits(text: string, at: nat)
    requires at + 2 <= |text| && IsDigit(text[at]) && IsDigit(text[at + 1])
    ensures 0 <= Two(text, at) < 100 && Number(text, at, at + 2) == Some(Two(text, at))
  {
    var digits := text[at..at + 2];
    assert digits[..1][..0] == "" && digits[..1][0] == text[at];
    assert Value(digits[..1]) == DigitValue(text[at]);
  }

  lemma OffsetScans(zone: string)
    requires OffsetText(zone)
    ensures var offset := Offset(zone[0], Two(zone, 1), Two(zone, 4));
            offset.WellFormed() && offset.Text() == zone
  {
    TwoDigits(zone, 1);
    TwoDigits(zone, 4);
    ZoneReads(zone);
  }

  // A text ends with the zone it is written with.
  lemma ZoneOf(local: string, zone: Zone)
    requires zone.WellFormed() && Scan(local + zone.Text()).Some?
    ensures var fields := Scan(local + zone.Text()).value;
            fields.WellFormed() && fields.zone == zone && fields.LocalText() + fields.FractionText() == local
  {
    var text := local + zone.Text();
    ScanWrites(text);
    var fields := Scan(text).value;
    var end, given := fields.zone.Text(), zone.Text();
    hide Scan, ScanZone;
    assert end[|end| - 1] == text[|text| - 1] == given[|given| - 1];
    assert |end| == |given|;
    assert end == text[|text| - |end|..] == given;
    ZoneScans(zone);
    ZoneScans(fields.zone);
    assert fields.LocalText() + fields.FractionText() == text[..|text| - |end|] == local;
  }

  lemma ZonedText(fields: DateTime, local: string, other: Zone)
    requires fields.WellFormed() && other.WellFormed() && fields.LocalText() + fields.FractionText() == local
    ensures fields.(zone := other).WellFormed() && fields.(zone := other).Text() == local + other.Text()
  {
    var zoned := fields.(zone := other);
    assert zoned.LocalText() == fields.LocalText() && zoned.FractionText() == fields.FractionText();
    Regrouped(fields.LocalText(), fields.FractionText(), other.Text());
  }

  lemma Regrouped(first: string, second: string, third: string)
    ensures first + (second + third) == first + second + third
  {
  }

  // Before its zone, a text can have any other zone too.
  lemma Rezoned(local: string, zone: Zone, other: Zone)
    requires zone.WellFormed() && other.WellFormed()
    requires Scan(local + zone.Text()).Some?
    ensures Scan(local + other.Text()) == Some(Scan(local + zone.Text()).value.(zone := other))
  {
    hide Scan, DaysInMonth;
    ZoneOf(local, zone);
    var fields := Scan(local + zone.Text()).value;
    ZonedText(fields, local, other);
    WritesScan(fields.(zone := other));
  }

  // In UTC every date-time of four year digits is in range.
  lemma UtcInRange(fields: DateTime)
    requires fields.WellFormed() && fields.zone.Utc?
    ensures fields.Moment().Valid()
  {
    YearsInRange(fields.date);
    NanosFit(fields.fraction);
    hide DaysFromDate, Nanos;
  }

  lemma ParsesAs(text: string, fields: DateTime)
    requires Scan(text) == Some(fields)
    ensures fields.WellFormed()
    ensures Parse(text) == if fields.Moment().Valid() then Some(fields.Moment()) else None
  {
    hide Scan, DaysFromDate, Nanos;
    ScanWrites(text);
  }

  lemma ShiftedMoment(fields: DateTime, utc: Zone, offset: Zone)
    requires fields.WellFormed() && fields.zone == utc && utc.Utc? && offset.Offset? && offset.WellFormed()
    ensures var seconds, utc := offset.hour * 3_600 + offset.minute * 60, fields.Moment();
            fields.(zone := offset).Moment()
            == Instant(if offset.sign == '+' then utc.seconds - seconds else utc.seconds + seconds, utc.nanos)
    ensures 0 <= fields.Moment().nanos < NANOS_PER_SECOND
  {
    hide DaysFromDate, Nanos, DaysInMonth;
    NanosFit(fields.fraction);
  }

  // With an offset for its `Z`, a text reads as the same fields with that offset.
  lemma ShiftedParse(local: string, fields: DateTime, offset: Zone)
    requires Scan(local + "Z") == Some(fields) && offset.Offset? && offset.WellFormed()
    ensures fields.WellFormed() && fields.zone == Utc('Z') && Parse(local + "Z") == Some(fields.Moment())
    ensures var moved := fields.(zone := offset);
            moved.WellFormed()
            && Parse(local + offset.Text()) == if moved.Moment().Valid() then Some(moved.Moment()) else None
  {
    var utc := Utc('Z');
    assert utc.Text() == "Z" && utc.WellFormed();
    hide *;
    ZoneOf(local, utc);
    ParsesAs(local + "Z", fields);
    UtcInRange(fields);
    Rezoned(local, utc, offset);
    ParsesAs(local + offset.Text(), fields.(zone := offset));
  }

  // Without the text in UTC there is none with an offset.
  lemma NoneShifted(local: string, offset: Zone)
    requires Scan(local + "Z").None? && offset.WellFormed()
    ensures Parse(local + "Z").None? && Parse(local + offset.Text()).None?
  {
    hide Scan;
    var utc := Utc('Z');
    assert utc.Text() == "Z";
    if Scan(local + offset.Text()).Some? {
      Rezoned(local, offset, utc);
    }
    NothingParsed(local + "Z");
    NothingParsed(local + offset.Text());
  }

  // Whether a time read with an offset is the one read in UTC, that many seconds earlier.
  predicate Earlier(read: Option<Timestamp>, utc: Option<Timestamp>, offset: int) {
    && (read.Some? <==> utc.Some? && FIRST_SECOND <= utc.value.seconds - offset < END_SECOND)
    && (read.Some? ==> read.value.seconds == utc.value.seconds - offset && read.value.nanos == utc.value.nanos)
  }

  lemma MomentEarlier(fields: DateTime, offset: Zone)
    requires fields.WellFormed() && fields.zone == Utc('Z') && offset.Offset? && offset.WellFormed()
    ensures fields.Moment().Valid()
    ensures var moment := fields.(zone := offset).Moment();
            var seconds := offset.hour * 3_600 + offset.minute * 60;
            Earlier(if moment.Valid() then Some(moment) else None, Some(fields.Moment()),
                    if offset.sign == '+' then seconds else -seconds)
  {
    UtcInRange(fields);
    ShiftedMoment(fields, fields.zone, offset);
    hide DateTime.Moment, DateTime.WellFormed;
  }

  // An offset east of UTC is taken off the local time and one west of it is added. The text is read
  // exactly when that is in range and the same text in UTC reads.
  lemma OffsetShifts(local: string, zone: string)
    requires OffsetText(zone)
    ensures var (read, utc) := (Parse(local + zone), Parse(local + "Z"));
            var seconds := Two(zone, 1) * 3_600 + Two(zone, 4) * 60;
            var offset := if zone[0] == '+' then seconds else -seconds;
            && (read.Some? <==> utc.Some? && FIRST_SECOND <= utc.value.seconds - offset < END_SECOND)
            && (read.Some? ==> read.value.seconds == utc.value.seconds - offset && read.value.nanos == utc.value.nanos)
  {
    OffsetScans(zone);
    var offset := Offset(zone[0], Two(zone, 1), Two(zone, 4));
    hide Parse, Scan, Two, DateTime.Moment, DateTime.WellFormed, Instant.Valid;
    if Scan(local + "Z").Some? {
      ShiftedParse(local, Scan(local + "Z").value, offset);
      MomentEarlier(Scan(local + "Z").value, offset);
    } else {
      NoneShifted(local, offset);
    }
  }

  lemma NothingParsed(text: string)
    ensures Scan(text).None? ==> Parse(text).None?
  {
    hide Scan;
  }

  // The shape of a local date and time without a fraction.
  predicate LocalShape(local: string) {
    && |local| == 19 && local[4] == local[7] == '-' && local[13] == local[16] == ':'
    && (local[10] == 'T' || local[10] == 't')
    && AllDigits(local[0..4]) && AllDigits(local[5..7]) && AllDigits(local[8..10])
    && AllDigits(local[11..13]) && AllDigits(local[14..16]) && AllDigits(local[17..19])
  }

  // The fields that the digits of a local text write.
  lemma UtcScans(local: string)
    requires |local| == 19
    ensures var date := Civil(100 * Two(local, 0) + Two(local, 2), Two(local, 5), Two(local, 8));
            Scan(local + "Z")
            == if LocalShape(local) && date.Valid() && 0 <= Two(local, 11) <= 23 && 0 <= Two(local, 14) <= 59
                  && 0 <= Two(local, 17) <= 59
               then Some(DateTime(date, local[10], Two(local, 11), Two(local, 14), Two(local, 17), "", Utc('Z')))
               else None
  {
    hide DaysInMonth;
    var text := local + "Z";
    assert text[19..] == "Z";
    assert ScanFraction("Z") == Some(("", "Z")) && ScanZone("Z") == Some(Utc('Z'));
    FirstFour(local, text);
    SamePair(local, text, 5);
    SamePair(local, text, 8);
    SamePair(local, text, 11);
    SamePair(local, text, 14);
    SamePair(local, text, 17);
    hide Number, AllDigits, Two, ScanFraction, ScanZone;
  }

  // In UTC and without a fraction, the text's digits are year, month, day, hour, minute and second.
  lemma UtcTextReads(local: string)
    requires |local| == 19
    ensures var date := Civil(100 * Two(local, 0) + Two(local, 2), Two(local, 5), Two(local, 8));
            var (hour, minute, second) := (Two(local, 11), Two(local, 14), Two(local, 17));
            var read := Parse(local + "Z");
            && (read.Some? <==> LocalShape(local) && date.Valid() && hour <= 23 && minute <= 59 && second <= 59)
            && (read.Some? ==> read.value.nanos == 0
                               && read.value.seconds
                                  == DaysFromDate(date) * 86_400 + hour * 3_600 + minute * 60 + second)
  {
    UtcScans(local);
    if LocalShape(local) {
      NotNegative(local);
    }
    WholeSecond(local + "Z");
    hide Scan, Parse, LocalShape, Two, DaysFromDate, DaysInMonth, Nanos;
  }

  lemma NotNegative(local: string)
    requires LocalShape(local)
    ensures Two(local, 11) >= 0 && Two(local, 14) >= 0 && Two(local, 17) >= 0
  {
    SamePair(local, local, 11);
    SamePair(local, local, 14);
    SamePair(local, local, 17);
  }

  // What a text in UTC without a fraction parses as.
  lemma WholeSecond(text: string)
    ensures Parse(text).Some? ==> Scan(text).Some?
    ensures Scan(text).Some? && Scan(text).value.zone == Utc('Z') && Scan(text).value.fraction == "" ==>
              var DateTime(date, _, hour, minute, second, _, _) := Scan(text).value;
              && Parse(text).Some? && Parse(text).value.nanos == 0
              && Parse(text).value.seconds == DaysFromDate(date) * 86_400 + hour * 3_600 + minute * 60 + second
  {
    NothingParsed(text);
    NoFraction();
    hide Scan, Parse, DaysFromDate, Nanos;
    if Scan(text).Some? && Scan(text).value.zone == Utc('Z') {
      ParsesAs(text, Scan(text).value);
      UtcInRange(Scan(text).value);
    }
  }

  // A fraction adds its first nine digits as nanoseconds, those it lacks counting as zeros.
  lemma FractionReads(local: string, digits: string)
    requires |local| == 19 && digits != "" && AllDigits(digits)
    ensures var (read, whole) := (Parse(local + "." + digits + "Z"), Parse(local + "Z"));
            var nine := (digits + "000000000")[..9];
            && AllDigits(nine) && (read.Some? <==> whole.Some?)
            && (read.Some? ==> read.value.seconds == whole.value.seconds && read.value.nanos == Value(nine))
  {
    FirstNine(digits);
    FractionParses(local, digits);
    hide *;
  }

  lemma FirstNine(digits: string)
    requires AllDigits(digits)
    ensures (digits + "000000000")[..9] == NineDigits(digits) && Nanos(digits) == Value(NineDigits(digits))
  {
    var nine := (digits + "000000000")[..9];
    if |digits| < 9 {
      assert forall i | |digits| <= i < 9 :: nine[i] == '0';
    }
    hide Value;
  }

  lemma FractionParses(local: string, digits: string)
    requires |local| == 19 && digits != "" && AllDigits(digits)
    ensures var (read, whole) := (Parse(local + "." + digits + "Z"), Parse(local + "Z"));
            && (read.Some? <==> whole.Some?)
            && (read.Some? ==> read.value.seconds == whole.value.seconds && read.value.nanos == Nanos(digits))
  {
    var whole, text := local + "Z", local + "." + digits + "Z";
    NothingParsed(whole);
    NothingParsed(text);
    if Scan(whole).Some? {
      FractionAdded(local, digits);
      ParsesAs(whole, Scan(whole).value);
      ParsesAs(text, Scan(text).value);
      UtcInRange(Scan(whole).value);
      UtcInRange(Scan(text).value);
    } else if Scan(text).Some? {
      FractionDropped(local, digits);
    }
    hide Parse, Scan, DateTime.WellFormed, DaysFromDate, Nanos, AllDigits;
  }

  lemma FractionAdded(local: string, digits: string)
    requires |local| == 19 && digits != "" && AllDigits(digits) && Scan(local + "Z").Some?
    ensures Scan(local + "." + digits + "Z") == Some(Scan(local + "Z").value.(fraction := digits))
    ensures Scan(local + "Z").value.zone == Utc('Z')
  {
    hide Scan, DaysInMonth;
    ZoneOf(local, Utc('Z'));
    var fields := Scan(local + "Z").value;
    var divided := fields.(fraction := digits);
    assert fields.LocalText() == local[..19] == local;
    assert divided.LocalText() == local;
    Regrouped(local, "." + digits, "Z");
    Regrouped(local, ".", digits);
    WritesScan(divided);
  }

  lemma FractionDropped(local: string, digits: string)
    requires |local| == 19 && Scan(local + "." + digits + "Z").Some?
    ensures Scan(local + "Z").Some?
  {
    hide Scan, DaysInMonth;
    ZoneOf(local + "." + digits, Utc('Z'));
    var fields := Scan(local + "." + digits + "Z").value;
    var whole := fields.(fraction := "");
    assert fields.LocalText() == (local + "." + digits)[..19] == local;
    assert whole.LocalText() == local;
    assert whole.Text() == local + "Z";
    WritesScan(whole);
  }

  lemma FirstFour(local: string, text: string)
    requires |local| >= 4 && local <= text
    ensures if AllDigits(local[0..4]) then Number(text, 0, 4) == Some(100 * Two(local, 0) + Two(local, 2))
            else Number(text, 0, 4).None?
  {
    assert text[0..4] == local[0..4];
    if AllDigits(local[0..4]) {
      assert forall i | 0 <= i < 4 :: local[0..4][i] == text[i];
      FourDigits(text, 0);
    }
  }

  lemma SamePair(local: string, text: string, at: nat)
    requires at + 2 <= |local| && local <= text
    ensures if AllDigits(local[at..at + 2]) then Number(text, at, at + 2) == Some(Two(local, at))
            else Number(text, at, at + 2).None?
    ensures AllDigits(local[at..at + 2]) ==> Two(local, at) >= 0
  {
    assert text[at..at + 2] == local[at..at + 2];
    if AllDigits(local[at..at + 2]) {
      assert local[at..at + 2][0] == text[at] && local[at..at + 2][1] == text[at + 1];
      TwoDigits(text, at);
    }
  }

  lemma FourDigits(text: string, at: nat)
    requires at + 4 <= |text| && forall i | at <= i < at + 4 :: IsDigit(text[i])
    ensures Number(text, at, at + 4) == Some(100 * Two(text, at) + Two(text, at + 2))
  {
    TwoDigits(text, at);
    var digits := text[at..at + 4];
    assert digits[..3][..2] == text[at..at + 2] && digits[..3][2] == text[at + 2] && digits[3] == text[at + 3];
    assert Value(digits[..3]) == 10 * Value(text[at..at + 2]) + DigitValue(text[at + 2]);
  }

  // Walks over a fraction: its nanoseconds and what follows it.
  method ReadFraction(text: string) returns (read: Option<(nat, string)>)
    ensures read.Some? <==> ScanFraction(text).Some?
    ensures read.Some? ==> AllDigits(ScanFraction(text).value.0)
                           && read.value == (Nanos(ScanFraction(text).value.0), ScanFraction(text).value.1)
  {
    if text == "" || text[0] != '.' {
      NoFraction();
      return Some((0, text));
    }
    var fraction := text[1..];
    var length := CountDigits(fraction);
    if length == 0 {
      return None;
    }
    var nanos := ReadNanos(fraction[..length]);
    return Some((nanos, fraction[length..]));
  }

  method CountDigits(text: string) returns (length: nat)
    ensures length == LeadingDigits(text)
  {
    length := 0;
    while length < |text| && IsDigit(text[length])
      invariant length <= |text|
      invariant LeadingDigits(text) == length + LeadingDigits(text[length..])
    {
      assert text[length..][1..] == text[length + 1..];
      length := length + 1;
    }
  }

  // The first nine digits of a fraction are its nanoseconds; those it lacks count as zeros.
  method ReadNanos(fraction: string) returns (nanos: nat)
    requires AllDigits(fraction)
    ensures nanos == Nanos(fraction)
  {
    ghost var digits := NineDigits(fraction);
    nanos := 0;
    for place := 0 to 9
      invariant nanos == Value(digits[..place])
    {
      var digit := if place < |fraction| then DigitValue(fraction[place]) else 0;
      assert digits[..place + 1][..place] == digits[..place];
      nanos := nanos * 10 + digit;
    }
    assert digits[..9] == digits;
  }

  // Reads the offset that ends the text, in seconds.
  method ReadOffset(rest: string) returns (offset: Option<int>)
    ensures offset.Some? <==> ScanZone(rest).Some?
    ensures offset.Some? ==> offset.value == ScanZone(rest).value.Seconds()
  {
    if |rest| == 1 && (rest[0] == 'Z' || rest[0] == 'z') {
      return Some(0);
    }
    if |rest| == 6 && (rest[0] == '+' || rest[0] == '-') && rest[3] == ':' {
      var hour := Number(rest, 1, 3);
      var minute := Number(rest, 4, 6);
      if hour.None? || minute.None? || hour.value > 23 || minute.value > 59 {
        return None;
      }
      var seconds: int := hour.value * 3_600 + minute.value * 60;
      return Some(if rest[0] == '-' then -seconds else seconds);
    }
    return None;
  }

  // The parser itself, as it walks the text.
  method ParseText(text: string) returns (time: Option<Timestamp>)
    ensures time == Parse(text)
  {
    hide DaysFromDate, DaysInMonth, ScanFraction, ScanZone, Nanos;
    if |text| <= 16 || text[4] != '-' || text[7] != '-' || text[13] != ':' || text[16] != ':'
       || (text[10] != 'T' && text[10] != 't') {
      return None;
    }
    var year := Number(text, 0, 4);
    var month := Number(text, 5, 7);
    var day := Number(text, 8, 10);
    var hour := Number(text, 11, 13);
    var minute := Number(text, 14, 16);
    var second := Number(text, 17, 19);
    if year.None? || month.None? || day.None? || hour.None? || minute.None? || second.None? {
      return None;
    }
    var date := Civil(year.value, month.value, day.value);
    if !date.Valid() || hour.value > 23 || minute.value > 59 || second.value > 59 {
      return None;
    }
    var fraction := ReadFraction(text[19..]);
    if fraction.None? {
      return None;
    }
    var (nanos, rest) := fraction.value;
    var offset := ReadOffset(rest);
    if offset.None? {
      return None;
    }
    var seconds := DaysFromDate(date) * SECONDS_PER_DAY
      + (hour.value * 3_600 + minute.value * 60 + second.value) - offset.value;
    NanosFit(ScanFraction(text[19..]).value.0);
    if FIRST_SECOND <= seconds < END_SECOND {
      return Some(Instant(seconds, nanos));
    }
    return None;
  }

  lemma NanosFit(fraction: string)
    requires AllDigits(fraction)
    ensures Nanos(fraction) < NANOS_PER_SECOND
  {
    PadOfValue(NineDigits(fraction));
    Widths();
  }

  lemma NoFraction()
    ensures Nanos("") == 0
  {
    assert "" + Zeros(9) == Zeros(9);
    ZerosAreZero(9);
  }

  lemma {:induction false} ZerosAreZero(count: nat)
    ensures Value(Zeros(count)) == 0
  {
    if count > 0 {
      ZerosAreZero(count - 1);
      assert Zeros(count)[..count - 1] == Zeros(count - 1);
    }
  }

  // How a time is written: in UTC, its fraction without trailing zeros.
  function Fields(time: Timestamp): DateTime {
    var secondOfDay := time.seconds % SECONDS_PER_DAY;
    DateTime(
      DateFromDays(time.seconds / SECONDS_PER_DAY), 'T',
      secondOfDay / 3_600, secondOfDay / 60 % 60, secondOfDay % 60,
      if time.nanos == 0 then "" else TrimZeros(Pad(time.nanos, 9)), Utc('Z'))
  }

  lemma FieldsOf(time: Timestamp)
    ensures Fields(time).WellFormed() && Fields(time).Moment() == time
  {
    hide DaysFromDate, DateFromDays, DaysInMonth;
    var days, secondOfDay := time.seconds / SECONDS_PER_DAY, time.seconds % SECONDS_PER_DAY;
    assert FIRST_DAY <= days <= LAST_DAY;
    DaysRoundTrip(days);
    YearsInRange(DateFromDays(days));
    assert secondOfDay / 3_600 * 3_600 + secondOfDay / 60 % 60 * 60 + secondOfDay % 60 == secondOfDay;
    FractionOf(time.nanos);
  }

  lemma FractionOf(nanos: int)
    requires 0 <= nanos < NANOS_PER_SECOND
    ensures var fraction := if nanos == 0 then "" else TrimZeros(Pad(nanos, 9));
            AllDigits(fraction) && Nanos(fraction) == nanos
  {
    if nanos == 0 {
      NoFraction();
    } else {
      Widths();
      ValueOfPad(nanos, 9);
      TrimmedZeros(Pad(nanos, 9));
      assert TrimZeros(Pad(nanos, 9)) + Zeros(0) == TrimZeros(Pad(nanos, 9));
    }
  }

  // A time as RFC 3339 writes it.
  function Display(time: Timestamp): string {
    FieldsOf(time);
    Fields(time).Text()
  }

  // Parsing what a time is written as gives that time, for all of them.
  lemma TimeRoundTrip(time: Timestamp)
    ensures Parse(Display(time)) == Some(time)
  {
    FieldsOf(time);
    WritesScan(Fields(time));
  }

  // A time's text is in UTC, begins with its date, and is only as long as it needs to be: at most nine
  // digits of a fraction, none of them a zero at its end.
  lemma DisplayShape(time: Timestamp)
    ensures var text := Display(time);
            var last := |text| - 1;
            && 19 <= last <= 29 && text[..10] == DisplayDate(time.Date()) && text[10] == 'T' && text[last] == 'Z'
            && (last == 19 <==> time.nanos == 0)
            && (last > 19 ==> text[19] == '.' && last >= 21 && text[last - 1] != '0')
  {
    ShortestFraction(time);
    FieldsOf(time);
    var fields := Fields(time);
    assert fields.separator == 'T' && fields.zone == Utc('Z');
    TextShape(fields);
    assert fields.LocalText()[..10] == DisplayDate(time.Date());
    hide Fields, DateTime.WellFormed, DateTime.Text, DateTime.LocalText, Pad, DisplayDate;
  }

  lemma TextShape(fields: DateTime)
    requires fields.WellFormed() && fields.zone == Utc('Z')
    ensures var text, fraction := fields.Text(), fields.fraction;
            var last := |text| - 1;
            && last == (if fraction == "" then 19 else 20 + |fraction|)
            && text[..10] == fields.LocalText()[..10] && text[10] == fields.separator && text[last] == 'Z'
            && (fraction != "" ==> text[19] == '.' && text[last - 1] == fraction[|fraction| - 1])
  {
    var local, rest := fields.LocalText(), fields.FractionText() + "Z";
    assert local[10] == fields.separator;
    assert fields.Text() == local + rest;
    hide DateTime.LocalText, DateTime.Text, Pad;
    assert forall i | 0 <= i < |rest| :: (local + rest)[19 + i] == rest[i];
    if fields.fraction != "" {
      assert rest == "." + fields.fraction + "Z";
    }
  }

  lemma ShortestFraction(time: Timestamp)
    ensures var fraction := Fields(time).fraction;
            && |fraction| <= 9
            && (fraction == "" <==> time.nanos == 0)
            && (fraction != "" ==> fraction[|fraction| - 1] != '0')
  {
    if time.nanos != 0 {
      var digits := Pad(time.nanos, 9);
      Widths();
      ValueOfPad(time.nanos, 9);
      if TrimZeros(digits) == "" {
        TrimsToNothing(digits);
      }
      NoZeroAtTheEnd(digits);
    }
  }

  lemma {:induction false} NoZeroAtTheEnd(text: string)
    ensures var trimmed := TrimZeros(text); trimmed != "" ==> trimmed[|trimmed| - 1] != '0'
  {
    if text != "" && text[|text| - 1] == '0' {
      NoZeroAtTheEnd(text[..|text| - 1]);
    }
  }

  // A date as YYYY-MM-DD.
  function DisplayDate(date: Date): string {
    var civil := DateFromDays(date);
    DaysRoundTrip(date);
    YearsInRange(civil);
    Pad(civil.year, 4) + "-" + Pad(civil.month, 2) + "-" + Pad(civil.day, 2)
  }

  function ParseDate(text: string): Option<Date> {
    if |text| == 10 && text[4] == '-' && text[7] == '-' then
      var year :- Number(text, 0, 4);
      var month :- Number(text, 5, 7);
      var day :- Number(text, 8, 10);
      New(year, month, day)
    else None
  }

  // The digits of a date's text are its year, month and day.
  lemma DateTextDigits(date: Date)
    ensures var text := DisplayDate(date);
            && |text| == 10 && text[4] == text[7] == '-'
            && (forall i | 0 <= i < 10 && i != 4 && i != 7 :: IsDigit(text[i]))
            && DateFromDays(date) == Civil(100 * Two(text, 0) + Two(text, 2), Two(text, 5), Two(text, 8))
  {
    hide DateFromDays, DaysFromDate, DaysInMonth, IsDigit, Two;
    Widths();
    var civil, text := DateFromDays(date), DisplayDate(date);
    DaysRoundTrip(date);
    YearsInRange(civil);
    MonthLengths(civil);
    ValueOfPad(civil.year, 4);
    ValueOfPad(civil.month, 2);
    ValueOfPad(civil.day, 2);
    var year, month, day := Pad(civil.year, 4), Pad(civil.month, 2), Pad(civil.day, 2);
    assert text[0..4] == year && text[5..7] == month && text[8..10] == day;
    assert forall i | 0 <= i < 4 :: text[i] == year[i];
    assert text[5] == month[0] && text[6] == month[1] && text[8] == day[0] && text[9] == day[1];
    hide Pad;
    FourDigits(text, 0);
    TwoDigits(text, 5);
    TwoDigits(text, 8);
  }

  // The texts accepted are exactly those that dates are written as, and each gives the date that is
  // written so.
  lemma DateTextExact(text: string, date: Date)
    ensures ParseDate(text) == Some(date) <==> text == DisplayDate(date)
  {
    if text == DisplayDate(date) {
      DateReads(date);
    }
    if ParseDate(text) == Some(date) {
      DateWrites(text);
    }
  }

  lemma DateReads(date: Date)
    ensures ParseDate(DisplayDate(date)) == Some(date)
  {
    hide DateFromDays, DaysFromDate, DaysInMonth, IsDigit, AllDigits;
    Widths();
    var civil, text := DateFromDays(date), DisplayDate(date);
    DaysRoundTrip(date);
    YearsInRange(civil);
    MonthLengths(civil);
    assert text[0..4] == Pad(civil.year, 4) && text[5..7] == Pad(civil.month, 2) && text[8..10] == Pad(civil.day, 2);
    assert |text| == 10 && text[4] == text[7] == '-';
    hide Pad, DisplayDate, Pow10, Number;
    PadReads(text, 0, 4, civil.year);
    PadReads(text, 5, 7, civil.month);
    PadReads(text, 8, 10, civil.day);
  }

  lemma PadReads(text: string, start: nat, end: nat, number: nat)
    requires start <= end <= |text| && text[start..end] == Pad(number, end - start) && number < Pow10(end - start)
    ensures Number(text, start, end) == Some(number)
  {
    ValueOfPad(number, end - start);
  }

  lemma DateWrites(text: string)
    requires ParseDate(text).Some?
    ensures DisplayDate(ParseDate(text).value) == text
  {
    hide DateFromDays, DaysFromDate, DaysInMonth, Dates.New;
    PadOfValue(text[0..4]);
    PadOfValue(text[5..7]);
    PadOfValue(text[8..10]);
    NewReads(Value(text[0..4]), Value(text[5..7]), Value(text[8..10]));
    assert text == text[0..4] + "-" + text[5..7] + "-" + text[8..10];
  }
}
