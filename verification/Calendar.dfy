/** The proleptic Gregorian calendar of the envelope's time, after Howard Hinnant's day algorithms.

The two conversions are shown to be mutual inverses, and to agree with a calendar that only knows
the length of each month and steps one day at a time. */
module Calendar {

  datatype Civil = Civil(year: int, month: int, day: int) {
    // A day that exists in the proleptic Gregorian calendar.
    predicate Valid() {
      1 <= month <= 12 && 1 <= day <= DaysInMonth(year, month)
    }

    // Calendar order: by year, then month, then day.
    predicate Before(other: Civil) {
      || year < other.year
      || (year == other.year && month < other.month)
      || (year == other.year && month == other.month && day < other.day)
    }
  }

  predicate Leap(year: int) {
    year % 4 == 0 && (year % 100 != 0 || year % 400 == 0)
  }

  function DaysInMonth(year: int, month: int): int {
    if month == 2 then (if Leap(year) then 29 else 28)
    else if month == 4 || month == 6 || month == 9 || month == 11 then 30
    else 31
  }

  // The civil date of a day number. All divisions round towards minus infinity, as `div_euclid` does for
  // these divisors.
  function DateFromDays(days: int): Civil {
    var shifted := days + 719_468;
    DateInEra(shifted / 146_097, shifted % 146_097)
  }

  // The date of a day of a 400-year era. An era's years start in March.
  function DateInEra(era: int, dayOfEra: int): Civil {
    var yearOfEra := (dayOfEra - dayOfEra / 1_460 + dayOfEra / 36_524 - dayOfEra / 146_096) / 365;
    var dayOfYear := dayOfEra - (365 * yearOfEra + yearOfEra / 4 - yearOfEra / 100);
    DateInYear(yearOfEra + era * 400, dayOfYear)
  }

  // The date of a day of a year that starts in March.
  function DateInYear(marchYear: int, dayOfYear: int): Civil {
    var monthFromMarch := (5 * dayOfYear + 2) / 153;
    var day := dayOfYear - (153 * monthFromMarch + 2) / 5 + 1;
    var month := if monthFromMarch < 10 then monthFromMarch + 3 else monthFromMarch - 9;
    Civil(marchYear + (if month <= 2 then 1 else 0), month, day)
  }

  // The year a date falls in when years start in March, and its day of that year.
  function MarchYear(date: Civil): int {
    date.year - (if date.month <= 2 then 1 else 0)
  }

  function DayOfYear(date: Civil): int {
    (153 * ((date.month + 9) % 12) + 2) / 5 + date.day - 1
  }

  // A date to days since 1970-01-01.
  function DaysFromDate(date: Civil): int {
    var era := MarchYear(date) / 400;
    var yearOfEra := MarchYear(date) % 400;
    var dayOfEra := yearOfEra * 365 + yearOfEra / 4 - yearOfEra / 100 + DayOfYear(date);
    era * 146_097 + dayOfEra - 719_468
  }

  // The reference: the next day as month lengths give it.
  function NextDay(date: Civil): Civil {
    if date.day < DaysInMonth(date.year, date.month) then date.(day := date.day + 1)
    else if date.month < 12 then Civil(date.year, date.month + 1, 1)
    else Civil(date.year + 1, 1, 1)
  }

  function PreviousDay(date: Civil): Civil {
    if date.day > 1 then date.(day := date.day - 1)
    else if date.month > 1 then Civil(date.year, date.month - 1, DaysInMonth(date.year, date.month - 1))
    else Civil(date.year - 1, 12, 31)
  }

  // The reference calendar: start at 1970-01-01 and step one day at a time, in either direction.
  function Counted(days: int): Civil
    decreases if days < 0 then -days else days
  {
    if days == 0 then Civil(1970, 1, 1)
    else if days > 0 then NextDay(Counted(days - 1))
    else PreviousDay(Counted(days + 1))
  }

  // Finds the year of an era from a day of it: the heart of Hinnant's algorithm. The year is split
  // into its century, its four-year cycle and its year within the cycle.
  lemma YearOfEra(century: int, cycle: int, year: int, dayOfYear: int)
    requires 0 <= century < 4 && 0 <= cycle < 25 && 0 <= year < 4
    requires 0 <= dayOfYear <= 365
    requires dayOfYear == 365 ==> year == 3 && (cycle < 24 || century == 3)
    ensures var dayOfEra := 36_524 * century + 1_461 * cycle + 365 * year + dayOfYear;
            && 0 <= dayOfEra < 146_097
            && (dayOfEra - dayOfEra / 1_460 + dayOfEra / 36_524 - dayOfEra / 146_096) / 365
               == 100 * century + 4 * cycle + year
  {
    var dayOfCycle := 365 * year + dayOfYear;
    var dayOfEra := 36_524 * century + 1_461 * cycle + dayOfCycle;
    var extra := if 24 * century + cycle + dayOfCycle >= 1_460 then 1 else 0;
    assert dayOfEra / 1_460 == 25 * century + cycle + extra;
    assert dayOfEra / 36_524 - dayOfEra / 146_096 == century;
    assert (dayOfCycle - extra) / 365 == year;
  }

  // The month and day from a day of a year that starts in March.
  lemma DateInYearRoundTrip(date: Civil)
    requires date.Valid()
    ensures 0 <= DayOfYear(date) <= 365
    ensures DayOfYear(date) == 365 ==> Leap(MarchYear(date) + 1)
    ensures DateInYear(MarchYear(date), DayOfYear(date)) == date
  {
    assert date.day <= 31;
    assert (5 * DayOfYear(date) + 2) / 153 == (date.month + 9) % 12;
  }

  // The days before a year that starts in March, by the leap-year rule over all years.
  function YearStart(year: int): int {
    365 * year + year / 4 - year / 100 + year / 400
  }

  // Eras and years of an era add up to the leap-year rule over all years.
  lemma EraStart(year: int)
    ensures (year / 400) * 146_097 + (year % 400) * 365 + (year % 400) / 4 - (year % 400) / 100
            == YearStart(year)
  {
    var era, yearOfEra := year / 400, year % 400;
    assert year / 4 == 100 * era + yearOfEra / 4;
    assert year / 100 == 4 * era + yearOfEra / 100;
  }

  // Splits a year of an era into its century, its four-year cycle and its year within the cycle.
  lemma SplitYear(yearOfEra: int) returns (century: int, cycle: int, rest: int)
    requires 0 <= yearOfEra < 400
    ensures 0 <= century < 4 && 0 <= cycle < 25 && 0 <= rest < 4
    ensures yearOfEra == 100 * century + 4 * cycle + rest
    ensures yearOfEra / 4 == 25 * century + cycle && yearOfEra / 100 == century
    ensures century == yearOfEra / 100 && cycle == yearOfEra % 100 / 4 && rest == yearOfEra % 4
  {
    century, cycle, rest := yearOfEra / 100, yearOfEra % 100 / 4, yearOfEra % 4;
  }

  lemma DateOfYearOfEra(era: int, yearOfEra: int, dayOfYear: int)
    requires var dayOfEra := yearOfEra * 365 + yearOfEra / 4 - yearOfEra / 100 + dayOfYear;
             (dayOfEra - dayOfEra / 1_460 + dayOfEra / 36_524 - dayOfEra / 146_096) / 365 == yearOfEra
    ensures DateInEra(era, yearOfEra * 365 + yearOfEra / 4 - yearOfEra / 100 + dayOfYear)
            == DateInYear(yearOfEra + era * 400, dayOfYear)
  {
    hide DateInYear;
  }

  // Finds the year and the day of the year again, whatever the era.
  lemma DateInEraRoundTrip(year: int, dayOfYear: int)
    requires 0 <= dayOfYear <= 365 && (dayOfYear == 365 ==> Leap(year + 1))
    ensures var dayOfEra := (year % 400) * 365 + (year % 400) / 4 - (year % 400) / 100 + dayOfYear;
            && 0 <= dayOfEra < 146_097
            && DateInEra(year / 400, dayOfEra) == DateInYear(year, dayOfYear)
  {
    var century, cycle, rest := SplitYear(year % 400);
    if dayOfYear == 365 {
      LeapYearOfEra(year);
    }
    YearOfEra(century, cycle, rest, dayOfYear);
    DateOfYearOfEra(year / 400, year % 400, dayOfYear);
  }

  // Reading a date's day number back gives the date.
  lemma DateRoundTrip(date: Civil)
    requires date.Valid()
    ensures DateFromDays(DaysFromDate(date)) == date
  {
    hide DateInEra, DateInYear, DayOfYear, MarchYear, DaysInMonth;
    DateInYearRoundTrip(date);
    DateInEraRoundTrip(MarchYear(date), DayOfYear(date));
  }

  // A leap February closes the last year of a cycle, but not of the first three centuries.
  lemma LeapYearOfEra(year: int)
    requires Leap(year + 1)
    ensures year % 400 % 4 == 3 && (year % 400 % 100 / 4 < 24 || year % 400 / 100 == 3)
  {
  }

  // The day number of a date, with the year that starts in March written out.
  lemma DayNumber(date: Civil)
    ensures DaysFromDate(date) == YearStart(MarchYear(date)) + DayOfYear(date) - 719_468
  {
    EraStart(MarchYear(date));
  }

  // A year is a day longer when the February that closes it is.
  lemma YearLength(year: int)
    ensures YearStart(year) == YearStart(year - 1) + (if Leap(year) then 366 else 365)
  {
    assert year / 4 - (year - 1) / 4 == (if year % 4 == 0 then 1 else 0);
    assert year / 100 - (year - 1) / 100 == (if year % 100 == 0 then 1 else 0);
    assert year / 400 - (year - 1) / 400 == (if year % 400 == 0 then 1 else 0);
  }

  // From one day to the next, the day of the year moves up by one, or a new year starts in March.
  lemma NextDayOfYear(date: Civil)
    requires date.Valid()
    ensures var next := NextDay(date);
            if date.month == 2 && next.month == 3
            then MarchYear(next) == MarchYear(date) + 1 == date.year && DayOfYear(next) == 0
              && DayOfYear(date) == (if Leap(date.year) then 365 else 364)
            else MarchYear(next) == MarchYear(date) && DayOfYear(next) == DayOfYear(date) + 1
  {
  }

  // One day later is one number higher, and later in the calendar's order.
  lemma NextDayNumber(date: Civil)
    requires date.Valid()
    ensures NextDay(date).Valid() && date.Before(NextDay(date))
    ensures DaysFromDate(NextDay(date)) == DaysFromDate(date) + 1
  {
    NextDayOfYear(date);
    DayNumber(date);
    DayNumber(NextDay(date));
    YearLength(date.year);
  }

  lemma PreviousDayNumber(date: Civil)
    requires date.Valid()
    ensures PreviousDay(date).Valid() && NextDay(PreviousDay(date)) == date
    ensures DaysFromDate(PreviousDay(date)) == DaysFromDate(date) - 1
  {
    NextDayNumber(PreviousDay(date));
  }

  lemma Epoch()
    ensures Civil(1970, 1, 1).Valid() && DaysFromDate(Civil(1970, 1, 1)) == 0
  {
  }

  // The fast conversion gives the date that counting day by day gives, which exists, and going
  // back gives the day number: with `DateRoundTrip` the two conversions are mutual inverses.
  lemma {:induction false} DaysRoundTrip(days: int)
    ensures DateFromDays(days) == Counted(days)
    ensures DateFromDays(days).Valid()
    ensures DaysFromDate(DateFromDays(days)) == days
    decreases if days < 0 then -days else days
  {
    hide DateFromDays, DaysFromDate, NextDay, PreviousDay, DaysInMonth;
    if days == 0 {
      Epoch();
    } else if days > 0 {
      DaysRoundTrip(days - 1);
      NextDayNumber(Counted(days - 1));
    } else {
      DaysRoundTrip(days + 1);
      PreviousDayNumber(Counted(days + 1));
    }
    DateRoundTrip(Counted(days));
  }

  // The next day number is the next calendar day.
  lemma NextDayDate(days: int)
    ensures DateFromDays(days + 1) == NextDay(DateFromDays(days))
  {
    hide *;
    DaysRoundTrip(days);
    NextDayNumber(DateFromDays(days));
    DateRoundTrip(NextDay(DateFromDays(days)));
  }

  // A higher day number is a later date.
  lemma {:induction false} LaterDays(first: int, second: int)
    requires first < second
    ensures DateFromDays(first).Before(DateFromDays(second))
    decreases second - first
  {
    hide DateFromDays, NextDay, DaysFromDate;
    DaysRoundTrip(second - 1);
    NextDayDate(second - 1);
    NextDayNumber(DateFromDays(second - 1));
    if first < second - 1 {
      LaterDays(first, second - 1);
    }
  }

  // Day numbers and dates are in the same order.
  lemma SameOrder(first: Civil, second: Civil)
    requires first.Valid() && second.Valid()
    ensures first.Before(second) <==> DaysFromDate(first) < DaysFromDate(second)
  {
    hide DaysFromDate, DateFromDays;
    DateRoundTrip(first);
    DateRoundTrip(second);
    if DaysFromDate(first) < DaysFromDate(second) {
      LaterDays(DaysFromDate(first), DaysFromDate(second));
    } else if DaysFromDate(second) < DaysFromDate(first) {
      LaterDays(DaysFromDate(second), DaysFromDate(first));
    }
  }
}
