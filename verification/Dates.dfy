/** The days a partition is bounded by, and the intervals that cut the calendar into partitions.

A date is its number of days since 1970-01-01, kept within the years 0000 to 9999 that RFC 3339 can
write. Every move is clamped to that range, so intervals tile the calendar only away from its ends:
`TilesExactly` says where. */
module Dates {
  import opened Calendar
  import opened Options

  const SECONDS_PER_DAY := 86_400
  const FIRST_SECOND := -62_167_219_200
  const END_SECOND := 253_402_300_800
  const FIRST_DAY := -719_528
  const LAST_DAY := 2_932_896

  type Date = days: int | FIRST_DAY <= days <= LAST_DAY

  // The nearest date there is to a day number.
  function FromDays(days: int): Date {
    if days < FIRST_DAY then FIRST_DAY else if days > LAST_DAY then LAST_DAY else days
  }

  // Makes a date of three numbers, if the calendar has that day and it can be written.
  function New(year: nat, month: nat, day: nat): Option<Date> {
    var date := Civil(year, month, day);
    if year <= 9_999 && date.Valid() then
      YearsInRange(date);
      Some(DaysFromDate(date))
    else None
  }

  function AddDays(date: Date, days: int): Date {
    FromDays(date + days)
  }

  // The Monday of the date's ISO 8601 week: day number 0 is a Thursday.
  function Monday(date: Date): Date {
    FromDays(date - (date + 3) % 7)
  }

  function FirstOfMonth(date: Date): Date {
    var civil := DateFromDays(date);
    FromDays(DaysFromDate(Civil(civil.year, civil.month, 1)))
  }

  function FirstOfNextMonth(date: Date): Date {
    var civil := DateFromDays(date);
    FromDays(DaysFromDate(NextMonth(civil.year, civil.month)))
  }

  function NextMonth(year: int, month: int): Civil {
    if month == 12 then Civil(year + 1, 1, 1) else Civil(year, month + 1, 1)
  }

  // The range of day numbers is exactly the years RFC 3339 can write.
  lemma YearsInRange(date: Civil)
    requires date.Valid()
    ensures FIRST_DAY <= DaysFromDate(date) <= LAST_DAY <==> 0 <= date.year <= 9_999
  {
    hide DaysFromDate, DaysInMonth;
    Ends();
    assert Civil(0, 1, 1).Valid() && Civil(9_999, 12, 31).Valid() by {
      EndsExist();
    }
    SameOrder(date, Civil(0, 1, 1));
    SameOrder(Civil(9_999, 12, 31), date);
    assert date.day <= 31 by {
      MonthLengths(date);
    }
  }

  lemma EndsExist()
    ensures Civil(0, 1, 1).Valid() && Civil(9_999, 12, 31).Valid()
  {
  }

  lemma MonthLengths(date: Civil)
    requires date.Valid()
    ensures date.day <= 31
  {
  }

  lemma FirstEnd()
    ensures DaysFromDate(Civil(0, 1, 1)) == FIRST_DAY
  {
  }

  lemma LastEnd()
    ensures DaysFromDate(Civil(9_999, 12, 31)) == LAST_DAY
  {
  }

  lemma Ends()
    ensures DaysFromDate(Civil(0, 1, 1)) == FIRST_DAY == FIRST_SECOND / SECONDS_PER_DAY
    ensures DaysFromDate(Civil(9_999, 12, 31)) == LAST_DAY == END_SECOND / SECONDS_PER_DAY - 1
  {
    hide DaysFromDate;
    FirstEnd();
    LastEnd();
  }

  // A date is made from exactly the days that exist, and gives its year, month and day back.
  lemma NewReads(year: nat, month: nat, day: nat)
    ensures New(year, month, day).Some? <==> year <= 9_999 && Civil(year, month, day).Valid()
    ensures New(year, month, day).Some? ==> DateFromDays(New(year, month, day).value) == Civil(year, month, day)
  {
    hide DaysFromDate, DateFromDays;
    if Civil(year, month, day).Valid() {
      DateRoundTrip(Civil(year, month, day));
    }
  }

  // The days of one month are consecutive, and the next month follows the last of them.
  lemma MonthDays(date: Date, day: int)
    ensures var civil := DateFromDays(date);
            && civil.Valid() && 0 <= civil.year <= 9_999
            && DaysFromDate(Civil(civil.year, civil.month, day)) == date - civil.day + day
            && DaysFromDate(NextMonth(civil.year, civil.month))
               == date - civil.day + DaysInMonth(civil.year, civil.month) + 1
  {
    hide DateFromDays, DaysFromDate, DaysInMonth;
    DaysRoundTrip(date);
    var civil := DateFromDays(date);
    YearsInRange(civil);
    SameMonth(civil, day);
    SameMonth(civil, DaysInMonth(civil.year, civil.month));
    NextDayNumber(Civil(civil.year, civil.month, DaysInMonth(civil.year, civil.month)));
  }

  lemma SameMonth(date: Civil, day: int)
    ensures DaysFromDate(Civil(date.year, date.month, day)) == DaysFromDate(date) - date.day + day
  {
  }

  datatype Interval = Day | Week | Month

  // Where a date's interval begins.
  function Start(interval: Interval, date: Date): Date {
    match interval
    case Day => date
    case Week => Monday(date)
    case Month => FirstOfMonth(date)
  }

  // Where a date's interval ends; that day belongs to the next one.
  function End(interval: Interval, date: Date): Date {
    match interval
    case Day => AddDays(date, 1)
    case Week => AddDays(Monday(date), 7)
    case Month => FirstOfNextMonth(date)
  }

  // The interval of `date` is the same seen from each of its days, and another one starts at its end.
  ghost predicate Tiles(interval: Interval, date: Date) {
    var start, end := Start(interval, date), End(interval, date);
    && start <= date < end
    && (forall day: Date | start <= day < end :: Start(interval, day) == start && End(interval, day) == end)
    && Start(interval, end) == end
  }

  // 9999-12-31, 9999-12-27 and 9999-12-01 begin the last day, week and month; the first Monday is
  // 0000-01-03.
  predicate Unclamped(interval: Interval, date: Date) {
    match interval
    case Day => date < LAST_DAY
    case Week => FIRST_DAY + 2 <= date < LAST_DAY - 4
    case Month => date < LAST_DAY - 30
  }

  // The intervals tile the calendar exactly where no bound is clamped, and weeks start on Mondays,
  // counted in sevens from 1969-12-29.
  lemma TilesExactly(interval: Interval, date: Date)
    ensures Tiles(interval, date) <==> Unclamped(interval, date)
    ensures interval == Week && Unclamped(interval, date) ==> (Start(interval, date) - -3) % 7 == 0
  {
    hide FirstOfMonth, FirstOfNextMonth, Tiles;
    match interval
    case Day => DayTiles(date);
    case Week => WeekTiles(date);
    case Month => MonthTiles(date);
  }

  // Away from the ends, a day is its own interval, a week is seven days from a Monday, and a month
  // runs from the first of it to the first of the next one.
  lemma BoundsByDate(interval: Interval, date: Date)
    requires Unclamped(interval, date)
    ensures var start, end := Start(interval, date), End(interval, date);
            var (civil, first, next) := (DateFromDays(date), DateFromDays(start), DateFromDays(end));
            match interval
            case Day => start == date && end == date + 1
            case Week => start <= date < start + 7 == end && (start - -3) % 7 == 0
            case Month =>
              && first == Civil(civil.year, civil.month, 1)
              && next == (if civil.month == 12 then Civil(civil.year + 1, 1, 1)
                          else Civil(civil.year, civil.month + 1, 1))
  {
    hide DateFromDays, DaysFromDate, FirstOfMonth, FirstOfNextMonth;
    if interval == Month {
      MonthBounds(date);
      MonthDays(date, 1);
      var civil := DateFromDays(date);
      DateRoundTrip(Civil(civil.year, civil.month, 1));
      DateRoundTrip(NextMonth(civil.year, civil.month));
    }
  }

  lemma DayTiles(date: Date)
    ensures Tiles(Day, date) <==> date < LAST_DAY
  {
    hide FirstOfMonth, FirstOfNextMonth;
  }

  // The days of one week have one Monday.
  lemma DaysOfWeek(monday: int, day: int)
    requires (monday + 3) % 7 == 0 && monday <= day < monday + 7
    ensures day - (day + 3) % 7 == monday
  {
  }

  lemma MiddleWeek(date: Date)
    requires FIRST_DAY + 2 <= date < LAST_DAY - 4
    ensures Tiles(Week, date)
  {
    var monday := date - (date + 3) % 7;
    assert FIRST_DAY <= monday && monday + 7 <= LAST_DAY;
    forall day: int | monday <= day <= monday + 7
      ensures FIRST_DAY <= day <= LAST_DAY
      ensures Monday(day) == if day < monday + 7 then monday else day
    {
      DaysOfWeek(if day < monday + 7 then monday else day, day);
    }
    hide Monday, FirstOfMonth, FirstOfNextMonth;
  }

  // The first Monday is the third day there is, and the last one the fifth from the end.
  lemma EdgeWeeks(date: Date)
    requires date < FIRST_DAY + 2 || date >= LAST_DAY - 4
    ensures !Tiles(Week, date)
  {
    hide FirstOfMonth, FirstOfNextMonth;
    if date < FIRST_DAY + 2 {
      assert Start(Week, FIRST_DAY + 2) == FIRST_DAY + 2;
    } else {
      DaysOfWeek(LAST_DAY - 4, date);
      DaysOfWeek(LAST_DAY - 4, LAST_DAY);
    }
  }

  lemma WeekTiles(date: Date)
    ensures Tiles(Week, date) <==> FIRST_DAY + 2 <= date < LAST_DAY - 4
  {
    hide Tiles;
    if FIRST_DAY + 2 <= date < LAST_DAY - 4 {
      MiddleWeek(date);
    } else {
      EdgeWeeks(date);
    }
  }

  // Wherever it is, an interval starts on or before its day, and ends after it but for the last day.
  lemma HoldsItsDay(interval: Interval, date: Date)
    ensures Start(interval, date) <= date <= End(interval, date)
    ensures date < End(interval, date) <==> date < LAST_DAY
  {
    if interval == Month {
      MonthBounds(date);
    }
  }

  // A month runs from its first day to its last, but for the clamp in the last month.
  lemma MonthBounds(date: Date)
    ensures var civil := DateFromDays(date);
            && civil.Valid()
            && FirstOfMonth(date) == date - civil.day + 1
            && FirstOfNextMonth(date) == FromDays(date - civil.day + DaysInMonth(civil.year, civil.month) + 1)
            && (date < LAST_DAY - 30 <==> FirstOfMonth(date) < LAST_DAY - 30)
            && (date < LAST_DAY - 30 ==> date - civil.day + DaysInMonth(civil.year, civil.month) < LAST_DAY - 30)
            && (date >= LAST_DAY - 30 ==> FirstOfMonth(date) == LAST_DAY - 30 && FirstOfNextMonth(date) == LAST_DAY)
  {
    hide DateFromDays, DaysFromDate;
    var civil := DateFromDays(date);
    MonthDays(date, 1);
    YearsInRange(Civil(civil.year, civil.month, 1));
    LastMonth(date);
  }

  // From 9999-12-01 on it is December 9999, and before it the month ends before it too.
  lemma LastMonth(date: Date)
    ensures var civil := DateFromDays(date);
            && civil.Valid()
            && (date >= LAST_DAY - 30 ==> civil == Civil(9_999, 12, date - LAST_DAY + 31))
            && (date < LAST_DAY - 30 ==> date - civil.day + DaysInMonth(civil.year, civil.month) < LAST_DAY - 30)
  {
    hide DateFromDays, DaysFromDate;
    Ends();
    var civil := DateFromDays(date);
    var last := Civil(9_999, 12, 31);
    SameMonth(last, 1);
    if date >= LAST_DAY - 30 {
      SameMonth(last, date - LAST_DAY + 31);
      DateRoundTrip(Civil(9_999, 12, date - LAST_DAY + 31));
    } else {
      MonthDays(date, DaysInMonth(civil.year, civil.month));
      var monthEnd := Civil(civil.year, civil.month, DaysInMonth(civil.year, civil.month));
      DaysRoundTrip(date);
      SameOrder(civil, Civil(9_999, 12, 1));
      SameOrder(monthEnd, Civil(9_999, 12, 1));
    }
  }

  lemma MonthTiles(date: Date)
    ensures Tiles(Month, date) <==> date < LAST_DAY - 30
  {
    hide DateFromDays, DaysFromDate, FirstOfMonth, FirstOfNextMonth;
    MonthBounds(date);
    if date < LAST_DAY - 30 {
      var start, end := FirstOfMonth(date), FirstOfNextMonth(date);
      forall day: Date | start <= day < end
        ensures FirstOfMonth(day) == start && FirstOfNextMonth(day) == end
      {
        SameMonthBounds(date, day);
      }
      NextMonthStarts(date);
    } else {
      MonthBounds(LAST_DAY);
    }
  }

  lemma SameMonthBounds(date: Date, day: Date)
    requires date < LAST_DAY - 30
    requires FirstOfMonth(date) <= day < FirstOfNextMonth(date)
    ensures FirstOfMonth(day) == FirstOfMonth(date) && FirstOfNextMonth(day) == FirstOfNextMonth(date)
  {
    hide DateFromDays, DaysFromDate, FirstOfMonth, FirstOfNextMonth;
    MonthBounds(date);
    var civil := DateFromDays(date);
    var number := day - date + civil.day;
    MonthDays(date, number);
    DateRoundTrip(Civil(civil.year, civil.month, number));
    MonthBounds(day);
  }

  lemma NextMonthStarts(date: Date)
    requires date < LAST_DAY - 30
    ensures FirstOfMonth(FirstOfNextMonth(date)) == FirstOfNextMonth(date)
  {
    hide DateFromDays, DaysFromDate, FirstOfMonth, FirstOfNextMonth;
    MonthBounds(date);
    var civil := DateFromDays(date);
    MonthDays(date, 1);
    DateRoundTrip(NextMonth(civil.year, civil.month));
    MonthBounds(FirstOfNextMonth(date));
  }
}
