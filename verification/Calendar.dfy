/** The proleptic Gregorian calendar in UTC, as Go's time package presents it.

    A day is a whole number of days since 1970-01-01, an instant a whole number of nanoseconds
    since that day's midnight, and a month the number 12 * year + (month - 1), so that the
    normalisation done by time.Date and AddDate is plain arithmetic on months and days. */
module Calendar {

  const HOUR: int := 3_600_000_000_000
  const DAY: int := 86_400_000_000_000

  /** Days from 0000-01-01 to 1970-01-01. */
  const EPOCH: int := 719_528

  function DayOf(instant: int): int {
    instant / 86_400_000_000_000
  }

  function Midnight(day: int): int {
    day * 86_400_000_000_000
  }

  lemma DayBounds(instant: int)
    ensures Midnight(DayOf(instant)) <= instant < Midnight(DayOf(instant)) + DAY
  {
  }

  lemma MidnightOpensDay(day: int, offset: int)
    requires 0 <= offset < DAY
    ensures DayOf(Midnight(day) + offset) == day
  {
  }

  lemma OneDayLater(instant: int, day: int)
    ensures DayOf(instant + DAY) == DayOf(instant) + 1
    ensures Midnight(day + 1) == Midnight(day) + DAY
  {
  }

  lemma MidnightOrder(instant: int, day: int)
    ensures Midnight(day) <= instant <==> day <= DayOf(instant)
  {
  }

  /** Sunday is 0, as in Go; 1970-01-01 was a Thursday. */
  function Weekday(day: int): int {
    (day + 4) % 7
  }

  predicate IsLeap(year: int) {
    year % 4 == 0 && (year % 100 != 0 || year % 400 == 0)
  }

  /** Leap years from year 0 up to, and without, the given year; negative before year 0. */
  function LeapsBefore(year: int): int {
    (year + 3) / 4 - (year + 99) / 100 + (year + 399) / 400
  }

  function YearStart(year: int): int {
    365 * year + LeapsBefore(year) - EPOCH
  }

  function MonthLength(month: int): int {
    var m := month % 12;
    if m == 1 then (if IsLeap(month / 12) then 29 else 28)
    else if m == 3 || m == 5 || m == 8 || m == 10 then 30
    else 31
  }

  function DaysBefore(leap: bool, m: nat): int
    requires m < 12
  {
    [0, 31, 59, 90, 120, 151, 181, 212, 243, 273, 304, 334][m] + (if leap && m >= 2 then 1 else 0)
  }

  function FirstOfMonth(month: int): int {
    YearStart(month / 12) + DaysBefore(IsLeap(month / 12), month % 12)
  }

  /** Rounding up to a multiple of n moves on exactly when a multiple is left behind. */
  lemma NextMultiple(year: int, n: int)
    requires n in {4, 100, 400}
    ensures (year + n) / n - (year + n - 1) / n == if year % n == 0 then 1 else 0
  {
  }

  lemma CenturyIsMultipleOfFour(year: int)
    requires year % 100 == 0
    ensures year % 4 == 0
  {
    assert year == 4 * (25 * (year / 100));
  }

  lemma FourCenturiesAreCenturies(year: int)
    requires year % 400 == 0
    ensures year % 100 == 0
  {
    assert year == 100 * (4 * (year / 400));
  }

  lemma LeapsGrow(year: int)
    ensures LeapsBefore(year + 1) - LeapsBefore(year) == if IsLeap(year) then 1 else 0
  {
    NextMultiple(year, 4);
    NextMultiple(year, 100);
    NextMultiple(year, 400);
    assert LeapsBefore(year + 1) == (year + 4) / 4 - (year + 100) / 100 + (year + 400) / 400;
    if year % 100 == 0 {
      CenturyIsMultipleOfFour(year);
    }
    if year % 400 == 0 {
      FourCenturiesAreCenturies(year);
    }
  }

  lemma YearLength(year: int)
    ensures YearStart(year + 1) - YearStart(year) == if IsLeap(year) then 366 else 365
  {
    LeapsGrow(year);
  }

  /** The table of month starts agrees with the lengths of the months, over year ends too. */
  lemma MonthsTile(month: int)
    ensures FirstOfMonth(month + 1) == FirstOfMonth(month) + MonthLength(month)
    ensures 28 <= MonthLength(month) <= 31
  {
    var year, m := month / 12, month % 12;
    YearLength(year);
    if m == 11 {
      assert (month + 1) / 12 == year + 1 && (month + 1) % 12 == 0;
    } else {
      assert (month + 1) / 12 == year && (month + 1) % 12 == m + 1;
    }
  }

  lemma {:induction false} LaterMonthStartsLater(a: int, b: int)
    requires a < b
    ensures FirstOfMonth(a) + 28 * (b - a) <= FirstOfMonth(b)
    decreases b - a
  {
    hide FirstOfMonth, MonthLength;
    MonthsTile(b - 1);
    if a < b - 1 {
      LaterMonthStartsLater(a, b - 1);
    }
  }

  function MonthFrom(day: int, month: int): (r: int)
    requires FirstOfMonth(month) <= day
    ensures FirstOfMonth(r) <= day < FirstOfMonth(r + 1)
    decreases day - FirstOfMonth(month)
  {
    hide FirstOfMonth, MonthLength;
    MonthsTile(month);
    if day < FirstOfMonth(month + 1) then month else MonthFrom(day, month + 1)
  }

  lemma JanuaryOpensYear(year: int)
    ensures FirstOfMonth(12 * year) == YearStart(year)
  {
    assert 12 * year / 12 == year && 12 * year % 12 == 0;
    hide YearStart, IsLeap;
  }

  /** No more than one leap day a year, and none before year 0 beyond those counted off. */
  lemma LeapsAreFew(year: int)
    ensures LeapsBefore(year) <= if year >= 0 then year else 0
  {
  }

  /** A year that has begun by the given day. */
  function YearGuess(day: int): (year: int)
    ensures FirstOfMonth(12 * year) <= day
  {
    hide FirstOfMonth, LeapsBefore;
    var d := day + EPOCH;
    var year := if d >= 0 then d / 366 else d / 365;
    JanuaryOpensYear(year);
    LeapsAreFew(year);
    year
  }

  /** The month a day falls in. */
  function MonthOf(day: int): (r: int)
    ensures FirstOfMonth(r) <= day < FirstOfMonth(r + 1)
  {
    hide FirstOfMonth;
    MonthFrom(day, 12 * YearGuess(day))
  }

  /** time.Date(...).Day(): the first of the month is day 1. */
  function DayOfMonth(day: int): (r: int)
    ensures 1 <= r <= MonthLength(MonthOf(day))
  {
    hide FirstOfMonth, MonthLength;
    MonthsTile(MonthOf(day));
    day - FirstOfMonth(MonthOf(day)) + 1
  }

  /** A month that contains the day is the month of the day. */
  lemma MonthUnique(day: int, month: int)
    requires FirstOfMonth(month) <= day < FirstOfMonth(month + 1)
    ensures MonthOf(day) == month
  {
    hide FirstOfMonth;
    var other := MonthOf(day);
    if other + 1 < month {
      LaterMonthStartsLater(other + 1, month);
    } else if month + 1 < other {
      LaterMonthStartsLater(month + 1, other);
    }
  }

  /** Year, month and day of the month determine the day and are determined by it. */
  lemma CivilRoundTrip(month: int, dayOfMonth: int)
    requires 1 <= dayOfMonth <= MonthLength(month)
    ensures var day := FirstOfMonth(month) + dayOfMonth - 1;
            MonthOf(day) == month && DayOfMonth(day) == dayOfMonth
  {
    hide FirstOfMonth, MonthLength;
    MonthsTile(month);
    MonthUnique(FirstOfMonth(month) + dayOfMonth - 1, month);
  }

  // ---- Counting the days ----

  /** A date and its day of the week: months and days count from 1, Sunday is 0. */
  datatype Civil = Civil(year: int, month: int, day: int, weekday: int)

  function CivilOf(day: int): Civil {
    Civil(MonthOf(day) / 12, MonthOf(day) % 12 + 1, DayOfMonth(day), Weekday(day))
  }

  /** The date after a date, by the rules of the Gregorian calendar alone. */
  function NextCivil(c: Civil): Civil {
    var isLeap := c.year % 4 == 0 && (c.year % 100 != 0 || c.year % 400 == 0);
    var length := if c.month == 2 then (if isLeap then 29 else 28)
                  else if c.month in {4, 6, 9, 11} then 30
                  else 31;
    var weekday := if c.weekday == 6 then 0 else c.weekday + 1;
    if c.day < length then Civil(c.year, c.month, c.day + 1, weekday)
    else if c.month < 12 then Civil(c.year, c.month + 1, 1, weekday)
    else Civil(c.year + 1, 1, 1, weekday)
  }

  /** The date reached by counting on from Thursday, 1 January 1970. */
  function Counted(days: nat): Civil {
    if days == 0 then Civil(1970, 1, 1, 4) else NextCivil(Counted(days - 1))
  }

  lemma DayZero()
    ensures FirstOfMonth(12 * 1970) == 0
    ensures MonthOf(0) == 12 * 1970 && DayOfMonth(0) == 1 && Weekday(0) == 4
    ensures CivilOf(0) == Civil(1970, 1, 1, 4)
  {
    hide MonthOf, FirstOfMonth, MonthLength;
    JanuaryOpensYear(1970);
    MonthsTile(12 * 1970);
    MonthUnique(0, 12 * 1970);
  }

  /** Each day, before 1970 too, has the date that follows the one of the day before. */
  lemma DayByDay(day: int)
    ensures CivilOf(day + 1) == NextCivil(CivilOf(day))
  {
    hide FirstOfMonth, MonthOf;
    var month := MonthOf(day);
    MonthsTile(month);
    if day + 1 == FirstOfMonth(month + 1) {
      MonthsTile(month + 1);
      MonthUnique(day + 1, month + 1);
      NextMonth(month);
    } else {
      MonthUnique(day + 1, month);
    }
  }

  lemma NextMonth(month: int)
    ensures if month % 12 == 11 then (month + 1) / 12 == month / 12 + 1 && (month + 1) % 12 == 0
            else (month + 1) / 12 == month / 12 && (month + 1) % 12 == month % 12 + 1
  {
  }

  /** The calendar gives every day from 1970 on the date that counting gives it. */
  lemma {:induction false} CalendarCounts(days: nat)
    ensures CivilOf(days) == Counted(days)
  {
    hide CivilOf, NextCivil;
    if days == 0 {
      DayZero();
    } else {
      CalendarCounts(days - 1);
      DayByDay(days - 1);
    }
  }

  /** Days are 86 400 seconds long, and day 0 begins with instant 0. */
  lemma DaysTile(day: int, instant: int)
    ensures HOUR == 3_600_000_000_000 && DAY == 86_400_000_000_000
    ensures Midnight(0) == 0 && Midnight(day + 1) == Midnight(day) + 86_400_000_000_000
    ensures Midnight(DayOf(instant)) <= instant < Midnight(DayOf(instant) + 1)
  {
  }
}
