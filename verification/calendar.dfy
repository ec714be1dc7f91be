/**
 * The appointment calendar: the month shown, its day grid and month navigation,
 * with JavaScript `Date` arithmetic written out over the proleptic Gregorian calendar.
 */
module Calendar {
  import opened Wrappers

  /** A calendar month as `Date` keeps it: the full year and a 0-based month. */
  datatype Month = Month(year: int, month: int)

  predicate Valid(c: Month)
  {
    0 <= c.month < 12
  }

  /** The month the calendar opens on: October 2025. */
  const Start := Month(2025, 9)

  predicate Leap(y: int)
  {
    (y % 4 == 0 && y % 100 != 0) || y % 400 == 0
  }

  /** The number of days of 0-based month `m` of year `y`. */
  function MonthLength(y: int, m: int): (n: int)
    requires 0 <= m < 12
    ensures 28 <= n <= 31
    ensures n == 29 <==> m == 1 && Leap(y)
    ensures n == 28 <==> m == 1 && !Leap(y)
    ensures n == 30 <==> m in {3, 5, 8, 10}
  {
    if m == 1 then (if Leap(y) then 29 else 28)
    else if m == 3 || m == 5 || m == 8 || m == 10 then 30
    else 31
  }

  /** Days from 1 January of year 1 to 1 January of year `y` (negative before it). */
  function DaysBeforeYear(y: int): int
  {
    365 * (y - 1) + (y - 1) / 4 - (y - 1) / 100 + (y - 1) / 400
  }

  /** Days from 1 January to the first of each 0-based month, and to the next 1 January, in a common year. */
  const CommonDaysBefore: seq<int> := [0, 31, 59, 90, 120, 151, 181, 212, 243, 273, 304, 334, 365]

  /** Days from 1 January to the first of 0-based month `m`; a leap day counts from March on. */
  function DaysBeforeMonth(y: int, m: int): (n: int)
    requires 0 <= m <= 12
    ensures 0 <= n <= 31 * m
  {
    CommonDaysBefore[m] + (if m >= 2 && Leap(y) then 1 else 0)
  }

  /** The day number of the first of a month, counting from 1 January of year 1. */
  function FirstOfMonth(y: int, m: int): int
    requires 0 <= m < 12
  {
    DaysBeforeYear(y) + DaysBeforeMonth(y, m)
  }

  /** A whole year is 365 days, 366 in a leap year, in both counts. */
  lemma YearLength(y: int)
    ensures DaysBeforeMonth(y, 12) == if Leap(y) then 366 else 365
    ensures DaysBeforeYear(y + 1) - DaysBeforeYear(y) == if Leap(y) then 366 else 365
  {
    var q4, q100, q400 := (y - 1) / 4, (y - 1) / 100, (y - 1) / 400;
    assert y / 4 == if y % 4 == 0 then q4 + 1 else q4;
    assert y / 100 == if y % 100 == 0 then q100 + 1 else q100;
    assert y / 400 == if y % 400 == 0 then q400 + 1 else q400;
  }

  /** The first of the next month comes exactly one month length after the first of this one. */
  lemma MonthsAreContiguous(y: int, m: int)
    requires 0 <= m < 12
    ensures m < 11 ==> FirstOfMonth(y, m + 1) == FirstOfMonth(y, m) + MonthLength(y, m)
    ensures m == 11 ==> FirstOfMonth(y + 1, 0) == FirstOfMonth(y, m) + MonthLength(y, m)
  {
    if m < 11 {
      MonthWithinYear(y, m);
    } else {
      MonthIntoNextYear(y);
    }
  }

  lemma MonthWithinYear(y: int, m: int)
    requires 0 <= m < 11
    ensures FirstOfMonth(y, m + 1) == FirstOfMonth(y, m) + MonthLength(y, m)
  {
    assert DaysBeforeMonth(y, m + 1) == DaysBeforeMonth(y, m) + MonthLength(y, m);
  }

  lemma MonthIntoNextYear(y: int)
    ensures FirstOfMonth(y + 1, 0) == FirstOfMonth(y, 11) + MonthLength(y, 11)
  {
    YearLength(y);
  }

  /** `Date.getDay()`: 0 for Sunday to 6 for Saturday; 1 January of year 1 was a Monday. */
  function Weekday(dayNumber: int): (w: int)
    ensures 0 <= w < 7
  {
    (dayNumber + 1) % 7
  }

  /** `new Date(y, m)` reads a year from 0 to 99 as 1900 to 1999. */
  function ConstructorYear(y: int): (r: int)
    ensures 0 <= y <= 99 ==> r == 1900 + y
    ensures (y < 0 || y > 99) ==> r == y
  {
    if 0 <= y <= 99 then 1900 + y else y
  }

  /** `new Date(y, m)`: the year is read as above, then months outside 0..11 carry into it. */
  function MakeMonth(y: int, m: int): (c: Month)
    ensures Valid(c)
    ensures c.year * 12 + c.month == ConstructorYear(y) * 12 + m
  {
    Month(ConstructorYear(y) + m / 12, m % 12)
  }

  /** `getDaysInMonth`: the length of the month shown, in the year `Date` reads. */
  function DaysInMonth(c: Month): (n: int)
    requires Valid(c)
    ensures 28 <= n <= 31
    ensures n == 29 <==> c.month == 1 && Leap(ConstructorYear(c.year))
  {
    MonthLength(ConstructorYear(c.year), c.month)
  }

  /**
   * The source asks for day 0 of the following month, which is the last day of
   * this one: the distance from this month's first to the next month's first.
   */
  lemma DaysInMonthIsDayZeroOfNext(c: Month)
    requires Valid(c)
    ensures var y := ConstructorYear(c.year); var next := MakeMonth(y, c.month + 1);
      DaysInMonth(c) == FirstOfMonth(next.year, next.month) - FirstOfMonth(y, c.month)
  {
    var y := ConstructorYear(c.year);
    assert ConstructorYear(y) == y;
    assert DaysInMonth(c) == MonthLength(y, c.month);
    if c.month < 11 {
      MonthWithinYear(y, c.month);
      assert (c.month + 1) / 12 == 0 && (c.month + 1) % 12 == c.month + 1;
      assert MakeMonth(y, c.month + 1) == Month(y, c.month + 1);
    } else {
      MonthIntoNextYear(y);
      assert (c.month + 1) / 12 == 1 && (c.month + 1) % 12 == 0;
      assert MakeMonth(y, c.month + 1) == Month(y + 1, 0);
    }
  }

  /** `getFirstDayOfMonth`: the weekday of the first, 0 (Sunday) to 6 (Saturday). */
  function FirstDay(c: Month): (w: int)
    requires Valid(c)
    ensures 0 <= w <= 6
  {
    Weekday(FirstOfMonth(ConstructorYear(c.year), c.month))
  }

  /** Each month's grid starts on the weekday after the last day of the previous month. */
  lemma NextMonthStartsWhereThisEnds(c: Month)
    requires Valid(c) && c.year >= 100
    ensures FirstDay(Next(c)) == (FirstDay(c) + DaysInMonth(c)) % 7
  {
    var next := Next(c);
    var first := FirstOfMonth(c.year, c.month);
    var length := MonthLength(c.year, c.month);
    assert ConstructorYear(c.year) == c.year;
    assert DaysInMonth(c) == length && FirstDay(c) == Weekday(first);
    if c.month < 11 {
      MonthWithinYear(c.year, c.month);
      assert (c.month + 1) / 12 == 0 && (c.month + 1) % 12 == c.month + 1;
      assert next == Month(c.year, c.month + 1);
    } else {
      MonthIntoNextYear(c.year);
      assert (c.month + 1) / 12 == 1 && (c.month + 1) % 12 == 0;
      assert next == Month(c.year + 1, 0);
    }
    assert ConstructorYear(next.year) == next.year;
    assert FirstOfMonth(next.year, next.month) == first + length;
    WeekdayAdvance(first, length);
  }

  /** Moving `n` days on moves the weekday by `n`, modulo 7. */
  lemma WeekdayAdvance(d: int, n: int)
    ensures Weekday(d + n) == (Weekday(d) + n) % 7
  {
    var q := (d + 1) / 7;
    assert d + 1 == 7 * q + Weekday(d);
    assert d + n + 1 == 7 * q + (Weekday(d) + n);
  }

  /**
   * The cells of the month view: `firstDay` blanks, then the days 1 to
   * `daysInMonth`. Only cells holding a day are clickable.
   */
  method BuildGrid(firstDay: nat, daysInMonth: nat) returns (days: seq<Option<int>>)
    ensures |days| == firstDay + daysInMonth
    ensures forall i :: 0 <= i < |days| ==> (days[i].Some? <==> i >= firstDay)
    ensures forall k :: 1 <= k <= daysInMonth ==> days[firstDay + k - 1] == Some(k)
  {
    days := [];
    var i := 0;
    while i < firstDay
      invariant 0 <= i <= firstDay && |days| == i
      invariant forall j :: 0 <= j < i ==> days[j].None?
    {
      days := days + [None];
      i := i + 1;
    }
    var day := 1;
    while day <= daysInMonth
      invariant 1 <= day <= daysInMonth + 1 && |days| == firstDay + day - 1
      invariant forall j :: 0 <= j < firstDay ==> days[j].None?
      invariant forall k :: 1 <= k < day ==> days[firstDay + k - 1] == Some(k)
      invariant forall j :: firstDay <= j < |days| ==> days[j].Some?
    {
      days := days + [Some(day)];
      day := day + 1;
    }
  }

  /** The grid of a month. */
  method MonthGrid(c: Month) returns (days: seq<Option<int>>)
    requires Valid(c)
    ensures |days| == FirstDay(c) + DaysInMonth(c)
    ensures 28 <= |days| <= 37
    ensures forall k :: 1 <= k <= DaysInMonth(c) ==> days[FirstDay(c) + k - 1] == Some(k)
  {
    days := BuildGrid(FirstDay(c), DaysInMonth(c));
  }

  /** `handleNextMonth`: the first of the following month. */
  function Next(c: Month): (r: Month)
    ensures Valid(r)
    ensures c.year >= 100 ==> r.year * 12 + r.month == c.year * 12 + c.month + 1
  {
    MakeMonth(c.year, c.month + 1)
  }

  /** `handlePrevMonth`: the first of the previous month. */
  function Prev(c: Month): (r: Month)
    ensures Valid(r)
    ensures c.year >= 100 ==> r.year * 12 + r.month == c.year * 12 + c.month - 1
  {
    MakeMonth(c.year, c.month - 1)
  }

  /** Forward then back, or back then forward, returns to the same month (from year 100 on). */
  lemma NextPrevRoundTrip(c: Month)
    requires Valid(c) && c.year >= 100
    ensures Prev(Next(c)) == c
    ensures c.year >= 101 || c.month >= 1 ==> Next(Prev(c)) == c
  {
    assert ConstructorYear(c.year) == c.year && ConstructorYear(c.year + 1) == c.year + 1;
    if c.month < 11 {
      assert (c.month + 1) / 12 == 0 && (c.month + 1) % 12 == c.month + 1;
      assert Next(c) == Month(c.year, c.month + 1);
    } else {
      assert (c.month + 1) / 12 == 1 && (c.month + 1) % 12 == 0;
      assert Next(c) == Month(c.year + 1, 0);
      assert -1 / 12 == -1 && -1 % 12 == 11;
    }
    if c.month >= 1 {
      assert (c.month - 1) / 12 == 0 && (c.month - 1) % 12 == c.month - 1;
      assert Prev(c) == Month(c.year, c.month - 1);
    } else if c.year >= 101 {
      assert -1 / 12 == -1 && -1 % 12 == 11;
      assert Prev(c) == Month(c.year - 1, 11);
      assert ConstructorYear(c.year - 1) == c.year - 1;
      assert 12 / 12 == 1 && 12 % 12 == 0;
    }
  }

  /** October 2025, the opening month, starts on a Wednesday and has 31 days. */
  lemma StartMonth()
    ensures FirstDay(Start) == 3
    ensures DaysInMonth(Start) == 31
  {
    assert !Leap(2025);
  }

  /** Going back from December of year 99 lands in November 1999, because of the two-digit year rule. */
  lemma TwoDigitYearJump()
    ensures Prev(Month(100, 0)) == Month(99, 11)
    ensures Prev(Month(99, 11)) == Month(1999, 10)
  {
  }
}
