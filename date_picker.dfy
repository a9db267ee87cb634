/** The widget's date picker (components/widget/DatePicker.tsx): the month
    grid, which dates may be chosen, the click guard and month navigation.

    Dates are local calendar days. A day is identified by its day number,
    counted from 1970-01-01 (day 0, a Thursday) in the proleptic Gregorian
    calendar; since every date the picker handles is a local midnight,
    comparing `Date` objects is comparing day numbers. The current day is a
    parameter, as is the browser's offset from UTC. */
module DatePicker {
  import opened Wrappers

  /** A day of a month: `month` counts from 0, as `getMonth()` does. */
  datatype CalendarDate = CalendarDate(year: int, month: int, day: int)

  predicate IsLeapYear(y: int)
  {
    (y % 4 == 0 && y % 100 != 0) || y % 400 == 0
  }

  /** The last day of month `m` of year `y` (`new Date(y, m + 1, 0).getDate()`). */
  function DaysInMonth(y: int, m: int): (n: int)
    requires 0 <= m < 12
    ensures 28 <= n <= 31
    ensures m == 1 ==> (n == 29 <==> IsLeapYear(y)) && (n == 28 <==> !IsLeapYear(y))
    ensures m != 1 ==> (n == 30 <==> m == 3 || m == 5 || m == 8 || m == 10)
  {
    if m == 1 then (if IsLeapYear(y) then 29 else 28)
    else if m == 3 || m == 5 || m == 8 || m == 10 then 30
    else 31
  }

  /** The days of year `y` before month `m`. */
  function DaysBeforeMonth(y: int, m: int): int
    requires 0 <= m <= 12
    decreases m
  {
    if m == 0 then 0 else DaysBeforeMonth(y, m - 1) + DaysInMonth(y, m - 1)
  }

  /** The leap years among years 1 .. y - 1 (a signed count for earlier years). */
  function LeapsBefore(y: int): int
  {
    (y - 1) / 4 - (y - 1) / 100 + (y - 1) / 400
  }

  /** The day number of January 1st of year `y`. */
  function DaysBeforeYear(y: int): int
  {
    365 * (y - 1970) + LeapsBefore(y) - LeapsBefore(1970)
  }

  /** The day number of day `d` of month `m` of year `y`. */
  function DayNumber(y: int, m: int, d: int): int
    requires 0 <= m < 12
  {
    DaysBeforeYear(y) + DaysBeforeMonth(y, m) + d - 1
  }

  /** `getDay()`: 0 is Sunday; 1970-01-01 was a Thursday. */
  function Weekday(n: int): (w: int)
    ensures 0 <= w < 7
  {
    (n + 4) % 7
  }

  /** Month arithmetic as `new Date(y, m, 1)` performs it: a month index
      outside 0..11 carries into the year. */
  function Normalize(y: int, m: int): (r: (int, int))
    ensures 0 <= r.1 < 12
    ensures 12 * r.0 + r.1 == 12 * y + m
  {
    (y + m / 12, m % 12)
  }

  /** A year has 366 days exactly when it is a leap year. */
  lemma DaysInYear(y: int)
    ensures DaysBeforeMonth(y, 12) == if IsLeapYear(y) then 366 else 365
  {
  }

  /** One more year adds one more leap year exactly when that year is a leap year. */
  lemma LeapsBeforeStep(y: int)
    ensures LeapsBefore(y + 1) - LeapsBefore(y) == if IsLeapYear(y) then 1 else 0
  {
    assert y / 4 - (y - 1) / 4 == if y % 4 == 0 then 1 else 0;
    assert y / 100 - (y - 1) / 100 == if y % 100 == 0 then 1 else 0;
    assert y / 400 - (y - 1) / 400 == if y % 400 == 0 then 1 else 0;
    assert y % 400 == 0 ==> y % 100 == 0;
    assert y % 100 == 0 ==> y % 4 == 0;
  }

  /** Day `DaysInMonth(y, m)` is the day before the first of the next month,
      which is how the source finds the month's length. */
  lemma LastDayPrecedesNextMonth(y: int, m: int)
    requires 0 <= m < 12
    ensures var next := Normalize(y, m + 1);
      DayNumber(y, m, DaysInMonth(y, m)) + 1 == DayNumber(next.0, next.1, 1)
  {
    if m == 11 {
      assert Normalize(y, m + 1) == (y + 1, 0);
      LeapsBeforeStep(y);
      DaysInYear(y);
      assert DaysBeforeYear(y + 1) == DaysBeforeYear(y) + DaysBeforeMonth(y, 12);
      assert DaysBeforeMonth(y, 12) == DaysBeforeMonth(y, 11) + 31;
    } else {
      assert Normalize(y, m + 1) == (y, m + 1);
      assert DaysBeforeMonth(y, m + 1) == DaysBeforeMonth(y, m) + DaysInMonth(y, m);
    }
  }

  /** The next month's grid starts on the weekday after this month's last day. */
  lemma NextMonthStartDay(y: int, m: int)
    requires 0 <= m < 12
    ensures var next := Normalize(y, m + 1);
      Weekday(DayNumber(next.0, next.1, 1)) == (Weekday(DayNumber(y, m, 1)) + DaysInMonth(y, m)) % 7
  {
    LastDayPrecedesNextMonth(y, m);
    var next := Normalize(y, m + 1);
    var first := DayNumber(y, m, 1);
    var length := DaysInMonth(y, m);
    assert DayNumber(next.0, next.1, 1) == first + length;
    WeekdayAdvance(first, length);
  }

  /** Moving `k` days on moves the weekday `k` places round the week. */
  lemma WeekdayAdvance(n: int, k: int)
    ensures Weekday(n + k) == (Weekday(n) + k) % 7
  {
    var q := (n + 4) / 7;
    assert n + 4 == 7 * q + Weekday(n);
    assert n + k + 4 == 7 * q + (Weekday(n) + k);
  }

  /** The epoch, 1 January 1970, was a Thursday. */
  lemma EpochIsThursday()
    ensures DayNumber(1970, 0, 1) == 0 && Weekday(0) == 4
  {
    assert DaysBeforeYear(1970) == 0;
    assert DaysBeforeMonth(1970, 0) == 0;
  }

  /** 1 January 2024 was a Monday. */
  lemma NewYear2024IsMonday()
    ensures Weekday(DayNumber(2024, 0, 1)) == 1
  {
    assert LeapsBefore(2024) == 490;
    assert LeapsBefore(1970) == 477;
    assert DaysBeforeYear(2024) == 19723;
  }

  /** February has 29 days in 2024 and 2000, and 28 in 1900. */
  lemma LeapFebruaries()
    ensures DaysInMonth(2024, 1) == 29 && DaysInMonth(2000, 1) == 29 && DaysInMonth(1900, 1) == 28
  {
    assert IsLeapYear(2024) && IsLeapYear(2000) && !IsLeapYear(1900);
  }

  /** `isDateSelectable`: between today plus `minDaysAhead` and today plus
      `maxDaysAhead`, both included. */
  predicate IsDateSelectable(date: int, today: int, minDaysAhead: int, maxDaysAhead: int)
  {
    today + minDaysAhead <= date && date <= today + maxDaysAhead
  }

  /** The days `lo` .. `hi`, both included. */
  function DayRange(lo: int, hi: int): (days: set<int>)
    ensures forall d :: d in days <==> lo <= d <= hi
    decreases hi - lo
  {
    if lo > hi then {} else {hi} + DayRange(lo, hi - 1)
  }

  /** The selectable days, as a set. */
  function SelectableDays(today: int, minDaysAhead: int, maxDaysAhead: int): (days: set<int>)
    ensures forall d :: d in days <==> IsDateSelectable(d, today, minDaysAhead, maxDaysAhead)
  {
    DayRange(today + minDaysAhead, today + maxDaysAhead)
  }

  /** There are `maxDaysAhead - minDaysAhead + 1` selectable days. */
  lemma {:induction false} SelectableDaysCount(today: int, minDaysAhead: int, maxDaysAhead: int)
    requires minDaysAhead <= maxDaysAhead + 1
    ensures |SelectableDays(today, minDaysAhead, maxDaysAhead)| == maxDaysAhead - minDaysAhead + 1
    decreases maxDaysAhead - minDaysAhead + 1
  {
    if minDaysAhead <= maxDaysAhead {
      SelectableDaysCount(today, minDaysAhead, maxDaysAhead - 1);
      assert today + maxDaysAhead !in SelectableDays(today, minDaysAhead, maxDaysAhead - 1);
    }
  }

  /** `minDaysAhead = 0` and `maxDaysAhead = 30`. */
  const DefaultMinDaysAhead := 0
  const DefaultMaxDaysAhead := 30

  /** The defaults offer 31 days, today included. */
  lemma DefaultsOfferThirtyOneDays(today: int)
    ensures |SelectableDays(today, DefaultMinDaysAhead, DefaultMaxDaysAhead)| == 31
    ensures IsDateSelectable(today, today, DefaultMinDaysAhead, DefaultMaxDaysAhead)
  {
    SelectableDaysCount(today, DefaultMinDaysAhead, DefaultMaxDaysAhead);
  }

  /** With a non-negative `minDaysAhead`, a past date (`date < today`) is
      never selectable. */
  lemma PastIsNeverSelectable(date: int, today: int, minDaysAhead: int, maxDaysAhead: int)
    requires minDaysAhead >= 0 && date < today
    ensures !IsDateSelectable(date, today, minDaysAhead, maxDaysAhead)
  {
  }

  /** The UTC calendar day of the instant of local midnight of day `n`, for a
      browser `offsetMinutes` ahead of UTC: what `toISOString()` spells. */
  function IsoDay(n: int, offsetMinutes: int): int
  {
    (n * 1440 - offsetMinutes) / 1440
  }

  /** The date `handleDateClick` hands on, as written: the UTC day of the
      clicked local midnight; `None` when the date is not selectable or the
      picker is loading. */
  function ClickedDateAsWritten(date: int, today: int, minDaysAhead: int, maxDaysAhead: int, loading: bool, offsetMinutes: int): (r: Option<int>)
    ensures r.Some? <==> IsDateSelectable(date, today, minDaysAhead, maxDaysAhead) && !loading
    ensures r.Some? ==> r.value == IsoDay(date, offsetMinutes)
  {
    if !IsDateSelectable(date, today, minDaysAhead, maxDaysAhead) || loading then None
    else Some(IsoDay(date, offsetMinutes))
  }

  /** East of UTC the date handed on is the day before the one clicked;
      elsewhere it is the clicked day. */
  lemma IsoDayShift(n: int, offsetMinutes: int)
    requires -1440 < offsetMinutes < 1440
    ensures IsoDay(n, offsetMinutes) == if offsetMinutes > 0 then n - 1 else n
  {
    if offsetMinutes > 0 {
      assert n * 1440 - offsetMinutes == (n - 1) * 1440 + (1440 - offsetMinutes);
    } else {
      assert n * 1440 - offsetMinutes == n * 1440 + (-offsetMinutes);
    }
  }

  /** Clicking today in a browser two hours ahead of UTC hands on yesterday. */
  lemma ClickEastOfUtcHandsOnPreviousDay(today: int)
    ensures ClickedDateAsWritten(today, today, 0, 30, false, 120) == Some(today - 1)
  {
    IsoDayShift(today, 120);
  }

  /** The date `handleDateClick` is meant to hand on: the clicked local day. */
  function ClickedDate(date: int, today: int, minDaysAhead: int, maxDaysAhead: int, loading: bool): (r: Option<int>)
    ensures r.Some? <==> IsDateSelectable(date, today, minDaysAhead, maxDaysAhead) && !loading
    ensures r.Some? ==> r.value == date
  {
    if !IsDateSelectable(date, today, minDaysAhead, maxDaysAhead) || loading then None
    else Some(date)
  }

  /** The written and the intended date agree wherever the browser is not
      ahead of UTC. */
  lemma ClickedDateAgreesWestOfUtc(date: int, today: int, minDaysAhead: int, maxDaysAhead: int, loading: bool, offsetMinutes: int)
    requires -1440 < offsetMinutes <= 0
    ensures ClickedDateAsWritten(date, today, minDaysAhead, maxDaysAhead, loading, offsetMinutes)
         == ClickedDate(date, today, minDaysAhead, maxDaysAhead, loading)
  {
    IsoDayShift(date, offsetMinutes);
  }

  /** The picker's state: the month shown (`currentMonth`) and its props. */
  class Picker {
    var year: int
    var month: int
    const minDaysAhead: int
    const maxDaysAhead: int

    ghost predicate Valid()
      reads this
    {
      0 <= month < 12
    }

    /** A picker showing the month of `today`, with the props' defaults
        applied. */
    constructor (today: CalendarDate, minDays: Option<int>, maxDays: Option<int>)
      requires 0 <= today.month < 12
      ensures Valid()
      ensures year == today.year && month == today.month
      ensures minDaysAhead == minDays.GetOr(DefaultMinDaysAhead)
      ensures maxDaysAhead == maxDays.GetOr(DefaultMaxDaysAhead)
    {
      year, month := today.year, today.month;
      minDaysAhead := minDays.GetOr(DefaultMinDaysAhead);
      maxDaysAhead := maxDays.GetOr(DefaultMaxDaysAhead);
    }

    /** `generateCalendarDates`: one empty cell per weekday before the 1st,
        then every day of the month in order. */
    method GenerateCalendarDates() returns (dates: seq<Option<CalendarDate>>)
      requires Valid()
      ensures var startDay := Weekday(DayNumber(year, month, 1));
        && |dates| == startDay + DaysInMonth(year, month)
        && (forall i :: 0 <= i < startDay ==> dates[i].None?)
        && (forall i :: startDay <= i < |dates| ==> dates[i] == Some(CalendarDate(year, month, i - startDay + 1)))
    {
      var startDay := Weekday(DayNumber(year, month, 1));
      var daysInMonth := DaysInMonth(year, month);
      dates := [];
      var i := 0;
      while i < startDay
        invariant 0 <= i <= startDay && |dates| == i
        invariant forall k :: 0 <= k < i ==> dates[k].None?
      {
        dates := dates + [None];
        i := i + 1;
      }
      var day := 1;
      while day <= daysInMonth
        invariant 1 <= day <= daysInMonth + 1
        invariant |dates| == startDay + day - 1
        invariant forall k :: 0 <= k < startDay ==> dates[k].None?
        invariant forall k :: startDay <= k < |dates| ==> dates[k] == Some(CalendarDate(year, month, k - startDay + 1))
      {
        dates := dates + [Some(CalendarDate(year, month, day))];
        day := day + 1;
      }
    }

    /** `isDateSelectable` with this picker's props. */
    predicate Selectable(date: CalendarDate, today: int)
      reads this
      requires 0 <= date.month < 12
    {
      IsDateSelectable(DayNumber(date.year, date.month, date.day), today, minDaysAhead, maxDaysAhead)
    }

    /** `handleDateClick`: the date handed to `onSelectDate`, only for a
        selectable date while not loading. It hands on the clicked local day
        (see `ClickedDateAsWritten` for the source's UTC day). */
    method HandleDateClick(date: CalendarDate, today: int, loading: bool) returns (selected: Option<int>)
      requires 0 <= date.month < 12
      ensures selected.Some? <==> Selectable(date, today) && !loading
      ensures selected.Some? ==> selected.value == DayNumber(date.year, date.month, date.day)
    {
      selected := ClickedDate(DayNumber(date.year, date.month, date.day), today, minDaysAhead, maxDaysAhead, loading);
    }

    /** `goToPreviousMonth`. */
    method GoToPreviousMonth()
      requires Valid()
      modifies this`year, this`month
      ensures Valid()
      ensures (year, month) == Normalize(old(year), old(month) - 1)
    {
      var r := Normalize(year, month - 1);
      year, month := r.0, r.1;
    }

    /** `goToNextMonth`. */
    method GoToNextMonth()
      requires Valid()
      modifies this`year, this`month
      ensures Valid()
      ensures (year, month) == Normalize(old(year), old(month) + 1)
    {
      var r := Normalize(year, month + 1);
      year, month := r.0, r.1;
    }
  }

  /** Going forward a month and back again returns to the month shown, and
      so does going back and then forward. */
  lemma MonthNavigationRoundTrip(y: int, m: int)
    requires 0 <= m < 12
    ensures var next := Normalize(y, m + 1); Normalize(next.0, next.1 - 1) == (y, m)
    ensures var prev := Normalize(y, m - 1); Normalize(prev.0, prev.1 + 1) == (y, m)
  {
  }

  /** From December the next month is January of the following year; from
      January the previous month is December of the year before. */
  lemma MonthNavigationCarries(y: int)
    ensures Normalize(y, 12) == (y + 1, 0)
    ensures Normalize(y, -1) == (y - 1, 11)
  {
  }
}
