/** The month grid of the booking calendar.

    A month is a year and a JavaScript month index (0 = January). Civil
    dates follow the proleptic Gregorian calendar that `Date` uses; the
    day number of a date counts days after 1970-01-01, so its weekday is
    `Clock.WeekdayOf`. The grid is a run of blank cells up to the weekday
    of the 1st and then one cell per day of the month. */
module Calendar {
  import opened Clock

  /** `BUSY_DAYS`: days of every month that cannot be booked. */
  const BusyDays: seq<int> := [5, 12, 19]

  predicate IsLeap(year: int) {
    year % 4 == 0 && (year % 100 != 0 || year % 400 == 0)
  }

  /** Days from 1970-01-01 to January 1st of the year. */
  function DaysBeforeYear(year: int): int {
    365 * (year - 1970) + ((year - 1) / 4 - (year - 1) / 100 + (year - 1) / 400 - 477)
  }

  function DaysInMonth(year: int, month: int): (n: int)
    requires 0 <= month < 12
    ensures 28 <= n <= 31
    ensures n == 29 <==> month == 1 && IsLeap(year)
  {
    [31, 28, 31, 30, 31, 30, 31, 31, 30, 31, 30, 31][month] + if month == 1 && IsLeap(year) then 1 else 0
  }

  function DaysBeforeMonth(year: int, month: int): int
    requires 0 <= month < 12
  {
    [0, 31, 59, 90, 120, 151, 181, 212, 243, 273, 304, 334][month] + if month >= 2 && IsLeap(year) then 1 else 0
  }

  /** The day number of `new Date(year, month, day)` for a day inside the month. */
  function DayNumber(year: int, month: int, day: int): int
    requires 0 <= month < 12
  {
    DaysBeforeYear(year) + DaysBeforeMonth(year, month) + day - 1
  }

  /** The epoch is day 0 and a Thursday; 2024-01-01 was a Monday. */
  lemma KnownDates()
    ensures DayNumber(1970, 0, 1) == 0 && WeekdayOf(0) == 4
    ensures WeekdayOf(DayNumber(2024, 0, 1)) == 1
    ensures WeekdayOf(DayNumber(2000, 1, 29)) == 2
  {
    assert DaysBeforeYear(1970) == 0;
    assert DaysBeforeYear(2024) == 19723;
    assert DaysBeforeYear(2000) == 10957 && IsLeap(2000);
    assert DayNumber(2000, 1, 29) == 11016;
  }

  /** A year is 366 days long exactly when it is a leap year. */
  lemma YearLength(year: int)
    ensures DaysBeforeYear(year + 1) - DaysBeforeYear(year) == if IsLeap(year) then 366 else 365
  {
    var y := year - 1;
    var a, b, c := year / 4 - y / 4, year / 100 - y / 100, year / 400 - y / 400;
    assert DaysBeforeYear(year + 1) - DaysBeforeYear(year) == 365 + a - b + c;
    DivStep4(year);
    DivStep100(year);
    DivStep400(year);
    MultiplesNest(year);
  }

  /** A multiple of 400 is a multiple of 100, and a multiple of 100 is a multiple of 4. */
  lemma MultiplesNest(year: int)
    ensures year % 400 == 0 ==> year % 100 == 0
    ensures year % 100 == 0 ==> year % 4 == 0
  {
    if year % 400 == 0 {
      MultipleOf(year, 400, 100);
    }
    if year % 100 == 0 {
      MultipleOf(year, 100, 4);
    }
  }

  lemma MultipleOf(year: int, big: int, small: int)
    requires (big == 400 && small == 100) || (big == 100 && small == 4)
    requires year % big == 0
    ensures year % small == 0
  {
    var k := year / big;
    assert year == big * k;
    var m := (big / small) * k;
    assert year == small * m;
  }

  /** The counts of multiples of 4, 100 and 400 below a year each grow by
      one exactly at a multiple. */
  lemma DivStep4(year: int)
    ensures year / 4 - (year - 1) / 4 == if year % 4 == 0 then 1 else 0
  {
    var q, r := year / 4, year % 4;
    assert year == 4 * q + r;
    if r == 0 {
      assert year - 1 == 4 * (q - 1) + 3;
    } else {
      assert year - 1 == 4 * q + (r - 1);
    }
  }

  lemma DivStep100(year: int)
    ensures year / 100 - (year - 1) / 100 == if year % 100 == 0 then 1 else 0
  {
    var q, r := year / 100, year % 100;
    assert year == 100 * q + r;
    if r == 0 {
      assert year - 1 == 100 * (q - 1) + 99;
    } else {
      assert year - 1 == 100 * q + (r - 1);
    }
  }

  lemma DivStep400(year: int)
    ensures year / 400 - (year - 1) / 400 == if year % 400 == 0 then 1 else 0
  {
    var q, r := year / 400, year % 400;
    assert year == 400 * q + r;
    if r == 0 {
      assert year - 1 == 400 * (q - 1) + 399;
    } else {
      assert year - 1 == 400 * q + (r - 1);
    }
  }

  /** `(year, month + delta)` normalised the way `new Date(year, month + delta, 1)` normalises it. */
  function ShiftMonth(year: int, month: int, delta: int): (r: (int, int))
    ensures 0 <= r.1 < 12
    ensures 12 * r.0 + r.1 == 12 * year + month + delta
  {
    (year + (month + delta) / 12, (month + delta) % 12)
  }

  /** The previous-month button undoes the next-month button, and the other way round. */
  lemma ShiftMonthInverse(year: int, month: int)
    requires 0 <= month < 12
    ensures var next := ShiftMonth(year, month, 1); ShiftMonth(next.0, next.1, -1) == (year, month)
    ensures var prev := ShiftMonth(year, month, -1); ShiftMonth(prev.0, prev.1, 1) == (year, month)
  {
  }

  /** `new Date(year, month + 1, 0).getDate()`: the day before the 1st of the
      next month is day `DaysInMonth` of this one. */
  lemma DaysInMonthEndsTheMonth(year: int, month: int)
    requires 0 <= month < 12
    ensures var next := ShiftMonth(year, month, 1);
      DayNumber(next.0, next.1, 1) - 1 == DayNumber(year, month, DaysInMonth(year, month))
  {
    var next := ShiftMonth(year, month, 1);
    if month == 11 {
      assert next == (year + 1, 0);
      YearLength(year);
    } else {
      assert next == (year, month + 1);
      assert DaysBeforeMonth(year, month + 1) == DaysBeforeMonth(year, month) + DaysInMonth(year, month);
    }
  }

  /** `new Date(year, month, 1).getDay()`. */
  function FirstDayOfMonth(year: int, month: int): (w: int)
    requires 0 <= month < 12
    ensures 0 <= w < 7
  {
    WeekdayOf(DayNumber(year, month, 1))
  }

  /** Day d of a month falls d - 1 weekdays after the 1st. */
  lemma WeekdayOfDay(year: int, month: int, day: int)
    requires 0 <= month < 12 && 1 <= day
    ensures WeekdayOf(DayNumber(year, month, day)) == (FirstDayOfMonth(year, month) + day - 1) % 7
  {
    var x := DayNumber(year, month, 1) + 4;
    assert DayNumber(year, month, day) + 4 == x + (day - 1);
    ModSevenShift(x, day - 1);
  }

  lemma ModSevenShift(x: int, k: int)
    ensures (x + k) % 7 == (x % 7 + k) % 7
  {
    var q := x / 7;
    assert x == 7 * q + x % 7;
    assert x + k == 7 * q + (x % 7 + k);
  }

  datatype CivilDate = CivilDate(year: int, month: int, day: int)

  datatype Cell =
    | Blank
    | DayCell(day: int, weekday: int, isSaturday: bool, disabled: bool, selected: bool)

  /** The button of day d: Saturdays are closed and busy days cannot be picked. */
  function MakeDay(year: int, month: int, day: int, selected: CivilDate): (c: Cell)
    requires 0 <= month < 12
    ensures c.DayCell? && c.day == day
  {
    var weekday := WeekdayOf(DayNumber(year, month, day));
    var isSaturday := weekday == Saturday;
    DayCell(day, weekday, isSaturday, day in BusyDays || isSaturday,
      selected.day == day && selected.month == month && selected.year == year)
  }

  /** The cells of the month, in the order the seven-column grid lays them out. */
  function MonthGrid(year: int, month: int, selected: CivilDate): (cells: seq<Cell>)
    requires 0 <= month < 12
    ensures |cells| == FirstDayOfMonth(year, month) + DaysInMonth(year, month)
    ensures forall i :: 0 <= i < |cells| ==> (cells[i].Blank? <==> i < FirstDayOfMonth(year, month))
    ensures forall d :: 1 <= d <= DaysInMonth(year, month) ==>
      cells[FirstDayOfMonth(year, month) + d - 1] == MakeDay(year, month, d, selected)
  {
    var first := FirstDayOfMonth(year, month);
    var n := DaysInMonth(year, month);
    var blanks := seq(first, _ => Blank);
    var days := seq(n, k requires 0 <= k < n => MakeDay(year, month, k + 1, selected));
    assert forall k :: 0 <= k < n ==> days[k].DayCell?;
    blanks + days
  }

  /** What each cell of the grid shows: the days 1..n in order, each in the
      column of its own weekday; disabled exactly on Saturdays and busy days;
      selected exactly on the selected date. */
  lemma MonthGridCells(year: int, month: int, selected: CivilDate, i: int)
    requires 0 <= month < 12
    requires FirstDayOfMonth(year, month) <= i < |MonthGrid(year, month, selected)|
    ensures var c := MonthGrid(year, month, selected)[i];
      && c.DayCell?
      && c.day == i - FirstDayOfMonth(year, month) + 1
      && 1 <= c.day <= DaysInMonth(year, month)
      && c.weekday == i % 7
      && (c.isSaturday <==> i % 7 == Saturday)
      && (c.disabled <==> c.weekday == Saturday || c.day in BusyDays)
      && (c.selected <==> selected == CivilDate(year, month, c.day))
  {
    var first := FirstDayOfMonth(year, month);
    var d := i - first + 1;
    assert MonthGrid(year, month, selected)[first + d - 1] == MakeDay(year, month, d, selected);
    WeekdayOfDay(year, month, d);
  }

  /** Day numbers grow along the grid, so no day appears twice. */
  lemma MonthGridIncreasing(year: int, month: int, selected: CivilDate, i: int, j: int)
    requires 0 <= month < 12
    requires FirstDayOfMonth(year, month) <= i < j < |MonthGrid(year, month, selected)|
    ensures MonthGrid(year, month, selected)[i].day < MonthGrid(year, month, selected)[j].day
  {
    MonthGridCells(year, month, selected, i);
    MonthGridCells(year, month, selected, j);
  }
}
