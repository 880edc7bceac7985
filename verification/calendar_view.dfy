/**
 The month-grid engine behind the calendar popover: the 6 x 7 grid of day
 cells for the month of a reference date, the week-number rule for a row,
 the weekday header labels and month navigation.

 "Today" is a parameter (the platform reads the wall clock), and week-of-year
 is a parameter too (the platform delegates it to a locale-dependent calendar).
 */
module CalendarView {
  import opened Wrappers
  import opened Gregorian
  import opened SettingsManager

  /** One cell of the grid: the number shown, the day it stands for, and its two flags. */
  datatype DayInfo = DayInfo(day: int, date: Date, isCurrentMonth: bool, isToday: bool)

  /** The weekday shown in column 0 (1 = Sunday, 2 = Monday). */
  function FirstColumnWeekday(f: FirstDayOfWeek): int {
    if f == Monday then 2 else 1
  }

  /** The weekday shown in column `c` (0 <= c < 7) for the given first day. */
  function ColumnWeekday(f: FirstDayOfWeek, c: int): int {
    (FirstColumnWeekday(f) - 1 + c) % 7 + 1
  }

  /**
   Number of lead-in cells before the 1st of the month: the column in which a
   month starting on `firstWeekday` has its 1st.
   */
  function StartOffset(firstWeekday: int, f: FirstDayOfWeek): (r: int)
    requires 1 <= firstWeekday <= 7
    ensures 0 <= r <= 6
    ensures ColumnWeekday(f, r) == firstWeekday
  {
    if f == Monday then (firstWeekday + 5) % 7 else firstWeekday - 1
  }

  /** Monday-first maps Monday to column 0 and Sunday to column 6; Sunday-first maps Sunday to 0. */
  lemma StartOffsetAnchors()
    ensures StartOffset(2, Monday) == 0 && StartOffset(1, Monday) == 6
    ensures StartOffset(1, Sunday) == 0 && StartOffset(7, Sunday) == 6
  {
  }

  /** For the same month, the Sunday-first offset is one more (mod 7) than the Monday-first one. */
  lemma SundayOffsetFollowsMonday(firstWeekday: int)
    requires 1 <= firstWeekday <= 7
    ensures StartOffset(firstWeekday, Sunday) == (StartOffset(firstWeekday, Monday) + 1) % 7
  {
  }

  /** The 1st of the reference date's month, or None when the reference date names no day. */
  function FirstOfMonth(d: Date): (r: Option<Date>)
    ensures r.Some? <==> Valid(d)
    ensures r.Some? ==> Valid(r.value) && r.value.day == 1
    ensures r.Some? ==> r.value.year == d.year && r.value.month == d.month
  {
    if Valid(d) then Some(Date(d.year, d.month, 1)) else None
  }

  /**
   Reference definition of flat cell `k` (row-major, 0 <= k < 42) of the grid
   whose month starts on `first` in column `offset`: the day `k - offset` days
   after the 1st; it belongs to the current month when it has the 1st's year
   and month, and it is flagged as today when it does and equals `today`.
   */
  function Cell(first: Date, offset: int, today: Date, k: int): (r: DayInfo)
    requires Valid(first)
    ensures Valid(r.date) && r.day == r.date.day
  {
    var d := AddDays(first, k - offset);
    var current := d.year == first.year && d.month == first.month;
    DayInfo(d.day, d, current, current && d == today)
  }

  /** The 1st of the month of a valid date. */
  function MonthStart(d: Date): (r: Date)
    requires Valid(d)
    ensures Valid(r) && r.day == 1 && r.year == d.year && r.month == d.month
  {
    Date(d.year, d.month, 1)
  }

  /** The column of the grid in which the 1st of `d`'s month sits. */
  function GridOffset(d: Date, f: FirstDayOfWeek): (r: int)
    requires Valid(d)
    ensures 0 <= r <= 6
  {
    StartOffset(Weekday(MonthStart(d)), f)
  }

  /** The grid the popover shows for the month of `currentDate`, as a reference definition. */
  function Grid(currentDate: Date, f: FirstDayOfWeek, today: Date): (g: seq<seq<DayInfo>>)
    requires Valid(currentDate)
    ensures |g| == 6
    ensures forall w :: 0 <= w < 6 ==> |g[w]| == 7
  {
    var first := MonthStart(currentDate);
    var offset := GridOffset(currentDate, f);
    seq(6, w requires 0 <= w < 6 => seq(7, c requires 0 <= c < 7 => Cell(first, offset, today, 7 * w + c)))
  }

  /** The grid's 42 cells read row-major. */
  function FlatGrid(first: Date, offset: int, today: Date): (s: seq<DayInfo>)
    requires Valid(first)
    ensures |s| == 42
  {
    seq(42, k requires 0 <= k < 42 => Cell(first, offset, today, k))
  }

  /** Rows that hold the flat cells in row-major order are the grid. */
  lemma RowsAreGrid(weeks: seq<seq<DayInfo>>, currentDate: Date, f: FirstDayOfWeek, today: Date)
    requires Valid(currentDate)
    requires var expected := FlatGrid(MonthStart(currentDate), GridOffset(currentDate, f), today);
      |weeks| == 6 &&
      (forall w :: 0 <= w < 6 ==> |weeks[w]| == 7) &&
      (forall w, c :: 0 <= w < 6 && 0 <= c < 7 ==> weeks[w][c] == expected[7 * w + c])
    ensures weeks == Grid(currentDate, f, today)
  {
    var g := Grid(currentDate, f, today);
    forall w | 0 <= w < 6
      ensures weeks[w] == g[w]
    {
      forall c | 0 <= c < 7
        ensures weeks[w][c] == g[w][c]
      {
        GridCell(currentDate, f, today, w, c);
      }
    }
  }

  /** Cell (w, c) of the grid is flat cell 7w + c. */
  lemma GridCell(currentDate: Date, f: FirstDayOfWeek, today: Date, w: int, c: int)
    requires Valid(currentDate) && 0 <= w < 6 && 0 <= c < 7
    ensures Grid(currentDate, f, today)[w][c] ==
      Cell(MonthStart(currentDate), GridOffset(currentDate, f), today, 7 * w + c)
  {
  }

  /** A lead-in cell shows the previous month's tail: its number counts back from that month's last day. */
  lemma LeadInCell(first: Date, offset: int, today: Date, k: int)
    requires Valid(first) && first.day == 1 && 0 <= k < offset <= 6
    ensures var prev := AddMonths(first, -1);
      FlatGrid(first, offset, today)[k] ==
      DayInfo(DaysInMonth(prev.year, prev.month) - offset + k + 1, AddDays(first, -offset + k), false, false)
  {
    var prev := AddMonths(first, -1);
    var pn := DaysInMonth(prev.year, prev.month);
    PreviousMonthFirst(first);
    assert AddDays(first, -pn) == prev;
    MonthMembership(first, k - offset);
    DayOfMonth(prev, pn - offset + k);
    AddDaysAdd(first, -pn, pn - offset + k, -offset + k);
    assert AddDays(first, -offset + k) == Date(prev.year, prev.month, pn - offset + k + 1);
  }

  /** The cell `k - offset` days after the 1st, inside the month, is current, numbered from 1, and flagged iff it is today. */
  lemma MonthCell(first: Date, offset: int, today: Date, k: int)
    requires Valid(first) && first.day == 1 && 0 <= offset <= 6
    requires offset <= k < offset + DaysInMonth(first.year, first.month)
    ensures FlatGrid(first, offset, today)[k] ==
      DayInfo(k - offset + 1, AddDays(first, k - offset), true, AddDays(first, k - offset) == today)
  {
    MonthMembership(first, k - offset);
    DayOfMonth(first, k - offset);
  }

  /** Every cell after the month's last day belongs to another month and is never flagged. */
  lemma TrailingCell(first: Date, offset: int, today: Date, k: int)
    requires Valid(first) && first.day == 1 && 0 <= offset <= 6
    requires offset + DaysInMonth(first.year, first.month) <= k < 42
    ensures var d := AddDays(first, k - offset);
      FlatGrid(first, offset, today)[k] == DayInfo(d.day, d, false, false)
  {
    MonthMembership(first, k - offset);
  }

  /** Day `day` of the next month (1 <= day <= 7) is `DaysInMonth + day - 1` days after the 1st. */
  lemma LeadOutDate(first: Date, day: int)
    requires Valid(first) && first.day == 1 && 1 <= day <= 7
    ensures var next := AddMonths(first, 1);
      var d := AddDays(next, day - 1);
      d == AddDays(first, DaysInMonth(first.year, first.month) + day - 1) && d.day == day
  {
    var n := DaysInMonth(first.year, first.month);
    var next := AddMonths(first, 1);
    NextMonthFirst(first);
    AddDaysAdd(first, n, day - 1, n + day - 1);
    DayOfMonth(next, day - 1);
  }

  /**
   Builds the grid as the popover does: lead-in days from the previous month,
   the month's own days (flushing a row every 7 cells), lead-out days from the
   next month to complete the last row, then whole synthetic rows continuing
   the dates until there are 6 rows. An invalid reference date yields no rows.
   */
  method GenerateWeeks(currentDate: Date, f: FirstDayOfWeek, today: Date) returns (weeks: seq<seq<DayInfo>>)
    ensures !Valid(currentDate) ==> weeks == []
    ensures Valid(currentDate) ==> weeks == Grid(currentDate, f, today)
  {
    weeks := [];
    var firstOfMonthOpt := FirstOfMonth(currentDate);
    if firstOfMonthOpt.None? {
      return;
    }
    var firstOfMonth := firstOfMonthOpt.value;
    var firstWeekday := Weekday(firstOfMonth);
    var startOffset := StartOffset(firstWeekday, f);
    ghost var expected := FlatGrid(firstOfMonth, startOffset, today);
    var n := DaysInMonth(firstOfMonth.year, firstOfMonth.month);
    forall k | 0 <= k < startOffset
      ensures var prev := AddMonths(firstOfMonth, -1);
        expected[k] == DayInfo(DaysInMonth(prev.year, prev.month) - startOffset + k + 1,
                               AddDays(firstOfMonth, -startOffset + k), false, false)
    {
      LeadInCell(firstOfMonth, startOffset, today, k);
    }
    forall k | startOffset <= k < startOffset + n
      ensures expected[k] == DayInfo(k - startOffset + 1, AddDays(firstOfMonth, k - startOffset), true,
                                     AddDays(firstOfMonth, k - startOffset) == today)
    {
      MonthCell(firstOfMonth, startOffset, today, k);
    }
    forall k | startOffset + n <= k < 42
      ensures expected[k] == DayInfo(AddDays(firstOfMonth, k - startOffset).day,
                                     AddDays(firstOfMonth, k - startOffset), false, false)
    {
      TrailingCell(firstOfMonth, startOffset, today, k);
    }
    weeks := FillWeeks(firstOfMonth, startOffset, today, expected);
    RowsAreGrid(weeks, currentDate, f, today);
  }

  /** Row-major placement: the complete rows and the open row hold the first expected cells. */
  predicate Placed(weeks: seq<seq<DayInfo>>, currentWeek: seq<DayInfo>, expected: seq<DayInfo>) {
    && 7 * |weeks| + |currentWeek| <= |expected|
    && (forall w :: 0 <= w < |weeks| ==> |weeks[w]| == 7)
    && (forall w, c :: 0 <= w < |weeks| && 0 <= c < 7 ==> weeks[w][c] == expected[7 * w + c])
    && (forall j :: 0 <= j < |currentWeek| ==> currentWeek[j] == expected[7 * |weeks| + j])
  }

  /** Appending the next expected cell to the open row keeps the placement. */
  lemma PlacedAppend(weeks: seq<seq<DayInfo>>, currentWeek: seq<DayInfo>, expected: seq<DayInfo>, x: DayInfo)
    requires Placed(weeks, currentWeek, expected)
    requires 7 * |weeks| + |currentWeek| < |expected| && expected[7 * |weeks| + |currentWeek|] == x
    ensures Placed(weeks, currentWeek + [x], expected)
  {
  }

  /** Closing a full open row keeps the placement. */
  lemma PlacedFlush(weeks: seq<seq<DayInfo>>, currentWeek: seq<DayInfo>, expected: seq<DayInfo>)
    requires Placed(weeks, currentWeek, expected) && |currentWeek| == 7
    ensures Placed(weeks + [currentWeek], [], expected)
  {
  }

  /** The lead-in cells of `expected`: the previous month's last days, numbered from its length back. */
  ghost predicate LeadInExpected(first: Date, startOffset: int, expected: seq<DayInfo>)
    requires Valid(first) && 0 <= startOffset <= 6 && |expected| == 42
  {
    forall k :: 0 <= k < startOffset ==>
      var prev := AddMonths(first, -1);
      expected[k] == DayInfo(DaysInMonth(prev.year, prev.month) - startOffset + k + 1,
                             AddDays(first, -startOffset + k), false, false)
  }

  /** The month cells of `expected`: day k - startOffset + 1, current, and flagged exactly on `today`. */
  ghost predicate MonthExpected(first: Date, startOffset: int, today: Date, expected: seq<DayInfo>)
    requires Valid(first) && 0 <= startOffset <= 6 && |expected| == 42
  {
    forall k :: startOffset <= k < startOffset + DaysInMonth(first.year, first.month) ==>
      expected[k] == DayInfo(k - startOffset + 1, AddDays(first, k - startOffset), true,
                             AddDays(first, k - startOffset) == today)
  }

  /** The cells of `expected` after the month: numbered by their own day, neither current nor today. */
  ghost predicate TrailingExpected(first: Date, startOffset: int, expected: seq<DayInfo>)
    requires Valid(first) && 0 <= startOffset <= 6 && |expected| == 42
  {
    forall k :: startOffset + DaysInMonth(first.year, first.month) <= k < 42 ==>
      expected[k] == DayInfo(AddDays(first, k - startOffset).day, AddDays(first, k - startOffset), false, false)
  }

  /** One trailing cell of `expected`. */
  lemma TrailingAt(first: Date, startOffset: int, expected: seq<DayInfo>, k: int)
    requires Valid(first) && 0 <= startOffset <= 6 && |expected| == 42
    requires TrailingExpected(first, startOffset, expected)
    requires startOffset + DaysInMonth(first.year, first.month) <= k < 42
    ensures expected[k] == DayInfo(AddDays(first, k - startOffset).day, AddDays(first, k - startOffset), false, false)
  {
  }

  /**
   The loops of the grid builder, for a month starting on `first` in column
   `startOffset`; `expected` stands for the grid's flat cells and is described
   only by the facts the loops need.
   */
  method FillWeeks(first: Date, startOffset: int, today: Date, ghost expected: seq<DayInfo>)
    returns (weeks: seq<seq<DayInfo>>)
    requires Valid(first) && first.day == 1 && 0 <= startOffset <= 6 && |expected| == 42
    requires LeadInExpected(first, startOffset, expected)
    requires MonthExpected(first, startOffset, today, expected)
    requires TrailingExpected(first, startOffset, expected)
    ensures |weeks| == 6
    ensures forall w :: 0 <= w < 6 ==> |weeks[w]| == 7
    ensures forall w, c :: 0 <= w < 6 && 0 <= c < 7 ==> weeks[w][c] == expected[7 * w + c]
  {
    weeks := NaturalWeeks(first, startOffset, today, expected);
    weeks := PadWeeks(first, startOffset, weeks, expected);
  }

  /**
   Rows the month needs on its own: its cells from the lead-in to the 7th
   column of the row holding its last day.
   */
  function NaturalWeekCount(startOffset: int, n: int): (r: int)
    requires 0 <= startOffset <= 6 && 28 <= n <= 31
    ensures 4 <= r <= 6
    ensures 7 * (r - 1) < startOffset + n <= 7 * r
  {
    (startOffset + n + 6) / 7
  }

  /** Lead-in, month and lead-out cells: the rows the month needs, before padding. */
  method NaturalWeeks(first: Date, startOffset: int, today: Date, ghost expected: seq<DayInfo>)
    returns (weeks: seq<seq<DayInfo>>)
    requires Valid(first) && first.day == 1 && 0 <= startOffset <= 6 && |expected| == 42
    requires LeadInExpected(first, startOffset, expected)
    requires MonthExpected(first, startOffset, today, expected)
    requires TrailingExpected(first, startOffset, expected)
    ensures |weeks| == NaturalWeekCount(startOffset, DaysInMonth(first.year, first.month))
    ensures Placed(weeks, [], expected)
  {
    var currentWeek := LeadInDays(first, startOffset, expected);
    weeks, currentWeek := MonthDays(first, startOffset, today, currentWeek, expected);
    if |currentWeek| > 0 {
      weeks := LeadOutDays(first, startOffset, weeks, currentWeek, expected);
    }
  }

  /** The lead-in cells: the last `startOffset` days of the previous month. */
  method LeadInDays(first: Date, startOffset: int, ghost expected: seq<DayInfo>) returns (currentWeek: seq<DayInfo>)
    requires Valid(first) && 0 <= startOffset <= 6 && |expected| == 42
    requires LeadInExpected(first, startOffset, expected)
    ensures |currentWeek| == startOffset
    ensures Placed([], currentWeek, expected)
  {
    currentWeek := [];
    if startOffset > 0 {
      var previousMonth := AddMonths(first, -1);
      var previousMonthDays := DaysInMonth(previousMonth.year, previousMonth.month);
      for i := 0 to startOffset
        invariant |currentWeek| == i
        invariant forall j :: 0 <= j < i ==> currentWeek[j] == expected[j]
      {
        var day := previousMonthDays - startOffset + i + 1;
        var date := AddDays(first, -startOffset + i);
        currentWeek := currentWeek + [DayInfo(day, date, false, false)];
      }
    }
  }

  /** The month's own days, closing a row whenever it reaches 7 cells. */
  method MonthDays(first: Date, startOffset: int, today: Date, leadIn: seq<DayInfo>, ghost expected: seq<DayInfo>)
    returns (weeks: seq<seq<DayInfo>>, currentWeek: seq<DayInfo>)
    requires Valid(first) && 0 <= startOffset <= 6 && |expected| == 42
    requires |leadIn| == startOffset && Placed([], leadIn, expected)
    requires MonthExpected(first, startOffset, today, expected)
    ensures 7 * |weeks| + |currentWeek| == startOffset + DaysInMonth(first.year, first.month)
    ensures |currentWeek| < 7
    ensures Placed(weeks, currentWeek, expected)
  {
    weeks := [];
    currentWeek := leadIn;
    var n := DaysInMonth(first.year, first.month);
    for day := 1 to n + 1
      invariant 7 * |weeks| + |currentWeek| == startOffset + day - 1
      invariant |currentWeek| < 7
      invariant Placed(weeks, currentWeek, expected)
    {
      var date := AddDays(first, day - 1);
      var isToday := date == today;
      assert expected[startOffset + day - 1] == DayInfo(day, date, true, isToday);
      PlacedAppend(weeks, currentWeek, expected, DayInfo(day, date, true, isToday));
      currentWeek := currentWeek + [DayInfo(day, date, true, isToday)];
      if |currentWeek| == 7 {
        PlacedFlush(weeks, currentWeek, expected);
        weeks := weeks + [currentWeek];
        currentWeek := [];
      }
    }
  }

  /** The lead-out cells: the first days of the next month, completing the open row. */
  method LeadOutDays(first: Date, startOffset: int, weeks0: seq<seq<DayInfo>>, openWeek: seq<DayInfo>,
                     ghost expected: seq<DayInfo>)
    returns (weeks: seq<seq<DayInfo>>)
    requires Valid(first) && first.day == 1 && 0 <= startOffset <= 6 && |expected| == 42
    requires 0 < |openWeek| < 7 && Placed(weeks0, openWeek, expected)
    requires 7 * |weeks0| + |openWeek| == startOffset + DaysInMonth(first.year, first.month)
    requires TrailingExpected(first, startOffset, expected)
    ensures |weeks| == |weeks0| + 1
    ensures Placed(weeks, [], expected)
  {
    var n := DaysInMonth(first.year, first.month);
    var currentWeek := openWeek;
    var remainingDays := 7 - |currentWeek|;
    var nextMonth := AddMonths(first, 1);
    for day := 1 to remainingDays + 1
      invariant |currentWeek| == 7 - remainingDays + day - 1
      invariant Placed(weeks0, currentWeek, expected)
    {
      var date := AddDays(nextMonth, day - 1);
      LeadOutDate(first, day);
      assert expected[startOffset + n + day - 1] == DayInfo(day, date, false, false);
      PlacedAppend(weeks0, currentWeek, expected, DayInfo(day, date, false, false));
      currentWeek := currentWeek + [DayInfo(day, date, false, false)];
    }
    PlacedFlush(weeks0, currentWeek, expected);
    weeks := weeks0 + [currentWeek];
  }

  /** Whole synthetic rows, each continuing one day at a time from the last placed date, up to 6 rows. */
  method PadWeeks(first: Date, startOffset: int, weeks0: seq<seq<DayInfo>>, ghost expected: seq<DayInfo>)
    returns (weeks: seq<seq<DayInfo>>)
    requires Valid(first) && 0 <= startOffset <= 6 && |expected| == 42
    requires 1 <= |weeks0| <= 6 && Placed(weeks0, [], expected)
    requires startOffset + DaysInMonth(first.year, first.month) <= 7 * |weeks0|
    requires forall k :: startOffset <= k < 42 ==> expected[k].date == AddDays(first, k - startOffset)
    requires TrailingExpected(first, startOffset, expected)
    ensures |weeks| == 6
    ensures Placed(weeks, [], expected)
  {
    weeks := weeks0;
    while |weeks| < 6
      invariant 1 <= |weeks| <= 6
      invariant startOffset + DaysInMonth(first.year, first.month) <= 7 * |weeks|
      invariant Placed(weeks, [], expected)
    {
      var lastDate := weeks[|weeks| - 1][6].date;
      assert lastDate == expected[7 * |weeks| - 1].date;
      var nextWeek := PadRow(lastDate);
      PadRowPlaced(first, startOffset, weeks, nextWeek, expected);
      weeks := weeks + [nextWeek];
    }
  }

  /** One synthetic row: the seven days after `lastDate`, none in the month. */
  method PadRow(lastDate: Date) returns (row: seq<DayInfo>)
    requires Valid(lastDate)
    ensures |row| == 7
    ensures forall j :: 0 <= j < 7 ==>
      row[j] == DayInfo(AddDays(lastDate, j + 1).day, AddDays(lastDate, j + 1), false, false)
  {
    row := [];
    for i := 1 to 8
      invariant |row| == i - 1
      invariant forall j :: 0 <= j < i - 1 ==>
        row[j] == DayInfo(AddDays(lastDate, j + 1).day, AddDays(lastDate, j + 1), false, false)
    {
      var date := AddDays(lastDate, i);
      row := row + [DayInfo(date.day, date, false, false)];
    }
  }

  /** A synthetic row following the last complete row continues the expected cells. */
  lemma PadRowPlaced(first: Date, startOffset: int, weeks: seq<seq<DayInfo>>, row: seq<DayInfo>,
                     expected: seq<DayInfo>)
    requires Valid(first) && 0 <= startOffset <= 6 && |expected| == 42
    requires 1 <= |weeks| <= 5 && Placed(weeks, [], expected)
    requires startOffset + DaysInMonth(first.year, first.month) <= 7 * |weeks|
    requires TrailingExpected(first, startOffset, expected)
    requires |row| == 7 && forall j :: 0 <= j < 7 ==>
      var lastDate := AddDays(first, 7 * |weeks| - 1 - startOffset);
      row[j] == DayInfo(AddDays(lastDate, j + 1).day, AddDays(lastDate, j + 1), false, false)
    ensures Placed(weeks + [row], [], expected)
  {
    var last := 7 * |weeks| - 1;
    forall j | 0 <= j < 7
      ensures row[j] == expected[7 * |weeks| + j]
    {
      AddDaysAdd(first, last - startOffset, j + 1, last + j + 1 - startOffset);
      TrailingAt(first, startOffset, expected, last + j + 1);
    }
    PlacedRow(weeks, row, expected);
  }

  /** Closing a row equal to the next seven expected cells keeps the placement. */
  lemma PlacedRow(weeks: seq<seq<DayInfo>>, row: seq<DayInfo>, expected: seq<DayInfo>)
    requires Placed(weeks, [], expected) && |row| == 7 && 7 * |weeks| + 7 <= |expected|
    requires forall j :: 0 <= j < 7 ==> row[j] == expected[7 * |weeks| + j]
    ensures Placed(weeks + [row], [], expected)
  {
  }

  // Week numbers

  /** Index of the first current-month cell of `week` at or after `from`, if any. */
  function FirstCurrentMonth(week: seq<DayInfo>, from: nat): (r: Option<nat>)
    ensures r.Some? ==> from <= r.value < |week| && week[r.value].isCurrentMonth
    ensures r.Some? ==> forall i :: from <= i < r.value ==> !week[i].isCurrentMonth
    ensures r.None? ==> forall i :: from <= i < |week| ==> !week[i].isCurrentMonth
    decreases |week| - from
  {
    if from >= |week| then None
    else if week[from].isCurrentMonth then Some(from)
    else FirstCurrentMonth(week, from + 1)
  }

  /**
   The number shown beside a row: the week-of-year of the row's first
   current-month cell; for a row without one, that of the cell at index 3
   when the row has more than 3 cells; otherwise 0.
   */
  function WeekNumber(week: seq<DayInfo>, weekOfYear: Date -> int): (r: int)
    ensures forall j ::
      (0 <= j < |week| && week[j].isCurrentMonth && forall i :: 0 <= i < j ==> !week[i].isCurrentMonth)
      ==> r == weekOfYear(week[j].date)
    ensures (forall i :: 0 <= i < |week| ==> !week[i].isCurrentMonth) ==>
      r == (if |week| > 3 then weekOfYear(week[3].date) else 0)
  {
    match FirstCurrentMonth(week, 0)
    case Some(j) => weekOfYear(week[j].date)
    case None => if |week| > 3 then weekOfYear(week[3].date) else 0
  }

  // Weekday header

  /** The header label of a weekday (1 = Sunday ... 7 = Saturday): the initial of its English name. */
  function WeekdayInitial(w: int): string
    requires 1 <= w <= 7
  {
    if w == 1 || w == 7 then "S" else if w == 2 then "M" else if w == 3 || w == 5 then "T"
    else if w == 4 then "W" else "F"
  }

  const DaysOfWeek: seq<string> := ["M", "T", "W", "T", "F", "S", "S"]
  const DaysOfWeekSunday: seq<string> := ["S", "M", "T", "W", "T", "F", "S"]

  /** The header labels above the grid's columns, chosen by the first-day setting. */
  function WeekDays(f: FirstDayOfWeek): (r: seq<string>)
    ensures |r| == 7
    ensures forall c :: 0 <= c < 7 ==> r[c] == WeekdayInitial(ColumnWeekday(f, c))
  {
    LabelTables();
    if f == Monday then DaysOfWeek else DaysOfWeekSunday
  }

  /** Both label tables spell the initials of their columns' weekdays. */
  lemma LabelTables()
    ensures forall c :: 0 <= c < 7 ==> DaysOfWeek[c] == WeekdayInitial(ColumnWeekday(Monday, c))
    ensures forall c :: 0 <= c < 7 ==> DaysOfWeekSunday[c] == WeekdayInitial(ColumnWeekday(Sunday, c))
  {
    forall c | 0 <= c < 7
      ensures DaysOfWeek[c] == WeekdayInitial(ColumnWeekday(Monday, c))
      ensures DaysOfWeekSunday[c] == WeekdayInitial(ColumnWeekday(Sunday, c))
    {
      LabelColumn(c);
    }
  }

  /** Column `c` of each label table: Monday-first starts at weekday 2, Sunday-first at weekday 1. */
  lemma LabelColumn(c: int)
    requires 0 <= c < 7
    ensures DaysOfWeek[c] == WeekdayInitial(ColumnWeekday(Monday, c))
    ensures DaysOfWeekSunday[c] == WeekdayInitial(ColumnWeekday(Sunday, c))
  {
    assert ColumnWeekday(Monday, c) == (if c == 6 then 1 else c + 2);
    assert ColumnWeekday(Sunday, c) == c + 1;
  }


  // Navigation

  /** The platform's month arithmetic: fails for a component set that names no day. */
  function DateByAddingMonths(d: Date, k: int): (r: Option<Date>)
    ensures r.Some? <==> Valid(d)
  {
    if Valid(d) then Some(AddMonths(d, k)) else None
  }

  /** The reference date one month later, or unchanged when the month arithmetic fails. */
  function NextMonth(d: Date): (r: Date)
    ensures Valid(d) ==> Valid(r) && MonthIndex(r) == MonthIndex(d) + 1
    ensures Valid(d) ==> r.day == d.day || (r.day < d.day && r.day == DaysInMonth(r.year, r.month))
    ensures !Valid(d) ==> r == d
  {
    DateByAddingMonths(d, 1).GetOr(d)
  }

  /** The reference date one month earlier, or unchanged when the month arithmetic fails. */
  function PreviousMonth(d: Date): (r: Date)
    ensures Valid(d) ==> Valid(r) && MonthIndex(r) == MonthIndex(d) - 1
    ensures Valid(d) ==> r.day == d.day || (r.day < d.day && r.day == DaysInMonth(r.year, r.month))
    ensures !Valid(d) ==> r == d
  {
    DateByAddingMonths(d, -1).GetOr(d)
  }

  /** Jumping to today sets the reference date to the clock's date. */
  function JumpToToday(now: Date): Date {
    now
  }
}
