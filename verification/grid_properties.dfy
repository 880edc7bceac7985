/**
 What the calendar popover's grid promises, proved about the reference
 definition `CalendarView.Grid` (which the grid builder is proved to produce):
 consecutive dates, the current-month block, the today flag, column weekdays,
 week numbers, and how month navigation moves the grid.
 */
module GridProperties {
  import opened Wrappers
  import opened Gregorian
  import opened SettingsManager
  import opened CalendarView

  /** Every cell of the grid is its flat cell. */
  lemma GridCells(currentDate: Date, f: FirstDayOfWeek, today: Date)
    requires Valid(currentDate)
    ensures var g := Grid(currentDate, f, today);
      forall w, c :: 0 <= w < 6 && 0 <= c < 7 ==>
        g[w][c] == Cell(MonthStart(currentDate), GridOffset(currentDate, f), today, 7 * w + c)
  {
    forall w, c | 0 <= w < 6 && 0 <= c < 7 {
      GridCell(currentDate, f, today, w, c);
    }
  }

  /**
   Read row-major, the cells show consecutive days starting `offset` days
   before the 1st of the month, and each cell's number is its date's day.
   */
  lemma GridConsecutive(currentDate: Date, f: FirstDayOfWeek, today: Date)
    requires Valid(currentDate)
    ensures var g := Grid(currentDate, f, today);
      g[0][0].date == AddDays(MonthStart(currentDate), -GridOffset(currentDate, f))
    ensures var g := Grid(currentDate, f, today);
      forall w, c :: 0 <= w < 6 && 0 <= c < 7 ==> Valid(g[w][c].date) && g[w][c].day == g[w][c].date.day
    ensures var g := Grid(currentDate, f, today);
      forall w, c :: 0 <= w < 6 && 0 <= c < 6 ==> Valid(g[w][c].date) && g[w][c + 1].date == NextDay(g[w][c].date)
    ensures var g := Grid(currentDate, f, today);
      forall w :: 0 <= w < 5 ==> Valid(g[w][6].date) && g[w + 1][0].date == NextDay(g[w][6].date)
  {
    GridCell(currentDate, f, today, 0, 0);
    GridDays(currentDate, f, today);
    GridRowsStep(currentDate, f, today);
    GridRowsJoin(currentDate, f, today);
  }

  /** Every cell shows a real day, numbered by its day of the month. */
  lemma GridDays(currentDate: Date, f: FirstDayOfWeek, today: Date)
    requires Valid(currentDate)
    ensures var g := Grid(currentDate, f, today);
      forall w, c :: 0 <= w < 6 && 0 <= c < 7 ==> Valid(g[w][c].date) && g[w][c].day == g[w][c].date.day
  {
    var g: seq<seq<DayInfo>> := Grid(currentDate, f, today);
    forall w, c | 0 <= w < 6 && 0 <= c < 7
      ensures Valid(g[w][c].date) && g[w][c].day == g[w][c].date.day
    {
      CellDay(currentDate, f, today, w, c);
    }
  }

  /** Within a row, each cell shows the day after the cell to its left. */
  lemma GridRowsStep(currentDate: Date, f: FirstDayOfWeek, today: Date)
    requires Valid(currentDate)
    ensures var g := Grid(currentDate, f, today);
      forall w, c :: 0 <= w < 6 && 0 <= c < 6 ==> Valid(g[w][c].date) && g[w][c + 1].date == NextDay(g[w][c].date)
  {
    var g: seq<seq<DayInfo>> := Grid(currentDate, f, today);
    forall w, c | 0 <= w < 6 && 0 <= c < 6
      ensures Valid(g[w][c].date) && g[w][c + 1].date == NextDay(g[w][c].date)
    {
      NextCell(currentDate, f, today, w, c, w, c + 1);
    }
  }

  /** Each row starts on the day after the previous row's last cell. */
  lemma GridRowsJoin(currentDate: Date, f: FirstDayOfWeek, today: Date)
    requires Valid(currentDate)
    ensures var g := Grid(currentDate, f, today);
      forall w :: 0 <= w < 5 ==> Valid(g[w][6].date) && g[w + 1][0].date == NextDay(g[w][6].date)
  {
    var g: seq<seq<DayInfo>> := Grid(currentDate, f, today);
    forall w | 0 <= w < 5
      ensures Valid(g[w][6].date) && g[w + 1][0].date == NextDay(g[w][6].date)
    {
      NextCell(currentDate, f, today, w, 6, w + 1, 0);
    }
  }

  /** Each cell shows a real day, numbered by its day of the month. */
  lemma CellDay(currentDate: Date, f: FirstDayOfWeek, today: Date, w: int, c: int)
    requires Valid(currentDate) && 0 <= w < 6 && 0 <= c < 7
    ensures var g := Grid(currentDate, f, today);
      Valid(g[w][c].date) && g[w][c].day == g[w][c].date.day
  {
    GridCell(currentDate, f, today, w, c);
  }

  /** The cell after (w, c) in row-major order shows the next day. */
  lemma NextCell(currentDate: Date, f: FirstDayOfWeek, today: Date, w: int, c: int, w2: int, c2: int)
    requires Valid(currentDate) && 0 <= w < 6 && 0 <= c < 7 && 0 <= w2 < 6 && 0 <= c2 < 7
    requires 7 * w2 + c2 == 7 * w + c + 1
    ensures var g := Grid(currentDate, f, today);
      Valid(g[w][c].date) && g[w2][c2].date == NextDay(g[w][c].date)
  {
    var offset := GridOffset(currentDate, f);
    GridCell(currentDate, f, today, w, c);
    GridCell(currentDate, f, today, w2, c2);
    AddDaysSucc(MonthStart(currentDate), 7 * w + c - offset, 7 * w2 + c2 - offset);
  }

  /** The lead-in cells count back from the previous month's last day. */
  lemma GridLeadIn(currentDate: Date, f: FirstDayOfWeek, today: Date)
    requires Valid(currentDate)
    ensures var g := Grid(currentDate, f, today);
      var prev := AddMonths(MonthStart(currentDate), -1);
      var offset := GridOffset(currentDate, f);
      forall c :: 0 <= c < offset ==>
        g[0][c].day == DaysInMonth(prev.year, prev.month) - offset + c + 1 &&
        g[0][c].date == Date(prev.year, prev.month, g[0][c].day)
  {
    var g: seq<seq<DayInfo>> := Grid(currentDate, f, today);
    var first := MonthStart(currentDate);
    var offset := GridOffset(currentDate, f);
    var prev := AddMonths(first, -1);
    var pn := DaysInMonth(prev.year, prev.month);
    forall c | 0 <= c < offset
      ensures g[0][c].day == pn - offset + c + 1 && g[0][c].date == Date(prev.year, prev.month, g[0][c].day)
    {
      GridCell(currentDate, f, today, 0, c);
      LeadInCell(first, offset, today, c);
      PreviousMonthFirst(first);
      DayOfMonth(prev, pn - offset + c);
      AddDaysAdd(first, -pn, pn - offset + c, -offset + c);
    }
  }

  /**
   A cell belongs to the current month exactly when its flat index lies in
   the block of `DaysInMonth` cells starting at the offset; those cells are
   numbered 1, 2, ... in order.
   */
  lemma GridCurrentMonth(currentDate: Date, f: FirstDayOfWeek, today: Date)
    requires Valid(currentDate)
    ensures var g := Grid(currentDate, f, today);
      var offset := GridOffset(currentDate, f);
      var n := DaysInMonth(currentDate.year, currentDate.month);
      forall w, c :: 0 <= w < 6 && 0 <= c < 7 ==>
        (g[w][c].isCurrentMonth <==> offset <= 7 * w + c < offset + n)
    ensures var g := Grid(currentDate, f, today);
      var offset := GridOffset(currentDate, f);
      forall w, c :: 0 <= w < 6 && 0 <= c < 7 && g[w][c].isCurrentMonth ==>
        g[w][c].day == 7 * w + c - offset + 1 &&
        g[w][c].date == Date(currentDate.year, currentDate.month, g[w][c].day)
  {
    var g: seq<seq<DayInfo>> := Grid(currentDate, f, today);
    var offset := GridOffset(currentDate, f);
    var n := DaysInMonth(currentDate.year, currentDate.month);
    forall w, c | 0 <= w < 6 && 0 <= c < 7
      ensures (g[w][c].isCurrentMonth <==> offset <= 7 * w + c < offset + n)
      ensures g[w][c].isCurrentMonth ==>
        g[w][c].day == 7 * w + c - offset + 1 &&
        g[w][c].date == Date(currentDate.year, currentDate.month, g[w][c].day)
    {
      CurrentCell(currentDate, f, today, w, c);
    }
  }

  /** One cell's membership in the current month, and its numbering when it is a member. */
  lemma CurrentCell(currentDate: Date, f: FirstDayOfWeek, today: Date, w: int, c: int)
    requires Valid(currentDate) && 0 <= w < 6 && 0 <= c < 7
    ensures var g := Grid(currentDate, f, today);
      var offset := GridOffset(currentDate, f);
      var n := DaysInMonth(currentDate.year, currentDate.month);
      (g[w][c].isCurrentMonth <==> offset <= 7 * w + c < offset + n) &&
      (g[w][c].isCurrentMonth ==>
         g[w][c].day == 7 * w + c - offset + 1 &&
         g[w][c].date == Date(currentDate.year, currentDate.month, g[w][c].day))
  {
    GridCell(currentDate, f, today, w, c);
    CellMembership(MonthStart(currentDate), GridOffset(currentDate, f), today, 7 * w + c);
  }

  /** The flat cell `k` is in the month exactly in the block after the offset, numbered from 1. */
  lemma CellMembership(first: Date, offset: int, today: Date, k: int)
    requires Valid(first) && first.day == 1
    ensures var cell := Cell(first, offset, today, k);
      (cell.isCurrentMonth <==> offset <= k < offset + DaysInMonth(first.year, first.month)) &&
      (cell.isCurrentMonth ==>
         cell.day == k - offset + 1 && cell.date == Date(first.year, first.month, cell.day))
  {
    MonthMembership(first, k - offset);
    if 0 <= k - offset < DaysInMonth(first.year, first.month) {
      DayOfMonth(first, k - offset);
    }
  }

  /** The today flag sits only on a current-month cell showing `today`. */
  lemma GridTodaySound(currentDate: Date, f: FirstDayOfWeek, today: Date)
    requires Valid(currentDate)
    ensures var g := Grid(currentDate, f, today);
      forall w, c :: 0 <= w < 6 && 0 <= c < 7 && g[w][c].isToday ==>
        g[w][c].isCurrentMonth && g[w][c].date == today
  {
    GridCells(currentDate, f, today);
  }

  /** At most one cell carries the today flag. */
  lemma GridTodayUnique(currentDate: Date, f: FirstDayOfWeek, today: Date)
    requires Valid(currentDate)
    ensures var g := Grid(currentDate, f, today);
      forall w1, c1, w2, c2 ::
        0 <= w1 < 6 && 0 <= c1 < 7 && 0 <= w2 < 6 && 0 <= c2 < 7 &&
        g[w1][c1].isToday && g[w2][c2].isToday
        ==> w1 == w2 && c1 == c2
  {
    var g: seq<seq<DayInfo>> := Grid(currentDate, f, today);
    GridCells(currentDate, f, today);
    var first := MonthStart(currentDate);
    var offset := GridOffset(currentDate, f);
    forall w1, c1, w2, c2 |
      0 <= w1 < 6 && 0 <= c1 < 7 && 0 <= w2 < 6 && 0 <= c2 < 7 &&
      g[w1][c1].isToday && g[w2][c2].isToday
      ensures w1 == w2 && c1 == c2
    {
      AddDaysInjective(first, 7 * w1 + c1 - offset, 7 * w2 + c2 - offset);
    }
  }

  /** Some cell carries the today flag exactly when `today` is a day of the displayed month. */
  lemma GridTodayPresent(currentDate: Date, f: FirstDayOfWeek, today: Date)
    requires Valid(currentDate)
    ensures var g := Grid(currentDate, f, today);
      (exists w, c :: 0 <= w < 6 && 0 <= c < 7 && g[w][c].isToday) <==>
      (Valid(today) && today.year == currentDate.year && today.month == currentDate.month)
  {
    var g: seq<seq<DayInfo>> := Grid(currentDate, f, today);
    GridCells(currentDate, f, today);
    var first := MonthStart(currentDate);
    var offset := GridOffset(currentDate, f);
    if Valid(today) && today.year == currentDate.year && today.month == currentDate.month {
      var k := offset + today.day - 1;
      var w, c := k / 7, k % 7;
      assert 7 * w + c == k;
      DayOfMonth(first, today.day - 1);
      MonthMembership(first, today.day - 1);
      assert g[w][c].isToday;
    }
  }

  /** Cell (w, c) of the grid falls on the weekday the header labels column `c` with (see `WeekDays`). */
  lemma GridColumns(currentDate: Date, f: FirstDayOfWeek, today: Date, w: int, c: int)
    requires Valid(currentDate) && 0 <= w < 6 && 0 <= c < 7
    ensures var d := Grid(currentDate, f, today)[w][c].date;
      Valid(d) && Weekday(d) == ColumnWeekday(f, c)
  {
    GridCell(currentDate, f, today, w, c);
    CellWeekday(MonthStart(currentDate), f, GridOffset(currentDate, f), w, c);
  }

  /** The day `7w + c` cells after the grid's first cell falls on column `c`'s weekday. */
  lemma CellWeekday(first: Date, f: FirstDayOfWeek, offset: int, w: int, c: int)
    requires Valid(first) && offset == StartOffset(Weekday(first), f)
    ensures Weekday(AddDays(first, 7 * w + c - offset)) == ColumnWeekday(f, c)
  {
    var wf, fc, n := Weekday(first), FirstColumnWeekday(f), 7 * w + c - offset;
    assert wf == (fc - 1 + offset) % 7 + 1;
    WeekdayAddDays(first, n);
    ColumnShift(wf, fc, offset, w, c, n);
  }

  /** Moving `7w + c - offset` days from the weekday of column `offset` reaches the weekday of column `c`. */
  lemma ColumnShift(wf: int, fc: int, offset: int, w: int, c: int, n: int)
    requires wf == (fc - 1 + offset) % 7 + 1 && n == 7 * w + c - offset
    ensures (wf - 1 + n) % 7 + 1 == (fc - 1 + c) % 7 + 1
  {
    var a := fc - 1 + offset;
    ModShift(a, n);
    assert a + n == fc - 1 + c + 7 * w;
    ModWeeks(fc - 1 + c, w);
  }

  /**
   A month whose 1st is a Wednesday, shown Monday-first: the Monday cell of
   row 0 is a lead-in day and the Wednesday cell is the 1st.
   */
  lemma WednesdayStartMondayFirst(currentDate: Date, today: Date)
    requires Valid(currentDate) && Weekday(MonthStart(currentDate)) == 4
    ensures var g := Grid(currentDate, Monday, today);
      !g[0][0].isCurrentMonth && g[0][0].date.month != currentDate.month &&
      g[0][2].isCurrentMonth && g[0][2].day == 1
  {
    GridCurrentMonth(currentDate, Monday, today);
    GridLeadIn(currentDate, Monday, today);
    var prev := AddMonths(MonthStart(currentDate), -1);
    assert MonthIndex(prev) == MonthIndex(currentDate) - 1;
  }

  /**
   Switching the first day of the week moves the month's days between
   columns but keeps which dates the grid shows as the current month.
   */
  lemma FirstDayChangeKeepsMonth(currentDate: Date, f1: FirstDayOfWeek, f2: FirstDayOfWeek, today: Date,
                                 w: int, c: int)
    requires Valid(currentDate) && 0 <= w < 6 && 0 <= c < 7
    requires Grid(currentDate, f1, today)[w][c].isCurrentMonth
    ensures var g1, g2 := Grid(currentDate, f1, today), Grid(currentDate, f2, today);
      exists w2, c2 :: 0 <= w2 < 6 && 0 <= c2 < 7 && g2[w2][c2].isCurrentMonth && g2[w2][c2].date == g1[w][c].date
  {
    var g1: seq<seq<DayInfo>> := Grid(currentDate, f1, today);
    var g2: seq<seq<DayInfo>> := Grid(currentDate, f2, today);
    GridCurrentMonth(currentDate, f1, today);
    GridCurrentMonth(currentDate, f2, today);
    var k := GridOffset(currentDate, f2) + g1[w][c].day - 1;
    var w2, c2 := k / 7, k % 7;
    assert 7 * w2 + c2 == k;
    assert g2[w2][c2].isCurrentMonth;
  }

  /** Whole weeks do not change a weekday. */
  lemma ModWeeks(a: int, w: int)
    ensures (a + 7 * w) % 7 == a % 7
  {
    var q := a / 7;
    assert a + 7 * w == 7 * (q + w) + a % 7;
  }

  /** The grid depends on the reference date's year and month only. */
  lemma GridIgnoresDay(d1: Date, d2: Date, f: FirstDayOfWeek, today: Date)
    requires Valid(d1) && Valid(d2) && d1.year == d2.year && d1.month == d2.month
    ensures Grid(d1, f, today) == Grid(d2, f, today)
  {
  }

  /** The builder yields exactly the grid for a valid reference date and no rows otherwise. */
  method GridShape(currentDate: Date, f: FirstDayOfWeek, today: Date) returns (weeks: seq<seq<DayInfo>>)
    ensures Valid(currentDate) ==> |weeks| == 6 && forall w :: 0 <= w < 6 ==> |weeks[w]| == 7
    ensures !Valid(currentDate) ==> |weeks| == 0
  {
    weeks := GenerateWeeks(currentDate, f, today);
  }

  // Week numbers

  /**
   The number beside row 0 is the week of the 1st; beside any later row that
   still holds days of the month, the week of its first cell; beside a row
   after the month's end, the week of its middle cell.
   */
  lemma GridWeekNumbers(currentDate: Date, f: FirstDayOfWeek, today: Date, weekOfYear: Date -> int)
    requires Valid(currentDate)
    ensures var g := Grid(currentDate, f, today);
      WeekNumber(g[0], weekOfYear) == weekOfYear(MonthStart(currentDate))
    ensures var g := Grid(currentDate, f, today);
      var end := GridOffset(currentDate, f) + DaysInMonth(currentDate.year, currentDate.month);
      forall w :: 1 <= w < 6 && 7 * w < end ==> WeekNumber(g[w], weekOfYear) == weekOfYear(g[w][0].date)
    ensures var g := Grid(currentDate, f, today);
      var end := GridOffset(currentDate, f) + DaysInMonth(currentDate.year, currentDate.month);
      forall w :: 0 <= w < 6 && end <= 7 * w ==> WeekNumber(g[w], weekOfYear) == weekOfYear(g[w][3].date)
  {
    var g: seq<seq<DayInfo>> := Grid(currentDate, f, today);
    GridCells(currentDate, f, today);
    var first := MonthStart(currentDate);
    var offset := GridOffset(currentDate, f);
    GridCurrentMonth(currentDate, f, today);
    assert g[0][offset].isCurrentMonth;
    assert g[0][offset].date == first by {
      DayOfMonth(first, 0);
    }
    assert WeekNumber(g[0], weekOfYear) == weekOfYear(g[0][offset].date);
  }

  // Navigation

  /** One month on, the grid is that of the day after the month's last day. */
  lemma NextMonthStart(d: Date)
    requires Valid(d)
    ensures MonthStart(NextMonth(d)) == AddDays(MonthStart(d), DaysInMonth(d.year, d.month))
  {
    var first := MonthStart(d);
    var r := NextMonth(d);
    var a := AddMonths(first, 1);
    MonthIndexInjective(r, a);
    NextMonthFirst(first);
  }

  /** One month back, the grid is that of the day that many days before the 1st as the previous month has. */
  lemma PreviousMonthStart(d: Date)
    requires Valid(d)
    ensures var p := MonthStart(PreviousMonth(d));
      AddDays(MonthStart(d), -DaysInMonth(p.year, p.month)) == p
  {
    var first := MonthStart(d);
    var r := PreviousMonth(d);
    var a := AddMonths(first, -1);
    MonthIndexInjective(r, a);
    PreviousMonthFirst(first);
  }

  /**
   Forward then back returns to the same month; the day survives whenever
   it exists in every month (day 28 or earlier), and is clamped otherwise.
   */
  lemma NavigationRoundTrip(d: Date)
    requires Valid(d)
    ensures var r := PreviousMonth(NextMonth(d));
      r.year == d.year && r.month == d.month && r.day <= d.day
    ensures d.day <= 28 ==> PreviousMonth(NextMonth(d)) == d
    ensures var r := NextMonth(PreviousMonth(d));
      r.year == d.year && r.month == d.month && r.day <= d.day
    ensures d.day <= 28 ==> NextMonth(PreviousMonth(d)) == d
  {
    MonthIndexInjective(PreviousMonth(NextMonth(d)), d);
    MonthIndexInjective(NextMonth(PreviousMonth(d)), d);
  }

  /** After jumping to today, the grid flags today. */
  lemma JumpToTodayShowsToday(now: Date, f: FirstDayOfWeek)
    requires Valid(now)
    ensures var g := Grid(JumpToToday(now), f, now);
      exists w, c :: 0 <= w < 6 && 0 <= c < 7 && g[w][c].isToday && g[w][c].date == now
  {
    GridTodayPresent(JumpToToday(now), f, now);
    GridTodaySound(JumpToToday(now), f, now);
  }
}
