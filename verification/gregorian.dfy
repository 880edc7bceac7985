/**
 The fixed calendar the model uses in place of the platform calendar: the
 proleptic Gregorian calendar with astronomical year numbering (year 0 is
 1 BC), no time zones and no daylight saving time.

 Weekdays are numbered as the platform calendar numbers them:
 1 = Sunday, 2 = Monday, ..., 7 = Saturday.
 */
module Gregorian {

  datatype Date = Date(year: int, month: int, day: int)

  predicate IsLeapYear(y: int) {
    y % 4 == 0 && (y % 100 != 0 || y % 400 == 0)
  }

  function YearLength(y: int): int {
    if IsLeapYear(y) then 366 else 365
  }

  /** Number of days in month `m` (1 = January) of year `y`. */
  function DaysInMonth(y: int, m: int): (n: int)
    requires 1 <= m <= 12
    ensures 28 <= n <= 31
  {
    if m == 2 then (if IsLeapYear(y) then 29 else 28)
    else if m == 4 || m == 6 || m == 9 || m == 11 then 30
    else 31
  }

  /** A component set that names an existing day. */
  predicate Valid(d: Date) {
    1 <= d.month <= 12 && 1 <= d.day <= DaysInMonth(d.year, d.month)
  }

  /** Days in all years from year 1 up to (not including) year `y`; negative before year 1. */
  function DaysBeforeYear(y: int): int
    decreases if y >= 1 then y else 2 - y
  {
    if y == 1 then 0
    else if y > 1 then DaysBeforeYear(y - 1) + YearLength(y - 1)
    else DaysBeforeYear(y + 1) - YearLength(y)
  }

  /** Days in the months of year `y` before month `m`. */
  function DaysBeforeMonth(y: int, m: int): int
    requires 1 <= m <= 12
  {
    var common :=
      if m == 1 then 0 else if m == 2 then 31 else if m == 3 then 59
      else if m == 4 then 90 else if m == 5 then 120 else if m == 6 then 151
      else if m == 7 then 181 else if m == 8 then 212 else if m == 9 then 243
      else if m == 10 then 273 else if m == 11 then 304 else 334;
    common + (if m > 2 && IsLeapYear(y) then 1 else 0)
  }

  /** Ordinal of a day: 0001-01-01 is day 1, and consecutive days have consecutive ordinals. */
  function DayNumber(d: Date): int
    requires Valid(d)
  {
    DaysBeforeYear(d.year) + DaysBeforeMonth(d.year, d.month) + d.day
  }

  /** Weekday of a day, 1 = Sunday ... 7 = Saturday (0001-01-01 was a Monday). */
  function Weekday(d: Date): (w: int)
    requires Valid(d)
    ensures 1 <= w <= 7
  {
    DayNumber(d) % 7 + 1
  }

  lemma DivStep(y: int)
    ensures y / 4 - (y - 1) / 4 == (if y % 4 == 0 then 1 else 0)
    ensures y / 100 - (y - 1) / 100 == (if y % 100 == 0 then 1 else 0)
    ensures y / 400 - (y - 1) / 400 == (if y % 400 == 0 then 1 else 0)
  {
  }

  lemma DivisibilityChain(y: int)
    ensures y % 100 == 0 ==> y % 4 == 0
    ensures y % 400 == 0 ==> y % 100 == 0
  {
    if y % 100 == 0 {
      var q := y / 100;
      assert y == 4 * (25 * q);
    }
    if y % 400 == 0 {
      var q := y / 400;
      assert y == 100 * (4 * q);
    }
  }

  function ClosedForm(y: int): int {
    var p := y - 1;
    365 * p + p / 4 - p / 100 + p / 400
  }

  lemma ClosedFormStep(y: int)
    ensures ClosedForm(y + 1) == ClosedForm(y) + YearLength(y)
  {
    DivStep(y);
    DivisibilityChain(y);
  }

  /**
   The day count agrees with the usual leap-day formula: 365 days a year plus
   one for every fourth year, less the centuries, plus every fourth century.
   */
  lemma {:induction false} DaysBeforeYearClosedForm(y: int)
    ensures DaysBeforeYear(y) == ClosedForm(y)
    decreases if y >= 1 then y else 2 - y
  {
    if y > 1 {
      DaysBeforeYearClosedForm(y - 1);
      ClosedFormStep(y - 1);
    } else if y < 1 {
      DaysBeforeYearClosedForm(y + 1);
      ClosedFormStep(y);
    }
  }

  /**
   0001-01-01 was a Monday and 2000-01-01 a Saturday, as the Gregorian calendar has them.
   The year 2000 arrives as a parameter so that Dafny does not unroll
   `DaysBeforeYear` two thousand times on a literal argument.
   */
  lemma WeekdayAnchors(y2000: int)
    requires y2000 == 2000
    ensures Weekday(Date(1, 1, 1)) == 2
    ensures Weekday(Date(y2000, 1, 1)) == 7
  {
    DaysBeforeYearClosedForm(y2000);
    assert ClosedForm(y2000) == 730119;
    assert DayNumber(Date(y2000, 1, 1)) == 730120;
  }

  /** A year contributes exactly its length to the day count. */
  lemma DaysBeforeNextYear(y: int)
    ensures DaysBeforeYear(y + 1) == DaysBeforeYear(y) + YearLength(y)
  {
  }

  /** Day counts of earlier years never overtake those of later years. */
  lemma {:induction false} DaysBeforeYearMonotone(y1: int, y2: int)
    requires y1 < y2
    ensures DaysBeforeYear(y1 + 1) <= DaysBeforeYear(y2)
    decreases y2 - y1
  {
    if y1 + 1 < y2 {
      DaysBeforeYearMonotone(y1 + 1, y2);
      DaysBeforeNextYear(y1 + 1);
    }
  }

  /** A month's days fit between the start of that month and the start of any later month. */
  lemma DaysBeforeMonthMonotone(y: int, m1: int, m2: int)
    requires 1 <= m1 < m2 <= 12
    ensures DaysBeforeMonth(y, m1) + DaysInMonth(y, m1) <= DaysBeforeMonth(y, m2)
  {
  }

  /** The calendar day after `d`. */
  function NextDay(d: Date): (r: Date)
    requires Valid(d)
    ensures Valid(r)
  {
    if d.day < DaysInMonth(d.year, d.month) then Date(d.year, d.month, d.day + 1)
    else if d.month < 12 then Date(d.year, d.month + 1, 1)
    else Date(d.year + 1, 1, 1)
  }

  /** The calendar day before `d`. */
  function PrevDay(d: Date): (r: Date)
    requires Valid(d)
    ensures Valid(r)
  {
    if d.day > 1 then Date(d.year, d.month, d.day - 1)
    else if d.month > 1 then Date(d.year, d.month - 1, DaysInMonth(d.year, d.month - 1))
    else Date(d.year - 1, 12, 31)
  }

  /** The next day has the next day number, also across month and year ends. */
  lemma NextDayNumber(d: Date)
    requires Valid(d)
    ensures DayNumber(NextDay(d)) == DayNumber(d) + 1
  {
    if d.day == DaysInMonth(d.year, d.month) && d.month == 12 {
      DaysBeforeNextYear(d.year);
    }
  }

  /** The previous day has the previous day number, also across month and year starts. */
  lemma PrevDayNumber(d: Date)
    requires Valid(d)
    ensures DayNumber(PrevDay(d)) == DayNumber(d) - 1
  {
    if d.day == 1 && d.month == 1 {
      DaysBeforeNextYear(d.year - 1);
    }
  }

  /** The day `n` days after `d` (before it when `n` is negative), stepping one day at a time. */
  function AddDays(d: Date, n: int): (r: Date)
    requires Valid(d)
    ensures Valid(r)
    decreases if n >= 0 then n else -n
  {
    if n == 0 then d
    else if n > 0 then AddDays(NextDay(d), n - 1)
    else AddDays(PrevDay(d), n + 1)
  }

  /** Adding `n` days moves the day number by exactly `n`. */
  lemma {:induction false} AddDaysNumber(d: Date, n: int)
    requires Valid(d)
    ensures DayNumber(AddDays(d, n)) == DayNumber(d) + n
    decreases if n >= 0 then n else -n
  {
    if n > 0 {
      NextDayNumber(d);
      AddDaysNumber(NextDay(d), n - 1);
    } else if n < 0 {
      PrevDayNumber(d);
      AddDaysNumber(PrevDay(d), n + 1);
    }
  }

  /** Every valid day lies within its own year's range of day numbers. */
  lemma DayNumberInYear(d: Date)
    requires Valid(d)
    ensures DaysBeforeYear(d.year) < DayNumber(d) <= DaysBeforeYear(d.year + 1)
  {
    DaysBeforeNextYear(d.year);
  }

  /** Distinct valid days have distinct day numbers. */
  lemma DayNumberInjective(a: Date, b: Date)
    requires Valid(a) && Valid(b)
    requires DayNumber(a) == DayNumber(b)
    ensures a == b
  {
    SameYear(a, b);
    SameMonth(a, b);
  }

  /** Days with the same day number lie in the same year. */
  lemma SameYear(a: Date, b: Date)
    requires Valid(a) && Valid(b)
    requires DayNumber(a) == DayNumber(b)
    ensures a.year == b.year
  {
    DayNumberInYear(a);
    DayNumberInYear(b);
    if a.year < b.year {
      DaysBeforeYearMonotone(a.year, b.year);
    } else if b.year < a.year {
      DaysBeforeYearMonotone(b.year, a.year);
    }
  }

  /** Within one year, the same day-of-year means the same month. */
  lemma SameMonth(a: Date, b: Date)
    requires Valid(a) && Valid(b) && a.year == b.year
    requires DaysBeforeMonth(a.year, a.month) + a.day == DaysBeforeMonth(b.year, b.month) + b.day
    ensures a.month == b.month
  {
    if a.month < b.month {
      DaysBeforeMonthMonotone(a.year, a.month, b.month);
    } else if b.month < a.month {
      DaysBeforeMonthMonotone(a.year, b.month, a.month);
    }
  }

  /** Any valid day whose ordinal is `n` past that of `d` is the result of adding `n` days. */
  lemma AddDaysIs(d: Date, n: int, e: Date)
    requires Valid(d) && Valid(e)
    requires DayNumber(e) == DayNumber(d) + n
    ensures AddDays(d, n) == e
  {
    AddDaysNumber(d, n);
    DayNumberInjective(AddDays(d, n), e);
  }

  /**
   Adding days composes: first `a` days and then `b` days is `s == a + b` days.
   The sum is a parameter so that callers can name it exactly as it appears
   in their own `AddDays` terms, which the verifier matches syntactically.
   */
  lemma AddDaysAdd(d: Date, a: int, b: int, s: int)
    requires Valid(d) && s == a + b
    ensures AddDays(AddDays(d, a), b) == AddDays(d, s)
  {
    AddDaysNumber(d, a);
    AddDaysNumber(d, s);
    AddDaysNumber(AddDays(d, a), b);
    AddDaysIs(AddDays(d, a), b, AddDays(d, s));
  }

  /** Adding one more day (`m == n + 1`) is taking the next day. */
  lemma AddDaysSucc(d: Date, n: int, m: int)
    requires Valid(d) && m == n + 1
    ensures AddDays(d, m) == NextDay(AddDays(d, n))
  {
    AddDaysNumber(d, n);
    NextDayNumber(AddDays(d, n));
    AddDaysIs(d, m, NextDay(AddDays(d, n)));
  }

  /** Different offsets from the same day give different days. */
  lemma AddDaysInjective(d: Date, a: int, b: int)
    requires Valid(d) && AddDays(d, a) == AddDays(d, b)
    ensures a == b
  {
    AddDaysNumber(d, a);
    AddDaysNumber(d, b);
  }

  /** The weekday advances by `n` (mod 7) when `n` days are added. */
  lemma WeekdayAddDays(d: Date, n: int)
    requires Valid(d)
    ensures Weekday(AddDays(d, n)) == (Weekday(d) - 1 + n) % 7 + 1
  {
    AddDaysNumber(d, n);
    ModShift(DayNumber(d), n);
  }

  lemma ModShift(a: int, n: int)
    ensures (a % 7 + n) % 7 == (a + n) % 7
  {
    var q := a / 7;
    assert a == 7 * q + a % 7;
    assert a + n == 7 * q + (a % 7 + n);
  }

  /** The day `j` days after the 1st of a month, for `j` inside the month, is day `j + 1` of it. */
  lemma DayOfMonth(first: Date, j: int)
    requires Valid(first) && first.day == 1
    requires 0 <= j < DaysInMonth(first.year, first.month)
    ensures AddDays(first, j) == Date(first.year, first.month, j + 1)
  {
    AddDaysIs(first, j, Date(first.year, first.month, j + 1));
  }

  /** Exactly the offsets `0 <= j < DaysInMonth` from the 1st of a month stay in that month. */
  lemma MonthMembership(first: Date, j: int)
    requires Valid(first) && first.day == 1
    ensures var r := AddDays(first, j);
      (r.year == first.year && r.month == first.month) <==> 0 <= j < DaysInMonth(first.year, first.month)
  {
    AddDaysNumber(first, j);
    if 0 <= j < DaysInMonth(first.year, first.month) {
      DayOfMonth(first, j);
    }
  }

  /** Months counted from year 0: January of year `y` is month `12 * y`. */
  function MonthIndex(d: Date): int {
    12 * d.year + d.month - 1
  }

  /**
   The same day `k` months later (earlier when `k` is negative), clamped to the
   last day of the target month when that month is shorter, as the platform
   calendar's month arithmetic does.
   */
  function AddMonths(d: Date, k: int): (r: Date)
    requires Valid(d)
    ensures Valid(r)
    ensures MonthIndex(r) == MonthIndex(d) + k
    ensures r.day <= d.day
    ensures r.day == d.day || r.day == DaysInMonth(r.year, r.month)
  {
    var t := MonthIndex(d) + k;
    var y := t / 12;
    var m := t % 12 + 1;
    var dim := DaysInMonth(y, m);
    Date(y, m, if d.day <= dim then d.day else dim)
  }

  /** Two valid month positions with the same month index are the same year and month. */
  lemma MonthIndexInjective(a: Date, b: Date)
    requires 1 <= a.month <= 12 && 1 <= b.month <= 12
    requires MonthIndex(a) == MonthIndex(b)
    ensures a.year == b.year && a.month == b.month
  {
  }

  /** The 1st of the month after `first`'s month is `DaysInMonth` days after `first`. */
  lemma NextMonthFirst(first: Date)
    requires Valid(first) && first.day == 1
    ensures AddMonths(first, 1) == AddDays(first, DaysInMonth(first.year, first.month))
  {
    var n := DaysInMonth(first.year, first.month);
    var last := Date(first.year, first.month, n);
    var nx := AddMonths(first, 1);
    NextDayNumber(last);
    MonthIndexInjective(nx, NextDay(last));
    AddDaysIs(first, n, nx);
  }

  /** The 1st of the month before `first`'s month lies that month's length before `first`. */
  lemma PreviousMonthFirst(first: Date)
    requires Valid(first) && first.day == 1
    ensures var p := AddMonths(first, -1);
      p.day == 1 && AddDays(first, -DaysInMonth(p.year, p.month)) == p
  {
    var p := AddMonths(first, -1);
    var last := Date(p.year, p.month, DaysInMonth(p.year, p.month));
    NextDayNumber(last);
    MonthIndexInjective(NextDay(last), first);
    AddDaysIs(first, -DaysInMonth(p.year, p.month), p);
  }
}
