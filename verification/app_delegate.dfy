/**
 The menu-bar side of the app: the status button that shows today's day of
 the month (as a calendar icon or as plain digits) and the one-shot timer that
 fires one second after the next midnight, refreshes the button and arms the
 next timer.

 The clock is a parameter: an `Instant` is a calendar day plus the seconds
 elapsed since its midnight, in one fixed time zone without daylight saving.
 Timers are never run; the state records which timers exist, their waits and
 which of them are still live.
 */
module AppDelegate {
  import opened Wrappers
  import opened Gregorian
  import opened SettingsManager

  const SecondsPerDay: int := 86400

  /** A reading of the wall clock, truncated to whole seconds since midnight. */
  datatype Instant = Instant(date: Date, second: int)

  predicate ValidInstant(t: Instant) {
    Valid(t.date) && 0 <= t.second < SecondsPerDay
  }

  /** Seconds on a single time line (the platform's reference-date offset, up to a constant). */
  function Timestamp(t: Instant): int
    requires ValidInstant(t)
  {
    DayNumber(t.date) * SecondsPerDay + t.second
  }

  /** Later instants have larger timestamps, and equal timestamps name the same instant. */
  lemma TimestampOrder(a: Instant, b: Instant)
    requires ValidInstant(a) && ValidInstant(b)
    ensures Timestamp(a) == Timestamp(b) <==> a == b
    ensures DayNumber(a.date) < DayNumber(b.date) ==> Timestamp(a) < Timestamp(b)
  {
    var da, db := DayNumber(a.date), DayNumber(b.date);
    if da < db {
      assert da * SecondsPerDay + SecondsPerDay <= db * SecondsPerDay;
    } else if db < da {
      assert db * SecondsPerDay + SecondsPerDay <= da * SecondsPerDay;
    } else {
      DayNumberInjective(a.date, b.date);
    }
  }

  // The platform calendar's two calls used by the scheduler

  /** The same time of day one calendar day later; fails for an instant that names no time. */
  function DateByAddingDay(t: Instant): (r: Option<Instant>)
    ensures r.Some? <==> ValidInstant(t)
    ensures r.Some? ==> ValidInstant(r.value) && r.value.second == t.second
    ensures r.Some? ==> DayNumber(r.value.date) == DayNumber(t.date) + 1
  {
    if ValidInstant(t) then
      NextDayNumber(t.date);
      Some(Instant(NextDay(t.date), t.second))
    else None
  }

  /** The given time of day on the instant's calendar day; fails for an impossible time or instant. */
  function DateBySettingTime(t: Instant, hour: int, minute: int, second: int): (r: Option<Instant>)
    ensures r.Some? <==> ValidInstant(t) && 0 <= hour < 24 && 0 <= minute < 60 && 0 <= second < 60
    ensures r.Some? ==> ValidInstant(r.value) && r.value.date == t.date
    ensures r.Some? ==> r.value.second == 3600 * hour + 60 * minute + second
  {
    if ValidInstant(t) && 0 <= hour < 24 && 0 <= minute < 60 && 0 <= second < 60 then
      Some(Instant(t.date, 3600 * hour + 60 * minute + second))
    else None
  }

  /** The instant the rollover timer aims at: 00:00:01 on the next calendar day. */
  function NextDayTarget(now: Instant): (r: Option<Instant>)
    ensures r.Some? <==> ValidInstant(now)
    ensures r.Some? ==> ValidInstant(r.value) && r.value.second == 1
    ensures r.Some? ==> DayNumber(r.value.date) == DayNumber(now.date) + 1
  {
    match DateByAddingDay(now)
    case None => None
    case Some(tomorrow) => DateBySettingTime(tomorrow, 0, 0, 1)
  }

  /**
   Seconds from `now` until the target instant; none when either calendar
   call fails. For whole-second readings, 23:59:59 gives 2 and midnight
   itself 86401.
   */
  function NextDayUpdateInterval(now: Instant): (r: Option<int>)
    ensures r.Some? <==> ValidInstant(now)
    ensures r.Some? ==> r.value == SecondsPerDay - now.second + 1
    ensures r.Some? ==> 2 <= r.value <= SecondsPerDay + 1
  {
    match NextDayTarget(now)
    case None => None
    case Some(midnight) => Some(Timestamp(midnight) - Timestamp(now))
  }

  /** Waiting the interval from `now` lands exactly on 00:00:01 of the next day. */
  lemma IntervalReachesNextDay(now: Instant)
    requires ValidInstant(now)
    ensures var target := Instant(NextDay(now.date), 1);
      ValidInstant(target) && Timestamp(now) + NextDayUpdateInterval(now).value == Timestamp(target)
    ensures forall t ::
      (ValidInstant(t) && Timestamp(now) < Timestamp(t) < Timestamp(now) + NextDayUpdateInterval(now).value) ==>
      (t.date == now.date || (DayNumber(t.date) == DayNumber(now.date) + 1 && t.second == 0))
  {
    NextDayNumber(now.date);
    forall t | ValidInstant(t) && Timestamp(now) < Timestamp(t) < Timestamp(now) + NextDayUpdateInterval(now).value
      ensures t.date == now.date || (DayNumber(t.date) == DayNumber(now.date) + 1 && t.second == 0)
    {
      if DayNumber(t.date) == DayNumber(now.date) {
        DayNumberInjective(t.date, now.date);
      }
    }
  }

  // Timers and the status button

  /** A scheduled one-shot timer: its wait in seconds and whether it can still fire. */
  datatype Timer = Timer(wait: int, live: bool)

  /** The calendar-style icon image, drawn for one day number. */
  datatype CalendarIcon = CalendarIcon(day: int)

  /** The status-item button: an optional image and a title. */
  datatype StatusButton = StatusButton(image: Option<CalendarIcon>, title: string)

  /** Every timer ever scheduled, the one the delegate holds (an index), and the button. */
  datatype AppState = AppState(timers: seq<Timer>, dateUpdateTimer: Option<nat>, button: StatusButton)

  /** The held timer exists, and no timer other than the held one is live. */
  predicate SlotInvariant(s: AppState) {
    && (s.dateUpdateTimer.Some? ==> s.dateUpdateTimer.value < |s.timers|)
    && (forall i :: 0 <= i < |s.timers| && s.timers[i].live ==> s.dateUpdateTimer == Some(i))
  }

  /** Timer `k` is the only live timer. */
  predicate OnlyLive(timers: seq<Timer>, k: int) {
    forall i :: 0 <= i < |timers| ==> (timers[i].live <==> i == k)
  }

  /** No timer is live. */
  predicate NoneLive(timers: seq<Timer>) {
    forall i :: 0 <= i < |timers| ==> !timers[i].live
  }

  /** The slot invariant leaves at most one live timer. */
  lemma AtMostOneLive(s: AppState, i: int, j: int)
    requires SlotInvariant(s)
    requires 0 <= i < |s.timers| && 0 <= j < |s.timers| && s.timers[i].live && s.timers[j].live
    ensures i == j
  {
  }

  /** Stops the held timer, if any; the others and the button are untouched. */
  function Invalidate(s: AppState): (r: AppState)
    requires SlotInvariant(s)
    ensures |r.timers| == |s.timers| && r.dateUpdateTimer == s.dateUpdateTimer && r.button == s.button
    ensures forall i :: 0 <= i < |s.timers| ==> r.timers[i].wait == s.timers[i].wait
    ensures NoneLive(r.timers)
  {
    match s.dateUpdateTimer
    case None => s
    case Some(k) => s.(timers := s.timers[k := Timer(s.timers[k].wait, false)])
  }

  /**
   Stops the held timer, then, when both calendar calls succeed, schedules a
   fresh one-shot timer that waits until 00:00:01 tomorrow and holds it.
   When a call fails the delegate keeps holding the stopped timer.
   */
  function ScheduleNextDayUpdate(s: AppState, now: Instant): (r: AppState)
    requires SlotInvariant(s)
    ensures SlotInvariant(r)
    ensures r.button == s.button
    ensures |s.timers| <= |r.timers|
    ensures forall i :: 0 <= i < |s.timers| ==> r.timers[i].wait == s.timers[i].wait && !r.timers[i].live
    ensures ValidInstant(now) ==>
      && |r.timers| == |s.timers| + 1
      && r.dateUpdateTimer == Some(|s.timers|)
      && OnlyLive(r.timers, |s.timers|)
      && r.timers[|s.timers|].wait == SecondsPerDay - now.second + 1
    ensures !ValidInstant(now) ==>
      |r.timers| == |s.timers| && r.dateUpdateTimer == s.dateUpdateTimer && NoneLive(r.timers)
  {
    var stopped := Invalidate(s);
    match NextDayUpdateInterval(now)
    case None => stopped
    case Some(interval) =>
      stopped.(timers := stopped.timers + [Timer(interval, true)], dateUpdateTimer := Some(|stopped.timers|))
  }

  predicate AllDigits(s: string) {
    forall i :: 0 <= i < |s| ==> '0' <= s[i] <= '9'
  }

  /** Decimal digits of a natural number, most significant first, without leading zeros. */
  function Digits(n: nat): (s: string)
    ensures 1 <= |s| && AllDigits(s)
    ensures n < 10 <==> |s| == 1
    ensures s[0] == '0' ==> n == 0
    decreases n
  {
    if n < 10 then [DigitChar(n)] else Digits(n / 10) + [DigitChar(n % 10)]
  }

  function DigitChar(d: int): (c: char)
    requires 0 <= d < 10
    ensures '0' <= c <= '9'
  {
    "0123456789"[d]
  }

  /** The value of a string of decimal digits, most significant first. */
  function DigitsValue(s: string): (n: nat)
    requires AllDigits(s)
    decreases |s|
  {
    if |s| == 0 then 0 else 10 * DigitsValue(s[..|s| - 1]) + (s[|s| - 1] as int - '0' as int)
  }

  /** Reading the digits back gives the number. */
  lemma {:induction false} DigitsRoundTrip(n: nat)
    ensures DigitsValue(Digits(n)) == n
    decreases n
  {
    if n >= 10 {
      var s := Digits(n);
      assert s[..|s| - 1] == Digits(n / 10);
      DigitsRoundTrip(n / 10);
    }
  }

  /** Swift's string interpolation of an integer: a minus sign for negatives, then the digits. */
  function DecimalString(n: int): (s: string)
    ensures 1 <= |s|
    ensures n >= 0 <==> '0' <= s[0] <= '9'
  {
    if n < 0 then "-" + Digits(-n) else Digits(n)
  }

  /** Reads an optional minus sign followed by at least one decimal digit. */
  function ParseDecimal(s: string): (r: Option<int>)
    ensures r.Some? ==> 1 <= |s|
  {
    if |s| >= 1 && s[0] == '-' then
      if 2 <= |s| && AllDigits(s[1..]) then Some(0 - DigitsValue(s[1..])) else None
    else if 1 <= |s| && AllDigits(s) then Some(DigitsValue(s))
    else None
  }

  /** Parsing the interpolated string recovers the integer. */
  lemma DecimalRoundTrip(n: int)
    ensures ParseDecimal(DecimalString(n)) == Some(n)
  {
    var s := DecimalString(n);
    if n < 0 {
      var d := Digits(-n);
      DigitsRoundTrip(-n);
      ParseNegative(s, d, -n);
    } else {
      var d := Digits(n);
      DigitsRoundTrip(n);
      ParseDigits(s, n);
    }
  }

  /** A minus sign followed by the digits of `m` reads as -m. */
  lemma ParseNegative(s: string, d: string, m: nat)
    requires 1 <= |d| && AllDigits(d) && DigitsValue(d) == m
    requires s == "-" + d
    ensures ParseDecimal(s) == Some(0 - m as int)
  {
    assert s[0] == '-' && s[1..] == d;
  }

  /** Digits alone read as their value. */
  lemma ParseDigits(s: string, m: nat)
    requires 1 <= |s| && AllDigits(s) && DigitsValue(s) == m
    ensures ParseDecimal(s) == Some(m)
  {
    assert s[0] != '-';
  }

  /** Day numbers of a month have one or two digits. */
  lemma DayTitleLength(day: int)
    requires 1 <= day <= 31
    ensures |DecimalString(day)| == (if day < 10 then 1 else 2)
  {
    if day >= 10 {
      assert |Digits(day / 10)| == 1;
    }
  }

  /** The button shows `day` in the chosen style: the icon, or exactly the interpolated day as its title. */
  predicate ShowsDay(b: StatusButton, day: int, useCalendarIcon: bool) {
    if useCalendarIcon then b.image == Some(CalendarIcon(day)) && b.title == ""
    else b.image.None? && b.title == DecimalString(day) && ParseDecimal(b.title) == Some(day)
  }

  /**
   Redraws the button for today's day of the month: the calendar icon with
   an empty title when the icon style is on, otherwise no image and the day
   as a decimal title.
   */
  function UpdateMenuBarIcon(b: StatusButton, today: Date, settings: Settings): (r: StatusButton)
    ensures ShowsDay(r, today.day, settings.useCalendarIcon)
    ensures r.image.Some? <==> settings.useCalendarIcon
    ensures !settings.useCalendarIcon ==> |r.title| >= 1
  {
    if settings.useCalendarIcon then
      StatusButton(Some(CalendarIcon(today.day)), "")
    else
      DecimalRoundTrip(today.day);
      StatusButton(None, DecimalString(today.day))
  }

  /** The button shows exactly one style at a time, and the style decides the day it is read as. */
  lemma ShowsDayUnique(b: StatusButton, d1: int, d2: int, useCalendarIcon: bool)
    requires ShowsDay(b, d1, useCalendarIcon) && ShowsDay(b, d2, useCalendarIcon)
    ensures d1 == d2
  {
  }

  /** Redraws the button on request (after a settings change); the timers are untouched. */
  function RefreshMenuBarIcon(s: AppState, now: Instant, settings: Settings): (r: AppState)
    ensures r.timers == s.timers && r.dateUpdateTimer == s.dateUpdateTimer
    ensures ShowsDay(r.button, now.date.day, settings.useCalendarIcon)
  {
    s.(button := UpdateMenuBarIcon(s.button, now.date, settings))
  }

  /**
   The held timer fires once: it stops being live, the button is redrawn for
   the new day, and the next rollover is scheduled.
   */
  function Fire(s: AppState, k: nat, now: Instant, settings: Settings): (r: AppState)
    requires SlotInvariant(s)
    requires k < |s.timers| && s.timers[k].live
    ensures SlotInvariant(r)
    ensures |s.timers| <= |r.timers| && !r.timers[k].live
    ensures ShowsDay(r.button, now.date.day, settings.useCalendarIcon)
    ensures ValidInstant(now) ==> OnlyLive(r.timers, |s.timers|) && r.dateUpdateTimer == Some(|s.timers|)
    ensures !ValidInstant(now) ==> NoneLive(r.timers)
  {
    var spent := s.(timers := s.timers[k := Timer(s.timers[k].wait, false)]);
    var redrawn := RefreshMenuBarIcon(spent, now, settings);
    ScheduleNextDayUpdate(redrawn, now)
  }

  /** The state before launch: no timers and an empty button. */
  const Initial: AppState := AppState([], None, StatusButton(None, ""))

  /**
   Launch: draw the button for today, then schedule the first rollover.
   Creating the panel and hiding the dock icon change nothing modelled here.
   */
  function Launch(now: Instant, settings: Settings): (r: AppState)
    ensures SlotInvariant(r)
    ensures ShowsDay(r.button, now.date.day, settings.useCalendarIcon)
    ensures ValidInstant(now) ==>
      r.timers == [Timer(SecondsPerDay - now.second + 1, true)] && r.dateUpdateTimer == Some(0)
    ensures !ValidInstant(now) ==> r.timers == [] && r.dateUpdateTimer.None?
  {
    ScheduleNextDayUpdate(RefreshMenuBarIcon(Initial, now, settings), now)
  }

  /**
   Firing the held timer at any valid instant leaves exactly one live timer,
   the fresh one, so a run of rollovers never accumulates live timers.
   */
  lemma RolloverKeepsOneTimer(s: AppState, now: Instant, settings: Settings)
    requires SlotInvariant(s) && s.dateUpdateTimer.Some? && s.timers[s.dateUpdateTimer.value].live
    requires ValidInstant(now)
    ensures var r := Fire(s, s.dateUpdateTimer.value, now, settings);
      SlotInvariant(r) && r.dateUpdateTimer.Some? && r.timers[r.dateUpdateTimer.value].live &&
      OnlyLive(r.timers, r.dateUpdateTimer.value) &&
      r.timers[r.dateUpdateTimer.value].wait == SecondsPerDay - now.second + 1
  {
  }
}
