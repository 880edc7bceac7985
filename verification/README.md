# Menu bar calendar: a Dafny model of the month grid, the settings store and the midnight rollover

This project models the core of a macOS menu-bar calendar app in Dafny and proves properties of that model. The core has three parts.

- **The popover's month grid** (`MenuBarCalendar/CalendarView.swift`). It covers:
  - `generateWeeks`, which lays out 6 rows of 7 `DayInfo` cells for the month of a reference date. The rows hold lead-in days from the previous month, the month's own days with today flagged, lead-out days from the next month, and synthetic rows up to six.
  - The week-number rule for a row.
  - The weekday header labels.
  - Month navigation: previous, next and today.
- **The settings store** (`MenuBarCalendar/SettingsManager.swift`). It covers the raw values of `FirstDayOfWeek` and the load-with-defaults done once at start. It also covers the write-back of each of the three preferences to the user-defaults store.
- **The menu-bar button and the midnight rollover** (`MenuBarCalendar/AppDelegate.swift`). The button shows today's day of the month, either as a calendar icon or as digits. A one-shot timer fires at 00:00:01 on the next day, redraws the button and re-arms itself.

Dafny modules:

| module | file | contents |
|---|---|---|
| `Wrappers` | `wrappers.dfy` | `Option`, standing for Swift optionals and failable calendar calls |
| `Gregorian` | `gregorian.dfy` | proleptic Gregorian dates: validity, a day ordinal, weekday (1 = Sunday), adding days and months. It stands in for the `Calendar` the app uses. |
| `SettingsManager` | `settings_manager.dfy` | the store as `map<string, Value>`, the three keys, `Load`, and the three setters with their write-back |
| `CalendarView` | `calendar_view.dfy` | `DayInfo`, the start offset, `GenerateWeeks` (a method following the Swift loops), the reference definition `Grid`, the week number, the header labels and navigation |
| `GridProperties` | `grid_properties.dfy` | what the grid promises, proved about `Grid` |
| `AppDelegate` | `app_delegate.dfy` | instants, the rollover interval, timers as a sequence with a held slot, the button, firing and launch |

`GenerateWeeks` is proved to return exactly `Grid(currentDate, f, today)` for a valid reference date, and no rows otherwise. So every lemma in `GridProperties` is a statement about what the popover draws.

The model is parameterised in several places:

- "Today" and "now" (the app's `Date()` reads) are parameters.
- Week-of-year is a parameter of type `Date -> int`. The app takes it from the current locale's calendar, not from the first-day setting.
- A wall-clock reading is an `Instant`: a date plus the seconds since its midnight, in one time zone without daylight saving.

**First day of the week on a fresh install.** An absent `firstDayOfWeek` key decodes to Sunday. `defaults.integer` gives 0 for an absent key, and 0 is Sunday's raw value (`MenuBarCalendar/SettingsManager.swift:40-41`). So the `?? .monday` fallback applies only to stored integers other than 0 and 1. `SettingsManager.FreshInstallIsSunday` and `SettingsManager.MondayFallback` state this.

## Model

| member | source | states |
|---|---|---|
| `SettingsManager.FromRawValue` | MenuBarCalendar/SettingsManager.swift:4-7 | only 0 and 1 name a first day, and the day named has that raw value |
| `SettingsManager.RawValue` | MenuBarCalendar/SettingsManager.swift:4-7 | Sunday is stored as 0 and Monday as 1, the integers the `firstDayOfWeek` observer writes (line 22); `SettingsManager.FirstDayOfWeekRoundTrip` shows decoding inverts it |
| `SettingsManager.FirstDayOfWeekRoundTrip` | MenuBarCalendar/SettingsManager.swift:4-7 | raw value then decode gives back the first day (Sunday = 0, Monday = 1) |
| `SettingsManager.IntegerFor` | MenuBarCalendar/SettingsManager.swift:40 | the store's integer read is 0 for an absent key and the stored integer otherwise |
| `SettingsManager.BoolFor` | MenuBarCalendar/SettingsManager.swift:51 | the store's boolean read is false for an absent key and the stored boolean otherwise |
| `SettingsManager.DecodeFirstDayOfWeek` | MenuBarCalendar/SettingsManager.swift:41 | a stored integer decodes to Sunday exactly when it is 0; every other integer falls back to Monday |
| `SettingsManager.Load` | MenuBarCalendar/SettingsManager.swift:38-52 | first day is Sunday iff the integer read is 0; an absent icon key loads true and a present one loads its boolean; the week-numbers flag is the boolean read, so an absent key loads false |
| `SettingsManager.FreshInstallIsSunday` | MenuBarCalendar/SettingsManager.swift:40-51 | an empty store loads (Sunday, calendar icon on, week numbers off) |
| `SettingsManager.MondayFallback` | MenuBarCalendar/SettingsManager.swift:40-41 | a stored integer decodes to Sunday when 0 and to Monday otherwise |
| `SettingsManager.Init` | MenuBarCalendar/SettingsManager.swift:38-52 | creating the settings object reads each key with its default (Sunday iff the integer read is 0; icon on unless the stored value reads as false; week numbers on only when the stored value reads as true) and writes nothing back to the store |
| `SettingsManager.SetFirstDayOfWeek` | MenuBarCalendar/SettingsManager.swift:20-24 | sets the field, keeps the other two, writes the raw value under "firstDayOfWeek", leaves every other key's entry as it was, reloads to the value set, and keeps memory and store consistent |
| `SettingsManager.SetUseCalendarIcon` | MenuBarCalendar/SettingsManager.swift:26-30 | the same for the icon flag under "useCalendarIcon" |
| `SettingsManager.SetShowWeekNumbers` | MenuBarCalendar/SettingsManager.swift:32-36 | the same for the week-number flag under "showWeekNumbers" |
| `SettingsManager.ReloadAfterSet` | MenuBarCalendar/SettingsManager.swift:20-51 | re-creating the settings object after any assignment yields exactly the assigned state |
| `SettingsManager.SetIdempotent` | MenuBarCalendar/SettingsManager.swift:21-35 | assigning the same value twice leaves the same memory and store as assigning it once |
| `SettingsManager.SetEqualValueRewrites` | MenuBarCalendar/SettingsManager.swift:21-23 | assigning the value already in memory still writes the key: a stored 5 (read as Monday) becomes 1 |
| `Gregorian.DaysInMonth` | MenuBarCalendar/CalendarView.swift:155 | every month has 28 to 31 days |
| `Gregorian.Weekday` | MenuBarCalendar/CalendarView.swift:157-158 | the weekday component lies in 1..7 (1 = Sunday) |
| `Gregorian.WeekdayAnchors` | MenuBarCalendar/CalendarView.swift:157-158 | 0001-01-01 is a Monday and 2000-01-01 a Saturday under this weekday numbering |
| `Gregorian.DaysBeforeYearClosedForm` | MenuBarCalendar/CalendarView.swift:157-158 | the recursive year count agrees with the closed form 365p + p/4 - p/100 + p/400 (p = year - 1) |
| `Gregorian.AddDays` | MenuBarCalendar/CalendarView.swift:182-190 | day arithmetic (`date(byAdding: .day, …)`, also at lines 211 and 225) always gives a valid date; `Gregorian.AddDaysNumber` and `Gregorian.AddDaysAdd` pin it as the date n days later |
| `Gregorian.AddDaysNumber` | MenuBarCalendar/CalendarView.swift:224-227 | adding n days moves the day ordinal by exactly n |
| `Gregorian.AddDaysAdd` | MenuBarCalendar/CalendarView.swift:224-227 | adding a days and then b days is adding a + b days |
| `Gregorian.AddDaysInjective` | MenuBarCalendar/CalendarView.swift:224-227 | different day counts from the same date give different dates |
| `Gregorian.WeekdayAddDays` | MenuBarCalendar/CalendarView.swift:157-158 | n days later the weekday has advanced by n modulo 7 |
| `Gregorian.DayOfMonth` | MenuBarCalendar/CalendarView.swift:189-190 | j days after the 1st, within the month, is day j + 1 of that month |
| `Gregorian.MonthMembership` | MenuBarCalendar/CalendarView.swift:189-196 | a date j days after the 1st lies in the same month iff 0 <= j < days in the month |
| `Gregorian.AddMonths` | MenuBarCalendar/CalendarView.swift:115-125 | month arithmetic moves the month index by k, with year carry, and clamps the day to the target month's length |
| `Gregorian.NextMonthFirst` | MenuBarCalendar/CalendarView.swift:208-212 | the 1st of the next month is the 1st plus the month's length in days |
| `Gregorian.PreviousMonthFirst` | MenuBarCalendar/CalendarView.swift:176-182 | the 1st of the previous month is the 1st minus that month's length in days |
| `CalendarView.StartOffset` | MenuBarCalendar/CalendarView.swift:157-166 | the offset lies in 0..6 and is the column whose weekday is the 1st's weekday |
| `CalendarView.StartOffsetAnchors` | MenuBarCalendar/CalendarView.swift:161-166 | Monday-first puts Monday in column 0 and Sunday in 6; Sunday-first puts Sunday in column 0 and Saturday in 6 |
| `CalendarView.SundayOffsetFollowsMonday` | MenuBarCalendar/CalendarView.swift:161-166 | for the same month the Sunday-first offset is (Monday-first offset + 1) mod 7 |
| `CalendarView.FirstOfMonth` | MenuBarCalendar/CalendarView.swift:150-152 | the 1st of the month exists exactly for a valid reference date and has its year and month |
| `CalendarView.GenerateWeeks` | MenuBarCalendar/CalendarView.swift:147-234 | an invalid reference date yields no rows; otherwise the rows are exactly the reference grid |
| `CalendarView.LeadInDays` | MenuBarCalendar/CalendarView.swift:174-186 | the open row holds the startOffset lead-in cells, in order |
| `CalendarView.MonthDays` | MenuBarCalendar/CalendarView.swift:188-203 | after the month's days, complete rows plus the open row hold startOffset + n cells in row-major order, and the open row has fewer than 7 |
| `CalendarView.LeadOutDays` | MenuBarCalendar/CalendarView.swift:205-216 | an open row is completed with next-month days and closed |
| `CalendarView.NaturalWeeks` | MenuBarCalendar/CalendarView.swift:172-216 | before padding, the month needs NaturalWeekCount rows, filled in row-major order |
| `CalendarView.NaturalWeekCount` | MenuBarCalendar/CalendarView.swift:198-216 | the rows a month needs on its own are between 4 and 6, the fewest whose 7 columns hold the offset plus the month |
| `CalendarView.PadWeeks` | MenuBarCalendar/CalendarView.swift:218-231 | synthetic rows continue the dates one day at a time until there are 6 rows |
| `CalendarView.PadRow` | MenuBarCalendar/CalendarView.swift:220-228 | a synthetic row is the seven days after the last shown date, each numbered by its day and outside the month |
| `CalendarView.FillWeeks` | MenuBarCalendar/CalendarView.swift:172-231 | the builder's loops produce 6 rows of 7 cells, each the expected flat cell |
| `CalendarView.LeadInCell` | MenuBarCalendar/CalendarView.swift:179-184 | lead-in cell k shows previousMonthDays - startOffset + k + 1 and is neither current nor today |
| `CalendarView.MonthCell` | MenuBarCalendar/CalendarView.swift:189-196 | a month cell shows its day number, is current, and is flagged exactly when its date is today |
| `CalendarView.TrailingCell` | MenuBarCalendar/CalendarView.swift:205-231 | every cell after the month's last day is neither current nor today |
| `CalendarView.LeadOutDate` | MenuBarCalendar/CalendarView.swift:208-212 | day d of the next month is the 1st plus the month's length plus d - 1, and shows d |
| `CalendarView.FirstCurrentMonth` | MenuBarCalendar/CalendarView.swift:135-139 | finds the first current-month cell at or after an index, or reports that there is none |
| `CalendarView.WeekNumber` | MenuBarCalendar/CalendarView.swift:133-145 | the week of the first current-month cell; otherwise that of cell 3 when the row has more than 3 cells; otherwise 0 |
| `CalendarView.WeekDays` | MenuBarCalendar/CalendarView.swift:105-107 | seven labels, column c labelled with the initial of weekday (first day + c) |
| `CalendarView.DateByAddingMonths` | MenuBarCalendar/CalendarView.swift:117 | month arithmetic fails exactly for a reference date that names no day |
| `CalendarView.NextMonth` | MenuBarCalendar/CalendarView.swift:121-125 | one month later with year carry, the day clamped to the target month; unchanged when the arithmetic fails |
| `CalendarView.PreviousMonth` | MenuBarCalendar/CalendarView.swift:115-119 | one month earlier with year carry, the day clamped to the target month; unchanged when the arithmetic fails |
| `GridProperties.GridShape` | MenuBarCalendar/CalendarView.swift:218-233 | always 6 rows of 7 cells for a valid reference date, whatever the month's length or alignment |
| `GridProperties.GridConsecutive` | MenuBarCalendar/CalendarView.swift:180-227 | read row-major the cell dates are consecutive days starting startOffset days before the 1st, and each cell's number is its date's day |
| `GridProperties.GridLeadIn` | MenuBarCalendar/CalendarView.swift:176-184 | the lead-in cells are the last startOffset days of the previous month |
| `GridProperties.CellMembership` | MenuBarCalendar/CalendarView.swift:183-196 | flat cell k is in the month iff offset <= k < offset + n, and then it shows day k - offset + 1 of that month |
| `GridProperties.GridCurrentMonth` | MenuBarCalendar/CalendarView.swift:183-212 | a cell is current iff its flat index is in [startOffset, startOffset + n); current cells are numbered 1..n in order |
| `GridProperties.GridTodaySound` | MenuBarCalendar/CalendarView.swift:169-196 | the today flag sits only on a current-month cell whose date is today |
| `GridProperties.GridTodayUnique` | MenuBarCalendar/CalendarView.swift:169-196 | at most one cell carries the today flag |
| `GridProperties.GridTodayPresent` | MenuBarCalendar/CalendarView.swift:169-196 | some cell is flagged iff today is a day of the displayed month |
| `GridProperties.GridColumns` | MenuBarCalendar/CalendarView.swift:157-166 | every cell of column c falls on weekday (first day + c), the weekday its header labels |
| `GridProperties.GridIgnoresDay` | MenuBarCalendar/CalendarView.swift:150-152 | the grid depends only on the reference date's year and month |
| `GridProperties.GridWeekNumbers` | MenuBarCalendar/CalendarView.swift:133-145 | row 0 shows the week of the 1st; later rows with month days show the week of their first cell; rows after the month show the week of their cell 3 |
| `GridProperties.WednesdayStartMondayFirst` | MenuBarCalendar/CalendarView.swift:161-196 | a month starting on Wednesday, shown Monday-first, has a lead-in day in column 0 and day 1 in column 2 |
| `GridProperties.FirstDayChangeKeepsMonth` | MenuBarCalendar/CalendarView.swift:161-196 | switching the first day keeps the set of dates shown as the current month |
| `GridProperties.NextMonthStart` | MenuBarCalendar/CalendarView.swift:121-125 | after "next", the grid's month starts one month-length after the old 1st |
| `GridProperties.PreviousMonthStart` | MenuBarCalendar/CalendarView.swift:115-119 | after "previous", the grid's month starts one previous-month-length before the old 1st |
| `GridProperties.NavigationRoundTrip` | MenuBarCalendar/CalendarView.swift:115-125 | next then previous (and previous then next) returns to the same month; the day survives when it is 28 or less |
| `GridProperties.JumpToTodayShowsToday` | MenuBarCalendar/CalendarView.swift:127-131 | after jumping to today the grid flags today's cell |
| `AppDelegate.TimestampOrder` | MenuBarCalendar/AppDelegate.swift:95 | timestamps identify instants, and a later day has a later timestamp |
| `AppDelegate.DateByAddingDay` | MenuBarCalendar/AppDelegate.swift:93 | one day later at the same time of day; fails exactly for an invalid instant |
| `AppDelegate.DateBySettingTime` | MenuBarCalendar/AppDelegate.swift:94 | the given time on the same day; fails exactly for an impossible time or instant |
| `AppDelegate.NextDayTarget` | MenuBarCalendar/AppDelegate.swift:93-94 | the target is 00:00:01 on the next calendar day, and exists exactly for a valid instant |
| `AppDelegate.NextDayUpdateInterval` | MenuBarCalendar/AppDelegate.swift:93-95 | the wait is 86400 - s + 1 for seconds-of-day s, so for whole-second readings it lies in 2..86401 (23:59:59 gives 2); none when a calendar call fails |
| `AppDelegate.IntervalReachesNextDay` | MenuBarCalendar/AppDelegate.swift:93-97 | waiting the interval lands on 00:00:01 tomorrow, and every instant strictly before it is today or exactly midnight |
| `AppDelegate.AtMostOneLive` | MenuBarCalendar/AppDelegate.swift:88-89 | under the slot invariant no two timers are live |
| `AppDelegate.Invalidate` | MenuBarCalendar/AppDelegate.swift:88-89 | stopping the held timer leaves no live timer and changes nothing else |
| `AppDelegate.ScheduleNextDayUpdate` | MenuBarCalendar/AppDelegate.swift:87-102 | the old timer is stopped first; on success exactly one fresh timer is live, held, and waits 86400 - s + 1; on failure no timer is live |
| `AppDelegate.Digits` | MenuBarCalendar/AppDelegate.swift:42 | decimal digits only, at least one, a single digit exactly below 10, no leading zero |
| `AppDelegate.DigitsRoundTrip` | MenuBarCalendar/AppDelegate.swift:42 | reading the digits back gives the number |
| `AppDelegate.DecimalString` | MenuBarCalendar/AppDelegate.swift:42 | the interpolated integer is non-empty and starts with a digit exactly when the integer is not negative; `AppDelegate.DecimalRoundTrip` shows it reads back as the integer |
| `AppDelegate.DecimalRoundTrip` | MenuBarCalendar/AppDelegate.swift:42 | parsing the interpolated integer string gives the integer back, so the text title reads back as the day it shows |
| `AppDelegate.DayTitleLength` | MenuBarCalendar/AppDelegate.swift:42 | a day of the month is written with one or two digits |
| `AppDelegate.UpdateMenuBarIcon` | MenuBarCalendar/AppDelegate.swift:31-46 | with the icon style on, the image shows the day and the title is empty; otherwise there is no image and the title is exactly the interpolated day (no padding), which reads back as the day; `AppDelegate.ShowsDayUnique` shows a button shows one day only |
| `AppDelegate.RefreshMenuBarIcon` | MenuBarCalendar/AppDelegate.swift:210-212 | redraws the button for today and leaves the timers alone |
| `AppDelegate.Fire` | MenuBarCalendar/AppDelegate.swift:97-100 | the fired one-shot timer is no longer live, the button shows the new day, and on success exactly the fresh timer is live |
| `AppDelegate.Launch` | MenuBarCalendar/AppDelegate.swift:11-29 | after launch the button shows today and exactly one timer is armed, waiting until 00:00:01 tomorrow |
| `AppDelegate.RolloverKeepsOneTimer` | MenuBarCalendar/AppDelegate.swift:97-100 | firing the held timer at a valid instant leaves the slot invariant, one live held timer, and the right wait |

## Left out

- The SwiftUI and AppKit view code is UI plumbing and is not modelled. This covers the view bodies, `DayCell` colouring, `monthYearString` (a locale-dependent date formatter), panel creation and positioning, the global event monitors and the settings window.
- Drawing the icon image (`createCalendarIcon`) and all of `generate_icon.swift` are not modelled: they are floating-point geometry and image and file I/O. The icon is represented by the day number it shows.
- `SettingsView.swift` is not part of this model. It holds UI bindings and login-item registration through a system framework.
- Change notification to observers of the settings (the `@Published` machinery) is library-internal and is left out. Only the store writes are modelled.
- Real timer execution on the run loop is left out. Timers are records of their wait and their liveness, and firing is an explicit step.
- Time zones, daylight saving and locale rules of the platform calendar are left out. The calendar is a fixed proleptic Gregorian one, and a day always has 86400 seconds.
- Week-of-year is not computed. It is a parameter, because the platform's rule depends on the locale.
- Years are astronomical integers (year 0 exists, before year 1); the platform's era handling is not modelled.
- `AppDelegate.NextDayUpdateInterval`: clock readings are truncated to whole seconds, so the modelled wait lies in 2..86401. The platform clock has fractional seconds, and the real wait lies in (1, 86401]: 23:59:59.5 gives 1.5 seconds.
- The scheduler reads the clock twice (lines 93 and 95) and the model treats both reads as the same instant. So the modelled wait is exact, where the real one is shorter by the time between the reads.
- `AppDelegate.Launch`: the redraw reads the clock (`updateMenuBarIcon`, line 33) separately from the scheduler (line 93), but the model takes both reads as one instant. If they fall on different days, for example a launch at 23:59:59.95 whose panel setup runs past midnight, the button shows day D while the timer is armed for 00:00:01 on D+2. The button then shows D for all of D+1. The model does not promise anything for that case.
- `AppDelegate.Fire`: the same two reads (lines 33 and 93) are taken as one instant. A firing delayed to just before a midnight can draw the old day and arm the timer a day late, as in the launch case above.
- `GridProperties.JumpToTodayShowsToday`: the new reference date (CalendarView.swift:129) and the "today" read while the grid is drawn (line 169) are taken as one instant. A jump at 23:59:59.99 on the last day of a month, drawn after midnight, shows the old month with no cell flagged. The lemma covers only the case where both reads fall on the same day.
- `AppDelegate.DateBySettingTime` always gives the requested time on the same calendar day. The platform call searches for the next matching time, which can differ around daylight-saving gaps. Daylight saving is outside the model.
- `CalendarView.GenerateWeeks`: the guards on the month's day range and on the previous and next month (lines 155, 176-177 and 208) are not modelled as separate failure paths. In a fixed Gregorian calendar they cannot fail once the 1st of the month exists. The per-cell `if let date` guards are not modelled as separate failure paths either, for the same reason.
- The optional status-item button (`if let button`) is assumed present. A missing button would only skip the redraw.
- `CalendarView.JumpToToday` only sets the reference date to the clock's date. It has no row of its own; `GridProperties.JumpToTodayShowsToday` states what it achieves.
- The font chosen for the text title (line 43) is presentation only and is not modelled.
