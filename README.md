# IncuControl set-up and calendar, modelled in Dafny

IncuControl is a mobile front-end for a simulated egg incubator. Two parts of it carry
logic worth verifying, and this project models both:

- **The set-up screen** (`app/setup.tsx`). The user picks a minimum and a maximum
  temperature with four +/- buttons, each a 0.1 °C step, and then starts a 21-day
  incubation. Starting writes one configuration record to local storage and moves on
  to the monitoring route. When a record is already stored, the screen sends the user
  straight to monitoring.
- **The incubation calendar** (`components/Calendar.tsx`). It shows a month grid.
  Each day cell is classed as `outside`, `past`, `current` or `future` against the
  incubation period and the current day. Month navigation cannot leave the months of
  the period.

The files:

- `wrappers.dfy` (module `Wrappers`): `Option` and `Result`.
- `dates.dfy` (module `CivilDates`): proleptic Gregorian civil dates as JavaScript
  `Date` shows them in local time, with a 0-based month and a 1-based day. It has a
  day ordinal (`DayNumber`), the midnight timestamp, `NextDay`, `AddDays` (what
  `setDate(getDate() + n)` does) and `Weekday` (`getDay`, 0 = Sunday).
- `setup.dfy` (module `Setup`): temperatures in tenths of a degree, and the clamped
  adjustment. It also holds the configuration record, the storage slot (class
  `ConfigStore`) and the screen (class `SetupScreen`).
- `calendar.dfy` (module `Calendar`): day classification, the bounded month
  navigator (pure functions plus class `CalendarView`) and the month grid.

Modelling choices:

- **Temperatures.** Each set-point is kept as a `toFixed(1)` string and read back
  with `parseFloat`. The model stores the parsed value as a `Reading`: either
  `Tenths(t)`, meaning t/10 °C (375 is 37.5 °C), or `NaN`. `Math.min` and `Math.max`
  pass NaN through, as in JavaScript. This makes the `isNaN` branch of validation a
  real error path, and the proofs show that no sequence of button presses reaches it.
- **Outside effects.** Storage is the `incubationConfig` field of a `ConfigStore`
  object. The success or failure of a storage read or write is a `bool` parameter.
  Navigation is the returned `Route`, and an alert is the returned `SetupError`. The
  clock reading (`new Date()`) is a `DateTime` parameter.
- **Date comparisons.** The source compares dates as local-midnight timestamps. The
  model compares `Midnight(d) = DayNumber(d) * MsPerDay`. `DayNumberOrder` proves
  that this order is the lexicographic (year, month, day) order, so every contract
  is stated in calendar terms.

Two facts of the code that the contracts rely on:

- `IncubationEnd` follows `setDate(getDate() + 21)` (app/setup.tsx:31-32): 21
  calendar days later, at the same local time of day.
- `handleStartIncubation` checks only that both values are numbers and that
  min < max (app/setup.tsx:80). The [35.0, 40.0] bounds come from the buttons alone,
  and `ReachableSetpointsStart` proves that every reachable pair passes the check and
  lies in that range.

## Model

| member | source | states |
|---|---|---|
| `Setup.AdjustedMin` | app/setup.tsx:106-113 | Raising the minimum moves it to min+0.1 or to max−0.1, never past either, so it stays below the maximum. Lowering it moves it to min−0.1 or 35.0, and never below 35.0. NaN comes out exactly when a NaN operand goes in. |
| `Setup.AdjustedMax` | app/setup.tsx:120-127 | Raising the maximum moves it to max+0.1 or 40.0, and never above 40.0. Lowering it moves it to max−0.1 or min+0.1, so it stays above the minimum. NaN comes out exactly when a NaN operand goes in. |
| `Setup.Adjust` | app/setup.tsx:104-135 | A press changes only the targeted set-point. The other one is left untouched. |
| `Setup.AdjustKeepsRange` | app/setup.tsx:104-135 | One press from a pair with 35.0 ≤ min < max ≤ 40.0 gives a pair in that range. |
| `Setup.PressesKeepRange` | app/setup.tsx:104-135 | Every sequence of presses from an in-range pair keeps 35.0 ≤ min < max ≤ 40.0. |
| `Setup.PressAtBoundIsNoOp` | app/setup.tsx:106-126 | At a bound, the press that would cross it changes nothing: lowering min at 35.0, raising max at 40.0, raising min at max−0.1, lowering max at min+0.1. |
| `Setup.PressAwayFromBoundSteps` | app/setup.tsx:106-126 | Away from the bounds, each press moves its set-point by exactly 0.1 °C. |
| `Setup.IsIdealRange` | app/setup.tsx:151-155 | An ideal range is numeric, lies in [35.0, 40.0] with min < max, and its two ends are at least 0.5 °C apart. |
| `Setup.IdealRangeStarts` | app/setup.tsx:151-155 | An ideal range always passes the start validation (the check of line 80). |
| `Setup.IncubationEnd` | app/setup.tsx:30-32 | The end date is exactly 21 calendar days after the start date, at the same time of day. It is strictly later than the start. |
| `Setup.NewConfig` | app/setup.tsx:76-92 | Validation succeeds iff both values are numbers and min < max. Otherwise the error is the invalid-temperatures alert. On success, the record holds exactly the entered min and max, the start date, the end date 21 days later and the configuration time. |
| `Setup.ReachableSetpointsStart` | app/setup.tsx:76-92 | From the initial 37.5 / 38.0 (lines 28-29), after any sequence of presses, starting passes validation and stores temperatures within [35.0, 40.0]. |
| `Setup.SetupScreen.constructor` | app/setup.tsx:28-30 | The screen opens at 37.5 / 38.0, which is in range, with the start date fixed at mount. |
| `Setup.SetupScreen.CheckExistingConfig` | app/setup.tsx:53-62 | The screen redirects to monitoring iff the storage read succeeds and a record is stored. A failed read does not redirect. |
| `Setup.SetupScreen.AdjustTemperature` | app/setup.tsx:104-135 | The new pair is `Adjust` of the old one, so only the targeted field changes. An in-range pair stays in range. |
| `Setup.SetupScreen.HandleStartIncubation` | app/setup.tsx:76-102 | An invalid range gives the validation error and leaves storage unchanged. A valid range with a successful write stores the record and navigates to monitoring. A failed write gives the save error, does not navigate, and leaves storage unchanged. |
| `CivilDates.DaysInMonth` | components/Calendar.tsx:41 | A month has 28 to 31 days. It has 29 exactly for February of a leap year. |
| `CivilDates.NextDay` | app/setup.tsx:32 | The day after has the next ordinal and is later in calendar order, including month and year rollover. |
| `CivilDates.AddDays` | app/setup.tsx:31-32 | Adding n days moves the ordinal by exactly n. A positive n gives a later date. |
| `CivilDates.DayNumberOrder` | components/Calendar.tsx:102-106 | Comparing local-midnight timestamps is comparing (year, month, day) lexicographically. Equal timestamps mean equal dates. |
| `CivilDates.Weekday` | components/Calendar.tsx:40 | A weekday number lies in 0..6. |
| `CivilDates.EpochIsThursday` | components/Calendar.tsx:40 | `Weekday` matches `getDay`: 1 January 1970 gives 4 (Thursday). |
| `CivilDates.WeekdayOfNextDay` | components/Calendar.tsx:40 | Consecutive days have consecutive weekdays, mod 7. |
| `CivilDates.NextMonthStart` | components/Calendar.tsx:41 | Adding `DaysInMonth` days to the first of a month gives the first of the next month. So `DaysInMonth` is the last day, as day 0 of the next month is. |
| `Calendar.CanGoPrevious` | components/Calendar.tsx:53-57 | Going back is allowed iff the displayed (year, month) is strictly after the start's. |
| `Calendar.CanGoNext` | components/Calendar.tsx:59-63 | Going forward is allowed iff the displayed (year, month) is strictly before the end's. |
| `Calendar.PreviousOf` | components/Calendar.tsx:68-73 | The previous month is a valid month one step earlier, with January going back to December of the year before. |
| `Calendar.NextOf` | components/Calendar.tsx:79-84 | The next month is a valid month one step later, with December going on to January of the year after. |
| `Calendar.Navigate` | components/Calendar.tsx:65-85 | A press moves one month when it is allowed, and does nothing otherwise. The month stays in 0..11. |
| `Calendar.NavigateKeepsWindow` | components/Calendar.tsx:53-85 | One press from a month in the window gives a month in the window. |
| `Calendar.NavigationKeepsWindow` | components/Calendar.tsx:53-85 | Every sequence of presses from a month in the window stays in the window. |
| `Calendar.NavigationFromStartStaysInPeriod` | components/Calendar.tsx:27-85 | From the start's month, where the calendar opens, and with start ≤ end, the displayed month never leaves [start month, end month]. |
| `Calendar.ForwardsReach` | components/Calendar.tsx:76-85 | k presses of "next" advance exactly k months while the end month allows it. So every month of the window can be reached. |
| `Calendar.PreviousThenNextReturns` | components/Calendar.tsx:65-85 | A permitted "previous" followed by "next" returns to the displayed month. |
| `Calendar.NextThenPreviousReturns` | components/Calendar.tsx:65-85 | A permitted "next" followed by "previous" returns to the displayed month. |
| `Calendar.ShortPeriodSpansTwoMonths` | components/Calendar.tsx:53-63 | A period shorter than 29 days, such as the 21-day incubation, spans at most two calendar months. |
| `Calendar.GetDayStatus` | components/Calendar.tsx:88-111 | A day is `outside` iff it is before the start day or after the end day; both ends count as inside. Inside the period it is `current` iff it is the current day, `past` iff earlier and `future` iff later. |
| `Calendar.StatusIgnoresTimeOfDay` | components/Calendar.tsx:89-93 | Two start, end or current dates on the same day with different times of day give the same classification. |
| `Calendar.FirstDayOfMonth` | components/Calendar.tsx:40 | The number of leading blank cells is the weekday of the 1st, in 0..6. |
| `Calendar.NextMonthContinuesWeek` | components/Calendar.tsx:40-41 | The next month's grid starts on the weekday after this month's last day. |
| `Calendar.CalendarView.constructor` | components/Calendar.tsx:25-28 | The calendar opens on the start date's month, which is in the window. |
| `Calendar.CalendarView.PreviousMonth` | components/Calendar.tsx:65-74 | The displayed month becomes `Navigate(old, Back)`, and the window invariant is kept. |
| `Calendar.CalendarView.NextMonth` | components/Calendar.tsx:76-85 | The displayed month becomes `Navigate(old, Forward)`, and the window invariant is kept. |
| `Calendar.CalendarView.GenerateDays` | components/Calendar.tsx:114-166 | The grid is `FirstDayOfMonth` blank cells, then one cell for each day 1..`DaysInMonth` in increasing order, each with that day's status. That is firstDayOfMonth + daysInMonth cells in all. |

## Left out

- Rendering, styles, colour palettes and the press animations (app/setup.tsx:115-119, 129-133, 137-148 and 193-624; components/Calendar.tsx:168-299): presentation only.
- The `isToday` flag (components/Calendar.tsx:96-99): it reads the wall clock and nothing uses its value.
- `handleExitApp` (app/setup.tsx:168-191): a platform-specific process exit.
- The hardware back-button block (app/setup.tsx:67-73) and all `console.error` logging: no effect on the modelled state.
- `formatDate`, `toISOString` and `JSON.stringify`: the record is kept as a value, not as serialised text.
- Time zones and daylight-saving time: every day has exactly 86 400 000 ms. Across a DST change, `setDate` keeps the wall-clock time, and the model keeps the same time of day.
- Floating-point rounding of `parseFloat`, the `+ 0.1` steps and `toFixed(1)`: temperatures are exact tenths. The same goes for the float subtraction in `isIdealRange`, taken here as exact.
- The temperature-bar percentages (app/setup.tsx:296-297): display-only float arithmetic.
- Setup.SetupScreen.CheckExistingConfig: the source's `if (savedConfig)` also treats an empty stored string as absent. The slot here holds a record or nothing, so that case cannot arise.
- Setup.SetupScreen.HandleStartIncubation: a failed write is taken to leave the slot as it was. The storage library's behaviour on a partial failure is not modelled.
- Calendar.CalendarView: `startDate`, `endDate` and `currentDate` are props that the source reads again on every render, while only the shown month and year are kept from mount. The model takes the props as fixed for the component's lifetime. So it does not capture a caller that passes a later start date after the component was mounted; the pure `Navigate` still covers any valid shown month.
- Years 0 to 99: `new Date(y, m, d)` maps them to 1900 to 1999, while the model uses the proleptic Gregorian calendar for every year. Dates taken from the clock never fall in those years.
- Calendar.GetDayStatus: it requires a day within the displayed month. `new Date` would also accept other days and roll them into a neighbouring month, but `generateDays` never passes such a day.
- app/index.tsx and app/_layout.tsx: routing plumbing around a splash delay and font loading. Their rule is only "record present under `incubationConfig` → monitoring; record absent or read failed → `/setup`" (app/index.tsx:23-32, app/_layout.tsx:24-38).
- context/ConfigContext.tsx: a boolean `isConfigured` flag over a separate key, `incubator_config`, which the set-up screen never writes. It is set from whether that key holds a value, left `false` when the read fails, and set to `true` by its own save; it does no routing.
- The monitoring and analytics screens: simulated sensor feeds and timers, outside the modelled core.
- components/ui/Button.tsx, components/ui/IconSymbol.tsx and constants/Colors.ts: style and icon lookup tables.
