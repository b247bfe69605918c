# Simple Time Tracker — a Dafny model of the time-accounting engine

Simple Time Tracker is a macOS menu-bar app. The user keeps a list of
*focuses* (named activities), starts and stops a timer that records
*intervals* on the currently selected focus, and views a weekly bar chart
of minutes per focus per day, Monday to Sunday.

This project models the logic-bearing core of the app:

- `model.dfy` (module `Model`): the value types `Time`, `Focus` and
  `FocusChartData`, the defaults of a new `Focus`, the store's initial
  empty list and the `"[]"` fallback written when encoding fails.
- `stats.dfy` (module `Stats`): the weekly aggregation `getFocusChartData`,
  the placeholder `getEmptyFocusChartData`, the chart's y-limit expression
  and next/last-week navigation. The Monday that starts the displayed week
  is an input (`lastMonday`). The aggregation is written twice: once as
  methods with the source's loops (`WeekBins`, `GetFocusChartData`) and
  once as a reference definition (`DayTotal`, `ChartRows`) stated with day
  boundaries instead of a division. The methods are proved to compute the
  reference, and the chart's properties are proved about the reference.
- `tracker.dfy` (module `Tracker`): the view state of the main window
  (focus list, `running`, `start`, the two picker indices, the new-focus
  text) and the button actions as transition functions. An array index out
  of range, which traps in Swift, is the outcome `Trap`.
- `report.dfy` (module `Report`): how removing a focus and stopping the
  timer show up in the weekly chart.

Timestamps and lengths are exact `real` seconds. Swift's `Int(_:)` on a
floating-point value is modelled as truncation toward zero (`Stats.Trunc`),
and `truncatingRemainder` as the remainder of a truncated quotient.

The model follows the code as written:

- The week window excludes its first instant: an interval starting exactly
  at Monday 00:00 is not counted on any day.
- Stop charges the focus selected when the pause button is pressed, not
  the one selected when play was pressed.
- Stop does not clamp a negative length (a clock moved backwards).
- Adding a focus accepts an empty name.
- Nothing clamps the current-focus index after a removal; a later stop
  with a dangling index traps.
- The y-limit is `(max mod 15 + 1) * 15`, not a ceiling to a multiple of
  15; see Findings. When every bar is negative the limit can be negative,
  and the chart's range `0...yLimit` then traps.

## Model

| member | source | states |
|---|---|---|
| Model.NewFocus | SimpleTimeTracker/SimpleTimeTrackerApp.swift:47-52 | a new focus has the given name, no intervals and the report toggle off |
| Model.InitialFocuses | SimpleTimeTracker/SimpleTimeTrackerApp.swift:17-30 | the store starts empty when nothing is stored or the payload does not decode, and with the decoded list otherwise |
| Model.StoredForm | SimpleTimeTracker/SimpleTimeTrackerApp.swift:32-39 | an encoder failure is stored as the empty JSON array `"[]"`; otherwise the encoded text is stored |
| Stats.Trunc | SimpleTimeTracker/StatsView.swift:77 | `Int(_:)` truncates toward zero: the result is within one of its argument, on the argument's side of zero |
| Stats.InWindow | SimpleTimeTracker/StatsView.swift:70-76 | an interval is admitted exactly when its offset from the Monday, in days, lies strictly between 0 and 7 |
| Stats.BinIndex | SimpleTimeTracker/StatsView.swift:76-77 | for every interval the window admits, the bin index is in 0..6, so the access to the 7 bins is in bounds, and it is the day on which the interval starts |
| Stats.StartsOnDayIffBin | SimpleTimeTracker/StatsView.swift:74-77 | an interval lands in bin d exactly when it starts strictly after the Monday and inside day d of the week |
| Stats.WeekBins | SimpleTimeTracker/StatsView.swift:74-79 | the inner loop leaves 7 bins, bin d holding the total length of the intervals starting on day d |
| Stats.GetFocusChartData | SimpleTimeTracker/StatsView.swift:67-86 | the nested loops build the reference chart, with 7 rows per selected focus |
| Stats.ChartRowsLength | SimpleTimeTracker/StatsView.swift:72-83 | the chart has exactly 7 rows for each selected focus and none for unselected ones |
| Stats.ChartRowsLayout | SimpleTimeTracker/StatsView.swift:71-82 | row 7j+d is day d (M,T,W,R,F,S,U) of the j-th selected focus in store order, carries that focus's name and holds its day-d seconds / 60, zero included |
| Stats.ChartEmptyIffNoneSelected | SimpleTimeTracker/StatsView.swift:72-73 | the chart rows are empty exactly when no focus is selected; for a non-empty store that is when the placeholder is drawn |
| Stats.ChartRowsAppend | SimpleTimeTracker/StatsView.swift:72-84 | the chart of two concatenated lists is the concatenation of their charts |
| Stats.ChartRowsSplit | SimpleTimeTracker/StatsView.swift:72-84 | one focus contributes its own 7 rows when selected and nothing otherwise, and the other focuses' rows do not depend on it |
| Stats.DaysPartitionWindow | SimpleTimeTracker/StatsView.swift:74-79 | the 7 day totals add up to the total length of the intervals in the window: each admitted interval is counted once, whole |
| Stats.FocusMinutesSum | SimpleTimeTracker/StatsView.swift:77-81 | the 7 minute values of a focus add up to its in-window seconds divided by 60 |
| Stats.SingleIntervalRows | SimpleTimeTracker/StatsView.swift:76-81 | an interval's whole length goes to the day it starts on, even past midnight, and nothing to the other days |
| Stats.WindowBoundsExcluded | SimpleTimeTracker/StatsView.swift:70-76 | an interval starting exactly at the Monday or exactly a week later is not counted on any day |
| Stats.GetEmptyFocusChartData | SimpleTimeTracker/StatsView.swift:88-95 | the placeholder has 7 rows, days M..U in order, 0 minutes and an empty name |
| Stats.PlaceholderIsEmptyFocus | SimpleTimeTracker/StatsView.swift:28-29 | the placeholder equals the chart rows of an unnamed focus with no intervals, for any week |
| Stats.Remainder15 | SimpleTimeTracker/StatsView.swift:41 | `truncatingRemainder(dividingBy: 15)` lies in [0, 15) for a non-negative value and in (-15, 0] for a negative one, and differs from it by a whole multiple of 15 |
| Stats.MaxMinutes | SimpleTimeTracker/StatsView.swift:39-40 | `counts.max()` of a non-empty chart is one of the minute values and no smaller than any of them |
| Stats.YLimit | SimpleTimeTracker/StatsView.swift:41 | the y-limit as written lies in [15, 240) for a non-negative maximum and in (-210, 15] for a negative one |
| Stats.ChartYTop | SimpleTimeTracker/StatsView.swift:28-57 | the y-domain is `0...15` for the placeholder; otherwise its top is in [0, 240), and the range traps only when every bar is negative |
| Stats.ChartYTopRange | SimpleTimeTracker/StatsView.swift:36-41 | for a chart without negative bars the range never traps and its top is in [15, 240) |
| Stats.NegativeBarsTrap | SimpleTimeTracker/StatsView.swift:41-57 | a single bar of -3 minutes gives the limit -30, and the range `0...-30` traps |
| Stats.YLimitBelowMax | SimpleTimeTracker/StatsView.swift:41 | the y-limit as written can be below the data: a 300-minute maximum gives 15 |
| Stats.CeilYLimit | SimpleTimeTracker/StatsView.swift:41 | the corrected limit is the least multiple of 15 strictly above the maximum, and at least 15 |
| Stats.NextWeek | SimpleTimeTracker/StatsView.swift:12 | "Next Week" moves the reference date exactly seven days forward |
| Stats.LastWeek | SimpleTimeTracker/StatsView.swift:15 | "Last Week" moves the reference date exactly seven days back, and "Next Week" undoes it |
| Stats.NavigationRoundTrip | SimpleTimeTracker/StatsView.swift:11-16 | "Next Week" then "Last Week", or the reverse, restores the reference date |
| Tracker.Launch | SimpleTimeTracker/ContentView.swift:8-15 | the view starts idle with `start = 0`, the remove picker at 0 and an empty text field, keeping the stored list and stored selection |
| Tracker.Start | SimpleTimeTracker/ContentView.swift:42-45 | play sets `start` to now and `running`, and changes neither the focuses nor the pickers |
| Tracker.Stop | SimpleTimeTracker/ContentView.swift:30-34 | pause traps exactly when the selection is not an index; otherwise it appends one `Time(start, now - start)` at the end of the selected focus, leaves its earlier intervals, its name, its toggle and every other focus unchanged, and stops |
| Tracker.AddFocus | SimpleTimeTracker/ContentView.swift:76-84 | add appends `Focus(name: newFocus)` with no intervals and the toggle off, keeps the existing focuses, clears the text and accepts an empty name |
| Tracker.RemoveFocus | SimpleTimeTracker/ContentView.swift:70-73 | remove traps exactly when the index is out of range; otherwise it deletes that one focus, keeps the others in order, resets the remove picker to 0 and leaves the current selection as it was |
| Tracker.PickCurrent | SimpleTimeTracker/ContentView.swift:20-24 | the current-focus picker sets the selection to one of the list's indices and changes nothing else |
| Tracker.PickRemove | SimpleTimeTracker/ContentView.swift:64-68 | the remove picker sets its index to one of the list's indices and changes nothing else |
| Tracker.SetReportToggle | SimpleTimeTracker/StatsView.swift:17-20 | a report toggle changes only that focus's `isSelected` |
| Tracker.StartThenStop | SimpleTimeTracker/ContentView.swift:29-52 | play then pause records exactly one interval, from play time to pause time, on the selected focus, keeps all names and ends idle |
| Tracker.StopChargesSelectionAtStop | SimpleTimeTracker/ContentView.swift:20-33 | switching the picker while running charges the whole session to the newly picked focus and leaves the focus selected at play untouched |
| Tracker.StaleSelectionAfterRemove | SimpleTimeTracker/ContentView.swift:70-73 | removing the last focus while it is current leaves the selection one past the end, and the next play/pause traps |
| Tracker.RemoveOnEmptyTraps | SimpleTimeTracker/ContentView.swift:70-73 | "Remove Focus" on an empty list traps |
| Tracker.SessionsAppendIntervals | SimpleTimeTracker/ContentView.swift:29-52 | n play/pause sessions append exactly n intervals, in order and each from its play time to its pause time, to the selected focus, keep its name and end idle |
| Tracker.SessionsKeepOtherFocuses | SimpleTimeTracker/ContentView.swift:29-52 | play/pause sessions leave every focus other than the selected one unchanged |
| Report.RemoveDropsOnlyItsRows | SimpleTimeTracker/ContentView.swift:70-73 | removing a focus removes exactly its rows from every week's chart and leaves the rows of the others as they were |
| Report.AddFocusKeepsChart | SimpleTimeTracker/ContentView.swift:76-84 | adding a focus leaves every week's chart unchanged, since the new focus is not selected |
| Report.ToggleChangesOnlyItsRows | SimpleTimeTracker/StatsView.swift:17-20 | a report toggle adds or removes exactly that focus's seven rows, between the unchanged rows of the focuses before and after it |
| Report.StopOutsideWeekKeepsChart | SimpleTimeTracker/StatsView.swift:76 | a session starting outside the displayed week leaves that week's chart unchanged |
| Report.StopInsideWeekAddsToStartDay | SimpleTimeTracker/StatsView.swift:76-77 | a session inside the week raises the selected focus's total for its start day by its length, and no other day's |

## Findings

| source | as written | input that shows it | evidently intended | confidence | as-written member | corrected member |
|---|---|---|---|---|---|---|
| SimpleTimeTracker/StatsView.swift:41 | `(max.truncatingRemainder(dividingBy: 15) + 1) * 15` | largest bar 300 minutes: the y-domain is 0...15, so the bar is cut off | the next multiple of 15 above the largest bar, `(floor(max / 15) + 1) * 15` | medium; not executed | Stats.YLimit (shown by Stats.YLimitBelowMax) | Stats.CeilYLimit |

`Stats.ChartYTop` keeps the formula as written, because it models the
chart the app draws; no other part of the model depends on the y-limit.

## Left out

- `getLastMonday` (StatsView.swift:97-105): a calendar search in the
  platform's calendar library; the Monday is an input of the aggregation.
- Clock reads (ContentView.swift:31, 43): "now" is an input of `Start` and
  `Stop`.
- JSON encoding and decoding and `@AppStorage` persistence: library code.
  Only its outcomes are modelled (`InitialFocuses`, `StoredForm`); that a
  change to the list is written back at once is not modelled.
- The `id` fields of `Focus` and `FocusChartData`: random UUIDs.
- SwiftUI rendering, the "Create a focus" text, bar annotations and their
  rounding (StatsView.swift:52), the expand/collapse toggle and the
  window helpers `openInWindow` and `focusWindow` (ContentView.swift:109-126):
  presentation only. Typing into the text field is not a transition;
  `newFocus` is whatever text the field holds.
- IEEE-754 `Double` rounding: seconds are exact reals.
- Stats.Remainder15: models `truncatingRemainder` only for the divisor 15,
  the one the source uses.
