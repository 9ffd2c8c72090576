# Trading Tracker — a verified model of its core

Trading Tracker is a small habit tracker for traders. Each weekday the user ticks off a
checklist of personal trading rules. The day is then logged green (every rule followed), red
(a rule broken), or green with a "no trade day" flag. The app shows:

- a month grid of coloured boxes and a statistics card (streak, success rate, missed days);
- a dot grid of every tracked weekday;
- reminders scheduled through the afternoon window until the day is logged.

Two iOS widgets read the same stored data and draw their own month grid and dot grid.

This project models the deterministic core of the app and the widgets in Dafny and proves
what it promises:

| file | module | models |
|---|---|---|
| `calendar.dfy` | `Calendar` | `utils/date.ts`: day numbers, weekdays, Gregorian months, the Monday-first month grid, weekday ranges, the first tracking day, past days |
| `isodate.dfy`, `decimal.dfy` | `IsoDate`, `Decimal` | the `YYYY-MM-DD` log keys: their string order is the order of the days; the Eastern-time today/past tests |
| `types.dfy`, `wrappers.dfy` | `Types`, `Wrappers` | `types/index.ts`: rules, day logs, statuses, settings |
| `rates.dfy`, `arith.dfy` | `Rates`, `Arith` | the two rates: rounded in the app, truncated in the widgets |
| `stats_card.dfy` | `StatsCard` | `components/StatsCard.tsx`: counts, streak, rate, missed |
| `dot_grid.dfy` | `DotGrid` | `components/DotGridView.tsx`: the window, dot kinds, counts, rows |
| `reminders.dfy` | `Reminders` | `utils/notifications.ts`: time parsing, the reminder plan, cancel and count over a notification centre |
| `storage.dfy` | `Storage` | `utils/storage.ts`: the persisted `AppData`, with dedupe on load and the shared default object |
| `app_context.dfy` | `AppContext` | `context/AppContext.tsx`: day status, submit and no-trade logs, the provider's in-memory state and its updates |
| `checklist.dfy` | `Checklist` | `components/DailyChecklist.tsx`: the tri-state marks, the submission gate and results, the screen shown |
| `month_widget.dfy` | `MonthWidget` | `widgets/ios/TradingTrackerWidget.swift`: box status and colour, month grid, month stats, load fallbacks |
| `dots_widget.dfy` | `DotsWidget` | `targets/widget/TradingTrackerWidget.swift`: tracking dots, stats, header colour, dot rows |
| `hex_color.dfy` | `HexColor` | `Color(hex:)` in both widgets |

**Dates.** A date is an integer day number, with 0 = 1970-01-01 (a Thursday). JavaScript's
`getDay()` is `(d + 4) % 7` and the Monday-based index is `(d + 3) % 7`. The app's "today" is the
America/New_York day; each widget's "today" is the device calendar's day. All of them are
inputs. Logs are keyed by day number. `IsoDate` shows that ordering the `YYYY-MM-DD` string keys
orders the days, which is what "the smallest key is the first tracking day" relies on.

**State.** The places where the source updates state in place are classes:

- `Storage.Store` holds the persisted data and the shared `DEFAULT_APP_DATA` object;
- `Reminders.NotificationCenter` holds the scheduled notifications;
- `AppContext.AppProvider` holds the React state `rules`, `logs` and the two settings objects;
- `Checklist.DailyChecklist` holds `ruleStates`.

The loops of the source are methods with loop invariants, proved against specification
functions:

- `Calendar.GetMonthGridDays`, `DotGrid.BuildDots`, `DotGrid.ChunkRows`;
- `StatsCard.ComputeStats`, whose two loops are `StatsCard.CountDays` and `StatsCard.WalkStreak`;
- `Reminders.NotificationCenter.ScheduleReminders`, `Storage.Store.DedupeRules`;
- `Checklist.DailyChecklist.ResetMarks`, `Checklist.DailyChecklist.HandleSubmit`;
- `MonthWidget.GetMonthDays`, and `MonthWidget.CalculateStats` with its loop `MonthWidget.CountSoFar`;
- `DotsWidget.GetTrackingDots`, and `DotsWidget.CalculateStats` with its loop `DotsWidget.CountTracked`.

## Model

| member | source | states |
|---|---|---|
| Calendar.GetDayConversionIsMondayIndex | utils/date.ts:49-51 | Sunday (getDay 0) becomes 6 and every other day getDay − 1; this is the day's Monday-based index |
| Calendar.WeekendIsMondayIndexFiveOrSix | utils/date.ts:65-67 | a day is a weekend day exactly when its Monday-based index is 5 or 6 |
| Calendar.DaysInMonth | utils/date.ts:37-41 | Gregorian month lengths lie between 28 and 31 |
| Calendar.NextMonthStartsAfterEnd | utils/date.ts:30-35 | the end of a month is the day before the next month's 1st, so months tile the calendar |
| Calendar.AllDaysInMonth | utils/date.ts:37-41 | every day of the month, once each, ascending from the 1st |
| Calendar.WeekdaysInRange | utils/date.ts:98-101 | the ascending weekdays of an ordered interval, which is what getWeekdaysInRange gives when start ≤ end; with start > end this ascending list is empty (the reversed interval is `Calendar.GetWeekdaysInRange`'s), and it never holds more days than the interval spans |
| Calendar.WeekdaysInRangeMembers | utils/date.ts:98-101 | in the ascending list of [start, end] a day appears exactly when it lies in [start, end] and is not Saturday or Sunday |
| Calendar.WeekdaysAscending | utils/date.ts:98-101 | the listed weekdays are strictly ascending |
| Calendar.GetWeekdaysInRange | utils/date.ts:98-101 | a day is listed exactly when it lies between start and end, in either order, and is not Saturday or Sunday; ascending when start ≤ end, and newest first when start > end, as date-fns 3 `eachDayOfInterval` lists a reversed interval |
| Calendar.ReversedIntervalExample | utils/date.ts:98-101 | from Saturday 2025-10-04 back to Wednesday 2025-10-01 the weekdays are the 3rd, 2nd and 1st, in that order |
| Calendar.Reverse | components/StatsCard.tsx:28 | the same days in the opposite order |
| Calendar.ReverseSortsDescending | components/StatsCard.tsx:28 | sorting by descending time is the reversal of the ascending weekday list, with the same days |
| Calendar.WeekdaysInRangeSplit | utils/date.ts:98-101 | the weekdays of a range are those of its first part followed by those of the rest |
| Calendar.WeekHasFiveWeekdays | utils/date.ts:98-101 | any seven consecutive days contain exactly five weekdays |
| Calendar.MonthHas20To23Weekdays | utils/date.ts:30-35 | every month has between 20 and 23 weekdays |
| Calendar.GetMonthGridDays | utils/date.ts:43-63 | the grid is one blank per Monday-based index of the 1st, then every day of the month in order, at most 37 cells |
| Calendar.MonthGridUnique | utils/date.ts:43-63 | the grid of a month is determined by the month |
| Calendar.MonthGridFitsSixRows | utils/date.ts:43-63 | at most 37 cells, and a day appears exactly when it belongs to the month |
| Calendar.October2025HasTwoBlanks | utils/date.ts:49-57 | 1 October 2025 is day 20362, a Wednesday, so its grid opens with two blanks |
| Calendar.FirstTrackingDay | utils/date.ts:92-96 | none exactly when there are no logs; otherwise a logged day no later than any other |
| IsoDate.SmallestKeyIsEarliestDay | utils/date.ts:92-96 | one `YYYY-MM-DD` key sorts before another exactly when its day is earlier, and equal keys are equal dates |
| IsoDate.TodayAndPastAreExclusive | utils/date.ts:69-83 | isTodayET holds iff year, month and day agree; isPastDay iff the date's fields come first; never both |
| IsoDate.October2025Key | utils/date.ts:22-24 | the key of 1 October 2025 is "2025-10-01" and its day number 20362 |
| Rates.RoundPercent | components/StatsCard.tsx:65-66 | the rounded percentage: the nearest integer to 100·g/t, halves upward, and 0 when t = 0 |
| Rates.TruncPercent | widgets/ios/TradingTrackerWidget.swift:305-306 | the truncated percentage: the largest integer not above 100·g/t, and 0 when t = 0 |
| Rates.RatesWithinPercentRange | components/StatsCard.tsx:65-66 | with g ≤ t both rates lie in [0, 100], and are 100 when every counted day is green |
| Rates.RoundIsTruncOrOneMore | widgets/ios/TradingTrackerWidget.swift:305-306 | the app's rounded rate is the widgets' truncated rate or one more |
| Rates.TwoOfThree | targets/widget/TradingTrackerWidget.swift:246 | two green days of three give 67 % in the app and 66 % in the widgets |
| StatsCard.ComputeStats | components/StatsCard.tsx:17-72 | missed is the red count, rate the rounded rate of green over green + red, streak the newest-first walk, all over the month's weekdays up to today |
| StatsCard.CountStatus | components/StatsCard.tsx:30-44 | a status is counted at most once per listed day |
| StatsCard.Streak | components/StatsCard.tsx:47-63 | the streak is at most the number of listed days |
| StatsCard.CountStatusAppend | components/StatsCard.tsx:30-44 | the counts of two runs of days add up |
| StatsCard.CountStatusReverse | components/StatsCard.tsx:28 | counting newest-first gives the same counts as oldest-first |
| StatsCard.StreakAtMostGreen | components/StatsCard.tsx:47-63 | the streak never exceeds the green days it walks over |
| StatsCard.CardStreakAtMostGreenDays | components/StatsCard.tsx:47-63 | the card's streak is at most its green-day count |
| StatsCard.StreakReadsListedDaysOnly | components/StatsCard.tsx:47-63 | the streak depends only on the statuses of the listed days |
| StatsCard.CardStreakStaysInMonth | components/StatsCard.tsx:18-28 | logs outside the displayed month cannot change its streak |
| StatsCard.FutureLogsDoNotCount | components/StatsCard.tsx:35-48 | a log after today changes neither the counts nor the streak |
| StatsCard.UnloggedDaysDoNotCount | components/StatsCard.tsx:35-43 | an unlogged day adds to neither the green nor the red count |
| StatsCard.AllFutureCountsNothing | components/StatsCard.tsx:35-48 | days all after today count nothing and give streak 0 |
| StatsCard.FutureMonthShowsZeros | components/StatsCard.tsx:35-66 | a month lying after today shows streak 0, rate 0 and missed 0 |
| StatsCard.StreakExample | components/StatsCard.tsx:47-63 | newest first green, green, unlogged, red, green gives streak 2 |
| StatsCard.CountDays | components/StatsCard.tsx:30-44 | the loop's green, red and grey counts are those of the weekdays on or before today, and together they number those weekdays |
| StatsCard.WalkStreak | components/StatsCard.tsx:46-63 | the newest-first walk returns the streak: green days count, unlogged days are skipped, the first red day stops it |
| DotGrid.DotWindow | components/DotGridView.tsx:29-39 | quarter view spans from the later of today − 3 months and the first day to today + 3 months; other views from the first day to 12 months on |
| DotGrid.Classify | components/DotGridView.tsx:49-66 | future exactly after today; before exactly before the first tracking day (up to today); green exactly from the first day to today with a green log; red for the other days of that span |
| DotGrid.DotsFor | components/DotGridView.tsx:46-67 | one dot per weekday of the window, in order, with its classification |
| DotGrid.BuildDots | components/DotGridView.tsx:25-70 | no logs give no dots and zero counts; otherwise the dots of the window's weekdays as getWeekdaysInRange lists them (newest first for a reversed window), green = green dots, tracked = green + red dots |
| DotGrid.NoBeforeDots | components/DotGridView.tsx:32-58 | the window never starts before the first tracking day, so no dot of an ordered window is "before", nor of a reversed window ending after today |
| DotGrid.ReversedQuarterAllFuture | components/DotGridView.tsx:29-105 | in the quarter view with the first log more than three months after today, the reversed window's dots are all future: nothing green, red or tracked, and as many future dots as weekdays in the window |
| DotGrid.TrackedDayColour | components/DotGridView.tsx:46-67 | a day from the first tracking day to today is green iff its log is green, red otherwise, an unlogged day included |
| DotGrid.GreenWithinTracked | components/DotGridView.tsx:60-105 | green ≤ tracked and the rounded rate is in [0, 100] |
| DotGrid.KindsPartitionDots | components/DotGridView.tsx:46-67 | every dot is exactly one of green, red, future and before |
| DotGrid.DotRate | components/DotGridView.tsx:105 | 0 with nothing tracked; otherwise the nearest integer to 100·green/tracked, halves upward, in [0, 100] when green ≤ tracked |
| DotGrid.FutureCount | components/DotGridView.tsx:104 | at most one per dot, and zero exactly when no dot is in the future |
| DotGrid.CountKindZero | components/DotGridView.tsx:104 | a kind counts zero dots exactly when no dot has that kind |
| DotGrid.Columns | components/DotGridView.tsx:88 | 12 columns in quarter view, 16 otherwise |
| DotGrid.ChunkRows | components/DotGridView.tsx:107-111 | the rows concatenate to the dots, every row but the last is full, none is empty, and there are ⌈n/columns⌉ of them |
| DotGrid.RowCount | components/DotGridView.tsx:107-111 | rows that are all full but the last, none empty, holding n dots, number ⌈n/columns⌉ |
| Reminders.ReminderId | utils/notifications.ts:140 | each reminder identifier starts with the tag `trading-reminder` |
| Reminders.ReminderIdsDistinct | utils/notifications.ts:140 | different counters give different identifiers |
| Reminders.JsNumber | utils/notifications.ts:64 | a run of digits converts to its value; anything else is not a number |
| Reminders.ParseTime | utils/notifications.ts:63-66 | the hours are the number before the first `:`, the minutes the number after it, and without a `:` the minutes are missing |
| Reminders.ParseTimeOfPadded | utils/notifications.ts:63-66 | parsing a zero-padded `HH:mm` gives back its hours and minutes |
| Reminders.WindowInstant | utils/notifications.ts:96-104 | a window bound exists exactly when both fields parse, and is a non-negative whole number of minutes after midnight ("30:00" lies past the day, as `setHours` carries) |
| Reminders.PaddedWindowInstant | utils/notifications.ts:96-104 | a zero-padded `HH:mm` with hours below 24 and minutes below 60 is exactly that many hours and minutes after midnight, within the day |
| Reminders.RoundedMinutes | utils/notifications.ts:116-117 | the minute of the hour rounded up to the next multiple of the interval |
| Reminders.FirstInstantPlacement | utils/notifications.ts:111-127 | before the window the first reminder is its start; inside it, at the rounded minute with seconds cleared, plus one extra hour per 60 rounded minutes |
| Reminders.DoubleHourCarryExample | utils/notifications.ts:114-124 | 16:50 with a 15-minute interval puts the first reminder at 18:00 |
| Reminders.DelaySeconds | utils/notifications.ts:135 | each delay is at least one second, and the whole seconds until the reminder when that is one or more |
| Reminders.ReminderCount | utils/notifications.ts:131-134 | never more than 50 reminders |
| Reminders.PlanEntries | utils/notifications.ts:130-159 | reminder k has identifier `trading-reminder-k` and the delay to first + k·interval |
| Reminders.LoopGuard | utils/notifications.ts:134 | the loop goes on exactly while fewer reminders than the count have been made |
| Reminders.Plan | utils/notifications.ts:80-159 | nothing is planned when reminders are off, today is logged, today is a weekend day or permission is missing; at most 50 reminders, reminder k with identifier `trading-reminder-k` and a delay of at least one second |
| Reminders.NothingScheduledCases | utils/notifications.ts:80-109 | disabled, today logged, a weekend, no permission or now past the end: nothing is scheduled |
| Reminders.PlanWithinWindow | utils/notifications.ts:129-159 | at most 50 reminders, all before the end of the window |
| Reminders.InstantsSpacedByInterval | utils/notifications.ts:158 | consecutive reminders are exactly one interval apart and increasing |
| Reminders.PlanIdentifiers | utils/notifications.ts:135-155 | every delay is at least one second, every identifier is tagged, and they are pairwise distinct |
| Reminders.ParseWholeHour | utils/notifications.ts:96-104 | a whole-hour `HH:00` bound is that hour of the day |
| Reminders.AfternoonExample | utils/notifications.ts:113-159 | window 16:00–17:00, interval 15, now 16:07: three reminders, 8, 23 and 38 minutes ahead (16:15, 16:30, 16:45) |
| Reminders.Untagged | utils/notifications.ts:49-56 | cancelling keeps at most the notifications there were |
| Reminders.UntaggedKeepsOthers | utils/notifications.ts:52-56 | cancelling removes exactly the tagged notifications and keeps every other one |
| Reminders.CountTaggedAppend | utils/notifications.ts:168-171 | tagged counts of two lists add up |
| Reminders.AllTaggedCount | utils/notifications.ts:168-171 | a list of tagged notifications counts in full |
| Reminders.ReminderCountMatches | utils/notifications.ts:164-171 | after cancelling and scheduling, the tagged count is the number scheduled |
| Reminders.NotificationCenter.constructor | utils/notifications.ts:49-60 | nothing scheduled and a zero badge |
| Reminders.NotificationCenter.ScheduledReminderCount | utils/notifications.ts:168-171 | the number of scheduled notifications carrying the tag |
| Reminders.NotificationCenter.CancelAllReminders | utils/notifications.ts:49-60 | exactly the untagged notifications remain, and the badge is cleared |
| Reminders.NotificationCenter.QueueReminders | utils/notifications.ts:129-159 | the loop appends the planned reminders and returns their number |
| Reminders.NotificationCenter.ScheduleReminders | utils/notifications.ts:69-165 | the untagged notifications stay, the plan is appended, and the returned count is the plan's length and the tagged count |
| Storage.FindRule | utils/storage.ts:104 | the index of the first rule with the id, or none exactly when no rule has it |
| Storage.RemoveId | utils/storage.ts:113 | filtering never adds rules |
| Storage.HasIdAppend | utils/storage.ts:97 | an id is present after appending a rule iff it was before or is the rule's |
| Storage.DedupeIds | utils/storage.ts:44-54 | after dedupe the ids are pairwise distinct, the same ids are present, and only loaded rules remain |
| Storage.DedupeOfDistinct | utils/storage.ts:44-54 | rules with distinct ids come through dedupe unchanged |
| Storage.DedupeKeepsFirstOccurrences | utils/storage.ts:44-54 | each kept rule is the first with its id, and kept rules keep their relative order |
| Storage.IndexOf | utils/storage.ts:44-54 | the first position of a rule in the list |
| Storage.FindRuleAppend | utils/storage.ts:97-104 | appending a rule does not move an existing id's first match, and a new id is found at the end |
| Storage.IndexOfAppend | utils/storage.ts:97 | appending keeps each rule's first position |
| Storage.IndexOfLast | utils/storage.ts:97 | a newly appended rule sits at the end |
| Storage.UpdateFirstChangesOneText | utils/storage.ts:102-109 | only the first rule with the id changes, and only its text; no match changes nothing; the ids stay the same |
| Storage.RemoveIdFilters | utils/storage.ts:111-115 | exactly the rules without the id remain, in order; deleting twice is deleting once; an absent id changes nothing |
| Storage.RemoveIdKeepsDistinct | utils/storage.ts:111-115 | deleting keeps ids distinct |
| Storage.AppendFreshKeepsDistinct | utils/storage.ts:90-100 | appending a rule with a fresh id keeps ids distinct |
| Storage.SameIdsKeepDistinct | utils/storage.ts:102-109 | a list with the same ids as a distinct one is distinct |
| Storage.Store.constructor | utils/storage.ts:12-15 | nothing stored, and the default data has no rules and no logs |
| Storage.Store.Loaded | utils/storage.ts:39-62 | what getAppData yields: the shared default object when nothing is stored, otherwise the stored data with rules deduplicated |
| Storage.Store.DedupeRules | utils/storage.ts:45-54 | the loop keeps the first rule of each id, in order: the result is `Storage.Dedupe`, whose ids are distinct and the same as the input's |
| Storage.Store.GetAppData | utils/storage.ts:39-62 | returns the loaded data, and says whether it is the shared default object |
| Storage.Store.Commit | utils/storage.ts:64-73 | stores the data; writing to the default object changes that object too |
| Storage.Store.AddRule | utils/storage.ts:90-100 | the loaded rules gain exactly the new rule at the end; logs, settings are unchanged; on a fresh install the default object gains it too |
| Storage.Store.UpdateRule | utils/storage.ts:102-109 | with a match the first matching rule's text changes and the data is saved; without one nothing is saved |
| Storage.Store.DeleteRule | utils/storage.ts:111-115 | the loaded rules lose every rule with the id, and the data is saved |
| Storage.Store.GetDayLog | utils/storage.ts:117-120 | the log stored for the day, or none exactly when there is no such log |
| Storage.Store.SaveDayLog | utils/storage.ts:122-126 | the day's entry is overwritten with the log; other days and the rules are unchanged |
| Storage.Store.GetWidgetSettings | utils/storage.ts:133-144 | the stored settings, or dark / #22c55e / indicator on when nothing is stored |
| Storage.Store.SaveWidgetSettings | utils/storage.ts:146-155 | stores the widget settings and nothing else |
| Storage.Store.GetNotificationSettings | context/AppContext.tsx:45-60 | the stored notification settings, or the given fallback |
| Storage.Store.SaveNotificationSettings | context/AppContext.tsx:144-153 | stores the notification settings and nothing else |
| Storage.FreshInstallLoadsEmpty | utils/storage.ts:56-61 | with nothing stored, getAppData yields no rules and no logs |
| AppContext.DayStatusOf | context/AppContext.tsx:113-134 | a weekend is none; otherwise the logged status, else grey iff the day is before today, else none |
| AppContext.DayStatusReadsOneDay | context/AppContext.tsx:113-134 | the status depends only on that day's log |
| AppContext.SubmittedLog | context/AppContext.tsx:81-91 | today's log, green iff every rule result is true (else red), with the results and noTradeDay false |
| AppContext.NoTradeLog | context/AppContext.tsx:98-106 | today's log, green, noTradeDay true and no rule results |
| AppContext.EmptyResultsAreGreen | context/AppContext.tsx:83-84 | a submission with no rules is green |
| AppContext.OneBrokenRuleIsRed | context/AppContext.tsx:83-84 | one broken rule makes the day red |
| AppContext.UpdateAll | context/AppContext.tsx:71-74 | every rule with the id gets the new text; the others are unchanged |
| AppContext.UpdateAllMatchesStorage | context/AppContext.tsx:71-74 | with distinct ids the in-memory update equals the stored one |
| AppContext.MergeWidget | context/AppContext.tsx:136-142 | each given field replaces the current one; the others stay |
| AppContext.MergeNotification | context/AppContext.tsx:144-153 | each given field replaces the current one; the others stay |
| AppContext.WidgetMergeLaws | context/AppContext.tsx:136-142 | an empty patch changes nothing, a patch applied twice is applied once, two patches compose |
| AppContext.NotificationMergeLaws | context/AppContext.tsx:144-153 | an empty patch changes nothing, a patch applied twice is applied once, a full patch replaces everything |
| AppContext.AppProvider.constructor | context/AppContext.tsx:30-43 | no rules, no logs, loading, default widget and notification settings |
| AppContext.AppProvider.TodayLog | context/AppContext.tsx:155-156 | today's log, or none exactly when today has none |
| AppContext.AppProvider.CanEditToday | context/AppContext.tsx:157 | today can be edited exactly when no log is kept under today's key |
| AppContext.AppProvider.Refresh | context/AppContext.tsx:45-60 | the state equals the loaded data and settings, and loading has ended |
| AppContext.AppProvider.AddRuleAsWritten | context/AppContext.tsx:66-69 | as written: storage gains the rule once, and the in-memory list gains it twice when it is the shared default array; logs and both settings, in memory and stored, are unchanged |
| AppContext.AppProvider.AddRule | context/AppContext.tsx:66-69 | the list gains exactly the new rule, storage gains it once, and list and storage stay equal with distinct ids; logs and both settings, in memory and stored, are unchanged |
| AppContext.AppProvider.UpdateRule | context/AppContext.tsx:71-74 | the list's rules with the id get the text, the stored rules have the first one with the id updated, list and storage stay equal, and logs and both settings, in memory and stored, are unchanged |
| AppContext.AppProvider.DeleteRule | context/AppContext.tsx:76-79 | the list and the stored rules lose the rules with the id, list and storage stay equal, and logs and both settings, in memory and stored, are unchanged |
| AppContext.AppProvider.SubmitDayLog | context/AppContext.tsx:81-96 | today's log is stored and set, green iff all results are true; today is no longer editable; reminders are cancelled; rules and both settings, in memory and stored, are unchanged |
| AppContext.AppProvider.MarkNoTradeDay | context/AppContext.tsx:98-111 | today's green no-trade log is stored and set; today is no longer editable; reminders are cancelled; rules and both settings, in memory and stored, are unchanged |
| AppContext.AppProvider.UpdateWidgetSettings | context/AppContext.tsx:136-142 | the merged settings are set and stored; nothing else changes |
| AppContext.AppProvider.UpdateNotificationSettings | context/AppContext.tsx:144-153 | the merged settings are set and stored, and reminders are rescheduled with today-complete = a log exists for today; nothing else changes |
| AppContext.FreshInstallFirstRule | context/AppContext.tsx:66-69 | on a fresh install the first rule appears twice on screen as written, once when corrected, and once in storage |
| Checklist.NextMark | components/DailyChecklist.tsx:26-34 | unmarked → followed → broken → unmarked, and an absent mark becomes unmarked |
| Checklist.Lookup | components/DailyChecklist.tsx:24-37 | a rule's mark, or none when it has no entry |
| Checklist.Toggle | components/DailyChecklist.tsx:24-37 | the rule's mark advances by one step; every other entry is unchanged |
| Checklist.ThreeTogglesRestore | components/DailyChecklist.tsx:24-37 | three toggles restore the marks |
| Checklist.TogglePassesThroughAllMarks | components/DailyChecklist.tsx:26-34 | from unmarked, toggling goes through followed and broken and back |
| Checklist.Title | components/DailyChecklist.tsx:66-82 | "No Trade Day", "Rules Followed" for a green log, otherwise "Rules Broken" |
| Checklist.ScreenFor | components/DailyChecklist.tsx:65-122 | the recorded view exactly when today cannot be edited, with the recorded title and the rule results shown iff the log has them; the no-rules view exactly when editable without rules |
| Checklist.ButtonsOnlyWhenEditable | components/DailyChecklist.tsx:65-110 | the submit and no-trade buttons appear exactly when today is editable and there are rules |
| Checklist.TitleOfRecordedDay | components/DailyChecklist.tsx:66-82 | after a submission the title says whether all rules were followed; after no-trade it says "No Trade Day" |
| Checklist.GreenIffAllFollowed | components/DailyChecklist.tsx:46-51 | a submitted day is green exactly when every rule was marked followed |
| Checklist.DailyChecklist.constructor | components/DailyChecklist.tsx:13 | no marks |
| Checklist.DailyChecklist.ResetMarks | components/DailyChecklist.tsx:16-22 | exactly one unmarked entry per rule id |
| Checklist.DailyChecklist.ToggleRule | components/DailyChecklist.tsx:24-37 | the marks become the toggled marks |
| Checklist.DailyChecklist.HandleSubmit | components/DailyChecklist.tsx:39-52 | nothing is submitted iff a rule is still unmarked; otherwise the results have exactly the rule ids, each true iff marked followed |
| MonthWidget.LoadLogs | widgets/ios/TradingTrackerWidget.swift:44-51 | the decoded logs, or none |
| MonthWidget.LoadSettings | widgets/ios/TradingTrackerWidget.swift:53-64 | the decoded settings, or dark / #22c55e / indicator on |
| MonthWidget.WidgetDayStatus | widgets/ios/TradingTrackerWidget.swift:209-223 | the logged status, else grey before today, else none, with no weekend test |
| MonthWidget.WidgetAgreesWithAppOnWeekdays | widgets/ios/TradingTrackerWidget.swift:209-223 | on a weekday the widget's status equals the app's |
| MonthWidget.BoxColour | widgets/ios/TradingTrackerWidget.swift:225-240 | a box is clear iff it is a weekend day, whatever its status; green and red days get #22c55e and #ef4444 |
| MonthWidget.BoxFollowsAppStatus | widgets/ios/TradingTrackerWidget.swift:192-240 | only weekend boxes are clear, where the app says none; a weekday box has the colour of the app's status |
| MonthWidget.WeekdayConversionIsMondayIndex | widgets/ios/TradingTrackerWidget.swift:254-255 | Sunday (weekday 1) becomes 6 and every other day weekday − 2; this is the Monday-based index |
| MonthWidget.GetMonthDays | widgets/ios/TradingTrackerWidget.swift:242-268 | the same grid as the app's month grid |
| MonthWidget.CalculateStats | widgets/ios/TradingTrackerWidget.swift:276-309 | green and red logged weekdays from the 1st through today, and their truncated rate in [0, 100]; the first slot holds the green count |
| MonthWidget.CountSoFar | widgets/ios/TradingTrackerWidget.swift:284-303 | the loop counts exactly the green and the red logged weekdays from the 1st through today, together at most the weekdays walked |
| MonthWidget.CountStep | widgets/ios/TradingTrackerWidget.swift:288-303 | one more day of the walk adds one to a status's count exactly when it is a weekday up to today logged with that status |
| MonthWidget.GreenAndRedAtMostWeekdays | widgets/ios/TradingTrackerWidget.swift:284-303 | green plus red is at most the number of weekdays walked |
| MonthWidget.SoFarCountsWholeMonth | widgets/ios/TradingTrackerWidget.swift:284-303 | the weekdays after today add nothing to the month's count of a status |
| MonthWidget.WidgetRateMatchesCard | widgets/ios/TradingTrackerWidget.swift:284-306 | in the current month the widget counts the card's green and red days, and its rate is the card's rate or one less |
| DotsWidget.DotHex | targets/widget/TradingTrackerWidget.swift:190-199 | green dots are #22c55e and red dots #ef4444 |
| DotsWidget.DotOf | targets/widget/TradingTrackerWidget.swift:190-199 | a dot is green iff the day's log is green; an unlogged day is red |
| DotsWidget.TrackedDays | targets/widget/TradingTrackerWidget.swift:176-186 | no logs give no days; otherwise the weekdays from the earliest logged day through today |
| DotsWidget.DotsOf | targets/widget/TradingTrackerWidget.swift:186-200 | one dot per day, in order |
| DotsWidget.CountGreen | targets/widget/TradingTrackerWidget.swift:239-241 | there are no more green dots than dots |
| DotsWidget.GetTrackingDots | targets/widget/TradingTrackerWidget.swift:171-205 | the dots of the tracked weekdays, none without logs |
| DotsWidget.CalculateStats | targets/widget/TradingTrackerWidget.swift:219-249 | total = the number of drawn dots, green = the green dots, green ≤ total, and the truncated rate in [0, 100] |
| DotsWidget.CountTracked | targets/widget/TradingTrackerWidget.swift:230-244 | the loop counts every weekday from the first tracking day through today, and the green-logged ones |
| DotsWidget.DotsAgreeWithAppGrid | targets/widget/TradingTrackerWidget.swift:183-199 | on a tracked day the widget's dot is green (red) exactly when the app's dot grid shows green (red) |
| DotsWidget.HeaderTint | targets/widget/TradingTrackerWidget.swift:139 | green from 80 %, the text colour from 50 %, red below |
| DotsWidget.HeaderTintMonotone | targets/widget/TradingTrackerWidget.swift:139 | a higher rate never gets a worse colour |
| DotsWidget.Cell | targets/widget/TradingTrackerWidget.swift:155-164 | a cell shows a dot exactly when its index row·perRow + col is below the dot count |
| DotsWidget.RowsHoldEveryDot | targets/widget/TradingTrackerWidget.swift:152-164 | the ⌈n/perRow⌉ rows hold every dot, with fewer than a row to spare; dot i is at row i / perRow, column i % perRow |
| DotsWidget.CellsShowEachDotOnce | targets/widget/TradingTrackerWidget.swift:155 | distinct cells show distinct dots |
| HexColor.TrimStart | widgets/ios/TradingTrackerWidget.swift:316 | drops exactly the leading non-alphanumeric characters |
| HexColor.TrimEnd | widgets/ios/TradingTrackerWidget.swift:316 | drops exactly the trailing non-alphanumeric characters |
| HexColor.HexValue | widgets/ios/TradingTrackerWidget.swift:318 | the value of n hex digits is below 16ⁿ |
| HexColor.HexRun | widgets/ios/TradingTrackerWidget.swift:318 | the longest leading run of hex digits |
| HexColor.SkipHexPrefix | widgets/ios/TradingTrackerWidget.swift:318 | without a `0x` / `0X` prefix the text is scanned from its start |
| HexColor.ScanHex | widgets/ios/TradingTrackerWidget.swift:317-318 | the scanned value fits 64 bits (it saturates) and is below 16ⁿ |
| HexColor.Decode | widgets/ios/TradingTrackerWidget.swift:314-338 | every component is at most 255; a length other than 3, 6, 8 gives (255, 0, 0, 0); alpha is 255 unless there are 8 digits (identical in the dot widget) |
| HexColor.HexValueAppend | widgets/ios/TradingTrackerWidget.swift:318 | the value of concatenated digits is the first part shifted left plus the second |
| HexColor.HexByteValue | widgets/ios/TradingTrackerWidget.swift:324 | two hex digits of a byte read back as that byte |
| HexColor.TrimHashHex | widgets/ios/TradingTrackerWidget.swift:316 | trimming `#` + hex digits leaves the digits |
| HexColor.ReadsWhole | widgets/ios/TradingTrackerWidget.swift:316-318 | `#` + up to eight hex digits is trimmed to the digits and scanned to their value |
| HexColor.DecodeEncode6 | widgets/ios/TradingTrackerWidget.swift:323-324 | `#rrggbb` decodes to (255, r, g, b) |
| HexColor.DecodeEncode8 | widgets/ios/TradingTrackerWidget.swift:325-326 | `#aarrggbb` decodes to (a, r, g, b) |
| HexColor.DecodeEncode3 | widgets/ios/TradingTrackerWidget.swift:321-322 | `#rgb` decodes to (255, 17r, 17g, 17b) |
| HexColor.FromRgb12 | widgets/ios/TradingTrackerWidget.swift:321-322 | twelve bits give an opaque colour whose channels are at most 255 |
| HexColor.FromRgb24 | widgets/ios/TradingTrackerWidget.swift:323-324 | twenty-four bits give an opaque colour whose channels are at most 255 |
| HexColor.FromArgb32 | widgets/ios/TradingTrackerWidget.swift:325-326 | thirty-two bits give a colour whose four channels, alpha first, are at most 255 |
| HexColor.UnpackRgb12 | widgets/ios/TradingTrackerWidget.swift:321-322 | the shifts and masks recover three packed nibbles, each repeated |
| HexColor.UnpackRgb24 | widgets/ios/TradingTrackerWidget.swift:323-324 | the shifts and masks recover three packed bytes |
| HexColor.UnpackArgb32 | widgets/ios/TradingTrackerWidget.swift:325-326 | the shifts and masks recover four packed bytes, alpha in the top one |
| HexColor.WidgetColours | widgets/ios/TradingTrackerWidget.swift:231-234 | #22c55e is (255, 34, 197, 94) and #ef4444 is (255, 239, 68, 68) |
| HexColor.ZeroXPrefixCountsTowardsLength | widgets/ios/TradingTrackerWidget.swift:316-326 | "0xFF00FF" has 8 characters after trimming, so it decodes as ARGB (0, 255, 0, 255) |

## Left out

- Rendering: SwiftUI and React Native views, styles, box and dot sizes, icons, alerts, and `components/MonthGrid.tsx`'s colour table are not modelled.
- Storage I/O: AsyncStorage, the App Group sync and UserDefaults are not modelled. The store is a class with a field per stored entry, and a JSON parse failure is the same as nothing stored.
- Widget reloads, notification permission requests and the Android channel are not modelled. Permission is an input.
- The clock and time zones: "today" and "now" are inputs. The America/New_York conversion, the device calendar and daylight-saving days are not modelled.
- The device calendar's weekend is taken to be Saturday and Sunday in the widgets.
- Floating point: the rates are exact integer arithmetic, so they can differ by one from the source's double arithmetic when the quotient times 100 lands just below a half or a whole number. `Math.round((29 / 200) * 100)` (components/DotGridView.tsx:105, components/StatsCard.tsx:66) computes 14.499999999999998 and gives 14, where `Rates.RoundPercent(29, 200)` is 15; `Int((29.0 / 100.0) * 100)` (targets/widget/TradingTrackerWidget.swift:246, widgets/ios/TradingTrackerWidget.swift:306) computes 28.999999999999996 and gives 28, where `Rates.TruncPercent(29, 100)` is 29. The widgets' `/255` colour conversion and the CGFloat `dotsPerRow` are not modelled; `dotsPerRow` is a positive integer parameter (Swift traps on 0).
- Month arithmetic (`addMonths`, `subMonths` and their end-of-month clamping) is a function parameter of `DotGrid.DotWindow`.
- DotGrid.ReversedQuarterAllFuture: requires `addMonths(today, 3)` to lie after today. date-fns guarantees this, but a function parameter does not.
- Fresh ids (`Date.now` + `Math.random`) and timestamps are inputs. `Storage.Store.AddRule` requires the id to be unused.
- `dateFromString` failing on a malformed key is not modelled: keys are day numbers.
- The string order of keys matters only for `YYYY-MM-DD` keys of years 0–9999.
- Unicode: `CharacterSet.alphanumerics` is ASCII letters and digits here. The length is counted in characters, not grapheme clusters.
- `Number()` accepts more forms than plain digit runs (spaces, signs, decimals, `0x`). `Reminders.JsNumber` maps those to "not a number".
- Reminders.NotificationCenter.ScheduleReminders: requires an interval of at least 1 minute. With 0 the source's rounding divides by zero (an invalid date, so nothing is scheduled inside the window), and before the window it schedules 50 reminders at the same instant. Neither is modelled.
- AppContext.AppProvider.UpdateNotificationSettings: requires the merged interval to be at least 1, for the same reason.
- Reminders.NotificationCenter.CancelAllReminders: modelled as one filter of the scheduled list rather than one cancel call per identifier.
- Async ordering: the await points, double taps and React effect timing are not modelled. Each provider method runs to completion.
- `utils/storage.ts` does not define `getNotificationSettings` and `saveNotificationSettings`, which `context/AppContext.tsx` calls; `types/index.ts` does not define `NotificationSettings`. The model gives the store a notification-settings entry with a fallback. As written the calls would fail.
- Failed writes (logged and swallowed by the source) are not modelled: every write succeeds.
- The theme context, `useColorScheme`, the layout and the widget build configuration are not modelled.
- Two behaviours of the code worth noting:
  - a second submission on the same day overwrites the log (`saveDayLog` has no lock; only the screen's `canEditToday` prevents it);
  - rules deduplicated on load are not written back.

## Findings

| source | as written | input that shows it | evidently intended | confidence | as-written member | corrected member |
|---|---|---|---|---|---|---|
| context/AppContext.tsx:66-69 | On a fresh install the provider's `rules` is the `DEFAULT_APP_DATA.rules` array itself. `addRule` in utils/storage.ts:97 pushes the new rule into that array, and `setRules(prev => [...prev, newRule])` appends it again. | no stored data; add rule r1 | the screen lists r1 once, as storage does (the dedupe at utils/storage.ts:44 is there for the duplicate key this causes) | not executed | AppContext.AppProvider.AddRuleAsWritten | AppContext.AppProvider.AddRule |
