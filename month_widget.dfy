/**
 * widgets/ios/TradingTrackerWidget.swift: the month widget. It reads the logs
 * and settings the app shares, draws the month as a Monday-first grid of
 * coloured boxes, and shows a success rate for the month so far.
 *
 * `today` is the device calendar's current day and `dark` the settings'
 * theme; the device calendar's weekend is taken to be Saturday and Sunday.
 */
module MonthWidget {
  import opened Wrappers
  import opened Calendar
  import opened Types
  import opened Rates
  import StatsCard
  import AppContext

  // ---------------------------------------------------------------------------
  // Loading (TradingTrackerWidget.swift:44-64)

  /** loadLogs: the decoded logs, or no logs when the entry is missing or does not decode. */
  function LoadLogs(decoded: Option<map<int, DayLog>>): (logs: map<int, DayLog>)
    ensures decoded.Some? ==> logs == decoded.value
    ensures decoded.None? ==> forall d :: d !in logs
  {
    if decoded.Some? then decoded.value else map[]
  }

  /** loadSettings: the decoded settings, or the same defaults the app uses. */
  function LoadSettings(decoded: Option<WidgetSettings>): (s: WidgetSettings)
    ensures decoded.Some? ==> s == decoded.value
    ensures decoded.None? ==> s == WidgetSettings(Dark, "#22c55e", true)
  {
    if decoded.Some? then decoded.value else DefaultWidgetSettings
  }

  // ---------------------------------------------------------------------------
  // Boxes (TradingTrackerWidget.swift:192-240)

  /** getDayStatus: the logged status, else grey before the start of today, else none. There is
      no weekend test here. */
  function WidgetDayStatus(logs: map<int, DayLog>, date: int, today: int): (s: DayStatus)
    ensures date in logs ==> s == logs[date].status
    ensures date !in logs && date < today ==> s == Grey
    ensures date !in logs && date >= today ==> s == NoStatus
  {
    if date in logs then logs[date].status
    else if date < today then Grey
    else NoStatus
  }

  /** On a weekday the widget and the app derive the same status. */
  lemma WidgetAgreesWithAppOnWeekdays(logs: map<int, DayLog>, date: int, today: int)
    requires !IsWeekend(date)
    ensures WidgetDayStatus(logs, date, today) == AppContext.DayStatusOf(logs, date, today)
  {
  }

  /** A box: see-through or filled with a colour given as hex. */
  datatype Fill = Clear | Filled(hex: string)

  /** getBoxColor: weekends are clear whatever their status; otherwise the status colour, with
      the grey and blank shades depending on the theme. */
  function BoxColour(status: DayStatus, isWeekend: bool, dark: bool): (f: Fill)
    ensures isWeekend <==> f == Clear
    ensures !isWeekend && status == Green ==> f == Filled("#22c55e")
    ensures !isWeekend && status == Red ==> f == Filled("#ef4444")
  {
    if isWeekend then Clear
    else
      match status
      case Green => Filled("#22c55e")
      case Red => Filled("#ef4444")
      case Grey => if dark then Filled("#4b5563") else Filled("#d1d5db")
      case NoStatus => if dark then Filled("#374151") else Filled("#e5e7eb")
  }

  /** The colour of a day's box. */
  function DayBox(logs: map<int, DayLog>, date: int, today: int, dark: bool): Fill
  {
    BoxColour(WidgetDayStatus(logs, date, today), IsWeekend(date), dark)
  }

  /** What the widget draws is what the app's status says: the weekend boxes, where the two
      status rules differ, are clear, and the app says none there. */
  lemma BoxFollowsAppStatus(logs: map<int, DayLog>, date: int, today: int, dark: bool)
    ensures DayBox(logs, date, today, dark) == Clear <==> IsWeekend(date)
    ensures IsWeekend(date) ==> AppContext.DayStatusOf(logs, date, today) == NoStatus
    ensures !IsWeekend(date) ==>
      DayBox(logs, date, today, dark) == BoxColour(AppContext.DayStatusOf(logs, date, today), false, dark)
  {
  }

  // ---------------------------------------------------------------------------
  // The month grid (TradingTrackerWidget.swift:242-268)

  /** Calendar's `.weekday` (1 is Sunday, 7 is Saturday) turned Monday-based. */
  function MondayBasedFromWeekday(weekday: int): int
  {
    if weekday == 1 then 6 else weekday - 2
  }

  lemma WeekdayConversionIsMondayIndex(d: int)
    ensures MondayBasedFromWeekday(JsGetDay(d) + 1) == MondayIndex(d)
  {
    GetDayConversionIsMondayIndex(d);
  }

  /** getMonthDays: one nil per leading blank, then each day from the 1st to the last. It is
      the same grid as the app's month calendar. */
  method GetMonthDays(ym: YearMonth) returns (days: seq<Option<int>>)
    ensures IsMonthGrid(ym, days)
  {
    var monthStart := MonthStart(ym);
    var monthEnd := MonthEnd(ym);
    var weekday := JsGetDay(monthStart) + 1;
    var mondayBasedWeekday := MondayBasedFromWeekday(weekday);
    WeekdayConversionIsMondayIndex(monthStart);
    days := [];
    for i := 0 to mondayBasedWeekday
      invariant |days| == i
      invariant forall j :: 0 <= j < i ==> days[j] == None
    {
      days := days + [None];
    }
    var currentDay := monthStart;
    while currentDay <= monthEnd
      invariant monthStart <= currentDay <= monthEnd + 1
      invariant |days| == mondayBasedWeekday + (currentDay - monthStart)
      invariant forall j :: 0 <= j < mondayBasedWeekday ==> days[j] == None
      invariant forall j :: mondayBasedWeekday <= j < |days| ==> days[j] == Some(monthStart + j - mondayBasedWeekday)
      decreases monthEnd - currentDay
    {
      days := days + [Some(currentDay)];
      currentDay := currentDay + 1;
    }
  }

  // ---------------------------------------------------------------------------
  // The rate (TradingTrackerWidget.swift:276-309)

  /** The month's weekdays from the 1st through today. */
  function WeekdaysSoFar(ym: YearMonth, today: int): seq<int>
  {
    WeekdaysInRange(MonthStart(ym), today)
  }

  /** calculateStats, with `now` inside the month `ym`: green and red logged weekdays from the
      1st through today, and the truncated rate. The first slot of the triple, labelled
      `streak`, holds the green count. */
  method CalculateStats(ym: YearMonth, logs: map<int, DayLog>, today: int) returns (streak: nat, rate: int, missed: nat)
    requires MonthStart(ym) <= today <= MonthEnd(ym)
    ensures streak == StatsCard.CountStatus(WeekdaysSoFar(ym, today), logs, today, Green)
    ensures missed == StatsCard.CountStatus(WeekdaysSoFar(ym, today), logs, today, Red)
    ensures rate == TruncPercent(streak, streak + missed)
    ensures 0 <= rate <= 100
  {
    var greenDays, redDays := CountSoFar(MonthStart(ym), logs, today);
    var total := greenDays + redDays;
    rate := if total > 0 then TruncPercent(greenDays, total) else 0;
    RatesWithinPercentRange(greenDays, total);
    streak, missed := greenDays, redDays;
  }

  /** The loop of calculateStats (TradingTrackerWidget.swift:288-303): from the 1st through
      today, count the weekdays logged green and those logged red. */
  method CountSoFar(monthStart: int, logs: map<int, DayLog>, today: int) returns (greenDays: nat, redDays: nat)
    requires monthStart <= today
    ensures greenDays == StatsCard.CountStatus(WeekdaysInRange(monthStart, today), logs, today, Green)
    ensures redDays == StatsCard.CountStatus(WeekdaysInRange(monthStart, today), logs, today, Red)
    ensures greenDays + redDays <= |WeekdaysInRange(monthStart, today)|
  {
    greenDays, redDays := 0, 0;
    var currentDay := monthStart;
    while currentDay <= today
      invariant monthStart <= currentDay <= today + 1
      invariant greenDays == StatsCard.CountStatus(WeekdaysInRange(monthStart, currentDay - 1), logs, today, Green)
      invariant redDays == StatsCard.CountStatus(WeekdaysInRange(monthStart, currentDay - 1), logs, today, Red)
      decreases today - currentDay
    {
      CountStep(monthStart, currentDay, logs, today, Green);
      CountStep(monthStart, currentDay, logs, today, Red);
      if !IsWeekend(currentDay) {
        var status := StoredStatus(logs, currentDay);
        if status == Some(Green) {
          greenDays := greenDays + 1;
        } else if status == Some(Red) {
          redDays := redDays + 1;
        }
      }
      currentDay := currentDay + 1;
    }
    GreenAndRedAtMostWeekdays(WeekdaysInRange(monthStart, today), logs, today);
  }

  /** One more day of the walk adds one to a status's count exactly when it is a weekday up to
      today with that status. */
  lemma CountStep(start: int, current: int, logs: map<int, DayLog>, today: int, s: DayStatus)
    requires start <= current
    ensures StatsCard.CountStatus(WeekdaysInRange(start, current), logs, today, s) ==
      StatsCard.CountStatus(WeekdaysInRange(start, current - 1), logs, today, s) +
      (if !IsWeekend(current) && current <= today && StoredStatus(logs, current) == Some(s) then 1 else 0)
  {
    WeekdaysInRangeSplit(start, current - 1, current);
    assert WeekdaysInRange(current + 1, current) == [];
    StatsCard.CountStatusAppend(WeekdaysInRange(start, current - 1), WeekdaysInRange(current, current), logs, today, s);
    if !IsWeekend(current) {
      assert WeekdaysInRange(current, current) == [current];
      assert [current][..0] == [];
    }
  }

  lemma {:induction false} GreenAndRedAtMostWeekdays(days: seq<int>, logs: map<int, DayLog>, today: int)
    ensures StatsCard.CountStatus(days, logs, today, Green) + StatsCard.CountStatus(days, logs, today, Red) <= |days|
  {
    if |days| > 0 {
      GreenAndRedAtMostWeekdays(days[..|days| - 1], logs, today);
    }
  }

  /** Within the current month the widget counts the same green and red days as the app's
      stats card, so its truncated rate is the card's rounded rate or one less. */
  lemma WidgetRateMatchesCard(ym: YearMonth, logs: map<int, DayLog>, today: int)
    requires MonthStart(ym) <= today <= MonthEnd(ym)
    ensures var w := WeekdaysInMonth(ym);
      var soFar := WeekdaysSoFar(ym, today);
      var green := StatsCard.CountStatus(soFar, logs, today, Green);
      var red := StatsCard.CountStatus(soFar, logs, today, Red);
      && green == StatsCard.CountStatus(w, logs, today, Green)
      && red == StatsCard.CountStatus(w, logs, today, Red)
      && TruncPercent(green, green + red) <= RoundPercent(green, green + red) <= TruncPercent(green, green + red) + 1
  {
    SoFarCountsWholeMonth(ym, logs, today, Green);
    SoFarCountsWholeMonth(ym, logs, today, Red);
    var soFar := WeekdaysSoFar(ym, today);
    var green := StatsCard.CountStatus(soFar, logs, today, Green);
    var red := StatsCard.CountStatus(soFar, logs, today, Red);
    RoundIsTruncOrOneMore(green, green + red);
  }

  /** The weekdays after today add nothing to a month's count of a status. */
  lemma SoFarCountsWholeMonth(ym: YearMonth, logs: map<int, DayLog>, today: int, s: DayStatus)
    requires MonthStart(ym) <= today <= MonthEnd(ym)
    ensures StatsCard.CountStatus(WeekdaysSoFar(ym, today), logs, today, s) == StatsCard.CountStatus(WeekdaysInMonth(ym), logs, today, s)
  {
    var soFar := WeekdaysSoFar(ym, today);
    var later := WeekdaysInRange(today + 1, MonthEnd(ym));
    WeekdaysInRangeSplit(MonthStart(ym), today, MonthEnd(ym));
    WeekdaysInRangeMembers(today + 1, MonthEnd(ym));
    assert forall i :: 0 <= i < |later| ==> later[i] > today by {
      forall i | 0 <= i < |later|
        ensures later[i] > today
      {
        assert later[i] in later;
      }
    }
    StatsCard.AllFutureCountsNothing(later, logs, today, s);
    StatsCard.CountStatusAppend(soFar, later, logs, today, s);
  }
}
