/**
 * targets/widget/TradingTrackerWidget.swift: the dot widget. It draws one dot
 * per weekday from the first logged day through today (green when that day was
 * logged green, red otherwise, a missing log included), wraps the dots into
 * rows, and heads them with "green/total days" and a rate.
 *
 * `today` is the device calendar's current day; the number of dots per row,
 * which the view derives from its width in floating point, is a parameter.
 */
module DotsWidget {
  import opened Wrappers
  import opened Calendar
  import opened Types
  import opened Rates
  import DotGrid
  import Arith

  /** The two colours a dot can have. */
  datatype TrackingDot = GreenDot | RedDot

  /** The colour a dot is filled with (TradingTrackerWidget.swift:190-199). */
  function DotHex(d: TrackingDot): (hex: string)
    ensures d == GreenDot ==> hex == "#22c55e"
    ensures d == RedDot ==> hex == "#ef4444"
  {
    if d == GreenDot then "#22c55e" else "#ef4444"
  }

  /** A tracked weekday is green only when its log says green; another status or no log at all
      makes it red. */
  function DotOf(logs: map<int, DayLog>, day: int): (dot: TrackingDot)
    ensures dot == GreenDot <==> day in logs && logs[day].status == Green
    ensures day !in logs ==> dot == RedDot
  {
    if day in logs && logs[day].status == Green then GreenDot else RedDot
  }

  /** The weekdays from the earliest logged day through today; none when nothing is logged. */
  function TrackedDays(logs: map<int, DayLog>, today: int): (days: seq<int>)
    ensures FirstTrackingDay(logs).None? ==> days == []
    ensures FirstTrackingDay(logs).Some? ==> days == WeekdaysInRange(FirstTrackingDay(logs).value, today)
  {
    match FirstTrackingDay(logs)
    case None => []
    case Some(first) => WeekdaysInRange(first, today)
  }

  /** The dots of the given days, in order. */
  function DotsOf(logs: map<int, DayLog>, days: seq<int>): (dots: seq<TrackingDot>)
    ensures |dots| == |days|
    ensures forall i :: 0 <= i < |days| ==> dots[i] == DotOf(logs, days[i])
  {
    seq(|days|, i requires 0 <= i < |days| => DotOf(logs, days[i]))
  }

  /** Appending a day appends its dot. */
  lemma DotsOfAppend(logs: map<int, DayLog>, a: seq<int>, b: seq<int>)
    ensures DotsOf(logs, a + b) == DotsOf(logs, a) + DotsOf(logs, b)
  {
    assert forall i :: 0 <= i < |a + b| ==> DotsOf(logs, a + b)[i] == (DotsOf(logs, a) + DotsOf(logs, b))[i];
  }

  /** The number of green dots. */
  function CountGreen(dots: seq<TrackingDot>): (n: nat)
    ensures n <= |dots|
  {
    if |dots| == 0 then 0
    else CountGreen(dots[..|dots| - 1]) + (if dots[|dots| - 1] == GreenDot then 1 else 0)
  }

  /** Counting the green dots of two runs separately adds up. */
  lemma {:induction false} CountGreenAppend(a: seq<TrackingDot>, b: seq<TrackingDot>)
    ensures CountGreen(a + b) == CountGreen(a) + CountGreen(b)
    decreases |b|
  {
    if |b| > 0 {
      assert (a + b)[..|a + b| - 1] == a + b[..|b| - 1];
      assert (a + b)[|a + b| - 1] == b[|b| - 1];
      CountGreenAppend(a, b[..|b| - 1]);
    } else {
      assert a + b == a;
    }
  }

  /** Extending the tracked range by one day adds that day's dot when it is a weekday. */
  lemma StepRange(first: int, current: int)
    requires first <= current
    ensures WeekdaysInRange(first, current) ==
      WeekdaysInRange(first, current - 1) + (if IsWeekend(current) then [] else [current])
  {
    WeekdaysInRangeSplit(first, current - 1, current);
    assert WeekdaysInRange(current + 1, current) == [];
  }

  /** getTrackingDots (TradingTrackerWidget.swift:171-205): walks from the earliest logged day
      through today and adds one dot per weekday. */
  method GetTrackingDots(logs: map<int, DayLog>, today: int) returns (dots: seq<TrackingDot>)
    ensures dots == DotsOf(logs, TrackedDays(logs, today))
  {
    var firstDate := FirstTrackingDay(logs);
    if firstDate.None? {
      return [];
    }
    var first := firstDate.value;
    dots := [];
    var currentDay := first;
    while currentDay <= today
      invariant first <= currentDay
      invariant currentDay == first || currentDay <= today + 1
      invariant dots == DotsOf(logs, WeekdaysInRange(first, currentDay - 1))
      decreases today - currentDay
    {
      StepRange(first, currentDay);
      DotsOfAppend(logs, WeekdaysInRange(first, currentDay - 1), if IsWeekend(currentDay) then [] else [currentDay]);
      if !IsWeekend(currentDay) {
        if currentDay in logs {
          if logs[currentDay].status == Green {
            dots := dots + [GreenDot];
          } else {
            dots := dots + [RedDot];
          }
        } else {
          dots := dots + [RedDot];
        }
      }
      currentDay := currentDay + 1;
    }
    assert WeekdaysInRange(first, currentDay - 1) == WeekdaysInRange(first, today) by {
      if currentDay == first {
        assert WeekdaysInRange(first, today) == [];
      }
    }
  }

  /** calculateStats (TradingTrackerWidget.swift:219-249): the same walk, counting the weekdays
      and the green ones, and the truncated rate. The header's counts are those of the drawn
      dots. */
  method CalculateStats(logs: map<int, DayLog>, today: int) returns (greenDays: nat, totalDays: nat, rate: int)
    ensures totalDays == |DotsOf(logs, TrackedDays(logs, today))|
    ensures greenDays == CountGreen(DotsOf(logs, TrackedDays(logs, today)))
    ensures greenDays <= totalDays
    ensures rate == TruncPercent(greenDays, totalDays)
    ensures 0 <= rate <= 100
  {
    var firstDate := FirstTrackingDay(logs);
    if firstDate.None? {
      return 0, 0, 0;
    }
    greenDays, totalDays := CountTracked(logs, firstDate.value, today);
    rate := if totalDays > 0 then TruncPercent(greenDays, totalDays) else 0;
    RatesWithinPercentRange(greenDays, totalDays);
  }

  /** The loop of calculateStats (TradingTrackerWidget.swift:230-244): from the first tracking
      day through today, each weekday is counted, and the green ones once more. */
  method CountTracked(logs: map<int, DayLog>, first: int, today: int) returns (greenDays: nat, totalDays: nat)
    ensures totalDays == |WeekdaysInRange(first, today)|
    ensures greenDays == CountGreen(DotsOf(logs, WeekdaysInRange(first, today)))
  {
    greenDays, totalDays := 0, 0;
    var currentDay := first;
    while currentDay <= today
      invariant first <= currentDay
      invariant currentDay == first || currentDay <= today + 1
      invariant totalDays == |WeekdaysInRange(first, currentDay - 1)|
      invariant greenDays == CountGreen(DotsOf(logs, WeekdaysInRange(first, currentDay - 1)))
      decreases today - currentDay
    {
      ghost var before := DotsOf(logs, WeekdaysInRange(first, currentDay - 1));
      StepRange(first, currentDay);
      DotsOfAppend(logs, WeekdaysInRange(first, currentDay - 1), if IsWeekend(currentDay) then [] else [currentDay]);
      if !IsWeekend(currentDay) {
        assert DotsOf(logs, [currentDay]) == [DotOf(logs, currentDay)];
        totalDays := totalDays + 1;
        CountGreenAppend(before, [DotOf(logs, currentDay)]);
        assert [DotOf(logs, currentDay)][..0] == [];
        if currentDay in logs && logs[currentDay].status == Green {
          greenDays := greenDays + 1;
        }
      } else {
        assert before + DotsOf(logs, []) == before;
      }
      currentDay := currentDay + 1;
    }
    assert WeekdaysInRange(first, currentDay - 1) == WeekdaysInRange(first, today) by {
      if currentDay == first {
        assert WeekdaysInRange(first, today) == [];
      }
    }
  }

  /** Over the tracked days the widget colours a dot green exactly when the app's dot grid
      does, and every other tracked dot is red in both. */
  lemma DotsAgreeWithAppGrid(logs: map<int, DayLog>, today: int, i: int)
    requires 0 <= i < |TrackedDays(logs, today)|
    ensures var first := FirstTrackingDay(logs).value;
      var day := TrackedDays(logs, today)[i];
      && (DotOf(logs, day) == GreenDot <==> DotGrid.Classify(day, first, today, logs) == DotGrid.GreenDot)
      && (DotOf(logs, day) == RedDot <==> DotGrid.Classify(day, first, today, logs) == DotGrid.RedDot)
  {
    var first := FirstTrackingDay(logs).value;
    var day := TrackedDays(logs, today)[i];
    WeekdaysInRangeMembers(first, today);
    assert day in WeekdaysInRange(first, today);
    DotGrid.TrackedDayColour(day, first, today, logs);
  }

  // ---------------------------------------------------------------------------
  // The header (TradingTrackerWidget.swift:127-139)

  /** The rate's colour: green from 80, the text colour from 50, red below. */
  datatype RateTint = AccentGreen | PlainText | AlertRed

  function HeaderTint(rate: int): (t: RateTint)
    ensures t == AccentGreen <==> rate >= 80
    ensures t == PlainText <==> 50 <= rate < 80
    ensures t == AlertRed <==> rate < 50
  {
    if rate >= 80 then AccentGreen else if rate >= 50 then PlainText else AlertRed
  }

  /** How good a tint reads: red, then plain, then green. */
  function TintRank(t: RateTint): nat
  {
    match t
    case AlertRed => 0
    case PlainText => 1
    case AccentGreen => 2
  }

  /** A higher rate never gets a worse tint. */
  lemma HeaderTintMonotone(r1: int, r2: int)
    requires r1 <= r2
    ensures TintRank(HeaderTint(r1)) <= TintRank(HeaderTint(r2))
  {
  }

  // ---------------------------------------------------------------------------
  // Rows of dots (TradingTrackerWidget.swift:144-169)

  /** `(count + perRow - 1) / perRow` rows. */
  function RowTotal(count: nat, perRow: nat): nat
    requires perRow > 0
  {
    (count + perRow - 1) / perRow
  }

  /** The cell at (row, col) shows the dot at `row * perRow + col`, or is clear past the end. */
  function Cell(dots: seq<TrackingDot>, perRow: nat, row: nat, col: nat): (c: Option<TrackingDot>)
    requires col < perRow
    ensures c.Some? <==> row * perRow + col < |dots|
  {
    var index := row * perRow + col;
    if index < |dots| then Some(dots[index]) else None
  }

  /** The rows hold every dot and have room for fewer than one more row: row `i / perRow`,
      column `i % perRow` shows dot `i`, and that row exists. */
  lemma RowsHoldEveryDot(dots: seq<TrackingDot>, perRow: nat)
    requires perRow > 0
    ensures RowTotal(|dots|, perRow) * perRow >= |dots|
    ensures RowTotal(|dots|, perRow) * perRow < |dots| + perRow
    ensures forall i :: 0 <= i < |dots| ==>
      i / perRow < RowTotal(|dots|, perRow) && Cell(dots, perRow, i / perRow, i % perRow) == Some(dots[i])
  {
    var n := |dots|;
    var q := RowTotal(n, perRow);
    Arith.CeilDiv(n, perRow);
    forall i | 0 <= i < n
      ensures i / perRow < q && Cell(dots, perRow, i / perRow, i % perRow) == Some(dots[i])
    {
      var a, b := i / perRow, i % perRow;
      assert i == perRow * a + b;
      Arith.ScaleMonotone(perRow, a, q);
    }
  }

  /** Distinct cells show distinct dots: a dot is never drawn twice. */
  lemma CellsShowEachDotOnce(dots: seq<TrackingDot>, perRow: nat, r1: nat, c1: nat, r2: nat, c2: nat)
    requires perRow > 0 && c1 < perRow && c2 < perRow
    requires (r1, c1) != (r2, c2)
    ensures r1 * perRow + c1 != r2 * perRow + c2
  {
    if r1 * perRow + c1 == r2 * perRow + c2 {
      Arith.DivModUnique(r1 * perRow + c1, perRow, r1, c1);
      Arith.DivModUnique(r2 * perRow + c2, perRow, r2, c2);
    }
  }
}
