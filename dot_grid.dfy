/**
 * components/DotGridView.tsx: one dot per weekday over a three-month or
 * twelve-month window, coloured by the day's log, with a success rate and
 * the dots laid out in fixed-width rows.
 *
 * date-fns `addMonths` is the parameter `addMonths(day, k)`; `subMonths(d, 3)`
 * is `addMonths(d, -3)`. Instants are compared at day granularity: the logged
 * days and the listed weekdays are midnights, and `today` carries a time of day.
 */
module DotGrid {
  import opened Wrappers
  import opened Calendar
  import opened Types
  import opened Rates
  import opened Arith

  datatype ViewMode = MonthView | QuarterView | YearView

  datatype DotType = GreenDot | RedDot | FutureDot | BeforeDot

  datatype Dot = Dot(date: int, kind: DotType)

  /** The first and last day of the window (DotGridView.tsx:29-39). */
  function DotWindow(mode: ViewMode, firstDay: int, today: int, addMonths: (int, int) -> int): (w: (int, int))
    ensures w.0 >= firstDay
    ensures mode == QuarterView ==> w.0 >= addMonths(today, -3) && w.1 == addMonths(today, 3)
    ensures mode != QuarterView ==> w.0 == firstDay && w.1 == addMonths(firstDay, 12)
  {
    if mode == QuarterView then
      var start := if firstDay > addMonths(today, -3) then firstDay else addMonths(today, -3);
      (start, addMonths(today, 3))
    else
      (firstDay, addMonths(firstDay, 12))
  }

  /** The kind of dot a weekday gets (DotGridView.tsx:49-66). */
  function Classify(day: int, firstDay: int, today: int, logs: map<int, DayLog>): (k: DotType)
    ensures k == FutureDot <==> day > today
    ensures k == BeforeDot <==> day < firstDay && day <= today
    ensures k == GreenDot <==> firstDay <= day <= today && StoredStatus(logs, day) == Some(Green)
    ensures k == RedDot <==> firstDay <= day <= today && StoredStatus(logs, day) != Some(Green)
  {
    if day > today then FutureDot
    else if day < firstDay then BeforeDot
    else if StoredStatus(logs, day) == Some(Green) then GreenDot
    else RedDot
  }

  /** The dots of a window, one per weekday in order. */
  function DotsFor(weekdays: seq<int>, firstDay: int, today: int, logs: map<int, DayLog>): (dots: seq<Dot>)
    ensures |dots| == |weekdays|
    ensures forall i :: 0 <= i < |weekdays| ==> dots[i] == Dot(weekdays[i], Classify(weekdays[i], firstDay, today, logs))
  {
    seq(|weekdays|, i requires 0 <= i < |weekdays| => Dot(weekdays[i], Classify(weekdays[i], firstDay, today, logs)))
  }

  function CountKind(dots: seq<Dot>, k: DotType): (n: nat)
    ensures n <= |dots|
  {
    if |dots| == 0 then 0
    else CountKind(dots[..|dots| - 1], k) + (if dots[|dots| - 1].kind == k then 1 else 0)
  }

  datatype DotSummary = DotSummary(dots: seq<Dot>, greenCount: nat, totalTracked: nat)

  /** The memoised computation of DotGridView.tsx:25-70: the dots and the green and tracked counters. */
  method BuildDots(mode: ViewMode, logs: map<int, DayLog>, today: int, addMonths: (int, int) -> int)
    returns (summary: DotSummary)
    ensures FirstTrackingDay(logs).None? ==> summary == DotSummary([], 0, 0)
    ensures FirstTrackingDay(logs).Some? ==>
      var firstDay := FirstTrackingDay(logs).value;
      var window := DotWindow(mode, firstDay, today, addMonths);
      && summary.dots == DotsFor(GetWeekdaysInRange(window.0, window.1), firstDay, today, logs)
      && summary.greenCount == CountKind(summary.dots, GreenDot)
      && summary.totalTracked == CountKind(summary.dots, GreenDot) + CountKind(summary.dots, RedDot)
  {
    var first := FirstTrackingDay(logs);
    if first.None? {
      return DotSummary([], 0, 0);
    }
    var firstDay := first.value;
    var window := DotWindow(mode, firstDay, today, addMonths);
    var weekdays := GetWeekdaysInRange(window.0, window.1);
    ghost var expected := DotsFor(weekdays, firstDay, today, logs);
    var green, tracked := 0, 0;
    var dotList: seq<Dot> := [];
    for i := 0 to |weekdays|
      invariant dotList == expected[..i]
      invariant green == CountKind(dotList, GreenDot)
      invariant tracked == CountKind(dotList, GreenDot) + CountKind(dotList, RedDot)
    {
      var day := weekdays[i];
      var dot: Dot;
      if day > today {
        dot := Dot(day, FutureDot);
      } else if day < firstDay {
        dot := Dot(day, BeforeDot);
      } else {
        tracked := tracked + 1;
        if StoredStatus(logs, day) == Some(Green) {
          green := green + 1;
          dot := Dot(day, GreenDot);
        } else {
          dot := Dot(day, RedDot);
        }
      }
      assert (dotList + [dot])[..|dotList|] == dotList;
      dotList := dotList + [dot];
    }
    summary := DotSummary(dotList, green, tracked);
  }

  /** `Math.round(greenCount / totalTracked * 100)`, 0 when nothing is tracked (DotGridView.tsx:105). */
  function DotRate(summary: DotSummary): (r: int)
    ensures summary.totalTracked == 0 ==> r == 0
    ensures summary.totalTracked > 0 ==>
      2 * summary.totalTracked * r <= 200 * summary.greenCount + summary.totalTracked < 2 * summary.totalTracked * (r + 1)
    ensures summary.greenCount <= summary.totalTracked ==> 0 <= r <= 100
  {
    if summary.greenCount <= summary.totalTracked then
      RatesWithinPercentRange(summary.greenCount, summary.totalTracked);
      RoundPercent(summary.greenCount, summary.totalTracked)
    else
      RoundPercent(summary.greenCount, summary.totalTracked)
  }

  /** `dots.filter(d => d.type === 'future').length` (DotGridView.tsx:104). */
  function FutureCount(summary: DotSummary): (n: nat)
    ensures n <= |summary.dots|
    ensures n == 0 <==> forall i :: 0 <= i < |summary.dots| ==> summary.dots[i].kind != FutureDot
  {
    CountKindZero(summary.dots, FutureDot);
    CountKind(summary.dots, FutureDot)
  }

  /** No dot of a kind is counted exactly when no dot has that kind. */
  lemma {:induction false} CountKindZero(dots: seq<Dot>, k: DotType)
    ensures CountKind(dots, k) == 0 <==> forall i :: 0 <= i < |dots| ==> dots[i].kind != k
  {
    if |dots| > 0 {
      var init := dots[..|dots| - 1];
      CountKindZero(init, k);
      assert forall i :: 0 <= i < |init| ==> init[i] == dots[i];
    }
  }

  // ---------------------------------------------------------------------------
  // Properties of the dot list

  /** Every window starts on or after the first tracking day, so no dot of an ordered window is
      `before`: the branch of DotGridView.tsx:56-58 is unreachable. A reversed window whose
      end lies after today has only future dots, so it has none either. */
  lemma NoBeforeDots(mode: ViewMode, logs: map<int, DayLog>, today: int, addMonths: (int, int) -> int)
    requires FirstTrackingDay(logs).Some?
    ensures var firstDay := FirstTrackingDay(logs).value;
      var window := DotWindow(mode, firstDay, today, addMonths);
      var dots := DotsFor(GetWeekdaysInRange(window.0, window.1), firstDay, today, logs);
      window.0 <= window.1 || window.1 > today ==>
        forall i :: 0 <= i < |dots| ==> dots[i].kind != BeforeDot
  {
    var firstDay := FirstTrackingDay(logs).value;
    var window := DotWindow(mode, firstDay, today, addMonths);
    var w := GetWeekdaysInRange(window.0, window.1);
    forall i | 0 <= i < |w|
      ensures w[i] >= firstDay || w[i] >= window.1
    {
      assert w[i] in w;
    }
  }

  /** The quarter view when the first log lies more than three months after today: the window
      runs backwards to today + 3 months, date-fns lists its weekdays
      newest first, and every one of them is a future dot, so nothing is tracked and the rate
      is 0. */
  lemma ReversedQuarterAllFuture(logs: map<int, DayLog>, today: int, addMonths: (int, int) -> int)
    requires FirstTrackingDay(logs).Some?
    requires addMonths(today, 3) > today
    ensures var firstDay := FirstTrackingDay(logs).value;
      var window := DotWindow(QuarterView, firstDay, today, addMonths);
      var dots := DotsFor(GetWeekdaysInRange(window.0, window.1), firstDay, today, logs);
      window.0 > window.1 ==>
        && (forall i :: 0 <= i < |dots| ==> dots[i].kind == FutureDot)
        && CountKind(dots, GreenDot) == 0 && CountKind(dots, RedDot) == 0
        && CountKind(dots, FutureDot) == |dots| == |WeekdaysInRange(window.1, window.0)|
  {
    var firstDay := FirstTrackingDay(logs).value;
    var window := DotWindow(QuarterView, firstDay, today, addMonths);
    var w := GetWeekdaysInRange(window.0, window.1);
    var dots := DotsFor(w, firstDay, today, logs);
    if window.0 > window.1 {
      forall i | 0 <= i < |dots|
        ensures dots[i].kind == FutureDot
      {
        assert w[i] in w;
      }
      CountKindZero(dots, GreenDot);
      CountKindZero(dots, RedDot);
      CountKindZero(dots, BeforeDot);
      KindsPartitionDots(dots);
    }
  }

  /** A past or present weekday at or after the first tracking day is green exactly when its log
      is green; unlogged (today included) it is red. */
  lemma TrackedDayColour(day: int, firstDay: int, today: int, logs: map<int, DayLog>)
    requires firstDay <= day <= today
    ensures Classify(day, firstDay, today, logs) == GreenDot <==> day in logs && logs[day].status == Green
    ensures day !in logs ==> Classify(day, firstDay, today, logs) == RedDot
    ensures Classify(day, firstDay, today, logs) in {GreenDot, RedDot}
  {
  }

  /** Green dots are among the tracked ones, so the rate is a percentage. */
  lemma GreenWithinTracked(summary: DotSummary)
    requires summary.totalTracked == CountKind(summary.dots, GreenDot) + CountKind(summary.dots, RedDot)
    requires summary.greenCount == CountKind(summary.dots, GreenDot)
    ensures summary.greenCount <= summary.totalTracked
    ensures 0 <= DotRate(summary) <= 100
  {
    RatesWithinPercentRange(summary.greenCount, summary.totalTracked);
  }

  /** The kinds split the dots: green + red + future + before = all dots. */
  lemma {:induction false} KindsPartitionDots(dots: seq<Dot>)
    ensures CountKind(dots, GreenDot) + CountKind(dots, RedDot) + CountKind(dots, FutureDot) + CountKind(dots, BeforeDot) == |dots|
  {
    if |dots| > 0 {
      KindsPartitionDots(dots[..|dots| - 1]);
    }
  }

  // ---------------------------------------------------------------------------
  // Rows (DotGridView.tsx:88, 107-111)

  /** Twelve columns in the three-month view, sixteen otherwise. */
  function Columns(mode: ViewMode): (c: nat)
    ensures c == 12 || c == 16
  {
    if mode == QuarterView then 12 else 16
  }

  function Flatten<T>(rows: seq<seq<T>>): seq<T>
  {
    if |rows| == 0 then [] else Flatten(rows[..|rows| - 1]) + rows[|rows| - 1]
  }

  function Min(a: int, b: int): int
  {
    if a <= b then a else b
  }

  /** Splits the dots into consecutive rows of `columns` (`dots.slice(i, i + columns)`). */
  method ChunkRows<T>(dots: seq<T>, columns: nat) returns (rows: seq<seq<T>>)
    requires columns > 0
    ensures Flatten(rows) == dots
    ensures forall r :: 0 <= r < |rows| - 1 ==> |rows[r]| == columns
    ensures forall r :: 0 <= r < |rows| ==> 0 < |rows[r]| <= columns
    ensures |rows| == (|dots| + columns - 1) / columns
  {
    rows := [];
    var i := 0;
    while i < |dots|
      invariant |rows| > 0 ==> i - columns < |dots|
      invariant Flatten(rows) == dots[..Min(i, |dots|)]
      invariant RowShape(rows, columns)
      invariant i < |dots| ==> FullRows(rows, columns)
      decreases |dots| - i
    {
      var row := dots[i..Min(i + columns, |dots|)];
      ChunkStep(dots, columns, rows, i);
      rows := rows + [row];
      i := i + columns;
    }
    assert dots[..Min(i, |dots|)] == dots;
    RowCount(rows, columns);
  }

  /** Every row but the last is full, and no row is empty or overfull. */
  predicate RowShape<T>(rows: seq<seq<T>>, columns: nat)
  {
    && (forall r :: 0 <= r < |rows| - 1 ==> |rows[r]| == columns)
    && (forall r :: 0 <= r < |rows| ==> 0 < |rows[r]| <= columns)
  }

  predicate FullRows<T>(rows: seq<seq<T>>, columns: nat)
  {
    forall r :: 0 <= r < |rows| ==> |rows[r]| == columns
  }

  /** One more slice keeps the loop's invariants. */
  lemma ChunkStep<T>(dots: seq<T>, columns: nat, rows: seq<seq<T>>, i: nat)
    requires columns > 0 && i < |dots|
    requires Flatten(rows) == dots[..i] && FullRows(rows, columns)
    ensures var row := dots[i..Min(i + columns, |dots|)];
      && Flatten(rows + [row]) == dots[..Min(i + columns, |dots|)]
      && RowShape(rows + [row], columns)
      && (i + columns < |dots| ==> FullRows(rows + [row], columns))
  {
    var row := dots[i..Min(i + columns, |dots|)];
    assert (rows + [row])[..|rows|] == rows;
    assert dots[..Min(i + columns, |dots|)] == dots[..i] + row;
  }

  /** Full rows hold `columns` dots each. */
  lemma {:induction false} FullRowsLength<T>(rows: seq<seq<T>>, columns: nat)
    requires FullRows(rows, columns)
    ensures |Flatten(rows)| == columns * |rows|
  {
    if |rows| > 0 {
      FullRowsLength(rows[..|rows| - 1], columns);
      assert columns * |rows| == columns * (|rows| - 1) + columns;
    }
  }

  /** Rows of this shape holding n dots number ⌈n / columns⌉. */
  lemma RowCount<T>(rows: seq<seq<T>>, columns: nat)
    requires columns > 0 && RowShape(rows, columns)
    ensures |rows| == (|Flatten(rows)| + columns - 1) / columns
  {
    if |rows| > 0 {
      var k := |rows| - 1;
      assert FullRows(rows[..k], columns) by {
        forall r | 0 <= r < k
          ensures |rows[..k][r]| == columns
        {
          assert rows[..k][r] == rows[r];
        }
      }
      FullRowsLength(rows[..k], columns);
      assert Flatten(rows) == Flatten(rows[..k]) + rows[k];
      CeilingOfPartialRow(|Flatten(rows)|, columns, k, |rows[k]|);
    } else {
      DivModUnique(columns - 1, columns, 0, columns - 1);
    }
  }

  /** k full rows and a last row of 1 to `columns` dots make k + 1 rows. */
  lemma CeilingOfPartialRow(n: int, columns: int, k: int, last: int)
    requires columns > 0 && 0 < last <= columns && n == columns * k + last
    ensures k + 1 == (n + columns - 1) / columns
  {
    assert n + columns - 1 == columns * (k + 1) + (last - 1);
    DivModUnique(n + columns - 1, columns, k + 1, last - 1);
  }
}
