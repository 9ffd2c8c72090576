/**
 * The calendar layer of utils/date.ts and of the two widgets' month loops.
 *
 * A date is an integer day number: 0 is 1970-01-01, which was a Thursday.
 * The proleptic Gregorian calendar gives month starts and month lengths.
 */
module Calendar {
  import opened Wrappers
  import Arith

  /** Monday-based weekday: 0 = Monday, ..., 5 = Saturday, 6 = Sunday. */
  function MondayIndex(d: int): (w: int)
    ensures 0 <= w < 7
  {
    (d + 3) % 7
  }

  /** date-fns `getDay`: 0 = Sunday, 1 = Monday, ..., 6 = Saturday. */
  function JsGetDay(d: int): (w: int)
    ensures 0 <= w < 7
  {
    (d + 4) % 7
  }

  /** date-fns `isWeekend`: Saturday or Sunday. */
  predicate IsWeekend(d: int)
  {
    JsGetDay(d) == 0 || JsGetDay(d) == 6
  }

  /** Both weekday numberings agree: the weekend is Monday-based index 5 and 6. */
  lemma WeekendIsMondayIndexFiveOrSix(d: int)
    ensures IsWeekend(d) <==> MondayIndex(d) >= 5
  {
  }

  /** The conversion of utils/date.ts:51 from getDay to a Monday-based column. */
  function MondayBasedFromGetDay(g: int): int
  {
    if g == 0 then 6 else g - 1
  }

  lemma GetDayConversionIsMondayIndex(d: int)
    ensures MondayBasedFromGetDay(JsGetDay(d)) == MondayIndex(d)
  {
  }

  // ---------------------------------------------------------------------------
  // Gregorian years and months

  type MonthIndex = m: int | 1 <= m <= 12 witness 1

  datatype YearMonth = YearMonth(year: int, month: MonthIndex)

  predicate IsLeapYear(y: int)
  {
    y % 4 == 0 && (y % 100 != 0 || y % 400 == 0)
  }

  function DaysInYear(y: int): int
  {
    if IsLeapYear(y) then 366 else 365
  }

  function DaysInMonth(y: int, m: MonthIndex): (n: int)
    ensures 28 <= n <= 31
  {
    if m == 2 then (if IsLeapYear(y) then 29 else 28)
    else if m == 4 || m == 6 || m == 9 || m == 11 then 30
    else 31
  }

  /** A signed count of the leap years before year y (floor division keeps it exact for every y). */
  function LeapsBefore(y: int): int
  {
    (y - 1) / 4 - (y - 1) / 100 + (y - 1) / 400
  }

  /** Day number of January 1st of year y. */
  function YearStart(y: int): int
  {
    365 * (y - 1970) + LeapsBefore(y) - LeapsBefore(1970)
  }

  lemma YearStartStep(y: int)
    ensures YearStart(y + 1) == YearStart(y) + DaysInYear(y)
  {
    MultipleCrossing(y, 4);
    MultipleCrossing(y, 100);
    MultipleCrossing(y, 400);
    DivisorChain(y);
  }

  /** Stepping from y - 1 to y adds one to the quotient by k exactly when y is a multiple of k. */
  lemma MultipleCrossing(y: int, k: int)
    requires k >= 1
    ensures y / k - (y - 1) / k == if y % k == 0 then 1 else 0
  {
    var q, r := (y - 1) / k, (y - 1) % k;
    if r + 1 < k {
      Arith.DivModUnique(y, k, q, r + 1);
    } else {
      Arith.DivModUnique(y, k, q + 1, 0);
    }
  }

  /** Every multiple of 400 is one of 100, and every multiple of 100 is one of 4. */
  lemma DivisorChain(y: int)
    ensures y % 400 == 0 ==> y % 100 == 0
    ensures y % 100 == 0 ==> y % 4 == 0
  {
    var q, r := y / 400, y % 400;
    if r == 0 {
      Arith.DivModUnique(y, 100, 4 * q, 0);
    }
    var q', r' := y / 100, y % 100;
    if r' == 0 {
      Arith.DivModUnique(y, 4, 25 * q', 0);
    }
  }

  lemma {:induction false} YearStartMonotone(a: int, b: int)
    requires a <= b
    ensures YearStart(a) <= YearStart(b)
    decreases b - a
  {
    if a < b {
      YearStartStep(a);
      YearStartMonotone(a + 1, b);
    }
  }

  /** Days of year y before the first of month m. */
  function DaysBeforeMonth(y: int, m: MonthIndex): int
  {
    var common :=
      if m == 1 then 0 else if m == 2 then 31 else if m == 3 then 59
      else if m == 4 then 90 else if m == 5 then 120 else if m == 6 then 151
      else if m == 7 then 181 else if m == 8 then 212 else if m == 9 then 243
      else if m == 10 then 273 else if m == 11 then 304 else 334;
    if m > 2 && IsLeapYear(y) then common + 1 else common
  }

  /** date-fns `startOfMonth`, as a day number. */
  function MonthStart(ym: YearMonth): int
  {
    YearStart(ym.year) + DaysBeforeMonth(ym.year, ym.month)
  }

  function MonthLength(ym: YearMonth): int
  {
    DaysInMonth(ym.year, ym.month)
  }

  /** date-fns `endOfMonth`, as a day number. */
  function MonthEnd(ym: YearMonth): int
  {
    MonthStart(ym) + MonthLength(ym) - 1
  }

  /** The month after ym. */
  function NextMonth(ym: YearMonth): YearMonth
  {
    if ym.month == 12 then YearMonth(ym.year + 1, 1) else YearMonth(ym.year, ym.month + 1)
  }

  /** Months tile the day line: each month starts the day after the previous one ends. */
  lemma NextMonthStartsAfterEnd(ym: YearMonth)
    ensures MonthStart(NextMonth(ym)) == MonthEnd(ym) + 1
  {
    if ym.month == 12 {
      YearStartStep(ym.year);
    }
  }

  // ---------------------------------------------------------------------------
  // Weekday filtering (utils/date.ts getWeekdaysInRange / getWeekdaysInMonth)

  /** The days of [start, end] that are not Saturday or Sunday, in order (date-fns
      `eachDayOfInterval` followed by a filter on `!isWeekend`). */
  function WeekdaysInRange(start: int, end: int): (days: seq<int>)
    ensures start > end ==> days == []
    ensures |days| <= if start <= end then end - start + 1 else 0
    decreases end - start
  {
    if start > end then []
    else if IsWeekend(start) then WeekdaysInRange(start + 1, end)
    else [start] + WeekdaysInRange(start + 1, end)
  }

  /** A day is listed exactly when it lies in [start, end] and is a weekday; there are at most
      as many as there are days. */
  lemma {:induction false} WeekdaysInRangeMembers(start: int, end: int)
    ensures forall x :: x in WeekdaysInRange(start, end) <==> start <= x <= end && !IsWeekend(x)
    ensures |WeekdaysInRange(start, end)| <= if start <= end then end - start + 1 else 0
    decreases end - start
  {
    if start <= end {
      WeekdaysInRangeMembers(start + 1, end);
    }
  }

  predicate StrictlyIncreasing(s: seq<int>)
  {
    forall i, j :: 0 <= i < j < |s| ==> s[i] < s[j]
  }

  /** The weekdays come out in strictly ascending order, so each day appears once. */
  lemma {:induction false} WeekdaysAscending(start: int, end: int)
    ensures StrictlyIncreasing(WeekdaysInRange(start, end))
    decreases end - start
  {
    if start <= end {
      WeekdaysAscending(start + 1, end);
      WeekdaysInRangeMembers(start + 1, end);
      var rest := WeekdaysInRange(start + 1, end);
      assert forall k | 0 <= k < |rest| :: rest[k] in rest;
    }
  }

  /** A list of days in reverse order. */
  function Reverse(s: seq<int>): (r: seq<int>)
    ensures |r| == |s|
    ensures forall i :: 0 <= i < |s| ==> r[i] == s[|s| - 1 - i]
  {
    seq(|s|, i requires 0 <= i < |s| => s[|s| - 1 - i])
  }

  predicate StrictlyDecreasing(s: seq<int>)
  {
    forall i, j :: 0 <= i < j < |s| ==> s[i] > s[j]
  }

  /** Reversing an ascending list of days gives a descending one with the same days; this is how
      `[...weekdays].sort((a, b) => b - a)` acts on the card's ascending weekdays. */
  lemma ReverseSortsDescending(s: seq<int>)
    requires StrictlyIncreasing(s)
    ensures StrictlyDecreasing(Reverse(s))
    ensures forall d :: d in Reverse(s) <==> d in s
  {
    var r := Reverse(s);
    forall d | d in s
      ensures d in r
    {
      var i :| 0 <= i < |s| && s[i] == d;
      assert r[|s| - 1 - i] == d;
    }
  }

  /** getWeekdaysInRange (utils/date.ts:98-101). date-fns 3 `eachDayOfInterval` also accepts an
      interval whose start is after its end and lists its days from start down to end, so the
      weekdays of such an interval come newest first. */
  function GetWeekdaysInRange(start: int, end: int): (days: seq<int>)
    ensures forall x :: x in days <==>
      (if start <= end then start <= x <= end else end <= x <= start) && !IsWeekend(x)
    ensures start <= end ==> StrictlyIncreasing(days)
    ensures start > end ==> StrictlyDecreasing(days)
  {
    if start <= end then
      WeekdaysInRangeMembers(start, end);
      WeekdaysAscending(start, end);
      WeekdaysInRange(start, end)
    else
      WeekdaysInRangeMembers(end, start);
      WeekdaysAscending(end, start);
      ReverseSortsDescending(WeekdaysInRange(end, start));
      Reverse(WeekdaysInRange(end, start))
  }

  /** From Saturday 2025-10-04 back to Wednesday 2025-10-01 the weekdays are Friday, Thursday
      and Wednesday, newest first. */
  lemma ReversedIntervalExample()
    ensures GetWeekdaysInRange(20365, 20362) == [20364, 20363, 20362]
  {
    assert IsWeekend(20365) && !IsWeekend(20364) && !IsWeekend(20363) && !IsWeekend(20362);
    assert WeekdaysInRange(20366, 20365) == [];
    assert WeekdaysInRange(20362, 20365) == [20362, 20363, 20364];
  }

  /** One day holds one weekday or none. */
  lemma SingleDay(d: int)
    ensures |WeekdaysInRange(d, d)| == if IsWeekend(d) then 0 else 1
  {
    assert WeekdaysInRange(d + 1, d) == [];
  }

  lemma {:induction false} WeekdaysInRangeSplit(start: int, mid: int, end: int)
    requires start - 1 <= mid <= end
    ensures WeekdaysInRange(start, end) == WeekdaysInRange(start, mid) + WeekdaysInRange(mid + 1, end)
    decreases mid - start
  {
    if start <= mid {
      WeekdaysInRangeSplit(start + 1, mid, end);
    }
  }

  /** The day after a Saturday is a Sunday; otherwise the weekday number goes up by one. */
  lemma NextDayOfWeek(d: int)
    ensures JsGetDay(d + 1) == (JsGetDay(d) + 1) % 7
  {
    var q, r := (d + 4) / 7, (d + 4) % 7;
    if r < 6 {
      Arith.DivModUnique(d + 5, 7, q, r + 1);
    } else {
      Arith.DivModUnique(d + 5, 7, q + 1, 0);
    }
  }

  /** Seven consecutive days, one at a time. */
  lemma SevenSingleDays(s: int)
    ensures |WeekdaysInRange(s, s + 6)| ==
      |WeekdaysInRange(s, s)| + |WeekdaysInRange(s + 1, s + 1)| + |WeekdaysInRange(s + 2, s + 2)| +
      |WeekdaysInRange(s + 3, s + 3)| + |WeekdaysInRange(s + 4, s + 4)| + |WeekdaysInRange(s + 5, s + 5)| +
      |WeekdaysInRange(s + 6, s + 6)|
  {
    WeekdaysInRangeSplit(s, s, s + 6);
    WeekdaysInRangeSplit(s + 1, s + 1, s + 6);
    WeekdaysInRangeSplit(s + 2, s + 2, s + 6);
    WeekdaysInRangeSplit(s + 3, s + 3, s + 6);
    WeekdaysInRangeSplit(s + 4, s + 4, s + 6);
    WeekdaysInRangeSplit(s + 5, s + 5, s + 6);
  }

  /** Walking seven weekday numbers from any start meets Saturday and Sunday once each. */
  lemma FiveOfSeven(w: seq<int>)
    requires |w| == 7 && 0 <= w[0] < 7
    requires forall i :: 0 <= i < 6 ==> w[i + 1] == (w[i] + 1) % 7
    ensures (if w[0] == 0 || w[0] == 6 then 0 else 1) + (if w[1] == 0 || w[1] == 6 then 0 else 1) +
      (if w[2] == 0 || w[2] == 6 then 0 else 1) + (if w[3] == 0 || w[3] == 6 then 0 else 1) +
      (if w[4] == 0 || w[4] == 6 then 0 else 1) + (if w[5] == 0 || w[5] == 6 then 0 else 1) +
      (if w[6] == 0 || w[6] == 6 then 0 else 1) == 5
  {
    assert w[1] == (w[0] + 1) % 7;
    assert w[2] == (w[1] + 1) % 7;
    assert w[3] == (w[2] + 1) % 7;
    assert w[4] == (w[3] + 1) % 7;
    assert w[5] == (w[4] + 1) % 7;
    assert w[6] == (w[5] + 1) % 7;
  }

  /** Any seven consecutive days hold exactly five weekdays. */
  lemma WeekHasFiveWeekdays(s: int)
    ensures |WeekdaysInRange(s, s + 6)| == 5
  {
    SevenSingleDays(s);
    SingleDay(s); SingleDay(s + 1); SingleDay(s + 2); SingleDay(s + 3);
    SingleDay(s + 4); SingleDay(s + 5); SingleDay(s + 6);
    NextDayOfWeek(s); NextDayOfWeek(s + 1); NextDayOfWeek(s + 2);
    NextDayOfWeek(s + 3); NextDayOfWeek(s + 4); NextDayOfWeek(s + 5);
    FiveOfSeven([JsGetDay(s), JsGetDay(s + 1), JsGetDay(s + 2), JsGetDay(s + 3),
      JsGetDay(s + 4), JsGetDay(s + 5), JsGetDay(s + 6)]);
  }

  /** date-fns `getWeekdaysInMonth`: the month's weekdays. */
  function WeekdaysInMonth(ym: YearMonth): seq<int>
  {
    WeekdaysInRange(MonthStart(ym), MonthEnd(ym))
  }

  /** Between 28 and 31 consecutive days hold between 20 and 23 weekdays. */
  lemma {:induction false} FourWeeksAndAFew(s: int, e: int)
    requires 27 <= e - s <= 30
    ensures 20 <= |WeekdaysInRange(s, e)| <= 23
  {
    WeekdaysInRangeSplit(s, s + 6, e);
    WeekdaysInRangeSplit(s + 7, s + 13, e);
    WeekdaysInRangeSplit(s + 14, s + 20, e);
    WeekdaysInRangeSplit(s + 21, s + 27, e);
    WeekHasFiveWeekdays(s);
    WeekHasFiveWeekdays(s + 7);
    WeekHasFiveWeekdays(s + 14);
    WeekHasFiveWeekdays(s + 21);
    WeekdaysInRangeMembers(s + 28, e);
  }

  /** A month has between 20 and 23 weekdays. */
  lemma MonthHas20To23Weekdays(ym: YearMonth)
    ensures 20 <= |WeekdaysInMonth(ym)| <= 23
  {
    FourWeeksAndAFew(MonthStart(ym), MonthEnd(ym));
  }

  // ---------------------------------------------------------------------------
  // Month grid (utils/date.ts getMonthGridDays; widgets/ios getMonthDays)

  /** date-fns `eachDayOfInterval` from the first to the last day of the month. */
  function AllDaysInMonth(ym: YearMonth): (r: seq<int>)
    ensures |r| == MonthLength(ym)
    ensures forall i :: 0 <= i < |r| ==> r[i] == MonthStart(ym) + i
  {
    seq(MonthLength(ym), i => MonthStart(ym) + i)
  }

  /** Number of empty cells before the 1st in a Monday-first, seven-column grid. */
  function LeadingBlanks(ym: YearMonth): int
  {
    MondayIndex(MonthStart(ym))
  }

  /** g is the Monday-first grid of month ym: LeadingBlanks(ym) empty cells, then every day of
      the month once, in ascending order. */
  predicate IsMonthGrid(ym: YearMonth, g: seq<Option<int>>)
  {
    && |g| == LeadingBlanks(ym) + MonthLength(ym)
    && (forall j :: 0 <= j < LeadingBlanks(ym) ==> g[j] == None)
    && (forall j :: LeadingBlanks(ym) <= j < |g| ==> g[j] == Some(MonthStart(ym) + j - LeadingBlanks(ym)))
  }

  /** The grid is determined by the month: any two loops that build it agree. */
  lemma MonthGridUnique(ym: YearMonth, g1: seq<Option<int>>, g2: seq<Option<int>>)
    requires IsMonthGrid(ym, g1) && IsMonthGrid(ym, g2)
    ensures g1 == g2
  {
    assert forall j :: 0 <= j < |g1| ==> g1[j] == g2[j];
  }

  /** A grid never needs more than six rows of seven: at most 6 blanks and 31 days. */
  lemma MonthGridFitsSixRows(ym: YearMonth, g: seq<Option<int>>)
    requires IsMonthGrid(ym, g)
    ensures |g| <= 37
    ensures forall d :: Some(d) in g <==> MonthStart(ym) <= d <= MonthEnd(ym)
  {
    forall d | Some(d) in g
      ensures MonthStart(ym) <= d <= MonthEnd(ym)
    {
      var j :| 0 <= j < |g| && g[j] == Some(d);
    }
    forall d | MonthStart(ym) <= d <= MonthEnd(ym)
      ensures Some(d) in g
    {
      assert g[d - MonthStart(ym) + LeadingBlanks(ym)] == Some(d);
    }
  }

  /** utils/date.ts getMonthGridDays: push one null per leading blank, then every day. */
  method GetMonthGridDays(ym: YearMonth) returns (gridDays: seq<Option<int>>)
    ensures IsMonthGrid(ym, gridDays)
    ensures |gridDays| <= 37
  {
    var start := MonthStart(ym);
    var days := AllDaysInMonth(ym);
    var firstDayOfWeek := JsGetDay(start);
    var mondayBasedFirstDay := if firstDayOfWeek == 0 then 6 else firstDayOfWeek - 1;
    GetDayConversionIsMondayIndex(start);
    gridDays := [];
    var i := 0;
    while i < mondayBasedFirstDay
      invariant 0 <= i <= mondayBasedFirstDay
      invariant |gridDays| == i
      invariant forall j :: 0 <= j < i ==> gridDays[j] == None
    {
      gridDays := gridDays + [None];
      i := i + 1;
    }
    var k := 0;
    while k < |days|
      invariant 0 <= k <= |days|
      invariant |gridDays| == mondayBasedFirstDay + k
      invariant forall j :: 0 <= j < mondayBasedFirstDay ==> gridDays[j] == None
      invariant forall j :: mondayBasedFirstDay <= j < |gridDays| ==> gridDays[j] == Some(start + j - mondayBasedFirstDay)
    {
      gridDays := gridDays + [Some(days[k])];
      k := k + 1;
    }
  }

  /** October 2025 begins on a Wednesday, so its grid opens with exactly two blanks. */
  lemma October2025HasTwoBlanks()
    ensures MonthStart(YearMonth(2025, 10)) == 20362
    ensures LeadingBlanks(YearMonth(2025, 10)) == 2
  {
  }

  // ---------------------------------------------------------------------------
  // First tracking day and day comparisons

  /** A set with no members is not what `s != {}` describes; gives a member to start from. */
  lemma NonEmptyHasMember(s: set<int>)
    requires s != {}
    ensures exists x :: x in s
  {
    if forall y :: y !in s {
      assert false;
    }
  }

  lemma MinimumExists(s: set<int>)
    requires exists x :: x in s
    ensures exists m :: m in s && forall k :: k in s ==> m <= k
  {
    var m := LeastElement(s);
  }

  /** A non-empty finite set of integers has a least element. */
  lemma {:induction false} LeastElement(s: set<int>) returns (m: int)
    requires exists x :: x in s
    ensures m in s && forall k :: k in s ==> m <= k
    decreases |s|
  {
    var x :| x in s;
    var rest := s - {x};
    if forall k :: k !in rest {
      m := x;
      forall k | k in s
        ensures x <= k
      {
        assert k == x || k in rest;
      }
    } else {
      assert |rest| < |s|;
      var least := LeastElement(rest);
      m := if x < least then x else least;
      forall k | k in s
        ensures m <= k
      {
        if k != x {
          assert k in rest;
        }
      }
    }
  }

  /** utils/date.ts getFirstTrackingDay: the earliest logged day, or null when nothing is logged.
      (That the smallest `YYYY-MM-DD` string is the earliest day is shown in IsoDate.) */
  function FirstTrackingDay<V>(logs: map<int, V>): (r: Option<int>)
    ensures r == None <==> logs.Keys == {}
    ensures r.Some? ==> r.value in logs && forall k :: k in logs ==> r.value <= k
  {
    if logs.Keys == {} then None
    else
      NonEmptyHasMember(logs.Keys);
      MinimumExists(logs.Keys);
      var m :| m in logs && forall k :: k in logs ==> m <= k;
      Some(m)
  }

  /** utils/date.ts isPastDay: the day is strictly before today (time of day ignored). */
  predicate IsPastDay(d: int, today: int)
  {
    d < today
  }
}
