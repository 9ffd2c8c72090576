/**
 * components/StatsCard.tsx: the streak, success rate and missed count shown
 * under the month calendar.
 *
 * The card walks the month's weekdays twice: oldest first to count green, red
 * and unlogged days up to today, and newest first to count the current streak.
 */
module StatsCard {
  import opened Wrappers
  import opened Calendar
  import opened Types
  import opened Rates

  datatype Stats = Stats(streak: nat, rate: int, missed: nat)

  /** Days of `days` on or before today whose stored status is s. */
  function CountStatus(days: seq<int>, logs: map<int, DayLog>, today: int, s: DayStatus): (n: nat)
    ensures n <= |days|
  {
    if |days| == 0 then 0
    else
      var d := days[|days| - 1];
      CountStatus(days[..|days| - 1], logs, today, s) + (if d <= today && StoredStatus(logs, d) == Some(s) then 1 else 0)
  }

  /** Days of `days` on or before today that are neither green nor red (unlogged, in practice). */
  function CountOther(days: seq<int>, logs: map<int, DayLog>, today: int): (n: nat)
    ensures n <= |days|
  {
    if |days| == 0 then 0
    else
      var d := days[|days| - 1];
      var st := StoredStatus(logs, d);
      CountOther(days[..|days| - 1], logs, today) + (if d <= today && st != Some(Green) && st != Some(Red) then 1 else 0)
  }

  /** Days of `days` on or before today. */
  function CountUpTo(days: seq<int>, today: int): (n: nat)
    ensures n <= |days|
  {
    if |days| == 0 then 0
    else CountUpTo(days[..|days| - 1], today) + (if days[|days| - 1] <= today then 1 else 0)
  }

  /** The streak over days listed newest first: days after today are skipped, each green day
      adds one, unlogged days are skipped, and the first red day ends the count. */
  function Streak(newestFirst: seq<int>, logs: map<int, DayLog>, today: int): (n: nat)
    ensures n <= |newestFirst|
  {
    if |newestFirst| == 0 then 0
    else
      var d := newestFirst[0];
      var rest := Streak(newestFirst[1..], logs, today);
      if d > today then rest
      else if StoredStatus(logs, d) == Some(Green) then 1 + rest
      else if StoredStatus(logs, d) == Some(Red) then 0
      else rest
  }

  /** The card's computation (StatsCard.tsx:17-72): the counting loop, then the streak walk
      over the weekdays sorted newest first, then the rate. */
  method ComputeStats(month: YearMonth, logs: map<int, DayLog>, today: int) returns (stats: Stats)
    ensures var w := WeekdaysInMonth(month);
      var green := CountStatus(w, logs, today, Green);
      var red := CountStatus(w, logs, today, Red);
      && stats.missed == red
      && stats.rate == RoundPercent(green, green + red)
      && stats.streak == Streak(Reverse(w), logs, today)
  {
    var weekdays := WeekdaysInMonth(month);
    var sortedWeekdays := Reverse(weekdays);
    var greenDays, redDays, greyDays := CountDays(weekdays, logs, today);
    var currentStreak := WalkStreak(sortedWeekdays, logs, today);
    var totalLogged := greenDays + redDays;
    var rate := if totalLogged > 0 then RoundPercent(greenDays, totalLogged) else 0;
    stats := Stats(currentStreak, rate, redDays);
  }

  /** The counting loop (StatsCard.tsx:30-44): days up to today, by stored status. */
  method CountDays(weekdays: seq<int>, logs: map<int, DayLog>, today: int) returns (greenDays: nat, redDays: nat, greyDays: nat)
    ensures greenDays == CountStatus(weekdays, logs, today, Green)
    ensures redDays == CountStatus(weekdays, logs, today, Red)
    ensures greyDays == CountOther(weekdays, logs, today)
    ensures greenDays + redDays + greyDays == CountUpTo(weekdays, today)
  {
    greenDays, redDays, greyDays := 0, 0, 0;
    for i := 0 to |weekdays|
      invariant greenDays == CountStatus(weekdays[..i], logs, today, Green)
      invariant redDays == CountStatus(weekdays[..i], logs, today, Red)
      invariant greyDays == CountOther(weekdays[..i], logs, today)
      invariant greenDays + redDays + greyDays == CountUpTo(weekdays[..i], today)
    {
      var day := weekdays[i];
      assert weekdays[..i + 1][..i] == weekdays[..i];
      if day <= today {
        var status := StoredStatus(logs, day);
        if status == Some(Green) {
          greenDays := greenDays + 1;
        } else if status == Some(Red) {
          redDays := redDays + 1;
        } else {
          greyDays := greyDays + 1;
        }
      }
    }
    assert weekdays[..|weekdays|] == weekdays;
  }

  /** The streak loop (StatsCard.tsx:46-63): newest first, days after today skipped, green
      counted, unlogged skipped, and the first red stops the count. */
  method WalkStreak(sortedWeekdays: seq<int>, logs: map<int, DayLog>, today: int) returns (currentStreak: nat)
    ensures currentStreak == Streak(sortedWeekdays, logs, today)
  {
    currentStreak := 0;
    var countingStreak := true;
    for i := 0 to |sortedWeekdays|
      invariant countingStreak ==> currentStreak + Streak(sortedWeekdays[i..], logs, today) == Streak(sortedWeekdays, logs, today)
      invariant !countingStreak ==> currentStreak == Streak(sortedWeekdays, logs, today)
    {
      var day := sortedWeekdays[i];
      assert sortedWeekdays[i..][1..] == sortedWeekdays[i + 1..];
      if day > today {
        continue;
      }
      if countingStreak {
        var status := StoredStatus(logs, day);
        if status == Some(Green) {
          currentStreak := currentStreak + 1;
        } else if status == Some(Red) {
          countingStreak := false;
        } else {
          continue;
        }
      }
    }
    assert countingStreak ==> Streak(sortedWeekdays[|sortedWeekdays|..], logs, today) == 0;
  }

  // ---------------------------------------------------------------------------
  // Properties of the card's specification

  lemma {:induction false} CountStatusAppend(a: seq<int>, b: seq<int>, logs: map<int, DayLog>, today: int, s: DayStatus)
    ensures CountStatus(a + b, logs, today, s) == CountStatus(a, logs, today, s) + CountStatus(b, logs, today, s)
    decreases |b|
  {
    if |b| == 0 {
      assert a + b == a;
    } else {
      assert (a + b)[..|a + b| - 1] == a + b[..|b| - 1];
      CountStatusAppend(a, b[..|b| - 1], logs, today, s);
    }
  }

  /** Counting does not depend on the order of the days. */
  lemma {:induction false} CountStatusReverse(w: seq<int>, logs: map<int, DayLog>, today: int, s: DayStatus)
    ensures CountStatus(Reverse(w), logs, today, s) == CountStatus(w, logs, today, s)
    decreases |w|
  {
    if |w| > 0 {
      var init := w[..|w| - 1];
      assert Reverse(w) == [w[|w| - 1]] + Reverse(init);
      CountStatusAppend([w[|w| - 1]], Reverse(init), logs, today, s);
      CountStatusReverse(init, logs, today, s);
      assert [w[|w| - 1]][..0] == [];
    }
  }

  /** A streak counts green days on or before today, so it never exceeds their number. */
  lemma {:induction false} StreakAtMostGreen(newestFirst: seq<int>, logs: map<int, DayLog>, today: int)
    ensures Streak(newestFirst, logs, today) <= CountStatus(newestFirst, logs, today, Green)
    decreases |newestFirst|
  {
    if |newestFirst| > 0 {
      StreakAtMostGreen(newestFirst[1..], logs, today);
      assert newestFirst == [newestFirst[0]] + newestFirst[1..];
      CountStatusAppend([newestFirst[0]], newestFirst[1..], logs, today, Green);
      assert [newestFirst[0]][..0] == [];
    }
  }

  /** streak <= the green days the rate is computed from. */
  lemma CardStreakAtMostGreenDays(month: YearMonth, logs: map<int, DayLog>, today: int)
    ensures Streak(Reverse(WeekdaysInMonth(month)), logs, today) <= CountStatus(WeekdaysInMonth(month), logs, today, Green)
  {
    StreakAtMostGreen(Reverse(WeekdaysInMonth(month)), logs, today);
    CountStatusReverse(WeekdaysInMonth(month), logs, today, Green);
  }

  /** The streak reads the logs of the listed days only: logs of days outside the displayed
      month cannot change it. */
  lemma {:induction false} StreakReadsListedDaysOnly(newestFirst: seq<int>, logs1: map<int, DayLog>, logs2: map<int, DayLog>, today: int)
    requires forall d :: d in newestFirst ==> StoredStatus(logs1, d) == StoredStatus(logs2, d)
    ensures Streak(newestFirst, logs1, today) == Streak(newestFirst, logs2, today)
    decreases |newestFirst|
  {
    if |newestFirst| > 0 {
      assert newestFirst[0] in newestFirst;
      forall d | d in newestFirst[1..]
        ensures StoredStatus(logs1, d) == StoredStatus(logs2, d)
      {
        assert d in newestFirst;
      }
      StreakReadsListedDaysOnly(newestFirst[1..], logs1, logs2, today);
    }
  }

  lemma CardStreakStaysInMonth(month: YearMonth, logs1: map<int, DayLog>, logs2: map<int, DayLog>, today: int)
    requires forall d :: MonthStart(month) <= d <= MonthEnd(month) ==> StoredStatus(logs1, d) == StoredStatus(logs2, d)
    ensures Streak(Reverse(WeekdaysInMonth(month)), logs1, today) == Streak(Reverse(WeekdaysInMonth(month)), logs2, today)
  {
    var w := WeekdaysInMonth(month);
    WeekdaysInRangeMembers(MonthStart(month), MonthEnd(month));
    WeekdaysAscending(MonthStart(month), MonthEnd(month));
    ReverseSortsDescending(w);
    StreakReadsListedDaysOnly(Reverse(w), logs1, logs2, today);
  }

  /** A log stored for a day after today changes neither count nor the streak. */
  lemma {:induction false} FutureLogsDoNotCount(days: seq<int>, logs: map<int, DayLog>, today: int, d: int, log: DayLog, s: DayStatus)
    requires d > today
    ensures CountStatus(days, logs[d := log], today, s) == CountStatus(days, logs, today, s)
    ensures Streak(days, logs[d := log], today) == Streak(days, logs, today)
    decreases |days|
  {
    if |days| > 0 {
      FutureLogsDoNotCount(days[..|days| - 1], logs, today, d, log, s);
      FutureLogsDoNotCount(days[1..], logs, today, d, log, s);
    }
  }

  /** An unlogged day adds to neither the green nor the red count, wherever it sits in the list. */
  lemma UnloggedDaysDoNotCount(a: seq<int>, d: int, b: seq<int>, logs: map<int, DayLog>, today: int, s: DayStatus)
    requires d !in logs
    ensures CountStatus(a + [d] + b, logs, today, s) == CountStatus(a + b, logs, today, s)
  {
    CountStatusAppend(a + [d], b, logs, today, s);
    CountStatusAppend(a, [d], logs, today, s);
    CountStatusAppend(a, b, logs, today, s);
    assert [d][..0] == [];
  }

  lemma {:induction false} AllFutureCountsNothing(days: seq<int>, logs: map<int, DayLog>, today: int, s: DayStatus)
    requires forall i :: 0 <= i < |days| ==> days[i] > today
    ensures CountStatus(days, logs, today, s) == 0
    ensures Streak(days, logs, today) == 0
    decreases |days|
  {
    if |days| > 0 {
      AllFutureCountsNothing(days[..|days| - 1], logs, today, s);
      AllFutureCountsNothing(days[1..], logs, today, s);
    }
  }

  /** A month lying wholly after today shows streak 0, rate 0 and missed 0. */
  lemma FutureMonthShowsZeros(month: YearMonth, logs: map<int, DayLog>, today: int)
    requires MonthStart(month) > today
    ensures var w := WeekdaysInMonth(month);
      && CountStatus(w, logs, today, Green) == 0
      && CountStatus(w, logs, today, Red) == 0
      && RoundPercent(CountStatus(w, logs, today, Green), CountStatus(w, logs, today, Red) + CountStatus(w, logs, today, Green)) == 0
      && Streak(Reverse(w), logs, today) == 0
  {
    var w := WeekdaysInMonth(month);
    WeekdaysInRangeMembers(MonthStart(month), MonthEnd(month));
    assert forall i :: 0 <= i < |w| ==> w[i] > today by {
      forall i | 0 <= i < |w|
        ensures w[i] > today
      {
        assert w[i] in w;
      }
    }
    AllFutureCountsNothing(w, logs, today, Green);
    AllFutureCountsNothing(w, logs, today, Red);
    var r := Reverse(w);
    AllFutureCountsNothing(r, logs, today, Green);
  }

  /** Newest first: green, green, unlogged, red, green gives a streak of 2. */
  lemma StreakExample()
    ensures var logs := map[
        5 := DayLog(5, Green, None, Some(false), None),
        4 := DayLog(4, Green, None, Some(false), None),
        2 := DayLog(2, Red, None, Some(false), None),
        1 := DayLog(1, Green, None, Some(false), None)];
      Streak([5, 4, 3, 2, 1], logs, 5) == 2
  {
  }
}
