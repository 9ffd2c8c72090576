/**
 * Civil dates and their `yyyy-MM-dd` storage keys (ISO 8601:2004 section 4.1.2.2,
 * calendar date in extended format).
 *
 * The app keys every log by this string; utils/date.ts getFirstTrackingDay sorts
 * the keys as strings and takes the first. This module shows that string order
 * of the keys is the chronological order of the dates (for four-digit years), so
 * the smallest key is the earliest logged day, and that the field comparisons of
 * isTodayET and the day comparison of isPastDay are comparisons of day numbers.
 */
module IsoDate {
  import opened Calendar
  import opened Decimal

  datatype CivilDate = CivilDate(year: int, month: int, day: int)

  /** A real calendar date whose year has four digits. */
  predicate Valid(c: CivilDate)
  {
    0 <= c.year <= 9999 && 1 <= c.month <= 12 && 1 <= c.day <= DaysInMonth(c.year, c.month)
  }

  function DayNumber(c: CivilDate): int
    requires Valid(c)
  {
    MonthStart(YearMonth(c.year, c.month)) + c.day - 1
  }

  /** date-fns `format(date, 'yyyy-MM-dd')`. */
  function Key(c: CivilDate): (k: string)
    requires Valid(c)
    ensures |k| == 10 && k[4] == '-' && k[7] == '-'
  {
    Pad(c.year, 4) + ("-" + (Pad(c.month, 2) + ("-" + Pad(c.day, 2))))
  }

  /** Year first, then month, then day. */
  predicate FieldsBefore(a: CivilDate, b: CivilDate)
  {
    a.year < b.year
    || (a.year == b.year && a.month < b.month)
    || (a.year == b.year && a.month == b.month && a.day < b.day)
  }

  /** String order of keys is field order of the dates. */
  lemma KeyOrderIsFieldOrder(a: CivilDate, b: CivilDate)
    requires Valid(a) && Valid(b)
    ensures StrLess(Key(a), Key(b)) <==> FieldsBefore(a, b)
  {
    assert Pow10(4) == 10000 && Pow10(2) == 100;
    PadOrder(a.year, b.year, 4);
    PadInjective(a.year, b.year, 4);
    PadOrder(a.month, b.month, 2);
    PadInjective(a.month, b.month, 2);
    PadOrder(a.day, b.day, 2);
    var ta := "-" + (Pad(a.month, 2) + ("-" + Pad(a.day, 2)));
    var tb := "-" + (Pad(b.month, 2) + ("-" + Pad(b.day, 2)));
    StrLessConcat(Pad(a.year, 4), Pad(b.year, 4), ta, tb);
    StrLessConcat("-", "-", Pad(a.month, 2) + ("-" + Pad(a.day, 2)), Pad(b.month, 2) + ("-" + Pad(b.day, 2)));
    StrLessIrreflexive("-");
    StrLessConcat(Pad(a.month, 2), Pad(b.month, 2), "-" + Pad(a.day, 2), "-" + Pad(b.day, 2));
    StrLessConcat("-", "-", Pad(a.day, 2), Pad(b.day, 2));
  }

  /** Each month ends before the next one in the same year begins. */
  lemma MonthEndsBeforeLaterMonth(y: int, m1: MonthIndex, m2: MonthIndex)
    requires m1 < m2
    ensures DaysBeforeMonth(y, m1) + DaysInMonth(y, m1) <= DaysBeforeMonth(y, m2)
  {
  }

  lemma LastMonthEndsTheYear(y: int, m: MonthIndex)
    ensures DaysBeforeMonth(y, m) + DaysInMonth(y, m) <= DaysInYear(y)
  {
  }

  /** Field order of valid dates is day-number order. */
  lemma FieldsBeforeIsEarlier(a: CivilDate, b: CivilDate)
    requires Valid(a) && Valid(b)
    ensures FieldsBefore(a, b) <==> DayNumber(a) < DayNumber(b)
  {
    if FieldsBefore(a, b) {
      Earlier(a, b);
    } else if FieldsBefore(b, a) {
      Earlier(b, a);
    } else {
      assert a == b;
    }
  }

  lemma Earlier(a: CivilDate, b: CivilDate)
    requires Valid(a) && Valid(b) && FieldsBefore(a, b)
    ensures DayNumber(a) < DayNumber(b)
  {
    if a.year < b.year {
      LastMonthEndsTheYear(a.year, a.month);
      YearStartStep(a.year);
      YearStartMonotone(a.year + 1, b.year);
    } else if a.month < b.month {
      MonthEndsBeforeLaterMonth(a.year, a.month, b.month);
    }
  }

  /** utils/date.ts getFirstTrackingDay: the smallest key in string order is the earliest date. */
  lemma SmallestKeyIsEarliestDay(a: CivilDate, b: CivilDate)
    requires Valid(a) && Valid(b)
    ensures StrLess(Key(a), Key(b)) <==> DayNumber(a) < DayNumber(b)
    ensures Key(a) == Key(b) <==> a == b
  {
    KeyOrderIsFieldOrder(a, b);
    KeyOrderIsFieldOrder(b, a);
    FieldsBeforeIsEarlier(a, b);
    FieldsBeforeIsEarlier(b, a);
    StrLessIrreflexive(Key(a));
  }

  /** utils/date.ts isTodayET: year, month and day agree with today's. */
  predicate IsTodayET(date: CivilDate, today: CivilDate)
  {
    date.year == today.year && date.month == today.month && date.day == today.day
  }

  /** utils/date.ts isPastDay compares the starts of the two calendar days. */
  predicate IsPastCivilDay(date: CivilDate, today: CivilDate)
    requires Valid(date) && Valid(today)
  {
    IsPastDay(DayNumber(date), DayNumber(today))
  }

  /** isTodayET is day-number equality, and a day is never both today and in the past. */
  lemma TodayAndPastAreExclusive(date: CivilDate, today: CivilDate)
    requires Valid(date) && Valid(today)
    ensures IsTodayET(date, today) <==> DayNumber(date) == DayNumber(today)
    ensures !(IsTodayET(date, today) && IsPastCivilDay(date, today))
    ensures IsPastCivilDay(date, today) <==> FieldsBefore(date, today)
  {
    FieldsBeforeIsEarlier(date, today);
    FieldsBeforeIsEarlier(today, date);
  }

  /** 2025-10-01 is day 20362 and is stored under the key "2025-10-01". */
  lemma October2025Key()
    ensures Valid(CivilDate(2025, 10, 1))
    ensures DayNumber(CivilDate(2025, 10, 1)) == 20362
    ensures Key(CivilDate(2025, 10, 1)) == "2025-10-01"
  {
    October2025HasTwoBlanks();
  }
}
