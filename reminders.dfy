/**
 * utils/notifications.ts: the daily reminders.
 *
 * The device's notification queue is the class NotificationCenter: a list of
 * pending notifications (identifier and delay in seconds) and the badge count.
 * Instants are milliseconds since today's midnight (Eastern Time); `today`,
 * `nowMs` and whether permission is granted are inputs, as are the settings.
 */
module Reminders {
  import opened Wrappers
  import opened Decimal
  import opened Calendar
  import opened Types
  import opened Arith

  /** Every identifier this app schedules starts with this tag. */
  const Tag: string := "trading-reminder"

  /** At most this many reminders per day (well under the iOS limit of 64). */
  const MaxNotifications: nat := 50

  const MsPerMinute: int := 60000
  const MsPerHour: int := 3600000
  const MsPerDay: int := 86400000

  predicate StartsWith(s: string, prefix: string)
  {
    |prefix| <= |s| && s[..|prefix|] == prefix
  }

  predicate IsTagged(id: string)
  {
    StartsWith(id, Tag)
  }

  /** `${NOTIFICATION_TAG}-${count}`. */
  function ReminderId(count: nat): (id: string)
    ensures IsTagged(id)
  {
    assert (Tag + "-" + NatToString(count))[..|Tag|] == Tag;
    Tag + "-" + NatToString(count)
  }

  /** Reminder identifiers of different counts differ. */
  lemma ReminderIdsDistinct(a: nat, b: nat)
    requires a != b
    ensures ReminderId(a) != ReminderId(b)
  {
    NatToStringInjective(a, b);
    var p := Tag + "-";
    assert ReminderId(a)[|p|..] == NatToString(a);
    assert ReminderId(b)[|p|..] == NatToString(b);
  }

  // ---------------------------------------------------------------------------
  // parseTime: `timeStr.split(':').map(Number)`

  /** `s.split(sep)`: the pieces between separators; never empty. */
  function Split(s: string, sep: char): (parts: seq<string>)
    ensures |parts| >= 1
  {
    if |s| == 0 then [""]
    else
      var rest := Split(s[1..], sep);
      if s[0] == sep then [""] + rest else [[s[0]] + rest[0]] + rest[1..]
  }

  /** `Number(s)` for the strings a time field holds: the empty string is 0, a run of digits
      is its value, anything else is NaN (None). */
  function JsNumber(s: string): (n: Option<nat>)
    ensures AllDigits(s) ==> n == Some(ParseDigits(s))
    ensures !AllDigits(s) ==> n == None
  {
    if AllDigits(s) then Some(ParseDigits(s)) else None
  }

  /** Hours and minutes of an `HH:mm` setting; a missing minutes field is `undefined`, which
      `setHours` reads as NaN. */
  datatype TimeFields = TimeFields(hours: Option<nat>, minutes: Option<nat>)

  function ParseTime(s: string): (t: TimeFields)
    ensures t.hours == JsNumber(Split(s, ':')[0])
    ensures |Split(s, ':')| < 2 ==> t.minutes == None
    ensures |Split(s, ':')| >= 2 ==> t.minutes == JsNumber(Split(s, ':')[1])
  {
    var parts := Split(s, ':');
    TimeFields(JsNumber(parts[0]), if |parts| >= 2 then JsNumber(parts[1]) else None)
  }

  lemma {:induction false} SplitNoSeparator(s: string, sep: char)
    requires forall i :: 0 <= i < |s| ==> s[i] != sep
    ensures Split(s, sep) == [s]
  {
    if |s| > 0 {
      SplitNoSeparator(s[1..], sep);
      assert [s[0]] + s[1..] == s;
    }
  }

  lemma {:induction false} SplitAtSeparator(a: string, b: string, sep: char)
    requires forall i :: 0 <= i < |a| ==> a[i] != sep
    ensures Split(a + [sep] + b, sep) == [a] + Split(b, sep)
  {
    if |a| == 0 {
      assert a + [sep] + b == [sep] + b;
      assert ([sep] + b)[1..] == b;
    } else {
      assert (a + [sep] + b)[1..] == a[1..] + [sep] + b;
      SplitAtSeparator(a[1..], b, sep);
      assert [a[0]] + a[1..] == a;
    }
  }

  /** Reading back a two-digit `HH:mm` rendering gives the hours and minutes. */
  lemma ParseTimeOfPadded(h: nat, m: nat)
    requires h < 100 && m < 100
    ensures ParseTime(Pad(h, 2) + ":" + Pad(m, 2)) == TimeFields(Some(h), Some(m))
  {
    assert Pow10(2) == 100;
    var hs, ms := Pad(h, 2), Pad(m, 2);
    assert forall i :: 0 <= i < |hs| ==> hs[i] != ':' by {
      assert AllDigits(hs);
    }
    assert forall i :: 0 <= i < |ms| ==> ms[i] != ':' by {
      assert AllDigits(ms);
    }
    SplitAtSeparator(hs, ms, ':');
    SplitNoSeparator(ms, ':');
    assert hs + ":" + ms == hs + [':'] + ms;
    ParsePad(h, 2);
    ParsePad(m, 2);
  }

  /** `new Date(now).setHours(h, m, 0, 0)`: milliseconds after midnight, or None for NaN. */
  function WindowInstant(t: TimeFields): (ms: Option<int>)
    ensures ms.Some? <==> t.hours.Some? && t.minutes.Some?
    ensures ms.Some? ==> ms.value >= 0 && ms.value % MsPerMinute == 0
  {
    if t.hours.Some? && t.minutes.Some? then
      Some((t.hours.value * 60 + t.minutes.value) * MsPerMinute)
    else None
  }

  /** A well-formed `HH:mm` setting, as the settings screen writes it, is the instant that many
      hours and minutes after midnight, within the day. */
  lemma PaddedWindowInstant(h: nat, m: nat)
    requires h < 24 && m < 60
    ensures WindowInstant(ParseTime(Pad(h, 2) + ":" + Pad(m, 2))) == Some(h * MsPerHour + m * MsPerMinute)
    ensures h * MsPerHour + m * MsPerMinute < MsPerDay
  {
    ParseTimeOfPadded(h, m);
  }

  // ---------------------------------------------------------------------------
  // The first reminder (notifications.ts:111-127)

  /** `Math.ceil(minutes / interval) * interval` for the minute-of-hour of now. */
  function RoundedMinutes(nowMs: int, interval: int): (r: int)
    requires nowMs >= 0 && interval >= 1
    ensures var m := (nowMs % MsPerHour) / MsPerMinute;
      && r % interval == 0
      && m <= r < m + interval
  {
    var m := (nowMs % MsPerHour) / MsPerMinute;
    CeilDiv(m, interval);
    MultipleHasNoRemainder((m + interval - 1) / interval, interval);
    interval * ((m + interval - 1) / interval)
  }

  /** The first reminder instant, step by step as the Date calls make it (no daylight-saving
      change within the day):
      `setMinutes(rounded, 0, 0)` moves to minute `rounded` of now's hour, carrying into later
      hours; when `rounded >= 60`, `setHours(getHours() + floor(rounded / 60))` adds those hours
      a second time and `setMinutes(rounded % 60)` keeps the minute. */
  function FirstInstant(nowMs: int, startMs: int, interval: int): int
    requires nowMs >= 0 && interval >= 1
  {
    if nowMs > startMs then
      var rounded := RoundedMinutes(nowMs, interval);
      var t1 := (nowMs - nowMs % MsPerHour) + rounded * MsPerMinute;
      if rounded >= 60 then
        var t2 := (t1 - t1 % MsPerDay) + ((t1 % MsPerDay) / MsPerHour + rounded / 60) * MsPerHour + t1 % MsPerHour;
        (t2 - t2 % MsPerHour) + (rounded % 60) * MsPerMinute
      else t1
    else startMs
  }

  /** Where the first reminder falls. At or before the start of the window it is the start.
      Later it is on a whole minute: the next interval boundary of the hour when that is
      below 60, and otherwise with the whole hours of the rounding counted twice. */
  lemma FirstInstantPlacement(nowMs: int, startMs: int, interval: int)
    requires nowMs >= 0 && interval >= 1
    ensures nowMs <= startMs ==> FirstInstant(nowMs, startMs, interval) == startMs
    ensures nowMs > startMs ==>
      var rounded := RoundedMinutes(nowMs, interval);
      var hourStart := nowMs - nowMs % MsPerHour;
      && FirstInstant(nowMs, startMs, interval) % MsPerMinute == 0
      && FirstInstant(nowMs, startMs, interval) == hourStart + (rounded + 60 * (rounded / 60)) * MsPerMinute
      && (rounded < 60 ==> FirstInstant(nowMs, startMs, interval) == hourStart + rounded * MsPerMinute)
      && FirstInstant(nowMs, startMs, interval) > nowMs - MsPerMinute
  {
    if nowMs > startMs {
      var rounded := RoundedMinutes(nowMs, interval);
      var h := nowMs / MsPerHour;
      var m := (nowMs % MsPerHour) / MsPerMinute;
      var a, b := rounded / 60, rounded % 60;
      assert nowMs == MsPerHour * h + nowMs % MsPerHour;
      assert nowMs % MsPerHour == MsPerMinute * m + (nowMs % MsPerHour) % MsPerMinute;
      var t1 := (nowMs - nowMs % MsPerHour) + rounded * MsPerMinute;
      assert t1 == MsPerHour * (h + a) + b * MsPerMinute;
      DivModUnique(t1, MsPerHour, h + a, b * MsPerMinute);
      if rounded >= 60 {
        HourOfDay(t1);
        var t2 := (t1 - t1 % MsPerDay) + ((t1 % MsPerDay) / MsPerHour + rounded / 60) * MsPerHour + t1 % MsPerHour;
        assert t2 == MsPerHour * (h + 2 * a) + b * MsPerMinute;
        DivModUnique(t2, MsPerHour, h + 2 * a, b * MsPerMinute);
      }
      DivModUnique(FirstInstant(nowMs, startMs, interval), MsPerMinute, 60 * h + rounded + 60 * (rounded / 60), 0);
    }
  }

  /** Taking the day start and adding whole hours of the day gives the hour start. */
  lemma HourOfDay(t: int)
    ensures (t - t % MsPerDay) + ((t % MsPerDay) / MsPerHour) * MsPerHour == t - t % MsPerHour
  {
    var d := t / MsPerDay;
    var u := t % MsPerDay;
    var hh := u / MsPerHour;
    assert t == MsPerDay * d + u;
    assert u == MsPerHour * hh + u % MsPerHour;
    DivModUnique(t, MsPerHour, 24 * d + hh, u % MsPerHour);
  }

  /** 16:50 with a 15-minute interval: the rounding reaches minute 60 and the first reminder is
      at 18:00, not 17:00. */
  lemma DoubleHourCarryExample()
    ensures FirstInstant(16 * MsPerHour + 50 * MsPerMinute, 16 * MsPerHour, 15) == 18 * MsPerHour
  {
    FirstInstantPlacement(16 * MsPerHour + 50 * MsPerMinute, 16 * MsPerHour, 15);
  }

  // ---------------------------------------------------------------------------
  // The schedule (notifications.ts:129-164)

  datatype Notification = Notification(id: string, delaySeconds: int)

  /** `Math.max(1, Math.floor((next - now) / 1000))`. */
  function DelaySeconds(nextMs: int, nowMs: int): (s: int)
    ensures s >= 1
    ensures nextMs - nowMs >= 1000 ==> 1000 * s <= nextMs - nowMs < 1000 * (s + 1)
  {
    var d := (nextMs - nowMs) / 1000;
    if d < 1 then 1 else d
  }

  /** How many times the scheduling loop runs: instants first, first + step, ... before
      the end of the window, capped at 50. */
  function ReminderCount(firstMs: int, endMs: int, stepMs: int): (n: nat)
    requires stepMs >= 1
    ensures n <= MaxNotifications
  {
    if firstMs >= endMs then 0
    else
      var fit := (endMs - firstMs + stepMs - 1) / stepMs;
      if fit < MaxNotifications then fit else MaxNotifications
  }

  /** The k-th reminder instant. */
  function InstantAt(firstMs: int, stepMs: int, k: nat): int
  {
    firstMs + k * stepMs
  }

  function PlanEntries(firstMs: int, endMs: int, nowMs: int, stepMs: int): (p: seq<Notification>)
    requires stepMs >= 1
    ensures |p| == ReminderCount(firstMs, endMs, stepMs)
    ensures forall k :: 0 <= k < |p| ==> p[k] == Notification(ReminderId(k), DelaySeconds(InstantAt(firstMs, stepMs, k), nowMs))
  {
    seq(ReminderCount(firstMs, endMs, stepMs), k requires 0 <= k => Notification(ReminderId(k), DelaySeconds(InstantAt(firstMs, stepMs, k), nowMs)))
  }

  /** The loop keeps going exactly while the count is below ReminderCount. */
  lemma LoopGuard(firstMs: int, endMs: int, stepMs: int, count: nat)
    requires stepMs >= 1
    requires count <= ReminderCount(firstMs, endMs, stepMs)
    ensures (InstantAt(firstMs, stepMs, count) < endMs && count < MaxNotifications) <==> count < ReminderCount(firstMs, endMs, stepMs)
  {
    if firstMs < endMs {
      var d := endMs - firstMs;
      StepsBeforeEnd(d, stepMs, count);
      assert InstantAt(firstMs, stepMs, count) < endMs <==> count * stepMs < d;
    } else {
      assert count == 0;
    }
  }

  /** `count` steps stay short of a positive distance exactly while count is below its ceiling
      quotient. */
  lemma StepsBeforeEnd(d: int, stepMs: int, count: nat)
    requires d > 0 && stepMs >= 1
    ensures count * stepMs < d <==> count < (d + stepMs - 1) / stepMs
  {
    var fit := (d + stepMs - 1) / stepMs;
    CeilDiv(d, stepMs);
    ScaleMonotone(stepMs, count, fit);
    ScaleMonotone(stepMs, fit - 1, count);
    assert stepMs * (fit - 1) == stepMs * fit - stepMs;
  }

  /** The reminders scheduleReminders would add, given the settings and the moment. */
  function Plan(settings: NotificationSettings, isTodayLogComplete: bool, today: int, hasPermission: bool, nowMs: int): (p: seq<Notification>)
    requires 0 <= nowMs < MsPerDay && settings.interval >= 1
    ensures !settings.enabled || isTodayLogComplete || IsWeekend(today) || !hasPermission ==> p == []
    ensures |p| <= MaxNotifications
    ensures forall k :: 0 <= k < |p| ==> p[k].id == ReminderId(k) && p[k].delaySeconds >= 1
  {
    if !settings.enabled || isTodayLogComplete || IsWeekend(today) || !hasPermission then []
    else
      var startMs := WindowInstant(ParseTime(settings.startTime));
      var endMs := WindowInstant(ParseTime(settings.endTime));
      if startMs.None? || endMs.None? || nowMs >= endMs.value then []
      else PlanEntries(FirstInstant(nowMs, startMs.value, settings.interval), endMs.value, nowMs, settings.interval * MsPerMinute)
  }

  /** Nothing is scheduled when reminders are off, today is logged, today is Saturday or Sunday,
      permission is missing, or now is at or past the end of the window. */
  lemma NothingScheduledCases(settings: NotificationSettings, isTodayLogComplete: bool, today: int, hasPermission: bool, nowMs: int)
    requires 0 <= nowMs < MsPerDay && settings.interval >= 1
    requires !settings.enabled || isTodayLogComplete || IsWeekend(today) || !hasPermission
      || (WindowInstant(ParseTime(settings.endTime)).Some? && nowMs >= WindowInstant(ParseTime(settings.endTime)).value)
    ensures Plan(settings, isTodayLogComplete, today, hasPermission, nowMs) == []
  {
  }

  /** The instants lie strictly before the end of the window and there are at most 50 of them. */
  lemma PlanWithinWindow(firstMs: int, endMs: int, nowMs: int, stepMs: int)
    requires stepMs >= 1
    ensures var p := PlanEntries(firstMs, endMs, nowMs, stepMs);
      && |p| <= MaxNotifications
      && (forall k :: 0 <= k < |p| ==> InstantAt(firstMs, stepMs, k) < endMs)
  {
    var p := PlanEntries(firstMs, endMs, nowMs, stepMs);
    forall k | 0 <= k < |p|
      ensures InstantAt(firstMs, stepMs, k) < endMs
    {
      LoopGuard(firstMs, endMs, stepMs, k);
    }
  }

  /** Consecutive instants are one interval apart, so they increase strictly. */
  lemma InstantsSpacedByInterval(firstMs: int, stepMs: int, k: nat)
    requires stepMs >= 1
    ensures InstantAt(firstMs, stepMs, k + 1) == InstantAt(firstMs, stepMs, k) + stepMs
    ensures InstantAt(firstMs, stepMs, k + 1) > InstantAt(firstMs, stepMs, k)
  {
    assert (k + 1) * stepMs == k * stepMs + stepMs;
  }

  /** Every entry is tagged, waits at least one second, and no two share an identifier. */
  lemma PlanIdentifiers(firstMs: int, endMs: int, nowMs: int, stepMs: int)
    requires stepMs >= 1
    ensures var p := PlanEntries(firstMs, endMs, nowMs, stepMs);
      && (forall k :: 0 <= k < |p| ==> p[k].delaySeconds >= 1 && IsTagged(p[k].id))
      && (forall j, k :: 0 <= j < k < |p| ==> p[j].id != p[k].id)
  {
    var p := PlanEntries(firstMs, endMs, nowMs, stepMs);
    forall j, k | 0 <= j < k < |p|
      ensures p[j].id != p[k].id
    {
      ReminderIdsDistinct(j, k);
    }
  }

  lemma ParseWholeHour(h: nat, text: string)
    requires 10 <= h < 24 && text == [DigitChar(h / 10), DigitChar(h % 10), ':', '0', '0']
    ensures WindowInstant(ParseTime(text)) == Some(h * MsPerHour)
  {
    ParseTimeOfPadded(h, 0);
    assert Pad(h, 2) == [DigitChar(h / 10), DigitChar(h % 10)];
    assert Pad(0, 2) == "00";
    assert text == Pad(h, 2) + ":" + Pad(0, 2);
  }

  /** Window 16:00-17:00, interval 15, now 16:07: reminders at 16:15, 16:30 and 16:45, that is
      480, 1380 and 2280 seconds away. */
  lemma AfternoonExample()
    ensures Plan(NotificationSettings(true, "16:00", 15, "17:00"), false, 20362, true, 16 * MsPerHour + 7 * MsPerMinute)
      == [Notification(ReminderId(0), 480), Notification(ReminderId(1), 1380), Notification(ReminderId(2), 2280)]
  {
    ParseWholeHour(16, "16:00");
    ParseWholeHour(17, "17:00");
    AfternoonFirstInstant();
    AfternoonEntries();
  }

  lemma AfternoonFirstInstant()
    ensures FirstInstant(16 * MsPerHour + 7 * MsPerMinute, 16 * MsPerHour, 15) == 16 * MsPerHour + 15 * MsPerMinute
  {
    var nowMs := 16 * MsPerHour + 7 * MsPerMinute;
    FirstInstantPlacement(nowMs, 16 * MsPerHour, 15);
    DivModUnique(nowMs, MsPerHour, 16, 7 * MsPerMinute);
    DivModUnique(7 * MsPerMinute, MsPerMinute, 7, 0);
    assert RoundedMinutes(nowMs, 15) == 15;
  }

  lemma AfternoonEntries()
    ensures PlanEntries(16 * MsPerHour + 15 * MsPerMinute, 17 * MsPerHour, 16 * MsPerHour + 7 * MsPerMinute, 15 * MsPerMinute)
      == [Notification(ReminderId(0), 480), Notification(ReminderId(1), 1380), Notification(ReminderId(2), 2280)]
  {
    var first, nowMs := 16 * MsPerHour + 15 * MsPerMinute, 16 * MsPerHour + 7 * MsPerMinute;
    assert ReminderCount(first, 17 * MsPerHour, 15 * MsPerMinute) == 3;
    var p := PlanEntries(first, 17 * MsPerHour, nowMs, 15 * MsPerMinute);
    assert p[0] == Notification(ReminderId(0), 480);
    assert p[1] == Notification(ReminderId(1), 1380);
    assert p[2] == Notification(ReminderId(2), 2280);
  }

  // ---------------------------------------------------------------------------
  // The notification queue

  /** The pending notifications whose identifier does not carry the tag, in order. */
  function Untagged(s: seq<Notification>): (r: seq<Notification>)
    ensures |r| <= |s|
  {
    if |s| == 0 then []
    else
      var last := s[|s| - 1];
      Untagged(s[..|s| - 1]) + (if IsTagged(last.id) then [] else [last])
  }

  function CountTagged(s: seq<Notification>): (n: nat)
    ensures n <= |s|
  {
    if |s| == 0 then 0
    else CountTagged(s[..|s| - 1]) + (if IsTagged(s[|s| - 1].id) then 1 else 0)
  }

  /** Cancelling keeps exactly the untagged notifications, and no tagged one survives. */
  lemma {:induction false} UntaggedKeepsOthers(s: seq<Notification>)
    ensures forall n :: n in Untagged(s) <==> n in s && !IsTagged(n.id)
    ensures CountTagged(Untagged(s)) == 0
    ensures |Untagged(s)| + CountTagged(s) == |s|
  {
    if |s| > 0 {
      var init := s[..|s| - 1];
      UntaggedKeepsOthers(init);
      assert s == init + [s[|s| - 1]];
      CountTaggedAppend(Untagged(init), if IsTagged(s[|s| - 1].id) then [] else [s[|s| - 1]]);
    }
  }

  lemma {:induction false} CountTaggedAppend(a: seq<Notification>, b: seq<Notification>)
    ensures CountTagged(a + b) == CountTagged(a) + CountTagged(b)
    decreases |b|
  {
    if |b| == 0 {
      assert a + b == a;
    } else {
      assert (a + b)[..|a + b| - 1] == a + b[..|b| - 1];
      CountTaggedAppend(a, b[..|b| - 1]);
    }
  }

  lemma {:induction false} AllTaggedCount(p: seq<Notification>)
    requires forall k :: 0 <= k < |p| ==> IsTagged(p[k].id)
    ensures CountTagged(p) == |p|
  {
    if |p| > 0 {
      AllTaggedCount(p[..|p| - 1]);
    }
  }

  class NotificationCenter {
    var scheduled: seq<Notification>
    var badge: int

    constructor()
      ensures scheduled == [] && badge == 0
    {
      scheduled := [];
      badge := 0;
    }

    /** getScheduledReminderCount: the pending notifications carrying the tag. */
    function ScheduledReminderCount(): (n: nat)
      reads this
      ensures n == |scheduled| - |Untagged(scheduled)|
    {
      UntaggedKeepsOthers(scheduled);
      CountTagged(scheduled)
    }

    /** cancelAllReminders: every pending notification whose identifier starts with the tag is
        cancelled, the others stay in order, and the badge is cleared. */
    method CancelAllReminders()
      modifies this
      ensures scheduled == Untagged(old(scheduled))
      ensures badge == 0
    {
      var pending := scheduled;
      var remaining: seq<Notification> := [];
      for i := 0 to |pending|
        invariant remaining == Untagged(pending[..i])
      {
        assert pending[..i + 1][..i] == pending[..i];
        if !IsTagged(pending[i].id) {
          remaining := remaining + [pending[i]];
        }
      }
      assert pending[..|pending|] == pending;
      scheduled := remaining;
      badge := 0;
    }

    /** scheduleReminders: cancel the tagged reminders, then queue today's reminders and return
        how many were queued. */
    method ScheduleReminders(settings: NotificationSettings, isTodayLogComplete: bool, today: int, hasPermission: bool, nowMs: int)
      returns (count: nat)
      requires 0 <= nowMs < MsPerDay && settings.interval >= 1
      modifies this
      ensures scheduled == Untagged(old(scheduled)) + Plan(settings, isTodayLogComplete, today, hasPermission, nowMs)
      ensures count == |Plan(settings, isTodayLogComplete, today, hasPermission, nowMs)|
      ensures count == ScheduledReminderCount()
      ensures badge == 0
    {
      CancelAllReminders();
      ghost var kept := scheduled;
      UntaggedKeepsOthers(old(scheduled));
      if !settings.enabled || isTodayLogComplete {
        assert scheduled == kept + [];
        return 0;
      }
      if IsWeekend(today) {
        assert scheduled == kept + [];
        return 0;
      }
      if !hasPermission {
        assert scheduled == kept + [];
        return 0;
      }
      var startMs := WindowInstant(ParseTime(settings.startTime));
      var endMs := WindowInstant(ParseTime(settings.endTime));
      if endMs.Some? && nowMs >= endMs.value {
        assert scheduled == kept + [];
        return 0;
      }
      if startMs.None? || endMs.None? {
        // An invalid Date compares false with everything, so the loop never runs.
        assert scheduled == kept + [];
        return 0;
      }
      var first := FirstInstant(nowMs, startMs.value, settings.interval);
      count := QueueReminders(first, endMs.value, nowMs, settings.interval * MsPerMinute);
      PlanIdentifiers(first, endMs.value, nowMs, settings.interval * MsPerMinute);
      ReminderCountMatches(kept, PlanEntries(first, endMs.value, nowMs, settings.interval * MsPerMinute));
    }

    /** The scheduling loop (notifications.ts:130-159): from the first instant, one reminder per
        interval while before the end of the window and fewer than 50 are queued. */
    method QueueReminders(first: int, endMs: int, nowMs: int, stepMs: int) returns (count: nat)
      requires stepMs >= 1
      modifies this
      ensures scheduled == old(scheduled) + PlanEntries(first, endMs, nowMs, stepMs)
      ensures count == |PlanEntries(first, endMs, nowMs, stepMs)|
      ensures badge == old(badge)
    {
      ghost var plan := PlanEntries(first, endMs, nowMs, stepMs);
      var next := first;
      count := 0;
      while next < endMs && count < MaxNotifications
        invariant count <= |plan|
        invariant next == InstantAt(first, stepMs, count)
        invariant scheduled == old(scheduled) + plan[..count]
        invariant badge == old(badge)
        decreases |plan| - count
      {
        LoopGuard(first, endMs, stepMs, count);
        var secondsUntil := DelaySeconds(next, nowMs);
        if secondsUntil > 0 {
          assert plan[..count + 1] == plan[..count] + [Notification(ReminderId(count), secondsUntil)];
          scheduled := scheduled + [Notification(ReminderId(count), secondsUntil)];
          InstantsSpacedByInterval(first, stepMs, count);
          count := count + 1;
        }
        next := next + stepMs;
      }
      LoopGuard(first, endMs, stepMs, count);
      assert plan[..count] == plan;
    }
  }

  /** After queueing a plan behind untagged notifications, the tagged count is the plan's length. */
  lemma ReminderCountMatches(kept: seq<Notification>, plan: seq<Notification>)
    requires CountTagged(kept) == 0
    requires forall k :: 0 <= k < |plan| ==> IsTagged(plan[k].id)
    ensures CountTagged(kept + plan) == |plan|
  {
    AllTaggedCount(plan);
    CountTaggedAppend(kept, plan);
  }
}
