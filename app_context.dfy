/**
 * context/AppContext.tsx: the app's in-memory state (rules, logs, settings),
 * kept beside the persisted store, the day-status rule, the day submissions
 * and the settings updates.
 *
 * The class AppProvider holds the React state; `store` is utils/storage.ts and
 * `center` the device's notification queue. The ET calendar day (`today`) and
 * the time of day (`nowMs`) are inputs. `rulesShareDefaults` records that the
 * `rules` array React holds is the very array DEFAULT_APP_DATA.rules, which
 * refreshData hands over when nothing is stored.
 */
module AppContext {
  import opened Wrappers
  import opened Types
  import opened Calendar
  import Storage
  import Reminders

  // ---------------------------------------------------------------------------
  // Day status (AppContext.tsx:113-134)

  /** getDayStatus: weekends show nothing; a weekday shows its log, else grey when past. */
  function DayStatusOf(logs: map<int, DayLog>, date: int, today: int): (s: DayStatus)
    ensures IsWeekend(date) ==> s == NoStatus
    ensures !IsWeekend(date) && date in logs ==> s == logs[date].status
    ensures s == Grey <==> (!IsWeekend(date) && date !in logs && IsPastDay(date, today)) || (!IsWeekend(date) && date in logs && logs[date].status == Grey)
    ensures !IsWeekend(date) && date !in logs && !IsPastDay(date, today) ==> s == NoStatus
  {
    if IsWeekend(date) then NoStatus
    else if date in logs then logs[date].status
    else if IsPastDay(date, today) then Grey
    else if date == today then NoStatus
    else NoStatus
  }

  /** A weekday's status is the logged one exactly when a log exists; an unlogged weekday is
      grey before today and blank from today on, so the status never depends on logs of other days. */
  lemma DayStatusReadsOneDay(logs: map<int, DayLog>, other: map<int, DayLog>, date: int, today: int)
    requires date in logs <==> date in other
    requires date in logs ==> logs[date].status == other[date].status
    ensures DayStatusOf(logs, date, today) == DayStatusOf(other, date, today)
  {
  }

  // ---------------------------------------------------------------------------
  // The logs a submission writes (AppContext.tsx:81-91, 98-106)

  /** `Object.values(ruleResults).every(v => v)`: true for an empty map. */
  predicate AllTrue(results: map<string, bool>)
  {
    forall k :: k in results ==> results[k]
  }

  /** The log submitDayLog stores for today. */
  function SubmittedLog(today: int, results: map<string, bool>): (log: DayLog)
    ensures log.date == today
    ensures log.status == Green <==> AllTrue(results)
    ensures log.status == Green || log.status == Red
    ensures log.ruleResults == Some(results) && log.noTradeDay == Some(false) && log.lockedAt == None
  {
    DayLog(today, if AllTrue(results) then Green else Red, Some(results), Some(false), None)
  }

  /** The log markNoTradeDay stores for today: green, no rule results. */
  function NoTradeLog(today: int): (log: DayLog)
    ensures log.date == today && log.status == Green
    ensures log.ruleResults == None && log.noTradeDay == Some(true) && log.lockedAt == None
  {
    DayLog(today, Green, None, Some(true), None)
  }

  /** With no rule results the day is green. */
  lemma EmptyResultsAreGreen(today: int)
    ensures SubmittedLog(today, map[]).status == Green
  {
  }

  /** One broken rule makes the day red, whatever the others say. */
  lemma OneBrokenRuleIsRed(today: int, results: map<string, bool>, id: string)
    requires id in results && !results[id]
    ensures SubmittedLog(today, results).status == Red
  {
  }

  // ---------------------------------------------------------------------------
  // In-memory rule updates (AppContext.tsx:73, 78)

  /** `prev.map(r => r.id === id ? { ...r, text } : r)`: every rule with the id gets the text. */
  function UpdateAll(rules: seq<Rule>, id: string, text: string): (r: seq<Rule>)
    ensures |r| == |rules|
    ensures forall i :: 0 <= i < |rules| && rules[i].id == id ==> r[i] == Rule(id, text, rules[i].createdAt)
    ensures forall i :: 0 <= i < |rules| && rules[i].id != id ==> r[i] == rules[i]
  {
    seq(|rules|, i requires 0 <= i < |rules| => if rules[i].id == id then rules[i].(text := text) else rules[i])
  }

  /** With distinct ids, changing every match in memory is changing the first match in storage;
      with no match, both leave the list as it was. */
  lemma UpdateAllMatchesStorage(rules: seq<Rule>, id: string, text: string)
    requires DistinctIds(rules)
    ensures UpdateAll(rules, id, text) == Storage.UpdateFirst(rules, id, text)
  {
    Storage.UpdateFirstChangesOneText(rules, id, text);
    var a := UpdateAll(rules, id, text);
    var b := Storage.UpdateFirst(rules, id, text);
    if HasId(rules, id) {
      var k := Storage.FindRule(rules, id).value;
      forall i | 0 <= i < |rules|
        ensures a[i] == b[i]
      {
      }
    }
  }

  // ---------------------------------------------------------------------------
  // Settings merges (AppContext.tsx:136-153)

  /** A `Partial<WidgetSettings>`: None is a field left out. */
  datatype WidgetPatch = WidgetPatch(theme: Option<Theme>, accentColor: Option<string>, showCompletionIndicator: Option<bool>)

  /** A `Partial<NotificationSettings>`. */
  datatype NotificationPatch = NotificationPatch(enabled: Option<bool>, startTime: Option<string>, interval: Option<int>, endTime: Option<string>)

  function Pick<T>(given: Option<T>, current: T): T
  {
    if given.Some? then given.value else current
  }

  /** `{ ...current, ...patch }` on widget settings: given fields win, the others stay. */
  function MergeWidget(current: WidgetSettings, patch: WidgetPatch): (s: WidgetSettings)
    ensures patch.theme.None? ==> s.theme == current.theme
    ensures patch.theme.Some? ==> s.theme == patch.theme.value
    ensures patch.accentColor.None? ==> s.accentColor == current.accentColor
    ensures patch.accentColor.Some? ==> s.accentColor == patch.accentColor.value
    ensures patch.showCompletionIndicator.None? ==> s.showCompletionIndicator == current.showCompletionIndicator
    ensures patch.showCompletionIndicator.Some? ==> s.showCompletionIndicator == patch.showCompletionIndicator.value
  {
    WidgetSettings(Pick(patch.theme, current.theme), Pick(patch.accentColor, current.accentColor),
      Pick(patch.showCompletionIndicator, current.showCompletionIndicator))
  }

  /** `{ ...current, ...patch }` on reminder settings. */
  function MergeNotification(current: NotificationSettings, patch: NotificationPatch): (s: NotificationSettings)
    ensures patch.enabled.None? ==> s.enabled == current.enabled
    ensures patch.enabled.Some? ==> s.enabled == patch.enabled.value
    ensures patch.startTime.None? ==> s.startTime == current.startTime
    ensures patch.startTime.Some? ==> s.startTime == patch.startTime.value
    ensures patch.interval.None? ==> s.interval == current.interval
    ensures patch.interval.Some? ==> s.interval == patch.interval.value
    ensures patch.endTime.None? ==> s.endTime == current.endTime
    ensures patch.endTime.Some? ==> s.endTime == patch.endTime.value
  {
    NotificationSettings(Pick(patch.enabled, current.enabled), Pick(patch.startTime, current.startTime),
      Pick(patch.interval, current.interval), Pick(patch.endTime, current.endTime))
  }

  /** The patch `b` spread after the patch `a`. */
  function ThenWidget(a: WidgetPatch, b: WidgetPatch): WidgetPatch
  {
    WidgetPatch(if b.theme.Some? then b.theme else a.theme,
      if b.accentColor.Some? then b.accentColor else a.accentColor,
      if b.showCompletionIndicator.Some? then b.showCompletionIndicator else a.showCompletionIndicator)
  }

  /** An empty patch changes nothing, a patch applied twice is applied once, and two updates in a
      row are one update with the later fields winning. */
  lemma WidgetMergeLaws(s: WidgetSettings, a: WidgetPatch, b: WidgetPatch)
    ensures MergeWidget(s, WidgetPatch(None, None, None)) == s
    ensures MergeWidget(MergeWidget(s, a), a) == MergeWidget(s, a)
    ensures MergeWidget(MergeWidget(s, a), b) == MergeWidget(s, ThenWidget(a, b))
  {
  }

  /** The same laws for reminder settings. */
  lemma NotificationMergeLaws(s: NotificationSettings, a: NotificationPatch)
    ensures MergeNotification(s, NotificationPatch(None, None, None, None)) == s
    ensures MergeNotification(MergeNotification(s, a), a) == MergeNotification(s, a)
    ensures a.enabled.Some? && a.startTime.Some? && a.interval.Some? && a.endTime.Some? ==>
      MergeNotification(s, a) == NotificationSettings(a.enabled.value, a.startTime.value, a.interval.value, a.endTime.value)
  {
  }

  // ---------------------------------------------------------------------------
  // The provider

  class AppProvider {
    var rules: seq<Rule>
    var logs: map<int, DayLog>
    var widgetSettings: WidgetSettings
    var notificationSettings: NotificationSettings
    var isLoading: bool
    /** `rules` is the array object DEFAULT_APP_DATA.rules. */
    var rulesShareDefaults: bool
    const store: Storage.Store
    const center: Reminders.NotificationCenter

    /** The initial React state (AppContext.tsx:30-43), before the first refresh. */
    constructor(store: Storage.Store, center: Reminders.NotificationCenter)
      ensures this.store == store && this.center == center
      ensures rules == [] && logs == map[] && isLoading && !rulesShareDefaults
      ensures widgetSettings == DefaultWidgetSettings && notificationSettings == DefaultNotificationSettings
    {
      this.store := store;
      this.center := center;
      rules := [];
      logs := map[];
      widgetSettings := DefaultWidgetSettings;
      notificationSettings := DefaultNotificationSettings;
      isLoading := true;
      rulesShareDefaults := false;
    }

    /** The store keeps distinct ids in its default object, and a shared array is the default one. */
    predicate Valid()
      reads this, store
    {
      store.Valid() && (rulesShareDefaults ==> rules == store.defaults.rules)
    }

    /** The in-memory rules and logs are what the store loads. */
    predicate InSync()
      reads this, store
    {
      rules == store.Loaded().rules && logs == store.Loaded().logs
    }

    /** todayLog (AppContext.tsx:155-156). */
    function TodayLog(today: int): (log: Option<DayLog>)
      reads this
      ensures log.Some? <==> today in logs
      ensures log.Some? ==> log.value == logs[today]
    {
      if today in logs then Some(logs[today]) else None
    }

    /** canEditToday (AppContext.tsx:157): no log exists under today's key. */
    predicate CanEditToday(today: int)
      reads this
      ensures CanEditToday(today) <==> today !in logs
    {
      TodayLog(today).None?
    }

    /** refreshData (AppContext.tsx:45-60): the state takes what the store loads. */
    method Refresh()
      requires store.Valid()
      modifies this
      ensures Valid() && InSync()
      ensures rulesShareDefaults <==> store.saved.None?
      ensures widgetSettings == (if store.widgetSaved.Some? then store.widgetSaved.value else DefaultWidgetSettings)
      ensures notificationSettings == (if store.notificationSaved.Some? then store.notificationSaved.value else DefaultNotificationSettings)
      ensures !isLoading
    {
      isLoading := true;
      var data, isDefault := store.GetAppData();
      rules := data.rules;
      logs := data.logs;
      rulesShareDefaults := isDefault;
      widgetSettings := store.GetWidgetSettings();
      notificationSettings := store.GetNotificationSettings(DefaultNotificationSettings);
      isLoading := false;
    }

    /** addRule as written (AppContext.tsx:66-69): when `rules` is the default array and nothing
        is stored yet, storage.addRule has already pushed the rule into that array, and
        `[...prev, newRule]` appends it a second time. */
    method AddRuleAsWritten(id: string, text: string, createdAt: string) returns (rule: Rule)
      requires Valid() && !HasId(store.Loaded().rules, id)
      modifies this, store
      ensures Valid()
      ensures rule == Rule(id, text, createdAt)
      ensures old(rulesShareDefaults && store.saved.None?) ==> rules == old(rules) + [rule, rule]
      ensures !old(rulesShareDefaults && store.saved.None?) ==> rules == old(rules) + [rule]
      ensures logs == old(logs)
      ensures widgetSettings == old(widgetSettings) && notificationSettings == old(notificationSettings)
      ensures store.widgetSaved == old(store.widgetSaved) && store.notificationSaved == old(store.notificationSaved)
      ensures store.Loaded() == AppData(old(store.Loaded()).rules + [rule], old(store.Loaded()).logs)
    {
      rule := store.AddRule(id, text, createdAt);
      var prev := if rulesShareDefaults then store.defaults.rules else rules;
      rules := prev + [rule];
      rulesShareDefaults := false;
    }

    /** addRule with the rule appended once: the in-memory list stays the loaded one and keeps
        its ids distinct. */
    method AddRule(id: string, text: string, createdAt: string) returns (rule: Rule)
      requires Valid() && !HasId(store.Loaded().rules, id)
      modifies this, store
      ensures Valid()
      ensures rule == Rule(id, text, createdAt)
      ensures rules == old(rules) + [rule]
      ensures logs == old(logs)
      ensures widgetSettings == old(widgetSettings) && notificationSettings == old(notificationSettings)
      ensures store.widgetSaved == old(store.widgetSaved) && store.notificationSaved == old(store.notificationSaved)
      ensures store.Loaded() == AppData(old(store.Loaded()).rules + [rule], old(store.Loaded()).logs)
      ensures old(InSync()) ==> InSync() && DistinctIds(rules)
    {
      rule := store.AddRule(id, text, createdAt);
      rules := rules + [rule];
      rulesShareDefaults := false;
    }

    /** updateRule (AppContext.tsx:71-74). */
    method UpdateRule(id: string, text: string)
      requires Valid()
      modifies this, store
      ensures Valid()
      ensures rules == UpdateAll(old(rules), id, text)
      ensures logs == old(logs)
      ensures widgetSettings == old(widgetSettings) && notificationSettings == old(notificationSettings)
      ensures store.widgetSaved == old(store.widgetSaved) && store.notificationSaved == old(store.notificationSaved)
      ensures store.Loaded() == AppData(Storage.UpdateFirst(old(store.Loaded()).rules, id, text), old(store.Loaded()).logs)
      ensures old(InSync()) ==> InSync()
    {
      ghost var before := store.Loaded();
      ghost var wasInSync := InSync();
      store.UpdateRule(id, text);
      if !HasId(before.rules, id) {
        Storage.UpdateFirstChangesOneText(before.rules, id, text);
        assert store.Loaded() == before;
      }
      if wasInSync {
        UpdateAllMatchesStorage(before.rules, id, text);
      }
      rules := UpdateAll(rules, id, text);
      rulesShareDefaults := false;
    }

    /** deleteRule (AppContext.tsx:76-79). */
    method DeleteRule(id: string)
      requires Valid()
      modifies this, store
      ensures Valid()
      ensures rules == Storage.RemoveId(old(rules), id)
      ensures logs == old(logs)
      ensures widgetSettings == old(widgetSettings) && notificationSettings == old(notificationSettings)
      ensures store.widgetSaved == old(store.widgetSaved) && store.notificationSaved == old(store.notificationSaved)
      ensures store.Loaded() == AppData(Storage.RemoveId(old(store.Loaded()).rules, id), old(store.Loaded()).logs)
      ensures old(InSync()) ==> InSync()
    {
      store.DeleteRule(id);
      rules := Storage.RemoveId(rules, id);
      rulesShareDefaults := false;
    }

    /** submitDayLog (AppContext.tsx:81-96): today's log is stored and kept in memory, and the
        tagged reminders are cancelled. A log already there is overwritten. */
    method SubmitDayLog(today: int, ruleResults: map<string, bool>)
      requires Valid()
      modifies this, store, center
      ensures Valid()
      ensures logs == old(logs)[today := SubmittedLog(today, ruleResults)]
      ensures rules == old(rules)
      ensures widgetSettings == old(widgetSettings) && notificationSettings == old(notificationSettings)
      ensures store.widgetSaved == old(store.widgetSaved) && store.notificationSaved == old(store.notificationSaved)
      ensures !CanEditToday(today)
      ensures logs[today].status == Green <==> AllTrue(ruleResults)
      ensures store.Loaded() == AppData(old(store.Loaded()).rules, old(store.Loaded()).logs[today := SubmittedLog(today, ruleResults)])
      ensures center.scheduled == Reminders.Untagged(old(center.scheduled))
      ensures old(InSync()) ==> InSync()
    {
      var log := SubmittedLog(today, ruleResults);
      store.SaveDayLog(log);
      logs := logs[today := log];
      center.CancelAllReminders();
    }

    /** markNoTradeDay (AppContext.tsx:98-111). */
    method MarkNoTradeDay(today: int)
      requires Valid()
      modifies this, store, center
      ensures Valid()
      ensures logs == old(logs)[today := NoTradeLog(today)]
      ensures rules == old(rules)
      ensures widgetSettings == old(widgetSettings) && notificationSettings == old(notificationSettings)
      ensures store.widgetSaved == old(store.widgetSaved) && store.notificationSaved == old(store.notificationSaved)
      ensures !CanEditToday(today) && logs[today].status == Green
      ensures store.Loaded() == AppData(old(store.Loaded()).rules, old(store.Loaded()).logs[today := NoTradeLog(today)])
      ensures center.scheduled == Reminders.Untagged(old(center.scheduled))
      ensures old(InSync()) ==> InSync()
    {
      var log := NoTradeLog(today);
      store.SaveDayLog(log);
      logs := logs[today := log];
      center.CancelAllReminders();
    }

    /** updateWidgetSettings (AppContext.tsx:136-142). */
    method UpdateWidgetSettings(patch: WidgetPatch)
      modifies this, store
      ensures widgetSettings == MergeWidget(old(widgetSettings), patch)
      ensures store.widgetSaved == Some(widgetSettings)
      ensures rules == old(rules) && logs == old(logs) && notificationSettings == old(notificationSettings)
      ensures store.saved == old(store.saved) && store.defaults == old(store.defaults)
      ensures store.notificationSaved == old(store.notificationSaved)
    {
      var merged := MergeWidget(widgetSettings, patch);
      store.SaveWidgetSettings(merged);
      widgetSettings := merged;
    }

    /** updateNotificationSettings (AppContext.tsx:144-153): merge, save, and reschedule with
        "today is complete" meaning "a log exists for today". */
    method UpdateNotificationSettings(patch: NotificationPatch, today: int, hasPermission: bool, nowMs: int)
      requires 0 <= nowMs < Reminders.MsPerDay
      requires MergeNotification(notificationSettings, patch).interval >= 1
      modifies this, store, center
      ensures notificationSettings == MergeNotification(old(notificationSettings), patch)
      ensures store.notificationSaved == Some(notificationSettings)
      ensures center.scheduled == Reminders.Untagged(old(center.scheduled))
        + Reminders.Plan(notificationSettings, today in old(logs), today, hasPermission, nowMs)
      ensures rules == old(rules) && logs == old(logs) && widgetSettings == old(widgetSettings)
      ensures store.saved == old(store.saved) && store.defaults == old(store.defaults)
      ensures store.widgetSaved == old(store.widgetSaved)
    {
      var merged := MergeNotification(notificationSettings, patch);
      store.SaveNotificationSettings(merged);
      notificationSettings := merged;
      var isTodayComplete := today in logs;
      var count := center.ScheduleReminders(merged, isTodayComplete, today, hasPermission, nowMs);
    }
  }

  /** A fresh install, a refresh, then the first rule: the screen lists the rule twice while
      storage holds it once. With the corrected addRule the screen lists it once. */
  method FreshInstallFirstRule() returns (asWritten: seq<Rule>, corrected: seq<Rule>, stored: seq<Rule>)
    ensures asWritten == [Rule("r1", "Wait for the setup", "t0"), Rule("r1", "Wait for the setup", "t0")]
    ensures corrected == [Rule("r1", "Wait for the setup", "t0")]
    ensures stored == corrected
  {
    var store := new Storage.Store();
    var center := new Reminders.NotificationCenter();
    var app := new AppProvider(store, center);
    app.Refresh();
    var rule := app.AddRuleAsWritten("r1", "Wait for the setup", "t0");
    asWritten := app.rules;
    stored := store.Loaded().rules;

    var store2 := new Storage.Store();
    var app2 := new AppProvider(store2, center);
    app2.Refresh();
    var rule2 := app2.AddRule("r1", "Wait for the setup", "t0");
    corrected := app2.rules;
  }
}
