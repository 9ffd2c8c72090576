/**
 * The records of types/index.ts and the settings records the app keeps.
 * Dates are day numbers (see Calendar); a log's `date` is its day number.
 */
module Types {
  import opened Wrappers

  datatype Rule = Rule(id: string, text: string, createdAt: string)

  /** `'green' | 'red' | 'grey' | 'none'`. */
  datatype DayStatus = Green | Red | Grey | NoStatus

  /** A day's record. The optional fields are absent (`undefined`) when None. */
  datatype DayLog = DayLog(
    date: int,
    status: DayStatus,
    ruleResults: Option<map<string, bool>>,
    noTradeDay: Option<bool>,
    lockedAt: Option<string>)

  datatype AppData = AppData(rules: seq<Rule>, logs: map<int, DayLog>)

  datatype Theme = Light | Dark

  datatype WidgetSettings = WidgetSettings(theme: Theme, accentColor: string, showCompletionIndicator: bool)

  /** The settings shown when nothing is stored: dark theme, green accent, indicator on. */
  const DefaultWidgetSettings := WidgetSettings(Dark, "#22c55e", true)

  /** Reminder settings: on/off, the `HH:mm` window and the interval in minutes. */
  datatype NotificationSettings = NotificationSettings(enabled: bool, startTime: string, interval: int, endTime: string)

  /** The in-memory reminder settings before anything is loaded: off, 16:00 to 23:00 every 15 minutes. */
  const DefaultNotificationSettings := NotificationSettings(false, "16:00", 15, "23:00")

  /** The status stored for day d, if any. */
  function StoredStatus(logs: map<int, DayLog>, d: int): (s: Option<DayStatus>)
    ensures s.Some? <==> d in logs
    ensures s.Some? ==> s.value == logs[d].status
  {
    if d in logs then Some(logs[d].status) else None
  }

  /** The rule ids, in list order. */
  function Ids(rules: seq<Rule>): (ids: seq<string>)
    ensures |ids| == |rules|
    ensures forall i :: 0 <= i < |rules| ==> ids[i] == rules[i].id
  {
    seq(|rules|, i requires 0 <= i < |rules| => rules[i].id)
  }

  predicate HasId(rules: seq<Rule>, id: string)
  {
    exists i :: 0 <= i < |rules| && rules[i].id == id
  }

  /** No two rules share an id. */
  predicate DistinctIds(rules: seq<Rule>)
  {
    forall i, j :: 0 <= i < j < |rules| ==> rules[i].id != rules[j].id
  }
}
