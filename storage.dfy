/**
 * utils/storage.ts: the persisted app data (rules and day logs) and the widget
 * settings.
 *
 * The class Store holds what AsyncStorage holds, plus the object
 * DEFAULT_APP_DATA: getAppData hands out that very object when nothing is
 * stored, so an operation that then changes "the data" changes the default
 * object too. Every write is read-modify-write over getAppData's result.
 */
module Storage {
  import opened Wrappers
  import opened Types

  // ---------------------------------------------------------------------------
  // Rule lists

  /** Keeps the first rule of each id and drops later ones, in order (storage.ts:44-54). */
  function Dedupe(rules: seq<Rule>): seq<Rule>
  {
    if |rules| == 0 then []
    else
      var init := rules[..|rules| - 1];
      var last := rules[|rules| - 1];
      if HasId(init, last.id) then Dedupe(init) else Dedupe(init) + [last]
  }

  /** Index of the first rule with the id (`Array.prototype.find`). */
  function FindRule(rules: seq<Rule>, id: string): (r: Option<nat>)
    ensures r.None? <==> !HasId(rules, id)
    ensures r.Some? ==> r.value < |rules| && rules[r.value].id == id && !HasId(rules[..r.value], id)
  {
    if |rules| == 0 then None
    else if rules[0].id == id then Some(0)
    else
      var r := FindRule(rules[1..], id);
      if r.None? then
        None
      else
        Some(r.value + 1)
  }

  /** The list after `rule.text = text` on the rule `find` returned, if any (storage.ts:104-106). */
  function UpdateFirst(rules: seq<Rule>, id: string, text: string): seq<Rule>
  {
    match FindRule(rules, id)
    case None => rules
    case Some(i) => rules[i := rules[i].(text := text)]
  }

  /** `rules.filter(r => r.id !== id)` (storage.ts:113). */
  function RemoveId(rules: seq<Rule>, id: string): (r: seq<Rule>)
    ensures |r| <= |rules|
  {
    if |rules| == 0 then []
    else
      var init := RemoveId(rules[..|rules| - 1], id);
      var last := rules[|rules| - 1];
      if last.id == id then init else init + [last]
  }

  // ---------------------------------------------------------------------------
  // Properties of the rule-list operations

  lemma HasIdAppend(rules: seq<Rule>, r: Rule, id: string)
    ensures HasId(rules + [r], id) <==> HasId(rules, id) || r.id == id
  {
    if HasId(rules, id) {
      var i :| 0 <= i < |rules| && rules[i].id == id;
      assert (rules + [r])[i].id == id;
    }
    if r.id == id {
      assert (rules + [r])[|rules|].id == id;
    }
    if HasId(rules + [r], id) && r.id != id {
      var i :| 0 <= i < |rules| + 1 && (rules + [r])[i].id == id;
      assert rules[i].id == id;
    }
  }

  /** Dedupe keeps every id, loses no id, and leaves the ids pairwise distinct. */
  lemma {:induction false} DedupeIds(rules: seq<Rule>)
    ensures DistinctIds(Dedupe(rules))
    ensures forall id :: HasId(Dedupe(rules), id) <==> HasId(rules, id)
    ensures forall r :: r in Dedupe(rules) ==> r in rules
  {
    if |rules| > 0 {
      var init := rules[..|rules| - 1];
      var last := rules[|rules| - 1];
      DedupeIds(init);
      assert rules == init + [last];
      forall id
        ensures HasId(Dedupe(rules), id) <==> HasId(rules, id)
      {
        HasIdAppend(init, last, id);
        HasIdAppend(Dedupe(init), last, id);
      }
    }
  }

  /** A list whose ids are already distinct comes back unchanged. */
  lemma {:induction false} DedupeOfDistinct(rules: seq<Rule>)
    requires DistinctIds(rules)
    ensures Dedupe(rules) == rules
  {
    if |rules| > 0 {
      var init := rules[..|rules| - 1];
      var last := rules[|rules| - 1];
      DedupeOfDistinct(init);
      if HasId(init, last.id) {
        assert false;
      }
      assert rules == init + [last];
    }
  }

  /** Each rule Dedupe keeps is the first rule of its id in the input, and the kept rules
      appear in the order of those first occurrences. */
  lemma {:induction false} DedupeKeepsFirstOccurrences(rules: seq<Rule>)
    ensures var d := Dedupe(rules);
      && (forall k :: 0 <= k < |d| ==> d[k] in rules && FindRule(rules, d[k].id) == Some(IndexOf(rules, d[k])))
      && (forall j, k :: 0 <= j < k < |d| ==> d[j] in rules && d[k] in rules && IndexOf(rules, d[j]) < IndexOf(rules, d[k]))
  {
    if |rules| > 0 {
      var init := rules[..|rules| - 1];
      var last := rules[|rules| - 1];
      DedupeKeepsFirstOccurrences(init);
      DedupeIds(init);
      assert rules == init + [last];
      var d := Dedupe(rules);
      forall k | 0 <= k < |Dedupe(init)|
        ensures FindRule(rules, Dedupe(init)[k].id) == Some(IndexOf(rules, Dedupe(init)[k]))
        ensures IndexOf(rules, Dedupe(init)[k]) == IndexOf(init, Dedupe(init)[k])
      {
        var x := Dedupe(init)[k];
        FindRuleAppend(init, last, x.id);
        IndexOfAppend(init, last, x);
      }
      if !HasId(init, last.id) {
        FindRuleAppend(init, last, last.id);
        IndexOfLast(init, last);
        forall k | 0 <= k < |Dedupe(init)|
          ensures IndexOf(rules, Dedupe(init)[k]) < |init|
        {
          assert Dedupe(init)[k] in init;
        }
      }
    }
  }

  /** Position of the first element equal to x (x must occur). */
  function IndexOf(rules: seq<Rule>, x: Rule): (i: nat)
    requires x in rules
    ensures i < |rules| && rules[i] == x && x !in rules[..i]
  {
    if rules[0] == x then 0 else IndexOf(rules[1..], x) + 1
  }

  lemma {:induction false} FindRuleAppend(rules: seq<Rule>, r: Rule, id: string)
    ensures HasId(rules, id) ==> FindRule(rules + [r], id) == FindRule(rules, id)
    ensures !HasId(rules, id) && r.id == id ==> FindRule(rules + [r], id) == Some(|rules|)
  {
    if |rules| > 0 {
      assert (rules + [r])[1..] == rules[1..] + [r];
      FindRuleAppend(rules[1..], r, id);
    }
  }

  lemma {:induction false} IndexOfAppend(rules: seq<Rule>, r: Rule, x: Rule)
    requires x in rules
    ensures IndexOf(rules + [r], x) == IndexOf(rules, x)
  {
    if rules[0] != x {
      assert (rules + [r])[1..] == rules[1..] + [r];
      IndexOfAppend(rules[1..], r, x);
    }
  }

  lemma {:induction false} IndexOfLast(rules: seq<Rule>, r: Rule)
    requires r !in rules
    ensures IndexOf(rules + [r], r) == |rules|
  {
    if |rules| > 0 {
      assert (rules + [r])[1..] == rules[1..] + [r];
      IndexOfLast(rules[1..], r);
    }
  }

  /** Only the first rule with the id changes, and only its text; nothing changes if no rule
      has the id. */
  lemma UpdateFirstChangesOneText(rules: seq<Rule>, id: string, text: string)
    ensures |UpdateFirst(rules, id, text)| == |rules|
    ensures !HasId(rules, id) ==> UpdateFirst(rules, id, text) == rules
    ensures HasId(rules, id) ==>
      var i := FindRule(rules, id).value;
      && UpdateFirst(rules, id, text)[i] == Rule(rules[i].id, text, rules[i].createdAt)
      && (forall j :: 0 <= j < |rules| && j != i ==> UpdateFirst(rules, id, text)[j] == rules[j])
    ensures Ids(UpdateFirst(rules, id, text)) == Ids(rules)
  {
  }

  /** A removed id is gone, every other rule stays, in order; removing twice is removing once. */
  lemma {:induction false} RemoveIdFilters(rules: seq<Rule>, id: string)
    ensures forall r :: r in RemoveId(rules, id) <==> r in rules && r.id != id
    ensures !HasId(RemoveId(rules, id), id)
    ensures RemoveId(RemoveId(rules, id), id) == RemoveId(rules, id)
    ensures !HasId(rules, id) ==> RemoveId(rules, id) == rules
  {
    if |rules| > 0 {
      var init := rules[..|rules| - 1];
      var last := rules[|rules| - 1];
      RemoveIdFilters(init, id);
      assert rules == init + [last];
      var r := RemoveId(init, id);
      if last.id != id {
        assert (r + [last])[..|r + [last]| - 1] == r;
        HasIdAppend(r, last, id);
      }
      HasIdAppend(init, last, id);
    }
  }

  /** Removing keeps the remaining ids distinct. */
  lemma {:induction false} RemoveIdKeepsDistinct(rules: seq<Rule>, id: string)
    requires DistinctIds(rules)
    ensures DistinctIds(RemoveId(rules, id))
  {
    if |rules| > 0 {
      var init := rules[..|rules| - 1];
      var last := rules[|rules| - 1];
      assert DistinctIds(init) by {
        forall i, j | 0 <= i < j < |init|
          ensures init[i].id != init[j].id
        {
          assert init[i] == rules[i] && init[j] == rules[j];
        }
      }
      RemoveIdKeepsDistinct(init, id);
      RemoveIdFilters(init, id);
      if last.id != id {
        var r := RemoveId(init, id);
        forall i | 0 <= i < |r|
          ensures r[i].id != last.id
        {
          assert r[i] in init;
          var j :| 0 <= j < |init| && init[j] == r[i];
          assert rules[j].id != rules[|rules| - 1].id;
        }
        DistinctAppend(r, last);
      }
    }
  }

  /** A rule whose id none of a distinct list has can be appended to it. */
  lemma DistinctAppend(rules: seq<Rule>, last: Rule)
    requires DistinctIds(rules)
    requires forall i :: 0 <= i < |rules| ==> rules[i].id != last.id
    ensures DistinctIds(rules + [last])
  {
    var t := rules + [last];
    forall i, j | 0 <= i < j < |t|
      ensures t[i].id != t[j].id
    {
      assert t[i] == rules[i];
      if j < |rules| {
        assert t[j] == rules[j];
      }
    }
  }

  // ---------------------------------------------------------------------------
  // The store

  class Store {
    /** The APP_DATA entry as stored, or None when absent or unparsable. */
    var saved: Option<AppData>
    /** The object DEFAULT_APP_DATA, which getAppData returns by reference. */
    var defaults: AppData
    /** The WIDGET_SETTINGS entry, or None when absent or unparsable. */
    var widgetSaved: Option<WidgetSettings>
    /** Reminder settings as last saved, or None. */
    var notificationSaved: Option<NotificationSettings>

    /** A fresh install: nothing stored, the default object untouched. */
    constructor()
      ensures saved == None && widgetSaved == None && notificationSaved == None
      ensures defaults == AppData([], map[])
    {
      saved := None;
      defaults := AppData([], map[]);
      widgetSaved := None;
      notificationSaved := None;
    }

    /** The default object only ever receives rules with fresh ids. */
    predicate Valid()
      reads this
    {
      DistinctIds(defaults.rules)
    }

    /** What getAppData returns: the stored data with duplicate rule ids dropped, or else the
        default object. */
    function Loaded(): (data: AppData)
      reads this
      ensures Valid() ==> DistinctIds(data.rules)
      ensures saved.None? ==> data == defaults
    {
      if saved.Some? then
        DedupeIds(saved.value.rules);
        AppData(Dedupe(saved.value.rules), saved.value.logs)
      else defaults
    }

    /** The filter with a `seen` set of storage.ts:45-54. */
    static method DedupeRules(rules: seq<Rule>) returns (kept: seq<Rule>)
      ensures kept == Dedupe(rules)
    {
      var seen: set<string> := {};
      kept := [];
      for i := 0 to |rules|
        invariant kept == Dedupe(rules[..i])
        invariant forall id :: id in seen <==> HasId(rules[..i], id)
      {
        var rule := rules[i];
        assert rules[..i + 1] == rules[..i] + [rule];
        assert rules[..i + 1][..i] == rules[..i];
        forall id
          ensures HasId(rules[..i + 1], id) <==> HasId(rules[..i], id) || rule.id == id
        {
          HasIdAppend(rules[..i], rule, id);
        }
        if rule.id !in seen {
          seen := seen + {rule.id};
          kept := kept + [rule];
        }
      }
      assert rules[..|rules|] == rules;
    }

    /** getAppData (storage.ts:39-62). Nothing is written back. */
    method GetAppData() returns (data: AppData, isDefault: bool)
      ensures data == Loaded()
      ensures isDefault <==> saved.None?
    {
      if saved.Some? {
        var rules := DedupeRules(saved.value.rules);
        return AppData(rules, saved.value.logs), false;
      }
      return defaults, true;
    }

    /** saveAppData after changing the data getAppData returned: the entry is written, and when
        that data was the default object the change landed in the default object as well. */
    method Commit(data: AppData, wasDefault: bool)
      modifies this
      ensures saved == Some(data)
      ensures defaults == if wasDefault then data else old(defaults)
      ensures widgetSaved == old(widgetSaved) && notificationSaved == old(notificationSaved)
    {
      saved := Some(data);
      if wasDefault {
        defaults := data;
      }
    }

    /** addRule (storage.ts:90-100), with the generated id and timestamp as inputs. */
    method AddRule(id: string, text: string, createdAt: string) returns (rule: Rule)
      requires Valid() && !HasId(Loaded().rules, id)
      modifies this
      ensures Valid()
      ensures rule == Rule(id, text, createdAt)
      ensures Loaded() == AppData(old(Loaded()).rules + [rule], old(Loaded()).logs)
      ensures saved == Some(Loaded())
      ensures old(saved).None? ==> defaults == Loaded()
      ensures old(saved).Some? ==> defaults == old(defaults)
      ensures widgetSaved == old(widgetSaved) && notificationSaved == old(notificationSaved)
    {
      var data, isDefault := GetAppData();
      rule := Rule(id, text, createdAt);
      var newData := data.(rules := data.rules + [rule]);
      AppendFreshKeepsDistinct(data.rules, rule);
      DedupeOfDistinct(newData.rules);
      Commit(newData, isDefault);
    }

    /** updateRule (storage.ts:102-109): the first rule with the id gets the text, and the data
        is saved only if there was such a rule. */
    method UpdateRule(id: string, text: string)
      requires Valid()
      modifies this
      ensures Valid()
      ensures !HasId(old(Loaded()).rules, id) ==> saved == old(saved) && defaults == old(defaults)
      ensures HasId(old(Loaded()).rules, id) ==>
        && Loaded() == AppData(UpdateFirst(old(Loaded()).rules, id, text), old(Loaded()).logs)
        && saved == Some(Loaded())
        && defaults == (if old(saved).None? then Loaded() else old(defaults))
      ensures widgetSaved == old(widgetSaved) && notificationSaved == old(notificationSaved)
    {
      var data, isDefault := GetAppData();
      var found := FindRule(data.rules, id);
      if found.Some? {
        var i := found.value;
        var newData := data.(rules := data.rules[i := data.rules[i].(text := text)]);
        UpdateFirstChangesOneText(data.rules, id, text);
        SameIdsKeepDistinct(data.rules, newData.rules);
        DedupeOfDistinct(newData.rules);
        Commit(newData, isDefault);
      }
    }

    /** deleteRule (storage.ts:111-115): every rule with the id is dropped and the data saved. */
    method DeleteRule(id: string)
      requires Valid()
      modifies this
      ensures Valid()
      ensures Loaded() == AppData(RemoveId(old(Loaded()).rules, id), old(Loaded()).logs)
      ensures saved == Some(Loaded())
      ensures defaults == if old(saved).None? then Loaded() else old(defaults)
      ensures widgetSaved == old(widgetSaved) && notificationSaved == old(notificationSaved)
    {
      var data, isDefault := GetAppData();
      var newData := data.(rules := RemoveId(data.rules, id));
      RemoveIdKeepsDistinct(data.rules, id);
      DedupeOfDistinct(newData.rules);
      Commit(newData, isDefault);
    }

    /** getDayLog (storage.ts:117-120). */
    method GetDayLog(date: int) returns (log: Option<DayLog>)
      ensures log.Some? <==> date in Loaded().logs
      ensures log.Some? ==> log.value == Loaded().logs[date]
    {
      var data, isDefault := GetAppData();
      if date in data.logs {
        return Some(data.logs[date]);
      }
      return None;
    }

    /** saveDayLog (storage.ts:122-126): the log is stored under its date, replacing any log
        already there; the rules and the other dates are untouched. */
    method SaveDayLog(log: DayLog)
      requires Valid()
      modifies this
      ensures Valid()
      ensures Loaded() == AppData(old(Loaded()).rules, old(Loaded()).logs[log.date := log])
      ensures saved == Some(Loaded())
      ensures defaults == if old(saved).None? then Loaded() else old(defaults)
      ensures widgetSaved == old(widgetSaved) && notificationSaved == old(notificationSaved)
    {
      var data, isDefault := GetAppData();
      var newData := data.(logs := data.logs[log.date := log]);
      DedupeOfDistinct(newData.rules);
      Commit(newData, isDefault);
    }

    /** getWidgetSettings (storage.ts:133-144): the stored settings, or dark / #22c55e / on. */
    method GetWidgetSettings() returns (settings: WidgetSettings)
      ensures widgetSaved.Some? ==> settings == widgetSaved.value
      ensures widgetSaved.None? ==> settings == DefaultWidgetSettings
    {
      if widgetSaved.Some? {
        return widgetSaved.value;
      }
      return DefaultWidgetSettings;
    }

    /** saveWidgetSettings (storage.ts:146-155). */
    method SaveWidgetSettings(settings: WidgetSettings)
      modifies this
      ensures widgetSaved == Some(settings)
      ensures saved == old(saved) && defaults == old(defaults) && notificationSaved == old(notificationSaved)
    {
      widgetSaved := Some(settings);
    }

    /** Reads the saved reminder settings, or the given fallback when there are none. */
    method GetNotificationSettings(fallback: NotificationSettings) returns (settings: NotificationSettings)
      ensures settings == if notificationSaved.Some? then notificationSaved.value else fallback
    {
      settings := if notificationSaved.Some? then notificationSaved.value else fallback;
    }

    method SaveNotificationSettings(settings: NotificationSettings)
      modifies this
      ensures notificationSaved == Some(settings)
      ensures saved == old(saved) && defaults == old(defaults) && widgetSaved == old(widgetSaved)
    {
      notificationSaved := Some(settings);
    }
  }

  lemma AppendFreshKeepsDistinct(rules: seq<Rule>, r: Rule)
    requires DistinctIds(rules) && !HasId(rules, r.id)
    ensures DistinctIds(rules + [r])
  {
    var s := rules + [r];
    forall i, j | 0 <= i < j < |s|
      ensures s[i].id != s[j].id
    {
      if j == |rules| {
        assert rules[i].id != r.id;
      }
    }
  }

  lemma SameIdsKeepDistinct(a: seq<Rule>, b: seq<Rule>)
    requires DistinctIds(a) && Ids(a) == Ids(b)
    ensures DistinctIds(b)
  {
    forall i, j | 0 <= i < j < |b|
      ensures b[i].id != b[j].id
    {
      assert Ids(a)[i] == Ids(b)[i] && Ids(a)[j] == Ids(b)[j];
    }
  }

  /** On a fresh install getAppData yields empty rules and empty logs. */
  method FreshInstallLoadsEmpty() returns (data: AppData)
    ensures data == AppData([], map[])
  {
    var store := new Store();
    var isDefault;
    data, isDefault := store.GetAppData();
  }
}
