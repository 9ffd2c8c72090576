/**
 * components/DailyChecklist.tsx: today's checklist. Each rule carries a
 * tri-state mark (`null` unmarked, `true` followed, `false` broken) kept in the
 * state map `ruleStates`; a key missing from the map is `undefined`.
 */
module Checklist {
  import opened Wrappers
  import opened Types
  import AppContext
  import Storage

  /** `null | true | false`. */
  datatype Mark = Unmarked | Followed | Broken

  /** The mark after one tap (DailyChecklist.tsx:26-34): null → true → false → null, and an
      absent entry (`undefined`) falls into the last branch and becomes null. */
  function NextMark(current: Option<Mark>): (next: Mark)
    ensures current == Some(Unmarked) ==> next == Followed
    ensures current == Some(Followed) ==> next == Broken
    ensures current == Some(Broken) || current == None ==> next == Unmarked
  {
    match current
    case Some(Unmarked) => Followed
    case Some(Followed) => Broken
    case _ => Unmarked
  }

  function Lookup(states: map<string, Mark>, id: string): (m: Option<Mark>)
    ensures m.Some? <==> id in states
    ensures m.Some? ==> m.value == states[id]
  {
    if id in states then Some(states[id]) else None
  }

  /** toggleRule's transition: `{ ...prev, [ruleId]: next }`. */
  function Toggle(states: map<string, Mark>, id: string): (r: map<string, Mark>)
    ensures id in r && r[id] == NextMark(Lookup(states, id))
    ensures forall k :: k != id ==> (k in r <==> k in states)
    ensures forall k :: k != id && k in states ==> r[k] == states[k]
  {
    states[id := NextMark(Lookup(states, id))]
  }

  /** Three taps bring a marked entry back to its mark, and leave every other entry alone. */
  lemma ThreeTogglesRestore(states: map<string, Mark>, id: string)
    requires id in states
    ensures var t := Toggle(Toggle(Toggle(states, id), id), id);
      && (forall k :: k in t <==> k in states)
      && (forall k :: k in states ==> t[k] == states[k])
  {
    var t1 := Toggle(states, id);
    var t2 := Toggle(t1, id);
    var t3 := Toggle(t2, id);
    assert t3[id] == states[id] by {
      match states[id]
      case Unmarked =>
      case Followed =>
      case Broken =>
    }
  }

  /** An unmarked rule takes three taps to come back, passing through followed and broken. */
  lemma TogglePassesThroughAllMarks(states: map<string, Mark>, id: string)
    requires id in states && states[id] == Unmarked
    ensures Toggle(states, id)[id] == Followed
    ensures Toggle(Toggle(states, id), id)[id] == Broken
    ensures Toggle(Toggle(Toggle(states, id), id), id)[id] == Unmarked
  {
  }

  /** `rules.every(rule => ruleStates[rule.id] !== null)`: an absent entry counts as marked. */
  predicate AllMarked(rules: seq<Rule>, states: map<string, Mark>)
  {
    forall i :: 0 <= i < |rules| ==> Lookup(states, rules[i].id) != Some(Unmarked)
  }

  /** Every rule is marked followed. */
  predicate AllFollowed(rules: seq<Rule>, states: map<string, Mark>)
  {
    forall i :: 0 <= i < |rules| ==> Lookup(states, rules[i].id) == Some(Followed)
  }

  /** `results` has exactly the rule ids as keys, each true iff that rule is marked followed. */
  ghost predicate IsResultsMap(rules: seq<Rule>, states: map<string, Mark>, results: map<string, bool>)
  {
    && (forall k :: k in results <==> HasId(rules, k))
    && (forall k :: k in results ==> (results[k] <==> Lookup(states, k) == Some(Followed)))
  }

  /** What the screen shows (DailyChecklist.tsx:65-173). */
  datatype Screen =
    | Recorded(title: string, showsRuleResults: bool)
    | NoRules
    | Editable

  /** The heading of a recorded day (DailyChecklist.tsx:66-82). */
  function Title(todayLog: Option<DayLog>): (t: string)
    ensures todayLog.Some? && todayLog.value.noTradeDay == Some(true) ==> t == "No Trade Day"
    ensures todayLog.Some? && todayLog.value.noTradeDay != Some(true) && todayLog.value.status == Green ==> t == "Rules Followed"
    ensures todayLog.None? || (todayLog.value.noTradeDay != Some(true) && todayLog.value.status != Green) ==> t == "Rules Broken"
  {
    if todayLog.Some? && todayLog.value.noTradeDay == Some(true) then "No Trade Day"
    else if todayLog.Some? && todayLog.value.status == Green then "Rules Followed"
    else "Rules Broken"
  }

  function ScreenFor(rules: seq<Rule>, todayLog: Option<DayLog>, canEditToday: bool): (sc: Screen)
    ensures sc.Recorded? <==> !canEditToday
    ensures sc.Recorded? ==> sc.title == Title(todayLog)
    ensures sc.Recorded? ==> (sc.showsRuleResults <==> todayLog.Some? && todayLog.value.ruleResults.Some?)
    ensures sc == NoRules <==> canEditToday && |rules| == 0
  {
    if !canEditToday then Recorded(Title(todayLog), todayLog.Some? && todayLog.value.ruleResults.Some?)
    else if |rules| == 0 then NoRules
    else Editable
  }

  /** The submit and no-trade buttons are offered exactly when today can be edited and there
      are rules. */
  lemma ButtonsOnlyWhenEditable(rules: seq<Rule>, todayLog: Option<DayLog>, canEditToday: bool)
    ensures ScreenFor(rules, todayLog, canEditToday) == Editable <==> canEditToday && |rules| > 0
    ensures !canEditToday ==> ScreenFor(rules, todayLog, canEditToday).Recorded?
  {
  }

  /** The heading after each way of recording the day. */
  lemma TitleOfRecordedDay(today: int, results: map<string, bool>)
    ensures Title(Some(AppContext.SubmittedLog(today, results))) == (if AppContext.AllTrue(results) then "Rules Followed" else "Rules Broken")
    ensures Title(Some(AppContext.NoTradeLog(today))) == "No Trade Day"
  {
  }

  /** A submitted checklist makes the day green exactly when every rule was marked followed. */
  lemma GreenIffAllFollowed(rules: seq<Rule>, states: map<string, Mark>, results: map<string, bool>, today: int)
    requires IsResultsMap(rules, states, results)
    ensures AppContext.SubmittedLog(today, results).status == Green <==> AllFollowed(rules, states)
  {
    if AppContext.AllTrue(results) {
      forall i | 0 <= i < |rules|
        ensures Lookup(states, rules[i].id) == Some(Followed)
      {
        assert HasId(rules, rules[i].id);
      }
    }
    if AllFollowed(rules, states) {
      forall k | k in results
        ensures results[k]
      {
        var i :| 0 <= i < |rules| && rules[i].id == k;
        assert Lookup(states, rules[i].id) == Some(Followed);
      }
    }
  }

  class DailyChecklist {
    var ruleStates: map<string, Mark>

    constructor()
      ensures ruleStates == map[]
    {
      ruleStates := map[];
    }

    /** The effect on a change of `rules` (DailyChecklist.tsx:16-22): one unmarked entry per
        rule id and nothing else. */
    method ResetMarks(rules: seq<Rule>)
      modifies this
      ensures forall k :: k in ruleStates <==> HasId(rules, k)
      ensures forall k :: k in ruleStates ==> ruleStates[k] == Unmarked
    {
      var initial: map<string, Mark> := map[];
      for i := 0 to |rules|
        invariant forall k :: k in initial <==> HasId(rules[..i], k)
        invariant forall k :: k in initial ==> initial[k] == Unmarked
      {
        forall k
          ensures HasId(rules[..i + 1], k) <==> HasId(rules[..i], k) || rules[i].id == k
        {
          assert rules[..i + 1] == rules[..i] + [rules[i]];
          Storage.HasIdAppend(rules[..i], rules[i], k);
        }
        initial := initial[rules[i].id := Unmarked];
      }
      assert rules[..|rules|] == rules;
      ruleStates := initial;
    }

    /** toggleRule (DailyChecklist.tsx:24-37). */
    method ToggleRule(id: string)
      modifies this
      ensures ruleStates == Toggle(old(ruleStates), id)
    {
      var next := NextMark(Lookup(ruleStates, id));
      ruleStates := ruleStates[id := next];
    }

    /** handleSubmit (DailyChecklist.tsx:39-52): nothing when a rule is unmarked, otherwise the
        results map handed to submitDayLog. */
    method HandleSubmit(rules: seq<Rule>) returns (results: Option<map<string, bool>>)
      ensures results.None? <==> !AllMarked(rules, ruleStates)
      ensures results.Some? ==> IsResultsMap(rules, ruleStates, results.value)
    {
      var allMarked := true;
      for i := 0 to |rules|
        invariant allMarked <==> AllMarked(rules[..i], ruleStates)
      {
        if Lookup(ruleStates, rules[i].id) == Some(Unmarked) {
          allMarked := false;
        }
      }
      assert rules[..|rules|] == rules;
      if !allMarked {
        return None;
      }
      var built: map<string, bool> := map[];
      for i := 0 to |rules|
        invariant forall k :: k in built <==> HasId(rules[..i], k)
        invariant forall k :: k in built ==> (built[k] <==> Lookup(ruleStates, k) == Some(Followed))
      {
        forall k
          ensures HasId(rules[..i + 1], k) <==> HasId(rules[..i], k) || rules[i].id == k
        {
          assert rules[..i + 1] == rules[..i] + [rules[i]];
          Storage.HasIdAppend(rules[..i], rules[i], k);
        }
        built := built[rules[i].id := Lookup(ruleStates, rules[i].id) == Some(Followed)];
      }
      assert rules[..|rules|] == rules;
      return Some(built);
    }
  }
}
