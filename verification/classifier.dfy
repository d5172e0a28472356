/**
 * `evaluate_alert_state`: manual override switches first, then the
 * highest-priority level whose rules are triggered, with the reasons and
 * `triggered_by` entries collected for that level only.
 */
module Classifier {
  import opened Wrappers
  import opened Text
  import opened OrderedDict
  import opened Records
  import opened AlertConfig
  import opened Conditions

  /** The alert levels, from highest to lowest priority. */
  const LevelOrder: seq<string> := ["emergency", "warning", "watch", "advisory"]

  /** The `alert_levels` priorities; `'none'` is 0. */
  function Priority(level: string): nat {
    if level == "emergency" then 4
    else if level == "warning" then 3
    else if level == "watch" then 2
    else if level == "advisory" then 1
    else 0
  }

  lemma LevelPriority(k: int)
    requires 0 <= k < |LevelOrder|
    ensures Priority(LevelOrder[k]) == 4 - k
  {
  }

  // ---------------------------------------------------------------------
  // Manual overrides
  // ---------------------------------------------------------------------

  /** The manual override switch entity of a level. */
  function ManualSwitch(level: string): string {
    "input_boolean.forewarned_manual_" + level
  }

  /**
   * The `state` value read for each entity whose lookup succeeded; an entity
   * whose lookup failed or returned nothing is absent.
   */
  type Readings = map<string, string>

  predicate SwitchOn(readings: Readings, level: string) {
    ManualSwitch(level) in readings && readings[ManualSwitch(level)] == "on"
  }

  /** The first level of `levels` whose switch reads `'on'`. */
  function FirstOn(readings: Readings, levels: seq<string>): Option<string>
    decreases |levels|
  {
    if levels == [] then None
    else
      var earlier := FirstOn(readings, levels[..|levels| - 1]);
      if earlier.Some? then earlier
      else if SwitchOn(readings, levels[|levels| - 1]) then Some(levels[|levels| - 1])
      else None
  }

  function OverrideLevel(readings: Readings): Option<string> {
    FirstOn(readings, LevelOrder)
  }

  function OverrideReason(level: string): string {
    "Manual override: " + Upper(level)
  }

  /** `FirstOn` picks the earliest level whose switch is on, and is absent only when none is. */
  lemma {:induction false} FirstOnMeaning(readings: Readings, levels: seq<string>)
    ensures FirstOn(readings, levels).None? <==> forall i :: 0 <= i < |levels| ==> !SwitchOn(readings, levels[i])
    ensures FirstOn(readings, levels).Some? ==>
      exists i :: 0 <= i < |levels|
        && levels[i] == FirstOn(readings, levels).value && SwitchOn(readings, levels[i])
        && forall j :: 0 <= j < i ==> !SwitchOn(readings, levels[j])
    decreases |levels|
  {
    if levels != [] {
      var init := levels[..|levels| - 1];
      FirstOnMeaning(readings, init);
      assert forall i :: 0 <= i < |init| ==> init[i] == levels[i];
      if FirstOn(readings, init).Some? {
        var i :| 0 <= i < |init| && init[i] == FirstOn(readings, init).value && SwitchOn(readings, init[i])
          && forall j :: 0 <= j < i ==> !SwitchOn(readings, init[j]);
        assert levels[i] == FirstOn(readings, levels).value;
      }
    }
  }

  /**
   * The override is the highest-priority level whose switch is on: it is a
   * real level, its switch is on, and no switch with a higher priority is on.
   */
  lemma OverrideIsHighestOn(readings: Readings)
    ensures OverrideLevel(readings).None? <==> forall l :: l in LevelOrder ==> !SwitchOn(readings, l)
    ensures OverrideLevel(readings).Some? ==>
      var l := OverrideLevel(readings).value;
      && l in LevelOrder && SwitchOn(readings, l)
      && forall l' :: l' in LevelOrder && SwitchOn(readings, l') ==> Priority(l') <= Priority(l)
  {
    FirstOnMeaning(readings, LevelOrder);
    if OverrideLevel(readings).Some? {
      var i :| 0 <= i < |LevelOrder| && LevelOrder[i] == OverrideLevel(readings).value
        && SwitchOn(readings, LevelOrder[i]) && forall j :: 0 <= j < i ==> !SwitchOn(readings, LevelOrder[j]);
      forall l' | l' in LevelOrder && SwitchOn(readings, l') ensures Priority(l') <= Priority(LevelOrder[i]) {
        var j :| 0 <= j < |LevelOrder| && LevelOrder[j] == l';
        LevelPriority(i);
        LevelPriority(j);
      }
    }
  }

  /** `_check_manual_overrides`: scan the switches from highest to lowest priority. */
  method CheckManualOverrides(readings: Readings) returns (level: Option<string>, reason: Option<string>)
    ensures level == OverrideLevel(readings)
    ensures reason == if level.Some? then Some(OverrideReason(level.value)) else None
  {
    for k := 0 to |LevelOrder|
      invariant FirstOn(readings, LevelOrder[..k]).None?
    {
      var entity := ManualSwitch(LevelOrder[k]);
      assert LevelOrder[..k + 1][..k] == LevelOrder[..k];
      if entity in readings && readings[entity] == "on" {
        FirstOnPrefix(readings, k + 1);
        return Some(LevelOrder[k]), Some(OverrideReason(LevelOrder[k]));
      }
    }
    assert LevelOrder[..|LevelOrder|] == LevelOrder;
    return None, None;
  }

  /** Once a prefix of the level order has a switch on, the rest of the order does not matter. */
  lemma {:induction false} FirstOnPrefix(readings: Readings, k: nat)
    requires 0 < k <= |LevelOrder| && FirstOn(readings, LevelOrder[..k]).Some?
    ensures OverrideLevel(readings) == FirstOn(readings, LevelOrder[..k])
    decreases |LevelOrder| - k
  {
    if k < |LevelOrder| {
      assert LevelOrder[..k + 1][..k] == LevelOrder[..k];
      FirstOnPrefix(readings, k + 1);
    } else {
      assert LevelOrder[..k] == LevelOrder;
    }
  }

  // ---------------------------------------------------------------------
  // Level selection
  // ---------------------------------------------------------------------

  predicate WeatherSide(c: Config, level: string, alerts: seq<WeatherAlert>, sites: EocStates) {
    ConditionsHold(LevelRuleFor(c, level).weatherConditions, alerts, sites)
  }

  predicate EocSide(c: Config, level: string, alerts: seq<WeatherAlert>, sites: EocStates) {
    ConditionsHold(LevelRuleFor(c, level).eocConditions, alerts, sites)
  }

  /** `condition_logic` `'and'` is a conjunction, anything else a disjunction. */
  predicate LevelTriggered(c: Config, level: string, alerts: seq<WeatherAlert>, sites: EocStates) {
    if LevelRuleFor(c, level).conditionLogic == "and"
    then WeatherSide(c, level, alerts, sites) && EocSide(c, level, alerts, sites)
    else WeatherSide(c, level, alerts, sites) || EocSide(c, level, alerts, sites)
  }

  /** The first level of `levels` that is triggered. */
  function FirstTriggered(c: Config, levels: seq<string>, alerts: seq<WeatherAlert>, sites: EocStates): Option<string>
    decreases |levels|
  {
    if levels == [] then None
    else
      var earlier := FirstTriggered(c, levels[..|levels| - 1], alerts, sites);
      if earlier.Some? then earlier
      else if LevelTriggered(c, levels[|levels| - 1], alerts, sites) then Some(levels[|levels| - 1])
      else None
  }

  function Winner(c: Config, alerts: seq<WeatherAlert>, sites: EocStates): Option<string> {
    FirstTriggered(c, LevelOrder, alerts, sites)
  }

  lemma {:induction false} FirstTriggeredMeaning(c: Config, levels: seq<string>, alerts: seq<WeatherAlert>, sites: EocStates)
    ensures FirstTriggered(c, levels, alerts, sites).None?
      <==> forall i :: 0 <= i < |levels| ==> !LevelTriggered(c, levels[i], alerts, sites)
    ensures FirstTriggered(c, levels, alerts, sites).Some? ==>
      exists i :: 0 <= i < |levels|
        && levels[i] == FirstTriggered(c, levels, alerts, sites).value && LevelTriggered(c, levels[i], alerts, sites)
        && forall j :: 0 <= j < i ==> !LevelTriggered(c, levels[j], alerts, sites)
    decreases |levels|
  {
    if levels != [] {
      var init := levels[..|levels| - 1];
      FirstTriggeredMeaning(c, init, alerts, sites);
      assert forall i :: 0 <= i < |init| ==> init[i] == levels[i];
      if FirstTriggered(c, init, alerts, sites).Some? {
        var i :| 0 <= i < |init| && init[i] == FirstTriggered(c, init, alerts, sites).value
          && LevelTriggered(c, init[i], alerts, sites)
          && forall j :: 0 <= j < i ==> !LevelTriggered(c, init[j], alerts, sites);
        assert levels[i] == FirstTriggered(c, levels, alerts, sites).value;
      }
    }
  }

  // ---------------------------------------------------------------------
  // Reasons and triggers
  // ---------------------------------------------------------------------

  /** The `triggers` and `reasons` lists being built. */
  datatype Collected = Collected(triggers: seq<string>, reasons: seq<string>)

  const NothingCollected := Collected([], [])

  /** The warning type of an event: cut at the first `' for '`, then at the first `' - '`. */
  function ShortEvent(event: string): string {
    BeforeFirst(BeforeFirst(event, " for "), " - ")
  }

  /** One weather alert's contribution, skipped when its short event is already a reason. */
  function AddWeather(acc: Collected, a: WeatherAlert): Collected {
    var s := ShortEvent(a.event);
    if s in acc.reasons then acc
    else Collected(acc.triggers + ["Weather: " + s], acc.reasons + [s])
  }

  function CollectWeather(acc: Collected, alerts: seq<WeatherAlert>): Collected
    decreases |alerts|
  {
    if alerts == [] then acc
    else AddWeather(CollectWeather(acc, alerts[..|alerts| - 1]), alerts[|alerts| - 1])
  }

  function EocTrigger(site: EocSite): string {
    "LDMG: " + Upper(site.state)
  }

  /** One site's contribution: activated sites only, skipped when the trigger text is already there. */
  function AddEoc(acc: Collected, site: EocSite): Collected {
    if !site.activated then acc
    else if EocTrigger(site) in acc.triggers then acc
    else Collected(acc.triggers + [EocTrigger(site)], acc.reasons + ["LDMG " + site.state])
  }

  function CollectEoc(acc: Collected, sites: EocStates): Collected
    decreases |sites|
  {
    if sites == [] then acc
    else AddEoc(CollectEoc(acc, sites[..|sites| - 1]), sites[|sites| - 1].1)
  }

  /** What the winning level contributes: weather entries if its weather side matched, then EOC entries if its EOC side did. */
  function CollectFor(c: Config, level: string, alerts: seq<WeatherAlert>, sites: EocStates): Collected {
    var afterWeather := if WeatherSide(c, level, alerts, sites) then CollectWeather(NothingCollected, alerts) else NothingCollected;
    if EocSide(c, level, alerts, sites) then CollectEoc(afterWeather, sites) else afterWeather
  }

  function ReasonText(reasons: seq<string>): string {
    if reasons == [] then "No active alerts" else Join(reasons, ", ")
  }

  /** The state the rule table yields, stamped with `now`. */
  function Classify(c: Config, alerts: seq<WeatherAlert>, sites: EocStates, now: string): AlertState {
    match Winner(c, alerts, sites)
    case None => AlertState(false, "none", "No active alerts", Some(now), [])
    case Some(level) =>
      var col := CollectFor(c, level, alerts, sites);
      AlertState(true, level, ReasonText(col.reasons), Some(now), col.triggers)
  }

  /** The full evaluation: an override wins without consulting the rule table. */
  function Evaluate(c: Config, readings: Readings, alerts: seq<WeatherAlert>, sites: EocStates, now: string): AlertState {
    match OverrideLevel(readings)
    case Some(level) => AlertState(true, level, OverrideReason(level), Some(now), [OverrideReason(level)])
    case None => Classify(c, alerts, sites, now)
  }

  // ---------------------------------------------------------------------
  // What classification promises
  // ---------------------------------------------------------------------

  /**
   * The classified level is the highest-priority triggered level: the state
   * is active exactly when some level triggers, an active level is itself
   * triggered and no triggered level outranks it, and with no triggered
   * level the state is the fixed inactive record.
   */
  lemma ClassifyIsHighestTriggered(c: Config, alerts: seq<WeatherAlert>, sites: EocStates, now: string)
    ensures var r := Classify(c, alerts, sites, now);
      && (r.active <==> r.level != "none")
      && (r.active <==> exists l :: l in LevelOrder && LevelTriggered(c, l, alerts, sites))
      && (r.active ==> r.level in LevelOrder && LevelTriggered(c, r.level, alerts, sites))
      && (forall l :: l in LevelOrder && LevelTriggered(c, l, alerts, sites) ==> Priority(l) <= Priority(r.level))
      && (!r.active ==> r == AlertState(false, "none", "No active alerts", Some(now), []))
  {
    FirstTriggeredMeaning(c, LevelOrder, alerts, sites);
    var w := Winner(c, alerts, sites);
    if w.Some? {
      var i :| 0 <= i < |LevelOrder| && LevelOrder[i] == w.value && LevelTriggered(c, LevelOrder[i], alerts, sites)
        && forall j :: 0 <= j < i ==> !LevelTriggered(c, LevelOrder[j], alerts, sites);
      forall l | l in LevelOrder && LevelTriggered(c, l, alerts, sites) ensures Priority(l) <= Priority(w.value) {
        var j :| 0 <= j < |LevelOrder| && LevelOrder[j] == l;
        LevelPriority(i);
        LevelPriority(j);
      }
    } else {
      forall l | l in LevelOrder ensures !LevelTriggered(c, l, alerts, sites) {
        var j :| 0 <= j < |LevelOrder| && LevelOrder[j] == l;
      }
    }
  }

  /** A switched-on override decides the state whatever the alerts, the sites and the rule table. */
  lemma OverrideWins(c: Config, readings: Readings, alerts: seq<WeatherAlert>, sites: EocStates, now: string)
    requires exists l :: l in LevelOrder && SwitchOn(readings, l)
    ensures var r := Evaluate(c, readings, alerts, sites, now);
      && r.active && r.level in LevelOrder && SwitchOn(readings, r.level)
      && r.reason == "Manual override: " + Upper(r.level)
      && r.triggeredBy == [r.reason]
      && forall l :: l in LevelOrder && SwitchOn(readings, l) ==> Priority(l) <= Priority(r.level)
  {
    OverrideIsHighestOn(readings);
  }

  /** With every switch off (or unreadable), evaluation is the rule-table classification. */
  lemma NoOverrideClassifies(c: Config, readings: Readings, alerts: seq<WeatherAlert>, sites: EocStates, now: string)
    requires forall l :: l in LevelOrder ==> !SwitchOn(readings, l)
    ensures Evaluate(c, readings, alerts, sites, now) == Classify(c, alerts, sites, now)
  {
    OverrideIsHighestOn(readings);
  }

  /** A level that triggers still triggers when alerts and sites are added. */
  lemma LevelTriggeredMonotone(c: Config, level: string, alerts: seq<WeatherAlert>, moreAlerts: seq<WeatherAlert>,
                               sites: EocStates, moreSites: EocStates)
    requires LevelTriggered(c, level, alerts, sites)
    ensures LevelTriggered(c, level, alerts + moreAlerts, sites + moreSites)
  {
    var lr := LevelRuleFor(c, level);
    if WeatherSide(c, level, alerts, sites) {
      ConditionsMonotone(lr.weatherConditions, alerts, moreAlerts, sites, moreSites);
    }
    if EocSide(c, level, alerts, sites) {
      ConditionsMonotone(lr.eocConditions, alerts, moreAlerts, sites, moreSites);
    }
  }

  /** Adding weather alerts or EOC sites never lowers the classified level. */
  lemma ClassifyMonotone(c: Config, alerts: seq<WeatherAlert>, moreAlerts: seq<WeatherAlert>,
                         sites: EocStates, moreSites: EocStates, now: string)
    ensures Priority(Classify(c, alerts, sites, now).level)
      <= Priority(Classify(c, alerts + moreAlerts, sites + moreSites, now).level)
  {
    var r := Classify(c, alerts, sites, now);
    ClassifyIsHighestTriggered(c, alerts, sites, now);
    ClassifyIsHighestTriggered(c, alerts + moreAlerts, sites + moreSites, now);
    if r.active {
      LevelTriggeredMonotone(c, r.level, alerts, moreAlerts, sites, moreSites);
    }
  }

  /** A short event is a prefix of the event containing neither `' for '` nor `' - '`; an event with neither is kept whole. */
  lemma ShortEventCut(event: string)
    ensures StartsWith(event, ShortEvent(event))
    ensures !Contains(ShortEvent(event), " for ") && !Contains(ShortEvent(event), " - ")
    ensures !Contains(event, " for ") && !Contains(event, " - ") ==> ShortEvent(event) == event
  {
    var first := BeforeFirst(event, " for ");
    var s := ShortEvent(event);
    BeforeFirstCut(event, " for ");
    BeforeFirstCut(first, " - ");
    if Contains(s, " for ") {
      var j :| 0 <= j <= |s| - 5 && OccursAt(s, j, " for ");
      OccursInPrefix(first, s, j, " for ");
    }
  }

  /** The weather pass pairs each reason with its trigger and never repeats a reason. */
  lemma {:induction false} CollectWeatherShape(alerts: seq<WeatherAlert>)
    ensures var col := CollectWeather(NothingCollected, alerts);
      && |col.triggers| == |col.reasons|
      && (forall i :: 0 <= i < |col.reasons| ==> col.triggers[i] == "Weather: " + col.reasons[i])
      && Distinct(col.reasons)
    decreases |alerts|
  {
    if alerts != [] {
      CollectWeatherShape(alerts[..|alerts| - 1]);
    }
  }

  /** Every alert's short event is among the reasons. */
  lemma {:induction false} CollectWeatherCovers(alerts: seq<WeatherAlert>)
    ensures forall a :: a in alerts ==> ShortEvent(a.event) in CollectWeather(NothingCollected, alerts).reasons
    decreases |alerts|
  {
    if alerts != [] {
      var init, last := alerts[..|alerts| - 1], alerts[|alerts| - 1];
      CollectWeatherCovers(init);
      assert alerts == init + [last];
    }
  }

  /** Every reason is the short event of one of the alerts. */
  lemma {:induction false} CollectWeatherSources(alerts: seq<WeatherAlert>)
    ensures forall s :: s in CollectWeather(NothingCollected, alerts).reasons ==>
      exists a :: a in alerts && s == ShortEvent(a.event)
    decreases |alerts|
  {
    if alerts != [] {
      var init, last := alerts[..|alerts| - 1], alerts[|alerts| - 1];
      CollectWeatherSources(init);
      assert alerts == init + [last];
      var prev := CollectWeather(NothingCollected, init);
      assert CollectWeather(NothingCollected, alerts) == AddWeather(prev, last);
      forall s | s in CollectWeather(NothingCollected, alerts).reasons
        ensures exists a :: a in alerts && s == ShortEvent(a.event)
      {
        if s in prev.reasons {
          var a :| a in init && s == ShortEvent(a.event);
          assert a in alerts;
        } else {
          assert s == ShortEvent(last.event);
        }
      }
    }
  }

  /**
   * The weather entries: one per distinct short event, in first-seen order,
   * each trigger being `"Weather: "` plus its reason, and every alert's short
   * event among the reasons.
   */
  lemma CollectWeatherFacts(alerts: seq<WeatherAlert>)
    ensures var col := CollectWeather(NothingCollected, alerts);
      && |col.triggers| == |col.reasons|
      && (forall i :: 0 <= i < |col.reasons| ==> col.triggers[i] == "Weather: " + col.reasons[i])
      && Distinct(col.reasons)
      && (forall a :: a in alerts ==> ShortEvent(a.event) in col.reasons)
      && (forall s :: s in col.reasons ==> exists a :: a in alerts && s == ShortEvent(a.event))
      && (forall t :: t in col.triggers ==> exists a :: a in alerts && t == "Weather: " + ShortEvent(a.event))
  {
    CollectWeatherShape(alerts);
    CollectWeatherCovers(alerts);
    CollectWeatherSources(alerts);
    var col := CollectWeather(NothingCollected, alerts);
    forall t | t in col.triggers ensures exists a :: a in alerts && t == "Weather: " + ShortEvent(a.event) {
      var i :| 0 <= i < |col.triggers| && col.triggers[i] == t;
      assert col.reasons[i] in col.reasons;
      var a :| a in alerts && col.reasons[i] == ShortEvent(a.event);
    }
  }

  /** The EOC pass only appends: the lists already built are kept as prefixes, in step. */
  lemma {:induction false} CollectEocExtends(acc: Collected, sites: EocStates)
    requires |acc.triggers| == |acc.reasons|
    ensures var col := CollectEoc(acc, sites);
      && |col.triggers| == |col.reasons|
      && |acc.triggers| <= |col.triggers|
      && col.triggers[..|acc.triggers|] == acc.triggers
      && col.reasons[..|acc.reasons|] == acc.reasons
    decreases |sites|
  {
    if sites != [] {
      CollectEocExtends(acc, sites[..|sites| - 1]);
    }
  }

  /** Every activated site's trigger ends up in the list. */
  lemma {:induction false} CollectEocCovers(acc: Collected, sites: EocStates)
    ensures forall i :: 0 <= i < |sites| && sites[i].1.activated ==> EocTrigger(sites[i].1) in CollectEoc(acc, sites).triggers
    decreases |sites|
  {
    if sites != [] {
      var init := sites[..|sites| - 1];
      CollectEocCovers(acc, init);
      forall i | 0 <= i < |sites| && sites[i].1.activated
        ensures EocTrigger(sites[i].1) in CollectEoc(acc, sites).triggers
      {
        if i < |init| {
          assert init[i] == sites[i];
        }
      }
    }
  }

  /** Every added trigger and reason comes from an activated site, and no trigger is added twice. */
  lemma {:induction false} CollectEocSources(acc: Collected, sites: EocStates)
    ensures var col := CollectEoc(acc, sites);
      && (forall t :: t in col.triggers ==>
            (t in acc.triggers || exists i :: 0 <= i < |sites| && sites[i].1.activated && t == EocTrigger(sites[i].1)))
      && (forall s :: s in col.reasons ==>
            (s in acc.reasons || exists i :: 0 <= i < |sites| && sites[i].1.activated && s == "LDMG " + sites[i].1.state))
      && (Distinct(acc.triggers) ==> Distinct(col.triggers))
    decreases |sites|
  {
    if sites != [] {
      var init, last := sites[..|sites| - 1], sites[|sites| - 1];
      CollectEocSources(acc, init);
      var prev := CollectEoc(acc, init);
      var col := CollectEoc(acc, sites);
      assert col == AddEoc(prev, last.1);
      forall t | t in col.triggers ensures t in acc.triggers
        || (exists i :: 0 <= i < |sites| && sites[i].1.activated && t == EocTrigger(sites[i].1))
      {
        if t in prev.triggers && t !in acc.triggers {
          var i :| 0 <= i < |init| && init[i].1.activated && t == EocTrigger(init[i].1);
          assert sites[i] == init[i];
        }
      }
      forall s | s in col.reasons ensures s in acc.reasons
        || (exists i :: 0 <= i < |sites| && sites[i].1.activated && s == "LDMG " + sites[i].1.state)
      {
        if s in prev.reasons && s !in acc.reasons {
          var i :| 0 <= i < |init| && init[i].1.activated && s == "LDMG " + init[i].1.state;
          assert sites[i] == init[i];
        }
      }
    }
  }

  /**
   * Everything in `triggered_by` comes from the winning level: a weather
   * trigger only if its weather side matched and an EOC trigger only if its
   * EOC side did; with no winner the list is empty.
   */
  lemma ClassifyTriggersFromWinner(c: Config, alerts: seq<WeatherAlert>, sites: EocStates, now: string)
    ensures var r := Classify(c, alerts, sites, now);
      && (!r.active ==> r.triggeredBy == [] && r.reason == "No active alerts")
      && (r.active ==> forall t :: t in r.triggeredBy ==>
            || (WeatherSide(c, r.level, alerts, sites) && exists a :: a in alerts && t == "Weather: " + ShortEvent(a.event))
            || (EocSide(c, r.level, alerts, sites) && exists i :: 0 <= i < |sites| && sites[i].1.activated && t == EocTrigger(sites[i].1)))
  {
    var r := Classify(c, alerts, sites, now);
    if r.active {
      var level := r.level;
      var afterWeather := if WeatherSide(c, level, alerts, sites) then CollectWeather(NothingCollected, alerts) else NothingCollected;
      CollectWeatherFacts(alerts);
      CollectEocSources(afterWeather, sites);
    }
  }

  // ---------------------------------------------------------------------
  // The evaluation loop
  // ---------------------------------------------------------------------

  function LevelOrNone(l: Option<string>): string {
    if l.Some? then l.value else "none"
  }

  function CollectedSoFar(c: Config, l: Option<string>, alerts: seq<WeatherAlert>, sites: EocStates): Collected {
    if l.Some? then CollectFor(c, l.value, alerts, sites) else NothingCollected
  }

  /** `evaluate_alert_state`, step by step as the source does it. */
  /** The weather half of the reason loop: each alert's short event, once, with its `Weather:` trigger. */
  method GatherWeather(triggers0: seq<string>, reasons0: seq<string>, alerts: seq<WeatherAlert>)
    returns (triggers: seq<string>, reasons: seq<string>)
    ensures Collected(triggers, reasons) == CollectWeather(Collected(triggers0, reasons0), alerts)
  {
    triggers, reasons := triggers0, reasons0;
    var i := 0;
    while i < |alerts|
      invariant 0 <= i <= |alerts|
      invariant Collected(triggers, reasons) == CollectWeather(Collected(triggers0, reasons0), alerts[..i])
    {
      assert alerts[..i + 1][..i] == alerts[..i];
      var shortEvent := BeforeFirst(alerts[i].event, " for ");
      shortEvent := BeforeFirst(shortEvent, " - ");
      if shortEvent !in reasons {
        triggers := triggers + ["Weather: " + shortEvent];
        reasons := reasons + [shortEvent];
      }
      i := i + 1;
    }
    assert alerts[..|alerts|] == alerts;
  }

  /** The EOC half of the reason loop: each activated site's `LDMG:` trigger, once. */
  method GatherEoc(triggers0: seq<string>, reasons0: seq<string>, sites: EocStates)
    returns (triggers: seq<string>, reasons: seq<string>)
    ensures Collected(triggers, reasons) == CollectEoc(Collected(triggers0, reasons0), sites)
  {
    triggers, reasons := triggers0, reasons0;
    var i := 0;
    while i < |sites|
      invariant 0 <= i <= |sites|
      invariant Collected(triggers, reasons) == CollectEoc(Collected(triggers0, reasons0), sites[..i])
    {
      assert sites[..i + 1][..i] == sites[..i];
      var info := sites[i].1;
      if info.activated {
        var triggerText := "LDMG: " + Upper(info.state);
        if triggerText !in triggers {
          triggers := triggers + [triggerText];
          reasons := reasons + ["LDMG " + info.state];
        }
      }
      i := i + 1;
    }
    assert sites[..|sites|] == sites;
  }

  method EvaluateAlertState(c: Config, readings: Readings, alerts: seq<WeatherAlert>, sites: EocStates, now: string)
    returns (r: AlertState)
    ensures r == Evaluate(c, readings, alerts, sites, now)
    ensures r.timestamp == Some(now)
  {
    var manualLevel, manualReason := CheckManualOverrides(readings);
    if manualLevel.Some? {
      return AlertState(true, manualLevel.value, manualReason.value, Some(now), [manualReason.value]);
    }
    var triggers: seq<string> := [];
    var maxLevel := "none";
    var reasons: seq<string> := [];
    for k := 0 to |LevelOrder|
      invariant maxLevel == LevelOrNone(FirstTriggered(c, LevelOrder[..k], alerts, sites))
      invariant Collected(triggers, reasons) == CollectedSoFar(c, FirstTriggered(c, LevelOrder[..k], alerts, sites), alerts, sites)
      invariant maxLevel == "none" || Priority(maxLevel) >= 5 - k
      invariant FirstTriggered(c, LevelOrder[..k], alerts, sites).None? <==> maxLevel == "none"
    {
      var levelName := LevelOrder[k];
      assert LevelOrder[..k + 1][..k] == LevelOrder[..k];
      LevelPriority(k);
      var levelConfig := LevelRuleFor(c, levelName);
      var weatherMatch := EvaluateConditions(levelConfig.weatherConditions, alerts, sites);
      var eocMatch := EvaluateConditions(levelConfig.eocConditions, alerts, sites);
      var levelTriggered := if levelConfig.conditionLogic == "and" then weatherMatch && eocMatch else weatherMatch || eocMatch;
      if levelTriggered && Priority(levelName) > Priority(maxLevel) {
        maxLevel := levelName;
        if weatherMatch {
          triggers, reasons := GatherWeather(triggers, reasons, alerts);
        }
        if eocMatch {
          triggers, reasons := GatherEoc(triggers, reasons, sites);
        }
      }
    }
    assert LevelOrder[..|LevelOrder|] == LevelOrder;
    var active := maxLevel != "none";
    var reason := if reasons != [] then Join(reasons, ", ") else "No active alerts";
    r := AlertState(active, maxLevel, reason, Some(now), triggers);
  }
}
