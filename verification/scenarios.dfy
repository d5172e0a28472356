/**
 * What the default rule table means: which alerts and sites trigger each
 * level, and so which level the local alert engine settles on for a severe
 * storm, a tropical cyclone, an activated EOC, or nothing at all.
 */
module Scenarios {
  import opened Wrappers
  import opened Text
  import opened OrderedDict
  import opened Records
  import opened AlertConfig
  import opened Conditions
  import opened Classifier

  predicate SomeSeverity(alerts: seq<WeatherAlert>, severity: string) {
    exists i :: 0 <= i < |alerts| && Lower(alerts[i].severity) == severity
  }

  predicate SomeEvent(alerts: seq<WeatherAlert>, event: string) {
    exists i :: 0 <= i < |alerts| && Contains(Lower(alerts[i].event), event)
  }

  predicate SomeSite(sites: EocStates, state: string) {
    exists i :: 0 <= i < |sites| && SiteMatches(state, sites[i].1)
  }

  /** A one-rule weather condition holds exactly when some alert matches the rule. */
  lemma OneWeatherRule(r: Rule, alerts: seq<WeatherAlert>, sites: EocStates)
    requires IsWeatherRule(r)
    ensures ConditionsHold(ConditionSet("or", [r]), alerts, sites) <==> WeatherRuleMatches(r, alerts)
  {
    RuleResultsMeaning([r], alerts, sites);
  }

  /** A one-rule EOC condition holds exactly when some site matches the rule. */
  lemma OneEocRule(r: Rule, alerts: seq<WeatherAlert>, sites: EocStates)
    requires IsEocRule(r)
    ensures ConditionsHold(ConditionSet("or", [r]), alerts, sites) <==> EocRuleMatches(r, sites)
  {
    RuleResultsMeaning([r], alerts, sites);
  }

  /** A default severity rule matches exactly the alerts of that severity, whatever their type. */
  lemma SeverityRule(severity: string, alerts: seq<WeatherAlert>)
    requires severity in ["minor", "moderate", "severe", "extreme"]
    ensures WeatherRuleMatches(WeatherRule("any", severity), alerts) <==> SomeSeverity(alerts, severity)
  {
    assert Lower("any") == "any";
    assert Lower(severity) == severity;
  }

  lemma StateRule(state: string, sites: EocStates)
    requires state in ["alert", "stand down", "lean forward", "stand up"]
    ensures EocRuleMatches(EocRule(state), sites) <==> SomeSite(sites, state)
  {
    assert Lower(state) == state;
  }

  /** Emergency: an extreme alert, a tropical cyclone warning of any severity, or an EOC stood up. */
  lemma DefaultEmergency(alerts: seq<WeatherAlert>, sites: EocStates)
    ensures LevelTriggered(DefaultConfig, "emergency", alerts, sites)
      <==> SomeSeverity(alerts, "extreme") || SomeEvent(alerts, "tropical cyclone warning") || SomeSite(sites, "stand up")
  {
    var extreme := WeatherRule("any", "extreme");
    var cyclone := WeatherRule("Tropical Cyclone Warning", "any");
    var rules := [extreme, cyclone];
    RuleResultsMeaning(rules, alerts, sites);
    SeverityRule("extreme", alerts);
    assert Lower("Tropical Cyclone Warning") == "tropical cyclone warning";
    assert Lower("any") == "any";
    assert WeatherRuleMatches(cyclone, alerts) <==> SomeEvent(alerts, "tropical cyclone warning");
    assert ConditionsHold(ConditionSet("or", rules), alerts, sites)
      <==> WeatherRuleMatches(extreme, alerts) || WeatherRuleMatches(cyclone, alerts);
    OneEocRule(EocRule("stand up"), alerts, sites);
    StateRule("stand up", sites);
  }

  /** Warning: a severe alert; the EOC side of this level has no rules. */
  lemma DefaultWarning(alerts: seq<WeatherAlert>, sites: EocStates)
    ensures LevelTriggered(DefaultConfig, "warning", alerts, sites) <==> SomeSeverity(alerts, "severe")
  {
    OneWeatherRule(WeatherRule("any", "severe"), alerts, sites);
    SeverityRule("severe", alerts);
  }

  /** Watch: a moderate alert or an EOC leaning forward. */
  lemma DefaultWatch(alerts: seq<WeatherAlert>, sites: EocStates)
    ensures LevelTriggered(DefaultConfig, "watch", alerts, sites)
      <==> SomeSeverity(alerts, "moderate") || SomeSite(sites, "lean forward")
  {
    OneWeatherRule(WeatherRule("any", "moderate"), alerts, sites);
    SeverityRule("moderate", alerts);
    OneEocRule(EocRule("lean forward"), alerts, sites);
    StateRule("lean forward", sites);
  }

  /** Advisory: a minor alert, or an EOC on alert or standing down. */
  lemma DefaultAdvisory(alerts: seq<WeatherAlert>, sites: EocStates)
    ensures LevelTriggered(DefaultConfig, "advisory", alerts, sites)
      <==> SomeSeverity(alerts, "minor") || SomeSite(sites, "alert") || SomeSite(sites, "stand down")
  {
    var rules := [EocRule("alert"), EocRule("stand down")];
    OneWeatherRule(WeatherRule("any", "minor"), alerts, sites);
    SeverityRule("minor", alerts);
    RuleResultsMeaning(rules, alerts, sites);
    StateRule("alert", sites);
    StateRule("stand down", sites);
    assert ConditionsHold(ConditionSet("or", rules), alerts, sites)
      <==> EocRuleMatches(EocRule("alert"), sites) || EocRuleMatches(EocRule("stand down"), sites);
  }

  /** The winner is the first level of the priority order that triggers. */
  lemma WinnerIs(c: Config, k: nat, alerts: seq<WeatherAlert>, sites: EocStates)
    requires k < |LevelOrder| && LevelTriggered(c, LevelOrder[k], alerts, sites)
    requires forall j :: 0 <= j < k ==> !LevelTriggered(c, LevelOrder[j], alerts, sites)
    ensures Winner(c, alerts, sites) == Some(LevelOrder[k])
  {
    FirstTriggeredMeaning(c, LevelOrder, alerts, sites);
    var i :| 0 <= i < |LevelOrder|
      && LevelOrder[i] == Winner(c, alerts, sites).value && LevelTriggered(c, LevelOrder[i], alerts, sites)
      && forall j :: 0 <= j < i ==> !LevelTriggered(c, LevelOrder[j], alerts, sites);
    assert i == k;
  }

  /** A stood-up EOC makes an emergency whatever the weather. */
  lemma StandUpIsEmergency(alerts: seq<WeatherAlert>, sites: EocStates)
    requires SomeSite(sites, "stand up")
    ensures Winner(DefaultConfig, alerts, sites) == Some("emergency")
  {
    DefaultEmergency(alerts, sites);
    WinnerIs(DefaultConfig, 0, alerts, sites);
  }

  /** A tropical cyclone warning makes an emergency whatever its severity. */
  lemma CycloneIsEmergency(alerts: seq<WeatherAlert>, sites: EocStates)
    requires SomeEvent(alerts, "tropical cyclone warning")
    ensures Winner(DefaultConfig, alerts, sites) == Some("emergency")
  {
    DefaultEmergency(alerts, sites);
    WinnerIs(DefaultConfig, 0, alerts, sites);
  }

  /** A severe alert with nothing of emergency rank is a warning. */
  lemma SevereIsWarning(alerts: seq<WeatherAlert>, sites: EocStates)
    requires SomeSeverity(alerts, "severe")
    requires !SomeSeverity(alerts, "extreme") && !SomeEvent(alerts, "tropical cyclone warning")
    requires !SomeSite(sites, "stand up")
    ensures Winner(DefaultConfig, alerts, sites) == Some("warning")
  {
    DefaultEmergency(alerts, sites);
    DefaultWarning(alerts, sites);
    WinnerIs(DefaultConfig, 1, alerts, sites);
  }

  /** No alerts and no activated site: the default table yields the inactive state. */
  lemma QuietIsNone(sites: EocStates, now: string)
    requires forall i :: 0 <= i < |sites| ==> !sites[i].1.activated
    ensures Classify(DefaultConfig, [], sites, now) == AlertState(false, "none", "No active alerts", Some(now), [])
  {
    DefaultEmergency([], sites);
    DefaultWarning([], sites);
    DefaultWatch([], sites);
    DefaultAdvisory([], sites);
    ClassifyIsHighestTriggered(DefaultConfig, [], sites, now);
  }
}
