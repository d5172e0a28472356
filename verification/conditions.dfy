/**
 * Evaluation of one condition set (`_evaluate_conditions`): every typed rule
 * contributes one boolean result, and the set's operator combines them.
 */
module Conditions {
  import opened Wrappers
  import opened Text
  import opened OrderedDict
  import opened Records
  import opened AlertConfig

  /** A rule with a `severity` key is a weather rule, whatever else it holds. */
  predicate IsWeatherRule(r: Rule) {
    r.severity.Some?
  }

  /** A rule without `severity` but with `state` is an EOC rule. */
  predicate IsEocRule(r: Rule) {
    r.severity.None? && r.state.Some?
  }

  /** Only typed rules contribute a result. */
  predicate Typed(r: Rule) {
    IsWeatherRule(r) || IsEocRule(r)
  }

  /** The lowered `type` of a weather rule, `'any'` when absent. */
  function TargetType(r: Rule): string {
    Lower(r.eventType.GetOr("any"))
  }

  /** One alert satisfies a weather rule: type by substring, severity by equality, `'any'` as wildcard. */
  predicate AlertMatches(r: Rule, a: WeatherAlert)
    requires IsWeatherRule(r)
  {
    var t := TargetType(r);
    var s := Lower(r.severity.value);
    (t == "any" || Contains(Lower(a.event), t)) && (s == "any" || s == Lower(a.severity))
  }

  predicate WeatherRuleMatches(r: Rule, alerts: seq<WeatherAlert>)
    requires IsWeatherRule(r)
  {
    exists i :: 0 <= i < |alerts| && AlertMatches(r, alerts[i])
  }

  /** An activated site whose lowered state is the lowered target. */
  predicate SiteMatches(target: string, site: EocSite) {
    site.activated && Lower(site.state) == target
  }

  predicate EocRuleMatches(r: Rule, sites: EocStates)
    requires IsEocRule(r)
  {
    exists i :: 0 <= i < |sites| && SiteMatches(Lower(r.state.value), sites[i].1)
  }

  /** What a typed rule reports; untyped rules report nothing (see `RuleResults`). */
  predicate RuleMatched(r: Rule, alerts: seq<WeatherAlert>, sites: EocStates) {
    if IsWeatherRule(r) then WeatherRuleMatches(r, alerts)
    else if IsEocRule(r) then EocRuleMatches(r, sites)
    else false
  }

  /** The `results` list: one entry per typed rule, in rule order. */
  function RuleResults(rules: seq<Rule>, alerts: seq<WeatherAlert>, sites: EocStates): seq<bool>
    decreases |rules|
  {
    if rules == [] then []
    else
      var last := rules[|rules| - 1];
      RuleResults(rules[..|rules| - 1], alerts, sites)
        + (if Typed(last) then [RuleMatched(last, alerts, sites)] else [])
  }

  predicate AllTrue(results: seq<bool>) {
    forall i :: 0 <= i < |results| ==> results[i]
  }

  predicate AnyTrue(results: seq<bool>) {
    exists i :: 0 <= i < |results| && results[i]
  }

  /** A condition set holds: no rules is false; `'and'` is `all(results)`; any other operator is `any(results)`. */
  predicate ConditionsHold(c: ConditionSet, alerts: seq<WeatherAlert>, sites: EocStates) {
    var results := RuleResults(c.rules, alerts, sites);
    c.rules != [] && (if c.operator == "and" then AllTrue(results) else AnyTrue(results))
  }

  /** The results list reports, for all and for some, exactly the typed rules' matches. */
  lemma {:induction false} RuleResultsMeaning(rules: seq<Rule>, alerts: seq<WeatherAlert>, sites: EocStates)
    ensures AllTrue(RuleResults(rules, alerts, sites))
      <==> forall i :: 0 <= i < |rules| && Typed(rules[i]) ==> RuleMatched(rules[i], alerts, sites)
    ensures AnyTrue(RuleResults(rules, alerts, sites))
      <==> exists i :: 0 <= i < |rules| && Typed(rules[i]) && RuleMatched(rules[i], alerts, sites)
    decreases |rules|
  {
    if rules != [] {
      var init, last := rules[..|rules| - 1], rules[|rules| - 1];
      RuleResultsMeaning(init, alerts, sites);
      var prev := RuleResults(init, alerts, sites);
      var tail := if Typed(last) then [RuleMatched(last, alerts, sites)] else [];
      var res := RuleResults(rules, alerts, sites);
      assert res == prev + tail;
      assert forall i :: 0 <= i < |init| ==> init[i] == rules[i];
      if AnyTrue(res) {
        var j :| 0 <= j < |res| && res[j];
        if j < |prev| {
          assert prev[j];
        } else {
          assert Typed(rules[|rules| - 1]) && RuleMatched(rules[|rules| - 1], alerts, sites);
        }
      }
      if exists i :: 0 <= i < |rules| && Typed(rules[i]) && RuleMatched(rules[i], alerts, sites) {
        var i :| 0 <= i < |rules| && Typed(rules[i]) && RuleMatched(rules[i], alerts, sites);
        if i < |init| {
          var j :| 0 <= j < |prev| && prev[j];
          assert res[j];
        } else {
          assert res[|res| - 1];
        }
      }
      if AllTrue(res) {
        forall i | 0 <= i < |rules| && Typed(rules[i]) ensures RuleMatched(rules[i], alerts, sites) {
          if i == |rules| - 1 {
            assert res[|res| - 1];
          } else {
            assert AllTrue(prev) by {
              forall j | 0 <= j < |prev| ensures prev[j] { assert res[j] == prev[j]; }
            }
            assert init[i] == rules[i];
          }
        }
      }
    }
  }

  /**
   * A condition set holds exactly when it has rules and either its operator
   * is `'and'` and every typed rule matches, or its operator is anything else
   * and some typed rule matches.  In particular an empty set never holds and
   * an `'and'` set with no typed rule always holds.
   */
  lemma ConditionsHoldMeaning(c: ConditionSet, alerts: seq<WeatherAlert>, sites: EocStates)
    ensures ConditionsHold(c, alerts, sites) <==>
      && c.rules != []
      && (if c.operator == "and"
          then forall i :: 0 <= i < |c.rules| && Typed(c.rules[i]) ==> RuleMatched(c.rules[i], alerts, sites)
          else exists i :: 0 <= i < |c.rules| && Typed(c.rules[i]) && RuleMatched(c.rules[i], alerts, sites))
  {
    RuleResultsMeaning(c.rules, alerts, sites);
  }

  /** More weather alerts and more sites never make a condition set fail. */
  lemma ConditionsMonotone(c: ConditionSet, alerts: seq<WeatherAlert>, moreAlerts: seq<WeatherAlert>,
                           sites: EocStates, moreSites: EocStates)
    requires ConditionsHold(c, alerts, sites)
    ensures ConditionsHold(c, alerts + moreAlerts, sites + moreSites)
  {
    ConditionsHoldMeaning(c, alerts, sites);
    ConditionsHoldMeaning(c, alerts + moreAlerts, sites + moreSites);
    forall r | Typed(r) && RuleMatched(r, alerts, sites)
      ensures RuleMatched(r, alerts + moreAlerts, sites + moreSites)
    {
      if IsWeatherRule(r) {
        var i :| 0 <= i < |alerts| && AlertMatches(r, alerts[i]);
        assert (alerts + moreAlerts)[i] == alerts[i];
      } else {
        var i :| 0 <= i < |sites| && SiteMatches(Lower(r.state.value), sites[i].1);
        assert (sites + moreSites)[i] == sites[i];
      }
    }
  }

  /** The inner loop over the alerts for one weather rule. */
  method MatchWeatherRule(r: Rule, alerts: seq<WeatherAlert>) returns (matched: bool)
    requires IsWeatherRule(r)
    ensures matched == WeatherRuleMatches(r, alerts)
  {
    var targetType := Lower(r.eventType.GetOr("any"));
    var targetSeverity := Lower(r.severity.value);
    var i := 0;
    while i < |alerts|
      invariant 0 <= i <= |alerts|
      invariant forall j :: 0 <= j < i ==> !AlertMatches(r, alerts[j])
    {
      var alertType := Lower(alerts[i].event);
      var alertSeverity := Lower(alerts[i].severity);
      var typeMatch := targetType == "any" || Contains(alertType, targetType);
      var severityMatch := targetSeverity == "any" || targetSeverity == alertSeverity;
      if typeMatch && severityMatch {
        return true;
      }
      i := i + 1;
    }
    return false;
  }

  /** The inner loop over the sites for one EOC rule. */
  method MatchEocRule(r: Rule, sites: EocStates) returns (matched: bool)
    requires IsEocRule(r)
    ensures matched == EocRuleMatches(r, sites)
  {
    var targetState := Lower(r.state.value);
    var i := 0;
    while i < |sites|
      invariant 0 <= i <= |sites|
      invariant forall j :: 0 <= j < i ==> !SiteMatches(targetState, sites[j].1)
    {
      var info := sites[i].1;
      if info.activated && Lower(info.state) == targetState {
        return true;
      }
      i := i + 1;
    }
    return false;
  }

  /** `_evaluate_conditions`: builds `results` rule by rule, then applies the operator. */
  method EvaluateConditions(c: ConditionSet, alerts: seq<WeatherAlert>, sites: EocStates) returns (holds: bool)
    ensures holds == ConditionsHold(c, alerts, sites)
  {
    if c.rules == [] {
      return false;
    }
    var results: seq<bool> := [];
    for k := 0 to |c.rules|
      invariant results == RuleResults(c.rules[..k], alerts, sites)
    {
      var rule := c.rules[k];
      assert c.rules[..k + 1][..k] == c.rules[..k];
      if rule.severity.Some? {
        var m := MatchWeatherRule(rule, alerts);
        results := results + [m];
      } else if rule.state.Some? {
        var m := MatchEocRule(rule, sites);
        results := results + [m];
      }
    }
    assert c.rules[..|c.rules|] == c.rules;
    if c.operator == "and" {
      holds := forall i | 0 <= i < |results| :: results[i];
    } else {
      holds := exists i | 0 <= i < |results| :: results[i];
    }
  }
}
