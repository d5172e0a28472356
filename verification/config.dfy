/**
 * The part of the add-on configuration the engine reads: the per-level rule
 * table, the routine lists and the VOIP call lists, with the defaults the
 * configuration loader installs.
 */
module AlertConfig {
  import opened Wrappers

  /**
   * One rule of a condition set.  A rule is a small dictionary; which keys
   * are present decides its kind (`severity` makes it a weather rule, else
   * `state` makes it an EOC rule, else it is ignored).
   */
  datatype Rule = Rule(eventType: Option<string>, severity: Option<string>, state: Option<string>)

  /** `{'operator': ..., 'rules': [...]}`; a missing operator reads as `'or'`. */
  datatype ConditionSet = ConditionSet(operator: string, rules: seq<Rule>)

  /** A missing condition set: `{}` reads as operator `'or'` with no rules. */
  const NoConditions := ConditionSet("or", [])

  /** The rule entry of one alert level. */
  datatype LevelRule = LevelRule(weatherConditions: ConditionSet, eocConditions: ConditionSet, conditionLogic: string)

  /** A level missing from the rule table. */
  const UnconfiguredLevel := LevelRule(NoConditions, NoConditions, "or")

  /**
   * `alertRules` is `config['alert_rules']`, `routines` is `config['routines']`
   * and `alertCalls` is `config['voip']['alert_calls']` (extensions per level).
   */
  datatype Config = Config(
    alertRules: map<string, LevelRule>,
    routines: map<string, seq<string>>,
    alertCalls: map<string, seq<string>>)

  /** `alert_rules.get(level, {})`. */
  function LevelRuleFor(c: Config, level: string): LevelRule {
    if level in c.alertRules then c.alertRules[level] else UnconfiguredLevel
  }

  /** `routines.get(key, [])`. */
  function RoutineList(c: Config, key: string): seq<string> {
    if key in c.routines then c.routines[key] else []
  }

  /** `alert_calls.get(level, [])`. */
  function CallList(c: Config, level: string): seq<string> {
    if level in c.alertCalls then c.alertCalls[level] else []
  }

  function WeatherRule(eventType: string, severity: string): Rule {
    Rule(Some(eventType), Some(severity), None)
  }

  function EocRule(state: string): Rule {
    Rule(None, None, Some(state))
  }

  /** The default `alert_rules` table. */
  const DefaultAlertRules: map<string, LevelRule> := map[
    "advisory" := LevelRule(
      ConditionSet("or", [WeatherRule("any", "minor")]),
      ConditionSet("or", [EocRule("alert"), EocRule("stand down")]),
      "or"),
    "watch" := LevelRule(
      ConditionSet("or", [WeatherRule("any", "moderate")]),
      ConditionSet("or", [EocRule("lean forward")]),
      "or"),
    "warning" := LevelRule(
      ConditionSet("or", [WeatherRule("any", "severe")]),
      ConditionSet("or", []),
      "or"),
    "emergency" := LevelRule(
      ConditionSet("or", [WeatherRule("any", "extreme"), WeatherRule("Tropical Cyclone Warning", "any")]),
      ConditionSet("or", [EocRule("stand up")]),
      "or")
  ]

  /** The default `routines` table: every key present, every list empty. */
  const DefaultRoutines: map<string, seq<string>> := map[
    "tornado_warning" := [],
    "severe_weather" := [],
    "eoc_activated" := [],
    "eoc_alert" := [],
    "eoc_lean_forward" := [],
    "eoc_stand_up" := [],
    "eoc_stand_down" := [],
    "advisory_alert" := [],
    "watch_alert" := [],
    "warning_alert" := [],
    "emergency_alert" := [],
    "alert_cleared" := []
  ]

  /** The defaults, with no VOIP call lists configured. */
  const DefaultConfig := Config(DefaultAlertRules, DefaultRoutines, map[])
}
