/**
 * The local alert engine: it evaluates the alert state, commits it only when
 * `active` or `level` changes, and on a change updates the shared state, the
 * Home Assistant sensor, and runs the level's routines, notification and
 * VOIP calls, or the all-clear routines and notification.  Calls into Home
 * Assistant and the VOIP transport are recorded in the ghost `log`.
 */
module LocalAlertEngine {
  import opened Wrappers
  import opened Text
  import opened OrderedDict
  import opened Records
  import opened AlertConfig
  import opened Classifier
  import opened Voip
  import opened WebUi

  const LocalAlertSensor := "binary_sensor.forewarned_local_alert"

  /** The sensor update for a state. */
  function SensorEffect(s: AlertState): Effect {
    SetSensor(LocalAlertSensor, if s.active then "on" else "off",
      LocalAlertAttributes(s.level, s.reason, Join(s.triggeredBy, ", "), s.timestamp))
  }

  /** The routine key of each alert level. */
  function LevelRoutineKey(level: string): Option<string> {
    if level in {"advisory", "watch", "warning", "emergency"} then Some(level + "_alert") else None
  }

  /** The routine list run when `level` becomes active (none when unmapped or unconfigured). */
  function LevelRoutines(c: Config, level: string): seq<string> {
    match LevelRoutineKey(level)
    case None => []
    case Some(key) => RoutineList(c, key)
  }

  function ActivationNotice(s: AlertState): Effect {
    Notify("Local alert activated: " + s.reason, "Forewarned - " + Upper(s.level) + " Alert")
  }

  const AllClearNotice := Notify("All alerts have been cleared", "Forewarned - All Clear")

  /** One call request per configured extension, in order. */
  function CallEffects(extensions: seq<string>, level: string, reason: string): seq<Effect>
    decreases |extensions|
  {
    if extensions == [] then []
    else
      CallEffects(extensions[..|extensions| - 1], level, reason)
        + [AlertCall(extensions[|extensions| - 1], level, reason)]
  }

  /**
   * How VOIP is set up: `None` when there is no integration object,
   * `Some(enabled)` otherwise.
   */
  type VoipMode = Option<bool>

  /** `_trigger_routines` followed by `_make_voip_calls`. */
  function ActivationEffects(c: Config, voip: VoipMode, s: AlertState): seq<Effect> {
    RoutineEffects(LevelRoutines(c, s.level)) + [ActivationNotice(s)]
      + (if voip == Some(true) then CallEffects(CallList(c, s.level), s.level, s.reason) else [])
  }

  /** `_trigger_clear_routine`. */
  function ClearEffects(c: Config): seq<Effect> {
    RoutineEffects(RoutineList(c, "alert_cleared")) + [AllClearNotice]
  }

  /** A transition happens when `active` or `level` differs. */
  predicate Changed(current: AlertState, next: AlertState) {
    current.active != next.active || current.level != next.level
  }

  /** Everything the outside world sees when `next` is evaluated while `current` is committed. */
  function TransitionEffects(c: Config, voip: VoipMode, current: AlertState, next: AlertState): seq<Effect> {
    if !Changed(current, next) then []
    else [SensorEffect(next)] + (if next.active then ActivationEffects(c, voip, next) else ClearEffects(c))
  }

  /** The committed state after evaluating `next`. */
  function Committed(current: AlertState, next: AlertState): AlertState {
    if Changed(current, next) then next else current
  }

  class LocalAlertManager {
    const config: Config
    const voip: VoipIntegration?
    /** Where the update callback writes. */
    const app: AppState
    var currentState: AlertState
    ghost var log: seq<Effect>

    function Mode(): VoipMode
      reads this, voip
    {
      if voip == null then None else Some(voip.enabled)
    }

    constructor (config: Config, voip: VoipIntegration?, app: AppState)
      ensures this.config == config && this.voip == voip && this.app == app
      ensures currentState == InitialAlertState
      ensures log == []
    {
      this.config := config;
      this.voip := voip;
      this.app := app;
      currentState := InitialAlertState;
      log := [];
    }

    /**
     * `update_and_trigger`: `readings` are the override switch states,
     * `now` the clock, and `reachable` the extensions whose webhook request
     * is accepted.  The new state is committed, handed to the shared state
     * and acted upon only when it is a transition.
     */
    method UpdateAndTrigger(readings: Readings, alerts: seq<WeatherAlert>, sites: EocStates,
                            now: string, reachable: set<string>)
      modifies this, app
      ensures var next := Evaluate(config, readings, alerts, sites, now);
        && currentState == Committed(old(currentState), next)
        && log == old(log) + TransitionEffects(config, Mode(), old(currentState), next)
        && (Changed(old(currentState), next) ==> app.localAlertState == next)
        && (!Changed(old(currentState), next) ==> app.localAlertState == old(app.localAlertState))
      ensures app.weatherAlerts == old(app.weatherAlerts) && app.eocStates == old(app.eocStates)
      ensures app.lastUpdate == old(app.lastUpdate) && app.alertManagerAttached == old(app.alertManagerAttached)
    {
      var next := EvaluateAlertState(config, readings, alerts, sites, now);
      var previous := currentState;
      if previous.active != next.active || previous.level != next.level {
        currentState := next;
        var _ := app.UpdateLocalAlertState(next.active, next.level, next.reason, Some(next.triggeredBy), now);
        ActOnTransition(previous, next, reachable);
      }
    }

    /** The tail of `update_and_trigger` once a transition is committed: sensor, then routines or all-clear. */
    method ActOnTransition(previous: AlertState, next: AlertState, reachable: set<string>)
      requires Changed(previous, next)
      modifies this
      ensures currentState == old(currentState)
      ensures log == old(log) + TransitionEffects(config, Mode(), previous, next)
    {
      UpdateHaSensor(next);
      if next.active {
        TriggerRoutines(next, reachable);
      } else {
        TriggerClearRoutine();
      }
    }

    /** `_update_ha_sensor`. */
    method UpdateHaSensor(s: AlertState)
      modifies this
      ensures currentState == old(currentState)
      ensures log == old(log) + [SensorEffect(s)]
    {
      log := log + [SensorEffect(s)];
    }

    /** Runs a routine list: scenes are activated, scripts run, other entries skipped. */
    method RunRoutines(actions: seq<string>)
      modifies this
      ensures currentState == old(currentState)
      ensures log == old(log) + RoutineEffects(actions)
    {
      for i := 0 to |actions|
        invariant currentState == old(currentState)
        invariant log == old(log) + RoutineEffects(actions[..i])
      {
        assert actions[..i + 1][..i] == actions[..i];
        var routine := actions[i];
        if StartsWith(routine, "scene.") {
          log := log + [ActivateScene(routine)];
        } else if StartsWith(routine, "script.") {
          log := log + [RunScript(routine)];
        }
      }
      assert actions[..|actions|] == actions;
    }

    /** `_trigger_routines`: the level's routines, the notification, then the VOIP calls. */
    method TriggerRoutines(s: AlertState, reachable: set<string>)
      modifies this
      ensures currentState == old(currentState)
      ensures log == old(log) + ActivationEffects(config, Mode(), s)
    {
      var key := LevelRoutineKey(s.level);
      if key.Some? && key.value in config.routines {
        RunRoutines(config.routines[key.value]);
      }
      log := log + [ActivationNotice(s)];
      if voip != null {
        MakeVoipCalls(s.level, s.reason, reachable);
      }
    }

    /** `_make_voip_calls`: one call per configured extension; a failed call does not stop the others. */
    method MakeVoipCalls(level: string, reason: string, reachable: set<string>)
      requires voip != null
      modifies this
      ensures currentState == old(currentState)
      ensures log == old(log) + (if voip.enabled then CallEffects(CallList(config, level), level, reason) else [])
    {
      if !voip.enabled {
        return;
      }
      var extensions := if level in config.alertCalls then config.alertCalls[level] else [];
      for i := 0 to |extensions|
        invariant currentState == old(currentState)
        invariant log == old(log) + CallEffects(extensions[..i], level, reason)
      {
        assert extensions[..i + 1][..i] == extensions[..i];
        log := log + [AlertCall(extensions[i], level, reason)];
        var _ := voip.MakeAlertCall(extensions[i], level, reason, extensions[i] in reachable);
      }
      assert extensions[..|extensions|] == extensions;
    }

    /** `_trigger_clear_routine`: the `alert_cleared` routines, then the all-clear notification. */
    method TriggerClearRoutine()
      modifies this
      ensures currentState == old(currentState)
      ensures log == old(log) + ClearEffects(config)
    {
      var clearRoutines := if "alert_cleared" in config.routines then config.routines["alert_cleared"] else [];
      RunRoutines(clearRoutines);
      log := log + [AllClearNotice];
    }
  }

  // ---------------------------------------------------------------------
  // What a transition does
  // ---------------------------------------------------------------------

  /** Every requested call is for one of the level's configured extensions. */
  lemma {:induction false} CallEffectsExactly(extensions: seq<string>, level: string, reason: string)
    ensures forall e :: e in CallEffects(extensions, level, reason) ==>
      e.AlertCall? && e.extension in extensions && e.level == level && e.reason == reason
    ensures forall x :: x in extensions ==> AlertCall(x, level, reason) in CallEffects(extensions, level, reason)
    decreases |extensions|
  {
    if extensions != [] {
      var init := extensions[..|extensions| - 1];
      CallEffectsExactly(init, level, reason);
      assert extensions == init + [extensions[|extensions| - 1]];
    }
  }

  /** Clearing never places a call: it only runs `alert_cleared` scenes and scripts and sends the all-clear. */
  lemma ClearingNeverCalls(c: Config, voip: VoipMode, current: AlertState, next: AlertState)
    requires !next.active
    ensures forall e :: e in TransitionEffects(c, voip, current, next) ==>
      || e == SensorEffect(next) || e == AllClearNotice
      || (e.ActivateScene? && e.scene in RoutineList(c, "alert_cleared"))
      || (e.RunScript? && e.script in RoutineList(c, "alert_cleared"))
    ensures forall e :: e in TransitionEffects(c, voip, current, next) ==> !e.AlertCall?
  {
    RoutineEffectsExactly(RoutineList(c, "alert_cleared"));
  }

  /**
   * An activation with VOIP present and enabled calls every extension
   * configured for the level, with the level and reason; otherwise it calls
   * nobody.
   */
  lemma ActivationCalls(c: Config, voip: VoipMode, current: AlertState, next: AlertState)
    requires Changed(current, next) && next.active
    ensures voip == Some(true) ==> forall x :: x in CallList(c, next.level) ==>
      AlertCall(x, next.level, next.reason) in TransitionEffects(c, voip, current, next)
    ensures forall e :: e in TransitionEffects(c, voip, current, next) && e.AlertCall? ==>
      voip == Some(true) && e.extension in CallList(c, next.level) && e.level == next.level && e.reason == next.reason
  {
    CallEffectsExactly(CallList(c, next.level), next.level, next.reason);
    RoutineEffectsExactly(LevelRoutines(c, next.level));
  }

  lemma {:induction false} RoutineEffectsKinds(actions: seq<string>)
    ensures forall k :: 0 <= k < |RoutineEffects(actions)| ==>
      RoutineEffects(actions)[k].ActivateScene? || RoutineEffects(actions)[k].RunScript?
    decreases |actions|
  {
    if actions != [] {
      RoutineEffectsKinds(actions[..|actions| - 1]);
    }
  }

  lemma {:induction false} CallEffectsKinds(extensions: seq<string>, level: string, reason: string)
    ensures forall k :: 0 <= k < |CallEffects(extensions, level, reason)| ==> CallEffects(extensions, level, reason)[k].AlertCall?
    decreases |extensions|
  {
    if extensions != [] {
      CallEffectsKinds(extensions[..|extensions| - 1], level, reason);
    }
  }

  /** The positions of a log made of a sensor update, routine effects, a notification and calls. */
  lemma LogShape(sensor: Effect, routines: seq<Effect>, notice: Effect, calls: seq<Effect>)
    requires forall k :: 0 <= k < |routines| ==> routines[k].ActivateScene? || routines[k].RunScript?
    requires forall k :: 0 <= k < |calls| ==> calls[k].AlertCall?
    ensures var log := [sensor] + routines + [notice] + calls;
      var n := 1 + |routines|;
      forall k :: 0 <= k < |log| ==>
        || (k == 0 && log[k] == sensor)
        || (0 < k < n && (log[k].ActivateScene? || log[k].RunScript?))
        || (k == n && log[k] == notice)
        || (n < k && log[k].AlertCall?)
  {
    var log := [sensor] + routines + [notice] + calls;
    var n := 1 + |routines|;
    forall k | 0 < k < n ensures log[k] == routines[k - 1] { }
    forall k | n < k < |log| ensures log[k] == calls[k - n - 1] { }
  }

  /** The shape of an activation: the sensor update, the routine effects, the notification, the calls. */
  lemma ActivationShape(c: Config, voip: VoipMode, current: AlertState, next: AlertState)
    requires Changed(current, next) && next.active
    ensures var log := TransitionEffects(c, voip, current, next);
      var n := 1 + |RoutineEffects(LevelRoutines(c, next.level))|;
      && n < |log|
      && forall k :: 0 <= k < |log| ==>
        || (k == 0 && log[k] == SensorEffect(next))
        || (0 < k < n && (log[k].ActivateScene? || log[k].RunScript?))
        || (k == n && log[k] == ActivationNotice(next))
        || (n < k && log[k].AlertCall?)
  {
    var routines := RoutineEffects(LevelRoutines(c, next.level));
    var calls := if voip == Some(true) then CallEffects(CallList(c, next.level), next.level, next.reason) else [];
    RoutineEffectsKinds(LevelRoutines(c, next.level));
    CallEffectsKinds(CallList(c, next.level), next.level, next.reason);
    LogShape(SensorEffect(next), routines, ActivationNotice(next), calls);
    assert TransitionEffects(c, voip, current, next) == [SensorEffect(next)] + routines + [ActivationNotice(next)] + calls;
  }

  /**
   * The order of an activation: the sensor update first, one notification,
   * every routine effect before it and every call after it.
   */
  lemma ActivationOrder(c: Config, voip: VoipMode, current: AlertState, next: AlertState)
    requires Changed(current, next) && next.active
    ensures var log := TransitionEffects(c, voip, current, next);
      && log[0] == SensorEffect(next)
      && (forall i :: 0 <= i < |log| && log[i].Notify? ==> log[i] == ActivationNotice(next))
      && (forall i, j :: 0 <= i < j < |log| && log[i].Notify? ==> !log[j].ActivateScene? && !log[j].RunScript?)
      && (forall i, j :: 0 <= i < j < |log| && log[j].Notify? ==> !log[i].AlertCall?)
  {
    ActivationShape(c, voip, current, next);
  }

  /**
   * Evaluating the same inputs again, at any later time, is not a
   * transition: nothing is committed and nothing is dispatched.
   */
  lemma RepeatIsQuiet(c: Config, voip: VoipMode, current: AlertState, readings: Readings,
                      alerts: seq<WeatherAlert>, sites: EocStates, now1: string, now2: string)
    ensures var committed := Committed(current, Evaluate(c, readings, alerts, sites, now1));
      var again := Evaluate(c, readings, alerts, sites, now2);
      && Committed(committed, again) == committed
      && TransitionEffects(c, voip, committed, again) == []
  {
    var first := Evaluate(c, readings, alerts, sites, now1);
    var again := Evaluate(c, readings, alerts, sites, now2);
    assert first.active == again.active && first.level == again.level;
    if !Changed(current, first) {
      assert first.active == current.active && first.level == current.level;
    }
  }

  /** Two updates with the same inputs: the second one commits and dispatches nothing. */
  method UpdateTwice(m: LocalAlertManager, readings: Readings, alerts: seq<WeatherAlert>, sites: EocStates,
                     now1: string, now2: string, reachable: set<string>)
    modifies m, m.app
    ensures m.log == old(m.log) + TransitionEffects(m.config, m.Mode(), old(m.currentState),
                                                     Evaluate(m.config, readings, alerts, sites, now1))
    ensures m.currentState == Committed(old(m.currentState), Evaluate(m.config, readings, alerts, sites, now1))
  {
    m.UpdateAndTrigger(readings, alerts, sites, now1, reachable);
    m.UpdateAndTrigger(readings, alerts, sites, now2, reachable);
    RepeatIsQuiet(m.config, m.Mode(), old(m.currentState), readings, alerts, sites, now1, now2);
  }
}
