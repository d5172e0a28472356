/**
 * The shared application state that the monitors and the engine write and
 * the web UI reads, with its update helpers and the two read-only views
 * (`/voip/status` and `/api/eoc`) that compute something.
 */
module WebUi {
  import opened Wrappers
  import opened Text
  import opened OrderedDict
  import opened Records
  import Voip

  /** The reply of `/voip/status`. */
  datatype VoipStatusReply = VoipStatusReply(active: bool, level: string, reason: string, message: string)

  /** The reply of `/api/eoc`. */
  datatype EocReply = EocReply(states: EocStates, activatedCount: nat)

  /** The module-level `app_state` dictionary. */
  class AppState {
    var weatherAlerts: seq<WeatherAlert>
    var eocStates: EocStates
    var lastUpdate: Option<string>
    var localAlertState: AlertState
    /** Whether an alert manager has been stored under `alert_manager`. */
    var alertManagerAttached: bool

    /** The initial value: no alerts, no sites, never updated, the inactive local state. */
    constructor ()
      ensures weatherAlerts == [] && eocStates == [] && lastUpdate == None
      ensures localAlertState == InitialAlertState
      ensures localAlertState.active == false && localAlertState.level == "none"
      ensures localAlertState.reason == "" && localAlertState.triggeredBy == []
      ensures !alertManagerAttached
    {
      weatherAlerts := [];
      eocStates := [];
      lastUpdate := None;
      localAlertState := InitialAlertState;
      alertManagerAttached := false;
    }

    /** The start-up wiring stores the alert manager in the shared state. */
    method AttachAlertManager()
      modifies this
      ensures alertManagerAttached
      ensures weatherAlerts == old(weatherAlerts) && eocStates == old(eocStates)
      ensures lastUpdate == old(lastUpdate) && localAlertState == old(localAlertState)
    {
      alertManagerAttached := true;
    }

    /** `update_state`: each given field replaces the stored one; `last_update` always becomes `now`. */
    method UpdateState(weatherAlerts: Option<seq<WeatherAlert>>, eocStates: Option<EocStates>,
                       localAlertState: Option<AlertState>, now: string)
      modifies this
      ensures this.weatherAlerts == weatherAlerts.GetOr(old(this.weatherAlerts))
      ensures this.eocStates == eocStates.GetOr(old(this.eocStates))
      ensures this.localAlertState == localAlertState.GetOr(old(this.localAlertState))
      ensures lastUpdate == Some(now)
      ensures alertManagerAttached == old(alertManagerAttached)
    {
      if weatherAlerts.Some? {
        this.weatherAlerts := weatherAlerts.value;
      }
      if eocStates.Some? {
        this.eocStates := eocStates.value;
      }
      if localAlertState.Some? {
        this.localAlertState := localAlertState.value;
      }
      lastUpdate := Some(now);
    }

    /**
     * `update_local_alert_state`, the engine's callback: the whole local
     * record is replaced (a missing `triggered_by` becomes the empty list)
     * and returned; nothing else changes.
     */
    method UpdateLocalAlertState(active: bool, level: string, reason: string,
                                 triggeredBy: Option<seq<string>>, now: string)
      returns (record: AlertState)
      modifies this
      ensures record == AlertState(active, level, reason, Some(now), triggeredBy.GetOr([]))
      ensures localAlertState == record
      ensures weatherAlerts == old(weatherAlerts) && eocStates == old(eocStates)
      ensures lastUpdate == old(lastUpdate) && alertManagerAttached == old(alertManagerAttached)
    {
      var triggers := if triggeredBy.Some? then triggeredBy.value else [];
      localAlertState := AlertState(active, level, reason, Some(now), triggers);
      record := localAlertState;
    }

    /** `/voip/status` on the current shared state. */
    function VoipStatus(): VoipStatusReply
      reads this
    {
      VoipStatusFor(localAlertState)
    }

    /** `/api/eoc` on the current shared state. */
    function ApiEoc(): (r: EocReply)
      reads this
      ensures r.states == eocStates
      ensures r.activatedCount <= |eocStates|
      ensures r.activatedCount > 0 <==> exists i :: 0 <= i < |eocStates| && eocStates[i].1.activated
    {
      CountActivatedPositive(eocStates);
      EocReply(eocStates, CountActivated(eocStates))
    }
  }

  /** The message of `/voip/status`, built from the local alert state. */
  function StatusMessage(s: AlertState): string {
    if !s.active then "There are currently no active alerts." + " All systems normal."
    else
      var message := "Current alert level is " + Upper(s.level) + ". " + s.reason + ". ";
      if s.level == "emergency" then message + "This is an emergency. Take immediate action."
      else if s.level == "warning" then message + "This is a warning. Take appropriate precautions."
      else if s.level == "watch" then message + "This is a watch alert. Monitor conditions closely."
      else if s.level == "advisory" then message + "This is an advisory. Be aware of conditions."
      else message
  }

  function VoipStatusFor(s: AlertState): (r: VoipStatusReply)
    ensures r.active == s.active && r.level == s.level && r.reason == s.reason
  {
    VoipStatusReply(s.active, s.level, s.reason, StatusMessage(s))
  }

  /**
   * The web UI's status message and the VOIP integration's status text
   * follow the same rule: the fixed sentence when inactive, otherwise the
   * level, the reason and the level's advice.
   */
  lemma StatusMessageAgreesWithVoip(s: AlertState)
    ensures StatusMessage(s) == Voip.StatusTts(Some(s))
    ensures VoipStatusFor(s).message == Voip.StatusTts(Some(s))
  {
  }
}
