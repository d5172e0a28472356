/**
 * The VOIP integration: backend selection at start-up, the outbound alert
 * call dispatch, and the texts spoken on outbound and inbound calls.
 */
module Voip {
  import opened Wrappers
  import opened Text
  import opened Records

  /** The `voip` configuration keys read at start-up; absent keys are `None`. */
  datatype VoipConfig = VoipConfig(enabled: Option<bool>, backend: Option<string>)

  /**
   * The integration object.  `sipAvailable` says whether the SIP library
   * could be loaded; the state callback of the source is replaced by passing
   * the current alert state to the text builders.
   */
  class VoipIntegration {
    var enabled: bool
    var backend: string
    const sipAvailable: bool

    /** `__init__`: defaults `enabled=False`, `backend='webhook'`; the `sip` backend initialises SIP. */
    constructor (config: VoipConfig, sipAvailable: bool)
      ensures this.sipAvailable == sipAvailable
      ensures backend == config.backend.GetOr("webhook")
      ensures enabled == (config.enabled.GetOr(false) && (backend == "sip" ==> sipAvailable))
    {
      enabled := config.enabled.GetOr(false);
      backend := config.backend.GetOr("webhook");
      this.sipAvailable := sipAvailable;
      new;
      if enabled && backend == "sip" {
        InitSip();
      }
    }

    /** `_init_sip`: without the SIP library the integration switches itself off. */
    method InitSip()
      modifies this
      ensures backend == old(backend)
      ensures enabled == (old(enabled) && sipAvailable)
    {
      if !sipAvailable {
        enabled := false;
      }
    }

    /**
     * `make_alert_call`: `webhookOk` is whether the webhook request was
     * accepted (a 200, 201 or 202 status).  Disabled integrations and
     * unknown backends fail, `sip` always fails, `ha_notify` always succeeds.
     */
    method MakeAlertCall(extension: string, level: string, reason: string, webhookOk: bool) returns (ok: bool)
      ensures !enabled ==> !ok
      ensures backend == "sip" ==> !ok
      ensures enabled && backend == "webhook" ==> ok == webhookOk
      ensures enabled && backend == "ha_notify" ==> ok
      ensures backend != "sip" && backend != "webhook" && backend != "ha_notify" ==> !ok
    {
      if !enabled {
        return false;
      }
      var message := AlertMessage(level, reason);
      if backend == "sip" {
        ok := false;
      } else if backend == "webhook" {
        ok := webhookOk;
      } else if backend == "ha_notify" {
        ok := true;
      } else {
        ok := false;
      }
    }
  }

  /** The text around the reason in an outbound call message, per level. */
  function AlertFrame(level: string): (string, string) {
    if level == "advisory" then ("Advisory alert: ", "")
    else if level == "watch" then ("Watch alert: ", ". Monitor conditions.")
    else if level == "warning" then ("Warning! ", ". Take precautions.")
    else if level == "emergency" then ("Emergency alert! ", ". Take immediate action!")
    else ("Alert: ", "")
  }

  /** `_generate_alert_message`: the reason inside its level's fixed frame. */
  function AlertMessage(level: string, reason: string): (m: string)
    ensures OccursAt(m, |AlertFrame(level).0|, reason)
    ensures |m| == |AlertFrame(level).0| + |reason| + |AlertFrame(level).1|
  {
    AlertFrame(level).0 + reason + AlertFrame(level).1
  }

  /** For a given level the message determines the reason, and an unknown level gets the generic frame. */
  lemma AlertMessageRecoversReason(level: string, r1: string, r2: string)
    ensures AlertMessage(level, r1) == AlertMessage(level, r2) ==> r1 == r2
    ensures level !in {"advisory", "watch", "warning", "emergency"} ==> AlertMessage(level, r1) == "Alert: " + r1
  {
    var m1, m2 := AlertMessage(level, r1), AlertMessage(level, r2);
    if m1 == m2 {
      var p := |AlertFrame(level).0|;
      assert m1[p..p + |r1|] == r1;
      assert m2[p..p + |r2|] == r2;
    }
  }

  const NoActiveAlertsText: string := "There are currently no active alerts." + " All systems normal."

  /** The sentence appended for a known level; nothing for any other level. */
  function LevelSuffix(level: string): string {
    if level == "emergency" then "This is an emergency. Take immediate action."
    else if level == "warning" then "This is a warning. Take appropriate precautions."
    else if level == "watch" then "This is a watch alert. Monitor conditions closely."
    else if level == "advisory" then "This is an advisory. Be aware of conditions."
    else ""
  }

  function StatusHead(s: AlertState): string {
    "Current alert level is " + Upper(s.level) + ". " + s.reason + ". "
  }

  /**
   * `generate_status_tts`; `None` stands for an empty state.  The fixed
   * sentence is said exactly when there is no active state; otherwise the
   * level (upper-cased) and the reason are said, followed by the level's
   * advice.
   */
  function StatusTts(state: Option<AlertState>): (m: string)
    ensures m == NoActiveAlertsText <==> state.None? || !state.value.active
    ensures state.Some? && state.value.active ==>
      StartsWith(m, StatusHead(state.value)) && EndsWith(m, LevelSuffix(state.value.level))
  {
    if state.None? || !state.value.active then NoActiveAlertsText
    else
      var head := StatusHead(state.value);
      var m := head + LevelSuffix(state.value.level);
      assert head[0] == 'C' && m[0] == head[0];
      assert NoActiveAlertsText[0] == 'T';
      m
  }

  const TwimlHead := "<?xml version=\"1.0\" encoding=\"UTF-8\"?>\n<Response>\n    <Say voice=\"alice\">"
  const TwimlTail := "</Say>\n    <Pause length=\"2\"/>\n    <Say voice=\"alice\">Press 1 to repeat this message. Press 2 to hang up.</Say>\n    <Gather numDigits=\"1\" action=\"/voip/menu\" method=\"POST\">\n        <Pause length=\"5\"/>\n    </Gather>\n    <Say voice=\"alice\">Goodbye.</Say>\n</Response>"

  /** `generate_twiml_response` for a given status text: the text sits verbatim in the first `<Say>`. */
  function Twiml(message: string): (x: string)
    ensures StartsWith(x, TwimlHead) && EndsWith(x, TwimlTail)
    ensures |x| == |TwimlHead| + |message| + |TwimlTail|
    ensures x[|TwimlHead|..|x| - |TwimlTail|] == message
  {
    TwimlHead + message + TwimlTail
  }

  const AgiHead := "ANSWER\nWAIT 1\nEXEC Set(CHANNEL(language)=en)\nEXEC SayText(\""
  const AgiTail := "\")\nWAIT 2\nHANGUP\n"

  /** `generate_asterisk_agi` for a given status text: the text sits verbatim in the `SayText` argument. */
  function AgiScript(message: string): (x: string)
    ensures StartsWith(x, AgiHead) && EndsWith(x, AgiTail)
    ensures |x| == |AgiHead| + |message| + |AgiTail|
    ensures x[|AgiHead|..|x| - |AgiTail|] == message
  {
    AgiHead + message + AgiTail
  }

  /** Different status texts give different TwiML and AGI documents. */
  lemma TemplatesInjective(m1: string, m2: string)
    ensures Twiml(m1) == Twiml(m2) ==> m1 == m2
    ensures AgiScript(m1) == AgiScript(m2) ==> m1 == m2
  {
    if Twiml(m1) == Twiml(m2) {
      assert Twiml(m1)[|TwimlHead|..|Twiml(m1)| - |TwimlTail|] == m1;
    }
    if AgiScript(m1) == AgiScript(m2) {
      assert AgiScript(m1)[|AgiHead|..|AgiScript(m1)| - |AgiTail|] == m1;
    }
  }

  /** The inbound-call documents for a state. */
  function StatusTwiml(state: Option<AlertState>): string {
    Twiml(StatusTts(state))
  }

  function StatusAgi(state: Option<AlertState>): string {
    AgiScript(StatusTts(state))
  }
}
