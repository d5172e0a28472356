/**
 * The MQTT discovery integration: the connection flag driven by the broker
 * callbacks, the registered switches with their topics, and the switch
 * states set by discovery, by command messages and by state publications.
 * The broker and the client library are outside the model: whether a
 * publish succeeds and when the connection comes up are parameters.
 */
module Mqtt {
  import opened Wrappers
  import opened Text
  import opened OrderedDict

  const TopicRoot := "homeassistant/switch/forewarned/"

  function CommandTopic(switchId: string): string {
    TopicRoot + switchId + "/set"
  }

  function StateTopic(switchId: string): string {
    TopicRoot + switchId + "/state"
  }

  function DiscoveryTopic(switchId: string): string {
    TopicRoot + switchId + "/config"
  }

  /** A registered switch: its friendly name and its two topics. */
  datatype SwitchInfo = SwitchInfo(name: string, commandTopic: string, stateTopic: string)

  /** What the integration asks of the broker and of its owner, in order. */
  datatype MqttEvent =
    | Subscribe(topic: string)
    /** The retained discovery document; its fixed device block is not modelled. */
    | Discovery(topic: string, name: string, uniqueId: string, commandTopic: string, stateTopic: string, icon: string)
    | Publish(topic: string, payload: string, retain: bool)
    /** The owner's state-change callback. */
    | StateChanged(switchId: string, on: bool)

  /** The switch a message topic addresses: the fourth `/`-separated part under `homeassistant/switch`. */
  function TopicSwitch(topic: string): Option<string> {
    var parts := Split(topic, '/');
    if |parts| >= 4 && parts[0] == "homeassistant" && parts[1] == "switch" then Some(parts[3]) else None
  }

  /** The integration's root followed by a switch id is five `/`-joined parts. */
  lemma RootedTopicText(switchId: string, tail: string)
    ensures TopicRoot + switchId + "/" + tail
      == "homeassistant" + ['/'] + ("switch" + ['/'] + ("forewarned" + ['/'] + (switchId + ['/'] + tail)))
  {
    assert TopicRoot == "homeassistant" + ['/'] + "switch" + ['/'] + "forewarned" + ['/'];
  }

  /** Any topic under the integration's root names the part right after the root. */
  lemma {:induction false} RootedTopicSwitch(switchId: string, tail: string)
    requires '/' !in switchId
    ensures TopicSwitch(TopicRoot + switchId + "/" + tail) == Some(switchId)
  {
    var r3 := switchId + ['/'] + tail;
    var r2 := "forewarned" + ['/'] + r3;
    var r1 := "switch" + ['/'] + r2;
    var t := "homeassistant" + ['/'] + r1;
    RootedTopicText(switchId, tail);
    SplitAfter(switchId, '/', tail);
    SplitAfter("forewarned", '/', r3);
    SplitAfter("switch", '/', r2);
    SplitAfter("homeassistant", '/', r1);
    assert Split(t, '/') == ["homeassistant", "switch", "forewarned", switchId] + Split(tail, '/');
  }

  /**
   * A switch id without `/` is read back from its own command and state
   * topics: a command for a registered switch reaches that switch.
   */
  lemma TopicRoundTrip(switchId: string)
    requires '/' !in switchId
    ensures TopicSwitch(CommandTopic(switchId)) == Some(switchId)
    ensures TopicSwitch(StateTopic(switchId)) == Some(switchId)
  {
    RootedTopicSwitch(switchId, "set");
    assert CommandTopic(switchId) == TopicRoot + switchId + "/" + "set";
    RootedTopicSwitch(switchId, "state");
    assert StateTopic(switchId) == TopicRoot + switchId + "/" + "state";
  }

  /** The subscriptions `on_connect` makes: one command topic per registered switch, in order. */
  function Subscriptions(switches: Dict<SwitchInfo>): seq<MqttEvent>
    decreases |switches|
  {
    if switches == [] then []
    else Subscriptions(switches[..|switches| - 1]) + [Subscribe(CommandTopic(switches[|switches| - 1].0))]
  }

  lemma {:induction false} SubscriptionsExactly(switches: Dict<SwitchInfo>)
    ensures |Subscriptions(switches)| == |switches|
    ensures forall i :: 0 <= i < |switches| ==> Subscriptions(switches)[i] == Subscribe(CommandTopic(switches[i].0))
    decreases |switches|
  {
    if switches != [] {
      SubscriptionsExactly(switches[..|switches| - 1]);
    }
  }

  /** A switch record carries the command and state topics of its id. */
  predicate TopicsOf(switchId: string, info: SwitchInfo) {
    info.commandTopic == CommandTopic(switchId) && info.stateTopic == StateTopic(switchId)
  }

  /** The keys of a table, as a set. */
  function Keys<V>(d: Dict<V>): (r: set<string>)
    ensures forall k :: k in r <==> HasKey(d, k)
  {
    set i | 0 <= i < |d| :: d[i].0
  }

  class MqttIntegration {
    /** Whether the owner supplied a state-change callback. */
    const hasCallback: bool
    /** Whether a client has been created. */
    var hasClient: bool
    var connected: bool
    var switches: Dict<SwitchInfo>
    var switchStates: map<string, bool>
    ghost var log: seq<MqttEvent>

    /**
     * Only a client's callbacks connect, and exactly the registered
     * switches have a state.
     */
    predicate Valid()
      reads this
    {
      && (!hasClient ==> !connected)
      && DistinctKeys(switches)
      && switchStates.Keys == Keys(switches)
      && forall i :: 0 <= i < |switches| ==> TopicsOf(switches[i].0, switches[i].1)
    }

    /** `__init__`: no client, not connected, no switches. */
    constructor (hasCallback: bool)
      ensures this.hasCallback == hasCallback
      ensures !hasClient && !connected && switches == [] && switchStates == map[] && log == []
      ensures Valid()
    {
      this.hasCallback := hasCallback;
      hasClient := false;
      connected := false;
      switches := [];
      switchStates := map[];
      log := [];
    }

    /** `on_connect`: code 0 connects and subscribes every switch's command topic; any other code disconnects. */
    method OnConnect(rc: int)
      requires Valid() && hasClient
      modifies this
      ensures Valid()
      ensures connected == (rc == 0)
      ensures log == old(log) + (if rc == 0 then Subscriptions(switches) else [])
      ensures hasClient && switches == old(switches) && switchStates == old(switchStates)
    {
      if rc == 0 {
        connected := true;
        for i := 0 to |switches|
          invariant connected && hasClient
          invariant switches == old(switches) && switchStates == old(switchStates)
          invariant log == old(log) + Subscriptions(switches[..i])
        {
          assert switches[..i + 1][..i] == switches[..i];
          log := log + [Subscribe(CommandTopic(switches[i].0))];
        }
        assert switches[..|switches|] == switches;
      } else {
        connected := false;
      }
    }

    /** `on_disconnect`. */
    method OnDisconnect()
      requires Valid()
      modifies this
      ensures Valid()
      ensures !connected
      ensures hasClient == old(hasClient) && switches == old(switches) && switchStates == old(switchStates)
      ensures log == old(log)
    {
      connected := false;
    }

    /**
     * `on_message`; `payload` is `None` when it is not valid UTF-8, which
     * the handler's exception guard turns into no effect.  A message for a
     * registered switch sets its state to whether the upper-cased payload is
     * `ON`, echoes the state and notifies the owner; anything else changes
     * nothing.
     */
    method OnMessage(topic: string, payload: Option<string>)
      requires Valid()
      modifies this
      ensures Valid()
      ensures hasClient == old(hasClient) && connected == old(connected) && switches == old(switches)
      ensures var id := TopicSwitch(topic);
        if payload.Some? && id.Some? && HasKey(switches, id.value) then
          var state := Upper(payload.value);
          && switchStates == old(switchStates)[id.value := state == "ON"]
          && log == old(log) + [Publish(StateTopic(id.value), state, true)]
                  + (if hasCallback then [StateChanged(id.value, state == "ON")] else [])
        else
          switchStates == old(switchStates) && log == old(log)
    {
      var parts := Split(topic, '/');
      if |parts| >= 4 && parts[0] == "homeassistant" && parts[1] == "switch" {
        var switchId := parts[3];
        if payload.None? {
          return;
        }
        var state := Upper(payload.value);
        if HasKey(switches, switchId) {
          switchStates := switchStates[switchId := state == "ON"];
          log := log + [Publish(StateTopic(switchId), state, true)];
          if hasCallback {
            log := log + [StateChanged(switchId, state == "ON")];
          }
        }
      }
    }

    /**
     * `connect`.  With a client already present it only reports the flag.
     * Otherwise a client is created; `initiated` says whether the
     * connection could be started, and `answeredAfter` after how many
     * seconds the broker accepted it, if it did.  The wait gives up after
     * 30 one-second checks.
     */
    method Connect(initiated: bool, answeredAfter: Option<nat>) returns (ok: bool)
      requires Valid()
      modifies this
      ensures Valid()
      ensures old(hasClient) ==>
        ok == old(connected) && connected == old(connected) && hasClient && log == old(log)
      ensures !old(hasClient) ==>
        && hasClient
        && ok == (initiated && answeredAfter.Some? && answeredAfter.value < 30)
        && connected == ok
        && log == old(log) + (if ok then Subscriptions(switches) else [])
      ensures switches == old(switches) && switchStates == old(switchStates)
    {
      if hasClient {
        return connected;
      }
      hasClient := true;
      if !initiated {
        return false;
      }
      for i := 0 to 30
        invariant hasClient && !connected
        invariant switches == old(switches) && switchStates == old(switchStates) && log == old(log)
        invariant answeredAfter.None? || answeredAfter.value >= i
      {
        if answeredAfter == Some(i) {
          OnConnect(0);
        }
        if connected {
          return true;
        }
      }
      return false;
    }

    /**
     * `publish_discovery`; `published` says whether the broker accepted the
     * discovery message.  Not connected: nothing happens.  Accepted: the
     * switch is registered with its command and state topics and starts
     * `OFF`.
     */
    method PublishDiscovery(switchId: string, name: string, icon: string, published: bool) returns (ok: bool)
      requires Valid()
      modifies this
      ensures Valid()
      ensures hasClient == old(hasClient) && connected == old(connected)
      ensures ok == (old(connected) && published)
      ensures !old(connected) ==> switches == old(switches) && switchStates == old(switchStates) && log == old(log)
      ensures old(connected) ==>
        var discovery := Discovery(DiscoveryTopic(switchId), name, "forewarned_" + switchId,
                                   CommandTopic(switchId), StateTopic(switchId), icon);
        if published then
          && switches == Put(old(switches), switchId, SwitchInfo(name, CommandTopic(switchId), StateTopic(switchId)))
          && switchStates == old(switchStates)[switchId := false]
          && log == old(log) + [discovery, Publish(StateTopic(switchId), "OFF", true)]
        else
          switches == old(switches) && switchStates == old(switchStates) && log == old(log) + [discovery]
    {
      if !connected {
        return false;
      }
      var commandTopic := CommandTopic(switchId);
      var stateTopic := StateTopic(switchId);
      log := log + [Discovery(DiscoveryTopic(switchId), name, "forewarned_" + switchId, commandTopic, stateTopic, icon)];
      if published {
        var info := SwitchInfo(name, commandTopic, stateTopic);
        PutKeys(switches, switchId, info);
        PutEntries(switches, switchId, info);
        var updated := Put(switches, switchId, info);
        forall i | 0 <= i < |updated| ensures TopicsOf(updated[i].0, updated[i].1) {
          assert updated[i] in updated;
          if updated[i] != (switchId, info) {
            var j :| 0 <= j < |switches| && switches[j] == updated[i];
          }
        }
        switches := updated;
        switchStates := switchStates[switchId := false];
        log := log + [Publish(stateTopic, "OFF", true)];
        return true;
      }
      return false;
    }

    /**
     * `publish_state`; `published` says whether the broker accepted it.
     * Not connected or unknown switch: nothing happens.  Otherwise the
     * payload goes to the switch's state topic and, once accepted, becomes
     * the switch's state.
     */
    method PublishState(switchId: string, state: bool, published: bool) returns (ok: bool)
      requires Valid()
      modifies this
      ensures Valid()
      ensures hasClient == old(hasClient) && connected == old(connected) && switches == old(switches)
      ensures ok == (old(connected) && HasKey(switches, switchId) && published)
      ensures !old(connected) || !HasKey(switches, switchId) ==> switchStates == old(switchStates) && log == old(log)
      ensures old(connected) && HasKey(switches, switchId) ==>
        && log == old(log) + [Publish(StateTopic(switchId), if state then "ON" else "OFF", true)]
        && switchStates == if published then old(switchStates)[switchId := state] else old(switchStates)
    {
      if !connected {
        return false;
      }
      var info := Get(switches, switchId);
      GetEntry(switches, switchId);
      if info.None? {
        return false;
      }
      var payload := if state then "ON" else "OFF";
      log := log + [Publish(info.value.stateTopic, payload, true)];
      if published {
        switchStates := switchStates[switchId := state];
        return true;
      }
      return false;
    }

    /** `get_state`: `None` exactly for a switch that was never registered. */
    function GetState(switchId: string): (r: Option<bool>)
      requires Valid()
      reads this
      ensures r.None? <==> !HasKey(switches, switchId)
    {
      if switchId in switchStates then Some(switchStates[switchId]) else None
    }

    /** `disconnect`: with a client, stop it and drop the flag; the client itself is kept. */
    method Disconnect()
      requires Valid()
      modifies this
      ensures Valid()
      ensures hasClient == old(hasClient) && !connected
      ensures switches == old(switches) && switchStates == old(switchStates) && log == old(log)
    {
      if hasClient {
        connected := false;
      }
    }
  }

  /**
   * Because the client is kept, a `connect` after `disconnect` never
   * reconnects: it reports `False` and changes nothing.
   */
  method ConnectAfterDisconnect(m: MqttIntegration, initiated: bool, answeredAfter: Option<nat>) returns (ok: bool)
    requires m.Valid() && m.hasClient
    modifies m
    ensures !ok && !m.connected && m.hasClient
  {
    m.Disconnect();
    ok := m.Connect(initiated, answeredAfter);
  }

  /**
   * A command published on a registered switch's own command topic sets
   * that switch's state to whether the payload reads `ON` in any case.
   */
  method CommandReachesSwitch(m: MqttIntegration, switchId: string, payload: string)
    requires m.Valid() && HasKey(m.switches, switchId) && '/' !in switchId
    modifies m
    ensures m.Valid()
    ensures m.GetState(switchId) == Some(Upper(payload) == "ON")
  {
    TopicRoundTrip(switchId);
    m.OnMessage(CommandTopic(switchId), Some(payload));
  }
}
