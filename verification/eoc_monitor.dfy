/**
 * The EOC (Emergency Operations Center) monitor: which configured sites are
 * fetched, how a page's text is classified into an activation state, what a
 * processed page changes in the site table, which routine a state change
 * runs, and the `binary_sensor.forewarned_eoc_active` update that summarises
 * all sites.  Fetching and HTML parsing are outside the model: a page comes
 * in as its extracted text and the digest of that text.
 */
module EocMonitor {
  import opened Wrappers
  import opened Text
  import opened OrderedDict
  import opened Records
  import opened WebUi
  import AlertConfig

  // ---------------------------------------------------------------------
  // State detection
  // ---------------------------------------------------------------------

  /** The states detection looks for, most specific first; `inactive` is the default. */
  const DetectionOrder: seq<string> := ["stand up", "lean forward", "stand down", "alert"]

  /** The order in which the sensor picks the state it reports. */
  const ReportOrder: seq<string> := ["stand up", "lean forward", "alert", "stand down", "inactive"]

  /** The two spellings that announce a state on a page (already lower-cased). */
  function Keywords(state: string): (string, string) {
    if state == "stand up" then ("stand up", "standup")
    else if state == "lean forward" then ("lean forward", "leanforward")
    else if state == "stand down" then ("stand down", "standdown")
    else ("status:alert", "status: alert")
  }

  /** `text` announces `state`: the state is detectable and one of its spellings occurs. */
  predicate Mentions(text: string, state: string) {
    state in DetectionOrder && (Contains(text, Keywords(state).0) || Contains(text, Keywords(state).1))
  }

  /** `detect_eoc_state`: keyword search on the lower-cased text, first match in a fixed order. */
  function DetectEocState(content: string): (state: string)
    ensures state in ReportOrder
    ensures state != "inactive" ==> Mentions(Lower(content), state)
  {
    var text := Lower(content);
    if Contains(text, "stand up") || Contains(text, "standup") then "stand up"
    else if Contains(text, "lean forward") || Contains(text, "leanforward") then "lean forward"
    else if Contains(text, "stand down") || Contains(text, "standdown") then "stand down"
    else if Contains(text, "status:alert") || Contains(text, "status: alert") then "alert"
    else "inactive"
  }

  /** The earliest state of `order` that `text` mentions. */
  function FirstMentioned(text: string, order: seq<string>): Option<string>
    decreases |order|
  {
    if order == [] then None
    else if Mentions(text, order[0]) then Some(order[0])
    else FirstMentioned(text, order[1..])
  }

  /** `FirstMentioned` is the earliest mentioned state, and absent only when none is mentioned. */
  lemma {:induction false} FirstMentionedMeaning(text: string, order: seq<string>)
    ensures FirstMentioned(text, order).None? <==> forall i :: 0 <= i < |order| ==> !Mentions(text, order[i])
    ensures FirstMentioned(text, order).Some? ==>
      exists i :: 0 <= i < |order|
        && order[i] == FirstMentioned(text, order).value && Mentions(text, order[i])
        && forall j :: 0 <= j < i ==> !Mentions(text, order[j])
    decreases |order|
  {
    if order != [] && !Mentions(text, order[0]) {
      var rest := order[1..];
      FirstMentionedMeaning(text, rest);
      assert forall i :: 0 <= i < |rest| ==> rest[i] == order[i + 1];
      if FirstMentioned(text, rest).Some? {
        var i :| 0 <= i < |rest| && rest[i] == FirstMentioned(text, rest).value && Mentions(text, rest[i])
          && forall j :: 0 <= j < i ==> !Mentions(text, rest[j]);
        assert order[i + 1] == rest[i];
        forall j | 0 <= j < i + 1 ensures !Mentions(text, order[j]) {
          if j > 0 { assert order[j] == rest[j - 1]; }
        }
      }
      if forall i :: 0 <= i < |rest| ==> !Mentions(text, rest[i]) {
        forall i | 0 <= i < |order| ensures !Mentions(text, order[i]) {
          if i > 0 { assert order[i] == rest[i - 1]; }
        }
      }
    }
  }

  /**
   * Detection reports the earliest state of the detection order that the
   * lower-cased page mentions, and `inactive` exactly when it mentions none.
   */
  lemma DetectIsFirstMentioned(content: string)
    ensures DetectEocState(content) == FirstMentioned(Lower(content), DetectionOrder).GetOr("inactive")
    ensures DetectEocState(content) == "inactive" <==>
      forall s :: s in DetectionOrder ==> !Mentions(Lower(content), s)
    ensures DetectEocState(content) != "inactive" ==>
      exists i :: 0 <= i < |DetectionOrder|
        && DetectionOrder[i] == DetectEocState(content)
        && forall j :: 0 <= j < i ==> !Mentions(Lower(content), DetectionOrder[j])
  {
    var text := Lower(content);
    assert DetectionOrder[1..] == ["lean forward", "stand down", "alert"];
    assert DetectionOrder[1..][1..] == ["stand down", "alert"];
    assert DetectionOrder[1..][1..][1..] == ["alert"];
    assert DetectionOrder[1..][1..][1..][1..] == [];
    FirstMentionedMeaning(text, DetectionOrder);
  }

  /** Detection ignores ASCII letter case: upper- or lower-casing the page changes nothing. */
  lemma DetectIgnoresCase(content: string)
    ensures DetectEocState(Upper(content)) == DetectEocState(content)
    ensures DetectEocState(Lower(content)) == DetectEocState(content)
  {
    LowerOfUpper(content);
    LowerIdempotent(content);
  }

  // ---------------------------------------------------------------------
  // Which sites are checked
  // ---------------------------------------------------------------------

  /** One `eoc_urls` entry: a bare URL string, or a table with optional `url` and `selectors`. */
  datatype UrlEntry =
    | UrlText(text: string)
    | UrlTable(urlKey: Option<string>, selectorsKey: Option<Dict<string>>)

  /** A site to fetch, with the selectors that extract its text. */
  datatype SiteTarget = SiteTarget(url: string, selectors: Dict<string>)

  /** Missing `url` is the empty string and missing `selectors` the empty table. */
  function TargetOf(e: UrlEntry): SiteTarget {
    match e
    case UrlText(u) => SiteTarget(u, [])
    case UrlTable(u, sel) => SiteTarget(u.GetOr(""), sel.GetOr([]))
  }

  /** The sites `check_eoc_sites` fetches, in configuration order; empty URLs are skipped. */
  function Targets(entries: seq<UrlEntry>): seq<SiteTarget>
    decreases |entries|
  {
    if entries == [] then []
    else
      var t := TargetOf(entries[|entries| - 1]);
      Targets(entries[..|entries| - 1]) + (if t.url != "" then [t] else [])
  }

  /**
   * Exactly the entries with a non-empty URL are fetched: every fetched
   * target comes from some entry and has a URL, and every entry with a URL
   * is fetched.
   */
  lemma {:induction false} TargetsExactly(entries: seq<UrlEntry>)
    ensures |Targets(entries)| <= |entries|
    ensures forall t :: t in Targets(entries) ==> t.url != "" && exists e :: e in entries && TargetOf(e) == t
    ensures forall e :: e in entries && TargetOf(e).url != "" ==> TargetOf(e) in Targets(entries)
    decreases |entries|
  {
    if entries != [] {
      var init, last := entries[..|entries| - 1], entries[|entries| - 1];
      TargetsExactly(init);
      assert entries == init + [last];
      forall t | t in Targets(entries) ensures t.url != "" && exists e :: e in entries && TargetOf(e) == t {
        if t in Targets(init) {
          var e :| e in init && TargetOf(e) == t;
          assert e in entries;
        } else {
          assert t == TargetOf(last);
        }
      }
    }
  }

  // ---------------------------------------------------------------------
  // Routines
  // ---------------------------------------------------------------------

  /** `state.replace(" ", "_")`. */
  function Underscored(s: string): (r: string)
    ensures |r| == |s| && ' ' !in r
  {
    seq(|s|, i requires 0 <= i < |s| => if s[i] == ' ' then '_' else s[i])
  }

  /** The routine key for a state: its own `eoc_<state>` key, else `eoc_activated`, else none. */
  function EocRoutineKey(routines: map<string, seq<string>>, state: string): (key: Option<string>)
    ensures key.Some? ==> key.value in routines && ' ' !in key.value
    ensures key.None? <==> "eoc_" + Underscored(state) !in routines && "eoc_activated" !in routines
  {
    var own := "eoc_" + Underscored(state);
    if own in routines then Some(own)
    else if "eoc_activated" in routines then Some("eoc_activated")
    else None
  }

  /** The effects of `trigger_eoc_routine`. */
  function EocRoutineEffects(routines: map<string, seq<string>>, state: string): seq<Effect> {
    var key := EocRoutineKey(routines, state);
    if key.Some? then RoutineEffects(routines[key.value]) else []
  }

  /**
   * A state with its own routine key runs that routine; one without runs
   * the generic `eoc_activated` routine when there is one.  With the default
   * routine table every detectable state has its own key.
   */
  lemma EocRoutineKeyChoice(routines: map<string, seq<string>>, state: string)
    ensures "eoc_" + Underscored(state) in routines ==> EocRoutineKey(routines, state) == Some("eoc_" + Underscored(state))
    ensures "eoc_" + Underscored(state) !in routines && "eoc_activated" in routines ==>
      EocRoutineKey(routines, state) == Some("eoc_activated")
    ensures EocRoutineKey(AlertConfig.DefaultRoutines, "stand up") == Some("eoc_stand_up")
    ensures EocRoutineKey(AlertConfig.DefaultRoutines, "lean forward") == Some("eoc_lean_forward")
    ensures EocRoutineKey(AlertConfig.DefaultRoutines, "stand down") == Some("eoc_stand_down")
    ensures EocRoutineKey(AlertConfig.DefaultRoutines, "alert") == Some("eoc_alert")
  {
    var d := AlertConfig.DefaultRoutines;
    assert "eoc_" + Underscored("stand up") == "eoc_stand_up" && "eoc_stand_up" in d;
    assert "eoc_" + Underscored("lean forward") == "eoc_lean_forward" && "eoc_lean_forward" in d;
    assert "eoc_" + Underscored("stand down") == "eoc_stand_down" && "eoc_stand_down" in d;
    assert "eoc_" + Underscored("alert") == "eoc_alert" && "eoc_alert" in d;
    assert Underscored("stand up") == "stand_up";
    assert Underscored("lean forward") == "lean_forward";
    assert Underscored("stand down") == "stand_down";
    assert Underscored("alert") == "alert";
  }

  // ---------------------------------------------------------------------
  // The sensor
  // ---------------------------------------------------------------------

  const EocSensor := "binary_sensor.forewarned_eoc_active"

  /** Some site's `state` equals `state` exactly. */
  predicate Present(sites: EocStates, state: string) {
    exists i :: 0 <= i < |sites| && sites[i].1.state == state
  }

  /** The earliest state of `order` that some site is in. */
  function FirstPresent(sites: EocStates, order: seq<string>): Option<string>
    decreases |order|
  {
    if order == [] then None
    else if Present(sites, order[0]) then Some(order[0])
    else FirstPresent(sites, order[1..])
  }

  /** The `current_state` attribute: the highest-priority state any site is in, `inactive` by default. */
  function ReportedState(sites: EocStates): string {
    FirstPresent(sites, ReportOrder).GetOr("inactive")
  }

  /** `FirstPresent` is the earliest present state, and absent only when none is present. */
  lemma {:induction false} FirstPresentMeaning(sites: EocStates, order: seq<string>)
    ensures FirstPresent(sites, order).None? <==> forall i :: 0 <= i < |order| ==> !Present(sites, order[i])
    ensures FirstPresent(sites, order).Some? ==>
      exists i :: 0 <= i < |order|
        && order[i] == FirstPresent(sites, order).value && Present(sites, order[i])
        && forall j :: 0 <= j < i ==> !Present(sites, order[j])
    decreases |order|
  {
    if order != [] && !Present(sites, order[0]) {
      var rest := order[1..];
      FirstPresentMeaning(sites, rest);
      if FirstPresent(sites, rest).Some? {
        var i :| 0 <= i < |rest| && rest[i] == FirstPresent(sites, rest).value && Present(sites, rest[i])
          && forall j :: 0 <= j < i ==> !Present(sites, rest[j]);
        assert order[i + 1] == rest[i];
        forall j | 0 <= j < i + 1 ensures !Present(sites, order[j]) {
          if j > 0 { assert order[j] == rest[j - 1]; }
        }
      }
      if forall i :: 0 <= i < |rest| ==> !Present(sites, rest[i]) {
        forall i | 0 <= i < |order| ensures !Present(sites, order[i]) {
          if i > 0 { assert order[i] == rest[i - 1]; }
        }
      }
    }
  }

  /**
   * The reported state is a state some site is in (or `inactive`), and no
   * site is in a state the report order ranks higher.
   */
  lemma ReportedStateIsHighest(sites: EocStates)
    ensures ReportedState(sites) in ReportOrder
    ensures ReportedState(sites) != "inactive" ==> Present(sites, ReportedState(sites))
    ensures forall i, j :: 0 <= i < j < |ReportOrder| && ReportOrder[j] == ReportedState(sites) ==>
      !Present(sites, ReportOrder[i])
  {
    FirstPresentMeaning(sites, ReportOrder);
    if FirstPresent(sites, ReportOrder).Some? {
      var k :| 0 <= k < |ReportOrder| && ReportOrder[k] == FirstPresent(sites, ReportOrder).value
        && Present(sites, ReportOrder[k]) && forall j :: 0 <= j < k ==> !Present(sites, ReportOrder[j]);
      forall i, j | 0 <= i < j < |ReportOrder| && ReportOrder[j] == ReportedState(sites)
        ensures !Present(sites, ReportOrder[i])
      {
        if j != k {
          ReportOrderDistinct(if j < k then j else k, if j < k then k else j);
        }
      }
    } else {
      forall i, j | 0 <= i < j < |ReportOrder| && ReportOrder[j] == ReportedState(sites)
        ensures !Present(sites, ReportOrder[i])
      {
        if j != 4 {
          ReportOrderDistinct(j, 4);
        }
      }
    }
  }

  lemma ReportOrderDistinct(i: int, j: int)
    requires 0 <= i < j < |ReportOrder|
    ensures ReportOrder[i] != ReportOrder[j]
  {
  }

  /** The sensor update for a site table; `on` when some site is activated. */
  function EocSensorEffect(sites: EocStates, monitored: nat, now: string): Effect {
    var count := CountActivated(sites);
    SetSensor(EocSensor, if count > 0 then "on" else "off",
              EocAttributes(monitored, count, ReportedState(sites), sites, now))
  }

  /** What `update_sensor` does: the sensor, then the hand-off to the alert engine when one is attached. */
  function UpdateEffects(sites: EocStates, monitored: nat, now: string, handOff: Option<seq<WeatherAlert>>): seq<Effect> {
    [EocSensorEffect(sites, monitored, now)]
      + (if handOff.Some? then [EngineEvaluate(handOff.value, sites)] else [])
  }

  /** A site record as detection writes it: a known state, activated exactly when not `inactive`. */
  predicate Consistent(site: EocSite) {
    site.state in ReportOrder && site.activated == (site.state != "inactive")
  }

  /**
   * On a table of detected records the sensor's two readings agree: it is
   * `on` exactly when the reported state is not `inactive`.
   */
  lemma SensorAgreesWithState(sites: EocStates, monitored: nat, now: string)
    requires forall i :: 0 <= i < |sites| ==> Consistent(sites[i].1)
    ensures EocSensorEffect(sites, monitored, now).state == "on" <==> ReportedState(sites) != "inactive"
  {
    CountActivatedPositive(sites);
    ReportedStateIsHighest(sites);
    FirstPresentMeaning(sites, ReportOrder);
    if CountActivated(sites) > 0 {
      var i :| 0 <= i < |sites| && sites[i].1.activated;
      var s := sites[i].1.state;
      assert Present(sites, s);
      var k :| 0 <= k < |ReportOrder| && ReportOrder[k] == s;
      assert k < 4;
    }
  }

  /** Writing a detected record keeps a table of distinct, detected records. */
  lemma PutKeepsConsistent(sites: EocStates, url: string, site: EocSite)
    requires DistinctKeys(sites) && forall i :: 0 <= i < |sites| ==> Consistent(sites[i].1)
    requires Consistent(site)
    ensures var r := Put(sites, url, site);
      DistinctKeys(r) && forall i :: 0 <= i < |r| ==> Consistent(r[i].1)
  {
    PutKeys(sites, url, site);
    PutEntries(sites, url, site);
    var r := Put(sites, url, site);
    forall i | 0 <= i < |r| ensures Consistent(r[i].1) {
      assert r[i] in r;
      if r[i] != (url, site) {
        var j :| 0 <= j < |sites| && sites[j] == r[i];
      }
    }
  }

  /** The old state of a site: its record's `state`, `inactive` when it has none. */
  function StateOf(sites: EocStates, url: string): string {
    match Get(sites, url)
    case Some(site) => site.state
    case None => "inactive"
  }

  // ---------------------------------------------------------------------
  // The change notification of `handle_change`
  // ---------------------------------------------------------------------

  /**
   * The notification `handle_change` sends, with the characters the source
   * file actually holds: the arrow and the siren were stored double-encoded,
   * so the arrow is the three characters U+00E2 U+2020 U+2019 and the siren
   * the four characters U+011F U+0178 U+0161 U+00A8.
   */
  function ChangeNoticeAsWritten(oldState: string, newState: string, url: string, content: string): (e: Effect)
    ensures e.Notify?
  {
    Notify("EOC state changed: " + oldState + " â†’ " + newState + "\n" + url
             + "\n\nPreview: " + Take(content, 200) + "...",
           "ğŸš¨ EOC: " + Upper(newState))
  }

  /** The notification with the intended arrow (U+2192) and siren (U+1F6A8). */
  function ChangeNotice(oldState: string, newState: string, url: string, content: string): (e: Effect)
    ensures e.Notify?
  {
    Notify("EOC state changed: " + oldState + " → " + newState + "\n" + url
             + "\n\nPreview: " + Take(content, 200) + "...",
           "\U{1F6A8} EOC: " + Upper(newState))
  }

  /**
   * The intended notification reads as meant: the message names the old
   * state, then a single arrow character, then the new state and the URL;
   * it ends with the preview; the title is the siren followed by the new
   * state in capitals.
   */
  lemma ChangeNoticeReadable(oldState: string, newState: string, url: string, content: string)
    ensures var e := ChangeNotice(oldState, newState, url, content);
      var head := "EOC state changed: " + oldState + " ";
      && e.message[|head|] == '→'
      && StartsWith(e.message, head + "→ " + newState + "\n" + url + "\n")
      && EndsWith(e.message, Take(content, 200) + "...")
      && e.title[0] == '\U{1F6A8}'
      && EndsWith(e.title, " EOC: " + Upper(newState))
  {
    ChangeNoticeMessage(oldState, newState, url, content);
    ChangeNoticeTitle(newState);
  }

  /** The intended message: head, arrow, new state, URL, then the preview. */
  lemma ChangeNoticeMessage(oldState: string, newState: string, url: string, content: string)
    ensures var m := ChangeNotice(oldState, newState, url, content).message;
      var head := "EOC state changed: " + oldState + " ";
      && m[|head|] == '→'
      && StartsWith(m, head + "→ " + newState + "\n" + url + "\n")
      && EndsWith(m, Take(content, 200) + "...")
  {
    var m := ChangeNotice(oldState, newState, url, content).message;
    var head := "EOC state changed: " + oldState + " ";
    var start := head + "→ " + newState + "\n" + url + "\n";
    var tail := "\nPreview: " + Take(content, 200) + "...";
    assert m == start + tail;
    assert m[|head|] == start[|head|];
    assert tail == "\nPreview: " + (Take(content, 200) + "...");
  }

  /** The intended title: the siren, then the new state in capitals. */
  lemma ChangeNoticeTitle(newState: string)
    ensures forall oldState, url, content ::
      var t := ChangeNotice(oldState, newState, url, content).title;
      t[0] == '\U{1F6A8}' && EndsWith(t, " EOC: " + Upper(newState))
  {
  }

  /**
   * As written, the notification never shows the arrow or the siren: where
   * the arrow belongs stands U+00E2, the title starts with U+011F, and both
   * texts are longer than the intended ones for every input.
   */
  lemma ChangeNoticeGarbled(oldState: string, newState: string, url: string, content: string)
    ensures var w := ChangeNoticeAsWritten(oldState, newState, url, content);
      var e := ChangeNotice(oldState, newState, url, content);
      var head := "EOC state changed: " + oldState + " ";
      && w.message[|head|] == 'â'
      && w.title[0] == 'ğ'
      && |w.message| == |e.message| + 2
      && |w.title| == |e.title| + 3
      && w != e
  {
    var w := ChangeNoticeAsWritten(oldState, newState, url, content);
    var head := "EOC state changed: " + oldState + " ";
    var start := head + "â†’ " + newState + "\n" + url;
    assert w.message == start + ("\n\nPreview: " + Take(content, 200) + "...");
    assert w.message[|head|] == start[|head|];
  }

  // ---------------------------------------------------------------------
  // The monitor
  // ---------------------------------------------------------------------

  class EocMonitor {
    /** The configured `routines` table. */
    const routines: map<string, seq<string>>
    /** The configured `eoc_urls` list. */
    const eocUrls: seq<UrlEntry>
    /** The web UI's shared state, when the monitor was given one. */
    const app: AppState?
    /** The digest of each URL's text at its last check. */
    var pageHashes: map<string, string>
    /** Each URL's record, in the order the URLs were first processed. */
    var eocStates: EocStates
    /** Everything sent to Home Assistant and handed to the alert engine, in order. */
    ghost var log: seq<Effect>

    /** Records are keyed by distinct URLs and each holds a detected state. */
    predicate Valid()
      reads this
    {
      DistinctKeys(eocStates) && forall i :: 0 <= i < |eocStates| ==> Consistent(eocStates[i].1)
    }

    /** The hand-off `update_sensor` makes: the shared weather alerts, when an engine is attached. */
    function HandOff(): Option<seq<WeatherAlert>>
      reads app
    {
      if app != null && app.alertManagerAttached then Some(app.weatherAlerts) else None
    }

    /** `__init__`: no digests and no records yet. */
    constructor (routines: map<string, seq<string>>, eocUrls: seq<UrlEntry>, app: AppState?)
      ensures this.routines == routines && this.eocUrls == eocUrls && this.app == app
      ensures pageHashes == map[] && eocStates == [] && log == []
      ensures Valid()
    {
      this.routines := routines;
      this.eocUrls := eocUrls;
      this.app := app;
      pageHashes := map[];
      eocStates := [];
      log := [];
    }

    /** `check_eoc_sites`: the sites it fetches, one `check_site` each. */
    method CheckEocSites() returns (targets: seq<SiteTarget>)
      ensures targets == Targets(eocUrls)
    {
      targets := [];
      for i := 0 to |eocUrls|
        invariant targets == Targets(eocUrls[..i])
      {
        assert eocUrls[..i + 1][..i] == eocUrls[..i];
        var target := TargetOf(eocUrls[i]);
        if target.url != "" {
          targets := targets + [target];
        }
      }
      assert eocUrls[..|eocUrls|] == eocUrls;
    }

    /**
     * `process_page` for the extracted text `content` with digest `digest`.
     * The URL's record is replaced by the detected one; a URL seen before
     * whose digest changed gets `lastChange`, and runs the routine of the
     * new state when the state changed too; the digest is stored and the
     * sensor updated.  A first check never runs a routine.
     */
    method ProcessPage(url: string, content: string, digest: string, now: string)
      requires Valid()
      modifies this, app
      ensures Valid()
      ensures var detected := DetectEocState(content);
        var changed := url in old(pageHashes) && old(pageHashes)[url] != digest;
        var fires := changed && StateOf(old(eocStates), url) != detected;
        && eocStates == Put(old(eocStates), url,
             EocSite(detected, detected != "inactive", Some(now), if changed then Some(now) else None, Take(content, 200)))
        && pageHashes == old(pageHashes)[url := digest]
        && log == old(log) + (if fires then EocRoutineEffects(routines, detected) else [])
                  + UpdateEffects(eocStates, |eocUrls|, now, old(HandOff()))
      ensures app != null ==> app.eocStates == eocStates && app.lastUpdate == Some(now)
      ensures app != null ==>
        (app.weatherAlerts == old(app.weatherAlerts) && app.localAlertState == old(app.localAlertState)
         && app.alertManagerAttached == old(app.alertManagerAttached))
    {
      var detected := DetectEocState(content);
      var oldState := StateOf(eocStates, url);
      var record := EocSite(detected, detected != "inactive", Some(now), None, Take(content, 200));
      PutKeepsConsistent(eocStates, url, record);
      eocStates := Put(eocStates, url, record);
      ghost var before := log;
      var fires := false;
      if url in pageHashes {
        if pageHashes[url] != digest {
          if oldState != detected {
            TriggerEocRoutine(detected);
            fires := true;
          }
          var changedRecord := record.(lastChange := Some(now));
          PutPut(old(eocStates), url, record, changedRecord);
          PutKeepsConsistent(eocStates, url, changedRecord);
          eocStates := Put(eocStates, url, changedRecord);
        }
      }
      assert log == before + (if fires then EocRoutineEffects(routines, detected) else []);
      pageHashes := pageHashes[url := digest];
      UpdateSensor(now);
    }

    /**
     * `handle_change` (no caller invokes it): the URL's record is replaced
     * with one holding `lastChange` and no `lastCheck`; a changed state is
     * announced, and an activated one runs its routine.
     */
    method HandleChange(url: string, content: string, now: string)
      requires Valid()
      modifies this
      ensures Valid()
      ensures var detected := DetectEocState(content);
        var oldState := StateOf(old(eocStates), url);
        && eocStates == Put(old(eocStates), url,
             EocSite(detected, detected != "inactive", None, Some(now), Take(content, 200)))
        && log == old(log)
             + (if detected != oldState then [ChangeNotice(oldState, detected, url, content)] else [])
             + (if detected != oldState && detected != "inactive" then EocRoutineEffects(routines, detected) else [])
      ensures pageHashes == old(pageHashes)
    {
      var detected := DetectEocState(content);
      var oldState := StateOf(eocStates, url);
      var record := EocSite(detected, detected != "inactive", None, Some(now), Take(content, 200));
      PutKeepsConsistent(eocStates, url, record);
      eocStates := Put(eocStates, url, record);
      if detected != oldState {
        log := log + [ChangeNotice(oldState, detected, url, content)];
        if detected != "inactive" {
          TriggerEocRoutine(detected);
        }
      }
    }

    /** `trigger_eoc_routine`: runs the chosen routine's scenes and scripts. */
    method TriggerEocRoutine(state: string)
      modifies this
      ensures log == old(log) + EocRoutineEffects(routines, state)
      ensures eocStates == old(eocStates) && pageHashes == old(pageHashes)
    {
      var key := "eoc_" + Underscored(state);
      if key !in routines {
        key := "eoc_activated";
      }
      if key in routines {
        var actions := routines[key];
        for i := 0 to |actions|
          invariant eocStates == old(eocStates) && pageHashes == old(pageHashes)
          invariant log == old(log) + RoutineEffects(actions[..i])
        {
          assert actions[..i + 1][..i] == actions[..i];
          if StartsWith(actions[i], "scene.") {
            log := log + [ActivateScene(actions[i])];
          } else if StartsWith(actions[i], "script.") {
            log := log + [RunScript(actions[i])];
          }
        }
        assert actions[..|actions|] == actions;
      }
    }

    /**
     * `update_sensor`: the sensor update, then the shared state receives the
     * records and the time, and an attached alert engine is asked to
     * re-evaluate with the shared weather alerts and these records.
     */
    method UpdateSensor(now: string)
      requires Valid()
      modifies this, app
      ensures Valid()
      ensures eocStates == old(eocStates) && pageHashes == old(pageHashes)
      ensures log == old(log) + UpdateEffects(eocStates, |eocUrls|, now, old(HandOff()))
      ensures log[|old(log)|].SetSensor? && log[|old(log)|].entity == EocSensor
      ensures log[|old(log)|].state == "on" <==> ReportedState(eocStates) != "inactive"
      ensures app != null ==> app.eocStates == eocStates && app.lastUpdate == Some(now)
      ensures app != null ==>
        (app.weatherAlerts == old(app.weatherAlerts) && app.localAlertState == old(app.localAlertState)
         && app.alertManagerAttached == old(app.alertManagerAttached))
    {
      var count := ActivatedCount(eocStates);
      var current := HighestPriorityState(eocStates);
      log := log + [SetSensor(EocSensor, if count > 0 then "on" else "off",
                              EocAttributes(|eocUrls|, count, current, eocStates, now))];
      assert log == old(log) + [EocSensorEffect(eocStates, |eocUrls|, now)];
      if app != null {
        app.eocStates := eocStates;
        app.lastUpdate := Some(now);
        if app.alertManagerAttached {
          log := log + [EngineEvaluate(app.weatherAlerts, eocStates)];
        }
      }
      SensorAgreesWithState(eocStates, |eocUrls|, now);
    }
  }

  /** The activated-site count, site by site. */
  method ActivatedCount(sites: EocStates) returns (count: nat)
    ensures count == CountActivated(sites)
  {
    count := 0;
    var i := |sites|;
    while i > 0
      invariant 0 <= i <= |sites|
      invariant count == CountActivated(sites[i..])
    {
      i := i - 1;
      assert sites[i..][1..] == sites[i + 1..];
      if sites[i].1.activated {
        count := count + 1;
      }
    }
    assert sites[0..] == sites;
  }

  /** The reported state: the first state of the report order that some site is in. */
  method HighestPriorityState(sites: EocStates) returns (current: string)
    ensures current == ReportedState(sites)
  {
    current := "inactive";
    var k := 0;
    while k < |ReportOrder|
      invariant 0 <= k <= |ReportOrder|
      invariant FirstPresent(sites, ReportOrder) == FirstPresent(sites, ReportOrder[k..])
    {
      var found := false;
      for i := 0 to |sites|
        invariant found == exists j :: 0 <= j < i && sites[j].1.state == ReportOrder[k]
      {
        if sites[i].1.state == ReportOrder[k] {
          found := true;
        }
      }
      if found {
        current := ReportOrder[k];
        return;
      }
      assert ReportOrder[k..][1..] == ReportOrder[k + 1..];
      k := k + 1;
    }
  }
}
