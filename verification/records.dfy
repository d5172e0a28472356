/**
 * Python dictionaries keep their keys in insertion order, and assigning to an
 * existing key keeps its position.  The per-URL EOC records and the weather
 * alerts keyed by file name are iterated in that order, so they are modelled
 * as a sequence of (key, value) pairs with distinct keys.
 */
module OrderedDict {
  import opened Wrappers

  type Dict<V> = seq<(string, V)>

  predicate HasKey<V>(d: Dict<V>, k: string) {
    exists i :: 0 <= i < |d| && d[i].0 == k
  }

  predicate DistinctKeys<V>(d: Dict<V>) {
    forall i, j :: 0 <= i < j < |d| ==> d[i].0 != d[j].0
  }

  /** `d.get(k)`. */
  function Get<V>(d: Dict<V>, k: string): Option<V>
    decreases |d|
  {
    if d == [] then None
    else if d[0].0 == k then Some(d[0].1)
    else Get(d[1..], k)
  }

  /** `d[k] = v`: replaces the value in place, or appends a new entry. */
  function Put<V>(d: Dict<V>, k: string, v: V): (r: Dict<V>)
    ensures |r| == if HasKey(d, k) then |d| else |d| + 1
    decreases |d|
  {
    if d == [] then [(k, v)]
    else if d[0].0 == k then [(k, v)] + d[1..]
    else
      assert HasKey(d, k) <==> HasKey(d[1..], k) by {
        if HasKey(d, k) {
          var i :| 0 <= i < |d| && d[i].0 == k;
          assert d[1..][i - 1].0 == k;
        }
      }
      [d[0]] + Put(d[1..], k, v)
  }

  /** `list(d.values())`. */
  function Values<V>(d: Dict<V>): seq<V> {
    seq(|d|, i requires 0 <= i < |d| => d[i].1)
  }

  /** The entries of `d`, in order, whose key is not a key of `other`. */
  function Without<V, W>(d: Dict<V>, other: Dict<W>): Dict<V>
    decreases |d|
  {
    if d == [] then []
    else
      var last := d[|d| - 1];
      Without(d[..|d| - 1], other) + (if HasKey(other, last.0) then [] else [last])
  }

  /** Looking up a key just written gives the new value; other keys are unaffected. */
  lemma {:induction false} PutGet<V>(d: Dict<V>, k: string, v: V, k': string)
    ensures Get(Put(d, k, v), k') == if k' == k then Some(v) else Get(d, k')
    decreases |d|
  {
    if d != [] && d[0].0 != k {
      PutGet(d[1..], k, v, k');
      assert Put(d, k, v)[1..] == Put(d[1..], k, v);
    }
  }

  /** Every entry after a write is the written one or an entry from before. */
  lemma {:induction false} PutEntries<V>(d: Dict<V>, k: string, v: V)
    ensures forall p :: p in Put(d, k, v) ==> p == (k, v) || p in d
    decreases |d|
  {
    if d != [] && d[0].0 != k {
      PutEntries(d[1..], k, v);
      assert Put(d, k, v) == [d[0]] + Put(d[1..], k, v);
    }
  }

  /** A lookup finds a value exactly for a key the table has, and that value is the key's entry. */
  lemma {:induction false} GetEntry<V>(d: Dict<V>, k: string)
    ensures Get(d, k).Some? <==> HasKey(d, k)
    ensures Get(d, k).Some? ==> (k, Get(d, k).value) in d
    decreases |d|
  {
    if d != [] && d[0].0 != k {
      GetEntry(d[1..], k);
      if HasKey(d, k) {
        var i :| 0 <= i < |d| && d[i].0 == k;
        assert d[1..][i - 1].0 == k;
      }
      if HasKey(d[1..], k) {
        var i :| 0 <= i < |d[1..]| && d[1..][i].0 == k;
        assert d[i + 1].0 == k;
      }
    }
  }

  /** A second write to the same key overrides the first. */
  lemma {:induction false} PutPut<V>(d: Dict<V>, k: string, v: V, w: V)
    ensures Put(Put(d, k, v), k, w) == Put(d, k, w)
    decreases |d|
  {
    if d != [] && d[0].0 != k {
      PutPut(d[1..], k, v, w);
      assert Put(d, k, v) == [d[0]] + Put(d[1..], k, v);
      assert Put(d, k, v)[1..] == Put(d[1..], k, v);
    }
  }

  /** Writing a key keeps every old key at its position. */
  lemma {:induction false} PutPositions<V>(d: Dict<V>, k: string, v: V)
    ensures forall i :: 0 <= i < |d| ==> Put(d, k, v)[i].0 == d[i].0
    decreases |d|
  {
    if d != [] && d[0].0 != k {
      var t := d[1..];
      PutPositions(t, k, v);
      assert Put(d, k, v) == [d[0]] + Put(t, k, v);
      forall i | 1 <= i < |d| ensures Put(d, k, v)[i].0 == d[i].0 {
        assert Put(t, k, v)[i - 1].0 == t[i - 1].0;
      }
    }
  }

  /** After writing `k`, the keys are the old keys and `k`. */
  lemma {:induction false} PutHasKey<V>(d: Dict<V>, k: string, v: V)
    ensures HasKey(Put(d, k, v), k)
    ensures forall k' :: HasKey(Put(d, k, v), k') ==> HasKey(d, k') || k' == k
    decreases |d|
  {
    var r := Put(d, k, v);
    if d == [] {
      assert r[0].0 == k;
    } else if d[0].0 == k {
      assert r[0].0 == k;
      forall k' | HasKey(r, k') ensures HasKey(d, k') || k' == k {
        var i :| 0 <= i < |r| && r[i].0 == k';
        if i > 0 {
          assert d[i].0 == k';
        }
      }
    } else {
      var t := d[1..];
      var rt := Put(t, k, v);
      PutHasKey(t, k, v);
      assert r == [d[0]] + rt;
      var j :| 0 <= j < |rt| && rt[j].0 == k;
      assert r[j + 1].0 == k;
      forall k' | HasKey(r, k') ensures HasKey(d, k') || k' == k {
        var i :| 0 <= i < |r| && r[i].0 == k';
        if i == 0 {
          assert d[0].0 == k';
        } else {
          assert rt[i - 1].0 == k';
          assert HasKey(rt, k');
          if k' != k {
            var m :| 0 <= m < |t| && t[m].0 == k';
            assert d[m + 1].0 == k';
          }
        }
      }
    }
  }

  /** Writing a key into a dictionary with distinct keys keeps them distinct. */
  lemma {:induction false} PutDistinct<V>(d: Dict<V>, k: string, v: V)
    requires DistinctKeys(d)
    ensures DistinctKeys(Put(d, k, v))
    decreases |d|
  {
    var r := Put(d, k, v);
    if d == [] {
    } else if d[0].0 == k {
      PutPositions(d, k, v);
    } else {
      var t := d[1..];
      var rt := Put(t, k, v);
      PutDistinct(t, k, v);
      PutHasKey(t, k, v);
      assert r == [d[0]] + rt;
      assert !HasKey(t, d[0].0) by {
        forall i | 0 <= i < |t| ensures t[i].0 != d[0].0 {
          assert t[i] == d[i + 1];
        }
      }
      assert !HasKey(rt, d[0].0);
      forall i, j | 0 <= i < j < |r| ensures r[i].0 != r[j].0 {
        if i == 0 {
          assert rt[j - 1].0 == r[j].0;
        } else {
          assert rt[i - 1] == r[i] && rt[j - 1] == r[j];
        }
      }
    }
  }

  /** Writing a key keeps every old key in place and keeps keys distinct. */
  lemma PutKeys<V>(d: Dict<V>, k: string, v: V)
    ensures forall k' :: HasKey(Put(d, k, v), k') <==> HasKey(d, k') || k' == k
    ensures forall i :: 0 <= i < |d| ==> Put(d, k, v)[i].0 == d[i].0
    ensures DistinctKeys(d) ==> DistinctKeys(Put(d, k, v))
  {
    PutPositions(d, k, v);
    PutHasKey(d, k, v);
    forall k' | HasKey(d, k') ensures HasKey(Put(d, k, v), k') {
      var i :| 0 <= i < |d| && d[i].0 == k';
      assert Put(d, k, v)[i].0 == k';
    }
    if DistinctKeys(d) {
      PutDistinct(d, k, v);
    }
  }

  /** `Without` keeps exactly the keys of `d` that `other` lacks. */
  lemma {:induction false} WithoutKeys<V, W>(d: Dict<V>, other: Dict<W>, k: string)
    ensures HasKey(Without(d, other), k) <==> HasKey(d, k) && !HasKey(other, k)
    decreases |d|
  {
    if d != [] {
      var init, last := d[..|d| - 1], d[|d| - 1];
      WithoutKeys(init, other, k);
      var w := Without(init, other);
      var r := Without(d, other);
      assert r == w + (if HasKey(other, last.0) then [] else [last]);
      if HasKey(r, k) {
        var i :| 0 <= i < |r| && r[i].0 == k;
        if i < |w| {
          assert w[i].0 == k;
          var j :| 0 <= j < |init| && init[j].0 == k;
          assert d[j].0 == k;
        } else {
          assert d[|d| - 1].0 == k;
        }
      }
      if HasKey(d, k) && !HasKey(other, k) {
        var i :| 0 <= i < |d| && d[i].0 == k;
        if i < |d| - 1 {
          assert init[i].0 == k;
          var j :| 0 <= j < |w| && w[j].0 == k;
          assert r[j].0 == k;
        } else {
          assert r[|r| - 1] == last;
        }
      }
    }
  }
}

/**
 * The records that flow between the monitors and the engine, and the effect
 * events by which the model records calls into Home Assistant, the VOIP
 * transport and the alert engine.
 */
module Records {
  import opened Wrappers
  import opened Text
  import opened OrderedDict

  /** One weather warning as the BOM parser builds it (a dict with these keys). */
  datatype WeatherAlert = WeatherAlert(
    event: string,
    headline: string,
    description: string,
    severity: string,
    urgency: string,
    areas: string,
    onset: string,
    expires: string,
    source: string,
    filename: string)

  /** One monitored EOC site's record; `lastCheck`/`lastChange` are present or absent keys. */
  datatype EocSite = EocSite(
    state: string,
    activated: bool,
    lastCheck: Option<string>,
    lastChange: Option<string>,
    contentPreview: string)

  /** EOC site records keyed by URL, in insertion order. */
  type EocStates = Dict<EocSite>

  /** The local alert state dict: `active`, `level`, `reason`, `timestamp`, `triggered_by`. */
  datatype AlertState = AlertState(
    active: bool,
    level: string,
    reason: string,
    timestamp: Option<string>,
    triggeredBy: seq<string>)

  /** The state both the engine and the web UI start from. */
  const InitialAlertState := AlertState(false, "none", "", None, [])

  /** Attributes sent with a binary-sensor update. */
  datatype SensorAttributes =
    | LocalAlertAttributes(alertLevel: string, reason: string, triggeredBy: string, timestamp: Option<string>)
    | EocAttributes(monitoredSites: nat, activatedSites: nat, currentState: string, sites: EocStates, lastCheck: string)
    | WeatherAttributes(alertCount: nat, alerts: seq<WeatherAlert>, lastCheck: string)

  /** Calls into the outside world, in the order they are made. */
  datatype Effect =
    | SetSensor(entity: string, state: string, attributes: SensorAttributes)
    | ActivateScene(scene: string)
    | RunScript(script: string)
    | Notify(message: string, title: string)
    | AlertCall(extension: string, level: string, reason: string)
    | EngineEvaluate(weatherAlerts: seq<WeatherAlert>, eocStates: EocStates)

  /** One routine action: scenes are activated, scripts run, anything else skipped. */
  function RoutineEffect(action: string): seq<Effect> {
    if StartsWith(action, "scene.") then [ActivateScene(action)]
    else if StartsWith(action, "script.") then [RunScript(action)]
    else []
  }

  /** The effects of running a routine list, action by action. */
  function RoutineEffects(actions: seq<string>): seq<Effect>
    decreases |actions|
  {
    if actions == [] then []
    else RoutineEffects(actions[..|actions| - 1]) + RoutineEffect(actions[|actions| - 1])
  }

  /**
   * Running a routine list only activates `scene.` entries and runs `script.`
   * entries of that list, and it does so for every such entry.
   */
  lemma {:induction false} RoutineEffectsExactly(actions: seq<string>)
    ensures forall e :: e in RoutineEffects(actions) ==>
      || (e.ActivateScene? && e.scene in actions && StartsWith(e.scene, "scene."))
      || (e.RunScript? && e.script in actions && StartsWith(e.script, "script.") && !StartsWith(e.script, "scene."))
    ensures forall a :: a in actions && StartsWith(a, "scene.") ==> ActivateScene(a) in RoutineEffects(actions)
    ensures forall a :: a in actions && StartsWith(a, "script.") ==> RunScript(a) in RoutineEffects(actions)
    decreases |actions|
  {
    if actions != [] {
      var init := actions[..|actions| - 1];
      RoutineEffectsExactly(init);
      var a := actions[|actions| - 1];
      assert actions == init + [a];
      if StartsWith(a, "script.") {
        assert a[2] == 'r';
      }
    }
  }

  /** `sum(1 for s in sites.values() if s.get('activated', False))`. */
  function CountActivated(sites: EocStates): nat
    decreases |sites|
  {
    if sites == [] then 0
    else (if sites[0].1.activated then 1 else 0) + CountActivated(sites[1..])
  }

  /** The activated count is positive exactly when some site is activated, and never exceeds the site count. */
  lemma {:induction false} CountActivatedPositive(sites: EocStates)
    ensures CountActivated(sites) > 0 <==> exists i :: 0 <= i < |sites| && sites[i].1.activated
    ensures CountActivated(sites) <= |sites|
    decreases |sites|
  {
    if sites != [] {
      CountActivatedPositive(sites[1..]);
      if exists i :: 0 <= i < |sites| && sites[i].1.activated {
        var i :| 0 <= i < |sites| && sites[i].1.activated;
        if i > 0 { assert sites[1..][i - 1].1.activated; }
      }
      if exists i :: 0 <= i < |sites[1..]| && sites[1..][i].1.activated {
        var i :| 0 <= i < |sites[1..]| && sites[1..][i].1.activated;
        assert sites[i + 1].1.activated;
      }
    }
  }
}
