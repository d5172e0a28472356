/**
 * The weather monitor: which Bureau of Meteorology warning files are read,
 * how a parsed file becomes an alert record (or none), the Townsville area
 * filter, the new/cleared diff against the previous poll, the routine and
 * notifications of a new alert, and `binary_sensor.forewarned_weather_alert`.
 * The FTP session and XML traversal are outside the model: a file comes in
 * as the element texts the parser would look up.
 */
module WeatherMonitor {
  import opened Wrappers
  import opened Text
  import opened OrderedDict
  import opened Records
  import opened WebUi

  // ---------------------------------------------------------------------
  // The area filter
  // ---------------------------------------------------------------------

  /** The place names that mark a warning as relevant to Townsville. */
  const LocationKeywords: seq<string> := [
    "townsville", "herbert and lower burdekin", "upper flinders", "north tropical coast",
    "northern goldfields", "townsville waters", "palm island", "magnetic island"]

  /** `keyword.title()` for each location keyword, in the same order. */
  const LocationTitles: seq<string> := [
    "Townsville", "Herbert And Lower Burdekin", "Upper Flinders", "North Tropical Coast",
    "Northern Goldfields", "Townsville Waters", "Palm Island", "Magnetic Island"]

  /** The lower-cased text the filter searches. */
  function SearchText(a: WeatherAlert): string {
    Lower(a.areas + " " + a.headline + " " + a.description)
  }

  /** Some keyword, lower-cased, occurs in `text`. */
  function AnyKeywordIn(text: string, keywords: seq<string>): (found: bool)
    ensures found <==> exists i :: 0 <= i < |keywords| && Contains(text, Lower(keywords[i]))
    decreases |keywords|
  {
    if keywords == [] then false
    else
      var rest := AnyKeywordIn(text, keywords[1..]);
      assert rest <==> exists i :: 1 <= i < |keywords| && Contains(text, Lower(keywords[i])) by {
        if rest {
          var i :| 0 <= i < |keywords[1..]| && Contains(text, Lower(keywords[1..][i]));
          assert keywords[i + 1] == keywords[1..][i];
        }
        if exists i :: 1 <= i < |keywords| && Contains(text, Lower(keywords[i])) {
          var i :| 1 <= i < |keywords| && Contains(text, Lower(keywords[i]));
          assert keywords[1..][i - 1] == keywords[i];
        }
      }
      Contains(text, Lower(keywords[0])) || rest
  }

  /** `affects_townsville`. */
  predicate AffectsTownsville(a: WeatherAlert) {
    AnyKeywordIn(SearchText(a), LocationKeywords)
  }

  /**
   * An alert whose areas name Townsville, in any letter case, affects
   * Townsville; an alert none of whose three texts names a place affects
   * nothing.
   */
  lemma AreasNamingTownsvilleAffect(a: WeatherAlert)
    ensures Contains(Lower(a.areas), "townsville") ==> AffectsTownsville(a)
    ensures AffectsTownsville(a) <==> exists k :: k in LocationKeywords && Contains(SearchText(a), k)
  {
    LowerAppend(a.areas, " " + a.headline + " " + a.description);
    assert a.areas + " " + a.headline + " " + a.description == a.areas + (" " + a.headline + " " + a.description);
    if Contains(Lower(a.areas), "townsville") {
      var i :| 0 <= i <= |Lower(a.areas)| - 10 && OccursAt(Lower(a.areas), i, "townsville");
      OccursInPrefix(SearchText(a), Lower(a.areas), i, "townsville");
      assert Lower(LocationKeywords[0]) == "townsville";
    }
    forall i | 0 <= i < |LocationKeywords| ensures Lower(LocationKeywords[i]) == LocationKeywords[i] {
      LowerOfKeywords(i);
    }
    if AffectsTownsville(a) {
      var i :| 0 <= i < |LocationKeywords| && Contains(SearchText(a), Lower(LocationKeywords[i]));
      assert LocationKeywords[i] in LocationKeywords;
    }
  }

  /** The keywords are already lower case. */
  lemma LowerOfKeywords(i: int)
    requires 0 <= i < |LocationKeywords|
    ensures Lower(LocationKeywords[i]) == LocationKeywords[i]
  {
    LowerWithoutCapitals(LocationKeywords[i]);
  }

  // ---------------------------------------------------------------------
  // Which files are read
  // ---------------------------------------------------------------------

  /** A Queensland warning: the name ends in `.xml` and, upper-cased, starts with `IDQ`. */
  predicate IsWarningFile(name: string) {
    EndsWith(name, ".xml") && StartsWith(Upper(name), "IDQ")
  }

  /** The listing's warning files, in listing order. */
  function WarningFiles(names: seq<string>): seq<string>
    decreases |names|
  {
    if names == [] then []
    else
      var last := names[|names| - 1];
      WarningFiles(names[..|names| - 1]) + (if IsWarningFile(last) then [last] else [])
  }

  /** Exactly the listed warning files are read. */
  lemma {:induction false} WarningFilesExactly(names: seq<string>)
    ensures forall f :: f in WarningFiles(names) ==> f in names && IsWarningFile(f)
    ensures forall n :: n in names && IsWarningFile(n) ==> n in WarningFiles(names)
    decreases |names|
  {
    if names != [] {
      var init, last := names[..|names| - 1], names[|names| - 1];
      WarningFilesExactly(init);
      assert names == init + [last];
    }
  }

  /** The prefix test ignores case, the extension test does not. */
  lemma WarningFileCases()
    ensures IsWarningFile("IDQ20885.xml") && IsWarningFile("idq20885.xml")
    ensures !IsWarningFile("IDQ20885.XML") && !IsWarningFile("IDN11060.xml")
  {
    assert Upper("idq20885.xml")[..3] == "IDQ";
    assert Upper("IDQ20885.xml")[..3] == "IDQ";
    assert Upper("IDN11060.xml")[2] == 'N';
    assert "IDQ20885.XML"[9] == 'X';
  }

  /** The listing filter of `_fetch_ftp_warnings`. */
  method SelectWarningFiles(names: seq<string>) returns (files: seq<string>)
    ensures files == WarningFiles(names)
  {
    files := [];
    for i := 0 to |names|
      invariant files == WarningFiles(names[..i])
    {
      assert names[..i + 1][..i] == names[..i];
      if EndsWith(names[i], ".xml") && StartsWith(Upper(names[i]), "IDQ") {
        files := files + [names[i]];
      }
    }
    assert names[..|names|] == names;
  }

  // ---------------------------------------------------------------------
  // Text and area extraction
  // ---------------------------------------------------------------------

  /** The non-empty texts, each once, in first-seen order. */
  function DistinctNonEmpty(texts: seq<string>): seq<string>
    decreases |texts|
  {
    if texts == [] then []
    else
      var acc := DistinctNonEmpty(texts[..|texts| - 1]);
      var t := texts[|texts| - 1];
      if t != "" && t !in acc then acc + [t] else acc
  }

  /** Each non-empty text is kept exactly once and nothing else is kept. */
  lemma {:induction false} DistinctNonEmptyFacts(texts: seq<string>)
    ensures Distinct(DistinctNonEmpty(texts))
    ensures forall t :: t in DistinctNonEmpty(texts) <==> t in texts && t != ""
    decreases |texts|
  {
    if texts != [] {
      var init := texts[..|texts| - 1];
      DistinctNonEmptyFacts(init);
      assert texts == init + [texts[|texts| - 1]];
    }
  }

  /** `extract_text_content` on the field texts: distinct non-empty texts joined by spaces, cut at 1000. */
  function TextContent(fields: seq<string>): string {
    Take(Join(DistinctNonEmpty(fields), " "), 1000)
  }

  /** `extract_text_content`: collect, join, cut. */
  method ExtractTextContent(fields: seq<string>) returns (text: string)
    ensures text == TextContent(fields)
    ensures |text| <= 1000
  {
    var texts: seq<string> := [];
    for i := 0 to |fields|
      invariant texts == DistinctNonEmpty(fields[..i])
    {
      assert fields[..i + 1][..i] == fields[..i];
      if fields[i] != "" && fields[i] !in texts {
        texts := texts + [fields[i]];
      }
    }
    assert fields[..|fields|] == fields;
    var combined := Join(texts, " ");
    text := if combined != "" then Take(combined, 1000) else "";
  }

  /** The titles of the first `n` keywords that occur in `text`. */
  function KeywordTitles(text: string, n: nat): seq<string>
    requires n <= |LocationKeywords|
  {
    if n == 0 then []
    else
      KeywordTitles(text, n - 1)
        + (if Contains(Lower(text), Lower(LocationKeywords[n - 1])) then [LocationTitles[n - 1]] else [])
  }

  /** A title is listed exactly when its keyword occurs in the text. */
  lemma {:induction false} KeywordTitlesExactly(text: string, n: nat)
    requires n <= |LocationKeywords|
    ensures forall i :: 0 <= i < n ==>
      (LocationTitles[i] in KeywordTitles(text, n) <==> Contains(Lower(text), Lower(LocationKeywords[i])))
    ensures KeywordTitles(text, n) == [] <==>
      forall i :: 0 <= i < n ==> !Contains(Lower(text), Lower(LocationKeywords[i]))
    ensures forall t :: t in KeywordTitles(text, n) ==> exists i :: 0 <= i < n && t == LocationTitles[i]
  {
    if n > 0 {
      KeywordTitlesExactly(text, n - 1);
      var prev := KeywordTitles(text, n - 1);
      var k := n - 1;
      var hit := Contains(Lower(text), Lower(LocationKeywords[k]));
      var cur := KeywordTitles(text, n);
      assert cur == prev + (if hit then [LocationTitles[k]] else []);
      forall t | t in prev ensures t != LocationTitles[k] {
        var i :| 0 <= i < k && t == LocationTitles[i];
        TitlesDistinct(i, k);
      }
      forall i | 0 <= i < n
        ensures LocationTitles[i] in cur <==> Contains(Lower(text), Lower(LocationKeywords[i]))
      {
        if i < k {
          TitlesDistinct(i, k);
        }
      }
      forall t | t in cur ensures exists i :: 0 <= i < n && t == LocationTitles[i] {
        if t !in prev {
          assert t == LocationTitles[k];
        }
      }
      assert cur == [] <==> prev == [] && !hit;
    }
  }

  lemma TitlesDistinct(i: int, j: int)
    requires 0 <= i < j < |LocationTitles|
    ensures LocationTitles[i] != LocationTitles[j]
  {
  }

  /** The area list: the distinct area texts, or else the titles of the keywords in the warning text. */
  function AreaList(areaTexts: seq<string>, fields: seq<string>): seq<string> {
    var found := DistinctNonEmpty(areaTexts);
    if found != [] then found else KeywordTitles(TextContent(fields), |LocationKeywords|)
  }

  /** `extract_areas`: the area list joined by commas, `'Various areas'` when it is empty. */
  function AreasText(areaTexts: seq<string>, fields: seq<string>): string {
    var areas := AreaList(areaTexts, fields);
    if areas != [] then Join(areas, ", ") else "Various areas"
  }

  /**
   * Area texts win; the keyword fallback is used only when every area text
   * is empty, and `'Various areas'` only when the fallback finds nothing.
   */
  lemma AreasTextCases(areaTexts: seq<string>, fields: seq<string>)
    ensures (exists t :: t in areaTexts && t != "") ==>
      AreasText(areaTexts, fields) == Join(DistinctNonEmpty(areaTexts), ", ")
    ensures AreaList(areaTexts, fields) == [] <==>
      (forall t :: t in areaTexts ==> t == "")
      && forall i :: 0 <= i < |LocationKeywords| ==> !Contains(Lower(TextContent(fields)), Lower(LocationKeywords[i]))
  {
    var found := DistinctNonEmpty(areaTexts);
    DistinctNonEmptyFacts(areaTexts);
    assert found == [] <==> forall t :: t in areaTexts ==> t == "" by {
      if found != [] {
        assert found[0] in found;
      }
    }
    KeywordTitlesExactly(TextContent(fields), |LocationKeywords|);
  }

  /** `extract_areas`, collecting area texts, then falling back to the keyword search. */
  method ExtractAreas(areaTexts: seq<string>, fields: seq<string>) returns (areas: string)
    ensures areas == AreasText(areaTexts, fields)
  {
    var found: seq<string> := [];
    for i := 0 to |areaTexts|
      invariant found == DistinctNonEmpty(areaTexts[..i])
    {
      assert areaTexts[..i + 1][..i] == areaTexts[..i];
      if areaTexts[i] != "" && areaTexts[i] !in found {
        found := found + [areaTexts[i]];
      }
    }
    assert areaTexts[..|areaTexts|] == areaTexts;
    if found == [] {
      var text := ExtractTextContent(fields);
      for k := 0 to |LocationKeywords|
        invariant found == KeywordTitles(text, k)
      {
        if Contains(Lower(text), Lower(LocationKeywords[k])) {
          found := found + [LocationTitles[k]];
        }
      }
    }
    areas := if found != [] then Join(found, ", ") else "Various areas";
  }

  // ---------------------------------------------------------------------
  // From a parsed file to an alert record
  // ---------------------------------------------------------------------

  /** Python's `a or b` on strings. */
  function Or(a: string, b: string): string {
    if a != "" then a else b
  }

  /** One CAP `area`: its namespaced and plain `areaDesc` texts. */
  datatype CapArea = CapArea(capDesc: string, plainDesc: string)

  /** One CAP `info` element: namespaced and plain texts where the parser tries both. */
  datatype CapInfo = CapInfo(
    capEvent: string, plainEvent: string,
    capHeadline: string, plainHeadline: string,
    capDescription: string, plainDescription: string,
    severity: string, urgency: string,
    areas: seq<CapArea>,
    onset: string, expires: string)

  /** The texts the plain BOM format is searched for. */
  datatype BomFields = BomFields(
    warningType: string, typeText: string, eventText: string,
    issueLocal: string, issueUtc: string, validFrom: string,
    title: string, headlineText: string,
    /** The eight text fields, in search order. */
    textFields: seq<string>,
    /** The text of each area-like element, in search order. */
    areaTexts: seq<string>)

  /** A downloaded file: its CAP `info` elements (none for the plain format) and its plain fields. */
  datatype WarningFile =
    | Xml(infos: seq<CapInfo>, bom: BomFields)
    | Unreadable

  /** The non-empty area descriptions of a CAP `info`, in order. */
  function CapAreas(areas: seq<CapArea>): seq<string>
    decreases |areas|
  {
    if areas == [] then []
    else
      var d := Or(areas[|areas| - 1].capDesc, areas[|areas| - 1].plainDesc);
      CapAreas(areas[..|areas| - 1]) + (if d != "" then [d] else [])
  }

  predicate MentionsCancellation(s: string) {
    Contains(Lower(s), "cancellation")
  }

  /** The record the CAP path builds for an `info` with an event. */
  function CapAlert(filename: string, info: CapInfo): WeatherAlert {
    var event := Or(info.capEvent, info.plainEvent);
    var headline := Or(info.capHeadline, info.plainHeadline);
    var areas := CapAreas(info.areas);
    WeatherAlert(event, Or(headline, event), Or(info.capDescription, info.plainDescription),
                 Or(info.severity, "Unknown"), Or(info.urgency, "Unknown"),
                 if areas != [] then Join(areas, ", ") else "Unknown",
                 info.onset, info.expires, "BOM", filename)
  }

  /**
   * The CAP path: the first `info` with an event decides; a cancellation or
   * an alert outside the area stores nothing.
   */
  function CapOutcome(filename: string, infos: seq<CapInfo>): Option<WeatherAlert>
    decreases |infos|
  {
    if infos == [] then None
    else
      var info := infos[0];
      var event := Or(info.capEvent, info.plainEvent);
      if event == "" then CapOutcome(filename, infos[1..])
      else if MentionsCancellation(event) || MentionsCancellation(Or(info.capHeadline, info.plainHeadline)) then None
      else
        var a := CapAlert(filename, info);
        if AffectsTownsville(a) then Some(a) else None
  }

  /** The plain path: type, time and headline by fallback, description and areas by extraction. */
  function BomOutcome(filename: string, b: BomFields): Option<WeatherAlert> {
    var warningType := Or(Or(b.warningType, b.typeText), b.eventText);
    var issueTime := Or(Or(b.issueLocal, b.issueUtc), b.validFrom);
    var headline := Or(Or(b.title, b.headlineText), warningType);
    if warningType == "" && headline == "" then None
    else if MentionsCancellation(warningType) || MentionsCancellation(headline) then None
    else
      var a := WeatherAlert(Or(warningType, headline), Or(headline, warningType), TextContent(b.textFields),
                            "Moderate", "Expected", AreasText(b.areaTexts, b.textFields),
                            issueTime, "", "BOM", filename);
      if AffectsTownsville(a) then Some(a) else None
  }

  /** `_process_ftp_file`: the alert stored under the file name, if any. */
  function FileOutcome(filename: string, f: WarningFile): Option<WeatherAlert> {
    match f
    case Unreadable => None
    case Xml(infos, bom) => if infos != [] then CapOutcome(filename, infos) else BomOutcome(filename, bom)
  }

  /** What every stored record satisfies. */
  predicate StoredRecord(filename: string, a: WeatherAlert) {
    && a.source == "BOM" && a.filename == filename && a.event != "" && a.headline != ""
    && a.severity != "" && a.urgency != ""
    && !MentionsCancellation(a.event) && !MentionsCancellation(a.headline)
    && AffectsTownsville(a)
  }

  lemma {:induction false} CapOutcomeFacts(filename: string, infos: seq<CapInfo>)
    ensures CapOutcome(filename, infos).Some? ==> StoredRecord(filename, CapOutcome(filename, infos).value)
    decreases |infos|
  {
    if infos != [] && Or(infos[0].capEvent, infos[0].plainEvent) == "" {
      CapOutcomeFacts(filename, infos[1..]);
    }
  }

  /**
   * A stored record always comes from BOM under its own file name, has an
   * event and a headline, never announces a cancellation and affects
   * Townsville.  Plain-format records are `Moderate`/`Expected`; CAP records
   * keep the file's severity, `Unknown` when it is missing.
   */
  lemma FileOutcomeFacts(filename: string, f: WarningFile)
    ensures FileOutcome(filename, f).Some? ==> StoredRecord(filename, FileOutcome(filename, f).value)
    ensures f.Xml? && f.infos == [] && FileOutcome(filename, f).Some? ==>
      FileOutcome(filename, f).value.severity == "Moderate" && FileOutcome(filename, f).value.urgency == "Expected"
    ensures (f.Xml? && f.infos != [] && f.infos[0].severity == "" && Or(f.infos[0].capEvent, f.infos[0].plainEvent) != ""
             && FileOutcome(filename, f).Some?) ==> FileOutcome(filename, f).value.severity == "Unknown"
  {
    if f.Xml? && f.infos != [] {
      CapOutcomeFacts(filename, f.infos);
    }
  }

  /** The alerts of one poll, keyed by file name, for the listed files in order. */
  function FetchedAlerts(files: seq<string>, contents: map<string, WarningFile>): Dict<WeatherAlert>
    decreases |files|
  {
    if files == [] then []
    else
      var name := files[|files| - 1];
      var acc := FetchedAlerts(files[..|files| - 1], contents);
      var outcome := FileOutcome(name, if name in contents then contents[name] else Unreadable);
      if outcome.Some? then Put(acc, name, outcome.value) else acc
  }

  /** Every fetched record is a stored record of a file of the poll, under distinct names. */
  lemma {:induction false} FetchedAlertsFacts(files: seq<string>, contents: map<string, WarningFile>)
    ensures var d := FetchedAlerts(files, contents);
      && DistinctKeys(d)
      && forall p :: p in d ==> p.0 in files && StoredRecord(p.0, p.1)
    decreases |files|
  {
    if files != [] {
      var init, name := files[..|files| - 1], files[|files| - 1];
      FetchedAlertsFacts(init, contents);
      var acc := FetchedAlerts(init, contents);
      var f := if name in contents then contents[name] else Unreadable;
      FileOutcomeFacts(name, f);
      if FileOutcome(name, f).Some? {
        PutKeys(acc, name, FileOutcome(name, f).value);
        PutEntries(acc, name, FileOutcome(name, f).value);
      }
      assert forall p :: p in acc ==> p.0 in files by {
        assert forall x :: x in init ==> x in files;
      }
    }
  }

  /**
   * `_fetch_ftp_warnings` once the session is open: `listing` is the
   * directory listing and `contents` the parsed files (a missing entry is a
   * file that could not be read or parsed).
   */
  method FetchWarnings(listing: seq<string>, contents: map<string, WarningFile>)
    returns (current: Dict<WeatherAlert>)
    ensures current == FetchedAlerts(WarningFiles(listing), contents)
  {
    var files := SelectWarningFiles(listing);
    current := [];
    for i := 0 to |files|
      invariant current == FetchedAlerts(files[..i], contents)
    {
      assert files[..i + 1][..i] == files[..i];
      var f := if files[i] in contents then contents[files[i]] else Unreadable;
      var outcome := FileOutcome(files[i], f);
      if outcome.Some? {
        current := Put(current, files[i], outcome.value);
      }
    }
    assert files[..|files|] == files;
  }

  // ---------------------------------------------------------------------
  // Reacting to alerts
  // ---------------------------------------------------------------------

  /** The routine for an event: tornadoes first, then severe weather, thunderstorms and floods. */
  function WeatherRoutineKey(event: string): (key: Option<string>)
    ensures key.Some? ==> key.value in {"tornado_warning", "severe_weather"}
  {
    var e := Lower(event);
    if Contains(e, "tornado") then Some("tornado_warning")
    else if Contains(e, "severe") || Contains(e, "thunderstorm") || Contains(e, "flood") then Some("severe_weather")
    else None
  }

  /** The effects of `trigger_routine`. */
  function WeatherRoutineEffects(routines: map<string, seq<string>>, event: string): seq<Effect> {
    var key := WeatherRoutineKey(event);
    if key.Some? && key.value in routines then RoutineEffects(routines[key.value]) else []
  }

  /** `handle_new_alert`'s own cancellation test, on upper-cased texts. */
  predicate IsCancellation(a: WeatherAlert) {
    Contains(Upper(a.headline), "CANCELLATION") || Contains(Upper(a.event), "CANCELLATION")
  }

  const WeatherAlertTitle := "⚠️ Weather Alert: "

  function NewAlertNotice(a: WeatherAlert): Effect {
    Notify(a.event + "\n" + a.headline + "\nAreas: " + a.areas, WeatherAlertTitle + a.event)
  }

  /** `handle_new_alert`: nothing for a cancellation, otherwise the notification then the routine. */
  function NewAlertEffects(routines: map<string, seq<string>>, a: WeatherAlert): seq<Effect> {
    if IsCancellation(a) then [] else [NewAlertNotice(a)] + WeatherRoutineEffects(routines, a.event)
  }

  function ClearedNotice(a: WeatherAlert): Effect {
    Notify("Alert cleared: " + a.event, "Weather Alert Cleared")
  }

  /** The new-alert handling of the given alerts, in order. */
  function NewAlertsEffects(routines: map<string, seq<string>>, d: Dict<WeatherAlert>): seq<Effect>
    decreases |d|
  {
    if d == [] then []
    else NewAlertsEffects(routines, d[..|d| - 1]) + NewAlertEffects(routines, d[|d| - 1].1)
  }

  /** The cleared-alert notices of the given alerts, in order. */
  function ClearedEffects(d: Dict<WeatherAlert>): seq<Effect>
    decreases |d|
  {
    if d == [] then []
    else ClearedEffects(d[..|d| - 1]) + [ClearedNotice(d[|d| - 1].1)]
  }

  /** The first loop's effects, entry by entry: handling for each id `previous` lacks. */
  function NewInPoll(routines: map<string, seq<string>>, current: Dict<WeatherAlert>, previous: Dict<WeatherAlert>): seq<Effect>
    decreases |current|
  {
    if current == [] then []
    else
      var last := current[|current| - 1];
      NewInPoll(routines, current[..|current| - 1], previous)
        + (if HasKey(previous, last.0) then [] else NewAlertEffects(routines, last.1))
  }

  /** The second loop's effects, entry by entry: a notice for each id `current` lacks. */
  function ClearedInPoll(previous: Dict<WeatherAlert>, current: Dict<WeatherAlert>): seq<Effect>
    decreases |previous|
  {
    if previous == [] then []
    else
      var last := previous[|previous| - 1];
      ClearedInPoll(previous[..|previous| - 1], current)
        + (if HasKey(current, last.0) then [] else [ClearedNotice(last.1)])
  }

  lemma {:induction false} NewInPollIsWithout(routines: map<string, seq<string>>, current: Dict<WeatherAlert>,
                                              previous: Dict<WeatherAlert>)
    ensures NewInPoll(routines, current, previous) == NewAlertsEffects(routines, Without(current, previous))
    decreases |current|
  {
    if current != [] {
      var init, last := current[..|current| - 1], current[|current| - 1];
      NewInPollIsWithout(routines, init, previous);
      assert Without(current, previous) == Without(init, previous) + (if HasKey(previous, last.0) then [] else [last]);
      if !HasKey(previous, last.0) {
        NewAlertsAppend(routines, Without(init, previous), last);
      } else {
        assert Without(current, previous) == Without(init, previous);
      }
    }
  }

  lemma {:induction false} ClearedInPollIsWithout(previous: Dict<WeatherAlert>, current: Dict<WeatherAlert>)
    ensures ClearedInPoll(previous, current) == ClearedEffects(Without(previous, current))
    decreases |previous|
  {
    if previous != [] {
      var init, last := previous[..|previous| - 1], previous[|previous| - 1];
      ClearedInPollIsWithout(init, current);
      assert Without(previous, current) == Without(init, current) + (if HasKey(current, last.0) then [] else [last]);
      if !HasKey(current, last.0) {
        ClearedAppend(Without(init, current), last);
      } else {
        assert Without(previous, current) == Without(init, current);
      }
    }
  }

  /** One more entry of the poll adds that entry's effects, if any. */
  lemma NewInPollStep(routines: map<string, seq<string>>, current: Dict<WeatherAlert>, previous: Dict<WeatherAlert>,
                      i: nat)
    requires i < |current|
    ensures NewInPoll(routines, current[..i + 1], previous) == NewInPoll(routines, current[..i], previous)
      + (if HasKey(previous, current[i].0) then [] else NewAlertEffects(routines, current[i].1))
  {
    assert current[..i + 1][..i] == current[..i];
  }

  /** One more entry of the old set adds its notice when `current` lacks its id. */
  lemma ClearedInPollStep(previous: Dict<WeatherAlert>, current: Dict<WeatherAlert>, i: nat)
    requires i < |previous|
    ensures ClearedInPoll(previous[..i + 1], current) == ClearedInPoll(previous[..i], current)
      + (if HasKey(current, previous[i].0) then [] else [ClearedNotice(previous[i].1)])
  {
    assert previous[..i + 1][..i] == previous[..i];
  }

  lemma NewAlertsAppend(routines: map<string, seq<string>>, d: Dict<WeatherAlert>, p: (string, WeatherAlert))
    ensures NewAlertsEffects(routines, d + [p]) == NewAlertsEffects(routines, d) + NewAlertEffects(routines, p.1)
  {
    assert (d + [p])[..|d|] == d;
  }

  lemma ClearedAppend(d: Dict<WeatherAlert>, p: (string, WeatherAlert))
    ensures ClearedEffects(d + [p]) == ClearedEffects(d) + [ClearedNotice(p.1)]
  {
    assert (d + [p])[..|d|] == d;
  }

  const WeatherSensor := "binary_sensor.forewarned_weather_alert"

  /** `update_sensor`: `on` exactly when some alert is active, with the count and the alerts. */
  function WeatherSensorEffect(active: Dict<WeatherAlert>, now: string): (e: Effect)
    ensures e.SetSensor? && e.attributes.WeatherAttributes?
    ensures e.state == "on" <==> e.attributes.alertCount > 0
    ensures e.attributes.alertCount == |e.attributes.alerts| == |active|
  {
    SetSensor(WeatherSensor, if |active| > 0 then "on" else "off", WeatherAttributes(|active|, Values(active), now))
  }

  /**
   * The upper-case test and the parser's lower-case test agree, so every
   * fetched record is announced: its new-alert handling starts with the
   * notification.
   */
  lemma FetchedAlertsAreAnnounced(routines: map<string, seq<string>>, filename: string, a: WeatherAlert)
    requires StoredRecord(filename, a)
    ensures !IsCancellation(a)
    ensures NewAlertEffects(routines, a)[0] == NewAlertNotice(a)
  {
    FoldedContains(a.headline, "cancellation");
    FoldedContains(a.event, "cancellation");
    assert Upper("cancellation") == "CANCELLATION";
    assert Lower("cancellation") == "cancellation";
  }

  /** Tornado wins over the other keywords; an event naming none of them runs nothing. */
  lemma WeatherRoutineChoice(routines: map<string, seq<string>>, event: string)
    ensures Contains(Lower(event), "tornado") ==> WeatherRoutineKey(event) == Some("tornado_warning")
    ensures WeatherRoutineKey(event) == Some("severe_weather") ==>
      !Contains(Lower(event), "tornado")
      && (Contains(Lower(event), "severe") || Contains(Lower(event), "thunderstorm") || Contains(Lower(event), "flood"))
    ensures WeatherRoutineKey(event).None? ==> WeatherRoutineEffects(routines, event) == []
  {
  }

  /** Entries whose keys all occur in `other` leave nothing behind. */
  lemma {:induction false} WithoutCovered<V, W>(d: Dict<V>, other: Dict<W>)
    requires forall i :: 0 <= i < |d| ==> HasKey(other, d[i].0)
    ensures Without(d, other) == []
    decreases |d|
  {
    if d != [] {
      WithoutCovered(d[..|d| - 1], other);
      assert HasKey(other, d[|d| - 1].0);
    }
  }

  /** A poll that returns the same alerts as before announces and clears nothing. */
  lemma RepeatedPollIsQuiet(routines: map<string, seq<string>>, d: Dict<WeatherAlert>)
    ensures NewAlertsEffects(routines, Without(d, d)) == []
    ensures ClearedEffects(Without(d, d)) == []
  {
    forall i | 0 <= i < |d| ensures HasKey(d, d[i].0) {
    }
    WithoutCovered(d, d);
  }

  class WeatherMonitor {
    /** The configured `routines` table. */
    const routines: map<string, seq<string>>
    /** The web UI's shared state, when the monitor was given one. */
    const app: AppState?
    /** The alerts of the last poll, keyed by file name. */
    var activeAlerts: Dict<WeatherAlert>
    /** Everything sent to Home Assistant and handed to the alert engine, in order. */
    ghost var log: seq<Effect>

    /** The hand-off `update_alerts` makes: the shared EOC records, when an engine is attached. */
    function HandOff(): Option<EocStates>
      reads app
    {
      if app != null && app.alertManagerAttached then Some(app.eocStates) else None
    }

    /** `__init__`: no active alerts. */
    constructor (routines: map<string, seq<string>>, app: AppState?)
      ensures this.routines == routines && this.app == app
      ensures activeAlerts == [] && log == []
    {
      this.routines := routines;
      this.app := app;
      activeAlerts := [];
      log := [];
    }

    /**
     * `update_alerts`: new alerts are handled in the new poll's order, then
     * the alerts no longer reported are cleared in the old order; the poll
     * becomes the active set, the sensor is updated, and the shared state
     * receives the alerts (and hands them to an attached engine).
     */
    method UpdateAlerts(current: Dict<WeatherAlert>, now: string)
      modifies this, app
      ensures activeAlerts == current
      ensures log == old(log)
        + NewAlertsEffects(routines, Without(current, old(activeAlerts)))
        + ClearedEffects(Without(old(activeAlerts), current))
        + [WeatherSensorEffect(current, now)]
        + (if old(HandOff()).Some? then [EngineEvaluate(Values(current), old(HandOff()).value)] else [])
      ensures app != null ==> app.weatherAlerts == Values(current) && app.lastUpdate == Some(now)
      ensures app != null ==>
        (app.eocStates == old(app.eocStates) && app.localAlertState == old(app.localAlertState)
         && app.alertManagerAttached == old(app.alertManagerAttached))
    {
      var previous := activeAlerts;
      HandleNewAlerts(current, previous);
      HandleClearedAlerts(previous, current);
      activeAlerts := current;
      UpdateSensor(now);
      if app != null {
        app.weatherAlerts := Values(current);
        app.lastUpdate := Some(now);
        if app.alertManagerAttached {
          log := log + [EngineEvaluate(Values(current), app.eocStates)];
        }
      }
    }

    /** The first loop of `update_alerts`: every alert of `current` whose id `previous` lacks. */
    method HandleNewAlerts(current: Dict<WeatherAlert>, previous: Dict<WeatherAlert>)
      modifies this
      ensures activeAlerts == old(activeAlerts)
      ensures log == old(log) + NewAlertsEffects(routines, Without(current, previous))
    {
      for i := 0 to |current|
        invariant activeAlerts == old(activeAlerts)
        invariant log == old(log) + NewInPoll(routines, current[..i], previous)
      {
        ghost var done := log;
        NewInPollStep(routines, current, previous, i);
        if !HasKey(previous, current[i].0) {
          HandleNewAlert(current[i].1);
          assert log == done + NewAlertEffects(routines, current[i].1);
        }
      }
      assert current[..|current|] == current;
      NewInPollIsWithout(routines, current, previous);
    }

    /** The second loop of `update_alerts`: every alert of `previous` whose id `current` lacks. */
    method HandleClearedAlerts(previous: Dict<WeatherAlert>, current: Dict<WeatherAlert>)
      modifies this
      ensures activeAlerts == old(activeAlerts)
      ensures log == old(log) + ClearedEffects(Without(previous, current))
    {
      for i := 0 to |previous|
        invariant activeAlerts == old(activeAlerts)
        invariant log == old(log) + ClearedInPoll(previous[..i], current)
      {
        ClearedInPollStep(previous, current, i);
        if !HasKey(current, previous[i].0) {
          HandleClearedAlert(previous[i].1);
        }
      }
      assert previous[..|previous|] == previous;
      ClearedInPollIsWithout(previous, current);
    }

    /** `handle_new_alert`. */
    method HandleNewAlert(a: WeatherAlert)
      modifies this
      ensures activeAlerts == old(activeAlerts)
      ensures log == old(log) + NewAlertEffects(routines, a)
    {
      if Contains(Upper(a.headline), "CANCELLATION") || Contains(Upper(a.event), "CANCELLATION") {
        return;
      }
      log := log + [NewAlertNotice(a)];
      TriggerRoutine(a);
    }

    /** `handle_cleared_alert`. */
    method HandleClearedAlert(a: WeatherAlert)
      modifies this
      ensures activeAlerts == old(activeAlerts)
      ensures log == old(log) + [ClearedNotice(a)]
    {
      log := log + [ClearedNotice(a)];
    }

    /** `trigger_routine`: the event's routine, scenes and scripts only. */
    method TriggerRoutine(a: WeatherAlert)
      modifies this
      ensures activeAlerts == old(activeAlerts)
      ensures log == old(log) + WeatherRoutineEffects(routines, a.event)
    {
      var event := Lower(a.event);
      var key: Option<string> := None;
      if Contains(event, "tornado") {
        key := Some("tornado_warning");
      } else if Contains(event, "severe") || Contains(event, "thunderstorm") || Contains(event, "flood") {
        key := Some("severe_weather");
      }
      if key.Some? && key.value in routines {
        var actions := routines[key.value];
        for i := 0 to |actions|
          invariant activeAlerts == old(activeAlerts)
          invariant log == old(log) + RoutineEffects(actions[..i])
        {
          assert actions[..i + 1][..i] == actions[..i];
          if StartsWith(actions[i], "scene.") {
            log := log + [ActivateScene(actions[i])];
          } else if StartsWith(actions[i], "script.") {
            log := log + [RunScript(actions[i])];
          }
        }
        assert actions[..|actions|] == actions;
      }
    }

    /** `update_sensor`. */
    method UpdateSensor(now: string)
      modifies this
      ensures activeAlerts == old(activeAlerts)
      ensures log == old(log) + [WeatherSensorEffect(activeAlerts, now)]
    {
      var count := |activeAlerts|;
      log := log + [SetSensor(WeatherSensor, if count > 0 then "on" else "off",
                              WeatherAttributes(count, Values(activeAlerts), now))];
    }
  }
}
