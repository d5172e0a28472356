# Forewarned alert engine in Dafny

Forewarned is a Home Assistant add-on. It watches Bureau of Meteorology
warnings and Local Disaster Management Group (LDMG) Emergency Operations
Centre (EOC) web pages, and it turns them into a local alert state with one
of five levels: `none`, `advisory`, `watch`, `warning` or `emergency`. When
that state changes, it runs Home Assistant scenes and scripts, sends
notifications and places VOIP calls.

This project models the core of that system:

- **The local alert engine** (`LocalAlertManager`). It covers the AND/OR
  condition sets, the manual override switches, the highest-priority level
  and its reasons and `triggered_by` entries, and the commit-on-change rule.
  It also covers the effects of a transition: routines, a notification and
  VOIP calls, or the all-clear. The default rule table is transcribed as a
  constant, and lemmas state which alerts and sites make each level fire.
- **The EOC monitor.** It covers keyword state detection, the URL
  configuration entries, and the per-URL state and hash bookkeeping of a
  page check. It also covers the change notification, the EOC routine key
  with its fallback, and the sensor's activated count and reported state.
- **The weather monitor.** It covers the Queensland file-name filter and the
  construction of a record from already extracted XML fields. It also covers
  the Townsville area filter, text and area extraction, and the new and
  cleared diff of one poll with its notifications and routines. Finally it
  covers the weather sensor.
- **The MQTT manual-switch registry.** It covers the connection flag driven
  by broker callbacks, discovery, state publication, command messages and
  the `connect` guard.
- **The VOIP integration.** It covers backend selection, call dispatch, the
  spoken alert message, the status text and the TwiML and AGI templates.
- **The web UI's shared `app_state`.** It covers the initial value, the two
  update helpers, and the `/voip/status` and `/api/eoc` views.

Objects whose fields the source updates in place are Dafny classes:
`LocalAlertManager`, `EocMonitor`, `WeatherMonitor`, `MqttIntegration`,
`VoipIntegration` and `AppState`. Each has a ghost `log` that records, in
order, what the object asks of the outside world. That means sensor updates,
scenes, scripts, notifications, VOIP call requests and MQTT publications. A
monitor that would hand fresh data to the alert engine logs an
`EngineEvaluate` event with that data. Python dictionaries keep insertion
order, so the per-URL and per-file stores are sequences of key/value pairs
with distinct keys (`OrderedDict`). Their `Put` keeps a key's position.
Loops in the source are methods with loop invariants, and each method is
proved equal to a specification function. The lemmas state the promised
properties of those functions.

## Model

| member | source | states |
|---|---|---|
| Conditions.RuleResultsMeaning | src/local_alert_manager.py:95-135 | The results list is all true exactly when every typed rule matched, and has a true entry exactly when some typed rule matched. A rule with neither `severity` nor `state` adds no entry. |
| Conditions.ConditionsHoldMeaning | src/local_alert_manager.py:89-135 | A condition set with no rules is false under any operator. Only the exact operator `and` requires every typed rule to match; any other operator requires one. |
| Conditions.ConditionsMonotone | src/local_alert_manager.py:97-135 | A condition set that holds still holds when alerts or sites are added. |
| Conditions.MatchWeatherRule | src/local_alert_manager.py:99-115 | The loop returns true exactly when some alert's lowered event contains the lowered target type (or the type is `any`) and its lowered severity equals the lowered target (or that is `any`). |
| Conditions.MatchEocRule | src/local_alert_manager.py:118-129 | The loop returns true exactly when some activated site has a lowered state equal to the lowered target. Inactive sites never match. |
| Conditions.EvaluateConditions | src/local_alert_manager.py:77-135 | `_evaluate_conditions` returns the condition-set meaning above. |
| Classifier.LevelPriority | src/local_alert_manager.py:37-44 | The levels are scanned from priority 4 (emergency) down to 1 (advisory). |
| Classifier.FirstOnMeaning | src/local_alert_manager.py:62-73 | The override scan finds nothing exactly when no switch reads `on`; otherwise it finds the first switch in the scan order that reads `on`. |
| Classifier.OverrideIsHighestOn | src/local_alert_manager.py:61-75 | The override level is a switched-on level that no other switched-on level outranks. There is none exactly when every switch is off or unreadable. |
| Classifier.CheckManualOverrides | src/local_alert_manager.py:54-75 | The loop returns the override level and the reason `Manual override: <LEVEL>`, or nothing for both. |
| Classifier.OverrideWins | src/local_alert_manager.py:148-157 | With any switch on, the result is active at the highest switched-on level. Its reason is `Manual override: <LEVEL>` and that reason is the only trigger, whatever the alerts, sites and rules. |
| Classifier.NoOverrideClassifies | src/local_alert_manager.py:148-161 | With every switch off, evaluation is the rule-table classification. |
| Classifier.FirstTriggeredMeaning | src/local_alert_manager.py:166-188 | The level scan yields nothing exactly when no level triggers; otherwise it yields the first triggered level in priority order. |
| Classifier.ClassifyIsHighestTriggered | src/local_alert_manager.py:166-224 | The state is active exactly when some level triggers, and then its level triggers and no triggered level outranks it. When inactive, it is the fixed record with level `none`, reason `No active alerts` and no triggers. |
| Classifier.LevelTriggeredMonotone | src/local_alert_manager.py:178-184 | A triggered level, under either `condition_logic`, stays triggered when alerts or sites are added. |
| Classifier.ClassifyMonotone | src/local_alert_manager.py:166-188 | Adding alerts or sites never lowers the classified level's priority. |
| Classifier.ShortEventCut | src/local_alert_manager.py:193-198 | The short event is a prefix of the event and contains neither ` for ` nor ` - `. An event without either separator is its own short event. |
| Classifier.CollectWeatherFacts | src/local_alert_manager.py:191-201 | Weather reasons are the alerts' distinct short events. Each trigger is `Weather: ` plus the reason at the same index, and every alert's short event is among the reasons. |
| Classifier.CollectWeatherShape | src/local_alert_manager.py:191-201 | Each weather reason is paired with the trigger `Weather: <reason>`, and no reason repeats. |
| Classifier.CollectWeatherCovers | src/local_alert_manager.py:191-201 | Every alert's short event ends up among the reasons. |
| Classifier.CollectWeatherSources | src/local_alert_manager.py:191-201 | Every reason is the short event of some alert. |
| Classifier.GatherWeather | src/local_alert_manager.py:191-201 | The weather loop appends exactly the weather collection to the lists it is given. |
| Classifier.GatherEoc | src/local_alert_manager.py:203-210 | The EOC loop appends exactly the EOC collection to the lists it is given. |
| Classifier.CollectEocExtends | src/local_alert_manager.py:203-210 | EOC collection only appends to the triggers and reasons built so far, one reason per trigger. |
| Classifier.CollectEocCovers | src/local_alert_manager.py:203-210 | Every activated site's `LDMG: <STATE>` trigger is collected. |
| Classifier.CollectEocSources | src/local_alert_manager.py:203-210 | Every new trigger and reason comes from an activated site, and triggers stay distinct. |
| Classifier.ClassifyTriggersFromWinner | src/local_alert_manager.py:186-222 | Each trigger of an active state comes from a side of the winning level that matched: a weather trigger from an alert, an EOC trigger from an activated site. An inactive state has no triggers. |
| Classifier.EvaluateAlertState | src/local_alert_manager.py:137-224 | The scanning loop computes the override-then-classify evaluation. |
| LocalAlertEngine.LocalAlertManager.constructor | src/local_alert_manager.py:15-35 | The committed state starts inactive with level `none`, and nothing has happened yet. |
| LocalAlertEngine.LocalAlertManager.UpdateAndTrigger | src/local_alert_manager.py:226-263 | The evaluated state is committed only when `active` or `level` differs. Only then is it written to `app_state` and acted upon: sensor, then level routines, notice and calls, or the all-clear. |
| LocalAlertEngine.LocalAlertManager.ActOnTransition | src/local_alert_manager.py:256-263 | On a committed transition, it does exactly the transition's effects: the sensor, then the level's routines, notice and calls when active, or the all-clear otherwise. |
| LocalAlertEngine.LocalAlertManager.UpdateHaSensor | src/local_alert_manager.py:265-282 | It sets the local-alert sensor to `on` or `off` with level, reason, joined triggers and timestamp. |
| LocalAlertEngine.LocalAlertManager.RunRoutines | src/local_alert_manager.py:307-313 | Each `scene.` entry activates a scene and each `script.` entry runs a script, in order; other entries are skipped. |
| LocalAlertEngine.LocalAlertManager.TriggerRoutines | src/local_alert_manager.py:284-323 | It runs the `<level>_alert` routines and sends the activation notice. Then, only when VOIP is present and enabled, it requests calls. |
| LocalAlertEngine.LocalAlertManager.MakeVoipCalls | src/local_alert_manager.py:325-359 | When enabled, it makes one call request per configured extension, in order. A failed call does not stop the rest. |
| LocalAlertEngine.LocalAlertManager.TriggerClearRoutine | src/local_alert_manager.py:361-381 | It runs the `alert_cleared` routines, then sends the all-clear notice. |
| LocalAlertEngine.CallEffectsExactly | src/local_alert_manager.py:349-359 | Every configured extension is called with the level and reason, and nothing else is called. |
| LocalAlertEngine.ClearingNeverCalls | src/local_alert_manager.py:259-263 | A transition to inactive does only the sensor update, the `alert_cleared` routines and the all-clear notice. It places no VOIP call. |
| LocalAlertEngine.ActivationCalls | src/local_alert_manager.py:321-359 | On activation, calls are placed only when VOIP is present and enabled, and then to exactly the level's extensions. |
| LocalAlertEngine.RoutineEffectsKinds | src/local_alert_manager.py:307-313 | Running a routine list only activates scenes or runs scripts. |
| LocalAlertEngine.CallEffectsKinds | src/local_alert_manager.py:349-359 | Call dispatch only produces call requests. |
| LocalAlertEngine.ActivationShape | src/local_alert_manager.py:256-323 | An activation's effects are the sensor update, then routines, then exactly one notice, then calls. |
| LocalAlertEngine.ActivationOrder | src/local_alert_manager.py:256-323 | The sensor comes first. The only notice is the activation notice. No routine follows it and no call precedes it. |
| LocalAlertEngine.RepeatIsQuiet | src/local_alert_manager.py:237-243 | Evaluating the same inputs again after a commit changes nothing and has no effects. |
| LocalAlertEngine.UpdateTwice | src/local_alert_manager.py:226-263 | Two updates with the same inputs act once. |
| Records.RoutineEffectsExactly | src/local_alert_manager.py:307-313 | Every `scene.` entry becomes a scene activation and every `script.` entry a script run. Nothing else is invoked. |
| Records.CountActivatedPositive | src/web_ui.py:70 | The activated count is at most the number of sites, and positive exactly when some site is activated. |
| Scenarios.DefaultEmergency | src/config.py:99-114 | With the default table, emergency fires exactly for an extreme alert, a tropical cyclone warning of any severity, or a stood-up EOC. |
| Scenarios.DefaultWarning | src/config.py:86-98 | With the default table, warning fires exactly for a severe alert. |
| Scenarios.DefaultWatch | src/config.py:71-85 | With the default table, watch fires exactly for a moderate alert or an EOC leaning forward. |
| Scenarios.DefaultAdvisory | src/config.py:55-70 | With the default table, advisory fires exactly for a minor alert, or an EOC on alert or standing down. |
| Scenarios.WinnerIs | src/local_alert_manager.py:166-188 | The winner is the first triggered level in priority order. |
| Scenarios.StandUpIsEmergency | src/config.py:107-113 | An activated stand-up site makes an emergency whatever the weather. |
| Scenarios.CycloneIsEmergency | src/config.py:100-106 | A tropical cyclone warning makes an emergency whatever its severity. |
| Scenarios.SevereIsWarning | src/config.py:86-114 | A severe alert, with nothing of emergency rank, is a warning. |
| Scenarios.QuietIsNone | src/config.py:54-115 | No alerts and no activated site give the inactive state. |
| EocMonitor.DetectEocState | src/eoc_monitor.py:198-238 | The result is one of the five states, and a non-inactive result's keyword occurs in the lowered content. |
| EocMonitor.FirstMentionedMeaning | src/eoc_monitor.py:222-238 | The keyword scan yields the first state whose keyword (spaced or unspaced) occurs, or nothing when none does. |
| EocMonitor.DetectIsFirstMentioned | src/eoc_monitor.py:215-238 | Detection checks stand up, lean forward, stand down, then `status:alert` or `status: alert`. It is `inactive` exactly when no keyword occurs. |
| EocMonitor.DetectIgnoresCase | src/eoc_monitor.py:215 | Upper- or lower-casing the content does not change the detected state. |
| EocMonitor.TargetsExactly | src/eoc_monitor.py:59-68 | Each configured entry with a non-empty URL is checked. A string entry has no selectors and a dict entry supplies `url` and `selectors`; nothing else is checked. |
| EocMonitor.EocMonitor.CheckEocSites | src/eoc_monitor.py:51-68 | The loop produces exactly the decoded targets, in configuration order. |
| EocMonitor.Underscored | src/eoc_monitor.py:250 | Replacing spaces with underscores keeps the length and leaves no space. |
| EocMonitor.EocRoutineKey | src/eoc_monitor.py:249-255 | The chosen key is configured. There is none exactly when neither `eoc_<state>` nor `eoc_activated` is configured. |
| EocMonitor.EocRoutineKeyChoice | src/eoc_monitor.py:249-255 | The state's own key is preferred, with `eoc_activated` as the fallback. The default table maps all four states to their own keys. |
| EocMonitor.FirstPresentMeaning | src/eoc_monitor.py:269-274 | The priority scan yields the first state some site has. |
| EocMonitor.ReportedStateIsHighest | src/eoc_monitor.py:268-274 | The reported state is present (or `inactive`), and no state earlier in stand up, lean forward, alert, stand down, inactive is present. |
| EocMonitor.SensorAgreesWithState | src/eoc_monitor.py:266-284 | For records written by the monitor, the sensor is `on` exactly when the reported state is not `inactive`. |
| EocMonitor.PutKeepsConsistent | src/eoc_monitor.py:120-125 | Storing a record keeps URLs distinct and keeps `activated` equal to `state != inactive`. |
| EocMonitor.ChangeNoticeAsWritten | src/eoc_monitor.py:189-192 | The change notification with the literals as they appear in the file. |
| EocMonitor.ChangeNotice | src/eoc_monitor.py:189-192 | The change notification with the intended arrow and siren. |
| EocMonitor.ChangeNoticeReadable | src/eoc_monitor.py:190-191 | The message reads `EOC state changed: <old> → <new>`, then the URL, then the preview ending in `...`. The title is the siren followed by ` EOC: <NEW>`. |
| EocMonitor.ChangeNoticeGarbled | src/eoc_monitor.py:190-191 | As written, the arrow is `â` followed by two more characters and the title starts with `ğ`. Both texts are longer than intended. |
| EocMonitor.EocMonitor.constructor | src/eoc_monitor.py:16-31 | It starts with no hashes and no records. |
| EocMonitor.EocMonitor.ProcessPage | src/eoc_monitor.py:91-139 | Only this URL's record is replaced, with `activated` equal to `state != inactive`, a check time, and the 200-character preview. `last_change` is set only when a known hash changed. A routine fires only when a known hash changed and the state differs. The hash is always stored; then the sensor is updated. |
| EocMonitor.EocMonitor.HandleChange | src/eoc_monitor.py:163-196 | It stores the record without a check time. It notifies only when the state differs, and runs the routine only when it also is not `inactive`. The notice uses the corrected arrow and siren (see "## Findings"). |
| EocMonitor.EocMonitor.TriggerEocRoutine | src/eoc_monitor.py:240-262 | It runs the chosen key's `scene.` and `script.` actions, or nothing when no key is configured. |
| EocMonitor.EocMonitor.UpdateSensor | src/eoc_monitor.py:264-305 | It sets the EOC sensor from the activated count and reported state. On the monitor's own records, the sensor is `on` exactly when the reported state is not `inactive`. It copies the records and time into `app_state` and hands them to the engine when one is attached. |
| EocMonitor.ActivatedCount | src/eoc_monitor.py:266 | The count of activated sites. |
| EocMonitor.HighestPriorityState | src/eoc_monitor.py:268-274 | The nested loop finds the reported state. |
| WeatherMonitor.AnyKeywordIn | src/weather_monitor.py:349-354 | The keyword loop is true exactly when some lowered keyword occurs in the text. |
| WeatherMonitor.AreasNamingTownsvilleAffect | src/weather_monitor.py:332-354 | An alert affects Townsville exactly when a location keyword occurs in the lowered areas, headline and description. Areas naming Townsville always do. |
| WeatherMonitor.LowerOfKeywords | src/weather_monitor.py:35-44 | The location keywords are already lower case. |
| WeatherMonitor.WarningFilesExactly | src/weather_monitor.py:88-92 | Exactly the listed names ending in `.xml` whose upper-cased form starts with `IDQ` are kept, in order. |
| WeatherMonitor.WarningFileCases | src/weather_monitor.py:91 | `IDQ…xml` and `idq…xml` pass; `.XML` and non-Queensland prefixes do not. |
| WeatherMonitor.SelectWarningFiles | src/weather_monitor.py:88-92 | The loop computes the kept list. |
| WeatherMonitor.DistinctNonEmptyFacts | src/weather_monitor.py:293-297 | The collected texts are the distinct non-empty field texts. |
| WeatherMonitor.ExtractTextContent | src/weather_monitor.py:279-300 | The loop joins the distinct non-empty texts with spaces, truncated to at most 1000 characters. |
| WeatherMonitor.KeywordTitlesExactly | src/weather_monitor.py:323-328 | The fallback lists the title of exactly the keywords found in the lowered text, in keyword order. |
| WeatherMonitor.AreasTextCases | src/weather_monitor.py:302-330 | Area texts, when any is non-empty, are joined with `, ` and distinct. Otherwise keyword titles are used, and the list is empty exactly when neither yields anything. |
| WeatherMonitor.ExtractAreas | src/weather_monitor.py:302-330 | The loops compute the areas text, or `Various areas` when there are none. |
| WeatherMonitor.CapOutcomeFacts | src/weather_monitor.py:148-214 | A stored CAP record is never a cancellation, affects Townsville, has source `BOM` and is keyed by its file name. |
| WeatherMonitor.FileOutcomeFacts | src/weather_monitor.py:116-277 | A stored record has those properties. Non-CAP files always get severity `Moderate` and urgency `Expected`. A CAP record with no severity gets `Unknown`. |
| WeatherMonitor.FetchedAlertsFacts | src/weather_monitor.py:96-109 | Fetched alerts are keyed by distinct file names from the list, and each record is one that may be stored. |
| WeatherMonitor.FetchWarnings | src/weather_monitor.py:80-113 | The loop processes exactly the kept files, in order. |
| WeatherMonitor.WeatherRoutineKey | src/weather_monitor.py:441-446 | The key is `tornado_warning`, `severe_weather` or none. |
| WeatherMonitor.WeatherRoutineChoice | src/weather_monitor.py:438-453 | `tornado` wins. `severe_weather` needs severe, thunderstorm or flood and no tornado. With no key, nothing runs. |
| WeatherMonitor.NewInPollIsWithout | src/weather_monitor.py:364-366 | The new-alert loop handles exactly the entries of the new map whose id was not active, in order. |
| WeatherMonitor.ClearedInPollIsWithout | src/weather_monitor.py:369-371 | The cleared loop handles exactly the previously active entries whose id is gone, in order. |
| WeatherMonitor.WeatherSensorEffect | src/weather_monitor.py:457-473 | The sensor is `on` exactly when the alert count is positive, and the count equals the number of active alerts. |
| WeatherMonitor.FetchedAlertsAreAnnounced | src/weather_monitor.py:397-415 | A stored record is never treated as a cancellation, so it is always announced. |
| WeatherMonitor.RepeatedPollIsQuiet | src/weather_monitor.py:364-371 | Polling the same alerts again announces and clears nothing. |
| WeatherMonitor.WeatherMonitor.constructor | src/weather_monitor.py:16-44 | It starts with no active alerts. |
| WeatherMonitor.WeatherMonitor.UpdateAlerts | src/weather_monitor.py:356-388 | It announces the new ids, then the cleared ones, and replaces the active alerts wholesale. Then it updates the sensor, copies the alerts into `app_state` and hands them to the engine when one is attached. |
| WeatherMonitor.WeatherMonitor.HandleNewAlerts | src/weather_monitor.py:364-366 | The loop handles each new id's alert in map order. |
| WeatherMonitor.WeatherMonitor.HandleClearedAlerts | src/weather_monitor.py:369-371 | The loop handles each cleared id's alert in map order. |
| WeatherMonitor.WeatherMonitor.HandleNewAlert | src/weather_monitor.py:390-415 | A cancellation does nothing. Any other alert sends the notification, then runs its routine. |
| WeatherMonitor.WeatherMonitor.HandleClearedAlert | src/weather_monitor.py:417-429 | It sends the cleared notification. |
| WeatherMonitor.WeatherMonitor.TriggerRoutine | src/weather_monitor.py:431-455 | It runs the key's `scene.` and `script.` actions, or nothing. |
| WeatherMonitor.WeatherMonitor.UpdateSensor | src/weather_monitor.py:457-473 | It sets the weather sensor from the active alerts. |
| Mqtt.TopicRoundTrip | src/mqtt_integration.py:67-69 | A switch id without `/` is read back from its own command and state topics. |
| Mqtt.SubscriptionsExactly | src/mqtt_integration.py:44-49 | One subscription per registered switch, to its command topic, in registration order. |
| Mqtt.MqttIntegration.constructor | src/mqtt_integration.py:15-28 | It starts with no client, disconnected and with no switches. |
| Mqtt.MqttIntegration.OnConnect | src/mqtt_integration.py:30-55 | Code 0 connects and subscribes every command topic; any other code disconnects. |
| Mqtt.MqttIntegration.OnDisconnect | src/mqtt_integration.py:57-60 | It always disconnects. |
| Mqtt.MqttIntegration.OnMessage | src/mqtt_integration.py:62-85 | A registered switch's state becomes whether the upper-cased payload is `ON`; the state is echoed and the callback is told. Unregistered ids, other topics and undecodable payloads change nothing. |
| Mqtt.MqttIntegration.Connect | src/mqtt_integration.py:87-143 | With a client, it only reports the flag. Otherwise it succeeds exactly when the broker accepts within 30 one-second checks. |
| Mqtt.MqttIntegration.PublishDiscovery | src/mqtt_integration.py:145-213 | When disconnected it returns false and changes nothing. On an accepted publish it registers the id's command and state topics, sets the state off and publishes `OFF`. |
| Mqtt.MqttIntegration.PublishState | src/mqtt_integration.py:215-246 | When disconnected or unknown, it changes nothing. Otherwise it publishes `ON`/`OFF` and, once accepted, sets the state. |
| Mqtt.MqttIntegration.GetState | src/mqtt_integration.py:248-250 | It returns None exactly for a switch never registered. |
| Mqtt.MqttIntegration.Disconnect | src/mqtt_integration.py:252-258 | It drops the connection but keeps the client. |
| Mqtt.ConnectAfterDisconnect | src/mqtt_integration.py:87-92 | Because the client is kept, `connect` after `disconnect` reports false and never reconnects. |
| Mqtt.CommandReachesSwitch | src/mqtt_integration.py:62-82 | A command on a registered switch's own topic sets its state. |
| Voip.VoipIntegration.constructor | src/voip_integration.py:34-59 | `enabled` defaults to false and `backend` to `webhook`. The `sip` backend without its library is disabled. |
| Voip.VoipIntegration.InitSip | src/voip_integration.py:61-74 | It disables the integration when the SIP library is missing. |
| Voip.VoipIntegration.MakeAlertCall | src/voip_integration.py:90-123 | It returns false when disabled, for `sip`, or for an unknown backend. `webhook` returns the request's outcome and `ha_notify` returns true. |
| Voip.AlertMessage | src/voip_integration.py:199-217 | The message is the level's frame around the reason. |
| Voip.AlertMessageRecoversReason | src/voip_integration.py:210-217 | The reason can be recovered from the message. Unknown levels give `Alert: <reason>`. |
| Voip.StatusTts | src/voip_integration.py:219-248 | The fixed no-alerts sentence appears exactly when the state is missing or inactive. Otherwise the text is the level and reason head plus the level's suffix. |
| Voip.Twiml | src/voip_integration.py:250-270 | The status text appears verbatim between the fixed TwiML head and tail. |
| Voip.AgiScript | src/voip_integration.py:272-290 | The status text appears verbatim between the fixed AGI head and tail. |
| Voip.TemplatesInjective | src/voip_integration.py:257-290 | Different status texts give different TwiML and AGI documents. |
| WebUi.AppState.constructor | src/web_ui.py:10-21 | No alerts, no sites, never updated; the local state is inactive, level `none`, with empty reason and triggers. |
| WebUi.AppState.AttachAlertManager | main.py:54 | It stores the alert manager and changes nothing else. |
| WebUi.AppState.UpdateState | src/web_ui.py:273-288 | Only the given fields are replaced, and `last_update` is always refreshed. |
| WebUi.AppState.UpdateLocalAlertState | src/web_ui.py:291-309 | The whole local record is replaced (a missing `triggered_by` becomes empty) and returned. |
| WebUi.AppState.ApiEoc | src/web_ui.py:65-71 | It returns the stored sites and their activated count. |
| WebUi.VoipStatusFor | src/web_ui.py:134-165 | The reply carries the state's active flag, level and reason. |
| WebUi.StatusMessageAgreesWithVoip | src/web_ui.py:141-158 | The `/voip/status` message equals the VOIP integration's status text. |

## Left out

- Network, file and clock access are parameters of the model:
  - The FTP listing and file contents are a list of names and a map from name to a `WarningFile`. That value holds the fields the XML lookups return.
  - EOC page content arrives as text, and its MD5 digest is a `digest` string.
  - `datetime.now()` is a `now` string.
  - A webhook's outcome, a broker's acceptance and the second in which the broker answers are parameters.
- HTML and XML parsing are not modelled. That covers BeautifulSoup, `extract_content` with CSS selectors and lxml traversal. `check_site` (an HTTP GET) and `check_alerts`/`check_bom_warnings` (wrappers around the fetch) are not modelled either.
- The `start()` polling loops, the `asyncio` task for the MQTT callback and the paho network loop are left out. There is no concurrency: each operation runs to completion.
- The monitors' call into the alert engine is logged as an `EngineEvaluate` event carrying the alerts and sites. The engine's own update is modelled by `LocalAlertManager.UpdateAndTrigger`.
- Home Assistant calls are log entries. Their HTTP layer (`ha_integration.py`) is not part of this model, and neither is the handling of its failures. A failed override lookup is modelled as an absent reading.
- `str.title()` in the area fallback is not modelled as an operation. The eight location titles are written out as constants.
- The JSON discovery document's fixed `device` block, QoS levels, client ids, credentials and reconnect delays are not modelled. Neither are exceptions raised by the paho client.
- The SIP call (a placeholder that returns false) is modelled by its result only. The webhook request body, its authentication and `_init_webhook`/`_init_ha_notify`, which only read configuration, are not modelled.
- Flask routing, templates and the other web routes are not modelled. That covers `/api/status`, `/api/weather`, `/api/local_alert`, the configuration pages, `/health`, `/voip/twiml`, `/voip/menu`, `/voip/agi` and `/voip/test_call`. So are `VOIPWebhookHandler`'s route registration and the loading and saving of `config.py`. Only the default rule and routine tables are transcribed.
- Logging is not modelled. That includes the heatwave debug output.
- Case folding is ASCII-only. `Lower` and `Upper` change only `A`–`Z` and `a`–`z`, while Python's `str.lower()` and `str.upper()` fold all of Unicode. The model therefore does not capture texts whose folding differs outside ASCII, such as the dotless `ı`.
- WeatherMonitor.FetchedAlertsAreAnnounced: holds only for ASCII text. With Python's Unicode folding, an event such as `Tropical Cyclone Cancellatıon` is not a cancellation to the parser's lower-case test, so the record is kept. It is one to the upper-case test in `handle_new_alert`, so the alert is dropped there without a notification.
- EocMonitor.EocMonitor.HandleChange: it logs the corrected notice (`ChangeNotice`) rather than the mis-decoded literals the file sends. `ChangeNoticeAsWritten` models the as-written text, and `ChangeNoticeGarbled` states how it differs.
- LocalAlertEngine.LocalAlertManager.UpdateAndTrigger: the record written to `app_state` carries the evaluation's `now`, whereas `update_local_alert_state` reads the clock again. The model gives both readings the same value.
- EocMonitor.EocMonitor.UpdateSensor: `app_state['eoc_states']` is made an alias of the monitor's dictionary. The model copies the value instead, so later in-place changes to the monitor's records do not show through `app_state` until the next sensor update.
- Mqtt.MqttIntegration.Connect: the model does not cover a client whose creation itself throws. There the source keeps no client, and the model always creates one.

## Findings

| source | as written | input that shows it | evidently intended | confidence | as-written member | corrected member |
|---|---|---|---|---|---|---|
| src/eoc_monitor.py:190-191 | The notification literals hold mis-decoded UTF-8. The arrow is the three characters `â†’` and the title starts with the four characters `ğŸš¨`. | Any state change, e.g. from `inactive` to `stand up`. | The message reads `inactive → stand up` and the title starts with the 🚨 siren. | high; not executed | EocMonitor.ChangeNoticeAsWritten, EocMonitor.ChangeNoticeGarbled | EocMonitor.ChangeNotice, EocMonitor.ChangeNoticeReadable |
