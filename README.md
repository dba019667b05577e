# Flight emergency alarm — a Dafny model of its decision logic

The application polls the OpenSky "all states" feed. It picks out aircraft whose
transponder squawks the general-emergency code `7700`, sounds an alarm and
renders a map for them. It can also list the current emergencies in a message
box, or look up one aircraft by its ICAO24 identifier. This project models the
deterministic logic of `app.py` over a snapshot of state rows:

- `rows.dfy` (module `Rows`): a state row is a `seq<Value>`. A cell is a string,
  an opaque number, a boolean or null. The fixed positions the code reads are
  constants: ICAO24 0, callsign 1, origin country 2, squawk 14. A fetch result is
  `Option<seq<Row>>`, where `None` is a failed request. Python truthiness of that
  result (`None` and `[]` are both false) is `HasData`.
- `classifier.dfy` (module `Classifier`): `check_emergency_flights` as a loop that
  appends (`CheckEmergencyFlights`). It is proved equal to the specification
  function `Emergencies`, and the properties of `Emergencies` are proved against
  an independent index-based definition, `EmergencyPositions`.
- `lookup.dfy` (module `Lookup`): the selection loop with `break` in
  `display_flight_details_with_live_location` (`SelectFlight`). It is proved
  against `FirstMatch`, the first matching position. The view around it
  (`DisplayFlightDetailsWithLiveLocation`) yields an error box or the selected row.
- `monitor.dfy` (module `Monitor`): one pass of `monitor_flights` (`MonitorCycle`),
  the route loop of `fetch_and_display_route` (`FetchAndDisplayRoute`), and a
  finite run of passes (`MonitorFlights`). Their effects are a trace of actions:
  `PlaySound("Alert.mp3")`, `Render(row)` for the map renderer, and `AirIsSafe`
  for the "Air is safe" message.
- `emergency_view.dfy` (module `EmergencyView`): the message box of
  `display_emergency_flights`. It holds `"<icao24> - <callsign> (<country>)"`
  lines joined with `"\n"`. The proofs split the text back into lines.

What the code does, and so what the model does:
- It keeps no emergency tracker and does no deduplication. An aircraft that
  stays at `7700` under the same ICAO24 is alerted on every pass, even as its
  position changes (`Monitor.ReAlertEveryCycle`).
- There is no retry or backoff.
- The classifier does not skip short rows. It indexes cell 14 of every row
  (see "## Left out").
- In a pass the alarm and the route display run once per emergency flight, not
  once per pass (see Findings).

A quirk of the lookup is modelled as written: a cancelled identifier dialog
yields Python `None`, and `None == None` holds, so a cancelled dialog selects the
first row whose ICAO24 cell is null (`Lookup.Entered`).

## Model

| member | source | states |
|---|---|---|
| Classifier.CheckEmergencyFlights | app.py:38-44 | the loop's result is exactly the emergency selection `Emergencies` of the snapshot |
| Classifier.Emergencies | app.py:38-44 | the selection is never longer than the snapshot, and every row it keeps has a squawk cell |
| Classifier.EmergencyPositions | app.py:40-43 | the emergency positions are strictly increasing and lie inside the snapshot, so they follow the scan order |
| Classifier.EmergenciesAtPositions | app.py:39-44 | the result is the snapshot's rows at the emergency positions, entry k taken from the k-th position, so input order is kept |
| Classifier.EmergencyPositionsExact | app.py:41-43 | a position is selected if and only if its squawk cell is the string "7700" |
| Classifier.EmergenciesMembership | app.py:41-43 | a row is in the result if and only if it is in the snapshot and squawks "7700"; null or other squawks are never kept |
| Classifier.EmergenciesAllOrNothing | app.py:39-44 | the result is empty iff no row is an emergency (including an empty snapshot), and as long as the snapshot iff every row is |
| Classifier.EmergenciesAppend | app.py:40-43 | classifying two snapshots joined end to end gives the two results joined end to end |
| Classifier.EmergenciesIdempotent | app.py:38-44 | classifying the classifier's own output returns it unchanged |
| Lookup.FirstMatch | app.py:163-168 | the position found holds a row whose ICAO24 cell equals the entered identifier (`Entered`: the typed text, or null for a cancelled dialog, as Python's `None == None`) and no earlier row matches; none is found iff no row matches |
| Lookup.SelectFlight | app.py:164-168 | the loop with break selects the row at the first matching position, or nothing when no row matches |
| Lookup.DisplayFlightDetailsWithLiveLocation | app.py:158-175 | a failed or empty fetch gives the data error box; otherwise the first matching row is shown, and "Flight not found." appears iff no row matches |
| Monitor.FetchAndDisplayRoute | app.py:109-121 | one render request per emergency flight, in list order |
| Monitor.RendersEffects | app.py:110-121 | the route display plays no alarm and hands exactly its flights, in order, to the renderer |
| Monitor.MonitorCycle | app.py:126-141 | one pass of the monitoring loop produces exactly the as-written pass trace `CycleAsWritten` of its fetch result |
| Monitor.RepeatedRoundEffects | app.py:131-139 | n rounds of alarm-then-route-display play the alarm n times and render the emergency list n times over |
| Monitor.CycleAsWrittenEffects | app.py:126-141 | no action for a failed or empty fetch; only the safe message with no emergency; with k emergencies, k alarms, the list rendered k times over (k*k renders) and no safe message |
| Monitor.CycleEffects | app.py:127-141 | the corrected pass: no action for a failed or empty fetch; only the safe message with no emergency; otherwise exactly one alarm, each emergency rendered once in classifier order, no safe message |
| Monitor.TwoEmergenciesAsWritten | app.py:131-139 | two aircraft at 7700: the code plays the alarm twice and renders a, b, a, b, where one alarm and a, b are intended |
| Monitor.MonitorFlights | app.py:124-142 | a finite run of the monitoring loop produces the passes' traces one after another (`RunAsWritten`) |
| Monitor.RunIndependent | app.py:125-142 | no state crosses passes: the trace of a run is the trace of its first part followed by that of the rest |
| Monitor.ReAlertEveryCycle | app.py:125-142 | when every fetch of a run holds some row with a given ICAO24 squawking 7700 (its other cells may differ from pass to pass), the pass at each position of the run plays the alarm at least once, so the run plays it at least once per pass: nothing suppresses a repeat alert |
| Monitor.ReRenderEveryCycle | app.py:125-142 | under the same condition, the pass at each position of the run hands the renderer a row with that ICAO24, so the run does so at least once per pass |
| EmergencyView.SplitJoinRoundTrip | app.py:150 | splitting the newline-joined text gives back the lines, when there is at least one line and none holds a newline |
| EmergencyView.EmergencyViewOutcome | app.py:145-155 | of `DisplayEmergencyFlights`: a failed or empty fetch gives the "Data Error" box "Unable to fetch flight data."; no emergency gives the "No Emergency Flights" notice; otherwise an "Emergency Flights" box whose text (`JoinLines`, the `"\n".join`) splits into exactly one `EmergencyLine` entry `"<icao24> - <callsign> (<country>)"` per emergency row, in classifier order, provided no ICAO24, callsign or origin-country cell of an emergency row holds a newline |

## Left out

- Fetching (`fetch_flight_data`, app.py:13-35) is an HTTP request. It is a parameter: the result is `Some(rows)` or `None` on a request, status or missing-key error.
- Sound playback (pygame), geocoding (Nominatim) and map building and saving (folium) are foreign-library sinks. Each call is one action in the trace (`PlaySound`, `Render`). The two placeholder geocoding calls in `fetch_and_display_route` have no action.
- The renderer's `if latitude and longitude` test (app.py:71) is not modelled. It works on floating-point cells and only decides which message box the renderer shows.
- Tkinter setup, message boxes and the identifier dialog are UI. The dialog's answer is the `flightId` parameter. The message boxes are the outcome datatypes, titles and texts included. The formatted details box (`display_flight_details`) is not modelled beyond handing over the selected row.
- Every sink call is assumed to return. In the code nothing catches an exception from geocoding (`geolocator.geocode`, app.py:54, called at 75-76 and 119-120) or from loading the sound file (`pygame.mixer.music.load`, app.py:48, for instance when Alert.mp3 is missing). Such an exception ends the pass and the whole `while True` of `monitor_flights`. `Monitor.MonitorCycle`, `Monitor.MonitorFlights`, `Monitor.RunIndependent`, `Monitor.ReAlertEveryCycle` and `Monitor.ReRenderEveryCycle` describe runs in which no sink raises.
- `time.sleep(20)` and the endless `while True` are timing. A run is modelled as a finite sequence of fetch results, one per pass.
- Diagnostic `print` output is logging and is not modelled. The exception is the "Air is safe" line, which is the pass's only outcome when nothing squawks 7700.
- Lookup.SelectFlight and Lookup.DisplayFlightDetailsWithLiveLocation: require every row of the snapshot to have an ICAO24 cell. The code only indexes the rows up to the first match, so a short row after the match would not fail there.
- Classifier.CheckEmergencyFlights, Monitor.MonitorCycle, Monitor.MonitorFlights and EmergencyView.DisplayEmergencyFlights: require every row of a fetch result to have a squawk cell (index 14). On a shorter row, `flight[14]` at app.py:41 raises IndexError, which nothing catches; it ends the view, or the whole `while True` of `monitor_flights`. That failure path is not modelled.
- Numbers in rows are opaque. Only their printed text is kept, for the list message, and no floating-point semantics is modelled.

## Findings

| source | as written | input that shows it | evidently intended | confidence | as-written member | corrected member |
|---|---|---|---|---|---|---|
| app.py:131-139 | `play_alarm_sound` and `fetch_and_display_route(emergency_flights)` are indented inside `for flight in emergency_flights`, so a pass with k emergencies plays the alarm k times and renders every emergency k times | one snapshot with two rows squawking "7700" (a, b): two alarms and renders a, b, a, b | one alarm per pass and each emergency rendered once | medium; not executed | Monitor.CycleAsWritten (shown by Monitor.TwoEmergenciesAsWritten) | Monitor.Cycle (proved by Monitor.CycleEffects) |

`Monitor.MonitorCycle` and `Monitor.MonitorFlights` model the loop as the code
runs it, so the run-level lemmas describe the code as written. Like the pass
as written, `Monitor.Cycle` depends on nothing but its own fetch result.
