// One pass of the monitor_flights loop, and a finite run of passes. The
// sound player and the map renderer are sinks: the model records what is
// handed to them as a trace of actions.

module Monitor {
  import opened Rows
  import opened Classifier

  const ALARM_SOUND := "Alert.mp3"

  /** An observable effect of a monitoring pass. */
  datatype Action =
    | PlaySound(file: string)   // play_alarm_sound
    | Render(flight: Row)       // display_map_with_live_location_and_route
    | AirIsSafe                 // "Air is safe. No emergency code detected."

  /** The render requests handed out by fetch_and_display_route, in order. */
  function Renders(flights: seq<Row>): seq<Action> {
    seq(|flights|, i requires 0 <= i < |flights| => Render(flights[i]))
  }

  /** `n` copies of `s`, one after the other. */
  function Repeat<T>(n: nat, s: seq<T>): (r: seq<T>)
    ensures |r| == n * |s|
  {
    if n == 0 then [] else Repeat(n - 1, s) + s
  }

  /** How many times the alarm is played in a trace. */
  function AlarmCount(trace: seq<Action>): nat {
    if trace == [] then 0
    else AlarmCount(trace[..|trace| - 1]) + (if trace[|trace| - 1].PlaySound? then 1 else 0)
  }

  /** The flights handed to the renderer in a trace, in order. */
  function RenderedFlights(trace: seq<Action>): seq<Row> {
    if trace == [] then []
    else
      var last := trace[|trace| - 1];
      RenderedFlights(trace[..|trace| - 1]) + (if last.Render? then [last.flight] else [])
  }

  /** One pass of the loop as the code is indented: the alarm and the whole
      route display sit inside the loop over the emergency flights, so they
      run once per emergency flight. */
  function CycleAsWritten(fetched: Option<seq<Row>>): seq<Action>
    requires Classifiable(fetched)
  {
    if !HasData(fetched) then []
    else
      var emergencies := Emergencies(fetched.value);
      if emergencies == [] then [AirIsSafe]
      else Repeat(|emergencies|, [PlaySound(ALARM_SOUND)] + Renders(emergencies))
  }

  /** One pass as evidently intended: one alarm, then every emergency flight
      rendered once, in classifier order. */
  function Cycle(fetched: Option<seq<Row>>): seq<Action>
    requires Classifiable(fetched)
  {
    if !HasData(fetched) then []
    else
      var emergencies := Emergencies(fetched.value);
      if emergencies == [] then [AirIsSafe]
      else [PlaySound(ALARM_SOUND)] + Renders(emergencies)
  }

  /** fetch_and_display_route: one render request per flight, in list order
      (the placeholder geocoding it does first is not modelled). */
  method FetchAndDisplayRoute(emergencyFlights: seq<Row>) returns (actions: seq<Action>)
    ensures |actions| == |emergencyFlights|
    ensures forall i :: 0 <= i < |actions| ==> actions[i] == Render(emergencyFlights[i])
  {
    actions := [];
    for i := 0 to |emergencyFlights|
      invariant |actions| == i
      invariant forall k :: 0 <= k < i ==> actions[k] == Render(emergencyFlights[k])
    {
      var flight := emergencyFlights[i];
      actions := actions + [Render(flight)];
    }
  }

  /** The body of the `while True` loop of monitor_flights, with the sleep
      left out. */
  method MonitorCycle(fetched: Option<seq<Row>>) returns (trace: seq<Action>)
    requires Classifiable(fetched)
    ensures trace == CycleAsWritten(fetched)
  {
    trace := [];
    if fetched.Some? && fetched.value != [] {
      var flights := fetched.value;
      var emergencyFlights := CheckEmergencyFlights(flights);
      if emergencyFlights != [] {
        var round := [PlaySound(ALARM_SOUND)] + Renders(emergencyFlights);
        for i := 0 to |emergencyFlights|
          invariant trace == Repeat(i, round)
        {
          trace := trace + [PlaySound(ALARM_SOUND)];
          var routes := FetchAndDisplayRoute(emergencyFlights);
          assert routes == Renders(emergencyFlights);
          trace := trace + routes;
        }
      } else {
        trace := trace + [AirIsSafe];
      }
    }
  }

  predicate AllClassifiable(fetches: seq<Option<seq<Row>>>) {
    forall f :: f in fetches ==> Classifiable(f)
  }

  /** The trace of a finite run: the passes' traces, one after another. */
  function RunAsWritten(fetches: seq<Option<seq<Row>>>): seq<Action>
    requires AllClassifiable(fetches)
  {
    if fetches == [] then []
    else RunAsWritten(fetches[..|fetches| - 1]) + CycleAsWritten(fetches[|fetches| - 1])
  }

  /** monitor_flights cut to a finite number of passes, one fetch result per
      pass; nothing is carried from one pass to the next. */
  method MonitorFlights(fetches: seq<Option<seq<Row>>>) returns (trace: seq<Action>)
    requires AllClassifiable(fetches)
    ensures trace == RunAsWritten(fetches)
  {
    trace := [];
    for n := 0 to |fetches|
      invariant trace == RunAsWritten(fetches[..n])
    {
      assert fetches[n] in fetches;
      var actions := MonitorCycle(fetches[n]);
      assert fetches[..n + 1][..n] == fetches[..n];
      trace := trace + actions;
    }
    assert fetches[..|fetches|] == fetches;
  }

  lemma {:induction false} AlarmCountAppend(a: seq<Action>, b: seq<Action>)
    ensures AlarmCount(a + b) == AlarmCount(a) + AlarmCount(b)
    decreases |b|
  {
    if b != [] {
      assert (a + b)[..|a + b| - 1] == a + b[..|b| - 1];
      AlarmCountAppend(a, b[..|b| - 1]);
    } else {
      assert a + b == a;
    }
  }

  lemma {:induction false} RenderedFlightsAppend(a: seq<Action>, b: seq<Action>)
    ensures RenderedFlights(a + b) == RenderedFlights(a) + RenderedFlights(b)
    decreases |b|
  {
    if b != [] {
      assert (a + b)[..|a + b| - 1] == a + b[..|b| - 1];
      RenderedFlightsAppend(a, b[..|b| - 1]);
    } else {
      assert a + b == a;
    }
  }

  /** The route display plays no alarm and renders exactly its flights, in order. */
  lemma {:induction false} RendersEffects(flights: seq<Row>)
    ensures AlarmCount(Renders(flights)) == 0
    ensures RenderedFlights(Renders(flights)) == flights
    decreases |flights|
  {
    if flights != [] {
      var front := flights[..|flights| - 1];
      RendersEffects(front);
      assert Renders(flights)[..|flights| - 1] == Renders(front);
    }
  }

  /** A pass as written: with k emergency flights the alarm plays k times and
      the whole emergency list is rendered k times over. */
  lemma {:induction false} RepeatedRoundEffects(n: nat, emergencies: seq<Row>)
    ensures AlarmCount(Repeat(n, [PlaySound(ALARM_SOUND)] + Renders(emergencies))) == n
    ensures RenderedFlights(Repeat(n, [PlaySound(ALARM_SOUND)] + Renders(emergencies)))
            == Repeat(n, emergencies)
    decreases n
  {
    if n > 0 {
      var round := [PlaySound(ALARM_SOUND)] + Renders(emergencies);
      RepeatedRoundEffects(n - 1, emergencies);
      AlarmCountAppend(Repeat(n - 1, round), round);
      RenderedFlightsAppend(Repeat(n - 1, round), round);
      AlarmCountAppend([PlaySound(ALARM_SOUND)], Renders(emergencies));
      RenderedFlightsAppend([PlaySound(ALARM_SOUND)], Renders(emergencies));
      RendersEffects(emergencies);
      assert [PlaySound(ALARM_SOUND)][..0] == [];
    }
  }

  /** What a pass of monitor_flights does, as written: nothing on a failed or
      empty fetch; only the safe message without emergencies; otherwise one
      alarm per emergency flight and k * k render requests for k flights. */
  lemma CycleAsWrittenEffects(fetched: Option<seq<Row>>)
    requires Classifiable(fetched)
    ensures !HasData(fetched) ==> CycleAsWritten(fetched) == []
    ensures HasData(fetched) && Emergencies(fetched.value) == [] ==> CycleAsWritten(fetched) == [AirIsSafe]
    ensures HasData(fetched) && Emergencies(fetched.value) != [] ==>
              var k := |Emergencies(fetched.value)|;
              AlarmCount(CycleAsWritten(fetched)) == k
              && RenderedFlights(CycleAsWritten(fetched)) == Repeat(k, Emergencies(fetched.value))
              && |RenderedFlights(CycleAsWritten(fetched))| == k * k
              && AirIsSafe !in CycleAsWritten(fetched)
  {
    if HasData(fetched) && Emergencies(fetched.value) != [] {
      var emergencies := Emergencies(fetched.value);
      RepeatedRoundEffects(|emergencies|, emergencies);
      RepeatNoSafe(|emergencies|, emergencies);
    }
  }

  lemma {:induction false} RepeatNoSafe(n: nat, emergencies: seq<Row>)
    ensures AirIsSafe !in Repeat(n, [PlaySound(ALARM_SOUND)] + Renders(emergencies))
    decreases n
  {
    if n > 0 {
      RepeatNoSafe(n - 1, emergencies);
    }
  }

  /** What a pass does as evidently intended: nothing on a failed or empty
      fetch; only the safe message without emergencies; otherwise the alarm
      exactly once and each emergency flight rendered once, in classifier
      order, with no safe message. */
  lemma CycleEffects(fetched: Option<seq<Row>>)
    requires Classifiable(fetched)
    ensures !HasData(fetched) ==> Cycle(fetched) == []
    ensures HasData(fetched) && Emergencies(fetched.value) == [] ==> Cycle(fetched) == [AirIsSafe]
    ensures HasData(fetched) && Emergencies(fetched.value) != [] ==>
              AlarmCount(Cycle(fetched)) == 1
              && RenderedFlights(Cycle(fetched)) == Emergencies(fetched.value)
              && AirIsSafe !in Cycle(fetched)
  {
    if HasData(fetched) && Emergencies(fetched.value) != [] {
      var emergencies := Emergencies(fetched.value);
      var round := [PlaySound(ALARM_SOUND)] + Renders(emergencies);
      RepeatedRoundEffects(1, emergencies);
      RepeatNoSafe(1, emergencies);
      assert Repeat(1, round) == round;
      assert Repeat(1, emergencies) == emergencies;
    }
  }

  /** A row with the given ICAO24 and squawk cells, every other cell null. */
  function SampleRow(icao24: string, squawk: string): (row: Row)
    ensures HasSquawk(row)
  {
    [Str(icao24)] + seq(13, _ => Null) + [Str(squawk)]
  }

  /** Two aircraft squawking 7700 in one snapshot: the code as written plays
      the alarm twice and issues four render requests, where one alarm and
      two renders are intended. */
  lemma TwoEmergenciesAsWritten()
    ensures var a, b := SampleRow("abc123", EMERGENCY_CODE), SampleRow("def456", EMERGENCY_CODE);
            AlarmCount(CycleAsWritten(Some([a, b]))) == 2
            && RenderedFlights(CycleAsWritten(Some([a, b]))) == [a, b, a, b]
            && AlarmCount(Cycle(Some([a, b]))) == 1
            && RenderedFlights(Cycle(Some([a, b]))) == [a, b]
  {
    var a, b := SampleRow("abc123", EMERGENCY_CODE), SampleRow("def456", EMERGENCY_CODE);
    assert [a, b][..1] == [a];
    assert [a][..0] == [];
    assert Emergencies([a, b]) == [a, b];
    CycleAsWrittenEffects(Some([a, b]));
    CycleEffects(Some([a, b]));
    assert Repeat(2, [a, b]) == [a, b, a, b];
  }

  /** Passes are independent: the trace of a run is the trace of its first
      part followed by the trace of the rest, whatever came before. */
  lemma {:induction false} RunIndependent(first: seq<Option<seq<Row>>>, rest: seq<Option<seq<Row>>>)
    requires AllClassifiable(first) && AllClassifiable(rest)
    ensures AllClassifiable(first + rest)
    ensures RunAsWritten(first + rest) == RunAsWritten(first) + RunAsWritten(rest)
    decreases |rest|
  {
    if rest != [] {
      var front := rest[..|rest| - 1];
      assert (first + rest)[..|first + rest| - 1] == first + front;
      RunIndependent(first, front);
    } else {
      assert first + rest == first;
    }
  }

  /** Some row of the fetch result carries the ICAO24 `id` and squawks 7700:
      the aircraft is in emergency in that pass, whatever its other cells. */
  predicate EmergencyIn(fetched: Option<seq<Row>>, id: string)
    requires Classifiable(fetched)
  {
    fetched.Some? && exists row :: row in fetched.value && row[ICAO24] == Str(id) && IsEmergency(row)
  }

  /** How many rows of a list carry the ICAO24 `id`. */
  function CountWithIcao(rows: seq<Row>, id: string): nat {
    if rows == [] then 0
    else
      var last := rows[|rows| - 1];
      CountWithIcao(rows[..|rows| - 1], id) + (if |last| > ICAO24 && last[ICAO24] == Str(id) then 1 else 0)
  }

  lemma {:induction false} CountWithIcaoAppend(a: seq<Row>, b: seq<Row>, id: string)
    ensures CountWithIcao(a + b, id) == CountWithIcao(a, id) + CountWithIcao(b, id)
    decreases |b|
  {
    if b != [] {
      assert (a + b)[..|a + b| - 1] == a + b[..|b| - 1];
      CountWithIcaoAppend(a, b[..|b| - 1], id);
    } else {
      assert a + b == a;
    }
  }

  lemma {:induction false} CountWithIcaoPositive(rows: seq<Row>, row: Row, id: string)
    requires row in rows && |row| > ICAO24 && row[ICAO24] == Str(id)
    ensures CountWithIcao(rows, id) >= 1
    decreases |rows|
  {
    if row != rows[|rows| - 1] {
      var front := rows[..|rows| - 1];
      assert rows == front + [rows[|rows| - 1]];
      CountWithIcaoPositive(front, row, id);
    }
  }

  /** A pass whose fetch holds a 7700 row with ICAO24 `id` plays the alarm and
      hands a row with that ICAO24 to the renderer. */
  lemma PassAlertsFor(fetched: Option<seq<Row>>, id: string)
    requires Classifiable(fetched) && EmergencyIn(fetched, id)
    ensures AlarmCount(CycleAsWritten(fetched)) >= 1
    ensures CountWithIcao(RenderedFlights(CycleAsWritten(fetched)), id) >= 1
  {
    var row :| row in fetched.value && row[ICAO24] == Str(id) && IsEmergency(row);
    EmergenciesMembership(fetched.value, row);
    CycleAsWrittenEffects(fetched);
    var emergencies := Emergencies(fetched.value);
    var k := |emergencies|;
    assert Repeat(k, emergencies) == Repeat(k - 1, emergencies) + emergencies;
    CountWithIcaoAppend(Repeat(k - 1, emergencies), emergencies, id);
    CountWithIcaoPositive(emergencies, row, id);
  }

  /** No deduplication: an aircraft that squawks 7700 in every pass, under the
      same ICAO24 but with its position and other cells changing, sets off the
      alarm in each pass, so the run as a whole alarms at least once per pass. */
  lemma {:induction false} ReAlertEveryCycle(fetches: seq<Option<seq<Row>>>, id: string)
    requires AllClassifiable(fetches)
    requires forall f :: f in fetches ==> EmergencyIn(f, id)
    ensures forall i :: 0 <= i < |fetches| ==> AlarmCount(CycleAsWritten(fetches[i])) >= 1
    ensures AlarmCount(RunAsWritten(fetches)) >= |fetches|
    decreases |fetches|
  {
    forall i | 0 <= i < |fetches|
      ensures AlarmCount(CycleAsWritten(fetches[i])) >= 1
    {
      assert fetches[i] in fetches;
      PassAlertsFor(fetches[i], id);
    }
    if fetches != [] {
      var front := fetches[..|fetches| - 1];
      var last := fetches[|fetches| - 1];
      assert last in fetches;
      ReAlertEveryCycle(front, id);
      PassAlertsFor(last, id);
      AlarmCountAppend(RunAsWritten(front), CycleAsWritten(last));
    }
  }

  /** ... and in each pass a row with that ICAO24 is handed to the map renderer. */
  lemma {:induction false} ReRenderEveryCycle(fetches: seq<Option<seq<Row>>>, id: string)
    requires AllClassifiable(fetches)
    requires forall f :: f in fetches ==> EmergencyIn(f, id)
    ensures forall i :: 0 <= i < |fetches| ==>
              CountWithIcao(RenderedFlights(CycleAsWritten(fetches[i])), id) >= 1
    ensures CountWithIcao(RenderedFlights(RunAsWritten(fetches)), id) >= |fetches|
    decreases |fetches|
  {
    forall i | 0 <= i < |fetches|
      ensures CountWithIcao(RenderedFlights(CycleAsWritten(fetches[i])), id) >= 1
    {
      assert fetches[i] in fetches;
      PassAlertsFor(fetches[i], id);
    }
    if fetches != [] {
      var front := fetches[..|fetches| - 1];
      var last := fetches[|fetches| - 1];
      assert last in fetches;
      ReRenderEveryCycle(front, id);
      PassAlertsFor(last, id);
      RenderedFlightsAppend(RunAsWritten(front), CycleAsWritten(last));
      CountWithIcaoAppend(RenderedFlights(RunAsWritten(front)), RenderedFlights(CycleAsWritten(last)), id);
    }
  }
}
