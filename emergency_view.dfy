// display_emergency_flights: the message listing the current emergency
// flights, one "<icao24> - <callsign> (<country>)" line each.

module EmergencyView {
  import opened Rows
  import opened Classifier

  /** One entry of the list: the f-string `{icao24} - {callsign} ({country})`. */
  function EmergencyLine(row: Row): string
    requires |row| > ORIGIN_COUNTRY
  {
    Show(row[ICAO24]) + " - " + Show(row[CALLSIGN]) + " (" + Show(row[ORIGIN_COUNTRY]) + ")"
  }

  /** `"\n".join(lines)`. */
  function JoinLines(lines: seq<string>): string {
    if lines == [] then ""
    else if |lines| == 1 then lines[0]
    else lines[0] + "\n" + JoinLines(lines[1..])
  }

  /** `s.split("\n")`: the pieces between newlines, always at least one. */
  function SplitLines(s: string): (r: seq<string>)
    ensures |r| >= 1
  {
    if s == [] then [""]
    else
      var rest := SplitLines(s[1..]);
      if s[0] == '\n' then [""] + rest
      else [[s[0]] + rest[0]] + rest[1..]
  }

  /** The lines of the message, one per emergency row, in order. */
  function EmergencyLines(emergencies: seq<Row>): (lines: seq<string>)
    requires AllHaveSquawk(emergencies)
  {
    seq(|emergencies|, i requires 0 <= i < |emergencies| =>
      assert emergencies[i] in emergencies; EmergencyLine(emergencies[i]))
  }

  const DATA_ERROR_TITLE := "Data Error"
  const DATA_ERROR_TEXT := "Unable to fetch flight data."
  const LIST_TITLE := "Emergency Flights"
  const NONE_TITLE := "No Emergency Flights"
  const NONE_TEXT := "There are no emergency flights at the moment."

  datatype MessageBox = InfoBox(title: string, text: string) | ErrorBox(title: string, text: string)

  /** The message box display_emergency_flights shows for one fetch result. */
  function DisplayEmergencyFlights(fetched: Option<seq<Row>>): MessageBox
    requires Classifiable(fetched)
  {
    if !HasData(fetched) then ErrorBox(DATA_ERROR_TITLE, DATA_ERROR_TEXT)
    else
      var emergencies := Emergencies(fetched.value);
      if emergencies == [] then InfoBox(NONE_TITLE, NONE_TEXT)
      else InfoBox(LIST_TITLE, JoinLines(EmergencyLines(emergencies)))
  }

  /** The three cells shown in an entry hold no newline. */
  predicate PrintableFields(row: Row)
    requires |row| > ORIGIN_COUNTRY
  {
    '\n' !in Show(row[ICAO24]) && '\n' !in Show(row[CALLSIGN]) && '\n' !in Show(row[ORIGIN_COUNTRY])
  }

  lemma {:induction false} SplitSingleLine(line: string)
    requires '\n' !in line
    ensures SplitLines(line) == [line]
    decreases |line|
  {
    if line != [] {
      assert line == [line[0]] + line[1..];
      SplitSingleLine(line[1..]);
    }
  }

  lemma {:induction false} SplitAfterLine(line: string, rest: string)
    requires '\n' !in line
    ensures SplitLines(line + "\n" + rest) == [line] + SplitLines(rest)
    decreases |line|
  {
    var s := line + "\n" + rest;
    if line == [] {
      assert s[1..] == rest;
    } else {
      assert line == [line[0]] + line[1..];
      assert s[0] == line[0] && s[1..] == line[1..] + "\n" + rest;
      SplitAfterLine(line[1..], rest);
    }
  }

  /** Splitting the joined text at newlines gives the lines back, provided
      there is at least one line and none holds a newline of its own. */
  lemma {:induction false} SplitJoinRoundTrip(lines: seq<string>)
    requires |lines| >= 1
    requires forall line :: line in lines ==> '\n' !in line
    ensures SplitLines(JoinLines(lines)) == lines
    decreases |lines|
  {
    assert lines[0] in lines;
    if |lines| == 1 {
      SplitSingleLine(lines[0]);
    } else {
      SplitAfterLine(lines[0], JoinLines(lines[1..]));
      SplitJoinRoundTrip(lines[1..]);
    }
  }

  /** No entry of the list holds a newline when no shown cell does. */
  lemma EmergencyLinesNewlineFree(emergencies: seq<Row>)
    requires AllHaveSquawk(emergencies)
    requires forall row :: row in emergencies ==> PrintableFields(row)
    ensures forall line :: line in EmergencyLines(emergencies) ==> '\n' !in line
  {
    var lines := EmergencyLines(emergencies);
    forall i | 0 <= i < |lines|
      ensures '\n' !in lines[i]
    {
      assert emergencies[i] in emergencies;
    }
  }

  /** What the view shows: an error for a failed or empty fetch; the
      no-emergency notice when nothing squawks 7700; otherwise a text whose
      newline-separated lines are exactly one entry per emergency row, in
      classifier order. */
  lemma EmergencyViewOutcome(fetched: Option<seq<Row>>)
    requires Classifiable(fetched)
    requires fetched.Some? ==> forall row :: row in Emergencies(fetched.value) ==> PrintableFields(row)
    ensures !HasData(fetched) ==> DisplayEmergencyFlights(fetched) == ErrorBox(DATA_ERROR_TITLE, DATA_ERROR_TEXT)
    ensures HasData(fetched) && Emergencies(fetched.value) == [] ==>
              DisplayEmergencyFlights(fetched) == InfoBox(NONE_TITLE, NONE_TEXT)
    ensures HasData(fetched) && Emergencies(fetched.value) != [] ==>
              DisplayEmergencyFlights(fetched).InfoBox?
              && DisplayEmergencyFlights(fetched).title == LIST_TITLE
              && SplitLines(DisplayEmergencyFlights(fetched).text) == EmergencyLines(Emergencies(fetched.value))
              && |SplitLines(DisplayEmergencyFlights(fetched).text)| == |Emergencies(fetched.value)|
  {
    if HasData(fetched) && Emergencies(fetched.value) != [] {
      var emergencies := Emergencies(fetched.value);
      EmergencyLinesNewlineFree(emergencies);
      SplitJoinRoundTrip(EmergencyLines(emergencies));
    }
  }
}
