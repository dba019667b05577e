// The selection loop of display_flight_details_with_live_location: find a
// flight by the ICAO24 identifier the user typed.

module Lookup {
  import opened Rows

  /** What the identifier dialog hands back: the typed text, or `None` when
      the dialog is cancelled. Python compares it with `==`, so a cancelled
      dialog matches a row whose ICAO24 cell is null. */
  function Entered(flightId: Option<string>): Value {
    if flightId.Some? then Str(flightId.value) else Null
  }

  /** Rows the selection loop can read: the loop indexes cell 0. */
  predicate AllHaveIcao(rows: seq<Row>) {
    forall row :: row in rows ==> |row| > ICAO24
  }

  predicate Matches(row: Row, flightId: Option<string>)
    requires |row| > ICAO24
  {
    row[ICAO24] == Entered(flightId)
  }

  /** Reference definition: the position of the first row whose ICAO24 cell
      equals the entered identifier, if there is one. */
  function FirstMatch(rows: seq<Row>, flightId: Option<string>): (r: Option<nat>)
    requires AllHaveIcao(rows)
    ensures r.Some? ==> r.value < |rows| && Matches(rows[r.value], flightId)
    ensures r.Some? ==> forall j :: 0 <= j < r.value ==> !Matches(rows[j], flightId)
    ensures r.None? <==> forall j :: 0 <= j < |rows| ==> !Matches(rows[j], flightId)
  {
    if rows == [] then None
    else if Matches(rows[0], flightId) then Some(0)
    else
      match FirstMatch(rows[1..], flightId)
      case None => None
      case Some(k) => assert rows[1..][k] == rows[k + 1]; Some(k + 1)
  }

  /** The loop over the snapshot that stops at the first row whose ICAO24
      cell equals the entered identifier. */
  method SelectFlight(flights: seq<Row>, flightId: Option<string>) returns (selected: Option<Row>)
    requires AllHaveIcao(flights)
    ensures match FirstMatch(flights, flightId)
            case None => selected == None
            case Some(i) => selected == Some(flights[i])
  {
    selected := None;
    var i := 0;
    while i < |flights|
      invariant 0 <= i <= |flights|
      invariant forall j :: 0 <= j < i ==> !Matches(flights[j], flightId)
    {
      var flight := flights[i];
      assert flight in flights;
      if flight[ICAO24] == Entered(flightId) {
        selected := Some(flight);
        break;
      }
      i := i + 1;
    }
  }

  const DATA_ERROR_TITLE := "Data Error"
  const DATA_ERROR_TEXT := "Unable to fetch flight data."
  const SELECTION_ERROR_TITLE := "Selection Error"
  const SELECTION_ERROR_TEXT := "Flight not found."

  /** What the view ends in: an error box, or the selected flight handed to
      the details box and the map renderer. */
  datatype LookupOutcome = ErrorBox(title: string, text: string) | ShowFlight(flight: Row)

  /** display_flight_details_with_live_location: an empty or failed fetch is a
      data error; otherwise the entered identifier is looked up and either the
      first matching row is shown or "Flight not found." is reported. */
  method DisplayFlightDetailsWithLiveLocation(fetched: Option<seq<Row>>, flightId: Option<string>)
    returns (outcome: LookupOutcome)
    requires fetched.Some? ==> AllHaveIcao(fetched.value)
    ensures !HasData(fetched) ==> outcome == ErrorBox(DATA_ERROR_TITLE, DATA_ERROR_TEXT)
    ensures HasData(fetched) ==>
              (outcome == ErrorBox(SELECTION_ERROR_TITLE, SELECTION_ERROR_TEXT)
               <==> forall row :: row in fetched.value ==> row[ICAO24] != Entered(flightId))
    ensures HasData(fetched) ==>
              match FirstMatch(fetched.value, flightId)
              case None => outcome == ErrorBox(SELECTION_ERROR_TITLE, SELECTION_ERROR_TEXT)
              case Some(i) => outcome == ShowFlight(fetched.value[i])
    ensures outcome.ShowFlight? ==>
              exists i :: 0 <= i < |fetched.value| && fetched.value[i] == outcome.flight
                          && outcome.flight[ICAO24] == Entered(flightId)
                          && forall j :: 0 <= j < i ==> fetched.value[j][ICAO24] != Entered(flightId)
  {
    if fetched.Some? && fetched.value != [] {
      var flights := fetched.value;
      var selectedFlight := SelectFlight(flights, flightId);
      if selectedFlight.Some? {
        outcome := ShowFlight(selectedFlight.value);
      } else {
        outcome := ErrorBox(SELECTION_ERROR_TITLE, SELECTION_ERROR_TEXT);
      }
    } else {
      outcome := ErrorBox(DATA_ERROR_TITLE, DATA_ERROR_TEXT);
    }
  }
}
