// The aircraft-state rows handed out by the flight-data fetch, and the
// fixed positions the application reads from them.

module Rows {

  /** The outcome of a fetch: `None` when the request or the JSON decoding failed. */
  datatype Option<+T> = None | Some(value: T)

  /** One cell of a state row, as decoded from the feed's JSON array.
      Numbers are opaque: only the text Python would print for them is kept. */
  datatype Value = Str(s: string) | Num(text: string) | Bool(b: bool) | Null

  /** A state vector is a fixed-position array of cells. */
  type Row = seq<Value>

  const ICAO24: nat := 0
  const CALLSIGN: nat := 1
  const ORIGIN_COUNTRY: nat := 2
  const SQUAWK: nat := 14

  /** The general-emergency transponder code. */
  const EMERGENCY_CODE: string := "7700"

  /** A row the classifier can read: it has a squawk cell (the feed sends 17 or 18). */
  predicate HasSquawk(row: Row) {
    |row| > SQUAWK
  }

  predicate AllHaveSquawk(rows: seq<Row>) {
    forall row :: row in rows ==> HasSquawk(row)
  }

  /** The classifier's test: the squawk cell is exactly the string "7700". */
  predicate IsEmergency(row: Row)
    requires HasSquawk(row)
  {
    row[SQUAWK] == Str(EMERGENCY_CODE)
  }

  /** Python truthiness of the fetch result: `None` and `[]` are both false. */
  predicate HasData(fetched: Option<seq<Row>>) {
    fetched.Some? && fetched.value != []
  }

  /** A fetch result whose rows, if any, can be classified. */
  predicate Classifiable(fetched: Option<seq<Row>>) {
    fetched.Some? ==> AllHaveSquawk(fetched.value)
  }

  /** The text an f-string gives a cell. */
  function Show(v: Value): string {
    match v
    case Str(s) => s
    case Num(text) => text
    case Bool(b) => if b then "True" else "False"
    case Null => "None"
  }
}
