// check_emergency_flights: keep the rows whose squawk is "7700".

module Classifier {
  import opened Rows

  /** The emergency rows of a snapshot, in snapshot order. Defined from the
      back so that it follows the loop that appends to a list. */
  function Emergencies(rows: seq<Row>): (r: seq<Row>)
    requires AllHaveSquawk(rows)
    ensures |r| <= |rows|
    ensures AllHaveSquawk(r)
    decreases |rows|
  {
    if rows == [] then []
    else
      var last := rows[|rows| - 1];
      Emergencies(rows[..|rows| - 1]) + (if IsEmergency(last) then [last] else [])
  }

  /** Reference definition: the positions of the emergency rows, in increasing order. */
  function EmergencyPositions(rows: seq<Row>): (p: seq<nat>)
    requires AllHaveSquawk(rows)
    ensures forall k :: 0 <= k < |p| ==> p[k] < |rows|
    ensures forall k, l :: 0 <= k < l < |p| ==> p[k] < p[l]
    decreases |rows|
  {
    if rows == [] then []
    else
      EmergencyPositions(rows[..|rows| - 1])
      + (if IsEmergency(rows[|rows| - 1]) then [|rows| - 1] else [])
  }

  /** The loop of check_emergency_flights: walk the snapshot and append each
      row whose squawk cell equals "7700". */
  method CheckEmergencyFlights(flights: seq<Row>) returns (emergencyFlights: seq<Row>)
    requires AllHaveSquawk(flights)
    ensures emergencyFlights == Emergencies(flights)
  {
    emergencyFlights := [];
    for i := 0 to |flights|
      invariant emergencyFlights == Emergencies(flights[..i])
    {
      var flight := flights[i];
      assert flight in flights;
      var squawk := flight[SQUAWK];
      assert flights[..i + 1][..i] == flights[..i];
      if squawk == Str(EMERGENCY_CODE) {
        emergencyFlights := emergencyFlights + [flight];
      }
    }
    assert flights[..|flights|] == flights;
  }

  /** The result is the subsequence of the snapshot taken at the emergency
      positions, in increasing position order. */
  lemma {:induction false} EmergenciesAtPositions(rows: seq<Row>)
    requires AllHaveSquawk(rows)
    ensures |EmergencyPositions(rows)| == |Emergencies(rows)|
    ensures forall k :: 0 <= k < |EmergencyPositions(rows)| ==>
              Emergencies(rows)[k] == rows[EmergencyPositions(rows)[k]]
    decreases |rows|
  {
    if rows != [] {
      var n := |rows| - 1;
      var front := rows[..n];
      EmergenciesAtPositions(front);
      var p, e := EmergencyPositions(front), Emergencies(front);
      assert forall k :: 0 <= k < |p| ==> e[k] == front[p[k]] == rows[p[k]];
      if IsEmergency(rows[n]) {
        assert EmergencyPositions(rows) == p + [n];
        assert Emergencies(rows) == e + [rows[n]];
      }
    }
  }

  /** The emergency positions are exactly the positions whose squawk is "7700". */
  lemma {:induction false} EmergencyPositionsExact(rows: seq<Row>)
    requires AllHaveSquawk(rows)
    ensures forall j :: 0 <= j < |rows| ==> (j in EmergencyPositions(rows) <==> IsEmergency(rows[j]))
    decreases |rows|
  {
    if rows != [] {
      var n := |rows| - 1;
      var front := rows[..n];
      EmergencyPositionsExact(front);
      var p := EmergencyPositions(front);
      assert forall j :: 0 <= j < n ==> front[j] == rows[j];
      assert n !in p;
      if IsEmergency(rows[n]) {
        assert EmergencyPositions(rows) == p + [n];
      }
    }
  }

  /** Membership both ways: a row is in the result iff it is in the snapshot
      and squawks "7700"; a null or any other squawk is never kept. */
  lemma {:induction false} EmergenciesMembership(rows: seq<Row>, e: Row)
    requires AllHaveSquawk(rows)
    ensures e in Emergencies(rows) <==> e in rows && IsEmergency(e)
    decreases |rows|
  {
    if rows != [] {
      var front := rows[..|rows| - 1];
      EmergenciesMembership(front, e);
      assert rows == front + [rows[|rows| - 1]];
    }
  }

  /** Classifying a concatenation classifies each part. */
  lemma {:induction false} EmergenciesAppend(a: seq<Row>, b: seq<Row>)
    requires AllHaveSquawk(a) && AllHaveSquawk(b)
    ensures AllHaveSquawk(a + b)
    ensures Emergencies(a + b) == Emergencies(a) + Emergencies(b)
    decreases |b|
  {
    if b != [] {
      var front := b[..|b| - 1];
      assert (a + b)[..|a + b| - 1] == a + front;
      EmergenciesAppend(a, front);
    } else {
      assert a + b == a;
    }
  }

  /** Classifying the emergency list again changes nothing. */
  lemma {:induction false} EmergenciesIdempotent(rows: seq<Row>)
    requires AllHaveSquawk(rows)
    ensures Emergencies(Emergencies(rows)) == Emergencies(rows)
    decreases |rows|
  {
    if rows != [] {
      var front := rows[..|rows| - 1];
      var last := rows[|rows| - 1];
      EmergenciesIdempotent(front);
      if IsEmergency(last) {
        assert Emergencies(rows) == Emergencies(front) + [last];
        EmergenciesAppend(Emergencies(front), [last]);
        assert [last][..0] == [];
        assert Emergencies([last]) == [last];
      } else {
        assert Emergencies(rows) == Emergencies(front);
      }
    }
  }

  /** The result has one entry per emergency row: every non-emergency row shortens it. */
  lemma {:induction false} EmergenciesAllOrNothing(rows: seq<Row>)
    requires AllHaveSquawk(rows)
    ensures |Emergencies(rows)| == |rows| <==> forall row :: row in rows ==> IsEmergency(row)
    ensures Emergencies(rows) == [] <==> forall row :: row in rows ==> !IsEmergency(row)
    decreases |rows|
  {
    if rows != [] {
      var front := rows[..|rows| - 1];
      EmergenciesAllOrNothing(front);
      assert rows == front + [rows[|rows| - 1]];
    }
  }
}
