/** The tables behind the ledger (store/sessions.go, store/connector_state.go). */
module Storage {
  import opened Spans
  import opened Plan
  import opened Ledger

  class Store {
    var rows: map<Key, Row>
    var sessions: seq<Session>
    var markers: seq<Marker>
    var rates: seq<Rate>

    constructor ()
      ensures rows == map[] && sessions == [] && markers == [] && rates == []
    {
      rows, sessions, markers, rates := map[], [], [], [];
    }

    /** `StartSession`: refused when the transaction id is taken. */
    method StartSession(session: Session) returns (ok: bool)
      modifies this`sessions
      ensures sessions == Inserted(old(sessions), session)
      ensures ok <==> sessions != old(sessions)
    {
      for i := 0 to |sessions|
        invariant sessions == old(sessions)
        invariant forall k :: 0 <= k < i ==> sessions[k].txn != session.txn
      {
        if sessions[i].txn == session.txn { return false; }
      }
      sessions := sessions + [session];
      assert |sessions| != |old(sessions)|;
      ok := true;
    }

    /** `StopSession`: closes the active rows of the transaction; false when there is none. */
    method StopSession(txn: int, c: Closing) returns (closed: bool)
      modifies this`sessions
      ensures sessions == CloseRows(old(sessions), txn, c)
      ensures closed <==> HasActive(old(sessions), txn)
    {
      closed := false;
      for i := 0 to |sessions|
        invariant |sessions| == |old(sessions)|
        invariant forall k :: 0 <= k < i ==> sessions[k] == CloseRows(old(sessions), txn, c)[k]
        invariant forall k :: i <= k < |sessions| ==> sessions[k] == old(sessions)[k]
        invariant closed <==> exists k :: 0 <= k < i && IsActive(old(sessions)[k], txn)
      {
        if sessions[i].txn == txn && sessions[i].closing.None? {
          sessions := sessions[i := sessions[i].(closing := Some(c))];
          closed := true;
        }
      }
    }

    method ActiveSession() returns (found: Option<Session>)
      ensures found == FirstActive(sessions)
    {
      for i := 0 to |sessions|
        invariant FirstActive(sessions[..i]).None?
      {
        assert sessions[..i + 1][..i] == sessions[..i];
        if sessions[i].closing.None? {
          FirstActivePrefix(sessions, i + 1);
          return Some(sessions[i]);
        }
      }
      assert sessions[..|sessions|] == sessions;
      found := None;
    }

    method MaxTransaction() returns (max: int)
      ensures max == MaxTxn(sessions)
    {
      max := 0;
      for i := 0 to |sessions|
        invariant max == MaxTxn(sessions[..i])
      {
        assert sessions[..i + 1][..i] == sessions[..i];
        if sessions[i].txn >= max { max := sessions[i].txn; }
      }
      assert sessions[..|sessions|] == sessions;
    }

    method InsertChartMarker(m: Marker)
      modifies this`markers
      ensures markers == old(markers) + [m]
    {
      markers := markers + [m];
    }

    method UpsertConnectorState(key: Key, row: Row)
      modifies this`rows
      ensures rows == old(rows)[key := row]
    {
      rows := rows[key := row];
    }

    /** `AllConnectorStates`: every row once, in an order nobody may rely on. */
    method AllConnectorStates() returns (keys: seq<Key>)
      ensures forall key :: key in keys <==> key in rows
    {
      keys := [];
      var rest := rows.Keys;
      while rest != {}
        invariant forall key :: key in rows <==> key in keys || key in rest
        decreases |rest|
      {
        var key :| key in rest;
        keys := keys + [key];
        rest := rest - {key};
      }
    }
  }

  /** An active row found in a prefix is the table's first. */
  lemma {:induction false} FirstActivePrefix(sessions: seq<Session>, n: nat)
    requires n <= |sessions| && FirstActive(sessions[..n]).Some?
    ensures FirstActive(sessions) == FirstActive(sessions[..n])
  {
    if n == |sessions| {
      assert sessions[..n] == sessions;
    } else {
      assert sessions[..|sessions| - 1][..n] == sessions[..n];
      FirstActivePrefix(sessions[..|sessions| - 1], n);
    }
  }
}
