/** The OCPP server's objects and handlers (ocpp/connector.go, ocpp/server.go, ocpp/handler.go). */
module Ocpp {
  import opened Spans
  import opened Plan
  import opened Costing
  import opened Ledger
  import opened Storage

  class Connector {
    var report: Report
    var txn: int
    var tag: string
    var readings: map<string, real>

    constructor ()
      ensures View() == IDLE
    {
      report, txn, tag, readings := IDLE.report, 0, "", map[];
    }

    ghost function View(): Live
      reads this
    {
      Live(report, txn, tag, readings)
    }

    method UpdateStatus(r: Report)
      modifies this
      ensures View() == old(View()).(report := r)
    {
      report := r;
    }

    method StartTransaction(txnId: int, idTag: string)
      modifies this
      ensures View() == old(View()).(txn := txnId, tag := idTag)
    {
      txn, tag := txnId, idTag;
    }

    method UpdateMeterValues(more: map<string, real>)
      modifies this
      ensures View() == old(View()).(readings := old(View()).readings + more)
    {
      readings := readings + more;
    }

    /** `applyConnectorState`, on one connector. */
    method Apply(row: Row)
      modifies this
      ensures View() == Applied(old(View()), row)
    {
      UpdateStatus(row.report);
      if row.txn != 0 { StartTransaction(row.txn, row.tag); }
    }

    method StopTransaction()
      modifies this
      ensures View() == Released(old(View()))
    {
      txn, tag := 0, "";
      readings := map m | m in readings :: if m in ZEROED then 0.0 else readings[m];
    }
  }

  class Server {
    const store: Store
    var points: map<string, bool>
    var connectors: map<Key, Connector>
    var nextTxn: int
    ghost var credited: seq<real>

    /** Connectors belong to known charge points, and no two keys share a connector object. */
    ghost predicate Valid()
      reads this`points, this`connectors
    {
      && (forall key :: key in connectors ==> key.box in points)
      && forall a, b :: a in connectors && b in connectors && a != b ==> connectors[a] != connectors[b]
    }

    ghost function InMemory(): map<Key, Live>
      reads this`connectors, connectors.Values
    {
      map key | key in connectors :: connectors[key].View()
    }

    ghost function View(): State
      reads this, store, connectors.Values
    {
      State(points, InMemory(), store.rows, Books(store.sessions, store.markers, credited), store.rates, nextTxn)
    }

    /** `NewServer`: a process starting on a store. `before` is what earlier processes credited. */
    constructor (store: Store, ghost before: seq<real>)
      ensures Valid() && this.store == store && forall k :: k in connectors ==> fresh(connectors[k])
      ensures store.rows == old(store.rows) && store.sessions == old(store.sessions)
      ensures forall s: State ::
        s.rows == store.rows && s.rates == store.rates && s.books == Books(store.sessions, store.markers, before) ==>
          View() == Restarted(s)
    {
      this.store := store;
      points, connectors, nextTxn, credited := map[], map[], 1, before;
      new;
      var max := store.MaxTransaction();
      nextTxn := max + 1;
      HydrateAll();
    }

    /** `GetConnector`: adds an idle connector when there is none. */
    method GetConnector(key: Key) returns (c: Connector)
      requires Valid() && key.box in points
      modifies this`connectors
      ensures Valid() && key in connectors && connectors[key] == c
      ensures forall k :: k in connectors ==> k in old(connectors) || fresh(connectors[k])
      ensures Grown(old(connectors), connectors)
      ensures key !in old(connectors) ==> fresh(c)
      ensures InMemory() == old(InMemory())[key := LiveAt(old(InMemory()), key)]
    {
      if key !in connectors {
        c := new Connector();
        connectors := connectors[key := c];
      }
      c := connectors[key];
    }

    /** Changing one connector object changes one entry of the map. */
    twostate lemma OnlyOneChanged(key: Key)
      requires old(Valid()) && key in connectors && connectors == old(connectors)
      requires forall k :: k in connectors && k != key ==> connectors[k].View() == old(connectors[k].View())
      ensures InMemory() == old(InMemory())[key := connectors[key].View()]
    {
    }

    /** `applyConnectorState`. */
    method ApplyConnectorState(key: Key, row: Row)
      requires Valid() && key.box in points
      modifies this`connectors, if key in connectors then {connectors[key]} else {}
      ensures Valid() && forall k :: k in connectors ==> k in old(connectors) || fresh(connectors[k])
      ensures Grown(old(connectors), connectors)
      ensures InMemory() == old(InMemory())[key := Applied(LiveAt(old(InMemory()), key), row)]
    {
      hide Applied, LiveAt, InMemory;
      var _ := GetConnector(key);
      ApplyTo(key, row);
    }

    method ApplyTo(key: Key, row: Row)
      requires Valid() && key in connectors
      modifies connectors[key]
      ensures Valid() && key in old(InMemory())
      ensures InMemory() == old(InMemory())[key := Applied(old(InMemory())[key], row)]
    {
      var c := connectors[key];
      hide Applied, LiveAt;
      c.Apply(row);
      OnlyOneChanged(key);
    }

    /** The first `n` rows listed are in memory, and every connector object was made for this. */
    ghost predicate HydratedTo(keys: seq<Key>, n: nat)
      requires n <= |keys|
      reads this`points, this`connectors, connectors.Values, store
    {
      && Valid() && points == Boxes(Listed(keys[..n]))
      && InMemory() == HydratedKeys(store.rows, Listed(keys[..n]))
    }

    /** One row of `hydrateAllFromStore`. */
    method HydrateOne(keys: seq<Key>, i: nat)
      requires i < |keys| && keys[i] in store.rows && HydratedTo(keys, i)
      modifies this`points, this`connectors, if keys[i] in connectors then {connectors[keys[i]]} else {}
      ensures HydratedTo(keys, i + 1)
      ensures forall k :: k in connectors ==>
        (k in old(connectors) && connectors[k] == old(connectors)[k]) || fresh(connectors[k])
    {
      hide InMemory, LiveAt, Applied, Boxes, HydratedKeys, Listed;
      var key := keys[i];
      HydrateStep(store.rows, keys, i);
      if key.box !in points { points := points[key.box := false]; }
      assert Valid();
      hide Valid;
      ApplyConnectorState(key, store.rows[key]);
    }

    /** The loop of `hydrateAllFromStore`. */
    method HydrateKeys(keys: seq<Key>)
      requires Valid() && points == map[] && connectors == map[]
      requires forall key :: key in keys ==> key in store.rows
      modifies this`points, this`connectors
      ensures HydratedTo(keys, |keys|) && forall k :: k in connectors ==> fresh(connectors[k])
    {
      NoKeys(store.rows, keys);
      assert InMemory() == map[];
      assert HydratedTo(keys, 0);
      hide *;
      for i := 0 to |keys|
        invariant HydratedTo(keys, i) && forall k :: k in connectors ==> fresh(connectors[k])
      {
        HydrateOne(keys, i);
      }
    }

    /** `hydrateAllFromStore`. */
    method HydrateAll()
      requires Valid() && points == map[] && connectors == map[]
      modifies this`points, this`connectors
      ensures Valid() && forall k :: k in connectors ==> fresh(connectors[k])
      ensures points == Boxes(store.rows.Keys) && InMemory() == HydratedRows(store.rows)
    {
      hide Valid, InMemory, Boxes, HydratedKeys, HydratedRows, Listed;
      var keys := store.AllConnectorStates();
      AllKeys(store.rows, keys);
      HydrateKeys(keys);
    }

    // ----- connections -----

    /** `hydrateChargePointFromStore`, for a charge point that has no connectors in memory yet. */
    method HydrateBox(box: string)
      requires Valid() && box in points && forall key :: key in connectors ==> key.box != box
      modifies this`connectors
      ensures Valid() && Grown(old(connectors), connectors)
      ensures forall k :: k in connectors ==> k in old(connectors) || fresh(connectors[k])
      ensures InMemory() == old(InMemory()) + HydratedOf(store.rows, box)
    {
      ghost var was := InMemory();
      assert forall key :: key in was ==> key.box != box;
      var keys := store.AllConnectorStates();
      NoneOfBox(store.rows, keys, box, was);
      AllOfBox(store.rows, keys, box);
      hide HydratedBox, HydratedOf, InMemory, Valid, LiveAt, Applied;
      for i := 0 to |keys|
        invariant BoxHydratedTo(keys, i, box, was) && Grown(old(connectors), connectors)
        invariant forall k :: k in connectors ==> k in old(connectors) || fresh(connectors[k])
      {
        HydrateNext(keys, i, box, was);
      }
    }

    ghost predicate BoxHydratedTo(keys: seq<Key>, n: nat, box: string, was: map<Key, Live>)
      requires n <= |keys|
      reads this`points, this`connectors, connectors.Values, store
    {
      Valid() && box in points && InMemory() == was + HydratedBox(store.rows, keys[..n], box)
    }

    method HydrateNext(keys: seq<Key>, i: nat, box: string, ghost was: map<Key, Live>)
      requires i < |keys| && keys[i] in store.rows && BoxHydratedTo(keys, i, box, was)
      requires forall key :: key in was ==> key.box != box
      modifies this`connectors, if keys[i].box == box && keys[i] in connectors then {connectors[keys[i]]} else {}
      ensures BoxHydratedTo(keys, i + 1, box, was) && Grown(old(connectors), connectors)
      ensures forall k :: k in connectors ==> k in old(connectors) || fresh(connectors[k])
    {
      hide HydratedBox, InMemory, Applied, Valid, LiveAt;
      BoxStep(store.rows, keys, i, box, was);
      if keys[i].box == box { ApplyConnectorState(keys[i], store.rows[keys[i]]); }
    }

    /** The new-charge-point handler. */
    method OnConnect(box: string)
      requires Valid()
      modifies this`points, this`connectors
      ensures Valid() && Grown(old(connectors), connectors)
      ensures forall k :: k in connectors ==> k in old(connectors) || fresh(connectors[k])
      ensures View() == Ledger.OnConnect(old(View()), box)
    {
      hide InMemory, HydratedOf;
      if box in points {
        points := points[box := true];
      } else {
        points := points[box := true];
        HydrateBox(box);
      }
    }

    method OnDisconnect(box: string)
      requires Valid()
      modifies this`points
      ensures Valid() && View() == Ledger.OnDisconnect(old(View()), box)
    {
      if box in points { points := points[box := false]; }
    }

    method OnBootNotification(box: string)
      requires Valid()
      modifies this`points
      ensures Valid() && View() == OnBoot(old(View()), box)
    {
      points := points[box := true];
    }

    // ----- handlers -----

    method OnMeterValues(key: Key, readings: map<string, real>)
      requires Valid()
      modifies this`connectors, if key in connectors then {connectors[key]} else {}
      ensures Valid() && View() == Ledger.OnMeterValues(old(View()), key, readings)
    {
      hide InMemory, Valid, LiveAt;
      if key.box in points { Measure(key, readings); }
    }

    method Measure(key: Key, readings: map<string, real>)
      requires Valid() && key.box in points
      modifies this`connectors, if key in connectors then {connectors[key]} else {}
      ensures Valid()
      ensures var l := LiveAt(old(InMemory()), key);
        InMemory() == old(InMemory())[key := l.(readings := l.readings + readings)]
    {
      var c := GetConnector(key);
      label Got:
      assert InMemory()[key] == c.View();
      c.UpdateMeterValues(readings);
      OnlyOneChanged@Got(key);
      hide InMemory, Valid, LiveAt;
    }

    method OnStartTransaction(key: Key, tag: string, at: int, meterWh: int) returns (txn: int)
      requires Valid()
      modifies this`nextTxn, this`connectors, if key in connectors then {connectors[key]} else {}
      modifies store`sessions, store`rows
      ensures Valid() && txn == old(nextTxn)
      ensures View() == OnStart(old(View()), key, tag, at, meterWh)
    {
      hide InMemory, Valid, LiveAt, Inserted;
      txn := nextTxn;
      nextTxn := nextTxn + 1;
      if key.box in points { OpenOn(key, txn, tag); }
      PersistStart(key, txn, tag, at, meterWh);
    }

    /** The session row, and the transaction on the connector's row so that it survives a restart. */
    method PersistStart(key: Key, txn: int, tag: string, at: int, meterWh: int)
      modifies store`sessions, store`rows
      ensures store.sessions ==
        Inserted(old(store.sessions), Session(key, txn, tag, at, meterWh as real / 1000.0, None))
      ensures store.rows == old(store.rows)[key := RowAt(old(store.rows), key).(txn := txn, tag := tag)]
    {
      var ok := store.StartSession(Session(key, txn, tag, at, meterWh as real / 1000.0, None));
      var row := if key in store.rows then store.rows[key] else NO_ROW;
      store.UpsertConnectorState(key, row.(txn := txn, tag := tag));
      hide Inserted;
    }

    method OpenOn(key: Key, txn: int, tag: string)
      requires Valid() && key.box in points
      modifies this`connectors, if key in connectors then {connectors[key]} else {}
      ensures Valid()
      ensures InMemory() == old(InMemory())[key := LiveAt(old(InMemory()), key).(txn := txn, tag := tag)]
    {
      var c := GetConnector(key);
      label Got:
      assert InMemory()[key] == c.View();
      c.StartTransaction(txn, tag);
      OnlyOneChanged@Got(key);
      hide InMemory, Valid, LiveAt;
    }

    method OnStatusNotification(key: Key, r: Report, logged: Option<real>)
      requires Valid()
      modifies this`connectors, this`credited, if key in connectors then {connectors[key]} else {}
      modifies store`rows, store`markers, store`sessions
      ensures Valid() && View() == OnStatus(old(View()), key, r, logged)
    {
      hide InMemory, Valid, LiveAt, Finalize;
      Note(key, r);
      if IsStopStatus(r.status) { FinalizeSessionOnStop(key, r.at, logged); }
    }

    /** The connector, its marker and its persisted row. */
    method Note(key: Key, r: Report)
      requires Valid()
      modifies this`connectors, if key in connectors then {connectors[key]} else {}
      modifies store`rows, store`markers
      ensures Valid() && View() == Noted(old(View()), key, r)
    {
      hide InMemory, Valid, LiveAt, Transition;
      if key.box in points { Show(key, r); }
      if key.id > 0 { NoteRow(key, r); }
    }

    /** Diffs the status against the persisted one, marks a real transition, and persists it. */
    method NoteRow(key: Key, r: Report)
      modifies store`rows, store`markers
      ensures store.markers == old(store.markers) + Transition(old(store.rows), key, r)
      ensures store.rows == old(store.rows)[key := RowAt(old(store.rows), key).(report := r)]
    {
      var known := key in store.rows;
      var from_ := if known then store.rows[key].report.status else "";
      if !known || from_ != r.status {
        if r.status == "Preparing" {
          store.InsertChartMarker(Marker(PlugMark, r.at));
        } else if r.status == "Available" && known && from_ != "" && from_ != "Available" {
          store.InsertChartMarker(Marker(UnplugMark, r.at));
        }
      }
      assert old(store.markers) + [] == old(store.markers);
      var row := if known then store.rows[key] else NO_ROW;
      store.UpsertConnectorState(key, row.(report := r));
    }

    method Show(key: Key, r: Report)
      requires Valid() && key.box in points
      modifies this`connectors, if key in connectors then {connectors[key]} else {}
      ensures Valid()
      ensures InMemory() == old(InMemory())[key := LiveAt(old(InMemory()), key).(report := r)]
    {
      var c := GetConnector(key);
      label Got:
      assert InMemory()[key] == c.View();
      c.UpdateStatus(r);
      OnlyOneChanged@Got(key);
      hide InMemory, Valid, LiveAt;
    }

    /** `finalizeSessionOnStop`; `logged` is what `LatestEnergyForTransaction` finds in the event log. */
    method FinalizeSessionOnStop(key: Key, at: int, logged: Option<real>)
      requires Valid()
      modifies this`credited, store`sessions, store`markers
      ensures Valid() && View() == old(View()).(books := Finalize(old(View()), key, at, logged))
    {
      hide InMemory, Finalize, HasActive, Record;
      var txn, c := FinalReading(key, at, logged);
      if c.None? { return; }
      var closed := CloseSession(txn, c.value);
      if !closed { return; }
      credited := credited + [c.value.energy];
    }

    /** What an early finalize would record, if it applies. */
    method FinalReading(key: Key, at: int, logged: Option<real>) returns (txn: int, c: Option<Closing>)
      ensures Finalize(View(), key, at, logged) ==
        if c.None? || !HasActive(store.sessions, txn) then View().books
        else Record(View().books, txn, c.value).(credits := credited + [c.value.energy])
    {
      hide InMemory, EnergyReading, SessionCost, FirstActive, HasActive, Record;
      if key !in store.rows || store.rows[key].txn == 0 { return 0, None; }
      txn := store.rows[key].txn;
      var active := store.ActiveSession();
      if active.None? || active.value.txn != txn { return txn, None; }
      var reading := CurrentEnergy(key, logged);
      if reading.None? { return txn, None; }
      var energy := reading.value - active.value.meterStart;
      if energy <= 0.0 { return txn, None; }
      var cost := CalculateSessionCost(store.rates, active.value.start, at, energy);
      c := Some(Closing(at, reading.value, energy, cost));
    }

    /** Closes the session and marks the stop if this call closed it. */
    method CloseSession(txn: int, c: Closing) returns (closed: bool)
      modifies store`sessions, store`markers
      ensures closed == HasActive(old(store.sessions), txn)
      ensures Books(store.sessions, store.markers, credited) == Record(old(View()).books, txn, c)
      ensures !closed ==> store.sessions == old(store.sessions) && store.markers == old(store.markers)
    {
      closed := store.StopSession(txn, c);
      if closed {
        store.InsertChartMarker(Marker(StopMark, c.stop));
      } else {
        assert store.sessions == old(store.sessions);
        assert store.markers + [] == store.markers;
      }
    }

    method CurrentEnergy(key: Key, logged: Option<real>) returns (kwh: Option<real>)
      ensures kwh == EnergyReading(View(), key, logged)
    {
      if key.box in points && key in connectors {
        var c := connectors[key];
        if ENERGY in c.readings { return Some(c.readings[ENERGY] / 1000.0); }
        if ENERGY + ".N" in c.readings { return Some(c.readings[ENERGY + ".N"] / 1000.0); }
      }
      kwh := logged;
    }

    /** Any connector of the charge point that shows the transaction; the map's order is not fixed. */
    method FindConnector(box: string, txn: int) returns (found: Option<int>)
      ensures Matches(View(), box, txn, found)
    {
      if box !in points { return None; }
      var rest := connectors.Keys;
      while rest != {}
        invariant rest <= connectors.Keys
        invariant forall key :: key in connectors && key !in rest && key.box == box ==> connectors[key].txn != txn
        decreases |rest|
      {
        var key :| key in rest;
        if key.box == box && connectors[key].txn == txn { return Some(key.id); }
        rest := rest - {key};
      }
      found := None;
    }

    method OnStopTransaction(box: string, txn: int, at: int, meterWh: int) returns (found: Option<int>)
      requires Valid()
      modifies connectors.Values, this`credited, store`rows, store`sessions, store`markers
      ensures Valid() && Matches(old(View()), box, txn, found)
      ensures View() == OnStop(old(View()), box, txn, at, meterWh, found)
    {
      found := FindConnector(box, txn);
      assert found.Some? ==> Key(box, found.value) in connectors;
      hide *;
      Free(box, found);
      CompleteSession(txn, at, meterWh);
    }

    method Free(box: string, found: Option<int>)
      requires Valid() && (found.Some? ==> Key(box, found.value) in connectors)
      modifies connectors.Values, store`rows
      ensures Valid() && View() == Freed(old(View()), box, found)
    {
      hide InMemory, Valid, Released, LiveAt;
      if found.Some? { Release(Key(box, found.value)); }
    }

    /** Clears the connector and, above 0, its persisted row. */
    method Release(key: Key)
      requires Valid() && key in connectors
      modifies connectors[key], store`rows
      ensures Valid()
      ensures InMemory() == old(InMemory())[key := Released(LiveAt(old(InMemory()), key))]
      ensures store.rows ==
        if key.id > 0 then old(store.rows)[key := RowAt(old(store.rows), key).(txn := 0, tag := "")]
        else old(store.rows)
    {
      connectors[key].StopTransaction();
      OnlyOneChanged(key);
      if key.id > 0 {
        var row := if key in store.rows then store.rows[key] else NO_ROW;
        store.UpsertConnectorState(key, row.(txn := 0, tag := ""));
      }
    }

    /** The second half of `OnStopTransaction`: the session row, its marker, and the credit. */
    method CompleteSession(txn: int, at: int, meterWh: int)
      modifies this`credited, store`sessions, store`markers
      ensures View().books == Complete(old(View()).books, store.rates, txn, at, meterWh)
    {
      var kwh := meterWh as real / 1000.0;
      var active := store.ActiveSession();
      var energy, cost := 0.0, 0.0;
      if active.Some? && active.value.txn == txn {
        energy := kwh - active.value.meterStart;
        cost := CalculateSessionCost(store.rates, active.value.start, at, energy);
      }
      hide InMemory, SessionCost, FirstActive, HasActive, Record;
      var closed := CloseSession(txn, Closing(at, kwh, energy, cost));
      if energy > 0.0 { credited := credited + [energy]; }
    }
  }

  ghost predicate Grown(a: map<Key, Connector>, b: map<Key, Connector>) {
    forall key :: key in a ==> key in b && b[key] == a[key]
  }

  ghost function Listed(keys: seq<Key>): set<Key> { set key | key in keys }

  ghost function HydratedKeys(rows: map<Key, Row>, keys: set<Key>): map<Key, Live> {
    map key | key in keys && key in rows :: Hydrated(rows[key])
  }

  ghost function HydratedBox(rows: map<Key, Row>, keys: seq<Key>, box: string): map<Key, Live> {
    map key | key in keys && key in rows && key.box == box :: Hydrated(rows[key])
  }

  /** Applying a row to a connector that already shows it changes nothing. */
  lemma HydrateStep(rows: map<Key, Row>, keys: seq<Key>, i: nat)
    requires i < |keys| && keys[i] in rows
    ensures var a, b := Listed(keys[..i]), Listed(keys[..i + 1]);
      && Boxes(b) == (if keys[i].box in Boxes(a) then Boxes(a) else Boxes(a)[keys[i].box := false])
      && HydratedKeys(rows, b) ==
           HydratedKeys(rows, a)[keys[i] := Applied(LiveAt(HydratedKeys(rows, a), keys[i]), rows[keys[i]])]
  {
    assert keys[..i + 1] == keys[..i] + [keys[i]];
    assert Listed(keys[..i + 1]) == Listed(keys[..i]) + {keys[i]};
  }

  lemma NoKeys(rows: map<Key, Row>, keys: seq<Key>)
    ensures Boxes(Listed(keys[..0])) == map[] && HydratedKeys(rows, Listed(keys[..0])) == map[]
  {
  }

  lemma AllKeys(rows: map<Key, Row>, keys: seq<Key>)
    requires forall key :: key in keys <==> key in rows
    ensures Boxes(Listed(keys[..|keys|])) == Boxes(rows.Keys)
    ensures HydratedKeys(rows, Listed(keys[..|keys|])) == HydratedRows(rows)
  {
    assert keys[..|keys|] == keys;
    assert Listed(keys) == rows.Keys;
  }

  lemma NoneOfBox(rows: map<Key, Row>, keys: seq<Key>, box: string, was: map<Key, Live>)
    ensures was + HydratedBox(rows, keys[..0], box) == was
  {
  }

  lemma AllOfBox(rows: map<Key, Row>, keys: seq<Key>, box: string)
    requires forall key :: key in keys <==> key in rows
    ensures HydratedBox(rows, keys[..|keys|], box) == HydratedOf(rows, box)
  {
    assert keys[..|keys|] == keys;
  }

  lemma BoxStep(rows: map<Key, Row>, keys: seq<Key>, i: nat, box: string, was: map<Key, Live>)
    requires i < |keys| && keys[i] in rows
    requires forall key :: key in was ==> key.box != box
    ensures var before := was + HydratedBox(rows, keys[..i], box);
      was + HydratedBox(rows, keys[..i + 1], box) ==
        if keys[i].box == box then before[keys[i] := Applied(LiveAt(before, keys[i]), rows[keys[i]])] else before
  {
    assert keys[..i + 1] == keys[..i] + [keys[i]];
  }
}
