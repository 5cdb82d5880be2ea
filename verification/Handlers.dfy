/** What each charger message does to the ledger, in fields (ocpp/handler.go). */
module Handlers {
  import opened Spans
  import opened Plan
  import opened Costing
  import opened Ledger
  import opened LedgerLaws

  // ----- an early closing -----

  /** The reading a closing works with: the register in Wh, else its phase N, else what the event log has, in kWh. */
  lemma ReadingExactly(s: State, key: Key, logged: Option<real>)
    ensures var known := key.box in s.points && key in s.live;
      EnergyReading(s, key, logged) ==
        if known && "Energy.Active.Import.Register" in s.live[key].readings
        then Some(s.live[key].readings["Energy.Active.Import.Register"] / 1000.0)
        else if known && "Energy.Active.Import.Register.N" in s.live[key].readings
        then Some(s.live[key].readings["Energy.Active.Import.Register.N"] / 1000.0)
        else logged
  {
    assert ENERGY + ".N" == "Energy.Active.Import.Register.N";
  }

  lemma {:induction false} FirstActiveIs(sessions: seq<Session>, k: nat)
    requires k < |sessions| && sessions[k].closing.None? && forall j :: 0 <= j < k ==> sessions[j].closing.Some?
    ensures FirstActive(sessions) == Some(sessions[k])
  {
    var n := |sessions| - 1;
    if k < n { FirstActiveIs(sessions[..n], k); } else { NoneActive(sessions[..n]); }
  }

  lemma {:induction false} NoneActive(sessions: seq<Session>)
    requires forall j :: 0 <= j < |sessions| ==> sessions[j].closing.Some?
    ensures FirstActive(sessions).None?
  {
    if sessions != [] { NoneActive(sessions[..|sessions| - 1]); }
  }

  /**
   A status that means charging has ceased closes the session of the connector's persisted transaction, if that
   is the first one active and has drawn energy: with the difference, its cost, one stop marker and one credit.
   */
  lemma StatusCloses(s: State, key: Key, r: Report, logged: Option<real>, k: nat, kwh: real)
    requires Ascending(s.books.sessions)
    requires r.status in {"SuspendedEV", "SuspendedEVSE", "Finishing", "Faulted"}
    requires key in s.rows && s.rows[key].txn != 0 && k < |s.books.sessions|
    requires s.books.sessions[k].closing.None? && s.books.sessions[k].txn == s.rows[key].txn
    requires forall j :: 0 <= j < k ==> s.books.sessions[j].closing.Some?
    requires EnergyReading(s, key, logged) == Some(kwh) && kwh > s.books.sessions[k].meterStart
    ensures var b, x, after := s.books, s.books.sessions[k], OnStatus(s, key, r, logged);
      var energy := kwh - x.meterStart;
      after.books == Books(
        b.sessions[k := x.(closing := Some(Closing(r.at, kwh, energy, SessionCost(s.rates, x.start, r.at, energy))))],
        b.markers + [Marker(StopMark, r.at)],
        b.credits + [energy])
  {
    var noted, x := Noted(s, key, r), s.books.sessions[k];
    FirstActiveIs(s.books.sessions, k);
    assert noted.books == s.books by { assert s.books.markers + [] == s.books.markers; }
    assert EnergyReading(noted, key, logged) == EnergyReading(s, key, logged);
    assert RowAt(noted.rows, key).txn == x.txn && noted.rates == s.rates;
    assert IsActive(s.books.sessions[k], x.txn);
    var energy := kwh - x.meterStart;
    hide SessionCost, EnergyReading, FirstActive, Noted;
    var c := Closing(r.at, kwh, energy, SessionCost(s.rates, x.start, r.at, energy));
    assert CloseRows(s.books.sessions, x.txn, c) == s.books.sessions[k := x.(closing := Some(c))];
  }

  /** In every other case the sessions and the credits stay as they are. */
  lemma StatusLeavesOpen(s: State, key: Key, r: Report, logged: Option<real>)
    requires
      || r.status !in {"SuspendedEV", "SuspendedEVSE", "Finishing", "Faulted"}
      || key !in s.rows || s.rows[key].txn == 0
      || FirstActive(s.books.sessions).None? || FirstActive(s.books.sessions).value.txn != s.rows[key].txn
      || EnergyReading(s, key, logged).None?
      || EnergyReading(s, key, logged).value <= FirstActive(s.books.sessions).value.meterStart
    ensures var after := OnStatus(s, key, r, logged).books;
      after.sessions == s.books.sessions && after.credits == s.books.credits
  {
    assert EnergyReading(Noted(s, key, r), key, logged) == EnergyReading(s, key, logged);
    hide SessionCost, EnergyReading, FirstActive, Transition;
  }

  // ----- statuses -----

  /**
   A status is shown in memory for a known charge point, persisted with its transaction for a connector above 0,
   and marks a car plugged in when it becomes Preparing, unplugged when it becomes Available from something else.
   */
  lemma StatusIsNoted(s: State, key: Key, r: Report, other: Key)
    ensures var t := Noted(s, key, r);
      && LiveAt(t.live, other) == (
           if other == key && key.box in s.points then LiveAt(s.live, other).(report := r) else LiveAt(s.live, other))
      && RowAt(t.rows, other) == (
           if other == key && key.id > 0 then RowAt(s.rows, other).(report := r) else RowAt(s.rows, other))
      && t.books.sessions == s.books.sessions && t.books.credits == s.books.credits
      && t.books.markers == s.books.markers + (
           if key.id <= 0 then []
           else if r.status == "Preparing" && (key in s.rows ==> s.rows[key].report.status != "Preparing")
           then [Marker(PlugMark, r.at)]
           else if r.status == "Available" && key in s.rows && s.rows[key].report.status !in {"", "Available"}
           then [Marker(UnplugMark, r.at)]
           else [])
  {
    assert s.books.markers + [] == s.books.markers;
  }

  // ----- transactions -----

  /** A start hands out the next id, shows it in memory and in the row, and opens its session. */
  lemma StartShows(s: State, key: Key, tag: string, at: int, meterWh: int, other: Key)
    requires Sane(s)
    ensures var t := OnStart(s, key, tag, at, meterWh);
      && LiveAt(t.live, other) == (
           if other == key && key.box in s.points then LiveAt(s.live, other).(txn := s.nextTxn, tag := tag)
           else LiveAt(s.live, other))
      && RowAt(t.rows, other) == (
           if other == key then RowAt(s.rows, other).(txn := s.nextTxn, tag := tag) else RowAt(s.rows, other))
      && t.books == s.books.(sessions :=
           s.books.sessions + [Session(key, s.nextTxn, tag, at, meterWh as real / 1000.0, None)])
      && t.points == s.points && t.rates == s.rates
  {
    StartKeeps(s, key, tag, at, meterWh);
    hide Inserted, Sane;
  }

  /** Power and current, in all phases, read 0 after a stop; nothing else that was read changes. */
  lemma ReleasedReadings(l: Live, m: string)
    ensures var r := Released(l);
      var zeroed := {
        "Power.Active.Import", "Power.Active.Import.L1", "Power.Active.Import.L2", "Power.Active.Import.L3",
        "Current.Import", "Current.Import.L1", "Current.Import.L2", "Current.Import.L3",
        "Current.Offered", "Current.Offered.L1", "Current.Offered.L2", "Current.Offered.L3"};
      && r.report == l.report && r.txn == 0 && r.tag == "" && r.readings.Keys == l.readings.Keys
      && (m in l.readings ==> r.readings[m] == if m in zeroed then 0.0 else l.readings[m])
  {
  }

  /** A stop frees the connector it is matched with, in memory and above 0 in its row, and no other. */
  lemma StopFrees(s: State, box: string, txn: int, at: int, meterWh: int, found: Option<int>, other: Key)
    requires Matches(s, box, txn, found)
    ensures var t := OnStop(s, box, txn, at, meterWh, found);
      var hit := found.Some? && other == Key(box, found.value);
      && LiveAt(t.live, other) == (if hit then Released(LiveAt(s.live, other)) else LiveAt(s.live, other))
      && RowAt(t.rows, other) == (
           if hit && other.id > 0 then RowAt(s.rows, other).(txn := 0, tag := "") else RowAt(s.rows, other))
      && t.points == s.points && t.nextTxn == s.nextTxn
  {
    hide Released, Complete;
  }

  /** A stop closes its session if it is open, marks that, and credits the energy it records, if any. */
  lemma StopBooks(s: State, box: string, txn: int, at: int, meterWh: int, found: Option<int>)
    requires Ascending(s.books.sessions)
    ensures var b, after := s.books, OnStop(s, box, txn, at, meterWh, found).books;
      var first := FirstActive(b.sessions);
      var kwh := meterWh as real / 1000.0;
      var mine := first.Some? && first.value.txn == txn;
      var energy := if mine then kwh - first.value.meterStart else 0.0;
      var cost := if mine then SessionCost(s.rates, first.value.start, at, energy) else 0.0;
      && |after.sessions| == |b.sessions|
      && (forall k :: 0 <= k < |b.sessions| ==>
            after.sessions[k] ==
              if b.sessions[k].txn == txn && b.sessions[k].closing.None?
              then b.sessions[k].(closing := Some(Closing(at, kwh, energy, cost))) else b.sessions[k])
      && after.markers == b.markers + (
           if exists k :: 0 <= k < |b.sessions| && b.sessions[k].txn == txn && b.sessions[k].closing.None?
           then [Marker(StopMark, at)] else [])
      && after.credits == b.credits + (if energy > 0.0 then [energy] else [])
  {
    assert HasActive(s.books.sessions, txn) <==> exists k ::
      0 <= k < |s.books.sessions| && s.books.sessions[k].txn == txn && s.books.sessions[k].closing.None?;
    hide SessionCost, FirstActive, HasActive, Freed;
  }

  // ----- readings, connections and restarts -----

  /** New readings replace those of the same measurand, on that connector of a known charge point only. */
  lemma ReadingsAreMerged(s: State, key: Key, readings: map<string, real>, other: Key, m: string)
    ensures var t := OnMeterValues(s, key, readings);
      var was, now := LiveAt(s.live, other).readings, LiveAt(t.live, other).readings;
      && t == s.(live := t.live)
      && LiveAt(t.live, other) == LiveAt(s.live, other).(readings := now)
      && (if other == key && key.box in s.points
          then now.Keys == was.Keys + readings.Keys
            && (m in now ==> now[m] == if m in readings then readings[m] else was[m])
          else now == was)
  {
  }

  /** What a charge point's appearance brings into memory: its rows if it was unknown, nothing otherwise. */
  lemma ConnectShows(s: State, box: string, key: Key)
    requires Known(s.live, s.points)
    ensures var t := OnConnect(s, box);
      && t == s.(points := t.points, live := t.live) && t.points == s.points[box := true]
      && LiveAt(t.live, key) == (
           if key.box == box && box !in s.points && key in s.rows
           then Live(s.rows[key].report, s.rows[key].txn, if s.rows[key].txn != 0 then s.rows[key].tag else "", map[])
           else LiveAt(s.live, key))
  {
  }

  /** A boot or a disconnect sets the flag; a new process has only what was persisted, and no connection. */
  lemma OthersShow(s: State, box: string, key: Key)
    ensures OnBoot(s, box) == s.(points := s.points[box := true])
    ensures OnDisconnect(s, box) == if box in s.points then s.(points := s.points[box := false]) else s
    ensures var t := Restarted(s);
      && t.rows == s.rows && t.books == s.books && t.rates == s.rates
      && (forall b :: b in t.points <==> exists k :: k in s.rows && k.box == b)
      && (forall b :: b in t.points ==> !t.points[b])
      && LiveAt(t.live, key) == (
           if key in s.rows
           then Live(s.rows[key].report, s.rows[key].txn, if s.rows[key].txn != 0 then s.rows[key].tag else "", map[])
           else IDLE)
  {
  }

  // ----- runs -----

  /** The event is the word of a charge point that it is there, or that it is gone, or a new process. */
  predicate Arrives(e: Event, box: string) { e == Connect(box) || e == Boot(box) }

  predicate Leaves(e: Event, box: string) { e == Disconnect(box) || e == Restart }

  /** It arrived with event i and has not left since. */
  ghost predicate HereSince(events: seq<Event>, box: string, i: int) {
    0 <= i < |events| && Arrives(events[i], box) && forall j :: i < j < |events| ==> !Leaves(events[j], box)
  }

  /** After any run a charge point counts as connected exactly if it has arrived and not left since. */
  lemma {:induction false} ConnectedIsLastWord(events: seq<Event>, box: string)
    ensures var points := Run(events).points;
      box in points && points[box] <==> exists i :: HereSince(events, box, i)
  {
    if events != [] {
      var n := |events| - 1;
      ConnectedIsLastWord(events[..n], box);
      FlagStep(Run(events[..n]), events[n], box);
      hide Step, Arrives, Leaves;
      LastWord(events, box);
    }
  }

  lemma FlagStep(s: State, e: Event, box: string)
    ensures var points := Step(s, e).points;
      box in points && points[box] <==> Arrives(e, box) || (box in s.points && s.points[box] && !Leaves(e, box))
  {
    hide Finalize, Complete, Inserted, Freed, Noted;
    if e.Stop? { FreedPoints(s, e.box, e.found); }
    if e.Status? { NotedPoints(s, e.key, e.report); }
  }

  lemma FreedPoints(s: State, box: string, found: Option<int>)
    ensures Freed(s, box, found).points == s.points
  {
  }

  lemma NotedPoints(s: State, key: Key, r: Report)
    ensures Noted(s, key, r).points == s.points
  {
    hide Transition;
  }

  lemma LastWord(events: seq<Event>, box: string)
    requires events != []
    ensures var n := |events| - 1;
      (exists i :: HereSince(events, box, i)) <==>
        Arrives(events[n], box) || (!Leaves(events[n], box) && exists i :: HereSince(events[..n], box, i))
  {
    var n := |events| - 1;
    hide Arrives, Leaves;
    if i :| HereSince(events, box, i) {
      if i < n { assert HereSince(events[..n], box, i); }
    }
    if Arrives(events[n], box) { assert HereSince(events, box, n); }
    if !Leaves(events[n], box) && exists i :: HereSince(events[..n], box, i) {
      var i :| HereSince(events[..n], box, i);
      assert HereSince(events, box, i);
    }
  }

  /** Memory shows the persisted status of every known charge point's connector above 0 that has one. */
  ghost predicate ShowsStatus(s: State) {
    forall key :: key in s.rows && key.id > 0 && key.box in s.points && s.rows[key].report.status != "" ==>
      LiveAt(s.live, key).report == s.rows[key].report
  }

  lemma StepShowsStatus(s: State, e: Event)
    requires ShowsStatus(s) && Known(s.live, s.points)
    requires e.Stop? ==> Matches(s, e.box, e.txn, e.found)
    requires e.Boot? ==> e.box in s.points
    ensures ShowsStatus(Step(s, e))
  {
    hide Finalize, Complete, Inserted, Transition;
    match e
    case Status(key, r, logged) => StatusShows(s, key, r);
    case Stop(box, txn, at, meterWh, found) => FreedShows(s, box, txn, found);
    case _ =>
  }

  lemma StatusShows(s: State, key: Key, r: Report)
    requires ShowsStatus(s)
    ensures ShowsStatus(Noted(s, key, r))
  {
    hide Transition;
  }

  lemma FreedShows(s: State, box: string, txn: int, found: Option<int>)
    requires ShowsStatus(s) && Matches(s, box, txn, found)
    ensures ShowsStatus(Freed(s, box, found))
  {
  }

  /** Over every run, restarts and reconnects included, memory shows the last persisted status. */
  lemma {:induction false} StatusSurvives(events: seq<Event>)
    requires Matched(events) && BootsKnown(events)
    ensures ShowsStatus(Run(events))
  {
    if events != [] {
      var n := |events| - 1;
      assert BootsKnown(events[..n]) by {
        forall i | 0 <= i < n && events[i].Boot?
          ensures events[i].box in Run(events[..n][..i]).points
        {
          assert events[..n][..i] == events[..i];
        }
      }
      StatusSurvives(events[..n]);
      RunIsSane(events[..n]);
      assert Known(Run(events[..n]).live, Run(events[..n]).points);
      hide Sane, ShowsStatus, Step, Known;
      StepShowsStatus(Run(events[..n]), events[n]);
    }
  }
}
