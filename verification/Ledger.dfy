/**
 The charging ledger: live connectors, their persisted rows, the session table, the chart markers
 and the energies handed to the state-of-charge estimate, as steps over one state
 (ocpp/handler.go, ocpp/server.go, store/sessions.go).
 */
module Ledger {
  import opened Arithmetic
  import opened Spans
  import opened Plan
  import opened Costing

  datatype Key = Key(box: string, id: int)

  datatype Report = Report(status: string, error: string, at: int)

  /** A connector in memory. `readings` is by measurand, in the charger's units. */
  datatype Live = Live(report: Report, txn: int, tag: string, readings: map<string, real>)

  /** A connector as persisted; `txn` 0 means no transaction. */
  datatype Row = Row(report: Report, txn: int, tag: string)

  datatype Closing = Closing(stop: int, meterStop: real, energy: real, cost: real)

  /** A session is active until it has a closing. */
  datatype Session = Session(
    key: Key, txn: int, tag: string, start: int, meterStart: real, closing: Option<Closing>)

  datatype MarkerKind = PlugMark | UnplugMark | StopMark

  datatype Marker = Marker(kind: MarkerKind, at: int)

  /** Sessions, markers, and every energy the estimate was credited with. */
  datatype Books = Books(sessions: seq<Session>, markers: seq<Marker>, credits: seq<real>)

  /** `points`: the charge points in memory, and whether each is connected. */
  datatype State = State(
    points: map<string, bool>, live: map<Key, Live>, rows: map<Key, Row>,
    books: Books, rates: seq<Rate>, nextTxn: int)

  const IDLE := Live(Report("Available", "", 0), 0, "", map[])

  const NO_ROW := Row(Report("", "", 0), 0, "")

  const INITIAL := State(map[], map[], map[], Books([], [], []), [], 1)

  function LiveAt(live: map<Key, Live>, key: Key): Live { if key in live then live[key] else IDLE }

  function RowAt(rows: map<Key, Row>, key: Key): Row { if key in rows then rows[key] else NO_ROW }

  // ----- the session table -----

  /** `ActiveSession`: the first active row. */
  function FirstActive(sessions: seq<Session>): (found: Option<Session>) {
    if sessions == [] then None
    else
      var n := |sessions| - 1;
      var earlier := FirstActive(sessions[..n]);
      if earlier.Some? then earlier else if sessions[n].closing.None? then Some(sessions[n]) else None
  }

  predicate IsActive(x: Session, txn: int) { x.txn == txn && x.closing.None? }

  ghost predicate HasActive(sessions: seq<Session>, txn: int) {
    exists k :: 0 <= k < |sessions| && IsActive(sessions[k], txn)
  }

  /** `StopSession`: the update is gated on the row being active. */
  function CloseRows(sessions: seq<Session>, txn: int, c: Closing): seq<Session> {
    seq(|sessions|, i requires 0 <= i < |sessions| =>
      if IsActive(sessions[i], txn) then sessions[i].(closing := Some(c)) else sessions[i])
  }

  /** Closes a session and, if a row was closed, marks the stop. */
  ghost function Record(b: Books, txn: int, c: Closing): Books {
    Books(
      CloseRows(b.sessions, txn, c),
      b.markers + (if HasActive(b.sessions, txn) then [Marker(StopMark, c.stop)] else []),
      b.credits)
  }

  // ----- handlers -----

  predicate IsStopStatus(status: string) {
    status == "SuspendedEV" || status == "SuspendedEVSE" || status == "Finishing" || status == "Faulted"
  }

  /** Markers fire on transitions of the persisted status only. */
  function Transition(rows: map<Key, Row>, key: Key, r: Report): seq<Marker> {
    if key in rows && rows[key].report.status == r.status then []
    else if r.status == "Preparing" then [Marker(PlugMark, r.at)]
    else if r.status == "Available" && key in rows && rows[key].report.status != "" then [Marker(UnplugMark, r.at)]
    else []
  }

  /** The first half of `OnStatusNotification`; connector 0 stands for the charger and is not persisted. */
  function Noted(s: State, key: Key, r: Report): State {
    s.(live := if key.box in s.points then s.live[key := LiveAt(s.live, key).(report := r)] else s.live,
       rows := if key.id > 0 then s.rows[key := RowAt(s.rows, key).(report := r)] else s.rows,
       books := if key.id > 0 then s.books.(markers := s.books.markers + Transition(s.rows, key, r)) else s.books)
  }

  const ENERGY := "Energy.Active.Import.Register"

  /** `currentEnergyKWh`: in memory first, else what the event log (`logged`) still has. */
  function EnergyReading(s: State, key: Key, logged: Option<real>): Option<real> {
    var readings := LiveAt(s.live, key).readings;
    if key.box in s.points && ENERGY in readings then Some(readings[ENERGY] / 1000.0)
    else if key.box in s.points && ENERGY + ".N" in readings then Some(readings[ENERGY + ".N"] / 1000.0)
    else logged
  }

  /** `finalizeSessionOnStop`. */
  ghost function Finalize(s: State, key: Key, at: int, logged: Option<real>): Books {
    var txn := RowAt(s.rows, key).txn;
    var active := FirstActive(s.books.sessions);
    var reading := EnergyReading(s, key, logged);
    if txn == 0 || active.None? || active.value.txn != txn || reading.None? then s.books
    else
      var energy := reading.value - active.value.meterStart;
      if energy <= 0.0 || !HasActive(s.books.sessions, txn) then s.books
      else
        var cost := SessionCost(s.rates, active.value.start, at, energy);
        Record(s.books, txn, Closing(at, reading.value, energy, cost)).(credits := s.books.credits + [energy])
  }

  ghost function OnStatus(s: State, key: Key, r: Report, logged: Option<real>): State {
    var noted := Noted(s, key, r);
    if IsStopStatus(r.status) then noted.(books := Finalize(noted, key, r.at, logged)) else noted
  }

  /** `OnStartTransaction`; a transaction id is unique in the table, so a repeated one is not inserted. */
  ghost function OnStart(s: State, key: Key, tag: string, at: int, meterWh: int): State {
    var txn := s.nextTxn;
    var session := Session(key, txn, tag, at, meterWh as real / 1000.0, None);
    s.(nextTxn := txn + 1,
       live := if key.box in s.points then s.live[key := LiveAt(s.live, key).(txn := txn, tag := tag)] else s.live,
       rows := s.rows[key := RowAt(s.rows, key).(txn := txn, tag := tag)],
       books := s.books.(sessions := Inserted(s.books.sessions, session)))
  }

  ghost function Inserted(sessions: seq<Session>, session: Session): seq<Session> {
    if exists k :: 0 <= k < |sessions| && sessions[k].txn == session.txn then sessions else sessions + [session]
  }

  /** Which connector a stop request may be matched with: any that shows the transaction. */
  ghost predicate Matches(s: State, box: string, txn: int, found: Option<int>) {
    match found
    case Some(id) => box in s.points && Key(box, id) in s.live && s.live[Key(box, id)].txn == txn
    case None => forall key :: key in s.live && key.box == box && box in s.points ==> s.live[key].txn != txn
  }

  const ZEROED: set<string> := {
    "Power.Active.Import", "Power.Active.Import.L1", "Power.Active.Import.L2", "Power.Active.Import.L3",
    "Current.Import", "Current.Import.L1", "Current.Import.L2", "Current.Import.L3",
    "Current.Offered", "Current.Offered.L1", "Current.Offered.L2", "Current.Offered.L3"}

  /** Power and current drop to zero with the transaction; energy and voltage keep their readings. */
  function Released(l: Live): Live {
    l.(txn := 0, tag := "",
       readings := map m | m in l.readings :: if m in ZEROED then 0.0 else l.readings[m])
  }

  /** What a stop request records: energy only if the active session is the one being stopped. */
  function StopClosing(sessions: seq<Session>, rates: seq<Rate>, txn: int, at: int, meterWh: int): Closing {
    var kwh := meterWh as real / 1000.0;
    var active := FirstActive(sessions);
    if active.Some? && active.value.txn == txn then
      var energy := kwh - active.value.meterStart;
      Closing(at, kwh, energy, SessionCost(rates, active.value.start, at, energy))
    else Closing(at, kwh, 0.0, 0.0)
  }

  /** The matched connector loses the transaction, in memory and, above 0, in its row. */
  function Freed(s: State, box: string, found: Option<int>): State {
    if found.None? then s
    else
      var key := Key(box, found.value);
      s.(live := s.live[key := Released(LiveAt(s.live, key))],
         rows := if key.id > 0 then s.rows[key := RowAt(s.rows, key).(txn := 0, tag := "")] else s.rows)
  }

  /** Completes the session and credits its energy, if positive. */
  ghost function Complete(b: Books, rates: seq<Rate>, txn: int, at: int, meterWh: int): Books {
    var c := StopClosing(b.sessions, rates, txn, at, meterWh);
    Record(b, txn, c).(credits := b.credits + if c.energy > 0.0 then [c.energy] else [])
  }

  /** `OnStopTransaction`. */
  ghost function OnStop(s: State, box: string, txn: int, at: int, meterWh: int, found: Option<int>): State {
    Freed(s, box, found).(books := Complete(s.books, s.rates, txn, at, meterWh))
  }

  // ----- connections and restarts -----

  /** `applyConnectorState`. */
  function Applied(l: Live, row: Row): Live {
    if row.txn != 0 then l.(report := row.report, txn := row.txn, tag := row.tag) else l.(report := row.report)
  }

  /** A new connector brought up to its persisted row. */
  function Hydrated(row: Row): Live { Applied(IDLE, row) }

  function HydratedRows(rows: map<Key, Row>): map<Key, Live> {
    map key | key in rows :: Hydrated(rows[key])
  }

  /** The persisted connectors of one charge point. */
  function HydratedOf(rows: map<Key, Row>, box: string): map<Key, Live> {
    map key | key in rows && key.box == box :: Hydrated(rows[key])
  }

  function OnConnect(s: State, box: string): State {
    s.(points := s.points[box := true],
       live := if box in s.points then s.live else s.live + HydratedOf(s.rows, box))
  }

  function OnDisconnect(s: State, box: string): State {
    if box in s.points then s.(points := s.points[box := false]) else s
  }

  /** `OnBootNotification`. A charge point not seen before is added without its persisted rows. */
  function OnBoot(s: State, box: string): State {
    s.(points := s.points[box := true])
  }

  function OnMeterValues(s: State, key: Key, readings: map<string, real>): State {
    if key.box in s.points
    then s.(live := s.live[key := LiveAt(s.live, key).(readings := LiveAt(s.live, key).readings + readings)])
    else s
  }

  function MaxTxn(sessions: seq<Session>): int {
    if sessions == [] then 0 else Max(MaxTxn(sessions[..|sessions| - 1]), sessions[|sessions| - 1].txn)
  }

  /** Every charge point named by a row, not connected yet. */
  function Boxes(keys: set<Key>): map<string, bool> { map key | key in keys :: key.box := false }

  /** A new process on the same store: `NewServer`. */
  function Restarted(s: State): State {
    s.(points := Boxes(s.rows.Keys),
       live := HydratedRows(s.rows),
       nextTxn := MaxTxn(s.books.sessions) + 1)
  }

  datatype Event =
    | Connect(box: string)
    | Disconnect(box: string)
    | Boot(box: string)
    | Status(key: Key, report: Report, logged: Option<real>)
    | Meter(key: Key, readings: map<string, real>)
    | Start(key: Key, tag: string, at: int, meterWh: int)
    | Stop(box: string, txn: int, at: int, meterWh: int, found: Option<int>)
    | Restart
    | Reprice(rates: seq<Rate>)

  ghost function Step(s: State, e: Event): State {
    match e
    case Connect(box) => OnConnect(s, box)
    case Disconnect(box) => OnDisconnect(s, box)
    case Boot(box) => OnBoot(s, box)
    case Status(key, report, logged) => OnStatus(s, key, report, logged)
    case Meter(key, readings) => OnMeterValues(s, key, readings)
    case Start(key, tag, at, meterWh) => OnStart(s, key, tag, at, meterWh)
    case Stop(box, txn, at, meterWh, found) => OnStop(s, box, txn, at, meterWh, found)
    case Restart => Restarted(s)
    case Reprice(rates) => s.(rates := rates)
  }

  ghost function Run(events: seq<Event>): State {
    if events == [] then INITIAL else Step(Run(events[..|events| - 1]), events[|events| - 1])
  }

  /** Every stop was matched with a connector as the handler's search would. */
  ghost predicate Matched(events: seq<Event>) {
    events != [] ==>
      var n := |events| - 1;
      var e := events[n];
      Matched(events[..n]) && (e.Stop? ==> Matches(Run(events[..n]), e.box, e.txn, e.found))
  }
}
