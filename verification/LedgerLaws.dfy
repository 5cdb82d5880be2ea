/** What every run of charger messages, reconnects and restarts keeps in the ledger. */
module LedgerLaws {
  import opened Sorting
  import opened Spans
  import opened Plan
  import opened Costing
  import opened Ledger

  // ----- the session table only grows, and closed rows are final -----

  /** Later rows have larger transaction ids. */
  ghost predicate Ascending(sessions: seq<Session>) {
    && (forall i :: 0 <= i < |sessions| ==> sessions[i].txn > 0)
    && (forall i, j :: 0 <= i < j < |sessions| ==> sessions[i].txn < sessions[j].txn)
  }

  /** `b` is `a` later: no row is lost, an open row may have been closed, a closed row is the same. */
  ghost predicate Extends(a: seq<Session>, b: seq<Session>) {
    |a| <= |b| && forall i :: 0 <= i < |a| ==> Aged(a[i], b[i])
  }

  predicate Aged(x: Session, y: Session) {
    if x.closing.Some? then y == x else y.(closing := None) == x
  }

  lemma {:induction false} MaxTxnIsLast(sessions: seq<Session>)
    requires Ascending(sessions)
    ensures MaxTxn(sessions) == if sessions == [] then 0 else sessions[|sessions| - 1].txn
  {
    if sessions != [] { MaxTxnIsLast(sessions[..|sessions| - 1]); }
  }

  lemma {:induction false} MaxTxnIgnoresClosings(a: seq<Session>, b: seq<Session>)
    requires |a| == |b| && forall i :: 0 <= i < |a| ==> a[i].txn == b[i].txn
    ensures MaxTxn(a) == MaxTxn(b)
  {
    if a != [] { MaxTxnIgnoresClosings(a[..|a| - 1], b[..|a| - 1]); }
  }

  lemma {:induction false} FirstActiveIsActive(sessions: seq<Session>)
    ensures var f := FirstActive(sessions); f.Some? ==> f.value in sessions && f.value.closing.None?
    ensures FirstActive(sessions).None? ==> forall i :: 0 <= i < |sessions| ==> sessions[i].closing.Some?
  {
    if sessions != [] {
      var n := |sessions| - 1;
      FirstActiveIsActive(sessions[..n]);
    }
  }

  function ClosedAt(sessions: seq<Session>, k: nat, c: Closing): seq<Session>
    requires k < |sessions|
  {
    sessions[k := sessions[k].(closing := Some(c))]
  }

  /** With unique ids, closing touches one row or none. */
  lemma CloseOne(sessions: seq<Session>, txn: int, c: Closing) returns (k: int)
    requires Ascending(sessions)
    ensures -1 <= k < |sessions| && (k >= 0 <==> HasActive(sessions, txn))
    ensures k < 0 ==> CloseRows(sessions, txn, c) == sessions
    ensures k >= 0 ==> IsActive(sessions[k], txn) && CloseRows(sessions, txn, c) == ClosedAt(sessions, k, c)
  {
    if HasActive(sessions, txn) {
      k :| 0 <= k < |sessions| && IsActive(sessions[k], txn);
      assert CloseRows(sessions, txn, c) == ClosedAt(sessions, k, c);
    } else {
      k := -1;
      assert CloseRows(sessions, txn, c) == sessions;
    }
  }

  // ----- markers and credits follow the closed rows -----

  function StopTimes(markers: seq<Marker>): multiset<int> {
    if markers == [] then multiset{}
    else
      var last := markers[|markers| - 1];
      StopTimes(markers[..|markers| - 1]) + if last.kind == StopMark then multiset{last.at} else multiset{}
  }

  function ClosedTimes(sessions: seq<Session>): multiset<int> {
    if sessions == [] then multiset{}
    else
      var last := sessions[|sessions| - 1].closing;
      ClosedTimes(sessions[..|sessions| - 1]) + if last.Some? then multiset{last.value.stop} else multiset{}
  }

  /** The positive energies of completed sessions. */
  function Earned(sessions: seq<Session>): multiset<real> {
    if sessions == [] then multiset{}
    else
      var last := sessions[|sessions| - 1].closing;
      Earned(sessions[..|sessions| - 1])
        + if last.Some? && last.value.energy > 0.0 then multiset{last.value.energy} else multiset{}
  }

  function Credit(c: Closing): multiset<real> { if c.energy > 0.0 then multiset{c.energy} else multiset{} }

  /** Each stop marker is one completed session's, each credit one completed session's energy. */
  ghost predicate Squared(b: Books) {
    StopTimes(b.markers) == ClosedTimes(b.sessions) && multiset(b.credits) == Earned(b.sessions)
  }

  lemma TimesLast(sessions: seq<Session>)
    requires sessions != []
    ensures var n := |sessions| - 1;
      ClosedTimes(sessions) == ClosedTimes(sessions[..n])
        + if sessions[n].closing.Some? then multiset{sessions[n].closing.value.stop} else multiset{}
  {
  }

  lemma EarnedLast(sessions: seq<Session>)
    requires sessions != []
    ensures var n := |sessions| - 1;
      Earned(sessions) == Earned(sessions[..n])
        + if sessions[n].closing.Some? then Credit(sessions[n].closing.value) else multiset{}
  {
  }

  lemma ClosedAtLast(sessions: seq<Session>, k: nat, c: Closing)
    requires k < |sessions|
    ensures var n, after := |sessions| - 1, ClosedAt(sessions, k, c);
      && |after| == n + 1
      && (k < n ==> after[..n] == ClosedAt(sessions[..n], k, c) && after[n] == sessions[n])
      && (k == n ==> after[..n] == sessions[..n] && after[n] == sessions[n].(closing := Some(c)))
  {
  }

  lemma {:induction false} ClosingAddsTime(sessions: seq<Session>, k: nat, c: Closing)
    requires k < |sessions| && sessions[k].closing.None?
    ensures ClosedTimes(ClosedAt(sessions, k, c)) == ClosedTimes(sessions) + multiset{c.stop}
  {
    var n := |sessions| - 1;
    ClosedAtLast(sessions, k, c);
    TimesLast(sessions);
    TimesLast(ClosedAt(sessions, k, c));
    hide ClosedAt, ClosedTimes;
    if k < n { ClosingAddsTime(sessions[..n], k, c); }
  }

  lemma {:induction false} ClosingAddsCredit(sessions: seq<Session>, k: nat, c: Closing)
    requires k < |sessions| && sessions[k].closing.None?
    ensures Earned(ClosedAt(sessions, k, c)) == Earned(sessions) + Credit(c)
  {
    var n := |sessions| - 1;
    ClosedAtLast(sessions, k, c);
    EarnedLast(sessions);
    EarnedLast(ClosedAt(sessions, k, c));
    hide ClosedAt, Earned;
    if k < n { ClosingAddsCredit(sessions[..n], k, c); }
  }

  lemma {:induction false} StopTimesConcat(a: seq<Marker>, b: seq<Marker>)
    ensures StopTimes(a + b) == StopTimes(a) + StopTimes(b)
  {
    if b == [] {
      assert a + b == a;
    } else {
      var n := |b| - 1;
      assert (a + b)[..|a| + n] == a + b[..n];
      StopTimesConcat(a, b[..n]);
    }
  }

  lemma OneMarker(m: Marker)
    ensures StopTimes([m]) == if m.kind == StopMark then multiset{m.at} else multiset{}
  {
    assert [m][..0] == [];
  }

  lemma ClosedAtExtends(sessions: seq<Session>, k: nat, c: Closing)
    requires Ascending(sessions) && k < |sessions| && sessions[k].closing.None?
    ensures Ascending(ClosedAt(sessions, k, c)) && Extends(sessions, ClosedAt(sessions, k, c))
    ensures MaxTxn(ClosedAt(sessions, k, c)) == MaxTxn(sessions)
  {
    MaxTxnIgnoresClosings(sessions, ClosedAt(sessions, k, c));
  }

  /** Both handlers go through here: one row closed and one marker, or neither. */
  lemma RecordKeeps(b: Books, txn: int, c: Closing)
    requires Ascending(b.sessions)
    ensures var r := Record(b, txn, c);
      && Ascending(r.sessions) && Extends(b.sessions, r.sessions) && MaxTxn(r.sessions) == MaxTxn(b.sessions)
      && (StopTimes(b.markers) == ClosedTimes(b.sessions) ==> StopTimes(r.markers) == ClosedTimes(r.sessions))
      && Earned(r.sessions) == Earned(b.sessions) + (if HasActive(b.sessions, txn) then Credit(c) else multiset{})
  {
    var k := CloseOne(b.sessions, txn, c);
    hide Ascending, Extends, MaxTxn, StopTimes, ClosedTimes, Earned, CloseRows, HasActive, ClosedAt;
    if k >= 0 {
      ClosedAtExtends(b.sessions, k, c);
      ClosingAddsTime(b.sessions, k, c);
      ClosingAddsCredit(b.sessions, k, c);
      var mark := Marker(StopMark, c.stop);
      StopTimesConcat(b.markers, [mark]);
      OneMarker(mark);
    } else {
      assert b.markers + [] == b.markers;
      SameExtends(b.sessions);
    }
  }

  lemma SameExtends(sessions: seq<Session>)
    ensures Extends(sessions, sessions)
  {
  }

  /** A transaction held by a connector is that connector's session, with that tag. */
  ghost predicate Owned(sessions: seq<Session>, key: Key, txn: int, tag: string) {
    if txn == 0 then tag == ""
    else exists k :: 0 <= k < |sessions| && Holds(sessions[k], key, txn, tag)
  }

  predicate Holds(x: Session, key: Key, txn: int, tag: string) { x.key == key && x.txn == txn && x.tag == tag }

  lemma OwnedLater(a: seq<Session>, b: seq<Session>, key: Key, txn: int, tag: string)
    requires Extends(a, b) && Owned(a, key, txn, tag)
    ensures Owned(b, key, txn, tag)
  {
    if txn != 0 {
      var k :| 0 <= k < |a| && Holds(a[k], key, txn, tag);
      assert Aged(a[k], b[k]);
      assert Holds(b[k], key, txn, tag);
    }
  }

  /** Books that have moved on from `b`, still squared. */
  ghost predicate Progress(b: Books, r: Books) {
    && Ascending(r.sessions) && Extends(b.sessions, r.sessions)
    && MaxTxn(r.sessions) == MaxTxn(b.sessions) && Squared(r)
  }

  lemma NoProgress(b: Books)
    requires Ascending(b.sessions) && Squared(b)
    ensures Progress(b, b)
  {
  }

  /** An early closing is a positive one, of an active session, and is credited. */
  ghost predicate Settled(b: Books, txn: int, c: Closing, r: Books) {
    HasActive(b.sessions, txn) && c.energy > 0.0 && r == Record(b, txn, c).(credits := b.credits + [c.energy])
  }

  lemma FinalizeSettles(s: State, key: Key, at: int, logged: Option<real>)
    ensures var r := Finalize(s, key, at, logged);
      r == s.books || exists txn, c :: Settled(s.books, txn, c, r)
  {
    hide SessionCost, Record;
    var r := Finalize(s, key, at, logged);
    if r != s.books {
      var active := FirstActive(s.books.sessions).value;
      var kwh := EnergyReading(s, key, logged).value;
      var energy := kwh - active.meterStart;
      var c := Closing(at, kwh, energy, SessionCost(s.rates, active.start, at, energy));
      assert Settled(s.books, RowAt(s.rows, key).txn, c, r);
    }
  }

  lemma FinalizeKeeps(s: State, key: Key, at: int, logged: Option<real>)
    requires Ascending(s.books.sessions) && Squared(s.books)
    ensures Progress(s.books, Finalize(s, key, at, logged))
  {
    NoProgress(s.books);
    FinalizeSettles(s, key, at, logged);
    var r := Finalize(s, key, at, logged);
    hide *;
    if txn, c :| Settled(s.books, txn, c, r) { SettledKeeps(s.books, txn, c, r); }
  }

  lemma SettledKeeps(b: Books, txn: int, c: Closing, r: Books)
    requires Ascending(b.sessions) && Squared(b) && Settled(b, txn, c, r)
    ensures Progress(b, r)
  {
    RecordKeeps(b, txn, c);
    hide Ascending, Extends, MaxTxn, StopTimes, ClosedTimes, Earned, HasActive, CloseRows, Credit;
    CreditAdds(b, r, c);
  }

  lemma CreditAdds(b: Books, r: Books, c: Closing)
    requires multiset(b.credits) == Earned(b.sessions) && Earned(r.sessions) == Earned(b.sessions) + Credit(c)
    requires r.credits == b.credits + if c.energy > 0.0 then [c.energy] else []
    ensures multiset(r.credits) == Earned(r.sessions)
  {
    hide Earned;
  }

  // ----- every step keeps a sane state sane -----

  lemma StopProgress(s: State, box: string, txn: int, at: int, meterWh: int, found: Option<int>)
    requires Ascending(s.books.sessions) && Squared(s.books)
    ensures Progress(s.books, OnStop(s, box, txn, at, meterWh, found).books)
  {
    var r := OnStop(s, box, txn, at, meterWh, found).books;
    hide SessionCost;
    var c := StopClosing(s.books.sessions, s.rates, txn, at, meterWh);
    FirstActiveIsActive(s.books.sessions);
    assert c.energy > 0.0 ==> HasActive(s.books.sessions, txn);
    RecordKeeps(s.books, txn, c);
    hide Ascending, Extends, MaxTxn, StopTimes, ClosedTimes, Earned, HasActive, StopClosing, CloseRows;
    assert c.energy <= 0.0 ==> Credit(c) == multiset{};
    CreditAdds(s.books, r, c);
  }

  lemma TransitionMarksNoStop(rows: map<Key, Row>, key: Key, r: Report, markers: seq<Marker>)
    ensures StopTimes(markers + Transition(rows, key, r)) == StopTimes(markers)
  {
    var more := Transition(rows, key, r);
    if more != [] {
      OneMarker(more[0]);
      assert more == [more[0]];
    }
    StopTimesConcat(markers, more);
  }

  lemma StatusProgress(s: State, key: Key, r: Report, logged: Option<real>)
    requires Ascending(s.books.sessions) && Squared(s.books)
    ensures Progress(s.books, OnStatus(s, key, r, logged).books)
  {
    var noted := Noted(s, key, r);
    TransitionMarksNoStop(s.rows, key, r, s.books.markers);
    assert Squared(noted.books) && noted.books.sessions == s.books.sessions;
    NoProgress(noted.books);
    hide Squared, Finalize, Transition;
    if IsStopStatus(r.status) { FinalizeKeeps(noted, key, r.at, logged); }
  }

  lemma OpenAscends(sessions: seq<Session>, session: Session)
    requires Ascending(sessions) && session.txn == MaxTxn(sessions) + 1
    ensures Ascending(sessions + [session]) && MaxTxn(sessions + [session]) == session.txn
    ensures Inserted(sessions, session) == sessions + [session]
  {
    MaxTxnIsLast(sessions);
    hide MaxTxn;
    assert Ascending(sessions + [session]);
    MaxTxnIsLast(sessions + [session]);
  }

  lemma OpenSquares(b: Books, session: Session)
    requires Squared(b) && session.closing.None?
    ensures Squared(b.(sessions := b.sessions + [session])) && Extends(b.sessions, b.sessions + [session])
  {
    assert (b.sessions + [session])[..|b.sessions|] == b.sessions;
  }

  /** Rows and connectors own their transactions. */
  ghost predicate RowsOwned(rows: map<Key, Row>, sessions: seq<Session>) {
    forall key :: key in rows ==> Owned(sessions, key, rows[key].txn, rows[key].tag)
  }

  ghost predicate LiveOwned(live: map<Key, Live>, sessions: seq<Session>) {
    forall key :: key in live ==> Owned(sessions, key, live[key].txn, live[key].tag)
  }

  lemma OwnersLater(rows: map<Key, Row>, live: map<Key, Live>, a: seq<Session>, b: seq<Session>)
    requires Extends(a, b)
    ensures RowsOwned(rows, a) ==> RowsOwned(rows, b)
    ensures LiveOwned(live, a) ==> LiveOwned(live, b)
  {
    forall key, txn, tag | Owned(a, key, txn, tag)
      ensures Owned(b, key, txn, tag)
    {
      OwnedLater(a, b, key, txn, tag);
    }
  }

  /** The connectors of known charge points. */
  ghost predicate Known(live: map<Key, Live>, points: map<string, bool>) {
    forall key :: key in live ==> key.box in points
  }

  /** What holds in every reachable state, whatever the chargers send. */
  ghost predicate Sane(s: State) {
    && Ascending(s.books.sessions) && s.nextTxn == MaxTxn(s.books.sessions) + 1
    && Squared(s.books) && Known(s.live, s.points)
    && RowsOwned(s.rows, s.books.sessions) && LiveOwned(s.live, s.books.sessions)
  }

  lemma StepKeepsSane(s: State, e: Event)
    requires Sane(s) && (e.Stop? ==> Matches(s, e.box, e.txn, e.found))
    ensures Sane(Step(s, e)) && Extends(s.books.sessions, Step(s, e).books.sessions)
    ensures s.nextTxn <= Step(s, e).nextTxn
  {
    SameExtends(s.books.sessions);
    hide Ascending, Extends, MaxTxn, Squared, Owned;
    match e
    case Status(key, r, logged) => StatusKeeps(s, key, r, logged);
    case Start(key, tag, at, meterWh) => StartKeeps(s, key, tag, at, meterWh);
    case Stop(box, txn, at, meterWh, found) => StopKeeps(s, box, txn, at, meterWh, found);
    case Restart => RestartKeeps(s);
    case Meter(key, readings) => MeterKeeps(s, key, readings);
    case Connect(box) => ConnectKeeps(s, box);
    case Disconnect(_) =>
    case Boot(_) =>
    case Reprice(_) =>
  }

  lemma IdleOwned(sessions: seq<Session>, key: Key)
    ensures Owned(sessions, key, 0, "")
  {
  }

  lemma NotedOwned(s: State, key: Key, r: Report)
    requires Sane(s)
    ensures var t := Noted(s, key, r);
      Known(t.live, t.points) && RowsOwned(t.rows, s.books.sessions) && LiveOwned(t.live, s.books.sessions)
  {
    IdleOwned(s.books.sessions, key);
    hide Owned, Transition, Ascending, MaxTxn, Squared;
  }

  lemma StatusKeeps(s: State, key: Key, r: Report, logged: Option<real>)
    requires Sane(s)
    ensures var t := OnStatus(s, key, r, logged); Sane(t) && Extends(s.books.sessions, t.books.sessions)
  {
    StatusProgress(s, key, r, logged);
    NotedOwned(s, key, r);
    var t := OnStatus(s, key, r, logged);
    var noted := Noted(s, key, r);
    assert noted.nextTxn == s.nextTxn;
    hide Ascending, Extends, MaxTxn, Squared, RowsOwned, LiveOwned, Known, Finalize, Noted;
    OwnersLater(t.rows, t.live, s.books.sessions, t.books.sessions);
  }

  lemma StopKeeps(s: State, box: string, txn: int, at: int, meterWh: int, found: Option<int>)
    requires Sane(s) && Matches(s, box, txn, found)
    ensures var t := OnStop(s, box, txn, at, meterWh, found); Sane(t) && Extends(s.books.sessions, t.books.sessions)
  {
    StopProgress(s, box, txn, at, meterWh, found);
    var t := OnStop(s, box, txn, at, meterWh, found);
    forall key { IdleOwned(s.books.sessions, key); }
    hide Ascending, Extends, MaxTxn, Squared, Owned, StopClosing, Record;
    OwnersLater(t.rows, t.live, s.books.sessions, t.books.sessions);
  }

  lemma StartKeeps(s: State, key: Key, tag: string, at: int, meterWh: int)
    requires Sane(s)
    ensures var t := OnStart(s, key, tag, at, meterWh);
      && Sane(t) && Extends(s.books.sessions, t.books.sessions) && t.nextTxn == s.nextTxn + 1
      && t.books.sessions == s.books.sessions + [Session(key, s.nextTxn, tag, at, meterWh as real / 1000.0, None)]
  {
    var t := OnStart(s, key, tag, at, meterWh);
    var session := Session(key, s.nextTxn, tag, at, meterWh as real / 1000.0, None);
    MaxTxnIsLast(s.books.sessions);
    OpenAscends(s.books.sessions, session);
    OpenSquares(s.books, session);
    var after := s.books.sessions + [session];
    assert Owned(after, key, s.nextTxn, tag) by { assert Holds(after[|after| - 1], key, s.nextTxn, tag); }
    hide Ascending, Extends, MaxTxn, Squared, Owned, Inserted;
    OwnersLater(s.rows, s.live, s.books.sessions, after);
  }

  lemma RestartKeeps(s: State)
    requires Sane(s)
    ensures Sane(Restarted(s)) && Restarted(s).nextTxn == s.nextTxn
  {
    hide Ascending, MaxTxn, Squared;
    forall key | key in s.rows
      ensures Owned(s.books.sessions, key, Hydrated(s.rows[key]).txn, Hydrated(s.rows[key]).tag)
    {
      assert s.rows[key].txn == 0 ==> s.rows[key].tag == "";
    }
  }

  lemma ConnectKeeps(s: State, box: string)
    requires Sane(s)
    ensures Sane(OnConnect(s, box))
  {
    hide Ascending, MaxTxn, Squared;
    forall key | key in s.rows
      ensures Owned(s.books.sessions, key, Hydrated(s.rows[key]).txn, Hydrated(s.rows[key]).tag)
    {
      assert s.rows[key].txn == 0 ==> s.rows[key].tag == "";
    }
  }

  lemma MeterKeeps(s: State, key: Key, readings: map<string, real>)
    requires Sane(s)
    ensures Sane(OnMeterValues(s, key, readings))
  {
    IdleOwned(s.books.sessions, key);
    hide Ascending, MaxTxn, Squared, Owned;
  }

  // ----- runs -----

  lemma {:induction false} RunIsSane(events: seq<Event>)
    requires Matched(events)
    ensures Sane(Run(events))
  {
    if events == [] {
      assert INITIAL.books.sessions == [];
    } else {
      var n := |events| - 1;
      RunIsSane(events[..n]);
      hide Sane, Step;
      StepKeepsSane(Run(events[..n]), events[n]);
    }
  }

  lemma {:induction false} MatchedPrefix(events: seq<Event>, i: nat)
    requires Matched(events) && i <= |events|
    ensures Matched(events[..i])
  {
    if i < |events| {
      MatchedPrefix(events[..|events| - 1], i);
      assert events[..|events| - 1][..i] == events[..i];
    } else {
      assert events[..i] == events;
    }
  }

  lemma ExtendsTransitive(a: seq<Session>, b: seq<Session>, c: seq<Session>)
    requires Extends(a, b) && Extends(b, c)
    ensures Extends(a, c)
  {
    forall i | 0 <= i < |a|
      ensures Aged(a[i], c[i])
    {
      assert Aged(a[i], b[i]) && Aged(b[i], c[i]);
    }
  }

  /** What the table was at any moment, it still is, but for sessions closed since. */
  lemma {:induction false} RunExtends(events: seq<Event>, i: nat)
    requires Matched(events) && i <= |events|
    ensures Extends(Run(events[..i]).books.sessions, Run(events).books.sessions)
    ensures Run(events[..i]).nextTxn <= Run(events).nextTxn
  {
    if i == |events| {
      assert events[..i] == events;
      SameExtends(Run(events).books.sessions);
    } else {
      var n := |events| - 1;
      assert events[..n][..i] == events[..i];
      RunExtends(events[..n], i);
      RunIsSane(events[..n]);
      hide Sane, Step, Extends;
      StepKeepsSane(Run(events[..n]), events[n]);
      ExtendsTransitive(Run(events[..i]).books.sessions, Run(events[..n]).books.sessions, Run(events).books.sessions);
    }
  }

  function Stops(markers: seq<Marker>): nat {
    if markers == [] then 0
    else Stops(markers[..|markers| - 1]) + if markers[|markers| - 1].kind == StopMark then 1 else 0
  }

  function Completed(sessions: seq<Session>): nat {
    if sessions == [] then 0
    else Completed(sessions[..|sessions| - 1]) + if sessions[|sessions| - 1].closing.Some? then 1 else 0
  }

  lemma {:induction false} StopsCounted(markers: seq<Marker>)
    ensures |StopTimes(markers)| == Stops(markers)
  {
    if markers != [] { StopsCounted(markers[..|markers| - 1]); }
  }

  lemma {:induction false} CompletedCounted(sessions: seq<Session>)
    ensures |ClosedTimes(sessions)| == Completed(sessions)
  {
    if sessions != [] { CompletedCounted(sessions[..|sessions| - 1]); }
  }

  /**
   After any run there are as many stop markers as completed sessions, and they stand at the
   sessions' stop times, whichever handler closed each session.
   */
  lemma StopMarkersAreCompletions(events: seq<Event>)
    requires Matched(events)
    ensures var b := Run(events).books;
      && StopTimes(b.markers) == ClosedTimes(b.sessions)
      && Stops(b.markers) == Completed(b.sessions)
  {
    RunIsSane(events);
    StopsCounted(Run(events).books.markers);
    CompletedCounted(Run(events).books.sessions);
  }

  function Total(credits: seq<real>): real {
    if credits == [] then 0.0 else Total(credits[..|credits| - 1]) + credits[|credits| - 1]
  }

  function PositiveEnergy(sessions: seq<Session>): real {
    if sessions == [] then 0.0
    else
      var c := sessions[|sessions| - 1].closing;
      PositiveEnergy(sessions[..|sessions| - 1]) + if c.Some? && c.value.energy > 0.0 then c.value.energy else 0.0
  }

  lemma {:induction false} TotalConcat(a: seq<real>, b: seq<real>)
    ensures Total(a + b) == Total(a) + Total(b)
  {
    if b == [] {
      assert a + b == a;
    } else {
      var n := |b| - 1;
      assert (a + b)[..|a| + n] == a + b[..n];
      TotalConcat(a, b[..n]);
    }
  }

  lemma TakeOut<T>(xs: seq<T>, x: T) returns (a: seq<T>, b: seq<T>)
    requires x in multiset(xs)
    ensures xs == a + [x] + b
    ensures multiset(a + b) == multiset(xs) - multiset{x}
  {
    var k :| 0 <= k < |xs| && xs[k] == x;
    a, b := xs[..k], xs[k + 1..];
    RemoveOne(xs, k);
  }

  /** A list with the earned energies, in any order, adds up to them. */
  lemma {:induction false} TotalOfEarned(credits: seq<real>, sessions: seq<Session>)
    requires multiset(credits) == Earned(sessions)
    ensures Total(credits) == PositiveEnergy(sessions)
    decreases |sessions|
  {
    if sessions == [] {
      assert |multiset(credits)| == |credits|;
    } else {
      var n := |sessions| - 1;
      var c := sessions[n].closing;
      if c.Some? && c.value.energy > 0.0 {
        hide Total;
        var a, b := TakeOut(credits, c.value.energy);
        MiddleCredit(a, c.value.energy, b);
        TotalOfEarned(a + b, sessions[..n]);
      } else {
        TotalOfEarned(credits, sessions[..n]);
      }
    }
  }

  lemma TotalOne(x: real)
    ensures Total([x]) == x
  {
    assert [x][..0] == [];
  }

  lemma MiddleCredit(a: seq<real>, x: real, b: seq<real>)
    ensures Total(a + [x] + b) == Total(a + b) + x
  {
    TotalOne(x);
    TotalConcat(a + [x], b);
    TotalConcat(a, [x]);
    TotalConcat(a, b);
    hide *;
  }

  /**
   The estimate is credited with each completed session's positive energy exactly once, so an
   early finalize followed by a real stop is never counted twice.
   */
  lemma CreditsAreEarned(events: seq<Event>)
    requires Matched(events)
    ensures var b := Run(events).books;
      multiset(b.credits) == Earned(b.sessions) && Total(b.credits) == PositiveEnergy(b.sessions)
  {
    RunIsSane(events);
    TotalOfEarned(Run(events).books.credits, Run(events).books.sessions);
  }

  /** A closed session's stop time, energy and cost never change. */
  lemma ClosedForever(events: seq<Event>, i: nat, k: nat)
    requires Matched(events) && i <= |events| && k < |Run(events[..i]).books.sessions|
    requires Run(events[..i]).books.sessions[k].closing.Some?
    ensures k < |Run(events).books.sessions| && Run(events).books.sessions[k] == Run(events[..i]).books.sessions[k]
  {
    RunExtends(events, i);
    assert Aged(Run(events[..i]).books.sessions[k], Run(events).books.sessions[k]);
  }

  /** The step closes the transaction. */
  ghost predicate Closes(s: State, e: Event, txn: int) {
    HasActive(s.books.sessions, txn) && !HasActive(Step(s, e).books.sessions, txn)
  }

  lemma ClosedStaysClosed(a: seq<Session>, b: seq<Session>, c: seq<Session>, txn: int)
    requires HasActive(a, txn) && !HasActive(b, txn) && Extends(a, b) && Extends(b, c) && Ascending(c)
    ensures !HasActive(c, txn)
  {
    var k :| 0 <= k < |a| && IsActive(a[k], txn);
    assert Aged(a[k], b[k]) && !IsActive(b[k], txn);
    assert Aged(b[k], c[k]);
  }

  /** No transaction is closed by two steps of a run. */
  lemma ClosedOnce(events: seq<Event>, i: nat, j: nat, txn: int)
    requires Matched(events) && i < j < |events|
    requires Closes(Run(events[..i]), events[i], txn)
    ensures !Closes(Run(events[..j]), events[j], txn)
  {
    LaterExtends(events, i, j);
    hide *;
    ClosesForGood(Run(events[..i]), events[i], txn, Run(events[..j]), events[j]);
  }

  lemma LaterExtends(events: seq<Event>, i: nat, j: nat)
    requires Matched(events) && i < j < |events|
    ensures var s := Run(events[..i]);
      && Ascending(Run(events[..j]).books.sessions)
      && Extends(s.books.sessions, Step(s, events[i]).books.sessions)
      && Extends(Step(s, events[i]).books.sessions, Run(events[..j]).books.sessions)
  {
    hide Step, Extends, Ascending, MaxTxn, Squared, RowsOwned, LiveOwned, Run;
    MatchedPrefix(events, j);
    RunIsSane(events[..j]);
    StepAt(events, i);
    assert events[..j][..i + 1] == events[..i + 1];
    RunExtends(events[..j], i + 1);
  }

  lemma ClosesForGood(s: State, e: Event, txn: int, later: State, other: Event)
    requires Closes(s, e, txn) && Ascending(later.books.sessions)
    requires Extends(s.books.sessions, Step(s, e).books.sessions)
    requires Extends(Step(s, e).books.sessions, later.books.sessions)
    ensures !Closes(later, other, txn)
  {
    hide Step;
    ClosedStaysClosed(s.books.sessions, Step(s, e).books.sessions, later.books.sessions, txn);
  }

  lemma RunStep(events: seq<Event>, i: nat)
    requires i < |events|
    ensures Run(events[..i + 1]) == Step(Run(events[..i]), events[i])
  {
    assert events[..i + 1][..i] == events[..i];
    hide Step;
  }

  lemma StepAt(events: seq<Event>, i: nat)
    requires Matched(events) && i < |events|
    ensures Run(events[..i + 1]) == Step(Run(events[..i]), events[i])
    ensures Sane(Run(events[..i])) && Extends(Run(events[..i]).books.sessions, Run(events[..i + 1]).books.sessions)
  {
    hide *;
    RunStep(events, i);
    MatchedPrefix(events, i + 1);
    MatchedPrefix(events, i);
    RunIsSane(events[..i]);
    assert events[..i + 1][..i] == events[..i];
    RunExtends(events[..i + 1], i);
  }

  lemma StartStep(s: State, e: Event)
    requires Sane(s) && e.Start?
    ensures Step(s, e).nextTxn == s.nextTxn + 1
    ensures var sessions := Step(s, e).books.sessions; sessions != [] && sessions[|sessions| - 1].txn == s.nextTxn
  {
    hide Sane, OnStart;
    StartKeeps(s, e.key, e.tag, e.at, e.meterWh);
  }

  lemma StartAt(events: seq<Event>, i: nat)
    requires Matched(events) && i < |events| && events[i].Start?
    ensures Run(events[..i + 1]).nextTxn == Run(events[..i]).nextTxn + 1
    ensures var sessions := Run(events[..i + 1]).books.sessions;
      sessions != [] && sessions[|sessions| - 1].txn == Run(events[..i]).nextTxn
  {
    StepAt(events, i);
    hide *;
    StartStep(Run(events[..i]), events[i]);
  }

  /** Ids handed out later are larger, whatever restarts lie between; each goes to the session it opens. */
  lemma TxnIdsIncrease(events: seq<Event>, i: nat, j: nat)
    requires Matched(events) && i < j < |events| && events[i].Start? && events[j].Start?
    ensures Run(events[..i]).nextTxn < Run(events[..j]).nextTxn
    ensures var sessions := Run(events[..j + 1]).books.sessions;
      sessions != [] && sessions[|sessions| - 1].txn == Run(events[..j]).nextTxn
  {
    MatchedPrefix(events, j);
    StartAt(events, i);
    StartAt(events, j);
    assert events[..j][..i + 1] == events[..i + 1];
    hide Run;
    RunExtends(events[..j], i + 1);
  }

  // ----- memory and store agree -----

  predicate Same(l: Live, r: Row) { l.txn == r.txn && l.tag == r.tag }

  /** For known charge points, connectors above 0 show in memory what is persisted. */
  ghost predicate Agrees(s: State) {
    forall key: Key :: key.id > 0 && key.box in s.points ==> Same(LiveAt(s.live, key), RowAt(s.rows, key))
  }

  lemma HydratedSame(s: State)
    requires Sane(s)
    ensures forall key :: key in s.rows ==> Same(Hydrated(s.rows[key]), s.rows[key])
  {
    forall key | key in s.rows
      ensures Same(Hydrated(s.rows[key]), s.rows[key])
    {
      assert Owned(s.books.sessions, key, s.rows[key].txn, s.rows[key].tag);
    }
  }

  lemma StepKeepsAgreement(s: State, e: Event)
    requires Sane(s) && Agrees(s)
    requires e.Stop? ==> Matches(s, e.box, e.txn, e.found)
    requires e.Boot? ==> e.box in s.points
    ensures Agrees(Step(s, e))
  {
    hide Ascending, MaxTxn, Squared, RowsOwned, LiveOwned, Record, StopClosing, Finalize, Inserted, Transition;
    match e
    case Status(key, r, logged) => NotedAgrees(s, key, r);
    case Restart => HydratedSame(s);
    case Connect(box) => HydratedSame(s);
    case Stop(box, txn, at, meterWh, found) => FreedAgrees(s, box, txn, found);
    case _ =>
  }

  lemma NotedAgrees(s: State, key: Key, r: Report)
    requires Agrees(s)
    ensures Agrees(Noted(s, key, r))
  {
    hide Transition;
  }

  lemma FreedAgrees(s: State, box: string, txn: int, found: Option<int>)
    requires Agrees(s) && Matches(s, box, txn, found)
    ensures Agrees(Freed(s, box, found))
  {
  }

  /** Every boot comes from a charge point that has connected. */
  ghost predicate BootsKnown(events: seq<Event>) {
    forall i :: 0 <= i < |events| && events[i].Boot? ==> events[i].box in Run(events[..i]).points
  }

  /**
   Over any run of starts, stops, statuses, readings, disconnects, reconnects and restarts, the
   transaction and tag in memory are the persisted ones.
   */
  lemma {:induction false} RunAgrees(events: seq<Event>)
    requires Matched(events) && BootsKnown(events)
    ensures Agrees(Run(events))
  {
    if events != [] {
      var n := |events| - 1;
      assert BootsKnown(events[..n]) by {
        forall i | 0 <= i < n && events[i].Boot?
          ensures events[i].box in Run(events[..n][..i]).points
        {
          assert events[..n][..i] == events[..i];
        }
      }
      RunAgrees(events[..n]);
      RunIsSane(events[..n]);
      hide Sane, Agrees, Step;
      StepKeepsAgreement(Run(events[..n]), events[n]);
    }
  }

  /**
   `OnBootNotification` alone would not keep the agreement: a charge point it adds itself agrees
   exactly when none of its persisted connectors holds a transaction.
   */
  lemma BootOfUnknown(s: State, box: string)
    requires Sane(s) && Agrees(s) && box !in s.points
    ensures Agrees(OnBoot(s, box)) <==>
      forall key :: key in s.rows && key.box == box && key.id > 0 ==> s.rows[key].txn == 0
  {
    var t := OnBoot(s, box);
    hide Ascending, MaxTxn, Squared;
    forall key: Key | key.id > 0 && key.box == box
      ensures Same(LiveAt(t.live, key), RowAt(t.rows, key)) <==> (key in s.rows ==> s.rows[key].txn == 0)
    {
      assert key !in s.live;
      assert key in s.rows ==> Owned(s.books.sessions, key, s.rows[key].txn, s.rows[key].tag);
    }
    if forall key :: key in s.rows && key.box == box && key.id > 0 ==> s.rows[key].txn == 0 {
      forall key: Key | key.id > 0 && key.box in t.points
        ensures Same(LiveAt(t.live, key), RowAt(t.rows, key))
      {
      }
    }
  }

  lemma RunEnd(before: seq<Event>, e: Event)
    ensures Run(before + [e]) == Step(Run(before), e)
    ensures Matched(before + [e]) <==> Matched(before) && (e.Stop? ==> Matches(Run(before), e.box, e.txn, e.found))
  {
    assert (before + [e])[..|before|] == before;
  }

  /** A start before any connection leaves a row that a boot does not bring into memory. */
  function BootFirst(k: Key): seq<Event> { [Start(k, "t", 0, 0)] + [Boot(k.box)] }

  /**
   Such a run disagrees. It takes a boot that is handled before the connect handler of its charge point
   has run, which `BootsKnown` rules out; a restart hydrates every charge point that has a row.
   */
  lemma BootFirstDisagrees(k: Key)
    requires k.id > 0
    ensures Matched(BootFirst(k)) && !Agrees(Run(BootFirst(k))) && !BootsKnown(BootFirst(k))
  {
    var started := [Start(k, "t", 0, 0)];
    RunEnd([], Start(k, "t", 0, 0));
    assert [] + started == started && Run([]) == INITIAL;
    RunEnd(started, Boot(k.box));
    var s := Run(BootFirst(k));
    assert s.rows[k].txn == 1 && k.box in s.points && k !in s.live;
    assert BootFirst(k)[..1] == started && BootFirst(k)[1] == Boot(k.box);
    assert k.box !in Run(started).points;
  }

  /** At most one connector of a run shows a given transaction, so a stop finds one however it searches. */
  lemma StopIsUnambiguous(events: seq<Event>, box: string, txn: int, a: int, b: int)
    requires Matched(events) && txn != 0
    requires Matches(Run(events), box, txn, Some(a)) && Matches(Run(events), box, txn, Some(b))
    ensures a == b
  {
    var s := Run(events);
    RunIsSane(events);
    var x, y := Key(box, a), Key(box, b);
    hide MaxTxn, Squared;
    assert Owned(s.books.sessions, x, txn, s.live[x].tag) && Owned(s.books.sessions, y, txn, s.live[y].tag);
    var i :| 0 <= i < |s.books.sessions| && Holds(s.books.sessions[i], x, txn, s.live[x].tag);
    var j :| 0 <= j < |s.books.sessions| && Holds(s.books.sessions[j], y, txn, s.live[y].tag);
  }

  // ----- what a closing records -----

  /**
   A stop that closes a session records the energy since its start exactly when that session is the
   one `ActiveSession` returns, or nothing was drawn; an older session left open makes it record 0.
   */
  lemma StopRecordsEnergy(s: State, k: nat, at: int, meterWh: int)
    requires Sane(s) && k < |s.books.sessions| && s.books.sessions[k].closing.None?
    ensures var x := s.books.sessions[k];
      var c := StopClosing(s.books.sessions, s.rates, x.txn, at, meterWh);
      && CloseRows(s.books.sessions, x.txn, c)[k].closing == Some(c)
      && (c.energy == meterWh as real / 1000.0 - x.meterStart <==>
            FirstActive(s.books.sessions) == Some(x) || meterWh as real / 1000.0 == x.meterStart)
      && (FirstActive(s.books.sessions) == Some(x) ==> c.cost == SessionCost(s.rates, x.start, at, c.energy))
  {
    var x := s.books.sessions[k];
    FirstActiveIsActive(s.books.sessions);
    hide SessionCost, MaxTxn, Squared;
    var f := FirstActive(s.books.sessions).value;
    var i :| 0 <= i < |s.books.sessions| && s.books.sessions[i] == f;
    assert f.txn == x.txn ==> i == k;
  }

  /** One connector, two starts, and a stop of the second session after 4000 seconds and 7 kWh. */
  function TwoStarts(k: Key): seq<Event> { [Connect(k.box), Start(k, "t", 0, 0)] + [Start(k, "t", 100, 5000)] }

  lemma TwoStartsState(k: Key)
    ensures Matched(TwoStarts(k))
    ensures var s := Run(TwoStarts(k));
      && s.books.sessions == [Session(k, 1, "t", 0, 0.0, None), Session(k, 2, "t", 100, 5.0, None)]
      && k.box in s.points && k in s.live && s.live[k].txn == 2
  {
    var first := [Connect(k.box)];
    var second := first + [Start(k, "t", 0, 0)];
    RunEnd([], Connect(k.box));
    assert [] + first == first && Run([]) == INITIAL && Matched([]);
    RunEnd(first, Start(k, "t", 0, 0));
    assert Run(second).books.sessions == [Session(k, 1, "t", 0, 0.0, None)];
    assert second == [Connect(k.box), Start(k, "t", 0, 0)];
    RunEnd(second, Start(k, "t", 100, 5000));
  }

  lemma FirstOfTwo(a: Session, b: Session)
    requires a.closing.None?
    ensures FirstActive([a, b]) == Some(a)
  {
    assert [a][..0] == [];
    assert FirstActive([a]) == Some(a);
    assert [a, b][..1] == [a];
  }

  /** The stop matches its connector, closes its own session, and records no energy for the 7 kWh drawn. */
  lemma StopBehindAnOpenSession(k: Key)
    ensures var events := TwoStarts(k) + [Stop(k.box, 2, 4000, 12000, Some(k.id))];
      var sessions := Run(events).books.sessions;
      && Matched(events) && |sessions| == 2 && sessions[0].closing.None?
      && sessions[1].closing == Some(Closing(4000, 12.0, 0.0, 0.0)) && 12.0 - sessions[1].meterStart == 7.0
  {
    var before := TwoStarts(k);
    var a, b := Session(k, 1, "t", 0, 0.0, None), Session(k, 2, "t", 100, 5.0, None);
    TwoStartsState(k);
    assert Key(k.box, k.id) == k;
    FirstOfTwo(a, b);
    hide TwoStarts, FirstActive, SessionCost;
    RunEnd(before, Stop(k.box, 2, 4000, 12000, Some(k.id)));
    assert StopClosing([a, b], Run(before).rates, 2, 4000, 12000) == Closing(4000, 12.0, 0.0, 0.0);
  }

  /** A closed session used what its meter shows, or was recorded without energy and cost. */
  predicate MeteredRow(x: Session, c: Closing) {
    c.energy == c.meterStop - x.meterStart || (c.energy == 0.0 && c.cost == 0.0)
  }

  ghost predicate Metered(sessions: seq<Session>) {
    forall k :: 0 <= k < |sessions| && sessions[k].closing.Some? ==> MeteredRow(sessions[k], sessions[k].closing.value)
  }

  lemma RecordMetered(b: Books, txn: int, c: Closing)
    requires Metered(b.sessions)
    requires forall k :: 0 <= k < |b.sessions| && IsActive(b.sessions[k], txn) ==> MeteredRow(b.sessions[k], c)
    ensures Metered(Record(b, txn, c).sessions)
  {
  }

  /** The active session found is the only one with its transaction. */
  lemma OnlyActive(sessions: seq<Session>, txn: int, k: nat)
    requires Ascending(sessions) && k < |sessions| && sessions[k].txn == txn
    requires FirstActive(sessions).Some? && FirstActive(sessions).value.txn == txn
    ensures sessions[k] == FirstActive(sessions).value
  {
    FirstActiveIsActive(sessions);
  }

  lemma FinalizeMetered(s: State, key: Key, at: int, logged: Option<real>)
    requires Ascending(s.books.sessions) && Metered(s.books.sessions)
    ensures Metered(Finalize(s, key, at, logged).sessions)
  {
    var txn := RowAt(s.rows, key).txn;
    var reading := EnergyReading(s, key, logged);
    var active := FirstActive(s.books.sessions);
    if active.Some? && active.value.txn == txn && reading.Some? {
      var energy := reading.value - active.value.meterStart;
      hide SessionCost, Record, Metered;
      var c := Closing(at, reading.value, energy, SessionCost(s.rates, active.value.start, at, energy));
      forall k | 0 <= k < |s.books.sessions| && IsActive(s.books.sessions[k], txn)
        ensures MeteredRow(s.books.sessions[k], c)
      {
        OnlyActive(s.books.sessions, txn, k);
      }
      RecordMetered(s.books, txn, c);
    }
  }

  lemma CompleteMetered(b: Books, rates: seq<Rate>, txn: int, at: int, meterWh: int)
    requires Ascending(b.sessions) && Metered(b.sessions)
    ensures Metered(Complete(b, rates, txn, at, meterWh).sessions)
  {
    hide SessionCost;
    var c := StopClosing(b.sessions, rates, txn, at, meterWh);
    forall k | 0 <= k < |b.sessions| && IsActive(b.sessions[k], txn)
      ensures MeteredRow(b.sessions[k], c)
    {
      if FirstActive(b.sessions).Some? && FirstActive(b.sessions).value.txn == txn { OnlyActive(b.sessions, txn, k); }
    }
    hide Record, StopClosing;
    RecordMetered(b, txn, c);
  }

  lemma StepMetered(s: State, e: Event)
    requires Sane(s) && Metered(s.books.sessions)
    ensures Metered(Step(s, e).books.sessions)
  {
    assert Ascending(s.books.sessions);
    hide Ascending, MaxTxn, Squared, RowsOwned, LiveOwned, Finalize, Complete, Transition, MeteredRow;
    if e.Status? {
      FinalizeMetered(Noted(s, e.key, e.report), e.key, e.report.at, e.logged);
    } else if e.Stop? {
      CompleteMetered(s.books, s.rates, e.txn, e.at, e.meterWh);
    }
  }

  /** After any run every completed session's energy is its meter's difference, or it has neither energy nor cost. */
  lemma {:induction false} SessionsAreMetered(events: seq<Event>)
    requires Matched(events)
    ensures Metered(Run(events).books.sessions)
  {
    if events != [] {
      var n := |events| - 1;
      SessionsAreMetered(events[..n]);
      RunIsSane(events[..n]);
      hide Sane, Step, Metered;
      StepMetered(Run(events[..n]), events[n]);
    }
  }

  // ----- markers fire on real transitions only -----

  /** Plug and unplug markers. */
  function PlugMarks(markers: seq<Marker>): nat {
    if markers == [] then 0
    else PlugMarks(markers[..|markers| - 1]) + if markers[|markers| - 1].kind == StopMark then 0 else 1
  }

  lemma {:induction false} PlugMarksConcat(a: seq<Marker>, b: seq<Marker>)
    ensures PlugMarks(a + b) == PlugMarks(a) + PlugMarks(b)
  {
    if b == [] {
      assert a + b == a;
    } else {
      var n := |b| - 1;
      assert (a + b)[..|a| + n] == a + b[..n];
      PlugMarksConcat(a, b[..n]);
    }
  }

  /** Nothing but a status notification for this connector changes its persisted status. */
  lemma StatusIsKept(s: State, e: Event, key: Key)
    requires !(e.Status? && e.key == key) && key in s.rows
    ensures key in Step(s, e).rows && Step(s, e).rows[key].report == s.rows[key].report
  {
    hide Finalize, Record, StopClosing, Inserted, Transition;
  }

  lemma {:induction false} StatusIsKeptOver(before: seq<Event>, between: seq<Event>, key: Key)
    requires key in Run(before).rows
    requires forall i :: 0 <= i < |between| ==> !(between[i].Status? && between[i].key == key)
    ensures key in Run(before + between).rows
    ensures Run(before + between).rows[key].report == Run(before).rows[key].report
  {
    if between == [] {
      assert before + between == before;
    } else {
      var n := |between| - 1;
      assert (before + between)[..|before| + n] == before + between[..n];
      StatusIsKeptOver(before, between[..n], key);
      hide Step;
      StatusIsKept(Run(before + between[..n]), between[n], key);
    }
  }

  /**
   A charger that repeats its status, however many restarts and reconnects lie between, adds no
   plug or unplug marker.
   */
  lemma RepeatedStatusIsSilent(
    before: seq<Event>, between: seq<Event>, key: Key, r: Report, logged: Option<real>, again: Report,
    log: Option<real>)
    requires key.id > 0 && again.status == r.status
    requires forall i :: 0 <= i < |between| ==> !(between[i].Status? && between[i].key == key)
    ensures var s := Run(before + [Status(key, r, logged)] + between);
      PlugMarks(Step(s, Status(key, again, log)).books.markers) == PlugMarks(s.books.markers)
  {
    var first := before + [Status(key, r, logged)];
    StatusIsPersisted(before, key, r, logged);
    StatusIsKeptOver(first, between, key);
    StatusAgainIsSilent(Run(first + between), key, again, log);
  }

  lemma StatusIsPersisted(before: seq<Event>, key: Key, r: Report, logged: Option<real>)
    requires key.id > 0
    ensures var s := Run(before + [Status(key, r, logged)]); key in s.rows && s.rows[key].report == r
  {
    var first := before + [Status(key, r, logged)];
    assert first[..|before|] == before && first[|before|] == Status(key, r, logged);
    assert Run(first) == Step(Run(before), Status(key, r, logged));
    hide Run, Finalize, Transition;
  }

  lemma StatusAgainIsSilent(s: State, key: Key, again: Report, logged: Option<real>)
    requires key in s.rows && s.rows[key].report.status == again.status
    ensures PlugMarks(Step(s, Status(key, again, logged)).books.markers) == PlugMarks(s.books.markers)
  {
    NotedAgain(s, key, again);
    FinalizeAddsNoPlug(Noted(s, key, again), key, again.at, logged);
    hide Noted, Finalize, PlugMarks;
  }

  lemma NotedAgain(s: State, key: Key, again: Report)
    requires key in s.rows && s.rows[key].report.status == again.status
    ensures Noted(s, key, again).books.markers == s.books.markers
  {
  }

  lemma FinalizeAddsNoPlug(s: State, key: Key, at: int, logged: Option<real>)
    ensures PlugMarks(Finalize(s, key, at, logged).markers) == PlugMarks(s.books.markers)
  {
    var r := Finalize(s, key, at, logged);
    assert r.markers == s.books.markers || r.markers == s.books.markers + [Marker(StopMark, at)];
    PlugMarksConcat(s.books.markers, [Marker(StopMark, at)]);
    assert PlugMarks([Marker(StopMark, at)]) == 0 by { assert [Marker(StopMark, at)][..0] == []; }
  }
}
