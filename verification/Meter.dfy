/** A cumulative meter that survives counter resets and restarts (meter/meter.go, store/meter.go). */
module Meter {
  import opened Plan

  /** A smaller drop than this, in Wh, is noise and not a reset. */
  const RESET_THRESHOLD := 1000.0

  /** Seconds between two stored readings. */
  const STORE_INTERVAL := 60

  datatype Reading = Reading(at: int, wh: real)

  /** What a restart keeps: the offset setting and the stored readings. */
  class Table {
    var offset: real
    var readings: seq<Reading>

    constructor ()
      ensures offset == 0.0 && readings == []
    {
      offset, readings := 0.0, [];
    }
  }

  datatype Energy = Energy(offset: real, last: real, inited: bool)

  const UNLOADED := Energy(0.0, 0.0, false)

  function LastStored(readings: seq<Reading>, otherwise: real): real {
    if readings == [] then otherwise else readings[|readings| - 1].wh
  }

  /** `initEnergyState`. */
  function Loaded(e: Energy, saved: real, readings: seq<Reading>): Energy {
    if e.inited then e else Energy(saved, LastStored(readings, e.last), true)
  }

  predicate Resets(e: Energy, raw: real) { e.last > 0.0 && raw + e.offset < e.last - RESET_THRESHOLD }

  /** `adjustEnergy`; the effective value is the new `last`. */
  function Adjusted(e: Energy, raw: real): Energy {
    if Resets(e, raw) then e.(offset := e.offset + (e.last - (raw + e.offset)))
    else if raw + e.offset < e.last then e
    else e.(last := raw + e.offset)
  }

  /** A sensor missing from a response reads as 0. */
  function Raw(response: Option<real>): real { if response.Some? then response.value else 0.0 }

  predicate StoreDue(lastStore: Option<int>, at: int) { lastStore.None? || at - lastStore.value >= STORE_INTERVAL }

  class Poller {
    const table: Table
    var lastStore: Option<int>
    var energyOffset: real
    var lastEffective: real
    var energyInited: bool

    ghost function View(): Energy
      reads this
    {
      Energy(energyOffset, lastEffective, energyInited)
    }

    constructor (table: Table)
      ensures this.table == table && View() == UNLOADED && lastStore == None
    {
      this.table := table;
      energyOffset, lastEffective, energyInited, lastStore := 0.0, 0.0, false, None;
    }

    method InitEnergyState()
      modifies this`energyOffset, this`lastEffective, this`energyInited
      ensures View() == Loaded(old(View()), table.offset, table.readings)
    {
      if energyInited { return; }
      energyOffset := table.offset;
      if table.readings != [] { lastEffective := table.readings[|table.readings| - 1].wh; }
      energyInited := true;
    }

    method AdjustEnergy(raw: real) returns (effective: real)
      modifies this`energyOffset, this`lastEffective, table`offset
      ensures View() == Adjusted(old(View()), raw) && effective == lastEffective
      ensures table.offset == if Resets(old(View()), raw) then energyOffset else old(table.offset)
    {
      effective := raw + energyOffset;
      if lastEffective > 0.0 && effective < lastEffective - RESET_THRESHOLD {
        energyOffset := energyOffset + (lastEffective - effective);
        effective := raw + energyOffset;
        table.offset := energyOffset;
      } else if effective < lastEffective {
        effective := lastEffective;
      }
      lastEffective := effective;
    }

    /** `poll`, after a good response: adjust, then store at most once a minute; `inserted` says whether that worked. */
    method Poll(response: Option<real>, at: int, inserted: bool)
      modifies this, table
      ensures
        var was := State(old(View()), old(table.offset), old(table.readings), old(lastStore));
        State(View(), table.offset, table.readings, lastStore) == Step(was, Polled(response, at, inserted))
    {
      InitEnergyState();
      var effective := AdjustEnergy(if response.Some? then response.value else 0.0);
      if lastStore.None? || at - lastStore.value >= STORE_INTERVAL {
        if !inserted { return; }
        table.readings := table.readings + [Reading(at, effective)];
        lastStore := Some(at);
      }
    }
  }

  // ----- runs -----

  datatype State = State(energy: Energy, saved: real, stored: seq<Reading>, lastStore: Option<int>)

  datatype Event = Polled(response: Option<real>, at: int, inserted: bool) | Restarted

  const INITIAL := State(UNLOADED, 0.0, [], None)

  function Step(s: State, e: Event): State {
    match e
    case Restarted => s.(energy := UNLOADED, lastStore := None)
    case Polled(response, at, inserted) =>
      var loaded := Loaded(s.energy, s.saved, s.stored);
      var next := Adjusted(loaded, Raw(response));
      var stores := StoreDue(s.lastStore, at) && inserted;
      State(next, if Resets(loaded, Raw(response)) then next.offset else s.saved,
        if stores then s.stored + [Reading(at, next.last)] else s.stored,
        if stores then Some(at) else s.lastStore)
  }

  function Run(events: seq<Event>): State {
    if events == [] then INITIAL else Step(Run(events[..|events| - 1]), events[|events| - 1])
  }

  /** A reset adds nothing, nothing ever falls, and offsets only grow. */
  lemma AdjustingNeverFalls(e: Energy, raw: real)
    ensures Adjusted(e, raw).last >= e.last && Adjusted(e, raw).offset >= e.offset
    ensures Resets(e, raw) ==> Adjusted(e, raw).last == e.last == raw + Adjusted(e, raw).offset
    ensures !Resets(e, raw) ==> Adjusted(e, raw).offset == e.offset
  {
  }

  ghost predicate NonDecreasing(readings: seq<Reading>) {
    forall i, j :: 0 <= i < j < |readings| ==> readings[i].wh <= readings[j].wh
  }

  /** The stored series is below the value in memory, and memory has the saved offset. */
  ghost predicate Steady(s: State) {
    && NonDecreasing(s.stored)
    && (s.energy.inited ==> s.energy.offset == s.saved && LastStored(s.stored, s.energy.last) <= s.energy.last)
    && (!s.energy.inited ==> s.energy == UNLOADED)
  }

  lemma StepIsSteady(s: State, e: Event)
    requires Steady(s)
    ensures Steady(Step(s, e)) && Step(s, e).saved >= s.saved
  {
    if e.Polled? {
      var loaded := Loaded(s.energy, s.saved, s.stored);
      assert LastStored(s.stored, loaded.last) <= loaded.last;
      AdjustingNeverFalls(loaded, Raw(e.response));
      hide Adjusted, Resets;
      var n := Step(s, e).stored;
      forall i, j | 0 <= i < j < |n|
        ensures n[i].wh <= n[j].wh
      {
        if j == |s.stored| { assert s.stored[i].wh <= LastStored(s.stored, loaded.last); }
      }
    }
  }

  /**
   Whatever the meter reports and however often the process restarts with only the offset and the
   last stored reading, the stored series never falls and the saved offset never shrinks.
   */
  lemma {:induction false} StoredNeverFalls(events: seq<Event>)
    ensures Steady(Run(events)) && NonDecreasing(Run(events).stored)
    ensures events != [] ==> Run(events).saved >= Run(events[..|events| - 1]).saved
  {
    if events != [] {
      StoredNeverFalls(events[..|events| - 1]);
      StepIsSteady(Run(events[..|events| - 1]), events[|events| - 1]);
    }
  }

  ghost predicate Sparse(stored: seq<Reading>) {
    forall i :: 0 < i < |stored| ==> stored[i].at - stored[i - 1].at >= 60
  }

  /** Within one process readings are stored at least a minute apart. */
  lemma {:induction false} StoredOncePerMinute(events: seq<Event>)
    requires Restarted !in events
    ensures var s := Run(events);
      && Sparse(s.stored)
      && s.lastStore == if s.stored == [] then None else Some(s.stored[|s.stored| - 1].at)
  {
    if events != [] {
      var n := |events| - 1;
      StoredOncePerMinute(events[..n]);
      assert events[n] in events;
      hide Adjusted, Resets, Loaded;
    }
  }

  /** A poll whose insert succeeds adds a reading exactly when none was stored in this process for a minute. */
  lemma StoredWhenDue(s: State, response: Option<real>, at: int)
    ensures var t := Step(s, Polled(response, at, true));
      && (t.stored != s.stored <==> s.lastStore.None? || at - s.lastStore.value >= 60)
      && (t.stored != s.stored ==> t.stored == s.stored + [Reading(at, t.energy.last)] && t.lastStore == Some(at))
  {
    var t := Step(s, Polled(response, at, true));
    hide Adjusted, Loaded, Resets;
    if StoreDue(s.lastStore, at) { assert |t.stored| == |s.stored| + 1; }
  }

  // ----- the reset law, within one process -----

  function After(e: Energy, raws: seq<real>): Energy {
    if raws == [] then e else Adjusted(After(e, raws[..|raws| - 1]), raws[|raws| - 1])
  }

  /** The largest raw reading since the last reset, or since the start. */
  function Peak(e: Energy, raws: seq<real>): real
    requires raws != []
  {
    var n := |raws| - 1;
    if n == 0 || Resets(After(e, raws[..n]), raws[n]) then raws[n]
    else if raws[n] > Peak(e, raws[..n]) then raws[n] else Peak(e, raws[..n])
  }

  function Larger(a: real, b: real): real { if a < b then b else a }

  /** The effective value is offset plus peak, but never below what was loaded at the start. */
  lemma {:induction false} ResetLaw(e: Energy, raws: seq<real>)
    requires raws != []
    ensures After(e, raws).last == Larger(e.last, After(e, raws).offset + Peak(e, raws))
    ensures After(e, raws).offset >= e.offset
  {
    var n := |raws| - 1;
    AdjustingNeverFalls(After(e, raws[..n]), raws[n]);
    if n > 0 {
      ResetLaw(e, raws[..n]);
    } else {
      assert raws[..n] == [];
    }
  }

  /** On a first run the effective value is exactly the offset plus the largest raw since the last reset. */
  lemma {:induction false} FreshResetLaw(saved: real, raws: seq<real>)
    requires saved >= 0.0 && raws != [] && forall i :: 0 <= i < |raws| ==> raws[i] >= 0.0
    ensures var fresh_ := Loaded(UNLOADED, saved, []);
      After(fresh_, raws).last == After(fresh_, raws).offset + Peak(fresh_, raws)
  {
    var fresh_ := Loaded(UNLOADED, saved, []);
    ResetLaw(fresh_, raws);
    PeakIsReading(fresh_, raws);
  }

  lemma {:induction false} PeakIsReading(e: Energy, raws: seq<real>)
    requires raws != []
    ensures exists i :: 0 <= i < |raws| && raws[i] == Peak(e, raws)
  {
    var n := |raws| - 1;
    if Peak(e, raws) != raws[n] {
      PeakIsReading(e, raws[..n]);
      var i :| 0 <= i < n && raws[..n][i] == Peak(e, raws[..n]);
      assert raws[i] == Peak(e, raws);
    }
  }

  // ----- missing sensors -----

  /** The last register value a meter reported, or where it stood before. */
  function Seen(start: real, responses: seq<Option<real>>): real {
    if responses == [] then start
    else
      var n := |responses| - 1;
      if responses[n].Some? then responses[n].value else Seen(start, responses[..n])
  }

  /** The register itself never falls, whatever responses are missing. */
  ghost predicate Rising(start: real, responses: seq<Option<real>>) {
    && start >= 0.0
    && forall i :: 0 <= i < |responses| && responses[i].Some? ==> responses[i].value >= Seen(start, responses[..i])
  }

  function Raws(responses: seq<Option<real>>): seq<real> {
    seq(|responses|, i requires 0 <= i < |responses| => Raw(responses[i]))
  }

  /** A gap in the responses that looks like a reset: the register stood above the threshold. */
  predicate InGap(start: real, responses: seq<Option<real>>) {
    && responses != [] && responses[|responses| - 1].None?
    && Seen(start, responses) > RESET_THRESHOLD
  }

  /** What is counted again: the register at the start of each such gap. */
  function Repeats(start: real, responses: seq<Option<real>>): real {
    if responses == [] then 0.0
    else
      var before := responses[..|responses| - 1];
      Repeats(start, before) + if InGap(start, responses) && !InGap(start, before) then Seen(start, responses) else 0.0
  }

  ghost predicate Counts(e: Energy, start: real, responses: seq<Option<real>>, a: Energy) {
    && a.offset == e.offset + Repeats(start, responses)
    && a.last == a.offset + if InGap(start, responses) then 0.0 else Seen(start, responses)
  }

  lemma RisingPrefix(start: real, responses: seq<Option<real>>)
    requires Rising(start, responses) && responses != []
    ensures Rising(start, responses[..|responses| - 1])
    ensures var n := |responses| - 1; responses[n].Some? ==> responses[n].value >= Seen(start, responses[..n])
  {
    var n := |responses| - 1;
    forall i | 0 <= i < n && responses[..n][i].Some?
      ensures responses[..n][i].value >= Seen(start, responses[..n][..i])
    {
      assert responses[..n][..i] == responses[..i];
    }
  }

  lemma {:induction false} SeenIsPositive(start: real, responses: seq<Option<real>>)
    requires Rising(start, responses)
    ensures Seen(start, responses) >= start >= 0.0
    ensures Repeats(start, responses) >= 0.0
  {
    if responses != [] {
      RisingPrefix(start, responses);
      SeenIsPositive(start, responses[..|responses| - 1]);
    }
  }

  lemma CountStep(e: Energy, start: real, responses: seq<Option<real>>, b: Energy)
    requires responses != [] && Rising(start, responses) && e.offset >= 0.0
    requires Counts(e, start, responses[..|responses| - 1], b)
    ensures Counts(e, start, responses, Adjusted(b, Raw(responses[|responses| - 1])))
  {
    RisingPrefix(start, responses);
    SeenIsPositive(start, responses[..|responses| - 1]);
    hide Rising;
  }

  /**
   Over any run of responses of a register that never falls: the offset grows by the register's value at
   each gap that starts above the threshold, and the effective value is the offset plus what was last
   seen (during such a gap the offset alone).
   */
  lemma {:induction false} MissingResponsesCount(e: Energy, start: real, responses: seq<Option<real>>)
    requires e.last == start + e.offset && e.offset >= 0.0 && Rising(start, responses)
    ensures Counts(e, start, responses, After(e, Raws(responses)))
  {
    var raws := Raws(responses);
    if responses != [] {
      var n := |responses| - 1;
      assert raws[..n] == Raws(responses[..n]);
      RisingPrefix(start, responses);
      MissingResponsesCount(e, start, responses[..n]);
      assert After(e, raws) == Adjusted(After(e, raws[..n]), raws[n]);
      hide After, Adjusted, Rising, Counts;
      CountStep(e, start, responses, After(e, raws[..n]));
    }
  }

  /** No response is missing while the register stands above the threshold. */
  ghost predicate NoneMissed(start: real, responses: seq<Option<real>>) {
    forall i :: 0 <= i < |responses| && responses[i].None? ==> Seen(start, responses[..i]) <= RESET_THRESHOLD
  }

  lemma {:induction false} RepeatsNothing(start: real, responses: seq<Option<real>>)
    requires Rising(start, responses)
    ensures Repeats(start, responses) == 0.0 <==> NoneMissed(start, responses)
    ensures InGap(start, responses) ==> Repeats(start, responses) > 0.0
  {
    if responses != [] {
      var n := |responses| - 1;
      var before := responses[..n];
      RisingPrefix(start, responses);
      RepeatsNothing(start, before);
      SeenIsPositive(start, before);
      assert responses[n].None? ==> Seen(start, responses) == Seen(start, before);
      assert Repeats(start, responses) == 0.0 <==>
        Repeats(start, before) == 0.0 && !(InGap(start, responses) && !InGap(start, before));
      hide Rising, Repeats, Seen;
      MissedSplits(start, responses);
    }
  }

  lemma MissedSplits(start: real, responses: seq<Option<real>>)
    requires responses != []
    ensures var n := |responses| - 1;
      NoneMissed(start, responses) <==>
        NoneMissed(start, responses[..n]) && (responses[n].None? ==> Seen(start, responses[..n]) <= RESET_THRESHOLD)
  {
    var n := |responses| - 1;
    assert forall i :: 0 <= i < n ==> responses[..n][..i] == responses[..i] && responses[..n][i] == responses[i];
    hide Seen;
  }

  /**
   The exact condition: at any later good reading the effective value has grown by as much as the
   register if and only if no response was missing while the register stood above the threshold.
   Otherwise it has grown by `Repeats` more.
   */
  lemma GrowthIsTrueUnlessMissed(e: Energy, start: real, responses: seq<Option<real>>)
    requires e.last == start + e.offset && e.offset >= 0.0 && Rising(start, responses)
    requires responses == [] || responses[|responses| - 1].Some?
    ensures var grown := After(e, Raws(responses)).last - e.last;
      && grown == Seen(start, responses) - start + Repeats(start, responses)
      && (grown == Seen(start, responses) - start <==> NoneMissed(start, responses))
  {
    MissingResponsesCount(e, start, responses);
    RepeatsNothing(start, responses);
    hide After, Rising, NoneMissed, Repeats, Seen;
  }

  /** One missing response between two equal readings: the whole register is counted again above the threshold. */
  lemma OneMissingResponse(e: Energy, raw: real)
    requires e.last > 0.0 && e.last == raw + e.offset && raw >= 0.0
    ensures After(e, [0.0, raw]).last == e.last <==> raw <= 1000.0
    ensures After(e, [0.0, raw]).last == if raw <= 1000.0 then e.last else e.last + raw
  {
    assert [0.0, raw][..1] == [0.0] && [0.0][..0] == [];
    assert After(e, [0.0]) == Adjusted(After(e, [0.0][..0]), 0.0);
  }

  // ----- missing sensors and restarts -----

  /** How far memory and the last stored reading stand above the offset, in terms of the register. */
  datatype Standing = Standing(level: real, stored: real, lastStore: Option<int>)

  /** What the next poll starts from. */
  function Memory(s: State): Energy { Loaded(s.energy, s.saved, s.stored) }

  function Stand(s: State): Standing {
    Standing(Memory(s).last - Memory(s).offset, LastStored(s.stored, 0.0) - Memory(s).offset, s.lastStore)
  }

  /** A reading more than the threshold below where memory stands counts as a reset, missing or not. */
  predicate Drops(b: Standing, e: Event) { e.Polled? && Raw(e.response) < b.level - RESET_THRESHOLD }

  /** What a drop adds to the offset. */
  function Drop(b: Standing, e: Event): real { if Drops(b, e) then b.level - Raw(e.response) else 0.0 }

  /** One event in terms of the register: a restart falls back to what was stored. */
  function Moved(b: Standing, e: Event): Standing {
    match e
    case Restarted => Standing(b.stored, b.stored, None)
    case Polled(response, at, inserted) =>
      var level := if Drops(b, e) || Raw(response) > b.level then Raw(response) else b.level;
      var stores := StoreDue(b.lastStore, at) && inserted;
      Standing(level, if stores then level else b.stored - Drop(b, e), if stores then Some(at) else b.lastStore)
  }

  function Stands(b: Standing, events: seq<Event>): Standing {
    if events == [] then b else Moved(Stands(b, events[..|events| - 1]), events[|events| - 1])
  }

  /** Everything that is counted again. */
  function Again(b: Standing, events: seq<Event>): real {
    if events == [] then 0.0
    else
      var n := |events| - 1;
      Again(b, events[..n]) + Drop(Stands(b, events[..n]), events[n])
  }

  predicate NotNegative(e: Event) { e.Polled? ==> Raw(e.response) >= 0.0 }

  /** The register after an event, and after a run. */
  function Register(start: real, events: seq<Event>): real {
    if events == [] then start
    else
      var n := |events| - 1;
      if events[n].Polled? && events[n].response.Some? then events[n].response.value else Register(start, events[..n])
  }

  /** No response is below the register's last one. */
  ghost predicate Climbs(start: real, events: seq<Event>) {
    forall i :: 0 <= i < |events| && events[i].Polled? && events[i].response.Some? ==>
      events[i].response.value >= Register(start, events[..i])
  }

  function RunFrom(s: State, events: seq<Event>): State {
    if events == [] then s else Step(RunFrom(s, events[..|events| - 1]), events[|events| - 1])
  }

  /** No reading in memory or in the table is negative, and the table is not ahead of memory. */
  ghost predicate Positive(s: State) {
    && Steady(s) && s.saved >= 0.0
    && 0.0 <= LastStored(s.stored, 0.0) <= Memory(s).last
  }

  lemma StepIsPositive(s: State, e: Event)
    requires Positive(s)
    ensures Positive(Step(s, e))
  {
    StepIsSteady(s, e);
    assert Memory(s).offset == s.saved;
    AdjustingNeverFalls(Memory(s), if e.Polled? then Raw(e.response) else 0.0);
    hide Steady, Resets, Adjusted;
  }

  lemma {:induction false} RunsConcat(before: seq<Event>, events: seq<Event>)
    ensures Run(before + events) == RunFrom(Run(before), events)
    ensures Positive(Run(before))
  {
    hide Step, Positive;
    RunIsPositive(before);
    if events == [] {
      assert before + events == before;
    } else {
      var n := |events| - 1;
      assert (before + events)[..|before| + n] == before + events[..n];
      RunsConcat(before, events[..n]);
    }
  }

  lemma {:induction false} RunIsPositive(events: seq<Event>)
    ensures Positive(Run(events))
  {
    if events != [] {
      RunIsPositive(events[..|events| - 1]);
      hide Step, Positive;
      StepIsPositive(Run(events[..|events| - 1]), events[|events| - 1]);
    }
  }

  lemma StandStep(s: State, e: Event)
    requires Positive(s) && NotNegative(e)
    ensures Stand(Step(s, e)) == Moved(Stand(s), e)
    ensures Memory(Step(s, e)).offset == Memory(s).offset + Drop(Stand(s), e)
  {
    assert Memory(s).offset == s.saved;
  }

  /** What a run does to the offset and to where memory stands, in terms of the register alone. */
  lemma {:induction false} StandsAfter(s: State, events: seq<Event>)
    requires Positive(s) && forall i :: 0 <= i < |events| ==> NotNegative(events[i])
    ensures var t := RunFrom(s, events);
      && Positive(t) && Stand(t) == Stands(Stand(s), events)
      && Memory(t).offset == Memory(s).offset + Again(Stand(s), events)
  {
    if events != [] {
      var n := |events| - 1;
      StandsAfter(s, events[..n]);
      var t := RunFrom(s, events[..n]);
      hide Positive, Step, Stand, Memory, Moved, Drop, NotNegative;
      StepIsPositive(t, events[n]);
      StandStep(t, events[n]);
    }
  }

  /**
   Of any run, with restarts, missing responses and resets anywhere: the value in memory has grown by as much
   as it stands higher above the offset, and once more by every drop.
   */
  lemma GrowthOfAnyRun(before: seq<Event>, events: seq<Event>)
    requires forall i :: 0 <= i < |events| ==> NotNegative(events[i])
    ensures var b := Stand(Run(before));
      Memory(Run(before + events)).last - Memory(Run(before)).last ==
        Stands(b, events).level - b.level + Again(b, events)
  {
    RunsConcat(before, events);
    StandsAfter(Run(before), events);
    hide Positive, Step, Moved, Stands, Again, Run;
  }

  // ----- a register that never falls -----

  /** Neither stands above what the register showed. */
  predicate Below(b: Standing, register: real) { b.level <= register && b.stored <= register && register >= 0.0 }

  predicate Good(e: Event) { e.Polled? && e.response.Some? }

  /** While the register climbs, only a missed response is a drop, and a good one is where memory stands. */
  lemma ClimbStep(b: Standing, e: Event, register: real)
    requires Below(b, register) && (Good(e) ==> e.response.value >= register)
    ensures Below(Moved(b, e), if Good(e) then e.response.value else register) && NotNegative(e)
    ensures Good(e) ==> !Drops(b, e) && Moved(b, e).level == e.response.value
    ensures Drop(b, e) >= 0.0 && (Drop(b, e) == 0.0 <==> !Drops(b, e))
  {
  }

  /** No response is missed while memory stands above the threshold. */
  ghost predicate NothingAgain(b: Standing, events: seq<Event>) {
    forall i :: 0 <= i < |events| ==> !MissedHigh(Stands(b, events[..i]), events[i])
  }

  predicate MissedHigh(b: Standing, e: Event) { e.Polled? && e.response.None? && b.level > RESET_THRESHOLD }

  lemma ClimbsPrefix(start: real, events: seq<Event>)
    requires Climbs(start, events) && events != []
    ensures var n := |events| - 1;
      && Climbs(start, events[..n])
      && (Good(events[n]) ==> events[n].response.value >= Register(start, events[..n]))
  {
    var n := |events| - 1;
    assert forall i :: 0 <= i < n ==> events[..n][i] == events[i] && events[..n][..i] == events[..i];
    hide Register;
  }

  lemma {:induction false} ClimbStands(b: Standing, start: real, events: seq<Event>)
    requires Below(b, start) && Climbs(start, events)
    ensures Below(Stands(b, events), Register(start, events))
    ensures forall i :: 0 <= i < |events| ==> NotNegative(events[i])
  {
    if events != [] {
      var n := |events| - 1;
      ClimbsPrefix(start, events);
      ClimbStands(b, start, events[..n]);
      ClimbStep(Stands(b, events[..n]), events[n], Register(start, events[..n]));
      hide Moved, Drop, Drops, Below, NotNegative, Climbs;
      assert forall i :: 0 <= i < n ==> NotNegative(events[..n][i]);
    }
  }

  lemma NothingAgainSplits(b: Standing, events: seq<Event>)
    requires events != []
    ensures var n := |events| - 1;
      NothingAgain(b, events) <==> NothingAgain(b, events[..n]) && !MissedHigh(Stands(b, events[..n]), events[n])
  {
    var n := |events| - 1;
    assert forall i :: 0 <= i < n ==> events[..n][i] == events[i] && events[..n][..i] == events[..i];
    hide Stands, MissedHigh;
  }

  lemma {:induction false} AgainWhileClimbing(b: Standing, start: real, events: seq<Event>)
    requires Below(b, start) && Climbs(start, events)
    ensures Again(b, events) >= 0.0 && (Again(b, events) == 0.0 <==> NothingAgain(b, events))
  {
    if events != [] {
      var n := |events| - 1;
      ClimbsPrefix(start, events);
      AgainWhileClimbing(b, start, events[..n]);
      ClimbStands(b, start, events[..n]);
      var was := Stands(b, events[..n]);
      ClimbStep(was, events[n], Register(start, events[..n]));
      assert Drops(was, events[n]) <==> MissedHigh(was, events[n]);
      NothingAgainSplits(b, events);
      hide Stands, Drop, Drops, Below, Climbs, NothingAgain, MissedHigh;
    }
  }

  /**
   The exact condition with restarts anywhere, for a register that never falls: at a good reading the value in
   memory has grown by as much as the register if and only if no response was missed while memory stood above
   the threshold, where it was last seen or, after a restart, last stored. Otherwise it has grown by
   `Again` more. Without a missing response restarts lose and repeat nothing.
   */
  lemma GrowthOverRestarts(before: seq<Event>, events: seq<Event>)
    requires var start := Stand(Run(before)).level;
      start >= 0.0 && Climbs(start, events)
    requires events != [] && Good(events[|events| - 1])
    ensures var b := Stand(Run(before));
      var grown := Run(before + events).energy.last - Memory(Run(before)).last;
      var risen := Register(b.level, events) - b.level;
      && grown == risen + Again(b, events)
      && (grown == risen <==> NothingAgain(b, events))
      && ((forall e :: e in events && e.Polled? ==> e.response.Some?) ==> grown == risen)
  {
    var b := Stand(Run(before));
    RunsConcat(before, []);
    assert Below(b, b.level);
    ClimbStands(b, b.level, events);
    AgainWhileClimbing(b, b.level, events);
    GrowthOfAnyRun(before, events);
    EndsGood(before, events, b);
    hide Stands, Again, Climbs, Run, Below, Stand, Register;
    assert (forall e :: e in events && e.Polled? ==> e.response.Some?) ==> NothingAgain(b, events);
  }

  lemma EndsGood(before: seq<Event>, events: seq<Event>, b: Standing)
    requires Below(b, b.level) && Climbs(b.level, events) && events != [] && Good(events[|events| - 1])
    ensures Stands(b, events).level == Register(b.level, events)
    ensures Memory(Run(before + events)) == Run(before + events).energy
  {
    var n := |events| - 1;
    ClimbsPrefix(b.level, events);
    ClimbStands(b, b.level, events[..n]);
    ClimbStep(Stands(b, events[..n]), events[n], Register(b.level, events[..n]));
    LoadedByPoll(Run((before + events)[..|before| + n]), events[n]);
    hide Climbs, Adjusted, Moved;
  }

  lemma LoadedByPoll(s: State, e: Event)
    requires e.Polled?
    ensures Step(s, e).energy.inited
  {
  }
}
