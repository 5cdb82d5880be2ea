/**
 User-forced windows (overrides.go): pricing them by the tariff, and merging each into the slot of
 its next deadline in the plan.
 */
module Forces {
  import opened Arithmetic
  import opened Sorting
  import opened Spans
  import opened Plan
  import opened OverrideTable
  import opened Costing
  import opened Selection
  import opened Planner

  function KindOf(overrides: seq<Override>, kind: Kind): seq<Override> {
    if overrides == [] then []
    else
      var n := |overrides| - 1;
      KindOf(overrides[..n], kind) + if overrides[n].kind == kind then [overrides[n]] else []
  }

  function ForcesOf(overrides: seq<Override>): seq<Override> { KindOf(overrides, Force) }

  lemma {:induction false} KindOfMember(overrides: seq<Override>, kind: Kind)
    ensures forall o :: o in KindOf(overrides, kind) <==> o in overrides && o.kind == kind
  {
    if overrides != [] {
      var n := |overrides| - 1;
      KindOfMember(overrides[..n], kind);
      assert overrides == overrides[..n] + [overrides[n]];
    }
  }

  /** `splitOverrides`: every override goes to one of the two lists, in order. */
  method SplitForces(overrides: seq<Override>) returns (forces: seq<Override>, blocks: seq<Override>)
    ensures forces == ForcesOf(overrides) && blocks == KindOf(overrides, Block)
  {
    forces, blocks := [], [];
    for i := 0 to |overrides|
      invariant forces == ForcesOf(overrides[..i]) && blocks == KindOf(overrides[..i], Block)
    {
      assert overrides[..i + 1][..i] == overrides[..i];
      if overrides[i].kind == Force { forces := forces + [overrides[i]]; } else { blocks := blocks + [overrides[i]]; }
    }
    assert overrides[..|overrides|] == overrides;
  }

  function ForceEnergy(f: Override): real { PeriodKWh(f.window.start, f.window.end, f.power) }

  function ForceCost(f: Override, rates: seq<Rate>): real { PeriodCost(rates, f.window.start, f.window.end, f.power) }

  /** The energy-weighted average price of the window; 0 when it uses no energy. */
  function ForcePrice(f: Override, rates: seq<Rate>): real {
    if ForceEnergy(f) > 0.0 then ForceCost(f, rates) / ForceEnergy(f) else 0.0
  }

  function ForcePeriod(f: Override, rates: seq<Rate>): Period {
    Span(f.window.start, f.window.end, Load(f.power, ForcePrice(f, rates), true))
  }

  function ForcePeriods(forces: seq<Override>, rates: seq<Rate>): seq<Period> {
    seq(|forces|, i requires 0 <= i < |forces| => ForcePeriod(forces[i], rates))
  }

  method PriceForce(f: Override, rates: seq<Rate>) returns (p: Period)
    ensures p == ForcePeriod(f, rates)
  {
    hide PeriodKWh, PeriodCost;
    var cost, energy := PriceOverPeriod(rates, f.window.start, f.window.end, f.power);
    var price := if energy > 0.0 then cost / energy else 0.0;
    p := Span(f.window.start, f.window.end, Load(f.power, price, true));
  }

  method BuildForcePeriods(forces: seq<Override>, rates: seq<Rate>) returns (periods: seq<Period>)
    ensures multiset(periods) == multiset(ForcePeriods(forces, rates))
    ensures StartSorted(periods)
  {
    hide ForcePeriod;
    var unsorted: seq<Period> := [];
    for i := 0 to |forces|
      invariant |unsorted| == i
      invariant forall k :: 0 <= k < i ==> unsorted[k] == ForcePeriod(forces[k], rates)
    {
      var p := PriceForce(forces[i], rates);
      unsorted := unsorted + [p];
    }
    assert unsorted == ForcePeriods(forces, rates);
    periods := SortBy(unsorted, StartKey);
    KeySorted(periods);
  }

  lemma KeySorted<T(!new)>(xs: seq<Span<T>>)
    requires SortedBy(xs, StartKey)
    ensures StartSorted(xs)
  {
    forall i, j | 0 <= i < j < |xs|
      ensures xs[i].start <= xs[j].start
    {
      assert StartKey(xs[i]) <= StartKey(xs[j]);
    }
  }

  /** A force's averaged price, times its energy, is what the session recorder would charge for it. */
  lemma ForcePriceGivesCostBack(f: Override, rates: seq<Rate>)
    requires f.window.start < f.window.end && f.power > 0.0
    ensures ForceEnergy(f) == PeriodEnergy(ForcePeriod(f, rates)) > 0.0
    ensures Times(ForceEnergy(f), ForcePrice(f, rates)) ==
      SessionCost(rates, f.window.start, f.window.end, ForceEnergy(f))
  {
    ForceEnergyPositive(f);
    CostsAgree(rates, f.window.start, f.window.end, f.power);
    hide PeriodCost, SessionCost, Times;
    TimesQuotient(ForceCost(f, rates), ForceEnergy(f));
  }

  lemma ForceEnergyPositive(f: Override)
    requires f.window.start < f.window.end && f.power > 0.0
    ensures ForceEnergy(f) > 0.0
  {
    var kw := f.power / 1000.0;
    TimesPositive(kw, Hours(f.window.start, f.window.end));
  }

  /** `totalForceEnergy`. */
  method TotalForceEnergy(periods: seq<Period>) returns (sum: real)
    ensures sum == EnergyOf(periods)
  {
    sum := 0.0;
    for i := 0 to |periods|
      invariant sum == EnergyOf(periods[..i])
    {
      assert periods[..i + 1][..i] == periods[..i];
      sum := sum + periods[i].value.power / 1000.0 * periods[i].Hours();
    }
    assert periods[..|periods|] == periods;
  }

  // ----- merging into the plan -----

  /** All periods held by slots with deadline `d`. */
  function PeriodsAt(slots: seq<Slot>, d: int): multiset<Period> {
    if slots == [] then multiset{}
    else
      var n := |slots| - 1;
      PeriodsAt(slots[..n], d) + if slots[n].deadline == d then multiset(slots[n].periods) else multiset{}
  }

  /** The forces whose next deadline is `d`. */
  function ForcesAt(forces: seq<Period>, d: int, deadlineOfDay: int): multiset<Period> {
    if forces == [] then multiset{}
    else
      var n := |forces| - 1;
      ForcesAt(forces[..n], d, deadlineOfDay)
        + if NextDeadlineAfter(forces[n].start, deadlineOfDay) == d then multiset{forces[n]} else multiset{}
  }

  /** Not empty, chronological, dated and totalled by its own contents, and not cancelled. */
  ghost predicate Sound(slot: Slot) {
    && Balanced(slot) && slot.periods != [] && StartSorted(slot.periods)
    && slot.date == DateOf(slot.deadline) && !slot.cancelled
  }

  ghost predicate AllSound(slots: seq<Slot>) {
    forall k :: 0 <= k < |slots| ==> Sound(slots[k])
  }

  ghost predicate DistinctDeadlines(slots: seq<Slot>) {
    forall i, j :: 0 <= i < j < |slots| ==> slots[i].deadline != slots[j].deadline
  }

  ghost predicate DeadlineSorted(slots: seq<Slot>) {
    forall i, j :: 0 <= i < j < |slots| ==> slots[i].deadline <= slots[j].deadline
  }

  function DeadlineKey(slot: Slot): real { slot.deadline as real }

  /** Replacing slot k by one with the same deadline exchanges their periods. */
  lemma PeriodsAtUpdate(slots: seq<Slot>, k: nat, slot: Slot, d: int)
    requires k < |slots| && slot.deadline == slots[k].deadline
    requires multiset(slots[k].periods) <= multiset(slot.periods)
    ensures PeriodsAt(slots[k := slot], d) == PeriodsAt(slots, d)
      + if slot.deadline == d then multiset(slot.periods) - multiset(slots[k].periods) else multiset{}
  {
    var before, after := slots[..k], slots[k + 1..];
    assert slots == before + [slots[k]] + after;
    assert slots[k := slot] == before + [slot] + after;
    PeriodsAtSplit(before + [slots[k]], after, d);
    PeriodsAtSplit(before + [slot], after, d);
    PeriodsAtAppend(before, slots[k], d);
    PeriodsAtAppend(before, slot, d);
  }

  lemma PeriodsAtAppend(slots: seq<Slot>, slot: Slot, d: int)
    ensures PeriodsAt(slots + [slot], d) ==
      PeriodsAt(slots, d) + if slot.deadline == d then multiset(slot.periods) else multiset{}
  {
    assert (slots + [slot])[..|slots|] == slots;
  }

  lemma {:induction false} PeriodsAtSplit(a: seq<Slot>, b: seq<Slot>, d: int)
    ensures PeriodsAt(a + b, d) == PeriodsAt(a, d) + PeriodsAt(b, d)
  {
    if b == [] {
      assert a + b == a;
    } else {
      var n := |b| - 1;
      assert (a + b)[..|a| + n] == a + b[..n];
      PeriodsAtSplit(a, b[..n], d);
    }
  }

  lemma PeriodsAtRemove(slots: seq<Slot>, k: nat, d: int)
    requires k < |slots|
    ensures PeriodsAt(slots, d) == PeriodsAt(slots[..k] + slots[k + 1..], d)
      + if slots[k].deadline == d then multiset(slots[k].periods) else multiset{}
  {
    assert slots == slots[..k] + [slots[k]] + slots[k + 1..];
    PeriodsAtSplit(slots[..k], slots[k + 1..], d);
    PeriodsAtSplit(slots[..k] + [slots[k]], slots[k + 1..], d);
    PeriodsAtAppend(slots[..k], slots[k], d);
  }

  /** Reordering slots moves no period to another deadline. */
  lemma {:induction false} PeriodsAtPermutes(a: seq<Slot>, b: seq<Slot>, d: int)
    requires multiset(a) == multiset(b)
    ensures PeriodsAt(a, d) == PeriodsAt(b, d)
  {
    assert |multiset(a)| == |a| && |multiset(b)| == |b|;
    if a != [] {
      var n := |a| - 1;
      assert a[n] in multiset(b);
      var k :| 0 <= k < |b| && b[k] == a[n];
      RemoveOne(a, n);
      RemoveOne(b, k);
      assert a[..n] + a[n + 1..] == a[..n];
      PeriodsAtPermutes(a[..n], b[..k] + b[k + 1..], d);
      PeriodsAtRemove(b, k, d);
    }
  }

  /** Places one force in the slot of its next deadline, opening that slot if need be. */
  method InsertForce(slots: seq<Slot>, force: Period, deadlineOfDay: int) returns (r: seq<Slot>)
    ensures Placed(slots, force, NextDeadlineAfter(force.start, deadlineOfDay), r)
  {
    var deadline := NextDeadlineAfter(force.start, deadlineOfDay);
    var idx := 0;
    while idx < |slots| && slots[idx].deadline != deadline
      invariant 0 <= idx <= |slots|
      invariant forall k :: 0 <= k < idx ==> slots[k].deadline != deadline
    {
      idx := idx + 1;
    }
    hide PeriodsAt, Placed, NextDeadlineAfter, DateOf;
    if idx == |slots| {
      var slot := RecalcSlotTotals(Slot(DateOf(deadline), deadline, [force], 0.0, 0.0, false));
      r := slots + [slot];
      PlacedNew(slots, force, slot);
    } else {
      var periods := SortBy(slots[idx].periods + [force], StartKey);
      KeySorted(periods);
      var slot := RecalcSlotTotals(slots[idx].(periods := periods));
      r := slots[idx := slot];
      PlacedInto(slots, force, idx, slot);
    }
  }

  /** A slot of its own, after the others. */
  lemma PlacedNew(slots: seq<Slot>, force: Period, slot: Slot)
    requires Sound(slot) && slot.periods == [force]
    requires forall k :: 0 <= k < |slots| ==> slots[k].deadline != slot.deadline
    ensures Placed(slots, force, slot.deadline, slots + [slot])
  {
    hide Sound;
    forall d
      ensures PeriodsAt(slots + [slot], d) ==
        PeriodsAt(slots, d) + if d == slot.deadline then multiset{force} else multiset{}
    {
      PeriodsAtAppend(slots, slot, d);
    }
  }

  /** One more period in slot k, whose totals follow. */
  lemma PlacedInto(slots: seq<Slot>, force: Period, k: nat, slot: Slot)
    requires k < |slots| && Balanced(slot) && StartSorted(slot.periods)
    requires multiset(slot.periods) == multiset(slots[k].periods + [force])
    requires slot == slots[k].(periods := slot.periods, cost := slot.cost, energy := slot.energy)
    ensures Placed(slots, force, slot.deadline, slots[k := slot])
  {
    StillSound(slots, force, k, slot);
    hide Sound, Balanced, StartSorted, PeriodsAt;
    var r := slots[k := slot];
    forall d
      ensures PeriodsAt(r, d) == PeriodsAt(slots, d) + if d == slot.deadline then multiset{force} else multiset{}
    {
      PeriodsAtUpdate(slots, k, slot, d);
    }
  }

  lemma StillSound(slots: seq<Slot>, force: Period, k: nat, slot: Slot)
    requires k < |slots| && Balanced(slot) && StartSorted(slot.periods)
    requires multiset(slot.periods) == multiset(slots[k].periods + [force])
    requires slot == slots[k].(periods := slot.periods, cost := slot.cost, energy := slot.energy)
    ensures AllSound(slots) ==> Sound(slot)
  {
    hide Balanced, StartSorted;
    assert force in multiset(slot.periods);
    assert AllSound(slots) ==> Sound(slots[k]);
  }

  ghost predicate Placed(slots: seq<Slot>, force: Period, deadline: int, r: seq<Slot>) {
    && (AllSound(slots) ==> AllSound(r))
    && (DistinctDeadlines(slots) ==> DistinctDeadlines(r))
    && forall d :: PeriodsAt(r, d) == PeriodsAt(slots, d) + if d == deadline then multiset{force} else multiset{}
  }

  ghost predicate PlacedAll(was: seq<Slot>, forces: seq<Period>, deadlineOfDay: int, slots: seq<Slot>) {
    && (AllSound(was) ==> AllSound(slots))
    && (DistinctDeadlines(was) ==> DistinctDeadlines(slots))
    && forall d :: PeriodsAt(slots, d) == PeriodsAt(was, d) + ForcesAt(forces, d, deadlineOfDay)
  }

  lemma PlacedStep(
    was: seq<Slot>, forces: seq<Period>, i: nat, deadlineOfDay: int, before: seq<Slot>, after: seq<Slot>)
    requires i < |forces| && PlacedAll(was, forces[..i], deadlineOfDay, before)
    requires Placed(before, forces[i], NextDeadlineAfter(forces[i].start, deadlineOfDay), after)
    ensures PlacedAll(was, forces[..i + 1], deadlineOfDay, after)
  {
    hide AllSound, DistinctDeadlines, PeriodsAt;
    assert forces[..i + 1][..i] == forces[..i];
  }

  function SlotsIn(sched: Option<Schedule>): seq<Slot> { if sched.Some? then sched.value.slots else [] }

  /** The plan holds, under each deadline, what the automatic plan held and the forces due by it. */
  ghost predicate Merged(auto: Option<Schedule>, forces: seq<Period>, deadlineOfDay: int, sched: Option<Schedule>) {
    && (sched.None? <==> auto.None? && forces == [])
    && DeadlineSorted(SlotsIn(sched))
    && (AllSound(SlotsIn(auto)) ==> AllSound(SlotsIn(sched)))
    && (DistinctDeadlines(SlotsIn(auto)) ==> DistinctDeadlines(SlotsIn(sched)))
    && (forall d :: PeriodsAt(SlotsIn(sched), d) == PeriodsAt(SlotsIn(auto), d) + ForcesAt(forces, d, deadlineOfDay))
    && (sched.Some? ==> Totalled(sched.value) && sched.value.deadline == LatestDeadline(sched.value.slots))
  }

  /** `mergeForcesIntoSchedule`. */
  method MergeForces(auto: Option<Schedule>, forces: seq<Period>, deadlineOfDay: int) returns (sched: Option<Schedule>)
    ensures Merged(auto, forces, deadlineOfDay, sched)
  {
    if auto.None? && forces == [] { return None; }
    ghost var was := SlotsIn(auto);
    var slots := SlotsIn(auto);
    for i := 0 to |forces|
      invariant PlacedAll(was, forces[..i], deadlineOfDay, slots)
    {
      hide *;
      ghost var before := slots;
      slots := InsertForce(slots, forces[i], deadlineOfDay);
      PlacedStep(was, forces, i, deadlineOfDay, before, slots);
    }
    assert forces[..|forces|] == forces;
    var sorted := SortBy(slots, DeadlineKey);
    SlotsPermute(slots, sorted);
    var total := TotalSchedule(sorted);
    sched := Some(total);
  }

  lemma SlotsPermute(slots: seq<Slot>, sorted: seq<Slot>)
    requires multiset(sorted) == multiset(slots) && SortedBy(sorted, DeadlineKey)
    ensures DeadlineSorted(sorted)
    ensures AllSound(slots) ==> AllSound(sorted)
    ensures DistinctDeadlines(slots) ==> DistinctDeadlines(sorted)
    ensures forall d :: PeriodsAt(sorted, d) == PeriodsAt(slots, d)
  {
    forall d ensures PeriodsAt(sorted, d) == PeriodsAt(slots, d) { PeriodsAtPermutes(sorted, slots, d); }
    forall i | 0 <= i < |sorted|
      ensures exists k :: 0 <= k < |slots| && slots[k] == sorted[i]
    {
      assert sorted[i] in multiset(sorted);
    }
    forall i, j | 0 <= i < j < |sorted|
      ensures sorted[i].deadline <= sorted[j].deadline
    {
      assert DeadlineKey(sorted[i]) <= DeadlineKey(sorted[j]);
    }
    if DistinctDeadlines(slots) { DeadlinesPermute(slots, sorted); }
  }

  lemma DeadlinesPermute(slots: seq<Slot>, sorted: seq<Slot>)
    requires multiset(sorted) == multiset(slots) && DistinctDeadlines(slots)
    ensures DistinctDeadlines(sorted)
  {
    forall i, j | 0 <= i < j < |sorted|
      ensures sorted[i].deadline != sorted[j].deadline
    {
      assert sorted[i] in multiset(sorted) && sorted[j] in multiset(sorted);
      var p :| 0 <= p < |slots| && slots[p] == sorted[i];
      var q :| 0 <= q < |slots| && slots[q] == sorted[j];
      OnceOnly(slots, p);
      RepeatsCountTwice(sorted, i, j);
      assert p != q;
    }
  }

  lemma OnceOnly(slots: seq<Slot>, p: nat)
    requires DistinctDeadlines(slots) && p < |slots|
    ensures multiset(slots)[slots[p]] == 1
  {
    assert slots == slots[..p] + [slots[p]] + slots[p + 1..];
    assert slots[p] !in slots[..p] && slots[p] !in slots[p + 1..];
  }
}
