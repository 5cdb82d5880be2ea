/** Carving, selecting and merging together: `recompute` with no slot in progress (scheduler.go). */
module Pipeline {
  import opened Arithmetic
  import opened Spans
  import opened Plan
  import opened OverrideTable
  import opened Fragment
  import opened Selection
  import opened Planner
  import opened Slots
  import opened Forces

  /** Some rate is under way across the deadline. */
  ghost predicate RunsAcross(rates: seq<Rate>, deadline: int) {
    exists i :: 0 <= i < |rates| && rates[i].start < deadline < rates[i].end
  }

  lemma FragmentsRunAcross(rates: seq<Rate>, overrides: seq<Override>, out: seq<Rate>, deadline: int)
    requires Fragments(rates, overrides, out) && RunsAcross(out, deadline)
    ensures RunsAcross(rates, deadline)
  {
    var i :| 0 <= i < |out| && out[i].start < deadline < out[i].end;
    assert FromRates(out[i], rates, overrides);
    var j :| 0 <= j < |rates| && CutFrom(out[i], rates[j], overrides);
    assert rates[j].start < deadline < rates[j].end;
  }

  // ----- the automatic part -----

  lemma {:induction false} PickedFrom(rates: seq<Rate>, picked: set<int>, power: real)
    ensures forall p :: p in Picked(rates, picked, power) ==> exists r :: r in rates && p == AsPeriod(r, power)
  {
    if rates != [] {
      var n := |rates| - 1;
      PickedFrom(rates[..n], picked, power);
      assert rates == rates[..n] + [rates[n]];
    }
  }

  lemma {:induction false} PickedOrdered(rates: seq<Rate>, picked: set<int>, power: real)
    requires Ordered(rates)
    ensures Ordered(Picked(rates, picked, power))
  {
    if rates != [] {
      var n := |rates| - 1;
      var before, r := Picked(rates[..n], picked, power), rates[n];
      PickedOrdered(rates[..n], picked, power);
      PickedFrom(rates[..n], picked, power);
      forall p | p in before
        ensures p.end <= r.start
      {
        var s :| s in rates[..n] && p == AsPeriod(s, power);
      }
      assert r.start < r.end;
      assert before != [] ==> before[|before| - 1] in before;
      hide Ordered;
      AppendPeriod(before, AsPeriod(r, power));
    }
  }

  lemma AppendPeriod(before: seq<Period>, p: Period)
    requires Ordered(before) && p.start < p.end && (before != [] ==> before[|before| - 1].end <= p.start)
    ensures Ordered(before + [p])
  {
    OrderedConcat(before, [p]);
  }

  lemma {:induction false} WindowOrdered(rates: seq<Rate>, limit: real, start: int, deadline: int)
    requires Ordered(rates)
    ensures Ordered(WindowOf(rates, limit, start, deadline))
  {
    if rates != [] {
      var n := |rates| - 1;
      var before := WindowOf(rates[..n], limit, start, deadline);
      WindowOrdered(rates[..n], limit, start, deadline);
      WindowKeeps(rates[..n], limit, start, deadline);
      hide Eligible;
      ExtendOrdered(rates, before);
    }
  }

  /** Automatic periods: offered rates that have not ended, at the charging power. */
  ghost predicate Offered(periods: seq<Period>, rates: seq<Rate>, power: real, now: int) {
    forall p :: p in periods ==> p.end > now && exists r :: r in rates && p == AsPeriod(r, power)
  }

  /** What one window contributes: chronological periods of its day, in a sound slot of its deadline. */
  ghost predicate OutcomeGood(rates: seq<Rate>, cfg: Config, power: real, now: int, k: int, o: Outcome) {
    && Ordered(PeriodsOf(o)) && Offered(PeriodsOf(o), rates, power, now)
    && (o.slot.Some? ==>
          && Sound(o.slot.value) && TidySlot(o.slot.value, cfg.deadlineOfDay)
          && o.slot.value.deadline == DeadlineOf(cfg, now, k))
  }

  lemma OutcomeSlot(rates: seq<Rate>, cfg: Config, power: real, now: int, k: int, o: Outcome, wanted: real)
    requires WorkedAt(rates, cfg, power, now, k, o, wanted) && 0 <= k < 2
    requires TimeOfDay(cfg.deadlineOfDay) && Ordered(rates)
    ensures OutcomeGood(rates, cfg, power, now, k, o)
  {
    var limit, start, d := PriceLimit(cfg), WindowStart(cfg, now, k), DeadlineOf(cfg, now, k);
    WindowOrdered(rates, limit, start, d);
    PickedOrdered(o.window, o.picked, power);
    var periods := PeriodsOf(o);
    assert periods == Picked(o.window, o.picked, power);
    assert Ordered(periods);
    OrderedIsSorted(periods);
    hide Ordered, StartSorted, Picked, WindowOf;
    forall p | p in periods
      ensures p.end > now && Meets(p, d) && IsDeadline(d, cfg.deadlineOfDay)
      ensures exists r :: r in rates && p == AsPeriod(r, power)
    {
      PickedMeets(rates, cfg, power, now, k, o, wanted, p);
    }
    FirstDeadlineFacts(now, cfg.deadlineOfDay);
    assert Due(periods, d) by { assert forall i :: 0 <= i < |periods| ==> periods[i] in periods; }
  }

  lemma PickedMeets(rates: seq<Rate>, cfg: Config, power: real, now: int, k: int, o: Outcome, wanted: real, p: Period)
    requires WorkedAt(rates, cfg, power, now, k, o, wanted) && 0 <= k < 2
    requires TimeOfDay(cfg.deadlineOfDay) && p in PeriodsOf(o)
    ensures p.end > now && Meets(p, DeadlineOf(cfg, now, k))
    ensures IsDeadline(DeadlineOf(cfg, now, k), cfg.deadlineOfDay)
    ensures exists r :: r in rates && p == AsPeriod(r, power)
  {
    var r := PickedRate(rates, cfg, power, now, k, o, wanted, p);
    hide WorkedAt, PeriodsOf;
    FirstDeadlineFacts(now, cfg.deadlineOfDay);
  }

  lemma OrderedIsSorted<T>(xs: seq<Span<T>>)
    requires Ordered(xs)
    ensures StartSorted(xs)
  {
    forall i, j | 0 <= i < j < |xs|
      ensures xs[i].start <= xs[j].start
    {
      assert xs[i].start < xs[i].end <= xs[j].start;
    }
  }

  /** No period is in both windows' slots. */
  ghost predicate PickedOnce(outcomes: seq<Outcome>) {
    |outcomes| == 2 ==> forall p :: p in PeriodsOf(outcomes[0]) ==> p !in PeriodsOf(outcomes[1])
  }

  /** The deadlines of the two windows. */
  predicate OfWindow(d: int, now: int, deadlineOfDay: int) {
    d == FirstDeadline(now, deadlineOfDay) || d == FirstDeadline(now, deadlineOfDay) + SECONDS_PER_DAY
  }

  ghost predicate OfWindows(slots: seq<Slot>, now: int, deadlineOfDay: int) {
    forall k :: 0 <= k < |slots| ==> OfWindow(slots[k].deadline, now, deadlineOfDay)
  }

  /** Sound slots in order of their deadlines, each tidy, made of offered rates. */
  ghost predicate SlotsGood(slots: seq<Slot>, deadlineOfDay: int, rates: seq<Rate>, power: real, now: int) {
    && AllSound(slots) && AllTidy(slots, deadlineOfDay) && DeadlinesIncrease(slots)
    && OfWindows(slots, now, deadlineOfDay) && Offered(ActiveOf(slots), rates, power, now)
  }

  /**
   The automatic plan on a carved tariff: two sound slots at most. They lie apart exactly when no
   rate was picked for both.
   */
  lemma AutomaticPlan(
    rates: seq<Rate>, cfg: Config, power: real, now: int, outcomes: seq<Outcome>, auto: Option<Schedule>)
    requires PlanFor(rates, cfg, power, now, outcomes, auto)
    requires TimeOfDay(cfg.deadlineOfDay) && Ordered(rates)
    ensures SlotsGood(SlotsIn(auto), cfg.deadlineOfDay, rates, power, now)
    ensures AllApart(SlotsIn(auto)) <==> PickedOnce(outcomes)
  {
    forall k | 0 <= k < |outcomes|
      ensures OutcomeGood(rates, cfg, power, now, k, outcomes[k])
    {
      OutcomeSlot(rates, cfg, power, now, k, outcomes[k], Wanted(cfg, outcomes, k));
    }
    assert SlotsIn(auto) == SlotsOf(outcomes);
    hide WorkedAt, SlotsOf, OutcomeGood, SlotsGood, PickedOnce;
    FirstGood(rates, cfg, power, now, outcomes[0]);
    if |outcomes| == 1 {
      SlotsOfOne(outcomes);
    } else {
      SlotsOfTwo(outcomes);
      BothGood(rates, cfg, power, now, outcomes);
    }
  }

  lemma SlotsOfOne(outcomes: seq<Outcome>)
    requires |outcomes| == 1
    ensures SlotsOf(outcomes) == SlotList(outcomes[0])
    ensures PickedOnce(outcomes) && AllApart(SlotList(outcomes[0]))
  {
    assert outcomes[..0] == [];
  }

  lemma SlotsOfTwo(outcomes: seq<Outcome>)
    requires |outcomes| == 2
    ensures SlotsOf(outcomes) == SlotList(outcomes[0]) + SlotList(outcomes[1])
  {
    assert outcomes[..1][..0] == [];
    assert SlotsOf(outcomes[..1]) == SlotList(outcomes[0]);
  }

  lemma FirstGood(rates: seq<Rate>, cfg: Config, power: real, now: int, o: Outcome)
    requires OutcomeGood(rates, cfg, power, now, 0, o)
    ensures SlotsGood(SlotList(o), cfg.deadlineOfDay, rates, power, now)
  {
    if o.slot.Some? {
      assert SlotList(o) == [] + [o.slot.value];
      AppendGood([], o.slot.value, cfg.deadlineOfDay, rates, power, now);
    }
  }

  lemma BothGood(rates: seq<Rate>, cfg: Config, power: real, now: int, outcomes: seq<Outcome>)
    requires |outcomes| == 2 && Ordered(rates)
    requires OutcomeGood(rates, cfg, power, now, 0, outcomes[0]) && OutcomeGood(rates, cfg, power, now, 1, outcomes[1])
    requires SlotsGood(SlotList(outcomes[0]), cfg.deadlineOfDay, rates, power, now)
    ensures var slots := SlotList(outcomes[0]) + SlotList(outcomes[1]);
      SlotsGood(slots, cfg.deadlineOfDay, rates, power, now) && (AllApart(slots) <==> PickedOnce(outcomes))
  {
    BothApart(rates, cfg, power, now, outcomes);
    hide *;
    SecondGood(rates, cfg, power, now, outcomes[0], outcomes[1]);
  }

  lemma BothApart(rates: seq<Rate>, cfg: Config, power: real, now: int, outcomes: seq<Outcome>)
    requires |outcomes| == 2 && Ordered(rates)
    requires OutcomeGood(rates, cfg, power, now, 0, outcomes[0]) && OutcomeGood(rates, cfg, power, now, 1, outcomes[1])
    ensures AllApart(SlotList(outcomes[0]) + SlotList(outcomes[1])) <==> PickedOnce(outcomes)
  {
    var a, b := outcomes[0], outcomes[1];
    hide Ordered, Offered, Apart, AllApart, SlotList, Sound, TidySlot, DeadlineOf;
    PicksApart(PeriodsOf(a), PeriodsOf(b), rates, power, now);
    TwoSlotsApart(a, b);
  }

  lemma SecondGood(rates: seq<Rate>, cfg: Config, power: real, now: int, a: Outcome, b: Outcome)
    requires OutcomeGood(rates, cfg, power, now, 0, a) && OutcomeGood(rates, cfg, power, now, 1, b)
    requires SlotsGood(SlotList(a), cfg.deadlineOfDay, rates, power, now)
    ensures SlotsGood(SlotList(a) + SlotList(b), cfg.deadlineOfDay, rates, power, now)
  {
    hide SlotsGood, Sound, TidySlot, Ordered, Offered, DeadlineOf, OfWindow;
    if b.slot.Some? {
      FirstDeadlineThenNext(cfg, now);
      AppendGood(SlotList(a), b.slot.value, cfg.deadlineOfDay, rates, power, now);
    } else {
      assert SlotList(a) + SlotList(b) == SlotList(a);
    }
  }

  lemma FirstDeadlineThenNext(cfg: Config, now: int)
    ensures OfWindow(DeadlineOf(cfg, now, 0), now, cfg.deadlineOfDay)
    ensures OfWindow(DeadlineOf(cfg, now, 1), now, cfg.deadlineOfDay)
    ensures DeadlineOf(cfg, now, 0) < DeadlineOf(cfg, now, 1)
  {
  }

  lemma TwoSlotsApart(a: Outcome, b: Outcome)
    ensures AllApart(SlotList(a) + SlotList(b)) <==> Apart(PeriodsOf(a), PeriodsOf(b))
  {
    var slots := SlotList(a) + SlotList(b);
    if a.slot.Some? && b.slot.Some? {
      assert slots[0] == a.slot.value && slots[1] == b.slot.value;
    }
  }

  /** Picks from one ordered tariff lie apart exactly when they share nothing. */
  lemma PicksApart(ps: seq<Period>, qs: seq<Period>, rates: seq<Rate>, power: real, now: int)
    requires Ordered(rates) && Offered(ps, rates, power, now) && Offered(qs, rates, power, now)
    requires Ordered(ps) && Ordered(qs)
    ensures Apart(ps, qs) <==> forall p :: p in ps ==> p !in qs
  {
    forall p, q | p in ps && q in qs
      ensures p.start < p.end && (p != q ==> p.end <= q.start || q.end <= p.start)
    {
      var r :| r in rates && p == AsPeriod(r, power);
      var s :| s in rates && q == AsPeriod(s, power);
      var i :| 0 <= i < |rates| && rates[i] == r;
      var j :| 0 <= j < |rates| && rates[j] == s;
    }
  }

  /** A later slot joins a good plan. */
  lemma AppendGood(slots: seq<Slot>, slot: Slot, deadlineOfDay: int, rates: seq<Rate>, power: real, now: int)
    requires SlotsGood(slots, deadlineOfDay, rates, power, now)
    requires Sound(slot) && TidySlot(slot, deadlineOfDay) && Offered(slot.periods, rates, power, now)
    requires OfWindow(slot.deadline, now, deadlineOfDay)
    requires forall k :: 0 <= k < |slots| ==> slots[k].deadline < slot.deadline
    ensures SlotsGood(slots + [slot], deadlineOfDay, rates, power, now)
  {
    ActiveAppend(slots, slot);
    assert !slot.cancelled;
    hide ActiveOf, Sound, TidySlot, OfWindow, AllSound, AllTidy, DeadlinesIncrease, Offered, OfWindows;
    AppendRows(slots, slot, deadlineOfDay, now);
    OfferedBoth(ActiveOf(slots), slot.periods, rates, power, now);
  }

  lemma AppendRows(slots: seq<Slot>, slot: Slot, deadlineOfDay: int, now: int)
    requires AllSound(slots) && AllTidy(slots, deadlineOfDay) && DeadlinesIncrease(slots)
    requires OfWindows(slots, now, deadlineOfDay)
    requires Sound(slot) && TidySlot(slot, deadlineOfDay) && OfWindow(slot.deadline, now, deadlineOfDay)
    requires forall k :: 0 <= k < |slots| ==> slots[k].deadline < slot.deadline
    ensures var longer := slots + [slot];
      AllSound(longer) && AllTidy(longer, deadlineOfDay) && DeadlinesIncrease(longer)
        && OfWindows(longer, now, deadlineOfDay)
  {
    hide Sound, TidySlot, OfWindow;
  }

  lemma ActiveAppend(slots: seq<Slot>, slot: Slot)
    ensures ActiveOf(slots + [slot]) == ActiveOf(slots) + if slot.cancelled then [] else slot.periods
  {
    assert (slots + [slot])[..|slots|] == slots;
  }

  lemma OfferedBoth(a: seq<Period>, b: seq<Period>, rates: seq<Rate>, power: real, now: int)
    requires Offered(a, rates, power, now) && Offered(b, rates, power, now)
    ensures Offered(a + b, rates, power, now)
  {
  }

  /** Only a rate running across the first deadline can be picked for both windows. */
  lemma PickedTwiceRunsAcross(
    rates: seq<Rate>, cfg: Config, power: real, now: int, outcomes: seq<Outcome>, auto: Option<Schedule>)
    requires PlanFor(rates, cfg, power, now, outcomes, auto) && !PickedOnce(outcomes)
    ensures RunsAcross(rates, FirstDeadline(now, cfg.deadlineOfDay))
  {
    var p :| p in PeriodsOf(outcomes[0]) && p in PeriodsOf(outcomes[1]);
    var r := PickedRate(rates, cfg, power, now, 0, outcomes[0], Wanted(cfg, outcomes, 0), p);
    var s := PickedRate(rates, cfg, power, now, 1, outcomes[1], Wanted(cfg, outcomes, 1), p);
    var i :| 0 <= i < |rates| && rates[i] == r;
  }

  lemma PickedRate(
    rates: seq<Rate>, cfg: Config, power: real, now: int, k: int, o: Outcome, wanted: real, p: Period) returns (r: Rate)
    requires WorkedAt(rates, cfg, power, now, k, o, wanted) && p in PeriodsOf(o)
    ensures r in rates && p == AsPeriod(r, power)
    ensures Eligible(r, PriceLimit(cfg), WindowStart(cfg, now, k), DeadlineOf(cfg, now, k))
  {
    WindowKeeps(rates, PriceLimit(cfg), WindowStart(cfg, now, k), DeadlineOf(cfg, now, k));
    PickedFrom(o.window, o.picked, power);
    assert PeriodsOf(o) == Picked(o.window, o.picked, power);
    r :| r in o.window && p == AsPeriod(r, power);
  }

  // ----- the whole plan -----

  ghost predicate NoneCancelled(slots: seq<Slot>) {
    forall k :: 0 <= k < |slots| ==> !slots[k].cancelled
  }

  /** What the slots of one deadline hold is active, and meets that deadline's day. */
  lemma {:induction false} PeriodsAtMember(slots: seq<Slot>, d: int)
    requires NoneCancelled(slots)
    ensures PeriodsAt(slots, d) <= multiset(ActiveOf(slots))
    ensures forall p :: p in PeriodsAt(slots, d) ==>
      exists k :: 0 <= k < |slots| && slots[k].deadline == d && p in slots[k].periods
  {
    if slots != [] {
      var n := |slots| - 1;
      PeriodsAtMember(slots[..n], d);
      forall p | p in PeriodsAt(slots, d)
        ensures exists k :: 0 <= k < |slots| && slots[k].deadline == d && p in slots[k].periods
      {
        if p in PeriodsAt(slots[..n], d) {
          var k :| 0 <= k < n && slots[..n][k].deadline == d && p in slots[..n][k].periods;
          assert slots[k].deadline == d;
        }
      }
    }
  }

  /** Two deadlines share no occurrence of a period. */
  lemma {:induction false} PeriodsAtTwo(slots: seq<Slot>, d: int, e: int)
    requires NoneCancelled(slots) && d != e
    ensures PeriodsAt(slots, d) + PeriodsAt(slots, e) <= multiset(ActiveOf(slots))
  {
    if slots != [] { PeriodsAtTwo(slots[..|slots| - 1], d, e); }
  }

  lemma {:induction false} ForcesAtTwo(forces: seq<Period>, d: int, e: int, deadlineOfDay: int)
    requires d != e
    ensures ForcesAt(forces, d, deadlineOfDay) + ForcesAt(forces, e, deadlineOfDay) <= multiset(forces)
  {
    if forces != [] {
      hide NextDeadlineAfter;
      var n := |forces| - 1;
      ForcesAtTwo(forces[..n], d, e, deadlineOfDay);
      assert forces == forces[..n] + [forces[n]];
    }
  }

  lemma {:induction false} ForcesAtMember(forces: seq<Period>, d: int, deadlineOfDay: int)
    ensures ForcesAt(forces, d, deadlineOfDay) <= multiset(forces)
    ensures forall p :: p in ForcesAt(forces, d, deadlineOfDay) <==>
      p in forces && NextDeadlineAfter(p.start, deadlineOfDay) == d
  {
    if forces != [] {
      var n := |forces| - 1;
      hide NextDeadlineAfter;
      ForcesAtMember(forces[..n], d, deadlineOfDay);
      assert forces == forces[..n] + [forces[n]];
    }
  }

  lemma {:induction false} SlotBag(slots: seq<Slot>, k: nat)
    requires DistinctDeadlines(slots) && k < |slots|
    ensures PeriodsAt(slots, slots[k].deadline) == multiset(slots[k].periods)
  {
    PeriodsAtRemove(slots, k, slots[k].deadline);
    NoneElsewhere(slots[..k] + slots[k + 1..], slots[k].deadline);
  }

  lemma {:induction false} NoneElsewhere(slots: seq<Slot>, d: int)
    requires forall i :: 0 <= i < |slots| ==> slots[i].deadline != d
    ensures PeriodsAt(slots, d) == multiset{}
  {
    if slots != [] { NoneElsewhere(slots[..|slots| - 1], d); }
  }

  /** Everything the plan may draw on: automatic periods and forces. */
  function Pool(auto: Option<Schedule>, forces: seq<Period>): multiset<Period> {
    multiset(ActiveOf(SlotsIn(auto))) + multiset(forces)
  }

  /** One slot of the merged plan. */
  lemma MergedBag(
    auto: Option<Schedule>, forces: seq<Period>, deadlineOfDay: int, sched: Option<Schedule>, k: nat)
    requires AllSound(SlotsIn(auto)) && DeadlinesIncrease(SlotsIn(auto))
    requires Merged(auto, forces, deadlineOfDay, sched) && k < |SlotsIn(sched)|
    ensures var slot := SlotsIn(sched)[k];
      && Sound(slot) && multiset(slot.periods) <= Pool(auto, forces)
      && multiset(slot.periods) ==
        PeriodsAt(SlotsIn(auto), slot.deadline) + ForcesAt(forces, slot.deadline, deadlineOfDay)
  {
    var slot := SlotsIn(sched)[k];
    assert DistinctDeadlines(SlotsIn(auto));
    assert NoneCancelled(SlotsIn(auto)) by { assert forall i :: 0 <= i < |SlotsIn(auto)| ==> Sound(SlotsIn(auto)[i]); }
    SlotBag(SlotsIn(sched), k);
    PeriodsAtMember(SlotsIn(auto), slot.deadline);
    ForcesAtMember(forces, slot.deadline, deadlineOfDay);
    assert Sound(slot);
    hide NextDeadlineAfter, PeriodsAt, ForcesAt, ActiveOf, Sound, DeadlineSorted;
  }

  /** A period held under a deadline is offered in its day, or is a force due by it. */
  lemma HeldMeets(
    auto: Option<Schedule>, forces: seq<Period>, deadlineOfDay: int, d: int, p: Period)
    requires TimeOfDay(deadlineOfDay) && AllTidy(SlotsIn(auto), deadlineOfDay) && AllSound(SlotsIn(auto))
    requires p in PeriodsAt(SlotsIn(auto), d) + ForcesAt(forces, d, deadlineOfDay) && p.start < p.end
    ensures Meets(p, d) && IsDeadline(d, deadlineOfDay)
  {
    if p in PeriodsAt(SlotsIn(auto), d) {
      assert forall i :: 0 <= i < |SlotsIn(auto)| ==> Sound(SlotsIn(auto)[i]);
      assert NoneCancelled(SlotsIn(auto));
      PeriodsAtMember(SlotsIn(auto), d);
      var k :| 0 <= k < |SlotsIn(auto)| && SlotsIn(auto)[k].deadline == d && p in SlotsIn(auto)[k].periods;
      assert TidySlot(SlotsIn(auto)[k], deadlineOfDay);
      var i :| 0 <= i < |SlotsIn(auto)[k].periods| && SlotsIn(auto)[k].periods[i] == p;
    } else {
      ForcesAtMember(forces, d, deadlineOfDay);
      NextDeadlineIsFirst(p.start, deadlineOfDay, d);
    }
  }

  lemma MergedSlot(
    auto: Option<Schedule>, forces: seq<Period>, deadlineOfDay: int, sched: Option<Schedule>, k: nat)
    requires TimeOfDay(deadlineOfDay) && AllSound(SlotsIn(auto)) && AllTidy(SlotsIn(auto), deadlineOfDay)
    requires DeadlinesIncrease(SlotsIn(auto)) && Scattered(Pool(auto, forces))
    requires Merged(auto, forces, deadlineOfDay, sched) && k < |SlotsIn(sched)|
    ensures TidySlot(SlotsIn(sched)[k], deadlineOfDay)
  {
    var slot := SlotsIn(sched)[k];
    MergedBag(auto, forces, deadlineOfDay, sched, k);
    ScatteredSubset(multiset(slot.periods), Pool(auto, forces));
    hide Pool, Merged, PeriodsAt, ForcesAt, AllTidy, AllSound, Balanced, DateOf, Meets, IsDeadline;
    ScatteredSortedIsOrdered(slot.periods);
    forall i | 0 <= i < |slot.periods|
      ensures Meets(slot.periods[i], slot.deadline) && IsDeadline(slot.deadline, deadlineOfDay)
    {
      assert slot.periods[i] in multiset(slot.periods);
      HeldMeets(auto, forces, deadlineOfDay, slot.deadline, slot.periods[i]);
    }
    assert 0 < |slot.periods| ==> IsDeadline(slot.deadline, deadlineOfDay);
  }

  /** Merging forces that meet nothing automatic keeps the plan tidy. */
  lemma MergedIsTidy(auto: Option<Schedule>, forces: seq<Period>, deadlineOfDay: int, sched: Option<Schedule>)
    requires TimeOfDay(deadlineOfDay) && AllSound(SlotsIn(auto)) && AllTidy(SlotsIn(auto), deadlineOfDay)
    requires DeadlinesIncrease(SlotsIn(auto)) && Scattered(Pool(auto, forces))
    requires Merged(auto, forces, deadlineOfDay, sched)
    ensures Tidy(SlotsIn(sched), deadlineOfDay)
  {
    var slots := SlotsIn(sched);
    assert DistinctDeadlines(SlotsIn(auto));
    assert DeadlinesIncrease(slots);
    hide PeriodsAt, ForcesAt, ActiveOf, Pool, TidySlot, Apart, AllSound, DistinctDeadlines;
    forall k | 0 <= k < |slots|
      ensures TidySlot(slots[k], deadlineOfDay)
    {
      MergedSlot(auto, forces, deadlineOfDay, sched, k);
    }
    forall i, j | 0 <= i < j < |slots|
      ensures Apart(slots[i].periods, slots[j].periods)
    {
      MergedApart(auto, forces, deadlineOfDay, sched, i, j);
    }
  }

  lemma MergedApart(
    auto: Option<Schedule>, forces: seq<Period>, deadlineOfDay: int, sched: Option<Schedule>, i: nat, j: nat)
    requires AllSound(SlotsIn(auto)) && DeadlinesIncrease(SlotsIn(auto)) && Scattered(Pool(auto, forces))
    requires Merged(auto, forces, deadlineOfDay, sched) && i < |SlotsIn(sched)| && j < |SlotsIn(sched)|
    requires SlotsIn(sched)[i].deadline != SlotsIn(sched)[j].deadline
    ensures Apart(SlotsIn(sched)[i].periods, SlotsIn(sched)[j].periods)
  {
    var a, b := SlotsIn(sched)[i], SlotsIn(sched)[j];
    MergedBag(auto, forces, deadlineOfDay, sched, i);
    MergedBag(auto, forces, deadlineOfDay, sched, j);
    assert NoneCancelled(SlotsIn(auto)) by { assert forall k :: 0 <= k < |SlotsIn(auto)| ==> Sound(SlotsIn(auto)[k]); }
    PeriodsAtTwo(SlotsIn(auto), a.deadline, b.deadline);
    ForcesAtTwo(forces, a.deadline, b.deadline, deadlineOfDay);
    assert multiset(a.periods) + multiset(b.periods) <= Pool(auto, forces);
    hide Merged, AllSound, Sound, NoneCancelled, PeriodsAt, ForcesAt, Pool;
    TogetherApart(a.periods, b.periods, Pool(auto, forces));
  }

  lemma TogetherApart(ps: seq<Period>, qs: seq<Period>, pool: multiset<Period>)
    requires Scattered(pool) && multiset(ps) + multiset(qs) <= pool
    ensures Apart(ps, qs)
  {
    forall p, q | p in ps && q in qs
      ensures p.end <= q.start || q.end <= p.start
    {
      assert p in multiset(ps) && q in multiset(qs);
      assert (multiset(ps) + multiset(qs))[p] <= pool[p];
    }
  }

  lemma {:induction false} ForcesOfDisjoint(overrides: seq<Override>)
    requires Disjoint(overrides)
    ensures Disjoint(ForcesOf(overrides))
    ensures forall o :: o in ForcesOf(overrides) <==> o in overrides && o.kind == Force
  {
    if overrides != [] {
      var n := |overrides| - 1;
      var before := ForcesOf(overrides[..n]);
      ForcesOfDisjoint(overrides[..n]);
      assert overrides == overrides[..n] + [overrides[n]];
      forall i | 0 <= i < |before|
        ensures !Overlaps(before[i].window, overrides[n].window)
      {
        assert before[i] in overrides[..n];
      }
    }
  }

  /** Forces occupy disjoint times. */
  lemma ForcesScattered(overrides: seq<Override>, pricing: seq<Rate>)
    requires Disjoint(overrides)
    ensures Scattered(multiset(ForcePeriods(ForcesOf(overrides), pricing)))
  {
    hide ForcePrice, ForcesOf;
    ForcesOfDisjoint(overrides);
    var forces := ForcesOf(overrides);
    var periods := ForcePeriods(forces, pricing);
    forall i, j | 0 <= i < j < |periods|
      ensures periods[i].end <= periods[j].start || periods[j].end <= periods[i].start
    {
      assert !Overlaps(forces[i].window, forces[j].window);
    }
    ApartIsScattered(periods);
  }

  predicate ClearOf(p: Period, o: Override) {
    p.end <= o.window.start || o.window.end <= p.start
  }

  /** A carved rate shares no second with any override. */
  lemma CarvedIsClear(tariff: seq<Rate>, overrides: seq<Override>, frag: seq<Rate>, r: Rate, o: Override)
    requires Fragments(tariff, overrides, frag) && r in frag && o in overrides
    requires r.start < r.end && o.window.start < o.window.end
    ensures r.end <= o.window.start || o.window.end <= r.start
  {
    var t := Max(r.start, o.window.start);
    var i :| 0 <= i < |frag| && frag[i] == r;
    var j :| 0 <= j < |overrides| && overrides[j] == o;
    assert frag[i].Covers(t) ==> PricedAt(frag, t, r.value);
    assert overrides[j].window.Covers(t) ==> Overridden(overrides, t);
  }

  lemma AutomaticIsClear(
    tariff: seq<Rate>, overrides: seq<Override>, frag: seq<Rate>, power: real, now: int, periods: seq<Period>,
    p: Period, o: Override)
    requires Fragments(tariff, overrides, frag) && Ordered(frag) && Offered(periods, frag, power, now)
    requires Disjoint(overrides) && p in periods && o in overrides
    ensures ClearOf(p, o)
  {
    var r :| r in frag && p == AsPeriod(r, power);
    var i :| 0 <= i < |frag| && frag[i] == r;
    var j :| 0 <= j < |overrides| && overrides[j] == o;
    CarvedIsClear(tariff, overrides, frag, r, o);
  }

  /** What `recompute` feeds into its plan when no slot is in progress. */
  ghost predicate FreshPlan(
    tariff: seq<Rate>, pricing: seq<Rate>, overrides: seq<Override>, frag: seq<Rate>,
    cfg: Config, power: real, now: int, outcomes: seq<Outcome>,
    auto: Option<Schedule>, forces: seq<Period>, sched: Option<Schedule>) {
    && (auto.Some? ==> Fragments(tariff, overrides, frag) && PlanFor(frag, cfg, power, now, outcomes, auto))
    && multiset(forces) == multiset(ForcePeriods(ForcesOf(overrides), pricing))
    && Merged(auto, forces, cfg.deadlineOfDay, sched)
  }

  /** Overrides as the table keeps them, and a tariff in order. */
  ghost predicate GoodInputs(tariff: seq<Rate>, overrides: seq<Override>, cfg: Config) {
    TimeOfDay(cfg.deadlineOfDay) && Ordered(tariff) && Disjoint(overrides)
  }

  /** No rate was picked for both windows. */
  ghost predicate NoRepeat(auto: Option<Schedule>, outcomes: seq<Outcome>) { auto.Some? ==> PickedOnce(outcomes) }

  lemma FreshParts(
    tariff: seq<Rate>, pricing: seq<Rate>, overrides: seq<Override>, frag: seq<Rate>,
    cfg: Config, power: real, now: int, outcomes: seq<Outcome>,
    auto: Option<Schedule>, forces: seq<Period>, sched: Option<Schedule>)
    requires GoodInputs(tariff, overrides, cfg)
    requires FreshPlan(tariff, pricing, overrides, frag, cfg, power, now, outcomes, auto, forces, sched)
    ensures auto.Some? ==> Ordered(frag)
    ensures SlotsGood(SlotsIn(auto), cfg.deadlineOfDay, frag, power, now)
    ensures AllApart(SlotsIn(auto)) <==> NoRepeat(auto, outcomes)
    ensures Scattered(multiset(forces))
    ensures forall p :: p in forces <==> exists o :: o in overrides && o.kind == Force && p == ForcePeriod(o, pricing)
  {
    if auto.Some? {
      AutomaticPlan(frag, cfg, power, now, outcomes, auto);
    }
    ForcesScattered(overrides, pricing);
    ForcesExactly(overrides, pricing, forces);
  }

  lemma OrderedIsApart<T>(xs: seq<Span<T>>)
    requires Ordered(xs)
    ensures PairwiseApart(xs)
  {
  }

  lemma ForcesExactly(overrides: seq<Override>, pricing: seq<Rate>, forces: seq<Period>)
    requires Disjoint(overrides)
    requires multiset(forces) == multiset(ForcePeriods(ForcesOf(overrides), pricing))
    ensures forall p :: p in forces <==> exists o :: o in overrides && o.kind == Force && p == ForcePeriod(o, pricing)
  {
    hide ForcePeriod;
    ForcesOfDisjoint(overrides);
    var fs := ForcesOf(overrides);
    var periods := ForcePeriods(fs, pricing);
    forall p
      ensures p in forces <==> exists o :: o in overrides && o.kind == Force && p == ForcePeriod(o, pricing)
    {
      assert p in forces <==> p in multiset(forces);
      assert p in periods <==> p in multiset(periods);
      if p in periods {
        var i :| 0 <= i < |periods| && periods[i] == p;
        assert fs[i] in fs;
      }
      if o :| o in overrides && o.kind == Force && p == ForcePeriod(o, pricing) {
        var i :| 0 <= i < |fs| && fs[i] == o;
        assert periods[i] == p;
      }
    }
  }

  /** Automatic periods and forces together never overlap, if no rate was picked twice. */
  lemma PoolScattered(
    tariff: seq<Rate>, pricing: seq<Rate>, overrides: seq<Override>, frag: seq<Rate>,
    cfg: Config, power: real, now: int, outcomes: seq<Outcome>,
    auto: Option<Schedule>, forces: seq<Period>, sched: Option<Schedule>)
    requires GoodInputs(tariff, overrides, cfg) && NoRepeat(auto, outcomes)
    requires FreshPlan(tariff, pricing, overrides, frag, cfg, power, now, outcomes, auto, forces, sched)
    ensures Scattered(Pool(auto, forces))
  {
    FreshParts(tariff, pricing, overrides, frag, cfg, power, now, outcomes, auto, forces, sched);
    var periods := ActiveOf(SlotsIn(auto));
    TidyIsOrdered(SlotsIn(auto), cfg.deadlineOfDay);
    OrderedIsApart(periods);
    ApartIsScattered(periods);
    assert Offered(periods, frag, power, now);
    hide SlotsGood, ActiveOf, ForcePeriod, Offered, Scattered, Ordered;
    forall p: Period, q: Period | p in multiset(periods) && q in multiset(forces)
      ensures p.end <= q.start || q.end <= p.start
    {
      assert q in forces && p in periods;
      var o :| o in overrides && o.kind == Force && q == ForcePeriod(o, pricing);
      AutomaticIsClear(tariff, overrides, frag, power, now, periods, p, o);
      ForceBounds(o, pricing);
    }
    ScatteredUnion(multiset(periods), multiset(forces));
  }

  lemma ForceBounds(o: Override, pricing: seq<Rate>)
    ensures var p := ForcePeriod(o, pricing);
      p.start == o.window.start && p.end == o.window.end && p.value.power == o.power && p.value.forced
  {
  }

  /** A period of the plan is apart from the override, or is the override, forced. */
  ghost predicate Respects(p: Period, o: Override, pricing: seq<Rate>) {
    ClearOf(p, o) || (o.kind == Force && p == ForcePeriod(o, pricing))
  }

  lemma ForcesRespect(overrides: seq<Override>, pricing: seq<Rate>, own: Override, o: Override)
    requires Disjoint(overrides) && own in overrides && own.kind == Force && o in overrides
    ensures Respects(ForcePeriod(own, pricing), o, pricing)
  {
    ForceBounds(own, pricing);
    hide ForcePeriod;
    var i :| 0 <= i < |overrides| && overrides[i] == own;
    var j :| 0 <= j < |overrides| && overrides[j] == o;
    assert i < j ==> !Overlaps(overrides[i].window, overrides[j].window);
    assert j < i ==> !Overlaps(overrides[j].window, overrides[i].window);
  }

  /**
   Where a period of a fresh plan stands: it respects every override; a forced one is an override in
   the slot of its next deadline; an automatic one has not ended, is due in one of the two windows,
   and lies within a rate.
   */
  ghost predicate WellPlaced(
    tariff: seq<Rate>, pricing: seq<Rate>, overrides: seq<Override>, deadlineOfDay: int, now: int, p: Period, d: int) {
    && (forall o :: o in overrides ==> Respects(p, o, pricing))
    && if p.value.forced
       then NextDeadlineAfter(p.start, deadlineOfDay) == d && IsForce(p, overrides, pricing)
       else p.end > now && OfWindow(d, now, deadlineOfDay) && InsideRate(p, tariff)
  }

  ghost predicate IsForce(p: Period, overrides: seq<Override>, pricing: seq<Rate>) {
    exists o :: o in overrides && o.kind == Force && p == ForcePeriod(o, pricing)
  }

  ghost predicate InsideRate(p: Period, tariff: seq<Rate>) {
    exists j :: 0 <= j < |tariff| && tariff[j].start <= p.start && p.end <= tariff[j].end
  }

  /** A period under a deadline of the merged plan is automatic there or a force due by it. */
  lemma SlotSource(
    auto: Option<Schedule>, forces: seq<Period>, deadlineOfDay: int, sched: Option<Schedule>, k: nat, p: Period)
    requires AllSound(SlotsIn(auto)) && DeadlinesIncrease(SlotsIn(auto))
    requires Merged(auto, forces, deadlineOfDay, sched) && k < |SlotsIn(sched)| && p in SlotsIn(sched)[k].periods
    ensures var d := SlotsIn(sched)[k].deadline;
      || (p in forces && NextDeadlineAfter(p.start, deadlineOfDay) == d)
      || exists l :: 0 <= l < |SlotsIn(auto)| && SlotsIn(auto)[l].deadline == d && p in SlotsIn(auto)[l].periods
  {
    var d := SlotsIn(sched)[k].deadline;
    MergedBag(auto, forces, deadlineOfDay, sched, k);
    ForcesAtMember(forces, d, deadlineOfDay);
    assert NoneCancelled(SlotsIn(auto)) by { assert forall i :: 0 <= i < |SlotsIn(auto)| ==> Sound(SlotsIn(auto)[i]); }
    PeriodsAtMember(SlotsIn(auto), d);
    hide Merged, Sound, ActiveOf, NextDeadlineAfter;
    assert p in multiset(SlotsIn(sched)[k].periods);
  }

  lemma AutomaticIsPlaced(
    tariff: seq<Rate>, pricing: seq<Rate>, overrides: seq<Override>, frag: seq<Rate>, deadlineOfDay: int,
    power: real, now: int, slots: seq<Slot>, l: nat, p: Period)
    requires Fragments(tariff, overrides, frag) && Ordered(frag) && Disjoint(overrides)
    requires SlotsGood(slots, deadlineOfDay, frag, power, now) && l < |slots| && p in slots[l].periods
    ensures WellPlaced(tariff, pricing, overrides, deadlineOfDay, now, p, slots[l].deadline)
  {
    assert Sound(slots[l]);
    var i :| 0 <= i < |slots[l].periods| && slots[l].periods[i] == p;
    ActiveOfContains(slots, l, i);
    var r :| r in frag && p == AsPeriod(r, power);
    var f :| 0 <= f < |frag| && frag[f] == r;
    assert FromRates(frag[f], tariff, overrides);
    var j :| 0 <= j < |tariff| && CutFrom(frag[f], tariff[j], overrides);
    var active := ActiveOf(slots);
    hide ActiveOf, Sound, ForcePeriod, Ordered, Fragments;
    forall o | o in overrides
      ensures Respects(p, o, pricing)
    {
      AutomaticIsClear(tariff, overrides, frag, power, now, active, p, o);
    }
    assert InsideRate(p, tariff);
  }

  lemma ForceIsPlaced(
    tariff: seq<Rate>, pricing: seq<Rate>, overrides: seq<Override>, deadlineOfDay: int, now: int, p: Period)
    requires Disjoint(overrides) && IsForce(p, overrides, pricing)
    ensures WellPlaced(tariff, pricing, overrides, deadlineOfDay, now, p, NextDeadlineAfter(p.start, deadlineOfDay))
  {
    var own :| own in overrides && own.kind == Force && p == ForcePeriod(own, pricing);
    ForceBounds(own, pricing);
    hide ForcePeriod, Respects, NextDeadlineAfter;
    forall o | o in overrides
      ensures Respects(p, o, pricing)
    {
      ForcesRespect(overrides, pricing, own, o);
    }
  }

  /** Every period of a fresh plan is well placed, whatever the tariff. */
  lemma FreshPlanIsPlaced(
    tariff: seq<Rate>, pricing: seq<Rate>, overrides: seq<Override>, frag: seq<Rate>,
    cfg: Config, power: real, now: int, outcomes: seq<Outcome>,
    auto: Option<Schedule>, forces: seq<Period>, sched: Option<Schedule>, k: nat, p: Period)
    requires GoodInputs(tariff, overrides, cfg)
    requires FreshPlan(tariff, pricing, overrides, frag, cfg, power, now, outcomes, auto, forces, sched)
    requires k < |SlotsIn(sched)| && p in SlotsIn(sched)[k].periods
    ensures WellPlaced(tariff, pricing, overrides, cfg.deadlineOfDay, now, p, SlotsIn(sched)[k].deadline)
  {
    FreshParts(tariff, pricing, overrides, frag, cfg, power, now, outcomes, auto, forces, sched);
    assert AllSound(SlotsIn(auto)) && DeadlinesIncrease(SlotsIn(auto));
    SlotSource(auto, forces, cfg.deadlineOfDay, sched, k, p);
    hide SlotsGood, AllSound, Merged, WellPlaced, NextDeadlineAfter, Ordered, Disjoint, PlanFor, Fragments, ForcePeriod;
    var d := SlotsIn(sched)[k].deadline;
    if p in forces && NextDeadlineAfter(p.start, cfg.deadlineOfDay) == d {
      ForceIsPlaced(tariff, pricing, overrides, cfg.deadlineOfDay, now, p);
    } else {
      var l :| 0 <= l < |SlotsIn(auto)| && SlotsIn(auto)[l].deadline == d && p in SlotsIn(auto)[l].periods;
      AutomaticIsPlaced(tariff, pricing, overrides, frag, cfg.deadlineOfDay, power, now, SlotsIn(auto), l, p);
    }
  }

  /** Every force stands verbatim in the slot of its next deadline. */
  lemma FreshPlanHoldsForces(
    tariff: seq<Rate>, pricing: seq<Rate>, overrides: seq<Override>, frag: seq<Rate>,
    cfg: Config, power: real, now: int, outcomes: seq<Outcome>,
    auto: Option<Schedule>, forces: seq<Period>, sched: Option<Schedule>, o: Override)
    requires GoodInputs(tariff, overrides, cfg) && o in overrides && o.kind == Force
    requires FreshPlan(tariff, pricing, overrides, frag, cfg, power, now, outcomes, auto, forces, sched)
    ensures ForceHonoured(SlotsIn(sched), ForcePeriod(o, pricing), NextDeadlineAfter(o.window.start, cfg.deadlineOfDay))
  {
    FreshParts(tariff, pricing, overrides, frag, cfg, power, now, outcomes, auto, forces, sched);
    assert ForcePeriod(o, pricing) in forces;
    ForceBounds(o, pricing);
    hide ForcePeriod, NextDeadlineAfter, ActiveOf;
    ForceLands(auto, forces, cfg.deadlineOfDay, sched, ForcePeriod(o, pricing));
  }

  /** Some slot with that deadline holds the period. */
  ghost predicate ForceHonoured(slots: seq<Slot>, p: Period, deadline: int) {
    exists k :: 0 <= k < |slots| && slots[k].deadline == deadline && slots[k].date == DateOf(deadline)
      && !slots[k].cancelled && p in slots[k].periods
  }

  lemma {:induction false} PeriodsAtSlot(slots: seq<Slot>, d: int, p: Period)
    requires p in PeriodsAt(slots, d)
    ensures exists k :: 0 <= k < |slots| && slots[k].deadline == d && p in slots[k].periods
  {
    var n := |slots| - 1;
    if slots[n].deadline != d || p !in slots[n].periods {
      PeriodsAtSlot(slots[..n], d, p);
      var k :| 0 <= k < n && slots[..n][k].deadline == d && p in slots[..n][k].periods;
      assert slots[k].deadline == d && p in slots[k].periods;
    }
  }

  lemma ForceLands(auto: Option<Schedule>, forces: seq<Period>, deadlineOfDay: int, sched: Option<Schedule>, p: Period)
    requires Merged(auto, forces, deadlineOfDay, sched) && AllSound(SlotsIn(auto)) && p in forces
    ensures ForceHonoured(SlotsIn(sched), p, NextDeadlineAfter(p.start, deadlineOfDay))
  {
    var d := NextDeadlineAfter(p.start, deadlineOfDay);
    ForcesAtMember(forces, d, deadlineOfDay);
    assert p in PeriodsAt(SlotsIn(sched), d);
    PeriodsAtSlot(SlotsIn(sched), d, p);
    var k :| 0 <= k < |SlotsIn(sched)| && SlotsIn(sched)[k].deadline == d && p in SlotsIn(sched)[k].periods;
    assert Sound(SlotsIn(sched)[k]);
  }

  /**
   The plan, end to end, is chronological and disjoint across all its slots exactly when no rate
   was picked for both windows; then it is tidy.
   */
  lemma FreshPlanOrdered(
    tariff: seq<Rate>, pricing: seq<Rate>, overrides: seq<Override>, frag: seq<Rate>,
    cfg: Config, power: real, now: int, outcomes: seq<Outcome>,
    auto: Option<Schedule>, forces: seq<Period>, sched: Option<Schedule>)
    requires GoodInputs(tariff, overrides, cfg)
    requires FreshPlan(tariff, pricing, overrides, frag, cfg, power, now, outcomes, auto, forces, sched)
    ensures Ordered(ActiveOf(SlotsIn(sched))) <==> NoRepeat(auto, outcomes)
    ensures NoRepeat(auto, outcomes) ==> Tidy(SlotsIn(sched), cfg.deadlineOfDay)
    ensures AllSound(SlotsIn(sched)) && DeadlinesIncrease(SlotsIn(sched))
  {
    FreshAutomatic(tariff, pricing, overrides, frag, cfg, power, now, outcomes, auto, forces, sched);
    hide *;
    if NoRepeat(auto, outcomes) {
      PoolScattered(tariff, pricing, overrides, frag, cfg, power, now, outcomes, auto, forces, sched);
      MergedIsTidy(auto, forces, cfg.deadlineOfDay, sched);
      TidyIsOrdered(SlotsIn(sched), cfg.deadlineOfDay);
    } else {
      FreshRepeats(frag, cfg, power, now, outcomes, auto, forces, sched);
    }
  }

  lemma FreshAutomatic(
    tariff: seq<Rate>, pricing: seq<Rate>, overrides: seq<Override>, frag: seq<Rate>,
    cfg: Config, power: real, now: int, outcomes: seq<Outcome>,
    auto: Option<Schedule>, forces: seq<Period>, sched: Option<Schedule>)
    requires GoodInputs(tariff, overrides, cfg)
    requires FreshPlan(tariff, pricing, overrides, frag, cfg, power, now, outcomes, auto, forces, sched)
    ensures TimeOfDay(cfg.deadlineOfDay) && Merged(auto, forces, cfg.deadlineOfDay, sched) && AllSound(SlotsIn(sched))
    ensures AllSound(SlotsIn(auto)) && AllTidy(SlotsIn(auto), cfg.deadlineOfDay) && DeadlinesIncrease(SlotsIn(auto))
    ensures DeadlinesIncrease(SlotsIn(sched))
    ensures auto.Some? ==> PlanFor(frag, cfg, power, now, outcomes, auto)
  {
    FreshParts(tariff, pricing, overrides, frag, cfg, power, now, outcomes, auto, forces, sched);
    hide Fragments, PlanFor, AllSound, AllTidy, Ordered, Disjoint, ForcePeriods, PeriodsAt, ForcesAt, Scattered,
      ForcePeriod;
    IncreasingIsSorted(SlotsIn(auto), SlotsIn(sched));
  }

  lemma IncreasingIsSorted(auto: seq<Slot>, slots: seq<Slot>)
    ensures DeadlinesIncrease(auto) ==> DistinctDeadlines(auto)
    ensures DeadlineSorted(slots) && DistinctDeadlines(slots) ==> DeadlinesIncrease(slots)
  {
  }

  lemma FreshRepeats(
    frag: seq<Rate>, cfg: Config, power: real, now: int, outcomes: seq<Outcome>,
    auto: Option<Schedule>, forces: seq<Period>, sched: Option<Schedule>)
    requires Merged(auto, forces, cfg.deadlineOfDay, sched) && !NoRepeat(auto, outcomes)
    requires AllSound(SlotsIn(auto)) && DeadlinesIncrease(SlotsIn(auto))
    requires auto.Some? ==> PlanFor(frag, cfg, power, now, outcomes, auto)
    ensures !Ordered(ActiveOf(SlotsIn(sched)))
  {
    hide Merged, AllSound, DeadlinesIncrease, PlanFor, Ordered, ActiveOf;
    AutomaticSlots(frag, cfg, power, now, outcomes, auto);
    var p :| p in PeriodsOf(outcomes[0]) && p in PeriodsOf(outcomes[1]);
    RepeatIsMerged(auto, forces, cfg.deadlineOfDay, sched, p);
  }

  lemma AutomaticSlots(
    frag: seq<Rate>, cfg: Config, power: real, now: int, outcomes: seq<Outcome>, auto: Option<Schedule>)
    requires PlanFor(frag, cfg, power, now, outcomes, auto) && |outcomes| == 2
    ensures SlotsIn(auto) == SlotList(outcomes[0]) + SlotList(outcomes[1])
  {
    SlotsOfTwo(outcomes);
  }

  lemma {:induction false} PeriodsAtHolds(slots: seq<Slot>, k: nat, p: Period)
    requires k < |slots| && p in slots[k].periods
    ensures p in PeriodsAt(slots, slots[k].deadline)
  {
    if k < |slots| - 1 { PeriodsAtHolds(slots[..|slots| - 1], k, p); }
  }

  lemma HeldStays(
    auto: Option<Schedule>, forces: seq<Period>, deadlineOfDay: int, sched: Option<Schedule>, k: nat, p: Period)
    returns (l: nat)
    requires Merged(auto, forces, deadlineOfDay, sched) && k < |SlotsIn(auto)| && p in SlotsIn(auto)[k].periods
    ensures l < |SlotsIn(sched)| && SlotsIn(sched)[l].deadline == SlotsIn(auto)[k].deadline
    ensures p in SlotsIn(sched)[l].periods
  {
    var d := SlotsIn(auto)[k].deadline;
    PeriodsAtHolds(SlotsIn(auto), k, p);
    assert p in PeriodsAt(SlotsIn(sched), d);
    PeriodsAtSlot(SlotsIn(sched), d, p);
    l :| 0 <= l < |SlotsIn(sched)| && SlotsIn(sched)[l].deadline == d && p in SlotsIn(sched)[l].periods;
  }

  /** What two slots of the automatic plan share, the merged plan holds twice. */
  lemma RepeatIsMerged(
    auto: Option<Schedule>, forces: seq<Period>, deadlineOfDay: int, sched: Option<Schedule>, p: Period)
    requires Merged(auto, forces, deadlineOfDay, sched) && AllSound(SlotsIn(auto)) && DeadlinesIncrease(SlotsIn(auto))
    requires |SlotsIn(auto)| == 2 && p in SlotsIn(auto)[0].periods && p in SlotsIn(auto)[1].periods
    ensures !Ordered(ActiveOf(SlotsIn(sched)))
  {
    var k := HeldStays(auto, forces, deadlineOfDay, sched, 0, p);
    var l := HeldStays(auto, forces, deadlineOfDay, sched, 1, p);
    assert Sound(SlotsIn(sched)[k]) && Sound(SlotsIn(sched)[l]);
    hide Merged, AllSound;
    if k < l { RepeatSpoilsOrder(SlotsIn(sched), k, l, p); } else { RepeatSpoilsOrder(SlotsIn(sched), l, k, p); }
  }
}
