/** The cheapest choice by price rank, and what it says of the plan (scheduler.go). */
module Ranks {
  import opened Arithmetic
  import opened Spans
  import opened Plan
  import opened OverrideTable
  import opened Selection
  import opened Planner
  import opened Slots
  import opened Fragment
  import opened Forces
  import opened Pipeline
  import opened Recompute
  import opened Automatic
  import opened Continuity

  // ----- ranks -----

  ghost function Cheaper(rates: seq<Rate>, i: int): set<int>
    requires 0 <= i < |rates|
  {
    set j | 0 <= j < |rates| && rates[j].value < rates[i].value
  }

  ghost function NotDearer(rates: seq<Rate>, i: int): set<int>
    requires 0 <= i < |rates|
  {
    set j | 0 <= j < |rates| && j != i && rates[j].value <= rates[i].value
  }

  /** The rates with fewer than `wanted` cheaper ones. */
  ghost function Ranked(rates: seq<Rate>, wanted: int): set<int> {
    set i | 0 <= i < |rates| && |Cheaper(rates, i)| < wanted
  }

  /** No price is both among the wanted and among the others. */
  ghost predicate Decisive(rates: seq<Rate>, wanted: int) {
    forall i :: 0 <= i < |rates| && |Cheaper(rates, i)| < wanted ==> |NotDearer(rates, i)| < wanted
  }

  lemma Smaller(a: set<int>, b: set<int>)
    requires a <= b
    ensures |a| <= |b|
  {
    assert b == a + (b - a);
  }

  /** A picked rate has fewer than `wanted` cheaper ones, and one with fewer than `wanted` as cheap is picked. */
  lemma RankBounds(rates: seq<Rate>, picked: set<int>, wanted: int, i: int)
    requires Cheapest(rates, picked, wanted) && 0 <= i < |rates|
    ensures i in picked ==> |Cheaper(rates, i)| < wanted
    ensures |NotDearer(rates, i)| < wanted ==> i in picked
  {
    if i in picked {
      Smaller(Cheaper(rates, i) + {i}, picked);
      assert |Cheaper(rates, i) + {i}| == |Cheaper(rates, i)| + 1;
    } else {
      Smaller(picked, NotDearer(rates, i));
      if |picked| == |rates| { FullChoice(rates, picked); }
    }
  }

  /** Unless a price is shared across the cut, the cheapest choice is the one by rank. */
  lemma ChoiceByRank(rates: seq<Rate>, picked: set<int>, wanted: int)
    requires Cheapest(rates, picked, wanted) && Decisive(rates, wanted)
    ensures picked == Ranked(rates, wanted)
  {
    hide Cheapest;
    assert Indices(rates, picked) by { WithinIndices(rates, picked, wanted); }
    forall i | 0 <= i < |rates|
      ensures i in picked <==> |Cheaper(rates, i)| < wanted
    {
      RankBounds(rates, picked, wanted, i);
    }
  }

  lemma WithinIndices(rates: seq<Rate>, picked: set<int>, wanted: int)
    requires Cheapest(rates, picked, wanted)
    ensures Indices(rates, picked)
  {
  }

  ghost predicate DistinctPrices(rates: seq<Rate>) {
    forall i, j :: 0 <= i < j < |rates| ==> rates[i].value != rates[j].value
  }

  /** Distinct prices are never shared. */
  lemma DistinctPricesDecide(rates: seq<Rate>, wanted: int)
    requires DistinctPrices(rates)
    ensures Decisive(rates, wanted)
  {
    forall i | 0 <= i < |rates|
      ensures NotDearer(rates, i) == Cheaper(rates, i)
    {
    }
  }

  // ----- the plan by rank -----

  ghost function RankedAt(rates: seq<Rate>, cfg: Config, power: real, now: int, k: int, wanted: real): set<int> {
    if power <= 0.0 then {} else Ranked(WindowAt(rates, cfg, now, k), HoursNeeded(wanted, power, cfg.headroom))
  }

  /** What the first window's cheapest rates leave wanted. */
  ghost function LeftWanted(rates: seq<Rate>, cfg: Config, power: real, now: int): real {
    var picked := RankedAt(rates, cfg, power, now, 0, Target(cfg));
    Target(cfg) - Hundredths(EnergyOf(Picked(WindowAt(rates, cfg, now, 0), picked, power)))
  }

  ghost function WantedAt(rates: seq<Rate>, cfg: Config, power: real, now: int, k: int): real {
    if k == 0 then Target(cfg) else LeftWanted(rates, cfg, power, now)
  }

  /** The second window is tried if the first leaves something wanted. */
  ghost predicate Tries(rates: seq<Rate>, cfg: Config, power: real, now: int, k: int) {
    k == 0 || (k == 1 && LeftWanted(rates, cfg, power, now) > 0.0)
  }

  ghost function ChosenAt(rates: seq<Rate>, cfg: Config, power: real, now: int, k: int): set<int> {
    RankedAt(rates, cfg, power, now, k, WantedAt(rates, cfg, power, now, k))
  }

  ghost predicate DecisiveAt(rates: seq<Rate>, cfg: Config, power: real, now: int, k: int) {
    power > 0.0 ==>
      Decisive(WindowAt(rates, cfg, now, k), HoursNeeded(WantedAt(rates, cfg, power, now, k), power, cfg.headroom))
  }

  ghost predicate AllDecisive(rates: seq<Rate>, cfg: Config, power: real, now: int) {
    forall k :: 0 <= k < 2 && Tries(rates, cfg, power, now, k) ==> DecisiveAt(rates, cfg, power, now, k)
  }

  /** One window's outcome, by rank. */
  ghost predicate ByRank(rates: seq<Rate>, cfg: Config, power: real, now: int, k: int, o: Outcome) {
    && o.window == WindowAt(rates, cfg, now, k) && o.picked == ChosenAt(rates, cfg, power, now, k)
    && PeriodsOf(o) == Picked(o.window, o.picked, power)
    && (o.slot.Some? ==> o.slot.value.deadline == DeadlineOf(cfg, now, k))
  }

  lemma OutcomeByRank(rates: seq<Rate>, cfg: Config, power: real, now: int, k: int, o: Outcome, wanted: real)
    requires WorkedAt(rates, cfg, power, now, k, o, wanted) && DistinctStarts(rates)
    requires wanted == WantedAt(rates, cfg, power, now, k) && DecisiveAt(rates, cfg, power, now, k)
    ensures ByRank(rates, cfg, power, now, k, o)
    ensures SlotEnergy(o.slot) == Hundredths(EnergyOf(PeriodsOf(o)))
  {
    WindowKeeps(rates, PriceLimit(cfg), WindowStart(cfg, now, k), DeadlineOf(cfg, now, k));
    hide Cheapest, Decisive, Ranked, Picked, HoursNeeded, WantedAt;
    if power > 0.0 { ChoiceByRank(o.window, o.picked, HoursNeeded(wanted, power, cfg.headroom)); }
    NoHundredths();
    hide Hundredths;
  }

  lemma LeftByRank(rates: seq<Rate>, cfg: Config, power: real, now: int, o: Outcome)
    requires ByRank(rates, cfg, power, now, 0, o) && SlotEnergy(o.slot) == Hundredths(EnergyOf(PeriodsOf(o)))
    ensures Target(cfg) - SlotEnergy(o.slot) == LeftWanted(rates, cfg, power, now)
  {
    hide Hundredths, EnergyOf, Picked, RankedAt, WindowAt;
  }

  lemma FirstByRank(rates: seq<Rate>, cfg: Config, power: real, now: int, outcomes: seq<Outcome>)
    requires Tried(rates, cfg, power, now, outcomes) && Ordered(rates) && AllDecisive(rates, cfg, power, now)
    ensures ByRank(rates, cfg, power, now, 0, outcomes[0])
    ensures Wanted(cfg, outcomes, 1) == LeftWanted(rates, cfg, power, now)
  {
    OrderedStarts(rates);
    WantedFirst(cfg, outcomes);
    assert Tries(rates, cfg, power, now, 0);
    assert WorkedAt(rates, cfg, power, now, 0, outcomes[0], Wanted(cfg, outcomes, 0));
    hide WorkedAt, DecisiveAt, LeftWanted, ByRank, Hundredths, EnergyOf, PeriodsOf;
    OutcomeByRank(rates, cfg, power, now, 0, outcomes[0], Target(cfg));
    LeftByRank(rates, cfg, power, now, outcomes[0]);
  }

  /** The whole automatic plan by price rank and hours needed: how many windows, and what each picks. */
  lemma PlanByRank(
    rates: seq<Rate>, cfg: Config, power: real, now: int, outcomes: seq<Outcome>, auto: Option<Schedule>)
    requires PlanFor(rates, cfg, power, now, outcomes, auto)
    requires Ordered(rates) && AllDecisive(rates, cfg, power, now)
    ensures |outcomes| == if LeftWanted(rates, cfg, power, now) > 0.0 then 2 else 1
    ensures forall k :: 0 <= k < |outcomes| ==> ByRank(rates, cfg, power, now, k, outcomes[k])
  {
    FirstByRank(rates, cfg, power, now, outcomes);
    hide Ordered, ByRank, LeftWanted, Wanted, DecisiveAt, SlotFor, WindowOf;
    if |outcomes| == 2 {
      OrderedStarts(rates);
      assert WorkedAt(rates, cfg, power, now, 1, outcomes[1], Wanted(cfg, outcomes, 1));
      assert Tries(rates, cfg, power, now, 1);
      OutcomeByRank(rates, cfg, power, now, 1, outcomes[1], LeftWanted(rates, cfg, power, now));
    }
  }

  // ----- what is picked twice -----

  ghost predicate Shared(a: seq<Rate>, c: set<int>, b: seq<Rate>, d: set<int>, i: int, j: int) {
    i in c && j in d && 0 <= i < |a| && 0 <= j < |b| && a[i] == b[j]
  }

  lemma PickedBoth(a: seq<Rate>, c: set<int>, b: seq<Rate>, d: set<int>, power: real)
    ensures (forall p :: p in Picked(a, c, power) ==> p !in Picked(b, d, power)) <==>
      !exists i, j :: Shared(a, c, b, d, i, j)
  {
    if p :| p in Picked(a, c, power) && p in Picked(b, d, power) {
      PickedIff(a, c, power, p);
      PickedIff(b, d, power, p);
      var i :| i in c && 0 <= i < |a| && p == AsPeriod(a[i], power);
      var j :| j in d && 0 <= j < |b| && p == AsPeriod(b[j], power);
      assert Shared(a, c, b, d, i, j);
    }
    if i, j :| Shared(a, c, b, d, i, j) {
      PickedIff(a, c, power, AsPeriod(a[i], power));
      PickedIff(b, d, power, AsPeriod(b[j], power));
    }
  }

  /** A rate of both windows with fewer cheaper ones in each than the hours needed there. */
  ghost predicate TwiceByRank(rates: seq<Rate>, cfg: Config, power: real, now: int) {
    && LeftWanted(rates, cfg, power, now) > 0.0
    && exists i, j :: Shared(WindowAt(rates, cfg, now, 0), ChosenAt(rates, cfg, power, now, 0),
         WindowAt(rates, cfg, now, 1), ChosenAt(rates, cfg, power, now, 1), i, j)
  }

  lemma OnceOfTwo(
    outcomes: seq<Outcome>, a: seq<Rate>, c: set<int>, b: seq<Rate>, d: set<int>, power: real)
    requires |outcomes| == 2
    requires PeriodsOf(outcomes[0]) == Picked(a, c, power) && PeriodsOf(outcomes[1]) == Picked(b, d, power)
    ensures PickedOnce(outcomes) <==> !exists i, j :: Shared(a, c, b, d, i, j)
  {
    PickedBoth(a, c, b, d, power);
    hide Picked, Shared, PeriodsOf;
  }

  lemma PeriodsByRank(rates: seq<Rate>, cfg: Config, power: real, now: int, k: int, o: Outcome)
    requires ByRank(rates, cfg, power, now, k, o)
    ensures PeriodsOf(o) == Picked(WindowAt(rates, cfg, now, k), ChosenAt(rates, cfg, power, now, k), power)
  {
    hide WindowAt, ChosenAt, Picked, PeriodsOf;
  }

  /** What is picked for both windows, by rank. */
  lemma PickedTwiceByRank(
    rates: seq<Rate>, cfg: Config, power: real, now: int, outcomes: seq<Outcome>, auto: Option<Schedule>)
    requires PlanFor(rates, cfg, power, now, outcomes, auto)
    requires Ordered(rates) && AllDecisive(rates, cfg, power, now)
    ensures PickedOnce(outcomes) <==> !TwiceByRank(rates, cfg, power, now)
  {
    PlanByRank(rates, cfg, power, now, outcomes, auto);
    assert |outcomes| == 1 ==> PickedOnce(outcomes);
    hide PlanFor, Ordered, AllDecisive, LeftWanted, WindowAt, ChosenAt, Picked, Shared, PeriodsOf, ByRank, PickedOnce;
    if |outcomes| == 2 {
      PeriodsByRank(rates, cfg, power, now, 0, outcomes[0]);
      PeriodsByRank(rates, cfg, power, now, 1, outcomes[1]);
      OnceOfTwo(outcomes, WindowAt(rates, cfg, now, 0), ChosenAt(rates, cfg, power, now, 0),
        WindowAt(rates, cfg, now, 1), ChosenAt(rates, cfg, power, now, 1), power);
    }
  }

  /** With nothing to plan, or nothing to plan it in, nothing ranks low enough. */
  lemma NothingRanked(rates: seq<Rate>, cfg: Config, power: real, now: int)
    requires cfg.target <= 0.0 || rates == []
    ensures ChosenAt(rates, cfg, power, now, 0) == {} && (Tries(rates, cfg, power, now, 1) ==> rates == [])
  {
    NoHours(cfg, power);
    NoHundredths();
    NothingPicked(WindowAt(rates, cfg, now, 0), power);
    assert rates == [] ==> WindowAt(rates, cfg, now, 0) == [];
    hide HoursNeeded, Hundredths, EnergyOf, Picked, WindowAt;
    assert ChosenAt(rates, cfg, power, now, 0) == {};
  }

  /** What the carved rates say of a plan from scratch when something is allowed. */
  lemma AllowedByRank(
    x: Inputs, cfg: Config, power: real, frag: seq<Rate>, outcomes: seq<Outcome>, auto: Option<Schedule>)
    requires PlanFor(frag, AutoConfig(x, cfg), power, x.now, outcomes, auto) && Ordered(frag)
    requires AllDecisive(frag, AutoConfig(x, cfg), power, x.now)
    ensures NoRepeat(auto, outcomes) <==> !TwiceByRank(frag, AutoConfig(x, cfg), power, x.now)
  {
    PlanSize(frag, AutoConfig(x, cfg), power, x.now, outcomes, auto);
    hide PlanFor, Ordered, AllDecisive, AutoConfig, TwiceByRank, Wanted;
    PickedTwiceByRank(frag, AutoConfig(x, cfg), power, x.now, outcomes, auto);
    if auto.None? { NonePickedOnce(outcomes); }
  }

  lemma NonePickedOnce(outcomes: seq<Outcome>)
    requires SlotsOf(outcomes) == []
    ensures PickedOnce(outcomes)
  {
    if |outcomes| == 2 { SlotsOfTwo(outcomes); }
    hide SlotsOf;
  }

  /** What `BaseFrom` picks twice, by rank. */
  lemma RepeatByRank(
    x: Inputs, cfg: Config, power: real, f: seq<Rate>, outcomes: seq<Outcome>, auto: Option<Schedule>,
    forces: seq<Period>, base: Option<Schedule>, frag: seq<Rate>)
    requires BaseFrom(x, cfg, power, f, outcomes, auto, forces, base) && Ordered(x.rates)
    requires Fragments(AutoRates(cfg, x.rates), x.overrides, frag)
    requires AllDecisive(frag, AutoConfig(x, cfg), power, x.now)
    ensures NoRepeat(auto, outcomes) <==> !TwiceByRank(frag, AutoConfig(x, cfg), power, x.now)
  {
    BaseParts(x, cfg, power, f, outcomes, auto, forces, base);
    NegativesOrdered(x.rates);
    if Allowed(x, cfg) {
      SameCarving(x, cfg, f, frag);
      assert Ordered(frag);
      hide *;
      AllowedByRank(x, cfg, power, frag, outcomes, auto);
    } else {
      CarvedFromSome(AutoRates(cfg, x.rates), x.overrides, frag);
      hide BaseFrom, Fragments, AutoConfig, AutoRates, AllDecisive, LeftWanted, ChosenAt, WindowAt;
      NothingTwice(frag, AutoConfig(x, cfg), power, x.now);
    }
  }

  lemma NothingTwice(rates: seq<Rate>, cfg: Config, power: real, now: int)
    requires cfg.target <= 0.0 || rates == []
    ensures !TwiceByRank(rates, cfg, power, now)
  {
    NothingRanked(rates, cfg, power, now);
    hide ChosenAt, WindowAt, LeftWanted;
  }

  /**
   On inputs: the plan from scratch is chronological exactly when no carved rate of both windows has fewer cheaper
   ones in each than the hours needed there.
   */
  lemma BaseByRank(x: Inputs, cfg: Config, power: real, frag: seq<Rate>, base: Option<Schedule>)
    requires Base(x, cfg, power, base) && GoodInputs(x.rates, x.overrides, cfg)
    requires Fragments(AutoRates(cfg, x.rates), x.overrides, frag)
    requires AllDecisive(frag, AutoConfig(x, cfg), power, x.now)
    ensures Ordered(ActiveOf(SlotsIn(base))) <==> !TwiceByRank(frag, AutoConfig(x, cfg), power, x.now)
  {
    var f, outcomes, auto, forces :| BaseFrom(x, cfg, power, f, outcomes, auto, forces, base);
    var planned := cfg.(target := AutoTarget(cfg, forces));
    AutoInputsGood(x, cfg, planned);
    assert Ordered(x.rates);
    RepeatByRank(x, cfg, power, f, outcomes, auto, forces, base, frag);
    hide Base, GoodInputs, FreshPlan, Fragments, PlanFor, AllDecisive, TwiceByRank, AutoRates, AutoTarget, NoRepeat,
      Ordered;
    FreshPlanOrdered(AutoRates(cfg, x.rates), x.rates, x.overrides, f, planned, power, x.now, outcomes, auto, forces,
      base);
  }

  /** So ranks decide whether a recompute can pick a rate twice. */
  lemma RanksPickOnce(x: Inputs, cfg: Config, power: real, frag: seq<Rate>)
    requires Ordered(x.rates) && Fragments(AutoRates(cfg, x.rates), x.overrides, frag)
    requires AllDecisive(frag, AutoConfig(x, cfg), power, x.now)
    requires !TwiceByRank(frag, AutoConfig(x, cfg), power, x.now)
    ensures NeverTwice(x, cfg, power)
  {
    forall f, outcomes, auto, forces, base | BaseFrom(x, cfg, power, f, outcomes, auto, forces, base)
      ensures NoRepeat(auto, outcomes)
    {
      hide BaseFrom, Ordered, Fragments, AllDecisive, TwiceByRank, NoRepeat;
      RepeatByRank(x, cfg, power, f, outcomes, auto, forces, base, frag);
    }
  }

  // ----- what gets in the way of a running period -----

  /** What starts at `start` in the day of deadline `d` keeps clear of the running period, or its day is cancelled. */
  ghost predicate ClearAt(prev: Option<Schedule>, start: int, d: int, date: int, running: Period) {
    !CancelledDate(prev, DateOf(d)) && DateOf(d) != date ==> DateOf(d) > date && start >= running.end
  }

  ghost predicate ForcesClear(
    prev: Option<Schedule>, overrides: seq<Override>, deadlineOfDay: int, date: int, running: Period) {
    forall o :: o in overrides && o.kind == Force ==>
      ClearAt(prev, o.window.start, NextDeadlineAfter(o.window.start, deadlineOfDay), date, running)
  }

  /** The rates picked for the window of a deadline keep clear. */
  ghost predicate PicksClear(
    prev: Option<Schedule>, window: seq<Rate>, picked: set<int>, d: int, date: int, running: Period) {
    forall i :: i in picked && 0 <= i < |window| ==> ClearAt(prev, window[i].start, d, date, running)
  }

  /** Keeping clear by rank: in each window tried, the rates with fewer cheaper ones than the hours needed. */
  ghost predicate RanksClear(
    prev: Option<Schedule>, rates: seq<Rate>, cfg: Config, power: real, now: int, date: int, running: Period) {
    forall k :: 0 <= k < 2 && Tries(rates, cfg, power, now, k) ==>
      PicksClear(prev, WindowAt(rates, cfg, now, k), ChosenAt(rates, cfg, power, now, k), DeadlineOf(cfg, now, k), date,
        running)
  }

  /** Every slot's periods keep clear. */
  ghost predicate PlanClear(prev: Option<Schedule>, slots: seq<Slot>, date: int, running: Period) {
    forall k, q :: 0 <= k < |slots| && q in slots[k].periods ==>
      ClearAt(prev, q.start, slots[k].deadline, date, running)
  }

  lemma UncrossedIsClear(prev: Option<Schedule>, slots: seq<Slot>, date: int, running: Period)
    requires AllSound(slots)
    ensures Uncrossed(prev, slots, date, running) <==> PlanClear(prev, slots, date, running)
  {
    hide CancelledDate, Balanced, StartSorted, DateOf;
    assert forall k :: 0 <= k < |slots| ==> Sound(slots[k]);
    if PlanClear(prev, slots, date, running) {
      forall s | s in slots && !CancelledDate(prev, s.date) && s.date != date
        ensures SlotClear(s, date, running)
      {
        var k :| 0 <= k < |slots| && slots[k] == s;
        assert Sound(slots[k]);
        forall q | q in s.periods
          ensures s.date > date && q.start >= running.end
        {
          assert ClearAt(prev, q.start, slots[k].deadline, date, running);
        }
      }
    }
    if Uncrossed(prev, slots, date, running) {
      forall k, q | 0 <= k < |slots| && q in slots[k].periods
        ensures ClearAt(prev, q.start, slots[k].deadline, date, running)
      {
        assert Sound(slots[k]) && slots[k] in slots;
      }
    }
  }

  /** The merged plan keeps clear exactly if the forces and the automatic slots do. */
  lemma MergedClear(
    prev: Option<Schedule>, auto: Option<Schedule>, overrides: seq<Override>, pricing: seq<Rate>, forces: seq<Period>,
    deadlineOfDay: int, sched: Option<Schedule>, date: int, running: Period)
    requires Merged(auto, forces, deadlineOfDay, sched) && AllSound(SlotsIn(auto)) && DeadlinesIncrease(SlotsIn(auto))
    requires forall p :: p in forces <==> exists o :: o in overrides && o.kind == Force && p == ForcePeriod(o, pricing)
    ensures PlanClear(prev, SlotsIn(sched), date, running) <==>
      ForcesClear(prev, overrides, deadlineOfDay, date, running) && PlanClear(prev, SlotsIn(auto), date, running)
  {
    hide Merged, AllSound, DeadlinesIncrease, ClearAt, ForcePeriod, NextDeadlineAfter;
    if PlanClear(prev, SlotsIn(sched), date, running) {
      forall o | o in overrides && o.kind == Force
        ensures ClearAt(prev, o.window.start, NextDeadlineAfter(o.window.start, deadlineOfDay), date, running)
      {
        ForceBounds(o, pricing);
        ForceLands(auto, forces, deadlineOfDay, sched, ForcePeriod(o, pricing));
      }
      forall k, q | 0 <= k < |SlotsIn(auto)| && q in SlotsIn(auto)[k].periods
        ensures ClearAt(prev, q.start, SlotsIn(auto)[k].deadline, date, running)
      {
        var l := HeldStays(auto, forces, deadlineOfDay, sched, k, q);
      }
    }
    if ForcesClear(prev, overrides, deadlineOfDay, date, running) && PlanClear(prev, SlotsIn(auto), date, running) {
      forall k, q | 0 <= k < |SlotsIn(sched)| && q in SlotsIn(sched)[k].periods
        ensures ClearAt(prev, q.start, SlotsIn(sched)[k].deadline, date, running)
      {
        SlotSource(auto, forces, deadlineOfDay, sched, k, q);
        if q in forces && NextDeadlineAfter(q.start, deadlineOfDay) == SlotsIn(sched)[k].deadline {
          var o :| o in overrides && o.kind == Force && q == ForcePeriod(o, pricing);
          ForceBounds(o, pricing);
        }
      }
    }
  }

  /** One window's slot keeps clear exactly if its picks do. */
  lemma OutcomeClear(prev: Option<Schedule>, power: real, o: Outcome, d: int, date: int, running: Period)
    requires PeriodsOf(o) == Picked(o.window, o.picked, power) && (o.slot.Some? ==> o.slot.value.deadline == d)
    ensures PlanClear(prev, SlotList(o), date, running) <==> PicksClear(prev, o.window, o.picked, d, date, running)
  {
    var window, picked := o.window, o.picked;
    hide ClearAt, Picked;
    if PicksClear(prev, window, picked, d, date, running) {
      forall l, q | 0 <= l < |SlotList(o)| && q in SlotList(o)[l].periods
        ensures ClearAt(prev, q.start, SlotList(o)[l].deadline, date, running)
      {
        PickedIff(window, picked, power, q);
      }
    }
    if PlanClear(prev, SlotList(o), date, running) {
      forall i | i in picked && 0 <= i < |window|
        ensures ClearAt(prev, window[i].start, d, date, running)
      {
        PickedIff(window, picked, power, AsPeriod(window[i], power));
        assert AsPeriod(window[i], power) in PeriodsOf(o);
        assert o.slot.Some? && SlotList(o)[0] == o.slot.value;
      }
    }
  }

  lemma RankedClear(
    prev: Option<Schedule>, rates: seq<Rate>, cfg: Config, power: real, now: int, k: int, o: Outcome, date: int,
    running: Period)
    requires ByRank(rates, cfg, power, now, k, o)
    ensures PlanClear(prev, SlotList(o), date, running) <==>
      PicksClear(prev, WindowAt(rates, cfg, now, k), ChosenAt(rates, cfg, power, now, k), DeadlineOf(cfg, now, k), date,
        running)
  {
    hide PlanClear, PicksClear, WindowAt, ChosenAt, Picked, DeadlineOf, PeriodsOf, SlotList;
    OutcomeClear(prev, power, o, DeadlineOf(cfg, now, k), date, running);
  }

  lemma RanksClearIs(
    prev: Option<Schedule>, rates: seq<Rate>, cfg: Config, power: real, now: int, date: int, running: Period)
    ensures RanksClear(prev, rates, cfg, power, now, date, running) <==>
      && PicksClear(prev, WindowAt(rates, cfg, now, 0), ChosenAt(rates, cfg, power, now, 0), DeadlineOf(cfg, now, 0),
           date, running)
      && (LeftWanted(rates, cfg, power, now) > 0.0 ==>
            PicksClear(prev, WindowAt(rates, cfg, now, 1), ChosenAt(rates, cfg, power, now, 1), DeadlineOf(cfg, now, 1),
              date, running))
  {
    hide PicksClear, WindowAt, ChosenAt, DeadlineOf, LeftWanted;
    assert Tries(rates, cfg, power, now, 0);
    assert LeftWanted(rates, cfg, power, now) > 0.0 <==> Tries(rates, cfg, power, now, 1);
  }

  /** The slots of a plan keep clear exactly if each outcome's do. */
  lemma OutcomesClear(
    prev: Option<Schedule>, rates: seq<Rate>, cfg: Config, power: real, now: int, outcomes: seq<Outcome>,
    auto: Option<Schedule>, date: int, running: Period)
    requires PlanFor(rates, cfg, power, now, outcomes, auto)
    ensures PlanClear(prev, SlotsIn(auto), date, running) <==>
      && PlanClear(prev, SlotList(outcomes[0]), date, running)
      && (|outcomes| == 2 ==> PlanClear(prev, SlotList(outcomes[1]), date, running))
  {
    PlanSize(rates, cfg, power, now, outcomes, auto);
    hide *;
    if |outcomes| == 1 {
      SlotsOfOne(outcomes);
    } else {
      SlotsOfTwo(outcomes);
      ClearConcat(prev, SlotList(outcomes[0]), SlotList(outcomes[1]), date, running);
    }
  }

  lemma ClearConcat(prev: Option<Schedule>, a: seq<Slot>, b: seq<Slot>, date: int, running: Period)
    ensures PlanClear(prev, a + b, date, running) <==>
      PlanClear(prev, a, date, running) && PlanClear(prev, b, date, running)
  {
    hide ClearAt;
    var r := a + b;
    assert forall k :: 0 <= k < |a| ==> r[k] == a[k];
    assert forall k :: 0 <= k < |b| ==> r[|a| + k] == b[k];
  }

  lemma AutoClear(
    prev: Option<Schedule>, rates: seq<Rate>, cfg: Config, power: real, now: int, outcomes: seq<Outcome>,
    auto: Option<Schedule>, date: int, running: Period)
    requires PlanFor(rates, cfg, power, now, outcomes, auto)
    requires Ordered(rates) && AllDecisive(rates, cfg, power, now)
    ensures PlanClear(prev, SlotsIn(auto), date, running) <==>
      RanksClear(prev, rates, cfg, power, now, date, running)
  {
    hide *;
    PlanByRank(rates, cfg, power, now, outcomes, auto);
    PlanSize(rates, cfg, power, now, outcomes, auto);
    OutcomesClear(prev, rates, cfg, power, now, outcomes, auto, date, running);
    RanksClearIs(prev, rates, cfg, power, now, date, running);
    RankedClear(prev, rates, cfg, power, now, 0, outcomes[0], date, running);
    if |outcomes| == 2 { RankedClear(prev, rates, cfg, power, now, 1, outcomes[1], date, running); }
  }

  /** The plan from scratch keeps clear of a running period exactly if the forces do, and the rates by rank. */
  lemma BaseClear(
    prev: Option<Schedule>, x: Inputs, cfg: Config, power: real, frag: seq<Rate>, base: Option<Schedule>, date: int,
    running: Period)
    requires Base(x, cfg, power, base) && GoodInputs(x.rates, x.overrides, cfg)
    requires Fragments(AutoRates(cfg, x.rates), x.overrides, frag)
    requires AllDecisive(frag, AutoConfig(x, cfg), power, x.now)
    ensures Uncrossed(prev, SlotsIn(base), date, running) <==>
      && ForcesClear(prev, x.overrides, cfg.deadlineOfDay, date, running)
      && RanksClear(prev, frag, AutoConfig(x, cfg), power, x.now, date, running)
  {
    var f, outcomes, auto, forces :| BaseFrom(x, cfg, power, f, outcomes, auto, forces, base);
    BaseMergesClear(prev, x, cfg, power, f, outcomes, auto, forces, base, date, running);
    BaseParts(x, cfg, power, f, outcomes, auto, forces, base);
    NegativesOrdered(x.rates);
    if Allowed(x, cfg) {
      SameCarving(x, cfg, f, frag);
      assert Ordered(frag);
      hide *;
      AutoClear(prev, frag, AutoConfig(x, cfg), power, x.now, outcomes, auto, date, running);
    } else {
      CarvedFromSome(AutoRates(cfg, x.rates), x.overrides, frag);
      assert PlanClear(prev, SlotsIn(auto), date, running);
      hide Base, BaseFrom, GoodInputs, Fragments, AutoConfig, AutoRates, AllDecisive, Uncrossed, ForcesClear,
        RanksClear, PlanClear;
      NothingInTheWay(prev, frag, AutoConfig(x, cfg), power, x.now, date, running);
    }
  }

  lemma NothingInTheWay(
    prev: Option<Schedule>, rates: seq<Rate>, cfg: Config, power: real, now: int, date: int, running: Period)
    requires cfg.target <= 0.0 || rates == []
    ensures RanksClear(prev, rates, cfg, power, now, date, running)
  {
    NothingRanked(rates, cfg, power, now);
    assert rates == [] ==> WindowAt(rates, cfg, now, 1) == [];
    hide ChosenAt, WindowAt, LeftWanted, ClearAt, DeadlineOf;
  }

  lemma BaseMergesClear(
    prev: Option<Schedule>, x: Inputs, cfg: Config, power: real, f: seq<Rate>, outcomes: seq<Outcome>,
    auto: Option<Schedule>, forces: seq<Period>, base: Option<Schedule>, date: int, running: Period)
    requires BaseFrom(x, cfg, power, f, outcomes, auto, forces, base) && GoodInputs(x.rates, x.overrides, cfg)
    ensures Uncrossed(prev, SlotsIn(base), date, running) <==>
      && ForcesClear(prev, x.overrides, cfg.deadlineOfDay, date, running)
      && PlanClear(prev, SlotsIn(auto), date, running)
  {
    var planned, tariff := cfg.(target := AutoTarget(cfg, forces)), AutoRates(cfg, x.rates);
    AutoInputsGood(x, cfg, planned);
    hide GoodInputs, AutoRates, AutoTarget, Fragments, PlanFor;
    FreshPlanOrdered(tariff, x.rates, x.overrides, f, planned, power, x.now, outcomes, auto, forces, base);
    FreshParts(tariff, x.rates, x.overrides, f, planned, power, x.now, outcomes, auto, forces, base);
    hide Ordered, Merged, AllSound, DeadlinesIncrease, Uncrossed, ForcesClear, PlanClear, ForcePeriod, NoRepeat, Tidy,
      ActiveOf, AllTidy, OfWindows, Offered, Scattered;
    UncrossedIsClear(prev, SlotsIn(base), date, running);
    MergedClear(prev, auto, x.overrides, x.rates, forces, cfg.deadlineOfDay, base, date, running);
  }

  /**
   While a slot runs, on inputs: the recomputed plan is chronological exactly when every force of a day that
   is neither cancelled nor the running slot's, and every carved rate with fewer cheaper ones than the hours needed
   before such a day's deadline, is due later and starts once the running period has ended. The deadline may have
   moved and the period may run past it.
   */
  lemma RunningPlanByRank(
    prev: Option<Schedule>, x: Inputs, cfg: Config, power: real, frag: seq<Rate>, base: Option<Schedule>,
    next: Option<Schedule>, k: int, i: int)
    requires Merging(prev, x, cfg, power, base, next, k, i) && Ordered(SlotsIn(prev)[k].periods)
    requires Fragments(AutoRates(cfg, x.rates), x.overrides, frag)
    requires AllDecisive(frag, AutoConfig(x, cfg), power, x.now)
    ensures var running := SlotsIn(prev)[k];
      Ordered(ActiveOf(SlotsIn(next))) <==>
        && ForcesClear(prev, x.overrides, cfg.deadlineOfDay, running.date, running.periods[i])
        && RanksClear(prev, frag, AutoConfig(x, cfg), power, x.now, running.date, running.periods[i])
  {
    var running := SlotsIn(prev)[k];
    RunningPlanOrdered(prev, x, cfg, power, base, next, k, i);
    hide Merging, GoodInputs, Base, AllDecisive, Ordered, Uncrossed, ForcesClear, RanksClear, Fragments, AutoConfig,
      Replaced, RunningAt, NeverTwice, Loaded, AutoRates;
    MergingBase(prev, x, cfg, power, base, next, k, i);
    BaseClear(prev, x, cfg, power, frag, base, running.date, running.periods[i]);
  }

  lemma MergingBase(
    prev: Option<Schedule>, x: Inputs, cfg: Config, power: real, base: Option<Schedule>, next: Option<Schedule>,
    k: int, i: int)
    requires Merging(prev, x, cfg, power, base, next, k, i)
    ensures Base(x, cfg, power, base) && GoodInputs(x.rates, x.overrides, cfg)
  {
    hide Base, GoodInputs, Replaced, RunningAt, NeverTwice, Loaded;
  }

  // ----- shared prices -----

  /** Without a price shared inside the windows nothing is left to the order of equals. */
  lemma DistinctPricesAllDecide(rates: seq<Rate>, cfg: Config, power: real, now: int)
    requires DistinctPrices(rates)
    ensures AllDecisive(rates, cfg, power, now)
  {
    forall k | 0 <= k < 2
      ensures DecisiveAt(rates, cfg, power, now, k)
    {
      WindowPrices(rates, PriceLimit(cfg), WindowStart(cfg, now, k), DeadlineOf(cfg, now, k));
      if power > 0.0 {
        DistinctPricesDecide(WindowAt(rates, cfg, now, k),
          HoursNeeded(WantedAt(rates, cfg, power, now, k), power, cfg.headroom));
      }
      hide Decisive, WantedAt, HoursNeeded, WindowOf;
    }
  }

  lemma {:induction false} WindowPrices(rates: seq<Rate>, limit: real, start: int, deadline: int)
    requires DistinctPrices(rates)
    ensures DistinctPrices(WindowOf(rates, limit, start, deadline))
  {
    if rates != [] {
      var n := |rates| - 1;
      var before := WindowOf(rates[..n], limit, start, deadline);
      WindowPrices(rates[..n], limit, start, deadline);
      WindowKeeps(rates[..n], limit, start, deadline);
      forall i | 0 <= i < |before|
        ensures before[i].value != rates[n].value
      {
        assert before[i] in before;
        var j :| 0 <= j < n && rates[..n][j] == before[i];
      }
      hide Eligible;
    }
  }

  /**
   Whatever prices are shared: a rate is picked for both windows only if it has fewer cheaper ones than hours
   needed in each, and is if it has fewer as cheap or cheaper.
   */
  lemma PickedTwiceBounds(
    rates: seq<Rate>, cfg: Config, power: real, now: int, outcomes: seq<Outcome>, auto: Option<Schedule>)
    requires PlanFor(rates, cfg, power, now, outcomes, auto) && Ordered(rates) && power > 0.0
    ensures !PickedOnce(outcomes) ==> |outcomes| == 2 && exists i, j :: LowInBoth(outcomes, cfg, power, i, j, false)
    ensures |outcomes| == 2 && (exists i, j :: LowInBoth(outcomes, cfg, power, i, j, true)) ==> !PickedOnce(outcomes)
  {
    PlanSize(rates, cfg, power, now, outcomes, auto);
    if |outcomes| == 2 {
      hide *;
      TwoChoices(rates, cfg, power, now, outcomes, auto);
      var a, b := outcomes[0], outcomes[1];
      OnceOfTwo(outcomes, a.window, a.picked, b.window, b.picked, power);
      SharedBounds(outcomes, cfg, power);
    } else {
      assert PickedOnce(outcomes);
      hide LowInBoth;
    }
  }

  lemma TwoChoices(
    rates: seq<Rate>, cfg: Config, power: real, now: int, outcomes: seq<Outcome>, auto: Option<Schedule>)
    requires PlanFor(rates, cfg, power, now, outcomes, auto) && Ordered(rates) && power > 0.0
    ensures forall k :: 0 <= k < |outcomes| ==>
      && outcomes[k].window == WindowAt(rates, cfg, now, k)
      && PeriodsOf(outcomes[k]) == Picked(outcomes[k].window, outcomes[k].picked, power)
      && Cheapest(outcomes[k].window, outcomes[k].picked, HoursNeeded(Wanted(cfg, outcomes, k), power, cfg.headroom))
  {
    WindowsAre(rates, cfg, power, now, outcomes, auto);
    forall k | 0 <= k < |outcomes|
      ensures PeriodsOf(outcomes[k]) == Picked(outcomes[k].window, outcomes[k].picked, power)
      ensures Cheapest(outcomes[k].window, outcomes[k].picked,
        HoursNeeded(Wanted(cfg, outcomes, k), power, cfg.headroom))
    {
      PlannedOutcome(rates, cfg, power, now, outcomes, auto, k);
      hide PlanFor, Ordered, WindowAt, Picked, HoursNeeded, Wanted, Cheapest, OutcomeGood, PeriodsOf;
    }
  }

  /** The rate at i of the first window and j of the second ranks low in both. */
  ghost predicate LowInBoth(outcomes: seq<Outcome>, cfg: Config, power: real, i: int, j: int, strictly: bool)
    requires |outcomes| == 2 && power > 0.0
  {
    var a, b := outcomes[0].window, outcomes[1].window;
    && 0 <= i < |a| && 0 <= j < |b| && a[i] == b[j]
    && |if strictly then NotDearer(a, i) else Cheaper(a, i)|
         < HoursNeeded(Wanted(cfg, outcomes, 0), power, cfg.headroom)
    && |if strictly then NotDearer(b, j) else Cheaper(b, j)|
         < HoursNeeded(Wanted(cfg, outcomes, 1), power, cfg.headroom)
  }

  lemma WindowsAre(
    rates: seq<Rate>, cfg: Config, power: real, now: int, outcomes: seq<Outcome>, auto: Option<Schedule>)
    requires PlanFor(rates, cfg, power, now, outcomes, auto)
    ensures forall k :: 0 <= k < |outcomes| ==> outcomes[k].window == WindowAt(rates, cfg, now, k)
  {
    forall k | 0 <= k < |outcomes|
      ensures outcomes[k].window == WindowAt(rates, cfg, now, k)
    {
      assert WorkedAt(rates, cfg, power, now, k, outcomes[k], Wanted(cfg, outcomes, k));
    }
  }

  lemma SharedBounds(outcomes: seq<Outcome>, cfg: Config, power: real)
    requires |outcomes| == 2 && power > 0.0
    requires forall k :: 0 <= k < 2 ==>
      Cheapest(outcomes[k].window, outcomes[k].picked, HoursNeeded(Wanted(cfg, outcomes, k), power, cfg.headroom))
    ensures var a, b := outcomes[0], outcomes[1];
      && (forall i, j :: Shared(a.window, a.picked, b.window, b.picked, i, j) ==>
            LowInBoth(outcomes, cfg, power, i, j, false))
      && (forall i, j :: LowInBoth(outcomes, cfg, power, i, j, true) ==>
            Shared(a.window, a.picked, b.window, b.picked, i, j))
  {
    var a, b := outcomes[0], outcomes[1];
    hide HoursNeeded, Wanted, Cheapest;
    forall i, j | 0 <= i < |a.window| && 0 <= j < |b.window| && a.window[i] == b.window[j]
      ensures i in a.picked && j in b.picked ==> LowInBoth(outcomes, cfg, power, i, j, false)
      ensures LowInBoth(outcomes, cfg, power, i, j, true) ==> i in a.picked && j in b.picked
    {
      RankBounds(a.window, a.picked, HoursNeeded(Wanted(cfg, outcomes, 0), power, cfg.headroom), i);
      RankBounds(b.window, b.picked, HoursNeeded(Wanted(cfg, outcomes, 1), power, cfg.headroom), j);
    }
  }

  lemma MoreHours(a: real, b: real, power: real, headroom: real)
    requires power > 0.0 && Headroom(headroom) > 0.0 && a <= b
    ensures HoursNeeded(a, power, headroom) <= HoursNeeded(b, power, headroom)
  {
    var h, kw := Headroom(headroom), power / 1000.0;
    TimesOrder(h, a, b);
    TimesCommutes(a, h);
    TimesCommutes(b, h);
    hide Times;
    assert Times(a, h) / kw <= Times(b, h) / kw;
    CeilOrder(Times(a, h) / kw, Times(b, h) / kw);
  }

  lemma CeilOrder(x: real, y: real)
    requires x <= y
    ensures Ceil(x) <= Ceil(y)
  {
  }

  /** Every rate with fewer cheaper ones in its window than hours needed for the whole target keeps clear. */
  ghost predicate LooselyClear(
    prev: Option<Schedule>, rates: seq<Rate>, cfg: Config, power: real, now: int, date: int, running: Period) {
    forall k :: 0 <= k < 2 ==>
      PicksClear(prev, WindowAt(rates, cfg, now, k), RankedAt(rates, cfg, power, now, k, Target(cfg)),
        DeadlineOf(cfg, now, k), date, running)
  }

  /** What a window picks has fewer cheaper rates than hours needed for the whole target. */
  lemma PicksRankLow(
    rates: seq<Rate>, cfg: Config, power: real, now: int, k: int, wanted: real, picked: set<int>)
    requires Chosen(rates, cfg, power, now, k, wanted, picked) && wanted <= Target(cfg)
    requires wanted > 0.0 || (k == 0 && wanted == Target(cfg))
    ensures forall i :: i in picked && 0 <= i < |WindowAt(rates, cfg, now, k)| ==>
      i in RankedAt(rates, cfg, power, now, k, Target(cfg))
  {
    var w := WindowAt(rates, cfg, now, k);
    forall i | i in picked && 0 <= i < |w|
      ensures i in RankedAt(rates, cfg, power, now, k, Target(cfg))
    {
      hide WindowAt, HoursNeeded, Cheapest;
      RankBounds(w, picked, HoursNeeded(wanted, power, cfg.headroom), i);
      if wanted > 0.0 {
        SomethingNeeded(wanted, power, cfg.headroom);
        MoreHours(wanted, Target(cfg), power, cfg.headroom);
      }
    }
  }

  /**
   Whatever prices are shared: while a slot runs the recomputed plan is chronological if the forces keep clear
   and so does every carved rate that ranks low for the whole target.
   */
  lemma RunningPlanLoosely(
    prev: Option<Schedule>, x: Inputs, cfg: Config, power: real, frag: seq<Rate>, base: Option<Schedule>,
    next: Option<Schedule>, k: int, i: int)
    requires Merging(prev, x, cfg, power, base, next, k, i) && Ordered(SlotsIn(prev)[k].periods)
    requires Fragments(AutoRates(cfg, x.rates), x.overrides, frag)
    requires var running := SlotsIn(prev)[k];
      && ForcesClear(prev, x.overrides, cfg.deadlineOfDay, running.date, running.periods[i])
      && LooselyClear(prev, frag, AutoConfig(x, cfg), power, x.now, running.date, running.periods[i])
    ensures Ordered(ActiveOf(SlotsIn(next)))
  {
    var running := SlotsIn(prev)[k];
    RunningPlanOrdered(prev, x, cfg, power, base, next, k, i);
    MergingBase(prev, x, cfg, power, base, next, k, i);
    var date, p := running.date, running.periods[i];
    assert Ordered(x.rates) && TimeOfDay(cfg.deadlineOfDay);
    hide Merging, GoodInputs, AutoRates, Ordered, Uncrossed, ForcesClear, Fragments, AutoConfig, LooselyClear, BaseFrom;
    var f, outcomes, auto, forces :| BaseFrom(x, cfg, power, f, outcomes, auto, forces, base);
    BaseMergesClear(prev, x, cfg, power, f, outcomes, auto, forces, base, date, p);
    LooseBase(prev, x, cfg, power, frag, f, outcomes, auto, forces, base, date, p);
  }

  lemma LooseBase(
    prev: Option<Schedule>, x: Inputs, cfg: Config, power: real, frag: seq<Rate>, f: seq<Rate>, outcomes: seq<Outcome>,
    auto: Option<Schedule>, forces: seq<Period>, base: Option<Schedule>, date: int, running: Period)
    requires BaseFrom(x, cfg, power, f, outcomes, auto, forces, base) && Ordered(x.rates)
    requires TimeOfDay(cfg.deadlineOfDay) && Fragments(AutoRates(cfg, x.rates), x.overrides, frag)
    requires LooselyClear(prev, frag, AutoConfig(x, cfg), power, x.now, date, running)
    ensures PlanClear(prev, SlotsIn(auto), date, running)
  {
    BaseParts(x, cfg, power, f, outcomes, auto, forces, base);
    NegativesOrdered(x.rates);
    if Allowed(x, cfg) {
      SameCarving(x, cfg, f, frag);
      SameLimit(x, cfg);
      assert Ordered(frag);
      hide *;
      LooseAuto(prev, frag, AutoConfig(x, cfg), power, x.now, outcomes, auto, date, running);
    }
  }

  lemma LooseAuto(
    prev: Option<Schedule>, rates: seq<Rate>, cfg: Config, power: real, now: int, outcomes: seq<Outcome>,
    auto: Option<Schedule>, date: int, running: Period)
    requires PlanFor(rates, cfg, power, now, outcomes, auto) && Ordered(rates)
    requires LooselyClear(prev, rates, cfg, power, now, date, running)
    ensures PlanClear(prev, SlotsIn(auto), date, running)
  {
    hide *;
    PlanSize(rates, cfg, power, now, outcomes, auto);
    LooseOutcome(prev, rates, cfg, power, now, outcomes, auto, 0, date, running);
    if |outcomes| == 2 {
      LooseOutcome(prev, rates, cfg, power, now, outcomes, auto, 1, date, running);
    }
    OutcomesClear(prev, rates, cfg, power, now, outcomes, auto, date, running);
  }

  lemma LooseOutcome(
    prev: Option<Schedule>, rates: seq<Rate>, cfg: Config, power: real, now: int, outcomes: seq<Outcome>,
    auto: Option<Schedule>, k: nat, date: int, running: Period)
    requires PlanFor(rates, cfg, power, now, outcomes, auto) && Ordered(rates) && k < |outcomes| <= 2
    requires LooselyClear(prev, rates, cfg, power, now, date, running)
    ensures PlanClear(prev, SlotList(outcomes[k]), date, running)
  {
    var o, d, wanted := outcomes[k], DeadlineOf(cfg, now, k), Wanted(cfg, outcomes, k);
    PlannedOutcome(rates, cfg, power, now, outcomes, auto, k);
    PlanSize(rates, cfg, power, now, outcomes, auto);
    WindowsAre(rates, cfg, power, now, outcomes, auto);
    DueAt(rates, cfg, power, now, outcomes, auto, k);
    LessWanted(rates, cfg, power, now, outcomes, auto);
    assert PicksClear(prev, WindowAt(rates, cfg, now, k), RankedAt(rates, cfg, power, now, k, Target(cfg)), d, date,
      running);
    assert wanted > 0.0 || (k == 0 && wanted == Target(cfg));
    hide PlanFor, Ordered, LooselyClear, WindowAt, RankedAt, Picked, Chosen, Wanted, PeriodsOf, PlanClear, SlotList,
      ClearAt, DeadlineOf, OutcomeGood, SlotsOf, Hundredths, EnergyOf;
    PicksRankLow(rates, cfg, power, now, k, wanted, o.picked);
    OutcomeClear(prev, power, o, d, date, running);
  }

  lemma DueAt(
    rates: seq<Rate>, cfg: Config, power: real, now: int, outcomes: seq<Outcome>, auto: Option<Schedule>, k: nat)
    requires PlanFor(rates, cfg, power, now, outcomes, auto) && k < |outcomes|
    ensures outcomes[k].slot.Some? ==> outcomes[k].slot.value.deadline == DeadlineOf(cfg, now, k)
  {
    assert WorkedAt(rates, cfg, power, now, k, outcomes[k], Wanted(cfg, outcomes, k));
  }

  /** What is wanted of the second window is no more than the target. */
  lemma LessWanted(
    rates: seq<Rate>, cfg: Config, power: real, now: int, outcomes: seq<Outcome>, auto: Option<Schedule>)
    requires PlanFor(rates, cfg, power, now, outcomes, auto) && Ordered(rates)
    ensures Wanted(cfg, outcomes, 1) <= Target(cfg)
  {
    PlanSize(rates, cfg, power, now, outcomes, auto);
    PlannedOutcome(rates, cfg, power, now, outcomes, auto, 0);
    var o := outcomes[0];
    hide PlanFor, Wanted, Ordered, WindowAt, Picked, OutcomeGood, SlotsOf, Hundredths, EnergyOf, PeriodsOf, Target;
    PickedEnergyNotNegative(rates, cfg, power, now, o);
  }

  lemma PickedEnergyNotNegative(rates: seq<Rate>, cfg: Config, power: real, now: int, o: Outcome)
    requires Ordered(PeriodsOf(o)) && PeriodsOf(o) == Picked(WindowAt(rates, cfg, now, 0), o.picked, power)
    requires power <= 0.0 ==> o.picked == {}
    ensures Hundredths(EnergyOf(PeriodsOf(o))) >= 0.0
  {
    var w := WindowAt(rates, cfg, now, 0);
    NoHundredths();
    NothingPicked(w, power);
    if power > 0.0 {
      PositiveEnergy(PeriodsOf(o), power, w, o.picked);
      NotNegative(EnergyOf(PeriodsOf(o)));
    }
  }

  lemma NotNegative(e: real)
    requires e >= 0.0
    ensures Hundredths(e) >= 0.0
  {
  }

  lemma PositiveEnergy(ps: seq<Period>, power: real, w: seq<Rate>, picked: set<int>)
    requires power > 0.0 && Ordered(ps) && ps == Picked(w, picked, power)
    ensures EnergyOf(ps) >= 0.0
  {
    forall p | p in ps
      ensures p.value.power == power && p.start < p.end
    {
      PickedFrom(w, picked, power);
      var i :| 0 <= i < |ps| && ps[i] == p;
    }
    hide Ordered, Picked;
    SumNotNegative(ps, power);
  }

  lemma {:induction false} SumNotNegative(ps: seq<Period>, power: real)
    requires power > 0.0 && forall p :: p in ps ==> p.value.power == power && p.start < p.end
    ensures EnergyOf(ps) >= 0.0
  {
    if ps != [] {
      var p := ps[|ps| - 1];
      assert p in ps;
      SumNotNegative(ps[..|ps| - 1], power);
      TimesPositive(power / 1000.0, p.Hours());
      assert PeriodEnergy(p) == Times(power / 1000.0, p.Hours());
    }
  }
}
