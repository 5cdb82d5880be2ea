/**
 What a plan from scratch does for the target, on the tariff and the overrides: hours picked, energy planned,
 and when there is nothing to plan (scheduler.go).
 */
module Automatic {
  import opened Arithmetic
  import opened Sorting
  import opened Spans
  import opened Plan
  import opened OverrideTable
  import opened Fragment
  import opened Selection
  import opened Planner
  import opened Slots
  import opened Forces
  import opened Pipeline
  import opened Merge
  import opened Recompute

  // ----- what the forces leave, whatever their order -----

  lemma EnergyWithout(ps: seq<Period>, k: nat)
    requires k < |ps|
    ensures EnergyOf(ps) == EnergyOf(ps[..k] + ps[k + 1..]) + PeriodEnergy(ps[k])
  {
    hide *;
    var a, b := ps[..k], ps[k + 1..];
    assert ps == a + [ps[k]] + b;
    EnergyConcat(a, b);
    EnergyConcat(a + [ps[k]], b);
    TotalsStep(a, ps[k]);
  }

  lemma {:induction false} EnergyPermutes(a: seq<Period>, b: seq<Period>)
    requires multiset(a) == multiset(b)
    ensures EnergyOf(a) == EnergyOf(b)
  {
    assert |multiset(a)| == |a| && |multiset(b)| == |b|;
    if a != [] {
      var n := |a| - 1;
      assert a[n] in multiset(b);
      var k :| 0 <= k < |b| && b[k] == a[n];
      RemoveOne(a, n);
      RemoveOne(b, k);
      EnergyWithout(a, n);
      EnergyWithout(b, k);
      assert a[..n] + a[n + 1..] == a[..n];
      hide EnergyOf, PeriodEnergy;
      EnergyPermutes(a[..n], b[..k] + b[k + 1..]);
    }
  }

  function PricedForces(x: Inputs): seq<Period> { ForcePeriods(ForcesOf(x.overrides), x.rates) }

  /** The settings the automatic part works with: the target less the forces. */
  function AutoConfig(x: Inputs, cfg: Config): Config { cfg.(target := AutoTarget(cfg, PricedForces(x))) }

  /** The parts of a plan from scratch, on the inputs. */
  lemma BaseParts(
    x: Inputs, cfg: Config, power: real, frag: seq<Rate>, outcomes: seq<Outcome>, auto: Option<Schedule>,
    forces: seq<Period>, base: Option<Schedule>)
    requires BaseFrom(x, cfg, power, frag, outcomes, auto, forces, base)
    ensures multiset(forces) == multiset(PricedForces(x)) && (forces == [] <==> ForcesOf(x.overrides) == [])
    ensures cfg.(target := AutoTarget(cfg, forces)) == AutoConfig(x, cfg)
    ensures Merged(auto, forces, cfg.deadlineOfDay, base)
    ensures if AutoConfig(x, cfg).target > 0.0 && AutoRates(cfg, x.rates) != [] then
        && Fragments(AutoRates(cfg, x.rates), x.overrides, frag)
        && PlanFor(frag, AutoConfig(x, cfg), power, x.now, outcomes, auto)
      else auto.None?
  {
    EnergyPermutes(forces, PricedForces(x));
    assert |multiset(forces)| == |forces| && |multiset(PricedForces(x))| == |PricedForces(x)|;
    hide Fragments, PlanFor, EnergyOf, ForcesOf, Merged;
  }

  // ----- free seconds -----

  predicate Affordable(price: real, limit: real) { price != 0.0 && !(limit > 0.0 && price > limit) }

  /** At `t` charging may be planned at that price: a rate asks it, the settings allow it, no override claims `t`. */
  ghost predicate FreeAt(x: Inputs, cfg: Config, t: int, price: real) {
    && PricedAt(x.rates, t, price) && !Overridden(x.overrides, t)
    && Affordable(price, PriceLimit(cfg)) && (AboveSkip(cfg) ==> price < 0.0)
  }

  /** The same in the fields of the settings. */
  lemma FreeExactly(x: Inputs, cfg: Config, t: int, price: real)
    ensures FreeAt(x, cfg, t, price) <==>
      && (exists i :: 0 <= i < |x.rates| && x.rates[i].start <= t < x.rates[i].end && x.rates[i].value == price)
      && (forall j :: 0 <= j < |x.overrides| ==> !(x.overrides[j].window.start <= t < x.overrides[j].window.end))
      && price != 0.0
      && (cfg.maxPrice <= 0.0 || (cfg.minSoC > 0.0 && cfg.currentSoC < cfg.minSoC) || price <= cfg.maxPrice)
      && (cfg.batteryCapacity > 0.0 && cfg.skipAboveSoC > 0.0 && cfg.currentSoC >= cfg.skipAboveSoC ==> price < 0.0)
  {
    assert PricedAt(x.rates, t, price) <==>
      exists i :: 0 <= i < |x.rates| && x.rates[i].start <= t < x.rates[i].end && x.rates[i].value == price;
    assert Overridden(x.overrides, t) <==>
      exists j :: 0 <= j < |x.overrides| && x.overrides[j].window.start <= t < x.overrides[j].window.end;
    hide PricedAt, Overridden;
  }

  /** Planning looks two deadlines ahead. */
  function Horizon(x: Inputs, cfg: Config): int { FirstDeadline(x.now, cfg.deadlineOfDay) + SECONDS_PER_DAY }

  lemma {:induction false} NegativesPriced(rates: seq<Rate>, t: int, price: real)
    ensures PricedAt(Negatives(rates), t, price) <==> PricedAt(rates, t, price) && price < 0.0
  {
    if rates != [] {
      var n := |rates| - 1;
      NegativesPriced(rates[..n], t, price);
      PricedConcat(rates[..n], [rates[n]]);
      PricedConcat(Negatives(rates[..n]), [rates[n]]);
      assert rates == rates[..n] + [rates[n]];
      OnePriced(rates[n], t, price);
      if rates[n].value >= 0.0 { assert Negatives(rates) == Negatives(rates[..n]); }
      hide PricedAt;
    }
  }

  lemma OnePriced(r: Rate, t: int, price: real)
    ensures PricedAt([r], t, price) <==> r.Covers(t) && price == r.value
  {
    assert [r][0] == r;
  }

  /** What carving leaves, where it is affordable, are the free seconds. */
  lemma CarvedIsFree(x: Inputs, cfg: Config, frag: seq<Rate>, t: int, price: real)
    requires Fragments(AutoRates(cfg, x.rates), x.overrides, frag)
    ensures PricedAt(frag, t, price) && Affordable(price, PriceLimit(cfg)) <==> FreeAt(x, cfg, t, price)
  {
    NegativesPriced(x.rates, t, price);
    hide PricedAt, Overridden, Affordable, PriceLimit, AboveSkip;
  }

  /** An affordable second of the two windows' days. */
  ghost predicate OpenAt(frag: seq<Rate>, cfg: Config, now: int, t: int, price: real) {
    && now <= t < FirstDeadline(now, cfg.deadlineOfDay) + SECONDS_PER_DAY
    && PricedAt(frag, t, price) && Affordable(price, PriceLimit(cfg))
  }

  /** Either window offers something exactly if some affordable second lies ahead. */
  lemma SomethingOffered(frag: seq<Rate>, cfg: Config, now: int)
    requires TimeOfDay(cfg.deadlineOfDay) && Ordered(frag)
    ensures (WindowAt(frag, cfg, now, 0) != [] || WindowAt(frag, cfg, now, 1) != []) <==>
      exists t, price :: OpenAt(frag, cfg, now, t, price)
  {
    FirstDeadlineFacts(now, cfg.deadlineOfDay);
    hide PriceLimit, FirstDeadline, WindowOf;
    if WindowAt(frag, cfg, now, 0) != [] { OfferedSecond(frag, cfg, now, 0); }
    if WindowAt(frag, cfg, now, 1) != [] { OfferedSecond(frag, cfg, now, 1); }
    if t, price :| OpenAt(frag, cfg, now, t, price) {
      var i :| 0 <= i < |frag| && frag[i].Covers(t) && frag[i].value == price;
      var k := SecondIsOffered(frag, cfg, now, i, t);
      assert frag[i] in WindowAt(frag, cfg, now, k);
    }
  }

  ghost function WindowAt(rates: seq<Rate>, cfg: Config, now: int, k: int): seq<Rate> {
    WindowOf(rates, PriceLimit(cfg), WindowStart(cfg, now, k), DeadlineOf(cfg, now, k))
  }

  /** The carved rate of an affordable second ahead is offered to one of the windows. */
  lemma SecondIsOffered(frag: seq<Rate>, cfg: Config, now: int, i: nat, t: int) returns (k: nat)
    requires TimeOfDay(cfg.deadlineOfDay) && Ordered(frag) && i < |frag| && frag[i].Covers(t)
    requires Affordable(frag[i].value, PriceLimit(cfg))
    requires now <= t < FirstDeadline(now, cfg.deadlineOfDay) + SECONDS_PER_DAY
    ensures k < 2 && frag[i] in WindowAt(frag, cfg, now, k)
  {
    FirstDeadlineFacts(now, cfg.deadlineOfDay);
    k := if frag[i].start < FirstDeadline(now, cfg.deadlineOfDay) then 0 else 1;
    hide FirstDeadline, PriceLimit;
    WindowKeeps(frag, PriceLimit(cfg), WindowStart(cfg, now, k), DeadlineOf(cfg, now, k));
    assert frag[i] in frag;
  }

  lemma OfferedSecond(frag: seq<Rate>, cfg: Config, now: int, k: int)
    requires TimeOfDay(cfg.deadlineOfDay) && Ordered(frag) && 0 <= k < 2 && WindowAt(frag, cfg, now, k) != []
    ensures exists t, price :: OpenAt(frag, cfg, now, t, price)
  {
    FirstDeadlineFacts(now, cfg.deadlineOfDay);
    WindowKeeps(frag, PriceLimit(cfg), WindowStart(cfg, now, k), DeadlineOf(cfg, now, k));
    var r := WindowAt(frag, cfg, now, k)[0];
    assert r in WindowAt(frag, cfg, now, k);
    var i :| 0 <= i < |frag| && frag[i] == r;
    var t := Max(r.start, now);
    hide FirstDeadline, PriceLimit, WindowOf;
    assert frag[i].Covers(t);
    assert OpenAt(frag, cfg, now, t, r.value);
  }

  // ----- when there is an automatic plan -----

  /** There is something to charge, some free second to charge it in, and settings that ask for hours. */
  ghost predicate WorthPlanning(x: Inputs, cfg: Config, power: real) {
    && power > 0.0 && Headroom(cfg.headroom) > 0.0 && AutoConfig(x, cfg).target > 0.0
    && exists t, price :: x.now <= t < Horizon(x, cfg) && FreeAt(x, cfg, t, price)
  }

  lemma SomethingNeeded(target: real, power: real, headroom: real)
    requires power > 0.0 && target > 0.0
    ensures HoursNeeded(target, power, headroom) > 0 <==> Headroom(headroom) > 0.0
  {
    var asked := Times(target, Headroom(headroom));
    var need := asked / (power / 1000.0);
    CeilBounds(need);
    SignOfTimes(target, Headroom(headroom));
    assert asked > 0.0 <==> need > 0.0 by { hide Times; }
  }

  lemma SignOfTimes(x: real, y: real)
    requires x > 0.0
    ensures Times(x, y) > 0.0 <==> y > 0.0
  {
  }

  lemma {:induction false} SomePicked(rates: seq<Rate>, picked: set<int>, power: real)
    requires Indices(rates, picked)
    ensures Picked(rates, picked, power) == [] <==> picked == {}
  {
    if i :| i in picked {
      PickedHas(rates, picked, power, i);
    } else {
      NoMembers(picked);
      assert |picked| == 0 ==> picked == {};
      NothingPicked(rates, power);
    }
  }

  lemma {:induction false} PickedHas(rates: seq<Rate>, picked: set<int>, power: real, i: nat)
    requires i < |rates| && i in picked
    ensures AsPeriod(rates[i], power) in Picked(rates, picked, power)
  {
    if i < |rates| - 1 { PickedHas(rates[..|rates| - 1], picked, power, i); }
  }

  /** A window wanted something of yields a slot exactly if it offers something and hours are asked for. */
  lemma WindowYields(rates: seq<Rate>, cfg: Config, power: real, now: int, k: int, o: Outcome, wanted: real)
    requires WorkedAt(rates, cfg, power, now, k, o, wanted) && DistinctStarts(rates) && wanted > 0.0
    ensures o.slot.Some? <==>
      power > 0.0 && Headroom(cfg.headroom) > 0.0 && WindowAt(rates, cfg, now, k) != []
  {
    WindowKeeps(rates, PriceLimit(cfg), WindowStart(cfg, now, k), DeadlineOf(cfg, now, k));
    SomePicked(o.window, o.picked, power);
    if power > 0.0 {
      SomethingNeeded(wanted, power, cfg.headroom);
      NoMembers(o.picked);
      assert |o.picked| == 0 ==> o.picked == {};
    }
    hide HoursNeeded, Headroom, WindowOf, Picked;
  }

  /** The automatic part yields a plan exactly if hours are asked for and either window offers something. */
  lemma AutomaticYields(
    rates: seq<Rate>, cfg: Config, power: real, now: int, outcomes: seq<Outcome>, auto: Option<Schedule>)
    requires PlanFor(rates, cfg, power, now, outcomes, auto) && DistinctStarts(rates) && cfg.target > 0.0
    ensures auto.Some? <==>
      && power > 0.0 && Headroom(cfg.headroom) > 0.0
      && (WindowAt(rates, cfg, now, 0) != [] || WindowAt(rates, cfg, now, 1) != [])
  {
    var first := outcomes[0];
    assert Wanted(cfg, outcomes, 0) == cfg.target;
    assert WorkedAt(rates, cfg, power, now, 0, first, Wanted(cfg, outcomes, 0));
    assert Wanted(cfg, outcomes, 1) == cfg.target - SlotEnergy(first.slot);
    hide WorkedAt, WindowAt, SlotsOf;
    WindowYields(rates, cfg, power, now, 0, first, cfg.target);
    if |outcomes| == 1 {
      SlotsOfOne(outcomes);
    } else {
      assert WorkedAt(rates, cfg, power, now, 1, outcomes[1], Wanted(cfg, outcomes, 1));
      SlotsOfTwo(outcomes);
      if first.slot.None? { WindowYields(rates, cfg, power, now, 1, outcomes[1], cfg.target); }
    }
  }

  /** No force, and nothing worth planning. */
  ghost predicate NothingPlanned(x: Inputs, cfg: Config, power: real) {
    ForcesOf(x.overrides) == [] && !WorthPlanning(x, cfg, power)
  }

  /**
   For any chronological tariff: there is no plan from scratch exactly when there is no force and nothing
   worth planning.
   */
  lemma NoBaseExactly(x: Inputs, cfg: Config, power: real, base: Option<Schedule>)
    requires Base(x, cfg, power, base) && TimeOfDay(cfg.deadlineOfDay) && Ordered(x.rates)
    ensures base.None? <==> NothingPlanned(x, cfg, power)
  {
    var frag, outcomes, auto, forces :| BaseFrom(x, cfg, power, frag, outcomes, auto, forces, base);
    BaseParts(x, cfg, power, frag, outcomes, auto, forces, base);
    assert base.None? <==> auto.None? && forces == [];
    hide Base, BaseFrom, Merged, Fragments, PlanFor, ForcesOf;
    AutoExactly(x, cfg, power, frag, outcomes, auto);
  }

  lemma AutoExactly(
    x: Inputs, cfg: Config, power: real, frag: seq<Rate>, outcomes: seq<Outcome>, auto: Option<Schedule>)
    requires TimeOfDay(cfg.deadlineOfDay) && Ordered(x.rates)
    requires if AutoConfig(x, cfg).target > 0.0 && AutoRates(cfg, x.rates) != [] then
        && Fragments(AutoRates(cfg, x.rates), x.overrides, frag)
        && PlanFor(frag, AutoConfig(x, cfg), power, x.now, outcomes, auto)
      else auto.None?
    ensures auto.Some? <==> WorthPlanning(x, cfg, power)
  {
    NegativesOrdered(x.rates);
    if AutoConfig(x, cfg).target > 0.0 && AutoRates(cfg, x.rates) != [] {
      hide AutoRates, Ordered, Fragments, PlanFor, AutoConfig, WorthPlanning;
      AutoPlanned(x, cfg, power, frag, outcomes, auto);
    } else if AutoRates(cfg, x.rates) == [] {
      forall t, price
        ensures !FreeAt(x, cfg, t, price)
      {
        NegativesPriced(x.rates, t, price);
      }
    }
  }

  lemma AutoPlanned(
    x: Inputs, cfg: Config, power: real, frag: seq<Rate>, outcomes: seq<Outcome>, auto: Option<Schedule>)
    requires TimeOfDay(cfg.deadlineOfDay) && Ordered(AutoRates(cfg, x.rates)) && AutoConfig(x, cfg).target > 0.0
    requires Fragments(AutoRates(cfg, x.rates), x.overrides, frag)
    requires PlanFor(frag, AutoConfig(x, cfg), power, x.now, outcomes, auto)
    ensures auto.Some? <==> WorthPlanning(x, cfg, power)
  {
    var planned := AutoConfig(x, cfg);
    SameLimit(x, cfg);
    CarvedStarts(AutoRates(cfg, x.rates), x.overrides, frag);
    hide PlanFor, Ordered, AutoRates, AutoConfig, WindowAt, PriceLimit, DistinctStarts, Fragments, Headroom, OpenAt,
      FreeAt, Horizon;
    AutomaticYields(frag, planned, power, x.now, outcomes, auto);
    SomethingOffered(frag, planned, x.now);
    OpenIsFree(x, cfg, frag);
  }

  lemma OpenIsFree(x: Inputs, cfg: Config, frag: seq<Rate>)
    requires Fragments(AutoRates(cfg, x.rates), x.overrides, frag)
    ensures (exists t, price :: OpenAt(frag, AutoConfig(x, cfg), x.now, t, price)) <==>
      exists t, price :: x.now <= t < Horizon(x, cfg) && FreeAt(x, cfg, t, price)
  {
    SameLimit(x, cfg);
    forall t, price
      ensures OpenAt(frag, AutoConfig(x, cfg), x.now, t, price) <==>
        x.now <= t < Horizon(x, cfg) && FreeAt(x, cfg, t, price)
    {
      hide Fragments, PricedAt, Affordable, FreeAt, AutoConfig, PriceLimit;
      CarvedIsFree(x, cfg, frag, t, price);
    }
    hide OpenAt, FreeAt, Horizon, Fragments;
  }

  lemma CarvedStarts(rates: seq<Rate>, overrides: seq<Override>, frag: seq<Rate>)
    requires Ordered(rates) && Fragments(rates, overrides, frag)
    ensures Ordered(frag) && DistinctStarts(frag)
  {
    StartsIncrease(frag);
    hide Ordered;
  }

  lemma SameLimit(x: Inputs, cfg: Config)
    ensures PriceLimit(AutoConfig(x, cfg)) == PriceLimit(cfg)
    ensures AutoConfig(x, cfg).deadlineOfDay == cfg.deadlineOfDay && AutoConfig(x, cfg).headroom == cfg.headroom
  {
  }

  // ----- what it picks -----

  function Unforced(ps: seq<Period>): seq<Period> {
    if ps == [] then []
    else
      var n := |ps| - 1;
      Unforced(ps[..n]) + if ps[n].value.forced then [] else [ps[n]]
  }

  /** The automatic periods of a date's slots, cancelled or not. */
  function AutomaticOn(slots: seq<Slot>, date: int): seq<Period> {
    if slots == [] then []
    else
      var n := |slots| - 1;
      AutomaticOn(slots[..n], date) + if slots[n].date == date then Unforced(slots[n].periods) else []
  }

  function Target(cfg: Config): real { if cfg.target < 0.0 then 0.0 else cfg.target }

  function DateAt(cfg: Config, now: int, k: int): int { DateOf(DeadlineOf(cfg, now, k)) }

  /** A cheapest choice in window k of as many rates as hours are needed for what is wanted. */
  ghost predicate Chosen(
    rates: seq<Rate>, cfg: Config, power: real, now: int, k: int, wanted: real, picked: set<int>) {
    if power <= 0.0 then picked == {}
    else Cheapest(WindowAt(rates, cfg, now, k), picked, HoursNeeded(wanted, power, cfg.headroom))
  }

  /** The automatic periods of the two days are two such choices, the second for what the first leaves wanted. */
  ghost predicate ServedBy(
    rates: seq<Rate>, cfg: Config, power: real, now: int, slots: seq<Slot>, first: set<int>, second: set<int>) {
    var today := AutomaticOn(slots, DateAt(cfg, now, 0));
    var left := Target(cfg) - Hundredths(EnergyOf(today));
    && Chosen(rates, cfg, power, now, 0, Target(cfg), first)
    && today == Picked(WindowAt(rates, cfg, now, 0), first, power)
    && (if left > 0.0 then Chosen(rates, cfg, power, now, 1, left, second) else second == {})
    && AutomaticOn(slots, DateAt(cfg, now, 1)) == Picked(WindowAt(rates, cfg, now, 1), second, power)
  }

  ghost predicate Serves(rates: seq<Rate>, cfg: Config, power: real, now: int, slots: seq<Slot>) {
    exists first, second :: ServedBy(rates, cfg, power, now, slots, first, second)
  }

  lemma {:induction false} UnforcedBag(ps: seq<Period>, p: Period)
    ensures multiset(Unforced(ps))[p] == if p.value.forced then 0 else multiset(ps)[p]
  {
    if ps != [] {
      var n := |ps| - 1;
      UnforcedBag(ps[..n], p);
      assert ps == ps[..n] + [ps[n]];
    }
  }

  lemma {:induction false} UnforcedFrom(ps: seq<Period>, p: Period)
    ensures p in Unforced(ps) <==> p in ps && !p.value.forced
  {
    UnforcedBag(ps, p);
    assert p in Unforced(ps) <==> multiset(Unforced(ps))[p] > 0;
    assert p in ps <==> multiset(ps)[p] > 0;
  }

  lemma {:induction false} UnforcedSorted(ps: seq<Period>)
    requires StartSorted(ps)
    ensures StartSorted(Unforced(ps))
  {
    if ps != [] {
      var n := |ps| - 1;
      var before := Unforced(ps[..n]);
      UnforcedSorted(ps[..n]);
      forall p | p in before
        ensures p.start <= ps[n].start
      {
        UnforcedFrom(ps[..n], p);
        var i :| 0 <= i < n && ps[..n][i] == p;
      }
      assert forall i :: 0 <= i < |before| ==> before[i] in before;
    }
  }

  ghost predicate OneADate(slots: seq<Slot>) {
    forall j, k :: 0 <= j < k < |slots| ==> slots[j].date != slots[k].date
  }

  lemma {:induction false} NothingOn(slots: seq<Slot>, date: int)
    requires forall k :: 0 <= k < |slots| ==> slots[k].date != date
    ensures AutomaticOn(slots, date) == []
  {
    if slots != [] { NothingOn(slots[..|slots| - 1], date); }
  }

  lemma {:induction false} AutomaticSorted(slots: seq<Slot>, date: int)
    requires OneADate(slots) && forall k :: 0 <= k < |slots| ==> StartSorted(slots[k].periods)
    ensures StartSorted(AutomaticOn(slots, date))
  {
    if slots != [] {
      var n := |slots| - 1;
      hide StartSorted;
      if slots[n].date == date {
        NothingOn(slots[..n], date);
        UnforcedSorted(slots[n].periods);
        assert AutomaticOn(slots, date) == Unforced(slots[n].periods);
      } else {
        AutomaticSorted(slots[..n], date);
        assert AutomaticOn(slots, date) == AutomaticOn(slots[..n], date);
      }
    }
  }

  /** By deadline or by date: the same automatic periods. */
  lemma {:induction false} AutomaticBag(slots: seq<Slot>, d: int, p: Period)
    requires forall k :: 0 <= k < |slots| ==> (slots[k].date == DateOf(d) <==> slots[k].deadline == d)
    ensures multiset(AutomaticOn(slots, DateOf(d)))[p] == if p.value.forced then 0 else PeriodsAt(slots, d)[p]
  {
    if slots != [] {
      var n := |slots| - 1;
      hide DateOf;
      AutomaticBag(slots[..n], d, p);
      UnforcedBag(slots[n].periods, p);
    }
  }

  lemma SlotOfDeadline(x: Inputs, cfg: Config, slots: seq<Slot>, k: nat)
    requires GoodBase(x, cfg, slots) && TimeOfDay(cfg.deadlineOfDay) && k < |slots|
    ensures IsDeadline(slots[k].deadline, cfg.deadlineOfDay) && slots[k].date == DateOf(slots[k].deadline)
    ensures !slots[k].cancelled
  {
    assert Sound(slots[k]);
    var q, d := slots[k].periods[0], slots[k].deadline;
    assert WellPlaced(x.rates, x.rates, x.overrides, cfg.deadlineOfDay, x.now, q, d);
    hide Respects, IsForce, InsideRate, GoodBase, NextDeadlineAfter, FirstDeadline, IsDeadline, DateOf;
    NextDeadlineIsFirst(q.start, cfg.deadlineOfDay, d);
    FirstDeadlineFacts(x.now, cfg.deadlineOfDay);
  }

  lemma OneSlotADate(x: Inputs, cfg: Config, slots: seq<Slot>, j: nat, k: nat)
    requires GoodBase(x, cfg, slots) && TimeOfDay(cfg.deadlineOfDay) && j < |slots| && k < |slots|
    ensures slots[j].date == slots[k].date <==> j == k
    ensures slots[j].deadline == slots[k].deadline <==> j == k
  {
    SlotOfDeadline(x, cfg, slots, j);
    SlotOfDeadline(x, cfg, slots, k);
    assert DeadlinesIncrease(slots);
    hide GoodBase, IsDeadline, DateOf;
    DeadlinesApart(slots[j].deadline, slots[k].deadline, cfg.deadlineOfDay);
  }

  lemma BaseDates(x: Inputs, cfg: Config, slots: seq<Slot>, d: int)
    requires GoodBase(x, cfg, slots) && TimeOfDay(cfg.deadlineOfDay) && IsDeadline(d, cfg.deadlineOfDay)
    ensures OneADate(slots) && forall k :: 0 <= k < |slots| ==> StartSorted(slots[k].periods)
    ensures forall k :: 0 <= k < |slots| ==> (slots[k].date == DateOf(d) <==> slots[k].deadline == d)
  {
    forall k | 0 <= k < |slots|
      ensures StartSorted(slots[k].periods) && (slots[k].date == DateOf(d) <==> slots[k].deadline == d)
    {
      assert Sound(slots[k]);
      SlotOfDeadline(x, cfg, slots, k);
      DeadlinesApart(slots[k].deadline, d, cfg.deadlineOfDay);
    }
    forall j, k | 0 <= j < k < |slots|
      ensures slots[j].date != slots[k].date
    {
      OneSlotADate(x, cfg, slots, j, k);
    }
  }

  /** The merged plan's automatic periods of a date are those the automatic plan has under its deadline. */
  lemma MergedAutomatic(
    x: Inputs, cfg: Config, auto: Option<Schedule>, forces: seq<Period>, base: Option<Schedule>, d: int,
    picks: seq<Period>)
    requires GoodBase(x, cfg, SlotsIn(base)) && TimeOfDay(cfg.deadlineOfDay) && IsDeadline(d, cfg.deadlineOfDay)
    requires Merged(auto, forces, cfg.deadlineOfDay, base) && multiset(forces) == multiset(PricedForces(x))
    requires PeriodsAt(SlotsIn(auto), d) == multiset(picks) && Ordered(picks)
    requires forall p :: p in picks ==> !p.value.forced
    ensures AutomaticOn(SlotsIn(base), DateOf(d)) == picks
  {
    var on := AutomaticOn(SlotsIn(base), DateOf(d));
    BaseDates(x, cfg, SlotsIn(base), d);
    AutomaticSorted(SlotsIn(base), DateOf(d));
    ForcesAtMember(forces, d, cfg.deadlineOfDay);
    AllForced(x, forces);
    assert PeriodsAt(SlotsIn(base), d) == multiset(picks) + ForcesAt(forces, d, cfg.deadlineOfDay);
    hide GoodBase, Merged, PeriodsAt, ForcesAt, StartSorted, Ordered, DateOf, AutomaticOn, OneADate;
    forall p
      ensures multiset(on)[p] == multiset(picks)[p]
    {
      AutomaticBag(SlotsIn(base), d, p);
      assert p in picks <==> p in multiset(picks);
      assert p in ForcesAt(forces, d, cfg.deadlineOfDay) ==> p in forces;
    }
    assert multiset(on) == multiset(picks);
    OrderedHasOneSort(picks, on);
  }

  lemma AllForced(x: Inputs, forces: seq<Period>)
    requires multiset(forces) == multiset(PricedForces(x))
    ensures forall p :: p in forces ==> p.value.forced
  {
    hide ForcesOf;
    forall p | p in forces
      ensures p.value.forced
    {
      assert p in multiset(forces);
      var i :| 0 <= i < |PricedForces(x)| && PricedForces(x)[i] == p;
    }
  }

  lemma NoHundredths()
    ensures Hundredths(EnergyOf([])) == 0.0
  {
    assert EnergyOf([]) == 0.0;
    HundredthsClose(0.0);
  }

  lemma {:induction false} PickedIff(rates: seq<Rate>, picked: set<int>, power: real, p: Period)
    ensures p in Picked(rates, picked, power) <==>
      exists i :: i in picked && 0 <= i < |rates| && p == AsPeriod(rates[i], power)
  {
    if rates != [] {
      var n := |rates| - 1;
      PickedIff(rates[..n], picked, power, p);
      if p in Picked(rates[..n], picked, power) {
        var i :| i in picked && 0 <= i < n && p == AsPeriod(rates[..n][i], power);
        assert p == AsPeriod(rates[i], power);
      }
      if i :| i in picked && 0 <= i < |rates| && p == AsPeriod(rates[i], power) {
        assert i < n ==> p == AsPeriod(rates[..n][i], power);
      }
    }
  }

  /** What the outcome of window k puts under each of the two deadlines. */
  lemma ListAt(rates: seq<Rate>, cfg: Config, power: real, now: int, k: int, o: Outcome, l: int)
    requires OutcomeGood(rates, cfg, power, now, k, o)
    ensures PeriodsAt(SlotList(o), DeadlineOf(cfg, now, l)) == if k == l then multiset(PeriodsOf(o)) else multiset{}
  {
    hide Offered, Ordered, Sound, TidySlot;
    if o.slot.Some? { assert SlotList(o)[..0] == []; }
  }

  /** One window's outcome is a chronological cheapest choice, with its rounded energy. */
  lemma OutcomeChosen(rates: seq<Rate>, cfg: Config, power: real, now: int, k: int, o: Outcome, wanted: real)
    requires WorkedAt(rates, cfg, power, now, k, o, wanted) && Ordered(rates) && 0 <= k < 2
    ensures Chosen(rates, cfg, power, now, k, wanted, o.picked)
    ensures PeriodsOf(o) == Picked(WindowAt(rates, cfg, now, k), o.picked, power)
    ensures Ordered(PeriodsOf(o)) && forall p :: p in PeriodsOf(o) ==> !p.value.forced
    ensures SlotEnergy(o.slot) == Hundredths(EnergyOf(PeriodsOf(o)))
  {
    var limit, start, d := PriceLimit(cfg), WindowStart(cfg, now, k), DeadlineOf(cfg, now, k);
    WindowOrdered(rates, limit, start, d);
    OrderedStarts(o.window);
    PickedOrdered(o.window, o.picked, power);
    forall p | p in Picked(o.window, o.picked, power)
      ensures !p.value.forced
    {
      PickedFrom(o.window, o.picked, power);
    }
    NoHundredths();
    hide Hundredths, EnergyOf, Ordered, Cheapest, Picked, HoursNeeded, WindowOf;
  }

  lemma PlanSize(
    rates: seq<Rate>, cfg: Config, power: real, now: int, outcomes: seq<Outcome>, auto: Option<Schedule>)
    requires PlanFor(rates, cfg, power, now, outcomes, auto)
    ensures 1 <= |outcomes| <= 2 && SlotsIn(auto) == SlotsOf(outcomes)
    ensures Wanted(cfg, outcomes, 0) == Target(cfg)
    ensures Wanted(cfg, outcomes, 1) == Target(cfg) - SlotEnergy(outcomes[0].slot)
    ensures |outcomes| == 2 <==> Wanted(cfg, outcomes, 1) > 0.0
  {
    WantedFirst(cfg, outcomes);
    if |outcomes| == 2 { assert WorkedAt(rates, cfg, power, now, 1, outcomes[1], Wanted(cfg, outcomes, 1)); }
    hide Wanted, SlotsOf, SlotFor;
  }

  lemma WantedFirst(cfg: Config, outcomes: seq<Outcome>)
    requires outcomes != []
    ensures Wanted(cfg, outcomes, 0) == Target(cfg)
    ensures Wanted(cfg, outcomes, 1) == Target(cfg) - SlotEnergy(outcomes[0].slot)
  {
  }

  /** What holds of each outcome of a plan. */
  lemma PlannedOutcome(
    rates: seq<Rate>, cfg: Config, power: real, now: int, outcomes: seq<Outcome>, auto: Option<Schedule>, k: nat)
    requires PlanFor(rates, cfg, power, now, outcomes, auto) && Ordered(rates) && k < |outcomes|
    ensures var o := outcomes[k];
      && Chosen(rates, cfg, power, now, k, Wanted(cfg, outcomes, k), o.picked)
      && PeriodsOf(o) == Picked(WindowAt(rates, cfg, now, k), o.picked, power)
      && Ordered(PeriodsOf(o)) && (forall p :: p in PeriodsOf(o) ==> !p.value.forced)
      && SlotEnergy(o.slot) == Hundredths(EnergyOf(PeriodsOf(o)))
      && (TimeOfDay(cfg.deadlineOfDay) ==> OutcomeGood(rates, cfg, power, now, k, o))
  {
    var wanted := Wanted(cfg, outcomes, k);
    assert WorkedAt(rates, cfg, power, now, k, outcomes[k], wanted) && |outcomes| <= 2;
    hide *;
    OutcomeChosen(rates, cfg, power, now, k, outcomes[k], wanted);
    if TimeOfDay(cfg.deadlineOfDay) { OutcomeSlot(rates, cfg, power, now, k, outcomes[k], wanted); }
  }

  /** The automatic plan under its two deadlines. */
  lemma OutcomesAt(
    rates: seq<Rate>, cfg: Config, power: real, now: int, outcomes: seq<Outcome>, auto: Option<Schedule>)
    requires PlanFor(rates, cfg, power, now, outcomes, auto) && Ordered(rates) && TimeOfDay(cfg.deadlineOfDay)
    ensures PeriodsAt(SlotsIn(auto), DeadlineOf(cfg, now, 0)) == multiset(PeriodsOf(outcomes[0]))
    ensures PeriodsAt(SlotsIn(auto), DeadlineOf(cfg, now, 1)) ==
      multiset(if |outcomes| == 2 then PeriodsOf(outcomes[1]) else [])
  {
    PlanSize(rates, cfg, power, now, outcomes, auto);
    PlannedOutcome(rates, cfg, power, now, outcomes, auto, 0);
    if |outcomes| == 2 { PlannedOutcome(rates, cfg, power, now, outcomes, auto, 1); }
    hide *;
    ListAt(rates, cfg, power, now, 0, outcomes[0], 0);
    ListAt(rates, cfg, power, now, 0, outcomes[0], 1);
    if |outcomes| == 1 {
      SlotsOfOne(outcomes);
    } else {
      SlotsOfTwo(outcomes);
      ListAt(rates, cfg, power, now, 1, outcomes[1], 0);
      ListAt(rates, cfg, power, now, 1, outcomes[1], 1);
      PeriodsAtSplit(SlotList(outcomes[0]), SlotList(outcomes[1]), DeadlineOf(cfg, now, 0));
      PeriodsAtSplit(SlotList(outcomes[0]), SlotList(outcomes[1]), DeadlineOf(cfg, now, 1));
    }
  }

  lemma OrderedStarts(rates: seq<Rate>)
    requires Ordered(rates)
    ensures DistinctStarts(rates)
  {
    StartsIncrease(rates);
    hide Ordered;
  }

  ghost predicate Allowed(x: Inputs, cfg: Config) {
    AutoConfig(x, cfg).target > 0.0 && AutoRates(cfg, x.rates) != []
  }

  /** The automatic periods of the plan from scratch are the outcomes' periods. */
  lemma AutomaticIs(
    x: Inputs, cfg: Config, power: real, frag: seq<Rate>, outcomes: seq<Outcome>, auto: Option<Schedule>,
    forces: seq<Period>, base: Option<Schedule>)
    requires BaseFrom(x, cfg, power, frag, outcomes, auto, forces, base) && GoodInputs(x.rates, x.overrides, cfg)
    requires Allowed(x, cfg)
    ensures var planned := AutoConfig(x, cfg);
      && PlanFor(frag, planned, power, x.now, outcomes, auto) && Ordered(frag)
      && AutomaticOn(SlotsIn(base), DateAt(planned, x.now, 0)) == PeriodsOf(outcomes[0])
      && AutomaticOn(SlotsIn(base), DateAt(planned, x.now, 1)) ==
           if |outcomes| == 2 then PeriodsOf(outcomes[1]) else []
  {
    var planned := AutoConfig(x, cfg);
    assert Base(x, cfg, power, base);
    BaseIsGood(x, cfg, power, base);
    BaseParts(x, cfg, power, frag, outcomes, auto, forces, base);
    NegativesOrdered(x.rates);
    assert Ordered(frag);
    SameLimit(x, cfg);
    FirstDeadlineFacts(x.now, cfg.deadlineOfDay);
    hide BaseFrom, Base, GoodBase, Fragments, Ordered, Merged, AutoConfig, AutoRates, AutomaticOn, NeverTwice,
      FirstDeadline;
    OutcomesAre(x, cfg, planned, power, frag, outcomes, auto, forces, base);
  }

  lemma OutcomesAre(
    x: Inputs, cfg: Config, planned: Config, power: real, frag: seq<Rate>, outcomes: seq<Outcome>,
    auto: Option<Schedule>, forces: seq<Period>, base: Option<Schedule>)
    requires PlanFor(frag, planned, power, x.now, outcomes, auto) && Ordered(frag)
    requires planned.deadlineOfDay == cfg.deadlineOfDay && TimeOfDay(cfg.deadlineOfDay)
    requires GoodBase(x, cfg, SlotsIn(base)) && Merged(auto, forces, cfg.deadlineOfDay, base)
    requires multiset(forces) == multiset(PricedForces(x))
    ensures AutomaticOn(SlotsIn(base), DateAt(planned, x.now, 0)) == PeriodsOf(outcomes[0])
    ensures AutomaticOn(SlotsIn(base), DateAt(planned, x.now, 1)) ==
      if |outcomes| == 2 then PeriodsOf(outcomes[1]) else []
  {
    hide *;
    BothDeadlines(planned, x.now);
    OutcomesAt(frag, planned, power, x.now, outcomes, auto);
    PlanSize(frag, planned, power, x.now, outcomes, auto);
    PlannedOutcome(frag, planned, power, x.now, outcomes, auto, 0);
    var second := if |outcomes| == 2 then PeriodsOf(outcomes[1]) else [];
    if |outcomes| == 2 {
      PlannedOutcome(frag, planned, power, x.now, outcomes, auto, 1);
    } else {
      NothingOrdered();
    }
    MergedAutomatic(x, cfg, auto, forces, base, DeadlineOf(planned, x.now, 0), PeriodsOf(outcomes[0]));
    MergedAutomatic(x, cfg, auto, forces, base, DeadlineOf(planned, x.now, 1), second);
    DatesOf(planned, x.now);
  }

  lemma NothingOrdered()
    ensures Ordered<Load>([])
  {
  }

  lemma BothDeadlines(cfg: Config, now: int)
    requires TimeOfDay(cfg.deadlineOfDay)
    ensures IsDeadline(DeadlineOf(cfg, now, 0), cfg.deadlineOfDay)
    ensures IsDeadline(DeadlineOf(cfg, now, 1), cfg.deadlineOfDay)
  {
    FirstDeadlineFacts(now, cfg.deadlineOfDay);
  }

  lemma DatesOf(cfg: Config, now: int)
    ensures DateAt(cfg, now, 0) == DateOf(DeadlineOf(cfg, now, 0))
    ensures DateAt(cfg, now, 1) == DateOf(DeadlineOf(cfg, now, 1))
  {
  }

  lemma OutcomesServe(
    rates: seq<Rate>, cfg: Config, power: real, now: int, outcomes: seq<Outcome>, auto: Option<Schedule>,
    slots: seq<Slot>)
    requires PlanFor(rates, cfg, power, now, outcomes, auto) && Ordered(rates)
    requires AutomaticOn(slots, DateAt(cfg, now, 0)) == PeriodsOf(outcomes[0])
    requires AutomaticOn(slots, DateAt(cfg, now, 1)) == if |outcomes| == 2 then PeriodsOf(outcomes[1]) else []
    ensures Serves(rates, cfg, power, now, slots)
  {
    hide *;
    PlanSize(rates, cfg, power, now, outcomes, auto);
    PlannedOutcome(rates, cfg, power, now, outcomes, auto, 0);
    var first, second := outcomes[0].picked, {};
    if |outcomes| == 2 {
      PlannedOutcome(rates, cfg, power, now, outcomes, auto, 1);
      second := outcomes[1].picked;
    } else {
      NothingPicked(WindowAt(rates, cfg, now, 1), power);
    }
    ServedIs(rates, cfg, power, now, slots, first, second);
  }

  lemma ServedIs(
    rates: seq<Rate>, cfg: Config, power: real, now: int, slots: seq<Slot>, first: set<int>, second: set<int>)
    requires Chosen(rates, cfg, power, now, 0, Target(cfg), first)
    requires AutomaticOn(slots, DateAt(cfg, now, 0)) == Picked(WindowAt(rates, cfg, now, 0), first, power)
    requires AutomaticOn(slots, DateAt(cfg, now, 1)) == Picked(WindowAt(rates, cfg, now, 1), second, power)
    requires var left := Target(cfg) - Hundredths(EnergyOf(AutomaticOn(slots, DateAt(cfg, now, 0))));
      if left > 0.0 then Chosen(rates, cfg, power, now, 1, left, second) else second == {}
    ensures Serves(rates, cfg, power, now, slots)
  {
    hide Chosen, AutomaticOn, Picked, Hundredths, EnergyOf, WindowAt, DateAt, Target;
    assert ServedBy(rates, cfg, power, now, slots, first, second);
  }

  /** With nothing to plan, or nothing to plan it in, choosing nothing serves. */
  lemma NothingServes(rates: seq<Rate>, cfg: Config, power: real, now: int, slots: seq<Slot>)
    requires cfg.target <= 0.0 || rates == []
    requires AutomaticOn(slots, DateAt(cfg, now, 0)) == [] && AutomaticOn(slots, DateAt(cfg, now, 1)) == []
    ensures Serves(rates, cfg, power, now, slots)
  {
    NoHundredths();
    forall k | 0 <= k < 2
      ensures Picked(WindowAt(rates, cfg, now, k), {}, power) == []
      ensures cfg.target <= 0.0 || WindowAt(rates, cfg, now, k) == []
    {
      NothingPicked(WindowAt(rates, cfg, now, k), power);
    }
    NoHours(cfg, power);
    hide Hundredths, EnergyOf, AutomaticOn, DateAt, Picked, WindowAt, HoursNeeded;
    assert ServedBy(rates, cfg, power, now, slots, {}, {});
  }

  lemma NoHours(cfg: Config, power: real)
    ensures power > 0.0 && cfg.target <= 0.0 ==> HoursNeeded(Target(cfg), power, cfg.headroom) == 0
  {
    if power > 0.0 && cfg.target <= 0.0 { assert Times(0.0, Headroom(cfg.headroom)) == 0.0; }
  }

  lemma CarvedFromSome(rates: seq<Rate>, overrides: seq<Override>, frag: seq<Rate>)
    requires Fragments(rates, overrides, frag)
    ensures frag != [] ==> rates != []
  {
    if frag != [] { assert FromRates(frag[0], rates, overrides); }
  }

  /** Without an automatic part only forces are planned. */
  lemma OnlyForces(
    x: Inputs, cfg: Config, power: real, frag: seq<Rate>, outcomes: seq<Outcome>, auto: Option<Schedule>,
    forces: seq<Period>, base: Option<Schedule>)
    requires BaseFrom(x, cfg, power, frag, outcomes, auto, forces, base) && GoodInputs(x.rates, x.overrides, cfg)
    requires !Allowed(x, cfg)
    ensures AutomaticOn(SlotsIn(base), DateAt(AutoConfig(x, cfg), x.now, 0)) == []
    ensures AutomaticOn(SlotsIn(base), DateAt(AutoConfig(x, cfg), x.now, 1)) == []
  {
    assert Base(x, cfg, power, base);
    BaseIsGood(x, cfg, power, base);
    BaseParts(x, cfg, power, frag, outcomes, auto, forces, base);
    SameLimit(x, cfg);
    assert TimeOfDay(cfg.deadlineOfDay) && auto.None?;
    hide *;
    NoAutomatic(x, cfg, AutoConfig(x, cfg), forces, base);
  }

  lemma NoAutomatic(x: Inputs, cfg: Config, planned: Config, forces: seq<Period>, base: Option<Schedule>)
    requires GoodBase(x, cfg, SlotsIn(base)) && TimeOfDay(cfg.deadlineOfDay)
    requires Merged(None, forces, cfg.deadlineOfDay, base) && multiset(forces) == multiset(PricedForces(x))
    requires planned.deadlineOfDay == cfg.deadlineOfDay
    ensures AutomaticOn(SlotsIn(base), DateAt(planned, x.now, 0)) == []
    ensures AutomaticOn(SlotsIn(base), DateAt(planned, x.now, 1)) == []
  {
    hide *;
    BothDeadlines(planned, x.now);
    DatesOf(planned, x.now);
    NothingOrdered();
    NoPeriods(DeadlineOf(planned, x.now, 0));
    NoPeriods(DeadlineOf(planned, x.now, 1));
    MergedAutomatic(x, cfg, None, forces, base, DeadlineOf(planned, x.now, 0), []);
    MergedAutomatic(x, cfg, None, forces, base, DeadlineOf(planned, x.now, 1), []);
  }

  lemma NoPeriods(d: int)
    ensures PeriodsAt(SlotsIn(None), d) == multiset([])
  {
  }

  /**
   Any plan from scratch, on the tariff and the overrides: the automatic periods of the first deadline's date are
   a cheapest choice of the carved rates before it, for the hours that the target less the forces takes with
   headroom, and those of the second's one of the carved rates before that, for what the first, rounded, leaves
   wanted.
   */
  lemma BaseServes(x: Inputs, cfg: Config, power: real, frag: seq<Rate>, base: Option<Schedule>)
    requires Base(x, cfg, power, base) && GoodInputs(x.rates, x.overrides, cfg)
    requires Fragments(AutoRates(cfg, x.rates), x.overrides, frag)
    ensures Serves(frag, AutoConfig(x, cfg), power, x.now, SlotsIn(base))
  {
    var f, outcomes, auto, forces :| BaseFrom(x, cfg, power, f, outcomes, auto, forces, base);
    if Allowed(x, cfg) {
      AutomaticIs(x, cfg, power, f, outcomes, auto, forces, base);
      BaseParts(x, cfg, power, f, outcomes, auto, forces, base);
      SameCarving(x, cfg, f, frag);
      hide Base, BaseFrom, GoodInputs, Serves, PlanFor, Ordered, AutomaticOn, AutoConfig, Fragments;
      OutcomesServe(frag, AutoConfig(x, cfg), power, x.now, outcomes, auto, SlotsIn(base));
    } else {
      OnlyForces(x, cfg, power, f, outcomes, auto, forces, base);
      CarvedFromSome(AutoRates(cfg, x.rates), x.overrides, frag);
      hide Base, BaseFrom, GoodInputs, Serves, AutomaticOn, AutoConfig, Fragments, AutoRates;
      NothingServes(frag, AutoConfig(x, cfg), power, x.now, SlotsIn(base));
    }
  }

  lemma SameCarving(x: Inputs, cfg: Config, f: seq<Rate>, frag: seq<Rate>)
    requires Ordered(x.rates)
    requires Fragments(AutoRates(cfg, x.rates), x.overrides, f) && Fragments(AutoRates(cfg, x.rates), x.overrides, frag)
    ensures f == frag
  {
    NegativesOrdered(x.rates);
    FragmentsUnique(AutoRates(cfg, x.rates), x.overrides, f, frag);
  }
}
