/** What a recompute may turn a plan into, path by path (scheduler.go, `recompute`). */
module Recompute {
  import opened Arithmetic
  import opened Spans
  import opened Plan
  import opened OverrideTable
  import opened Fragment
  import opened Selection
  import opened Planner
  import opened Slots
  import opened Forces
  import opened Pipeline
  import opened Merge

  /** Everything a recompute reads from outside: the charger, the settings, the tariff, the overrides. */
  datatype Inputs = Inputs(
    now: int, hasCharger: bool, connected: bool, txnId: int,
    stored: Option<Config>, soc: real, rates: seq<Rate>, overrides: seq<Override>, accepts: bool)

  /** An open transaction freezes the plan. */
  predicate Frozen(x: Inputs) { x.hasCharger && x.connected && x.txnId > 0 }

  /** The configuration with the live state of charge, and the target it implies. */
  function Fresh(cfg: Config, soc: real): Config {
    var c := cfg.(currentSoC := soc);
    if c.batteryCapacity > 0.0 && c.targetSoC > 0.0 then
      var needed := c.targetSoC - soc;
      c.(target := if needed > 0.0 then needed / 100.0 * c.batteryCapacity else 0.0)
    else c
  }

  function ChargePower(cfg: Config, live: real): real { if live > 0.0 then live else cfg.maxPower }

  predicate AboveSkip(cfg: Config) {
    cfg.batteryCapacity > 0.0 && cfg.skipAboveSoC > 0.0 && cfg.currentSoC >= cfg.skipAboveSoC
  }

  function Negatives(rates: seq<Rate>): seq<Rate> {
    if rates == [] then []
    else
      var n := |rates| - 1;
      Negatives(rates[..n]) + if rates[n].value < 0.0 then [rates[n]] else []
  }

  /** Above the skip threshold only negative prices are considered. */
  function AutoRates(cfg: Config, rates: seq<Rate>): seq<Rate> {
    if AboveSkip(cfg) then Negatives(rates) else rates
  }

  /** What forces leave for the automatic plan. */
  function AutoTarget(cfg: Config, forces: seq<Period>): real {
    var rest := cfg.target - EnergyOf(forces);
    if rest < 0.0 then 0.0 else rest
  }

  predicate AutoAllowed(cfg: Config, rates: seq<Rate>, forces: seq<Period>) {
    AutoRates(cfg, rates) != [] && AutoTarget(cfg, forces) != 0.0
  }

  /** The plan from scratch: carve, select, merge forces. */
  ghost predicate BaseFrom(
    x: Inputs, cfg: Config, power: real, frag: seq<Rate>, outcomes: seq<Outcome>,
    auto: Option<Schedule>, forces: seq<Period>, base: Option<Schedule>) {
    && FreshPlan(AutoRates(cfg, x.rates), x.rates, x.overrides, frag,
         cfg.(target := AutoTarget(cfg, forces)), power, x.now, outcomes, auto, forces, base)
    && (AutoAllowed(cfg, x.rates, forces) ==>
          && Fragments(AutoRates(cfg, x.rates), x.overrides, frag)
          && PlanFor(frag, cfg.(target := AutoTarget(cfg, forces)), power, x.now, outcomes, auto))
    && (!AutoAllowed(cfg, x.rates, forces) ==> auto.None?)
  }

  ghost predicate Base(x: Inputs, cfg: Config, power: real, base: Option<Schedule>) {
    exists frag, outcomes, auto, forces :: BaseFrom(x, cfg, power, frag, outcomes, auto, forces, base)
  }

  ghost predicate CancelledDate(prev: Option<Schedule>, date: int) {
    exists k :: 0 <= k < |SlotsIn(prev)| && SlotsIn(prev)[k].cancelled && SlotsIn(prev)[k].date == date
  }

  /** Slots whose date the user had cancelled stay cancelled; nothing else changes. */
  ghost predicate Marked(prev: Option<Schedule>, slots: seq<Slot>, marked: seq<Slot>) {
    && |marked| == |slots|
    && forall k :: 0 <= k < |slots| ==>
         marked[k] == slots[k].(cancelled := slots[k].cancelled || CancelledDate(prev, slots[k].date))
  }

  ghost predicate FirstRunningSlot(prev: Option<Schedule>, now: int, k: int) {
    0 <= k < |SlotsIn(prev)| && SlotRunning(SlotsIn(prev)[k], now)
    && forall j :: 0 <= j < k ==> !SlotRunning(SlotsIn(prev)[j], now)
  }

  /** The running slot merged into the marked plan, whose totals and deadline follow. */
  ghost predicate MergedInto(running: Slot, now: int, slots: seq<Slot>, next: Schedule) {
    && Totalled(next) && next.deadline == LatestDeadline(next.slots)
    && exists recomputed, merged, k ::
      && FirstRunning(running.periods, now, k)
      && Continues(running, k, recomputed, merged)
      && SameDate(slots, running.date, recomputed)
      && Installed(slots, merged, next.slots)
  }

  /** Paths on which nothing is recomputed: frozen, not configured, or nothing to plan with. */
  ghost predicate Unchanged(x: Inputs, cfg: Option<Config>) {
    Frozen(x) || cfg.None? || (x.rates == [] && ForcesOf(x.overrides) == [])
  }

  /** The outcome on the remaining paths, given the plan computed from scratch. */
  ghost predicate Replaced(prev: Option<Schedule>, x: Inputs, base: Option<Schedule>, next: Option<Schedule>) {
    if ChargeTime(prev, x.now) then
      exists k :: FirstRunningSlot(prev, x.now, k) && Carried(SlotsIn(prev)[k], prev, x.now, base, next)
    else if base.None? then next.None?
    else
      && next.Some? && Marked(prev, base.value.slots, next.value.slots)
      && Totalled(next.value) && next.value.deadline == base.value.deadline
  }

  /** A running slot goes into the new plan, or is all that is left of the plan. */
  ghost predicate Carried(
    running: Slot, prev: Option<Schedule>, now: int, base: Option<Schedule>, next: Option<Schedule>) {
    next.Some? &&
    if base.None? then next.value == Preserved(running)
    else exists marked :: Marked(prev, base.value.slots, marked) && MergedInto(running, now, marked, next.value)
  }

  /** `preservedSchedule`: the plan reduced to one slot. */
  function Preserved(slot: Slot): Schedule { Schedule([slot], slot.cost, slot.energy, slot.deadline) }

  ghost predicate Recomputed(
    prev: Option<Schedule>, x: Inputs, cfg: Option<Config>, live: real, next: Option<Schedule>) {
    if Unchanged(x, cfg) then next == prev
    else
      var c := Fresh(cfg.value, x.soc);
      exists base :: Base(x, c, ChargePower(c, live), base) && Replaced(prev, x, base, next)
  }

  // ----- when a recompute changes nothing -----

  lemma NoForces(overrides: seq<Override>)
    ensures ForcesOf(overrides) == [] <==> forall o :: o in overrides ==> o.kind != Force
  {
    KindOfMember(overrides, Force);
    if ForcesOf(overrides) != [] { assert ForcesOf(overrides)[0] in ForcesOf(overrides); }
  }

  /**
   A recompute leaves the plan as it is while a reachable charger has a transaction open, without settings,
   and with neither a rate nor a force; otherwise the plan is replaced, given one from scratch.
   */
  lemma WhatIsRecomputed(
    prev: Option<Schedule>, x: Inputs, cfg: Option<Config>, live: real, next: Option<Schedule>)
    requires Recomputed(prev, x, cfg, live, next)
    ensures x.hasCharger && x.connected && x.txnId > 0 ==> next == prev
    ensures cfg.None? ==> next == prev
    ensures x.rates == [] && (forall o :: o in x.overrides ==> o.kind != Force) ==> next == prev
    ensures
      && (!x.hasCharger || !x.connected || x.txnId <= 0) && cfg.Some?
      && (x.rates != [] || exists o :: o in x.overrides && o.kind == Force)
      ==> exists base ::
        Base(x, Fresh(cfg.value, x.soc), ChargePower(Fresh(cfg.value, x.soc), live), base)
        && Replaced(prev, x, base, next)
  {
    NoForces(x.overrides);
    hide Base, Replaced, ForcesOf, Fresh, ChargePower;
  }

  // ----- the target and the power -----

  /**
   With a battery size and a wanted state of charge, the target is the energy that takes the battery there
   from its present state, and nothing when it is there; otherwise it is the one set. Nothing else changes.
   */
  lemma TargetFillsBattery(cfg: Config, soc: real)
    ensures var c := Fresh(cfg, soc);
      && c == cfg.(currentSoC := soc, target := c.target)
      && (cfg.batteryCapacity > 0.0 && cfg.targetSoC > 0.0 ==>
            soc + c.target / cfg.batteryCapacity * 100.0 == if cfg.targetSoC > soc then cfg.targetSoC else soc)
      && (!(cfg.batteryCapacity > 0.0 && cfg.targetSoC > 0.0) ==> c.target == cfg.target)
  {
  }

  // ----- a recompute never stops a running charge -----

  lemma RunningIsKept(running: Slot, now: int, slots: seq<Slot>, next: Schedule)
    requires !running.cancelled && MergedInto(running, now, slots, next)
    ensures ChargeTime(Some(next), now)
  {
    var recomputed, merged, k :|
      && FirstRunning(running.periods, now, k)
      && Continues(running, k, recomputed, merged)
      && SameDate(slots, running.date, recomputed)
      && Installed(slots, merged, next.slots);
    MergeContents(running.periods, k, PeriodsIn(recomputed), merged.periods);
    InstallKeepsOtherDates(slots, merged, next.slots);
    var i :| 0 <= i < |merged.periods| && merged.periods[i] == running.periods[k];
    var j :| 0 <= j < |next.slots| && next.slots[j] == merged;
    assert SlotRunning(next.slots[j], now);
  }

  /**
   If it is charge time before a recompute, it is charge time after it, whichever path it takes;
   only the user can end a running charge.
   */
  lemma RecomputeKeepsCharging(
    prev: Option<Schedule>, x: Inputs, cfg: Option<Config>, live: real, next: Option<Schedule>)
    requires Recomputed(prev, x, cfg, live, next)
    ensures ChargeTime(prev, x.now) ==> ChargeTime(next, x.now)
  {
    if ChargeTime(prev, x.now) && !Unchanged(x, cfg) {
      var c := Fresh(cfg.value, x.soc);
      var base :| Base(x, c, ChargePower(c, live), base) && Replaced(prev, x, base, next);
      hide Base;
      var k :| FirstRunningSlot(prev, x.now, k) && Carried(SlotsIn(prev)[k], prev, x.now, base, next);
      var running := SlotsIn(prev)[k];
      if base.None? {
        assert SlotRunning(next.value.slots[0], x.now);
      } else {
        var marked :| Marked(prev, base.value.slots, marked) && MergedInto(running, x.now, marked, next.value);
        RunningIsKept(running, x.now, marked, next.value);
      }
    }
  }

  // ----- a fresh plan is a good plan -----

  lemma {:induction false} NegativesOrdered(rates: seq<Rate>)
    requires Ordered(rates)
    ensures Ordered(Negatives(rates))
    ensures forall r :: r in Negatives(rates) ==> r in rates
  {
    if rates != [] {
      var n := |rates| - 1;
      NegativesOrdered(rates[..n]);
      assert rates == rates[..n] + [rates[n]];
      ExtendOrdered(rates, Negatives(rates[..n]));
    }
  }

  /** Cancelling slots moves nothing. */
  lemma MarkedIsTidy(prev: Option<Schedule>, slots: seq<Slot>, marked: seq<Slot>, deadlineOfDay: int)
    requires Marked(prev, slots, marked) && Tidy(slots, deadlineOfDay)
    ensures Tidy(marked, deadlineOfDay)
  {
    hide Apart, Ordered, Due, IsDeadline, CancelledDate;
    forall k | 0 <= k < |slots|
      ensures TidySlot(marked[k], deadlineOfDay) && marked[k].periods == slots[k].periods
    {
      assert TidySlot(slots[k], deadlineOfDay);
    }
  }

  /** What holds of any plan from scratch: its slots are sound, its periods well placed, its forces there. */
  ghost predicate GoodBase(x: Inputs, cfg: Config, slots: seq<Slot>) {
    && AllSound(slots) && DeadlinesIncrease(slots)
    && (forall k, p :: 0 <= k < |slots| && p in slots[k].periods ==>
          WellPlaced(x.rates, x.rates, x.overrides, cfg.deadlineOfDay, x.now, p, slots[k].deadline))
    && (forall o :: o in x.overrides && o.kind == Force ==>
          ForceHonoured(slots, ForcePeriod(o, x.rates), NextDeadlineAfter(o.window.start, cfg.deadlineOfDay)))
  }

  /** No rate is under way across the first deadline from now. */
  ghost predicate NoneAcross(x: Inputs, cfg: Config) { !RunsAcross(x.rates, FirstDeadline(x.now, cfg.deadlineOfDay)) }

  /** Whatever plan from scratch is made, it picks no rate for both windows. */
  ghost predicate NeverTwice(x: Inputs, cfg: Config, power: real) {
    forall frag, outcomes, auto, forces, base ::
      BaseFrom(x, cfg, power, frag, outcomes, auto, forces, base) ==> NoRepeat(auto, outcomes)
  }

  /** The same for the recompute that reads these inputs. */
  ghost predicate PicksOnce(x: Inputs, cfg: Config, live: real) {
    NeverTwice(x, Fresh(cfg, x.soc), ChargePower(Fresh(cfg, x.soc), live))
  }

  lemma BaseIsGood(x: Inputs, cfg: Config, power: real, base: Option<Schedule>)
    requires Base(x, cfg, power, base) && GoodInputs(x.rates, x.overrides, cfg)
    ensures GoodBase(x, cfg, SlotsIn(base))
    ensures NeverTwice(x, cfg, power) ==> Tidy(SlotsIn(base), cfg.deadlineOfDay)
  {
    var frag, outcomes, auto, forces :| BaseFrom(x, cfg, power, frag, outcomes, auto, forces, base);
    FreshIsGood(x, cfg, power, frag, outcomes, auto, forces, base);
  }

  lemma FreshIsGood(
    x: Inputs, cfg: Config, power: real, frag: seq<Rate>, outcomes: seq<Outcome>,
    auto: Option<Schedule>, forces: seq<Period>, base: Option<Schedule>)
    requires BaseFrom(x, cfg, power, frag, outcomes, auto, forces, base) && GoodInputs(x.rates, x.overrides, cfg)
    ensures GoodBase(x, cfg, SlotsIn(base))
    ensures NoRepeat(auto, outcomes) ==> Tidy(SlotsIn(base), cfg.deadlineOfDay)
  {
    var planned := cfg.(target := AutoTarget(cfg, forces));
    var tariff := AutoRates(cfg, x.rates);
    AutoInputsGood(x, cfg, planned);
    FreshPlanOrdered(tariff, x.rates, x.overrides, frag, planned, power, x.now, outcomes, auto, forces, base);
    assert Ordered(x.rates);
    hide FreshPlan, PlanFor, AllSound, Tidy, AutoRates, AutoTarget, NoRepeat, Ordered, GoodInputs, DeadlinesIncrease;
    FreshHolds(x, cfg, power, planned, frag, outcomes, auto, forces, base);
  }

  /** With no rate under way across the first deadline nothing is picked twice. */
  lemma NoneAcrossPicksOnce(x: Inputs, cfg: Config, power: real)
    requires Ordered(x.rates) && NoneAcross(x, cfg)
    ensures NeverTwice(x, cfg, power)
  {
    forall frag, outcomes, auto, forces, base | BaseFrom(x, cfg, power, frag, outcomes, auto, forces, base)
      ensures NoRepeat(auto, outcomes)
    {
      NoneAcrossFresh(x, cfg, power, frag, outcomes, auto, forces, base);
    }
  }

  lemma NoneAcrossFresh(
    x: Inputs, cfg: Config, power: real, frag: seq<Rate>, outcomes: seq<Outcome>,
    auto: Option<Schedule>, forces: seq<Period>, base: Option<Schedule>)
    requires Ordered(x.rates) && NoneAcross(x, cfg)
    requires BaseFrom(x, cfg, power, frag, outcomes, auto, forces, base)
    ensures NoRepeat(auto, outcomes)
  {
    var planned := cfg.(target := AutoTarget(cfg, forces));
    var tariff, d := AutoRates(cfg, x.rates), FirstDeadline(x.now, cfg.deadlineOfDay);
    hide FreshPlan, PlanFor, RunsAcross, AutoRates, AutoTarget, FirstDeadline, NoRepeat, Ordered;
    RepeatRunsAcross(tariff, x.rates, x.overrides, frag, planned, power, x.now, outcomes, auto, forces, base);
    if RunsAcross(tariff, d) { AcrossNegatives(x, cfg, d); }
  }

  lemma FreshHolds(
    x: Inputs, cfg: Config, power: real, planned: Config, frag: seq<Rate>, outcomes: seq<Outcome>,
    auto: Option<Schedule>, forces: seq<Period>, base: Option<Schedule>)
    requires FreshPlan(AutoRates(cfg, x.rates), x.rates, x.overrides, frag, planned, power, x.now, outcomes, auto,
      forces, base)
    requires GoodInputs(AutoRates(cfg, x.rates), x.overrides, planned) && Ordered(x.rates)
    requires planned.deadlineOfDay == cfg.deadlineOfDay && AllSound(SlotsIn(base)) && DeadlinesIncrease(SlotsIn(base))
    ensures GoodBase(x, cfg, SlotsIn(base))
  {
    var tariff, slots := AutoRates(cfg, x.rates), SlotsIn(base);
    hide FreshPlan, GoodInputs, WellPlaced, ForceHonoured, ForcePeriod, NextDeadlineAfter, AllSound, AutoRates,
      Ordered, SlotsIn, DeadlinesIncrease;
    forall k, p | 0 <= k < |slots| && p in slots[k].periods
      ensures WellPlaced(x.rates, x.rates, x.overrides, cfg.deadlineOfDay, x.now, p, slots[k].deadline)
    {
      FreshPlanIsPlaced(tariff, x.rates, x.overrides, frag, planned, power, x.now, outcomes, auto, forces, base, k, p);
      PlacedInTariff(x, cfg, p, slots[k].deadline);
    }
    forall o | o in x.overrides && o.kind == Force
      ensures ForceHonoured(slots, ForcePeriod(o, x.rates), NextDeadlineAfter(o.window.start, cfg.deadlineOfDay))
    {
      FreshPlanHoldsForces(tariff, x.rates, x.overrides, frag, planned, power, x.now, outcomes, auto, forces, base, o);
    }
  }

  /** The negative rates are rates. */
  lemma PlacedInTariff(x: Inputs, cfg: Config, p: Period, d: int)
    requires Ordered(x.rates)
    requires WellPlaced(AutoRates(cfg, x.rates), x.rates, x.overrides, cfg.deadlineOfDay, x.now, p, d)
    ensures WellPlaced(x.rates, x.rates, x.overrides, cfg.deadlineOfDay, x.now, p, d)
  {
    var tariff := AutoRates(cfg, x.rates);
    NegativesOrdered(x.rates);
    hide Respects, IsForce, OfWindow, NextDeadlineAfter, AboveSkip;
    if !p.value.forced {
      var j :| 0 <= j < |tariff| && tariff[j].start <= p.start && p.end <= tariff[j].end;
      assert tariff[j] in x.rates;
      var i :| 0 <= i < |x.rates| && x.rates[i] == tariff[j];
    }
  }

  lemma AcrossNegatives(x: Inputs, cfg: Config, d: int)
    requires Ordered(x.rates) && RunsAcross(AutoRates(cfg, x.rates), d)
    ensures RunsAcross(x.rates, d)
  {
    var tariff := AutoRates(cfg, x.rates);
    NegativesOrdered(x.rates);
    var j :| 0 <= j < |tariff| && tariff[j].start < d < tariff[j].end;
    assert tariff[j] in x.rates;
    var i :| 0 <= i < |x.rates| && x.rates[i] == tariff[j];
  }

  /**
   With no slot running, whatever the tariff, the forces and the cancelled days: no active period
   shares time with an override other than itself, and every force stands verbatim in the slot of its
   next deadline, inactive only on a cancelled day. When no rate is picked for both windows the plan is
   tidy: one chronological slot a day, all apart.
   */
  lemma RecomputedPlanIsGood(
    prev: Option<Schedule>, x: Inputs, cfg: Option<Config>, live: real, next: Option<Schedule>)
    requires Recomputed(prev, x, cfg, live, next) && !Unchanged(x, cfg) && !ChargeTime(prev, x.now)
    requires GoodInputs(x.rates, x.overrides, cfg.value)
    ensures forall p, o :: p in ActiveOf(SlotsIn(next)) && o in x.overrides ==> Respects(p, o, x.rates)
    ensures forall o :: o in x.overrides && o.kind == Force ==> ForceHeld(prev, SlotsIn(next), ForcePeriod(o, x.rates),
      NextDeadlineAfter(o.window.start, cfg.value.deadlineOfDay))
    ensures PicksOnce(x, cfg.value, live) ==>
      Tidy(SlotsIn(next), cfg.value.deadlineOfDay) && Ordered(ActiveOf(SlotsIn(next)))
  {
    var c := Fresh(cfg.value, x.soc);
    var base :| Base(x, c, ChargePower(c, live), base) && Replaced(prev, x, base, next);
    BaseIsGood(x, c, ChargePower(c, live), base);
    hide Base, Respects, ForcePeriod, Tidy, NextDeadlineAfter;
    assert Marked(prev, SlotsIn(base), SlotsIn(next));
    forall p, o | p in ActiveOf(SlotsIn(next)) && o in x.overrides
      ensures Respects(p, o, x.rates)
    {
      MarkedRespects(prev, x, c, SlotsIn(base), SlotsIn(next), p, o);
    }
    forall o | o in x.overrides && o.kind == Force
      ensures ForceHeld(prev, SlotsIn(next), ForcePeriod(o, x.rates),
        NextDeadlineAfter(o.window.start, cfg.value.deadlineOfDay))
    {
      MarkingKeepsForce(prev, SlotsIn(base), SlotsIn(next), ForcePeriod(o, x.rates),
        NextDeadlineAfter(o.window.start, c.deadlineOfDay));
    }
    if PicksOnce(x, cfg.value, live) {
      MarkedIsTidy(prev, SlotsIn(base), SlotsIn(next), c.deadlineOfDay);
      TidyIsOrdered(SlotsIn(next), c.deadlineOfDay);
    }
  }

  /** Whatever path a recompute takes, a slot's totals are those of its periods and the plan's those of its slots. */
  lemma RecomputedTotals(
    prev: Option<Schedule>, x: Inputs, cfg: Option<Config>, live: real, next: Option<Schedule>)
    requires Recomputed(prev, x, cfg, live, next) && !Unchanged(x, cfg) && GoodInputs(x.rates, x.overrides, cfg.value)
    requires forall s :: s in SlotsIn(prev) ==> Balanced(s)
    ensures next.Some? ==> Totalled(next.value) && forall s :: s in next.value.slots ==> Balanced(s)
  {
    var c := Fresh(cfg.value, x.soc);
    var base :| Base(x, c, ChargePower(c, live), base) && Replaced(prev, x, base, next);
    BaseIsGood(x, c, ChargePower(c, live), base);
    hide Base, Unchanged, Fresh, ChargePower, Balanced, CancelledDate, ForceHonoured, WellPlaced;
    forall s | s in SlotsIn(base)
      ensures Balanced(s)
    {
      assert Sound(s);
    }
    if ChargeTime(prev, x.now) {
      var k :| FirstRunningSlot(prev, x.now, k) && Carried(SlotsIn(prev)[k], prev, x.now, base, next);
      hide FirstRunningSlot;
      CarriedTotals(SlotsIn(prev)[k], prev, x.now, base, next);
    } else if base.Some? {
      MarkedTotals(prev, base.value.slots, next.value.slots);
    }
  }

  /** The plan's deadline is that of a slot, from 0 on, and none that is not cancelled is due later. */
  ghost predicate DueByDeadline(sched: Schedule) {
    && (forall k :: 0 <= k < |sched.slots| && !sched.slots[k].cancelled ==> sched.slots[k].deadline <= sched.deadline)
    && (sched.deadline == 0 || exists k :: 0 <= k < |sched.slots| && sched.slots[k].deadline == sched.deadline)
  }

  /** That is so of every recomputed plan. */
  lemma RecomputedDeadline(
    prev: Option<Schedule>, x: Inputs, cfg: Option<Config>, live: real, next: Option<Schedule>)
    requires Recomputed(prev, x, cfg, live, next) && !Unchanged(x, cfg)
    ensures next.Some? ==> DueByDeadline(next.value)
  {
    var c := Fresh(cfg.value, x.soc);
    var base :| Base(x, c, ChargePower(c, live), base) && Replaced(prev, x, base, next);
    hide *;
    BaseDeadline(x, c, ChargePower(c, live), base);
    ReplacedDeadline(prev, x, base, next);
  }

  lemma ReplacedDeadline(prev: Option<Schedule>, x: Inputs, base: Option<Schedule>, next: Option<Schedule>)
    requires Replaced(prev, x, base, next) && (base.Some? ==> DueByDeadline(base.value))
    ensures next.Some? ==> DueByDeadline(next.value)
  {
    hide ChargeTime, Marked, Totalled, DueByDeadline, Carried;
    if ChargeTime(prev, x.now) {
      var k :| FirstRunningSlot(prev, x.now, k) && Carried(SlotsIn(prev)[k], prev, x.now, base, next);
      CarriedDeadline(SlotsIn(prev)[k], prev, x.now, base, next);
    } else if base.Some? {
      MarkedDeadline(prev, base.value, next.value);
    }
  }

  lemma CarriedDeadline(
    running: Slot, prev: Option<Schedule>, now: int, base: Option<Schedule>, next: Option<Schedule>)
    requires Carried(running, prev, now, base, next)
    ensures next.Some? && DueByDeadline(next.value)
  {
    hide Marked, MergedInto, CancelledDate;
    if base.Some? {
      var marked :| Marked(prev, base.value.slots, marked) && MergedInto(running, now, marked, next.value);
      MergedDeadline(running, now, marked, next.value);
    } else {
      assert next.value.slots[0].deadline == next.value.deadline;
    }
  }

  lemma BaseDeadline(x: Inputs, cfg: Config, power: real, base: Option<Schedule>)
    requires Base(x, cfg, power, base)
    ensures base.Some? ==> DueByDeadline(base.value)
  {
    var frag, outcomes, auto, forces :| BaseFrom(x, cfg, power, frag, outcomes, auto, forces, base);
    assert Merged(auto, forces, cfg.deadlineOfDay, base);
    hide Base, BaseFrom, FreshPlan, LatestDeadline;
    if base.Some? { LatestIsReached(base.value.slots); }
  }

  lemma MergedDeadline(running: Slot, now: int, slots: seq<Slot>, next: Schedule)
    requires MergedInto(running, now, slots, next)
    ensures DueByDeadline(next)
  {
    hide LatestDeadline, Installed, Continues, SameDate;
    LatestIsReached(next.slots);
  }

  lemma MarkedDeadline(prev: Option<Schedule>, base: Schedule, next: Schedule)
    requires Marked(prev, base.slots, next.slots) && next.deadline == base.deadline && DueByDeadline(base)
    ensures DueByDeadline(next)
  {
    hide CancelledDate;
    if base.deadline != 0 {
      var k :| 0 <= k < |base.slots| && base.slots[k].deadline == base.deadline;
      assert next.slots[k].deadline == next.deadline;
    }
  }

  lemma MarkedTotals(prev: Option<Schedule>, slots: seq<Slot>, marked: seq<Slot>)
    requires Marked(prev, slots, marked) && forall s :: s in slots ==> Balanced(s)
    ensures forall s :: s in marked ==> Balanced(s)
  {
    hide CancelledDate;
    forall s | s in marked
      ensures Balanced(s)
    {
      var k :| 0 <= k < |marked| && marked[k] == s;
      assert slots[k] in slots && s.periods == slots[k].periods;
    }
  }

  lemma CarriedTotals(
    running: Slot, prev: Option<Schedule>, now: int, base: Option<Schedule>, next: Option<Schedule>)
    requires Carried(running, prev, now, base, next) && Balanced(running) && !running.cancelled
    requires forall s :: s in SlotsIn(base) ==> Balanced(s)
    ensures Totalled(next.value) && forall s :: s in next.value.slots ==> Balanced(s)
  {
    hide Balanced, Totalled, Marked, MergedInto, CancelledDate;
    if base.None? {
      PreservedTotals(running);
    } else {
      var marked :| Marked(prev, base.value.slots, marked) && MergedInto(running, now, marked, next.value);
      MarkedTotals(prev, base.value.slots, marked);
      MergedTotals(running, now, marked, next.value);
    }
  }

  lemma PreservedTotals(running: Slot)
    requires Balanced(running) && !running.cancelled
    ensures Totalled(Preserved(running))
  {
    RoundedOnce(CostOf(running.periods));
    RoundedOnce(EnergyOf(running.periods));
    assert SlotCosts([running]) == running.cost && SlotEnergies([running]) == running.energy;
    hide Hundredths, CostOf, EnergyOf;
  }

  lemma MergedTotals(running: Slot, now: int, slots: seq<Slot>, next: Schedule)
    requires MergedInto(running, now, slots, next) && forall s :: s in slots ==> Balanced(s)
    ensures Totalled(next) && forall s :: s in next.slots ==> Balanced(s)
  {
    hide Balanced, Totalled, Running, KeepsRunning, SameDate, LatestDeadline;
    var recomputed, merged, k :| FirstRunning(running.periods, now, k) && Continues(running, k, recomputed, merged)
      && SameDate(slots, running.date, recomputed) && Installed(slots, merged, next.slots);
    assert Balanced(merged);
    hide Continues;
    var i :| 0 <= i <= |slots| && InstalledAt(slots, merged, i, next.slots);
  }

  lemma MarkedRespects(
    prev: Option<Schedule>, x: Inputs, cfg: Config, slots: seq<Slot>, marked: seq<Slot>, p: Period, o: Override)
    requires GoodBase(x, cfg, slots) && Marked(prev, slots, marked) && p in ActiveOf(marked) && o in x.overrides
    ensures Respects(p, o, x.rates)
  {
    ActiveOfComesFrom(marked, p);
    var k :| 0 <= k < |marked| && !marked[k].cancelled && p in marked[k].periods;
    assert p in slots[k].periods;
    hide Respects;
  }

  ghost predicate ForceHeld(prev: Option<Schedule>, slots: seq<Slot>, p: Period, deadline: int) {
    exists k :: 0 <= k < |slots| && slots[k].deadline == deadline && p in slots[k].periods
      && slots[k].cancelled == CancelledDate(prev, DateOf(deadline))
  }

  lemma MarkingKeepsForce(prev: Option<Schedule>, slots: seq<Slot>, marked: seq<Slot>, p: Period, deadline: int)
    requires ForceHonoured(slots, p, deadline) && Marked(prev, slots, marked)
    ensures ForceHeld(prev, marked, p, deadline)
  {
    var k :| 0 <= k < |slots| && slots[k].deadline == deadline && slots[k].date == DateOf(deadline)
      && !slots[k].cancelled && p in slots[k].periods;
    assert marked[k].deadline == deadline && p in marked[k].periods;
  }

  lemma AutoInputsGood(x: Inputs, cfg: Config, planned: Config)
    requires GoodInputs(x.rates, x.overrides, cfg) && planned.deadlineOfDay == cfg.deadlineOfDay
    ensures GoodInputs(AutoRates(cfg, x.rates), x.overrides, planned)
  {
    NegativesOrdered(x.rates);
  }

  /** A rate picked for both windows runs across the first deadline. */
  lemma RepeatRunsAcross(
    tariff: seq<Rate>, pricing: seq<Rate>, overrides: seq<Override>, frag: seq<Rate>,
    cfg: Config, power: real, now: int, outcomes: seq<Outcome>,
    auto: Option<Schedule>, forces: seq<Period>, sched: Option<Schedule>)
    requires FreshPlan(tariff, pricing, overrides, frag, cfg, power, now, outcomes, auto, forces, sched)
    ensures RunsAcross(tariff, FirstDeadline(now, cfg.deadlineOfDay)) || NoRepeat(auto, outcomes)
  {
    hide RunsAcross, FirstDeadline, Merged;
    if auto.Some? && !PickedOnce(outcomes) {
      PickedTwiceRunsAcross(frag, cfg, power, now, outcomes, auto);
      FragmentsRunAcross(tariff, overrides, frag, FirstDeadline(now, cfg.deadlineOfDay));
    }
  }

  // ----- a running period survives a recompute -----

  /** The running period itself, bounds and power and price, is in the recomputed plan. */
  lemma RunningPeriodSurvives(
    prev: Option<Schedule>, x: Inputs, cfg: Option<Config>, live: real, next: Option<Schedule>, k: int, i: int)
    requires Recomputed(prev, x, cfg, live, next)
    requires FirstRunningSlot(prev, x.now, k) && FirstRunning(SlotsIn(prev)[k].periods, x.now, i)
    ensures SlotsIn(prev)[k].periods[i] in ActiveOf(SlotsIn(next))
  {
    if Unchanged(x, cfg) {
      ActiveOfContains(SlotsIn(prev), k, i);
    } else {
      var c := Fresh(cfg.value, x.soc);
      var base :| Base(x, c, ChargePower(c, live), base) && Replaced(prev, x, base, next);
      hide Base;
      assert ChargeTime(prev, x.now);
      var l :| FirstRunningSlot(prev, x.now, l) && Carried(SlotsIn(prev)[l], prev, x.now, base, next);
      assert l == k by { assert !(l < k) && !(k < l); }
      CarriedHoldsRunning(prev, x.now, k, i, base, next);
    }
  }

  lemma CarriedHoldsRunning(
    prev: Option<Schedule>, now: int, k: int, i: int, base: Option<Schedule>, next: Option<Schedule>)
    requires FirstRunningSlot(prev, now, k) && Carried(SlotsIn(prev)[k], prev, now, base, next)
    requires FirstRunning(SlotsIn(prev)[k].periods, now, i)
    ensures SlotsIn(prev)[k].periods[i] in ActiveOf(SlotsIn(next))
  {
    var running := SlotsIn(prev)[k];
    var p := running.periods[i];
    if base.None? {
      ActiveOfContains(next.value.slots, 0, i);
    } else {
      var marked :| Marked(prev, base.value.slots, marked) && MergedInto(running, now, marked, next.value);
      var recomputed, merged, l :|
        && FirstRunning(running.periods, now, l)
        && Continues(running, l, recomputed, merged)
        && SameDate(marked, running.date, recomputed)
        && Installed(marked, merged, next.value.slots);
      assert l == i;
      MergeContents(running.periods, i, PeriodsIn(recomputed), merged.periods);
      InstallKeepsOtherDates(marked, merged, next.value.slots);
      var j :| 0 <= j < |next.value.slots| && next.value.slots[j] == merged;
      var m :| 0 <= m < |merged.periods| && merged.periods[m] == p;
      ActiveOfContains(next.value.slots, j, m);
    }
  }
}
