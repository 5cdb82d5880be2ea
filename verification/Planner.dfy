/**
 Planning over two deadline windows (scheduler.go, `ComputeSchedule`): the second window serves
 what the first left wanted.
 */
module Planner {
  import opened Arithmetic
  import opened Spans
  import opened Plan
  import opened Selection

  function DayStart(t: int): int { t - t % SECONDS_PER_DAY }

  /** The next `deadlineOfDay`, which may be `now` itself. */
  function FirstDeadline(now: int, deadlineOfDay: int): int {
    var d := DayStart(now) + deadlineOfDay;
    if d < now then d + SECONDS_PER_DAY else d
  }

  /** `nextDeadlineAfter`: strictly after t. */
  function NextDeadlineAfter(t: int, deadlineOfDay: int): int {
    var d := DayStart(t) + deadlineOfDay;
    if d <= t then d + SECONDS_PER_DAY else d
  }

  /** A battery below its minimum is charged at any price. */
  function PriceLimit(cfg: Config): real {
    if cfg.minSoC > 0.0 && cfg.currentSoC < cfg.minSoC then 0.0 else cfg.maxPrice
  }

  predicate Eligible(r: Rate, limit: real, start: int, deadline: int) {
    r.end > start && r.start < deadline && r.value != 0.0 && !(limit > 0.0 && r.value > limit)
  }

  function WindowOf(rates: seq<Rate>, limit: real, start: int, deadline: int): seq<Rate> {
    if rates == [] then []
    else
      var n := |rates| - 1;
      WindowOf(rates[..n], limit, start, deadline)
        + if Eligible(rates[n], limit, start, deadline) then [rates[n]] else []
  }

  /** What one deadline window produced: its rates, the energy asked for, the choice and the slot. */
  datatype Outcome = Outcome(window: seq<Rate>, target: real, picked: set<int>, slot: Option<Slot>)

  function SlotEnergy(slot: Option<Slot>): real { if slot.Some? then slot.value.energy else 0.0 }

  /** Energy still wanted after the first k windows. */
  function Wanted(cfg: Config, outcomes: seq<Outcome>, k: nat): real
    requires k <= |outcomes|
  {
    if k == 0 then (if cfg.target < 0.0 then 0.0 else cfg.target)
    else Wanted(cfg, outcomes, k - 1) - SlotEnergy(outcomes[k - 1].slot)
  }

  function SlotsOf(outcomes: seq<Outcome>): seq<Slot> {
    if outcomes == [] then []
    else
      var n := |outcomes| - 1;
      SlotsOf(outcomes[..n]) + SlotList(outcomes[n])
  }

  function SlotList(o: Outcome): seq<Slot> { if o.slot.Some? then [o.slot.value] else [] }

  function DeadlineOf(cfg: Config, now: int, k: int): int {
    FirstDeadline(now, cfg.deadlineOfDay) + k * SECONDS_PER_DAY
  }

  function WindowStart(cfg: Config, now: int, k: int): int {
    if k == 0 then now else DeadlineOf(cfg, now, k - 1)
  }

  /** Each window offers its eligible rates for what is still wanted. */
  ghost predicate Worked(rates: seq<Rate>, cfg: Config, power: real, now: int, outcomes: seq<Outcome>) {
    forall k :: 0 <= k < |outcomes| ==> WorkedAt(rates, cfg, power, now, k, outcomes[k], Wanted(cfg, outcomes, k))
  }

  ghost predicate WorkedAt(rates: seq<Rate>, cfg: Config, power: real, now: int, k: int, o: Outcome, wanted: real) {
    && o.window == WindowOf(rates, PriceLimit(cfg), WindowStart(cfg, now, k), DeadlineOf(cfg, now, k))
    && o.target == wanted
    && (k > 0 ==> o.target > 0.0)
    && SlotFor(o.window, o.target, power, cfg.headroom, DeadlineOf(cfg, now, k), o.picked, o.slot)
  }

  /** The windows tried: two, unless the first already covers the target. */
  ghost predicate Tried(rates: seq<Rate>, cfg: Config, power: real, now: int, outcomes: seq<Outcome>) {
    && 1 <= |outcomes| <= 2
    && Worked(rates, cfg, power, now, outcomes)
    && (|outcomes| == 1 ==> Wanted(cfg, outcomes, 1) <= 0.0)
  }

  /** The plan made of the windows' slots. */
  ghost predicate PlanFor(
    rates: seq<Rate>, cfg: Config, power: real, now: int, outcomes: seq<Outcome>, sched: Option<Schedule>) {
    && Tried(rates, cfg, power, now, outcomes)
    && (sched.None? <==> SlotsOf(outcomes) == [])
    && (sched.Some? ==> Totalled(sched.value) && sched.value.slots == SlotsOf(outcomes))
    && (sched.Some? ==> sched.value.deadline == SlotsOf(outcomes)[|SlotsOf(outcomes)| - 1].deadline)
  }

  method ComputeSchedule(rates: seq<Rate>, cfg: Config, power: real, now: int) returns (sched: Option<Schedule>)
    ensures exists outcomes :: PlanFor(rates, cfg, power, now, outcomes, sched)
  {
    var slots := PlanWindows(rates, cfg, power, now);
    ghost var outcomes :| Tried(rates, cfg, power, now, outcomes) && slots == SlotsOf(outcomes);
    hide Worked, SlotsOf, Wanted;
    if |slots| == 0 {
      sched := None;
    } else {
      var total := TotalSchedule(slots);
      sched := Some(total.(deadline := slots[|slots| - 1].deadline));
    }
    assert PlanFor(rates, cfg, power, now, outcomes, sched);
  }

  /** The loop over deadline windows. */
  method PlanWindows(rates: seq<Rate>, cfg: Config, power: real, now: int) returns (slots: seq<Slot>)
    ensures exists outcomes :: Tried(rates, cfg, power, now, outcomes) && slots == SlotsOf(outcomes)
  {
    slots := [];
    var windowStart := now;
    var deadline := FirstDeadline(now, cfg.deadlineOfDay);
    var remaining := if cfg.target < 0.0 then 0.0 else cfg.target;
    ghost var outcomes: seq<Outcome> := [];
    assert Worked(rates, cfg, power, now, []) && SlotsOf([]) == [] && Wanted(cfg, [], 0) == remaining;
    hide WorkedAt, Worked, SlotsOf, Wanted, FirstDeadline;
    var cycle := 0;
    while cycle < 2
      invariant 0 <= cycle <= 2 && |outcomes| == cycle
      invariant deadline == DeadlineOf(cfg, now, cycle) && windowStart == WindowStart(cfg, now, cycle)
      invariant Worked(rates, cfg, power, now, outcomes) && slots == SlotsOf(outcomes)
      invariant remaining == Wanted(cfg, outcomes, cycle)
      invariant remaining >= 0.0 && (cycle > 0 ==> remaining > 0.0)
    {
      var slot := PlanWindow(rates, cfg, power, now, cycle, windowStart, deadline, remaining);
      ghost var o :| WorkedAt(rates, cfg, power, now, cycle, o, remaining) && o.slot == slot;
      WorkStep(rates, cfg, power, now, outcomes, o);
      outcomes := outcomes + [o];
      if slot.Some? {
        slots := slots + [slot.value];
        remaining := remaining - slot.value.energy;
      }
      cycle := cycle + 1;
      if remaining <= 0.0 { break; }
      windowStart := deadline;
      deadline := deadline + SECONDS_PER_DAY;
    }
    assert Tried(rates, cfg, power, now, outcomes);
  }

  /** One window: its eligible rates, and a choice among them. */
  method PlanWindow(
    rates: seq<Rate>, cfg: Config, power: real, now: int, cycle: nat, windowStart: int, deadline: int, remaining: real)
    returns (slot: Option<Slot>)
    requires deadline == DeadlineOf(cfg, now, cycle) && windowStart == WindowStart(cfg, now, cycle)
    requires remaining >= 0.0 && (cycle > 0 ==> remaining > 0.0)
    ensures exists o :: WorkedAt(rates, cfg, power, now, cycle, o, remaining) && o.slot == slot
  {
    hide SlotFor, DeadlineOf, WindowStart, WindowOf;
    var window := WindowRates(rates, PriceLimit(cfg), windowStart, deadline);
    ghost var picked: set<int> := {};
    if window == [] {
      NoWindow(remaining, power, cfg.headroom, deadline);
      slot := None;
    } else {
      slot := ComputeSlot(window, remaining, power, cfg.headroom, deadline);
      picked :| SlotFor(window, remaining, power, cfg.headroom, deadline, picked, slot);
    }
    assert WorkedAt(rates, cfg, power, now, cycle, Outcome(window, remaining, picked, slot), remaining);
  }

  lemma NoWindow(target: real, power: real, headroom: real, deadline: int)
    ensures SlotFor([], target, power, headroom, deadline, {}, None)
  {
  }

  lemma WorkStep(rates: seq<Rate>, cfg: Config, power: real, now: int, outcomes: seq<Outcome>, o: Outcome)
    requires Worked(rates, cfg, power, now, outcomes)
    requires WorkedAt(rates, cfg, power, now, |outcomes|, o, Wanted(cfg, outcomes, |outcomes|))
    ensures var after := outcomes + [o];
      && Worked(rates, cfg, power, now, after)
      && Wanted(cfg, after, |after|) == Wanted(cfg, outcomes, |outcomes|) - SlotEnergy(o.slot)
      && SlotsOf(after) == SlotsOf(outcomes) + SlotList(o)
  {
    hide WorkedAt;
    var after := outcomes + [o];
    assert after[..|outcomes|] == outcomes;
    WantedPrefix(cfg, outcomes, after, |outcomes|);
    hide SlotsOf;
    forall k | 0 <= k < |after|
      ensures WorkedAt(rates, cfg, power, now, k, after[k], Wanted(cfg, after, k))
    {
      WantedPrefix(cfg, outcomes, after, k);
      assert k < |outcomes| ==> after[k] == outcomes[k];
    }
  }

  lemma {:induction false} WantedPrefix(cfg: Config, before: seq<Outcome>, after: seq<Outcome>, k: nat)
    requires before <= after && k <= |before|
    ensures Wanted(cfg, after, k) == Wanted(cfg, before, k)
  {
    if k > 0 { WantedPrefix(cfg, before, after, k - 1); }
  }

  method WindowRates(rates: seq<Rate>, limit: real, start: int, deadline: int) returns (window: seq<Rate>)
    ensures window == WindowOf(rates, limit, start, deadline)
  {
    window := [];
    for i := 0 to |rates|
      invariant window == WindowOf(rates[..i], limit, start, deadline)
    {
      assert rates[..i + 1][..i] == rates[..i];
      var r := rates[i];
      if r.end > start && r.start < deadline && r.value != 0.0 {
        if limit > 0.0 && r.value > limit { continue; }
        window := window + [r];
      }
    }
    assert rates[..|rates|] == rates;
  }

  // ----- the plan never gives up early -----

  lemma {:induction false} WindowKeeps(rates: seq<Rate>, limit: real, start: int, deadline: int)
    ensures var w := WindowOf(rates, limit, start, deadline);
      && (forall r :: r in w <==> r in rates && Eligible(r, limit, start, deadline))
      && (DistinctStarts(rates) ==> DistinctStarts(w))
  {
    if rates != [] {
      var n := |rates| - 1;
      var before := WindowOf(rates[..n], limit, start, deadline);
      WindowKeeps(rates[..n], limit, start, deadline);
      assert rates == rates[..n] + [rates[n]];
      if DistinctStarts(rates) {
        forall i | 0 <= i < |before|
          ensures before[i].start != rates[n].start
        {
          assert before[i] in rates[..n];
        }
      }
    }
  }

  /**
   A window offers exactly the tariff's rates that touch it, have a price, and cost no more than the user's
   limit, if there is one. A battery below the user's minimum makes the limit void.
   */
  lemma OfferedRates(rates: seq<Rate>, cfg: Config, start: int, deadline: int, r: Rate)
    ensures r in WindowOf(rates, PriceLimit(cfg), start, deadline) <==>
      && r in rates && r.end > start && r.start < deadline && r.value != 0.0
      && (cfg.maxPrice <= 0.0 || (cfg.minSoC > 0.0 && cfg.currentSoC < cfg.minSoC) || r.value <= cfg.maxPrice)
  {
    WindowKeeps(rates, PriceLimit(cfg), start, deadline);
    hide WindowOf;
  }

  lemma {:induction false} EnergyConcat(a: seq<Period>, b: seq<Period>)
    ensures EnergyOf(a + b) == EnergyOf(a) + EnergyOf(b)
  {
    if b == [] {
      assert a + b == a;
    } else {
      var n := |b| - 1;
      assert (a + b)[..|a| + n] == a + b[..n];
      EnergyConcat(a, b[..n]);
    }
  }

  /** The periods one outcome puts into the plan. */
  function PeriodsOf(o: Outcome): seq<Period> { if o.slot.Some? then o.slot.value.periods else [] }

  lemma {:induction false} PlanPeriods(outcomes: seq<Outcome>)
    requires forall k :: 0 <= k < |outcomes| ==> outcomes[k].slot.Some? ==> !outcomes[k].slot.value.cancelled
    ensures ActiveOf(SlotsOf(outcomes)) == if outcomes == [] then []
      else ActiveOf(SlotsOf(outcomes[..|outcomes| - 1])) + PeriodsOf(outcomes[|outcomes| - 1])
  {
    if outcomes != [] {
      var n := |outcomes| - 1;
      var o := outcomes[n];
      if o.slot.Some? {
        assert SlotsOf(outcomes)[..|SlotsOf(outcomes[..n])|] == SlotsOf(outcomes[..n]);
      } else {
        assert SlotsOf(outcomes) == SlotsOf(outcomes[..n]);
      }
    }
  }

  lemma {:induction false} PickedAll(rates: seq<Rate>, picked: set<int>, power: real)
    requires forall i :: 0 <= i < |rates| ==> i in picked
    ensures forall r :: r in rates ==> AsPeriod(r, power) in Picked(rates, picked, power)
  {
    if rates != [] {
      var n := |rates| - 1;
      PickedAll(rates[..n], picked, power);
      assert rates == rates[..n] + [rates[n]];
    }
  }

  /** A choice as large as the list is the whole list. */
  lemma FullChoice(rates: seq<Rate>, picked: set<int>)
    requires Indices(rates, picked) && |picked| == |rates|
    ensures forall i :: 0 <= i < |rates| ==> i in picked
  {
    var all := Spans.Between(0, |rates|);
    assert picked <= all;
    SameSizeSubset(picked, all);
  }

  ghost predicate AllPlanned(o: Outcome, power: real) {
    forall r :: r in o.window ==> AsPeriod(r, power) in PeriodsOf(o)
  }

  /** One window: its slot carries what was asked, or holds every eligible rate. */
  lemma WindowCarries(rates: seq<Rate>, cfg: Config, power: real, now: int, k: int, o: Outcome, wanted: real)
    requires WorkedAt(rates, cfg, power, now, k, o, wanted)
    requires power > 0.0 && Headroom(cfg.headroom) > 0.0
    requires DistinctStarts(rates) && LongEnough(o.window, cfg.headroom)
    requires forall i :: 0 <= i < |rates| ==> rates[i].start <= rates[i].end
    requires wanted >= 0.0
    ensures EnergyOf(PeriodsOf(o)) >= 0.0
    ensures EnergyOf(PeriodsOf(o)) >= wanted || AllPlanned(o, power)
    ensures -0.005 <= SlotEnergy(o.slot) - EnergyOf(PeriodsOf(o)) <= 0.005
    ensures o.slot.Some? ==> !o.slot.value.cancelled
  {
    var kw := power / 1000.0;
    var periods := Picked(o.window, o.picked, power);
    WindowKeeps(rates, PriceLimit(cfg), WindowStart(cfg, now, k), DeadlineOf(cfg, now, k));
    forall i | 0 <= i < |o.window|
      ensures o.window[i].end - o.window[i].start >= 0
    {
      assert o.window[i] in rates;
    }
    PickedSecondsAtLeast(o.window, o.picked, 0);
    PickedEnergy(o.window, o.picked, power);
    KWhOrder(kw, 0, PickedSeconds(o.window, o.picked));
    assert EnergyOf([]) == 0.0;
    assert PeriodsOf(o) == periods;
    HundredthsClose(EnergyOf(periods));
    if |o.picked| == |o.window| {
      FullChoice(o.window, o.picked);
      PickedAll(o.window, o.picked, power);
    } else if wanted > 0.0 {
      LongChoiceCarries(o.window, wanted, power, cfg.headroom, o.picked);
    }
  }

  /** Energy of the whole plan, before any rounding. */
  function PlannedEnergy(sched: Option<Schedule>): real {
    if sched.Some? then EnergyOf(ActiveOf(sched.value.slots)) else 0.0
  }

  /** Every rate eligible in either window is a period of the plan. */
  ghost predicate NothingLeft(rates: seq<Rate>, cfg: Config, power: real, now: int, sched: Option<Schedule>) {
    forall k :: 0 <= k < 2 ==>
      forall r :: r in WindowOf(rates, PriceLimit(cfg), WindowStart(cfg, now, k), DeadlineOf(cfg, now, k)) ==>
        sched.Some? && AsPeriod(r, power) in ActiveOf(sched.value.slots)
  }

  /**
   `ComputeSchedule` never gives up early: the plan carries the target, short of the half-hundredth
   that rounding the first slot may hide, or it already holds every rate it was allowed to use.
   */
  lemma NeverGivesUpEarly(
    rates: seq<Rate>, cfg: Config, power: real, now: int, outcomes: seq<Outcome>, sched: Option<Schedule>)
    requires PlanFor(rates, cfg, power, now, outcomes, sched)
    requires power > 0.0 && Headroom(cfg.headroom) > 0.0 && DistinctStarts(rates)
    requires forall i :: 0 <= i < |rates| ==> rates[i].start <= rates[i].end
    requires forall k :: 0 <= k < |outcomes| ==> LongEnough(outcomes[k].window, cfg.headroom)
    ensures PlannedEnergy(sched) >= cfg.target - 0.005 || NothingLeft(rates, cfg, power, now, sched)
  {
    if |outcomes| == 2 {
      assert WorkedAt(rates, cfg, power, now, 1, outcomes[1], Wanted(cfg, outcomes, 1));
    }
    hide WorkedAt, LongEnough, SlotsOf, ActiveOf, EnergyOf, AllPlanned, PeriodsOf, NothingLeft, PlannedEnergy;
    var first := outcomes[0];
    var target := Wanted(cfg, outcomes, 0);
    WindowCarries(rates, cfg, power, now, 0, first, target);
    assert Wanted(cfg, outcomes, 1) == target - SlotEnergy(first.slot);
    if |outcomes| == 1 {
      OneOutcome(outcomes);
      PlanEnergy(outcomes, sched);
    } else {
      var second := outcomes[1];
      WindowCarries(rates, cfg, power, now, 1, second, Wanted(cfg, outcomes, 1));
      TwoOutcomes(outcomes);
      EnergyConcat(PeriodsOf(first), PeriodsOf(second));
      PlanEnergy(outcomes, sched);
      if AllPlanned(first, power) && AllPlanned(second, power) {
        BothPlanned(rates, cfg, power, now, outcomes, sched);
      }
    }
  }

  lemma OneOutcome(outcomes: seq<Outcome>)
    requires |outcomes| == 1 && (outcomes[0].slot.Some? ==> !outcomes[0].slot.value.cancelled)
    ensures ActiveOf(SlotsOf(outcomes)) == PeriodsOf(outcomes[0])
  {
    PlanPeriods(outcomes);
    assert outcomes[..0] == [];
    assert ActiveOf(SlotsOf([])) == [];
  }

  lemma TwoOutcomes(outcomes: seq<Outcome>)
    requires |outcomes| == 2
    requires forall k :: 0 <= k < 2 ==> outcomes[k].slot.Some? ==> !outcomes[k].slot.value.cancelled
    ensures ActiveOf(SlotsOf(outcomes)) == PeriodsOf(outcomes[0]) + PeriodsOf(outcomes[1])
  {
    PlanPeriods(outcomes);
    OneOutcome(outcomes[..1]);
  }

  lemma PlanEnergy(outcomes: seq<Outcome>, sched: Option<Schedule>)
    requires sched.None? <==> SlotsOf(outcomes) == []
    requires sched.Some? ==> sched.value.slots == SlotsOf(outcomes)
    ensures PlannedEnergy(sched) == EnergyOf(ActiveOf(SlotsOf(outcomes)))
    ensures sched.None? ==> ActiveOf(SlotsOf(outcomes)) == []
  {
  }

  lemma BothPlanned(
    rates: seq<Rate>, cfg: Config, power: real, now: int, outcomes: seq<Outcome>, sched: Option<Schedule>)
    requires PlanFor(rates, cfg, power, now, outcomes, sched) && |outcomes| == 2
    requires ActiveOf(SlotsOf(outcomes)) == PeriodsOf(outcomes[0]) + PeriodsOf(outcomes[1])
    requires AllPlanned(outcomes[0], power) && AllPlanned(outcomes[1], power)
    ensures NothingLeft(rates, cfg, power, now, sched)
  {
    PlanEnergy(outcomes, sched);
    forall k | 0 <= k < 2
      ensures outcomes[k].window == WindowOf(rates, PriceLimit(cfg), WindowStart(cfg, now, k), DeadlineOf(cfg, now, k))
    {
      assert WorkedAt(rates, cfg, power, now, k, outcomes[k], Wanted(cfg, outcomes, k));
    }
  }

  /** Rates of at least an hour, with headroom not negative, are always long enough. */
  lemma HoursAreLongEnough(rates: seq<Rate>, headroom: real)
    requires forall i :: 0 <= i < |rates| ==> rates[i].end - rates[i].start >= SECONDS_PER_HOUR
    requires headroom >= 0.0
    ensures LongEnough(rates, headroom)
  {
    forall picked | Cheapest(rates, picked, |picked|) && 0 < |picked| < |rates|
      ensures Lasts(rates, picked, headroom)
    {
      PickedSecondsAtLeast(rates, picked, SECONDS_PER_HOUR);
      var hours := PickedSeconds(rates, picked) as real / 3600.0;
      assert hours >= |picked| as real;
      assert Headroom(headroom) >= 1.0;
      TimesCommutes(Headroom(headroom), hours);
      TimesOrder(hours, 1.0, Headroom(headroom));
      assert Times(hours, 1.0) == hours;
    }
  }

  lemma WindowOfHours(rates: seq<Rate>, limit: real, start: int, deadline: int, headroom: real)
    requires forall i :: 0 <= i < |rates| ==> rates[i].end - rates[i].start >= SECONDS_PER_HOUR
    requires headroom >= 0.0
    ensures LongEnough(WindowOf(rates, limit, start, deadline), headroom)
  {
    var w := WindowOf(rates, limit, start, deadline);
    WindowKeeps(rates, limit, start, deadline);
    forall i | 0 <= i < |w|
      ensures w[i].end - w[i].start >= SECONDS_PER_HOUR
    {
      assert w[i] in rates;
    }
    HoursAreLongEnough(w, headroom);
  }

  /** The tariff as published, in hours: no further condition is needed. */
  lemma HourlyTariffNeverGivesUp(
    rates: seq<Rate>, cfg: Config, power: real, now: int, outcomes: seq<Outcome>, sched: Option<Schedule>)
    requires PlanFor(rates, cfg, power, now, outcomes, sched)
    requires power > 0.0 && cfg.headroom >= 0.0 && DistinctStarts(rates)
    requires forall i :: 0 <= i < |rates| ==> rates[i].end - rates[i].start >= SECONDS_PER_HOUR
    ensures PlannedEnergy(sched) >= cfg.target - 0.005 || NothingLeft(rates, cfg, power, now, sched)
  {
    forall k | 0 <= k < |outcomes|
      ensures LongEnough(outcomes[k].window, cfg.headroom)
    {
      assert WorkedAt(rates, cfg, power, now, k, outcomes[k], Wanted(cfg, outcomes, k));
      WindowOfHours(rates, PriceLimit(cfg), WindowStart(cfg, now, k), DeadlineOf(cfg, now, k), cfg.headroom);
    }
    NeverGivesUpEarly(rates, cfg, power, now, outcomes, sched);
  }

  /** A rate offered to one window is offered to the next as well exactly when it runs across the deadline. */
  lemma StraddlersAreOfferedTwice(r: Rate, limit: real, start: int, deadline: int)
    requires r.start < r.end && start <= deadline && Eligible(r, limit, start, deadline)
    ensures Eligible(r, limit, deadline, deadline + SECONDS_PER_DAY) <==> r.end > deadline
  {
  }
}
