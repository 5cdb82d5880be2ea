/**
 The charging plan: day slots of periods, their totals, and the questions the scheduler asks of it: is it
 charge time, and which slot is active (scheduler.go, profile.go).
 */
module Plan {
  import opened Arithmetic
  import opened Spans

  datatype Option<+T> = None | Some(value: T)

  /** What a period carries: power in W, price in PLN/kWh, and whether the user forced it. */
  datatype Load = Load(power: real, price: real, forced: bool)

  type Period = Span<Load>

  /** One day's plan. `date` is the day number of the deadline. */
  datatype Slot = Slot(date: int, deadline: int, periods: seq<Period>, cost: real, energy: real, cancelled: bool)

  /** `deadline` 0 stands for the zero time. */
  datatype Schedule = Schedule(slots: seq<Slot>, cost: real, energy: real, deadline: int)

  function ActiveOf(slots: seq<Slot>): (all: seq<Period>) {
    if slots == [] then []
    else
      var last := slots[|slots| - 1];
      ActiveOf(slots[..|slots| - 1]) + if last.cancelled then [] else last.periods
  }

  method ActivePeriods(sched: Schedule) returns (all: seq<Period>)
    ensures all == ActiveOf(sched.slots)
  {
    all := [];
    for i := 0 to |sched.slots|
      invariant all == ActiveOf(sched.slots[..i])
    {
      assert sched.slots[..i + 1][..i] == sched.slots[..i];
      if !sched.slots[i].cancelled {
        all := all + sched.slots[i].periods;
      }
    }
    assert sched.slots[..|sched.slots|] == sched.slots;
  }

  /** The period is under way at `now` and actually charges. */
  predicate Running(p: Period, now: int) {
    p.Covers(now) && p.value.power > 0.0
  }

  ghost predicate SlotRunning(slot: Slot, now: int) {
    !slot.cancelled && exists i :: 0 <= i < |slot.periods| && Running(slot.periods[i], now)
  }

  /** Some period of a slot that is not cancelled is under way. */
  ghost predicate ChargeTime(sched: Option<Schedule>, now: int) {
    sched.Some? && exists k :: 0 <= k < |sched.value.slots| && SlotRunning(sched.value.slots[k], now)
  }

  /** Index of the first running period, or -1. */
  method FindRunning(periods: seq<Period>, now: int) returns (found: int)
    ensures -1 <= found < |periods|
    ensures found == -1 ==> forall i :: 0 <= i < |periods| ==> !Running(periods[i], now)
    ensures found >= 0 ==> Running(periods[found], now) && forall i :: 0 <= i < found ==> !Running(periods[i], now)
  {
    for i := 0 to |periods|
      invariant forall j :: 0 <= j < i ==> !Running(periods[j], now)
    {
      if Running(periods[i], now) { return i; }
    }
    return -1;
  }

  /** Index of the first slot with a running period, or -1. */
  method ActiveSlot(sched: Option<Schedule>, now: int) returns (found: int)
    ensures found == -1 <==> !ChargeTime(sched, now)
    ensures found != -1 ==>
      0 <= found < |sched.value.slots| && SlotRunning(sched.value.slots[found], now)
      && forall k :: 0 <= k < found ==> !SlotRunning(sched.value.slots[k], now)
  {
    if sched.None? { return -1; }
    var slots := sched.value.slots;
    for k := 0 to |slots|
      invariant forall j :: 0 <= j < k ==> !SlotRunning(slots[j], now)
    {
      if !slots[k].cancelled {
        var i := FindRunning(slots[k].periods, now);
        if i >= 0 { return k; }
      }
    }
    return -1;
  }

  method IsChargeTime(sched: Option<Schedule>, now: int) returns (yes: bool)
    ensures yes == ChargeTime(sched, now)
  {
    var k := ActiveSlot(sched, now);
    yes := k != -1;
  }

  lemma {:induction false} ActiveOfContains(slots: seq<Slot>, k: int, i: int)
    requires 0 <= k < |slots| && !slots[k].cancelled && 0 <= i < |slots[k].periods|
    ensures slots[k].periods[i] in ActiveOf(slots)
  {
    if k < |slots| - 1 {
      ActiveOfContains(slots[..|slots| - 1], k, i);
    }
  }

  lemma {:induction false} ActiveOfComesFrom(slots: seq<Slot>, p: Period)
    requires p in ActiveOf(slots)
    ensures exists k :: 0 <= k < |slots| && !slots[k].cancelled && p in slots[k].periods
  {
    var last := |slots| - 1;
    if slots[last].cancelled || p !in slots[last].periods {
      ActiveOfComesFrom(slots[..last], p);
      var k :| 0 <= k < last && !slots[..last][k].cancelled && p in slots[..last][k].periods;
      assert !slots[k].cancelled && p in slots[k].periods;
    }
  }

  /**
   `IsChargeTime` and the profile agree on what a plan does now: it is charge time exactly when
   one of the periods handed to the profile compiler is running.
   */
  lemma ChargeTimeIsActivePeriod(sched: Schedule, now: int)
    ensures ChargeTime(Some(sched), now) <==>
      exists p :: p in ActiveOf(sched.slots) && p.start <= now < p.end && p.value.power > 0.0
  {
    if ChargeTime(Some(sched), now) {
      var k :| 0 <= k < |sched.slots| && SlotRunning(sched.slots[k], now);
      var i :| 0 <= i < |sched.slots[k].periods| && Running(sched.slots[k].periods[i], now);
      ActiveOfContains(sched.slots, k, i);
    }
    if p: Period :| p in ActiveOf(sched.slots) && Running(p, now) {
      ActiveOfComesFrom(sched.slots, p);
      var k :| 0 <= k < |sched.slots| && !sched.slots[k].cancelled && p in sched.slots[k].periods;
      var i :| 0 <= i < |sched.slots[k].periods| && sched.slots[k].periods[i] == p;
      assert SlotRunning(sched.slots[k], now);
    }
  }

  // ----- totals -----

  function PeriodEnergy(p: Period): real {
    p.value.power / 1000.0 * p.Hours()
  }

  function EnergyOf(ps: seq<Period>): real {
    if ps == [] then 0.0 else EnergyOf(ps[..|ps| - 1]) + PeriodEnergy(ps[|ps| - 1])
  }

  function CostOf(ps: seq<Period>): real {
    if ps == [] then 0.0
    else CostOf(ps[..|ps| - 1]) + ps[|ps| - 1].value.price * PeriodEnergy(ps[|ps| - 1])
  }

  /** The plan's deadline is the latest of its slots that are not cancelled, from 0 on. */
  lemma {:induction false} LatestIsReached(slots: seq<Slot>)
    ensures LatestDeadline(slots) >= 0
    ensures forall k :: 0 <= k < |slots| && !slots[k].cancelled ==> slots[k].deadline <= LatestDeadline(slots)
    ensures LatestDeadline(slots) == 0 || exists k ::
      0 <= k < |slots| && !slots[k].cancelled && slots[k].deadline == LatestDeadline(slots)
  {
    if slots != [] {
      var n := |slots| - 1;
      LatestIsReached(slots[..n]);
      if slots[n].cancelled || slots[n].deadline <= LatestDeadline(slots[..n]) {
        assert LatestDeadline(slots) == LatestDeadline(slots[..n]);
        if LatestDeadline(slots) != 0 {
          var k :| 0 <= k < n && !slots[..n][k].cancelled && slots[..n][k].deadline == LatestDeadline(slots);
          assert slots[k].deadline == LatestDeadline(slots);
        }
      }
    }
  }

  /** A slot's totals are the rounded totals of its own periods. */
  predicate Balanced(slot: Slot) {
    slot.cost == Hundredths(CostOf(slot.periods)) && slot.energy == Hundredths(EnergyOf(slot.periods))
  }

  function SlotCosts(slots: seq<Slot>): real {
    if slots == [] then 0.0
    else
      var last := slots[|slots| - 1];
      SlotCosts(slots[..|slots| - 1]) + if last.cancelled then 0.0 else last.cost
  }

  function SlotEnergies(slots: seq<Slot>): real {
    if slots == [] then 0.0
    else
      var last := slots[|slots| - 1];
      SlotEnergies(slots[..|slots| - 1]) + if last.cancelled then 0.0 else last.energy
  }

  function LatestDeadline(slots: seq<Slot>): int {
    if slots == [] then 0
    else
      var last := slots[|slots| - 1];
      var before := LatestDeadline(slots[..|slots| - 1]);
      if last.cancelled then before else Max(before, last.deadline)
  }

  predicate Totalled(sched: Schedule) {
    && sched.cost == Hundredths(SlotCosts(sched.slots))
    && sched.energy == Hundredths(SlotEnergies(sched.slots))
  }

  /** The loops that total a slot's periods (overrides.go, scheduler.go). */
  method RecalcSlotTotals(slot: Slot) returns (r: Slot)
    ensures Balanced(r)
    ensures r == slot.(cost := r.cost, energy := r.energy)
  {
    var cost, energy := 0.0, 0.0;
    for i := 0 to |slot.periods|
      invariant cost == CostOf(slot.periods[..i]) && energy == EnergyOf(slot.periods[..i])
    {
      assert slot.periods[..i + 1][..i] == slot.periods[..i];
      var p := slot.periods[i];
      var e := p.value.power / 1000.0 * p.Hours();
      energy := energy + e;
      cost := cost + p.value.price * e;
    }
    assert slot.periods[..|slot.periods|] == slot.periods;
    r := slot.(cost := Hundredths(cost), energy := Hundredths(energy));
  }

  /** The loops that total a plan over its slots that are not cancelled. */
  method TotalSchedule(slots: seq<Slot>) returns (sched: Schedule)
    ensures sched.slots == slots && Totalled(sched) && sched.deadline == LatestDeadline(slots)
  {
    var cost, energy, deadline := 0.0, 0.0, 0;
    for i := 0 to |slots|
      invariant cost == SlotCosts(slots[..i]) && energy == SlotEnergies(slots[..i])
      invariant deadline == LatestDeadline(slots[..i])
    {
      assert slots[..i + 1][..i] == slots[..i];
      if !slots[i].cancelled {
        cost := cost + slots[i].cost;
        energy := energy + slots[i].energy;
        if slots[i].deadline > deadline { deadline := slots[i].deadline; }
      }
    }
    assert slots[..|slots|] == slots;
    sched := Schedule(slots, Hundredths(cost), Hundredths(energy), deadline);
  }
}
