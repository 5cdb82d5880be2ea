/** Inputs on which a recompute leaves overlapping periods: the conditions of `Continuity`, failed. */
module Disturbances {
  import opened Arithmetic
  import opened Spans
  import opened Plan
  import opened OverrideTable
  import opened Fragment
  import opened Selection
  import opened Planner
  import opened Slots
  import opened Forces
  import opened Pipeline
  import opened Merge
  import opened Recompute

  function Total(slots: seq<Slot>): Schedule {
    Schedule(slots, Hundredths(SlotCosts(slots)), Hundredths(SlotEnergies(slots)), LatestDeadline(slots))
  }

  function Filled(date: int, deadline: int, periods: seq<Period>): Slot {
    Slot(date, deadline, periods, Hundredths(CostOf(periods)), Hundredths(EnergyOf(periods)), false)
  }

  /** The slot a single force makes. */
  function ForceSlot(o: Override, deadlineOfDay: int): Slot {
    var d := NextDeadlineAfter(o.window.start, deadlineOfDay);
    Filled(DateOf(d), d, [ForcePeriod(o, [])])
  }

  /** Settings that want nothing beyond the forces. */
  function Idle(deadlineOfDay: int): Config { Config(0.0, deadlineOfDay, 11000.0, 0.0, 0.0, 0.0, 0.0, 0.0, 0.0, 0.0) }

  /** A recompute at `now` with one override and no tariff. */
  function With(o: Override, now: int): Inputs { Inputs(now, false, false, 0, None, 0.0, [], [o], false) }

  lemma OneForce(o: Override, deadlineOfDay: int)
    requires o.kind == Force && o.power > 0.0 && o.window.start < o.window.end
    ensures
      Merged(None, [ForcePeriod(o, [])], deadlineOfDay, Some(Total([ForceSlot(o, deadlineOfDay)])))
  {
    var p, s := ForcePeriod(o, []), ForceSlot(o, deadlineOfDay);
    var sched := Total([s]);
    assert [s][..0] == [] && [p][..0] == [];
    hide ForcePeriod, NextDeadlineAfter, Hundredths, CostOf, EnergyOf;
    assert Sound(s);
    forall d
      ensures PeriodsAt([s], d) == PeriodsAt([], d) + ForcesAt([p], d, deadlineOfDay)
    {
      assert p.start == o.window.start by { ForceBounds(o, []); }
    }
  }

  lemma OnlyForce(o: Override)
    requires o.kind == Force
    ensures ForcesOf([o]) == [o]
  {
    assert [o][..0] == [];
    assert KindOf([o], Force) == KindOf([o][..0], Force) + [o];
  }

  lemma OneForceEnergy(o: Override)
    requires o.power > 0.0 && o.window.start < o.window.end
    ensures EnergyOf([ForcePeriod(o, [])]) >= 0.0 && ForcePeriods([o], []) == [ForcePeriod(o, [])]
  {
    var p := ForcePeriod(o, []);
    ForcePriceGivesCostBack(o, []);
    assert [p][..0] == [];
  }

  lemma OneForceBase(o: Override, now: int, deadlineOfDay: int, power: real, soc: real)
    requires o.kind == Force && o.power > 0.0 && o.window.start < o.window.end
    ensures var base := Total([ForceSlot(o, deadlineOfDay)]);
      Base(With(o, now), Idle(deadlineOfDay).(currentSoC := soc), power, Some(base))
  {
    var x, cfg, p := With(o, now), Idle(deadlineOfDay).(currentSoC := soc), ForcePeriod(o, []);
    hide ForcePeriod, EnergyOf, Merged, ForceSlot, Total, PlanFor, Fragments, ForcesOf, ForcePeriods;
    OnlyForce(o);
    OneForceEnergy(o);
    OneForce(o, deadlineOfDay);
    assert AutoTarget(cfg, [p]) == 0.0;
    assert BaseFrom(x, cfg, power, [], [], None, [p], Some(Total([ForceSlot(o, deadlineOfDay)])));
  }

  /** A plan of one running slot with one period. */
  function Alone(date: int, deadline: int, p: Period): Schedule { Total([Filled(date, deadline, [p])]) }

  /** The force's slot and the running one, by date. */
  function Beside(running: Slot, other: Slot): seq<Slot> {
    if other.date < running.date then [other, running] else [running, other]
  }

  lemma InstalledBeside(running: Slot, other: Slot)
    requires other.date != running.date
    ensures Installed([other], running, Beside(running, other))
  {
    var slots := [other];
    if other.date < running.date {
      assert slots[..1] + [running] + slots[1..] == Beside(running, other);
      assert InstalledAt(slots, running, 1, Beside(running, other));
    } else {
      assert slots[..0] + [running] + slots[0..] == Beside(running, other);
      assert InstalledAt(slots, running, 0, Beside(running, other));
    }
  }

  lemma MergedBeside(running: Slot, other: Slot, p: Period, now: int)
    requires Balanced(running) && running.periods == [p] && Running(p, now) && other.date != running.date
    ensures MergedInto(running, now, [other], Total(Beside(running, other)))
  {
    InstalledBeside(running, other);
    hide Balanced, Installed, Beside, LatestDeadline, Hundredths, SlotCosts, SlotEnergies;
    assert FirstRunning(running.periods, now, 0);
    assert KeepsRunning(running.periods, 0, None, running.periods);
    assert Continues(running, 0, None, running);
    assert SameDate([other], running.date, None);
  }

  lemma ReplacedBeside(running: Slot, other: Slot, p: Period, x: Inputs)
    requires Balanced(running) && running.periods == [p] && Running(p, x.now) && other.date != running.date
    requires !running.cancelled
    ensures Replaced(Some(Total([running])), x, Some(Total([other])), Some(Total(Beside(running, other))))
  {
    var prev := Some(Total([running]));
    MergedBeside(running, other, p, x.now);
    assert prev.value.slots == [running] && Total([other]).slots == [other];
    assert SlotRunning(prev.value.slots[0], x.now) && FirstRunningSlot(prev, x.now, 0);
    assert Marked(prev, [other], [other]);
    hide MergedInto, Total, Beside, Balanced, Marked, SlotRunning;
    assert Carried(running, prev, x.now, Some(Total([other])), Some(Total(Beside(running, other))));
  }

  /** With one override due on another day, the recompute puts its force beside the running slot. */
  lemma BesideRunning(date: int, deadline: int, p: Period, o: Override, now: int, deadlineOfDay: int)
    requires o.kind == Force && o.power > 0.0 && o.window.start < o.window.end
    requires Running(p, now) && ForceSlot(o, deadlineOfDay).date != date
    ensures Recomputed(Some(Alone(date, deadline, p)), With(o, now), Some(Idle(deadlineOfDay)), 0.0,
      Some(Total(Beside(Filled(date, deadline, [p]), ForceSlot(o, deadlineOfDay)))))
  {
    var running, other := Filled(date, deadline, [p]), ForceSlot(o, deadlineOfDay);
    OneForceBase(o, now, deadlineOfDay, ChargePower(Fresh(Idle(deadlineOfDay), 0.0), 0.0), 0.0);
    OnlyForce(o);
    assert Balanced(running) && !Unchanged(With(o, now), Some(Idle(deadlineOfDay)));
    assert Fresh(Idle(deadlineOfDay), 0.0) == Idle(deadlineOfDay).(currentSoC := 0.0);
    hide Base, ForceSlot, Total, Beside, Replaced, Balanced, Running, ForcesOf, Fresh, ChargePower, Unchanged, Filled;
    ReplacedBeside(running, other, p, With(o, now));
  }

  lemma BesideActive(running: Slot, other: Slot, p: Period, f: Period)
    requires running.periods == [p] && other.periods == [f] && !running.cancelled && !other.cancelled
    ensures ActiveOf(Beside(running, other)) == if other.date < running.date then [f, p] else [p, f]
  {
    var slots := Beside(running, other);
    assert slots[..1][..0] == [] && ActiveOf([]) == [];
  }

  const HOUR := SECONDS_PER_HOUR

  const CHARGE := Load(11000.0, 0.0, false)

  /** What the plans below were: tidy, around one running period. */
  lemma AloneIsTidy(deadline: int, p: Period, deadlineOfDay: int)
    requires p.start < p.end && Meets(p, deadline) && IsDeadline(deadline, deadlineOfDay)
    ensures Tidy(SlotsIn(Some(Alone(DateOf(deadline), deadline, p))), deadlineOfDay)
  {
  }

  /** From a tidy plan of one running period, a recompute with that one override leaves these periods. */
  ghost predicate Leaves(
    deadline: int, p: Period, o: Override, now: int, was: int, deadlineOfDay: int, periods: seq<Period>) {
    var prev := Some(Alone(DateOf(deadline), deadline, p));
    && Tidy(SlotsIn(prev), was) && Running(p, now) && o.window.end > now
    && exists next ::
      Recomputed(prev, With(o, now), Some(Idle(deadlineOfDay)), 0.0, next) && ActiveOf(SlotsIn(next)) == periods
  }

  lemma LeavesBoth(deadline: int, p: Period, o: Override, now: int, was: int, deadlineOfDay: int, due: int)
    requires o.kind == Force && o.power > 0.0 && o.window.start < o.window.end && o.window.end > now
    requires Running(p, now) && Meets(p, deadline) && IsDeadline(deadline, was)
    requires NextDeadlineAfter(o.window.start, deadlineOfDay) == due && DateOf(due) != DateOf(deadline)
    ensures var f := ForcePeriod(o, []);
      Leaves(deadline, p, o, now, was, deadlineOfDay, if DateOf(due) < DateOf(deadline) then [f, p] else [p, f])
  {
    var date, other := DateOf(deadline), ForceSlot(o, deadlineOfDay);
    var running := Filled(date, deadline, [p]);
    hide DateOf, NextDeadlineAfter, ForcePeriod, IsDeadline, Hundredths, CostOf, EnergyOf;
    AloneIsTidy(deadline, p, was);
    BesideRunning(date, deadline, p, o, now, deadlineOfDay);
    BesideActive(running, other, p, ForcePeriod(o, []));
    hide Recomputed, Tidy, Total, ActiveOf;
    TotalSlots(Beside(running, other));
    assert SlotsIn(Some(Total(Beside(running, other)))) == Beside(running, other);
  }

  lemma TotalSlots(slots: seq<Slot>)
    ensures Total(slots).slots == slots
  {
  }

  /** Two periods that overlap, in whatever order. */
  lemma NotInOrder(p: Period, q: Period)
    requires q.start < p.end
    ensures !Ordered([p, q])
  {
    var ps := [p, q];
    assert ps[0] == p && ps[1] == q;
  }

  /**
   The deadline is moved from 7:00 to 9:00 at 8:30, while a forced window from 8:00 to 9:00 runs. It
   stays in the slot of tomorrow's 7:00 and is placed again in that of today's 9:00.
   */
  lemma MovedDeadline()
    ensures
      var o := Override(1, Force, Span(8 * HOUR, 9 * HOUR, ()), 11000.0);
      var p := ForcePeriod(o, []);
      Leaves(31 * HOUR, p, o, 8 * HOUR + 1800, 7 * HOUR, 9 * HOUR, [p, p]) && !Ordered([p, p])
  {
    var o := Override(1, Force, Span(8 * HOUR, 9 * HOUR, ()), 11000.0);
    var p := ForcePeriod(o, []);
    ForceBounds(o, []);
    assert DateOf(9 * HOUR) == 0 && DateOf(31 * HOUR) == 1;
    hide ForcePeriod, Leaves, DateOf;
    LeavesBoth(31 * HOUR, p, o, 8 * HOUR + 1800, 7 * HOUR, 9 * HOUR, 9 * HOUR);
    NotInOrder(p, p);
  }

  /**
   A force from 6:00 to 8:00 runs across its 7:00 deadline, is deleted at 7:30, and one from 7:45 to
   9:00 is added. The deleted one runs on, overlapping the new one.
   */
  lemma DeletedForce()
    ensures
      var gone := Override(1, Force, Span(6 * HOUR, 8 * HOUR, ()), 11000.0);
      var o := Override(2, Force, Span(7 * HOUR + 2700, 9 * HOUR, ()), 11000.0);
      var p, f := ForcePeriod(gone, []), ForcePeriod(o, []);
      Leaves(7 * HOUR, p, o, 7 * HOUR + 1800, 7 * HOUR, 7 * HOUR, [p, f]) && !Ordered([p, f])
  {
    var gone := Override(1, Force, Span(6 * HOUR, 8 * HOUR, ()), 11000.0);
    var o := Override(2, Force, Span(7 * HOUR + 2700, 9 * HOUR, ()), 11000.0);
    var p, f := ForcePeriod(gone, []), ForcePeriod(o, []);
    ForceBounds(gone, []);
    ForceBounds(o, []);
    assert DateOf(7 * HOUR) == 0 && DateOf(31 * HOUR) == 1;
    hide ForcePeriod, Leaves, DateOf;
    LeavesBoth(7 * HOUR, p, o, 7 * HOUR + 1800, 7 * HOUR, 7 * HOUR, 31 * HOUR);
    NotInOrder(p, f);
  }

  /**
   An automatic hour runs from 8:00, and at 8:30 a force from 6:00 to 10:00 is added. It is due at 7:00,
   so it goes into a slot of its own and overlaps the running hour.
   */
  lemma LateForce()
    ensures
      var o := Override(1, Force, Span(6 * HOUR, 10 * HOUR, ()), 11000.0);
      var p, f := Span(8 * HOUR, 9 * HOUR, CHARGE), ForcePeriod(o, []);
      Leaves(31 * HOUR, p, o, 8 * HOUR + 1800, 7 * HOUR, 7 * HOUR, [f, p]) && !Ordered([f, p])
  {
    var o := Override(1, Force, Span(6 * HOUR, 10 * HOUR, ()), 11000.0);
    var p, f := Span(8 * HOUR, 9 * HOUR, CHARGE), ForcePeriod(o, []);
    ForceBounds(o, []);
    assert DateOf(7 * HOUR) == 0 && DateOf(31 * HOUR) == 1;
    hide ForcePeriod, Leaves, DateOf;
    LeavesBoth(31 * HOUR, p, o, 8 * HOUR + 1800, 7 * HOUR, 7 * HOUR, 7 * HOUR);
    NotInOrder(f, p);
  }

  // ----- overrides that a running slot pushes aside -----

  lemma {:induction false} NoneAfter(periods: seq<Period>, end: int)
    requires forall q :: q in periods ==> q.start < end
    ensures After(periods, end) == []
  {
    if periods != [] {
      var n := |periods| - 1;
      assert periods[n] in periods;
      NoneAfter(periods[..n], end);
    }
  }

  /** A plan from scratch of the same date whose periods all start before the running one ends adds nothing. */
  lemma MergedAlone(running: Slot, other: Slot, p: Period, now: int)
    requires Balanced(running) && running.periods == [p] && Running(p, now) && other.date == running.date
    requires forall q :: q in other.periods ==> q.start < p.end
    ensures MergedInto(running, now, [other], Total([running]))
  {
    NoneAfter(other.periods, p.end);
    assert [p][..1] == [p] && [p] + [] == [p];
    hide Balanced, LatestDeadline, Hundredths, SlotCosts, SlotEnergies, After;
    assert FirstRunning(running.periods, now, 0);
    assert KeepsRunning(running.periods, 0, Some(other.periods), running.periods);
    assert Continues(running, 0, Some(other), running);
    assert FirstOfDate([other], running.date, 0) && SameDate([other], running.date, Some(other));
    assert [other][..0] + [running] + [other][1..] == [running] && InstalledAt([other], running, 0, [running]);
  }

  lemma ReplacedAlone(running: Slot, other: Slot, p: Period, x: Inputs)
    requires Balanced(running) && running.periods == [p] && Running(p, x.now) && other.date == running.date
    requires !running.cancelled && forall q :: q in other.periods ==> q.start < p.end
    ensures Replaced(Some(Total([running])), x, Some(Total([other])), Some(Total([running])))
  {
    var prev := Some(Total([running]));
    MergedAlone(running, other, p, x.now);
    assert prev.value.slots == [running] && Total([other]).slots == [other];
    assert SlotRunning(prev.value.slots[0], x.now) && FirstRunningSlot(prev, x.now, 0);
    assert Marked(prev, [other], [other]);
    hide MergedInto, Total, Balanced, Marked, SlotRunning;
    assert Carried(running, prev, x.now, Some(Total([other])), prev);
  }

  /** With one override due on its own day before the running period ends, the recompute leaves the slot as it is. */
  lemma AloneRunning(date: int, deadline: int, p: Period, o: Override, now: int, deadlineOfDay: int)
    requires o.kind == Force && o.power > 0.0 && o.window.start < o.window.end && o.window.start < p.end
    requires Running(p, now) && ForceSlot(o, deadlineOfDay).date == date
    ensures Recomputed(Some(Alone(date, deadline, p)), With(o, now), Some(Idle(deadlineOfDay)), 0.0,
      Some(Alone(date, deadline, p)))
  {
    var running, other := Filled(date, deadline, [p]), ForceSlot(o, deadlineOfDay);
    OneForceBase(o, now, deadlineOfDay, ChargePower(Fresh(Idle(deadlineOfDay), 0.0), 0.0), 0.0);
    OnlyForce(o);
    ForceBounds(o, []);
    assert Balanced(running) && other.periods == [ForcePeriod(o, [])];
    assert forall q :: q in other.periods ==> q.start < p.end;
    hide Base, ForceSlot, ForcePeriod, Total, Replaced, Balanced, Running, ForcesOf;
    ReplacedAlone(running, other, p, With(o, now));
    assert Fresh(Idle(deadlineOfDay), 0.0) == Idle(deadlineOfDay).(currentSoC := 0.0);
  }

  /**
   An automatic hour runs from 8:00 and at 8:30 a force from 8:45 to 10:00 is added, due with it by
   tomorrow's 7:00. It starts before the hour ends, so the recomputed plan has nothing of it.
   */
  lemma DroppedForce()
    ensures
      var o := Override(1, Force, Span(8 * HOUR + 2700, 10 * HOUR, ()), 11000.0);
      var p := Span(8 * HOUR, 9 * HOUR, CHARGE);
      && Leaves(31 * HOUR, p, o, 8 * HOUR + 1800, 7 * HOUR, 7 * HOUR, [p]) && ForcePeriod(o, []) != p
  {
    var o := Override(1, Force, Span(8 * HOUR + 2700, 10 * HOUR, ()), 11000.0);
    var p := Span(8 * HOUR, 9 * HOUR, CHARGE);
    ForceBounds(o, []);
    assert DateOf(31 * HOUR) == 1;
    assert NextDeadlineAfter(o.window.start, 7 * HOUR) == 31 * HOUR;
    LeavesAlone(31 * HOUR, p, o, 8 * HOUR + 1800, 7 * HOUR);
    hide Leaves, ForcePeriod;
  }

  lemma LeavesAlone(deadline: int, p: Period, o: Override, now: int, deadlineOfDay: int)
    requires o.kind == Force && o.power > 0.0 && o.window.start < o.window.end && o.window.end > now
    requires Running(p, now) && Meets(p, deadline) && IsDeadline(deadline, deadlineOfDay) && o.window.start < p.end
    requires NextDeadlineAfter(o.window.start, deadlineOfDay) == deadline
    ensures Leaves(deadline, p, o, now, deadlineOfDay, deadlineOfDay, [p])
  {
    var date := DateOf(deadline);
    AloneIsTidy(deadline, p, deadlineOfDay);
    hide DateOf, NextDeadlineAfter, ForcePeriod, IsDeadline, Hundredths, CostOf, EnergyOf;
    AloneRunning(date, deadline, p, o, now, deadlineOfDay);
    ActiveAlonePeriod(date, deadline, p);
    hide Recomputed, Tidy, Alone;
  }

  lemma ActiveAlonePeriod(date: int, deadline: int, p: Period)
    ensures ActiveOf(SlotsIn(Some(Alone(date, deadline, p)))) == [p]
  {
    var slot := Filled(date, deadline, [p]);
    assert [slot][..0] == [];
  }

  // ----- a block that a slot left alone ignores -----

  /** A recompute at `now` with one block, which no charge is wanted beyond. */
  function Blocking(o: Override, now: int, r: Rate): Inputs { Inputs(now, false, false, 0, None, 0.0, [r], [o], false) }

  /** A plan of one slot with two periods. */
  function Both(deadline: int, p: Period, q: Period): Schedule {
    Preserved(Filled(DateOf(deadline), deadline, [p, q]))
  }

  /**
   Nothing more is wanted while the first of two periods runs: the slot is kept whole, and a block added
   over the second is ignored.
   */
  lemma IgnoredBlock(deadline: int, p: Period, q: Period, o: Override, now: int, r: Rate, deadlineOfDay: int)
    requires Running(p, now) && o.kind == Block
    ensures var plan := Both(deadline, p, q);
      && Recomputed(Some(plan), Blocking(o, now, r), Some(Idle(deadlineOfDay)), 0.0, Some(plan))
      && ActiveOf(plan.slots) == [p, q]
  {
    var plan, x, cfg := Both(deadline, p, q), Blocking(o, now, r), Idle(deadlineOfDay);
    var running := plan.slots[0];
    assert [running][..0] == [];
    assert KindOf([o], Force) == [] by { assert [o][..0] == []; }
    assert Running(running.periods[0], now) && SlotRunning(running, now);
    assert FirstRunningSlot(Some(plan), now, 0) && ChargeTime(Some(plan), now);
    NothingWanted(o, now, r, deadlineOfDay, ChargePower(Fresh(cfg, 0.0), 0.0));
    hide Base, Filled, SlotRunning, FirstRunningSlot, ActiveOf;
    assert Carried(running, Some(plan), now, None, Some(plan));
    assert Replaced(Some(plan), x, None, Some(plan));
    assert Fresh(cfg, 0.0) == cfg.(currentSoC := 0.0);
  }

  lemma NothingWanted(o: Override, now: int, r: Rate, deadlineOfDay: int, power: real)
    requires o.kind == Block
    ensures Base(Blocking(o, now, r), Idle(deadlineOfDay).(currentSoC := 0.0), power, None)
  {
    var x, cfg := Blocking(o, now, r), Idle(deadlineOfDay).(currentSoC := 0.0);
    assert KindOf([o], Force) == [] by { assert [o][..0] == []; }
    assert Merged(None, [], deadlineOfDay, None) && EnergyOf([]) == 0.0 && AutoTarget(cfg, []) == 0.0;
    assert ForcePeriods([], x.rates) == [];
    hide Merged, EnergyOf, AutoTarget, ForcePeriods, KindOf;
    assert BaseFrom(x, cfg, power, [], [], None, [], None);
  }

  // ----- a rate across a deadline -----

  /** One rate from 6:30 to 7:30, a deadline at 7:00, and more energy wanted than an hour gives. */
  const STRADDLER: Rate := Span(6 * HOUR + 1800, 7 * HOUR + 1800, 1.0)

  const HUNGRY := Config(100.0, 7 * HOUR, 11000.0, 0.0, 0.0, 0.0, 0.0, 0.0, 0.0, 0.0)

  function Taken(k: int, target: real): Outcome {
    Outcome([STRADDLER], target, {0}, Some(Filled(k, 7 * HOUR + k * SECONDS_PER_DAY, [AsPeriod(STRADDLER, 11000.0)])))
  }

  lemma OneHourEnergy()
    ensures EnergyOf([AsPeriod(STRADDLER, 11000.0)]) == 11.0 && Hundredths(11.0) == 11.0
  {
    var p := AsPeriod(STRADDLER, 11000.0);
    assert [p][..0] == [];
    assert p.Hours() == 1.0;
  }

  lemma HoursForMany(target: real)
    requires target > 11.0
    ensures HoursNeeded(target, 11000.0, 0.0) >= 1
  {
    assert Times(target, Headroom(0.0)) == target;
    CeilBounds(target / 11.0);
  }

  lemma StraddlerTaken(k: int, target: real)
    requires 0 <= k < 2 && target > 11.0
    ensures WorkedAt([STRADDLER], HUNGRY, 11000.0, 6 * HOUR, k, Taken(k, target), target)
  {
    var rates, d := [STRADDLER], DeadlineOf(HUNGRY, 6 * HOUR, k);
    assert d == 7 * HOUR + k * SECONDS_PER_DAY && DateOf(d) == k;
    assert rates[..0] == [];
    assert WindowOf(rates, PriceLimit(HUNGRY), WindowStart(HUNGRY, 6 * HOUR, k), d) == rates;
    assert Picked(rates, {0}, 11000.0) == [AsPeriod(STRADDLER, 11000.0)];
    hide EnergyOf, CostOf, Hundredths, HoursNeeded, WindowOf, Picked;
    HoursForMany(target);
    assert Cheapest(rates, {0}, HoursNeeded(target, 11000.0, 0.0));
  }

  /** What both windows make of it. */
  function TakenTwice(): seq<Outcome> { [Taken(0, 100.0), Taken(1, 89.0)] }

  function BookedTwice(): Schedule {
    var slots := [Taken(0, 100.0).slot.value, Taken(1, 89.0).slot.value];
    Total(slots).(deadline := slots[1].deadline)
  }

  lemma TakenTwiceSlots()
    ensures SlotsOf(TakenTwice()) == BookedTwice().slots && Wanted(HUNGRY, TakenTwice(), 1) == 89.0
    ensures ActiveOf(BookedTwice().slots) == [AsPeriod(STRADDLER, 11000.0), AsPeriod(STRADDLER, 11000.0)]
  {
    OneHourEnergy();
    hide EnergyOf, CostOf, Hundredths;
    var outcomes, slots := TakenTwice(), BookedTwice().slots;
    assert outcomes[..1][..0] == [] && slots[..1][..0] == [];
    assert SlotsOf(outcomes[..1]) == [slots[0]];
    assert ActiveOf(slots[..1]) == slots[0].periods;
  }

  /** Both windows take the rate, and the plan books the same hour twice. */
  lemma StraddlerBookedTwice()
    ensures PlanFor([STRADDLER], HUNGRY, 11000.0, 6 * HOUR, TakenTwice(), Some(BookedTwice()))
    ensures !PickedOnce(TakenTwice()) && !Ordered(ActiveOf(BookedTwice().slots))
  {
    StraddlerPlan();
    var p := AsPeriod(STRADDLER, 11000.0);
    TakenTwiceSlots();
    NotInOrder(p, p);
    assert p in PeriodsOf(TakenTwice()[0]) && p in PeriodsOf(TakenTwice()[1]);
    hide PlanFor, SlotsOf, ActiveOf, Hundredths, EnergyOf, CostOf, Wanted;
  }

  lemma StraddlerPlan()
    ensures PlanFor([STRADDLER], HUNGRY, 11000.0, 6 * HOUR, TakenTwice(), Some(BookedTwice()))
  {
    var outcomes := TakenTwice();
    assert Wanted(HUNGRY, outcomes, 0) == 100.0;
    TakenTwiceSlots();
    StraddlerTaken(0, 100.0);
    StraddlerTaken(1, 89.0);
    hide WorkedAt, PlanFor, SlotsOf, ActiveOf, Wanted, Hundredths, EnergyOf, CostOf, SlotCosts, SlotEnergies;
    assert outcomes[0] == Taken(0, 100.0) && outcomes[1] == Taken(1, 89.0);
    PlanOfTwo([STRADDLER], HUNGRY, 11000.0, 6 * HOUR, outcomes, BookedTwice().slots);
  }

  lemma PlanOfTwo(rates: seq<Rate>, cfg: Config, power: real, now: int, outcomes: seq<Outcome>, slots: seq<Slot>)
    requires |outcomes| == 2 && SlotsOf(outcomes) == slots && |slots| == 2
    requires WorkedAt(rates, cfg, power, now, 0, outcomes[0], Wanted(cfg, outcomes, 0))
    requires WorkedAt(rates, cfg, power, now, 1, outcomes[1], Wanted(cfg, outcomes, 1))
    ensures PlanFor(rates, cfg, power, now, outcomes, Some(Total(slots).(deadline := slots[1].deadline)))
  {
    hide WorkedAt, SlotsOf, Wanted, Hundredths, SlotCosts, SlotEnergies;
  }
}
