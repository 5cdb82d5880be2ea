/** Which overrides a recompute honours while a slot runs (scheduler.go, `recompute`). */
module Honours {
  import opened Spans
  import opened Plan
  import opened OverrideTable
  import opened Selection
  import opened Planner
  import opened Slots
  import opened Forces
  import opened Pipeline
  import opened Merge
  import opened Recompute
  import opened Automatic
  import opened Continuity

  /** The deadline a force is due by. */
  function DueOf(o: Override, deadlineOfDay: int): int { NextDeadlineAfter(o.window.start, deadlineOfDay) }

  /** The period is the override's window at its power, at whatever price. */
  predicate Delivers(p: Period, o: Override) {
    p.start == o.window.start && p.end == o.window.end && p.value.power == o.power
  }

  ghost predicate Delivered(ps: seq<Period>, o: Override) { exists p :: p in ps && Delivers(p, o) }

  /** The force is due on another day than the running slot, starts once the running period ends, or is kept in it. */
  ghost predicate Stands(running: Slot, i: nat, o: Override, deadlineOfDay: int)
    requires i < |running.periods|
  {
    || DateOf(DueOf(o, deadlineOfDay)) != running.date
    || o.window.start >= running.periods[i].end
    || Delivered(running.periods[..i + 1], o)
  }

  /** The same of the force as it is priced now. */
  ghost predicate StandsPriced(running: Slot, i: nat, o: Override, rates: seq<Rate>, deadlineOfDay: int)
    requires i < |running.periods|
  {
    || DateOf(DueOf(o, deadlineOfDay)) != running.date
    || o.window.start >= running.periods[i].end
    || ForcePeriod(o, rates) in running.periods[..i + 1]
  }

  // ----- the slots of a plan from scratch -----

  /** The slot of a force, the only one that holds it. */
  lemma SlotOfForce(x: Inputs, cfg: Config, slots: seq<Slot>, o: Override) returns (k: nat)
    requires GoodBase(x, cfg, slots) && TimeOfDay(cfg.deadlineOfDay) && o in x.overrides && o.kind == Force
    ensures k < |slots| && slots[k].date == DateOf(DueOf(o, cfg.deadlineOfDay))
    ensures forall j :: 0 <= j < |slots| ==> (ForcePeriod(o, x.rates) in slots[j].periods <==> j == k)
  {
    var p, d := ForcePeriod(o, x.rates), DueOf(o, cfg.deadlineOfDay);
    ForceBounds(o, x.rates);
    assert ForceHonoured(slots, p, d);
    var l :| 0 <= l < |slots| && slots[l].deadline == d && slots[l].date == DateOf(d)
      && !slots[l].cancelled && p in slots[l].periods;
    k := l;
    forall j | 0 <= j < |slots| && p in slots[j].periods
      ensures j == k
    {
      assert WellPlaced(x.rates, x.rates, x.overrides, cfg.deadlineOfDay, x.now, p, slots[j].deadline);
      OneSlotADate(x, cfg, slots, j, k);
    }
    hide GoodBase, ForcePeriod, NextDeadlineAfter, DateOf;
  }

  // ----- installing the running slot -----

  lemma {:induction false} OtherDatesMember(slots: seq<Slot>, date: int, s: Slot)
    ensures s in OtherDates(slots, date) <==> s in slots && s.date != date
  {
    if slots != [] {
      var n := |slots| - 1;
      OtherDatesMember(slots[..n], date, s);
      assert slots == slots[..n] + [slots[n]];
    }
  }

  /** With one slot a date, the merged slot is the only one of its date afterwards. */
  lemma OnlyMerged(slots: seq<Slot>, merged: Slot, r: seq<Slot>, s: Slot)
    requires Installed(slots, merged, r) && s in r
    requires forall j, k :: 0 <= j < k < |slots| ==> slots[j].date != slots[k].date
    ensures s == merged || s.date != merged.date
  {
    var i :| 0 <= i <= |slots| && InstalledAt(slots, merged, i, r);
    var j := if i < |slots| && slots[i].date == merged.date then i + 1 else i;
    assert r == slots[..i] + [merged] + slots[j..];
    if s in slots[..i] {
      var m :| 0 <= m < i && slots[m] == s;
    } else if s in slots[j..] {
      var m :| j <= m < |slots| && slots[m] == s;
    }
  }

  lemma MarkedDates(prev: Option<Schedule>, x: Inputs, cfg: Config, slots: seq<Slot>, marked: seq<Slot>)
    requires GoodBase(x, cfg, slots) && TimeOfDay(cfg.deadlineOfDay) && Marked(prev, slots, marked)
    ensures forall j, k :: 0 <= j < k < |marked| ==> marked[j].date != marked[k].date
  {
    forall j, k | 0 <= j < k < |marked|
      ensures marked[j].date != marked[k].date
    {
      OneSlotADate(x, cfg, slots, j, k);
    }
  }

  /** The force's slot of another date is in the plan as it was. */
  lemma OtherDayStands(slots: seq<Slot>, merged: Slot, r: seq<Slot>, k: nat, p: Period)
    requires Installed(slots, merged, r) && k < |slots| && slots[k].date != merged.date
    requires !slots[k].cancelled && p in slots[k].periods
    ensures p in ActiveOf(r)
  {
    InstallKeepsOtherDates(slots, merged, r);
    OtherDatesMember(slots, merged.date, slots[k]);
    OtherDatesMember(r, merged.date, slots[k]);
    hide Installed, OtherDates;
    SlotIsActive(r, slots[k], p);
  }

  lemma SlotIsActive(slots: seq<Slot>, s: Slot, p: Period)
    requires s in slots && !s.cancelled && p in s.periods
    ensures p in ActiveOf(slots)
  {
    var j :| 0 <= j < |slots| && slots[j] == s;
    var m :| 0 <= m < |s.periods| && s.periods[m] == p;
    ActiveOfContains(slots, j, m);
  }

  lemma InstalledFrom(slots: seq<Slot>, merged: Slot, r: seq<Slot>, s: Slot)
    requires Installed(slots, merged, r) && s in r
    ensures s == merged || s in slots
  {
    var i :| 0 <= i <= |slots| && InstalledAt(slots, merged, i, r);
  }

  /** A period that only the slot of the merged date holds is active exactly if the merged slot holds it. */
  lemma OwnDayStands(slots: seq<Slot>, merged: Slot, r: seq<Slot>, k: nat, p: Period)
    requires Installed(slots, merged, r) && k < |slots| && slots[k].date == merged.date && !merged.cancelled
    requires forall j, l :: 0 <= j < l < |slots| ==> slots[j].date != slots[l].date
    requires forall j :: 0 <= j < |slots| && p in slots[j].periods ==> j == k
    ensures p in ActiveOf(r) <==> p in merged.periods
  {
    InstallKeepsOtherDates(slots, merged, r);
    if p in merged.periods { SlotIsActive(r, merged, p); }
    if p in ActiveOf(r) {
      ActiveOfComesFrom(r, p);
      var j :| 0 <= j < |r| && !r[j].cancelled && p in r[j].periods;
      InstalledFrom(slots, merged, r, r[j]);
      if r[j] != merged {
        var m :| 0 <= m < |slots| && slots[m] == r[j];
        OnlyMerged(slots, merged, r, r[j]);
      }
    }
  }

  // ----- forces -----

  lemma PricedForceMerged(
    prev: Option<Schedule>, x: Inputs, cfg: Config, slots: seq<Slot>, marked: seq<Slot>, running: Slot, i: nat,
    next: Schedule, o: Override)
    requires GoodBase(x, cfg, slots) && TimeOfDay(cfg.deadlineOfDay) && Marked(prev, slots, marked)
    requires !running.cancelled && FirstRunning(running.periods, x.now, i)
    requires MergedInto(running, x.now, marked, next)
    requires o in x.overrides && o.kind == Force && !CancelledDate(prev, DateOf(DueOf(o, cfg.deadlineOfDay)))
    ensures ForcePeriod(o, x.rates) in ActiveOf(next.slots) <==>
      StandsPriced(running, i, o, x.rates, cfg.deadlineOfDay)
  {
    var p := ForcePeriod(o, x.rates);
    var k := SlotOfForce(x, cfg, slots, o);
    SlotOfDeadline(x, cfg, slots, k);
    MarkedDates(prev, x, cfg, slots, marked);
    ForceBounds(o, x.rates);
    var recomputed, merged := MergedParts(running, x.now, i, marked, next);
    assert !marked[k].cancelled && p in marked[k].periods && marked[k].date == slots[k].date;
    assert forall j :: 0 <= j < |marked| && p in marked[j].periods ==> j == k;
    assert merged.date == running.date && !merged.cancelled;
    MergeContents(running.periods, i, PeriodsIn(recomputed), merged.periods);
    hide GoodBase, Marked, MergedInto, Installed, ActiveOf, ForcePeriod, NextDeadlineAfter, DateOf, CancelledDate;
    if slots[k].date != running.date {
      OtherDayStands(marked, merged, next.slots, k, p);
    } else {
      OwnDayStands(marked, merged, next.slots, k, p);
      RecomputedIs(marked, running.date, recomputed, k);
    }
  }

  /** What the running slot keeps is in the plan; the rest of the plan is the plan from scratch's. */
  lemma MergedFrom(running: Slot, now: int, i: nat, marked: seq<Slot>, next: Schedule, p: Period)
    requires FirstRunning(running.periods, now, i) && MergedInto(running, now, marked, next) && !running.cancelled
    ensures p in running.periods[..i + 1] ==> p in ActiveOf(next.slots)
    ensures p in ActiveOf(next.slots) ==>
      p in running.periods[..i + 1] || exists slot :: slot in marked && p in slot.periods
  {
    var recomputed, merged := MergedParts(running, now, i, marked, next);
    MergeContents(running.periods, i, PeriodsIn(recomputed), merged.periods);
    InstallKeepsOtherDates(marked, merged, next.slots);
    assert recomputed.Some? ==> recomputed.value in marked;
    assert !merged.cancelled;
    hide MergedInto, Continues, SameDate, FirstRunning, OtherDates;
    if p in merged.periods { SlotIsActive(next.slots, merged, p); }
    if p in ActiveOf(next.slots) {
      ActiveOfComesFrom(next.slots, p);
      var j :| 0 <= j < |next.slots| && !next.slots[j].cancelled && p in next.slots[j].periods;
      InstalledFrom(marked, merged, next.slots, next.slots[j]);
    }
  }

  lemma ForceMerged(
    prev: Option<Schedule>, x: Inputs, cfg: Config, slots: seq<Slot>, marked: seq<Slot>, running: Slot, i: nat,
    next: Schedule, o: Override)
    requires GoodBase(x, cfg, slots) && TimeOfDay(cfg.deadlineOfDay) && Marked(prev, slots, marked)
    requires !running.cancelled && FirstRunning(running.periods, x.now, i) && i < |running.periods|
    requires MergedInto(running, x.now, marked, next) && o.window.start < o.window.end
    requires o in x.overrides && o.kind == Force && !CancelledDate(prev, DateOf(DueOf(o, cfg.deadlineOfDay)))
    ensures Delivered(ActiveOf(next.slots), o) <==> Stands(running, i, o, cfg.deadlineOfDay)
  {
    var priced, active := ForcePeriod(o, x.rates), ActiveOf(next.slots);
    PricedForceMerged(prev, x, cfg, slots, marked, running, i, next, o);
    ForceBounds(o, x.rates);
    hide *;
    if p :| p in running.periods[..i + 1] && Delivers(p, o) {
      MergedFrom(running, x.now, i, marked, next, p);
      AreDelivered(active, p, o);
    }
    AreDelivered(active, priced, o);
    AreDelivered(running.periods[..i + 1], priced, o);
    if p :| p in active && Delivers(p, o) {
      MergedFrom(running, x.now, i, marked, next, p);
      AreDelivered(running.periods[..i + 1], p, o);
      if slot: Slot :| slot in marked && p in slot.periods {
        MarkedSlotRespects(prev, x, cfg, slots, marked, slot, p);
        DeliversPriced(p, o, x.rates);
      }
    }
    IsStanding(running, i, o, x.rates, cfg.deadlineOfDay);
    SomeDelivered(active, o);
    SomeDelivered(running.periods[..i + 1], o);
  }

  lemma AreDelivered(ps: seq<Period>, p: Period, o: Override)
    ensures p in ps && Delivers(p, o) ==> Delivered(ps, o)
    ensures p.start == o.window.start && p.end == o.window.end && p.value.power == o.power ==> Delivers(p, o)
  {
  }

  lemma SomeDelivered(ps: seq<Period>, o: Override)
    ensures Delivered(ps, o) ==> exists p :: p in ps && Delivers(p, o)
  {
  }

  /** A period of the override's window that respects it is its priced force. */
  lemma DeliversPriced(p: Period, o: Override, rates: seq<Rate>)
    requires Delivers(p, o) && Respects(p, o, rates) && o.window.start < o.window.end
    ensures p == ForcePeriod(o, rates)
  {
    hide ForcePeriod;
  }

  lemma IsStanding(running: Slot, i: nat, o: Override, rates: seq<Rate>, deadlineOfDay: int)
    requires i < |running.periods|
    ensures var kept := running.periods[..i + 1];
      var elsewhere := DateOf(DueOf(o, deadlineOfDay)) != running.date || o.window.start >= running.periods[i].end;
      && (Stands(running, i, o, deadlineOfDay) <==> elsewhere || Delivered(kept, o))
      && (StandsPriced(running, i, o, rates, deadlineOfDay) <==> elsewhere || ForcePeriod(o, rates) in kept)
  {
    hide Delivered, ForcePeriod, DateOf, DueOf;
  }

  lemma RecomputedIs(slots: seq<Slot>, date: int, recomputed: Option<Slot>, k: nat)
    requires SameDate(slots, date, recomputed) && k < |slots| && slots[k].date == date
    requires forall j, l :: 0 <= j < l < |slots| ==> slots[j].date != slots[l].date
    ensures recomputed == Some(slots[k])
  {
    assert FirstOfDate(slots, date, k);
    if recomputed.Some? {
      var i :| FirstOfDate(slots, date, i) && slots[i] == recomputed.value;
      assert !(i < k) && !(k < i);
    }
  }

  /**
   While a slot runs, for any tariff: a force whose day is not cancelled is in the recomputed plan, its
   window at its power, exactly when it is due on another date than the running slot, starts once the running
   period has ended, or is among the periods the running slot keeps, which are not priced anew.
   */
  lemma ForceWhileRunning(
    prev: Option<Schedule>, x: Inputs, cfg: Option<Config>, live: real, next: Option<Schedule>, k: int, i: int,
    o: Override)
    requires Recomputed(prev, x, cfg, live, next) && !Unchanged(x, cfg) && RunningAt(prev, x.now, k, i)
    requires GoodInputs(x.rates, x.overrides, cfg.value) && o in x.overrides && o.kind == Force
    requires !CancelledDate(prev, DateOf(DueOf(o, cfg.value.deadlineOfDay)))
    ensures Delivered(ActiveOf(SlotsIn(next)), o) <==> Stands(SlotsIn(prev)[k], i, o, cfg.value.deadlineOfDay)
  {
    var c := Fresh(cfg.value, x.soc);
    var base :| Base(x, c, ChargePower(c, live), base) && Replaced(prev, x, base, next);
    BaseIsGood(x, c, ChargePower(c, live), base);
    var marked := CarriedParts(prev, x, base, next, k, i);
    assert o.window.start < o.window.end;
    hide Base, Replaced, GoodBase, MergedInto, Marked, CancelledDate, Stands, ActiveOf, DateOf, NextDeadlineAfter;
    if base.None? {
      var _ := SlotOfForce(x, c, SlotsIn(base), o);
    } else {
      ForceMerged(prev, x, c, SlotsIn(base), marked, SlotsIn(prev)[k], i, next.value, o);
    }
  }

  /** What replaces the plan while slot k runs. */
  lemma CarriedParts(
    prev: Option<Schedule>, x: Inputs, base: Option<Schedule>, next: Option<Schedule>, k: int, i: int)
    returns (marked: seq<Slot>)
    requires Replaced(prev, x, base, next) && RunningAt(prev, x.now, k, i)
    ensures next.Some? && !SlotsIn(prev)[k].cancelled
    ensures if base.None? then next.value == Preserved(SlotsIn(prev)[k])
      else Marked(prev, SlotsIn(base), marked) && MergedInto(SlotsIn(prev)[k], x.now, marked, next.value)
  {
    hide MergedInto, Marked;
    assert ChargeTime(prev, x.now);
    var l :| FirstRunningSlot(prev, x.now, l) && Carried(SlotsIn(prev)[l], prev, x.now, base, next);
    assert l == k by { assert !(l < k) && !(k < l); }
    marked := [];
    if base.Some? {
      marked :| Marked(prev, base.value.slots, marked) && MergedInto(SlotsIn(prev)[k], x.now, marked, next.value);
    }
  }

  // ----- blocks -----

  /** What a recompute leaves of the running slot: all of it if nothing is planned, else up to the running period. */
  function Left(running: Slot, i: nat, alone: bool): seq<Period>
    requires i < |running.periods|
  {
    if alone then running.periods else running.periods[..i + 1]
  }

  lemma OnlyLeftMeetBlocks(
    prev: Option<Schedule>, x: Inputs, cfg: Config, slots: seq<Slot>, marked: seq<Slot>, running: Slot, i: nat,
    next: Schedule, o: Override, p: Period)
    requires GoodBase(x, cfg, slots) && Marked(prev, slots, marked)
    requires !running.cancelled && FirstRunning(running.periods, x.now, i)
    requires MergedInto(running, x.now, marked, next) && o in x.overrides && o.kind == Block && !ClearOf(p, o)
    ensures p in ActiveOf(next.slots) <==> p in running.periods[..i + 1]
  {
    var recomputed, merged := MergedParts(running, x.now, i, marked, next);
    MergeContents(running.periods, i, PeriodsIn(recomputed), merged.periods);
    InstallKeepsOtherDates(marked, merged, next.slots);
    assert !merged.cancelled;
    forall s | s in marked
      ensures p !in s.periods
    {
      var m :| 0 <= m < |marked| && marked[m] == s;
      assert slots[m].periods == s.periods;
      assert p in slots[m].periods ==> Respects(p, o, x.rates);
    }
    assert recomputed.Some? ==> recomputed.value in marked;
    hide GoodBase, Marked, MergedInto, Continues, SameDate, ClearOf;
    if p in merged.periods { SlotIsActive(next.slots, merged, p); }
    if p in ActiveOf(next.slots) {
      ActiveOfComesFrom(next.slots, p);
      var j :| 0 <= j < |next.slots| && !next.slots[j].cancelled && p in next.slots[j].periods;
      InstalledFrom(marked, merged, next.slots, next.slots[j]);
    }
  }

  lemma ActiveAlone(slot: Slot)
    ensures ActiveOf([slot]) == if slot.cancelled then [] else slot.periods
  {
    assert [slot][..0] == [];
  }

  lemma BlockBesideBase(
    prev: Option<Schedule>, x: Inputs, cfg: Config, power: real, base: Option<Schedule>, next: Option<Schedule>,
    k: int, i: int, o: Override, p: Period)
    requires Base(x, cfg, power, base) && Replaced(prev, x, base, next) && RunningAt(prev, x.now, k, i)
    requires GoodInputs(x.rates, x.overrides, cfg) && o in x.overrides && o.kind == Block && !ClearOf(p, o)
    ensures p in ActiveOf(SlotsIn(next)) <==> p in Left(SlotsIn(prev)[k], i, base.None?)
  {
    BaseIsGood(x, cfg, power, base);
    var marked := CarriedParts(prev, x, base, next, k, i);
    var running := SlotsIn(prev)[k];
    assert FirstRunning(running.periods, x.now, i);
    assert base.None? ==> SlotsIn(next) == [running];
    hide Base, Replaced, GoodBase, MergedInto, Marked, ClearOf, GoodInputs, RunningAt, FirstRunning, ActiveOf;
    if base.None? {
      ActiveAlone(running);
    } else {
      OnlyLeftMeetBlocks(prev, x, cfg, SlotsIn(base), marked, running, i, next.value, o, p);
    }
  }

  /** The recompute finds no force and nothing worth planning. */
  ghost predicate NothingElse(x: Inputs, cfg: Config, live: real) {
    var c := Fresh(cfg, x.soc);
    NothingPlanned(x, c, ChargePower(c, live))
  }

  /**
   While a slot runs, for any tariff: a period that meets a block is in the recomputed plan exactly
   when it is one of those left of the running slot. With no force and nothing worth planning that is the
   whole slot, later periods included.
   */
  lemma BlockWhileRunning(
    prev: Option<Schedule>, x: Inputs, cfg: Option<Config>, live: real, next: Option<Schedule>, k: int, i: int,
    o: Override, p: Period)
    requires Recomputed(prev, x, cfg, live, next) && !Unchanged(x, cfg) && RunningAt(prev, x.now, k, i)
    requires GoodInputs(x.rates, x.overrides, cfg.value) && o in x.overrides && o.kind == Block && !ClearOf(p, o)
    ensures p in ActiveOf(SlotsIn(next)) <==> p in Left(SlotsIn(prev)[k], i, NothingElse(x, cfg.value, live))
  {
    var c := Fresh(cfg.value, x.soc);
    var base :| Base(x, c, ChargePower(c, live), base) && Replaced(prev, x, base, next);
    hide Base, Replaced, Unchanged, RunningAt, ClearOf, NothingPlanned, ActiveOf, Left, Ordered;
    NoBaseExactly(x, c, ChargePower(c, live), base);
    BlockBesideBase(prev, x, c, ChargePower(c, live), base, next, k, i, o, p);
  }

  // ----- all overrides -----

  /** Marking changes no slot's periods, and those of a plan from scratch respect every override. */
  lemma MarkedSlotRespects(
    prev: Option<Schedule>, x: Inputs, cfg: Config, slots: seq<Slot>, marked: seq<Slot>, slot: Slot, p: Period)
    requires GoodBase(x, cfg, slots) && Marked(prev, slots, marked) && slot in marked && p in slot.periods
    ensures forall o :: o in x.overrides ==> Respects(p, o, x.rates)
  {
    var m :| 0 <= m < |marked| && marked[m] == slot;
    assert p in slots[m].periods;
    hide Respects;
  }

  lemma MergedIntoFrom(running: Slot, now: int, marked: seq<Slot>, next: Schedule, p: Period)
    requires MergedInto(running, now, marked, next) && p in ActiveOf(next.slots)
    ensures p in running.periods || exists slot :: slot in marked && p in slot.periods
  {
    var recomputed, merged, k :|
      && FirstRunning(running.periods, now, k)
      && Continues(running, k, recomputed, merged)
      && SameDate(marked, running.date, recomputed)
      && Installed(marked, merged, next.slots);
    ActiveOfComesFrom(next.slots, p);
    var j :| 0 <= j < |next.slots| && !next.slots[j].cancelled && p in next.slots[j].periods;
    InstalledFrom(marked, merged, next.slots, next.slots[j]);
    MergeContents(running.periods, k, PeriodsIn(recomputed), merged.periods);
    assert next.slots[j] == merged && recomputed.Some? ==> recomputed.value in marked;
  }

  /** While a slot runs, every period is one of that slot's own, or respects all overrides, whatever the tariff. */
  lemma RunningPlanRespects(
    prev: Option<Schedule>, x: Inputs, cfg: Option<Config>, live: real, next: Option<Schedule>, p: Period)
    requires Recomputed(prev, x, cfg, live, next) && !Unchanged(x, cfg) && ChargeTime(prev, x.now)
    requires GoodInputs(x.rates, x.overrides, cfg.value) && p in ActiveOf(SlotsIn(next))
    ensures
      || (exists k :: FirstRunningSlot(prev, x.now, k) && p in SlotsIn(prev)[k].periods)
      || (forall o :: o in x.overrides ==> Respects(p, o, x.rates))
  {
    var c := Fresh(cfg.value, x.soc);
    var base :| Base(x, c, ChargePower(c, live), base) && Replaced(prev, x, base, next);
    BaseIsGood(x, c, ChargePower(c, live), base);
    var k :| FirstRunningSlot(prev, x.now, k) && Carried(SlotsIn(prev)[k], prev, x.now, base, next);
    hide Base, GoodBase, Recomputed, Replaced, Carried, Respects, FirstRunningSlot, ChargeTime, GoodInputs;
    CarriedRespects(prev, x, c, k, base, next, p);
  }

  lemma CarriedRespects(
    prev: Option<Schedule>, x: Inputs, cfg: Config, k: int, base: Option<Schedule>, next: Option<Schedule>, p: Period)
    requires 0 <= k < |SlotsIn(prev)| && GoodBase(x, cfg, SlotsIn(base))
    requires Carried(SlotsIn(prev)[k], prev, x.now, base, next) && p in ActiveOf(SlotsIn(next))
    ensures p in SlotsIn(prev)[k].periods || forall o :: o in x.overrides ==> Respects(p, o, x.rates)
  {
    var running := SlotsIn(prev)[k];
    if base.None? {
      ActiveOfComesFrom(next.value.slots, p);
    } else {
      var marked :| Marked(prev, base.value.slots, marked) && MergedInto(running, x.now, marked, next.value);
      hide Marked, MergedInto, GoodBase, Respects, ActiveOf;
      MergedIntoFrom(running, x.now, marked, next.value, p);
      if slot: Slot :| slot in marked && p in slot.periods {
        MarkedSlotRespects(prev, x, cfg, base.value.slots, marked, slot, p);
      }
    }
  }
}
