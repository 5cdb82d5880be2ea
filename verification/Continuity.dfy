/** When a plan stays chronological around a running slot (scheduler.go, `recompute`). */
module Continuity {
  import opened Arithmetic
  import opened Spans
  import opened Plan
  import opened OverrideTable
  import opened Selection
  import opened Planner
  import opened Slots
  import opened Forces
  import opened Pipeline
  import opened Merge
  import opened Recompute

  /** The overrides are those `LoadOverrides` gives at `now`: none has ended. */
  ghost predicate Loaded(x: Inputs) {
    forall o :: o in x.overrides ==> o.window.end > x.now
  }

  /**
   What the merge checks only within the running slot's own date: every other active slot is dated
   later, and starts once the running period has ended.
   */
  ghost predicate KeepsClear(slots: seq<Slot>, date: int, running: Period) {
    forall s :: s in slots && !s.cancelled && s.date != date ==> SlotClear(s, date, running)
  }

  ghost predicate SlotClear(s: Slot, date: int, running: Period) {
    forall q :: q in s.periods ==> s.date > date && q.start >= running.end
  }

  // ----- the plan around the merged slot -----

  /** The slots before the merged one are dated earlier, those after it later; together they are the others. */
  ghost predicate Around(slots: seq<Slot>, date: int, a: seq<Slot>, b: seq<Slot>) {
    && (forall s :: s in a ==> s in slots && s.date < date)
    && (forall s :: s in b ==> s in slots && s.date > date)
    && (forall s :: s in slots && s.date != date ==> s in a || s in b)
  }

  lemma InstalledParts(slots: seq<Slot>, merged: Slot, r: seq<Slot>, deadlineOfDay: int)
    returns (i: nat, j: nat)
    requires TimeOfDay(deadlineOfDay) && Tidy(slots, deadlineOfDay) && Installed(slots, merged, r)
    ensures i <= j <= |slots| && r == slots[..i] + [merged] + slots[j..]
    ensures Around(slots, merged.date, slots[..i], slots[j..])
    ensures forall k :: i <= k < j ==> slots[k].date == merged.date
  {
    i :| 0 <= i <= |slots| && InstalledAt(slots, merged, i, r);
    j := if i < |slots| && slots[i].date == merged.date then i + 1 else i;
    forall k, l | 0 <= k < l < |slots|
      ensures slots[k].date < slots[l].date
    {
      DatesIncrease(slots, deadlineOfDay, k, l);
    }
    hide Tidy;
    assert forall s :: s in slots ==> s in slots[..i] || s in slots[i..j] || s in slots[j..];
  }

  /** Taking slots out of a tidy plan leaves it tidy. */
  lemma WithoutMiddle(slots: seq<Slot>, i: nat, j: nat, deadlineOfDay: int)
    requires TimeOfDay(deadlineOfDay) && Tidy(slots, deadlineOfDay) && i <= j <= |slots|
    ensures Tidy(slots[..i] + slots[j..], deadlineOfDay)
    ensures Ordered(ActiveOf(slots[..i]) + ActiveOf(slots[j..]))
  {
    var rest := slots[..i] + slots[j..];
    assert Tidy(rest, deadlineOfDay) by {
      hide TidySlot, Apart;
      assert forall k :: 0 <= k < |rest| ==> rest[k] == slots[if k < i then k else k + j - i];
    }
    hide Tidy, ActiveOf, Ordered;
    TidyIsOrdered(rest, deadlineOfDay);
    ActiveConcat(slots[..i], slots[j..]);
  }

  /** No active period of the earlier slots ends by the time the running slot began: there must be none. */
  lemma NothingBefore(a: seq<Slot>, began: int, now: int)
    requires began <= now && forall p :: p in ActiveOf(a) ==> p.end > now
    ensures (forall p :: p in ActiveOf(a) ==> p.end <= began) <==>
      forall j, q :: 0 <= j < |a| && !a[j].cancelled ==> q !in a[j].periods
  {
    if j, q :| 0 <= j < |a| && !a[j].cancelled && q in a[j].periods {
      var i :| 0 <= i < |a[j].periods| && a[j].periods[i] == q;
      ActiveOfContains(a, j, i);
    }
    forall p | p in ActiveOf(a)
      ensures exists j :: 0 <= j < |a| && !a[j].cancelled && p in a[j].periods
    {
      ActiveOfComesFrom(a, p);
    }
  }

  lemma StartsAfter(b: seq<Slot>, t: int)
    ensures (forall p :: p in ActiveOf(b) ==> t <= p.start) <==>
      forall j, q :: 0 <= j < |b| && !b[j].cancelled && q in b[j].periods ==> t <= q.start
  {
    forall j, q | 0 <= j < |b| && !b[j].cancelled && q in b[j].periods
      ensures q in ActiveOf(b)
    {
      var i :| 0 <= i < |b[j].periods| && b[j].periods[i] == q;
      ActiveOfContains(b, j, i);
    }
    forall p | p in ActiveOf(b)
      ensures exists j :: 0 <= j < |b| && !b[j].cancelled && p in b[j].periods
    {
      ActiveOfComesFrom(b, p);
    }
  }

  /** The end of the merged slot: the running period's, or that of a recomputed one, which later slots follow anyway. */
  lemma LastEnd(
    running: seq<Period>, k: nat, slots: seq<Slot>, recomputed: Option<Slot>, merged: seq<Period>, b: Slot, q: Period,
    deadlineOfDay: int)
    requires TimeOfDay(deadlineOfDay) && k < |running| && KeepsRunning(running, k, PeriodsIn(recomputed), merged)
    requires Ordered(running[..k + 1]) && TidySlot(b, deadlineOfDay) && q in b.periods
    requires recomputed.Some? ==>
      && TidySlot(recomputed.value, deadlineOfDay) && recomputed.value.deadline < b.deadline
      && Apart(recomputed.value.periods, b.periods)
    ensures merged != [] && (merged[|merged| - 1].end <= q.start <==> running[k].end <= q.start)
  {
    assert recomputed.Some? ==> Ordered(recomputed.value.periods);
    MergeStaysOrdered(running, k, PeriodsIn(recomputed), merged);
    if recomputed.Some? {
      var later := After(recomputed.value.periods, running[k].end);
      if later != [] {
        var l := later[|later| - 1];
        AfterFrom(recomputed.value.periods, running[k].end);
        assert l in later && merged[|merged| - 1] == l;
        TidyPeriods(recomputed.value, b, deadlineOfDay, l, q);
        assert l.start < l.end;
      } else {
        assert merged == running[..k + 1];
      }
    } else {
      assert merged == running[..k + 1];
    }
  }

  /**
   The plan around the merged slot is chronological exactly when every other active slot keeps clear
   of the running period, as the merge makes sure only for the slot of the same date.
   */
  lemma MergedIntoOrdered(running: Slot, now: int, k: nat, slots: seq<Slot>, next: Schedule, deadlineOfDay: int)
    requires TimeOfDay(deadlineOfDay) && Tidy(slots, deadlineOfDay) && !running.cancelled
    requires FirstRunning(running.periods, now, k) && MergedInto(running, now, slots, next)
    requires Ordered(running.periods[..k + 1]) && forall p :: p in ActiveOf(slots) ==> p.end > now
    ensures Ordered(ActiveOf(next.slots)) <==> KeepsClear(slots, running.date, running.periods[k])
  {
    var recomputed, merged := MergedParts(running, now, k, slots, next);
    var i, j := InstalledParts(slots, merged, next.slots, deadlineOfDay);
    var a, b := slots[..i], slots[j..];
    WithoutMiddle(slots, i, j, deadlineOfDay);
    assert forall p :: p in ActiveOf(a) ==> p.end > now by { ActivePrefix(slots, i); }
    hide Tidy, Ordered, ActiveOf, Installed, KeepsRunning, Continues;
    AroundOrdered(running, now, k, slots, recomputed, merged, a, b, deadlineOfDay);
  }

  lemma ActivePrefix(slots: seq<Slot>, i: nat)
    requires i <= |slots|
    ensures forall p :: p in ActiveOf(slots[..i]) ==> p in ActiveOf(slots)
  {
    ActiveConcat(slots[..i], slots[i..]);
    assert slots == slots[..i] + slots[i..];
  }

  lemma MergedParts(running: Slot, now: int, k: nat, slots: seq<Slot>, next: Schedule)
    returns (recomputed: Option<Slot>, merged: Slot)
    requires FirstRunning(running.periods, now, k) && MergedInto(running, now, slots, next)
    ensures Continues(running, k, recomputed, merged) && Installed(slots, merged, next.slots)
    ensures SameDate(slots, running.date, recomputed)
  {
    hide Continues, Installed, SameDate;
    var l: int;
    recomputed, merged, l :|
      && FirstRunning(running.periods, now, l)
      && Continues(running, l, recomputed, merged)
      && SameDate(slots, running.date, recomputed)
      && Installed(slots, merged, next.slots);
    assert l == k;
  }

  lemma AroundOrdered(
    running: Slot, now: int, k: nat, slots: seq<Slot>, recomputed: Option<Slot>, merged: Slot,
    a: seq<Slot>, b: seq<Slot>, deadlineOfDay: int)
    requires TimeOfDay(deadlineOfDay) && Tidy(slots, deadlineOfDay) && !running.cancelled
    requires FirstRunning(running.periods, now, k) && Ordered(running.periods[..k + 1])
    requires Continues(running, k, recomputed, merged) && SameDate(slots, running.date, recomputed)
    requires Around(slots, running.date, a, b) && Ordered(ActiveOf(a) + ActiveOf(b))
    requires forall p :: p in ActiveOf(a) ==> p.end > now
    ensures Ordered(ActiveOf(a + [merged] + b)) <==> KeepsClear(slots, running.date, running.periods[k])
  {
    var p, kept := running.periods[k], running.periods[..k + 1];
    assert recomputed.Some? ==> recomputed.value in slots && TidySlot(recomputed.value, deadlineOfDay);
    MergeStaysOrdered(running.periods, k, PeriodsIn(recomputed), merged.periods);
    assert merged.periods[0] == kept[0] && kept[k] == p;
    assert kept[0].start <= p.start <= now;
    MergedPlanOrdered(a, merged, b);
    NothingBefore(a, kept[0].start, now);
    StartsAfter(b, merged.periods[|merged.periods| - 1].end);
    forall s, q | s in b && q in s.periods
      ensures merged.periods[|merged.periods| - 1].end <= q.start <==> p.end <= q.start
    {
      LaterSlot(slots, running.date, recomputed, s, deadlineOfDay);
      LastEnd(running.periods, k, slots, recomputed, merged.periods, s, q, deadlineOfDay);
    }
    hide Tidy, Ordered, ActiveOf, Continues, SameDate;
    ClearSplits(slots, running.date, p, a, b);
  }

  /** A later slot of a tidy plan lies after the slot of the date. */
  lemma LaterSlot(slots: seq<Slot>, date: int, recomputed: Option<Slot>, s: Slot, deadlineOfDay: int)
    requires TimeOfDay(deadlineOfDay) && Tidy(slots, deadlineOfDay) && s in slots && s.date > date
    requires SameDate(slots, date, recomputed)
    ensures TidySlot(s, deadlineOfDay)
    ensures recomputed.Some? ==>
      && TidySlot(recomputed.value, deadlineOfDay) && recomputed.value.deadline < s.deadline
      && Apart(recomputed.value.periods, s.periods)
  {
    var m :| 0 <= m < |slots| && slots[m] == s;
    assert TidySlot(slots[m], deadlineOfDay);
    if recomputed.Some? {
      var i :| FirstOfDate(slots, date, i) && slots[i] == recomputed.value;
      assert TidySlot(slots[i], deadlineOfDay);
      if m < i { DatesIncrease(slots, deadlineOfDay, m, i); }
      hide Apart, TidySlot;
      assert i < m;
    }
  }

  /** Keeping clear, said of the slots before and after. */
  lemma ClearSplits(slots: seq<Slot>, date: int, p: Period, a: seq<Slot>, b: seq<Slot>)
    requires Around(slots, date, a, b)
    ensures KeepsClear(slots, date, p) <==>
      && (forall j, q :: 0 <= j < |a| && !a[j].cancelled ==> q !in a[j].periods)
      && (forall j, q :: 0 <= j < |b| && !b[j].cancelled && q in b[j].periods ==> p.end <= q.start)
  {
    if KeepsClear(slots, date, p) {
      forall j, q | 0 <= j < |a| && !a[j].cancelled
        ensures q !in a[j].periods
      {
        assert a[j] in a && SlotClear(a[j], date, p);
      }
      forall j, q | 0 <= j < |b| && !b[j].cancelled && q in b[j].periods
        ensures p.end <= q.start
      {
        assert b[j] in b && SlotClear(b[j], date, p);
      }
    } else {
      var s :| s in slots && !s.cancelled && s.date != date && !SlotClear(s, date, p);
      var q :| q in s.periods && !(s.date > date && q.start >= p.end);
      if s in a {
        var m :| 0 <= m < |a| && a[m] == s;
      } else {
        var m :| 0 <= m < |b| && b[m] == s;
      }
    }
  }

  // ----- the recomputed plan -----

  /** The running slot and period the scheduler finds. */
  ghost predicate RunningAt(prev: Option<Schedule>, now: int, k: int, i: int) {
    FirstRunningSlot(prev, now, k) && FirstRunning(SlotsIn(prev)[k].periods, now, i)
  }

  /** Keeping clear, said of the plan from scratch and the days cancelled so far. */
  ghost predicate Uncrossed(prev: Option<Schedule>, slots: seq<Slot>, date: int, running: Period) {
    forall s :: s in slots && !CancelledDate(prev, s.date) && s.date != date ==> SlotClear(s, date, running)
  }

  lemma MarkedClear(prev: Option<Schedule>, slots: seq<Slot>, marked: seq<Slot>, date: int, running: Period)
    requires Marked(prev, slots, marked) && AllSound(slots)
    ensures KeepsClear(marked, date, running) <==> Uncrossed(prev, slots, date, running)
  {
    hide CancelledDate, Balanced, StartSorted;
    forall k | 0 <= k < |slots|
      ensures marked[k].cancelled == CancelledDate(prev, slots[k].date)
      ensures SlotClear(marked[k], date, running) == SlotClear(slots[k], date, running)
    {
      assert Sound(slots[k]);
    }
    if KeepsClear(marked, date, running) {
      forall s | s in slots && !CancelledDate(prev, s.date) && s.date != date
        ensures SlotClear(s, date, running)
      {
        var k :| 0 <= k < |slots| && slots[k] == s;
        assert marked[k] in marked;
      }
    }
    if Uncrossed(prev, slots, date, running) {
      forall s | s in marked && !s.cancelled && s.date != date
        ensures SlotClear(s, date, running)
      {
        var k :| 0 <= k < |marked| && marked[k] == s;
        assert slots[k] in slots;
      }
    }
  }

  /** No period of a plan from scratch has ended. */
  lemma NothingIsOver(x: Inputs, cfg: Config, slots: seq<Slot>, k: nat, p: Period)
    requires GoodBase(x, cfg, slots) && Loaded(x) && k < |slots| && p in slots[k].periods
    ensures p.end > x.now
  {
    hide Respects, ForcePrice, NextDeadlineAfter, OfWindow;
    assert WellPlaced(x.rates, x.rates, x.overrides, cfg.deadlineOfDay, x.now, p, slots[k].deadline);
    if p.value.forced {
      var o :| o in x.overrides && o.kind == Force && p == ForcePeriod(o, x.rates);
    }
  }

  lemma MarkedIsNotOver(prev: Option<Schedule>, x: Inputs, cfg: Config, slots: seq<Slot>, marked: seq<Slot>)
    requires GoodBase(x, cfg, slots) && Loaded(x) && Marked(prev, slots, marked)
    ensures forall p :: p in ActiveOf(marked) ==> p.end > x.now
  {
    hide GoodBase;
    forall p | p in ActiveOf(marked)
      ensures p.end > x.now
    {
      ActiveOfComesFrom(marked, p);
      var k :| 0 <= k < |marked| && p in marked[k].periods;
      NothingIsOver(x, cfg, slots, k, p);
    }
  }

  /** A plan from scratch, ready to be merged with the running slot k. */
  ghost predicate Merging(
    prev: Option<Schedule>, x: Inputs, cfg: Config, power: real, base: Option<Schedule>, next: Option<Schedule>,
    k: int, i: int) {
    && Base(x, cfg, power, base) && Replaced(prev, x, base, next) && RunningAt(prev, x.now, k, i)
    && GoodInputs(x.rates, x.overrides, cfg) && Loaded(x) && NeverTwice(x, cfg, power)
  }

  lemma MergingParts(
    prev: Option<Schedule>, x: Inputs, cfg: Config, power: real, base: Option<Schedule>, next: Option<Schedule>,
    k: int, i: int)
    returns (marked: seq<Slot>)
    requires Merging(prev, x, cfg, power, base, next, k, i)
    ensures GoodBase(x, cfg, SlotsIn(base)) && Tidy(SlotsIn(base), cfg.deadlineOfDay)
    ensures next.Some? && Marked(prev, SlotsIn(base), marked) && Tidy(marked, cfg.deadlineOfDay)
    ensures if base.None? then next.value == Preserved(SlotsIn(prev)[k])
      else MergedInto(SlotsIn(prev)[k], x.now, marked, next.value)
  {
    BaseIsGood(x, cfg, power, base);
    hide Base, GoodBase, Tidy, MergedInto, NeverTwice;
    assert ChargeTime(prev, x.now);
    var l :| FirstRunningSlot(prev, x.now, l) && Carried(SlotsIn(prev)[l], prev, x.now, base, next);
    assert l == k by { assert !(l < k) && !(k < l); }
    marked := [];
    if base.Some? {
      var m :| Marked(prev, base.value.slots, m) && MergedInto(SlotsIn(prev)[k], x.now, m, next.value);
      marked := m;
      MarkedIsTidy(prev, SlotsIn(base), marked, cfg.deadlineOfDay);
    }
  }

  /**
   While a slot runs, the recomputed plan is chronological exactly when every slot of the plan from
   scratch that has another date and is not cancelled is dated later and starts once the running
   period has ended. With no plan from scratch only the running slot is left.
   */
  lemma RunningPlanOrdered(
    prev: Option<Schedule>, x: Inputs, cfg: Config, power: real, base: Option<Schedule>, next: Option<Schedule>,
    k: int, i: int)
    requires Merging(prev, x, cfg, power, base, next, k, i)
    requires Ordered(SlotsIn(prev)[k].periods)
    ensures var running := SlotsIn(prev)[k];
      Ordered(ActiveOf(SlotsIn(next))) <==> Uncrossed(prev, SlotsIn(base), running.date, running.periods[i])
  {
    MergingFacts(prev, x, cfg, power, base, next, k, i);
    var running := SlotsIn(prev)[k];
    hide *;
    var marked := MergingParts(prev, x, cfg, power, base, next, k, i);
    if base.None? {
      AloneIsOrdered(prev, running, next.value, running.periods[i]);
    } else {
      OrderedPrefix(running.periods, i + 1);
      AroundIsOrdered(prev, x, cfg, running, i, SlotsIn(base), marked, next.value);
    }
    SlotsOfPlan(base, next);
  }

  lemma MergingFacts(
    prev: Option<Schedule>, x: Inputs, cfg: Config, power: real, base: Option<Schedule>, next: Option<Schedule>,
    k: int, i: int)
    requires Merging(prev, x, cfg, power, base, next, k, i)
    ensures 0 <= k < |SlotsIn(prev)| && 0 <= i < |SlotsIn(prev)[k].periods|
    ensures TimeOfDay(cfg.deadlineOfDay) && Loaded(x) && !SlotsIn(prev)[k].cancelled
    ensures FirstRunning(SlotsIn(prev)[k].periods, x.now, i)
  {
    hide Base, Replaced, NeverTwice, Loaded;
  }

  lemma SlotsOfPlan(base: Option<Schedule>, next: Option<Schedule>)
    ensures base.None? ==> SlotsIn(base) == []
    ensures next.Some? ==> SlotsIn(next) == next.value.slots
  {
  }

  /** Alone, the running slot is the plan, and nothing gets in its way. */
  lemma AloneIsOrdered(prev: Option<Schedule>, running: Slot, next: Schedule, p: Period)
    requires next == Preserved(running) && !running.cancelled && Ordered(running.periods)
    ensures Ordered(ActiveOf(next.slots)) && Uncrossed(prev, [], running.date, p)
  {
    assert [running][..0] == [];
  }

  lemma AroundIsOrdered(
    prev: Option<Schedule>, x: Inputs, cfg: Config, running: Slot, i: nat, slots: seq<Slot>, marked: seq<Slot>,
    next: Schedule)
    requires TimeOfDay(cfg.deadlineOfDay) && GoodBase(x, cfg, slots) && Loaded(x)
    requires Marked(prev, slots, marked) && Tidy(marked, cfg.deadlineOfDay)
    requires !running.cancelled && FirstRunning(running.periods, x.now, i) && MergedInto(running, x.now, marked, next)
    requires i < |running.periods| && Ordered(running.periods[..i + 1])
    ensures Ordered(ActiveOf(next.slots)) <==> Uncrossed(prev, slots, running.date, running.periods[i])
  {
    assert AllSound(slots);
    hide *;
    MarkedIsNotOver(prev, x, cfg, slots, marked);
    MarkedClear(prev, slots, marked, running.date, running.periods[i]);
    MergedIntoOrdered(running, x.now, i, marked, next, cfg.deadlineOfDay);
  }

  // ----- what that asks of the inputs -----

  /** The deadline has not been moved since the slot was made, and the period begins in the slot's day. */
  predicate InItsDay(running: Slot, p: Period, deadlineOfDay: int) {
    && IsDeadline(running.deadline, deadlineOfDay) && running.date == DateOf(running.deadline)
    && running.deadline - SECONDS_PER_DAY <= p.start < running.deadline
  }

  /** A rate under way across the first deadline, if any, starts at `t` or later. */
  ghost predicate NoneAcrossBefore(x: Inputs, cfg: Config, t: int) {
    var d := FirstDeadline(x.now, cfg.deadlineOfDay);
    forall j :: 0 <= j < |x.rates| && x.rates[j].start < d < x.rates[j].end ==> x.rates[j].start >= t
  }

  /** No automatic period, and no force due later, gets in the way of a period that ends by its deadline. */
  lemma LaterDayIsClear(x: Inputs, cfg: Config, deadline: int, running: Period, q: Period, d: int)
    requires TimeOfDay(cfg.deadlineOfDay) && NoneAcrossBefore(x, cfg, running.end)
    requires IsDeadline(deadline, cfg.deadlineOfDay) && IsDeadline(d, cfg.deadlineOfDay) && d != deadline
    requires deadline - SECONDS_PER_DAY <= running.start <= x.now < running.end <= deadline
    requires WellPlaced(x.rates, x.rates, x.overrides, cfg.deadlineOfDay, x.now, q, d)
    requires Meets(q, d) && q.end > x.now && (q.value.forced ==> d > deadline)
    ensures d > deadline && q.start >= running.end
  {
    var first := FirstDeadline(x.now, cfg.deadlineOfDay);
    FirstDeadlineFacts(x.now, cfg.deadlineOfDay);
    DeadlinesApart(d, deadline, cfg.deadlineOfDay);
    DeadlinesApart(deadline, d, cfg.deadlineOfDay);
    DeadlinesApart(deadline, first, cfg.deadlineOfDay);
    DeadlinesApart(first, deadline, cfg.deadlineOfDay);
    NextDeadlineIsFirst(q.start, cfg.deadlineOfDay, d);
    hide Respects, FirstDeadline, NextDeadlineAfter, IsDeadline, DateOf;
    if !q.value.forced { NotAcross(x, cfg, q, running.end); }
  }

  /** A period inside a rate that runs across the first deadline starts late enough too. */
  lemma NotAcross(x: Inputs, cfg: Config, q: Period, t: int)
    requires NoneAcrossBefore(x, cfg, t) && InsideRate(q, x.rates)
    ensures q.start < FirstDeadline(x.now, cfg.deadlineOfDay) < q.end ==> q.start >= t
  {
    var j :| 0 <= j < |x.rates| && x.rates[j].start <= q.start && q.end <= x.rates[j].end;
  }

  /** A force due before the running slot's deadline is what can be in the way, and is if its day is not cancelled. */
  ghost predicate EarlierForce(prev: Option<Schedule>, x: Inputs, deadlineOfDay: int, deadline: int) {
    exists o :: o in x.overrides && o.kind == Force && EarlierDue(prev, o, deadlineOfDay, deadline)
  }

  ghost predicate EarlierDue(prev: Option<Schedule>, o: Override, deadlineOfDay: int, deadline: int) {
    var due := NextDeadlineAfter(o.window.start, deadlineOfDay);
    due < deadline && !CancelledDate(prev, DateOf(due))
  }

  lemma SlotOfBase(x: Inputs, cfg: Config, slots: seq<Slot>, s: Slot, q: Period) returns (k: nat)
    requires GoodBase(x, cfg, slots) && Tidy(slots, cfg.deadlineOfDay) && Loaded(x) && s in slots && q in s.periods
    ensures k < |slots| && slots[k] == s
    ensures WellPlaced(x.rates, x.rates, x.overrides, cfg.deadlineOfDay, x.now, q, s.deadline)
    ensures Meets(q, s.deadline) && q.end > x.now && q.start < q.end
    ensures IsDeadline(s.deadline, cfg.deadlineOfDay) && s.date == DateOf(s.deadline)
  {
    k :| 0 <= k < |slots| && slots[k] == s;
    NothingIsOver(x, cfg, slots, k, q);
    assert TidySlot(slots[k], cfg.deadlineOfDay);
    hide WellPlaced;
    var i :| 0 <= i < |s.periods| && s.periods[i] == q;
  }

  lemma EarlierForceCrosses(
    prev: Option<Schedule>, x: Inputs, cfg: Config, slots: seq<Slot>, running: Slot, p: Period)
    requires TimeOfDay(cfg.deadlineOfDay) && GoodBase(x, cfg, slots) && InItsDay(running, p, cfg.deadlineOfDay)
    requires EarlierForce(prev, x, cfg.deadlineOfDay, running.deadline)
    ensures !Uncrossed(prev, slots, running.date, p)
  {
    var o :| o in x.overrides && o.kind == Force && EarlierDue(prev, o, cfg.deadlineOfDay, running.deadline);
    var d := NextDeadlineAfter(o.window.start, cfg.deadlineOfDay);
    assert ForceHonoured(slots, ForcePeriod(o, x.rates), d);
    NextDeadlineIsFirst(o.window.start, cfg.deadlineOfDay, d);
    DeadlinesApart(d, running.deadline, cfg.deadlineOfDay);
    hide GoodBase, ForcePeriod, NextDeadlineAfter, DateOf, IsDeadline;
    var k :| 0 <= k < |slots| && slots[k].deadline == d && slots[k].date == DateOf(d)
      && !slots[k].cancelled && ForcePeriod(o, x.rates) in slots[k].periods;
    assert slots[k] in slots && !SlotClear(slots[k], running.date, p);
  }

  lemma WithoutEarlierForce(
    prev: Option<Schedule>, x: Inputs, cfg: Config, slots: seq<Slot>, running: Slot, p: Period, s: Slot)
    requires TimeOfDay(cfg.deadlineOfDay) && NoneAcrossBefore(x, cfg, p.end) && Loaded(x)
    requires GoodBase(x, cfg, slots) && Tidy(slots, cfg.deadlineOfDay)
    requires InItsDay(running, p, cfg.deadlineOfDay) && p.Covers(x.now) && p.end <= running.deadline
    requires s in slots && s.date != running.date && !CancelledDate(prev, s.date)
    requires !EarlierForce(prev, x, cfg.deadlineOfDay, running.deadline)
    ensures SlotClear(s, running.date, p)
  {
    forall q | q in s.periods
      ensures s.date > running.date && q.start >= p.end
    {
      var k := SlotOfBase(x, cfg, slots, s, q);
      hide GoodBase, Tidy, NoneAcrossBefore, Loaded, Respects, NextDeadlineAfter, ForcePrice;
      if q.value.forced {
        var o :| o in x.overrides && o.kind == Force && q == ForcePeriod(o, x.rates);
        assert !EarlierDue(prev, o, cfg.deadlineOfDay, running.deadline);
      }
      LaterDayIsClear(x, cfg, running.deadline, p, q, s.deadline);
      DeadlinesApart(running.deadline, s.deadline, cfg.deadlineOfDay);
    }
  }

  /**
   On inputs: with the deadline where it was, a running period that ends by it, and no rate across the
   first deadline that starts before that, the recomputed plan is chronological exactly when no force of a day
   that is not cancelled is due before the running slot's deadline. Such a force began before the previous
   deadline and has not ended.
   */
  lemma OnlyEarlierForcesDisturb(
    prev: Option<Schedule>, x: Inputs, cfg: Config, power: real, base: Option<Schedule>, next: Option<Schedule>,
    k: int, i: int)
    requires Merging(prev, x, cfg, power, base, next, k, i) && Ordered(SlotsIn(prev)[k].periods)
    requires var running := SlotsIn(prev)[k];
      && InItsDay(running, running.periods[i], cfg.deadlineOfDay) && running.periods[i].end <= running.deadline
      && NoneAcrossBefore(x, cfg, running.periods[i].end)
    ensures Ordered(ActiveOf(SlotsIn(next))) <==>
      !EarlierForce(prev, x, cfg.deadlineOfDay, SlotsIn(prev)[k].deadline)
  {
    var running := SlotsIn(prev)[k];
    var p, slots := running.periods[i], SlotsIn(base);
    RunningPlanOrdered(prev, x, cfg, power, base, next, k, i);
    var marked := MergingParts(prev, x, cfg, power, base, next, k, i);
    assert TimeOfDay(cfg.deadlineOfDay) && Loaded(x) && Running(p, x.now);
    hide Merging, GoodBase, Tidy, InItsDay, NoneAcrossBefore, Loaded, SlotClear, EarlierForce, CancelledDate, ActiveOf,
      Ordered;
    if EarlierForce(prev, x, cfg.deadlineOfDay, running.deadline) {
      EarlierForceCrosses(prev, x, cfg, slots, running, p);
    } else {
      forall s | s in slots && !CancelledDate(prev, s.date) && s.date != running.date
        ensures SlotClear(s, running.date, p)
      {
        WithoutEarlierForce(prev, x, cfg, slots, running, p, s);
      }
    }
  }

  /** The running period is a forced or blocked window of the table. */
  ghost predicate InTable(p: Period, overrides: seq<Override>) {
    exists o :: o in overrides && o.window.start == p.start && o.window.end == p.end
  }

  lemma OwnWindowIsClear(x: Inputs, cfg: Config, slots: seq<Slot>, running: Slot, p: Period, s: Slot)
    requires TimeOfDay(cfg.deadlineOfDay) && Loaded(x) && GoodBase(x, cfg, slots) && Tidy(slots, cfg.deadlineOfDay)
    requires InItsDay(running, p, cfg.deadlineOfDay) && p.Covers(x.now) && InTable(p, x.overrides)
    requires s in slots && s.date != running.date
    ensures SlotClear(s, running.date, p)
  {
    var o :| o in x.overrides && o.window.start == p.start && o.window.end == p.end;
    forall q | q in s.periods
      ensures s.date > running.date && q.start >= p.end
    {
      var k := SlotOfBase(x, cfg, slots, s, q);
      assert Respects(q, o, x.rates);
      NextDeadlineIsFirst(p.start, cfg.deadlineOfDay, running.deadline);
      DeadlinesApart(running.deadline, s.deadline, cfg.deadlineOfDay);
      DeadlinesApart(s.deadline, running.deadline, cfg.deadlineOfDay);
      ForceBounds(o, x.rates);
      hide GoodBase, Tidy, ForcePeriod, NextDeadlineAfter, DateOf, IsDeadline;
    }
  }

  // ----- tidy plans stay tidy -----

  /** No force, on whatever day, is due before the deadline. */
  ghost predicate NoneDueBefore(x: Inputs, deadlineOfDay: int, deadline: int) {
    forall o :: o in x.overrides && o.kind == Force ==> NextDeadlineAfter(o.window.start, deadlineOfDay) >= deadline
  }

  /**
   What a caller can check of a running slot: its deadline stands, its running period begins in its day,
   and either that period is still a window of the override table, or it ends by the deadline, no force is
   due before it, and no rate across the first deadline starts before the period ends.
   */
  ghost predicate UndisturbedBy(running: Slot, p: Period, x: Inputs, cfg: Config) {
    && InItsDay(running, p, cfg.deadlineOfDay)
    && (InTable(p, x.overrides) ||
        (p.end <= running.deadline && NoneDueBefore(x, cfg.deadlineOfDay, running.deadline)
         && NoneAcrossBefore(x, cfg, p.end)))
  }

  ghost predicate Undisturbed(prev: Option<Schedule>, x: Inputs, cfg: Config) {
    forall k, i :: RunningAt(prev, x.now, k, i) ==> UndisturbedBy(SlotsIn(prev)[k], SlotsIn(prev)[k].periods[i], x, cfg)
  }

  lemma UndisturbedIsClear(x: Inputs, cfg: Config, slots: seq<Slot>, running: Slot, p: Period, s: Slot)
    requires TimeOfDay(cfg.deadlineOfDay) && Loaded(x)
    requires GoodBase(x, cfg, slots) && Tidy(slots, cfg.deadlineOfDay)
    requires UndisturbedBy(running, p, x, cfg) && p.Covers(x.now)
    requires s in slots && s.date != running.date
    ensures SlotClear(s, running.date, p)
  {
    if InTable(p, x.overrides) {
      OwnWindowIsClear(x, cfg, slots, running, p, s);
    } else {
      assert !CancelledDate(None, s.date);
      assert !EarlierForce(None, x, cfg.deadlineOfDay, running.deadline);
      WithoutEarlierForce(None, x, cfg, slots, running, p, s);
    }
  }

  /** The merged slot is tidy: its kept periods are of its day, the recomputed ones of the same deadline. */
  lemma MergedSlotIsTidy(
    running: Slot, k: nat, slots: seq<Slot>, recomputed: Option<Slot>, merged: Slot, deadlineOfDay: int)
    requires TimeOfDay(deadlineOfDay) && TidySlot(running, deadlineOfDay) && Tidy(slots, deadlineOfDay)
    requires k < |running.periods| && Continues(running, k, recomputed, merged)
    requires SameDate(slots, running.date, recomputed)
    ensures TidySlot(merged, deadlineOfDay)
    ensures forall m :: m in merged.periods ==>
      m.end <= running.periods[k].end || (recomputed.Some? && m in recomputed.value.periods)
  {
    assert recomputed.Some? ==> TidySlot(recomputed.value, deadlineOfDay);
    OrderedPrefix(running.periods, k + 1);
    MergeStaysOrdered(running.periods, k, PeriodsIn(recomputed), merged.periods);
    MergeContents(running.periods, k, PeriodsIn(recomputed), merged.periods);
    if recomputed.Some? { DeadlinesApart(recomputed.value.deadline, running.deadline, deadlineOfDay); }
    hide Tidy, KeepsRunning, SameDate, IsDeadline, DateOf, Balanced;
    forall i | 0 <= i < |merged.periods|
      ensures Meets(merged.periods[i], merged.deadline)
    {
      assert merged.periods[i] in merged.periods;
      MergedMeets(running, k, recomputed, merged.periods[i]);
    }
    forall m | m in merged.periods
      ensures m.end <= running.periods[k].end || (recomputed.Some? && m in recomputed.value.periods)
    {
      KeptEnds(running.periods, k, m);
    }
  }

  lemma MergedMeets(running: Slot, k: nat, recomputed: Option<Slot>, m: Period)
    requires Due(running.periods, running.deadline) && k < |running.periods|
    requires recomputed.Some? ==> Due(recomputed.value.periods, recomputed.value.deadline)
    requires recomputed.Some? ==> recomputed.value.deadline == running.deadline
    requires m in running.periods[..k + 1] || (recomputed.Some? && m in recomputed.value.periods)
    ensures Meets(m, running.deadline)
  {
  }

  lemma KeptEnds(periods: seq<Period>, k: nat, m: Period)
    requires Ordered(periods) && k < |periods|
    ensures m in periods[..k + 1] ==> m.end <= periods[k].end
  {
    if m in periods[..k + 1] {
      var i :| 0 <= i <= k && periods[i] == m;
    }
  }

  /** Installing a tidy slot that the others keep clear of. */
  lemma InstalledIsTidy(slots: seq<Slot>, merged: Slot, r: seq<Slot>, deadlineOfDay: int)
    requires TimeOfDay(deadlineOfDay) && Tidy(slots, deadlineOfDay) && Installed(slots, merged, r)
    requires TidySlot(merged, deadlineOfDay)
    requires forall s :: s in slots && s.date != merged.date ==> Apart(s.periods, merged.periods)
    ensures Tidy(r, deadlineOfDay)
  {
    var i, j := InstalledParts(slots, merged, r, deadlineOfDay);
    WithoutMiddle(slots, i, j, deadlineOfDay);
    var a, b := slots[..i], slots[j..];
    forall s | s in a + b
      ensures s in slots && TidySlot(s, deadlineOfDay) && s.date != merged.date
      ensures Apart(s.periods, merged.periods) && Apart(merged.periods, s.periods)
      ensures s.deadline < merged.deadline <==> s in a
    {
      var m :| 0 <= m < |slots| && slots[m] == s;
      assert TidySlot(slots[m], deadlineOfDay);
      DeadlinesApart(s.deadline, merged.deadline, deadlineOfDay);
      DeadlinesApart(merged.deadline, s.deadline, deadlineOfDay);
    }
    hide TidySlot, Apart, Ordered, ActiveOf, Installed;
    SandwichTidy(a, merged, b, deadlineOfDay);
  }

  lemma SandwichTidy(a: seq<Slot>, merged: Slot, b: seq<Slot>, deadlineOfDay: int)
    requires Tidy(a + b, deadlineOfDay) && TidySlot(merged, deadlineOfDay)
    requires forall s :: s in a ==> s.deadline < merged.deadline && Apart(s.periods, merged.periods)
    requires forall s :: s in b ==> s.deadline > merged.deadline && Apart(merged.periods, s.periods)
    ensures Tidy(a + [merged] + b, deadlineOfDay)
  {
    hide TidySlot, Apart;
    var r, rest := a + [merged] + b, a + b;
    forall k | 0 <= k < |r| && k != |a|
      ensures r[k] == rest[if k < |a| then k else k - 1]
    {
    }
    assert forall k :: 0 <= k < |a| ==> r[k] in a;
    assert forall k :: |a| < k < |r| ==> r[k] in b;
    assert AllTidy(r, deadlineOfDay);
    forall k, l | 0 <= k < l < |r|
      ensures r[k].deadline < r[l].deadline && Apart(r[k].periods, r[l].periods)
    {
      var k', l' := if k < |a| then k else k - 1, if l < |a| then l else l - 1;
      assert k != |a| && l != |a| ==> r[k] == rest[k'] && r[l] == rest[l'];
    }
  }

  lemma ClearIsApart(s: Slot, merged: Slot, date: int, p: Period, recomputed: Option<Slot>)
    requires SlotClear(s, date, p)
    requires recomputed.Some? ==> Apart(s.periods, recomputed.value.periods)
    requires forall m :: m in merged.periods ==> m.end <= p.end || (recomputed.Some? && m in recomputed.value.periods)
    ensures Apart(s.periods, merged.periods)
  {
  }

  /** A recompute that finds the running slot undisturbed leaves a tidy plan. */
  lemma RunningPlanIsTidy(
    prev: Option<Schedule>, x: Inputs, cfg: Config, power: real, base: Option<Schedule>, next: Option<Schedule>,
    k: int, i: int)
    requires Merging(prev, x, cfg, power, base, next, k, i)
    requires TidySlot(SlotsIn(prev)[k], cfg.deadlineOfDay)
    requires UndisturbedBy(SlotsIn(prev)[k], SlotsIn(prev)[k].periods[i], x, cfg)
    ensures Tidy(SlotsIn(next), cfg.deadlineOfDay)
  {
    var running := SlotsIn(prev)[k];
    var p := running.periods[i];
    var marked := MergingParts(prev, x, cfg, power, base, next, k, i);
    assert TimeOfDay(cfg.deadlineOfDay) && Loaded(x) && FirstRunning(running.periods, x.now, i);
    assert p.Covers(x.now);
    if base.Some? {
      hide *;
      MarkedIsClear(prev, x, cfg, SlotsIn(base), marked, running, p);
      AroundIsTidy(running, x.now, i, marked, next.value, cfg.deadlineOfDay);
    } else {
      assert SlotsIn(next) == [running];
      hide *;
      OneTidySlot(running, cfg.deadlineOfDay);
    }
  }

  lemma OneTidySlot(slot: Slot, deadlineOfDay: int)
    requires TidySlot(slot, deadlineOfDay)
    ensures Tidy([slot], deadlineOfDay)
  {
    hide TidySlot;
  }

  lemma MarkedIsClear(
    prev: Option<Schedule>, x: Inputs, cfg: Config, slots: seq<Slot>, marked: seq<Slot>, running: Slot, p: Period)
    requires TimeOfDay(cfg.deadlineOfDay) && Loaded(x)
    requires GoodBase(x, cfg, slots) && Tidy(slots, cfg.deadlineOfDay) && Marked(prev, slots, marked)
    requires UndisturbedBy(running, p, x, cfg) && p.Covers(x.now)
    ensures forall s :: s in marked && s.date != running.date ==> SlotClear(s, running.date, p)
  {
    hide *;
    forall s | s in marked && s.date != running.date
      ensures SlotClear(s, running.date, p)
    {
      var b := MarkedFrom(prev, slots, marked, s);
      UndisturbedIsClear(x, cfg, slots, running, p, b);
    }
  }

  lemma MarkedFrom(prev: Option<Schedule>, slots: seq<Slot>, marked: seq<Slot>, s: Slot) returns (b: Slot)
    requires Marked(prev, slots, marked) && s in marked
    ensures b in slots && b.date == s.date && b.periods == s.periods
    ensures forall date, p :: SlotClear(b, date, p) == SlotClear(s, date, p)
  {
    var m :| 0 <= m < |marked| && marked[m] == s;
    b := slots[m];
  }

  lemma AroundIsTidy(running: Slot, now: int, k: nat, slots: seq<Slot>, next: Schedule, deadlineOfDay: int)
    requires TimeOfDay(deadlineOfDay) && Tidy(slots, deadlineOfDay) && TidySlot(running, deadlineOfDay)
    requires FirstRunning(running.periods, now, k) && MergedInto(running, now, slots, next)
    requires forall s :: s in slots && s.date != running.date ==> SlotClear(s, running.date, running.periods[k])
    ensures Tidy(next.slots, deadlineOfDay)
  {
    var recomputed, merged := MergedParts(running, now, k, slots, next);
    MergedSlotIsTidy(running, k, slots, recomputed, merged, deadlineOfDay);
    assert merged.date == running.date;
    hide Tidy, TidySlot, Installed, Continues, MergedInto, SlotClear;
    forall s | s in slots && s.date != running.date
      ensures Apart(s.periods, merged.periods)
    {
      SameDateApart(slots, running.date, recomputed, s, deadlineOfDay);
      ClearIsApart(s, merged, running.date, running.periods[k], recomputed);
    }
    InstalledIsTidy(slots, merged, next.slots, deadlineOfDay);
  }

  lemma SameDateApart(slots: seq<Slot>, date: int, recomputed: Option<Slot>, s: Slot, deadlineOfDay: int)
    requires Tidy(slots, deadlineOfDay) && SameDate(slots, date, recomputed) && s in slots && s.date != date
    ensures recomputed.Some? ==> Apart(s.periods, recomputed.value.periods)
  {
    if recomputed.Some? {
      var m :| 0 <= m < |slots| && slots[m] == s;
      var i :| FirstOfDate(slots, date, i) && slots[i] == recomputed.value;
      assert m != i;
      if i < m {
        assert Apart(slots[i].periods, slots[m].periods);
      } else {
        assert Apart(slots[m].periods, slots[i].periods);
      }
    }
  }

  /**
   Any recompute: from a tidy plan whose running slot, if any, is undisturbed, under settings of the
   same deadline while a slot runs, the new plan is tidy.
   */
  lemma RecomputeKeepsTidy(
    prev: Option<Schedule>, x: Inputs, cfg: Option<Config>, live: real, next: Option<Schedule>, was: int)
    returns (timeOfDay: int)
    requires Recomputed(prev, x, cfg, live, next) && TimeOfDay(was) && Tidy(SlotsIn(prev), was)
    requires !Unchanged(x, cfg) ==>
      GoodInputs(x.rates, x.overrides, cfg.value) && Loaded(x) && PicksOnce(x, cfg.value, live)
        && Undisturbed(prev, x, cfg.value)
    ensures TimeOfDay(timeOfDay) && Tidy(SlotsIn(next), timeOfDay)
  {
    timeOfDay := was;
    if !Unchanged(x, cfg) {
      timeOfDay := cfg.value.deadlineOfDay;
      if ChargeTime(prev, x.now) {
        var c := Fresh(cfg.value, x.soc);
        var base :| Base(x, c, ChargePower(c, live), base) && Replaced(prev, x, base, next);
        hide Base, Replaced, Tidy;
        UndisturbedFresh(prev, x, cfg.value);
        KeepsTidyRunning(prev, x, c, ChargePower(c, live), base, next, was);
      } else {
        hide Recomputed;
        RecomputedPlanIsGood(prev, x, cfg, live, next);
      }
    }
  }

  /** Only the deadline's time of day matters. */
  lemma UndisturbedFresh(prev: Option<Schedule>, x: Inputs, cfg: Config)
    requires Undisturbed(prev, x, cfg)
    ensures Undisturbed(prev, x, Fresh(cfg, x.soc))
  {
    hide RunningAt, InTable, InItsDay, NoneDueBefore;
  }

  lemma KeepsTidyRunning(
    prev: Option<Schedule>, x: Inputs, cfg: Config, power: real, base: Option<Schedule>, next: Option<Schedule>,
    was: int)
    requires Base(x, cfg, power, base) && Replaced(prev, x, base, next) && ChargeTime(prev, x.now)
    requires GoodInputs(x.rates, x.overrides, cfg) && Loaded(x) && NeverTwice(x, cfg, power)
    requires TimeOfDay(was) && Tidy(SlotsIn(prev), was) && Undisturbed(prev, x, cfg)
    ensures Tidy(SlotsIn(next), cfg.deadlineOfDay)
  {
    var k, i := FindRunningAt(prev, x.now);
    var running := SlotsIn(prev)[k];
    assert UndisturbedBy(running, running.periods[i], x, cfg);
    assert TidySlot(running, was);
    assert TidySlot(running, cfg.deadlineOfDay);
    hide Base, Replaced, Tidy, TidySlot, UndisturbedBy, NeverTwice, Loaded, GoodInputs, RunningAt;
    RunningPlanIsTidy(prev, x, cfg, power, base, next, k, i);
  }

  lemma FindRunningAt(prev: Option<Schedule>, now: int) returns (k: int, i: int)
    requires ChargeTime(prev, now)
    ensures RunningAt(prev, now, k, i)
  {
    k := 0;
    var slots := SlotsIn(prev);
    while !SlotRunning(slots[k], now)
      invariant 0 <= k < |slots|
      invariant forall j :: 0 <= j < k ==> !SlotRunning(slots[j], now)
      invariant exists j :: k <= j < |slots| && SlotRunning(slots[j], now)
      decreases |slots| - k
    {
      k := k + 1;
    }
    i := 0;
    while !Running(slots[k].periods[i], now)
      invariant 0 <= i < |slots[k].periods|
      invariant forall j :: 0 <= j < i ==> !Running(slots[k].periods[j], now)
      invariant exists j :: i <= j < |slots[k].periods| && Running(slots[k].periods[j], now)
      decreases |slots[k].periods| - i
    {
      i := i + 1;
    }
  }
}
