/** From the user's overrides to the charger's limits: planning, compiling and sending together. */
module EndToEnd {
  import opened Arithmetic
  import opened Spans
  import opened Plan
  import opened Profile
  import opened Fingerprint
  import opened OverrideTable
  import opened Selection
  import opened Planner
  import opened Forces
  import opened Pipeline
  import opened Recompute
  import opened Continuity
  import opened Honours
  import Cache = ProfileCache
  import Control

  /** A recompute that goes through, on good inputs. */
  ghost predicate GoesThrough(
    prev: Option<Schedule>, x: Inputs, cfg: Option<Config>, live: real, next: Option<Schedule>) {
    Recomputed(prev, x, cfg, live, next) && !Unchanged(x, cfg) && GoodInputs(x.rates, x.overrides, cfg.value)
  }

  /** A forced window whose day the user has not cancelled. */
  ghost predicate Open(prev: Option<Schedule>, x: Inputs, cfg: Config, o: Override) {
    o in x.overrides && o.kind == Force && !CancelledDate(prev, DateOf(DueOf(o, cfg.deadlineOfDay)))
  }

  /** And that a running slot, if there is one, leaves standing. */
  ghost predicate Wanted(prev: Option<Schedule>, x: Inputs, cfg: Config, o: Override) {
    && Open(prev, x, cfg, o)
    && forall k, i :: RunningAt(prev, x.now, k, i) ==> Stands(SlotsIn(prev)[k], i, o, cfg.deadlineOfDay)
  }

  // ----- the plan and its profile -----

  lemma HeldPeriodIsActive(prev: Option<Schedule>, slots: seq<Slot>, p: Period, deadline: int)
    requires ForceHeld(prev, slots, p, deadline) && !CancelledDate(prev, DateOf(deadline))
    ensures p in ActiveOf(slots)
  {
    var k :| 0 <= k < |slots| && slots[k].deadline == deadline && p in slots[k].periods
      && slots[k].cancelled == CancelledDate(prev, DateOf(deadline));
    var i :| 0 <= i < |slots[k].periods| && slots[k].periods[i] == p;
    ActiveOfContains(slots, k, i);
  }

  /**
   Slot running or not, for any tariff: the recomputed plan has an open force's window at its power exactly
   when it is wanted.
   */
  lemma ForceIsPlanned(
    prev: Option<Schedule>, x: Inputs, cfg: Option<Config>, live: real, next: Option<Schedule>, o: Override)
    requires GoesThrough(prev, x, cfg, live, next) && Open(prev, x, cfg.value, o)
    ensures Delivered(ActiveOf(SlotsIn(next)), o) <==> Wanted(prev, x, cfg.value, o)
  {
    if ChargeTime(prev, x.now) {
      var k, i := FindRunningAt(prev, x.now);
      OnlyRunningAt(prev, x.now, k, i);
      hide Recomputed, Unchanged, GoodInputs, RunningAt, CancelledDate, Stands, ActiveOf, ChargeTime, ForcePeriod;
      ForceWhileRunning(prev, x, cfg, live, next, k, i, o);
    } else {
      NoneRunningAt(prev, x.now);
      RecomputedPlanIsGood(prev, x, cfg, live, next);
      var d := DueOf(o, cfg.value.deadlineOfDay);
      assert ForceHeld(prev, SlotsIn(next), ForcePeriod(o, x.rates), d);
      assert Wanted(prev, x, cfg.value, o) && !CancelledDate(prev, DateOf(d));
      ForceBounds(o, x.rates);
      assert Delivers(ForcePeriod(o, x.rates), o);
      hide *;
      IsDelivered(ActiveOf(SlotsIn(next)), ForcePeriod(o, x.rates), o);
      HeldPeriodIsActive(prev, SlotsIn(next), ForcePeriod(o, x.rates), d);
    }
  }

  lemma IsDelivered(ps: seq<Period>, p: Period, o: Override)
    requires Delivers(p, o)
    ensures p in ps ==> Delivered(ps, o)
  {
  }

  lemma OnlyRunningAt(prev: Option<Schedule>, now: int, k: int, i: int)
    requires RunningAt(prev, now, k, i)
    ensures forall l, j :: RunningAt(prev, now, l, j) ==> l == k && j == i
  {
    forall l, j | RunningAt(prev, now, l, j)
      ensures l == k && j == i
    {
      assert !(l < k) && !(k < l);
      assert !(j < i) && !(i < j);
    }
  }

  lemma NoneRunningAt(prev: Option<Schedule>, now: int)
    requires !ChargeTime(prev, now)
    ensures forall k, i :: !RunningAt(prev, now, k, i)
  {
  }

  /** Throughout a wanted window the profile compiled from a chronological new plan allows exactly the forced power. */
  lemma ForcedWindowsAreCompiled(
    prev: Option<Schedule>, x: Inputs, cfg: Option<Config>, live: real, next: Option<Schedule>, o: Override, t: int)
    requires GoesThrough(prev, x, cfg, live, next) && Ordered(ActiveOf(SlotsIn(next)))
    requires Wanted(prev, x, cfg.value, o) && o.window.Covers(t)
    ensures var ps := ActiveOf(SlotsIn(next));
      ps != [] && LimitAt(Compile(ps), t) == Some(o.power) == Some(PowerAt(ps, t))
  {
    ForceIsPlanned(prev, x, cfg, live, next, o);
    hide GoesThrough, Wanted, ActiveOf, Compile, LimitAt, Ordered;
    var p :| p in ActiveOf(SlotsIn(next)) && Delivers(p, o);
    PowerWhereCovered(ActiveOf(SlotsIn(next)), p, t);
  }

  lemma PowerWhereCovered(ps: seq<Period>, p: Period, t: int)
    requires Ordered(ps) && p in ps && p.Covers(t)
    ensures PowerAt(ps, t) == p.value.power && LimitAt(Compile(ps), t) == Some(p.value.power)
    ensures ps[0].start <= t < ps[|ps| - 1].end
  {
    var i :| 0 <= i < |ps| && ps[i] == p;
    PowerOfCovering(ps, i, t);
    CompileMeans(ps);
    hide Compile, Ordered;
  }

  /** A period left of the running slot is under way at `t`: the one way a block is not respected. */
  ghost predicate Leftover(prev: Option<Schedule>, x: Inputs, cfg: Config, live: real, t: int) {
    exists k, i, p :: RunningAt(prev, x.now, k, i)
      && p in Left(SlotsIn(prev)[k], i, NothingElse(x, cfg, live)) && p.Covers(t)
  }

  /** Throughout a blocked window, but for a leftover, it allows nothing from its start to its end. */
  lemma BlockedWindowsAreCompiled(
    prev: Option<Schedule>, x: Inputs, cfg: Option<Config>, live: real, next: Option<Schedule>, o: Override, t: int)
    requires GoesThrough(prev, x, cfg, live, next) && Ordered(ActiveOf(SlotsIn(next))) && ActiveOf(SlotsIn(next)) != []
    requires o in x.overrides && o.kind == Block && o.window.Covers(t) && !Leftover(prev, x, cfg.value, live, t)
    ensures var profile := Compile(ActiveOf(SlotsIn(next)));
      LimitAt(profile, t) == if profile.start <= t < profile.validTo then Some(0.0) else None
  {
    var ps := ActiveOf(SlotsIn(next));
    BlockedIsIdle(prev, x, cfg, live, next, o, t);
    hide GoesThrough, ActiveOf, Ordered, Leftover, Compile;
    NoneCovers(ps, t);
    CompileMeans(ps);
    IdleWhereNothingCovers(ps, t);
  }

  /** For any tariff and any plan before: in a blocked window an active period is under way exactly if a leftover is. */
  lemma BlockedIsIdle(
    prev: Option<Schedule>, x: Inputs, cfg: Option<Config>, live: real, next: Option<Schedule>, o: Override, t: int)
    requires GoesThrough(prev, x, cfg, live, next) && o in x.overrides && o.kind == Block && o.window.Covers(t)
    ensures (forall p :: p in ActiveOf(SlotsIn(next)) ==> !p.Covers(t)) <==> !Leftover(prev, x, cfg.value, live, t)
  {
    var ps := ActiveOf(SlotsIn(next));
    if ChargeTime(prev, x.now) {
      var k, i := FindRunningAt(prev, x.now);
      RunningBounds(prev, x.now, k, i);
      OnlyRunningAt(prev, x.now, k, i);
      forall p: Period | p.Covers(t)
        ensures p in ps <==> p in Left(SlotsIn(prev)[k], i, NothingElse(x, cfg.value, live))
      {
        hide *;
        NotClear(p, o, t);
        BlockedPeriod(prev, x, cfg, live, next, k, i, o, p);
      }
      hide GoesThrough, ActiveOf, RunningAt, NothingElse, Left, ChargeTime;
    } else {
      NoneRunningAt(prev, x.now);
      RecomputedPlanIsGood(prev, x, cfg, live, next);
      assert forall p :: p in ps ==> Respects(p, o, x.rates);
      assert !Leftover(prev, x, cfg.value, live, t);
      hide *;
      forall p | p in ps
        ensures !p.Covers(t)
      {
        ClearOfBlock(p, o, x.rates, t);
      }
    }
  }

  lemma BlockedPeriod(
    prev: Option<Schedule>, x: Inputs, cfg: Option<Config>, live: real, next: Option<Schedule>, k: int, i: int,
    o: Override, p: Period)
    requires GoesThrough(prev, x, cfg, live, next) && RunningAt(prev, x.now, k, i)
    requires 0 <= k < |SlotsIn(prev)| && 0 <= i < |SlotsIn(prev)[k].periods|
    requires o in x.overrides && o.kind == Block && !ClearOf(p, o)
    ensures p in ActiveOf(SlotsIn(next)) <==> p in Left(SlotsIn(prev)[k], i, NothingElse(x, cfg.value, live))
  {
    hide Recomputed, Unchanged, GoodInputs, RunningAt, ClearOf, ActiveOf, Left, NothingElse;
    BlockWhileRunning(prev, x, cfg, live, next, k, i, o, p);
  }

  lemma NotClear(p: Period, o: Override, t: int)
    requires p.Covers(t) && o.window.Covers(t)
    ensures !ClearOf(p, o)
  {
  }

  lemma RunningBounds(prev: Option<Schedule>, now: int, k: int, i: int)
    requires RunningAt(prev, now, k, i)
    ensures 0 <= k < |SlotsIn(prev)| && 0 <= i < |SlotsIn(prev)[k].periods|
  {
  }

  lemma NoneCovers(ps: seq<Period>, t: int)
    requires forall p :: p in ps ==> !p.Covers(t)
    ensures forall i :: 0 <= i < |ps| ==> !ps[i].Covers(t)
  {
    forall i | 0 <= i < |ps|
      ensures !ps[i].Covers(t)
    {
      assert ps[i] in ps;
    }
  }

  lemma ClearOfBlock(p: Period, o: Override, rates: seq<Rate>, t: int)
    requires Respects(p, o, rates) && o.kind == Block && o.window.Covers(t)
    ensures !p.Covers(t)
  {
    hide ForcePeriod;
  }

  // ----- the control pass -----

  /**
   At a second of a blocked window with nothing left over it is not charge time, so in schedule mode no
   pass sends a start, and one that sees an open transaction of a plugged car stops it once the last stop is
   300 seconds old.
   */
  lemma BlockedWindowsNeverStart(
    prev: Option<Schedule>, x: Inputs, cfg: Option<Config>, live: real, next: Option<Schedule>, o: Override, t: int,
    s: Control.Cooldowns, call: Control.Call)
    requires GoesThrough(prev, x, cfg, live, next)
    requires o in x.overrides && o.kind == Block && o.window.Covers(t) && !Leftover(prev, x, cfg.value, live, t)
    requires call.now == t && call.chargeTime == ChargeTime(next, t) && call.mode != "off" && call.mode != "force"
    ensures !call.chargeTime && Control.Sent(s, call) != Control.Start
    ensures
      && call.seen.hasCharger && call.seen.connected && call.seen.txnId > 0
      && call.seen.status in {"Preparing", "Charging", "SuspendedEV", "SuspendedEVSE"}
      && (call.forced
          || (call.seen.status != "SuspendedEV" && (s.lastStop.None? || t - s.lastStop.value >= 300)))
      ==> Control.Sent(s, call) == Control.Stop(call.seen.txnId)
  {
    BlockedIsNoChargeTime(prev, x, cfg, live, next, o, t);
    hide *;
    Control.StartsAreJustified(s, call);
    Control.StopsAreJustified(s, call, call.seen.txnId);
  }

  lemma BlockedIsNoChargeTime(
    prev: Option<Schedule>, x: Inputs, cfg: Option<Config>, live: real, next: Option<Schedule>, o: Override, t: int)
    requires GoesThrough(prev, x, cfg, live, next)
    requires o in x.overrides && o.kind == Block && o.window.Covers(t) && !Leftover(prev, x, cfg.value, live, t)
    ensures !ChargeTime(next, t)
  {
    BlockedIsIdle(prev, x, cfg, live, next, o, t);
    if next.Some? { ChargeTimeIsActivePeriod(next.value, t); }
    hide ActiveOf, GoesThrough, Leftover;
  }

  // ----- the profile the charger holds -----

  /**
   A run of the sender that ends in applying this plan to a charger that takes profiles, past the
   cooldown, or with that future held already.
   */
  ghost predicate Applied(events: seq<Cache.SendEvent>, digest: string -> string, plan: Schedule, now: int) {
    && Cache.Collisionless(digest) && Cache.Legal(events) && events != []
    && events[|events| - 1] == Cache.Apply(plan, now, true, true) && FutureText(plan, now) != ""
    && var s := Cache.Run(events[..|events| - 1], digest);
       !Cache.Cooling(s.sentAt, now) || Cache.HeldHash(s, digest) == Cache.HashOf(plan, now, digest)
  }

  /** What the charger then holds: an earlier plan or this one, chronological, with this plan's future. */
  lemma HeldAfterApply(events: seq<Cache.SendEvent>, digest: string -> string, plan: Schedule, now: int)
    requires Applied(events, digest, plan, now)
    ensures var a := Cache.Run(events, digest).accepted;
      && a.Some? && a.value.at <= now && Ordered(ActiveOf(a.value.plan.slots)) && Ordered(ActiveOf(plan.slots))
      && FutureText(a.value.plan, a.value.at) == FutureText(plan, now) != ""
  {
    hide Cache.Run, Cache.HashOf, Cache.HeldHash, Cache.Cooling, Cache.Collisionless, Ordered, ActiveOf, FutureText;
    Cache.ChargerHoldsPlanUnlessCooling(events, digest);
    Cache.CoolingExactly(Cache.Run(events[..|events| - 1], digest).sentAt, now);
    Cache.RunIsFaithful(events, digest);
    var a := Cache.Run(events, digest).accepted;
    var i :| 0 <= i < |events| && Cache.HeldFrom(a.value, events[i]);
    assert i < |events| - 1 ==> events[i].now <= events[|events| - 1].now;
  }

  /**
   Throughout what is left of a wanted window the profile the charger holds allows a power that rounds to
   the forced one, and exactly that for plans of whole watts.
   */
  lemma ForcedWindowsReachTheCharger(
    events: seq<Cache.SendEvent>, digest: string -> string,
    prev: Option<Schedule>, x: Inputs, cfg: Option<Config>, live: real, next: Option<Schedule>, o: Override, t: int)
    requires GoesThrough(prev, x, cfg, live, next) && Wanted(prev, x, cfg.value, o)
    requires next.Some? && Applied(events, digest, next.value, x.now) && o.window.Covers(t) && x.now <= t
    ensures var a := Cache.Run(events, digest).accepted;
      && a.Some? && ActiveOf(a.value.plan.slots) != []
      && var theirs := ActiveOf(a.value.plan.slots);
         var limit := LimitAt(Compile(theirs), t);
         && limit.Some? && RoundToEven(limit.value) == RoundToEven(o.power)
         && (Cache.WholeWatts(theirs) && Cache.WholeWatts(ActiveOf(next.value.slots)) ==> limit.value == o.power)
  {
    ForceIsPlanned(prev, x, cfg, live, next, o);
    var p :| p in ActiveOf(SlotsIn(next)) && Delivers(p, o);
    HeldAfterApply(events, digest, next.value, x.now);
    assert p.Covers(t) && p.value.power == o.power;
    var held := Cache.Run(events, digest).accepted.value;
    assert SlotsIn(next) == next.value.slots;
    hide *;
    HeldLimit(held, next.value, x.now, p, t);
  }

  lemma HeldLimit(held: Cache.Accepted, plan: Schedule, now: int, p: Period, t: int)
    requires FutureText(held.plan, held.at) == FutureText(plan, now) != "" && held.at <= now <= t
    requires Ordered(ActiveOf(held.plan.slots)) && Ordered(ActiveOf(plan.slots))
    requires p in ActiveOf(plan.slots) && p.Covers(t)
    ensures ActiveOf(held.plan.slots) != []
    ensures var theirs := ActiveOf(held.plan.slots);
      var limit := LimitAt(Compile(theirs), t);
      && limit.Some? && RoundToEven(limit.value) == RoundToEven(p.value.power)
      && (Cache.WholeWatts(theirs) && Cache.WholeWatts(ActiveOf(plan.slots)) ==> limit.value == p.value.power)
  {
    hide Ordered, ActiveOf, Compile, LimitAt, PowerAt, RoundToEven, Cache.WholeWatts, FutureText, Remaining;
    var mine := ActiveOf(plan.slots);
    Cache.HeldFutureAgrees(held, plan, now, t);
    PowerWhereCovered(mine, p, t);
    Cache.FirstRemaining(mine, now, p, t);
  }

  /**
   Throughout what is left of a blocked window, but for a leftover, the profile the charger holds allows
   nothing from its start to its end, and sets no limit outside.
   */
  lemma BlockedWindowsReachTheCharger(
    events: seq<Cache.SendEvent>, digest: string -> string,
    prev: Option<Schedule>, x: Inputs, cfg: Option<Config>, live: real, next: Option<Schedule>, o: Override, t: int)
    requires GoesThrough(prev, x, cfg, live, next)
    requires o in x.overrides && o.kind == Block && !Leftover(prev, x, cfg.value, live, t)
    requires next.Some? && Applied(events, digest, next.value, x.now) && o.window.Covers(t) && x.now <= t
    ensures var a := Cache.Run(events, digest).accepted;
      && a.Some? && ActiveOf(a.value.plan.slots) != []
      && var profile := Compile(ActiveOf(a.value.plan.slots));
         LimitAt(profile, t) == if profile.start <= t < profile.validTo then Some(0.0) else None
  {
    BlockedIsIdle(prev, x, cfg, live, next, o, t);
    HeldAfterApply(events, digest, next.value, x.now);
    var held := Cache.Run(events, digest).accepted.value;
    assert SlotsIn(next) == next.value.slots;
    hide *;
    NoneCovers(ActiveOf(next.value.slots), t);
    Cache.HeldIsIdle(held, next.value, x.now, t);
  }
}
