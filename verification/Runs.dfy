/** The plan over whole runs of recomputes, user actions and restarts (scheduler.go). */
module Runs {
  import opened Arithmetic
  import opened Spans
  import opened Plan
  import opened Profile
  import opened Fingerprint
  import opened OverrideTable
  import opened Selection
  import opened Slots
  import opened Forces
  import opened Pipeline
  import opened Recompute
  import opened Continuity
  import opened Honours
  import opened EndToEnd
  import opened Scheduling
  import Cache = ProfileCache
  import Planner
  import Cases = Disturbances

  datatype PlanEvent =
    | Recomputing(x: Inputs, cfg: Option<Config>, live: real)
    | Switching(date: int, cancelled: bool, found: bool)  // CancelSlot, RestoreSlot
    | Clearing(obeys: bool)                               // ClearSchedule
    | Booting                                             // the charger restarts
    | Restarting(now: int)                                // a new process reads back what was saved

  /** One event. Every change of the plan is saved at once, so a restart finds the current one. */
  ghost predicate PlanStep(prev: Option<Schedule>, e: PlanEvent, next: Option<Schedule>) {
    match e
    case Recomputing(x, cfg, live) => Recomputed(prev, x, cfg, live, next)
    case Switching(date, cancelled, found) => SwitchedPlan(prev, date, cancelled, next, found)
    case Clearing(_) => next.None?
    case Booting => next == prev
    case Restarting(now) => next == Restored(prev, now)
  }

  /** The plan before the first event, then the one after each. */
  ghost predicate PlanRun(plans: seq<Option<Schedule>>, events: seq<PlanEvent>) {
    |plans| == |events| + 1 && forall i :: 0 <= i < |events| ==> PlanStep(plans[i], events[i], plans[i + 1])
  }

  /** A recompute on good inputs that finds the running slot, if any, undisturbed. Nothing is asked of other events. */
  ghost predicate Quiet(prev: Option<Schedule>, e: PlanEvent) {
    e.Recomputing? && !Unchanged(e.x, e.cfg) ==>
      && GoodInputs(e.x.rates, e.x.overrides, e.cfg.value) && Loaded(e.x)
      && PicksOnce(e.x, e.cfg.value, e.live) && Undisturbed(prev, e.x, e.cfg.value)
  }

  ghost predicate QuietRun(plans: seq<Option<Schedule>>, events: seq<PlanEvent>) {
    && PlanRun(plans, events) && TidyPlan(plans[0])
    && forall i :: 0 <= i < |events| ==> Quiet(plans[i], events[i])
  }

  ghost predicate TidyPlan(plan: Option<Schedule>) {
    exists timeOfDay :: TimeOfDay(timeOfDay) && Tidy(SlotsIn(plan), timeOfDay)
  }

  // ----- plans stay tidy -----

  lemma NoPlanIsTidy()
    ensures TidyPlan(None)
  {
    assert Tidy(SlotsIn(None), 0);
  }

  lemma SwitchKeepsTidy(slots: seq<Slot>, k: nat, cancelled: bool, timeOfDay: int)
    requires Tidy(slots, timeOfDay) && k < |slots|
    ensures Tidy(Switched(slots, k, cancelled), timeOfDay)
  {
    hide Apart, Ordered, Due, IsDeadline;
    var r := Switched(slots, k, cancelled);
    forall i | 0 <= i < |r|
      ensures TidySlot(r[i], timeOfDay) && r[i].periods == slots[i].periods && r[i].deadline == slots[i].deadline
    {
      assert TidySlot(slots[i], timeOfDay);
    }
  }

  lemma {:induction false} LiveSlotsFrom(slots: seq<Slot>, now: int, s: Slot)
    requires s in LiveSlots(slots, now)
    ensures s in slots
  {
    var n := |slots| - 1;
    if s in LiveSlots(slots[..n], now) { LiveSlotsFrom(slots[..n], now, s); }
  }

  lemma {:induction false} LiveSlotsTidy(slots: seq<Slot>, now: int, timeOfDay: int)
    requires Tidy(slots, timeOfDay)
    ensures Tidy(LiveSlots(slots, now), timeOfDay)
  {
    if slots != [] {
      var n := |slots| - 1;
      var kept := LiveSlots(slots[..n], now);
      TidyPrefix(slots, timeOfDay);
      LiveSlotsTidy(slots[..n], now, timeOfDay);
      forall s | s in kept
        ensures s.deadline < slots[n].deadline && Apart(s.periods, slots[n].periods)
      {
        LiveSlotsFrom(slots[..n], now, s);
        var i :| 0 <= i < n && slots[..n][i] == s;
        assert slots[i] == s;
      }
      assert TidySlot(slots[n], timeOfDay);
      hide TidySlot, Apart;
      AppendTidy(kept, slots[n], timeOfDay);
      assert LiveSlots(slots, now) == kept || LiveSlots(slots, now) == kept + [slots[n]];
    }
  }

  lemma AppendTidy(slots: seq<Slot>, s: Slot, timeOfDay: int)
    requires Tidy(slots, timeOfDay) && TidySlot(s, timeOfDay)
    requires forall a :: a in slots ==> a.deadline < s.deadline && Apart(a.periods, s.periods)
    ensures Tidy(slots + [s], timeOfDay)
  {
    hide TidySlot, Apart;
  }

  lemma StepKeepsTidy(prev: Option<Schedule>, e: PlanEvent, next: Option<Schedule>)
    requires PlanStep(prev, e, next) && TidyPlan(prev) && Quiet(prev, e)
    ensures TidyPlan(next)
  {
    var was :| TimeOfDay(was) && Tidy(SlotsIn(prev), was);
    hide Tidy, Recomputed, Unchanged, GoodInputs, Loaded, PicksOnce, Undisturbed;
    match e
    case Recomputing(x, cfg, live) =>
      var timeOfDay := RecomputeKeepsTidy(prev, x, cfg, live, next, was);
    case Switching(date, cancelled, found) =>
      if found {
        var k :| Switches(prev.value.slots, date, cancelled, k)
          && next.value.slots == Switched(prev.value.slots, k, cancelled);
        SwitchKeepsTidy(prev.value.slots, k, cancelled, was);
        assert Tidy(SlotsIn(next), was);
      }
    case Clearing(_) => NoPlanIsTidy();
    case Booting =>
    case Restarting(now) =>
      LiveSlotsTidy(SlotsIn(prev), now, was);
      NoPlanIsTidy();
      assert next.Some? ==> SlotsIn(next) == LiveSlots(SlotsIn(prev), now);
  }

  lemma RunSize(plans: seq<Option<Schedule>>, events: seq<PlanEvent>)
    requires QuietRun(plans, events)
    ensures |plans| == |events| + 1 && TidyPlan(plans[0])
  {
  }

  lemma StepOfRun(plans: seq<Option<Schedule>>, events: seq<PlanEvent>, i: nat)
    requires QuietRun(plans, events) && i < |events| < |plans|
    ensures PlanStep(plans[i], events[i], plans[i + 1]) && Quiet(plans[i], events[i])
  {
    hide PlanStep, Quiet, TidyPlan;
  }

  /**
   Over every quiet run each plan is tidy, so its active periods run in order: what the profile
   compiler and the hash of the future need.
   */
  lemma {:induction false} QuietRunsStayTidy(plans: seq<Option<Schedule>>, events: seq<PlanEvent>, i: nat)
    requires QuietRun(plans, events) && i < |plans|
    ensures TidyPlan(plans[i]) && Ordered(ActiveOf(SlotsIn(plans[i])))
  {
    RunSize(plans, events);
    hide *;
    if i > 0 {
      QuietRunsStayTidy(plans, events, i - 1);
      StepOfRun(plans, events, i - 1);
      StepKeepsTidy(plans[i - 1], events[i - 1], plans[i]);
    }
    TidyPlanIsOrdered(plans[i]);
  }

  lemma TidyPlanIsOrdered(plan: Option<Schedule>)
    requires TidyPlan(plan)
    ensures Ordered(ActiveOf(SlotsIn(plan)))
  {
    var timeOfDay :| TimeOfDay(timeOfDay) && Tidy(SlotsIn(plan), timeOfDay);
    hide Tidy, Ordered, ActiveOf;
    TidyIsOrdered(SlotsIn(plan), timeOfDay);
  }

  // ----- what the sender sees of a run -----

  /** The profile events of a run: a recompute that leaves a plan applies it. */
  ghost function SendsOf(plans: seq<Option<Schedule>>, events: seq<PlanEvent>): seq<Cache.SendEvent>
    requires |plans| == |events| + 1
  {
    if events == [] then []
    else
      var n := |events| - 1;
      SendsOf(plans[..n + 1], events[..n]) + Sends(events[n], plans[n + 1])
  }

  ghost function Sends(e: PlanEvent, next: Option<Schedule>): seq<Cache.SendEvent> {
    match e
    case Recomputing(x, cfg, live) =>
      if Unchanged(x, cfg) || next.None? then [] else [Cache.Apply(next.value, x.now, x.hasCharger, x.accepts)]
    case Switching(_, _, _) => []
    case Clearing(obeys) => [Cache.Clear(obeys)]
    case Booting => [Cache.Boot]
    case Restarting(_) => [Cache.Restart]
  }

  /** The clock does not run backwards between recomputes. */
  ghost predicate Forward(events: seq<PlanEvent>) {
    forall i, j :: 0 <= i < j < |events| && events[i].Recomputing? && events[j].Recomputing? ==>
      events[i].x.now <= events[j].x.now
  }

  lemma PrefixRun(plans: seq<Option<Schedule>>, events: seq<PlanEvent>)
    requires QuietRun(plans, events) && Forward(events) && events != []
    ensures var n := |events| - 1; QuietRun(plans[..n + 1], events[..n]) && Forward(events[..n])
  {
    var n := |events| - 1;
    var ps, es := plans[..n + 1], events[..n];
    hide PlanStep, Quiet, TidyPlan;
    forall i | 0 <= i < |es|
      ensures PlanStep(ps[i], es[i], ps[i + 1]) && Quiet(ps[i], es[i])
    {
      assert PlanStep(plans[i], events[i], plans[i + 1]) && Quiet(plans[i], events[i]);
    }
  }

  /** What is applied is a plan of the run, at the time of a recompute. */
  ghost predicate FromRun(e: Cache.SendEvent, plans: seq<Option<Schedule>>, events: seq<PlanEvent>, i: int) {
    && 0 <= i < |events| < |plans| && events[i].Recomputing?
    && (e.Apply? ==> e.now == events[i].x.now && plans[i + 1] == Some(e.plan))
  }

  lemma {:induction false} SendsComeFrom(plans: seq<Option<Schedule>>, events: seq<PlanEvent>, k: nat) returns (i: int)
    requires |plans| == |events| + 1 && k < |SendsOf(plans, events)| && SendsOf(plans, events)[k].Apply?
    ensures FromRun(SendsOf(plans, events)[k], plans, events, i)
  {
    var n := |events| - 1;
    var before := SendsOf(plans[..n + 1], events[..n]);
    if k < |before| {
      i := SendsComeFrom(plans[..n + 1], events[..n], k);
    } else {
      i := n;
    }
  }

  /**
   The sends of a quiet run are what `ProfileCache` asks of its runs: every plan applied is
   chronological, and time does not run backwards.
   */
  lemma {:induction false} QuietRunsAreLegal(plans: seq<Option<Schedule>>, events: seq<PlanEvent>)
    requires QuietRun(plans, events) && Forward(events)
    ensures Cache.Legal(SendsOf(plans, events))
  {
    RunSize(plans, events);
    if events != [] {
      var n := |events| - 1;
      PrefixRun(plans, events);
      hide *;
      QuietRunsAreLegal(plans[..n + 1], events[..n]);
      QuietRunsStayTidy(plans, events, n + 1);
      LastSendIsLater(plans, events);
      LastSend(plans, events);
      LegalAppend(SendsOf(plans[..n + 1], events[..n]), Sends(events[n], plans[n + 1]));
    }
  }

  lemma LastSend(plans: seq<Option<Schedule>>, events: seq<PlanEvent>)
    requires |plans| == |events| + 1 && events != []
    ensures var n := |events| - 1;
      var last := Sends(events[n], plans[n + 1]);
      && SendsOf(plans, events) == SendsOf(plans[..n + 1], events[..n]) + last && |last| <= 1
      && (last != [] && last[0].Apply? ==>
            && events[n].Recomputing? && last[0].now == events[n].x.now
            && last[0].plan.slots == SlotsIn(plans[n + 1]))
  {
    hide Unchanged;
  }

  lemma LastSendIsLater(plans: seq<Option<Schedule>>, events: seq<PlanEvent>)
    requires |plans| == |events| + 1 && events != [] && Forward(events)
    ensures var n := |events| - 1;
      var before := SendsOf(plans[..n + 1], events[..n]);
      forall k :: 0 <= k < |before| && before[k].Apply? && events[n].Recomputing? ==> before[k].now <= events[n].x.now
  {
    var n := |events| - 1;
    var before := SendsOf(plans[..n + 1], events[..n]);
    hide SendsOf;
    forall k | 0 <= k < |before| && before[k].Apply? && events[n].Recomputing?
      ensures before[k].now <= events[n].x.now
    {
      var i := SendsComeFrom(plans[..n + 1], events[..n], k);
      assert events[..n][i] == events[i];
    }
  }

  lemma LegalAppend(before: seq<Cache.SendEvent>, last: seq<Cache.SendEvent>)
    requires Cache.Legal(before) && |last| <= 1
    requires last != [] && last[0].Apply? ==>
      && Ordered(ActiveOf(last[0].plan.slots))
      && forall k :: 0 <= k < |before| && before[k].Apply? ==> before[k].now <= last[0].now
    ensures Cache.Legal(before + last)
  {
    hide Ordered, ActiveOf;
  }

  // ----- the running period over a run -----

  /** The event leaves the period to itself: a recompute while it runs, or no end of it by the user or the clock. */
  ghost predicate Spares(prev: Option<Schedule>, e: PlanEvent, p: Period) {
    match e
    case Recomputing(x, cfg, live) => Running(p, x.now)
    case Switching(date, cancelled, found) =>
      cancelled ==> forall k :: 0 <= k < |SlotsIn(prev)| && SlotsIn(prev)[k].date == date ==>
        p !in SlotsIn(prev)[k].periods
    case Clearing(_) => false
    case Booting => true
    case Restarting(now) => p.end > now
  }

  /** In a chronological plan the period under way is the one the scheduler finds. */
  lemma RunningIsFound(prev: Option<Schedule>, now: int, p: Period) returns (k: int, i: int)
    requires Ordered(ActiveOf(SlotsIn(prev))) && p in ActiveOf(SlotsIn(prev)) && Running(p, now)
    ensures RunningAt(prev, now, k, i) && SlotsIn(prev)[k].periods[i] == p
  {
    var slots := SlotsIn(prev);
    ActiveOfComesFrom(slots, p);
    var l :| 0 <= l < |slots| && !slots[l].cancelled && p in slots[l].periods;
    var m :| 0 <= m < |slots[l].periods| && slots[l].periods[m] == p;
    assert SlotRunning(slots[l], now);
    k, i := FindRunningAt(prev, now);
    ActiveOfContains(slots, k, i);
    hide ActiveOf;
    OnlyOneCovers(ActiveOf(slots), p, slots[k].periods[i], now);
  }

  lemma OnlyOneCovers(ps: seq<Period>, p: Period, q: Period, t: int)
    requires Ordered(ps) && p in ps && q in ps && p.Covers(t) && q.Covers(t)
    ensures p == q
  {
    var i :| 0 <= i < |ps| && ps[i] == p;
    var j :| 0 <= j < |ps| && ps[j] == q;
    assert !(i < j) && !(j < i);
  }

  lemma SwitchSpares(slots: seq<Slot>, k: nat, cancelled: bool, p: Period)
    requires k < |slots| && p in ActiveOf(slots) && (cancelled ==> p !in slots[k].periods)
    ensures p in ActiveOf(Switched(slots, k, cancelled))
  {
    ActiveOfComesFrom(slots, p);
    var l :| 0 <= l < |slots| && !slots[l].cancelled && p in slots[l].periods;
    var i :| 0 <= i < |slots[l].periods| && slots[l].periods[i] == p;
    ActiveOfContains(Switched(slots, k, cancelled), l, i);
  }

  lemma RestartSpares(slots: seq<Slot>, now: int, p: Period)
    requires p in ActiveOf(slots) && p.end > now
    ensures p in ActiveOf(LiveSlots(slots, now))
  {
    var ps := ActiveOf(slots);
    var i :| 0 <= i < |ps| && ps[i] == p;
    RestartKeepsRemaining(slots, now);
    Cache.RemainingHas(ps, now, i);
    Cache.RemainingFrom(ActiveOf(LiveSlots(slots, now)), now);
  }

  lemma StepSpares(prev: Option<Schedule>, e: PlanEvent, next: Option<Schedule>, p: Period)
    requires PlanStep(prev, e, next) && Spares(prev, e, p)
    requires Ordered(ActiveOf(SlotsIn(prev))) && p in ActiveOf(SlotsIn(prev))
    ensures p in ActiveOf(SlotsIn(next))
  {
    hide Recomputed, ActiveOf, Ordered, LiveSlots;
    match e
    case Recomputing(x, cfg, live) =>
      var k, i := RunningIsFound(prev, x.now, p);
      RunningPeriodSurvives(prev, x, cfg, live, next, k, i);
    case Switching(date, cancelled, found) =>
      if found {
        var k :| Switches(prev.value.slots, date, cancelled, k)
          && next.value.slots == Switched(prev.value.slots, k, cancelled);
        SwitchSpares(prev.value.slots, k, cancelled, p);
      }
    case Clearing(_) =>
    case Booting =>
    case Restarting(now) =>
      RestartSpares(SlotsIn(prev), now, p);
      assert LiveSlots(SlotsIn(prev), now) != [] by { NothingIsActive(LiveSlots(SlotsIn(prev), now)); }
  }

  lemma NothingIsActive(slots: seq<Slot>)
    ensures slots == [] ==> ActiveOf(slots) == []
  {
  }

  /**
   Over every quiet run: a period under way at each recompute, whatever the prices, the settings, the
   state of charge, boots and restarts, stays in the plan with its bounds and power until the user cancels its
   day or clears the plan.
   */
  lemma {:induction false} RunningPeriodsStay(
    plans: seq<Option<Schedule>>, events: seq<PlanEvent>, p: Period, from: nat, i: nat)
    requires |plans| == |events| + 1 && from <= i < |plans| && p in ActiveOf(SlotsIn(plans[from]))
    requires forall j :: from <= j < i ==> Spares(plans[j], events[j], p)
    requires QuietRun(plans, events)
    ensures p in ActiveOf(SlotsIn(plans[i]))
  {
    hide *;
    if from < i {
      RunningPeriodsStay(plans, events, p, from, i - 1);
      QuietRunsStayTidy(plans, events, i - 1);
      StepOfRun(plans, events, i - 1);
      assert Spares(plans[i - 1], events[i - 1], p);
      StepSpares(plans[i - 1], events[i - 1], plans[i], p);
    }
  }

  // ----- the overrides over a run -----

  /**
   A quiet run that ends in a recompute that goes through and leaves a plan, sent to a charger that takes
   profiles past the cooldown, or that holds the plan's future already. A slot may be running or not.
   */
  ghost predicate EndsInSend(
    plans: seq<Option<Schedule>>, events: seq<PlanEvent>, digest: string -> string,
    prev: Option<Schedule>, x: Inputs, cfg: Option<Config>, live: real, next: Schedule) {
    && QuietRun(plans, events) && Forward(events) && Cache.Collisionless(digest) && events != []
    && var n := |events| - 1;
       && events[n] == Recomputing(x, cfg, live) && plans[n] == prev && plans[n + 1] == Some(next)
       && x.hasCharger && x.accepts && !Unchanged(x, cfg)
       && var s := Cache.Run(SendsOf(plans[..n + 1], events[..n]), digest);
          !Cache.Cooling(s.sentAt, x.now) || Cache.HeldHash(s, digest) == Cache.HashOf(next, x.now, digest)
  }

  lemma SendIsApplied(
    plans: seq<Option<Schedule>>, events: seq<PlanEvent>, digest: string -> string,
    prev: Option<Schedule>, x: Inputs, cfg: Option<Config>, live: real, next: Schedule)
    requires EndsInSend(plans, events, digest, prev, x, cfg, live, next) && FutureText(next, x.now) != ""
    ensures Applied(SendsOf(plans, events), digest, next, x.now)
  {
    var n := |events| - 1;
    assert |plans| == n + 2 && QuietRun(plans, events) && Forward(events);
    LastIsSent(plans, events, x, cfg, live, next);
    hide QuietRun, Forward, Unchanged, SendsOf, Cache.Run, Cache.HashOf, Cache.HeldHash, Cache.Cooling,
      Cache.Collisionless, Cache.Legal, FutureText, Applied;
    QuietRunsAreLegal(plans, events);
    SentIsApplied(SendsOf(plans[..n + 1], events[..n]), digest, next, x.now);
  }

  lemma LastIsSent(
    plans: seq<Option<Schedule>>, events: seq<PlanEvent>, x: Inputs, cfg: Option<Config>, live: real, next: Schedule)
    requires |plans| == |events| + 1 && events != [] && events[|events| - 1] == Recomputing(x, cfg, live)
    requires plans[|events|] == Some(next) && !Unchanged(x, cfg)
    ensures var n := |events| - 1;
      SendsOf(plans, events) ==
        SendsOf(plans[..n + 1], events[..n]) + [Cache.Apply(next, x.now, x.hasCharger, x.accepts)]
  {
    hide Unchanged;
  }

  lemma SentIsApplied(before: seq<Cache.SendEvent>, digest: string -> string, next: Schedule, now: int)
    requires var e := Cache.Apply(next, now, true, true);
      && Cache.Collisionless(digest) && Cache.Legal(before + [e]) && FutureText(next, now) != ""
    requires var s := Cache.Run(before, digest);
      !Cache.Cooling(s.sentAt, now) || Cache.HeldHash(s, digest) == Cache.HashOf(next, now, digest)
    ensures Applied(before + [Cache.Apply(next, now, true, true)], digest, next, now)
  {
    hide Cache.Run, Cache.HashOf, Cache.HeldHash, Cache.Cooling, Cache.Collisionless, Cache.Legal, FutureText;
    var events := before + [Cache.Apply(next, now, true, true)];
    assert events[..|events| - 1] == before;
  }

  /** A recompute with one force and a charger that takes profiles. */
  function Charger(o: Override, now: int): Inputs { Cases.With(o, now).(hasCharger := true, accepts := true) }

  /** The plan it makes. */
  function Planned(o: Override, deadlineOfDay: int): Schedule { Cases.Total([Cases.ForceSlot(o, deadlineOfDay)]) }

  /** Such runs exist for every force that has not ended: the first recompute of a new process is one. */
  lemma FirstRecomputeSends(o: Override, now: int, deadlineOfDay: int, digest: string -> string)
    requires o.kind == Force && o.power > 0.0 && o.window.start < o.window.end && o.window.end > now
    requires TimeOfDay(deadlineOfDay) && Cache.Collisionless(digest)
    ensures
      var x, cfg, next := Charger(o, now), Cases.Idle(deadlineOfDay), Planned(o, deadlineOfDay);
      && EndsInSend([None, Some(next)], [Recomputing(x, Some(cfg), 0.0)], digest, None, x, Some(cfg), 0.0, next)
      && Wanted(None, x, cfg, o)
  {
    var x, cfg, next := Charger(o, now), Cases.Idle(deadlineOfDay), Planned(o, deadlineOfDay);
    FirstRecompute(o, now, deadlineOfDay);
    NoPlanIsTidy();
    hide Recomputed, Planned, Cache.Collisionless, Cache.HashOf, Cache.HeldHash, Tidy;
    var plans, events := [None, Some(next)], [Recomputing(x, Some(cfg), 0.0)];
    assert plans[..1] == [None] && events[..0] == [] && SendsOf(plans[..1], events[..0]) == [];
    assert PlanStep(plans[0], events[0], plans[1]) && Quiet(plans[0], events[0]);
  }

  lemma FirstRecompute(o: Override, now: int, deadlineOfDay: int)
    requires o.kind == Force && o.power > 0.0 && o.window.start < o.window.end && o.window.end > now
    requires TimeOfDay(deadlineOfDay)
    ensures
      var x, cfg, next := Charger(o, now), Cases.Idle(deadlineOfDay), Some(Planned(o, deadlineOfDay));
      GoesThrough(None, x, Some(cfg), 0.0, next) && Loaded(x) && PicksOnce(x, cfg, 0.0)
  {
    var x, cfg := Charger(o, now), Cases.Idle(deadlineOfDay);
    hide Recomputed, Unchanged, GoodInputs, NeverTwice, Planned;
    FirstInputsAreGood(x, cfg, o);
    FirstIsRecomputed(o, now, deadlineOfDay);
  }

  lemma FirstInputsAreGood(x: Inputs, cfg: Config, o: Override)
    requires TimeOfDay(cfg.deadlineOfDay) && x.rates == [] && x.overrides == [o] && !x.connected
    requires o.kind == Force && o.power > 0.0 && o.window.start < o.window.end && o.window.end > x.now
    ensures !Unchanged(x, Some(cfg)) && GoodInputs(x.rates, x.overrides, cfg) && Loaded(x) && PicksOnce(x, cfg, 0.0)
  {
    Cases.OnlyForce(o);
    WithoutTariff(x, cfg);
    hide ForcesOf, PicksOnce;
  }

  lemma WithoutTariff(x: Inputs, cfg: Config)
    requires x.rates == []
    ensures PicksOnce(x, cfg, 0.0)
  {
    assert Ordered(x.rates) && NoneAcross(x, Fresh(cfg, x.soc));
    hide Ordered, NoneAcross, NeverTwice, Fresh, ChargePower;
    NoneAcrossPicksOnce(x, Fresh(cfg, x.soc), ChargePower(Fresh(cfg, x.soc), 0.0));
  }

  lemma FirstIsRecomputed(o: Override, now: int, deadlineOfDay: int)
    requires o.kind == Force && o.power > 0.0 && o.window.start < o.window.end
    ensures Recomputed(None, Charger(o, now), Some(Cases.Idle(deadlineOfDay)), 0.0, Some(Planned(o, deadlineOfDay)))
  {
    var y, x := Cases.With(o, now), Charger(o, now);
    var cfg, next := Cases.Idle(deadlineOfDay), Some(Planned(o, deadlineOfDay));
    assert Fresh(cfg, 0.0) == cfg.(currentSoC := 0.0) && Totalled(next.value);
    Cases.OnlyForce(o);
    assert !Unchanged(x, Some(cfg));
    hide Base, Replaced, Unchanged, Cases.ForceSlot, Cases.Total, ForcesOf, Totalled, Fresh;
    Cases.OneForceBase(o, now, deadlineOfDay, ChargePower(Fresh(cfg, 0.0), 0.0), 0.0);
    SameBase(y, x, Fresh(cfg, 0.0), ChargePower(Fresh(cfg, 0.0), 0.0), next);
    NothingCancelled(x, next);
  }

  lemma NothingCancelled(x: Inputs, base: Option<Schedule>)
    requires base.Some? && Totalled(base.value)
    ensures Replaced(None, x, base, base)
  {
    hide Totalled;
    assert Marked(None, base.value.slots, base.value.slots);
  }

  /** The plan from scratch depends on the time, the tariff and the overrides only. */
  lemma SameBase(y: Inputs, x: Inputs, cfg: Config, power: real, base: Option<Schedule>)
    requires Base(y, cfg, power, base) && x.now == y.now && x.rates == y.rates && x.overrides == y.overrides
    ensures Base(x, cfg, power, base)
  {
    hide FreshPlan;
    var frag, outcomes, auto, forces :| BaseFrom(y, cfg, power, frag, outcomes, auto, forces, base);
    assert BaseFrom(x, cfg, power, frag, outcomes, auto, forces, base);
  }

  /** And so is one made while the force runs, past the cooldown. */
  lemma NextRecomputeSends(o: Override, now: int, later: int, deadlineOfDay: int, digest: string -> string)
    requires o.kind == Force && o.power > 0.0 && o.window.Covers(later)
    requires TimeOfDay(deadlineOfDay) && Cache.Collisionless(digest) && later - now >= Cache.PROFILE_COOLDOWN
    ensures
      var plan, cfg, x := Some(Planned(o, deadlineOfDay)), Some(Cases.Idle(deadlineOfDay)), Charger(o, later);
      && EndsInSend([None, plan, plan], [Recomputing(Charger(o, now), cfg, 0.0), Recomputing(x, cfg, 0.0)], digest,
           plan, x, cfg, 0.0, plan.value)
      && ChargeTime(plan, later) && Wanted(plan, x, cfg.value, o)
  {
    var first, x, plan, cfg := Charger(o, now), Charger(o, later), Planned(o, deadlineOfDay), Cases.Idle(deadlineOfDay);
    FirstRecompute(o, now, deadlineOfDay);
    NextRecompute(o, later, deadlineOfDay);
    NothingRuns(first, cfg);
    hide GoesThrough, Planned, Wanted, ChargeTime, Loaded, PicksOnce, Undisturbed, Cache.Collisionless, EndsInSend;
    TwoRecomputes(first, x, plan, cfg, digest);
  }

  /** Two recomputes past the cooldown, from nothing. */
  lemma TwoRecomputes(first: Inputs, x: Inputs, plan: Schedule, cfg: Config, digest: string -> string)
    requires GoesThrough(None, first, Some(cfg), 0.0, Some(plan))
    requires GoesThrough(Some(plan), x, Some(cfg), 0.0, Some(plan))
    requires Loaded(first) && PicksOnce(first, cfg, 0.0) && Undisturbed(None, first, cfg)
    requires Loaded(x) && PicksOnce(x, cfg, 0.0) && Undisturbed(Some(plan), x, cfg)
    requires Cache.Collisionless(digest) && x.now - first.now >= Cache.PROFILE_COOLDOWN && x.hasCharger && x.accepts
    ensures EndsInSend([None, Some(plan), Some(plan)],
      [Recomputing(first, Some(cfg), 0.0), Recomputing(x, Some(cfg), 0.0)], digest, Some(plan), x, Some(cfg), 0.0, plan)
  {
    var plans, events := [None, Some(plan), Some(plan)],
      [Recomputing(first, Some(cfg), 0.0), Recomputing(x, Some(cfg), 0.0)];
    assert first.now <= x.now;
    hide *;
    NoPlanIsTidy();
    QuietRecompute(None, first, cfg, plan);
    QuietRecompute(Some(plan), x, cfg, plan);
    TwoSteps(plans, events);
    LastOfTwo(plans, events, digest, x, Some(cfg));
  }

  lemma LastOfTwo(
    plans: seq<Option<Schedule>>, events: seq<PlanEvent>, digest: string -> string, x: Inputs, cfg: Option<Config>)
    requires |plans| == 3 && |events| == 2 && QuietRun(plans, events) && Forward(events) && Cache.Collisionless(digest)
    requires events[0].Recomputing? && events[1] == Recomputing(x, cfg, 0.0) && plans[2].Some?
    requires !Unchanged(x, cfg) && x.hasCharger && x.accepts && x.now - events[0].x.now >= Cache.PROFILE_COOLDOWN
    ensures EndsInSend(plans, events, digest, plans[1], x, cfg, 0.0, plans[2].value)
  {
    hide Unchanged, QuietRun, Forward, Cache.Collisionless, Cache.Cooling, Cache.HeldHash, Cache.HashOf, Cache.Run,
      SendsOf;
    SentOnce(plans[..2], events[..1], digest, x.now);
  }

  lemma QuietRecompute(prev: Option<Schedule>, x: Inputs, cfg: Config, plan: Schedule)
    requires GoesThrough(prev, x, Some(cfg), 0.0, Some(plan))
    requires Loaded(x) && PicksOnce(x, cfg, 0.0) && Undisturbed(prev, x, cfg)
    ensures PlanStep(prev, Recomputing(x, Some(cfg), 0.0), Some(plan))
    ensures Quiet(prev, Recomputing(x, Some(cfg), 0.0)) && !Unchanged(x, Some(cfg))
  {
    hide Recomputed, Unchanged, Loaded, PicksOnce, Undisturbed, GoodInputs;
  }

  lemma TwoSteps(plans: seq<Option<Schedule>>, events: seq<PlanEvent>)
    requires |plans| == 3 && |events| == 2 && TidyPlan(plans[0])
    requires PlanStep(plans[0], events[0], plans[1]) && PlanStep(plans[1], events[1], plans[2])
    requires Quiet(plans[0], events[0]) && Quiet(plans[1], events[1])
    requires events[0].Recomputing? && events[1].Recomputing? && events[0].x.now <= events[1].x.now
    ensures QuietRun(plans, events) && Forward(events)
  {
    hide PlanStep, Quiet, TidyPlan;
  }

  lemma NothingRuns(x: Inputs, cfg: Config)
    ensures Undisturbed(None, x, cfg)
  {
  }

  /** The running window is still in the table, so nothing disturbs it, and it is kept. */
  lemma NextRecompute(o: Override, now: int, deadlineOfDay: int)
    requires o.kind == Force && o.power > 0.0 && o.window.Covers(now) && TimeOfDay(deadlineOfDay)
    ensures
      var plan, cfg, x := Some(Planned(o, deadlineOfDay)), Cases.Idle(deadlineOfDay), Charger(o, now);
      && GoesThrough(plan, x, Some(cfg), 0.0, plan) && Loaded(x) && PicksOnce(x, cfg, 0.0)
      && Undisturbed(plan, x, cfg) && ChargeTime(plan, now) && Wanted(plan, x, cfg, o)
  {
    var plan, x, cfg := Some(Planned(o, deadlineOfDay)), Charger(o, now), Cases.Idle(deadlineOfDay);
    FirstInputsAreGood(x, cfg, o);
    RunningIsWanted(o, now, deadlineOfDay);
    NextIsRecomputed(o, now, deadlineOfDay);
    hide *;
    Through(plan, x, cfg, plan);
  }

  lemma Through(prev: Option<Schedule>, x: Inputs, cfg: Config, next: Option<Schedule>)
    requires Recomputed(prev, x, Some(cfg), 0.0, next) && !Unchanged(x, Some(cfg))
    requires GoodInputs(x.rates, x.overrides, cfg)
    ensures GoesThrough(prev, x, Some(cfg), 0.0, next)
  {
    hide Recomputed, Unchanged, GoodInputs;
  }

  lemma NextIsRecomputed(o: Override, now: int, deadlineOfDay: int)
    requires o.kind == Force && o.power > 0.0 && o.window.Covers(now) && TimeOfDay(deadlineOfDay)
    ensures var plan := Some(Planned(o, deadlineOfDay));
      Recomputed(plan, Charger(o, now), Some(Cases.Idle(deadlineOfDay)), 0.0, plan)
  {
    var plan, x, cfg := Some(Planned(o, deadlineOfDay)), Charger(o, now), Cases.Idle(deadlineOfDay);
    var p, d := ForcePeriod(o, []), Planner.NextDeadlineAfter(o.window.start, deadlineOfDay);
    ForceBounds(o, []);
    FirstInputsAreGood(x, cfg, o);
    assert plan.value == Cases.Alone(DateOf(d), d, p);
    Cases.OnlyForce(o);
    assert !Unchanged(Cases.With(o, now), Some(cfg));
    hide ForcePeriod, Unchanged, GoodInputs, NeverTwice, Planner.NextDeadlineAfter, DateOf, Recomputed, Planned,
      ForcesOf, Cases.Alone;
    Cases.AloneRunning(DateOf(d), d, p, o, now, deadlineOfDay);
    SameRecompute(plan, Cases.With(o, now), x, Some(cfg), plan);
  }

  lemma RunningIsWanted(o: Override, now: int, deadlineOfDay: int)
    requires o.kind == Force && o.power > 0.0 && o.window.Covers(now) && TimeOfDay(deadlineOfDay)
    ensures
      var plan, cfg, x := Some(Planned(o, deadlineOfDay)), Cases.Idle(deadlineOfDay), Charger(o, now);
      && Undisturbed(plan, x, cfg) && ChargeTime(plan, now) && Wanted(plan, x, cfg, o)
  {
    var plan, x, cfg := Some(Planned(o, deadlineOfDay)), Charger(o, now), Cases.Idle(deadlineOfDay);
    var p, d := ForcePeriod(o, []), Planner.NextDeadlineAfter(o.window.start, deadlineOfDay);
    ForceBounds(o, []);
    NextDeadlineIsFirst(o.window.start, deadlineOfDay, d);
    assert plan.value == Cases.Alone(DateOf(d), d, p);
    hide ForcePeriod, Planner.NextDeadlineAfter, DateOf, IsDeadline, Planned, Cases.Alone;
    RunningAlone(DateOf(d), d, p, x);
    assert InTable(p, x.overrides);
    assert Delivers(p, o) && [p][..1] == [p];
    assert Delivered([p][..1], o);
    hide ChargeTime, RunningAt, CancelledDate, Delivered;
  }

  lemma RunningAlone(date: int, deadline: int, p: Period, x: Inputs)
    requires Running(p, x.now)
    ensures var plan := Some(Cases.Alone(date, deadline, p));
      && ChargeTime(plan, x.now) && SlotsIn(plan) == [Cases.Filled(date, deadline, [p])]
      && (forall k, i :: RunningAt(plan, x.now, k, i) ==> k == 0 && i == 0)
      && (forall d :: !CancelledDate(plan, d))
  {
    var plan := Some(Cases.Alone(date, deadline, p));
    assert SlotRunning(SlotsIn(plan)[0], x.now) by { assert Running(SlotsIn(plan)[0].periods[0], x.now); }
  }

  /** A recompute does not depend on whether the charger takes profiles. */
  lemma SameRecompute(
    prev: Option<Schedule>, y: Inputs, x: Inputs, cfg: Option<Config>, next: Option<Schedule>)
    requires Recomputed(prev, y, cfg, 0.0, next) && !Unchanged(y, cfg) && !Unchanged(x, cfg)
    requires x == y.(hasCharger := true, accepts := true)
    ensures Recomputed(prev, x, cfg, 0.0, next)
  {
    assert cfg.Some?;
    hide Unchanged, Base, Marked, MergedInto, FirstRunningSlot;
    var c := Fresh(cfg.value, x.soc);
    var base :| Base(y, c, ChargePower(c, 0.0), base) && Replaced(prev, y, base, next);
    SameBase(y, x, c, ChargePower(c, 0.0), base);
  }

  lemma SentOnce(plans: seq<Option<Schedule>>, events: seq<PlanEvent>, digest: string -> string, later: int)
    requires |plans| == 2 && |events| == 1 && events[0].Recomputing?
    requires later - events[0].x.now >= Cache.PROFILE_COOLDOWN
    ensures !Cache.Cooling(Cache.Run(SendsOf(plans, events), digest).sentAt, later)
  {
    var sends := Sends(events[0], plans[1]);
    assert plans[..1] == [plans[0]] && events[..0] == [];
    assert SendsOf(plans, events) == sends by { hide Sends; }
    OnlyApplies(events[0], plans[1]);
    hide *;
    FirstSend(sends, digest, events[0].x.now, later);
  }

  lemma OnlyApplies(e: PlanEvent, next: Option<Schedule>)
    requires e.Recomputing?
    ensures |Sends(e, next)| <= 1
    ensures Sends(e, next) != [] ==> Sends(e, next)[0].Apply? && Sends(e, next)[0].now == e.x.now
  {
    hide Unchanged;
  }

  /** The first send, if any, was made then. */
  lemma FirstSend(sends: seq<Cache.SendEvent>, digest: string -> string, now: int, later: int)
    requires |sends| <= 1 && (sends != [] ==> sends[0].Apply? && sends[0].now == now)
    requires later - now >= Cache.PROFILE_COOLDOWN
    ensures !Cache.Cooling(Cache.Run(sends, digest).sentAt, later)
  {
    hide Cache.HashOf;
    if sends != [] {
      assert sends[..0] == [];
      assert Cache.Run(sends, digest) == Cache.Step(Cache.INITIAL, sends[0], digest);
    }
  }

  /** What the last step of such a run is. */
  lemma LastGoesThrough(
    plans: seq<Option<Schedule>>, events: seq<PlanEvent>, digest: string -> string,
    prev: Option<Schedule>, x: Inputs, cfg: Config, live: real, next: Schedule)
    requires EndsInSend(plans, events, digest, prev, x, Some(cfg), live, next)
    ensures GoesThrough(prev, x, Some(cfg), live, Some(next)) && Ordered(ActiveOf(next.slots)) && TidyPlan(prev)
  {
    var n := |events| - 1;
    RunSize(plans, events);
    hide QuietRun, TidyPlan, Ordered, ActiveOf, Recomputed, Unchanged, GoodInputs, Loaded, PicksOnce, Undisturbed;
    StepOfRun(plans, events, n);
    QuietRunsStayTidy(plans, events, n);
    QuietRunsStayTidy(plans, events, n + 1);
  }

  /**
   Over every such run, throughout what is left of a wanted window the charger holds a profile that
   allows a power rounding to the forced one.
   */
  lemma ForcedWindowsHoldOverRuns(
    plans: seq<Option<Schedule>>, events: seq<PlanEvent>, digest: string -> string,
    prev: Option<Schedule>, x: Inputs, cfg: Config, live: real, next: Schedule, o: Override, t: int)
    requires |plans| == |events| + 1 && EndsInSend(plans, events, digest, prev, x, Some(cfg), live, next)
    requires Wanted(prev, x, cfg, o) && o.window.Covers(t) && x.now <= t
    ensures var a := Cache.Run(SendsOf(plans, events), digest).accepted;
      && a.Some? && ActiveOf(a.value.plan.slots) != []
      && var limit := LimitAt(Compile(ActiveOf(a.value.plan.slots)), t);
         limit.Some? && RoundToEven(limit.value) == RoundToEven(o.power)
  {
    hide *;
    LastGoesThrough(plans, events, digest, prev, x, cfg, live, next);
    WantedHasFuture(prev, x, cfg, live, next, o, t);
    SendIsApplied(plans, events, digest, prev, x, Some(cfg), live, next);
    ForcedWindowsReachTheCharger(SendsOf(plans, events), digest, prev, x, Some(cfg), live, Some(next), o, t);
  }

  lemma WantedHasFuture(
    prev: Option<Schedule>, x: Inputs, cfg: Config, live: real, next: Schedule, o: Override, t: int)
    requires GoesThrough(prev, x, Some(cfg), live, Some(next)) && Ordered(ActiveOf(next.slots))
    requires Wanted(prev, x, cfg, o) && o.window.Covers(t) && x.now <= t
    ensures FutureText(next, x.now) != ""
  {
    ForceIsPlanned(prev, x, Some(cfg), live, Some(next), o);
    assert SlotsIn(Some(next)) == next.slots;
    var p :| p in ActiveOf(next.slots) && Delivers(p, o);
    assert p.Covers(t);
    hide *;
    ActiveHasFuture(next, p, x.now, t);
  }

  /** The same for any period of the plan. */
  lemma PlanHoldsOverRuns(
    plans: seq<Option<Schedule>>, events: seq<PlanEvent>, digest: string -> string,
    prev: Option<Schedule>, x: Inputs, cfg: Config, live: real, next: Schedule, p: Period, t: int)
    requires |plans| == |events| + 1 && EndsInSend(plans, events, digest, prev, x, Some(cfg), live, next)
    requires p in ActiveOf(next.slots) && p.Covers(t) && x.now <= t
    ensures var a := Cache.Run(SendsOf(plans, events), digest).accepted;
      && a.Some? && ActiveOf(a.value.plan.slots) != []
      && var limit := LimitAt(Compile(ActiveOf(a.value.plan.slots)), t);
         limit.Some? && RoundToEven(limit.value) == RoundToEven(p.value.power)
  {
    hide *;
    LastGoesThrough(plans, events, digest, prev, x, cfg, live, next);
    ActiveHasFuture(next, p, x.now, t);
    SendIsApplied(plans, events, digest, prev, x, Some(cfg), live, next);
    HeldAfterApply(SendsOf(plans, events), digest, next, x.now);
    HeldLimit(Cache.Run(SendsOf(plans, events), digest).accepted.value, next, x.now, p, t);
  }

  lemma ActiveHasFuture(next: Schedule, p: Period, now: int, t: int)
    requires Ordered(ActiveOf(next.slots)) && p in ActiveOf(next.slots) && p.Covers(t) && now <= t
    ensures FutureText(next, now) != ""
  {
    var ps := ActiveOf(next.slots);
    hide ActiveOf, Text, Remaining, Ordered;
    Cache.FirstRemaining(ps, now, p, t);
    TextEmpty(Remaining(ps, now));
  }

  /**
   So a recompute made while a slot runs, whatever prices and settings it finds, leaves the charger with the
   running period's power until that period ends.
   */
  lemma RunningPeriodHoldsOverRuns(
    plans: seq<Option<Schedule>>, events: seq<PlanEvent>, digest: string -> string,
    prev: Option<Schedule>, x: Inputs, cfg: Config, live: real, next: Schedule, k: int, i: int, t: int)
    requires |plans| == |events| + 1 && EndsInSend(plans, events, digest, prev, x, Some(cfg), live, next)
    requires RunningAt(prev, x.now, k, i) && x.now <= t < SlotsIn(prev)[k].periods[i].end
    ensures var a := Cache.Run(SendsOf(plans, events), digest).accepted;
      && a.Some? && ActiveOf(a.value.plan.slots) != []
      && var limit := LimitAt(Compile(ActiveOf(a.value.plan.slots)), t);
         limit.Some? && RoundToEven(limit.value) == RoundToEven(SlotsIn(prev)[k].periods[i].value.power)
  {
    var p := SlotsIn(prev)[k].periods[i];
    assert Running(p, x.now) && p.Covers(t) && SlotsIn(Some(next)) == next.slots;
    LastGoesThrough(plans, events, digest, prev, x, cfg, live, next);
    RunningPeriodSurvives(prev, x, Some(cfg), live, Some(next), k, i);
    hide *;
    PlanHoldsOverRuns(plans, events, digest, prev, x, cfg, live, next, p, t);
  }

  /**
   And throughout what is left of a blocked window, but for a leftover of the running slot, one that allows
   nothing from its start to its end.
   */
  lemma BlockedWindowsHoldOverRuns(
    plans: seq<Option<Schedule>>, events: seq<PlanEvent>, digest: string -> string,
    prev: Option<Schedule>, x: Inputs, cfg: Config, live: real, next: Schedule, o: Override, t: int)
    requires |plans| == |events| + 1 && EndsInSend(plans, events, digest, prev, x, Some(cfg), live, next)
    requires o in x.overrides && o.kind == Block && o.window.Covers(t) && x.now <= t
    requires FutureText(next, x.now) != "" && !Leftover(prev, x, cfg, live, t)
    ensures var a := Cache.Run(SendsOf(plans, events), digest).accepted;
      && a.Some? && ActiveOf(a.value.plan.slots) != []
      && var profile := Compile(ActiveOf(a.value.plan.slots));
         LimitAt(profile, t) == if profile.start <= t < profile.validTo then Some(0.0) else None
  {
    hide *;
    LastGoesThrough(plans, events, digest, prev, x, cfg, live, next);
    SendIsApplied(plans, events, digest, prev, x, Some(cfg), live, next);
    BlockedWindowsReachTheCharger(SendsOf(plans, events), digest, prev, x, Some(cfg), live, Some(next), o, t);
  }

  /**
   From now on a leftover of a chronological slot is the running period, or any period of the slot when
   the recompute finds no force and nothing worth planning.
   */
  lemma LeftoverIsTheRunningPeriod(
    prev: Option<Schedule>, x: Inputs, cfg: Config, live: real, k: int, i: int, t: int)
    requires RunningAt(prev, x.now, k, i) && Ordered(SlotsIn(prev)[k].periods) && x.now <= t
    ensures Leftover(prev, x, cfg, live, t) <==>
      if NothingElse(x, cfg, live) then Covered(SlotsIn(prev)[k].periods, t) else SlotsIn(prev)[k].periods[i].Covers(t)
  {
    OnlyRunningAt(prev, x.now, k, i);
    var ps := SlotsIn(prev)[k].periods;
    assert ps[..i + 1][i] == ps[i] && ps[i].Covers(x.now);
    hide NothingElse;
    assert forall p: Period :: p in ps[..i + 1] && p.Covers(t) ==> p == ps[i];
    assert Leftover(prev, x, cfg, live, t) <==>
      exists p :: p in Left(SlotsIn(prev)[k], i, NothingElse(x, cfg, live)) && p.Covers(t);
  }
}
