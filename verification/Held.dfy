/** Whether the charger's profile still has the plan's future, event by event (scheduler.go). */
module Held {
  import opened Arithmetic
  import opened Spans
  import opened Plan
  import opened Profile
  import opened Fingerprint
  import opened OverrideTable
  import opened Selection
  import opened Planner
  import opened Forces
  import opened Pipeline
  import opened Merge
  import opened Recompute
  import opened EndToEnd
  import opened Scheduling
  import opened Runs
  import Cache = ProfileCache
  import Cases = Disturbances

  /** What the plan still asks for at `t`, as hashed; empty when nothing is left or there is no plan. */
  ghost function FutureOf(plan: Option<Schedule>, t: int): string {
    if plan.None? then "" else FutureText(plan.value, t)
  }

  /** What the held profile still allows at `t`, in the same terms. */
  ghost function HeldFuture(s: Cache.Sender, t: int): string {
    if s.accepted.None? then "" else FutureText(s.accepted.value.plan, t)
  }

  ghost predicate InStep(s: Cache.Sender, plan: Option<Schedule>, t: int) { HeldFuture(s, t) == FutureOf(plan, t) }

  lemma InStepLater(s: Cache.Sender, plan: Option<Schedule>, t: int, u: int)
    requires InStep(s, plan, t) && t <= u
    ensures InStep(s, plan, u)
  {
    var a := if s.accepted.None? then [] else ActiveOf(s.accepted.value.plan.slots);
    FuturesStayEqual(a, ActiveOf(SlotsIn(plan)), t, u);
  }

  // ----- what being in step is worth -----

  /**
   Of two chronological plans in step, the held profile allows the current plan's powers, to the watt,
   and nothing where the plan asks for nothing.
   */
  lemma InStepLimits(s: Cache.Sender, plan: Option<Schedule>, t: int, p: Period)
    requires InStep(s, plan, t) && FutureOf(plan, t) != "" && Ordered(ActiveOf(SlotsIn(plan)))
    requires s.accepted.Some? ==> Ordered(ActiveOf(s.accepted.value.plan.slots))
    ensures s.accepted.Some? && ActiveOf(s.accepted.value.plan.slots) != []
    ensures var profile := Compile(ActiveOf(s.accepted.value.plan.slots));
      && (p in ActiveOf(SlotsIn(plan)) && p.Covers(t) ==>
            && LimitAt(profile, t).Some?
            && RoundToEven(LimitAt(profile, t).value) == RoundToEven(p.value.power))
      && ((forall q :: q in ActiveOf(SlotsIn(plan)) ==> !q.Covers(t)) ==>
            LimitAt(profile, t) == if profile.start <= t < profile.validTo then Some(0.0) else None)
  {
    var held := Cache.Accepted(s.accepted.value.plan, t);
    assert FutureText(held.plan, held.at) == FutureText(plan.value, t) != "";
    assert ActiveOf(SlotsIn(plan)) == ActiveOf(plan.value.slots);
    Cache.SameFutureText(held, plan.value, t);
    hide *;
    if p in ActiveOf(plan.value.slots) && p.Covers(t) { HeldLimit(held, plan.value, t, p, t); }
    if forall q :: q in ActiveOf(plan.value.slots) ==> !q.Covers(t) {
      NoneCovers(ActiveOf(plan.value.slots), t);
      Cache.HeldIsIdle(held, plan.value, t, t);
    }
  }

  // ----- one event -----

  ghost function After(s: Cache.Sender, sends: seq<Cache.SendEvent>, digest: string -> string): Cache.Sender {
    if sends == [] then s else Cache.Step(After(s, sends[..|sends| - 1], digest), sends[|sends| - 1], digest)
  }

  /** The plan has something left and the charger gets it now, or is known to have it. */
  ghost predicate Reaches(s: Cache.Sender, x: Inputs, plan: Schedule, digest: string -> string) {
    var hash := Cache.HashOf(plan, x.now, digest);
    && x.hasCharger && hash != ""
    && (hash == s.hash || (x.accepts && !Cache.Cooling(s.sentAt, x.now)))
  }

  /** Events after which the charger is in step whatever it held. */
  ghost predicate Restores(s: Cache.Sender, e: PlanEvent, next: Option<Schedule>, digest: string -> string) {
    match e
    case Recomputing(x, cfg, _) => !Unchanged(x, cfg) && next.Some? && Reaches(s, x, next.value, digest)
    case Clearing(obeys) => s.hash != "" && obeys
    case _ => false
  }

  /** `t` is no earlier than the event, nor the event than the last send. */
  ghost predicate InTime(s: Cache.Sender, e: PlanEvent, t: int) {
    match e
    case Recomputing(x, _, _) => x.now <= t && (s.accepted.Some? ==> s.accepted.value.at <= x.now)
    case Restarting(now) => now <= t
    case _ => true
  }

  /** A plan that reaches the charger, or is known to be there, is what it holds from then on. */
  lemma ReachedIsInStep(s: Cache.Sender, x: Inputs, plan: Schedule, digest: string -> string, t: int)
    requires Cache.Faithful(s, digest) && Cache.Collisionless(digest) && Reaches(s, x, plan, digest)
    requires s.accepted.Some? ==> s.accepted.value.at <= x.now
    requires x.now <= t
    ensures InStep(Cache.Step(s, Cache.Apply(plan, x.now, x.hasCharger, x.accepts), digest), Some(plan), t)
  {
    var after := Cache.Step(s, Cache.Apply(plan, x.now, x.hasCharger, x.accepts), digest);
    var hash := Cache.HashOf(plan, x.now, digest);
    if hash == s.hash {
      assert after == s;
      var a := s.accepted.value;
      assert FutureText(a.plan, a.at) == FutureText(plan, x.now);
      hide Cache.Faithful, Cache.HashOf, Cache.Collisionless;
      FutureUnended(ActiveOf(a.plan.slots), a.at, ActiveOf(plan.slots), x.now);
      FuturesStayEqual(ActiveOf(a.plan.slots), ActiveOf(plan.slots), x.now, t);
    } else {
      assert after.accepted == Some(Cache.Accepted(plan, x.now));
    }
  }

  /**
   After one event, whatever the charger held: it is in step exactly if the event restores that, or what
   it holds then has the future of the plan then.
   */
  lemma InStepAfter(
    s: Cache.Sender, e: PlanEvent, next: Option<Schedule>, t: int, digest: string -> string)
    requires Cache.Faithful(s, digest) && Cache.Collisionless(digest) && InTime(s, e, t) && (e.Clearing? ==> next.None?)
    ensures InStep(After(s, Sends(e, next), digest), next, t) <==>
      Restores(s, e, next, digest) || (if e.Booting? then "" else HeldFuture(s, t)) == FutureOf(next, t)
  {
    OneSend(s, e, next, digest);
    hide FutureText, After, Cache.Faithful, Cache.Collisionless, Unchanged;
    if e.Recomputing? && !Unchanged(e.x, e.cfg) && next.Some? && Reaches(s, e.x, next.value, digest) {
      hide Cache.Step, Reaches;
      ReachedIsInStep(s, e.x, next.value, digest, t);
    }
  }

  lemma OneSend(s: Cache.Sender, e: PlanEvent, next: Option<Schedule>, digest: string -> string)
    ensures After(s, Sends(e, next), digest) ==
      if Sends(e, next) == [] then s else Cache.Step(s, Sends(e, next)[0], digest)
  {
    var sends := Sends(e, next);
    if sends != [] { assert sends[..0] == []; }
    hide Cache.Step;
  }

  // ----- staying in step -----

  /** The switched slot has nothing left. */
  ghost predicate NothingSwitched(prev: Option<Schedule>, date: int, cancelled: bool, t: int) {
    forall k :: Switches(SlotsIn(prev), date, cancelled, k) ==> Remaining(SlotsIn(prev)[k].periods, t) == []
  }

  lemma SwitchChangesFuture(slots: seq<Slot>, k: nat, cancelled: bool, t: int)
    requires k < |slots| && slots[k].cancelled != cancelled
    ensures Text(Remaining(ActiveOf(Switched(slots, k, cancelled)), t)) == Text(Remaining(ActiveOf(slots), t)) <==>
      Remaining(slots[k].periods, t) == []
  {
    var a, b, slot := slots[..k], slots[k + 1..], slots[k];
    var other := slot.(cancelled := cancelled);
    assert slots == a + [slot] + b && Switched(slots, k, cancelled) == a + [other] + b;
    hide *;
    ActiveAround(a, slot, b);
    ActiveAround(a, other, b);
    NothingBetween(ActiveOf(a), ActiveOf(b));
    CutChangesFuture(ActiveOf(a), slot.periods, ActiveOf(b), t);
  }

  lemma ActiveAround(a: seq<Slot>, slot: Slot, b: seq<Slot>)
    ensures ActiveOf(a + [slot] + b) == ActiveOf(a) + (if slot.cancelled then [] else slot.periods) + ActiveOf(b)
  {
    ActiveConcat(a + [slot], b);
    ActiveConcat(a, [slot]);
    assert [slot][..0] == [];
  }

  lemma OnlyOneSwitches(slots: seq<Slot>, date: int, cancelled: bool, j: int, k: int)
    requires Switches(slots, date, cancelled, j) && Switches(slots, date, cancelled, k)
    ensures j == k
  {
  }

  /** Which events a plan survives without its future changing. */
  ghost predicate SameFuture(prev: Option<Schedule>, e: PlanEvent, next: Option<Schedule>, t: int) {
    match e
    case Recomputing(_, _, _) => FutureOf(next, t) == FutureOf(prev, t)
    case Switching(date, cancelled, found) => found ==> NothingSwitched(prev, date, cancelled, t)
    case Clearing(_) => FutureOf(prev, t) == ""
    case Booting => true
    case Restarting(_) => true
  }

  lemma SameFutureExactly(prev: Option<Schedule>, e: PlanEvent, next: Option<Schedule>, t: int)
    requires PlanStep(prev, e, next) && (e.Restarting? ==> e.now <= t)
    ensures FutureOf(next, t) == FutureOf(prev, t) <==> SameFuture(prev, e, next, t)
  {
    hide Recomputed, Text, Remaining, ActiveOf, LiveSlots;
    match e
    case Switching(date, cancelled, found) =>
      if found { SwitchExactly(prev, date, cancelled, next, t); }
    case Restarting(now) => RestartKeepsFuture(prev, now, t);
    case _ =>
  }

  lemma SwitchExactly(prev: Option<Schedule>, date: int, cancelled: bool, next: Option<Schedule>, t: int)
    requires SwitchedPlan(prev, date, cancelled, next, true)
    ensures FutureOf(next, t) == FutureOf(prev, t) <==> NothingSwitched(prev, date, cancelled, t)
  {
    var slots := SlotsIn(prev);
    var k :| Switches(slots, date, cancelled, k) && next.value.slots == Switched(slots, k, cancelled);
    SwitchChangesFuture(slots, k, cancelled, t);
    forall j | Switches(slots, date, cancelled, j)
      ensures j == k
    {
      OnlyOneSwitches(slots, date, cancelled, j, k);
    }
    hide Text, Remaining, ActiveOf, Switches;
  }

  lemma RestartKeepsFuture(prev: Option<Schedule>, now: int, t: int)
    requires now <= t
    ensures FutureOf(Restored(prev, now), t) == FutureOf(prev, t)
  {
    var slots := SlotsIn(prev);
    RestartKeepsRemaining(slots, now);
    RemainingLater(ActiveOf(slots), now, t);
    RemainingLater(ActiveOf(LiveSlots(slots, now)), now, t);
    assert LiveSlots(slots, now) == [] ==> ActiveOf(LiveSlots(slots, now)) == [];
  }

  /** The event restores what the charger holds, or leaves the plan's future as it was and wipes nothing left of it. */
  ghost predicate Keeps(
    s: Cache.Sender, prev: Option<Schedule>, e: PlanEvent, next: Option<Schedule>, t: int, digest: string -> string) {
    || Restores(s, e, next, digest)
    || (SameFuture(prev, e, next, t) && (e.Booting? ==> FutureOf(prev, t) == ""))
  }

  /**
   A charger in step before an event is in step after it exactly when the event keeps it so: a recompute
   that reaches the charger or leaves the plan's future as it was, a switch of a slot with nothing left, a clear
   that is sent and obeyed or of a plan with nothing left, a boot with nothing left, any restart.
   */
  lemma StaysInStep(
    s: Cache.Sender, prev: Option<Schedule>, e: PlanEvent, next: Option<Schedule>, t: int, digest: string -> string)
    requires Cache.Faithful(s, digest) && Cache.Collisionless(digest) && InTime(s, e, t)
    requires PlanStep(prev, e, next) && InStep(s, prev, t)
    ensures InStep(After(s, Sends(e, next), digest), next, t) <==> Keeps(s, prev, e, next, t, digest)
  {
    SameFutureExactly(prev, e, next, t);
    InStepAfter(s, e, next, t, digest);
    assert e.Booting? ==> next == prev;
    hide After, Restores, SameFuture, PlanStep, Cache.Faithful, Cache.Collisionless, FutureOf, HeldFuture;
  }

  // ----- runs -----

  /** The sender after the first i events. */
  ghost function SenderAt(
    plans: seq<Option<Schedule>>, events: seq<PlanEvent>, i: nat, digest: string -> string): Cache.Sender
    requires |plans| == |events| + 1 && i <= |events|
  {
    Cache.Run(SendsOf(plans[..i + 1], events[..i]), digest)
  }

  lemma RunAfter(before: seq<Cache.SendEvent>, last: seq<Cache.SendEvent>, digest: string -> string)
    requires |last| <= 1
    ensures Cache.Run(before + last, digest) == After(Cache.Run(before, digest), last, digest)
  {
    if last == [] {
      assert before + last == before;
    } else {
      assert (before + last)[..|before|] == before && last[..0] == [];
      Cache.RunLast(before + last, digest);
      hide Cache.Step;
    }
  }

  lemma SenderStep(plans: seq<Option<Schedule>>, events: seq<PlanEvent>, i: nat, digest: string -> string)
    requires |plans| == |events| + 1 && i < |events|
    ensures SenderAt(plans, events, i + 1, digest) ==
      After(SenderAt(plans, events, i, digest), Sends(events[i], plans[i + 1]), digest)
  {
    var ps, es := plans[..i + 2], events[..i + 1];
    assert ps[..i + 1] == plans[..i + 1] && es[..i] == events[..i];
    LastSend(ps, es);
    hide Cache.Run, After, Sends, SendsOf;
    RunAfter(SendsOf(plans[..i + 1], events[..i]), Sends(events[i], plans[i + 1]), digest);
  }

  /** `t` is no earlier than any event. */
  ghost predicate Before(events: seq<PlanEvent>, t: int) {
    forall i :: 0 <= i < |events| ==>
      (events[i].Recomputing? ==> events[i].x.now <= t) && (events[i].Restarting? ==> events[i].now <= t)
  }

  lemma RunInTime(plans: seq<Option<Schedule>>, events: seq<PlanEvent>, i: nat, t: int, digest: string -> string)
    requires |plans| == |events| + 1 && i < |events| && Forward(events) && Before(events, t)
    ensures InTime(SenderAt(plans, events, i, digest), events[i], t)
  {
    var sends := SendsOf(plans[..i + 1], events[..i]);
    var a := Cache.Run(sends, digest).accepted;
    if events[i].Recomputing? && a.Some? {
      Cache.RunIsFaithful(sends, digest);
      hide Cache.Run, SendsOf;
      var k :| 0 <= k < |sends| && Cache.HeldFrom(a.value, sends[k]);
      var j := SendsComeFrom(plans[..i + 1], events[..i], k);
      assert events[..i][j] == events[j];
    }
  }

  /** Event by event, over every run: whether a charger in step before an event is in step after it. */
  lemma RunStaysInStep(
    plans: seq<Option<Schedule>>, events: seq<PlanEvent>, i: nat, t: int, digest: string -> string)
    requires PlanRun(plans, events) && Forward(events) && Before(events, t) && Cache.Collisionless(digest)
    requires i < |events| && |plans| == |events| + 1 && InStep(SenderAt(plans, events, i, digest), plans[i], t)
    ensures InStep(SenderAt(plans, events, i + 1, digest), plans[i + 1], t) <==>
      Keeps(SenderAt(plans, events, i, digest), plans[i], events[i], plans[i + 1], t, digest)
  {
    var s := SenderAt(plans, events, i, digest);
    assert PlanStep(plans[i], events[i], plans[i + 1]);
    Cache.RunIsFaithful(SendsOf(plans[..i + 1], events[..i]), digest);
    assert Cache.Faithful(s, digest);
    hide *;
    RunInTime(plans, events, i, t, digest);
    SenderStep(plans, events, i, digest);
    StaysInStep(s, plans[i], events[i], plans[i + 1], t, digest);
  }

  /** Over every run: a charger once in step stays so while every event keeps it so. */
  lemma {:induction false} InStepOverRuns(
    plans: seq<Option<Schedule>>, events: seq<PlanEvent>, from: nat, i: nat, t: int, digest: string -> string)
    requires PlanRun(plans, events) && Forward(events) && Before(events, t) && Cache.Collisionless(digest)
    requires from <= i <= |events| && |plans| == |events| + 1
    requires InStep(SenderAt(plans, events, from, digest), plans[from], t)
    requires forall j :: from <= j < i ==>
      Keeps(SenderAt(plans, events, j, digest), plans[j], events[j], plans[j + 1], t, digest)
    ensures InStep(SenderAt(plans, events, i, digest), plans[i], t)
  {
    hide *;
    if from < i {
      InStepOverRuns(plans, events, from, i - 1, t, digest);
      RunStaysInStep(plans, events, i - 1, t, digest);
    }
  }

  // ----- the plan last sent -----

  /** A recompute that sends its plan. */
  ghost predicate SendsPlan(s: Cache.Sender, e: PlanEvent, next: Option<Schedule>, digest: string -> string) {
    && e.Recomputing? && !Unchanged(e.x, e.cfg) && next.Some? && e.x.hasCharger && e.x.accepts
    && var hash := Cache.HashOf(next.value, e.x.now, digest);
       hash != "" && hash != s.hash && !Cache.Cooling(s.sentAt, e.x.now)
  }

  /** The index of the plan last sent and not wiped since by a boot or an obeyed clear. */
  ghost function LastSent(
    plans: seq<Option<Schedule>>, events: seq<PlanEvent>, i: nat, digest: string -> string): Option<nat>
    requires |plans| == |events| + 1 && i <= |events|
  {
    if i == 0 then None
    else
      var e := events[i - 1];
      if SendsPlan(SenderAt(plans, events, i - 1, digest), e, plans[i], digest) then Some(i)
      else if e.Booting? || (e.Clearing? && e.obeys && SenderAt(plans, events, i - 1, digest).hash != "") then None
      else LastSent(plans, events, i - 1, digest)
  }

  /** What the charger holds is the plan last sent. */
  ghost predicate HoldsLastSent(
    plans: seq<Option<Schedule>>, events: seq<PlanEvent>, i: nat, digest: string -> string)
    requires |plans| == |events| + 1 && i <= |events|
  {
    var a, last := SenderAt(plans, events, i, digest).accepted, LastSent(plans, events, i, digest);
    && (last.None? ==> a.None?)
    && (last.Some? ==> last.value <= i && a.Some? && plans[last.value] == Some(a.value.plan))
  }

  lemma SendsSome(s: Cache.Sender, e: PlanEvent, next: Option<Schedule>, digest: string -> string)
    ensures SendsPlan(s, e, next, digest) ==> e.Recomputing? && next.Some?
  {
  }

  lemma HeldStep(s: Cache.Sender, e: PlanEvent, next: Option<Schedule>, digest: string -> string)
    ensures After(s, Sends(e, next), digest).accepted ==
      if SendsPlan(s, e, next, digest) then Some(Cache.Accepted(next.value, e.x.now))
      else if e.Booting? || (e.Clearing? && e.obeys && s.hash != "") then None
      else s.accepted
  {
    OneSend(s, e, next, digest);
    hide Cache.HashOf, Cache.Cooling, Unchanged, After;
  }

  lemma HoldsLastSentStep(
    plans: seq<Option<Schedule>>, events: seq<PlanEvent>, i: nat, digest: string -> string)
    requires |plans| == |events| + 1 && 0 < i <= |events| && HoldsLastSent(plans, events, i - 1, digest)
    ensures HoldsLastSent(plans, events, i, digest)
  {
    hide SenderAt, SendsPlan, After, Sends;
    var s, e := SenderAt(plans, events, i - 1, digest), events[i - 1];
    SenderStep(plans, events, i - 1, digest);
    HeldStep(s, e, plans[i], digest);
    SendsSome(s, e, plans[i], digest);
  }

  lemma NothingSentYet(plans: seq<Option<Schedule>>, events: seq<PlanEvent>, digest: string -> string)
    requires |plans| == |events| + 1
    ensures HoldsLastSent(plans, events, 0, digest) && SenderAt(plans, events, 0, digest) == Cache.INITIAL
  {
    assert events[..0] == [] && SendsOf(plans[..1], events[..0]) == [];
  }

  lemma {:induction false} HeldIsLastSent(
    plans: seq<Option<Schedule>>, events: seq<PlanEvent>, i: nat, digest: string -> string)
    requires |plans| == |events| + 1 && i <= |events|
    ensures HoldsLastSent(plans, events, i, digest)
  {
    hide *;
    if i == 0 {
      NothingSentYet(plans, events, digest);
    } else {
      HeldIsLastSent(plans, events, i - 1, digest);
      HoldsLastSentStep(plans, events, i, digest);
    }
  }

  /**
   Over every run, exactly: the charger is in step if and only if the plan it was last sent, none if it was
   wiped since, has the future of the current plan.
   */
  lemma InStepExactly(
    plans: seq<Option<Schedule>>, events: seq<PlanEvent>, t: int, digest: string -> string)
    requires |plans| == |events| + 1
    ensures var last := LastSent(plans, events, |events|, digest);
      && (last.Some? ==> last.value < |plans|)
      && (InStep(SenderAt(plans, events, |events|, digest), plans[|events|], t) <==>
            FutureOf(if last.Some? then plans[last.value] else None, t) == FutureOf(plans[|events|], t))
  {
    HeldIsLastSent(plans, events, |events|, digest);
    hide SenderAt, LastSent, FutureText;
  }

  // ----- a cancelled day -----

  function Cancelled(o: Override, deadlineOfDay: int): Schedule {
    var slot := Cases.ForceSlot(o, deadlineOfDay);
    Cases.Total([slot.(cancelled := true)]).(deadline := Planned(o, deadlineOfDay).deadline)
  }

  /** A force is planned, its day is cancelled, and the plan is recomputed. */
  function CancelRun(o: Override, now: int, later: int, deadlineOfDay: int): seq<PlanEvent> {
    var cfg := Some(Cases.Idle(deadlineOfDay));
    [Recomputing(Charger(o, now), cfg, 0.0), Switching(Cases.ForceSlot(o, deadlineOfDay).date, true, true),
     Recomputing(Charger(o, later), cfg, 0.0)]
  }

  function CancelPlans(o: Override, deadlineOfDay: int): seq<Option<Schedule>> {
    var cancelled := Cancelled(o, deadlineOfDay);
    [None, Some(Planned(o, deadlineOfDay)), Some(cancelled), Some(cancelled)]
  }

  lemma PlannedActive(o: Override, deadlineOfDay: int)
    ensures ActiveOf(Planned(o, deadlineOfDay).slots) == [ForcePeriod(o, [])]
    ensures ActiveOf(Cancelled(o, deadlineOfDay).slots) == []
  {
    var slot := Cases.ForceSlot(o, deadlineOfDay);
    assert [slot][..0] == [] && [slot.(cancelled := true)][..0] == [];
  }

  lemma CancelledIsSwitched(o: Override, deadlineOfDay: int)
    ensures SwitchedPlan(Some(Planned(o, deadlineOfDay)), Cases.ForceSlot(o, deadlineOfDay).date, true,
      Some(Cancelled(o, deadlineOfDay)), true)
  {
    var was, now := Planned(o, deadlineOfDay), Cancelled(o, deadlineOfDay);
    hide Hundredths, CostOf, EnergyOf, NextDeadlineAfter, DateOf, ForcePeriod;
    assert Switches(was.slots, was.slots[0].date, true, 0);
    assert now.slots == Switched(was.slots, 0, true);
  }

  lemma CancelledAgain(o: Override, later: int, deadlineOfDay: int)
    requires o.kind == Force && o.power > 0.0 && o.window.start < o.window.end
    ensures Recomputed(Some(Cancelled(o, deadlineOfDay)), Charger(o, later), Some(Cases.Idle(deadlineOfDay)), 0.0,
      Some(Cancelled(o, deadlineOfDay)))
  {
    var x, cfg := Charger(o, later), Cases.Idle(deadlineOfDay);
    var base, cancelled := Some(Planned(o, deadlineOfDay)), Some(Cancelled(o, deadlineOfDay));
    assert Fresh(cfg, 0.0) == cfg.(currentSoC := 0.0);
    Cases.OnlyForce(o);
    assert !Unchanged(x, Some(cfg));
    StaysCancelled(o, x, deadlineOfDay);
    hide Base, Replaced, Unchanged, Cases.ForceSlot, Cases.Total, ForcesOf, Fresh;
    Cases.OneForceBase(o, later, deadlineOfDay, ChargePower(Fresh(cfg, 0.0), 0.0), 0.0);
    SameBase(Cases.With(o, later), x, Fresh(cfg, 0.0), ChargePower(Fresh(cfg, 0.0), 0.0), base);
  }

  lemma StaysCancelled(o: Override, x: Inputs, deadlineOfDay: int)
    ensures Replaced(Some(Cancelled(o, deadlineOfDay)), x, Some(Planned(o, deadlineOfDay)),
      Some(Cancelled(o, deadlineOfDay)))
  {
    var prev, base := Some(Cancelled(o, deadlineOfDay)), Planned(o, deadlineOfDay);
    hide Hundredths, CostOf, EnergyOf, NextDeadlineAfter, DateOf, ForcePeriod;
    assert SlotsIn(prev)[0].cancelled && CancelledDate(prev, base.slots[0].date);
    assert Marked(prev, base.slots, prev.value.slots);
  }

  /**
   The charger keeps the profile of a cancelled day: after a force is planned and sent, its day cancelled
   and the plan recomputed, nothing is left of the plan, so nothing is sent, and the held profile still
   allows the forced power.
   */
  lemma CancelledDayStaysHeld(
    o: Override, now: int, later: int, deadlineOfDay: int, digest: string -> string, t: int)
    requires o.kind == Force && o.power > 0.0 && o.window.start < o.window.end && Cache.Collisionless(digest)
    requires now <= later <= t && o.window.Covers(t)
    ensures var plans, events := CancelPlans(o, deadlineOfDay), CancelRun(o, now, later, deadlineOfDay);
      var s, first := SenderAt(plans, events, 3, digest), Planned(o, deadlineOfDay);
      && PlanRun(plans, events) && s.accepted == Some(Cache.Accepted(first, now))
      && ActiveOf(first.slots) != [] && LimitAt(Compile(ActiveOf(first.slots)), t) == Some(o.power)
      && ActiveOf(SlotsIn(plans[3])) == [] && !InStep(s, plans[3], t)
  {
    var plans, events := CancelPlans(o, deadlineOfDay), CancelRun(o, now, later, deadlineOfDay);
    assert |plans| == 4 && |events| == 3 && plans[3] == Some(Cancelled(o, deadlineOfDay));
    assert SlotsIn(plans[3]) == Cancelled(o, deadlineOfDay).slots;
    assert FutureOf(plans[3], t) == FutureText(Cancelled(o, deadlineOfDay), t);
    hide *;
    CancelIsRun(o, now, later, deadlineOfDay);
    PlannedActive(o, deadlineOfDay);
    ForceAllowed(o, deadlineOfDay, t);
    PlannedFuture(o, deadlineOfDay, t);
    CancelSends(o, now, later, deadlineOfDay, digest);
    OutOfStep(SenderAt(plans, events, 3, digest), plans[3], t);
  }

  lemma OneLeft(p: Period, t: int)
    ensures Text(Remaining([p], t)) != "" <==> p.end > t
    ensures Text(Remaining([], t)) == ""
  {
    assert [p][..0] == [];
    TextEmpty(Remaining([p], t));
  }

  lemma CancelIsRun(o: Override, now: int, later: int, deadlineOfDay: int)
    requires o.kind == Force && o.power > 0.0 && o.window.start < o.window.end
    ensures PlanRun(CancelPlans(o, deadlineOfDay), CancelRun(o, now, later, deadlineOfDay))
  {
    FirstIsRecomputed(o, now, deadlineOfDay);
    CancelledIsSwitched(o, deadlineOfDay);
    CancelledAgain(o, later, deadlineOfDay);
    hide Recomputed, SwitchedPlan, Planned, Cancelled, Charger, Cases.ForceSlot;
    ThreeSteps(CancelPlans(o, deadlineOfDay), CancelRun(o, now, later, deadlineOfDay));
  }

  lemma ThreeSteps(plans: seq<Option<Schedule>>, events: seq<PlanEvent>)
    requires |plans| == 4 && |events| == 3
    requires PlanStep(plans[0], events[0], plans[1]) && PlanStep(plans[1], events[1], plans[2])
    requires PlanStep(plans[2], events[2], plans[3])
    ensures PlanRun(plans, events)
  {
    hide PlanStep;
  }

  /** The first plan has a future to send while its window has not ended; the cancelled one never has. */
  lemma PlannedFuture(o: Override, deadlineOfDay: int, t: int)
    ensures FutureText(Planned(o, deadlineOfDay), t) != "" <==> o.window.end > t
    ensures FutureText(Cancelled(o, deadlineOfDay), t) == ""
  {
    PlannedActive(o, deadlineOfDay);
    ForceBounds(o, []);
    OneLeft(ForcePeriod(o, []), t);
  }

  lemma ChargerReplans(o: Override, now: int, deadlineOfDay: int)
    requires o.kind == Force
    ensures !Unchanged(Charger(o, now), Some(Cases.Idle(deadlineOfDay)))
  {
    Cases.OnlyForce(o);
    assert Charger(o, now).overrides == [o];
    hide ForcesOf;
  }

  lemma FirstHash(o: Override, now: int, deadlineOfDay: int, digest: string -> string)
    requires o.window.end > now && Cache.Collisionless(digest)
    ensures Cache.HashOf(Planned(o, deadlineOfDay), now, digest) != ""
  {
    PlannedFuture(o, deadlineOfDay, now);
    hide Planned, FutureText;
  }

  lemma FirstIsSent(o: Override, now: int, deadlineOfDay: int, digest: string -> string)
    requires o.kind == Force && o.window.end > now && Cache.Collisionless(digest)
    ensures SendsPlan(Cache.INITIAL, Recomputing(Charger(o, now), Some(Cases.Idle(deadlineOfDay)), 0.0),
      Some(Planned(o, deadlineOfDay)), digest)
  {
    ChargerReplans(o, now, deadlineOfDay);
    FirstHash(o, now, deadlineOfDay, digest);
    hide Planned, Cache.HashOf, Unchanged, Cache.Collisionless;
  }

  lemma CancelledIsNotSent(s: Cache.Sender, o: Override, later: int, deadlineOfDay: int, digest: string -> string)
    ensures !SendsPlan(s, Recomputing(Charger(o, later), Some(Cases.Idle(deadlineOfDay)), 0.0),
      Some(Cancelled(o, deadlineOfDay)), digest)
  {
    PlannedFuture(o, deadlineOfDay, later);
    hide Cancelled, FutureText, Unchanged;
  }

  lemma CancelSends(o: Override, now: int, later: int, deadlineOfDay: int, digest: string -> string)
    requires o.kind == Force && o.window.end > now && Cache.Collisionless(digest)
    ensures SenderAt(CancelPlans(o, deadlineOfDay), CancelRun(o, now, later, deadlineOfDay), 3, digest).accepted ==
      Some(Cache.Accepted(Planned(o, deadlineOfDay), now))
  {
    var plans, events := CancelPlans(o, deadlineOfDay), CancelRun(o, now, later, deadlineOfDay);
    FirstIsSent(o, now, deadlineOfDay, digest);
    CancelledIsNotSent(SenderAt(plans, events, 2, digest), o, later, deadlineOfDay, digest);
    hide SendsPlan, SenderAt, Planned, Cancelled, Cases.ForceSlot, Cases.Idle, Cache.Collisionless;
    FirstStays(plans, events, digest);
  }

  /** A plan sent, a switch, and a recompute that sends nothing: the first plan is still held. */
  lemma FirstStays(plans: seq<Option<Schedule>>, events: seq<PlanEvent>, digest: string -> string)
    requires |plans| == 4 && |events| == 3 && events[0].Recomputing? && events[1].Switching? && events[2].Recomputing?
    requires plans[1].Some? && SendsPlan(Cache.INITIAL, events[0], plans[1], digest)
    requires !SendsPlan(SenderAt(plans, events, 2, digest), events[2], plans[3], digest)
    ensures SenderAt(plans, events, 3, digest).accepted == Some(Cache.Accepted(plans[1].value, events[0].x.now))
  {
    hide *;
    NothingSentYet(plans, events, digest);
    SenderStep(plans, events, 0, digest);
    HeldStep(Cache.INITIAL, events[0], plans[1], digest);
    SenderStep(plans, events, 1, digest);
    SwitchSendsNothing(SenderAt(plans, events, 1, digest), events[1], plans[2], digest);
    SenderStep(plans, events, 2, digest);
    HeldStep(SenderAt(plans, events, 2, digest), events[2], plans[3], digest);
  }

  lemma SwitchSendsNothing(s: Cache.Sender, e: PlanEvent, next: Option<Schedule>, digest: string -> string)
    requires e.Switching?
    ensures After(s, Sends(e, next), digest) == s
  {
  }

  // ----- cleared after a restart -----

  /** A force is planned, a new process takes over, and the user clears the plan. */
  function ClearRun(o: Override, now: int, at: int, deadlineOfDay: int): seq<PlanEvent> {
    [Recomputing(Charger(o, now), Some(Cases.Idle(deadlineOfDay)), 0.0), Restarting(at), Clearing(true)]
  }

  function ClearPlans(o: Override, deadlineOfDay: int): seq<Option<Schedule>> {
    var plan := Some(Planned(o, deadlineOfDay));
    [None, plan, plan, None]
  }

  lemma PlannedIsRestored(o: Override, at: int, deadlineOfDay: int)
    requires o.window.end > at
    ensures Restored(Some(Planned(o, deadlineOfDay)), at) == Some(Planned(o, deadlineOfDay))
  {
    var slot := Cases.ForceSlot(o, deadlineOfDay);
    ForceBounds(o, []);
    assert slot.periods[0].end > at && FutureLeft(slot.periods, at);
    assert [slot][..0] == [] && Planned(o, deadlineOfDay).slots == [slot];
    hide ForcePeriod, Cases.ForceSlot;
    assert LiveSlots([slot], at) == [slot];
  }

  lemma ClearIsRun(o: Override, now: int, at: int, deadlineOfDay: int)
    requires o.kind == Force && o.power > 0.0 && o.window.start < o.window.end && o.window.end > at
    ensures PlanRun(ClearPlans(o, deadlineOfDay), ClearRun(o, now, at, deadlineOfDay))
  {
    var plans, events := ClearPlans(o, deadlineOfDay), ClearRun(o, now, at, deadlineOfDay);
    var plan := Some(Planned(o, deadlineOfDay));
    assert |plans| == 4 && |events| == 3;
    assert plans[0] == None && plans[1] == plan && plans[2] == plan && plans[3] == None;
    assert events[0] == Recomputing(Charger(o, now), Some(Cases.Idle(deadlineOfDay)), 0.0);
    assert events[1] == Restarting(at) && events[2] == Clearing(true);
    hide *;
    FirstIsRecomputed(o, now, deadlineOfDay);
    PlannedIsRestored(o, at, deadlineOfDay);
    ClearSteps(plan, Charger(o, now), Some(Cases.Idle(deadlineOfDay)), at);
    ThreeSteps(plans, events);
  }

  lemma ClearSteps(plan: Option<Schedule>, x: Inputs, cfg: Option<Config>, at: int)
    requires Recomputed(None, x, cfg, 0.0, plan) && Restored(plan, at) == plan
    ensures PlanStep(None, Recomputing(x, cfg, 0.0), plan) && PlanStep(plan, Restarting(at), plan)
    ensures PlanStep(plan, Clearing(true), None)
  {
    hide Recomputed, Restored;
  }

  /** The new process has no hash, so it takes the charger to hold nothing and tells it nothing. */
  lemma RestartForgets(s: Cache.Sender, e: PlanEvent, next: Option<Schedule>, digest: string -> string)
    requires e.Restarting?
    ensures After(s, Sends(e, next), digest) == Cache.Sender("", None, s.accepted)
  {
    OneSend(s, e, next, digest);
    hide After;
  }

  lemma ForgottenStays(plans: seq<Option<Schedule>>, events: seq<PlanEvent>, digest: string -> string)
    requires |plans| == 4 && |events| == 3 && events[0].Recomputing? && events[1].Restarting? && events[2].Clearing?
    requires plans[1].Some? && SendsPlan(Cache.INITIAL, events[0], plans[1], digest)
    ensures SenderAt(plans, events, 3, digest).accepted == Some(Cache.Accepted(plans[1].value, events[0].x.now))
  {
    hide *;
    NothingSentYet(plans, events, digest);
    SenderStep(plans, events, 0, digest);
    HeldStep(Cache.INITIAL, events[0], plans[1], digest);
    SenderStep(plans, events, 1, digest);
    RestartForgets(SenderAt(plans, events, 1, digest), events[1], plans[2], digest);
    SenderStep(plans, events, 2, digest);
    ForgottenClear(SenderAt(plans, events, 2, digest), events[2], plans[3], digest);
  }

  lemma ForgottenClear(s: Cache.Sender, e: PlanEvent, next: Option<Schedule>, digest: string -> string)
    requires e.Clearing? && s.hash == ""
    ensures After(s, Sends(e, next), digest).accepted == s.accepted
  {
    OneSend(s, e, next, digest);
    hide After;
  }

  /**
   A plan cleared after a restart stays at the charger: the new process remembers no hash, so the clear is not
   sent even to an idle charger that would obey, and the held profile still allows the forced power.
   */
  lemma ClearedAfterRestartStaysHeld(
    o: Override, now: int, at: int, deadlineOfDay: int, digest: string -> string, t: int)
    requires o.kind == Force && o.power > 0.0 && Cache.Collisionless(digest)
    requires now <= at <= t && o.window.Covers(t)
    ensures var plans, events := ClearPlans(o, deadlineOfDay), ClearRun(o, now, at, deadlineOfDay);
      var s, first := SenderAt(plans, events, 3, digest), Planned(o, deadlineOfDay);
      && PlanRun(plans, events) && s.accepted == Some(Cache.Accepted(first, now))
      && ActiveOf(first.slots) != [] && LimitAt(Compile(ActiveOf(first.slots)), t) == Some(o.power)
      && plans[3].None? && !InStep(s, plans[3], t)
  {
    var plans, events := ClearPlans(o, deadlineOfDay), ClearRun(o, now, at, deadlineOfDay);
    assert |plans| == 4 && |events| == 3 && plans[1] == Some(Planned(o, deadlineOfDay)) && plans[3].None?;
    assert events[0] == Recomputing(Charger(o, now), Some(Cases.Idle(deadlineOfDay)), 0.0);
    assert events[1].Restarting? && events[2].Clearing? && Charger(o, now).now == now;
    assert o.window.start < o.window.end && o.window.end > at && o.window.end > now;
    hide *;
    ClearIsRun(o, now, at, deadlineOfDay);
    ForceAllowed(o, deadlineOfDay, t);
    FirstIsSent(o, now, deadlineOfDay, digest);
    ForgottenStays(plans, events, digest);
    NoPlanNoFuture(t);
    OutOfStep(SenderAt(plans, events, 3, digest), plans[3], t);
  }

  /** The compiled first plan allows the forced power throughout its window, and has a future till its end. */
  lemma ForceAllowed(o: Override, deadlineOfDay: int, t: int)
    requires o.window.Covers(t)
    ensures var first := Planned(o, deadlineOfDay);
      && ActiveOf(first.slots) != [] && LimitAt(Compile(ActiveOf(first.slots)), t) == Some(o.power)
      && FutureText(first, t) != ""
  {
    PlannedActive(o, deadlineOfDay);
    PlannedFuture(o, deadlineOfDay, t);
    ForceBounds(o, []);
    OneIsOrdered(ForcePeriod(o, []));
    hide Planned, ActiveOf, ForcePeriod, Compile, FutureText, Ordered;
    PowerWhereCovered([ForcePeriod(o, [])], ForcePeriod(o, []), t);
  }

  lemma OutOfStep(s: Cache.Sender, plan: Option<Schedule>, t: int)
    requires s.accepted.Some? && FutureText(s.accepted.value.plan, t) != "" && FutureOf(plan, t) == ""
    ensures !InStep(s, plan, t)
  {
    hide FutureText;
  }

  lemma NoPlanNoFuture(t: int)
    ensures FutureOf(None, t) == ""
  {
  }

  lemma OneIsOrdered(p: Period)
    ensures p.start < p.end ==> Ordered([p])
  {
  }
}
