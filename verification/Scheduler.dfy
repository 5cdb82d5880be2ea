/** The scheduler object: its plan, its cooldowns and its memory of the charger's profile (scheduler.go). */
module Scheduling {
  import opened Spans
  import opened Plan
  import opened Profile
  import opened Fingerprint
  import opened OverrideTable
  import opened Fragment
  import opened Selection
  import opened Planner
  import opened Slots
  import opened Forces
  import opened Merge
  import opened Recompute
  import Cache = ProfileCache
  import Control

  class Scheduler {
    var current: Option<Schedule>
    var config: Option<Config>
    var livePower: real
    var lastStartSent: Option<int>
    var lastStopSent: Option<int>
    var lastProfileHash: string
    var lastProfileSent: Option<int>
    var startMarkers: seq<int>
    var notified: bool
    ghost var accepted: Option<Cache.Accepted>
    const digest: string -> string

    ghost function Sender(): Cache.Sender
      reads this
    {
      Cache.Sender(lastProfileHash, lastProfileSent, accepted)
    }

    function Cooldowns(): Control.Cooldowns
      reads this
    {
      Control.Cooldowns(lastStartSent, lastStopSent)
    }

    /** A new process: nothing has been sent, the plan is what persistence kept, the charger holds what it held. */
    constructor (persisted: Option<Schedule>, now: int, ghost held: Option<Cache.Accepted>, digest: string -> string)
      ensures this.digest == digest && config.None? && startMarkers == []
      ensures current == Restored(persisted, now)
      ensures Sender() == Cache.Step(Cache.Sender(lastProfileHash, lastProfileSent, held), Cache.Restart, digest)
      ensures Cooldowns() == Control.CLEARED
    {
      current, config, livePower := None, None, 0.0;
      lastStartSent, lastStopSent, startMarkers, notified := None, None, [], false;
      lastProfileHash, lastProfileSent, accepted := "", None, held;
      this.digest := digest;
      new;
      LoadPersisted(persisted, now);
    }

    /** `loadPersistedSchedule`: slots with nothing left to do are dropped. */
    method LoadPersisted(persisted: Option<Schedule>, now: int)
      requires current.None?
      modifies this`current
      ensures current == Restored(persisted, now)
    {
      if persisted.None? { return; }
      var slots := persisted.value.slots;
      var keep: seq<Slot> := [];
      for i := 0 to |slots|
        invariant keep == LiveSlots(slots[..i], now) && current.None?
      {
        assert slots[..i + 1][..i] == slots[..i];
        var live := HasFuture(slots[i].periods, now);
        if live { keep := keep + [slots[i]]; }
      }
      assert slots[..|slots|] == slots;
      assert keep == LiveSlots(persisted.value.slots, now);
      if keep != [] { current := Some(persisted.value.(slots := keep)); }
    }

    /** `applyProfile`. Returns the profile if one was sent and accepted. */
    method ApplyProfile(sched: Schedule, now: int, hasCharger: bool, accepts: bool)
      returns (sent: Option<ChargingProfile>)
      modifies this`lastProfileHash, this`lastProfileSent, this`accepted
      ensures Sender() == Cache.Step(old(Sender()), Cache.Apply(sched, now, hasCharger, accepts), digest)
      ensures sent.Some? ==> accepted == Some(Cache.Accepted(sched, now)) && lastProfileSent == Some(now)
      ensures sent.Some? ==> ActiveOf(sched.slots) != [] && sent.value == Compile(ActiveOf(sched.slots))
      ensures sent.Some? && Ordered(ActiveOf(sched.slots)) ==> Means(sent.value, ActiveOf(sched.slots))
      ensures sent.None? ==> Sender() == old(Sender())
    {
      hide ActiveOf, FutureText, Remaining, Ordered, Means, Compile;
      NoFuture(sched, now);
      if !hasCharger { return None; }
      var hash := ScheduleHash(sched, now, digest);
      if hash == "" { return None; }
      var profile := BuildProfile(sched);
      if profile.None? { return None; }
      var same := hash == lastProfileHash;
      var cooling := lastProfileSent.Some? && now - lastProfileSent.value < Cache.PROFILE_COOLDOWN;
      if same || cooling || !accepts { return None; }
      lastProfileHash := hash;
      lastProfileSent := Some(now);
      accepted := Some(Cache.Accepted(sched, now));
      sent := profile;
    }

    /** The charger rebooted and lost its profile. */
    method ResetProfileState()
      modifies this`lastProfileHash, this`lastProfileSent, this`accepted
      ensures Sender() == Cache.Step(old(Sender()), Cache.Boot, digest)
    {
      lastProfileHash, lastProfileSent, accepted := "", None, None;
    }

    /** `ClearSchedule`; the charger is told only when a profile was set and it is idle, and its answer is ignored. */
    method ClearSchedule(seen: Control.Observation, obeys: bool) returns (told: bool)
      modifies this`current, this`config, this`lastProfileHash, this`accepted
      ensures current.None? && config.None?
      ensures told <==> seen.hasCharger && old(lastProfileHash) != "" && seen.connected && seen.txnId == 0
      ensures var idle := seen.hasCharger && seen.connected && seen.txnId == 0;
        Sender() == Cache.Step(old(Sender()), Cache.Clear(idle && obeys), digest)
    {
      current, config := None, None;
      var hadProfile := lastProfileHash != "";
      lastProfileHash := "";
      told := seen.hasCharger && hadProfile && seen.connected && seen.txnId == 0;
      if told && obeys { accepted := None; }
    }

    /** `CancelSlot`: a hit is followed by a control pass, which ends a charge the plan no longer asks for. */
    method CancelSlot(
      date: int, now: int, mode: string, seen: Control.Observation, report: Control.PlugReport, accepts: bool)
      returns (found: bool, command: Control.Command)
      modifies this`current, this`lastStartSent, this`lastStopSent, this`startMarkers
      ensures SwitchedPlan(old(current), date, true, current, found)
      ensures var call := Control.Call(now, mode, false, seen, ChargeTime(current, now), report);
        && command == (if found then Control.Sent(old(Cooldowns()), call) else Control.Nothing)
        && Cooldowns() == if found then Control.Next(old(Cooldowns()), call) else old(Cooldowns())
      ensures startMarkers == old(startMarkers) + (if command == Control.Start && accepts then [now] else [])
    {
      found := SwitchSlot(date, true);
      command := Control.Nothing;
      if found { command := ControlCharging(now, mode, false, seen, report, accepts); }
    }

    /** `RestoreSlot`: the same the other way. */
    method RestoreSlot(
      date: int, now: int, mode: string, seen: Control.Observation, report: Control.PlugReport, accepts: bool)
      returns (found: bool, command: Control.Command)
      modifies this`current, this`lastStartSent, this`lastStopSent, this`startMarkers
      ensures SwitchedPlan(old(current), date, false, current, found)
      ensures var call := Control.Call(now, mode, false, seen, ChargeTime(current, now), report);
        && command == (if found then Control.Sent(old(Cooldowns()), call) else Control.Nothing)
        && Cooldowns() == if found then Control.Next(old(Cooldowns()), call) else old(Cooldowns())
      ensures startMarkers == old(startMarkers) + (if command == Control.Start && accepts then [now] else [])
    {
      found := SwitchSlot(date, false);
      command := Control.Nothing;
      if found { command := ControlCharging(now, mode, false, seen, report, accepts); }
    }

    method SwitchSlot(date: int, cancelled: bool) returns (found: bool)
      modifies this`current
      ensures SwitchedPlan(old(current), date, cancelled, current, found)
    {
      if current.None? { return false; }
      var slots := current.value.slots;
      for i := 0 to |slots|
        invariant current == old(current)
        invariant forall j :: 0 <= j < i ==> slots[j].date != date || slots[j].cancelled == cancelled
      {
        if slots[i].date == date && slots[i].cancelled != cancelled {
          var total := TotalSchedule(slots[i := slots[i].(cancelled := cancelled)]);
          current := Some(total.(deadline := current.value.deadline));
          assert Switches(slots, date, cancelled, i);
          return true;
        }
      }
      found := false;
    }

    // ----- commands -----

    /** One control pass; the outcome is the command sent, if any, and a marker for a start that succeeds. */
    method ControlCharging(
      now: int, mode: string, forced: bool, seen: Control.Observation, report: Control.PlugReport, accepts: bool)
      returns (command: Control.Command)
      modifies this`lastStartSent, this`lastStopSent, this`startMarkers
      ensures var call := Control.Call(now, mode, forced, seen, ChargeTime(current, now), report);
        && command == Control.Sent(old(Cooldowns()), call)
        && Cooldowns() == Control.Next(old(Cooldowns()), call)
      ensures startMarkers == old(startMarkers) + (if command == Control.Start && accepts then [now] else [])
    {
      if forced { lastStartSent, lastStopSent := None, None; }
      command := Control.Nothing;
      var charge := IsChargeTime(current, now);
      if !seen.hasCharger || !seen.connected { return; }
      var plugged := Control.PluggedIn(seen.status);
      var busy := seen.txnId > 0;
      if busy || !plugged { lastStartSent := None; }
      if !busy { lastStopSent := None; }
      if seen.status == "SuspendedEV" && !forced { return; }
      if mode == "off" {
        if busy { command := SendStop(seen.txnId, now); }
      } else if mode == "force" {
        if plugged && !busy {
          if Control.PlugBlocked(report, now) { return; }
          command := SendStart(now, accepts);
        }
      } else {
        if !plugged { return; }
        if charge && !busy {
          if Control.PlugBlocked(report, now) { return; }
          command := SendStart(now, accepts);
        } else if !charge && busy {
          command := SendStop(seen.txnId, now);
        }
      }
    }

    /** `OnModeChanged`: a click clears both cooldowns, acts at once, and asks for a recompute. */
    method OnModeChanged(
      now: int, mode: string, seen: Control.Observation, report: Control.PlugReport, accepts: bool)
      returns (command: Control.Command)
      modifies this`lastStartSent, this`lastStopSent, this`startMarkers, this`notified
      ensures var call := Control.Call(now, mode, true, seen, ChargeTime(current, now), report);
        && command == Control.Sent(old(Cooldowns()), call)
        && Cooldowns() == Control.Next(old(Cooldowns()), call)
      ensures startMarkers == old(startMarkers) + (if command == Control.Start && accepts then [now] else [])
      ensures notified
    {
      command := ControlCharging(now, mode, true, seen, report, accepts);
      notified := true;
    }

    method SendStart(now: int, accepts: bool) returns (command: Control.Command)
      modifies this`lastStartSent, this`startMarkers
      ensures var cool := Control.Cool(old(lastStartSent), now);
        && command == (if cool then Control.Start else Control.Nothing)
        && lastStartSent == (if cool then Some(now) else old(lastStartSent))
        && startMarkers == old(startMarkers) + if cool && accepts then [now] else []
    {
      if lastStartSent.Some? && now - lastStartSent.value < Control.COMMAND_COOLDOWN {
        assert startMarkers + [] == startMarkers;
        return Control.Nothing;
      }
      lastStartSent := Some(now);
      command := Control.Start;
      if accepts { startMarkers := startMarkers + [now]; }
      assert !accepts ==> startMarkers + [] == startMarkers;
    }

    method SendStop(txnId: int, now: int) returns (command: Control.Command)
      modifies this`lastStopSent
      ensures var cool := Control.Cool(old(lastStopSent), now);
        && command == (if cool then Control.Stop(txnId) else Control.Nothing)
        && lastStopSent == (if cool then Some(now) else old(lastStopSent))
    {
      if lastStopSent.Some? && now - lastStopSent.value < Control.COMMAND_COOLDOWN { return Control.Nothing; }
      lastStopSent := Some(now);
      command := Control.Stop(txnId);
    }

    // ----- recompute -----

    /** The configuration a recompute works with. */
    function Effective(stored: Option<Config>): Option<Config>
      reads this
    {
      if config.Some? then config else stored
    }

    method Recompute(x: Inputs) returns (sent: Option<ChargingProfile>)
      requires NonEmpty(WindowsOf(x.overrides))
      modifies this`current, this`lastProfileHash, this`lastProfileSent, this`accepted
      ensures Recomputed(old(current), x, old(Effective(x.stored)), livePower, current)
      ensures Sender() == AfterRecompute(old(Sender()), x, old(Effective(x.stored)), current, digest)
      ensures sent.Some? ==>
        && current.Some? && accepted == Some(Cache.Accepted(current.value, x.now))
        && ActiveOf(current.value.slots) != [] && sent.value == Compile(ActiveOf(current.value.slots))
      ensures sent.None? ==> Sender() == old(Sender())
      ensures ChargeTime(old(current), x.now) ==> ChargeTime(current, x.now)
      ensures x.hasCharger && x.connected && x.txnId > 0 ==> current == old(current) && Sender() == old(Sender())
      ensures GoesAhead(x, old(Effective(x.stored))) ==>
        Renewed(old(current), x, old(Effective(x.stored)).value, livePower, current)
      ensures Sender() == if GoesAhead(x, old(Effective(x.stored))) && current.Some?
        then Cache.Step(old(Sender()), Cache.Apply(current.value, x.now, x.hasCharger, x.accepts), digest)
        else old(Sender())
    {
      hide Recomputed, ChargeTime, Means, Ordered, ActiveOf, Compile, GoesAhead, Renewed, Unchanged, FutureText,
        WindowsOf, NonEmpty, Cache.Step;
      AheadExactly(x, Effective(x.stored));
      var applied := UpdatePlan(x);
      sent := None;
      if applied { sent := ApplyProfile(current.value, x.now, x.hasCharger, x.accepts); }
    }

    /** `SetConfig`: the user's settings replace the stored ones, and the plan is recomputed and sent. */
    method SetConfig(cfg: Config, x: Inputs) returns (sent: Option<ChargingProfile>)
      requires NonEmpty(WindowsOf(x.overrides))
      modifies this`config, this`current, this`lastProfileHash, this`lastProfileSent, this`accepted
      ensures config == Some(cfg) && Recomputed(old(current), x, Some(cfg), livePower, current)
      ensures Sender() == AfterRecompute(old(Sender()), x, Some(cfg), current, digest)
      ensures ChargeTime(old(current), x.now) ==> ChargeTime(current, x.now)
    {
      hide Recomputed, ChargeTime, AfterRecompute, ActiveOf, Compile;
      config := Some(cfg);
      sent := Recompute(x);
    }

    /** `ReloadConfig`: the stored settings count again, and a recompute is asked for. */
    method ReloadConfig()
      modifies this`config, this`notified
      ensures config.None? && notified && forall stored :: Effective(stored) == stored
    {
      config, notified := None, true;
    }

    /** `UpdateLivePower`: a change of more than a tenth recomputes and sends the plan. */
    method UpdateLivePower(power: real, x: Inputs) returns (sent: Option<ChargingProfile>)
      requires NonEmpty(WindowsOf(x.overrides))
      modifies this`livePower, this`current, this`lastProfileHash, this`lastProfileSent, this`accepted
      ensures livePower == power
      ensures
        if old(livePower) > 0.0 && (power > 1.1 * old(livePower) || power < 0.9 * old(livePower)) then
          && Recomputed(old(current), x, old(Effective(x.stored)), power, current)
          && Sender() == AfterRecompute(old(Sender()), x, old(Effective(x.stored)), current, digest)
        else current == old(current) && Sender() == old(Sender())
      ensures ChargeTime(old(current), x.now) ==> ChargeTime(current, x.now)
    {
      hide Recomputed, ChargeTime, AfterRecompute, ActiveOf, Compile;
      sent := None;
      var was := livePower;
      livePower := power;
      if was > 0.0 {
        var change := if power < was then was - power else power - was;
        TenthOf(change, was);
        if change / was > 0.10 { sent := Recompute(x); }
      }
    }

    /** The plan half of `recompute`; true when there is a new plan to apply. */
    method UpdatePlan(x: Inputs) returns (applied: bool)
      requires NonEmpty(WindowsOf(x.overrides))
      modifies this`current
      ensures Recomputed(old(current), x, Effective(x.stored), livePower, current)
      ensures applied <==> !Unchanged(x, Effective(x.stored)) && current.Some?
      ensures ChargeTime(old(current), x.now) ==> ChargeTime(current, x.now)
      ensures x.hasCharger && x.connected && x.txnId > 0 ==> current == old(current)
      ensures GoesAhead(x, Effective(x.stored)) ==>
        Renewed(old(current), x, Effective(x.stored).value, livePower, current)
      ensures applied <==> GoesAhead(x, Effective(x.stored)) && current.Some?
    {
      AheadExactly(x, Effective(x.stored));
      if x.hasCharger && x.connected && x.txnId > 0 { return false; }
      var k := ActiveSlot(current, x.now);
      var cfg := if config.Some? then config else x.stored;
      if cfg.None? { return false; }
      var c := Fresh(cfg.value, x.soc);
      var forces, _ := SplitForces(x.overrides);
      if x.rates == [] && forces == [] { return false; }
      assert cfg == Effective(x.stored) && !Unchanged(x, cfg) && !Frozen(x);
      hide Unchanged, Recomputed, ChargeTime, FirstRunningSlot, Fresh, WindowsOf, NonEmpty, GoesAhead, Renewed;
      ghost var was := current;
      applied := Rebuild(x, cfg.value, c, k);
      RenewedBy(was, x, cfg.value, livePower, current);
    }

    /** The paths that compute a plan from scratch; `k` is the running slot, or -1. */
    method Rebuild(x: Inputs, ghost cfg: Config, c: Config, k: int) returns (applied: bool)
      requires NonEmpty(WindowsOf(x.overrides)) && !Unchanged(x, Some(cfg)) && c == Fresh(cfg, x.soc)
      requires k == -1 <==> !ChargeTime(current, x.now)
      requires k != -1 ==> FirstRunningSlot(current, x.now, k)
      modifies this`current
      ensures Recomputed(old(current), x, Some(cfg), livePower, current)
      ensures applied <==> current.Some?
      ensures ChargeTime(old(current), x.now) ==> ChargeTime(current, x.now)
    {
      hide *;
      var base := PlanFromScratch(x, c, ChargePower(c, livePower));
      var next := ReplacePlan(current, k, x, base);
      ReplacedIsRecomputed(current, x, Some(cfg), livePower, base, next);
      current := next;
      applied := next.Some?;
    }
  }

  /** No transaction is open at a reachable charger, there are settings, and there is a rate or a force. */
  ghost predicate GoesAhead(x: Inputs, cfg: Option<Config>) {
    && (!x.hasCharger || !x.connected || x.txnId <= 0) && cfg.Some?
    && (x.rates != [] || exists o :: o in x.overrides && o.kind == Force)
  }

  /** A plan computed from scratch takes the place of the old one, around its running slot. */
  ghost predicate Renewed(prev: Option<Schedule>, x: Inputs, cfg: Config, live: real, next: Option<Schedule>) {
    var c := Fresh(cfg, x.soc);
    exists base :: Base(x, c, ChargePower(c, live), base) && Replaced(prev, x, base, next)
  }

  lemma AheadExactly(x: Inputs, cfg: Option<Config>)
    ensures GoesAhead(x, cfg) <==> !Unchanged(x, cfg)
    ensures x.hasCharger && x.connected && x.txnId > 0 ==> !GoesAhead(x, cfg)
  {
    NoForces(x.overrides);
    hide ForcesOf;
  }

  lemma RenewedBy(prev: Option<Schedule>, x: Inputs, cfg: Config, live: real, next: Option<Schedule>)
    requires Recomputed(prev, x, Some(cfg), live, next)
    ensures GoesAhead(x, Some(cfg)) ==> Renewed(prev, x, cfg, live, next)
  {
    AheadExactly(x, Some(cfg));
    hide Base, Replaced, GoesAhead, Unchanged, Fresh, ChargePower;
  }

  lemma NoFuture(sched: Schedule, now: int)
    ensures ActiveOf(sched.slots) == [] ==> FutureText(sched, now) == ""
  {
  }

  /** A recompute that leaves a plan applies it; the other paths send nothing. */
  ghost function AfterRecompute(
    s: Cache.Sender, x: Inputs, cfg: Option<Config>, next: Option<Schedule>, digest: string -> string): Cache.Sender {
    if !Unchanged(x, cfg) && next.Some?
    then Cache.Step(s, Cache.Apply(next.value, x.now, x.hasCharger, x.accepts), digest)
    else s
  }

  lemma TenthOf(change: real, was: real)
    requires was > 0.0
    ensures change / was > 0.10 <==> change > 0.10 * was
  {
    assert change / was * was == change;
  }

  // ----- cancelling a day -----

  /** Slot k is the first of its date that is not yet as wanted. */
  ghost predicate Switches(slots: seq<Slot>, date: int, cancelled: bool, k: int) {
    && 0 <= k < |slots| && slots[k].date == date && slots[k].cancelled != cancelled
    && forall j :: 0 <= j < k ==> slots[j].date != date || slots[j].cancelled == cancelled
  }

  function Switched(slots: seq<Slot>, k: nat, cancelled: bool): seq<Slot>
    requires k < |slots|
  {
    slots[k := slots[k].(cancelled := cancelled)]
  }

  /** One slot changes and the totals follow, or nothing does. */
  ghost predicate SwitchedPlan(was: Option<Schedule>, date: int, cancelled: bool, now: Option<Schedule>, found: bool) {
    if found then
      && was.Some? && now.Some? && now.value.deadline == was.value.deadline && Totalled(now.value)
      && exists k ::
        Switches(was.value.slots, date, cancelled, k) && now.value.slots == Switched(was.value.slots, k, cancelled)
    else now == was && forall k :: !Switches(SlotsIn(was), date, cancelled, k)
  }

  /** Cancelling a slot takes its energy and cost out of the totals, and nothing else. */
  lemma {:induction false} CancelTakesOut(slots: seq<Slot>, k: nat)
    requires k < |slots| && !slots[k].cancelled
    ensures SlotCosts(Switched(slots, k, true)) == SlotCosts(slots) - slots[k].cost
    ensures SlotEnergies(Switched(slots, k, true)) == SlotEnergies(slots) - slots[k].energy
  {
    var n := |slots| - 1;
    if k < n {
      CancelTakesOut(slots[..n], k);
      assert Switched(slots, k, true)[..n] == Switched(slots[..n], k, true);
    } else {
      assert Switched(slots, k, true)[..n] == slots[..n];
    }
  }

  /** Restoring undoes a cancellation exactly when the cancelled slot was the first of its date. */
  lemma RestoreUndoesCancel(slots: seq<Slot>, date: int, k: nat, j: nat)
    requires Switches(slots, date, true, k) && Switches(Switched(slots, k, true), date, false, j)
    ensures Switched(Switched(slots, k, true), j, false) == slots <==> forall i :: 0 <= i < k ==> slots[i].date != date
  {
    var after := Switched(slots, k, true);
    if j == k {
      assert Switched(after, j, false) == slots;
    } else {
      assert Switched(after, j, false)[k].cancelled != slots[k].cancelled;
      assert j < k && slots[j].date == date;
    }
  }

  /** A plan with one slot a day, as recompute and restart keep it, restores every cancellation. */
  lemma TidyPlansRestore(slots: seq<Slot>, deadlineOfDay: int, date: int, k: nat, j: nat)
    requires TimeOfDay(deadlineOfDay) && Tidy(slots, deadlineOfDay)
    requires Switches(slots, date, true, k) && Switches(Switched(slots, k, true), date, false, j)
    ensures Switched(Switched(slots, k, true), j, false) == slots
  {
    forall i | 0 <= i < k
      ensures slots[i].date != date
    {
      DatesIncrease(slots, deadlineOfDay, i, k);
    }
    RestoreUndoesCancel(slots, date, k, j);
  }

  /** Cancelling a day of such a plan and restoring it gives back the whole plan: slots, totals and deadline. */
  lemma CancelThenRestore(
    was: Schedule, deadlineOfDay: int, date: int, cancelled: Option<Schedule>, restored: Option<Schedule>)
    requires TimeOfDay(deadlineOfDay) && Tidy(was.slots, deadlineOfDay) && Totalled(was)
    requires SwitchedPlan(Some(was), date, true, cancelled, true)
    requires SwitchedPlan(cancelled, date, false, restored, true)
    ensures restored == Some(was)
  {
    hide Tidy, TimeOfDay, SlotCosts, SlotEnergies;
    var k :| Switches(was.slots, date, true, k) && cancelled.value.slots == Switched(was.slots, k, true);
    var j :| Switches(cancelled.value.slots, date, false, j)
      && restored.value.slots == Switched(cancelled.value.slots, j, false);
    TidyPlansRestore(was.slots, deadlineOfDay, date, k, j);
  }

  lemma ReplacedIsRecomputed(
    prev: Option<Schedule>, x: Inputs, cfg: Option<Config>, live: real, base: Option<Schedule>, next: Option<Schedule>)
    requires !Unchanged(x, cfg)
    requires var c := Fresh(cfg.value, x.soc); Base(x, c, ChargePower(c, live), base)
    requires Replaced(prev, x, base, next)
    ensures Recomputed(prev, x, cfg, live, next)
    ensures ChargeTime(prev, x.now) ==> ChargeTime(next, x.now)
  {
    hide Base, Replaced;
    assert Recomputed(prev, x, cfg, live, next);
    RecomputeKeepsCharging(prev, x, cfg, live, next);
  }

  ghost predicate FutureLeft(periods: seq<Period>, now: int) {
    exists i :: 0 <= i < |periods| && periods[i].end > now
  }

  method HasFuture(periods: seq<Period>, now: int) returns (live: bool)
    ensures live == FutureLeft(periods, now)
  {
    for i := 0 to |periods|
      invariant forall j :: 0 <= j < i ==> periods[j].end <= now
    {
      if periods[i].end > now { return true; }
    }
    return false;
  }

  ghost function LiveSlots(slots: seq<Slot>, now: int): seq<Slot> {
    if slots == [] then []
    else
      var n := |slots| - 1;
      LiveSlots(slots[..n], now) + if FutureLeft(slots[n].periods, now) then [slots[n]] else []
  }

  ghost function Restored(persisted: Option<Schedule>, now: int): Option<Schedule> {
    if persisted.None? || LiveSlots(persisted.value.slots, now) == [] then None
    else Some(persisted.value.(slots := LiveSlots(persisted.value.slots, now)))
  }

  /** Exactly the slots with a period still to end are kept. */
  lemma {:induction false} KeptSlots(slots: seq<Slot>, now: int, s: Slot)
    ensures s in LiveSlots(slots, now) <==> s in slots && exists i :: 0 <= i < |s.periods| && s.periods[i].end > now
  {
    if slots != [] {
      var n := |slots| - 1;
      KeptSlots(slots[..n], now, s);
      assert slots == slots[..n] + [slots[n]];
    }
  }

  /** A restart forgets only the past: from `now` on the restored plan has the same active periods left. */
  lemma {:induction false} RestartKeepsRemaining(slots: seq<Slot>, now: int)
    ensures Remaining(ActiveOf(LiveSlots(slots, now)), now) == Remaining(ActiveOf(slots), now)
  {
    if slots != [] {
      var n := |slots| - 1;
      var before, kept := ActiveOf(slots[..n]), LiveSlots(slots[..n], now);
      RestartKeepsRemaining(slots[..n], now);
      if FutureLeft(slots[n].periods, now) {
        assert LiveSlots(slots, now)[..|kept|] == kept;
      } else {
        assert LiveSlots(slots, now) == kept;
        NothingRemains(slots[n].periods, now);
      }
      RemainingConcat(before, slots[n].periods, now);
      RemainingConcat(ActiveOf(kept), slots[n].periods, now);
      if slots[n].cancelled { assert ActiveOf(kept) + [] == ActiveOf(kept) && before + [] == before; }
    }
  }

  lemma {:induction false} NothingRemains(ps: seq<Period>, now: int)
    requires !FutureLeft(ps, now)
    ensures Remaining(ps, now) == []
  {
    if ps != [] {
      var n := |ps| - 1;
      forall i | 0 <= i <= n
        ensures ps[i].end <= now
      {
      }
      NothingRemains(ps[..n], now);
    }
  }

  /** Carving, selecting and merging, in the order `recompute` does them. */
  method PlanFromScratch(x: Inputs, c: Config, power: real) returns (base: Option<Schedule>)
    requires NonEmpty(WindowsOf(x.overrides))
    ensures Base(x, c, power, base)
    ensures base.Some? ==> Totalled(base.value)
  {
    var forceRows, _ := SplitForces(x.overrides);
    var forces := BuildForcePeriods(forceRows, x.rates);
    var auto, frag, outcomes := AutomaticPart(x, c, power, forces);
    base := MergeForces(auto, forces, c.deadlineOfDay);
    hide Fragments, PlanFor, AutoAllowed, AutoTarget, AutoRates, ForcePeriods, PeriodsAt, ForcesAt, AllSound, Totalled;
    assert BaseFrom(x, c, power, frag, outcomes, auto, forces, base);
  }

  /** The automatic plan for what the forces leave of the target. */
  method AutomaticPart(x: Inputs, c: Config, power: real, forces: seq<Period>)
    returns (auto: Option<Schedule>, ghost frag: seq<Rate>, ghost outcomes: seq<Outcome>)
    requires NonEmpty(WindowsOf(x.overrides))
    ensures var planned := c.(target := AutoTarget(c, forces));
      if AutoAllowed(c, x.rates, forces) then
        Fragments(AutoRates(c, x.rates), x.overrides, frag) && PlanFor(frag, planned, power, x.now, outcomes, auto)
      else auto.None?
  {
    hide Fragments, PlanFor, Negatives;
    var forceEnergy := TotalForceEnergy(forces);
    var autoRates := x.rates;
    var eligible := true;
    if c.batteryCapacity > 0.0 && c.skipAboveSoC > 0.0 && c.currentSoC >= c.skipAboveSoC {
      autoRates := NegativeRates(x.rates);
      if autoRates == [] { eligible := false; }
    }
    var autoTarget := c.target - forceEnergy;
    if autoTarget < 0.0 { autoTarget := 0.0; }
    if autoTarget == 0.0 { eligible := false; }
    auto, frag, outcomes := None, [], [];
    if eligible && autoRates != [] {
      var carved := FragmentRates(autoRates, x.overrides);
      frag := carved;
      auto := ComputeSchedule(carved, c.(target := autoTarget), power, x.now);
      outcomes :| PlanFor(frag, c.(target := autoTarget), power, x.now, outcomes, auto);
    }
  }

  method NegativeRates(rates: seq<Rate>) returns (negatives: seq<Rate>)
    ensures negatives == Negatives(rates)
  {
    negatives := [];
    for i := 0 to |rates|
      invariant negatives == Negatives(rates[..i])
    {
      assert rates[..i + 1][..i] == rates[..i];
      if rates[i].value < 0.0 { negatives := negatives + [rates[i]]; }
    }
    assert rates[..|rates|] == rates;
  }

  /** Chooses between the new plan, the running slot alone, and the two merged. */
  method ReplacePlan(prev: Option<Schedule>, k: int, x: Inputs, base: Option<Schedule>) returns (next: Option<Schedule>)
    requires k == -1 <==> !ChargeTime(prev, x.now)
    requires k != -1 ==> FirstRunningSlot(prev, x.now, k)
    requires base.Some? ==> Totalled(base.value)
    ensures Replaced(prev, x, base, next)
  {
    if base.None? {
      if k == -1 { return None; }
      var slot := prev.value.slots[k];
      assert Carried(slot, prev, x.now, base, Some(Preserved(slot)));
      return Some(Schedule([slot], slot.cost, slot.energy, slot.deadline));
    }
    var plan := base.value;
    if prev.Some? {
      plan := MarkCancelled(prev.value, plan);
    } else {
      assert Marked(prev, base.value.slots, plan.slots);
    }
    if k == -1 { return Some(plan); }
    var running := prev.value.slots[k];
    var merged := MergeRunning(running, plan, x.now);
    assert Carried(running, prev, x.now, base, Some(merged));
    next := Some(merged);
  }

  method MergeRunning(running: Slot, plan: Schedule, now: int) returns (next: Schedule)
    requires SlotRunning(running, now)
    ensures MergedInto(running, now, plan.slots, next)
  {
    next := MergeActiveSlot(Some(plan), running, now);
    ghost var recomputed, merged :| ActiveMerge(Some(plan), running, now, recomputed, merged, next);
    ghost var k := FirstRunningIndex(running.periods, now);
    assert Continues(running, k, recomputed, merged);
  }

  lemma FirstRunningIndex(periods: seq<Period>, now: int) returns (k: nat)
    requires exists i :: 0 <= i < |periods| && Running(periods[i], now)
    ensures FirstRunning(periods, now, k)
  {
    k := 0;
    while !Running(periods[k], now)
      invariant k < |periods|
      invariant forall i :: 0 <= i < k ==> !Running(periods[i], now)
      invariant exists i :: k <= i < |periods| && Running(periods[i], now)
      decreases |periods| - k
    {
      k := k + 1;
    }
  }

  /** Cancellations carry over by date; totals are refreshed. */
  method MarkCancelled(prev: Schedule, plan: Schedule) returns (r: Schedule)
    ensures Marked(Some(prev), plan.slots, r.slots) && Totalled(r) && r.deadline == plan.deadline
  {
    var dates := CancelledDates(prev.slots);
    assert SlotsIn(Some(prev)) == prev.slots;
    assert forall d :: d in dates <==> CancelledDate(Some(prev), d);
    var slots: seq<Slot> := [];
    for i := 0 to |plan.slots|
      invariant |slots| == i
      invariant forall k :: 0 <= k < i ==>
        slots[k] ==
          plan.slots[k].(cancelled := plan.slots[k].cancelled || CancelledDate(Some(prev), plan.slots[k].date))
    {
      var slot := plan.slots[i];
      slots := slots + [if slot.date in dates then slot.(cancelled := true) else slot];
    }
    var total := TotalSchedule(slots);
    r := plan.(slots := slots, cost := total.cost, energy := total.energy);
  }

  method CancelledDates(slots: seq<Slot>) returns (dates: set<int>)
    ensures forall d :: d in dates <==> exists k :: 0 <= k < |slots| && slots[k].cancelled && slots[k].date == d
  {
    dates := {};
    for i := 0 to |slots|
      invariant forall d :: d in dates <==> exists k :: 0 <= k < i && slots[k].cancelled && slots[k].date == d
    {
      if slots[i].cancelled { dates := dates + {slots[i].date}; }
    }
  }
}
