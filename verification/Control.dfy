/** Deciding on remote commands and spacing them out (scheduler.go, `controlChargingInternal`). */
module Control {
  import opened Arithmetic
  import opened Plan

  /** Seconds between two commands of the same kind. */
  const COMMAND_COOLDOWN := 300

  /** What the charger reports for connector 1. */
  datatype Observation = Observation(hasCharger: bool, connected: bool, status: string, txnId: int)

  /** The car's own word on whether it is plugged in, and how old it is. */
  datatype PlugReport = PlugReport(checked: bool, plugStatus: string, reportedAt: Option<int>, pollMinutes: int)

  datatype Command = Nothing | Start | Stop(txnId: int)

  /** When the last start and the last stop were sent; None once the charger has confirmed them. */
  datatype Cooldowns = Cooldowns(lastStart: Option<int>, lastStop: Option<int>)

  const CLEARED := Cooldowns(None, None)

  /** One call: a tick, or a mode change by the user (`forced`). */
  datatype Call = Call(now: int, mode: string, forced: bool, seen: Observation, chargeTime: bool, report: PlugReport)

  predicate PluggedIn(status: string) {
    status == "Preparing" || status == "Charging" || status == "SuspendedEV" || status == "SuspendedEVSE"
  }

  /** Blocks only on a fresh report that the car is unplugged. */
  predicate PlugBlocked(report: PlugReport, now: int) {
    var maxAge := 2 * report.pollMinutes * 60;
    report.checked && report.plugStatus == "0" && report.reportedAt.Some?
    && now - report.reportedAt.value <= (if maxAge < 1800 then 1800 else maxAge)
  }

  predicate Reachable(seen: Observation) { seen.hasCharger && seen.connected }

  /** What the mode asks for, before any cooldown. */
  function Wish(c: Call): Command {
    var plugged := PluggedIn(c.seen.status);
    var busy := c.seen.txnId > 0;
    if !Reachable(c.seen) || (c.seen.status == "SuspendedEV" && !c.forced) then Nothing
    else if c.mode == "off" then (if busy then Stop(c.seen.txnId) else Nothing)
    else if c.mode == "force" then (if plugged && !busy && !PlugBlocked(c.report, c.now) then Start else Nothing)
    else if !plugged then Nothing
    else if c.chargeTime && !busy then (if PlugBlocked(c.report, c.now) then Nothing else Start)
    else if !c.chargeTime && busy then Stop(c.seen.txnId)
    else Nothing
  }

  /** A confirmed state, an unplugged car or a click clears the matching cooldown. */
  predicate ResetsStart(c: Call) { c.forced || (Reachable(c.seen) && (c.seen.txnId > 0 || !PluggedIn(c.seen.status))) }

  predicate ResetsStop(c: Call) { c.forced || (Reachable(c.seen) && c.seen.txnId <= 0) }

  function Cleared(s: Cooldowns, c: Call): Cooldowns {
    Cooldowns(if ResetsStart(c) then None else s.lastStart, if ResetsStop(c) then None else s.lastStop)
  }

  predicate Cool(last: Option<int>, now: int) { last.None? || now - last.value >= COMMAND_COOLDOWN }

  /** What is actually sent. */
  function Sent(s: Cooldowns, c: Call): Command {
    match Wish(c)
    case Nothing => Nothing
    case Start => if Cool(Cleared(s, c).lastStart, c.now) then Start else Nothing
    case Stop(txnId) => if Cool(Cleared(s, c).lastStop, c.now) then Stop(txnId) else Nothing
  }

  function Next(s: Cooldowns, c: Call): Cooldowns {
    var cleared := Cleared(s, c);
    match Sent(s, c)
    case Nothing => cleared
    case Start => cleared.(lastStart := Some(c.now))
    case Stop(_) => cleared.(lastStop := Some(c.now))
  }

  /**
   A start goes out exactly when the mode, or the mode and the plan, ask for charging of an idle, reachable
   connector with a car at it, no report that the car is unplugged is fresh, and the click of a user, or
   a car not suspended and the last start 300 seconds old, lets it. A report is fresh for twice the polling
   interval, and for half an hour at least.
   */
  lemma StartsAreJustified(s: Cooldowns, c: Call)
    ensures Sent(s, c) == Start <==>
      && c.seen.hasCharger && c.seen.connected && c.seen.txnId <= 0
      && c.seen.status in {"Preparing", "Charging", "SuspendedEV", "SuspendedEVSE"}
      && (c.mode == "force" || (c.mode != "off" && c.chargeTime))
      && !(c.report.checked && c.report.plugStatus == "0" && c.report.reportedAt.Some?
           && c.now - c.report.reportedAt.value <= Max(1800, 120 * c.report.pollMinutes))
      && (c.forced || (c.seen.status != "SuspendedEV" && (s.lastStart.None? || c.now - s.lastStart.value >= 300)))
  {
    assert PlugBlocked(c.report, c.now) <==>
      c.report.checked && c.report.plugStatus == "0" && c.report.reportedAt.Some?
      && c.now - c.report.reportedAt.value <= Max(1800, 120 * c.report.pollMinutes);
    hide PlugBlocked, Max;
  }

  /** A stop names the open transaction, and goes out exactly when no charging is wanted. */
  lemma StopsAreJustified(s: Cooldowns, c: Call, txnId: int)
    ensures Sent(s, c) == Stop(txnId) <==>
      && c.seen.hasCharger && c.seen.connected && txnId == c.seen.txnId > 0
      && (c.mode == "off"
          || (c.mode != "force" && !c.chargeTime
              && c.seen.status in {"Preparing", "Charging", "SuspendedEV", "SuspendedEVSE"}))
      && (c.forced || (c.seen.status != "SuspendedEV" && (s.lastStop.None? || c.now - s.lastStop.value >= 300)))
  {
    hide PlugBlocked;
  }

  /**
   What is remembered after a pass: a command sent now, else the last one, unless a click, the transaction it
   asked for, or for starts an unplugged car, has cleared it.
   */
  lemma CooldownsFollow(s: Cooldowns, c: Call)
    ensures var reachable := c.seen.hasCharger && c.seen.connected;
      var plugged := c.seen.status in {"Preparing", "Charging", "SuspendedEV", "SuspendedEVSE"};
      var after := Next(s, c);
      && after.lastStart == (
           if Sent(s, c).Start? then Some(c.now)
           else if c.forced || (reachable && (c.seen.txnId > 0 || !plugged)) then None else s.lastStart)
      && after.lastStop == (
           if Sent(s, c).Stop? then Some(c.now)
           else if c.forced || (reachable && c.seen.txnId <= 0) then None else s.lastStop)
  {
    hide Sent;
  }

  // ----- runs -----

  function Run(s: Cooldowns, calls: seq<Call>): Cooldowns {
    if calls == [] then s else Next(Run(s, calls[..|calls| - 1]), calls[|calls| - 1])
  }

  /** Starts sent over a run from state `s`. */
  function Starts(s: Cooldowns, calls: seq<Call>): nat {
    if calls == [] then 0
    else
      var n := |calls| - 1;
      Starts(s, calls[..n]) + if Sent(Run(s, calls[..n]), calls[n]).Start? then 1 else 0
  }

  function Stops(s: Cooldowns, calls: seq<Call>): nat {
    if calls == [] then 0
    else
      var n := |calls| - 1;
      Stops(s, calls[..n]) + if Sent(Run(s, calls[..n]), calls[n]).Stop? then 1 else 0
  }

  function StartResets(calls: seq<Call>): nat {
    if calls == [] then 0
    else StartResets(calls[..|calls| - 1]) + if ResetsStart(calls[|calls| - 1]) then 1 else 0
  }

  function StopResets(calls: seq<Call>): nat {
    if calls == [] then 0
    else StopResets(calls[..|calls| - 1]) + if ResetsStop(calls[|calls| - 1]) then 1 else 0
  }

  ghost predicate Timely(calls: seq<Call>) {
    forall i, j :: 0 <= i < j < |calls| ==> calls[i].now <= calls[j].now
  }

  /** The run's state was reached by its own time. */
  ghost predicate Past(s: Cooldowns, now: int) {
    (s.lastStart.Some? ==> s.lastStart.value <= now) && (s.lastStop.Some? ==> s.lastStop.value <= now)
  }

  /** Every start but the first is paid for by 300 seconds or by a reset. */
  ghost predicate StartPaid(s: Cooldowns, calls: seq<Call>)
    requires calls != []
  {
    var first, now, last := calls[0].now, calls[|calls| - 1].now, Run(s, calls).lastStart;
    var sent, resets := 300 * Starts(s, calls), 300 * StartResets(calls);
    match last
    case None => sent <= now - first + resets
    case Some(at) => at <= now && (Starts(s, calls) > 0 ==> sent <= at - first + 300 + resets)
  }

  lemma {:induction false} StartBudget(s: Cooldowns, calls: seq<Call>)
    requires Timely(calls) && calls != [] && Past(s, calls[0].now)
    ensures StartPaid(s, calls)
  {
    var n := |calls| - 1;
    var before := calls[..n];
    if n > 0 {
      assert before[0] == calls[0] && before[n - 1] == calls[n - 1];
      StartBudget(s, before);
    } else {
      assert before == [];
    }
  }

  /** The same account for stops. */
  ghost predicate StopPaid(s: Cooldowns, calls: seq<Call>)
    requires calls != []
  {
    var first, now, last := calls[0].now, calls[|calls| - 1].now, Run(s, calls).lastStop;
    var sent, resets := 300 * Stops(s, calls), 300 * StopResets(calls);
    match last
    case None => sent <= now - first + resets
    case Some(at) => at <= now && (Stops(s, calls) > 0 ==> sent <= at - first + 300 + resets)
  }

  lemma {:induction false} StopBudget(s: Cooldowns, calls: seq<Call>)
    requires Timely(calls) && calls != [] && Past(s, calls[0].now)
    ensures StopPaid(s, calls)
  {
    var n := |calls| - 1;
    var before := calls[..n];
    if n > 0 {
      assert before[0] == calls[0] && before[n - 1] == calls[n - 1];
      StopBudget(s, before);
    } else {
      assert before == [];
    }
  }

  /**
   Commands are rate-bounded over every run, from any state: a run of L seconds sends at most
   1 + L/300 starts plus one for each reset, and likewise for stops.
   */
  lemma CommandsAreBounded(s: Cooldowns, calls: seq<Call>)
    requires Timely(calls) && calls != [] && Past(s, calls[0].now)
    ensures var seconds := calls[|calls| - 1].now - calls[0].now;
      && Starts(s, calls) <= 1 + seconds / 300 + StartResets(calls)
      && Stops(s, calls) <= 1 + seconds / 300 + StopResets(calls)
  {
    StartBudget(s, calls);
    StopBudget(s, calls);
  }
}
