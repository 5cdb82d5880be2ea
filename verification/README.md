# Charging planner, session ledger and energy accounts

A Dafny model of the parts of the charging server that decide when a car charges, what its
sessions cost, and what the house used meanwhile. It has three components:

- **Planner** (`Fragment`, `Selection`, `Planner`, `Forces`, `Slots`, `Pipeline`, `Merge`, `Recompute`, `Automatic`,
  `Continuity`, `Ranks`, `Honours`, `Targets`, `Disturbances`, `Profile`, `Fingerprint`, `ProfileCache`, `EndToEnd`,
  `Scheduling`, `Runs`, `Held`, with `Spans`, `Plan`, `Costing`, `OverrideTable`, `Sorting` and `Arithmetic` below
  them). Tariff rates are
  carved around the user's overrides, the cheapest hours before each of two deadlines are picked, forced windows are
  merged in, a running slot is kept, and the plan is compiled into an OCPP step profile that is sent only when its
  future has changed.
- **Control and sessions** (`Control`, `Ledger`, `LedgerLaws`, `Handlers`, `Storage`, `Ocpp`, `Closers`). Remote commands with
  their cooldowns; the OCPP handlers, the persisted connector rows, the session table, the chart markers
  and the energies credited to the state-of-charge estimate; restarts.
- **Energy** (`Idle`, `Meter`, `Costing`). Gaps between sessions, energy from stored hours or from the
  meter, meter resets, and the cost of a session.

Times are whole seconds at a fixed offset, with days of 86400 seconds; energy, power and money are
reals, and `math.Round(x*100)/100` is the function `Hundredths`. Code that changes state in steps is a
class or a method over an array or sequence, proved against functions and predicates on values; the
laws are lemmas about those, and run lemmas go by induction over sequences of calls or messages.
`Slice` in `Merge` is a Go slice with its backing array, so that appending into spare capacity is
visible. `sort.Slice` and SQL row orders that are not fixed are any sorted permutation, or any order.

The plan theorems speak of what `Scheduling.PlanFromScratch` and `Scheduling.Scheduler.Recompute` are proved to
establish for every input, and the ledger theorems of what the handlers of `Ocpp.Server` do. `Runs` and `Held` put
recomputes, cancellations, clearing, charger boots and process restarts in any order. In a quiet run (every recompute
has a chronological tariff of which it can pick no rate for both windows, and finds the running slot, if any,
undisturbed, see below) every plan stays chronological, which is what the profile compiler needs.

What the proofs found, besides what holds:

- While a slot runs, the recomputed plan is chronological exactly under the condition in
  `Continuity.RunningPlanOrdered`; on inputs, in price ranks, that of `Ranks.RunningPlanByRank`; with the deadline
  where it was and a running period that ends by it and before any rate across the first deadline, exactly when no
  force of a day that is not cancelled is due before the running slot's deadline
  (`Continuity.OnlyEarlierForcesDisturb`). It is not when the deadline is moved (`Disturbances.MovedDeadline`), a forced
  window that runs across its deadline is deleted (`Disturbances.DeletedForce`), or a force due earlier is added
  (`Disturbances.LateForce`). The first books the same period twice, and the profile then repeats an offset
  (`Profile.RepeatRepeatsOffset`).
- A rate that runs across a deadline is offered to both windows (`Planner.StraddlersAreOfferedTwice`). The plan is
  chronological exactly when no rate is picked twice (`Pipeline.FreshPlanOrdered`), which price ranks and hours needed
  decide (`Ranks.BaseByRank`); `Disturbances.StraddlerBookedTwice` is an input on which one is.
- While a slot runs, not every override is honoured. A force stands, its window at its power, exactly when it is due on
  another date than that slot, starts once the running period has ended, or is one of the periods the slot keeps, at
  the price they had (`Honours.ForceWhileRunning`); otherwise it is dropped, as `Disturbances.DroppedForce`. A block is
  ignored exactly by the periods the slot keeps: those up to the one under way, or all of them when there is no force
  and nothing worth planning (`Honours.BlockWhileRunning`, `Disturbances.IgnoredBlock`).
- After applying a plan the charger holds it exactly when the last send is 30 seconds old or it held that future
  already (`ProfileCache.ChargerHoldsPlanUnlessCooling`); otherwise the old profile stays
  (`ProfileCache.CoolingKeepsTheOldProfile`) until a later recompute.
- Nothing is sent when a day is cancelled or restored, nor by a recompute that ends without a plan or with nothing left,
  and a clear is sent only to an idle charger, which may refuse it, and only with a hash remembered, which a new process
  has not (`Held.ClearedAfterRestartStaysHeld`). `Held.StaysInStep` says event by event when the
  profile held still has the plan's future, `Held.InStepExactly` over whole runs. After `Held.CancelledDayStaysHeld`
  the charger keeps allowing full power in a window the user cancelled, and the recompute that follows sends nothing.
- A charger is without a limit outside the validity of the profile it holds, so in a blocked window it may be; but no
  transaction is started there, and one that is open is stopped (`EndToEnd.BlockedWindowsNeverStart`).
- A send whose answer is lost counts as failed though the charger may have taken it; the memory is then right exactly
  when nothing was remembered (`ProfileCache.LostAnswer`).
- A skipped profile send is faithful from the first remaining period on; before it the two profiles agree
  under the condition in `ProfileCache.BeforeFirstRemaining`, which `ProfileCache.GapBeforeTheFuture` fails. Powers are
  hashed to the watt (`ProfileCache.FractionsOfAWattAreLost`, `ProfileCache.EqualLimitsExactly`).
- Counting rates as hours falls short when rates are shorter than an hour, as fragments left by an override
  can be: `Selection.SufficesIffLongEnough` gives the exact condition, `Selection.HalfHoursGiveUp` an input.
- `nextDeadlineAfter` is strictly after its argument, unlike what its comment says; the model follows the code.
- `StopTransaction` records no energy for a session while an older one is still open
  (`LedgerLaws.StopRecordsEnergy`, with a run that does in `LedgerLaws.StopBehindAnOpenSession`).
- Memory and store would disagree after a boot of a charge point that has an open transaction on record and is handled
  before its connect handler, and only then (`LedgerLaws.BootOfUnknown`, `LedgerLaws.BootFirstDisagrees`).
- With handlers interleaved, one session can be credited to the estimate twice (`Closers.RaceOutcome`,
  `Closers.DoubleCredit`); the ledger laws take each handler as one step, as the one outstanding call per
  side of OCPP-J 1.6, section 4.1.1, allows.
- A sensor missing from a meter response reads as 0. Growth is true exactly when none is missing while the register
  stands above the reset threshold; each such gap counts the whole register again (`Meter.GrowthIsTrueUnlessMissed`,
  and with restarts `Meter.GrowthOverRestarts`).
- A day rebuilt from stored hours balances exactly when no gap's energy is negative (`Idle.RebuiltDayBalances`), which
  a stored hour with a negative value breaks (`Idle.NegativeHourUnbalances`).

## Model

| member | source | states |
|---|---|---|
| Runs.ForcedWindowsHoldOverRuns | internal/scheduler/scheduler.go:1169-1530 | over every quiet run that ends in a recompute, a slot running or not, sent past the cooldown or held already: at every later second of a force whose day is not cancelled and that a running slot leaves standing, the profile the charger holds allows a power rounding to the forced one |
| Runs.BlockedWindowsHoldOverRuns | internal/scheduler/scheduler.go:1169-1530 | over such runs, at every later second of a blocked window that no period left of the running slot covers (those up to the one under way, or the whole slot when there is no force and nothing worth planning), the profile the charger holds allows 0 W from its start to its end and sets no limit outside |
| Runs.RunningPeriodHoldsOverRuns | internal/scheduler/scheduler.go:1325-1530 | over such runs with a slot running, whatever the new prices and settings, the profile held allows the running period's power until that period ends |
| Runs.LeftoverIsTheRunningPeriod | internal/scheduler/scheduler.go:641-693 | from now on such a second is exactly one of the running period, or one of any period of the slot when there is no force and nothing worth planning |
| Runs.FirstRecomputeSends | internal/scheduler/scheduler.go:1169-1530 | such runs exist for every force that has not ended: a new process's first recompute with it |
| Runs.NextRecomputeSends | internal/scheduler/scheduler.go:1169-1530 | and so does a recompute made while the force runs, past the cooldown |
| Runs.QuietRunsStayTidy | internal/scheduler/scheduler.go:1169-1432 | over every quiet run of recomputes, cancellations, clearing, boots and restarts each plan has one slot a day, all chronological and apart |
| Runs.QuietRunsAreLegal | internal/scheduler/scheduler.go:1480-1530 | the sends of such a run are what the profile cache's laws about limits ask for: chronological plans, in time order |
| Runs.RunningPeriodsStay | internal/scheduler/scheduler.go:512-560 | over every quiet run a period under way at each recompute stays in the plan until the user cancels its day or clears the plan |
| Held.StaysInStep | internal/scheduler/scheduler.go:398-490 | event by event: a charger that holds the plan's future holds it after a recompute exactly when that reaches the charger or leaves the future as it was, after a cancel or restore exactly when the switched slot has nothing left, after a clear exactly when it is sent and obeyed or nothing was left, after a boot exactly when nothing was left, and after a restart always |
| Held.InStepAfter | internal/scheduler/scheduler.go:1480-1530 | whatever the charger held before: after an event its future is the plan's exactly when the event restores that, or what it then holds had that future already |
| Held.RunStaysInStep | internal/scheduler/scheduler.go:1169-1530 | the same for every event of every run, quiet or not |
| Held.InStepOverRuns | internal/scheduler/scheduler.go:1169-1530 | over every run a charger once in step stays so while each event keeps it so |
| Held.InStepLater | internal/scheduler/profile.go:121-137 | a charger in step is still in step at any later time, while nothing happens |
| Held.InStepExactly | internal/scheduler/scheduler.go:1169-1530 | over every run the charger is in step exactly when the plan last sent and not wiped since has the future of the current plan |
| Held.HeldIsLastSent | internal/scheduler/scheduler.go:1480-1530 | over every run what the charger holds is the plan of the last send, gone after a boot or a clear that is sent and obeyed |
| Held.InStepLimits | internal/scheduler/profile.go:21-137 | a charger in step with a chronological plan allows the plan's powers to the watt, and where the plan has none 0 W from the start of its profile to its end |
| Held.CancelledDayStaysHeld | internal/scheduler/scheduler.go:429-458 | a run (force planned and sent, its day cancelled, recomputed) after which nothing is left of the plan and the charger still allows the forced power throughout the window |
| Held.ClearedAfterRestartStaysHeld | internal/scheduler/scheduler.go:398-417 | a run (force planned and sent, restart, clear) after which there is no plan and the charger, which would have obeyed, still allows the forced power throughout the window |
| Continuity.RunningPlanOrdered | internal/scheduler/scheduler.go:641-739 | while a slot runs the recomputed plan is chronological exactly when each slot of the plan from scratch with another date, not cancelled, is dated later and starts once the running period has ended |
| Continuity.OnlyEarlierForcesDisturb | internal/scheduler/scheduler.go:1169-1432 | on inputs: with the deadline unmoved and a running period ending by it and before any rate across the first deadline starts, exactly when no force of a day not cancelled is due before the running slot's deadline |
| Ranks.RunningPlanByRank | internal/scheduler/scheduler.go:1169-1432 | on inputs, the deadline moved or not: the recomputed plan is chronological exactly when every force, and every carved rate with fewer cheaper ones in its window than hours needed, is of the running slot's date or a cancelled one, or is due later and starts once the running period has ended |
| Ranks.BaseByRank | internal/scheduler/scheduler.go:1534-1673 | on inputs: the plan from scratch is chronological exactly when no carved rate of both windows has fewer cheaper ones in each than the hours needed there |
| Ranks.RanksPickOnce | internal/scheduler/scheduler.go:1534-1673 | so without such a rate no recompute with those inputs can pick a rate for both windows |
| Ranks.RunningPlanLoosely | internal/scheduler/scheduler.go:1169-1432 | whatever prices are shared: the recomputed plan is chronological if the forces keep clear of the running period, and so does every carved rate with fewer cheaper ones than hours needed for the whole target |
| Ranks.PickedTwiceBounds | internal/scheduler/scheduler.go:1615-1643 | whatever prices are shared: a rate picked for both windows has fewer cheaper ones than hours needed in each, and one with fewer as cheap or cheaper is picked for both |
| Ranks.PlanByRank | internal/scheduler/scheduler.go:1534-1673 | how many windows are tried and which rates each picks, by price rank and hours needed |
| Ranks.ChoiceByRank | internal/scheduler/scheduler.go:1615-1643 | unless rates of one price are both picked and left out, the picked ones are those with fewer cheaper ones than the number asked |
| Ranks.RankBounds | internal/scheduler/scheduler.go:1615-1643 | with prices shared across the cut: a picked rate has fewer cheaper ones than the number asked, and one with fewer as cheap or cheaper is picked |
| Ranks.DistinctPricesAllDecide | internal/scheduler/scheduler.go:1615-1643 | carved rates of distinct prices leave nothing to the order of equals, so the results by rank apply |
| Honours.ForceWhileRunning | internal/scheduler/scheduler.go:641-693 | while a slot runs, for any tariff, the recomputed plan has the window of a force whose day is not cancelled, at its power, exactly when it is due on another date, starts once the running period has ended, or is among the periods the slot keeps |
| Honours.BlockWhileRunning | internal/scheduler/scheduler.go:1325-1384 | while a slot runs, for any tariff, a period that meets a block is in the recomputed plan exactly when it is one the running slot keeps: those up to the one under way, or all when there is no force and nothing worth planning |
| Honours.RunningPlanRespects | internal/scheduler/scheduler.go:1325-1384 | while a slot runs, for any tariff, every period of the new plan is that slot's own or respects all overrides |
| Automatic.NoBaseExactly | internal/scheduler/scheduler.go:1240-1340 | on inputs: there is no plan from scratch exactly when there is no force and no free affordable second up to the second deadline, no target left by the forces, no power, or headroom of -100% or less |
| Automatic.FreeExactly | internal/scheduler/scheduler.go:1240-1320 | when a second is free and affordable at a price: some rate has that price there, no override holds it, the price is not 0 and within the maximum price unless the battery is below its minimum, and negative above the skip level |
| Automatic.BaseServes | internal/scheduler/scheduler.go:1260-1320 | on inputs: the automatic periods due by the two deadlines are cheapest choices of the carved rates of the two windows, for the hours the target less the forces takes, then for what the first, rounded, leaves wanted |
| Targets.NoPlanExactly | internal/scheduler/scheduler.go:1325-1350 | with no slot running a recompute ends without a plan exactly then; with one it then keeps that slot and nothing else |
| Targets.RecomputeServes | internal/scheduler/scheduler.go:1169-1432 | the automatic periods of every recomputed plan, no slot running, are those cheapest choices, cancelled days included |
| Targets.RecomputeIsCheapest | internal/scheduler/scheduler.go:1615-1673 | no free second left out of a window is cheaper than an automatic period the recomputed plan has for that window |
| Targets.NoChoiceCheaper | internal/scheduler/scheduler.go:1615-1673 | and no other choice of as many of that window's carved rates has a lower sum of prices |
| Targets.AutomaticPricesAllowed | internal/scheduler/scheduler.go:1534-1612 | on inputs: every automatic period of a recomputed plan, no slot running, lies in a rate of its price, not 0, at most the maximum price unless there is none or the battery is below its minimum, negative when the battery is above the skip level, at the live power or else the setting |
| Targets.NeverOvershoots | internal/scheduler/scheduler.go:1615-1673 | with rates of at most an hour, what a cheapest choice plans for a window stays below the target with headroom plus one hour, and nothing is planned for the second window once the first, rounded, reaches the target |
| Targets.RecomputeNeverOvershoots | internal/scheduler/scheduler.go:1534-1612 | on inputs, no slot running: that bound for every recompute, with the target less the energy of the forces |
| Targets.RecomputeNeverGivesUp | internal/scheduler/scheduler.go:1534-1612 | the recomputed plan, no slot running, carries the target less 0.005 kWh with its forces, or uses every free affordable second up to the second deadline, if the windows' cheapest choices last the hours they count |
| Targets.HourlyRecomputeNeverGivesUp | internal/scheduler/scheduler.go:1534-1612 | the same with no such condition for rates of an hour or more, overrides that take whole rates, and headroom not negative |
| Targets.RunningRecomputeServes | internal/scheduler/scheduler.go:1325-1384 | while a slot runs and something else is planned, the recomputed plan is one that serves the target so, in full on other dates and on the running slot's own from the end of the running period on |
| Continuity.RecomputeKeepsTidy | internal/scheduler/scheduler.go:1169-1432 | on every path, when no rate can be picked for both windows, a tidy plan whose running slot, if any, is undisturbed is followed by a tidy one |
| Continuity.MergedIntoOrdered | internal/scheduler/scheduler.go:698-739 | installing the continued slot in a tidy plan leaves it chronological exactly when every other active slot keeps clear of the running period |
| Disturbances.MovedDeadline | internal/scheduler/scheduler.go:641-739 | a deadline moved while a window runs leaves that period in the plan twice |
| Disturbances.DeletedForce | internal/scheduler/scheduler.go:641-739 | a deleted force that runs across its deadline overlaps one added behind it |
| Disturbances.LateForce | internal/scheduler/scheduler.go:641-739 | a force due earlier, added while an hour runs, overlaps it |
| Disturbances.DroppedForce | internal/scheduler/scheduler.go:671-674 | a force added while an hour runs, starting before it ends, of which the new plan has nothing |
| Disturbances.IgnoredBlock | internal/scheduler/scheduler.go:535-560 | with nothing more wanted a running slot is kept whole, and a block over its later period changes nothing |
| Disturbances.StraddlerBookedTwice | internal/scheduler/scheduler.go:1534-1612 | a tariff and target for which one rate is picked for both windows and booked twice |
| EndToEnd.ForcedWindowsReachTheCharger | internal/scheduler/scheduler.go:1169-1530 | after a recompute, a slot running or not, and a send that reached the charger, over any run of sends of chronological plans, the held profile allows at every later second of a wanted force a power rounding to the forced one, and that power for plans of whole watts |
| EndToEnd.BlockedWindowsReachTheCharger | internal/scheduler/scheduler.go:1169-1530 | the same for blocked windows, but for seconds of periods left of the running slot: 0 W from the start of the held profile to its end, no limit outside |
| EndToEnd.ForcedWindowsAreCompiled | internal/scheduler/profile.go:21-87 | the profile compiled from that plan, if chronological, allows exactly the forced power at every second of a wanted force |
| EndToEnd.BlockedWindowsAreCompiled | internal/scheduler/profile.go:21-87 | at every second of a blocked window that no period left of the running slot covers it allows 0 W exactly within its validity |
| EndToEnd.ForceIsPlanned | internal/scheduler/scheduler.go:1169-1432 | for any tariff, a slot running or not, the recomputed plan has the window of a force whose day is not cancelled, at its power, exactly when no running slot pushes it aside |
| EndToEnd.BlockedWindowsNeverStart | internal/scheduler/scheduler.go:1029-1111 | at a second of a blocked window that no period left of the running slot covers it is not charge time: in schedule mode no pass sends a start, and an open transaction of a plugged, reachable connector is stopped once the last stop is 300 seconds old |
| EndToEnd.BlockedIsIdle | internal/scheduler/scheduler.go:1169-1432 | for any tariff and any plan before, some active period of the recomputed plan covers a blocked second exactly when a period left of the running slot does |
| Recompute.RecomputedPlanIsGood | internal/scheduler/scheduler.go:1169-1432 | with no slot running, for any tariff, every active period is apart from every override or is that override, each force stands verbatim in the slot of its next deadline, inactive only on a cancelled day; when no rate can be picked for both windows the plan is tidy |
| Recompute.WhatIsRecomputed | internal/scheduler/scheduler.go:1179-1243 | the plan stays as it was with a transaction open on a reachable charger, without settings, or with neither rate nor force; in every other case it is what becomes of the old plan and a plan from scratch |
| Recompute.TargetFillsBattery | internal/scheduler/scheduler.go:1221-1232 | with a capacity and a target charge set, the target energy brings the battery from its charge to exactly that one, or is 0 above it; else the setting stays |
| Recompute.RecomputedTotals | internal/scheduler/scheduler.go:494-530 | whatever path a recompute takes, every slot's totals are the rounded ones of its periods and the plan's those of its slots, if the old plan's slots were so |
| Recompute.RecomputedDeadline | internal/scheduler/scheduler.go:494-530 | and the plan's deadline is that of a slot, from 0 on, with no slot that is not cancelled due later |
| Recompute.NoneAcrossPicksOnce | internal/scheduler/scheduler.go:1567-1574 | with no rate across the first deadline none can be picked for both windows |
| Recompute.RecomputeKeepsCharging | internal/scheduler/scheduler.go:1169-1432 | if it is charge time before a recompute it is charge time after, on every path |
| Recompute.RunningPeriodSurvives | internal/scheduler/scheduler.go:512-560 | whatever the previous plan, its first running period, with bounds, power and price, is in the recomputed plan |
| Scheduling.Scheduler.Recompute | internal/scheduler/scheduler.go:1169-1432 | an open transaction on a reachable charger leaves the plan and what is remembered of sends alone; with none, settings, and a rate or a force, the plan is what becomes of the old one and a plan from scratch, with its totals, and is applied: what is sent is its profile; a charge in progress goes on |
| Scheduling.Scheduler.UpdatePlan | internal/scheduler/scheduler.go:1169-1384 | the same two cases for the plan alone, and when there is a plan to apply |
| Scheduling.PlanFromScratch | internal/scheduler/scheduler.go:1240-1323 | carve, select and merge give a plan from scratch, totalled, for all inputs: the automatic part is there whenever it is allowed, on the carved tariff |
| Scheduling.AutomaticPart | internal/scheduler/scheduler.go:1260-1320 | what the forces leave of the target is planned on the carved rates, or nothing is |
| Scheduling.ReplacePlan | internal/scheduler/scheduler.go:1325-1384 | what becomes of the plan, its totals and its deadline given the running slot and the plan from scratch |
| Scheduling.MarkCancelled | internal/scheduler/scheduler.go:1351-1373 | cancelled dates stay cancelled, nothing else changes, totals follow and the deadline stays |
| Scheduling.Scheduler.constructor | internal/scheduler/scheduler.go:202-216 | a new process remembers no send, the charger holds what it held, and the plan is what persistence kept |
| Scheduling.Scheduler.LoadPersisted | internal/scheduler/scheduler.go:222-286 | exactly the slots with a period still to end are restored |
| Scheduling.KeptSlots | internal/scheduler/scheduler.go:235-253 | a slot is restored exactly when one of its periods ends later |
| Scheduling.RestartKeepsRemaining | internal/scheduler/scheduler.go:235-253 | pruning at restart loses no active period that has not ended |
| Scheduling.Scheduler.ApplyProfile | internal/scheduler/scheduler.go:1480-1530 | the method is one step of the profile cache; what is sent is the compiled plan |
| Scheduling.Scheduler.ResetProfileState | internal/scheduler/scheduler.go:334-339 | a boot forgets hash, cooldown and held profile |
| Scheduling.Scheduler.ClearSchedule | internal/scheduler/scheduler.go:398-426 | plan, settings and hash go; the charger is told exactly when a hash was remembered and it is connected and idle, and forgets its profile if it obeys; that is one step of the profile cache |
| Scheduling.Scheduler.CancelSlot | internal/scheduler/scheduler.go:429-458 | the first slot of the date that is not cancelled is, totals follow, and a control pass on the new plan sends its command; otherwise nothing changes |
| Scheduling.Scheduler.RestoreSlot | internal/scheduler/scheduler.go:461-490 | the same the other way |
| Scheduling.TidyPlansRestore | internal/scheduler/scheduler.go:429-490 | on a plan with one slot a day, as quiet runs keep it, restoring undoes every cancellation |
| Scheduling.CancelThenRestore | internal/scheduler/scheduler.go:429-507 | on such a plan with its totals, cancelling a day and restoring it gives back the whole plan: slots, totals and deadline |
| Scheduling.CancelTakesOut | internal/scheduler/scheduler.go:494-507 | a cancelled slot's energy and cost leave the sums, and nothing else does |
| Scheduling.RestoreUndoesCancel | internal/scheduler/scheduler.go:429-490 | restoring undoes a cancellation exactly when the cancelled slot was the first of its date |
| Scheduling.Scheduler.SetConfig | internal/scheduler/scheduler.go:366-382 | the given settings, not the stored ones, drive the recompute, whose plan is applied |
| Scheduling.Scheduler.ReloadConfig | internal/scheduler/scheduler.go:387-395 | the stored settings count again and a recompute is asked for |
| Scheduling.Scheduler.UpdateLivePower | internal/scheduler/scheduler.go:872-883 | a power more than a tenth above or below the last positive one recomputes and applies the plan, any other leaves everything alone, and neither ends a running charge |
| Scheduling.Scheduler.ControlCharging | internal/scheduler/scheduler.go:1029-1111 | the command sent, both cooldowns and the start marker after one pass, for every mode, status and report |
| Scheduling.Scheduler.OnModeChanged | internal/scheduler/scheduler.go:856-869 | a click clears both cooldowns, acts on the plan at once and asks for a recompute |
| Scheduling.Scheduler.SendStart | internal/scheduler/scheduler.go:1113-1136 | a start is sent exactly when the last one is 300 seconds old or was confirmed, and marked when the charger takes it |
| Scheduling.Scheduler.SendStop | internal/scheduler/scheduler.go:1138-1157 | the same for stops |
| Control.StartsAreJustified | internal/scheduler/scheduler.go:1029-1111 | a start goes out exactly when the mode asks for charging, the connector is reachable, without transaction and in one of the four plugged statuses, no report of status "0" at most 30 minutes or two polls old stands in the way, and the pass is forced or the battery not full and the last start 300 seconds old |
| Control.StopsAreJustified | internal/scheduler/scheduler.go:1029-1111 | a stop names the open transaction and goes out exactly when the mode is off, or neither forces nor finds charge time with the car plugged in, and the pass is forced or the battery not full and the last stop 300 seconds old |
| Control.CooldownsFollow | internal/scheduler/scheduler.go:1043-1050 | a start command cools until a transaction or an unplugged car is seen, a stop command until there is no transaction, and both until the user clicks |
| Control.CommandsAreBounded | internal/scheduler/scheduler.go:1029-1157 | over any run of L seconds starts number at most 1 + L/300 + resets, and so do stops |
| Control.StartBudget | internal/scheduler/scheduler.go:1043-1050 | every start but the first is paid for by 300 seconds or by a reset |
| Control.StopBudget | internal/scheduler/scheduler.go:1043-1050 | every stop but the first is paid for by 300 seconds or by a reset |
| ProfileCache.ChargerHoldsPlanUnlessCooling | internal/scheduler/scheduler.go:1480-1530 | over every run: after applying a plan with a future to a charger that takes it, the charger holds that future exactly when the last send is 30 seconds old or it held it already |
| ProfileCache.SendsExactly | internal/scheduler/scheduler.go:1480-1530 | over every run an apply sends exactly when a charger takes it, something is left of the plan, its hash is not the remembered one, and the last send since a boot or new process is 30 seconds old |
| ProfileCache.CooldownIsLastSend | internal/scheduler/scheduler.go:1506-1522 | over every run the cooldown counts from that last send, whatever was cleared since |
| ProfileCache.CoolingKeepsTheOldProfile | internal/scheduler/scheduler.go:1506-1513 | of two plans with different futures applied in turn the charger is left with the first when they are less than 30 seconds apart, else with the second |
| ProfileCache.LostAnswer | internal/ocpp/requests.go:223-228 | after a send the charger takes but whose answer is lost, the remembered hash is right exactly when there was none; the next try of that plan mends it, and an apply of the plan remembered is wrongly skipped |
| ProfileCache.DedupIsSound | internal/scheduler/scheduler.go:1480-1530 | over every run, when a send is skipped as unchanged nothing changes; and of chronological plans, at every later second from the first remaining start to the end, the held profile and a fresh one give the powers of their plans, rounding to the same watt, equal for whole watts |
| ProfileCache.RunIsFaithful | internal/scheduler/scheduler.go:1480-1530 | a remembered hash is that of what the charger holds, which came from an earlier send of a plan with a future |
| ProfileCache.SameTextSameLimits | internal/scheduler/profile.go:121-137 | equal future texts mean limits that round alike, within 1 W, for any two profiles that mean their plans |
| ProfileCache.EqualLimitsExactly | internal/scheduler/profile.go:121-137 | of two chronological plans with equal future texts: they ask for equal powers at every later second exactly when their remaining powers are equal line by line |
| ProfileCache.BeforeFirstRemaining | internal/scheduler/profile.go:121-137 | before the first remaining start the profiles agree exactly when both plans have started or neither has |
| ProfileCache.GapBeforeTheFuture | internal/scheduler/profile.go:121-137 | two plans with equal futures of which only one has started |
| ProfileCache.FractionsOfAWattAreLost | internal/scheduler/profile.go:121-137 | a run in which a plan at 1000.4 W is skipped after one at 1000 W, which the charger keeps |
| Fingerprint.ScheduleHash | internal/scheduler/profile.go:121-137 | the digest of the future's text, empty exactly when nothing remains |
| Fingerprint.TextInjective | internal/scheduler/profile.go:121-137 | the text determines every remaining period's bounds, and its power to the watt |
| Profile.BuildProfile | internal/scheduler/profile.go:21-87 | the profile is the compiled form of the active periods, in order or not, and none exactly when there are none; for a chronological plan, read as in section 7.14 of OCPP 1.6, it gives the plan's power at every second, offsets start at 0 and strictly increase, blocks are consolidated |
| Profile.CompileMeans | internal/scheduler/profile.go:21-87 | the compiled form of a chronological list means it, second by second |
| Profile.RepeatRepeatsOffset | internal/scheduler/profile.go:21-87 | a period held twice gives two entries at one offset |
| Plan.ActivePeriods | internal/scheduler/scheduler.go:97-108 | the periods of slots that are not cancelled, in order |
| Plan.ActiveSlot | internal/scheduler/profile.go:163-180 | the first slot with a running period, -1 exactly when it is not charge time |
| Plan.IsChargeTime | internal/scheduler/profile.go:141-157 | some slot that is not cancelled has a period under way with power |
| Plan.ChargeTimeIsActivePeriod | internal/scheduler/profile.go:141-180 | it is charge time exactly when a period handed to the profile compiler is running |
| Plan.RecalcSlotTotals | internal/scheduler/overrides.go:131-141 | a slot's totals become the rounded totals of its periods |
| Plan.TotalSchedule | internal/scheduler/scheduler.go:494-507 | a plan's totals become the rounded totals of its slots that are not cancelled |
| Plan.LatestIsReached | internal/scheduler/scheduler.go:494-507 | the deadline of a merged plan is the latest of its slots that are not cancelled |
| Merge.MergePeriods | internal/scheduler/scheduler.go:641-693 | truncating a clone and appending into it keeps the periods up to the running one and the later recomputed ones, and leaves the previous plan's array unwritten |
| Merge.Append | internal/scheduler/scheduler.go:669-676 | appends in place while there is capacity, into a new array otherwise |
| Merge.Clone | internal/scheduler/scheduler.go:512-516 | a fresh array with the same contents |
| Merge.MergeActiveSlot | internal/scheduler/scheduler.go:641-693 | the running slot continued, or itself, is installed in the plan |
| Merge.MergeInProgressSlot | internal/scheduler/scheduler.go:698-739 | the slot replaces the first of its date or goes before the first later date; totals and deadline follow |
| Merge.MergeContents | internal/scheduler/scheduler.go:641-693 | a merged slot holds exactly the old periods up to the running one and the recomputed ones starting once it ends |
| Merge.MergeStaysOrdered | internal/scheduler/scheduler.go:641-693 | chronological inputs give the kept periods verbatim followed by the later ones, in order |
| Merge.InstallKeepsOtherDates | internal/scheduler/scheduler.go:698-739 | slots of other dates keep content and order, and the slot is in the plan |
| Pipeline.FreshPlanOrdered | internal/scheduler/scheduler.go:1240-1323 | the plan from scratch is chronological exactly when no rate was picked for both windows, and then tidy |
| Pipeline.FreshPlanIsPlaced | internal/scheduler/scheduler.go:1240-1323 | for any tariff each period of it respects every override; a forced one is an override in the slot of its next deadline, an automatic one lies within a rate, has not ended and is due in one of the two windows |
| Pipeline.FreshPlanHoldsForces | internal/scheduler/overrides.go:65-128 | every force stands verbatim, not cancelled, in the slot of its next deadline |
| Pipeline.AutomaticPlan | internal/scheduler/scheduler.go:1534-1612 | both windows' slots are sound, chronological, due at their deadlines and made of offered rates; they lie apart exactly when nothing was picked twice |
| Pipeline.PickedTwiceRunsAcross | internal/scheduler/scheduler.go:1567-1574 | only a rate that runs across the first deadline can be picked for both windows |
| Pipeline.MergedIsTidy | internal/scheduler/overrides.go:65-128 | merging forces that meet nothing keeps one slot a day, ordered, due and pairwise apart |
| Slots.NextDeadlineIsFirst | internal/scheduler/overrides.go:146-153 | the next deadline is the first one strictly after the time |
| Slots.TidyIsOrdered | internal/scheduler/scheduler.go:97-108 | the active periods of a tidy plan run in order across all slots, whichever are cancelled |
| Pipeline.PoolScattered | internal/scheduler/fragment.go:19-78 | automatic periods and forces never overlap, if no rate was picked for both windows |
| Pipeline.CarvedIsClear | internal/scheduler/fragment.go:19-78 | a carved rate shares no second with an override |
| Planner.ComputeSchedule | internal/scheduler/scheduler.go:1534-1612 | some sequence of at most two windows, each served by a cheapest choice for what is still wanted, makes the plan and its totals |
| Planner.PlanWindows | internal/scheduler/scheduler.go:1555-1594 | the second window is tried exactly when the first, by its rounded energy, leaves something wanted |
| Planner.OfferedRates | internal/scheduler/scheduler.go:1539-1574 | a window offers exactly the rates that meet it, are not priced 0, and are at most at the maximum price, if there is one and the battery is not below its minimum |
| Planner.NeverGivesUpEarly | internal/scheduler/scheduler.go:1534-1612 | the plan carries the target less 0.005 kWh, or holds every eligible rate of both windows |
| Planner.HourlyTariffNeverGivesUp | internal/scheduler/scheduler.go:1558-1594 | with rates of an hour or more and headroom not negative that always holds |
| Selection.ComputeSlot | internal/scheduler/scheduler.go:1615-1673 | for any tie order the slot holds a cheapest choice of the number of hours needed, chronologically, with rounded totals |
| Selection.SelectStarts | internal/scheduler/scheduler.go:1624-1643 | the marked rates are as many as asked, or all, and none left out is cheaper |
| Selection.BuildSlot | internal/scheduler/scheduler.go:1645-1672 | the marked rates become periods in their order, with their rounded totals |
| Selection.CheapestIsOptimal | internal/scheduler/scheduler.go:1615-1673 | no other choice of as many rates has a lower price sum |
| Selection.HoursNeededIsLeast | internal/scheduler/scheduler.go:1615-1623 | the hours counted are the least that carry the target raised by the headroom in per cent |
| Selection.PlannedCostIsSessionCost | internal/scheduler/scheduler.go:1645-1672 | a planned period costs what a session of its time and energy is charged at that rate |
| Selection.SlotMeetsTarget | internal/scheduler/scheduler.go:1615-1673 | with enough whole-hour rates the slot carries the target with headroom, and less than an hour's energy more |
| Selection.SufficesIffLongEnough | internal/scheduler/scheduler.go:1624-1643 | leaving rates out is safe for every target exactly when the cheapest choices last as many hours as they count |
| Selection.HalfHoursGiveUp | internal/scheduler/scheduler.go:1624-1643 | two half hours for which it is not |
| Fragment.FragmentRates | internal/scheduler/fragment.go:19-78 | a second is priced p afterwards exactly when it was before and no override claims it; each fragment is a largest free piece of one rate; order is kept |
| Fragment.FragmentsUnique | internal/scheduler/fragment.go:19-78 | for a chronological tariff those conditions determine the fragments |
| Fragment.MergeInPlace | internal/scheduler/fragment.go:35-44 | the in-place merge keeps the union of windows and leaves them apart |
| Fragment.CarveRate | internal/scheduler/fragment.go:47-67 | what is left of a rate is its time outside all windows, at its price, in order, in largest pieces |
| Fragment.FragmentTimeConserved | internal/scheduler/fragment.go:19-78 | kept time plus carved time is the rates' time |
| Forces.SplitForces | internal/scheduler/overrides.go:13-23 | the forced and the blocked overrides, each in order |
| Forces.BuildForcePeriods | internal/scheduler/overrides.go:29-47 | one priced period for each force, sorted by start |
| Forces.ForcePriceGivesCostBack | internal/scheduler/overrides.go:29-47 | a force's averaged price times its energy is what a session of that energy would cost |
| Forces.TotalForceEnergy | internal/scheduler/overrides.go:50-56 | the energy of the forced periods |
| Forces.MergeForces | internal/scheduler/overrides.go:65-128 | under each deadline the plan holds what the automatic plan held and the forces due by it; slots stay sorted, dated and totalled |
| Forces.InsertForce | internal/scheduler/overrides.go:81-105 | one force goes to the slot of its next deadline, opened if need be, and nothing else moves |
| OverrideTable.Table.Insert | internal/store/schedule_overrides.go:37-89 | a bad row or an overlap is refused with the table unchanged, otherwise the row is added and the table stays disjoint |
| OverrideTable.OverlapsExactly | internal/store/schedule_overrides.go:52-70 | two windows overlap exactly when they share a second; windows that only touch do not |
| OverrideTable.Table.Delete | internal/store/schedule_overrides.go:92-105 | removes exactly the row with the id, false when there is none |
| OverrideTable.Table.Load | internal/store/schedule_overrides.go:108-138 | exactly the rows ending later, by start, each ending by the next one's start |
| OverrideTable.Table.Purge | internal/store/schedule_overrides.go:141-151 | exactly the rows ending before the cutoff go |
| Costing.CalculateSessionCost | internal/store/rates.go:109-142 | energy spread evenly over the session, each part at the price of the hour it falls in; 0 without energy, time or rates |
| Costing.RatesForPeriod | internal/store/rates.go:78-103 | exactly the rates that touch the period, and leaving out the others changes no price |
| Costing.PriceOverPeriod | internal/scheduler/fragment.go:84-106 | energy and cost of constant power over a window |
| Costing.CostSplits | internal/store/rates.go:109-142 | the cost of constant power splits exactly at any instant |
| Costing.CostsAgree | internal/scheduler/fragment.go:84-106 | planner and session recorder price the same power over the same time alike |
| Costing.CostBetweenPrices | internal/store/rates.go:109-142 | over disjoint rates that cover it a session costs between lowest and highest price times energy |
| Costing.CoverCountsOnce | internal/store/rates.go:109-142 | disjoint rates count each second of a period once |
| LedgerLaws.StopMarkersAreCompletions | internal/ocpp/handler.go:189-227 | after any run stop markers and completed sessions agree in number and in times |
| LedgerLaws.CreditsAreEarned | internal/ocpp/handler.go:404-432 | the credited energies are the positive energies of completed sessions, each once, and so are their sums |
| LedgerLaws.ClosedForever | internal/store/sessions.go:82-98 | a closed session's row never changes |
| LedgerLaws.ClosedOnce | internal/store/sessions.go:82-98 | no transaction is closed by two steps of a run |
| LedgerLaws.TxnIdsIncrease | internal/ocpp/server.go:110-113 | ids handed out later are larger, across restarts, and each goes to the session it opens |
| LedgerLaws.RunAgrees | internal/ocpp/server.go:269-315 | for known charge points and connectors above 0, transaction and tag in memory are the persisted ones after any run |
| LedgerLaws.BootOfUnknown | internal/ocpp/handler.go:26-33 | a boot of an unknown charge point keeps that exactly when it has no open transaction on record |
| LedgerLaws.BootFirstDisagrees | internal/ocpp/handler.go:26-33 | a run, with a boot handled before any connection, after which they disagree |
| LedgerLaws.RunIsSane | internal/ocpp/handler.go:71-445 | in every reachable state ids ascend, the next id is fresh, markers and credits follow the sessions, and each connector's transaction is its own session with its tag |
| LedgerLaws.StepKeepsSane | internal/ocpp/handler.go:71-445 | every message keeps that, and only extends the table |
| LedgerLaws.RunExtends | internal/store/sessions.go:63-98 | the table at any moment is still there later, but for sessions closed since |
| LedgerLaws.RecordKeeps | internal/ocpp/handler.go:404-427 | one row closed and one marker, or neither, whichever handler closes |
| LedgerLaws.FinalizeSettles | internal/ocpp/handler.go:189-227 | an early finalize does nothing, or closes an active session with positive energy and credits it |
| LedgerLaws.StopRecordsEnergy | internal/ocpp/handler.go:404-421 | a stop records the metered energy exactly when its session is the one found active, or nothing was drawn; that energy is priced over the session |
| LedgerLaws.StopBehindAnOpenSession | internal/ocpp/handler.go:404-421 | a run of two starts and a stop of the second, which closes it with energy 0 for 7 kWh drawn |
| LedgerLaws.SessionsAreMetered | internal/ocpp/handler.go:189-227 | after any run a completed session's energy is its meter's difference, or it has neither energy nor cost |
| LedgerLaws.StopIsUnambiguous | internal/ocpp/handler.go:373-387 | at most one connector shows a given transaction, so the search order does not matter |
| LedgerLaws.RepeatedStatusIsSilent | internal/ocpp/handler.go:91-131 | a repeated status adds no plug or unplug marker, whatever restarts and reconnects lie between |
| Handlers.StatusCloses | internal/ocpp/handler.go:148-227 | SuspendedEV, SuspendedEVSE, Finishing or Faulted on a connector whose persisted transaction is the first active session, with a reading above its start, closes that session with the difference and its cost, one stop marker and one credit |
| Handlers.StatusLeavesOpen | internal/ocpp/handler.go:148-227 | any other status, no such session, no reading or one not above its start leaves sessions and credits as they were |
| Handlers.StatusIsNoted | internal/ocpp/handler.go:86-146 | where a status shows in memory and rows, and which marker it leaves: plugged for Preparing, unplugged for Available, each only when the persisted status was another |
| Handlers.ReadingExactly | internal/ocpp/handler.go:233-253 | the register in Wh, else its phase N, as kWh, else the logged reading |
| Handlers.StartShows | internal/ocpp/handler.go:296-360 | a start shows the next id and its tag on that connector and row alone, and opens the session at the given meter value in kWh |
| Handlers.StopFrees | internal/ocpp/handler.go:363-402 | a stop frees the matching connector and its row, and no other |
| Handlers.StopBooks | internal/ocpp/handler.go:404-432 | a stop closes the open rows of its transaction with the difference of the meter values and the cost, if it is the session found active, else with 0; one marker when there was such a row, one credit when the energy is positive |
| Handlers.ReleasedReadings | internal/ocpp/connector.go:146-162 | after a stop power, current and offered current read 0 in all phases; nothing else changes |
| Handlers.ReadingsAreMerged | internal/ocpp/handler.go:267-284 | new readings replace those of their measurand on one connector of a known charge point |
| Handlers.ConnectShows | internal/ocpp/server.go:124-151 | a connecting charge point brings status and open transaction of its rows if it was unknown, nothing otherwise |
| Handlers.OthersShow | internal/ocpp/server.go:70-172 | what a boot, a disconnect and a new process leave in memory |
| Handlers.ConnectedIsLastWord | internal/ocpp/server.go:124-169 | after any run a charge point counts as connected exactly if it has connected or booted and neither left nor seen a new process since |
| Handlers.StatusSurvives | internal/ocpp/server.go:269-315 | over any run with restarts and reconnects in which no unknown charge point boots, memory shows the last persisted status of every connector above 0 of a known charge point |
| Ocpp.Server.constructor | internal/ocpp/server.go:70-172 | a process starting on a store has its connectors, all disconnected, and the next free id |
| Ocpp.Server.HydrateAll | internal/ocpp/server.go:269-287 | memory shows every persisted row, whatever the row order |
| Ocpp.Server.HydrateBox | internal/ocpp/server.go:292-307 | one charge point's rows are added, others untouched |
| Ocpp.Server.ApplyConnectorState | internal/ocpp/server.go:309-315 | status always, transaction only when there is one; no other connector changes |
| Ocpp.Server.GetConnector | internal/ocpp/chargepoint.go:62-71 | the connector, added idle when missing |
| Ocpp.Server.OnConnect | internal/ocpp/server.go:124-151 | a known charge point keeps its memory, a new one is hydrated |
| Ocpp.Server.OnDisconnect | internal/ocpp/server.go:153-169 | only the connected flag changes |
| Ocpp.Server.OnBootNotification | internal/ocpp/handler.go:14-59 | the charge point is known and connected, without its rows if it was unknown |
| Ocpp.Server.OnStatusNotification | internal/ocpp/handler.go:71-167 | the method is one status step of the ledger |
| Ocpp.Server.NoteRow | internal/ocpp/handler.go:91-146 | markers for a transition of the persisted status, and the row with its transaction kept |
| Ocpp.Server.FinalizeSessionOnStop | internal/ocpp/handler.go:189-227 | the books after an early finalize |
| Ocpp.Server.CurrentEnergy | internal/ocpp/handler.go:233-253 | base register, else phase N, else the logged reading |
| Ocpp.Server.OnMeterValues | internal/ocpp/handler.go:267-284 | the connector's readings are updated, if the charge point is known |
| Ocpp.Server.OnStartTransaction | internal/ocpp/handler.go:296-360 | the method is one start step and hands out the next id |
| Ocpp.Server.OnStopTransaction | internal/ocpp/handler.go:363-445 | the method is one stop step for a connector that shows the transaction, if any does |
| Ocpp.Server.FindConnector | internal/ocpp/handler.go:373-387 | any connector of the charge point showing the transaction, none exactly when none does |
| Ocpp.Server.CompleteSession | internal/ocpp/handler.go:404-432 | row, marker and credit of a stop |
| Ocpp.Connector.StartTransaction | internal/ocpp/connector.go:129-134 | transaction and tag change, nothing else |
| Ocpp.Connector.StopTransaction | internal/ocpp/connector.go:146-162 | transaction and tag are cleared, power and current read 0, energy and voltage stay |
| Storage.Store.StartSession | internal/store/sessions.go:63-78 | adds an active row unless the transaction id is taken |
| Storage.Store.StopSession | internal/store/sessions.go:82-98 | closes exactly the active rows of the transaction, and says whether there was one |
| Storage.Store.ActiveSession | internal/store/sessions.go:164-171 | the first active row |
| Storage.Store.MaxTransaction | internal/ocpp/server.go:110-113 | the largest id in the table, 0 for an empty one |
| Storage.Store.AllConnectorStates | internal/store/connector_state.go:65-85 | every row is listed, in no fixed order |
| Closers.RaceOutcome | internal/ocpp/handler.go:189-227 | however any number of finalizes and stops interleave, one stop marker; one credit, plus one for each stop that read the session before another closed it |
| Closers.AtomicCreditsOnce | internal/ocpp/handler.go:404-432 | handlers taken whole give one marker and one credit, in any order |
| Closers.DoubleCredit | internal/ocpp/handler.go:429-432 | an interleaving that credits a session twice |
| Idle.NonChargingWindows | internal/store/idle.go:162-212 | the gaps are exactly the day's seconds in which no session charges, in order |
| Idle.GapSeconds | internal/store/idle.go:162-212 | a second of the day is in a gap exactly when every session starts after it or has stopped by it; an open one charges on |
| Idle.MergeWindows | internal/store/idle.go:216-232 | the windows' union, as windows that do not touch |
| Idle.InvertWindows | internal/store/idle.go:237-252 | exactly the seconds outside the windows, in order |
| Idle.DayIsPartitioned | internal/store/idle.go:162-252 | gaps and merged sessions partition the day |
| Idle.EnergyIsConserved | internal/store/idle.go:103-156 | stored energy over the gaps plus over the sessions is the day's |
| Idle.RebuiltDayBalances | internal/store/idle.go:91-156 | rebuilt idle energy plus charging energy is the day's exactly when no gap's balance is negative |
| Idle.NegativeHourUnbalances | internal/store/idle.go:91-156 | a day with a negative stored hour that does not balance |
| Idle.IdleIsGapEnergy | internal/store/idle.go:132-145 | skipping gaps without energy never lowers the sum, and keeps it exactly when no gap is negative |
| Idle.IdleCostIsFair | internal/store/idle.go:132-145 | idle energy costs between the lowest and the highest price of a tariff covering the gaps |
| Idle.MeteredIdleIsBounded | internal/store/idle.go:132-145 | metered idle energy is at most the meter's delta over the day |
| Idle.MeteredIdleOfTheDay | internal/store/idle.go:132-145 | in such a series metered idle energy is at most a thousandth of the day's last reading less its first |
| Idle.MeteredIdleOverRuns | internal/meter/meter.go:138-165 | that bound for the stored series of any run of the meter, resets and restarts included |
| Idle.Accounts.ComputeDailyIdle | internal/store/idle.go:103-156 | the day's row is the idle energy and cost over the gaps up to now; with too little data nothing is written |
| Idle.EnergyFromHours | internal/store/pstryk_consumption.go:114-161 | every stored hour counts by its share of the window |
| Idle.HoursCountByShare | internal/store/pstryk_consumption.go:114-161 | a stored hour adds a thousandth of its Wh, by the seconds of 3600 it shares with the window |
| Idle.FetchMissesNothing | internal/store/pstryk_consumption.go:118-129 | the range query leaves out no overlapping hour |
| Idle.HourlyKWhSplits | internal/store/pstryk_consumption.go:114-161 | stored energy is additive at any split point |
| Idle.EnergyFromMeter | internal/store/meter.go:248-269 | maximum minus minimum of the window's readings in kWh, 0 with fewer than two; in a series that never falls, a thousandth of the last less the first |
| Idle.DeltaIsSpread | internal/store/meter.go:248-269 | the delta is the largest difference of two readings of the window, in kWh, and never negative |
| Idle.DeltaOfRising | internal/store/meter.go:248-269 | in a series that never falls it is a thousandth of the last reading less the first |
| Idle.DeltasAddUp | internal/store/meter.go:248-269 | in a series that never falls, deltas of disjoint windows add up to no more than the whole's |
| Idle.Accounts.RowCount | internal/store/pstryk_consumption.go:166-178 | the rows of the chosen source within the day |
| Idle.RowsAreCounted | internal/store/meter.go:274-287 | that is the number of readings, or of stored hours, whose time lies in the day |
| Meter.Poller.InitEnergyState | internal/meter/meter.go:120-131 | the saved offset and the last stored reading are loaded once |
| Meter.Poller.AdjustEnergy | internal/meter/meter.go:138-165 | the effective value and the offset, saved exactly on a reset |
| Meter.Poller.Poll | internal/meter/meter.go:195-319 | one polling step of the run model: adjust, then store when the last stored reading is a minute old |
| Meter.StoredOncePerMinute | internal/meter/meter.go:261-294 | within a process readings are stored at least a minute apart |
| Meter.StoredWhenDue | internal/meter/meter.go:261-294 | a reading that can be inserted is stored exactly when the last one is 60 seconds old, with the effective value |
| Meter.StoredNeverFalls | internal/meter/meter.go:120-165 | the stored series never falls and the saved offset never shrinks, across any resets and restarts |
| Meter.ResetLaw | internal/meter/meter.go:138-165 | the effective value is the offset plus the largest raw since the last reset, or what was loaded if that is larger |
| Meter.FreshResetLaw | internal/meter/meter.go:138-165 | on an empty table with raw readings not negative it is exactly the offset plus that largest raw |
| Meter.AdjustingNeverFalls | internal/meter/meter.go:138-165 | a reset adds exactly 0, and neither value nor offset ever falls |
| Meter.GrowthIsTrueUnlessMissed | internal/meter/meter.go:224-231 | over any run of responses of a register that never falls, growth at a good reading is true exactly when none was missing while the register stood above the threshold, and too large by the register at each such gap otherwise |
| Meter.GrowthOverRestarts | internal/meter/meter.go:120-165 | over any run with restarts, for a register that never falls: growth at a good reading is true exactly when no response was missed while memory stood above the threshold, where last seen or, after a restart, last stored; without a missing response always |
| Meter.GrowthOfAnyRun | internal/meter/meter.go:120-165 | over any run of readings, gaps, resets and restarts: the value in memory grows by as much as it stands higher above the offset, and once more by every drop beyond the threshold |
| Meter.MissingResponsesCount | internal/meter/meter.go:138-165 | offset and effective value after any run of good and missing responses |
| Meter.OneMissingResponse | internal/meter/meter.go:138-165 | one missing response between two equal readings changes nothing exactly when the reading is within the threshold |

## Left out

- Recompute.RecomputedPlanIsGood: assumes a chronological tariff and disjoint overrides, as the tables keep them; with a slot running `Honours` says which forces and blocks are honoured.
- Continuity.OnlyEarlierForcesDisturb: a moved deadline or a running period past it is the subject of `Ranks.RunningPlanByRank`.
- Ranks.ChoiceByRank: where one price is both picked and left out the sort of the tariff decides, and `Ranks.RankBounds`, `Ranks.PickedTwiceBounds` and `Ranks.RunningPlanLoosely` give what still holds.
- ProfileCache.DedupIsSound: what it says of limits asks for two chronological plans, as quiet runs have them; it takes the truncated SHA-256 as injective and never empty, as do `Runs`, `EndToEnd` and `Held`.
- Runs.QuietRunsStayTidy: quiet runs leave out recomputes that may pick a rate twice or find the running slot disturbed, for which `Ranks.BaseByRank` and `Ranks.RunningPlanByRank` give the exact conditions and `Disturbances` inputs that fail them.
- ProfileCache.RunIsFaithful: over runs a send that fails is one the charger did not take; what a lost answer does is stated for one send by `ProfileCache.LostAnswer`.
- Targets.RecomputeNeverGivesUp: while a slot runs, what the recompute plans on the running slot's date before its running period ends gives way to that period, as `Targets.RunningRecomputeServes` states.
- Selection.ComputeSlot: with repeated start times the code marks by start and may pick more than asked; optimality is stated for distinct starts, which the tariff table enforces.
- Storage.Store.ActiveSession: the query has no order; the model takes the first row, as an index scan on status returns it.
- Storage.Store.StopSession: the distance and consumption figures it adds to the closed row are not modelled.
- Ocpp.Server.NoteRow: the time of the last notification on the row, used by the stale-state check only, is not modelled.
- Ocpp.Server.OnMeterValues: parsing of sampled values and the aggregation of phases are not modelled; a report is the set of readings it sets.
- Ocpp.Server.CurrentEnergy: what the event log still has for a transaction is a parameter.
- Scheduling.Scheduler.OnModeChanged: the debounced request before it and the loop that serves the recompute it asks for are not modelled.
- Meter.GrowthOverRestarts: a register that falls is the subject of `Meter.GrowthOfAnyRun`, which counts its drops but does not compare them with what was drawn.
- The server holds its connectors in one map keyed by charge point and connector id, instead of a map in each charge point object.
- Slots and plans are values; only the period storage of a merged slot is modelled with its sharing.
- `ComputeSchedule` reads the clock itself; here one `now` is passed to all parts of a step.
- Settings, their parsing, the missed-period detection, skip reasons, notifications and the tickers of the scheduler loop.
- Persistence as JSON, SQL text, RFC3339 formatting, purges of markers, rates and readings.
- Reports, the state-of-charge update itself.
- Daylight saving, fractions of a second, floating-point rounding other than to hundredths.
- Websocket transport, request retries, vehicle and tariff clients, authentication, user interface, event logging.
