/** What a recompute does for the target: hours chosen, energy planned (scheduler.go, `recompute`). */
module Targets {
  import opened Arithmetic
  import opened Spans
  import opened Plan
  import opened OverrideTable
  import opened Fragment
  import opened Selection
  import opened Planner
  import opened Slots
  import opened Forces
  import opened Pipeline
  import opened Merge
  import opened Recompute
  import opened Automatic
  import opened Continuity
  import opened Honours

  // ----- what that is worth -----

  /** No carved rate left out of a window is cheaper than an automatic period of its date. */
  lemma NoneCheaper(
    rates: seq<Rate>, cfg: Config, power: real, now: int, slots: seq<Slot>, k: int, p: Period, r: Rate)
    requires Serves(rates, cfg, power, now, slots) && 0 <= k < 2
    requires p in AutomaticOn(slots, DateAt(cfg, now, k))
    requires r in WindowAt(rates, cfg, now, k) && AsPeriod(r, power) !in AutomaticOn(slots, DateAt(cfg, now, k))
    ensures p.value.price <= r.value
  {
    var picked, wanted := ServedAt(rates, cfg, power, now, slots, k);
    var w := WindowAt(rates, cfg, now, k);
    hide AutomaticOn, HoursNeeded, WindowAt, Picked, Serves, DateAt;
    PickedIff(w, picked, power, p);
    PickedIff(w, picked, power, AsPeriod(r, power));
    var j :| 0 <= j < |w| && w[j] == r;
    assert j !in picked;
  }

  /** Either date's automatic periods are a choice for something wanted, or nothing. */
  lemma ServedAt(rates: seq<Rate>, cfg: Config, power: real, now: int, slots: seq<Slot>, k: int)
    returns (picked: set<int>, wanted: real)
    requires Serves(rates, cfg, power, now, slots) && 0 <= k < 2
    ensures picked == {} || (power > 0.0
      && Cheapest(WindowAt(rates, cfg, now, k), picked, HoursNeeded(wanted, power, cfg.headroom)))
    ensures AutomaticOn(slots, DateAt(cfg, now, k)) == Picked(WindowAt(rates, cfg, now, k), picked, power)
  {
    var first, second :| ServedBy(rates, cfg, power, now, slots, first, second);
    picked := if k == 0 then first else second;
    wanted := if k == 0 then Target(cfg)
      else Target(cfg) - Hundredths(EnergyOf(AutomaticOn(slots, DateAt(cfg, now, 0))));
    hide AutomaticOn, HoursNeeded, WindowAt, Picked, DateAt, Hundredths, EnergyOf, Cheapest, Target;
  }

  /** And no other choice of as many of that window's rates has a lower sum of prices. */
  lemma NoChoiceCheaper(
    rates: seq<Rate>, cfg: Config, power: real, now: int, slots: seq<Slot>, k: int, other: set<int>)
    requires Serves(rates, cfg, power, now, slots) && 0 <= k < 2 && Indices(WindowAt(rates, cfg, now, k), other)
    requires |other| == |AutomaticOn(slots, DateAt(cfg, now, k))|
    ensures PricesOf(AutomaticOn(slots, DateAt(cfg, now, k))) <= PriceSum(WindowAt(rates, cfg, now, k), other)
  {
    var picked, wanted := ServedAt(rates, cfg, power, now, slots, k);
    var w := WindowAt(rates, cfg, now, k);
    assert Indices(w, picked);
    hide AutomaticOn, WindowAt, Picked, Serves, DateAt, PriceSum, PricesOf;
    PickedPrices(w, picked, power);
    if picked == {} {
      assert |other| == 0 && other == picked;
    } else {
      CheapestIsOptimal(w, picked, HoursNeeded(wanted, power, cfg.headroom), other);
    }
  }

  function PricesOf(ps: seq<Period>): real {
    if ps == [] then 0.0 else PricesOf(ps[..|ps| - 1]) + ps[|ps| - 1].value.price
  }

  lemma {:induction false} PickedPrices(rates: seq<Rate>, picked: set<int>, power: real)
    requires Indices(rates, picked)
    ensures PricesOf(Picked(rates, picked, power)) == PriceSum(rates, picked)
    ensures |Picked(rates, picked, power)| == |picked|
  {
    if rates == [] {
      NoMembers(picked);
    } else {
      var n := |rates| - 1;
      var rest, before := picked - {n}, Picked(rates[..n], picked, power);
      PickedPrices(rates[..n], rest, power);
      SamePicks(rates[..n], picked, n, power);
      if n in picked {
        assert picked == rest + {n};
        assert (before + [AsPeriod(rates[n], power)])[..|before|] == before;
      } else {
        assert picked == rest && Picked(rates, picked, power) == before;
      }
    }
  }

  lemma {:induction false} SamePicks(rates: seq<Rate>, picked: set<int>, n: int, power: real)
    requires n >= |rates|
    ensures Picked(rates, picked - {n}, power) == Picked(rates, picked, power)
    ensures PriceSum(rates, picked - {n}) == PriceSum(rates, picked)
  {
    if rates != [] { SamePicks(rates[..|rates| - 1], picked, n, power); }
  }

  // ----- the plan from scratch never gives up early -----

  /** The automatic periods of both dates. */
  function AutomaticIn(x: Inputs, cfg: Config, slots: seq<Slot>): seq<Period> {
    AutomaticOn(slots, DateAt(cfg, x.now, 0)) + AutomaticOn(slots, DateAt(cfg, x.now, 1))
  }

  /** Short of the half-hundredth that rounding may hide, the forces and the automatic periods carry the target. */
  ghost predicate CarriesTarget(x: Inputs, cfg: Config, slots: seq<Slot>) {
    EnergyOf(AutomaticIn(x, cfg, slots)) + EnergyOf(PricedForces(x)) >= cfg.target - 0.005
  }

  /** Every free second up to the second deadline is planned, at its price. */
  ghost predicate UsesEverySecond(x: Inputs, cfg: Config, power: real, slots: seq<Slot>) {
    forall t, price :: x.now <= t < Horizon(x, cfg) && FreeAt(x, cfg, t, price) ==>
      UsedAt(AutomaticIn(x, cfg, slots), power, t, price)
  }

  ghost predicate UsedAt(ps: seq<Period>, power: real, t: int, price: real) {
    exists p :: p in ps && p.Covers(t) && p.value == Load(power, price, false)
  }

  ghost predicate LongWindows(rates: seq<Rate>, cfg: Config, now: int) {
    forall k :: 0 <= k < 2 ==> LongEnough(WindowAt(rates, cfg, now, k), cfg.headroom)
  }

  lemma OutcomesActive(
    rates: seq<Rate>, cfg: Config, power: real, now: int, outcomes: seq<Outcome>, auto: Option<Schedule>)
    requires PlanFor(rates, cfg, power, now, outcomes, auto) && Ordered(rates) && TimeOfDay(cfg.deadlineOfDay)
    ensures ActiveOf(SlotsIn(auto)) == PeriodsOf(outcomes[0]) + if |outcomes| == 2 then PeriodsOf(outcomes[1]) else []
  {
    PlanSize(rates, cfg, power, now, outcomes, auto);
    forall k | 0 <= k < |outcomes|
      ensures outcomes[k].slot.Some? ==> !outcomes[k].slot.value.cancelled
    {
      PlannedOutcome(rates, cfg, power, now, outcomes, auto, k);
      hide PlanFor, Wanted, Chosen, Ordered, Offered, TidySlot, Picked, WindowAt;
    }
    hide *;
    if |outcomes| == 1 { OneOutcome(outcomes); } else { TwoOutcomes(outcomes); }
  }

  lemma OutcomesReach(
    rates: seq<Rate>, cfg: Config, power: real, now: int, outcomes: seq<Outcome>, auto: Option<Schedule>,
    both: seq<Period>)
    requires PlanFor(rates, cfg, power, now, outcomes, auto) && Ordered(rates) && TimeOfDay(cfg.deadlineOfDay)
    requires power > 0.0 && Headroom(cfg.headroom) > 0.0 && LongWindows(rates, cfg, now)
    requires both == ActiveOf(SlotsIn(auto))
    ensures EnergyOf(both) >= cfg.target - 0.005
      || forall k, r :: 0 <= k < 2 && r in WindowAt(rates, cfg, now, k) ==> AsPeriod(r, power) in both
  {
    PlanSize(rates, cfg, power, now, outcomes, auto);
    OrderedStarts(rates);
    forall k | 0 <= k < |outcomes|
      ensures outcomes[k].window == WindowAt(rates, cfg, now, k)
    {
      assert WorkedAt(rates, cfg, power, now, k, outcomes[k], Wanted(cfg, outcomes, k));
    }
    assert forall i :: 0 <= i < |rates| ==> rates[i].start <= rates[i].end;
    ActiveEnergy(auto);
    hide PlanFor, Wanted, LongEnough, WindowOf, EnergyOf, ActiveOf, Ordered, DistinctStarts, PlannedEnergy;
    NeverGivesUpEarly(rates, cfg, power, now, outcomes, auto);
  }

  lemma ActiveEnergy(auto: Option<Schedule>)
    ensures PlannedEnergy(auto) == EnergyOf(ActiveOf(SlotsIn(auto)))
  {
    assert EnergyOf([]) == 0.0 && ActiveOf([]) == [];
  }

  lemma SameDates(x: Inputs, cfg: Config)
    ensures DateAt(AutoConfig(x, cfg), x.now, 0) == DateAt(cfg, x.now, 0)
    ensures DateAt(AutoConfig(x, cfg), x.now, 1) == DateAt(cfg, x.now, 1)
  {
  }

  /** A free second's carved rate, if all of those offered are planned, is planned. */
  lemma FreeIsUsed(
    x: Inputs, cfg: Config, power: real, frag: seq<Rate>, both: seq<Period>, t: int, price: real)
    requires Fragments(AutoRates(cfg, x.rates), x.overrides, frag) && Ordered(frag) && TimeOfDay(cfg.deadlineOfDay)
    requires forall k, r :: 0 <= k < 2 && r in WindowAt(frag, AutoConfig(x, cfg), x.now, k) ==>
      AsPeriod(r, power) in both
    requires x.now <= t < Horizon(x, cfg) && FreeAt(x, cfg, t, price)
    ensures UsedAt(both, power, t, price)
  {
    CarvedIsFree(x, cfg, frag, t, price);
    SameLimit(x, cfg);
    var i :| 0 <= i < |frag| && frag[i].Covers(t) && frag[i].value == price;
    hide AutoConfig, WindowAt, PriceLimit, Affordable, Fragments, Ordered, FreeAt, FirstDeadline;
    var k := SecondIsOffered(frag, AutoConfig(x, cfg), x.now, i, t);
    assert AsPeriod(frag[i], power) in both;
  }

  /**
   Any plan from scratch carries the target, short of 0.005 kWh, or plans every free second up to the second
   deadline: on windows whose cheapest choices last the hours they count.
   */
  lemma BaseNeverGivesUp(x: Inputs, cfg: Config, power: real, frag: seq<Rate>, base: Option<Schedule>)
    requires Base(x, cfg, power, base) && GoodInputs(x.rates, x.overrides, cfg)
    requires Fragments(AutoRates(cfg, x.rates), x.overrides, frag) && LongWindows(frag, AutoConfig(x, cfg), x.now)
    requires power > 0.0 && Headroom(cfg.headroom) > 0.0
    ensures CarriesTarget(x, cfg, SlotsIn(base)) || UsesEverySecond(x, cfg, power, SlotsIn(base))
  {
    var f, outcomes, auto, forces :| BaseFrom(x, cfg, power, f, outcomes, auto, forces, base);
    SameDates(x, cfg);
    if Allowed(x, cfg) {
      AutomaticIs(x, cfg, power, f, outcomes, auto, forces, base);
      BaseParts(x, cfg, power, f, outcomes, auto, forces, base);
      SameCarving(x, cfg, f, frag);
      SameLimit(x, cfg);
      assert TimeOfDay(cfg.deadlineOfDay);
      hide *;
      OutcomesActive(frag, AutoConfig(x, cfg), power, x.now, outcomes, auto);
      OutcomesReach(frag, AutoConfig(x, cfg), power, x.now, outcomes, auto, ActiveOf(SlotsIn(auto)));
      AllowedReaches(x, cfg, power, frag, SlotsIn(base), ActiveOf(SlotsIn(auto)));
    } else {
      OnlyForces(x, cfg, power, f, outcomes, auto, forces, base);
      hide Base, BaseFrom, AutomaticOn, DateAt, GoodInputs, Fragments;
      NotAllowed(x, cfg, power, SlotsIn(base));
    }
  }

  lemma AllowedReaches(
    x: Inputs, cfg: Config, power: real, frag: seq<Rate>, slots: seq<Slot>, both: seq<Period>)
    requires Fragments(AutoRates(cfg, x.rates), x.overrides, frag) && Ordered(frag) && TimeOfDay(cfg.deadlineOfDay)
    requires both == AutomaticOn(slots, DateAt(cfg, x.now, 0)) + AutomaticOn(slots, DateAt(cfg, x.now, 1))
    requires EnergyOf(both) >= AutoConfig(x, cfg).target - 0.005
      || forall k, r :: 0 <= k < 2 && r in WindowAt(frag, AutoConfig(x, cfg), x.now, k) ==> AsPeriod(r, power) in both
    ensures CarriesTarget(x, cfg, slots) || UsesEverySecond(x, cfg, power, slots)
  {
    assert AutomaticIn(x, cfg, slots) == both;
    hide AutomaticOn, Fragments, Ordered, EnergyOf, PricedForces, AutomaticIn, WindowAt, FreeAt, UsedAt, DateAt;
    if EnergyOf(both) < AutoConfig(x, cfg).target - 0.005 {
      forall t, price | x.now <= t < Horizon(x, cfg) && FreeAt(x, cfg, t, price)
        ensures UsedAt(both, power, t, price)
      {
        FreeIsUsed(x, cfg, power, frag, both, t, price);
      }
    }
  }

  lemma NotAllowed(x: Inputs, cfg: Config, power: real, slots: seq<Slot>)
    requires !Allowed(x, cfg)
    requires AutomaticOn(slots, DateAt(cfg, x.now, 0)) == [] && AutomaticOn(slots, DateAt(cfg, x.now, 1)) == []
    ensures CarriesTarget(x, cfg, slots) || UsesEverySecond(x, cfg, power, slots)
  {
    assert EnergyOf([]) == 0.0 && AutomaticIn(x, cfg, slots) == [];
    hide EnergyOf, AutomaticIn, PricedForces;
    if AutoRates(cfg, x.rates) == [] {
      forall t, price
        ensures !FreeAt(x, cfg, t, price)
      {
        NegativesPriced(x.rates, t, price);
      }
    }
  }

  // ----- tariffs in hours -----

  predicate WholeOrNone(w: Window, r: Rate) {
    w.end <= r.start || r.end <= w.start || (w.start <= r.start && r.end <= w.end)
  }

  /** Every override takes a whole rate or none of it. */
  ghost predicate Aligned(x: Inputs) {
    forall i, j :: 0 <= i < |x.rates| && 0 <= j < |x.overrides| ==> WholeOrNone(x.overrides[j].window, x.rates[i])
  }

  /** With rates of an hour or more, whole or not at all, and headroom not negative, the windows are long enough. */
  lemma HoursStayLong(x: Inputs, cfg: Config, frag: seq<Rate>)
    requires Ordered(x.rates) && Fragments(AutoRates(cfg, x.rates), x.overrides, frag) && Aligned(x)
    requires cfg.headroom >= 0.0
    requires forall i :: 0 <= i < |x.rates| ==> x.rates[i].end - x.rates[i].start >= SECONDS_PER_HOUR
    ensures LongWindows(frag, AutoConfig(x, cfg), x.now)
  {
    NegativesOrdered(x.rates);
    forall m | 0 <= m < |frag|
      ensures frag[m].end - frag[m].start >= SECONDS_PER_HOUR
    {
      WholeRate(x, cfg, frag, m);
    }
    hide Fragments, Ordered, AutoRates, Aligned;
    var planned := AutoConfig(x, cfg);
    forall k | 0 <= k < 2
      ensures LongEnough(WindowAt(frag, planned, x.now, k), planned.headroom)
    {
      WindowOfHours(frag, PriceLimit(planned), WindowStart(planned, x.now, k), DeadlineOf(planned, x.now, k),
        planned.headroom);
    }
  }

  lemma WholeRate(x: Inputs, cfg: Config, frag: seq<Rate>, m: nat)
    requires Fragments(AutoRates(cfg, x.rates), x.overrides, frag) && Aligned(x) && m < |frag|
    requires Ordered(frag) && forall r :: r in AutoRates(cfg, x.rates) ==> r in x.rates
    ensures exists i :: 0 <= i < |x.rates| && frag[m].start == x.rates[i].start && frag[m].end == x.rates[i].end
  {
    var p, rates := frag[m], AutoRates(cfg, x.rates);
    assert p.start < p.end && FromRates(p, rates, x.overrides);
    var j :| 0 <= j < |rates| && CutFrom(p, rates[j], x.overrides);
    assert rates[j] in x.rates;
    var i :| 0 <= i < |x.rates| && x.rates[i] == rates[j];
    FreeInside(rates, x.overrides, frag, m, p.start);
    FreeInside(rates, x.overrides, frag, m, p.end - 1);
    hide Fragments, Ordered, AutoRates;
    UntouchedRate(x, i, p);
  }

  lemma TakenTogether(x: Inputs, i: nat, t: int, u: int)
    requires Aligned(x) && i < |x.rates| && x.rates[i].Covers(t) && x.rates[i].Covers(u)
    ensures Overridden(x.overrides, t) ==> Overridden(x.overrides, u)
  {
    if Overridden(x.overrides, t) {
      var j :| 0 <= j < |x.overrides| && x.overrides[j].window.Covers(t);
      assert WholeOrNone(x.overrides[j].window, x.rates[i]);
      assert x.overrides[j].window.Covers(u);
    }
  }

  lemma UntouchedRate(x: Inputs, i: nat, p: Rate)
    requires Aligned(x) && i < |x.rates| && CutFrom(p, x.rates[i], x.overrides) && p.start < p.end
    requires !Overridden(x.overrides, p.start) && !Overridden(x.overrides, p.end - 1)
    ensures p.start == x.rates[i].start && p.end == x.rates[i].end
  {
    hide Aligned, Overridden;
    if x.rates[i].start < p.start { TakenTogether(x, i, p.start - 1, p.start); }
    if p.end < x.rates[i].end { TakenTogether(x, i, p.end, p.end - 1); }
  }

  // ----- lifted to the recomputed plan -----

  lemma {:induction false} MarkedAutomatic(prev: Option<Schedule>, slots: seq<Slot>, marked: seq<Slot>, date: int)
    requires Marked(prev, slots, marked)
    ensures AutomaticOn(marked, date) == AutomaticOn(slots, date)
  {
    if slots != [] {
      var n := |slots| - 1;
      hide CancelledDate;
      MarkedAutomatic(prev, slots[..n], marked[..n], date);
    }
  }

  /** A plan that holds the same automatic periods on both dates serves as well. */
  lemma ServesAlike(
    rates: seq<Rate>, cfg: Config, power: real, now: int, slots: seq<Slot>, others: seq<Slot>)
    requires Serves(rates, cfg, power, now, slots)
    requires forall date :: AutomaticOn(others, date) == AutomaticOn(slots, date)
    ensures Serves(rates, cfg, power, now, others)
  {
    var first, second :| ServedBy(rates, cfg, power, now, slots, first, second);
    hide AutomaticOn, Chosen, Picked, WindowAt, Hundredths, EnergyOf, DateAt, Target;
    assert ServedBy(rates, cfg, power, now, others, first, second);
  }

  /** What a recompute with no slot running makes of the plan from scratch. */
  lemma ReplacedAutomatic(prev: Option<Schedule>, x: Inputs, base: Option<Schedule>, next: Option<Schedule>)
    requires Replaced(prev, x, base, next) && !ChargeTime(prev, x.now)
    ensures next.None? <==> base.None?
    ensures forall date :: AutomaticOn(SlotsIn(next), date) == AutomaticOn(SlotsIn(base), date)
  {
    if base.Some? {
      hide ChargeTime, AutomaticOn, Marked;
      forall date
        ensures AutomaticOn(next.value.slots, date) == AutomaticOn(base.value.slots, date)
      {
        MarkedAutomatic(prev, base.value.slots, next.value.slots, date);
      }
    }
  }

  /**
   On inputs, for any chronological tariff: with no slot running a recompute ends without a plan exactly when there
   is no force and nothing worth planning; with one it then keeps exactly that slot.
   */
  lemma NoPlanExactly(prev: Option<Schedule>, x: Inputs, cfg: Option<Config>, live: real, next: Option<Schedule>)
    requires Recomputed(prev, x, cfg, live, next) && !Unchanged(x, cfg)
    requires GoodInputs(x.rates, x.overrides, cfg.value)
    ensures !ChargeTime(prev, x.now) ==> (next.None? <==> NothingElse(x, cfg.value, live))
    ensures forall k, i :: RunningAt(prev, x.now, k, i) ==>
      next.Some? && (NothingElse(x, cfg.value, live) ==> next.value == Preserved(SlotsIn(prev)[k]))
  {
    var c := Fresh(cfg.value, x.soc);
    var base :| Base(x, c, ChargePower(c, live), base) && Replaced(prev, x, base, next);
    NoBaseExactly(x, c, ChargePower(c, live), base);
    assert NothingElse(x, cfg.value, live) <==> base.None?;
    hide Base, NothingPlanned, NothingElse, Unchanged, GoodInputs, ChargePower, Fresh;
    if !ChargeTime(prev, x.now) { ReplacedAutomatic(prev, x, base, next); }
    forall k, i | RunningAt(prev, x.now, k, i)
      ensures next.Some? && (base.None? ==> next.value == Preserved(SlotsIn(prev)[k]))
    {
      hide Replaced, RunningAt;
      var _ := CarriedParts(prev, x, base, next, k, i);
    }
  }

  /** The target, the power and the settings a recompute works with. */
  function Settings(x: Inputs, cfg: Config): Config { Fresh(cfg, x.soc) }

  function PowerOf(x: Inputs, cfg: Config, live: real): real { ChargePower(Fresh(cfg, x.soc), live) }

  /**
   Every recompute with no slot running, on inputs: the automatic periods of the new plan are cheapest choices of the
   carved rates of the two windows, of as many as hours are needed for the target less the forces, then for
   what the first choice leaves wanted.
   */
  lemma RecomputeServes(
    prev: Option<Schedule>, x: Inputs, cfg: Option<Config>, live: real, next: Option<Schedule>, frag: seq<Rate>)
    requires Recomputed(prev, x, cfg, live, next) && !Unchanged(x, cfg) && !ChargeTime(prev, x.now)
    requires GoodInputs(x.rates, x.overrides, cfg.value)
    requires Fragments(AutoRates(Settings(x, cfg.value), x.rates), x.overrides, frag)
    ensures Serves(frag, AutoConfig(x, Settings(x, cfg.value)), PowerOf(x, cfg.value, live), x.now, SlotsIn(next))
  {
    var c := Settings(x, cfg.value);
    var base :| Base(x, c, ChargePower(c, live), base) && Replaced(prev, x, base, next);
    assert GoodInputs(x.rates, x.overrides, c);
    hide Base, Replaced, GoodInputs, Fragments, Unchanged, Serves, AutoConfig, AutoRates, Fresh, ChargePower,
      ChargeTime;
    BaseServes(x, c, ChargePower(c, live), frag, base);
    ReplacedAutomatic(prev, x, base, next);
    ServesAlike(frag, AutoConfig(x, c), ChargePower(c, live), x.now, SlotsIn(base), SlotsIn(next));
  }

  /** No free second of a window left out is cheaper than an automatic period the plan has for that window. */
  lemma RecomputeIsCheapest(
    prev: Option<Schedule>, x: Inputs, cfg: Option<Config>, live: real, next: Option<Schedule>, frag: seq<Rate>,
    k: int, p: Period, t: int, price: real)
    requires Recomputed(prev, x, cfg, live, next) && !Unchanged(x, cfg) && !ChargeTime(prev, x.now)
    requires GoodInputs(x.rates, x.overrides, cfg.value) && 0 <= k < 2
    requires Fragments(AutoRates(Settings(x, cfg.value), x.rates), x.overrides, frag)
    requires p in AutomaticOn(SlotsIn(next), DateAt(cfg.value, x.now, k))
    requires FreeAt(x, Settings(x, cfg.value), t, price)
    requires WindowStart(cfg.value, x.now, k) <= t < DeadlineOf(cfg.value, x.now, k)
    requires !UsedAt(AutomaticOn(SlotsIn(next), DateAt(cfg.value, x.now, k)), PowerOf(x, cfg.value, live), t, price)
    ensures p.value.price <= price
  {
    var c, planned := Settings(x, cfg.value), AutoConfig(x, Settings(x, cfg.value));
    var power, d := PowerOf(x, cfg.value, live), DateAt(cfg.value, x.now, k);
    assert DateAt(planned, x.now, k) == d && WindowStart(c, x.now, k) == WindowStart(cfg.value, x.now, k);
    assert DeadlineOf(c, x.now, k) == DeadlineOf(cfg.value, x.now, k);
    hide *;
    RecomputeServes(prev, x, cfg, live, next, frag);
    var r := FreeIsOffered(x, c, frag, k, t, price);
    PlannedIsUsed(AutomaticOn(SlotsIn(next), d), r, power, t);
    NoneCheaper(frag, planned, power, x.now, SlotsIn(next), k, p, r);
  }

  lemma PlannedIsUsed(ps: seq<Period>, r: Rate, power: real, t: int)
    requires r.Covers(t)
    ensures AsPeriod(r, power) in ps ==> UsedAt(ps, power, t, r.value)
  {
    assert AsPeriod(r, power).Covers(t) && AsPeriod(r, power).value == Load(power, r.value, false);
  }

  lemma FreeIsOffered(x: Inputs, cfg: Config, frag: seq<Rate>, k: int, t: int, price: real) returns (r: Rate)
    requires Fragments(AutoRates(cfg, x.rates), x.overrides, frag) && FreeAt(x, cfg, t, price) && 0 <= k < 2
    requires WindowStart(cfg, x.now, k) <= t < DeadlineOf(cfg, x.now, k)
    ensures r in WindowAt(frag, AutoConfig(x, cfg), x.now, k) && r.Covers(t) && r.value == price
  {
    CarvedIsFree(x, cfg, frag, t, price);
    SameLimit(x, cfg);
    var planned := AutoConfig(x, cfg);
    assert WindowStart(planned, x.now, k) == WindowStart(cfg, x.now, k);
    assert DeadlineOf(planned, x.now, k) == DeadlineOf(cfg, x.now, k);
    var i :| 0 <= i < |frag| && frag[i].Covers(t) && frag[i].value == price;
    r := frag[i];
    hide Fragments, FreeAt, AutoConfig, PriceLimit, WindowStart, DeadlineOf;
    WindowKeeps(frag, PriceLimit(planned), WindowStart(planned, x.now, k), DeadlineOf(planned, x.now, k));
    assert r in frag;
  }

  /** What the automatic periods of a date are made of: a rate the settings allow, at the charging power. */
  ghost predicate Allows(x: Inputs, cfg: Config, live: real, k: int, p: Period) {
    && p.value.price != 0.0
    && (cfg.maxPrice > 0.0 && !(cfg.minSoC > 0.0 && x.soc < cfg.minSoC) ==> p.value.price <= cfg.maxPrice)
    && (cfg.batteryCapacity > 0.0 && cfg.skipAboveSoC > 0.0 && x.soc >= cfg.skipAboveSoC ==> p.value.price < 0.0)
    && p.value.power == (if live > 0.0 then live else cfg.maxPower)
    && p.end > WindowStart(cfg, x.now, k) && p.start < DeadlineOf(cfg, x.now, k)
    && exists j ::
         && 0 <= j < |x.rates| && x.rates[j].start <= p.start && p.end <= x.rates[j].end
         && x.rates[j].value == p.value.price
  }

  lemma BasePrices(x: Inputs, cfg: Config, live: real, base: Option<Schedule>, k: int, p: Period)
    requires Base(x, Fresh(cfg, x.soc), ChargePower(Fresh(cfg, x.soc), live), base) && 0 <= k < 2
    requires GoodInputs(x.rates, x.overrides, cfg) && p in AutomaticOn(SlotsIn(base), DateAt(cfg, x.now, k))
    ensures Allows(x, cfg, live, k, p)
  {
    var c, power := Fresh(cfg, x.soc), ChargePower(Fresh(cfg, x.soc), live);
    assert GoodInputs(x.rates, x.overrides, c) && Ordered(x.rates);
    hide *;
    var f := SomeCarving(x, c, power, base);
    SettingsDates(x, cfg);
    NoneOrCarved(x, c, power, base, k, p, f);
    BaseServes(x, c, power, f, base);
    PlannedDates(x, c, k);
    ServedPrices(x, cfg, live, f, SlotsIn(base), k, p);
  }

  /** The carved tariff, if anything automatic may be planned. */
  lemma SomeCarving(x: Inputs, cfg: Config, power: real, base: Option<Schedule>) returns (f: seq<Rate>)
    requires Base(x, cfg, power, base)
    ensures Allowed(x, cfg) ==> Fragments(AutoRates(cfg, x.rates), x.overrides, f)
  {
    hide Fragments, AutoConfig, AutoRates, PlanFor, BaseFrom, Base;
    var frag, outcomes, auto, forces := BaseOf(x, cfg, power, base);
    BaseParts(x, cfg, power, frag, outcomes, auto, forces, base);
    f := frag;
  }

  lemma BaseOf(x: Inputs, cfg: Config, power: real, base: Option<Schedule>)
    returns (frag: seq<Rate>, outcomes: seq<Outcome>, auto: Option<Schedule>, forces: seq<Period>)
    requires Base(x, cfg, power, base)
    ensures BaseFrom(x, cfg, power, frag, outcomes, auto, forces, base)
  {
    hide BaseFrom;
    frag, outcomes, auto, forces :| BaseFrom(x, cfg, power, frag, outcomes, auto, forces, base);
  }

  lemma NoneOrCarved(
    x: Inputs, cfg: Config, power: real, base: Option<Schedule>, k: int, p: Period, f: seq<Rate>)
    requires Base(x, cfg, power, base) && GoodInputs(x.rates, x.overrides, cfg) && 0 <= k < 2
    requires p in AutomaticOn(SlotsIn(base), DateAt(cfg, x.now, k))
    requires Allowed(x, cfg) ==> Fragments(AutoRates(cfg, x.rates), x.overrides, f)
    ensures Fragments(AutoRates(cfg, x.rates), x.overrides, f)
  {
    hide *;
    PlannedDates(x, cfg, k);
    var frag, outcomes, auto, forces := BaseOf(x, cfg, power, base);
    assert k == 0 || k == 1;
    if !Allowed(x, cfg) { OnlyForces(x, cfg, power, frag, outcomes, auto, forces, base); }
  }

  lemma PlannedDates(x: Inputs, cfg: Config, k: int)
    ensures DateAt(AutoConfig(x, cfg), x.now, k) == DateAt(cfg, x.now, k)
  {
  }

  lemma SettingsDates(x: Inputs, cfg: Config)
    ensures forall k :: DateAt(Fresh(cfg, x.soc), x.now, k) == DateAt(cfg, x.now, k)
  {
  }

  lemma ServedPrices(x: Inputs, cfg: Config, live: real, frag: seq<Rate>, slots: seq<Slot>, k: int, p: Period)
    requires var c, power := Fresh(cfg, x.soc), ChargePower(Fresh(cfg, x.soc), live);
      && Fragments(AutoRates(c, x.rates), x.overrides, frag) && Ordered(x.rates) && 0 <= k < 2
      && Serves(frag, AutoConfig(x, c), power, x.now, slots)
      && p in AutomaticOn(slots, DateAt(AutoConfig(x, c), x.now, k))
    ensures Allows(x, cfg, live, k, p)
  {
    var c, power := Fresh(cfg, x.soc), ChargePower(Fresh(cfg, x.soc), live);
    var planned := AutoConfig(x, c);
    NegativesOrdered(x.rates);
    SettingsAre(x, cfg, live, k);
    hide *;
    var picked, wanted := ServedAt(frag, planned, power, x.now, slots, k);
    var w := WindowAt(frag, planned, x.now, k);
    PickedIff(w, picked, power, p);
    var i :| i in picked && 0 <= i < |w| && p == AsPeriod(w[i], power);
    var r := w[i];
    PeriodOf(r, power);
    InWindowAt(frag, planned, x.now, k, r);
    RateOfFragment(x, c, frag, r);
    AllowsIs(x, cfg, live, k, p, r);
  }

  lemma PeriodOf(r: Rate, power: real)
    ensures var p := AsPeriod(r, power);
      p.start == r.start && p.end == r.end && p.value.price == r.value && p.value.power == power
  {
  }

  lemma InWindowAt(rates: seq<Rate>, cfg: Config, now: int, k: int, r: Rate)
    requires r in WindowAt(rates, cfg, now, k)
    ensures r in rates && r.end > WindowStart(cfg, now, k) && r.start < DeadlineOf(cfg, now, k) && r.value != 0.0
    ensures cfg.maxPrice <= 0.0 || (cfg.minSoC > 0.0 && cfg.currentSoC < cfg.minSoC) || r.value <= cfg.maxPrice
  {
    hide WindowOf, PriceLimit, WindowStart, DeadlineOf;
    OfferedRates(rates, cfg, WindowStart(cfg, now, k), DeadlineOf(cfg, now, k), r);
  }

  /** The fields of the settings the automatic part works with. */
  lemma SettingsAre(x: Inputs, cfg: Config, live: real, k: int)
    ensures var c := Fresh(cfg, x.soc);
      var planned := AutoConfig(x, c);
      && planned.maxPrice == cfg.maxPrice && planned.minSoC == cfg.minSoC && planned.currentSoC == x.soc
      && WindowStart(planned, x.now, k) == WindowStart(cfg, x.now, k)
      && DeadlineOf(planned, x.now, k) == DeadlineOf(cfg, x.now, k)
      && (AboveSkip(c) <==> cfg.batteryCapacity > 0.0 && cfg.skipAboveSoC > 0.0 && x.soc >= cfg.skipAboveSoC)
      && ChargePower(c, live) == if live > 0.0 then live else cfg.maxPower
  {
  }

  lemma AllowsIs(x: Inputs, cfg: Config, live: real, k: int, p: Period, r: Rate)
    requires p.start == r.start && p.end == r.end && p.value.price == r.value != 0.0
    requires p.value.power == if live > 0.0 then live else cfg.maxPower
    requires cfg.maxPrice <= 0.0 || (cfg.minSoC > 0.0 && x.soc < cfg.minSoC) || r.value <= cfg.maxPrice
    requires cfg.batteryCapacity > 0.0 && cfg.skipAboveSoC > 0.0 && x.soc >= cfg.skipAboveSoC ==> r.value < 0.0
    requires r.end > WindowStart(cfg, x.now, k) && r.start < DeadlineOf(cfg, x.now, k)
    requires exists j ::
      && 0 <= j < |x.rates| && x.rates[j].start <= r.start && r.end <= x.rates[j].end
      && x.rates[j].value == r.value
    ensures Allows(x, cfg, live, k, p)
  {
    hide WindowStart, DeadlineOf;
  }

  lemma RateOfFragment(x: Inputs, cfg: Config, frag: seq<Rate>, r: Rate)
    requires Fragments(AutoRates(cfg, x.rates), x.overrides, frag) && r in frag
    ensures exists j ::
      && 0 <= j < |x.rates| && x.rates[j].start <= r.start && r.end <= x.rates[j].end
      && x.rates[j].value == r.value
    ensures AboveSkip(cfg) ==> r.value < 0.0
  {
    var rates := AutoRates(cfg, x.rates);
    var m :| 0 <= m < |frag| && frag[m] == r;
    assert FromRates(frag[m], rates, x.overrides);
    var l :| 0 <= l < |rates| && CutFrom(r, rates[l], x.overrides);
    assert rates[l] in rates;
    NegativesMember(x.rates, rates[l]);
    var j :| 0 <= j < |x.rates| && x.rates[j] == rates[l];
  }

  lemma {:induction false} NegativesMember(rates: seq<Rate>, r: Rate)
    ensures r in Negatives(rates) <==> r in rates && r.value < 0.0
  {
    if rates != [] {
      var n := |rates| - 1;
      NegativesMember(rates[..n], r);
      assert rates == rates[..n] + [rates[n]];
    }
  }

  /**
   In the fields of the settings: an automatic period of a recomputed plan, no slot running, has a rate's price, which
   is not 0 and no higher than the user's limit unless the battery is below its minimum, negative above the
   skip threshold; it charges at the live power, or the set one when none is known.
   */
  lemma AutomaticPricesAllowed(
    prev: Option<Schedule>, x: Inputs, cfg: Option<Config>, live: real, next: Option<Schedule>, k: int, p: Period)
    requires Recomputed(prev, x, cfg, live, next) && !Unchanged(x, cfg) && !ChargeTime(prev, x.now)
    requires GoodInputs(x.rates, x.overrides, cfg.value) && 0 <= k < 2
    requires p in AutomaticOn(SlotsIn(next), DateAt(cfg.value, x.now, k))
    ensures p.value.price != 0.0
    ensures cfg.value.maxPrice > 0.0 && !(cfg.value.minSoC > 0.0 && x.soc < cfg.value.minSoC) ==>
      p.value.price <= cfg.value.maxPrice
    ensures cfg.value.batteryCapacity > 0.0 && cfg.value.skipAboveSoC > 0.0 && x.soc >= cfg.value.skipAboveSoC ==>
      p.value.price < 0.0
    ensures p.value.power == if live > 0.0 then live else cfg.value.maxPower
    ensures exists j ::
      && 0 <= j < |x.rates| && x.rates[j].start <= p.start && p.end <= x.rates[j].end
      && x.rates[j].value == p.value.price
  {
    var c := Fresh(cfg.value, x.soc);
    var base :| Base(x, c, ChargePower(c, live), base) && Replaced(prev, x, base, next);
    hide Base, Replaced, GoodInputs, Unchanged, Fresh, ChargePower, ChargeTime, AutomaticOn, DateAt;
    ReplacedAutomatic(prev, x, base, next);
    BasePrices(x, cfg.value, live, base, k, p);
  }

  /**
   What is planned for the first window is less than an hour's energy over what was asked, raised by the headroom
   in per cent; for the second over what the first, rounded, leaves, and nothing when it leaves nothing.
   */
  ghost predicate Short(asked: real, headroom: real, power: real, today: seq<Period>, tomorrow: seq<Period>) {
    var left := asked - Hundredths(EnergyOf(today));
    && EnergyOf(today) < Times(asked, 1.0 + headroom / 100.0) + power / 1000.0
    && (left <= 0.0 ==> tomorrow == [])
    && (left > 0.0 ==> EnergyOf(tomorrow) < Times(left, 1.0 + headroom / 100.0) + power / 1000.0)
  }

  /** Rates of an hour at most: what is planned for a window is short of an hour's energy over what was asked. */
  lemma NeverOvershoots(
    rates: seq<Rate>, cfg: Config, power: real, now: int, slots: seq<Slot>)
    requires Serves(rates, cfg, power, now, slots) && power > 0.0 && 1.0 + cfg.headroom / 100.0 > 0.0
    requires forall i :: 0 <= i < |rates| ==> rates[i].end - rates[i].start <= 3600
    ensures var today, tomorrow := AutomaticOn(slots, DateAt(cfg, now, 0)), AutomaticOn(slots, DateAt(cfg, now, 1));
      Short(if cfg.target < 0.0 then 0.0 else cfg.target, cfg.headroom, power, today, tomorrow)
  {
    hide Serves, WindowAt, AutomaticOn, Hundredths, EnergyOf, DateAt, HoursNeeded, Cheapest, Picked, Times;
    ShortWindows(rates, cfg, now);
    var first, second := ServedParts(rates, cfg, power, now, slots);
    var w, v := WindowAt(rates, cfg, now, 0), WindowAt(rates, cfg, now, 1);
    var left := Target(cfg) - Hundredths(EnergyOf(AutomaticOn(slots, DateAt(cfg, now, 0))));
    ChoiceIsShort(w, Target(cfg), power, cfg.headroom, first);
    if left > 0.0 {
      ChoiceIsShort(v, left, power, cfg.headroom, second);
    } else {
      NothingPicked(v, power);
    }
  }

  /**
   Every recompute with no slot running, on inputs: with rates of at most an hour, what it plans for the two deadlines
   is short of an hour's energy over the target less the forces.
   */
  lemma RecomputeNeverOvershoots(
    prev: Option<Schedule>, x: Inputs, cfg: Option<Config>, live: real, next: Option<Schedule>)
    requires Recomputed(prev, x, cfg, live, next) && !Unchanged(x, cfg) && !ChargeTime(prev, x.now)
    requires GoodInputs(x.rates, x.overrides, cfg.value)
    requires PowerOf(x, cfg.value, live) > 0.0 && 1.0 + cfg.value.headroom / 100.0 > 0.0
    requires forall i :: 0 <= i < |x.rates| ==> x.rates[i].end - x.rates[i].start <= 3600
    ensures var c, slots := cfg.value, SlotsIn(next);
      var rest := Settings(x, c).target - EnergyOf(PricedForces(x));
      Short(if rest < 0.0 then 0.0 else rest, c.headroom, PowerOf(x, c, live),
        AutomaticOn(slots, DateAt(c, x.now, 0)), AutomaticOn(slots, DateAt(c, x.now, 1)))
  {
    var c, power := Settings(x, cfg.value), PowerOf(x, cfg.value, live);
    var base :| Base(x, c, power, base) && Replaced(prev, x, base, next);
    hide *;
    SettingsKeep(x, cfg.value);
    ReplacedAutomatic(prev, x, base, next);
    SettingsDates(x, cfg.value);
    BaseNeverOvershoots(x, c, power, base);
  }

  lemma SettingsKeep(x: Inputs, cfg: Config)
    ensures GoodInputs(x.rates, x.overrides, cfg) ==> GoodInputs(x.rates, x.overrides, Settings(x, cfg))
    ensures Settings(x, cfg).headroom == cfg.headroom
    ensures Settings(x, cfg) == Fresh(cfg, x.soc)
  {
  }

  lemma BaseNeverOvershoots(x: Inputs, cfg: Config, power: real, base: Option<Schedule>)
    requires Base(x, cfg, power, base) && GoodInputs(x.rates, x.overrides, cfg)
    requires power > 0.0 && 1.0 + cfg.headroom / 100.0 > 0.0
    requires forall i :: 0 <= i < |x.rates| ==> x.rates[i].end - x.rates[i].start <= 3600
    ensures var rest, slots := cfg.target - EnergyOf(PricedForces(x)), SlotsIn(base);
      Short(if rest < 0.0 then 0.0 else rest, cfg.headroom, power,
        AutomaticOn(slots, DateAt(cfg, x.now, 0)), AutomaticOn(slots, DateAt(cfg, x.now, 1)))
  {
    AskedFor(x, cfg);
    var c := AutoConfig(x, cfg);
    hide *;
    PlannedDates(x, cfg, 0);
    PlannedDates(x, cfg, 1);
    var f := SomeCarving(x, cfg, power, base);
    if Allowed(x, cfg) {
      BaseServes(x, cfg, power, f, base);
      ShortPieces(x, cfg, f);
      NeverOvershoots(f, c, power, x.now, SlotsIn(base));
    } else {
      var frag, outcomes, auto, forces := BaseOf(x, cfg, power, base);
      OnlyForces(x, cfg, power, frag, outcomes, auto, forces, base);
      NothingIsShort(c.target, c.headroom, power);
    }
  }

  /** What is asked of the automatic part: the target less the energy of the forces, if any is left. */
  lemma AskedFor(x: Inputs, cfg: Config)
    ensures var rest, c := cfg.target - EnergyOf(PricedForces(x)), AutoConfig(x, cfg);
      c == cfg.(target := if rest < 0.0 then 0.0 else rest)
  {
  }

  lemma NothingIsShort(asked: real, headroom: real, power: real)
    requires asked >= 0.0 && power > 0.0 && 1.0 + headroom / 100.0 > 0.0
    ensures Short(asked, headroom, power, [], [])
  {
    if asked > 0.0 { TimesPositive(asked, 1.0 + headroom / 100.0); }
    assert Hundredths(EnergyOf([])) == 0.0;
  }

  /** Carving leaves no piece longer than its rate. */
  lemma ShortPieces(x: Inputs, cfg: Config, frag: seq<Rate>)
    requires Fragments(AutoRates(cfg, x.rates), x.overrides, frag)
    requires forall i :: 0 <= i < |x.rates| ==> x.rates[i].end - x.rates[i].start <= 3600
    ensures forall i :: 0 <= i < |frag| ==> frag[i].end - frag[i].start <= 3600
  {
    forall i | 0 <= i < |frag|
      ensures frag[i].end - frag[i].start <= 3600
    {
      var rates := AutoRates(cfg, x.rates);
      assert FromRates(frag[i], rates, x.overrides);
      var l :| 0 <= l < |rates| && CutFrom(frag[i], rates[l], x.overrides);
      assert rates[l] in rates;
      NegativesMember(x.rates, rates[l]);
      assert rates[l] in x.rates;
    }
  }

  lemma ServedParts(rates: seq<Rate>, cfg: Config, power: real, now: int, slots: seq<Slot>)
    returns (first: set<int>, second: set<int>)
    requires Serves(rates, cfg, power, now, slots) && power > 0.0
    ensures Target(cfg) == if cfg.target < 0.0 then 0.0 else cfg.target
    ensures Cheapest(WindowAt(rates, cfg, now, 0), first, HoursNeeded(Target(cfg), power, cfg.headroom))
    ensures AutomaticOn(slots, DateAt(cfg, now, 0)) == Picked(WindowAt(rates, cfg, now, 0), first, power)
    ensures var left := Target(cfg) - Hundredths(EnergyOf(AutomaticOn(slots, DateAt(cfg, now, 0))));
      if left > 0.0 then Cheapest(WindowAt(rates, cfg, now, 1), second, HoursNeeded(left, power, cfg.headroom))
      else second == {}
    ensures AutomaticOn(slots, DateAt(cfg, now, 1)) == Picked(WindowAt(rates, cfg, now, 1), second, power)
  {
    hide AutomaticOn, Picked, WindowAt, Hundredths, EnergyOf, DateAt, HoursNeeded, Cheapest;
    first, second :| ServedBy(rates, cfg, power, now, slots, first, second);
  }

  lemma ShortWindows(rates: seq<Rate>, cfg: Config, now: int)
    requires forall i :: 0 <= i < |rates| ==> rates[i].end - rates[i].start <= 3600
    ensures forall k, i :: 0 <= i < |WindowAt(rates, cfg, now, k)| ==>
      WindowAt(rates, cfg, now, k)[i].end - WindowAt(rates, cfg, now, k)[i].start <= 3600
  {
    forall k, i | 0 <= i < |WindowAt(rates, cfg, now, k)|
      ensures WindowAt(rates, cfg, now, k)[i].end - WindowAt(rates, cfg, now, k)[i].start <= 3600
    {
      WindowKeeps(rates, PriceLimit(cfg), WindowStart(cfg, now, k), DeadlineOf(cfg, now, k));
      assert WindowAt(rates, cfg, now, k)[i] in rates;
    }
  }

  lemma ChoiceIsShort(w: seq<Rate>, target: real, power: real, headroom: real, picked: set<int>)
    requires power > 0.0 && 1.0 + headroom / 100.0 > 0.0 && target >= 0.0
    requires Cheapest(w, picked, HoursNeeded(target, power, headroom))
    requires forall i :: 0 <= i < |w| ==> w[i].end - w[i].start <= 3600
    ensures EnergyOf(Picked(w, picked, power)) < Times(target, 1.0 + headroom / 100.0) + power / 1000.0
  {
    hide *;
    var kw, n := power / 1000.0, HoursNeeded(target, power, headroom);
    PickedAtMost(w, picked, target, power, headroom);
    PickedEnergy(w, picked, power);
    HoursCost(target, power, headroom, |picked|);
    KWhOrder(kw, PickedSeconds(w, picked), 3600 * |picked|);
    HoursOf(kw, |picked|);
  }

  lemma PickedAtMost(w: seq<Rate>, picked: set<int>, target: real, power: real, headroom: real)
    requires power > 0.0 && Cheapest(w, picked, HoursNeeded(target, power, headroom))
    requires forall i :: 0 <= i < |w| ==> w[i].end - w[i].start <= 3600
    ensures PickedSeconds(w, picked) <= 3600 * |picked|
    ensures |picked| > 0 ==> |picked| <= HoursNeeded(target, power, headroom)
  {
    hide HoursNeeded;
    PickedSecondsAtMost(w, picked, 3600);
  }

  /** No more hours than needed cost less than one hour over what was asked. */
  lemma HoursCost(target: real, power: real, headroom: real, m: nat)
    requires power > 0.0 && 1.0 + headroom / 100.0 > 0.0 && target >= 0.0
    requires m > 0 ==> m <= HoursNeeded(target, power, headroom)
    ensures Times(power / 1000.0, m as real) < Times(target, 1.0 + headroom / 100.0) + power / 1000.0
  {
    var kw := power / 1000.0;
    TimesOrder(target, 0.0, 1.0 + headroom / 100.0);
    if m > 0 {
      HoursNeededIsLeast(target, power, headroom, m - 1);
      assert Times(kw, (m - 1) as real) < Times(target, 1.0 + headroom / 100.0);
      hide HoursNeeded;
      TimesAdds(kw, (m - 1) as real, 1.0);
      assert (m - 1) as real + 1.0 == m as real;
    }
  }

  lemma HoursOf(kw: real, n: int)
    ensures KWh(kw, 3600 * n) == Times(kw, n as real)
  {
    assert (3600 * n) as real / 3600.0 == n as real;
  }

  /**
   Every recompute with no slot running carries the target, short of 0.005 kWh, or plans every free second up to the
   second deadline, on windows whose cheapest choices last the hours they count.
   */
  lemma RecomputeNeverGivesUp(
    prev: Option<Schedule>, x: Inputs, cfg: Option<Config>, live: real, next: Option<Schedule>, frag: seq<Rate>)
    requires Recomputed(prev, x, cfg, live, next) && !Unchanged(x, cfg) && !ChargeTime(prev, x.now)
    requires GoodInputs(x.rates, x.overrides, cfg.value) && Headroom(cfg.value.headroom) > 0.0
    requires Fragments(AutoRates(Settings(x, cfg.value), x.rates), x.overrides, frag)
    requires LongWindows(frag, AutoConfig(x, Settings(x, cfg.value)), x.now) && PowerOf(x, cfg.value, live) > 0.0
    ensures
      || CarriesTarget(x, Settings(x, cfg.value), SlotsIn(next))
      || UsesEverySecond(x, Settings(x, cfg.value), PowerOf(x, cfg.value, live), SlotsIn(next))
  {
    var c := Settings(x, cfg.value);
    var base :| Base(x, c, ChargePower(c, live), base) && Replaced(prev, x, base, next);
    assert GoodInputs(x.rates, x.overrides, c) && Headroom(c.headroom) > 0.0;
    hide Base, Replaced, GoodInputs, Fragments, Unchanged, AutoConfig, AutoRates, Fresh, ChargePower, ChargeTime,
      Headroom;
    BaseNeverGivesUp(x, c, ChargePower(c, live), frag, base);
    ReplacedAutomatic(prev, x, base, next);
    hide AutomaticOn, EnergyOf, UsedAt, FreeAt, DateAt, LongWindows;
    assert AutomaticIn(x, c, SlotsIn(next)) == AutomaticIn(x, c, SlotsIn(base));
  }

  /** On a tariff in hours, with overrides that take whole hours, no further condition is needed. */
  lemma HourlyRecomputeNeverGivesUp(
    prev: Option<Schedule>, x: Inputs, cfg: Option<Config>, live: real, next: Option<Schedule>, frag: seq<Rate>)
    requires Recomputed(prev, x, cfg, live, next) && !Unchanged(x, cfg) && !ChargeTime(prev, x.now)
    requires GoodInputs(x.rates, x.overrides, cfg.value) && cfg.value.headroom >= 0.0 && Aligned(x)
    requires forall i :: 0 <= i < |x.rates| ==> x.rates[i].end - x.rates[i].start >= SECONDS_PER_HOUR
    requires Fragments(AutoRates(Settings(x, cfg.value), x.rates), x.overrides, frag)
    requires PowerOf(x, cfg.value, live) > 0.0
    ensures
      || CarriesTarget(x, Settings(x, cfg.value), SlotsIn(next))
      || UsesEverySecond(x, Settings(x, cfg.value), PowerOf(x, cfg.value, live), SlotsIn(next))
  {
    assert Headroom(cfg.value.headroom) > 0.0 && Settings(x, cfg.value).headroom >= 0.0;
    HoursStayLong(x, Settings(x, cfg.value), frag);
    hide *;
    RecomputeNeverGivesUp(prev, x, cfg, live, next, frag);
  }

  // ----- beside a running slot -----

  /** The plan beside a running slot: other dates as planned from scratch, its own date so from the period's end on. */
  ghost predicate Beside(slots: seq<Slot>, date: int, end: int, next: seq<Slot>) {
    && (forall d :: d != date ==> AutomaticOn(next, d) == AutomaticOn(slots, d))
    && multiset(After(AutomaticOn(next, date), end)) == multiset(After(AutomaticOn(slots, date), end))
  }

  lemma {:induction false} AutomaticConcat(a: seq<Slot>, b: seq<Slot>, date: int)
    ensures AutomaticOn(a + b, date) == AutomaticOn(a, date) + AutomaticOn(b, date)
  {
    if b == [] {
      assert a + b == a;
    } else {
      var n := |b| - 1;
      assert (a + b)[..|a| + n] == a + b[..n];
      AutomaticConcat(a, b[..n], date);
    }
  }

  lemma OneSlotOn(slot: Slot, date: int)
    ensures AutomaticOn([slot], date) == if slot.date == date then Unforced(slot.periods) else []
  {
    assert [slot][..0] == [];
  }

  lemma AroundSlot(a: seq<Slot>, slot: Slot, b: seq<Slot>, date: int)
    ensures AutomaticOn(a + [slot] + b, date) ==
      AutomaticOn(a, date) + (if slot.date == date then Unforced(slot.periods) else []) + AutomaticOn(b, date)
  {
    hide AutomaticOn, Unforced;
    AutomaticConcat(a + [slot], b, date);
    AutomaticConcat(a, [slot], date);
    OneSlotOn(slot, date);
  }

  /** Installing a slot changes the automatic periods of its own date only. */
  lemma InstalledAutomatic(slots: seq<Slot>, merged: Slot, r: seq<Slot>, recomputed: Option<Slot>)
    requires Installed(slots, merged, r) && OneADate(slots) && SameDate(slots, merged.date, recomputed)
    ensures forall d :: d != merged.date ==> AutomaticOn(r, d) == AutomaticOn(slots, d)
    ensures AutomaticOn(r, merged.date) == Unforced(merged.periods)
    ensures AutomaticOn(slots, merged.date) == if recomputed.Some? then Unforced(recomputed.value.periods) else []
  {
    var i :| 0 <= i <= |slots| && InstalledAt(slots, merged, i, r);
    hide AutomaticOn, Unforced;
    if i < |slots| && slots[i].date == merged.date {
      var a, b := slots[..i], slots[i + 1..];
      assert slots == a + [slots[i]] + b && r == a + [merged] + b;
      RecomputedIs(slots, merged.date, recomputed, i);
      NothingOn(a, merged.date);
      NothingOn(b, merged.date);
      var was := slots[i];
      hide *;
      SwappedDate(a, was, merged, b);
    } else {
      NewDate(slots, merged, i, r, recomputed);
    }
  }

  lemma SwappedDate(a: seq<Slot>, was: Slot, merged: Slot, b: seq<Slot>)
    requires was.date == merged.date && AutomaticOn(a, merged.date) == [] && AutomaticOn(b, merged.date) == []
    ensures forall d :: d != merged.date ==> AutomaticOn(a + [merged] + b, d) == AutomaticOn(a + [was] + b, d)
    ensures AutomaticOn(a + [merged] + b, merged.date) == Unforced(merged.periods)
    ensures AutomaticOn(a + [was] + b, merged.date) == Unforced(was.periods)
  {
    hide *;
    AroundSlot(a, merged, b, merged.date);
    AroundSlot(a, was, b, merged.date);
    forall d | d != merged.date
      ensures AutomaticOn(a + [merged] + b, d) == AutomaticOn(a + [was] + b, d)
    {
      AroundSlot(a, merged, b, d);
      AroundSlot(a, was, b, d);
    }
  }

  lemma NewDate(slots: seq<Slot>, merged: Slot, i: nat, r: seq<Slot>, recomputed: Option<Slot>)
    requires i <= |slots| && forall j :: 0 <= j < |slots| ==> slots[j].date != merged.date
    requires r == slots[..i] + [merged] + slots[i..] && SameDate(slots, merged.date, recomputed)
    ensures forall d :: d != merged.date ==> AutomaticOn(r, d) == AutomaticOn(slots, d)
    ensures AutomaticOn(r, merged.date) == Unforced(merged.periods)
    ensures AutomaticOn(slots, merged.date) == [] && recomputed.None?
  {
    var a, b := slots[..i], slots[i..];
    assert slots == a + b && recomputed.None?;
    NothingOn(a, merged.date);
    NothingOn(b, merged.date);
    forall d
      ensures d != merged.date ==> AutomaticOn(r, d) == AutomaticOn(slots, d)
      ensures d == merged.date ==> AutomaticOn(r, d) == Unforced(merged.periods) && AutomaticOn(slots, d) == []
    {
      hide *;
      AroundSlot(a, merged, b, d);
      AutomaticConcat(a, b, d);
      NothingBetween(AutomaticOn(a, d), AutomaticOn(b, d));
    }
  }

  lemma SnocBag(a: seq<Period>, q: Period, p: Period)
    ensures multiset(a + [q])[p] == multiset(a)[p] + if p == q then 1 else 0
  {
  }

  lemma {:induction false} AfterBag(ps: seq<Period>, end: int, p: Period)
    ensures multiset(After(ps, end))[p] == if p.start < end then 0 else multiset(ps)[p]
  {
    if ps != [] {
      var n := |ps| - 1;
      var before := After(ps[..n], end);
      AfterBag(ps[..n], end, p);
      assert ps == ps[..n] + [ps[n]];
      assert After(ps, end) == if ps[n].start < end then before else before + [ps[n]];
      hide After;
      SnocBag(ps[..n], ps[n], p);
      SnocBag(before, ps[n], p);
    }
  }

  lemma NothingUnforced()
    ensures Unforced([]) == []
  {
  }

  /** The running slot's own date, from the running period's end on. */
  lemma LaterOfMerged(running: Slot, i: nat, recomputed: Option<Slot>, merged: Slot)
    requires i < |running.periods| && Continues(running, i, recomputed, merged) && Ordered(running.periods[..i + 1])
    ensures var end := running.periods[i].end;
      multiset(After(Unforced(merged.periods), end)) ==
        multiset(After(if recomputed.Some? then Unforced(recomputed.value.periods) else [], end))
  {
    hide *;
    var end, kept := running.periods[i].end, running.periods[..i + 1];
    var theirs := if recomputed.Some? then recomputed.value.periods else [];
    NothingUnforced();
    MergedBags(running, i, recomputed, merged);
    KeptStarts(running.periods, i);
    SameLater(kept, theirs, merged.periods, end);
  }

  lemma KeptStarts(periods: seq<Period>, i: nat)
    requires i < |periods| && Ordered(periods[..i + 1])
    ensures forall p :: p in periods[..i + 1] ==> p.start < periods[i].end
  {
    var kept := periods[..i + 1];
    forall p | p in kept
      ensures p.start < periods[i].end
    {
      var m :| 0 <= m <= i && kept[m] == p;
      assert kept[i] == periods[i];
    }
  }

  lemma SameLater(kept: seq<Period>, theirs: seq<Period>, merged: seq<Period>, end: int)
    requires multiset(merged) == multiset(kept) + multiset(After(theirs, end))
    requires forall q :: q in kept ==> q.start < end
    ensures multiset(After(Unforced(merged), end)) == multiset(After(Unforced(theirs), end))
  {
    hide *;
    forall p
      ensures multiset(After(Unforced(merged), end))[p] == multiset(After(Unforced(theirs), end))[p]
    {
      LaterBag(kept, theirs, merged, end, p);
    }
  }

  lemma MergedBags(running: Slot, i: nat, recomputed: Option<Slot>, merged: Slot)
    requires i < |running.periods| && Continues(running, i, recomputed, merged)
    ensures multiset(merged.periods) == multiset(running.periods[..i + 1])
      + multiset(After(if recomputed.Some? then recomputed.value.periods else [], running.periods[i].end))
  {
    var end, kept := running.periods[i].end, running.periods[..i + 1];
    hide After, Balanced;
    if recomputed.Some? {
      var later := After(recomputed.value.periods, end);
      assert multiset(kept + later) == multiset(kept) + multiset(later);
    } else {
      NothingAfter(end);
    }
  }

  lemma NothingAfter(end: int)
    ensures After([], end) == []
  {
  }

  lemma LaterBag(kept: seq<Period>, theirs: seq<Period>, merged: seq<Period>, end: int, p: Period)
    requires multiset(merged) == multiset(kept) + multiset(After(theirs, end))
    requires forall q :: q in kept ==> q.start < end
    ensures multiset(After(Unforced(merged), end))[p] == multiset(After(Unforced(theirs), end))[p]
  {
    hide After, Unforced;
    AfterBag(Unforced(merged), end, p);
    AfterBag(Unforced(theirs), end, p);
    AfterBag(theirs, end, p);
    UnforcedBag(merged, p);
    UnforcedBag(theirs, p);
    assert p in kept <==> multiset(kept)[p] > 0;
  }

  lemma MergedBeside(
    prev: Option<Schedule>, x: Inputs, cfg: Config, slots: seq<Slot>, marked: seq<Slot>, running: Slot, i: nat,
    next: Schedule)
    requires GoodBase(x, cfg, slots) && TimeOfDay(cfg.deadlineOfDay) && Marked(prev, slots, marked)
    requires FirstRunning(running.periods, x.now, i) && MergedInto(running, x.now, marked, next)
    requires i < |running.periods| && Ordered(running.periods[..i + 1])
    ensures Beside(slots, running.date, running.periods[i].end, next.slots)
  {
    var recomputed, merged := MergedParts(running, x.now, i, marked, next);
    MarkedDates(prev, x, cfg, slots, marked);
    assert OneADate(marked) && merged.date == running.date;
    hide GoodBase, Marked, MergedInto, FirstRunning, Ordered, Continues, SameDate, AutomaticOn, Installed, OneADate,
      After, Unforced;
    forall date
      ensures AutomaticOn(marked, date) == AutomaticOn(slots, date)
    {
      MarkedAutomatic(prev, slots, marked, date);
    }
    InstalledAutomatic(marked, merged, next.slots, recomputed);
    LaterOfMerged(running, i, recomputed, merged);
  }

  /** What the plan from scratch beside a running slot does for the target. */
  ghost predicate Targeted(x: Inputs, cfg: Config, power: real, frag: seq<Rate>, slots: seq<Slot>) {
    && Serves(frag, AutoConfig(x, cfg), power, x.now, slots)
    && (power > 0.0 && Headroom(cfg.headroom) > 0.0 && LongWindows(frag, AutoConfig(x, cfg), x.now) ==>
          CarriesTarget(x, cfg, slots) || UsesEverySecond(x, cfg, power, slots))
  }

  /**
   Every recompute while a slot runs and something else is planned, on inputs: the new plan is one that serves the
   target, on every other date in full and on the running slot's own from the end of its running period on.
   */
  lemma RunningRecomputeServes(
    prev: Option<Schedule>, x: Inputs, cfg: Option<Config>, live: real, next: Option<Schedule>, frag: seq<Rate>,
    k: int, i: int)
    requires Recomputed(prev, x, cfg, live, next) && !Unchanged(x, cfg) && RunningAt(prev, x.now, k, i)
    requires GoodInputs(x.rates, x.overrides, cfg.value) && !NothingElse(x, cfg.value, live)
    requires Fragments(AutoRates(Settings(x, cfg.value), x.rates), x.overrides, frag)
    requires Ordered(SlotsIn(prev)[k].periods[..i + 1])
    ensures exists slots ::
      && Targeted(x, Settings(x, cfg.value), PowerOf(x, cfg.value, live), frag, slots)
      && Beside(slots, SlotsIn(prev)[k].date, SlotsIn(prev)[k].periods[i].end, SlotsIn(next))
  {
    var c := Settings(x, cfg.value);
    var base :| Base(x, c, ChargePower(c, live), base) && Replaced(prev, x, base, next);
    NoBaseExactly(x, c, ChargePower(c, live), base);
    assert base.Some? && GoodInputs(x.rates, x.overrides, c) && TimeOfDay(c.deadlineOfDay);
    assert FirstRunning(SlotsIn(prev)[k].periods, x.now, i);
    BaseIsGood(x, c, ChargePower(c, live), base);
    hide *;
    var marked := CarriedParts(prev, x, base, next, k, i);
    MergedBeside(prev, x, c, SlotsIn(base), marked, SlotsIn(prev)[k], i, next.value);
    BaseTargets(x, c, ChargePower(c, live), frag, base);
    SameSlots(next);
    SamePower(x, cfg.value, live);
  }

  lemma SameSlots(next: Option<Schedule>)
    ensures next.Some? ==> SlotsIn(next) == next.value.slots
  {
  }

  lemma SamePower(x: Inputs, cfg: Config, live: real)
    ensures PowerOf(x, cfg, live) == ChargePower(Settings(x, cfg), live)
  {
  }

  lemma BaseTargets(x: Inputs, cfg: Config, power: real, frag: seq<Rate>, base: Option<Schedule>)
    requires Base(x, cfg, power, base) && GoodInputs(x.rates, x.overrides, cfg)
    requires Fragments(AutoRates(cfg, x.rates), x.overrides, frag)
    ensures Targeted(x, cfg, power, frag, SlotsIn(base))
  {
    BaseServes(x, cfg, power, frag, base);
    hide Base, GoodInputs, Fragments, AutoRates, AutoConfig, Serves, LongWindows, CarriesTarget, UsesEverySecond,
      Headroom;
    if power > 0.0 && Headroom(cfg.headroom) > 0.0 && LongWindows(frag, AutoConfig(x, cfg), x.now) {
      BaseNeverGivesUp(x, cfg, power, frag, base);
    }
  }

  /** Beside a running slot, an automatic period that starts once its running period has ended is in the new plan. */
  lemma BesideKeepsLater(x: Inputs, cfg: Config, slots: seq<Slot>, date: int, end: int, next: seq<Slot>, p: Period)
    requires Beside(slots, date, end, next) && p in AutomaticIn(x, cfg, slots) && p.start >= end
    ensures p in AutomaticIn(x, cfg, next)
  {
    forall d | p in AutomaticOn(slots, d)
      ensures p in AutomaticOn(next, d)
    {
      var a, b := AutomaticOn(slots, d), AutomaticOn(next, d);
      AfterFrom(a, end);
      AfterFrom(b, end);
      assert p in After(a, end) <==> p in multiset(After(a, end));
      assert p in After(b, end) <==> p in multiset(After(b, end));
    }
    hide AutomaticOn, DateAt, Beside;
  }
}
