/** Picking the cheapest hours before each deadline (scheduler.go, `computeSlot`, `ComputeSchedule`). */
module Selection {
  import opened Arithmetic
  import opened Sorting
  import opened Spans
  import opened Plan
  import opened Costing

  datatype Config = Config(
    target: real,          // kWh wanted
    deadlineOfDay: int,    // seconds after midnight
    maxPower: real,        // W
    batteryCapacity: real, // kWh, 0 = unknown
    targetSoC: real,       // %
    skipAboveSoC: real,    // %, 0 = never skip
    minSoC: real,          // %, 0 = off
    currentSoC: real,      // %
    maxPrice: real,        // PLN/kWh, 0 = no limit
    headroom: real)        // %

  function Headroom(percent: real): real { 1.0 + percent / 100.0 }

  function HoursNeeded(target: real, power: real, headroom: real): int
    requires power > 0.0
  {
    Ceil(Times(target, Headroom(headroom)) / (power / 1000.0))
  }

  ghost predicate DistinctStarts(rates: seq<Rate>) {
    forall i, j :: 0 <= i < j < |rates| ==> rates[i].start != rates[j].start
  }

  ghost predicate Indices(rates: seq<Rate>, picked: set<int>) {
    forall i :: i in picked ==> 0 <= i < |rates|
  }

  /** `wanted` rates (all, if there are fewer), none dearer than one left out. */
  ghost predicate Cheapest(rates: seq<Rate>, picked: set<int>, wanted: int) {
    && Indices(rates, picked)
    && |picked| == Max(0, Min(wanted, |rates|))
    && forall i, j :: i in picked && 0 <= j < |rates| && j !in picked ==> rates[i].value <= rates[j].value
  }

  function AsPeriod(r: Rate, power: real): Period {
    Span(r.start, r.end, Load(power, r.value, false))
  }

  /** The picked rates as periods, in their original order. */
  function Picked(rates: seq<Rate>, picked: set<int>, power: real): seq<Period> {
    if rates == [] then []
    else
      var n := |rates| - 1;
      Picked(rates[..n], picked, power) + if n in picked then [AsPeriod(rates[n], power)] else []
  }

  /** A planned rate costs what the session recorder charges for its energy. */
  lemma PlannedCostIsSessionCost(r: Rate, power: real)
    requires r.start < r.end && power > 0.0
    ensures var p := AsPeriod(r, power);
      && PeriodEnergy(p) == power / 1000.0 * ((r.end - r.start) as real / 3600.0)
      && CostOf([p]) == SessionCost([r], r.start, r.end, PeriodEnergy(p))
  {
    var p, h, kw := AsPeriod(r, power), Hours(r.start, r.end), power / 1000.0;
    var e := PeriodEnergy(p);
    assert [p][..0] == [] && [r][..0] == [] && PriceHours([], r.start, r.end) == 0.0;
    assert r.Meet(r.start, r.end) == r.end - r.start;
    assert PriceHours([r], r.start, r.end) == h * r.value;
    assert h > 0.0 && e == kw * h;
    TimesPositive(kw, h);
    assert e > 0.0 && e / h == kw;
    assert SessionCost([r], r.start, r.end, e) == kw * (h * r.value);
    assert CostOf([p]) == r.value * e;
    assert kw * (h * r.value) == r.value * (kw * h);
  }

  function DateOf(deadline: int): int { deadline / SECONDS_PER_DAY }

  /** The slot holding exactly the picked rates, with its rounded totals; None when nothing was picked. */
  ghost predicate SlotHolds(rates: seq<Rate>, picked: set<int>, power: real, deadline: int, slot: Option<Slot>) {
    var periods := Picked(rates, picked, power);
    if periods == [] then slot.None?
    else slot == Some(Slot(DateOf(deadline), deadline, periods,
      Hundredths(CostOf(periods)), Hundredths(EnergyOf(periods)), false))
  }

  /** What a call of `computeSlot` may return: any cheapest choice, however ties were sorted. */
  ghost predicate SlotFor(
    rates: seq<Rate>, target: real, power: real, headroom: real, deadline: int, picked: set<int>, slot: Option<Slot>) {
    && Indices(rates, picked)
    && SlotHolds(rates, picked, power, deadline, slot)
    && (power <= 0.0 ==> picked == {})
    && (power > 0.0 && DistinctStarts(rates) ==> Cheapest(rates, picked, HoursNeeded(target, power, headroom)))
  }

  /** The hours needed are the fewest that carry the target with the headroom, a percentage on top of it. */
  lemma HoursNeededIsLeast(target: real, power: real, headroom: real, hours: int)
    requires power > 0.0
    ensures hours >= HoursNeeded(target, power, headroom) <==>
      power / 1000.0 * hours as real >= target * (1.0 + headroom / 100.0)
  {
    var asked, kw := target * (1.0 + headroom / 100.0), power / 1000.0;
    assert Times(target, Headroom(headroom)) == asked;
    var need := asked / kw;
    CeilBounds(need);
    assert need * kw == asked;
    assert hours as real >= need <==> hours as real * kw >= asked by {
      if hours as real >= need { assert hours as real * kw >= need * kw; }
      if hours as real < need { assert hours as real * kw < need * kw; }
    }
  }

  function PriceKey(r: Rate): real { r.value }

  method ComputeSlot(rates: seq<Rate>, target: real, power: real, headroom: real, deadline: int)
    returns (slot: Option<Slot>)
    ensures exists picked :: SlotFor(rates, target, power, headroom, deadline, picked, slot)
  {
    if power / 1000.0 <= 0.0 {
      NothingPicked(rates, power);
      assert SlotFor(rates, target, power, headroom, deadline, {}, None);
      return None;
    }
    var selected := SelectStarts(rates, HoursNeeded(target, power, headroom));
    slot := BuildSlot(rates, selected, power, deadline);
    assert SlotFor(rates, target, power, headroom, deadline, SelectedIndices(rates, selected), slot);
  }

  /** Sorts by price and marks the starts of the cheapest rates. */
  method SelectStarts(rates: seq<Rate>, hoursNeeded: int) returns (selected: set<int>)
    ensures DistinctStarts(rates) ==> Cheapest(rates, SelectedIndices(rates, selected), hoursNeeded)
  {
    var sorted := SortBy(rates, PriceKey);
    assert |multiset(sorted)| == |multiset(rates)|;
    selected := {};
    var total := 0;
    NoneSelected(rates);
    while total < |sorted| && total < hoursNeeded
      invariant 0 <= total <= |sorted|
      invariant total == 0 || total <= hoursNeeded
      invariant selected == set k | 0 <= k < total :: sorted[k].start
      invariant DistinctStarts(rates) ==> |SelectedIndices(rates, selected)| == total
    {
      if DistinctStarts(rates) { SelectOne(rates, sorted, total, selected); }
      selected := selected + {sorted[total].start};
      total := total + 1;
    }
    if DistinctStarts(rates) {
      CheapestSelected(rates, sorted, total, selected);
    }
  }

  /** The chronological pass that turns marked rates into periods and totals them. */
  method BuildSlot(rates: seq<Rate>, selected: set<int>, power: real, deadline: int) returns (slot: Option<Slot>)
    ensures SlotHolds(rates, SelectedIndices(rates, selected), power, deadline, slot)
  {
    ghost var picked := SelectedIndices(rates, selected);
    var periods: seq<Period> := [];
    var cost, energy := 0.0, 0.0;
    for i := 0 to |rates|
      invariant periods == Picked(rates[..i], picked, power)
      invariant cost == CostOf(periods) && energy == EnergyOf(periods)
    {
      PickStep(rates, i, picked, power);
      var r := rates[i];
      if r.start in selected {
        var p := AsPeriod(r, power);
        TotalsStep(periods, p);
        periods := periods + [p];
        energy := energy + power / 1000.0 * r.Hours();
        cost := cost + r.value * (power / 1000.0 * r.Hours());
      }
    }
    assert rates[..|rates|] == rates;
    slot := if periods == [] then None
      else Some(Slot(DateOf(deadline), deadline, periods, Hundredths(cost), Hundredths(energy), false));
  }

  ghost function SelectedIndices(rates: seq<Rate>, selected: set<int>): set<int> {
    set i | 0 <= i < |rates| && rates[i].start in selected
  }

  lemma NoneSelected(rates: seq<Rate>)
    ensures SelectedIndices(rates, {}) == {}
  {
  }

  lemma {:induction false} NothingPicked(rates: seq<Rate>, power: real)
    ensures Picked(rates, {}, power) == []
  {
    if rates != [] { NothingPicked(rates[..|rates| - 1], power); }
  }

  lemma PickStep(rates: seq<Rate>, i: nat, picked: set<int>, power: real)
    requires i < |rates|
    ensures Picked(rates[..i + 1], picked, power) ==
      Picked(rates[..i], picked, power) + if i in picked then [AsPeriod(rates[i], power)] else []
  {
    assert rates[..i + 1][..i] == rates[..i];
  }

  lemma TotalsStep(periods: seq<Period>, p: Period)
    ensures CostOf(periods + [p]) == CostOf(periods) + p.value.price * PeriodEnergy(p)
    ensures EnergyOf(periods + [p]) == EnergyOf(periods) + PeriodEnergy(p)
  {
    assert (periods + [p])[..|periods|] == periods;
  }

  /** A permutation of rates with distinct starts has distinct starts, and each has one index. */
  lemma SortedIndex(rates: seq<Rate>, sorted: seq<Rate>, k: nat) returns (i: int)
    requires DistinctStarts(rates) && multiset(sorted) == multiset(rates) && k < |sorted|
    ensures 0 <= i < |rates| && rates[i] == sorted[k]
    ensures forall l :: 0 <= l < |sorted| && sorted[l].start == sorted[k].start ==> l == k
    ensures forall j :: 0 <= j < |rates| && rates[j].start == sorted[k].start ==> j == i
  {
    assert sorted[k] in multiset(sorted);
    i :| 0 <= i < |rates| && rates[i] == sorted[k];
    forall l | 0 <= l < |sorted| && sorted[l].start == sorted[k].start
      ensures l == k
    {
      assert sorted[l] in multiset(sorted);
      var m :| 0 <= m < |rates| && rates[m] == sorted[l];
      assert m == i;
      OneOfEach(rates, i);
      if l != k { RepeatsCountTwice(sorted, Min(l, k), Max(l, k)); }
    }
  }

  lemma {:induction false} OneOfEach(rates: seq<Rate>, i: nat)
    requires DistinctStarts(rates) && i < |rates|
    ensures multiset(rates)[rates[i]] == 1
  {
    assert rates == rates[..i] + [rates[i]] + rates[i + 1..];
    assert rates[i] !in rates[..i] && rates[i] !in rates[i + 1..];
  }

  lemma SelectOne(rates: seq<Rate>, sorted: seq<Rate>, k: nat, selected: set<int>)
    requires DistinctStarts(rates) && multiset(sorted) == multiset(rates) && k < |sorted|
    requires selected == set l | 0 <= l < k :: sorted[l].start
    ensures |SelectedIndices(rates, selected + {sorted[k].start})| == |SelectedIndices(rates, selected)| + 1
  {
    var i := SortedIndex(rates, sorted, k);
    assert i !in SelectedIndices(rates, selected);
    assert SelectedIndices(rates, selected + {sorted[k].start}) == SelectedIndices(rates, selected) + {i};
  }

  lemma CheapestSelected(rates: seq<Rate>, sorted: seq<Rate>, total: nat, selected: set<int>)
    requires DistinctStarts(rates) && multiset(sorted) == multiset(rates) && total <= |sorted|
    requires SortedBy(sorted, PriceKey)
    requires selected == set l | 0 <= l < total :: sorted[l].start
    ensures var picked := SelectedIndices(rates, selected);
      forall i, j :: i in picked && 0 <= j < |rates| && j !in picked ==> rates[i].value <= rates[j].value
  {
    forall i, j | i in SelectedIndices(rates, selected) && 0 <= j < |rates| && j !in SelectedIndices(rates, selected)
      ensures rates[i].value <= rates[j].value
    {
      var a :| 0 <= a < total && sorted[a].start == rates[i].start;
      var i' := SortedIndex(rates, sorted, a);
      assert rates[j] in multiset(rates);
      var b :| 0 <= b < |sorted| && sorted[b] == rates[j];
      assert b >= total;
      assert PriceKey(sorted[a]) <= PriceKey(sorted[b]);
    }
  }

  // ----- the choice is optimal -----

  function PriceSum(rates: seq<Rate>, picked: set<int>): real {
    if rates == [] then 0.0
    else
      var n := |rates| - 1;
      PriceSum(rates[..n], picked) + if n in picked then rates[n].value else 0.0
  }

  lemma {:induction false} PriceSumAdds(rates: seq<Rate>, picked: set<int>, i: int)
    requires i !in picked
    ensures PriceSum(rates, picked + {i}) == PriceSum(rates, picked) + if 0 <= i < |rates| then rates[i].value else 0.0
  {
    if rates != [] { PriceSumAdds(rates[..|rates| - 1], picked, i); }
  }

  lemma SameSizeSubset(a: set<int>, b: set<int>)
    requires a <= b && |a| == |b|
    ensures a == b
  {
    assert |b - a| == 0;
  }

  lemma SizeOfDifference(a: set<int>, b: set<int>)
    requires |a| == |b|
    ensures |a - b| == |b - a|
  {
    assert a == (a - b) + a * b && b == (b - a) + a * b;
    assert |a| == |a - b| + |a * b| && |b| == |b - a| + |a * b|;
  }

  lemma Member(s: set<int>) returns (i: int)
    requires |s| != 0
    ensures i in s
  {
    NoMembers(s);
    i :| i in s;
  }

  lemma NoMembers(s: set<int>)
    ensures (forall x :: x !in s) ==> |s| == 0
  {
    if forall x :: x !in s { assert s == {}; }
  }

  /** No other choice of as many hours has a lower sum of prices. */
  lemma {:induction false} CheapestIsOptimal(rates: seq<Rate>, picked: set<int>, wanted: int, other: set<int>)
    requires Cheapest(rates, picked, wanted)
    requires Indices(rates, other) && |other| == |picked|
    ensures PriceSum(rates, picked) <= PriceSum(rates, other)
    decreases |picked - other|
  {
    SizeOfDifference(picked, other);
    var mine, theirs := picked - other, other - picked;
    if |mine| == 0 {
      SameSizeSubset(picked, other);
    } else {
      var i := Member(mine);
      var j := Member(theirs);
      var closer := other - {j} + {i};
      assert picked - closer == picked - other - {i};
      CheapestIsOptimal(rates, picked, wanted, closer);
      PriceSumAdds(rates, other - {j}, i);
      PriceSumAdds(rates, other - {j}, j);
      assert other - {j} + {j} == other;
      assert rates[i].value <= rates[j].value;
    }
  }

  // ----- energy of a choice -----

  function PickedSeconds(rates: seq<Rate>, picked: set<int>): int {
    if rates == [] then 0
    else
      var n := |rates| - 1;
      PickedSeconds(rates[..n], picked) + if n in picked then rates[n].end - rates[n].start else 0
  }

  lemma {:induction false} PickedEnergy(rates: seq<Rate>, picked: set<int>, power: real)
    ensures EnergyOf(Picked(rates, picked, power)) == KWh(power / 1000.0, PickedSeconds(rates, picked))
  {
    hide EnergyOf, KWh;
    if rates == [] {
      NoEnergy(power / 1000.0);
    } else {
      var n := |rates| - 1;
      var before := Picked(rates[..n], picked, power);
      var seconds := PickedSeconds(rates[..n], picked);
      PickedEnergy(rates[..n], picked, power);
      if n in picked {
        AddEnergy(before, rates[n], power, seconds);
      } else {
        assert Picked(rates, picked, power) == before;
      }
    }
  }

  lemma NoEnergy(kw: real)
    ensures EnergyOf([]) == 0.0 == KWh(kw, 0)
  {
  }

  lemma AddEnergy(before: seq<Period>, r: Rate, power: real, seconds: int)
    requires EnergyOf(before) == KWh(power / 1000.0, seconds)
    ensures EnergyOf(before + [AsPeriod(r, power)]) == KWh(power / 1000.0, seconds + (r.end - r.start))
  {
    TotalsStep(before, AsPeriod(r, power));
    assert PeriodEnergy(AsPeriod(r, power)) == KWh(power / 1000.0, r.end - r.start);
    hide EnergyOf, KWh;
    KWhAdds(power / 1000.0, seconds, r.end - r.start);
  }

  /** Every rate lasts at least `seconds`: so does, on average, any choice of them. */
  lemma {:induction false} PickedSecondsAtLeast(rates: seq<Rate>, picked: set<int>, seconds: int)
    requires forall i :: 0 <= i < |rates| ==> rates[i].end - rates[i].start >= seconds
    requires Indices(rates, picked)
    ensures PickedSeconds(rates, picked) >= seconds * |picked|
  {
    if rates == [] {
      NoMembers(picked);
    } else {
      var n := |rates| - 1;
      var rest := picked - {n};
      PickedSecondsAtLeast(rates[..n], rest, seconds);
      PickedSecondsIgnores(rates[..n], picked, n);
      assert n in picked ==> picked == rest + {n};
      assert n !in picked ==> picked == rest;
    }
  }

  lemma {:induction false} PickedSecondsIgnores(rates: seq<Rate>, picked: set<int>, n: int)
    requires n >= |rates|
    ensures PickedSeconds(rates, picked - {n}) == PickedSeconds(rates, picked)
  {
    if rates != [] { PickedSecondsIgnores(rates[..|rates| - 1], picked, n); }
  }

  lemma {:induction false} PickedSecondsAtMost(rates: seq<Rate>, picked: set<int>, seconds: int)
    requires forall i :: 0 <= i < |rates| ==> rates[i].end - rates[i].start <= seconds
    requires Indices(rates, picked)
    ensures PickedSeconds(rates, picked) <= seconds * |picked|
  {
    if rates == [] {
      NoMembers(picked);
    } else {
      var n := |rates| - 1;
      var rest := picked - {n};
      PickedSecondsAtMost(rates[..n], rest, seconds);
      PickedSecondsIgnores(rates[..n], picked, n);
      assert n in picked ==> picked == rest + {n};
      assert n !in picked ==> picked == rest;
    }
  }

  ghost predicate WholeHours(rates: seq<Rate>) {
    forall i :: 0 <= i < |rates| ==> rates[i].end - rates[i].start == SECONDS_PER_HOUR
  }

  /**
   With enough whole-hour rates the slot carries the target with headroom, and less than one
   hour's energy more.
   */
  lemma SlotMeetsTarget(
    rates: seq<Rate>, target: real, power: real, headroom: real, deadline: int, picked: set<int>, slot: Option<Slot>)
    requires SlotFor(rates, target, power, headroom, deadline, picked, slot)
    requires power > 0.0 && target > 0.0 && 1.0 + headroom / 100.0 > 0.0
    requires DistinctStarts(rates) && WholeHours(rates)
    requires HoursNeeded(target, power, headroom) <= |rates|
    ensures slot.Some?
    ensures
      var asked := Times(target, 1.0 + headroom / 100.0);
      asked <= EnergyOf(slot.value.periods) < asked + power / 1000.0
  {
    var kw := power / 1000.0;
    var asked := Times(target, Headroom(headroom));
    var n := HoursNeeded(target, power, headroom);
    TimesPositive(target, Headroom(headroom));
    assert asked / kw > 0.0;
    CeilBounds(asked / kw);
    assert n > 0;
    PickedSecondsAtLeast(rates, picked, SECONDS_PER_HOUR);
    PickedSecondsAtMost(rates, picked, SECONDS_PER_HOUR);
    PickedEnergy(rates, picked, power);
    HoursCarry(asked, kw, n);
    assert EnergyOf([]) == 0.0;
  }

  /** `n`, the quotient rounded up, is the least number of whole hours carrying `asked`. */
  lemma HoursCarry(asked: real, kw: real, n: int)
    requires kw > 0.0 && asked / kw <= n as real < asked / kw + 1.0
    ensures asked <= KWh(kw, SECONDS_PER_HOUR * n) < asked + kw
  {
    var q := asked / kw;
    assert (SECONDS_PER_HOUR * n) as real / 3600.0 == n as real;
    hide Times;
    TimesQuotient(asked, kw);
    TimesAdds(kw, q, n as real - q);
    TimesFraction(kw, n as real - q);
  }

  /**
   The cheapest choices of every size short of all are long enough: with headroom, n of them
   last at least n hours.
   */
  ghost predicate LongEnough(rates: seq<Rate>, headroom: real) {
    forall picked :: Cheapest(rates, picked, |picked|) && 0 < |picked| < |rates| ==> Lasts(rates, picked, headroom)
  }

  ghost predicate Lasts(rates: seq<Rate>, picked: set<int>, headroom: real) {
    Times(Headroom(headroom), PickedSeconds(rates, picked) as real / 3600.0) >= |picked| as real
  }

  /** A choice made for `target` that leaves rates over still carries the target. */
  ghost predicate Suffices(rates: seq<Rate>, target: real, power: real, headroom: real, picked: set<int>)
    requires power > 0.0
  {
    target > 0.0 && Cheapest(rates, picked, HoursNeeded(target, power, headroom)) && |picked| < |rates| ==>
      KWh(power / 1000.0, PickedSeconds(rates, picked)) >= target
  }

  /**
   Counting rates as hours is safe for every target exactly when the cheapest choices are long
   enough; a tariff cut into short fragments is not.
   */
  lemma SufficesIffLongEnough(rates: seq<Rate>, power: real, headroom: real)
    requires power > 0.0 && Headroom(headroom) > 0.0
    ensures (forall target, picked :: Suffices(rates, target, power, headroom, picked)) <==> LongEnough(rates, headroom)
  {
    hide KWh, Times;
    if LongEnough(rates, headroom) {
      forall target, picked
        ensures Suffices(rates, target, power, headroom, picked)
      {
        if target > 0.0 && Cheapest(rates, picked, HoursNeeded(target, power, headroom)) && |picked| < |rates| {
          LongChoiceCarries(rates, target, power, headroom, picked);
        }
      }
    }
    if forall target, picked :: Suffices(rates, target, power, headroom, picked) {
      forall picked | Cheapest(rates, picked, |picked|) && 0 < |picked| < |rates|
        ensures Lasts(rates, picked, headroom)
      {
        CarryingChoiceIsLong(rates, power, headroom, picked);
      }
    }
  }

  lemma LongChoiceCarries(rates: seq<Rate>, target: real, power: real, headroom: real, picked: set<int>)
    requires power > 0.0 && Headroom(headroom) > 0.0 && target > 0.0
    requires LongEnough(rates, headroom)
    requires Cheapest(rates, picked, HoursNeeded(target, power, headroom)) && |picked| < |rates|
    ensures KWh(power / 1000.0, PickedSeconds(rates, picked)) >= target
  {
    var kw, h := power / 1000.0, Headroom(headroom);
    var hours := PickedSeconds(rates, picked) as real / 3600.0;
    var need := Times(target, h) / kw;
    TimesPositive(target, h);
    assert need > 0.0;
    CeilBounds(need);
    assert Lasts(rates, picked, headroom);
    TimesQuotient(Times(target, h), kw);
    hide Times;
    TimesOrder(kw, need, Times(h, hours));
    TimesSwaps(kw, h, hours);
    TimesCommutes(target, h);
    TimesCancels(h, Times(kw, hours), target);
  }

  lemma CarryingChoiceIsLong(rates: seq<Rate>, power: real, headroom: real, picked: set<int>)
    requires power > 0.0 && Headroom(headroom) > 0.0
    requires Cheapest(rates, picked, |picked|) && 0 < |picked| < |rates|
    requires forall target :: Suffices(rates, target, power, headroom, picked)
    ensures Lasts(rates, picked, headroom)
  {
    var kw, h, n := power / 1000.0, Headroom(headroom), |picked| as real;
    var hours := PickedSeconds(rates, picked) as real / 3600.0;
    var target := Times(kw, n) / h;
    ExactTarget(kw, h, |picked|);
    assert Suffices(rates, target, power, headroom, picked);
    hide Times;
    TimesOrder(h, target, Times(kw, hours));
    TimesQuotient(Times(kw, n), h);
    TimesSwaps(h, kw, hours);
    TimesCancels(kw, Times(h, hours), n);
  }

  /** The target for which exactly n hours are needed. */
  lemma ExactTarget(kw: real, h: real, n: int)
    requires kw > 0.0 && h > 0.0 && n > 0
    ensures var target := Times(kw, n as real) / h;
      target > 0.0 && Ceil(Times(target, h) / kw) == n
  {
    var x := Times(kw, n as real);
    TimesPositive(kw, n as real);
    TimesQuotient(x, h);
    TimesCommutes(h, x / h);
    assert x / kw == n as real;
  }

  /**
   Two half hours, one hour's energy wanted: the cheaper half hour alone is picked, and the
   dearer one is left out although it is needed.
   */
  lemma HalfHoursGiveUp()
    ensures var rates: seq<Rate> := [Span(0, 1800, 1.0), Span(3600, 5400, 2.0)];
      && Cheapest(rates, {0}, HoursNeeded(11.0, 11000.0, 0.0))
      && !Suffices(rates, 11.0, 11000.0, 0.0, {0})
      && !LongEnough(rates, 0.0)
  {
    var rates: seq<Rate> := [Span(0, 1800, 1.0), Span(3600, 5400, 2.0)];
    assert Times(11.0, Headroom(0.0)) == 11.0;
    assert 11.0 / (11000.0 / 1000.0) == 1.0;
    assert HoursNeeded(11.0, 11000.0, 0.0) == 1;
    assert rates[..1][..0] == [] && PickedSeconds(rates[..1], {0}) == 1800;
    assert PickedSeconds(rates, {0}) == 1800;
    assert Times(11.0, 1800.0 / 3600.0) == 5.5;
    assert Cheapest(rates, {0}, |{0}|);
    assert !Lasts(rates, {0}, 0.0) by { assert Times(Headroom(0.0), 1800.0 / 3600.0) == 0.5; }
  }
}
