/**
 Pricing energy against the tariff: `CalculateSessionCost` (store/rates.go) for recorded sessions, and
 `priceOverPeriod` (fragment.go) for planned ones.
 */
module Costing {
  import opened Arithmetic
  import opened Spans

  /** What `seconds` at `price` cost per kW drawn. */
  function Priced(seconds: int, price: real): real { seconds as real / 3600.0 * price }

  /** Hours shared with [start, end), each weighted by its rate's price. */
  function PriceHours(rates: seq<Rate>, start: int, end: int): real {
    if rates == [] then 0.0
    else
      var r := rates[|rates| - 1];
      PriceHours(rates[..|rates| - 1], start, end) + Priced(r.Meet(start, end), r.value)
  }

  /** Cost of `energy` kWh drawn evenly over [start, stop). */
  function SessionCost(rates: seq<Rate>, start: int, stop: int, energy: real): real {
    if energy <= 0.0 || stop <= start then 0.0
    else energy / Hours(start, stop) * PriceHours(rates, start, stop)
  }

  lemma PriceHoursStep(rates: seq<Rate>, i: nat, start: int, end: int)
    requires i < |rates|
    ensures PriceHours(rates[..i + 1], start, end) ==
      PriceHours(rates[..i], start, end) + Priced(rates[i].Meet(start, end), rates[i].value)
  {
    assert rates[..i + 1][..i] == rates[..i];
  }

  /** `RatesForPeriod`: only rates that touch the period are read. */
  method RatesForPeriod(table: seq<Rate>, start: int, end: int) returns (rates: seq<Rate>)
    ensures PriceHours(rates, start, end) == PriceHours(table, start, end)
    ensures forall r :: r in rates <==> r in table && r.start < end && r.end > start
  {
    rates := [];
    for i := 0 to |table|
      invariant PriceHours(rates, start, end) == PriceHours(table[..i], start, end)
      invariant forall r :: r in rates <==> r in table[..i] && r.start < end && r.end > start
    {
      FilterStep(rates, table, i, start, end);
      assert table[..i + 1] == table[..i] + [table[i]];
      if table[i].start < end && table[i].end > start {
        rates := rates + [table[i]];
      }
    }
    assert table[..|table|] == table;
  }

  lemma FilterStep(rates: seq<Rate>, table: seq<Rate>, i: nat, start: int, end: int)
    requires i < |table| && PriceHours(rates, start, end) == PriceHours(table[..i], start, end)
    ensures var touches := table[i].start < end && table[i].end > start;
      PriceHours(if touches then rates + [table[i]] else rates, start, end) == PriceHours(table[..i + 1], start, end)
  {
    PriceHoursStep(table, i, start, end);
    var longer := rates + [table[i]];
    PriceHoursStep(longer, |rates|, start, end);
    assert longer[..|rates|] == rates && longer[..|rates| + 1] == longer;
  }

  /** The clipping loop both cost functions share. */
  method PriceOverlaps(rates: seq<Rate>, start: int, end: int, powerKW: real) returns (cost: real)
    ensures cost == powerKW * PriceHours(rates, start, end)
  {
    hide PriceHours;
    cost := 0.0;
    NoRates(start, end, powerKW);
    for i := 0 to |rates|
      invariant cost == powerKW * PriceHours(rates[..i], start, end)
    {
      hide *;
      var r := rates[i];
      var overlapStart := if start > r.start then start else r.start;
      var overlapEnd := if end < r.end then end else r.end;
      var hours := Hours(overlapStart, overlapEnd);
      OverlapStep(rates, i, start, end, powerKW, hours);
      if hours <= 0.0 {
        continue;
      }
      cost := cost + powerKW * hours * r.value;
    }
    assert rates[..|rates|] == rates;
  }

  lemma NoRates(start: int, end: int, power: real)
    ensures power * PriceHours([], start, end) == 0.0
  {
  }

  lemma OverlapStep(rates: seq<Rate>, i: nat, start: int, end: int, power: real, hours: real)
    requires i < |rates| && hours == Hours(Max(start, rates[i].start), Min(end, rates[i].end))
    ensures power * PriceHours(rates[..i + 1], start, end) ==
      power * PriceHours(rates[..i], start, end) + if hours <= 0.0 then 0.0 else power * hours * rates[i].value
  {
    hide PriceHours, Priced;
    var price := rates[i].value;
    var seconds := rates[i].Meet(start, end);
    PriceHoursStep(rates, i, start, end);
    Distribute(power, PriceHours(rates[..i], start, end), Priced(seconds, price));
    if hours <= 0.0 {
      assert seconds == 0;
      NoSeconds(price);
    } else {
      assert hours == seconds as real / 3600.0;
      PricedPower(power, seconds, hours, price);
    }
  }

  lemma PricedPower(power: real, seconds: int, hours: real, price: real)
    requires hours == seconds as real / 3600.0
    ensures power * Priced(seconds, price) == power * hours * price
  {
  }

  lemma NoSeconds(price: real)
    ensures Priced(0, price) == 0.0
  {
  }

  lemma Distribute(x: real, a: real, b: real)
    ensures x * (a + b) == x * a + x * b
  {
  }

  method CalculateSessionCost(table: seq<Rate>, start: int, stop: int, energy: real) returns (cost: real)
    ensures cost == SessionCost(table, start, stop, energy)
  {
    if energy <= 0.0 { return 0.0; }
    var rates := RatesForPeriod(table, start, stop);
    if rates == [] { return 0.0; }
    var totalHours := Hours(start, stop);
    if totalHours <= 0.0 { return 0.0; }
    cost := PriceOverlaps(rates, start, stop, energy / totalHours);
  }

  /** Energy of constant power over [start, end). */
  function PeriodKWh(start: int, end: int, powerW: real): real {
    if end <= start then 0.0 else powerW / 1000.0 * Hours(start, end)
  }

  /** Its cost against the rates that cover it. */
  function PeriodCost(rates: seq<Rate>, start: int, end: int, powerW: real): real {
    if end <= start then 0.0 else powerW / 1000.0 * PriceHours(rates, start, end)
  }

  method PriceOverPeriod(rates: seq<Rate>, start: int, end: int, powerW: real) returns (cost: real, energy: real)
    ensures energy == PeriodKWh(start, end, powerW)
    ensures cost == PeriodCost(rates, start, end, powerW)
  {
    if end <= start { return 0.0, 0.0; }
    energy := powerW / 1000.0 * Hours(start, end);
    cost := PriceOverlaps(rates, start, end, powerW / 1000.0);
  }

  // ----- laws -----

  lemma {:induction false} PriceHoursSplit(rates: seq<Rate>, start: int, mid: int, end: int)
    requires start <= mid <= end
    ensures PriceHours(rates, start, mid) + PriceHours(rates, mid, end) == PriceHours(rates, start, end)
  {
    hide Priced;
    if rates != [] {
      var r := rates[|rates| - 1];
      PriceHoursSplit(rates[..|rates| - 1], start, mid, end);
      PricedAdds(r.Meet(start, mid), r.Meet(mid, end), r.value);
    }
  }

  lemma PricedAdds(a: int, b: int, price: real)
    ensures Priced(a, price) + Priced(b, price) == Priced(a + b, price)
  {
    assert a as real / 3600.0 + b as real / 3600.0 == (a + b) as real / 3600.0;
  }

  /** Energy drawn at constant power is priced at that power. */
  lemma CostAtPower(rates: seq<Rate>, start: int, end: int, power: real)
    requires start < end && power > 0.0
    ensures SessionCost(rates, start, end, power * Hours(start, end)) == power * PriceHours(rates, start, end)
  {
    var hours := Hours(start, end);
    assert hours > 0.0;
    CancelFactor(power, hours);
  }

  lemma CancelFactor(power: real, hours: real)
    requires hours > 0.0 && power > 0.0
    ensures power * hours > 0.0 && power * hours / hours == power
  {
  }

  /**
   A session's cost splits exactly at any instant: energy drawn at constant power over
   [start, stop) costs what its two parts cost.
   */
  lemma CostSplits(rates: seq<Rate>, start: int, mid: int, stop: int, power: real)
    requires start < mid < stop && power > 0.0
    ensures SessionCost(rates, start, stop, power * Hours(start, stop)) ==
      SessionCost(rates, start, mid, power * Hours(start, mid))
        + SessionCost(rates, mid, stop, power * Hours(mid, stop))
  {
    hide *;
    CostAtPower(rates, start, stop, power);
    CostAtPower(rates, start, mid, power);
    CostAtPower(rates, mid, stop, power);
    PriceHoursSplit(rates, start, mid, stop);
    Distribute(power, PriceHours(rates, start, mid), PriceHours(rates, mid, stop));
  }

  /** The session recorder and the planner price the same power over the same time alike. */
  lemma CostsAgree(rates: seq<Rate>, start: int, end: int, powerW: real)
    requires start < end && powerW > 0.0
    ensures SessionCost(rates, start, end, PeriodKWh(start, end, powerW)) == PeriodCost(rates, start, end, powerW)
  {
    CostAtPower(rates, start, end, powerW / 1000.0);
  }

  function CoveredSeconds(rates: seq<Rate>, start: int, end: int): nat {
    if rates == [] then 0
    else CoveredSeconds(rates[..|rates| - 1], start, end) + rates[|rates| - 1].Meet(start, end)
  }

  /** Disjoint rates cover each second at most once. */
  lemma {:induction false} CoverCountsOnce(rates: seq<Rate>, start: int, end: int)
    requires Ordered(rates)
    ensures CoveredSeconds(rates, start, end) == |Instants(rates) * Between(start, end)|
  {
    if rates == [] {
      assert Instants(rates) * Between(start, end) == {};
    } else {
      var rest := rates[..|rates| - 1];
      var r := rates[|rates| - 1];
      CoverCountsOnce(rest, start, end);
      LastIsApart(rates);
      assert Instants(rates) == Instants(rest) + Between(r.start, r.end);
      hide Instants, Between, Ordered;
      ClipUnion(Instants(rest), r, start, end);
    }
  }

  lemma LastIsApart(rates: seq<Rate>)
    requires Ordered(rates) && rates != []
    ensures var n := |rates| - 1;
      Ordered(rates[..n]) && Instants(rates[..n]) !! Between(rates[n].start, rates[n].end)
  {
    InstantsAreCovered(rates[..|rates| - 1]);
    hide Instants;
  }

  lemma CountUnion(a: set<int>, b: set<int>, c: set<int>)
    requires a !! b
    ensures |(a + b) * c| == |a * c| + |b * c|
  {
    assert (a + b) * c == a * c + b * c && (a * c) !! (b * c);
  }

  lemma MeetCount(r: Rate, start: int, end: int)
    ensures |Between(r.start, r.end) * Between(start, end)| == r.Meet(start, end)
  {
    assert Between(r.start, r.end) * Between(start, end) == Between(Max(r.start, start), Min(r.end, end));
  }

  lemma ClipUnion(earlier: set<int>, r: Rate, start: int, end: int)
    requires earlier !! Between(r.start, r.end)
    ensures |(earlier + Between(r.start, r.end)) * Between(start, end)| ==
      |earlier * Between(start, end)| + r.Meet(start, end)
  {
    CountUnion(earlier, Between(r.start, r.end), Between(start, end));
    MeetCount(r, start, end);
  }

  /** Disjoint rates that leave no second out cover the whole period. */
  lemma CoverIsWhole(rates: seq<Rate>, start: int, stop: int)
    requires Ordered(rates) && start < stop
    requires forall t :: start <= t < stop ==> Covered(rates, t)
    ensures CoveredSeconds(rates, start, stop) == stop - start
  {
    InstantsAreCovered(rates);
    assert Instants(rates) * Between(start, stop) == Between(start, stop);
    CoverCountsOnce(rates, start, stop);
  }

  /** A charge costs between its cheapest and its dearest hour when the tariff covers it. */
  lemma CostBetweenPrices(rates: seq<Rate>, start: int, stop: int, energy: real, low: real, high: real)
    requires Ordered(rates) && start < stop && energy > 0.0
    requires forall t :: start <= t < stop ==> Covered(rates, t)
    requires forall i :: 0 <= i < |rates| && rates[i].Meet(start, stop) > 0 ==> low <= rates[i].value <= high
    ensures low * energy <= SessionCost(rates, start, stop, energy) <= high * energy
  {
    hide Priced, PriceHours, CoveredSeconds, Ordered;
    CoverIsWhole(rates, start, stop);
    PriceHoursBounds(rates, start, stop, low, high);
    ScaleBounds(energy, start, stop, low, high, PriceHours(rates, start, stop));
  }

  lemma ScaleBounds(energy: real, start: int, stop: int, low: real, high: real, x: real)
    requires energy > 0.0 && start < stop && Priced(stop - start, low) <= x <= Priced(stop - start, high)
    ensures low * energy <= energy / Hours(start, stop) * x <= high * energy
  {
    var hours := Hours(start, stop);
    var power := energy / hours;
    assert power > 0.0 && power * hours == energy;
    assert power * (hours * low) <= power * x <= power * (hours * high);
    assert power * (hours * low) == low * (power * hours);
    assert power * (hours * high) == high * (power * hours);
  }

  lemma {:induction false} PriceHoursBounds(rates: seq<Rate>, start: int, end: int, low: real, high: real)
    requires forall i :: 0 <= i < |rates| && rates[i].Meet(start, end) > 0 ==> low <= rates[i].value <= high
    ensures
      var seconds := CoveredSeconds(rates, start, end);
      Priced(seconds, low) <= PriceHours(rates, start, end) <= Priced(seconds, high)
  {
    hide Priced;
    if rates == [] {
      NoSeconds(low);
      NoSeconds(high);
    } else {
      var rest := rates[..|rates| - 1];
      var r := rates[|rates| - 1];
      PriceHoursBounds(rest, start, end, low, high);
      var a, b := CoveredSeconds(rest, start, end), r.Meet(start, end);
      PricedAdds(a, b, low);
      PricedAdds(a, b, high);
      if b == 0 {
        NoSeconds(low);
        NoSeconds(high);
        NoSeconds(r.value);
      } else {
        PricedOrder(b, low, r.value);
        PricedOrder(b, r.value, high);
      }
    }
  }

  lemma PricedOrder(seconds: nat, a: real, b: real)
    requires a <= b
    ensures Priced(seconds, a) <= Priced(seconds, b)
  {
  }
}
