/**
 Rounding as the Go program does it, over exact reals: to hundredths for energies and costs, up to whole hours,
 and half to even where a power is printed. Products of reals are named, to keep the solver linear.
 */
module Arithmetic {
  const SECONDS_PER_HOUR := 3600
  const SECONDS_PER_DAY := 86400

  /** `math.Round`: to the nearest integer, halves away from zero. */
  function Round(x: real): int {
    if x >= 0.0 then (x + 0.5).Floor else -((0.5 - x).Floor)
  }

  /** `math.Round(x*100) / 100`. */
  function Hundredths(x: real): real {
    Round(x * 100.0) as real / 100.0
  }

  /** `math.Ceil` followed by `int(...)`. */
  function Ceil(x: real): int {
    -((-x).Floor)
  }

  /** What the verb `%.0f` prints: the nearest integer, halves to the even neighbour. */
  function RoundToEven(x: real): int {
    var low := x.Floor;
    var rest := x - low as real;
    if rest < 0.5 || (rest == 0.5 && low % 2 == 0) then low else low + 1
  }

  function Hours(start: int, end: int): real {
    (end - start) as real / 3600.0
  }

  /** Rounding to hundredths moves a value by at most half a hundredth. */
  lemma HundredthsClose(x: real)
    ensures -0.005 <= Hundredths(x) - x <= 0.005
  {
    var y := x * 100.0;
    assert -0.5 <= Round(y) as real - y <= 0.5;
  }

  /** Which values round to n hundredths: halves go away from zero. */
  lemma HundredthsExactly(x: real, n: int)
    ensures x >= 0.0 ==> (Hundredths(x) == n as real / 100.0 <==> n as real - 0.5 <= x * 100.0 < n as real + 0.5)
    ensures x < 0.0 ==> Hundredths(x) == -Hundredths(-x)
  {
    var y := x * 100.0;
    assert x < 0.0 ==> -x * 100.0 == -y;
    if x >= 0.0 {
      assert (y + 0.5).Floor == n <==> n as real <= y + 0.5 < n as real + 1.0;
      assert Hundredths(x) == n as real / 100.0 <==> Round(y) == n;
    }
  }

  /** Rounding twice is rounding once. */
  lemma RoundedOnce(x: real)
    ensures Hundredths(Hundredths(x)) == Hundredths(x)
  {
    var n := Round(x * 100.0);
    assert n as real / 100.0 * 100.0 == n as real;
    assert Round(n as real) == n;
  }

  /** Which values print as n: halves go to the even neighbour. */
  lemma RoundToEvenExactly(x: real, n: int)
    ensures RoundToEven(x) == n <==>
      n as real - 0.5 < x < n as real + 0.5 || (n % 2 == 0 && (x == n as real - 0.5 || x == n as real + 0.5))
  {
    var low := x.Floor;
    assert low as real <= x < low as real + 1.0;
    if n != low && n != low + 1 {
      assert n <= low - 1 || n >= low + 2;
      assert n as real <= low as real - 1.0 || n as real >= low as real + 2.0;
    }
  }

  lemma CeilBounds(x: real)
    ensures x <= Ceil(x) as real < x + 1.0
  {
  }

  function Max(a: int, b: int): int { if a < b then b else a }

  function Min(a: int, b: int): int { if a < b then a else b }

  /** Energy of `kw` kW drawn for `seconds`. */
  function KWh(kw: real, seconds: int): real { Times(kw, seconds as real / 3600.0) }

  lemma KWhAdds(kw: real, a: int, b: int)
    ensures KWh(kw, a) + KWh(kw, b) == KWh(kw, a + b)
  {
    assert (a + b) as real / 3600.0 == a as real / 3600.0 + b as real / 3600.0;
    hide Times;
    TimesAdds(kw, a as real / 3600.0, b as real / 3600.0);
  }

  lemma KWhOrder(kw: real, a: int, b: int)
    requires kw >= 0.0 && a <= b
    ensures KWh(kw, a) <= KWh(kw, b)
  {
    TimesOrder(kw, a as real / 3600.0, b as real / 3600.0);
  }

  /** A product by name, so that proofs can treat it as an atom and use only the laws below. */
  function Times(x: real, y: real): real { x * y }

  lemma TimesAdds(k: real, a: real, b: real)
    ensures Times(k, a) + Times(k, b) == Times(k, a + b)
  {
  }

  lemma TimesOrder(k: real, a: real, b: real)
    requires k >= 0.0 && a <= b
    ensures Times(k, a) <= Times(k, b)
  {
  }

  lemma TimesFraction(k: real, d: real)
    requires k > 0.0 && 0.0 <= d < 1.0
    ensures 0.0 <= Times(k, d) < k
  {
  }

  lemma TimesQuotient(x: real, k: real)
    requires k != 0.0
    ensures Times(k, x / k) == x
  {
  }

  lemma TimesPositive(x: real, y: real)
    requires x > 0.0 && y > 0.0
    ensures Times(x, y) > 0.0
  {
  }

  lemma TimesCommutes(x: real, y: real)
    ensures Times(x, y) == Times(y, x)
  {
  }

  lemma TimesSwaps(x: real, y: real, z: real)
    ensures Times(x, Times(y, z)) == Times(y, Times(x, z))
  {
  }

  lemma TimesCancels(k: real, a: real, b: real)
    requires k > 0.0 && Times(k, a) >= Times(k, b)
    ensures a >= b
  {
    if a < b { TimesPositive(k, b - a); TimesAdds(k, a, b - a); }
  }
}
