/**
 Half-open stretches of time [start, end), in whole seconds, each carrying a value: a
 price (tariff rates), a charging load (plan periods) or nothing (plain windows).
 */
module Spans {
  import opened Arithmetic

  datatype Span<+T> = Span(start: int, end: int, value: T) {
    predicate Covers(t: int) { start <= t < end }

    /** Seconds shared with [lo, hi). */
    function Meet(lo: int, hi: int): nat {
      Max(0, Min(end, hi) - Max(start, lo))
    }

    function Hours(): real { Arithmetic.Hours(start, end) }
  }

  type Rate = Span<real>
  type Window = Span<()>

  /** Non-empty, chronological and pairwise disjoint. */
  ghost predicate Ordered<T>(xs: seq<Span<T>>) {
    && (forall i :: 0 <= i < |xs| ==> xs[i].start < xs[i].end)
    && (forall i, j :: 0 <= i < j < |xs| ==> xs[i].end <= xs[j].start)
  }

  ghost predicate Covered<T>(xs: seq<Span<T>>, t: int) {
    exists i :: 0 <= i < |xs| && xs[i].Covers(t)
  }

  ghost predicate NonEmpty<T>(xs: seq<Span<T>>) {
    forall i :: 0 <= i < |xs| ==> xs[i].start < xs[i].end
  }

  ghost predicate StartSorted<T>(xs: seq<Span<T>>) {
    forall i, j :: 0 <= i < j < |xs| ==> xs[i].start <= xs[j].start
  }

  function StartKey<T>(x: Span<T>): real { x.start as real }

  function Seconds<T>(xs: seq<Span<T>>): int {
    if xs == [] then 0 else Seconds(xs[..|xs| - 1]) + (xs[|xs| - 1].end - xs[|xs| - 1].start)
  }

  /** The seconds of [lo, hi), as a set. */
  ghost function Between(lo: int, hi: int): (r: set<int>)
    ensures forall t :: t in r <==> lo <= t < hi
    ensures |r| == Max(0, hi - lo)
    decreases hi - lo
  {
    if lo < hi then Between(lo, hi - 1) + {hi - 1} else {}
  }

  ghost function Instants<T>(xs: seq<Span<T>>): set<int> {
    if xs == [] then {} else Instants(xs[..|xs| - 1]) + Between(xs[|xs| - 1].start, xs[|xs| - 1].end)
  }

  lemma SameSet(a: set<int>, b: set<int>)
    requires forall t :: t in a <==> t in b
    ensures a == b
  {
    forall t ensures t in a <==> t in b {}
  }

  lemma CoveredStep<T>(xs: seq<Span<T>>, i: nat)
    requires i < |xs|
    ensures forall t :: Covered(xs[..i + 1], t) <==> Covered(xs[..i], t) || xs[i].Covers(t)
  {
    assert xs[..i + 1] == xs[..i] + [xs[i]];
    CoveredConcat(xs[..i], [xs[i]]);
    assert forall t :: xs[i].Covers(t) ==> [xs[i]][0].Covers(t);
  }

  lemma CoveredConcat<T>(xs: seq<Span<T>>, ys: seq<Span<T>>)
    ensures forall t :: Covered(xs + ys, t) <==> Covered(xs, t) || Covered(ys, t)
  {
    forall t
      ensures Covered(xs + ys, t) <==> Covered(xs, t) || Covered(ys, t)
    {
      if Covered(xs, t) {
        var i :| 0 <= i < |xs| && xs[i].Covers(t);
        assert (xs + ys)[i].Covers(t);
      }
      if Covered(ys, t) {
        var i :| 0 <= i < |ys| && ys[i].Covers(t);
        assert (xs + ys)[|xs| + i].Covers(t);
      }
      if Covered(xs + ys, t) {
        var i :| 0 <= i < |xs + ys| && (xs + ys)[i].Covers(t);
        assert if i < |xs| then xs[i].Covers(t) else ys[i - |xs|].Covers(t);
      }
    }
  }

  lemma {:induction false} InstantsAreCovered<T>(xs: seq<Span<T>>)
    ensures forall t :: t in Instants(xs) <==> Covered(xs, t)
  {
    if xs != [] {
      var n := |xs| - 1;
      InstantsAreCovered(xs[..n]);
      CoveredStep(xs, n);
      assert xs[..n + 1] == xs;
    }
  }

  /** Durations of disjoint spans add up to the number of seconds they cover. */
  lemma {:induction false} OrderedSeconds<T>(xs: seq<Span<T>>)
    requires Ordered(xs)
    ensures Seconds(xs) == |Instants(xs)|
  {
    if xs != [] {
      var rest := xs[..|xs| - 1];
      var last := xs[|xs| - 1];
      OrderedSeconds(rest);
      LastIsLater(xs);
      hide Ordered;
      assert |Instants(rest) + Between(last.start, last.end)| == |Instants(rest)| + |Between(last.start, last.end)|;
    }
  }

  lemma LastIsLater<T>(xs: seq<Span<T>>)
    requires Ordered(xs) && xs != []
    ensures var last := xs[|xs| - 1];
      last.start < last.end && Instants(xs[..|xs| - 1]) !! Between(last.start, last.end)
  {
    InstantsAreCovered(xs[..|xs| - 1]);
  }

  lemma OrderedConcat<T>(xs: seq<Span<T>>, ys: seq<Span<T>>)
    requires Ordered(xs) && Ordered(ys)
    requires xs != [] && ys != [] ==> xs[|xs| - 1].end <= ys[0].start
    ensures Ordered(xs + ys)
  {
    var all := xs + ys;
    forall i, j | 0 <= i < j < |all|
      ensures all[i].end <= all[j].start
    {
      if i < |xs| <= j {
        assert xs[i].end <= xs[|xs| - 1].end;
        assert ys[0].start <= ys[j - |xs|].start;
      }
    }
  }

  lemma OrderedParts<T>(xs: seq<Span<T>>, ys: seq<Span<T>>)
    requires Ordered(xs + ys)
    ensures Ordered(xs) && Ordered(ys)
    ensures xs != [] && ys != [] ==> xs[|xs| - 1].end <= ys[0].start
  {
    assert forall i :: 0 <= i < |xs| ==> (xs + ys)[i] == xs[i];
    assert forall i :: 0 <= i < |ys| ==> (xs + ys)[|xs| + i] == ys[i];
  }

  /** Some of an ordered list's earlier spans, in order, followed by its last one. */
  lemma ExtendOrdered<T(!new)>(xs: seq<Span<T>>, before: seq<Span<T>>)
    requires Ordered(xs) && xs != [] && Ordered(before)
    requires forall x: Span<T> :: x in before ==> x in xs[..|xs| - 1]
    ensures Ordered(before + [xs[|xs| - 1]])
  {
    if before != [] {
      assert before[|before| - 1] in before;
    }
    OrderedConcat(before, [xs[|xs| - 1]]);
  }

  /** Pairwise disjointness as a property of the bag of spans, whatever their order. */
  ghost predicate Scattered<T(!new)>(bag: multiset<Span<T>>) {
    && (forall x :: x in bag ==> x.start < x.end && bag[x] == 1)
    && (forall x, y :: x in bag && y in bag && x != y ==> x.end <= y.start || y.end <= x.start)
  }

  lemma RepeatsCountTwice<T>(xs: seq<T>, i: int, j: int)
    requires 0 <= i < j < |xs|
    ensures xs[i] == xs[j] ==> multiset(xs)[xs[i]] >= 2
  {
    assert xs == xs[..j] + [xs[j]] + xs[j + 1..];
    assert xs[..j][i] in multiset(xs[..j]);
  }

  lemma ScatteredSortedIsOrdered<T(!new)>(xs: seq<Span<T>>)
    requires Scattered(multiset(xs)) && StartSorted(xs)
    ensures Ordered(xs)
  {
    forall i, j | 0 <= i < j < |xs|
      ensures xs[i].end <= xs[j].start
    {
      assert xs[i] in multiset(xs) && xs[j] in multiset(xs);
      RepeatsCountTwice(xs, i, j);
    }
    forall i | 0 <= i < |xs|
      ensures xs[i].start < xs[i].end
    {
      assert xs[i] in multiset(xs);
    }
  }

  ghost predicate PairwiseApart<T>(xs: seq<Span<T>>) {
    && NonEmpty(xs)
    && forall i, j :: 0 <= i < j < |xs| ==> xs[i].end <= xs[j].start || xs[j].end <= xs[i].start
  }

  lemma {:induction false} ApartIsScattered<T(!new)>(xs: seq<Span<T>>)
    requires PairwiseApart(xs)
    ensures Scattered(multiset(xs))
  {
    if xs != [] {
      hide *;
      var n := |xs| - 1;
      LastApart(xs);
      ApartIsScattered(xs[..n]);
      ScatteredAdd(multiset(xs[..n]), xs[n]);
      SplitLast(xs);
    }
  }

  lemma SplitLast<T>(xs: seq<T>)
    requires xs != []
    ensures multiset(xs) == multiset(xs[..|xs| - 1]) + multiset{xs[|xs| - 1]}
  {
    assert xs == xs[..|xs| - 1] + [xs[|xs| - 1]];
  }

  lemma LastApart<T(!new)>(xs: seq<Span<T>>)
    requires PairwiseApart(xs) && xs != []
    ensures var rest, last := xs[..|xs| - 1], xs[|xs| - 1];
      && PairwiseApart(rest) && last.start < last.end
      && forall x: Span<T> :: x in multiset(rest) ==> x.end <= last.start || last.end <= x.start
  {
    var rest, last := xs[..|xs| - 1], xs[|xs| - 1];
    forall x: Span<T> | x in multiset(rest)
      ensures x.end <= last.start || last.end <= x.start
    {
      var i :| 0 <= i < |rest| && rest[i] == x;
      assert xs[i] == x;
    }
  }

  lemma ScatteredAdd<T(!new)>(bag: multiset<Span<T>>, last: Span<T>)
    requires Scattered(bag) && last.start < last.end
    requires forall x: Span<T> :: x in bag ==> x.end <= last.start || last.end <= x.start
    ensures Scattered(bag + multiset{last})
  {
    assert Scattered(multiset{last});
    ScatteredUnion(bag, multiset{last});
  }

  lemma ScatteredSubset<T(!new)>(a: multiset<Span<T>>, b: multiset<Span<T>>)
    requires Scattered(b) && a <= b
    ensures Scattered(a)
  {
  }

  lemma ScatteredUnion<T(!new)>(a: multiset<Span<T>>, b: multiset<Span<T>>)
    requires Scattered(a) && Scattered(b)
    requires forall x, y :: x in a && y in b ==> x.end <= y.start || y.end <= x.start
    ensures Scattered(a + b)
  {
    forall x: Span<T> | x in a + b
      ensures x.start < x.end && (a + b)[x] == 1
    {
      assert x in a ==> x !in b;
    }
  }
}
