/**
 `sort.Slice` is not stable, so callers may rely on two things only: the result is a
 permutation of the input and its keys do not decrease. `SortBy` promises no more.
 */
module Sorting {

  ghost predicate SortedBy<T(!new)>(xs: seq<T>, key: T -> real) {
    forall i, j :: 0 <= i < j < |xs| ==> key(xs[i]) <= key(xs[j])
  }

  ghost predicate StrictlySortedBy<T(!new)>(xs: seq<T>, key: T -> real) {
    forall i, j :: 0 <= i < j < |xs| ==> key(xs[i]) < key(xs[j])
  }

  method SortBy<T(==, !new)>(xs: seq<T>, key: T -> real) returns (ys: seq<T>)
    ensures SortedBy(ys, key)
    ensures multiset(ys) == multiset(xs)
  {
    ys := [];
    for i := 0 to |xs|
      invariant SortedBy(ys, key)
      invariant multiset(ys) == multiset(xs[..i])
    {
      ys := Insert(ys, xs[i], key);
      assert xs[..i + 1] == xs[..i] + [xs[i]];
    }
    assert xs[..|xs|] == xs;
  }

  method Insert<T(==, !new)>(ys: seq<T>, x: T, key: T -> real) returns (zs: seq<T>)
    requires SortedBy(ys, key)
    ensures SortedBy(zs, key)
    ensures multiset(zs) == multiset(ys) + multiset{x}
  {
    var p := |ys|;
    while p > 0 && key(ys[p - 1]) > key(x)
      invariant 0 <= p <= |ys|
      invariant forall j :: p <= j < |ys| ==> key(x) < key(ys[j])
    {
      p := p - 1;
    }
    zs := ys[..p] + [x] + ys[p..];
    InsertKeepsOrder(ys, p, x, zs, key);
    assert ys == ys[..p] + ys[p..];
  }

  lemma InsertKeepsOrder<T(!new)>(ys: seq<T>, p: nat, x: T, zs: seq<T>, key: T -> real)
    requires SortedBy(ys, key) && p <= |ys|
    requires p > 0 ==> key(ys[p - 1]) <= key(x)
    requires p < |ys| ==> key(x) <= key(ys[p])
    requires zs == ys[..p] + [x] + ys[p..]
    ensures SortedBy(zs, key)
  {
    forall i, j | 0 <= i < j < |zs|
      ensures key(zs[i]) <= key(zs[j])
    {
      var i' := if i < p then i else i - 1;
      var j' := if j < p then j else j - 1;
      assert i != p ==> zs[i] == ys[i'];
      assert j != p ==> zs[j] == ys[j'];
    }
  }

  lemma SameFirst<T(!new)>(xs: seq<T>, ys: seq<T>, key: T -> real)
    requires StrictlySortedBy(xs, key) && SortedBy(ys, key)
    requires multiset(xs) == multiset(ys) && xs != [] && ys != []
    ensures xs[0] == ys[0] && StrictlySortedBy(xs[1..], key) && SortedBy(ys[1..], key)
  {
    assert xs[0] in multiset(ys) && ys[0] in multiset(xs);
  }

  /** A list already strictly sorted has only one sorted permutation: itself. */
  lemma {:induction false} StrictOrderIsUnique<T(!new)>(xs: seq<T>, ys: seq<T>, key: T -> real)
    requires StrictlySortedBy(xs, key) && SortedBy(ys, key)
    requires multiset(xs) == multiset(ys)
    ensures xs == ys
  {
    assert |multiset(xs)| == |xs| && |multiset(ys)| == |ys|;
    if xs != [] {
      SameFirst(xs, ys, key);
      hide StrictlySortedBy, SortedBy;
      assert xs == [xs[0]] + xs[1..] && ys == [ys[0]] + ys[1..];
      assert multiset(xs[1..]) == multiset(xs) - multiset{xs[0]};
      assert multiset(ys[1..]) == multiset(ys) - multiset{ys[0]};
      StrictOrderIsUnique(xs[1..], ys[1..], key);
    }
  }

  lemma RemoveOne<T>(xs: seq<T>, k: nat)
    requires k < |xs|
    ensures multiset(xs[..k] + xs[k + 1..]) == multiset(xs) - multiset{xs[k]}
  {
    assert xs == xs[..k] + [xs[k]] + xs[k + 1..];
  }
}
