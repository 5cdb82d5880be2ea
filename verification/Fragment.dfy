/**
 Carving user overrides out of the tariff (fragment.go): the windows are merged in place, then cut
 out of each rate in turn.
 */
module Fragment {
  import opened Sorting
  import opened Spans
  import opened OverrideTable

  /** Disjoint and not even touching: the shape the in-place merge leaves. */
  ghost predicate Separated(ws: seq<Window>) {
    NonEmpty(ws) && forall i, j :: 0 <= i < j < |ws| ==> ws[i].end < ws[j].start
  }

  /**
   Compacts `a` in place: the write index `n` never passes the read index, so a window is read
   before its cell can be overwritten. Returns how many cells are in use.
   */
  method MergeInPlace(a: array<Window>) returns (n: nat)
    requires StartSorted(a[..]) && NonEmpty(a[..])
    modifies a
    ensures n <= a.Length && Separated(a[..n])
    ensures forall t :: Covered(a[..n], t) <==> Covered(old(a[..]), t)
  {
    n := 0;
    ghost var was := a[..];
    for r := 0 to a.Length
      invariant n <= r
      invariant n == 0 ==> r == 0
      invariant forall k :: r <= k < a.Length ==> a[k] == was[k]
      invariant MergedPrefix(a[..n], was[..r])
    {
      var c := a[r];
      ghost var before := a[..n];
      assert c == was[r];
      if n == 0 || c.start > a[n - 1].end {
        a[n] := c;
        n := n + 1;
        assert a[..n] == before + [c];
      } else if c.end > a[n - 1].end {
        a[n - 1] := Span(a[n - 1].start, c.end, ());
        assert a[..n] == before[..n - 1] + [Span(before[n - 1].start, c.end, ())];
      }
      MergeStep(before, was, r, a[..n]);
      assert forall k :: r < k < a.Length ==> a[k] == was[k];
    }
    assert was[..a.Length] == was;
  }

  /** `merged` covers what the first windows cover, and starts no later than they do. */
  ghost predicate MergedPrefix(merged: seq<Window>, done: seq<Window>) {
    && Separated(merged)
    && (forall t :: Covered(merged, t) <==> Covered(done, t))
    && (merged == [] <==> done == [])
    && (merged != [] ==> merged[|merged| - 1].start <= done[|done| - 1].start)
  }

  lemma MergeStep(before: seq<Window>, was: seq<Window>, r: nat, after: seq<Window>)
    requires r < |was| && StartSorted(was) && NonEmpty(was)
    requires MergedPrefix(before, was[..r])
    requires
      var c := was[r];
      var k := |before| - 1;
      if before == [] || c.start > before[k].end then after == before + [c]
      else if c.end > before[k].end then after == before[..k] + [Span(before[k].start, c.end, ())]
      else after == before
    ensures MergedPrefix(after, was[..r + 1])
  {
    hide Covered;
    CoveredStep(was, r);
    if before != [] { assert before[|before| - 1].start <= was[r - 1].start <= was[r].start; }
    MergeCovers(before, was[r], after);
  }

  lemma MergeCovers(before: seq<Window>, c: Window, after: seq<Window>)
    requires Separated(before) && c.start < c.end
    requires before != [] ==> before[|before| - 1].start <= c.start
    requires
      var k := |before| - 1;
      if before == [] || c.start > before[k].end then after == before + [c]
      else if c.end > before[k].end then after == before[..k] + [Span(before[k].start, c.end, ())]
      else after == before
    ensures forall t :: Covered(after, t) <==> Covered(before, t) || c.Covers(t)
  {
    forall t
      ensures Covered(after, t) <==> Covered(before, t) || c.Covers(t)
    {
      if Covered(before, t) {
        var i :| 0 <= i < |before| && before[i].Covers(t);
        assert after[i].Covers(t);
      }
      if c.Covers(t) { assert after[|after| - 1].Covers(t); }
      if Covered(after, t) {
        var i :| 0 <= i < |after| && after[i].Covers(t);
        assert (i < |before| && before[i].Covers(t)) || c.Covers(t);
      }
    }
  }

  /** What is left of one segment once `c` is cut out of it. */
  function CutOne(s: Rate, c: Window): (r: seq<Rate>)
    requires c.start < c.end
    ensures s.start < s.end ==> Ordered(r)
    ensures forall i :: 0 <= i < |r| ==> s.start <= r[i].start && r[i].end <= s.end && r[i].value == s.value
    ensures forall t :: Covered(r, t) <==> s.Covers(t) && !c.Covers(t)
    ensures forall i :: 0 <= i < |r| ==>
      && (r[i].start == s.start || c.Covers(r[i].start - 1))
      && (r[i].end == s.end || c.Covers(r[i].end))
  {
    if c.end <= s.start || c.start >= s.end then
      assert forall t :: s.Covers(t) ==> [s][0].Covers(t);
      [s]
    else
      var left := if s.start < c.start then [Span(s.start, c.start, s.value)] else [];
      var right := if c.end < s.end then [Span(c.end, s.end, s.value)] else [];
      var r := left + right;
      assert left != [] ==> r[0] == left[0];
      assert right != [] ==> r[|left|] == right[0];
      r
  }

  /** Pieces of `r`: in its bounds, at its price, and in order unless `r` is empty. */
  ghost predicate Pieces(segments: seq<Rate>, r: Rate) {
    && (r.start < r.end ==> Ordered(segments))
    && (forall i :: 0 <= i < |segments| ==>
          r.start <= segments[i].start && segments[i].end <= r.end && segments[i].value == r.value)
  }

  /** A piece begins where its rate does or a window ends, and ends where its rate does or a window begins. */
  ghost predicate Edges(piece: Rate, r: Rate, ws: seq<Window>) {
    && (piece.start == r.start || Covered(ws, piece.start - 1))
    && (piece.end == r.end || Covered(ws, piece.end))
  }

  ghost predicate AllEdges(pieces: seq<Rate>, r: Rate, ws: seq<Window>) {
    forall i :: 0 <= i < |pieces| ==> Edges(pieces[i], r, ws)
  }

  lemma CutEdges(s: Rate, c: Window, r: Rate, ws: seq<Window>, more: seq<Window>)
    requires c.start < c.end && Edges(s, r, ws)
    requires forall t :: Covered(more, t) <==> Covered(ws, t) || c.Covers(t)
    ensures AllEdges(CutOne(s, c), r, more)
  {
    hide Covered, CutOne;
  }

  lemma MoreEdges(pieces: seq<Rate>, r: Rate, ws: seq<Window>, more: seq<Window>)
    requires AllEdges(pieces, r, ws) && forall t :: Covered(ws, t) ==> Covered(more, t)
    ensures AllEdges(pieces, r, more)
  {
    hide Covered;
  }

  /** The nested carving loops for one rate. */
  method CarveRate(r: Rate, merged: seq<Window>) returns (segments: seq<Rate>)
    requires NonEmpty(merged)
    ensures Pieces(segments, r)
    ensures forall t :: Covered(segments, t) <==> r.Covers(t) && !Covered(merged, t)
    ensures AllEdges(segments, r, merged)
  {
    segments := [r];
    assert forall t :: r.Covers(t) ==> segments[0].Covers(t);
    for k := 0 to |merged|
      invariant Pieces(segments, r)
      invariant forall t :: Covered(segments, t) <==> r.Covers(t) && !Covered(merged[..k], t)
      invariant AllEdges(segments, r, merged[..k])
    {
      hide Pieces, AllEdges, Covered;
      var c := merged[k];
      CoveredStep(merged, k);
      if c.end <= r.start || c.start >= r.end {
        MoreEdges(segments, r, merged[..k], merged[..k + 1]);
        continue;
      }
      segments := CarveSegments(r, segments, c, merged[..k], merged[..k + 1]);
    }
    assert merged[..|merged|] == merged;
  }

  method CarveSegments(ghost r: Rate, segments: seq<Rate>, c: Window, ghost ws: seq<Window>, ghost more: seq<Window>)
    returns (next: seq<Rate>)
    requires c.start < c.end && Pieces(segments, r) && AllEdges(segments, r, ws)
    requires forall t :: Covered(more, t) <==> Covered(ws, t) || c.Covers(t)
    ensures Pieces(next, r) && AllEdges(next, r, more)
    ensures forall t :: Covered(next, t) <==> Covered(segments, t) && !c.Covers(t)
  {
    next := [];
    for i := 0 to |segments|
      invariant Carved(next, r, segments, i, c) && AllEdges(next, r, more)
    {
      hide Carved, CutOne, Edges, Covered;
      CarveStep(next, r, segments, i, c);
      CutEdges(segments[i], c, r, ws, more);
      next := next + CutOne(segments[i], c);
    }
    assert segments[..|segments|] == segments;
  }

  ghost predicate Carved(next: seq<Rate>, r: Rate, segments: seq<Rate>, i: nat, c: Window)
    requires i <= |segments|
  {
    && Pieces(next, r)
    && (r.start < r.end && next != [] && i > 0 ==> next[|next| - 1].end <= segments[i - 1].end)
    && (i == 0 ==> next == [])
    && (forall t :: Covered(next, t) <==> Covered(segments[..i], t) && !c.Covers(t))
  }

  lemma CarveStep(next: seq<Rate>, r: Rate, segments: seq<Rate>, i: nat, c: Window)
    requires i < |segments| && c.start < c.end
    requires Pieces(segments, r) && Carved(next, r, segments, i, c)
    ensures Carved(next + CutOne(segments[i], c), r, segments, i + 1, c)
  {
    CutBounds(segments, i, c, r);
    CarveCovers(next, segments, i, c);
    hide Covered, CutOne, Ordered;
    PiecesStep(next, r, segments, i, CutOne(segments[i], c));
  }

  lemma CutBounds(segments: seq<Rate>, i: nat, c: Window, r: Rate)
    requires i < |segments| && c.start < c.end && Pieces(segments, r)
    ensures var cut := CutOne(segments[i], c);
      && (r.start < r.end ==> Ordered(cut))
      && forall k :: 0 <= k < |cut| ==>
        segments[i].start <= cut[k].start && cut[k].end <= segments[i].end && cut[k].value == r.value
  {
    hide CutOne, Covered;
  }

  /** The pieces of a prefix of the segments, then those of the next one. */
  lemma PiecesStep(next: seq<Rate>, r: Rate, segments: seq<Rate>, i: nat, cut: seq<Rate>)
    requires i < |segments| && Pieces(segments, r) && Pieces(next, r) && (i == 0 ==> next == [])
    requires r.start < r.end && next != [] && i > 0 ==> next[|next| - 1].end <= segments[i - 1].end
    requires r.start < r.end ==> Ordered(cut)
    requires forall k :: 0 <= k < |cut| ==>
      segments[i].start <= cut[k].start && cut[k].end <= segments[i].end && cut[k].value == r.value
    ensures var all := next + cut;
      Pieces(all, r) && (r.start < r.end && all != [] ==> all[|all| - 1].end <= segments[i].end)
  {
    var all := next + cut;
    assert r.start <= segments[i].start && segments[i].end <= r.end;
    forall k | 0 <= k < |all|
      ensures r.start <= all[k].start && all[k].end <= r.end && all[k].value == r.value
    {
      hide Ordered;
      assert all[k] == if k < |next| then next[k] else cut[k - |next|];
    }
    if r.start < r.end {
      if i > 0 { InOrder(segments, i - 1, i); }
      assert Ordered(segments) && Ordered(next);
      hide Ordered;
      OrderedConcat(next, cut);
    }
  }

  lemma InOrder(xs: seq<Rate>, i: nat, j: nat)
    requires Ordered(xs) && i < j < |xs|
    ensures xs[i].end <= xs[j].start && xs[j].start < xs[j].end
  {
  }

  lemma CarveCovers(next: seq<Rate>, segments: seq<Rate>, i: nat, c: Window)
    requires i < |segments| && c.start < c.end
    requires forall t :: Covered(next, t) <==> Covered(segments[..i], t) && !c.Covers(t)
    ensures forall t :: Covered(next + CutOne(segments[i], c), t) <==> Covered(segments[..i + 1], t) && !c.Covers(t)
  {
    var cut := CutOne(segments[i], c);
    hide Covered, CutOne;
    CoveredStep(segments, i);
    CoveredConcat(next, cut);
  }

  // ----- fragmentRates -----

  /** At `t` some rate asks price `p`. */
  ghost predicate PricedAt(rates: seq<Rate>, t: int, p: real) {
    exists i :: 0 <= i < |rates| && rates[i].Covers(t) && rates[i].value == p
  }

  ghost predicate Overridden(overrides: seq<Override>, t: int) {
    exists i :: 0 <= i < |overrides| && overrides[i].window.Covers(t)
  }

  function WindowsOf(overrides: seq<Override>): seq<Window> {
    seq(|overrides|, i requires 0 <= i < |overrides| => overrides[i].window)
  }

  /**
   A second is priced p afterwards exactly when it was priced p before and no override claims it;
   every fragment is a largest free piece of a rate and keeps its price; an ordered tariff stays ordered.
   */
  ghost predicate Fragments(rates: seq<Rate>, overrides: seq<Override>, out: seq<Rate>) {
    && (forall t, p :: PricedAt(out, t, p) <==> PricedAt(rates, t, p) && !Overridden(overrides, t))
    && (forall i :: 0 <= i < |out| ==> FromRates(out[i], rates, overrides))
    && (Ordered(rates) ==> Ordered(out))
  }

  ghost predicate FromRates(piece: Rate, rates: seq<Rate>, overrides: seq<Override>) {
    exists j :: 0 <= j < |rates| && CutFrom(piece, rates[j], overrides)
  }

  /** The largest such piece: from the rate's start or an override's end to the rate's end or an override's start. */
  ghost predicate CutFrom(piece: Rate, r: Rate, overrides: seq<Override>) {
    && Within(piece, r)
    && (piece.start == r.start || Overridden(overrides, piece.start - 1))
    && (piece.end == r.end || Overridden(overrides, piece.end))
  }

  method FragmentRates(rates: seq<Rate>, overrides: seq<Override>) returns (out: seq<Rate>)
    requires NonEmpty(WindowsOf(overrides))
    ensures Fragments(rates, overrides, out)
    ensures overrides == [] ==> out == rates
    ensures overrides != [] ==> NonEmpty(out) && StartSorted(out)
  {
    if overrides == [] {
      Uncarved(rates, overrides);
      return rates;
    }
    var carve := SortBy(WindowsOf(overrides), StartKey);
    CarveWindows(overrides, carve);
    var a := new Window[|carve|](i requires 0 <= i < |carve| => carve[i]);
    assert a[..] == carve;
    var n := MergeInPlace(a);
    var merged := a[..n];
    var pieces := CarveAll(rates, merged);
    out := SortBy(pieces, StartKey);
    hide *;
    Carving(pieces, out, rates, overrides, merged);
  }

  lemma Uncarved(rates: seq<Rate>, overrides: seq<Override>)
    requires overrides == []
    ensures Fragments(rates, overrides, rates)
  {
    forall i | 0 <= i < |rates|
      ensures FromRates(rates[i], rates, overrides)
    {
      assert CutFrom(rates[i], rates[i], overrides);
    }
  }

  method CarveAll(rates: seq<Rate>, merged: seq<Window>) returns (pieces: seq<Rate>)
    requires NonEmpty(merged)
    ensures Assembled(pieces, rates, |rates|, merged)
  {
    pieces := [];
    for i := 0 to |rates|
      invariant Assembled(pieces, rates, i, merged)
    {
      hide *;
      var segments := CarveRate(rates[i], merged);
      var kept := KeepSeconds(segments, rates[i]);
      KeptEdges(segments, kept, rates[i], merged);
      AssembleStep(pieces, rates, i, merged, kept);
      pieces := pieces + kept;
    }
  }

  lemma KeptEdges(segments: seq<Rate>, kept: seq<Rate>, r: Rate, ws: seq<Window>)
    requires AllEdges(segments, r, ws) && forall p :: p in kept ==> p in segments
    ensures AllEdges(kept, r, ws)
  {
    hide Edges;
    forall i | 0 <= i < |kept|
      ensures Edges(kept[i], r, ws)
    {
      assert kept[i] in segments;
    }
  }

  /** The sorted pieces are the fragments. */
  lemma Carving(
    pieces: seq<Rate>, out: seq<Rate>, rates: seq<Rate>, overrides: seq<Override>, merged: seq<Window>)
    requires Assembled(pieces, rates, |rates|, merged)
    requires multiset(out) == multiset(pieces) && SortedBy(out, StartKey)
    requires forall t :: Covered(merged, t) <==> Overridden(overrides, t)
    ensures Fragments(rates, overrides, out) && NonEmpty(out) && StartSorted(out)
  {
    SortedPieces(pieces, out);
    CutsFound(pieces, rates, merged, overrides);
    assert rates[..|rates|] == rates;
    hide Covered, Overridden, PricedAt, CutFrom, SortedBy;
  }

  lemma CutsFound(pieces: seq<Rate>, rates: seq<Rate>, merged: seq<Window>, overrides: seq<Override>)
    requires Assembled(pieces, rates, |rates|, merged)
    requires forall t :: Covered(merged, t) <==> Overridden(overrides, t)
    ensures forall p :: p in pieces ==> FromRates(p, rates, overrides)
  {
    hide Covered, Overridden;
    forall p | p in pieces
      ensures FromRates(p, rates, overrides)
    {
      var k :| 0 <= k < |pieces| && pieces[k] == p;
      var j :| 0 <= j < |rates| && Within(pieces[k], rates[j]) && Edges(pieces[k], rates[j], merged);
      assert CutFrom(p, rates[j], overrides);
    }
  }

  ghost predicate Within(piece: Rate, r: Rate) {
    r.start <= piece.start && piece.end <= r.end && piece.value == r.value
  }

  lemma CarveWindows(overrides: seq<Override>, carve: seq<Window>)
    requires NonEmpty(WindowsOf(overrides))
    requires multiset(carve) == multiset(WindowsOf(overrides)) && SortedBy(carve, StartKey)
    ensures NonEmpty(carve) && StartSorted(carve)
    ensures forall t :: Covered(carve, t) <==> Overridden(overrides, t)
  {
    var ws := WindowsOf(overrides);
    forall i | 0 <= i < |carve|
      ensures carve[i] in ws
    {
      assert carve[i] in multiset(carve);
    }
    forall i | 0 <= i < |ws|
      ensures ws[i] in carve
    {
      assert ws[i] in multiset(ws);
    }
    forall i, j | 0 <= i < j < |carve|
      ensures carve[i].start <= carve[j].start
    {
      assert StartKey(carve[i]) <= StartKey(carve[j]);
    }
    forall t
      ensures Covered(carve, t) <==> Overridden(overrides, t)
    {
      if Covered(carve, t) {
        var i :| 0 <= i < |carve| && carve[i].Covers(t);
        var j :| 0 <= j < |ws| && ws[j] == carve[i];
        assert overrides[j].window.Covers(t);
      }
      if Overridden(overrides, t) {
        var j :| 0 <= j < |overrides| && overrides[j].window.Covers(t);
        var i :| 0 <= i < |carve| && carve[i] == ws[j];
        assert carve[i].Covers(t);
      }
    }
  }

  /** Drops segments shorter than a second. */
  method KeepSeconds(segments: seq<Rate>, ghost r: Rate) returns (kept: seq<Rate>)
    requires Pieces(segments, r)
    ensures Pieces(kept, r) && NonEmpty(kept)
    ensures forall t :: Covered(kept, t) <==> Covered(segments, t)
    ensures forall p :: p in kept ==> p in segments
  {
    kept := [];
    for i := 0 to |segments|
      invariant Pieces(kept, r) && NonEmpty(kept)
      invariant forall p :: p in kept ==> p in segments
      invariant r.start < r.end && kept != [] && i < |segments| ==> kept[|kept| - 1].end <= segments[i].start
      invariant forall t :: Covered(kept, t) <==> Covered(segments[..i], t)
    {
      CoveredStep(segments, i);
      if segments[i].end - segments[i].start >= 1 {
        CoveredConcat(kept, [segments[i]]);
        assert forall t :: segments[i].Covers(t) ==> [segments[i]][0].Covers(t);
        if r.start < r.end { OrderedConcat(kept, [segments[i]]); }
        kept := kept + [segments[i]];
      }
    }
    assert segments[..|segments|] == segments;
  }

  ghost predicate Assembled(pieces: seq<Rate>, rates: seq<Rate>, i: nat, merged: seq<Window>)
    requires i <= |rates|
  {
    && NonEmpty(pieces)
    && (Ordered(rates) ==> Ordered(pieces) && (pieces != [] ==> i > 0 && pieces[|pieces| - 1].end <= rates[i - 1].end))
    && (forall k :: 0 <= k < |pieces| ==>
          exists j :: 0 <= j < |rates| && Within(pieces[k], rates[j]) && Edges(pieces[k], rates[j], merged))
    && (forall t, p :: PricedAt(pieces, t, p) <==> PricedAt(rates[..i], t, p) && !Covered(merged, t))
  }

  lemma PricedConcat(xs: seq<Rate>, ys: seq<Rate>)
    ensures forall t, p :: PricedAt(xs + ys, t, p) <==> PricedAt(xs, t, p) || PricedAt(ys, t, p)
  {
    forall t, p
      ensures PricedAt(xs + ys, t, p) <==> PricedAt(xs, t, p) || PricedAt(ys, t, p)
    {
      if PricedAt(xs, t, p) {
        var i :| 0 <= i < |xs| && xs[i].Covers(t) && xs[i].value == p;
        assert (xs + ys)[i].Covers(t);
      }
      if PricedAt(ys, t, p) {
        var i :| 0 <= i < |ys| && ys[i].Covers(t) && ys[i].value == p;
        assert (xs + ys)[|xs| + i].Covers(t);
      }
      if PricedAt(xs + ys, t, p) {
        var i :| 0 <= i < |xs + ys| && (xs + ys)[i].Covers(t) && (xs + ys)[i].value == p;
        assert if i < |xs| then xs[i].Covers(t) else ys[i - |xs|].Covers(t);
      }
    }
  }

  /** Pieces of one rate are priced where they cover. */
  lemma PiecesPriced(kept: seq<Rate>, r: Rate, t: int, p: real)
    requires Pieces(kept, r)
    ensures PricedAt(kept, t, p) <==> Covered(kept, t) && p == r.value
  {
    if Covered(kept, t) && p == r.value {
      var i :| 0 <= i < |kept| && kept[i].Covers(t);
      assert kept[i].value == p;
    }
  }

  lemma AssembleStep(pieces: seq<Rate>, rates: seq<Rate>, i: nat, merged: seq<Window>, kept: seq<Rate>)
    requires i < |rates| && Assembled(pieces, rates, i, merged)
    requires Pieces(kept, rates[i]) && NonEmpty(kept) && AllEdges(kept, rates[i], merged)
    requires forall t :: Covered(kept, t) <==> rates[i].Covers(t) && !Covered(merged, t)
    ensures Assembled(pieces + kept, rates, i + 1, merged)
  {
    var r := rates[i];
    PricedConcat(pieces, kept);
    PricedConcat(rates[..i], [r]);
    assert rates[..i + 1] == rates[..i] + [r];
    forall t, p
      ensures PricedAt(kept, t, p) <==> PricedAt([r], t, p) && !Covered(merged, t)
    {
      PiecesPriced(kept, r, t, p);
      assert r.Covers(t) ==> [r][0].Covers(t);
    }
    forall k | 0 <= k < |kept|
      ensures Within(kept[k], r) && Edges(kept[k], r, merged)
    {
    }
    if Ordered(rates) {
      if i > 0 { assert rates[i - 1].end <= rates[i].start; }
      OrderedConcat(pieces, kept);
    }
  }

  lemma SortedPieces(pieces: seq<Rate>, out: seq<Rate>)
    requires NonEmpty(pieces)
    requires multiset(out) == multiset(pieces) && SortedBy(out, StartKey)
    ensures NonEmpty(out) && StartSorted(out)
    ensures forall t, p :: PricedAt(out, t, p) <==> PricedAt(pieces, t, p)
    ensures forall i :: 0 <= i < |out| ==> out[i] in pieces
    ensures Ordered(pieces) ==> out == pieces
  {
    forall i | 0 <= i < |out|
      ensures out[i] in pieces
    {
      assert out[i] in multiset(out);
    }
    forall i | 0 <= i < |pieces|
      ensures pieces[i] in out
    {
      assert pieces[i] in multiset(pieces);
    }
    forall i, j | 0 <= i < j < |out|
      ensures out[i].start <= out[j].start
    {
      assert StartKey(out[i]) <= StartKey(out[j]);
    }
    forall t, p
      ensures PricedAt(out, t, p) <==> PricedAt(pieces, t, p)
    {
      if PricedAt(out, t, p) {
        var i :| 0 <= i < |out| && out[i].Covers(t) && out[i].value == p;
        var j :| 0 <= j < |pieces| && pieces[j] == out[i];
        assert pieces[j].Covers(t);
      }
      if PricedAt(pieces, t, p) {
        var j :| 0 <= j < |pieces| && pieces[j].Covers(t) && pieces[j].value == p;
        var i :| 0 <= i < |out| && out[i] == pieces[j];
        assert out[i].Covers(t);
      }
    }
    if Ordered(pieces) {
      assert StrictlySortedBy(pieces, StartKey) by {
        forall i, j | 0 <= i < j < |pieces|
          ensures StartKey(pieces[i]) < StartKey(pieces[j])
        {
          assert pieces[i].start < pieces[i].end <= pieces[j].start;
        }
      }
      StrictOrderIsUnique(pieces, out, StartKey);
    }
  }

  // ----- carving is a function of the inputs -----

  /** The fragment that covers a second of another's is no shorter to the left, nor to the right. */
  lemma NoShorter(rates: seq<Rate>, overrides: seq<Override>, a: seq<Rate>, b: seq<Rate>, i: nat) returns (k: nat)
    requires Ordered(rates) && Fragments(rates, overrides, a) && Fragments(rates, overrides, b) && i < |a|
    ensures k < |b| && b[k] == a[i]
  {
    var p := a[i];
    var j :| 0 <= j < |rates| && CutFrom(p, rates[j], overrides);
    assert p.Covers(p.start);
    assert PricedAt(a, p.start, p.value);
    assert PricedAt(b, p.start, p.value);
    k :| 0 <= k < |b| && b[k].Covers(p.start) && b[k].value == p.value;
    var q := b[k];
    var l :| 0 <= l < |rates| && CutFrom(q, rates[l], overrides);
    assert rates[j].Covers(p.start) && rates[l].Covers(p.start);
    assert !(j < l) && !(l < j);
    hide Ordered;
    SameEdges(rates, overrides, a, b, i, k, rates[j]);
  }

  /** Inside a fragment nothing is overridden. */
  lemma FreeInside(rates: seq<Rate>, overrides: seq<Override>, out: seq<Rate>, i: nat, t: int)
    requires Fragments(rates, overrides, out) && i < |out| && out[i].Covers(t)
    ensures !Overridden(overrides, t)
  {
    assert PricedAt(out, t, out[i].value);
  }

  lemma SameEdges(
    rates: seq<Rate>, overrides: seq<Override>, a: seq<Rate>, b: seq<Rate>, i: nat, k: nat, r: Rate)
    requires Fragments(rates, overrides, a) && Fragments(rates, overrides, b) && i < |a| && k < |b|
    requires CutFrom(a[i], r, overrides) && CutFrom(b[k], r, overrides)
    requires a[i].start < a[i].end && b[k].Covers(a[i].start)
    ensures a[i] == b[k]
  {
    var p, q := a[i], b[k];
    hide Fragments, Overridden;
    if q.start < p.start { FreeInside(rates, overrides, b, k, p.start - 1); }
    if q.end < p.end { FreeInside(rates, overrides, a, i, q.end); }
    if p.end < q.end { FreeInside(rates, overrides, b, k, p.end); }
  }

  /** The tariff and the overrides determine the fragments: there is one way to carve. */
  lemma FragmentsUnique(rates: seq<Rate>, overrides: seq<Override>, a: seq<Rate>, b: seq<Rate>)
    requires Ordered(rates) && Fragments(rates, overrides, a) && Fragments(rates, overrides, b)
    ensures a == b
  {
    assert Ordered(a) && Ordered(b);
    hide Fragments, Ordered;
    forall p
      ensures p in a <==> p in b
    {
      if p in a {
        var i :| 0 <= i < |a| && a[i] == p;
        var k := NoShorter(rates, overrides, a, b, i);
      }
      if p in b {
        var i :| 0 <= i < |b| && b[i] == p;
        var k := NoShorter(rates, overrides, b, a, i);
      }
    }
    assert SameRates(a, b);
    SameMembers(a, b);
  }

  ghost predicate SameRates(a: seq<Rate>, b: seq<Rate>) { forall p :: p in a <==> p in b }

  lemma {:induction false} SameMembers(a: seq<Rate>, b: seq<Rate>)
    requires Ordered(a) && Ordered(b) && SameRates(a, b)
    ensures a == b
  {
    if a == [] {
      SomeMember(b);
    } else {
      var m, n := |a| - 1, |b| - 1;
      assert a[m] in b;
      LastMember(a, b);
      LastMember(b, a);
      WithoutLast(a, b);
      SameMembers(a[..m], b[..n]);
      assert a == a[..m] + [a[m]] && b == b[..n] + [b[n]];
    }
  }

  lemma SomeMember(b: seq<Rate>)
    ensures b != [] ==> exists p :: p in b
  {
    if b != [] { assert b[0] in b; }
  }

  lemma StartsIncrease(b: seq<Rate>)
    requires Ordered(b)
    ensures forall i, j :: 0 <= i < j < |b| ==> b[i].start < b[j].start
  {
    forall i, j | 0 <= i < j < |b|
      ensures b[i].start < b[j].start
    {
      assert b[i].start < b[i].end <= b[j].start;
    }
  }

  lemma LastMember(a: seq<Rate>, b: seq<Rate>)
    requires Ordered(b) && a != [] && b != [] && a[|a| - 1] in b
    ensures a[|a| - 1].start <= b[|b| - 1].start
  {
    var i :| 0 <= i < |b| && b[i] == a[|a| - 1];
    StartsIncrease(b);
  }

  lemma RestMembers(a: seq<Rate>)
    requires Ordered(a) && a != []
    ensures var rest, last := a[..|a| - 1], a[|a| - 1];
      Ordered(rest) && forall p :: p in rest <==> p in a && p != last
  {
    StartsIncrease(a);
    hide Ordered;
    LastOnce(a);
    RestOrdered(a);
  }

  lemma RestOrdered(a: seq<Rate>)
    requires Ordered(a) && a != []
    ensures Ordered(a[..|a| - 1])
  {
  }

  lemma LastOnce(a: seq<Rate>)
    requires a != [] && forall i, j :: 0 <= i < j < |a| ==> a[i].start < a[j].start
    ensures var rest, last := a[..|a| - 1], a[|a| - 1];
      forall p :: p in rest <==> p in a && p != last
  {
    var m := |a| - 1;
    assert a == a[..m] + [a[m]];
    forall p | p in a[..m]
      ensures p != a[m]
    {
      var k :| 0 <= k < m && a[k] == p;
    }
  }

  lemma WithoutLast(a: seq<Rate>, b: seq<Rate>)
    requires Ordered(a) && Ordered(b) && a != [] && b != [] && SameRates(a, b)
    requires a[|a| - 1].start == b[|b| - 1].start
    ensures a[|a| - 1] == b[|b| - 1] && Ordered(a[..|a| - 1]) && Ordered(b[..|b| - 1])
    ensures SameRates(a[..|a| - 1], b[..|b| - 1])
  {
    assert a[|a| - 1] in b;
    var i :| 0 <= i < |b| && b[i] == a[|a| - 1];
    StartsIncrease(b);
    hide Ordered;
    RestMembers(a);
    RestMembers(b);
  }

  /**
   Kept time plus carved time is all the time there was: carving neither loses a second nor
   counts one twice.
   */
  lemma FragmentTimeConserved(rates: seq<Rate>, overrides: seq<Override>, out: seq<Rate>)
    requires Ordered(rates) && Fragments(rates, overrides, out)
    ensures Seconds(out) + |set t | t in Instants(rates) && Overridden(overrides, t)| == Seconds(rates)
  {
    OrderedSeconds(rates);
    OrderedSeconds(out);
    SameInstants(rates, overrides, out);
    var carved := set t | t in Instants(rates) && Overridden(overrides, t);
    assert Instants(rates) == Instants(out) + carved;
  }

  lemma SameInstants(rates: seq<Rate>, overrides: seq<Override>, out: seq<Rate>)
    requires forall t, p :: PricedAt(out, t, p) <==> PricedAt(rates, t, p) && !Overridden(overrides, t)
    ensures forall t :: t in Instants(out) <==> t in Instants(rates) && !Overridden(overrides, t)
  {
    InstantsAreCovered(rates);
    InstantsAreCovered(out);
    forall t
      ensures Covered(out, t) <==> Covered(rates, t) && !Overridden(overrides, t)
    {
      SameInstant(rates, overrides, out, t);
    }
  }

  lemma SameInstant(rates: seq<Rate>, overrides: seq<Override>, out: seq<Rate>, t: int)
    requires forall p :: PricedAt(out, t, p) <==> PricedAt(rates, t, p) && !Overridden(overrides, t)
    ensures Covered(out, t) <==> Covered(rates, t) && !Overridden(overrides, t)
  {
    if Covered(out, t) {
      var i :| 0 <= i < |out| && out[i].Covers(t);
      assert PricedAt(out, t, out[i].value);
    }
    if Covered(rates, t) && !Overridden(overrides, t) {
      var i :| 0 <= i < |rates| && rates[i].Covers(t);
      assert PricedAt(rates, t, rates[i].value);
      assert PricedAt(out, t, rates[i].value);
    }
  }
}
