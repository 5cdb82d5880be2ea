/**
 The user's forced and blocked windows (store/schedule_overrides.go): rows that never overlap, loaded in
 the order of their starts.
 */
module OverrideTable {
  import opened Sorting
  import opened Spans

  datatype Kind = Force | Block

  datatype Override = Override(id: nat, kind: Kind, window: Window, power: real)

  datatype InsertResult = Inserted(id: nat) | BadWindow | BadPower | Overlap

  predicate Overlaps(a: Window, b: Window) {
    a.start < b.end && b.start < a.end
  }

  /** Windows that are not empty overlap exactly when they share a second; windows that only touch do not. */
  lemma OverlapsExactly(a: Window, b: Window)
    requires a.start < a.end && b.start < b.end
    ensures Overlaps(a, b) <==> exists t :: a.Covers(t) && b.Covers(t)
  {
    var t := if a.start < b.start then b.start else a.start;
    if Overlaps(a, b) { assert a.Covers(t) && b.Covers(t); }
  }

  /** No two rows share a second; every window is non-empty; forces have power. */
  ghost predicate Disjoint(rows: seq<Override>) {
    && (forall i :: 0 <= i < |rows| ==> rows[i].window.start < rows[i].window.end)
    && (forall i :: 0 <= i < |rows| && rows[i].kind == Force ==> rows[i].power > 0.0)
    && (forall i, j :: 0 <= i < j < |rows| ==> !Overlaps(rows[i].window, rows[j].window))
  }

  ghost predicate DistinctIds(rows: seq<Override>) {
    forall i, j :: 0 <= i < j < |rows| ==> rows[i].id != rows[j].id
  }

  function OverrideStart(o: Override): real { o.window.start as real }

  lemma OnceInTable(rows: seq<Override>, p: nat)
    requires DistinctIds(rows) && p < |rows|
    ensures multiset(rows)[rows[p]] == 1
  {
    assert rows == rows[..p] + [rows[p]] + rows[p + 1..];
    assert rows[p] !in rows[..p] && rows[p] !in rows[p + 1..];
  }

  /** Disjoint rows, sorted by start, are disjoint in the new order too and follow one another. */
  lemma SortedRows(rows: seq<Override>, sorted: seq<Override>)
    requires Disjoint(rows) && DistinctIds(rows)
    requires multiset(sorted) == multiset(rows) && SortedBy(sorted, OverrideStart)
    ensures Disjoint(sorted)
    ensures forall o :: o in sorted <==> o in rows
    ensures forall i, j :: 0 <= i < j < |sorted| ==> sorted[i].window.end <= sorted[j].window.start
  {
    forall o
      ensures o in sorted <==> o in rows
    {
      assert o in sorted <==> o in multiset(sorted);
      assert o in rows <==> o in multiset(rows);
    }
    forall i | 0 <= i < |sorted|
      ensures sorted[i] in rows
    {
      assert sorted[i] in sorted;
    }
    forall i, j | 0 <= i < j < |sorted|
      ensures sorted[i].window.end <= sorted[j].window.start && !Overlaps(sorted[i].window, sorted[j].window)
    {
      var p :| 0 <= p < |rows| && rows[p] == sorted[i];
      var q :| 0 <= q < |rows| && rows[q] == sorted[j];
      OnceInTable(rows, p);
      RepeatsCountTwice(sorted, i, j);
      assert p != q;
      assert if p < q then !Overlaps(rows[p].window, rows[q].window) else !Overlaps(rows[q].window, rows[p].window);
      assert OverrideStart(sorted[i]) <= OverrideStart(sorted[j]);
    }
  }

  class Table {
    var rows: seq<Override>
    var nextId: nat

    ghost predicate Valid() reads this {
      && Disjoint(rows)
      && (forall i :: 0 <= i < |rows| ==> rows[i].id < nextId)
      && DistinctIds(rows)
    }

    constructor ()
      ensures Valid() && rows == []
    {
      rows, nextId := [], 1;
    }

    /** `InsertOverride`: refuses a bad row and any overlap with an existing one. */
    method Insert(kind: Kind, window: Window, power: real) returns (result: InsertResult)
      requires Valid()
      modifies this
      ensures Valid()
      ensures result.BadWindow? <==> window.end <= window.start
      ensures result.BadPower? <==> window.start < window.end && kind == Force && power <= 0.0
      ensures result.Overlap? ==> exists i :: 0 <= i < |old(rows)| && Overlaps(old(rows)[i].window, window)
      ensures result.Inserted? ==>
        && rows == old(rows) + [Override(result.id, kind, window, power)]
        && forall i :: 0 <= i < |old(rows)| ==> old(rows)[i].id != result.id
      ensures !result.Inserted? ==> rows == old(rows)
    {
      if window.end <= window.start { return BadWindow; }
      if kind == Force && power <= 0.0 { return BadPower; }
      for i := 0 to |rows|
        invariant forall j :: 0 <= j < i ==> !Overlaps(rows[j].window, window)
      {
        if rows[i].window.start < window.end && rows[i].window.end > window.start {
          return Overlap;
        }
      }
      result := Inserted(nextId);
      rows := rows + [Override(nextId, kind, window, power)];
      nextId := nextId + 1;
    }

    /** `DeleteOverride`: false when no such row exists. */
    method Delete(id: nat) returns (found: bool)
      requires Valid()
      modifies this
      ensures Valid()
      ensures found <==> exists i :: 0 <= i < |old(rows)| && old(rows)[i].id == id
      ensures forall o :: o in rows <==> o in old(rows) && o.id != id
    {
      found := false;
      for i := 0 to |rows|
        invariant rows == old(rows) && Valid()
        invariant forall j :: 0 <= j < i ==> rows[j].id != id
      {
        if rows[i].id == id {
          rows := rows[..i] + rows[i + 1..];
          return true;
        }
      }
    }

    /** The rows ending at `from_` or later, in table order. */
    method EndingFrom(from_: int) returns (kept: seq<Override>)
      requires Valid()
      ensures Disjoint(kept) && DistinctIds(kept)
      ensures forall o :: o in kept <==> o in rows && o.window.end >= from_
    {
      kept := [];
      ghost var origin: seq<int> := [];
      for i := 0 to |rows|
        invariant |origin| == |kept|
        invariant forall k :: 0 <= k < |kept| ==> 0 <= origin[k] < i && kept[k] == rows[origin[k]]
        invariant forall k, l :: 0 <= k < l < |kept| ==> origin[k] < origin[l]
        invariant forall o :: o in kept <==> o in rows[..i] && o.window.end >= from_
      {
        assert rows[..i + 1] == rows[..i] + [rows[i]];
        if rows[i].window.end >= from_ {
          kept := kept + [rows[i]];
          origin := origin + [i];
        }
      }
      assert rows[..|rows|] == rows;
    }

    /** `LoadOverrides`: the rows ending after `after`, by start; they follow one another. */
    method Load(after: int) returns (loaded: seq<Override>)
      requires Valid()
      ensures Disjoint(loaded)
      ensures forall o :: o in loaded <==> o in rows && o.window.end > after
      ensures forall i, j :: 0 <= i < j < |loaded| ==> loaded[i].window.end <= loaded[j].window.start
    {
      var kept := EndingFrom(after + 1);
      loaded := SortBy(kept, OverrideStart);
      SortedRows(kept, loaded);
    }

    /** `PurgeOldOverrides`. */
    method Purge(before: int)
      requires Valid()
      modifies this`rows
      ensures Valid()
      ensures forall o :: o in rows <==> o in old(rows) && o.window.end >= before
    {
      var kept := EndingFrom(before);
      forall i | 0 <= i < |kept|
        ensures kept[i].id < nextId
      {
        assert kept[i] in rows;
      }
      rows := kept;
    }
  }
}
