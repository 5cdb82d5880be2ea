/**
 Keeping a running slot through a recompute (scheduler.go, `mergeActiveSlotPreservingActive`), with
 the sharing of its period storage.
 */
module Merge {
  import opened Sorting
  import opened Spans
  import opened Plan
  import opened Forces

  /**
   A growable list over a backing array, as Go slices are: `len` cells of `buf` are in use, the
   rest is spare capacity that an append writes into.
   */
  datatype Slice = Slice(buf: array<Period>, len: nat) {
    ghost predicate Valid() { len <= buf.Length }

    ghost function Contents(): seq<Period>
      requires Valid()
      reads buf
    {
      buf[..len]
    }
  }

  /** `append`: in place while there is room, into a new array of twice the size otherwise. */
  method Append(s: Slice, p: Period) returns (r: Slice)
    requires s.Valid()
    modifies s.buf
    ensures r.Valid() && (r.buf == s.buf || fresh(r.buf))
    ensures r.Contents() == old(s.Contents()) + [p]
  {
    if s.len < s.buf.Length {
      s.buf[s.len] := p;
      r := Slice(s.buf, s.len + 1);
    } else {
      var grown := new Period[2 * s.len + 1](i requires 0 <= i < 2 * s.len + 1 reads s.buf =>
        if i < s.len && i < s.buf.Length then s.buf[i] else p);
      r := Slice(grown, s.len + 1);
    }
  }

  /** `cloneSlot` copies the periods, so that nothing written later reaches the source. */
  method Clone(s: Slice) returns (r: Slice)
    requires s.Valid()
    ensures r.Valid() && fresh(r.buf) && r.Contents() == s.Contents()
  {
    var copy := new Period[s.len](i requires 0 <= i < s.len && s.len <= s.buf.Length reads s.buf => s.buf[i]);
    r := Slice(copy, s.len);
  }

  function After(periods: seq<Period>, end: int): seq<Period> {
    if periods == [] then []
    else
      var n := |periods| - 1;
      After(periods[..n], end) + if periods[n].start < end then [] else [periods[n]]
  }

  /** What a running slot keeps: the periods up to the running one, then the recomputed ones after it. */
  ghost predicate KeepsRunning(old_: seq<Period>, k: nat, recomputed: Option<seq<Period>>, merged: seq<Period>)
    requires k < |old_|
  {
    match recomputed
    case None => merged == old_[..k + 1]
    case Some(rs) => StartSorted(merged) && multiset(merged) == multiset(old_[..k + 1] + After(rs, old_[k].end))
  }

  /**
   Truncates a clone after the running period and appends into its spare capacity. Without the
   clone the appends would overwrite the previous plan's later periods; `previous.buf` is not in
   the frame, so they do not.
   */
  method MergePeriods(previous: Slice, k: nat, recomputed: Option<seq<Period>>) returns (merged: Slice)
    requires previous.Valid() && k < previous.len
    ensures merged.Valid() && fresh(merged.buf)
    ensures KeepsRunning(previous.Contents(), k, recomputed, merged.Contents())
  {
    var clone := Clone(previous);
    ghost var kept := previous.Contents()[..k + 1];
    merged := Slice(clone.buf, k + 1);
    assert merged.Contents() == kept;
    var running := merged.buf[k];
    if recomputed.Some? {
      var rs := recomputed.value;
      for i := 0 to |rs|
        invariant merged.Valid() && fresh(merged.buf)
        invariant merged.Contents() == kept + After(rs[..i], running.end)
      {
        assert rs[..i + 1][..i] == rs[..i];
        if rs[i].start < running.end { continue; }
        merged := Append(merged, rs[i]);
      }
      assert rs[..|rs|] == rs;
      SortInPlace(merged);
    }
  }

  method SortInPlace(s: Slice)
    requires s.Valid()
    modifies s.buf
    ensures StartSorted(s.Contents()) && multiset(s.Contents()) == multiset(old(s.Contents()))
  {
    var sorted := SortBy(s.buf[..s.len], StartKey);
    assert |multiset(sorted)| == |multiset(s.buf[..s.len])|;
    forall i | 0 <= i < s.len { s.buf[i] := sorted[i]; }
    assert s.Contents() == sorted;
    KeySorted(sorted);
  }

  // ----- installing the slot -----

  /** The slot replaces the first one of its date, or goes in before the first later date. */
  ghost predicate Installed(slots: seq<Slot>, slot: Slot, r: seq<Slot>) {
    exists i :: 0 <= i <= |slots| && InstalledAt(slots, slot, i, r)
  }

  ghost predicate InstalledAt(slots: seq<Slot>, slot: Slot, i: int, r: seq<Slot>)
    requires 0 <= i <= |slots|
  {
    || (i < |slots| && slots[i].date == slot.date
        && (forall j :: 0 <= j < i ==> slots[j].date != slot.date)
        && r == slots[..i] + [slot] + slots[i + 1..])
    || ((forall j :: 0 <= j < |slots| ==> slots[j].date != slot.date)
        && (forall j :: 0 <= j < i ==> slots[j].date < slot.date)
        && (i < |slots| ==> slot.date < slots[i].date)
        && r == slots[..i] + [slot] + slots[i..])
  }

  /** `mergeInProgressSlot`. */
  method MergeInProgressSlot(sched: Option<Schedule>, slot: Slot) returns (r: Schedule)
    ensures sched.None? ==> r == Schedule([slot], slot.cost, slot.energy, slot.deadline)
    ensures sched.Some? ==>
      Installed(sched.value.slots, slot, r.slots) && Totalled(r) && r.deadline == LatestDeadline(r.slots)
  {
    if sched.None? {
      return Schedule([slot], slot.cost, slot.energy, slot.deadline);
    }
    var slots := sched.value.slots;
    var i := 0;
    while i < |slots| && slots[i].date != slot.date
      invariant 0 <= i <= |slots|
      invariant forall j :: 0 <= j < i ==> slots[j].date != slot.date
    {
      i := i + 1;
    }
    var updated: seq<Slot>;
    if i < |slots| {
      updated := slots[..i] + [slot] + slots[i + 1..];
      assert InstalledAt(slots, slot, i, updated);
    } else {
      var at := 0;
      while at < |slots| && !(slot.date < slots[at].date)
        invariant 0 <= at <= |slots|
        invariant forall j :: 0 <= j < at ==> slots[j].date < slot.date
      {
        at := at + 1;
      }
      updated := slots[..at] + [slot] + slots[at..];
      assert InstalledAt(slots, slot, at, updated);
    }
    r := TotalSchedule(updated);
  }

  /** First slot with that date, if any. */
  ghost predicate SameDate(slots: seq<Slot>, date: int, found: Option<Slot>) {
    match found
    case None => forall i :: !FirstOfDate(slots, date, i)
    case Some(slot) => slot.date == date && exists i :: FirstOfDate(slots, date, i) && slots[i] == slot
  }

  ghost predicate FirstOfDate(slots: seq<Slot>, date: int, i: int) {
    0 <= i < |slots| && slots[i].date == date && forall j :: 0 <= j < i ==> slots[j].date != date
  }

  method FindDate(sched: Option<Schedule>, date: int) returns (found: Option<Slot>)
    ensures SameDate(SlotsIn(sched), date, found)
  {
    var slots := SlotsIn(sched);
    for i := 0 to |slots|
      invariant forall j :: 0 <= j < i ==> slots[j].date != date
    {
      if slots[i].date == date {
        assert FirstOfDate(slots, date, i);
        return Some(slots[i]);
      }
    }
    return None;
  }

  function PeriodsIn(slot: Option<Slot>): Option<seq<Period>> {
    if slot.Some? then Some(slot.value.periods) else None
  }

  /** The slot that goes into the plan: the running slot with its future recomputed. */
  ghost predicate Continues(running: Slot, k: nat, recomputed: Option<Slot>, merged: Slot)
    requires k < |running.periods|
  {
    && KeepsRunning(running.periods, k, PeriodsIn(recomputed), merged.periods)
    && Balanced(merged)
    && merged == running.(periods := merged.periods, cost := merged.cost, energy := merged.energy)
  }

  method ContinueSlot(running: Slot, k: nat, recomputed: Option<Slot>) returns (merged: Slot)
    requires k < |running.periods|
    ensures Continues(running, k, recomputed, merged)
  {
    var storage := new Period[|running.periods|](i requires 0 <= i < |running.periods| => running.periods[i]);
    assert storage[..] == running.periods;
    var previous := Slice(storage, storage.Length);
    var kept := MergePeriods(previous, k, PeriodsIn(recomputed));
    assert previous.Contents() == running.periods;
    merged := RecalcSlotTotals(running.(periods := kept.buf[..kept.len]));
  }

  ghost predicate FirstRunning(periods: seq<Period>, now: int, k: int) {
    0 <= k < |periods| && Running(periods[k], now) && forall i :: 0 <= i < k ==> !Running(periods[i], now)
  }

  /** The merged slot, or the running slot itself when none of its periods runs, put into the plan. */
  ghost predicate ActiveMerge(
    sched: Option<Schedule>, running: Slot, now: int, recomputed: Option<Slot>, merged: Slot, r: Schedule) {
    && SameDate(SlotsIn(sched), running.date, recomputed)
    && ((forall k :: !FirstRunning(running.periods, now, k)) ==> merged == running)
    && (forall k :: FirstRunning(running.periods, now, k) ==> Continues(running, k, recomputed, merged))
    && (sched.None? ==> r == Schedule([merged], merged.cost, merged.energy, merged.deadline))
    && (sched.Some? ==>
          Installed(sched.value.slots, merged, r.slots) && Totalled(r) && r.deadline == LatestDeadline(r.slots))
  }

  /** `mergeActiveSlotPreservingActive`. */
  method MergeActiveSlot(sched: Option<Schedule>, running: Slot, now: int) returns (r: Schedule)
    ensures exists recomputed, merged :: ActiveMerge(sched, running, now, recomputed, merged, r)
  {
    var found := FindDate(sched, running.date);
    var k := FindRunning(running.periods, now);
    hide Continues, SameDate, Installed, Totalled, LatestDeadline, Running;
    if k < 0 {
      assert forall j :: !FirstRunning(running.periods, now, j);
      r := MergeInProgressSlot(sched, running);
      assert ActiveMerge(sched, running, now, found, running, r);
      return;
    }
    var slot := ContinueSlot(running, k, found);
    assert FirstRunning(running.periods, now, k);
    r := MergeInProgressSlot(sched, slot);
    assert ActiveMerge(sched, running, now, found, slot, r);
  }

  // ----- what the merge keeps -----

  lemma OrderedPrefix(periods: seq<Period>, n: nat)
    requires Ordered(periods) && n <= |periods|
    ensures Ordered(periods[..n])
  {
  }

  lemma {:induction false} AfterFrom(periods: seq<Period>, end: int)
    ensures forall p :: p in After(periods, end) <==> p in periods && p.start >= end
  {
    if periods != [] {
      var n := |periods| - 1;
      AfterFrom(periods[..n], end);
      assert periods == periods[..n] + [periods[n]];
    }
  }

  lemma {:induction false} AfterOrdered(periods: seq<Period>, end: int)
    requires Ordered(periods)
    ensures Ordered(After(periods, end))
  {
    if periods != [] {
      var n := |periods| - 1;
      OrderedPrefix(periods, n);
      hide Ordered;
      AfterOrdered(periods[..n], end);
      AfterFrom(periods[..n], end);
      ExtendOrdered(periods, After(periods[..n], end));
    }
  }

  /**
   The running period and those before it survive, nothing later of the old slot does, and every
   other period comes from the recomputed slot and starts once the running one has ended.
   */
  lemma MergeContents(old_: seq<Period>, k: nat, recomputed: Option<seq<Period>>, merged: seq<Period>)
    requires k < |old_| && KeepsRunning(old_, k, recomputed, merged)
    ensures forall p :: p in merged <==>
      p in old_[..k + 1] || (recomputed.Some? && p in recomputed.value && p.start >= old_[k].end)
    ensures old_[k] in merged
  {
    var kept := old_[..k + 1];
    assert kept[k] == old_[k];
    if recomputed.Some? {
      var later := After(recomputed.value, old_[k].end);
      AfterFrom(recomputed.value, old_[k].end);
      forall p
        ensures p in merged <==> p in kept || p in later
      {
        assert p in merged <==> p in multiset(merged);
        assert p in kept + later <==> p in multiset(kept + later);
      }
    }
  }

  /** Chronological inputs give a chronological slot that starts with the kept periods, verbatim. */
  lemma MergeStaysOrdered(old_: seq<Period>, k: nat, recomputed: Option<seq<Period>>, merged: seq<Period>)
    requires k < |old_| && KeepsRunning(old_, k, recomputed, merged)
    requires Ordered(old_[..k + 1]) && (recomputed.Some? ==> Ordered(recomputed.value))
    ensures Ordered(merged)
    ensures merged == old_[..k + 1] + if recomputed.Some? then After(recomputed.value, old_[k].end) else []
  {
    var kept := old_[..k + 1];
    if recomputed.Some? {
      var later := After(recomputed.value, old_[k].end);
      AfterFrom(recomputed.value, old_[k].end);
      AfterOrdered(recomputed.value, old_[k].end);
      assert later != [] ==> later[0] in later;
      assert kept[|kept| - 1] == old_[k];
      OrderedConcat(kept, later);
      OrderedHasOneSort(kept + later, merged);
    }
  }

  lemma OrderedHasOneSort(xs: seq<Period>, ys: seq<Period>)
    requires Ordered(xs) && StartSorted(ys) && multiset(xs) == multiset(ys)
    ensures xs == ys
  {
    forall i, j | 0 <= i < j < |xs|
      ensures StartKey(xs[i]) < StartKey(xs[j])
    {
      assert xs[i].start < xs[i].end <= xs[j].start;
    }
    forall i, j | 0 <= i < j < |ys|
      ensures StartKey(ys[i]) <= StartKey(ys[j])
    {
      assert ys[i].start <= ys[j].start;
    }
    StrictOrderIsUnique(xs, ys, StartKey);
  }

  function OtherDates(slots: seq<Slot>, date: int): seq<Slot> {
    if slots == [] then []
    else
      var n := |slots| - 1;
      OtherDates(slots[..n], date) + if slots[n].date == date then [] else [slots[n]]
  }

  lemma {:induction false} OtherDatesConcat(a: seq<Slot>, b: seq<Slot>, date: int)
    ensures OtherDates(a + b, date) == OtherDates(a, date) + OtherDates(b, date)
  {
    if b == [] {
      assert a + b == a;
    } else {
      var n := |b| - 1;
      assert (a + b)[..|a| + n] == a + b[..n];
      OtherDatesConcat(a, b[..n], date);
    }
  }

  lemma OneOfDate(slot: Slot)
    ensures OtherDates([slot], slot.date) == []
  {
    assert [slot][..0] == [];
  }

  /** Slots of other dates are untouched, in content and in order; the running slot is in the plan. */
  lemma InstallKeepsOtherDates(slots: seq<Slot>, slot: Slot, r: seq<Slot>)
    requires Installed(slots, slot, r)
    ensures OtherDates(r, slot.date) == OtherDates(slots, slot.date)
    ensures slot in r
  {
    hide OtherDates;
    var i :| 0 <= i <= |slots| && InstalledAt(slots, slot, i, r);
    if i < |slots| && slots[i].date == slot.date {
      ReplacedKeeps(slots[..i], slots[i], slot, slots[i + 1..]);
      assert slots == slots[..i] + [slots[i]] + slots[i + 1..];
    } else {
      DropOne(slots[..i], slot, slots[i..]);
      OtherDatesConcat(slots[..i], slots[i..], slot.date);
      assert slots == slots[..i] + slots[i..];
    }
    assert r[i] == slot;
  }

  lemma ReplacedKeeps(a: seq<Slot>, was: Slot, slot: Slot, b: seq<Slot>)
    requires was.date == slot.date
    ensures OtherDates(a + [slot] + b, slot.date) == OtherDates(a + [was] + b, slot.date)
  {
    hide OtherDates;
    DropOne(a, was, b);
    DropOne(a, slot, b);
  }

  lemma DropOne(a: seq<Slot>, slot: Slot, b: seq<Slot>)
    ensures OtherDates(a + [slot] + b, slot.date) == OtherDates(a, slot.date) + OtherDates(b, slot.date)
  {
    OneOfDate(slot);
    OtherDatesConcat(a + [slot], b, slot.date);
    OtherDatesConcat(a, [slot], slot.date);
  }

  lemma NothingBetween(a: seq<Period>, b: seq<Period>)
    ensures a + [] + b == a + b
  {
  }

  lemma {:induction false} ActiveConcat(a: seq<Slot>, b: seq<Slot>)
    ensures ActiveOf(a + b) == ActiveOf(a) + ActiveOf(b)
  {
    if b == [] {
      assert a + b == a;
    } else {
      var n := |b| - 1;
      assert (a + b)[..|a| + n] == a + b[..n];
      ActiveConcat(a, b[..n]);
    }
  }

  /**
   The plan around a merged slot is chronological exactly when the slots before it end by its
   start and the slots after it start by its end. A running force that crosses its deadline and
   has since been deleted is what can break the second half.
   */
  lemma MergedPlanOrdered(before: seq<Slot>, slot: Slot, after: seq<Slot>)
    requires Ordered(ActiveOf(before) + ActiveOf(after))
    requires !slot.cancelled && slot.periods != [] && Ordered(slot.periods)
    ensures Ordered(ActiveOf(before + [slot] + after)) <==>
      && (forall p :: p in ActiveOf(before) ==> p.end <= slot.periods[0].start)
      && (forall q :: q in ActiveOf(after) ==> slot.periods[|slot.periods| - 1].end <= q.start)
  {
    var a, m, b := ActiveOf(before), slot.periods, ActiveOf(after);
    ActiveConcat(before + [slot], after);
    ActiveConcat(before, [slot]);
    assert ActiveOf([slot]) == m by { assert [slot][..0] == []; assert ActiveOf([]) == []; }
    hide ActiveOf;
    SandwichOrdered(a, m, b);
  }

  lemma SandwichOrdered(a: seq<Period>, m: seq<Period>, b: seq<Period>)
    requires Ordered(a + b) && Ordered(m) && m != []
    ensures Ordered(a + m + b) <==>
      (forall p :: p in a ==> p.end <= m[0].start) && (forall q :: q in b ==> m[|m| - 1].end <= q.start)
  {
    OrderedParts(a, b);
    if (forall p :: p in a ==> p.end <= m[0].start) && (forall q :: q in b ==> m[|m| - 1].end <= q.start) {
      assert a != [] ==> a[|a| - 1] in a;
      assert b != [] ==> b[0] in b;
      hide Ordered;
      OrderedConcat(a, m);
      OrderedConcat(a + m, b);
    }
    if Ordered(a + m + b) {
      SandwichGaps(a, m, b);
    }
  }

  lemma SandwichGaps(a: seq<Period>, m: seq<Period>, b: seq<Period>)
    requires Ordered(a + m + b) && m != []
    ensures (forall p :: p in a ==> p.end <= m[0].start) && (forall q :: q in b ==> m[|m| - 1].end <= q.start)
  {
    var all := a + m + b;
    forall p | p in a
      ensures p.end <= m[0].start
    {
      var i :| 0 <= i < |a| && a[i] == p;
      assert all[i] == p && all[|a|] == m[0];
    }
    forall q | q in b
      ensures m[|m| - 1].end <= q.start
    {
      var j :| 0 <= j < |b| && b[j] == q;
      assert all[|a| + |m| + j] == q && all[|a| + |m| - 1] == m[|m| - 1];
    }
  }
}
