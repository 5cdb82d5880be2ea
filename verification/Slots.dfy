/**
 Deadlines, which are one time of day each day, and plans whose slots lie apart in the order of their
 deadlines, one slot a day (scheduler.go, overrides.go).
 */
module Slots {
  import opened Arithmetic
  import opened Spans
  import opened Plan
  import opened Selection
  import opened Planner

  predicate TimeOfDay(s: int) { 0 <= s < SECONDS_PER_DAY }

  predicate IsDeadline(d: int, deadlineOfDay: int) { (d - deadlineOfDay) % SECONDS_PER_DAY == 0 }

  /** `nextDeadlineAfter` gives the first deadline after t. */
  lemma NextDeadlineIsFirst(t: int, deadlineOfDay: int, d: int)
    requires TimeOfDay(deadlineOfDay)
    ensures var n := NextDeadlineAfter(t, deadlineOfDay);
      && t < n <= t + SECONDS_PER_DAY && IsDeadline(n, deadlineOfDay)
      && (IsDeadline(d, deadlineOfDay) && t < d ==> n <= d)
      && (IsDeadline(d, deadlineOfDay) && d < n ==> d <= n - SECONDS_PER_DAY && d <= t)
  {
    var n := NextDeadlineAfter(t, deadlineOfDay);
    assert DayStart(t) % SECONDS_PER_DAY == 0;
    var k := (n - deadlineOfDay) / SECONDS_PER_DAY;
    assert n - deadlineOfDay == k * SECONDS_PER_DAY;
    if IsDeadline(d, deadlineOfDay) {
      var j := (d - deadlineOfDay) / SECONDS_PER_DAY;
      assert d - deadlineOfDay == j * SECONDS_PER_DAY;
      assert d - n == (j - k) * SECONDS_PER_DAY;
    }
  }

  lemma FirstDeadlineFacts(now: int, deadlineOfDay: int)
    requires TimeOfDay(deadlineOfDay)
    ensures var d := FirstDeadline(now, deadlineOfDay);
      && now <= d < now + SECONDS_PER_DAY
      && IsDeadline(d, deadlineOfDay) && IsDeadline(d - SECONDS_PER_DAY, deadlineOfDay)
      && IsDeadline(d + SECONDS_PER_DAY, deadlineOfDay)
  {
    assert DayStart(now) % SECONDS_PER_DAY == 0;
  }

  /** Two deadlines of one time of day are whole days apart, and so are their dates. */
  lemma DeadlinesApart(d: int, e: int, deadlineOfDay: int)
    requires TimeOfDay(deadlineOfDay) && IsDeadline(d, deadlineOfDay) && IsDeadline(e, deadlineOfDay)
    ensures d < e <==> d + SECONDS_PER_DAY <= e
    ensures d < e <==> DateOf(d) < DateOf(e)
    ensures d == e <==> DateOf(d) == DateOf(e)
    ensures DateOf(d) * 86400 <= d < (DateOf(d) + 1) * 86400
  {
    var i, j := (d - deadlineOfDay) / SECONDS_PER_DAY, (e - deadlineOfDay) / SECONDS_PER_DAY;
    assert d == i * SECONDS_PER_DAY + deadlineOfDay && e == j * SECONDS_PER_DAY + deadlineOfDay;
    assert DateOf(d) == i && DateOf(e) == j;
  }

  /** The period meets the day that ends at the deadline. */
  predicate Meets(p: Period, deadline: int) { p.start < deadline && deadline - SECONDS_PER_DAY < p.end }

  ghost predicate Due(periods: seq<Period>, deadline: int) {
    forall i :: 0 <= i < |periods| ==> Meets(periods[i], deadline)
  }

  ghost predicate Apart(a: seq<Period>, b: seq<Period>) {
    forall p, q :: p in a && q in b ==> p.end <= q.start || q.end <= p.start
  }

  ghost predicate TidySlot(slot: Slot, deadlineOfDay: int) {
    && Ordered(slot.periods) && Due(slot.periods, slot.deadline)
    && IsDeadline(slot.deadline, deadlineOfDay) && slot.date == DateOf(slot.deadline)
  }

  ghost predicate DeadlinesIncrease(slots: seq<Slot>) {
    forall i, j :: 0 <= i < j < |slots| ==> slots[i].deadline < slots[j].deadline
  }

  ghost predicate AllTidy(slots: seq<Slot>, deadlineOfDay: int) {
    forall k :: 0 <= k < |slots| ==> TidySlot(slots[k], deadlineOfDay)
  }

  ghost predicate AllApart(slots: seq<Slot>) {
    forall i, j :: 0 <= i < j < |slots| ==> Apart(slots[i].periods, slots[j].periods)
  }

  /** One slot a day, in order of their deadlines, each chronological and in its day, all apart. */
  ghost predicate Tidy(slots: seq<Slot>, deadlineOfDay: int) {
    AllTidy(slots, deadlineOfDay) && DeadlinesIncrease(slots) && AllApart(slots)
  }

  /** Of two periods that lie apart, the one of the earlier day comes first. */
  lemma EarlierDayFirst(p: Period, d: int, q: Period, e: int)
    requires Meets(p, d) && Meets(q, e) && d + SECONDS_PER_DAY <= e
    requires q.start < q.end && (p.end <= q.start || q.end <= p.start)
    ensures p.end <= q.start
  {
  }

  lemma TidyPeriods(a: Slot, b: Slot, deadlineOfDay: int, p: Period, q: Period)
    requires TimeOfDay(deadlineOfDay) && TidySlot(a, deadlineOfDay) && TidySlot(b, deadlineOfDay)
    requires a.deadline < b.deadline && Apart(a.periods, b.periods)
    requires p in a.periods && q in b.periods
    ensures p.end <= q.start
  {
    DeadlinesApart(a.deadline, b.deadline, deadlineOfDay);
    hide IsDeadline, DateOf;
    var i :| 0 <= i < |a.periods| && a.periods[i] == p;
    var j :| 0 <= j < |b.periods| && b.periods[j] == q;
    assert Meets(a.periods[i], a.deadline) && Meets(b.periods[j], b.deadline);
    EarlierDayFirst(p, a.deadline, q, b.deadline);
  }

  lemma DatesIncrease(slots: seq<Slot>, deadlineOfDay: int, i: int, j: int)
    requires TimeOfDay(deadlineOfDay) && Tidy(slots, deadlineOfDay) && 0 <= i < j < |slots|
    ensures slots[i].date < slots[j].date
  {
    assert TidySlot(slots[i], deadlineOfDay) && TidySlot(slots[j], deadlineOfDay);
    hide Ordered, Due;
    DeadlinesApart(slots[i].deadline, slots[j].deadline, deadlineOfDay);
  }

  lemma TidyPrefix(slots: seq<Slot>, deadlineOfDay: int)
    requires Tidy(slots, deadlineOfDay) && slots != []
    ensures Tidy(slots[..|slots| - 1], deadlineOfDay)
  {
    hide TidySlot, Apart;
  }

  /** The active periods of a tidy plan run in order across all its slots, whichever are cancelled. */
  lemma {:induction false} TidyIsOrdered(slots: seq<Slot>, deadlineOfDay: int)
    requires TimeOfDay(deadlineOfDay) && Tidy(slots, deadlineOfDay)
    ensures Ordered(ActiveOf(slots))
  {
    if slots != [] {
      var n := |slots| - 1;
      var before := ActiveOf(slots[..n]);
      TidyPrefix(slots, deadlineOfDay);
      TidyIsOrdered(slots[..n], deadlineOfDay);
      if before != [] && slots[n].periods != [] {
        LastSlotFollows(slots, deadlineOfDay, before[|before| - 1], slots[n].periods[0]);
      }
      assert Ordered(slots[n].periods) by { assert TidySlot(slots[n], deadlineOfDay); }
      OrderedConcat(before, slots[n].periods);
    }
  }

  lemma LastSlotFollows(slots: seq<Slot>, deadlineOfDay: int, p: Period, q: Period)
    requires TimeOfDay(deadlineOfDay) && Tidy(slots, deadlineOfDay) && slots != []
    requires p in ActiveOf(slots[..|slots| - 1]) && q in slots[|slots| - 1].periods
    ensures p.end <= q.start
  {
    var n := |slots| - 1;
    ActiveOfComesFrom(slots[..n], p);
    var k :| 0 <= k < n && p in slots[..n][k].periods;
    assert p in slots[k].periods;
    hide ActiveOf, TidySlot, Apart;
    TidyPeriods(slots[k], slots[n], deadlineOfDay, p, q);
  }

  /** A period standing in two active slots spoils the order. */
  lemma {:induction false} RepeatSpoilsOrder(slots: seq<Slot>, k: int, l: int, p: Period)
    requires 0 <= k < l < |slots| && !slots[k].cancelled && !slots[l].cancelled
    requires p in slots[k].periods && p in slots[l].periods
    ensures !Ordered(ActiveOf(slots))
  {
    var n := |slots| - 1;
    var before, last := ActiveOf(slots[..n]), slots[n];
    if l < n {
      RepeatSpoilsOrder(slots[..n], k, l, p);
      NotOrderedBefore(before, if last.cancelled then [] else last.periods);
    } else {
      var i :| 0 <= i < |slots[k].periods| && slots[k].periods[i] == p;
      ActiveOfContains(slots[..n], k, i);
      RepeatIsNotOrdered(before, last.periods, p);
    }
  }

  lemma NotOrderedBefore(before: seq<Period>, after: seq<Period>)
    requires !Ordered(before)
    ensures !Ordered(before + after)
  {
    if Ordered(before + after) { OrderedParts(before, after); }
  }

  lemma RepeatIsNotOrdered(before: seq<Period>, after: seq<Period>, p: Period)
    requires p in before && p in after
    ensures !Ordered(before + after)
  {
    var i :| 0 <= i < |before| && before[i] == p;
    var j :| 0 <= j < |after| && after[j] == p;
    var all := before + after;
    assert all[i] == p && all[|before| + j] == p;
  }
}
