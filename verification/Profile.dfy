/**
 The plan compiler: from periods to an OCPP charging profile, and why the profile means the
 periods second by second (profile.go).
 */
module Profile {
  import opened Spans
  import opened Plan

  /** One OCPP period: from `offset` seconds after the start, at most `limit` W. */
  datatype Entry = Entry(offset: int, limit: real)

  datatype ChargingProfile = ChargingProfile(start: int, validTo: int, entries: seq<Entry>)

  /** OCPP 1.6, section 7.14: an entry holds until the next entry's offset. */
  function StepAt(entries: seq<Entry>, offset: int): real {
    if entries == [] then 0.0
    else
      var last := entries[|entries| - 1];
      if last.offset <= offset then last.limit else StepAt(entries[..|entries| - 1], offset)
  }

  /** The limit a charger applies at `t`, or None outside the profile's validity. */
  function LimitAt(profile: ChargingProfile, t: int): Option<real> {
    if profile.start <= t < profile.validTo then Some(StepAt(profile.entries, t - profile.start)) else None
  }

  /** The power a list of periods asks for at `t`. */
  function PowerAt(periods: seq<Period>, t: int): real {
    if periods == [] then 0.0
    else
      var last := periods[|periods| - 1];
      if last.Covers(t) then last.value.power else PowerAt(periods[..|periods| - 1], t)
  }

  ghost predicate Increasing(entries: seq<Entry>) {
    forall i, j :: 0 <= i < j < |entries| ==> entries[i].offset < entries[j].offset
  }

  /** Consecutive entries differ, so each continuous block is a single entry. */
  ghost predicate Consolidated(entries: seq<Entry>) {
    forall i :: 0 < i < |entries| ==> entries[i - 1].limit != entries[i].limit
  }

  ghost predicate Positive(periods: seq<Period>) {
    forall i :: 0 <= i < |periods| ==> periods[i].value.power > 0.0
  }

  /** The profile says, second by second, what the periods say. */
  ghost predicate Means(profile: ChargingProfile, periods: seq<Period>) {
    && periods != [] && profile.entries != []
    && profile.start == periods[0].start
    && profile.validTo == periods[|periods| - 1].end
    && profile.entries[0].offset == 0
    && profile.entries[|profile.entries| - 1] == Entry(profile.validTo - profile.start, 0.0)
    && Increasing(profile.entries)
    && (Positive(periods) ==> Consolidated(profile.entries))
    && (forall t :: profile.start <= t < profile.validTo ==> LimitAt(profile, t) == Some(PowerAt(periods, t)))
  }

  // ----- the compiler -----

  /** One more period: it continues the last entry, or a gap entry and its own are added. */
  function Extended(entries: seq<Entry>, p: Period, lastEnd: int, earliest: int): seq<Entry> {
    if entries != [] && p.start == lastEnd && p.value.power == entries[|entries| - 1].limit then entries
    else
      entries + (if p.start > lastEnd then [Entry(lastEnd - earliest, 0.0)] else [])
        + [Entry(p.start - earliest, p.value.power)]
  }

  function EndOf(periods: seq<Period>, earliest: int): int {
    if periods == [] then earliest else periods[|periods| - 1].end
  }

  function EntriesOf(periods: seq<Period>): seq<Entry> {
    if periods == [] then []
    else
      var n := |periods| - 1;
      var earliest := periods[0].start;
      Extended(EntriesOf(periods[..n]), periods[n], EndOf(periods[..n], earliest), earliest)
  }

  /** The profile of any list of periods, in order or not. */
  function Compile(periods: seq<Period>): ChargingProfile
    requires periods != []
  {
    var earliest, end := periods[0].start, periods[|periods| - 1].end;
    ChargingProfile(earliest, end, EntriesOf(periods) + [Entry(end - earliest, 0.0)])
  }

  lemma EntriesStep(periods: seq<Period>, i: nat)
    requires i < |periods|
    ensures var earliest := periods[0].start;
      EntriesOf(periods[..i + 1]) ==
        Extended(EntriesOf(periods[..i]), periods[i], EndOf(periods[..i], earliest), earliest)
  {
    assert periods[..i + 1][..i] == periods[..i];
  }

  /** The body of the compiler's loop. */
  method Extend(entries: seq<Entry>, p: Period, lastEnd: int, earliest: int) returns (r: seq<Entry>)
    ensures r == Extended(entries, p, lastEnd, earliest)
  {
    r := entries;
    if |entries| > 0 && p.start == lastEnd && p.value.power == entries[|entries| - 1].limit { return; }
    if p.start > lastEnd { r := r + [Entry(lastEnd - earliest, 0.0)]; }
    r := r + [Entry(p.start - earliest, p.value.power)];
    assert p.start <= lastEnd ==> entries + [] == entries;
  }

  method BuildProfile(sched: Schedule) returns (profile: Option<ChargingProfile>)
    ensures profile.None? <==> ActiveOf(sched.slots) == []
    ensures profile.Some? ==> profile.value == Compile(ActiveOf(sched.slots))
    ensures profile.Some? && Ordered(ActiveOf(sched.slots)) ==> Means(profile.value, ActiveOf(sched.slots))
  {
    var periods := ActivePeriods(sched);
    if |periods| == 0 { return None; }
    var value := CompilePeriods(periods);
    profile := Some(value);
    hide Ordered, Means, Compile, ActiveOf;
    if Ordered(periods) { CompileMeans(periods); }
  }

  method CompilePeriods(periods: seq<Period>) returns (profile: ChargingProfile)
    requires periods != []
    ensures profile == Compile(periods)
  {
    var earliest := periods[0].start;
    var entries: seq<Entry> := [];
    var lastEnd := earliest;
    assert EntriesOf(periods[..0]) == [] && EndOf(periods[..0], earliest) == earliest;
    for i := 0 to |periods|
      invariant entries == EntriesOf(periods[..i]) && lastEnd == EndOf(periods[..i], earliest)
    {
      hide EntriesOf, Extended;
      EntriesStep(periods, i);
      entries := Extend(entries, periods[i], lastEnd, earliest);
      lastEnd := periods[i].end;
    }
    assert periods[..|periods|] == periods;
    profile := ChargingProfile(earliest, periods[|periods| - 1].end, entries + [Entry(lastEnd - earliest, 0.0)]);
  }

  // ----- power, second by second -----

  lemma {:induction false} IdleWhereNothingCovers(periods: seq<Period>, t: int)
    requires forall i :: 0 <= i < |periods| ==> !periods[i].Covers(t)
    ensures PowerAt(periods, t) == 0.0
  {
    if periods != [] { IdleWhereNothingCovers(periods[..|periods| - 1], t); }
  }

  lemma {:induction false} PowerOfCovering(periods: seq<Period>, i: nat, t: int)
    requires Ordered(periods) && i < |periods| && periods[i].Covers(t)
    ensures PowerAt(periods, t) == periods[i].value.power
    ensures periods[0].start <= t < periods[|periods| - 1].end
  {
    var n := |periods| - 1;
    if i < n {
      assert periods[i].end <= periods[n].start < periods[n].end;
      PowerOfCovering(periods[..n], i, t);
    } else if i > 0 {
      assert periods[0].end <= periods[i].start;
    }
  }

  // ----- what the compiler preserves -----

  /** What the entries of an ordered plan say, up to its end. */
  ghost predicate Compiled(periods: seq<Period>, entries: seq<Entry>)
    requires periods != []
  {
    var n, earliest := |periods| - 1, periods[0].start;
    && entries != [] && entries[0].offset == 0 && Increasing(entries)
    && entries[|entries| - 1].limit == periods[n].value.power
    && entries[|entries| - 1].offset < periods[n].end - earliest
    && (Positive(periods) ==> Consolidated(entries))
    && (forall t :: earliest <= t < periods[n].end ==> StepAt(entries, t - earliest) == PowerAt(periods, t))
  }

  lemma {:induction false} CompiledEntries(periods: seq<Period>)
    requires Ordered(periods) && periods != []
    ensures Compiled(periods, EntriesOf(periods))
  {
    var n := |periods| - 1;
    if n == 0 {
      FirstEntry(periods);
    } else {
      OrderedBut(periods);
      CompiledEntries(periods[..n]);
      hide Compiled, Ordered, EntriesOf, Extended;
      CompileStep(periods, EntriesOf(periods[..n]));
      LastEntries(periods);
    }
  }

  lemma OrderedBut(periods: seq<Period>)
    requires Ordered(periods) && periods != []
    ensures Ordered(periods[..|periods| - 1])
  {
  }

  lemma LastEntries(periods: seq<Period>)
    requires |periods| > 1
    ensures var n := |periods| - 1;
      EntriesOf(periods) == Extended(EntriesOf(periods[..n]), periods[n], periods[n - 1].end, periods[0].start)
  {
  }

  lemma {:induction false} FirstEntry(periods: seq<Period>)
    requires Ordered(periods) && |periods| == 1
    ensures Compiled(periods, EntriesOf(periods))
  {
    assert periods[..0] == [];
    var p, es := periods[0], EntriesOf(periods);
    var none := periods[..0];
    assert EntriesOf(none) == [] && EndOf(none, p.start) == p.start;
    assert es == Extended(EntriesOf(none), p, EndOf(none, p.start), p.start);
    assert es == [Entry(0, p.value.power)];
    forall t | p.start <= t < p.end
      ensures StepAt(es, t - p.start) == PowerAt(periods, t)
    {
      assert p.Covers(t) && es[|es| - 1].offset <= t - p.start;
    }
  }

  lemma {:induction false} CompileStep(periods: seq<Period>, before: seq<Entry>)
    requires Ordered(periods) && |periods| > 1 && Compiled(periods[..|periods| - 1], before)
    ensures var n := |periods| - 1;
      Compiled(periods, Extended(before, periods[n], periods[n - 1].end, periods[0].start))
  {
    var n, earliest := |periods| - 1, periods[0].start;
    var p, lastEnd, done := periods[n], periods[n - 1].end, periods[..n];
    var entries := Extended(before, p, lastEnd, earliest);
    assert done[n - 1] == periods[n - 1] && done[0] == periods[0];
    assert lastEnd <= p.start < p.end && earliest < lastEnd;
    StepShape(before, p, lastEnd, earliest);
    forall t | earliest <= t < p.end
      ensures StepAt(entries, t - earliest) == PowerAt(periods, t)
    {
      StepMeans(periods, before, t);
    }
    assert Positive(periods) ==> Positive(done);
  }

  lemma {:induction false} StepShape(before: seq<Entry>, p: Period, lastEnd: int, earliest: int)
    requires before != [] && before[0].offset == 0 && Increasing(before)
    requires before[|before| - 1].offset < lastEnd - earliest && lastEnd <= p.start < p.end
    ensures var entries := Extended(before, p, lastEnd, earliest);
      && entries != [] && entries[0].offset == 0 && Increasing(entries) && before <= entries
      && entries[|entries| - 1].limit == p.value.power && entries[|entries| - 1].offset < p.end - earliest
      && (Consolidated(before) && p.value.power > 0.0 && before[|before| - 1].limit > 0.0 ==> Consolidated(entries))
  {
  }

  /** Before the last period's predecessor ends nothing changes; then comes the gap, then the period. */
  lemma {:induction false} StepMeans(periods: seq<Period>, before: seq<Entry>, t: int)
    requires Ordered(periods) && |periods| > 1
    requires var n, earliest := |periods| - 1, periods[0].start;
      && before != [] && before[|before| - 1].limit == periods[n - 1].value.power
      && before[|before| - 1].offset < periods[n - 1].end - earliest
      && earliest <= t < periods[n].end
      && (t < periods[n - 1].end ==> StepAt(before, t - earliest) == PowerAt(periods[..n], t))
    ensures var n, earliest := |periods| - 1, periods[0].start;
      StepAt(Extended(before, periods[n], periods[n - 1].end, earliest), t - earliest) == PowerAt(periods, t)
  {
    var n, earliest := |periods| - 1, periods[0].start;
    var p, lastEnd := periods[n], periods[n - 1].end;
    var entries := Extended(before, p, lastEnd, earliest);
    if t < lastEnd {
      assert !p.Covers(t);
      StepAtPrefix(before, entries, t - earliest);
    } else if p.Covers(t) {
      assert entries[|entries| - 1].offset <= t - earliest && entries[|entries| - 1].limit == p.value.power;
    } else {
      forall i | 0 <= i < n
        ensures !periods[..n][i].Covers(t)
      {
        assert periods[i].end <= lastEnd;
      }
      IdleWhereNothingCovers(periods[..n], t);
      assert entries[..|before| + 1][|before|] == Entry(lastEnd - earliest, 0.0);
    }
  }

  /** Entries that start later do not change the limit. */
  lemma {:induction false} StepAtPrefix(before: seq<Entry>, entries: seq<Entry>, offset: int)
    requires before <= entries
    requires forall k :: |before| <= k < |entries| ==> entries[k].offset > offset
    ensures StepAt(entries, offset) == StepAt(before, offset)
  {
    if |entries| > |before| {
      StepAtPrefix(before, entries[..|entries| - 1], offset);
    } else {
      assert entries == before;
    }
  }

  /** A chronological plan compiles to a profile that means it. */
  lemma CompileMeans(periods: seq<Period>)
    requires Ordered(periods) && periods != []
    ensures Means(Compile(periods), periods)
  {
    CompiledEntries(periods);
    var n, earliest, entries := |periods| - 1, periods[0].start, EntriesOf(periods);
    var all := entries + [Entry(periods[n].end - earliest, 0.0)];
    hide EntriesOf, Ordered;
    forall t | earliest <= t < periods[n].end
      ensures StepAt(all, t - earliest) == PowerAt(periods, t)
    {
      StepAtPrefix(entries, all, t - earliest);
    }
    assert Positive(periods) ==> Consolidated(all) by { assert periods[n].value.power == entries[|entries| - 1].limit; }
  }

  /** A plan that holds a period twice compiles to a profile that repeats an offset. */
  lemma RepeatRepeatsOffset(p: Period)
    requires p.start < p.end
    ensures var entries := Compile([p, p]).entries; entries[0].offset == entries[1].offset && !Increasing(entries)
  {
    assert [p, p][..1] == [p] && [p][..0] == [];
    assert EntriesOf([p]) == [Entry(0, p.value.power)];
    var entries := Compile([p, p]).entries;
    assert entries[0].offset == entries[1].offset;
  }
}
