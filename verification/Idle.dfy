/** Energy used while no car charges (store/idle.go, store/pstryk_consumption.go, store/meter.go). */
module Idle {
  import opened Arithmetic
  import opened Sorting
  import opened Spans
  import opened Plan
  import opened Fragment
  import opened Costing
  import opened Ledger
  import Meter

  // ----- windows -----

  /** `mergeWindows`: extends the last window while the next one starts by its end. */
  method MergeWindows(windows: seq<Window>) returns (out: seq<Window>)
    requires StartSorted(windows) && NonEmpty(windows)
    ensures Separated(out)
    ensures forall t :: Covered(out, t) <==> Covered(windows, t)
  {
    if windows == [] { return []; }
    out := [windows[0]];
    ghost var none: seq<Window> := [];
    assert windows[..0] == none && none + [windows[0]] == [windows[0]];
    MergeStep(none, windows, 0, out);
    for i := 1 to |windows|
      invariant out != [] && MergedPrefix(out, windows[..i])
    {
      var w := windows[i];
      var k := |out| - 1;
      ghost var before := out;
      if w.start <= out[k].end {
        if w.end > out[k].end {
          out := out[k := Span(out[k].start, w.end, ())];
          assert out == before[..k] + [Span(before[k].start, w.end, ())];
        }
      } else {
        out := out + [w];
      }
      MergeStep(before, windows, i, out);
    }
    assert windows[..|windows|] == windows;
  }

  /** In order, within [start, end). */
  ghost predicate Inside(ws: seq<Window>, start: int, end: int) {
    Ordered(ws) && forall i :: 0 <= i < |ws| ==> start <= ws[i].start && ws[i].end <= end
  }

  /** Where the sweep stands after the first windows: everything up to `cursor` is in a gap or a window. */
  ghost predicate Swept(gaps: seq<Window>, done: seq<Window>, start: int, cursor: int) {
    && Inside(gaps, start, cursor)
    && cursor == (if done == [] then start else done[|done| - 1].end)
    && (forall t :: Covered(gaps, t) <==> start <= t < cursor && !Covered(done, t))
  }

  /** `invertWindows`. */
  method InvertWindows(start: int, end: int, sessions: seq<Window>) returns (out: seq<Window>)
    requires start < end && Inside(sessions, start, end)
    ensures Inside(out, start, end)
    ensures forall t :: Covered(out, t) <==> start <= t < end && !Covered(sessions, t)
  {
    out := [];
    var cursor := start;
    for i := 0 to |sessions|
      invariant Swept(out, sessions[..i], start, cursor)
    {
      var w := sessions[i];
      SweepStep(out, sessions, i, start, end, cursor);
      if w.start > cursor { out := out + [Span(cursor, w.start, ())]; }
      if w.end > cursor { cursor := w.end; }
    }
    assert sessions[..|sessions|] == sessions;
    ghost var gaps := out;
    if cursor < end {
      LastGap(out, sessions, start, end, cursor);
      out := out + [Span(cursor, end, ())];
    } else {
      NoGap(sessions, start, end, cursor);
    }
  }

  lemma SweepStep(gaps: seq<Window>, sessions: seq<Window>, i: nat, start: int, end: int, cursor: int)
    requires i < |sessions| && Inside(sessions, start, end) && Swept(gaps, sessions[..i], start, cursor)
    ensures var w := sessions[i];
      && cursor <= w.start < w.end
      && Swept(if w.start > cursor then gaps + [Span(cursor, w.start, ())] else gaps, sessions[..i + 1], start, w.end)
  {
    var w := sessions[i];
    if i > 0 { assert sessions[i - 1].end <= w.start; }
    assert sessions[..i + 1] != [] && sessions[..i + 1][i] == w;
    SweepCovers(gaps, sessions, i, start, end, cursor);
    SweepInside(gaps, start, cursor, w);
    hide Covered, Inside;
  }

  lemma SweepInside(gaps: seq<Window>, start: int, cursor: int, w: Window)
    requires Inside(gaps, start, cursor) && start <= cursor <= w.start < w.end
    ensures Inside(if w.start > cursor then gaps + [Span(cursor, w.start, ())] else gaps, start, w.end)
  {
    if w.start > cursor { OrderedConcat(gaps, [Span(cursor, w.start, ())]); }
  }

  lemma SweepCovers(gaps: seq<Window>, sessions: seq<Window>, i: nat, start: int, end: int, cursor: int)
    requires i < |sessions| && Inside(sessions, start, end) && start <= cursor <= sessions[i].start < sessions[i].end
    requires cursor == if i == 0 then start else sessions[i - 1].end
    requires forall t :: Covered(gaps, t) <==> start <= t < cursor && !Covered(sessions[..i], t)
    ensures var w := sessions[i];
      var longer := if w.start > cursor then gaps + [Span(cursor, w.start, ())] else gaps;
      forall t :: Covered(longer, t) <==> start <= t < w.end && !Covered(sessions[..i + 1], t)
  {
    var w := sessions[i];
    var gap: Window := Span(cursor, w.start, ());
    assert forall t :: Covered([gap], t) <==> [gap][0].Covers(t);
    CoveredStep(sessions, i);
    DoneBefore(sessions, i, start, end, cursor);
    CoveredConcat(gaps, [gap]);
    hide Covered, Inside;
  }

  lemma DoneBefore(sessions: seq<Window>, i: nat, start: int, end: int, cursor: int)
    requires i <= |sessions| && Inside(sessions, start, end)
    requires cursor == if i == 0 then start else sessions[i - 1].end
    ensures forall t :: Covered(sessions[..i], t) ==> start <= t < cursor
    ensures forall t :: Covered(sessions, t) && t < cursor ==> Covered(sessions[..i], t)
  {
    forall t | Covered(sessions[..i], t)
      ensures start <= t < cursor
    {
      var k :| 0 <= k < i && sessions[..i][k].Covers(t);
      if k < i - 1 { assert sessions[k].end <= sessions[i - 1].start; }
    }
    forall k | i <= k < |sessions|
      ensures cursor <= sessions[k].start
    {
    }
    forall t | Covered(sessions, t) && t < cursor
      ensures Covered(sessions[..i], t)
    {
      var k :| 0 <= k < |sessions| && sessions[k].Covers(t);
      assert k < i ==> sessions[..i][k].Covers(t);
    }
  }

  lemma LastGap(gaps: seq<Window>, sessions: seq<Window>, start: int, end: int, cursor: int)
    requires Inside(sessions, start, end) && Swept(gaps, sessions, start, cursor) && cursor < end
    ensures var out := gaps + [Span(cursor, end, ())];
      && Inside(out, start, end)
      && (forall t :: Covered(out, t) <==> start <= t < end && !Covered(sessions, t))
  {
    var gap: Window := Span(cursor, end, ());
    assert sessions[..|sessions|] == sessions;
    DoneBefore(sessions, |sessions|, start, end, cursor);
    CoveredConcat(gaps, [gap]);
    assert forall t :: Covered([gap], t) <==> [gap][0].Covers(t);
    OrderedConcat(gaps, [gap]);
  }

  lemma NoGap(sessions: seq<Window>, start: int, end: int, cursor: int)
    requires start < end && Inside(sessions, start, end) && cursor >= end
    requires cursor == if sessions == [] then start else sessions[|sessions| - 1].end
    ensures cursor == end
  {
  }

  // ----- sessions of a day -----

  /** A session without a stop is still charging. */
  predicate Charging(x: Session, t: int) {
    x.start <= t && (x.closing.Some? ==> t < x.closing.value.stop)
  }

  ghost predicate SomeoneCharges(sessions: seq<Session>, t: int) {
    exists k :: 0 <= k < |sessions| && Charging(sessions[k], t)
  }

  function SessionKey(x: Session): real { x.start as real }

  function StopOf(x: Session, dayEnd: int): int { if x.closing.Some? then x.closing.value.stop else dayEnd }

  /** The part of a session within the day. */
  function Clip(x: Session, dayStart: int, dayEnd: int): Window {
    Span(Max(x.start, dayStart), Min(StopOf(x, dayEnd), dayEnd), ())
  }

  ghost predicate Clipped(windows: seq<Window>, sessions: seq<Session>, dayStart: int, dayEnd: int) {
    && NonEmpty(windows) && StartSorted(windows)
    && (forall i :: 0 <= i < |windows| ==> dayStart <= windows[i].start && windows[i].end <= dayEnd)
    && (forall i :: 0 <= i < |windows| && sessions != [] ==>
          windows[i].start <= Max(sessions[|sessions| - 1].start, dayStart))
    && (sessions == [] ==> windows == [])
    && (forall t :: Covered(windows, t) <==> dayStart <= t < dayEnd && SomeoneCharges(sessions, t))
  }

  lemma ClipStep(windows: seq<Window>, sessions: seq<Session>, i: nat, dayStart: int, dayEnd: int)
    requires i < |sessions| && dayStart < dayEnd && Clipped(windows, sessions[..i], dayStart, dayEnd)
    requires SortedBy(sessions, SessionKey)
    ensures var w := Clip(sessions[i], dayStart, dayEnd);
      Clipped(if w.start < w.end then windows + [w] else windows, sessions[..i + 1], dayStart, dayEnd)
  {
    var x, w := sessions[i], Clip(sessions[i], dayStart, dayEnd);
    if i > 0 { assert SessionKey(sessions[i - 1]) <= SessionKey(sessions[i]); }
    assert sessions[..i + 1] == sessions[..i] + [x];
    ClipCovers(windows, sessions, i, dayStart, dayEnd);
  }

  lemma ClipCovers(windows: seq<Window>, sessions: seq<Session>, i: nat, dayStart: int, dayEnd: int)
    requires i < |sessions|
    requires forall t :: Covered(windows, t) <==> dayStart <= t < dayEnd && SomeoneCharges(sessions[..i], t)
    ensures var w := Clip(sessions[i], dayStart, dayEnd);
      var longer := if w.start < w.end then windows + [w] else windows;
      forall t :: Covered(longer, t) <==> dayStart <= t < dayEnd && SomeoneCharges(sessions[..i + 1], t)
  {
    var w := Clip(sessions[i], dayStart, dayEnd);
    CoveredConcat(windows, [w]);
    forall t
      ensures SomeoneCharges(sessions[..i + 1], t) <==> SomeoneCharges(sessions[..i], t) || Charging(sessions[i], t)
    {
      assert Charging(sessions[..i + 1][i], t) <==> Charging(sessions[i], t);
      assert forall k :: 0 <= k < i ==> sessions[..i + 1][k] == sessions[..i][k];
    }
    assert forall t :: Covered([w], t) <==> [w][0].Covers(t);
  }

  /** Every second of the day is in exactly one of the two lists; the second is where someone charges. */
  ghost predicate DaySplit(sessions: seq<Session>, start: int, end: int, gaps: seq<Window>, charging: seq<Window>) {
    && Inside(gaps, start, end) && Inside(charging, start, end)
    && (forall t :: Covered(charging, t) <==> start <= t < end && SomeoneCharges(sessions, t))
    && (forall t :: Covered(gaps, t) <==> start <= t < end && !SomeoneCharges(sessions, t))
  }

  /** `nonChargingWindows`. */
  method NonChargingWindows(sessions: seq<Session>, dayStart: int, dayEnd: int) returns (gaps: seq<Window>)
    requires dayStart < dayEnd
    ensures exists charging :: DaySplit(sessions, dayStart, dayEnd, gaps, charging)
  {
    var rows := SortBy(sessions, SessionKey);
    var windows: seq<Window> := [];
    for i := 0 to |rows|
      invariant Clipped(windows, rows[..i], dayStart, dayEnd)
    {
      ClipStep(windows, rows, i, dayStart, dayEnd);
      var start := rows[i].start;
      var stop := if rows[i].closing.Some? then rows[i].closing.value.stop else dayEnd;
      if start < dayStart { start := dayStart; }
      if stop > dayEnd { stop := dayEnd; }
      if stop <= start { continue; }
      windows := windows + [Span(start, stop, ())];
    }
    assert rows[..|rows|] == rows;
    SameSessions(sessions, rows);
    var merged := MergeWindows(windows);
    MergedInside(windows, merged, dayStart, dayEnd);
    gaps := InvertWindows(dayStart, dayEnd, merged);
    assert DaySplit(sessions, dayStart, dayEnd, gaps, merged);
  }

  /** A second of the day is in a gap exactly when every session starts after it or stops at it or before. */
  lemma GapSeconds(sessions: seq<Session>, start: int, end: int, gaps: seq<Window>, charging: seq<Window>, t: int)
    requires DaySplit(sessions, start, end, gaps, charging) && start <= t < end
    ensures Covered(gaps, t) <==> forall k :: 0 <= k < |sessions| ==>
      t < sessions[k].start || (sessions[k].closing.Some? && sessions[k].closing.value.stop <= t)
    ensures Covered(charging, t) <==> !Covered(gaps, t)
  {
    hide Covered, Inside;
    assert SomeoneCharges(sessions, t) <==> exists k :: 0 <= k < |sessions| && Charging(sessions[k], t);
  }

  lemma SameSessions(a: seq<Session>, b: seq<Session>)
    requires multiset(a) == multiset(b)
    ensures forall t :: SomeoneCharges(a, t) <==> SomeoneCharges(b, t)
  {
    forall k | 0 <= k < |a| ensures a[k] in b { assert a[k] in multiset(a); }
    forall k | 0 <= k < |b| ensures b[k] in a { assert b[k] in multiset(b); }
  }

  lemma MergedInside(windows: seq<Window>, merged: seq<Window>, start: int, end: int)
    requires forall i :: 0 <= i < |windows| ==> start <= windows[i].start && windows[i].end <= end
    requires Separated(merged) && forall t :: Covered(merged, t) <==> Covered(windows, t)
    ensures Inside(merged, start, end)
  {
    forall i | 0 <= i < |merged|
      ensures start <= merged[i].start && merged[i].end <= end
    {
      assert merged[i].Covers(merged[i].start) && merged[i].Covers(merged[i].end - 1);
      assert Covered(windows, merged[i].start) && Covered(windows, merged[i].end - 1);
    }
  }

  /** Gaps and charging time add up to the day. */
  lemma DayIsPartitioned(sessions: seq<Session>, start: int, end: int, gaps: seq<Window>, charging: seq<Window>)
    requires start < end && DaySplit(sessions, start, end, gaps, charging)
    ensures Seconds(gaps) + Seconds(charging) == end - start
    ensures Instants(gaps) !! Instants(charging) && Instants(gaps) + Instants(charging) == Between(start, end)
  {
    OrderedSeconds(gaps);
    OrderedSeconds(charging);
    InstantsAreCovered(gaps);
    InstantsAreCovered(charging);
    assert forall t :: t in Between(start, end) <==> Covered(gaps, t) || Covered(charging, t);
    hide *;
    SameSet(Instants(gaps) + Instants(charging), Between(start, end));
    assert |Instants(gaps) + Instants(charging)| == |Instants(gaps)| + |Instants(charging)|;
  }

  // ----- energy from stored hours -----

  /** One stored hour: it starts at `start` and used `wh` Wh. */
  datatype Hour = Hour(start: int, wh: real)

  function HourSpans(hours: seq<Hour>): seq<Rate> {
    seq(|hours|, i requires 0 <= i < |hours| => Span(hours[i].start, hours[i].start + SECONDS_PER_HOUR, hours[i].wh))
  }

  /** Every hour's energy, in proportion to the part of it within [start, end). */
  function HourlyKWh(hours: seq<Hour>, start: int, end: int): real {
    if end <= start then 0.0 else PriceHours(HourSpans(hours), start, end) / 1000.0
  }

  /** The range query: hours starting in [lo, hi). */
  function Fetched(hours: seq<Hour>, lo: int, hi: int): seq<Hour> {
    if hours == [] then []
    else
      var n := |hours| - 1;
      Fetched(hours[..n], lo, hi) + if lo <= hours[n].start < hi then [hours[n]] else []
  }

  /** The part of an hour's energy that falls within [start, end). */
  function HourShare(h: Hour, start: int, end: int): real {
    Priced(Span(h.start, h.start + SECONDS_PER_HOUR, h.wh).Meet(start, end), h.wh)
  }

  lemma HourAdded(hours: seq<Hour>, h: Hour, start: int, end: int)
    ensures PriceHours(HourSpans(hours + [h]), start, end) ==
      PriceHours(HourSpans(hours), start, end) + HourShare(h, start, end)
  {
    var longer := HourSpans(hours + [h]);
    assert longer[..|hours|] == HourSpans(hours);
    assert longer[|hours|] == Span(h.start, h.start + SECONDS_PER_HOUR, h.wh);
  }

  /** An hour the query leaves out has no part in the window. */
  lemma HourOutside(h: Hour, start: int, end: int)
    requires !(start - start % SECONDS_PER_HOUR - SECONDS_PER_HOUR <= h.start < end)
    ensures HourShare(h, start, end) == 0.0
  {
    NoSeconds(h.wh);
    hide Priced;
  }

  /** The query, which starts an hour before the window's first full hour, misses no overlapping hour. */
  lemma {:induction false} FetchMissesNothing(hours: seq<Hour>, start: int, end: int)
    ensures PriceHours(HourSpans(Fetched(hours, start - start % SECONDS_PER_HOUR - SECONDS_PER_HOUR, end)), start, end)
      == PriceHours(HourSpans(hours), start, end)
  {
    if hours != [] {
      hide PriceHours, Priced;
      var n := |hours| - 1;
      var lo := start - start % SECONDS_PER_HOUR - SECONDS_PER_HOUR;
      FetchMissesNothing(hours[..n], start, end);
      assert hours == hours[..n] + [hours[n]];
      HourAdded(hours[..n], hours[n], start, end);
      HourAdded(Fetched(hours[..n], lo, end), hours[n], start, end);
      if !(lo <= hours[n].start < end) { HourOutside(hours[n], start, end); }
      hide HourShare, HourSpans;
      assert Fetched(hours[..n], lo, end) + [] == Fetched(hours[..n], lo, end);
    }
  }

  method FetchHours(hours: seq<Hour>, lo: int, hi: int) returns (rows: seq<Hour>)
    ensures rows == Fetched(hours, lo, hi)
  {
    rows := [];
    for i := 0 to |hours|
      invariant rows == Fetched(hours[..i], lo, hi)
    {
      assert hours[..i + 1][..i] == hours[..i];
      if lo <= hours[i].start < hi { rows := rows + [hours[i]]; }
    }
    assert hours[..|hours|] == hours;
  }

  /** One row's overlap with the window. */
  method HourPart(h: Hour, start: int, end: int) returns (wh: real)
    ensures wh == HourShare(h, start, end)
  {
    NoSeconds(h.wh);
    var from_ := if start > h.start then start else h.start;
    var until := if end < h.start + SECONDS_PER_HOUR then end else h.start + SECONDS_PER_HOUR;
    if until <= from_ { return 0.0; }
    var fraction := (until - from_) as real / 3600.0;
    wh := h.wh * fraction;
  }

  /** `PstrykEnergyKWh`. */
  method EnergyFromHours(hours: seq<Hour>, start: int, end: int) returns (kwh: real)
    ensures kwh == HourlyKWh(hours, start, end)
  {
    if end <= start { return 0.0; }
    var rows := FetchHours(hours, start - start % SECONDS_PER_HOUR - SECONDS_PER_HOUR, end);
    FetchMissesNothing(hours, start, end);
    hide Fetched, PriceHours, HourSpans;
    var wh := ProportionalSum(rows, start, end);
    kwh := wh / 1000.0;
  }

  /** The row loop of `PstrykEnergyKWh`. */
  method ProportionalSum(rows: seq<Hour>, start: int, end: int) returns (wh: real)
    ensures wh == PriceHours(HourSpans(rows), start, end)
  {
    wh := 0.0;
    assert HourSpans(rows[..0]) == [];
    assert PriceHours([], start, end) == 0.0;
    hide *;
    for i := 0 to |rows|
      invariant wh == PriceHours(HourSpans(rows[..i]), start, end)
    {
      assert rows[..i + 1] == rows[..i] + [rows[i]];
      HourAdded(rows[..i], rows[i], start, end);
      var part := HourPart(rows[i], start, end);
      wh := wh + part;
    }
    assert rows[..|rows|] == rows;
  }

  /** Stored energy is additive at any split point. */
  lemma HourlyKWhSplits(hours: seq<Hour>, start: int, mid: int, end: int)
    requires start <= mid <= end
    ensures HourlyKWh(hours, start, mid) + HourlyKWh(hours, mid, end) == HourlyKWh(hours, start, end)
  {
    PriceHoursSplit(HourSpans(hours), start, mid, end);
    EmptyHours(HourSpans(hours), mid);
    hide PriceHours;
  }

  lemma {:induction false} EmptyHours(rates: seq<Rate>, t: int)
    ensures PriceHours(rates, t, t) == 0.0
  {
    if rates != [] {
      EmptyHours(rates[..|rates| - 1], t);
      NoSeconds(rates[|rates| - 1].value);
    }
  }

  // ----- energy over a set of seconds -----

  /** What the seconds of `s` cost, or use, at the rates covering them. */
  ghost function PricedOver(rates: seq<Rate>, s: set<int>): real {
    if rates == [] then 0.0
    else
      var r := rates[|rates| - 1];
      PricedOver(rates[..|rates| - 1], s) + RateOver(r, s)
  }

  ghost function RateOver(r: Rate, s: set<int>): real { Priced(|s * Between(r.start, r.end)|, r.value) }

  ghost predicate Halves(a: set<int>, b: set<int>, whole: set<int>) { a !! b && whole == a + b }

  lemma RateOverAdds(r: Rate, a: set<int>, b: set<int>, whole: set<int>)
    requires Halves(a, b, whole)
    ensures RateOver(r, whole) == RateOver(r, a) + RateOver(r, b)
  {
    hide Priced;
    var c := Between(r.start, r.end);
    assert whole * c == a * c + b * c;
    assert |a * c + b * c| == |a * c| + |b * c|;
    PricedAdds(|a * c|, |b * c|, r.value);
  }

  lemma ClipSize(r: Rate, start: int, end: int)
    ensures |Between(start, end) * Between(r.start, r.end)| == r.Meet(start, end)
  {
    assert Between(start, end) * Between(r.start, r.end) == Between(Max(r.start, start), Min(r.end, end));
  }

  lemma {:induction false} PricedOverAdds(rates: seq<Rate>, a: set<int>, b: set<int>, whole: set<int>)
    requires Halves(a, b, whole)
    ensures PricedOver(rates, whole) == PricedOver(rates, a) + PricedOver(rates, b)
  {
    if rates != [] {
      hide RateOver, Halves;
      PricedOverAdds(rates[..|rates| - 1], a, b, whole);
      RateOverAdds(rates[|rates| - 1], a, b, whole);
    }
  }

  lemma {:induction false} PricedOverBetween(rates: seq<Rate>, start: int, end: int)
    ensures PricedOver(rates, Between(start, end)) == PriceHours(rates, start, end)
  {
    if rates != [] {
      hide Priced;
      var r := rates[|rates| - 1];
      PricedOverBetween(rates[..|rates| - 1], start, end);
      ClipSize(r, start, end);
    }
  }

  lemma {:induction false} PricedOverNothing(rates: seq<Rate>)
    ensures PricedOver(rates, {}) == 0.0
  {
    if rates != [] {
      PricedOverNothing(rates[..|rates| - 1]);
      var r := rates[|rates| - 1];
      assert {} * Between(r.start, r.end) == {};
      NoSeconds(r.value);
    }
  }

  /** Stored energy over a list of windows. */
  function HourlySum(hours: seq<Hour>, ws: seq<Window>): real {
    if ws == [] then 0.0
    else
      var w := ws[|ws| - 1];
      HourlySum(hours, ws[..|ws| - 1]) + HourlyKWh(hours, w.start, w.end)
  }

  lemma {:induction false} HourlySumIsOver(hours: seq<Hour>, ws: seq<Window>)
    requires Ordered(ws)
    ensures HourlySum(hours, ws) == PricedOver(HourSpans(hours), Instants(ws)) / 1000.0
  {
    var rates := HourSpans(hours);
    if ws == [] {
      PricedOverNothing(rates);
    } else {
      var rest, w := ws[..|ws| - 1], ws[|ws| - 1];
      HourlySumIsOver(hours, rest);
      LastIsLater(ws);
      PricedOverBetween(rates, w.start, w.end);
      PricedOverAdds(rates, Instants(rest), Between(w.start, w.end), Instants(ws));
    }
  }

  /** Stored energy in the gaps and stored energy while charging add up to the day's. */
  lemma EnergyIsConserved(
    hours: seq<Hour>, sessions: seq<Session>, start: int, end: int, gaps: seq<Window>, charging: seq<Window>)
    requires start < end && DaySplit(sessions, start, end, gaps, charging)
    ensures HourlySum(hours, gaps) + HourlySum(hours, charging) == HourlyKWh(hours, start, end)
  {
    DayIsPartitioned(sessions, start, end, gaps, charging);
    HourlySumIsOver(hours, gaps);
    HourlySumIsOver(hours, charging);
    var rates := HourSpans(hours);
    PricedOverAdds(rates, Instants(gaps), Instants(charging), Between(start, end));
    PricedOverBetween(rates, start, end);
    hide PricedOver, PriceHours, HourlySum, Instants, HourSpans;
  }

  // ----- energy from the meter -----

  /** Count, minimum and maximum of the readings in a window; 0, 0, 0 when there is none. */
  datatype Stats = Stats(n: nat, low: real, high: real)

  predicate InWindow(r: Meter.Reading, start: int, end: int) { start <= r.at < end }

  function Extended(s: Stats, wh: real): Stats {
    Stats(s.n + 1, if s.n == 0 || wh < s.low then wh else s.low, if s.n == 0 || wh > s.high then wh else s.high)
  }

  function StatsOf(readings: seq<Meter.Reading>, start: int, end: int): Stats {
    if readings == [] then Stats(0, 0.0, 0.0)
    else
      var n := |readings| - 1;
      var before := StatsOf(readings[..n], start, end);
      if InWindow(readings[n], start, end) then Extended(before, readings[n].wh) else before
  }

  /** Maximum minus minimum, in kWh; nothing with fewer than two readings. */
  function MeterKWh(readings: seq<Meter.Reading>, start: int, end: int): real {
    var s := StatsOf(readings, start, end);
    if s.n < 2 || s.high < s.low then 0.0 else (s.high - s.low) / 1000.0
  }

  /** `MeterDeltaKWh`. */
  method EnergyFromMeter(readings: seq<Meter.Reading>, start: int, end: int) returns (kwh: real)
    ensures kwh == MeterKWh(readings, start, end)
    ensures Meter.NonDecreasing(readings) ==>
      forall i, j :: Bounds(readings, start, end, i, j) ==> kwh == (readings[j].wh - readings[i].wh) / 1000.0
  {
    if Meter.NonDecreasing(readings) {
      forall i, j | Bounds(readings, start, end, i, j)
        ensures MeterKWh(readings, start, end) == (readings[j].wh - readings[i].wh) / 1000.0
      {
        DeltaOfRising(readings, start, end, i, j);
      }
    }
    hide Meter.NonDecreasing, Bounds;
    var s := Stats(0, 0.0, 0.0);
    for i := 0 to |readings|
      invariant s == StatsOf(readings[..i], start, end)
    {
      assert readings[..i + 1][..i] == readings[..i];
      if InWindow(readings[i], start, end) { s := Extended(s, readings[i].wh); }
    }
    assert readings[..|readings|] == readings;
    if s.n < 2 { return 0.0; }
    var delta := s.high - s.low;
    if delta < 0.0 { delta := 0.0; }
    kwh := delta / 1000.0;
  }

  lemma {:induction false} StatsBound(readings: seq<Meter.Reading>, start: int, end: int, i: nat)
    requires i < |readings| && InWindow(readings[i], start, end)
    ensures var s := StatsOf(readings, start, end); s.n >= 1 && s.low <= readings[i].wh <= s.high
  {
    if i < |readings| - 1 { StatsBound(readings[..|readings| - 1], start, end, i); }
  }

  lemma {:induction false} StatsOfTwo(readings: seq<Meter.Reading>, start: int, end: int, i: nat, j: nat)
    requires i < j < |readings| && InWindow(readings[i], start, end) && InWindow(readings[j], start, end)
    ensures StatsOf(readings, start, end).n >= 2
  {
    var n := |readings| - 1;
    if j < n { StatsOfTwo(readings[..n], start, end, i, j); } else { StatsBound(readings[..n], start, end, i); }
  }

  /** The extremes are readings of the window. */
  lemma {:induction false} StatsReached(readings: seq<Meter.Reading>, start: int, end: int) returns (i: nat, j: nat)
    requires StatsOf(readings, start, end).n >= 1
    ensures i < |readings| && InWindow(readings[i], start, end) && readings[i].wh == StatsOf(readings, start, end).low
    ensures j < |readings| && InWindow(readings[j], start, end) && readings[j].wh == StatsOf(readings, start, end).high
  {
    var n := |readings| - 1;
    var before := StatsOf(readings[..n], start, end);
    i, j := n, n;
    if before.n >= 1 {
      var k, l := StatsReached(readings[..n], start, end);
      if !InWindow(readings[n], start, end) || readings[n].wh >= before.low { i := k; }
      if !InWindow(readings[n], start, end) || readings[n].wh <= before.high { j := l; }
    }
  }

  ghost predicate Chronological(readings: seq<Meter.Reading>) {
    forall i, j :: 0 <= i < j < |readings| ==> readings[i].at <= readings[j].at
  }

  /** Two readings of a window are no further apart than its delta. */
  lemma DeltaCovers(readings: seq<Meter.Reading>, start: int, end: int, i: nat, j: nat)
    requires i <= j < |readings| && InWindow(readings[i], start, end) && InWindow(readings[j], start, end)
    ensures MeterKWh(readings, start, end) >= (readings[j].wh - readings[i].wh) / 1000.0
  {
    StatsBound(readings, start, end, i);
    StatsBound(readings, start, end, j);
    if i < j { StatsOfTwo(readings, start, end, i, j); }
  }

  /** The delta of a window is the largest difference of two of its readings, in kWh, and 0 when there is none. */
  lemma DeltaIsSpread(readings: seq<Meter.Reading>, start: int, end: int)
    ensures MeterKWh(readings, start, end) >= 0.0
    ensures forall i, j ::
      0 <= i < |readings| && 0 <= j < |readings| && start <= readings[i].at < end && start <= readings[j].at < end ==>
        MeterKWh(readings, start, end) >= (readings[j].wh - readings[i].wh) / 1000.0
    ensures MeterKWh(readings, start, end) == 0.0 || exists i, j ::
      && 0 <= i < |readings| && 0 <= j < |readings|
      && start <= readings[i].at < end && start <= readings[j].at < end
      && MeterKWh(readings, start, end) == (readings[j].wh - readings[i].wh) / 1000.0
  {
    forall i, j | 0 <= i < |readings| && 0 <= j < |readings|
      && start <= readings[i].at < end && start <= readings[j].at < end
      ensures MeterKWh(readings, start, end) >= (readings[j].wh - readings[i].wh) / 1000.0
    {
      SpreadCovers(readings, start, end, i, j);
    }
    if StatsOf(readings, start, end).n >= 2 { var i, j := StatsReached(readings, start, end); }
    hide StatsOf;
  }

  lemma SpreadCovers(readings: seq<Meter.Reading>, start: int, end: int, i: nat, j: nat)
    requires i < |readings| && j < |readings| && InWindow(readings[i], start, end) && InWindow(readings[j], start, end)
    ensures MeterKWh(readings, start, end) >= (readings[j].wh - readings[i].wh) / 1000.0
  {
    StatsBound(readings, start, end, i);
    StatsBound(readings, start, end, j);
    if i < j { StatsOfTwo(readings, start, end, i, j); }
    if j < i { StatsOfTwo(readings, start, end, j, i); }
    hide StatsOf;
  }

  /** i and j are the first and the last reading of the window. */
  ghost predicate Bounds(readings: seq<Meter.Reading>, start: int, end: int, i: int, j: int) {
    && 0 <= i <= j < |readings| && start <= readings[i].at < end && start <= readings[j].at < end
    && forall k :: 0 <= k < |readings| && start <= readings[k].at < end ==> i <= k <= j
  }

  /** In a series that never falls it is the last reading less the first. */
  lemma DeltaOfRising(readings: seq<Meter.Reading>, start: int, end: int, i: int, j: int)
    requires Meter.NonDecreasing(readings) && Bounds(readings, start, end, i, j)
    ensures MeterKWh(readings, start, end) == (readings[j].wh - readings[i].wh) / 1000.0
  {
    DeltaIsSpread(readings, start, end);
    hide MeterKWh;
    assert MeterKWh(readings, start, end) >= (readings[j].wh - readings[i].wh) / 1000.0;
    assert readings[i].wh <= readings[j].wh;
    if MeterKWh(readings, start, end) != 0.0 {
      var k, l :| 0 <= k < |readings| && 0 <= l < |readings|
        && start <= readings[k].at < end && start <= readings[l].at < end
        && MeterKWh(readings, start, end) == (readings[l].wh - readings[k].wh) / 1000.0;
      assert i <= k && l <= j;
    }
  }

  /** In a series that never falls, disjoint windows' deltas add up to no more than the whole's. */
  lemma DeltasAddUp(readings: seq<Meter.Reading>, a: int, b: int, c: int, d: int)
    requires a <= b <= c <= d && Chronological(readings) && Meter.NonDecreasing(readings)
    ensures MeterKWh(readings, a, b) + MeterKWh(readings, c, d) <= MeterKWh(readings, a, d)
  {
    var s, t := StatsOf(readings, a, b), StatsOf(readings, c, d);
    if s.n >= 1 && t.n >= 1 {
      var i, j := StatsReached(readings, a, b);
      var k, l := StatsReached(readings, c, d);
      hide StatsOf;
      assert readings[j].at < readings[k].at;
      assert readings[j].wh <= readings[k].wh;
      if i <= l { DeltaCovers(readings, a, d, i, l); }
    } else if s.n >= 1 {
      var i, j := StatsReached(readings, a, b);
      hide StatsOf;
      WiderDelta(readings, a, b, a, d, i, j);
    } else if t.n >= 1 {
      var k, l := StatsReached(readings, c, d);
      hide StatsOf;
      WiderDelta(readings, c, d, a, d, k, l);
    }
  }

  lemma WiderDelta(readings: seq<Meter.Reading>, a: int, b: int, c: int, d: int, i: nat, j: nat)
    requires c <= a && b <= d && Meter.NonDecreasing(readings)
    requires i < |readings| && InWindow(readings[i], a, b) && readings[i].wh == StatsOf(readings, a, b).low
    requires j < |readings| && InWindow(readings[j], a, b) && readings[j].wh == StatsOf(readings, a, b).high
    ensures MeterKWh(readings, a, b) <= MeterKWh(readings, c, d)
  {
    hide StatsOf;
    if i <= j { DeltaCovers(readings, c, d, i, j); }
  }

  /** Each stored hour counts by its share of the window, in kWh. */
  lemma HoursCountByShare(hours: seq<Hour>, h: Hour, start: int, end: int)
    requires start < end
    ensures HourlyKWh([], start, end) == 0.0
    ensures HourlyKWh(hours + [h], start, end) == HourlyKWh(hours, start, end)
      + Max(0, Min(h.start + 3600, end) - Max(h.start, start)) as real / 3600.0 * h.wh / 1000.0
  {
    OneMoreHour(hours, h, start, end);
    assert HourSpans([]) == [] && PriceHours([], start, end) == 0.0;
    hide HourSpans, PriceHours;
  }

  lemma OneMoreHour(hours: seq<Hour>, h: Hour, start: int, end: int)
    ensures PriceHours(HourSpans(hours + [h]), start, end) == PriceHours(HourSpans(hours), start, end)
      + Max(0, Min(h.start + 3600, end) - Max(h.start, start)) as real / 3600.0 * h.wh
  {
    var spans, all := HourSpans(hours), HourSpans(hours + [h]);
    assert all[..|hours|] == spans && all[|hours|] == Span(h.start, h.start + SECONDS_PER_HOUR, h.wh);
    hide HourSpans;
  }

  // ----- a day's idle energy -----

  datatype Source = FromMeter | FromHours

  /** Everything the daily figure is computed from. */
  datatype Data = Data(sessions: seq<Session>, rates: seq<Rate>, hours: seq<Hour>, readings: seq<Meter.Reading>)

  datatype DailyIdle = DailyIdle(kwh: real, cost: real)

  function WindowKWh(source: Source, data: Data, start: int, end: int): real {
    if source == FromMeter then MeterKWh(data.readings, start, end) else HourlyKWh(data.hours, start, end)
  }

  function SourceRows(source: Source, data: Data, start: int, end: int): nat {
    if source == FromMeter then StatsOf(data.readings, start, end).n else |Fetched(data.hours, start, end)|
  }

  /** The rows of a source in a window, counted one by one. */
  lemma RowsAreCounted(data: Data, start: int, end: int)
    ensures SourceRows(FromMeter, data, start, end) ==
      |set i | 0 <= i < |data.readings| && start <= data.readings[i].at < end|
    ensures SourceRows(FromHours, data, start, end) ==
      |set i | 0 <= i < |data.hours| && start <= data.hours[i].start < end|
  {
    ReadingsAreCounted(data.readings, start, end);
    HoursAreCounted(data.hours, start, end);
  }

  lemma {:induction false} ReadingsAreCounted(readings: seq<Meter.Reading>, start: int, end: int)
    ensures StatsOf(readings, start, end).n == |set i | 0 <= i < |readings| && start <= readings[i].at < end|
  {
    var n := |readings| - 1;
    if n >= 0 { ReadingsAreCounted(readings[..n], start, end); }
    assert n >= 0 ==>
      StatsOf(readings, start, end).n
      == StatsOf(readings[..n], start, end).n + if start <= readings[n].at < end then 1 else 0;
    hide StatsOf;
    var all := set i | 0 <= i < |readings| && start <= readings[i].at < end;
    if n < 0 {
      assert all == {};
    } else {
      var before := set i | 0 <= i < n && start <= readings[..n][i].at < end;
      assert all == if start <= readings[n].at < end then before + {n} else before;
    }
  }

  lemma {:induction false} HoursAreCounted(hours: seq<Hour>, start: int, end: int)
    ensures |Fetched(hours, start, end)| == |set i | 0 <= i < |hours| && start <= hours[i].start < end|
  {
    var n := |hours| - 1;
    if n >= 0 { HoursAreCounted(hours[..n], start, end); }
    assert n >= 0 ==>
      |Fetched(hours, start, end)|
      == |Fetched(hours[..n], start, end)| + if start <= hours[n].start < end then 1 else 0;
    hide Fetched;
    var all := set i | 0 <= i < |hours| && start <= hours[i].start < end;
    if n < 0 {
      assert all == {};
    } else {
      var before := set i | 0 <= i < n && start <= hours[..n][i].start < end;
      assert all == if start <= hours[n].start < end then before + {n} else before;
    }
  }

  /** Gaps that used energy, and what it cost. */
  function IdleOver(source: Source, data: Data, gaps: seq<Window>): DailyIdle {
    if gaps == [] then DailyIdle(0.0, 0.0)
    else
      var w := gaps[|gaps| - 1];
      var before := IdleOver(source, data, gaps[..|gaps| - 1]);
      var kwh := WindowKWh(source, data, w.start, w.end);
      if kwh <= 0.0 then before
      else DailyIdle(before.kwh + kwh, before.cost + SessionCost(data.rates, w.start, w.end, kwh))
  }

  class Accounts {
    var data: Data
    var daily: map<int, DailyIdle>

    constructor (data: Data)
      ensures this.data == data && daily == map[]
    {
      this.data, daily := data, map[];
    }

    method EnergyIn(source: Source, start: int, end: int) returns (kwh: real)
      ensures kwh == WindowKWh(source, data, start, end)
    {
      if source == FromMeter {
        kwh := EnergyFromMeter(data.readings, start, end);
      } else {
        kwh := EnergyFromHours(data.hours, start, end);
      }
    }

    method RowCount(source: Source, start: int, end: int) returns (n: nat)
      ensures n == SourceRows(source, data, start, end)
    {
      if source == FromMeter {
        n := 0;
        for i := 0 to |data.readings|
          invariant n == StatsOf(data.readings[..i], start, end).n
        {
          assert data.readings[..i + 1][..i] == data.readings[..i];
          if InWindow(data.readings[i], start, end) { n := n + 1; }
        }
        assert data.readings[..|data.readings|] == data.readings;
      } else {
        var rows := FetchHours(data.hours, start, end);
        n := |rows|;
      }
    }

    /** `computeDailyIdle`: too little data leaves the stored row as it is. */
    method ComputeDailyIdle(dayStart: int, now: int, source: Source)
      returns (ghost gaps: seq<Window>, ghost charging: seq<Window>)
      modifies this`daily
      ensures
        var dayEnd := Min(dayStart + SECONDS_PER_DAY, now);
        var enough := SourceRows(source, data, dayStart, dayEnd) >= if source == FromMeter then 2 else 1;
        if dayEnd <= dayStart || !enough then daily == old(daily)
        else
          && DaySplit(data.sessions, dayStart, dayEnd, gaps, charging)
          && daily == old(daily)[dayStart / SECONDS_PER_DAY := IdleOver(source, data, gaps)]
    {
      gaps, charging := [], [];
      var dayEnd := dayStart + SECONDS_PER_DAY;
      if dayEnd > now { dayEnd := now; }
      if dayEnd <= dayStart { return; }
      var n := RowCount(source, dayStart, dayEnd);
      if n < if source == FromMeter then 2 else 1 { return; }
      var windows := NonChargingWindows(data.sessions, dayStart, dayEnd);
      gaps := windows;
      charging :| DaySplit(data.sessions, dayStart, dayEnd, gaps, charging);
      var idle := SumIdle(source, windows);
      daily := daily[dayStart / SECONDS_PER_DAY := idle];
      hide DaySplit, SourceRows, IdleOver;
    }

    method SumIdle(source: Source, windows: seq<Window>) returns (idle: DailyIdle)
      ensures idle == IdleOver(source, data, windows)
    {
      var kwh, cost := 0.0, 0.0;
      for i := 0 to |windows|
        invariant IdleOver(source, data, windows[..i]) == DailyIdle(kwh, cost)
      {
        hide WindowKWh, SessionCost;
        assert windows[..i + 1][..i] == windows[..i];
        var w := windows[i];
        var delta := EnergyIn(source, w.start, w.end);
        if delta <= 0.0 { continue; }
        var price := CalculateSessionCost(data.rates, w.start, w.end, delta);
        kwh, cost := kwh + delta, cost + price;
      }
      assert windows[..|windows|] == windows;
      idle := DailyIdle(kwh, cost);
    }
  }

  // ----- what the daily figure means -----

  /** The rebuilt figure is the gaps' stored energy exactly when no gap has a negative balance. */
  lemma {:induction false} IdleIsGapEnergy(data: Data, gaps: seq<Window>)
    ensures IdleOver(FromHours, data, gaps).kwh >= HourlySum(data.hours, gaps)
    ensures IdleOver(FromHours, data, gaps).kwh == HourlySum(data.hours, gaps) <==>
      forall i :: 0 <= i < |gaps| ==> HourlyKWh(data.hours, gaps[i].start, gaps[i].end) >= 0.0
  {
    if gaps != [] {
      hide HourlyKWh;
      IdleIsGapEnergy(data, gaps[..|gaps| - 1]);
    }
  }

  /** Rebuilt idle energy plus energy while charging is the day's energy. */
  lemma RebuiltDayBalances(
    data: Data, start: int, end: int, gaps: seq<Window>, charging: seq<Window>)
    requires start < end && DaySplit(data.sessions, start, end, gaps, charging)
    ensures var sum := IdleOver(FromHours, data, gaps).kwh + HourlySum(data.hours, charging);
      sum == HourlyKWh(data.hours, start, end) <==>
      forall i :: 0 <= i < |gaps| ==> HourlyKWh(data.hours, gaps[i].start, gaps[i].end) >= 0.0
  {
    EnergyIsConserved(data.hours, data.sessions, start, end, gaps, charging);
    IdleIsGapEnergy(data, gaps);
  }

  /** An hour stored with a negative value, which the source's table does not rule out, unbalances a day. */
  lemma NegativeHourUnbalances()
    ensures var data := Data([], [], [Hour(0, -1000.0)], []);
      var gaps := [Span(0, 3600, ())];
      && DaySplit(data.sessions, 0, 3600, gaps, [])
      && IdleOver(FromHours, data, gaps).kwh + HourlySum(data.hours, []) != HourlyKWh(data.hours, 0, 3600) == -1.0
  {
    var hours, gaps := [Hour(0, -1000.0)], [Span(0, 3600, ())];
    var data := Data([], [], hours, []);
    assert gaps[0].Covers(0);
    forall t
      ensures Covered(gaps, t) <==> 0 <= t < 3600
    {
      assert gaps[0].Covers(t) <==> 0 <= t < 3600;
    }
    assert HourlyKWh(hours, 0, 3600) == -1.0 by {
      assert HourSpans(hours) == [Span(0, 3600, -1000.0)];
      assert [Span(0, 3600, -1000.0)][..0] == [];
    }
    RebuiltDayBalances(data, 0, 3600, gaps, []);
    hide HourlyKWh, IdleOver, HourlySum;
    assert HourlyKWh(hours, gaps[0].start, gaps[0].end) < 0.0;
  }

  /** Metered idle energy never exceeds what was metered over the day. */
  lemma {:induction false} MeteredIdleIsBounded(data: Data, start: int, end: int, gaps: seq<Window>)
    requires start <= end && Inside(gaps, start, end)
    requires Chronological(data.readings) && Meter.NonDecreasing(data.readings)
    ensures IdleOver(FromMeter, data, gaps).kwh <= MeterKWh(data.readings, start, end)
    decreases |gaps|
  {
    hide MeterKWh, SessionCost;
    if gaps == [] {
      DeltasAddUp(data.readings, start, start, end, end);
      NeverNegative(data.readings, start, start);
      NeverNegative(data.readings, end, end);
    } else {
      var rest, w := gaps[..|gaps| - 1], gaps[|gaps| - 1];
      MeteredIdleIsBounded(data, start, w.start, rest);
      DeltasAddUp(data.readings, start, w.start, w.start, w.end);
      DeltasAddUp(data.readings, start, w.end, end, end);
      NeverNegative(data.readings, end, end);
      NeverNegative(data.readings, w.start, w.end);
    }
  }

  /** So it never exceeds the last reading of the day less the first. */
  lemma MeteredIdleOfTheDay(data: Data, start: int, end: int, gaps: seq<Window>, i: int, j: int)
    requires start <= end && Inside(gaps, start, end)
    requires Chronological(data.readings) && Meter.NonDecreasing(data.readings)
    requires Bounds(data.readings, start, end, i, j)
    ensures IdleOver(FromMeter, data, gaps).kwh <= (data.readings[j].wh - data.readings[i].wh) / 1000.0
  {
    MeteredIdleIsBounded(data, start, end, gaps);
    DeltaOfRising(data.readings, start, end, i, j);
    hide *;
  }

  lemma NeverNegative(readings: seq<Meter.Reading>, start: int, end: int)
    ensures MeterKWh(readings, start, end) >= 0.0
  {
  }

  ghost predicate TimesRun(events: seq<Meter.Event>) {
    forall i, j :: 0 <= i < j < |events| && events[i].Polled? && events[j].Polled? ==> events[i].at <= events[j].at
  }

  lemma {:induction false} StoredInOrder(events: seq<Meter.Event>)
    requires TimesRun(events)
    ensures Chronological(Meter.Run(events).stored)
    ensures forall r :: r in Meter.Run(events).stored ==>
      exists i :: 0 <= i < |events| && events[i].Polled? && events[i].at == r.at
  {
    if events != [] {
      var n := |events| - 1;
      var before := Meter.Run(events[..n]).stored;
      StoredInOrder(events[..n]);
      hide Meter.Adjusted, Meter.Loaded, Meter.Resets;
      forall r | r in before
        ensures exists i :: 0 <= i < n && events[i].Polled? && events[i].at == r.at
      {
        var i :| 0 <= i < n && events[..n][i].Polled? && events[..n][i].at == r.at;
        assert events[i].Polled?;
      }
    }
  }

  /**
   End to end: whatever the meter did, resets and restarts included, the idle energy taken from its
   stored readings is at most what they show for the whole day.
   */
  lemma MeteredIdleOverRuns(
    events: seq<Meter.Event>, data: Data, start: int, end: int, gaps: seq<Window>, charging: seq<Window>)
    requires TimesRun(events) && data.readings == Meter.Run(events).stored
    requires start < end && DaySplit(data.sessions, start, end, gaps, charging)
    ensures IdleOver(FromMeter, data, gaps).kwh <= MeterKWh(data.readings, start, end)
  {
    Meter.StoredNeverFalls(events);
    StoredInOrder(events);
    MeteredIdleIsBounded(data, start, end, gaps);
  }

  /** Idle energy is charged between the lowest and the highest price of a tariff that covers the gaps. */
  lemma {:induction false} IdleCostIsFair(source: Source, data: Data, gaps: seq<Window>, low: real, high: real)
    requires Ordered(data.rates) && NonEmpty(gaps)
    requires forall i :: 0 <= i < |data.rates| ==> low <= data.rates[i].value <= high
    requires forall t :: Covered(gaps, t) ==> Covered(data.rates, t)
    ensures var idle := IdleOver(source, data, gaps);
      Times(low, idle.kwh) <= idle.cost <= Times(high, idle.kwh)
  {
    if gaps != [] {
      var rest, w := gaps[..|gaps| - 1], gaps[|gaps| - 1];
      var before, kwh := IdleOver(source, data, rest), WindowKWh(source, data, w.start, w.end);
      forall t
        ensures Covered(rest, t) || w.Covers(t) ==> Covered(data.rates, t)
      {
        CoveredStep(gaps, |gaps| - 1);
        assert gaps[..|gaps|] == gaps;
      }
      hide Covered, Ordered, WindowKWh, SessionCost, Times;
      IdleCostIsFair(source, data, rest, low, high);
      if kwh > 0.0 {
        CostBetweenPrices(data.rates, w.start, w.end, kwh, low, high);
        NamedProduct(low, kwh);
        NamedProduct(high, kwh);
        TimesAdds(low, before.kwh, kwh);
        TimesAdds(high, before.kwh, kwh);
      }
    }
  }

  lemma NamedProduct(x: real, y: real)
    ensures Times(x, y) == x * y
  {
  }
}
