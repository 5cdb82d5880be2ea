/** When a profile is sent, and which one the charger then holds (scheduler.go, `applyProfile`). */
module ProfileCache {
  import opened Arithmetic
  import opened Spans
  import opened Plan
  import opened Profile
  import opened Fingerprint

  /** Seconds between two sends. */
  const PROFILE_COOLDOWN := 30

  /** The plan and time behind the profile the charger last accepted. */
  datatype Accepted = Accepted(plan: Schedule, at: int)

  /** `hash` and `sentAt` are the scheduler's memory; `accepted` is what the charger holds. */
  datatype Sender = Sender(hash: string, sentAt: Option<int>, accepted: Option<Accepted>)

  datatype SendEvent =
    | Apply(plan: Schedule, now: int, hasCharger: bool, accepts: bool)  // applyProfile
    | Boot                                                            // the charger restarted and lost its profile
    | Restart                                                         // a new process; the charger keeps its profile
    | Clear(obeys: bool)                            // ClearSchedule; would an idle charger that is told obey?

  const INITIAL := Sender("", None, None)

  ghost function HashOf(plan: Schedule, now: int, digest: string -> string): string {
    if FutureText(plan, now) == "" then "" else digest(FutureText(plan, now))
  }

  predicate Cooling(sentAt: Option<int>, now: int) {
    sentAt.Some? && now - sentAt.value < PROFILE_COOLDOWN
  }

  lemma CoolingExactly(sentAt: Option<int>, now: int)
    ensures Cooling(sentAt, now) <==> sentAt.Some? && now - sentAt.value < 30
  {
  }

  ghost function Step(s: Sender, e: SendEvent, digest: string -> string): Sender {
    match e
    case Boot => Sender("", None, None)
    case Restart => Sender("", None, s.accepted)
    case Clear(obeys) => Sender("", s.sentAt, if s.hash != "" && obeys then None else s.accepted)
    case Apply(plan, now, hasCharger, accepts) =>
      var hash := HashOf(plan, now, digest);
      if !hasCharger || hash == "" || hash == s.hash || Cooling(s.sentAt, now) || !accepts then s
      else Sender(hash, Some(now), Some(Accepted(plan, now)))
  }

  ghost function Run(events: seq<SendEvent>, digest: string -> string): Sender {
    if events == [] then INITIAL else Step(Run(events[..|events| - 1], digest), events[|events| - 1], digest)
  }

  /** The digest is taken to be injective and never empty. */
  ghost predicate Collisionless(digest: string -> string) {
    && (forall x, y :: digest(x) == digest(y) ==> x == y)
    && (forall x :: digest(x) != "")
  }

  /** Time does not run backwards between applies. */
  ghost predicate Timely(events: seq<SendEvent>) {
    forall i, j :: 0 <= i < j < |events| && events[i].Apply? && events[j].Apply? ==> events[i].now <= events[j].now
  }

  /** Every plan applied is chronological, and time does not run backwards. */
  ghost predicate Legal(events: seq<SendEvent>) {
    && Timely(events)
    && forall i :: 0 <= i < |events| && events[i].Apply? ==> Ordered(ActiveOf(events[i].plan.slots))
  }

  /** The hash of what the charger holds; empty when it holds nothing. */
  ghost function HeldHash(s: Sender, digest: string -> string): string {
    if s.accepted.Some? then HashOf(s.accepted.value.plan, s.accepted.value.at, digest) else ""
  }

  /** A remembered hash is that of what the charger holds, which came from a plan with a future. */
  ghost predicate Faithful(s: Sender, digest: string -> string) {
    && (s.hash != "" ==> s.hash == HeldHash(s, digest))
    && (s.accepted.Some? ==> FutureText(s.accepted.value.plan, s.accepted.value.at) != "")
  }

  lemma StepIsFaithful(s: Sender, e: SendEvent, digest: string -> string)
    requires Faithful(s, digest)
    ensures var after := Step(s, e, digest);
      && Faithful(after, digest)
      && (after.accepted.Some? ==>
            after.accepted == s.accepted || (e.Apply? && after.accepted == Some(Accepted(e.plan, e.now))))
  {
    hide FutureText;
  }

  lemma RunLast(events: seq<SendEvent>, digest: string -> string)
    requires events != []
    ensures Run(events, digest) == Step(Run(events[..|events| - 1], digest), events[|events| - 1], digest)
  {
  }

  // ----- when a profile is sent -----

  /** Event i sent its profile: it changed what is remembered. */
  ghost predicate Sends(events: seq<SendEvent>, i: int, digest: string -> string) {
    0 <= i < |events| && events[i].Apply? && Run(events[..i + 1], digest).hash != Run(events[..i], digest).hash
  }

  /** The last send of the first n events, with no boot of the charger and no new process since. */
  ghost predicate LastSend(events: seq<SendEvent>, n: int, i: int, digest: string -> string) {
    i < n && Sends(events, i, digest) && forall j :: i < j < n ==> !Touches(events, j, digest)
  }

  ghost predicate Touches(events: seq<SendEvent>, j: int, digest: string -> string) {
    Sends(events, j, digest) || (0 <= j < |events| && (events[j].Boot? || events[j].Restart?))
  }

  /** Over every run the cooldown counts from that send, whatever was cleared since. */
  lemma {:induction false} CooldownIsLastSend(events: seq<SendEvent>, n: nat, digest: string -> string, i: int)
    requires n <= |events|
    ensures LastSend(events, n, i, digest) ==> Run(events[..n], digest).sentAt == Some(events[i].now)
    ensures Run(events[..n], digest).sentAt.Some? ==> exists k :: LastSend(events, n, k, digest)
  {
    assert events[..0] == [] && Run([], digest) == INITIAL;
    hide *;
    NoneBefore(events, i, digest);
    if n > 0 {
      var m := n - 1;
      CooldownIsLastSend(events, m, digest, i);
      OneMore(events, m, digest);
      LastSendMoves(events, m, i, digest);
      LastSendMoves(events, m, m, digest);
      if !Touches(events, m, digest) && Run(events[..m], digest).sentAt.Some? {
        var k :| LastSend(events, m, k, digest);
        LastSendMoves(events, m, k, digest);
      }
    }
  }

  /** The next event is the last send, or leaves that what it was, or wipes it. */
  lemma LastSendMoves(events: seq<SendEvent>, m: nat, i: int, digest: string -> string)
    requires m < |events|
    ensures LastSend(events, m + 1, i, digest) <==>
      if i == m then Sends(events, m, digest) else !Touches(events, m, digest) && LastSend(events, m, i, digest)
    ensures Sends(events, m, digest) ==> Touches(events, m, digest) && events[m].Apply?
    ensures Touches(events, m, digest) && !Sends(events, m, digest) ==> events[m].Boot? || events[m].Restart?
  {
    hide Run;
  }

  lemma NoneBefore(events: seq<SendEvent>, i: int, digest: string -> string)
    ensures !LastSend(events, 0, i, digest)
  {
  }

  /** A send sets the cooldown, a boot or a new process wipes it, and nothing else touches it. */
  lemma OneMore(events: seq<SendEvent>, m: nat, digest: string -> string)
    requires m < |events|
    ensures var s, t, e := Run(events[..m], digest), Run(events[..m + 1], digest), events[m];
      && t == Step(s, e, digest)
      && (Sends(events, m, digest) ==> t.sentAt == Some(e.now))
      && (e.Boot? || e.Restart? ==> t.sentAt == None)
      && (!Touches(events, m, digest) ==> t.sentAt == s.sentAt)
  {
    var now := events[..m + 1];
    assert now[..m] == events[..m] && now[m] == events[m] && |now| - 1 == m;
    RunLast(now, digest);
    hide Run, HashOf;
  }

  /**
   Over every run an apply sends exactly when there is a charger that takes it, something is left of the plan, the
   hash is another than the remembered one, and the last send since a boot or restart is 30 seconds old.
   */
  lemma SendsExactly(events: seq<SendEvent>, j: int, digest: string -> string)
    requires 0 <= j < |events| && events[j].Apply?
    ensures var e, s := events[j], Run(events[..j], digest);
      Sends(events, j, digest) <==>
        && e.hasCharger && e.accepts && HashOf(e.plan, e.now, digest) !in {"", s.hash}
        && forall i :: LastSend(events, j, i, digest) ==> e.now - events[i].now >= 30
  {
    var s, e := Run(events[..j], digest), events[j];
    OneMore(events, j, digest);
    CooldownIsLastSend(events, j, digest, -1);
    forall i | LastSend(events, j, i, digest)
      ensures s.sentAt == Some(events[i].now)
    {
      CooldownIsLastSend(events, j, digest, i);
    }
    CoolingExactly(s.sentAt, e.now);
    hide LastSend, HashOf, Run, Touches;
  }

  /** The charger holds the plan of this event. */
  predicate HeldFrom(a: Accepted, e: SendEvent) { e.Apply? && a == Accepted(e.plan, e.now) }

  /** Over every run what is remembered is what is held, and that came from a send of the run. */
  lemma {:induction false} RunIsFaithful(events: seq<SendEvent>, digest: string -> string)
    ensures Faithful(Run(events, digest), digest)
    ensures var a := Run(events, digest).accepted;
      a.Some? ==> exists i :: 0 <= i < |events| && HeldFrom(a.value, events[i])
  {
    if events != [] {
      var n := |events| - 1;
      var before, e := events[..n], events[n];
      RunLast(events, digest);
      RunIsFaithful(before, digest);
      hide Faithful, Step, Run;
      StepIsFaithful(Run(before, digest), e, digest);
      var a := Run(before, digest).accepted;
      if a.Some? {
        var i :| 0 <= i < |before| && HeldFrom(a.value, before[i]);
        assert HeldFrom(a.value, events[i]);
      }
    }
  }

  // ----- two profiles with the same future -----

  lemma {:induction false} RemainingPower(ps: seq<Period>, now: int, t: int)
    requires now <= t
    ensures PowerAt(Remaining(ps, now), t) == PowerAt(ps, t)
  {
    if ps != [] {
      var last := ps[|ps| - 1];
      var rest := Remaining(ps[..|ps| - 1], now);
      RemainingPower(ps[..|ps| - 1], now, t);
      assert last.end > now ==> Remaining(ps, now)[..|rest|] == rest;
      assert last.end <= now ==> Remaining(ps, now) == rest;
    }
  }

  lemma {:induction false} RemainingFrom(ps: seq<Period>, now: int)
    ensures forall p :: p in Remaining(ps, now) ==> p in ps && p.end > now
  {
    if ps != [] { RemainingFrom(ps[..|ps| - 1], now); }
  }

  lemma {:induction false} RemainingOrdered(ps: seq<Period>, now: int)
    requires Ordered(ps)
    ensures Ordered(Remaining(ps, now))
  {
    if ps != [] {
      var n := |ps| - 1;
      var rest := Remaining(ps[..n], now);
      RemainingOrdered(ps[..n], now);
      RemainingFrom(ps[..n], now);
      forall i | 0 <= i < |rest|
        ensures rest[i].end <= ps[n].start
      {
        assert rest[i] in ps[..n];
      }
    }
  }

  /** What is left of an ordered plan ends where the plan ends and starts no earlier than it. */
  lemma RemainingBounds(ps: seq<Period>, now: int)
    requires Ordered(ps) && Remaining(ps, now) != []
    ensures var r := Remaining(ps, now);
      r[|r| - 1] == ps[|ps| - 1] && ps[0].start <= r[0].start && r[0].end > now
  {
    var r := Remaining(ps, now);
    RemainingFrom(ps, now);
    var i :| 0 <= i < |ps| && ps[i] == r[0];
    var last := |ps| - 1;
    if i < last {
      assert ps[i].end <= ps[last].start < ps[last].end;
    }
    if i > 0 {
      assert ps[0].end <= ps[i].start;
    }
  }

  /** Powers that round alike are within a watt, and equal if they are whole. */
  lemma RoundAlike(x: real, y: real)
    requires RoundToEven(x) == RoundToEven(y)
    ensures -1.0 <= x - y <= 1.0
    ensures x == x.Floor as real && y == y.Floor as real ==> x == y
  {
  }

  ghost predicate WholeWatts(ps: seq<Period>) {
    forall i :: 0 <= i < |ps| ==> ps[i].value.power == ps[i].value.power.Floor as real
  }

  /** Lines printed alike ask for powers that round alike, at every second. */
  lemma {:induction false} SameLinesPower(ps: seq<Period>, qs: seq<Period>, t: int)
    requires SameLines(ps, qs)
    ensures RoundToEven(PowerAt(ps, t)) == RoundToEven(PowerAt(qs, t))
    ensures WholeWatts(ps) && WholeWatts(qs) ==> PowerAt(ps, t) == PowerAt(qs, t)
  {
    if ps != [] {
      var n := |ps| - 1;
      assert SameLine(ps[n], qs[n]);
      SameLinesPower(ps[..n], qs[..n], t);
      RoundAlike(ps[n].value.power, qs[n].value.power);
      hide RoundToEven;
    }
  }

  lemma {:induction false} WholeWattsRemain(ps: seq<Period>, now: int)
    requires WholeWatts(ps)
    ensures WholeWatts(Remaining(ps, now))
  {
    if ps != [] { WholeWattsRemain(ps[..|ps| - 1], now); }
  }

  /** The remaining periods of two proper plans with the same future text, line by line. */
  lemma SameFuture(a: seq<Period>, at: int, b: seq<Period>, now: int)
    requires Ordered(a) && Ordered(b) && Remaining(b, now) != []
    requires Text(Remaining(a, at)) == Text(Remaining(b, now))
    ensures var ra, rb := Remaining(a, at), Remaining(b, now);
      && SameLines(ra, rb) && ra != [] && Ordered(ra) && Ordered(rb)
      && a[|a| - 1].end == b[|b| - 1].end && a[0].start <= rb[0].start && b[0].start <= rb[0].start
      && ra[0].start == rb[0].start && rb[|rb| - 1].end == b[|b| - 1].end
  {
    var ra, rb := Remaining(a, at), Remaining(b, now);
    TextInjective(ra, rb);
    RemainingOrdered(a, at);
    RemainingOrdered(b, now);
    assert SameLine(ra[0], rb[0]) && SameLine(ra[|ra| - 1], rb[|rb| - 1]);
    hide Ordered, Text, Remaining;
    RemainingBounds(a, at);
    RemainingBounds(b, now);
  }

  /**
   Two proper plans whose futures have the same text compile to profiles whose limits round to the
   same watt at every second from `now` on, between the first remaining start and the last end; for
   plans of whole watts the limits are equal.
   */
  lemma SameTextSameLimits(
    a: seq<Period>, at: int, pa: ChargingProfile, b: seq<Period>, now: int, pb: ChargingProfile, t: int)
    requires Ordered(a) && Ordered(b) && Means(pa, a) && Means(pb, b) && at <= now <= t
    requires Remaining(b, now) != []
    requires Text(Remaining(a, at)) == Text(Remaining(b, now))
    requires Remaining(b, now)[0].start <= t < b[|b| - 1].end
    ensures LimitAt(pa, t) == Some(PowerAt(a, t)) && LimitAt(pb, t) == Some(PowerAt(b, t))
    ensures RoundToEven(PowerAt(a, t)) == RoundToEven(PowerAt(b, t))
    ensures -1.0 <= PowerAt(a, t) - PowerAt(b, t) <= 1.0
    ensures WholeWatts(a) && WholeWatts(b) ==> PowerAt(a, t) == PowerAt(b, t)
  {
    SameFuture(a, at, b, now);
    hide Ordered, SameLines, Text, RoundToEven, WholeWatts;
    RemainingPower(a, at, t);
    RemainingPower(b, now, t);
    SameLinesPower(Remaining(a, at), Remaining(b, now), t);
    RoundAlike(PowerAt(a, t), PowerAt(b, t));
    if WholeWatts(a) && WholeWatts(b) {
      WholeWattsRemain(a, at);
      WholeWattsRemain(b, now);
    }
  }

  /** The remaining periods have the same powers, line by line, not only to the watt. */
  ghost predicate SamePowers(ps: seq<Period>, qs: seq<Period>) {
    |ps| == |qs| && forall i :: 0 <= i < |ps| ==> ps[i].value.power == qs[i].value.power
  }

  lemma {:induction false} SamePowersPower(ps: seq<Period>, qs: seq<Period>, t: int)
    requires SameLines(ps, qs) && SamePowers(ps, qs)
    ensures PowerAt(ps, t) == PowerAt(qs, t)
  {
    if ps != [] {
      var n := |ps| - 1;
      assert SameLine(ps[n], qs[n]);
      SamePowersPower(ps[..n], qs[..n], t);
    }
  }

  /** The two plans ask for the same power at every second from `now` on. */
  ghost predicate AlikeFrom(ps: seq<Period>, qs: seq<Period>, now: int) {
    forall t :: t >= now ==> PowerAt(ps, t) == PowerAt(qs, t)
  }

  lemma AlikeSamePowers(ps: seq<Period>, qs: seq<Period>, now: int)
    requires Ordered(ps) && Ordered(qs) && SameLines(ps, qs)
    requires forall q :: q in qs ==> q.end > now
    requires AlikeFrom(ps, qs, now)
    ensures SamePowers(ps, qs)
  {
    forall i | 0 <= i < |ps|
      ensures ps[i].value.power == qs[i].value.power
    {
      assert SameLine(ps[i], qs[i]) && qs[i] in qs;
      var t := Max(now, qs[i].start);
      hide PowerAt, SameLines, SameLine;
      assert ps[i].Covers(t) && qs[i].Covers(t);
      PowerOfCovering(ps, i, t);
      PowerOfCovering(qs, i, t);
      assert PowerAt(ps, t) == PowerAt(qs, t);
    }
  }

  lemma AlikeIffRestAlike(a: seq<Period>, at: int, b: seq<Period>, now: int)
    requires at <= now
    ensures AlikeFrom(a, b, now) <==> AlikeFrom(Remaining(a, at), Remaining(b, now), now)
  {
    forall t | t >= now
      ensures PowerAt(a, t) == PowerAt(Remaining(a, at), t) && PowerAt(b, t) == PowerAt(Remaining(b, now), t)
    {
      RemainingPower(a, at, t);
      RemainingPower(b, now, t);
    }
    hide PowerAt, Remaining;
  }

  /** Beyond the watt: the limits are equal throughout exactly when the remaining powers are. */
  lemma EqualLimitsExactly(a: seq<Period>, at: int, b: seq<Period>, now: int)
    requires Ordered(a) && Ordered(b) && at <= now && Remaining(b, now) != []
    requires Text(Remaining(a, at)) == Text(Remaining(b, now))
    ensures AlikeFrom(a, b, now) <==> SamePowers(Remaining(a, at), Remaining(b, now))
  {
    var ra, rb := Remaining(a, at), Remaining(b, now);
    SameFuture(a, at, b, now);
    RemainingFrom(b, now);
    AlikeIffRestAlike(a, at, b, now);
    if SamePowers(ra, rb) {
      forall t ensures PowerAt(ra, t) == PowerAt(rb, t) { SamePowersPower(ra, rb, t); }
    }
    hide *;
    if AlikeFrom(ra, rb, now) { AlikeSamePowers(ra, rb, now); }
  }

  // ----- skipping -----

  /** The step skips because the hash is the remembered one. */
  ghost predicate Skips(s: Sender, e: SendEvent, digest: string -> string) {
    e.Apply? && e.hasCharger && HashOf(e.plan, e.now, digest) != "" && HashOf(e.plan, e.now, digest) == s.hash
  }

  /** What the charger holds came from an earlier send. */
  lemma HeldIsEarlier(events: seq<SendEvent>, digest: string -> string)
    requires Timely(events) && events != [] && events[|events| - 1].Apply?
    ensures var a := Run(events[..|events| - 1], digest).accepted; a.Some? ==> a.value.at <= events[|events| - 1].now
  {
    var n := |events| - 1;
    RunIsFaithful(events[..n], digest);
    var a := Run(events[..n], digest).accepted;
    if a.Some? {
      var i :| 0 <= i < n && HeldFrom(a.value, events[..n][i]);
      assert events[i] == events[..n][i];
    }
  }

  /** The charger holds a profile with this plan's future. */
  ghost predicate HoldsFuture(s: Sender, plan: Schedule, now: int) {
    s.accepted.Some? && FutureText(s.accepted.value.plan, s.accepted.value.at) == FutureText(plan, now)
  }

  /**
   Over every run: when the last event is skipped as unchanged, nothing changes, and the charger holds a
   profile with the plan's future. If both plans are chronological that profile limits every later second of
   the remaining plan as a freshly built one would.
   */
  lemma DedupIsSound(events: seq<SendEvent>, digest: string -> string, t: int)
    requires Collisionless(digest) && Timely(events) && events != []
    requires Skips(Run(events[..|events| - 1], digest), events[|events| - 1], digest)
    ensures var s, e := Run(events, digest), events[|events| - 1];
      s == Run(events[..|events| - 1], digest) && HoldsFuture(s, e.plan, e.now)
    ensures var a, e := Run(events, digest).accepted.value, events[|events| - 1];
      e.now <= t && Ordered(ActiveOf(a.plan.slots)) && Ordered(ActiveOf(e.plan.slots)) ==>
        LimitsAgree(a, e.plan, e.now, t)
  {
    var n := |events| - 1;
    var e, s := events[n], Run(events[..n], digest);
    RunIsFaithful(events[..n], digest);
    HeldIsEarlier(events, digest);
    assert FutureText(s.accepted.value.plan, s.accepted.value.at) == FutureText(e.plan, e.now);
    RunLast(events, digest);
    hide Run, HashOf, Timely, Cooling, Ordered, ActiveOf, LimitsAgree;
    if e.now <= t && Ordered(ActiveOf(s.accepted.value.plan.slots)) && Ordered(ActiveOf(e.plan.slots)) {
      HeldFutureAgrees(s.accepted.value, e.plan, e.now, t);
    }
  }

  /**
   Within the remaining plan the held profile's limit and a fresh one's are the powers of their plans,
   rounding to the same watt, and equal for plans of whole watts.
   */
  ghost predicate LimitsAgree(held: Accepted, plan: Schedule, now: int, t: int) {
    var mine, theirs := ActiveOf(plan.slots), ActiveOf(held.plan.slots);
    && Remaining(mine, now) != [] && theirs != []
    && (Remaining(mine, now)[0].start <= t < mine[|mine| - 1].end ==>
          && LimitAt(Compile(theirs), t) == Some(PowerAt(theirs, t))
          && LimitAt(Compile(mine), t) == Some(PowerAt(mine, t))
          && RoundToEven(PowerAt(theirs, t)) == RoundToEven(PowerAt(mine, t))
          && (WholeWatts(theirs) && WholeWatts(mine) ==> PowerAt(theirs, t) == PowerAt(mine, t)))
  }

  lemma HeldFutureAgrees(held: Accepted, plan: Schedule, now: int, t: int)
    requires FutureText(held.plan, held.at) == FutureText(plan, now) != "" && held.at <= now <= t
    requires Ordered(ActiveOf(held.plan.slots)) && Ordered(ActiveOf(plan.slots))
    ensures LimitsAgree(held, plan, now, t)
  {
    var mine, theirs := ActiveOf(plan.slots), ActiveOf(held.plan.slots);
    SameFutureText(held, plan, now);
    hide ActiveOf, Ordered, Text, Remaining, Compile, Means, LimitAt, PowerAt, WholeWatts, RoundToEven;
    CompileMeans(mine);
    CompileMeans(theirs);
    if Remaining(mine, now)[0].start <= t < mine[|mine| - 1].end {
      SameTextSameLimits(theirs, held.at, Compile(theirs), mine, now, Compile(mine), t);
    }
  }

  lemma SameFutureText(held: Accepted, plan: Schedule, now: int)
    requires FutureText(held.plan, held.at) == FutureText(plan, now) != ""
    ensures var mine, theirs := ActiveOf(plan.slots), ActiveOf(held.plan.slots);
      && Text(Remaining(theirs, held.at)) == Text(Remaining(mine, now))
      && Remaining(theirs, held.at) != [] && Remaining(mine, now) != [] && theirs != [] && mine != []
  {
    hide ActiveOf;
    var mine, theirs := ActiveOf(plan.slots), ActiveOf(held.plan.slots);
    TextEmpty(Remaining(mine, now));
    TextEmpty(Remaining(theirs, held.at));
    assert Remaining(mine, now) != [] && Remaining(theirs, held.at) != [];
  }

  /**
   Over every run: after applying a plan with a future, to a charger that takes profiles, the charger
   holds that future exactly when the last send is long enough ago or it held that future already.
   What the code compares, while it remembers a hash, is the latter.
   */
  lemma ChargerHoldsPlanUnlessCooling(events: seq<SendEvent>, digest: string -> string)
    requires Collisionless(digest) && events != []
    requires var e := events[|events| - 1]; e.Apply? && e.hasCharger && e.accepts && FutureText(e.plan, e.now) != ""
    ensures var s, e := Run(events[..|events| - 1], digest), events[|events| - 1];
      && (HoldsFuture(Run(events, digest), e.plan, e.now) <==>
            || s.sentAt.None? || e.now - s.sentAt.value >= 30
            || HeldHash(s, digest) == HashOf(e.plan, e.now, digest))
      && (s.hash != "" ==> s.hash == HeldHash(s, digest))
  {
    var n := |events| - 1;
    RunIsFaithful(events[..n], digest);
    RunLast(events, digest);
    hide *;
    AfterApply(Run(events[..n], digest), events[n], digest);
  }

  lemma AfterApply(s: Sender, e: SendEvent, digest: string -> string)
    requires Collisionless(digest) && Faithful(s, digest)
    requires e.Apply? && e.hasCharger && e.accepts && FutureText(e.plan, e.now) != ""
    ensures HoldsFuture(Step(s, e, digest), e.plan, e.now) <==>
      || s.sentAt.None? || e.now - s.sentAt.value >= 30
      || HeldHash(s, digest) == HashOf(e.plan, e.now, digest)
    ensures s.hash != "" ==> s.hash == HeldHash(s, digest)
  {
    hide FutureText;
  }

  /** Of two different plans less than 30 seconds apart the charger is left with the first, else with the second. */
  lemma CoolingKeepsTheOldProfile(a: Schedule, b: Schedule, later: nat, digest: string -> string)
    requires Collisionless(digest)
    requires FutureText(a, 0) != "" && FutureText(b, later) != "" && FutureText(a, 0) != FutureText(b, later)
    ensures var s := Run([Apply(a, 0, true, true), Apply(b, later, true, true)], digest);
      && s.accepted == Some(if later < 30 then Accepted(a, 0) else Accepted(b, later))
      && (HoldsFuture(s, b, later) <==> later >= 30)
  {
    var events := [Apply(a, 0, true, true), Apply(b, later, true, true)];
    assert events[..1] == [Apply(a, 0, true, true)] && events[..1][..0] == [];
    hide FutureText;
    assert Run(events[..1], digest) == Step(INITIAL, events[0], digest);
  }

  /**
   Before the first remaining start both profiles are idle or not yet valid, and they agree exactly
   when the two plans have both started or both not started by then.
   */
  lemma BeforeFirstRemaining(
    a: seq<Period>, at: int, pa: ChargingProfile, b: seq<Period>, now: int, pb: ChargingProfile, t: int)
    requires Ordered(a) && Ordered(b) && Means(pa, a) && Means(pb, b) && at <= now <= t
    requires Remaining(b, now) != []
    requires Text(Remaining(a, at)) == Text(Remaining(b, now))
    requires t < Remaining(b, now)[0].start
    ensures LimitAt(pa, t) == (if a[0].start <= t then Some(0.0) else None)
    ensures LimitAt(pb, t) == (if b[0].start <= t then Some(0.0) else None)
    ensures LimitAt(pa, t) == LimitAt(pb, t) <==> (a[0].start <= t <==> b[0].start <= t)
  {
    var ra, rb := Remaining(a, at), Remaining(b, now);
    SameFuture(a, at, b, now);
    assert forall i :: 0 <= i < |ra| ==> !ra[i].Covers(t);
    assert forall i :: 0 <= i < |rb| ==> !rb[i].Covers(t);
    assert t < rb[|rb| - 1].end;
    hide Ordered, SameLines, Text, Remaining;
    IdleWhereNothingCovers(ra, t);
    IdleWhereNothingCovers(rb, t);
    RemainingPower(a, at, t);
    RemainingPower(b, now, t);
  }

  /** Nothing covers a second in the held plan's future if nothing does in the plan's. */
  lemma IdleInBoth(a: seq<Period>, at: int, b: seq<Period>, now: int, t: int)
    requires Ordered(a) && Ordered(b) && at <= now <= t && Remaining(b, now) != []
    requires Text(Remaining(a, at)) == Text(Remaining(b, now))
    requires forall i :: 0 <= i < |b| ==> !b[i].Covers(t)
    ensures PowerAt(a, t) == 0.0
  {
    var ra, rb := Remaining(a, at), Remaining(b, now);
    SameFuture(a, at, b, now);
    RemainingFrom(b, now);
    forall i | 0 <= i < |ra|
      ensures !ra[i].Covers(t)
    {
      assert SameLine(ra[i], rb[i]) && rb[i] in rb;
    }
    hide Ordered, Text, Remaining;
    IdleWhereNothingCovers(ra, t);
    RemainingPower(a, at, t);
  }

  /** A second a period covers lies within what remains. */
  lemma FirstRemaining(ps: seq<Period>, now: int, p: Period, t: int)
    requires Ordered(ps) && p in ps && p.Covers(t) && now <= t
    ensures Remaining(ps, now) != [] && Remaining(ps, now)[0].start <= t < ps[|ps| - 1].end
  {
    var i :| 0 <= i < |ps| && ps[i] == p;
    RemainingHas(ps, now, i);
    RemainingOrdered(ps, now);
    var r := Remaining(ps, now);
    var j :| 0 <= j < |r| && r[j] == p;
    hide Remaining;
    assert j > 0 ==> r[0].end <= r[j].start;
    assert i < |ps| - 1 ==> ps[i].end <= ps[|ps| - 1].start;
  }

  lemma {:induction false} RemainingHas(ps: seq<Period>, now: int, i: nat)
    requires i < |ps| && ps[i].end > now
    ensures ps[i] in Remaining(ps, now)
  {
    if i < |ps| - 1 { RemainingHas(ps[..|ps| - 1], now, i); }
  }

  /** Where no period of the plan is under way the held profile allows nothing from its start to its end. */
  lemma HeldIsIdle(held: Accepted, plan: Schedule, now: int, t: int)
    requires FutureText(held.plan, held.at) == FutureText(plan, now) != "" && held.at <= now <= t
    requires Ordered(ActiveOf(held.plan.slots)) && Ordered(ActiveOf(plan.slots))
    requires forall i :: 0 <= i < |ActiveOf(plan.slots)| ==> !ActiveOf(plan.slots)[i].Covers(t)
    ensures ActiveOf(held.plan.slots) != []
    ensures var profile := Compile(ActiveOf(held.plan.slots));
      LimitAt(profile, t) == if profile.start <= t < profile.validTo then Some(0.0) else None
  {
    var mine, theirs := ActiveOf(plan.slots), ActiveOf(held.plan.slots);
    SameFutureText(held, plan, now);
    hide Ordered, Text, Remaining, ActiveOf, Compile, PowerAt;
    CompileMeans(theirs);
    IdleInBoth(theirs, held.at, mine, now, t);
  }

  // ----- inputs -----

  function OneHour(start: int, power: real): Schedule {
    Schedule([Slot(0, 86400, [Span(start, start + 3600, Load(power, 0.0, false))], 0.0, 0.0, false)], 0.0, 0.0, 86400)
  }

  function TwoHours(): Schedule {
    var load := Load(1000.0, 0.0, false);
    Schedule([Slot(0, 86400, [Span(0, 3600, load), Span(7200, 10800, load)], 0.0, 0.0, false)], 0.0, 0.0, 86400)
  }

  lemma OneHourActive(start: int, power: real)
    ensures ActiveOf(OneHour(start, power).slots) == [Span(start, start + 3600, Load(power, 0.0, false))]
  {
    assert OneHour(start, power).slots[..0] == [];
  }

  lemma {:induction false} RemainingOne(p: Period, now: int)
    ensures Remaining([p], now) == if p.end > now then [p] else []
  {
    assert [p][..0] == [];
  }

  /**
   Powers that differ by less than half a watt print alike, so only whole watts are told apart: a
   plan at 1000.4 W is skipped after one at 1000 W, and the charger stays at 1000 W.
   */
  lemma FractionsOfAWattAreLost(digest: string -> string)
    requires Collisionless(digest)
    ensures var first, second := Apply(OneHour(0, 1000.0), 0, true, true), Apply(OneHour(0, 1000.4), 60, true, true);
      && Legal([first, second]) && Skips(Run([first], digest), second, digest)
      && Run([first, second], digest).accepted == Some(Accepted(OneHour(0, 1000.0), 0))
      && PowerAt(ActiveOf(OneHour(0, 1000.0).slots), 60) != PowerAt(ActiveOf(OneHour(0, 1000.4).slots), 60)
  {
    var a, b := OneHour(0, 1000.0), OneHour(0, 1000.4);
    var first, second := Apply(a, 0, true, true), Apply(b, 60, true, true);
    OneHourActive(0, 1000.0);
    OneHourActive(0, 1000.4);
    var p, q := Span(0, 3600, Load(1000.0, 0.0, false)), Span(0, 3600, Load(1000.4, 0.0, false));
    RemainingOne(p, 0);
    RemainingOne(q, 60);
    FractionsPrintAlike();
    TextEmpty([p]);
    hide ActiveOf, Text, Remaining, OneHour;
    assert FutureText(a, 0) == FutureText(b, 60) != "";
    assert [first, second][..1] == [first] && [first][..0] == [];
    assert [p][..0] == [] && [q][..0] == [];
  }

  lemma FractionsPrintAlike()
    ensures Text([Span(0, 3600, Load(1000.0, 0.0, false))]) == Text([Span(0, 3600, Load(1000.4, 0.0, false))])
  {
    var a, b := [Span(0, 3600, Load(1000.0, 0.0, false))], [Span(0, 3600, Load(1000.4, 0.0, false))];
    assert RoundToEven(1000.0) == 1000 == RoundToEven(1000.4);
    assert PeriodText(a[0]) == PeriodText(b[0]);
    assert a[1..] == [] && b[1..] == [];
  }

  lemma TwoHoursRemain(p: Period, q: Period)
    requires p.start < p.end <= q.start < q.end
    ensures Ordered([p, q]) && Ordered([q])
    ensures Remaining([p, q], p.end) == [q] == Remaining([q], p.end)
  {
    assert [p, q][..1] == [p];
    RemainingOne(p, p.end);
    RemainingOne(q, p.end);
  }

  lemma GapBefore(p: Period, q: Period, t: int)
    requires p.start < p.end <= q.start < q.end && p.end <= t < q.start
    ensures Text(Remaining([p, q], p.end)) == Text(Remaining([q], p.end))
    ensures LimitAt(Compile([p, q]), t) == Some(0.0) && LimitAt(Compile([q]), t) == None
  {
    TwoHoursRemain(p, q);
    hide *;
    CompileMeans([p, q]);
    CompileMeans([q]);
    BeforeFirstRemaining([p, q], p.end, Compile([p, q]), [q], p.end, Compile([q]), t);
  }

  /**
   A plan of two hours, then, in the second of them, one without the first: the same future, but before
   7200 the held profile is valid and idle, a fresh one not valid yet.
   */
  lemma GapBeforeTheFuture()
    ensures var a, b := ActiveOf(TwoHours().slots), ActiveOf(OneHour(7200, 1000.0).slots);
      && Text(Remaining(a, 3600)) == Text(Remaining(b, 3600))
      && LimitAt(Compile(a), 5000) == Some(0.0) && LimitAt(Compile(b), 5000) == None
  {
    var load := Load(1000.0, 0.0, false);
    var p, q := Span(0, 3600, load), Span(7200, 10800, load);
    assert ActiveOf(TwoHours().slots) == [p, q] by { assert TwoHours().slots[..0] == []; }
    OneHourActive(7200, 1000.0);
    hide *;
    GapBefore(p, q, 5000);
  }

  // ----- answers that get lost -----

  /** A send that the charger takes but whose answer does not arrive in time, so that it counts as failed. */
  ghost function Unanswered(s: Sender, plan: Schedule, now: int, digest: string -> string): Sender {
    var hash := HashOf(plan, now, digest);
    if hash == "" || hash == s.hash || Cooling(s.sentAt, now) then s
    else s.(accepted := Some(Accepted(plan, now)))
  }

  /**
   After a send whose answer is lost the memory is right exactly when nothing was remembered. The next try
   of that plan past the cooldown puts it right; an apply of the plan remembered is skipped although
   the charger no longer holds it.
   */
  lemma LostAnswer(s: Sender, plan: Schedule, now: int, other: Schedule, later: int, digest: string -> string)
    requires Faithful(s, digest) && Collisionless(digest)
    requires FutureText(plan, now) != "" && HashOf(plan, now, digest) != s.hash && !Cooling(s.sentAt, now)
    requires FutureText(plan, later) != "" && now <= later
    ensures var lost := Unanswered(s, plan, now, digest);
      && (Faithful(lost, digest) <==> s.hash == "")
      && (HashOf(plan, later, digest) != s.hash ==>
            Faithful(Step(lost, Apply(plan, later, true, true), digest), digest))
      && (HashOf(other, later, digest) == s.hash ==> Step(lost, Apply(other, later, true, true), digest) == lost)
      && lost.accepted == Some(Accepted(plan, now))
  {
    hide FutureText;
  }
}
