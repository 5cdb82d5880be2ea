/** The two handlers that close a session, interleaved in any order (ocpp/handler.go). */
module Closers {

  /** `finalizeSessionOnStop` and `OnStopTransaction`: any number of each, for one active session with energy drawn. */
  datatype Kind = Early | Final

  /** How far a handler has come. `saw`: it read the session as active; `won`: its update closed it. */
  datatype Phase =
    | Arrived
    | Read(saw: bool)
    | Updated(saw: bool, won: bool)
    | Marked(saw: bool, won: bool)
    | Finished(saw: bool, won: bool)

  datatype Closer = Closer(kind: Kind, phase: Phase)

  datatype State = State(open: bool, markers: nat, credits: nat, closers: seq<Closer>)

  /** An early finalize gives up when the session is not active; a stop goes on, with energy 0. */
  function AfterRead(kind: Kind, open: bool): Phase {
    if kind == Early && !open then Finished(false, false) else Read(open)
  }

  /** An early finalize returns when its update changed no row; a stop only skips the marker. */
  function AfterUpdate(kind: Kind, saw: bool, open: bool): Phase {
    if kind == Early && !open then Finished(saw, false) else Updated(saw, open)
  }

  /** An early finalize credits because it closed; a stop credits because it read an energy. */
  predicate Entitled(c: Closer)
    requires !c.phase.Arrived? && !c.phase.Read?
  {
    if c.kind == Early then c.phase.won else c.phase.saw
  }

  /** One handler takes its next step. */
  function Step(s: State, i: nat): State
    requires i < |s.closers|
  {
    var c := s.closers[i];
    match c.phase
    case Arrived => s.(closers := s.closers[i := c.(phase := AfterRead(c.kind, s.open))])
    case Read(saw) => s.(open := false, closers := s.closers[i := c.(phase := AfterUpdate(c.kind, saw, s.open))])
    case Updated(saw, won) =>
      s.(markers := s.markers + (if won then 1 else 0), closers := s.closers[i := c.(phase := Marked(saw, won))])
    case Marked(saw, won) =>
      s.(credits := s.credits + (if Entitled(c) then 1 else 0),
         closers := s.closers[i := c.(phase := Finished(saw, won))])
    case Finished(_, _) => s
  }

  ghost predicate Schedule(s: State, order: seq<nat>) {
    forall k :: 0 <= k < |order| ==> order[k] < |s.closers|
  }

  function Run(s: State, order: seq<nat>): (r: State)
    requires Schedule(s, order)
    ensures |r.closers| == |s.closers|
  {
    if order == [] then s else Step(Run(s, order[..|order| - 1]), order[|order| - 1])
  }

  /** Closers of which `p` holds. */
  function Count(closers: seq<Closer>, p: Closer -> bool): nat {
    if closers == [] then 0
    else Count(closers[..|closers| - 1], p) + if p(closers[|closers| - 1]) then 1 else 0
  }

  lemma {:induction false} CountUpdate(closers: seq<Closer>, i: nat, c: Closer, p: Closer -> bool)
    requires i < |closers|
    ensures Count(closers[i := c], p) ==
      Count(closers, p) - (if p(closers[i]) then 1 else 0) + (if p(c) then 1 else 0)
  {
    var n := |closers| - 1;
    if i < n {
      CountUpdate(closers[..n], i, c, p);
      assert closers[i := c][..n] == closers[..n][i := c];
    } else {
      assert closers[i := c][..n] == closers[..n];
    }
  }

  predicate Won(c: Closer) { (c.phase.Updated? || c.phase.Marked? || c.phase.Finished?) && c.phase.won }

  predicate MarkedWin(c: Closer) { (c.phase.Marked? || c.phase.Finished?) && c.phase.won }

  /** A stop that read the session while it was active and then lost the race to close it. */
  predicate Late(c: Closer) { c.kind == Final && c.phase.Finished? && c.phase.saw && !c.phase.won }

  predicate CreditedWin(c: Closer) { c.phase.Finished? && c.phase.won }

  /** While the session is open nobody has got past reading it. */
  predicate Undecided(p: Phase) { p.Arrived? || (p.Read? && p.saw) }

  /** A closer never wins without having read the session as active. */
  predicate Honest(c: Closer) { Won(c) ==> c.phase.saw }

  ghost predicate Consistent(s: State) {
    && Count(s.closers, Won) == (if s.open then 0 else 1)
    && s.markers == Count(s.closers, MarkedWin)
    && s.credits == Count(s.closers, CreditedWin) + Count(s.closers, Late)
    && (forall i :: 0 <= i < |s.closers| ==> Honest(s.closers[i]))
    && (s.open ==> forall i :: 0 <= i < |s.closers| ==> Undecided(s.closers[i].phase))
  }

  lemma StepKeepsConsistent(s: State, i: nat)
    requires Consistent(s) && i < |s.closers|
    ensures Consistent(Step(s, i))
  {
    var c := Step(s, i).closers[i];
    CountUpdate(s.closers, i, c, Won);
    CountUpdate(s.closers, i, c, MarkedWin);
    CountUpdate(s.closers, i, c, CreditedWin);
    CountUpdate(s.closers, i, c, Late);
    hide Count;
  }

  ghost predicate Fresh(s: State) {
    s.open && s.markers == 0 && s.credits == 0 && forall i :: 0 <= i < |s.closers| ==> s.closers[i].phase.Arrived?
  }

  lemma {:induction false} NoneYet(closers: seq<Closer>, p: Closer -> bool)
    requires forall i :: 0 <= i < |closers| ==> !p(closers[i])
    ensures Count(closers, p) == 0
  {
    if closers != [] { NoneYet(closers[..|closers| - 1], p); }
  }

  lemma {:induction false} RunIsConsistent(s: State, order: seq<nat>)
    requires Fresh(s) && Schedule(s, order)
    ensures Consistent(Run(s, order))
  {
    if order == [] {
      NoneYet(s.closers, Won);
      NoneYet(s.closers, MarkedWin);
      NoneYet(s.closers, CreditedWin);
      NoneYet(s.closers, Late);
    } else {
      var n := |order| - 1;
      RunIsConsistent(s, order[..n]);
      StepKeepsConsistent(Run(s, order[..n]), order[n]);
    }
  }

  ghost predicate AllFinished(s: State) {
    forall i :: 0 <= i < |s.closers| ==> s.closers[i].phase.Finished?
  }

  lemma {:induction false} SameCount(closers: seq<Closer>, p: Closer -> bool, q: Closer -> bool)
    requires forall i :: 0 <= i < |closers| ==> p(closers[i]) == q(closers[i])
    ensures Count(closers, p) == Count(closers, q)
  {
    if closers != [] { SameCount(closers[..|closers| - 1], p, q); }
  }

  /**
   However the handlers interleave, the session gets one stop marker, and none too many at any
   time; the estimate is credited once, plus once for each stop that had read the session before
   another handler closed it.
   */
  lemma RaceOutcome(s: State, order: seq<nat>)
    requires Fresh(s) && Schedule(s, order)
    ensures var r := Run(s, order);
      && r.markers <= 1
      && (AllFinished(r) && s.closers != [] ==>
            !r.open && r.markers == 1 && r.credits == 1 + Count(r.closers, Late))
  {
    RunIsConsistent(s, order);
    var r := Run(s, order);
    MarkedIsWon(r.closers);
    if AllFinished(r) && s.closers != [] {
      SameCount(r.closers, Won, MarkedWin);
      SameCount(r.closers, Won, CreditedWin);
    }
  }

  lemma {:induction false} MarkedIsWon(closers: seq<Closer>)
    ensures Count(closers, MarkedWin) <= Count(closers, Won)
  {
    if closers != [] { MarkedIsWon(closers[..|closers| - 1]); }
  }

  // ----- one at a time -----

  /** A handler run to its end without interruption. */
  function Whole(s: State, i: nat): State
    requires i < |s.closers|
  {
    Step(Step(Step(Step(s, i), i), i), i)
  }

  function RunWhole(s: State, order: seq<nat>): (r: State)
    requires Schedule(s, order)
    ensures |r.closers| == |s.closers|
  {
    if order == [] then s else Whole(RunWhole(s, order[..|order| - 1]), order[|order| - 1])
  }

  ghost predicate Quiet(s: State) {
    && s.markers == s.credits == (if s.open then 0 else 1)
    && forall i :: 0 <= i < |s.closers| ==> s.closers[i].phase.Finished? || s.closers[i].phase.Arrived?
  }

  /** Handlers taken as single steps: one marker and one credit, whichever handler comes first. */
  lemma {:induction false} AtomicCreditsOnce(s: State, order: seq<nat>)
    requires Fresh(s) && Schedule(s, order)
    ensures var r := RunWhole(s, order); r.markers == r.credits == (if order == [] then 0 else 1)
    ensures Quiet(RunWhole(s, order)) && (RunWhole(s, order).open <==> order == [])
  {
    if order != [] {
      var n := |order| - 1;
      var before, i := RunWhole(s, order[..n]), order[n];
      AtomicCreditsOnce(s, order[..n]);
      if order[..n] == [] { assert before.closers[i].phase.Arrived?; }
      WholeStep(before, i);
    }
  }

  lemma WholeStep(s: State, i: nat)
    requires Quiet(s) && i < |s.closers| && (s.open ==> s.closers[i].phase.Arrived?)
    ensures Quiet(Whole(s, i)) && !Whole(s, i).open
  {
  }

  /** Interleaved, a stop can credit a session an early finalize has already credited. */
  lemma DoubleCredit()
    ensures var s := State(true, 0, 0, [Closer(Early, Arrived), Closer(Final, Arrived)]);
      Fresh(s) && Run(s, [0, 1, 0, 1, 0, 1, 0, 1]).credits == 2 && Run(s, [0, 1, 0, 1, 0, 1, 0, 1]).markers == 1
  {
    var s := State(true, 0, 0, [Closer(Early, Arrived), Closer(Final, Arrived)]);
    var order: seq<nat> := [0, 1, 0, 1, 0, 1, 0, 1];
    forall k | 0 <= k < 8 ensures order[..k + 1][..k] == order[..k] {}
    assert order[..8] == order && order[..0] == [];
    assert Run(s, order[..1]).closers == [Closer(Early, Read(true)), Closer(Final, Arrived)];
    assert Run(s, order[..2]).closers == [Closer(Early, Read(true)), Closer(Final, Read(true))];
    assert Run(s, order[..3]) == State(false, 0, 0, [Closer(Early, Updated(true, true)), Closer(Final, Read(true))]);
    assert Run(s, order[..4]) ==
      State(false, 0, 0, [Closer(Early, Updated(true, true)), Closer(Final, Updated(true, false))]);
    assert Run(s, order[..5]) ==
      State(false, 1, 0, [Closer(Early, Marked(true, true)), Closer(Final, Updated(true, false))]);
    assert Run(s, order[..6]) ==
      State(false, 1, 0, [Closer(Early, Marked(true, true)), Closer(Final, Marked(true, false))]);
    assert Run(s, order[..7]) ==
      State(false, 1, 1, [Closer(Early, Finished(true, true)), Closer(Final, Marked(true, false))]);
  }
}
