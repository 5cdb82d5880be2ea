/**
 The text of a plan's future that the scheduler hashes, and why it can be trusted: it determines
 the remaining periods (profile.go).
 */
module Fingerprint {
  import opened Arithmetic
  import opened Spans
  import opened Plan

  function NatText(n: nat): string {
    if n < 10 then [Digit(n)] else NatText(n / 10) + [Digit(n % 10)]
  }

  function Digit(d: nat): char
    requires d < 10
  {
    "0123456789"[d]
  }

  /** Decimal text of a signed magnitude: `%d`, and `%.0f` of an already rounded value. */
  function SignedText(negative: bool, magnitude: nat): string {
    (if negative then "-" else "") + NatText(magnitude)
  }

  function IntText(n: int): string { SignedText(n < 0, if n < 0 then -n else n) }

  /** `%.0f`; a small negative power prints as -0. */
  function PowerText(power: real): string {
    var n := RoundToEven(power);
    SignedText(power < 0.0, if n < 0 then -n else n)
  }

  function PeriodText(p: Period): string {
    IntText(p.start) + ":" + IntText(p.end) + ":" + PowerText(p.value.power) + ";"
  }

  function Text(ps: seq<Period>): string {
    if ps == [] then "" else PeriodText(ps[0]) + Text(ps[1..])
  }

  /** Periods that have not ended at `now`. */
  function Remaining(ps: seq<Period>, now: int): seq<Period> {
    if ps == [] then []
    else
      var last := ps[|ps| - 1];
      Remaining(ps[..|ps| - 1], now) + if last.end > now then [last] else []
  }

  /** The text of the plan from `now` on; empty when nothing is left to do. */
  ghost function FutureText(sched: Schedule, now: int): string {
    Text(Remaining(ActiveOf(sched.slots), now))
  }

  /** `digest` stands for the truncated SHA-256. */
  method ScheduleHash(sched: Schedule, now: int, digest: string -> string) returns (hash: string)
    ensures hash == if FutureText(sched, now) == "" then "" else digest(FutureText(sched, now))
    ensures FutureText(sched, now) == "" <==> Remaining(ActiveOf(sched.slots), now) == []
  {
    var periods := ActivePeriods(sched);
    var text := "";
    for i := 0 to |periods|
      invariant text == Text(Remaining(periods[..i], now))
    {
      RemainingStep(periods, i, now);
      var p := periods[i];
      if p.end > now {
        text := text + PeriodText(p);
      }
    }
    assert periods[..|periods|] == periods;
    TextEmpty(Remaining(periods, now));
    hash := if text == "" then "" else digest(text);
  }

  lemma RemainingStep(ps: seq<Period>, i: nat, now: int)
    requires i < |ps|
    ensures Text(Remaining(ps[..i + 1], now)) ==
      Text(Remaining(ps[..i], now)) + if ps[i].end > now then PeriodText(ps[i]) else ""
  {
    assert ps[..i + 1][..i] == ps[..i];
    TextAppend(Remaining(ps[..i], now), ps[i]);
    assert Remaining(ps[..i], now) + [] == Remaining(ps[..i], now);
  }

  lemma TextEmpty(ps: seq<Period>)
    ensures Text(ps) == "" <==> ps == []
  {
    if ps != [] { assert |PeriodText(ps[0])| > 0; }
  }

  lemma {:induction false} TextAppend(ps: seq<Period>, p: Period)
    ensures Text(ps + [p]) == Text(ps) + PeriodText(p)
  {
    if ps == [] {
      assert (ps + [p])[1..] == [];
    } else {
      assert (ps + [p])[1..] == ps[1..] + [p];
      TextAppend(ps[1..], p);
      assert (PeriodText(ps[0]) + Text(ps[1..])) + PeriodText(p) == PeriodText(ps[0]) + (Text(ps[1..]) + PeriodText(p));
    }
  }

  // ----- the text determines the plan -----

  ghost predicate Numeric(s: string) {
    forall i :: 0 <= i < |s| ==> s[i] == '-' || '0' <= s[i] <= '9'
  }

  /** The number a digit string writes. */
  ghost function Value(s: string): int {
    if s == "" then 0 else 10 * Value(s[..|s| - 1]) + (s[|s| - 1] as int - '0' as int)
  }

  lemma {:induction false} NatTextValue(n: nat)
    ensures Value(NatText(n)) == n && Numeric(NatText(n)) && |NatText(n)| > 0
    ensures forall i :: 0 <= i < |NatText(n)| ==> '0' <= NatText(n)[i] <= '9'
  {
    var s := NatText(n);
    if n >= 10 {
      NatTextValue(n / 10);
      assert s[..|s| - 1] == NatText(n / 10);
    } else {
      assert s[..0] == "";
    }
  }

  lemma SignedTextInjective(neg1: bool, m1: nat, neg2: bool, m2: nat)
    requires SignedText(neg1, m1) == SignedText(neg2, m2)
    ensures neg1 == neg2 && m1 == m2
  {
    NatTextValue(m1);
    NatTextValue(m2);
    var s1, s2 := SignedText(neg1, m1), SignedText(neg2, m2);
    assert neg1 == (s1[0] == '-') && neg2 == (s2[0] == '-');
    assert NatText(m1) == if neg1 then s1[1..] else s1;
    assert NatText(m2) == if neg2 then s2[1..] else s2;
  }

  lemma SignedTextNumeric(neg: bool, m: nat)
    ensures Numeric(SignedText(neg, m))
  {
    NatTextValue(m);
  }

  /** Two texts that start with a number and a separator split the same way. */
  lemma SplitUnique(a: string, x: string, b: string, y: string, separator: char)
    requires Numeric(a) && Numeric(b) && separator in ":;"
    requires a + [separator] + x == b + [separator] + y
    ensures a == b && x == y
  {
    var s := a + [separator] + x;
    var t := b + [separator] + y;
    assert s[|a|] == separator && t[|b|] == separator;
    assert forall i :: 0 <= i < |a| ==> s[i] == a[i] && s[i] != separator;
    assert forall i :: 0 <= i < |b| ==> t[i] == b[i] && t[i] != separator;
    assert |a| == |b|;
    assert a == s[..|a|] && b == t[..|b|];
    assert x == s[|a| + 1..] && y == t[|b| + 1..];
  }

  lemma FieldsUnique(a: string, b: string, c: string, x: string, a': string, b': string, c': string, x': string)
    requires Numeric(a) && Numeric(b) && Numeric(c) && Numeric(a') && Numeric(b') && Numeric(c')
    requires a + ":" + b + ":" + c + ";" + x == a' + ":" + b' + ":" + c' + ";" + x'
    ensures a == a' && b == b' && c == c' && x == x'
  {
    assert a + ":" + b + ":" + c + ";" + x == a + [':'] + (b + [':'] + (c + [';'] + x));
    assert a' + ":" + b' + ":" + c' + ";" + x' == a' + [':'] + (b' + [':'] + (c' + [';'] + x'));
    SplitUnique(a, b + [':'] + (c + [';'] + x), a', b' + [':'] + (c' + [';'] + x'), ':');
    SplitUnique(b, c + [';'] + x, b', c' + [';'] + x', ':');
    SplitUnique(c, x, c', x', ';');
  }

  /** Same start, same end, same power to the watt. */
  predicate SameLine(p: Period, q: Period) {
    p.start == q.start && p.end == q.end && RoundToEven(p.value.power) == RoundToEven(q.value.power)
  }

  ghost predicate SameLines(ps: seq<Period>, qs: seq<Period>) {
    |ps| == |qs| && forall i :: 0 <= i < |ps| ==> SameLine(ps[i], qs[i])
  }

  lemma PeriodTextPeels(p: Period, x: string, q: Period, y: string)
    requires PeriodText(p) + x == PeriodText(q) + y
    ensures SameLine(p, q) && x == y
  {
    forall neg, m: nat { SignedTextNumeric(neg, m); }
    FieldsUnique(
      IntText(p.start), IntText(p.end), PowerText(p.value.power), x,
      IntText(q.start), IntText(q.end), PowerText(q.value.power), y);
    IntTextInjective(p.start, q.start);
    IntTextInjective(p.end, q.end);
    PowerTextInjective(p.value.power, q.value.power);
  }

  lemma IntTextInjective(m: int, n: int)
    requires IntText(m) == IntText(n)
    ensures m == n
  {
    SignedTextInjective(m < 0, if m < 0 then -m else m, n < 0, if n < 0 then -n else n);
  }

  lemma PowerTextInjective(x: real, y: real)
    requires PowerText(x) == PowerText(y)
    ensures RoundToEven(x) == RoundToEven(y)
  {
    var m, n := RoundToEven(x), RoundToEven(y);
    SignedTextInjective(x < 0.0, if m < 0 then -m else m, y < 0.0, if n < 0 then -n else n);
  }

  /** The hashed text determines every remaining period's bounds, and its power to the watt. */
  lemma {:induction false} TextInjective(ps: seq<Period>, qs: seq<Period>)
    requires Text(ps) == Text(qs)
    ensures SameLines(ps, qs)
  {
    TextEmpty(ps);
    TextEmpty(qs);
    if ps != [] {
      PeriodTextPeels(ps[0], Text(ps[1..]), qs[0], Text(qs[1..]));
      TextInjective(ps[1..], qs[1..]);
      forall i | 0 <= i < |ps|
        ensures SameLine(ps[i], qs[i])
      {
        assert i > 0 ==> SameLine(ps[1..][i - 1], qs[1..][i - 1]);
      }
    }
  }

  // ----- the text as time passes -----

  lemma {:induction false} RemainingConcat(a: seq<Period>, b: seq<Period>, now: int)
    ensures Remaining(a + b, now) == Remaining(a, now) + Remaining(b, now)
  {
    if b == [] {
      assert a + b == a;
    } else {
      var n := |b| - 1;
      assert (a + b)[..|a| + n] == a + b[..n];
      RemainingConcat(a, b[..n], now);
    }
  }

  /** Equal texts stay equal as periods end. */
  lemma {:induction false} SameTextLater(ps: seq<Period>, qs: seq<Period>, t: int)
    requires Text(ps) == Text(qs)
    ensures Text(Remaining(ps, t)) == Text(Remaining(qs, t))
  {
    TextEmpty(ps);
    TextEmpty(qs);
    if ps != [] {
      PeriodTextPeels(ps[0], Text(ps[1..]), qs[0], Text(qs[1..]));
      assert PeriodText(ps[0]) == PeriodText(qs[0]) by {
        SamePrefix(PeriodText(ps[0]), PeriodText(qs[0]), Text(ps[1..]));
      }
      SameTextLater(ps[1..], qs[1..], t);
      hide Text, Remaining, PeriodText;
      RemainingFirst(ps, t);
      RemainingFirst(qs, t);
    }
  }

  lemma SamePrefix(a: string, b: string, x: string)
    requires a + x == b + x
    ensures a == b
  {
    assert |a| == |b|;
    assert a == (a + x)[..|a|] && b == (b + x)[..|b|];
  }

  lemma RemainingFirst(ps: seq<Period>, t: int)
    requires ps != []
    ensures Text(Remaining(ps, t)) ==
      (if ps[0].end > t then PeriodText(ps[0]) else "") + Text(Remaining(ps[1..], t))
  {
    var rest := Remaining(ps[1..], t);
    assert ps == [ps[0]] + ps[1..] && [ps[0]][..0] == [];
    RemainingConcat([ps[0]], ps[1..], t);
    assert Remaining([ps[0]], t) == if ps[0].end > t then [ps[0]] else [];
    if ps[0].end > t {
      assert ([ps[0]] + rest)[0] == ps[0] && ([ps[0]] + rest)[1..] == rest;
    } else {
      assert [] + rest == rest && "" + Text(rest) == Text(rest);
    }
  }

  /** What remains of what remained. */
  lemma {:induction false} RemainingLater(ps: seq<Period>, t: int, u: int)
    requires t <= u
    ensures Remaining(Remaining(ps, t), u) == Remaining(ps, u)
  {
    if ps != [] {
      var n := |ps| - 1;
      RemainingLater(ps[..n], t, u);
      var last := if ps[n].end > t then [ps[n]] else [];
      RemainingConcat(Remaining(ps[..n], t), last, u);
      assert [ps[n]][..0] == [];
    }
  }

  /** Two plans with equal futures have equal futures later. */
  lemma FuturesStayEqual(a: seq<Period>, b: seq<Period>, t: int, u: int)
    requires t <= u && Text(Remaining(a, t)) == Text(Remaining(b, t))
    ensures Text(Remaining(a, u)) == Text(Remaining(b, u))
  {
    SameTextLater(Remaining(a, t), Remaining(b, t), u);
    RemainingLater(a, t, u);
    RemainingLater(b, t, u);
  }

  /** A future as it was at `at`, none of which has ended by `now`, is the future at `now`. */
  lemma FutureUnended(a: seq<Period>, at: int, b: seq<Period>, now: int)
    requires at <= now && Text(Remaining(a, at)) == Text(Remaining(b, now))
    ensures Text(Remaining(a, now)) == Text(Remaining(b, now))
  {
    SameTextLater(Remaining(a, at), Remaining(b, now), now);
    RemainingLater(a, at, now);
    RemainingLater(b, now, now);
  }

  lemma LengthShows(ps: seq<Period>, qs: seq<Period>)
    requires |ps| != |qs|
    ensures Text(ps) != Text(qs)
  {
    if Text(ps) == Text(qs) { TextInjective(ps, qs); }
  }

  /** Cutting periods out of a plan changes its future exactly if one of them has not ended. */
  lemma CutChangesFuture(a: seq<Period>, b: seq<Period>, c: seq<Period>, t: int)
    ensures Text(Remaining(a + b + c, t)) == Text(Remaining(a + c, t)) <==> Remaining(b, t) == []
  {
    RemainingConcat(a + b, c, t);
    RemainingConcat(a, b, t);
    RemainingConcat(a, c, t);
    var ra, rb, rc := Remaining(a, t), Remaining(b, t), Remaining(c, t);
    hide Remaining;
    if rb == [] {
      assert ra + rb + rc == ra + rc;
    } else {
      LengthShows(ra + rb + rc, ra + rc);
    }
  }
}
