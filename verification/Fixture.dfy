/** The circle method (internal/fixture/generator.go) and the double round-robin it yields. */
module Fixture {
  import opened Seqs
  import opened Domain

  /** What the service hands the generator: an even number of at least four different teams. */
  ghost predicate IsWheel(wheel: seq<nat>) {
    |wheel| >= 4 && |wheel| % 2 == 0 && NoDuplicates(wheel)
  }

  // ----- where a slot of the starting wheel sits after r rotations (m == n - 1, r <= m)

  /** The starting slot found at position i after r rotations; position 0 is never moved. */
  function Slot(i: nat, r: nat, m: nat): nat
    requires i <= m && r <= m
  {
    if i == 0 then 0 else if i > r then i - r else i + m - r
  }

  /** The position of starting slot s after r rotations. */
  function Position(s: nat, r: nat, m: nat): nat
    requires s <= m && r <= m
  {
    if s == 0 then 0 else if s + r <= m then s + r else s + r - m
  }

  function WheelAt(wheel: seq<nat>, r: nat): (w: seq<nat>)
    requires wheel != [] && r < |wheel|
    ensures |w| == |wheel|
  {
    seq(|wheel|, i requires 0 <= i < |wheel| => wheel[Slot(i, r, |wheel| - 1)])
  }

  // ----- the schedule

  /** Entry q of a round: pair q / 2 of the wheel, first leg when q is even, return leg when odd. */
  function Leg(wheel: seq<nat>, r: nat, q: nat): Match
    requires q < |wheel| && r < |wheel|
  {
    var m := |wheel| - 1;
    var w := WheelAt(wheel, r);
    if q % 2 == 0 then Match(0, 0, r + 1, w[q / 2], w[m - q / 2], Scheduled)
    else Match(0, 0, r + 1 + m, w[m - q / 2], w[q / 2], Scheduled)
  }

  function Round(wheel: seq<nat>, r: nat): (ms: seq<Match>)
    requires r < |wheel|
  {
    seq(|wheel|, q requires 0 <= q < |wheel| => Leg(wheel, r, q))
  }

  function RoundList(wheel: seq<nat>, r: nat): (rs: seq<seq<Match>>)
    requires r <= |wheel|
  {
    seq(r, k requires 0 <= k < r && r <= |wheel| => Round(wheel, k))
  }

  function Rounds(wheel: seq<nat>, r: nat): seq<Match>
    requires r <= |wheel|
  {
    Flatten(RoundList(wheel, r))
  }

  function Schedule(wheel: seq<nat>): seq<Match>
    requires wheel != []
  {
    Rounds(wheel, |wheel| - 1)
  }

  lemma {:induction false} RoundsStep(wheel: seq<nat>, r: nat)
    requires r < |wheel|
    ensures Rounds(wheel, r + 1) == Rounds(wheel, r) + Round(wheel, r)
  {
    assert RoundList(wheel, r + 1)[..r] == RoundList(wheel, r);
  }

  // ----- the seeded shuffle

  function Swap(s: seq<nat>, i: nat, j: nat): (t: seq<nat>)
    requires i < |s| && j < |s|
    ensures |t| == |s|
  {
    s[i := s[j]][j := s[i]]
  }

  /** The element exchanged with element i: one of 0..i. */
  function Pick(draw: nat -> nat, i: nat): (j: nat)
    ensures j <= i
  {
    draw(i) % (i + 1)
  }

  /** Fisher-Yates from the top: element i is exchanged with one of the elements 0..i. */
  function ShuffleFrom(s: seq<nat>, i: nat, draw: nat -> nat): (t: seq<nat>)
    requires i < |s|
    ensures |t| == |s|
    decreases i
  {
    if i == 0 then s else ShuffleFrom(Swap(s, i, Pick(draw, i)), i - 1, draw)
  }

  function Shuffled(s: seq<nat>, draw: nat -> nat): (t: seq<nat>)
    ensures |t| == |s|
  {
    if s == [] then [] else ShuffleFrom(s, |s| - 1, draw)
  }

  /** Whatever the generator draws, the wheel holds the teams it was given, each once. */
  lemma {:induction false} ShuffledPermutes(s: seq<nat>, draw: nat -> nat)
    ensures multiset(Shuffled(s, draw)) == multiset(s)
  {
    if s != [] { ShuffleFromPermutes(s, |s| - 1, draw); }
  }

  lemma {:induction false} ShuffleFromPermutes(s: seq<nat>, i: nat, draw: nat -> nat)
    requires i < |s|
    ensures multiset(ShuffleFrom(s, i, draw)) == multiset(s)
    decreases i
  {
    if i > 0 {
      var j := Pick(draw, i);
      assert multiset(Swap(s, i, j)) == multiset(s);
      ShuffleFromPermutes(Swap(s, i, j), i - 1, draw);
    }
  }

  lemma {:induction false} ShuffledIsWheel(s: seq<nat>, draw: nat -> nat)
    requires IsWheel(s)
    ensures IsWheel(Shuffled(s, draw))
    ensures forall x :: x in Shuffled(s, draw) <==> x in s
  {
    ShuffledPermutes(s, draw);
    var t := Shuffled(s, draw);
    assert forall x :: x in t <==> x in multiset(t);
    assert forall x :: x in s <==> x in multiset(s);
  }

  /** The elements above i are where the shuffle leaves them, and the one drawn first is at i. */
  lemma {:induction false} UpperStands(s: seq<nat>, i: nat, draw: nat -> nat)
    requires i < |s|
    ensures forall k :: i < k < |s| ==> ShuffleFrom(s, i, draw)[k] == s[k]
    ensures ShuffleFrom(s, i, draw)[i] == s[draw(i) % (i + 1)]
    decreases i
  {
    if i > 0 { UpperStands(Swap(s, i, Pick(draw, i)), i - 1, draw); }
  }

  lemma {:induction false} SameDraws(s: seq<nat>, i: nat, d: nat -> nat, e: nat -> nat)
    requires i < |s| && forall k :: 0 < k <= i ==> d(k) == e(k)
    ensures ShuffleFrom(s, i, d) == ShuffleFrom(s, i, e)
    decreases i
  {
    if i > 0 { SameDraws(Swap(s, i, Pick(d, i)), i - 1, d, e); }
  }

  /** The element that belongs at i is one of the elements 0..i. */
  lemma {:induction false} Somewhere(s: seq<nat>, t: seq<nat>, i: nat) returns (j: nat)
    requires i < |s| && multiset(s) == multiset(t) && |s| == |t| && forall k :: i < k < |s| ==> s[k] == t[k]
    ensures j <= i && s[j] == t[i]
  {
    var lo, hi := t[..i + 1], t[i + 1..];
    assert s[i + 1..] == hi && s == s[..i + 1] + hi && t == lo + hi;
    assert multiset(s) == multiset(s[..i + 1]) + multiset(hi) && multiset(t) == multiset(lo) + multiset(hi);
    assert multiset(s[..i + 1]) == multiset(s) - multiset(hi);
    assert t[i] in multiset(lo) && t[i] in multiset(s[..i + 1]);
    j :| 0 <= j < |s[..i + 1]| && s[..i + 1][j] == t[i];
  }

  lemma {:induction false} NoneToShuffle(s: seq<nat>, draw: nat -> nat)
    requires s != []
    ensures ShuffleFrom(s, 0, draw) == s
  {
  }

  lemma {:induction false} ExchangeStep(s: seq<nat>, i: nat, draw: nat -> nat, j: nat)
    requires i < |s| && draw(i) == j <= i
    ensures i > 0 ==> ShuffleFrom(s, i, draw) == ShuffleFrom(Swap(s, i, j), i - 1, draw)
    ensures Swap(s, i, j)[i] == s[j] && forall k :: i < k < |s| ==> Swap(s, i, j)[k] == s[k]
    ensures multiset(Swap(s, i, j)) == multiset(s)
  {
    Within(draw(i), i + 1);
    assert Pick(draw, i) == j;
    hide Pick;
  }

  lemma {:induction false} Within(x: nat, n: nat)
    requires x < n
    ensures x % n == x
  {
  }

  lemma {:induction false} DrawnFirst(s: seq<nat>, i: nat, draw: nat -> nat)
    requires i < |s| && draw(i) <= i
    ensures ShuffleFrom(s, i, draw)[i] == s[draw(i)]
  {
    hide ShuffleFrom;
    UpperStands(s, i, draw);
    Within(draw(i), i + 1);
  }

  lemma {:induction false} DrawsInto(s: seq<nat>, t: seq<nat>, i: nat) returns (draw: nat -> nat)
    requires i < |s| && multiset(s) == multiset(t) && |s| == |t| && forall k :: i < k < |s| ==> s[k] == t[k]
    ensures ShuffleFrom(s, i, draw) == t && forall k :: 0 < k <= i ==> draw(k) <= k
    decreases i
  {
    hide ShuffleFrom, Swap;
    var j := Somewhere(s, t, i);
    if i == 0 {
      draw := _ => 0;
      assert s == t && ShuffleFrom(s, 0, draw) == s by { NoneToShuffle(s, draw); }
    } else {
      ExchangeStep(s, i, k => j, j);
      var rest := DrawsInto(Swap(s, i, j), t, i - 1);
      draw := k => if k == i then j else rest(k);
      SameDraws(Swap(s, i, j), i - 1, draw, rest);
      ExchangeStep(s, i, draw, j);
    }
  }

  /** The shuffle can bring the teams into every order: some draws, one of 0..i for element i, lead to it. */
  lemma {:induction false} EveryOrderDrawn(s: seq<nat>, t: seq<nat>) returns (draw: nat -> nat)
    requires multiset(s) == multiset(t)
    ensures Shuffled(s, draw) == t
    ensures forall i :: 0 < i < |s| ==> draw(i) <= i
  {
    assert |s| == |multiset(s)| && |t| == |multiset(t)|;
    if s == [] { draw := _ => 0; } else { draw := DrawsInto(s, t, |s| - 1); }
  }

  lemma {:induction false} DrawsDiffer(s: seq<nat>, i: nat, d: nat -> nat, e: nat -> nat, k: nat)
    requires i < |s| && NoDuplicates(s) && ShuffleFrom(s, i, d) == ShuffleFrom(s, i, e)
    requires forall k :: 0 < k <= i ==> d(k) <= k && e(k) <= k
    requires 0 < k <= i
    ensures d(k) == e(k)
    decreases i
  {
    hide ShuffleFrom, Swap;
    DrawnFirst(s, i, d);
    DrawnFirst(s, i, e);
    if d(i) != e(i) { Distinct(s, d(i), e(i)); }
    if k < i {
      ExchangeStep(s, i, d, d(i));
      ExchangeStep(s, i, e, d(i));
      DrawsDiffer(Swap(s, i, d(i)), i - 1, d, e, k);
    }
  }

  /** And no order is drawn in two ways, so draws that are all alike likely make the orders so. */
  lemma {:induction false} DrawsDetermined(s: seq<nat>, d: nat -> nat, e: nat -> nat)
    requires NoDuplicates(s) && forall i :: 0 < i < |s| ==> d(i) <= i && e(i) <= i
    ensures Shuffled(s, d) == Shuffled(s, e) <==> forall i :: 0 < i < |s| ==> d(i) == e(i)
  {
    if s != [] {
      if Shuffled(s, d) == Shuffled(s, e) {
        forall i | 0 < i < |s| ensures d(i) == e(i) { DrawsDiffer(s, |s| - 1, d, e, i); }
      }
      if forall i :: 0 < i < |s| ==> d(i) == e(i) { SameDraws(s, |s| - 1, d, e); }
    }
  }

  method Shuffle(a: array<nat>, draw: nat -> nat)
    modifies a
    ensures a[..] == Shuffled(old(a[..]), draw)
  {
    if a.Length == 0 { return; }
    ghost var shuffled := Shuffled(a[..], draw);
    var i := a.Length - 1;
    while i > 0
      invariant 0 <= i < a.Length
      invariant ShuffleFrom(a[..], i, draw) == shuffled
    {
      Exchange(a, i, Pick(draw, i));
      i := i - 1;
    }
  }

  method Exchange(a: array<nat>, i: nat, j: nat)
    requires i < a.Length && j < a.Length
    modifies a
    ensures a[..] == Swap(old(a[..]), i, j)
  {
    a[i], a[j] := a[j], a[i];
  }

  // ----- the generator

  /** wheel[0] stays, the rest moves one place to the right, the last element wraps to position 1. */
  function Rotated(w: seq<nat>): seq<nat>
    requires |w| >= 2
  {
    [w[0], w[|w| - 1]] + w[1..|w| - 1]
  }

  lemma {:induction false} RotatedWheel(wheel: seq<nat>, r: nat)
    requires |wheel| >= 2 && r < |wheel| - 1
    ensures Rotated(WheelAt(wheel, r)) == WheelAt(wheel, r + 1)
  {
  }

  lemma {:induction false} RotatedAt(w: seq<nat>, t: seq<nat>)
    requires |w| == |t| >= 2 && t[0] == w[0] && t[1] == w[|w| - 1] && forall i :: 1 < i < |w| ==> t[i] == w[i - 1]
    ensures t == Rotated(w)
  {
  }

  method Rotate(wheel: array<nat>)
    requires wheel.Length >= 2
    modifies wheel
    ensures wheel[..] == Rotated(old(wheel[..]))
  {
    hide Rotated;
    ghost var was := wheel[..];
    var n := wheel.Length;
    var last := wheel[n - 1];
    var k := n - 1;
    while k > 1
      invariant 1 <= k <= n - 1
      invariant forall i :: 0 <= i <= k && i < n - 1 ==> wheel[i] == was[i]
      invariant forall i :: k < i < n ==> wheel[i] == was[i - 1]
    {
      wheel[k] := wheel[k - 1];
      k := k - 1;
    }
    wheel[1] := last;
    RotatedAt(was, wheel[..]);
  }

  method Generate(teamIDs: seq<nat>, draw: nat -> nat) returns (matches: seq<Match>)
    ensures |teamIDs| < 4 || |teamIDs| % 2 != 0 ==> matches == []
    ensures |teamIDs| >= 4 && |teamIDs| % 2 == 0 ==> matches == Schedule(Shuffled(teamIDs, draw))
  {
    var n := |teamIDs|;
    if n < 4 || n % 2 != 0 { return []; }
    var wheel := new nat[n](i requires 0 <= i < n => teamIDs[i]);
    assert wheel[..] == teamIDs;
    Shuffle(wheel, draw);
    ghost var start := wheel[..];
    var rounds := n - 1;
    matches := [];
    assert wheel[..] == WheelAt(start, 0);
    for r := 0 to rounds
      invariant wheel[..] == WheelAt(start, r)
      invariant matches == Rounds(start, r)
    {
      matches := PairUp(wheel, r, matches, start);
      RoundsStep(start, r);
      Rotate(wheel);
      RotatedWheel(start, r);
    }
  }

  /** The inner loop: both legs of every pair of the wheel. */
  method PairUp(wheel: array<nat>, r: nat, before: seq<Match>, ghost start: seq<nat>) returns (matches: seq<Match>)
    requires |start| >= 4 && |start| % 2 == 0 && r < |start| - 1
    requires wheel[..] == WheelAt(start, r)
    ensures matches == before + Round(start, r)
  {
    var n := wheel.Length;
    var week, rounds, perRound := r + 1, n - 1, n / 2;
    matches := before;
    for i := 0 to perRound
      invariant matches == before + Round(start, r)[..2 * i]
    {
      var home, away := wheel[i], wheel[n - 1 - i];
      matches := matches + [Match(0, 0, week, home, away, Scheduled)];
      matches := matches + [Match(0, 0, week + rounds, away, home, Scheduled)];
    }
    assert Round(start, r)[..2 * perRound] == Round(start, r);
  }

  // ----- the round in which two slots meet

  ghost predicate Meet(s: nat, t: nat, r: nat, m: nat)
    requires s <= m && t <= m && r <= m
  {
    Position(s, r, m) + Position(t, r, m) == m
  }

  function RotatedTimes(w: seq<nat>, r: nat): (t: seq<nat>)
    requires |w| >= 2
    ensures |t| == |w|
  {
    if r == 0 then w else Rotated(RotatedTimes(w, r - 1))
  }

  /** r single rotations put every slot where the closed form says. */
  lemma {:induction false} RotationsAreSlots(wheel: seq<nat>, r: nat)
    requires |wheel| >= 2 && r < |wheel|
    ensures RotatedTimes(wheel, r) == WheelAt(wheel, r)
  {
    if r > 0 {
      RotationsAreSlots(wheel, r - 1);
      RotatedWheel(wheel, r - 1);
    }
  }

  /** After n - 1 rotations the wheel is back where it started. */
  lemma {:induction false} WheelReturns(wheel: seq<nat>)
    requires |wheel| >= 2
    ensures RotatedTimes(wheel, |wheel| - 1) == wheel
  {
    hide RotatedTimes, WheelAt;
    RotationsAreSlots(wheel, |wheel| - 1);
    LastWheel(wheel);
  }

  lemma {:induction false} LastWheel(wheel: seq<nat>)
    requires |wheel| >= 2
    ensures WheelAt(wheel, |wheel| - 1) == wheel
  {
    var m := |wheel| - 1;
    forall i | 0 <= i <= m ensures Slot(i, m, m) == i {
    }
  }

  /** The offset form: position i holds original slot 1 + ((i - 1 - r) mod (n - 1)). */
  lemma {:induction false} SlotIsModular(i: nat, r: nat, m: nat)
    requires 1 <= i <= m && r <= m
    ensures Slot(i, r, m) == 1 + (i - 1 - r) % m
    ensures Position(Slot(i, r, m), r, m) == i
  {
    var x := i - 1 - r;
    if x < 0 {
      ModUnique(x, m, -1, x + m);
    } else {
      ModUnique(x, m, 0, x);
    }
  }

  lemma {:induction false} ModUnique(x: int, m: int, q: int, rem: int)
    requires m > 0 && x == q * m + rem && 0 <= rem < m
    ensures x % m == rem
  {
    var d := x / m - q;
    assert d * m == rem - x % m by {
      assert x == (x / m) * m + x % m;
      assert d * m == (x / m) * m - q * m;
    }
    assert d >= 1 ==> d * m >= m;
    assert d <= -1 ==> d * m <= -m;
  }

  function MeetingRound(s: nat, t: nat, m: nat): int {
    if s == 0 then m - t
    else if t == 0 then m - s
    else if (s + t) % 2 == 0 then (2 * m - s - t) / 2
    else if s + t <= m then (m - s - t) / 2
    else (3 * m - s - t) / 2
  }

  /** Two different slots meet in exactly one of the m rounds; m odd makes 2 invertible. */
  lemma {:induction false} MeetOnce(s: nat, t: nat, r: nat, m: nat)
    requires m % 2 == 1 && s <= m && t <= m && s != t && r < m
    ensures 0 <= MeetingRound(s, t, m) < m
    ensures Meet(s, t, r, m) <==> r == MeetingRound(s, t, m)
  {
    TheyMeet(s, t, m);
  }

  lemma {:induction false} TheyMeet(s: nat, t: nat, m: nat)
    requires m % 2 == 1 && s <= m && t <= m && s != t
    ensures 0 <= MeetingRound(s, t, m) < m && Meet(s, t, MeetingRound(s, t, m), m)
  {
  }

  // ----- counting over a round and over the schedule

  function Pairing(home: nat, away: nat): Match -> bool {
    (x: Match) => x.home == home && x.away == away
  }

  function AtHome(team: nat): Match -> bool {
    (x: Match) => x.home == team
  }

  function Visiting(team: nat): Match -> bool {
    (x: Match) => x.away == team
  }

  function OfWeek(week: int): Match -> bool {
    (x: Match) => x.week == week
  }

  function OfTeamInWeek(team: nat, week: int): Match -> bool {
    (x: Match) => x.week == week && x.Involves(team)
  }

  function OfTeamUpTo(team: nat, week: int): Match -> bool {
    (x: Match) => x.week <= week && x.Involves(team)
  }

  /** Where slot s plays in round r: entry 2i of the round is pair i's first leg, 2i + 1 its return. */
  function EntryOf(s: nat, r: nat, m: nat, first: bool): nat
    requires s <= m && r <= m
  {
    var p := Position(s, r, m);
    2 * (if 2 * p < m then p else m - p) + if first then 0 else 1
  }

  /** The entry in which slot s is at home: the first leg from the front half of the wheel, the return from the back. */
  function FirstOrReturn(s: nat, r: nat, m: nat): nat
    requires s <= m && r <= m
  {
    EntryOf(s, r, m, 2 * Position(s, r, m) < m)
  }

  /** Which teams entry q of a round joins, in terms of their slots. */
  lemma {:induction false} LegTeams(wheel: seq<nat>, r: nat, q: nat, s: nat)
    requires IsWheel(wheel) && r < |wheel| - 1 && q < |wheel| && s < |wheel|
    ensures var m := |wheel| - 1; var p := Position(s, r, m);
            && (Leg(wheel, r, q).home == wheel[s] <==> p == if q % 2 == 0 then q / 2 else m - q / 2)
            && (Leg(wheel, r, q).away == wheel[s] <==> p == if q % 2 == 0 then m - q / 2 else q / 2)
            && Leg(wheel, r, q).home != Leg(wheel, r, q).away
  {
    var m := |wheel| - 1;
    var a, b := Slot(q / 2, r, m), Slot(m - q / 2, r, m);
    Distinct(wheel, a, b);
    if a != s { Distinct(wheel, a, s); }
    if b != s { Distinct(wheel, b, s); }
  }

  /** Entry q joins the positions q / 2 and m - q / 2, the odd entries the other way round. */
  predicate Joins(p: nat, p': nat, m: nat, q: nat) {
    if q % 2 == 0 then p == q / 2 && p' == m - q / 2 else p == m - q / 2 && p' == q / 2
  }

  lemma {:induction false} LegJoins(wheel: seq<nat>, r: nat, s: nat, t: nat, q: nat)
    requires IsWheel(wheel) && r < |wheel| - 1 && s < |wheel| && t < |wheel| && q < |wheel|
    ensures Leg(wheel, r, q).home == wheel[s] && Leg(wheel, r, q).away == wheel[t] <==>
            Joins(Position(s, r, |wheel| - 1), Position(t, r, |wheel| - 1), |wheel| - 1, q)
  {
    LegTeams(wheel, r, q, s);
    LegTeams(wheel, r, q, t);
  }

  lemma {:induction false} PairingArithmetic(s: nat, t: nat, r: nat, m: nat, q: nat)
    requires m % 2 == 1 && s <= m && t <= m && s != t && r < m && q <= m
    ensures Joins(Position(s, r, m), Position(t, r, m), m, q) <==>
            r == MeetingRound(s, t, m) && q == FirstOrReturn(s, r, m)
  {
    MeetOnce(s, t, r, m);
  }

  lemma {:induction false} LegPairing(wheel: seq<nat>, r: nat, s: nat, t: nat, q: nat)
    requires IsWheel(wheel) && r < |wheel| - 1 && s < |wheel| && t < |wheel| && s != t && q < |wheel|
    ensures Leg(wheel, r, q).home == wheel[s] && Leg(wheel, r, q).away == wheel[t] <==>
            && r == MeetingRound(s, t, |wheel| - 1)
            && q == FirstOrReturn(s, r, |wheel| - 1)
  {
    var m, x := |wheel| - 1, Leg(wheel, r, q);
    var joins := Joins(Position(s, r, m), Position(t, r, m), m, q);
    assert x.home == wheel[s] && x.away == wheel[t] <==> joins by { LegJoins(wheel, r, s, t, q); }
    assert joins <==> r == MeetingRound(s, t, m) && q == FirstOrReturn(s, r, m) by {
      PairingArithmetic(s, t, r, m, q);
    }
  }

  lemma {:induction false} RoundPairing(wheel: seq<nat>, r: nat, s: nat, t: nat)
    requires IsWheel(wheel) && r < |wheel| - 1 && s < |wheel| && t < |wheel| && s != t
    ensures Count(Round(wheel, r), Pairing(wheel[s], wheel[t])) ==
            if r == MeetingRound(s, t, |wheel| - 1) then 1 else 0
  {
    var ms, p := Round(wheel, r), Pairing(wheel[s], wheel[t]);
    var k := FirstOrReturn(s, r, |wheel| - 1);
    forall q | 0 <= q < |ms|
      ensures p(ms[q]) <==> r == MeetingRound(s, t, |wheel| - 1) && q == k
    {
      LegPairing(wheel, r, s, t, q);
    }
    if r == MeetingRound(s, t, |wheel| - 1) {
      CountUnique(ms, p, k);
    } else {
      CountNone(ms, p);
    }
  }

  lemma {:induction false} RoundHome(wheel: seq<nat>, r: nat, team: nat)
    requires IsWheel(wheel) && r < |wheel| - 1 && team in wheel
    ensures Count(Round(wheel, r), AtHome(team)) == 1
  {
    var m := |wheel| - 1;
    var ms, p := Round(wheel, r), AtHome(team);
    var s :| 0 <= s < |wheel| && wheel[s] == team;
    var k := FirstOrReturn(s, r, m);
    forall q | 0 <= q < |ms| ensures p(ms[q]) <==> q == k {
      LegTeams(wheel, r, q, s);
    }
    CountUnique(ms, p, k);
  }

  lemma {:induction false} RoundTeamWeek(wheel: seq<nat>, r: nat, s: nat, week: int)
    requires IsWheel(wheel) && r < |wheel| - 1 && s < |wheel|
    ensures Count(Round(wheel, r), OfTeamInWeek(wheel[s], week)) ==
            if week == r + 1 || week == r + |wheel| then 1 else 0
  {
    var m := |wheel| - 1;
    var ms, p := Round(wheel, r), OfTeamInWeek(wheel[s], week);
    var k := EntryOf(s, r, m, week == r + 1);
    forall q | 0 <= q < |ms|
      ensures p(ms[q]) <==> (week == r + 1 || week == r + |wheel|) && q == k
    {
      LegTeams(wheel, r, q, s);
    }
    if week == r + 1 || week == r + |wheel| {
      CountUnique(ms, p, k);
    } else {
      CountNone(ms, p);
    }
  }

  lemma {:induction false} RoundWeek(wheel: seq<nat>, r: nat, week: int, k: nat)
    requires r < |wheel| - 1 && 2 * k <= |wheel|
    ensures Count(Round(wheel, r)[..2 * k], OfWeek(week)) ==
            if week == r + 1 || week == r + |wheel| then k else 0
  {
    if k > 0 {
      RoundWeek(wheel, r, week, k - 1);
      PairWeek(wheel, r, week, k - 1);
    }
  }

  lemma {:induction false} PairWeek(wheel: seq<nat>, r: nat, week: int, i: nat)
    requires r < |wheel| - 1 && 2 * i + 1 < |wheel|
    ensures Count(Round(wheel, r)[..2 * (i + 1)], OfWeek(week)) ==
            Count(Round(wheel, r)[..2 * i], OfWeek(week)) + if week == r + 1 || week == r + |wheel| then 1 else 0
  {
    var m, w := |wheel| - 1, WheelAt(wheel, r);
    var before, after := Round(wheel, r)[..2 * i], Round(wheel, r)[..2 * (i + 1)];
    var x, y := Match(0, 0, r + 1, w[i], w[m - i], Scheduled), Match(0, 0, r + 1 + m, w[m - i], w[i], Scheduled);
    assert after == before + [x, y];
    CountPair(before, x, y, OfWeek(week));
  }

  /** A condition met c times in round k and nowhere else is met c times in the whole schedule. */
  lemma {:induction false} ScheduleCount(wheel: seq<nat>, p: Match -> bool, k: nat, c: nat)
    requires k < |wheel| - 1
    requires forall j :: 0 <= j < |wheel| - 1 ==> Count(Round(wheel, j), p) == if j == k then c else 0
    ensures Count(Schedule(wheel), p) == c
  {
    var rs := RoundList(wheel, |wheel| - 1);
    forall j | 0 <= j < |rs| ensures Count(rs[j], p) == if j == k then c else 0 {
      assert rs[j] == Round(wheel, j);
    }
    CountFlattenIn(rs, p, k, c);
  }

  lemma {:induction false} OncePerRound(wheel: seq<nat>, p: Match -> bool)
    requires wheel != []
    requires forall j :: 0 <= j < |wheel| - 1 ==> Count(Round(wheel, j), p) == 1
    ensures Count(Schedule(wheel), p) == |wheel| - 1
  {
    var rs := RoundList(wheel, |wheel| - 1);
    forall j | 0 <= j < |rs| ensures Count(rs[j], p) == 1 {
      assert rs[j] == Round(wheel, j);
    }
    CountFlattenOnes(rs, p);
  }

  // ----- the theorems about the schedule

  /** Double round-robin: every ordered pair of different teams is scheduled exactly once. */
  lemma {:induction false} EveryPairingOnce(wheel: seq<nat>, home: nat, away: nat)
    requires IsWheel(wheel) && home in wheel && away in wheel && home != away
    ensures Count(Schedule(wheel), Pairing(home, away)) == 1
  {
    var m := |wheel| - 1;
    var s :| 0 <= s < |wheel| && wheel[s] == home;
    var t :| 0 <= t < |wheel| && wheel[t] == away;
    forall j | 0 <= j < m
      ensures Count(Round(wheel, j), Pairing(home, away)) == if j == MeetingRound(s, t, m) then 1 else 0
    {
      RoundPairing(wheel, j, s, t);
    }
    MeetOnce(s, t, 0, m);
    ScheduleCount(wheel, Pairing(home, away), MeetingRound(s, t, m), 1);
  }

  /** Each team plays exactly one match in each of the 2(n - 1) weeks. */
  lemma {:induction false} EveryTeamOncePerWeek(wheel: seq<nat>, team: nat, week: int)
    requires IsWheel(wheel) && team in wheel && 1 <= week <= 2 * (|wheel| - 1)
    ensures Count(Schedule(wheel), OfTeamInWeek(team, week)) == 1
  {
    var m := |wheel| - 1;
    var s :| 0 <= s < |wheel| && wheel[s] == team;
    var k := if week <= m then week - 1 else week - 1 - m;
    forall j | 0 <= j < m
      ensures Count(Round(wheel, j), OfTeamInWeek(team, week)) == if j == k then 1 else 0
    {
      RoundTeamWeek(wheel, j, s, week);
    }
    ScheduleCount(wheel, OfTeamInWeek(team, week), k, 1);
  }

  /** Each week holds n / 2 matches. */
  lemma {:induction false} EveryWeekFull(wheel: seq<nat>, week: int)
    requires IsWheel(wheel) && 1 <= week <= 2 * (|wheel| - 1)
    ensures Count(Schedule(wheel), OfWeek(week)) == |wheel| / 2
  {
    var m := |wheel| - 1;
    var k := if week <= m then week - 1 else week - 1 - m;
    forall j | 0 <= j < m
      ensures Count(Round(wheel, j), OfWeek(week)) == if j == k then |wheel| / 2 else 0
    {
      RoundWeek(wheel, j, week, |wheel| / 2);
      assert Round(wheel, j)[..2 * (|wheel| / 2)] == Round(wheel, j);
    }
    ScheduleCount(wheel, OfWeek(week), k, |wheel| / 2);
  }

  /** Each team is at home in half of its matches. */
  lemma {:induction false} EveryTeamHalfAtHome(wheel: seq<nat>, team: nat)
    requires IsWheel(wheel) && team in wheel
    ensures Count(Schedule(wheel), AtHome(team)) == |wheel| - 1
  {
    forall j | 0 <= j < |wheel| - 1 ensures Count(Round(wheel, j), AtHome(team)) == 1 {
      RoundHome(wheel, j, team);
    }
    OncePerRound(wheel, AtHome(team));
  }

  /** After K weeks every team has K matches behind it. */
  lemma {:induction false} MatchesUpTo(wheel: seq<nat>, team: nat, week: nat)
    requires IsWheel(wheel) && team in wheel && week <= 2 * (|wheel| - 1)
    ensures Count(Schedule(wheel), OfTeamUpTo(team, week)) == week
  {
    ScheduleShape(wheel);
    if week == 0 {
      CountNone(Schedule(wheel), OfTeamUpTo(team, 0));
    } else {
      MatchesUpTo(wheel, team, week - 1);
      EveryTeamOncePerWeek(wheel, team, week);
      CountSplit(Schedule(wheel), OfTeamUpTo(team, week - 1), OfTeamInWeek(team, week), OfTeamUpTo(team, week));
    }
  }

  /** And away in the other half. */
  lemma {:induction false} EveryTeamHalfAway(wheel: seq<nat>, team: nat)
    requires IsWheel(wheel) && team in wheel
    ensures Count(Schedule(wheel), Visiting(team)) == |wheel| - 1
  {
    var last := 2 * (|wheel| - 1);
    ScheduleShape(wheel);
    MatchesUpTo(wheel, team, last);
    EveryTeamHalfAtHome(wheel, team);
    CountSplit(Schedule(wheel), AtHome(team), Visiting(team), OfTeamUpTo(team, last));
  }

  /** Every entry joins two different teams of the wheel in a week of the season. */
  lemma {:induction false} ScheduleShape(wheel: seq<nat>)
    requires IsWheel(wheel)
    ensures forall x :: x in Schedule(wheel) ==>
              && 1 <= x.week <= 2 * (|wheel| - 1) && x.outcome == Scheduled
              && x.home in wheel && x.away in wheel && x.home != x.away
  {
    forall x | x in Schedule(wheel)
      ensures && 1 <= x.week <= 2 * (|wheel| - 1) && x.outcome == Scheduled
              && x.home in wheel && x.away in wheel && x.home != x.away
    {
      var r, q := RoundOf(wheel, x);
      LegTeams(wheel, r, q, 0);
    }
  }

  lemma {:induction false} RoundOf(wheel: seq<nat>, x: Match) returns (r: nat, q: nat)
    requires wheel != [] && x in Schedule(wheel)
    ensures r < |wheel| - 1 && q < |wheel| && x == Leg(wheel, r, q)
  {
    InFlatten(RoundList(wheel, |wheel| - 1), x);
    r :| 0 <= r < |wheel| - 1 && x in RoundList(wheel, |wheel| - 1)[r];
    q :| 0 <= q < |wheel| && Round(wheel, r)[q] == x;
  }

  /** The slots an entry of the schedule joins, and the week those slots dictate. */
  lemma {:induction false} Located(wheel: seq<nat>, x: Match) returns (s: nat, t: nat)
    requires IsWheel(wheel) && x in Schedule(wheel)
    ensures s < |wheel| && t < |wheel| && s != t && wheel[s] == x.home && wheel[t] == x.away
    ensures 0 <= MeetingRound(s, t, |wheel| - 1) < |wheel| - 1
    ensures x.week == WeekOfSlots(s, t, |wheel| - 1)
  {
    var r, q := RoundOf(wheel, x);
    s, t := SlotsOf(wheel, r, q);
    LegPairing(wheel, r, s, t, q);
  }

  function WeekOfSlots(s: nat, t: nat, m: nat): int
    requires s <= m && t <= m && 0 <= MeetingRound(s, t, m) <= m
  {
    var r := MeetingRound(s, t, m);
    r + 1 + if 2 * Position(s, r, m) < m then 0 else m
  }

  lemma {:induction false} SlotsOf(wheel: seq<nat>, r: nat, q: nat) returns (s: nat, t: nat)
    requires IsWheel(wheel) && r < |wheel| - 1 && q < |wheel|
    ensures s < |wheel| && t < |wheel| && s != t
    ensures wheel[s] == Leg(wheel, r, q).home && wheel[t] == Leg(wheel, r, q).away
  {
    var m := |wheel| - 1;
    s, t := Slot(q / 2, r, m), Slot(m - q / 2, r, m);
    if q % 2 == 1 { s, t := t, s; }
  }

  /** The two legs of a pair lie exactly n - 1 weeks apart. */
  lemma {:induction false} LegsApart(wheel: seq<nat>, x: Match, y: Match)
    requires IsWheel(wheel) && x in Schedule(wheel) && y in Schedule(wheel)
    requires x.home == y.away && x.away == y.home
    ensures x.week == y.week + |wheel| - 1 || y.week == x.week + |wheel| - 1
  {
    hide Schedule, WeekOfSlots, MeetingRound;
    var s, t := Located(wheel, x);
    var t', s' := Located(wheel, y);
    assert s == s' by { if s != s' { Distinct(wheel, s, s'); } }
    assert t == t' by { if t != t' { Distinct(wheel, t, t'); } }
    OppositeWeeks(s, t, |wheel| - 1);
  }

  lemma {:induction false} OppositeWeeks(s: nat, t: nat, m: nat)
    requires m % 2 == 1 && s <= m && t <= m && s != t
    ensures MeetingRound(s, t, m) == MeetingRound(t, s, m) && 0 <= MeetingRound(s, t, m) < m
    ensures WeekOfSlots(s, t, m) == WeekOfSlots(t, s, m) + m || WeekOfSlots(t, s, m) == WeekOfSlots(s, t, m) + m
  {
    TheyMeet(s, t, m);
  }

  // ----- the whole schedule, entry by entry

  lemma {:induction false} RoundsAt(wheel: seq<nat>, k: nat, r: nat, q: nat)
    requires r < k < |wheel| && q < |wheel|
    ensures |Rounds(wheel, k)| == k * |wheel| && r * |wheel| + q < k * |wheel|
    ensures Rounds(wheel, k)[r * |wheel| + q] == Leg(wheel, r, q)
    decreases k
  {
    hide Rounds, Round, Leg;
    var n := |wheel|;
    RoundsLength(wheel, k);
    RoundsLength(wheel, k - 1);
    RoundsStep(wheel, k - 1);
    RoundAt(wheel, r, q);
    Inside(r, k, q, n);
    if r < k - 1 { RoundsAt(wheel, k - 1, r, q); }
  }

  lemma {:induction false} Inside(r: nat, k: nat, q: nat, n: nat)
    requires r < k && q < n
    ensures r * n + q < k * n
  {
    assert (r + 1) * n <= k * n;
    assert (r + 1) * n == r * n + n;
  }

  lemma {:induction false} RoundAt(wheel: seq<nat>, r: nat, q: nat)
    requires r < |wheel| && q < |wheel|
    ensures |Round(wheel, r)| == |wheel| && Round(wheel, r)[q] == Leg(wheel, r, q)
  {
  }

  lemma {:induction false} RoundsLength(wheel: seq<nat>, k: nat)
    requires k < |wheel|
    ensures |Rounds(wheel, k)| == k * |wheel|
  {
    if k > 0 {
      RoundsLength(wheel, k - 1);
      RoundsStep(wheel, k - 1);
      assert k * |wheel| == (k - 1) * |wheel| + |wheel|;
    }
  }

  /** The team at position i of the wheel in round r: the first stays, the others move on by one place a round. */
  function TeamAt(wheel: seq<nat>, i: nat, r: nat): nat
    requires |wheel| >= 2 && i < |wheel|
  {
    if i == 0 then wheel[0] else wheel[1 + (i - 1 - r) % (|wheel| - 1)]
  }

  /** Pair i of round r: in week r + 1 position i is at home to position n - 1 - i; n - 1 weeks later the sides are
      swapped, and that match is the next in the list. */
  lemma {:induction false} ScheduleAt(wheel: seq<nat>, r: nat, i: nat)
    requires r < |wheel| - 1 && 2 * i + 1 < |wheel|
    ensures |Schedule(wheel)| == (|wheel| - 1) * |wheel|
    ensures var n, k := |wheel|, r * |wheel| + 2 * i;
            var home, away := TeamAt(wheel, i, r), TeamAt(wheel, n - 1 - i, r);
            && 0 <= k && k + 1 < |Schedule(wheel)|
            && Schedule(wheel)[k] == Match(0, 0, r + 1, home, away, Scheduled)
            && Schedule(wheel)[k + 1] == Match(0, 0, r + n, away, home, Scheduled)
  {
    hide Rounds, Leg, WheelAt, TeamAt;
    var n := |wheel|;
    RoundsAt(wheel, n - 1, r, 2 * i);
    RoundsAt(wheel, n - 1, r, 2 * i + 1);
    LegsOfPair(wheel, r, i);
    PositionHolds(wheel, i, r);
    PositionHolds(wheel, n - 1 - i, r);
  }

  lemma {:induction false} LegsOfPair(wheel: seq<nat>, r: nat, i: nat)
    requires r < |wheel| && 2 * i + 1 < |wheel|
    ensures var n, w := |wheel|, WheelAt(wheel, r);
            && Leg(wheel, r, 2 * i) == Match(0, 0, r + 1, w[i], w[n - 1 - i], Scheduled)
            && Leg(wheel, r, 2 * i + 1) == Match(0, 0, r + n, w[n - 1 - i], w[i], Scheduled)
  {
    hide WheelAt;
  }

  lemma {:induction false} PositionHolds(wheel: seq<nat>, i: nat, r: nat)
    requires |wheel| >= 2 && i < |wheel| && r < |wheel| - 1
    ensures WheelAt(wheel, r)[i] == TeamAt(wheel, i, r)
  {
    if i > 0 { SlotIsModular(i, r, |wheel| - 1); }
  }
}
