/** Knuth's sampler (internal/simulation/poisson.go) over exact reals. */
module Poisson {
  import opened Domain

  const BASE_GOALS := 1.35
  const HOME_ADVANTAGE := 0.25
  const MAX_GOALS := 9

  /** Float64 yields multiples of 2^-53 below 1: never more than 1 - EPSILON. */
  const EPSILON := 1.0 / 9007199254740992.0

  type Draw = x: real | 0.0 <= x <= 1.0 - EPSILON witness 0.0

  /** A generator: what its state yields and the state that follows. exp is x -> e^-x. */
  datatype Generator = Generator(draw: Rng -> Draw, next: Rng -> Rng, exp: real -> real)

  /** All the sampler needs of the exponential: positive, and never larger for a larger mean. */
  ghost predicate IsDecay(exp: real -> real) {
    (forall x :: exp(x) > 0.0) && (forall x, y :: x <= y ==> exp(y) <= exp(x))
  }

  class Rand {
    const gen: Generator
    var state: Rng

    constructor (gen: Generator, state: Rng)
      ensures this.gen == gen && this.state == state
    {
      this.gen, this.state := gen, state;
    }

    method Float64() returns (x: Draw)
      modifies this
      ensures x == gen.draw(old(state)) && state == gen.next(old(state))
    {
      x := gen.draw(state);
      state := gen.next(state);
    }
  }

  // ----- the draws from a state on

  function After(gen: Generator, s: Rng, k: nat): Rng {
    if k == 0 then s else gen.next(After(gen, s, k - 1))
  }

  /** The product of the first k draws. */
  function Product(gen: Generator, s: Rng, k: nat): (p: real)
    ensures 0.0 <= p <= 1.0
  {
    if k == 0 then 1.0
    else
      var p, d := Product(gen, s, k - 1), gen.draw(After(gen, s, k - 1));
      Shrink(p, d);
      p * d
  }

  lemma {:induction false} Shrink(p: real, d: real)
    requires 0.0 <= p && 0.0 <= d <= 1.0
    ensures 0.0 <= p * d <= p
  {
  }

  lemma {:induction false} NothingDrawn(gen: Generator, s: Rng)
    ensures Product(gen, s, 0) == 1.0 && After(gen, s, 0) == s
  {
  }

  lemma {:induction false} ProductStep(gen: Generator, s: Rng, k: nat)
    ensures Product(gen, s, k + 1) == Product(gen, s, k) * gen.draw(After(gen, s, k)) <= Product(gen, s, k)
    ensures After(gen, s, k + 1) == gen.next(After(gen, s, k))
  {
    Shrink(Product(gen, s, k), gen.draw(After(gen, s, k)));
  }

  lemma {:induction false} ProductAntitone(gen: Generator, s: Rng, j: nat, k: nat)
    requires j <= k
    ensures Product(gen, s, k) <= Product(gen, s, j)
    decreases k - j
  {
    if j < k {
      ProductStep(gen, s, j);
      ProductAntitone(gen, s, j + 1, k);
    }
  }

  // ----- termination: powers of 1 - EPSILON reach any positive bound

  function Power(q: real, k: nat): real {
    if k == 0 then 1.0 else Power(q, k - 1) * q
  }

  lemma {:induction false} PowerNonNegative(q: real, k: nat)
    requires 0.0 <= q
    ensures 0.0 <= Power(q, k)
  {
    if k > 0 { PowerNonNegative(q, k - 1); }
  }

  /** Bernoulli's inequality in the form (1 - d)^k (1 + k d) <= 1. */
  lemma {:induction false} Bernoulli(d: real, k: nat)
    requires 0.0 <= d <= 1.0
    ensures Power(1.0 - d, k) * (1.0 + k as real * d) <= 1.0
  {
    if k > 0 {
      Bernoulli(d, k - 1);
      PowerNonNegative(1.0 - d, k - 1);
      var p, c := Power(1.0 - d, k - 1), 1.0 + (k - 1) as real * d;
      BernoulliStep(p, c, d, (k - 1) as real);
    }
  }

  lemma {:induction false} BernoulliStep(p: real, c: real, d: real, k: real)
    requires 0.0 <= p && 0.0 <= d <= 1.0 && 0.0 <= k && c == 1.0 + k * d && p * c <= 1.0
    ensures p * (1.0 - d) * (1.0 + (k + 1.0) * d) <= 1.0
  {
    var e := (1.0 - d) * (1.0 + (k + 1.0) * d);
    assert e == c - (k + 1.0) * (d * d);
    assert 0.0 <= d * d;
    assert 0.0 <= (k + 1.0) * (d * d);
    assert p * (c - e) >= 0.0;
    assert p * e <= p * c;
    assert p * (1.0 - d) * (1.0 + (k + 1.0) * d) == p * e;
  }

  lemma {:induction false} ProductBelowPower(gen: Generator, s: Rng, k: nat)
    ensures Product(gen, s, k) <= Power(1.0 - EPSILON, k)
  {
    if k > 0 {
      ProductBelowPower(gen, s, k - 1);
      var p, q, d := Product(gen, s, k - 1), Power(1.0 - EPSILON, k - 1), gen.draw(After(gen, s, k - 1));
      MultiplyBelow(p, q, d, 1.0 - EPSILON);
    }
  }

  lemma {:induction false} MultiplyBelow(p: real, q: real, d: real, e: real)
    requires 0.0 <= p <= q && 0.0 <= d <= e
    ensures p * d <= q * e
  {
    assert p * d <= q * d;
    assert q * d <= q * e;
  }

  /** However small l > 0 is, the product is at or below it after Bound(l) draws. */
  function Bound(l: real): nat
    requires l > 0.0
  {
    (1.0 / (l * EPSILON)).Floor + 1
  }

  lemma {:induction false} BoundSuffices(gen: Generator, s: Rng, l: real)
    requires l > 0.0
    ensures Product(gen, s, Bound(l)) <= l
  {
    var n := Bound(l);
    var c := 1.0 + n as real * EPSILON;
    var p := Power(1.0 - EPSILON, n);
    Bernoulli(EPSILON, n);
    PowerNonNegative(1.0 - EPSILON, n);
    ProductBelowPower(gen, s, n);
    assert n as real * (l * EPSILON) >= 1.0 by {
      var x := l * EPSILON;
      assert x > 0.0;
      assert n as real >= 1.0 / x;
      assert (1.0 / x) * x == 1.0;
    }
    assert l * c >= 1.0;
    assert p > l ==> p * c > l * c;
  }

  // ----- the sampler

  /** The number of draws whose running product stays above l, counted from j on. */
  function Knuth(gen: Generator, s: Rng, l: real, j: nat): (k: nat)
    requires l > 0.0 && j <= Bound(l)
    ensures j <= k
    decreases Bound(l) - j
  {
    if j < Bound(l) && Product(gen, s, j + 1) > l then Knuth(gen, s, l, j + 1) else j
  }

  /** Where the loop stops: the largest k such that the product of the first k draws exceeds l. */
  ghost predicate IsLastAbove(gen: Generator, s: Rng, l: real, k: nat) {
    && (forall j :: 1 <= j <= k ==> Product(gen, s, j) > l)
    && (forall j :: j > k ==> Product(gen, s, j) <= l)
  }

  lemma {:induction false} KnuthFrom(gen: Generator, s: Rng, l: real, j: nat)
    requires l > 0.0 && j <= Bound(l)
    requires forall i :: 1 <= i <= j ==> Product(gen, s, i) > l
    ensures IsLastAbove(gen, s, l, Knuth(gen, s, l, j))
    decreases Bound(l) - j
  {
    if j < Bound(l) && Product(gen, s, j + 1) > l {
      KnuthFrom(gen, s, l, j + 1);
    } else {
      assert Product(gen, s, j + 1) <= l by {
        BoundSuffices(gen, s, l);
        if j == Bound(l) { ProductAntitone(gen, s, j, j + 1); }
      }
      forall i | i > j ensures Product(gen, s, i) <= l {
        ProductAntitone(gen, s, j + 1, i);
      }
    }
  }

  lemma {:induction false} KnuthIsExact(gen: Generator, s: Rng, l: real)
    requires l > 0.0
    ensures IsLastAbove(gen, s, l, Knuth(gen, s, l, 0))
  {
    KnuthFrom(gen, s, l, 0);
  }

  function Min(x: real, y: real): real { if x <= y then x else y }

  function Clamp(k: nat): nat { if k > MAX_GOALS then MAX_GOALS else k }

  datatype Sample = Sample(goals: nat, rng: Rng)

  function SampleOf(gen: Generator, s: Rng, expected: real): Sample
    requires expected > 0.0 ==> gen.exp(Min(expected, MAX_GOALS as real)) > 0.0
  {
    if expected <= 0.0 then Sample(0, s)
    else
      var k := Knuth(gen, s, gen.exp(Min(expected, MAX_GOALS as real)), 0);
      Sample(Clamp(k), After(gen, s, k + 1))
  }

  method SamplePoisson(expected: real, rng: Rand) returns (goals: nat)
    requires IsDecay(rng.gen.exp)
    modifies rng
    ensures Sample(goals, rng.state) == SampleOf(rng.gen, old(rng.state), expected)
  {
    if expected <= 0.0 { return 0; }
    var mean := expected;
    if mean > MAX_GOALS as real { mean := MAX_GOALS as real; }
    var k := CountDraws(rng.gen.exp(mean), rng);
    if k > MAX_GOALS { return MAX_GOALS; }
    return k;
  }

  /** Knuth's loop: draw until the running product is down to l. */
  method CountDraws(l: real, rng: Rand) returns (k: nat)
    requires l > 0.0
    modifies rng
    ensures k == Knuth(rng.gen, old(rng.state), l, 0)
    ensures rng.state == After(rng.gen, old(rng.state), k + 1)
  {
    hide Product, Knuth, Bound, After;
    ghost var gen, start := rng.gen, rng.state;
    NothingDrawn(gen, start);
    var p := 1.0;
    k := 0;
    while true
      invariant k <= Bound(l)
      invariant p == Product(gen, start, k) && rng.state == After(gen, start, k)
      invariant forall j :: 1 <= j <= k ==> Product(gen, start, j) > l
      decreases Bound(l) - k
    {
      ProductStep(gen, start, k);
      BoundNotPassed(gen, start, l, k);
      k := k + 1;
      var x := rng.Float64();
      p := p * x;
      if p <= l { break; }
    }
    k := k - 1;
    KnuthIsExact(gen, start, l);
    LastAboveUnique(gen, start, l, k, Knuth(gen, start, l, 0));
  }

  lemma {:induction false} BoundNotPassed(gen: Generator, s: Rng, l: real, k: nat)
    requires l > 0.0 && k <= Bound(l)
    ensures Product(gen, s, k + 1) > l ==> k < Bound(l)
  {
    BoundSuffices(gen, s, l);
    ProductAntitone(gen, s, k, k + 1);
  }

  lemma {:induction false} LastAboveUnique(gen: Generator, s: Rng, l: real, k: nat, k': nat)
    requires forall j :: 1 <= j <= k ==> Product(gen, s, j) > l
    requires Product(gen, s, k + 1) <= l
    requires IsLastAbove(gen, s, l, k')
    ensures k == k'
  {
    var atStop, past := Product(gen, s, k), Product(gen, s, k + 1);
  }

  /** From the same generator state a larger mean never yields fewer goals. */
  lemma {:induction false} SampleMonotone(gen: Generator, s: Rng, expected: real, expected': real)
    requires IsDecay(gen.exp) && expected <= expected'
    ensures SampleOf(gen, s, expected).goals <= SampleOf(gen, s, expected').goals <= MAX_GOALS
  {
    if expected > 0.0 {
      var l, l' := gen.exp(Min(expected, MAX_GOALS as real)), gen.exp(Min(expected', MAX_GOALS as real));
      var k, k' := Knuth(gen, s, l, 0), Knuth(gen, s, l', 0);
      assert l' <= l;
      KnuthIsExact(gen, s, l);
      KnuthIsExact(gen, s, l');
      assert k' < k ==> Product(gen, s, k) > l && Product(gen, s, k) <= l';
    }
  }

  /** Nothing drawn for a mean of zero or less; otherwise at most 9 of the draws before the product falls to
      e^-min(mean, 9). */
  lemma {:induction false} SampleIsKnuth(gen: Generator, s: Rng, expected: real, k: nat)
    requires IsDecay(gen.exp)
    ensures expected <= 0.0 ==> SampleOf(gen, s, expected) == Sample(0, s)
    ensures expected > 0.0 && IsLastAbove(gen, s, gen.exp(if expected > 9.0 then 9.0 else expected), k) ==>
              SampleOf(gen, s, expected) == Sample(if k > 9 then 9 else k, After(gen, s, k + 1))
  {
    if expected > 0.0 {
      var l := gen.exp(Min(expected, MAX_GOALS as real));
      KnuthIsExact(gen, s, l);
      if IsLastAbove(gen, s, l, k) { LastAboveUnique(gen, s, l, k, Knuth(gen, s, l, 0)); }
    }
  }

  // ----- the sampler, said of the draws themselves

  /** d are the draws a generator yields from state s on, t the states it passes through. */
  ghost predicate AreDraws(gen: Generator, s: Rng, d: seq<real>, t: seq<Rng>) {
    && |t| == |d| + 1 && t[0] == s
    && forall i :: 0 <= i < |d| ==> d[i] == gen.draw(t[i]) && t[i + 1] == gen.next(t[i])
  }

  /** The product of a list; of no numbers it is 1. */
  function Times(d: seq<real>): real {
    if d == [] then 1.0 else Times(d[..|d| - 1]) * d[|d| - 1]
  }

  lemma {:induction false} ProductIsTimes(gen: Generator, s: Rng, d: seq<real>, t: seq<Rng>, k: nat)
    requires AreDraws(gen, s, d, t) && k <= |d|
    ensures Product(gen, s, k) == Times(d[..k]) && After(gen, s, k) == t[k]
  {
    if k > 0 {
      ProductIsTimes(gen, s, d, t, k - 1);
      assert d[..k][..k - 1] == d[..k - 1];
    }
  }

  /** Draw number k + 1 is the first that brings the product down to l. */
  ghost predicate StopsAt(d: seq<real>, l: real, k: nat) {
    && k < |d|
    && (forall j :: 1 <= j <= k ==> Times(d[..j]) > l)
    && Times(d[..k + 1]) <= l
  }

  /** The sampler over its draws: when draw k + 1 is the first with d[0] * ... * d[k] <= e^-min(mean, 9), it returns
      min(9, k) and leaves the generator right after that draw. */
  lemma {:induction false} SampleOverDraws(gen: Generator, s: Rng, expected: real, d: seq<real>, t: seq<Rng>, k: nat)
    requires IsDecay(gen.exp) && expected > 0.0 && AreDraws(gen, s, d, t)
    requires StopsAt(d, gen.exp(if expected > 9.0 then 9.0 else expected), k)
    ensures SampleOf(gen, s, expected) == Sample(if k > 9 then 9 else k, t[k + 1])
  {
    var l := gen.exp(Min(expected, MAX_GOALS as real));
    forall j | 1 <= j <= k ensures Product(gen, s, j) > l { ProductIsTimes(gen, s, d, t, j); }
    ProductIsTimes(gen, s, d, t, k + 1);
    KnuthIsExact(gen, s, l);
    LastAboveUnique(gen, s, l, k, Knuth(gen, s, l, 0));
  }

  /** Every generator has such draws: the loop always stops. */
  lemma {:induction false} DrawsExist(gen: Generator, s: Rng, l: real) returns (d: seq<real>, t: seq<Rng>, k: nat)
    requires l > 0.0
    ensures AreDraws(gen, s, d, t) && StopsAt(d, l, k)
  {
    k := Knuth(gen, s, l, 0);
    KnuthIsExact(gen, s, l);
    d := seq(k + 1, i requires 0 <= i => gen.draw(After(gen, s, i)));
    t := seq(k + 2, i requires 0 <= i => After(gen, s, i));
    forall j | 0 <= j <= k + 1 ensures Product(gen, s, j) == Times(d[..j]) { ProductIsTimes(gen, s, d, t, j); }
  }

  /** No goal exactly when the first draw is already at or below e^-min(mean, 9). */
  lemma {:induction false} NoGoalIff(gen: Generator, s: Rng, expected: real)
    requires IsDecay(gen.exp) && expected > 0.0
    ensures SampleOf(gen, s, expected).goals == 0 <==> gen.draw(s) <= gen.exp(if expected > 9.0 then 9.0 else expected)
  {
    var l := gen.exp(if expected > 9.0 then 9.0 else expected);
    var d, t, k := DrawsExist(gen, s, l);
    SampleOverDraws(gen, s, expected, d, t, k);
    assert d[..1][..0] == [] && Times(d[..1]) == 1.0 * d[0];
  }

  // ----- one match

  predicate Rated(t: Team) {
    1 <= t.attack <= 100 && 1 <= t.midfield <= 100 && 1 <= t.defense <= 100
  }

  function Strength(team: Team, opponent: Team): real {
    0.5 * team.attack as real + 0.3 * team.midfield as real + 0.2 * (100 - opponent.defense) as real
  }

  lemma {:induction false} StrengthPositive(team: Team, opponent: Team)
    requires Rated(team) && Rated(opponent)
    ensures Strength(team, opponent) >= 0.8
  {
  }

  function HomeMean(home: Team, away: Team): real
    requires Strength(away, home) != 0.0
  {
    BASE_GOALS * (Strength(home, away) / Strength(away, home)) + HOME_ADVANTAGE
  }

  function AwayMean(home: Team, away: Team): real
    requires Strength(home, away) != 0.0
  {
    BASE_GOALS * (Strength(away, home) / Strength(home, away))
  }

  /** The example worked out in the documentation of the algorithm. */
  lemma {:induction false} WorkedExample(home: Team, away: Team)
    requires home.attack == 90 && home.midfield == 85 && home.defense == 82
    requires away.attack == 78 && away.midfield == 76 && away.defense == 75
    ensures Strength(home, away) == 75.5 && Strength(away, home) == 65.4
    ensures 1.808 < HomeMean(home, away) < 1.809 && 1.169 < AwayMean(home, away) < 1.170
  {
    assert Strength(home, away) == 75.5 && Strength(away, home) == 65.4;
    var h, a := 75.5 / 65.4, 65.4 / 75.5;
    assert h * 65.4 == 75.5 && a * 75.5 == 65.4;
  }

  /** The means, from the ratings alone. */
  lemma {:induction false} MeansFromRatings(home: Team, away: Team)
    requires Rated(home) && Rated(away)
    ensures var h := 0.5 * home.attack as real + 0.3 * home.midfield as real + 0.2 * (100 - away.defense) as real;
            var a := 0.5 * away.attack as real + 0.3 * away.midfield as real + 0.2 * (100 - home.defense) as real;
            && h >= 0.8 && a >= 0.8
            && HomeMean(home, away) == 1.35 * (h / a) + 0.25 && AwayMean(home, away) == 1.35 * (a / h)
            && (HomeMean(home, away) - 0.25) * AwayMean(home, away) == 1.35 * 1.35
  {
    StrengthPositive(home, away);
    StrengthPositive(away, home);
  }

  /** The home side draws first, with a mean of 1.35 times the quotient of the strengths and 0.25 on top; the away side
      draws from where the home side stopped, with 1.35 times the inverse quotient. */
  ghost predicate IsSimulated(gen: Generator, s: Rng, home: Team, away: Team, r: Simulated)
    requires IsDecay(gen.exp) && Rated(home) && Rated(away)
  {
    var hs := 0.5 * home.attack as real + 0.3 * home.midfield as real + 0.2 * (100 - away.defense) as real;
    var aws := 0.5 * away.attack as real + 0.3 * away.midfield as real + 0.2 * (100 - home.defense) as real;
    assert hs > 0.0 && aws > 0.0;
    var h := SampleOf(gen, s, 1.35 * (hs / aws) + 0.25);
    var a := SampleOf(gen, h.rng, 1.35 * (aws / hs));
    r == Simulated(h.goals, a.goals, a.rng)
  }

  method Simulate(home: Team, away: Team, rng: Rand) returns (homeGoals: nat, awayGoals: nat)
    requires IsDecay(rng.gen.exp) && Rated(home) && Rated(away)
    modifies rng
    ensures IsSimulated(rng.gen, old(rng.state), home, away, Simulated(homeGoals, awayGoals, rng.state))
    ensures homeGoals <= MAX_GOALS && awayGoals <= MAX_GOALS
  {
    var hs, aws := Strength(home, away), Strength(away, home);
    StrengthPositive(home, away);
    StrengthPositive(away, home);
    var homeExpected := BASE_GOALS * (hs / aws) + HOME_ADVANTAGE;
    var awayExpected := BASE_GOALS * (aws / hs);
    homeGoals := SamplePoisson(homeExpected, rng);
    awayGoals := SamplePoisson(awayExpected, rng);
  }

  /** Raising any rating of the home side or lowering any of the visitors' never costs the home side a goal. */
  lemma {:induction false} HomeScoreMonotone(gen: Generator, s: Rng, home: Team, away: Team, home': Team, away': Team,
                                             r: Simulated, r': Simulated)
    requires IsDecay(gen.exp) && Rated(home) && Rated(away) && Rated(home') && Rated(away')
    requires home.attack <= home'.attack && home.midfield <= home'.midfield && home.defense <= home'.defense
    requires away'.attack <= away.attack && away'.midfield <= away.midfield && away'.defense <= away.defense
    requires IsSimulated(gen, s, home, away, r) && IsSimulated(gen, s, home', away', r')
    ensures r.homeGoals <= r'.homeGoals
  {
    StrengthPositive(home, away);
    StrengthPositive(away', home');
    QuotientMonotone(Strength(home, away), Strength(home', away'), Strength(away, home), Strength(away', home'));
    SampleMonotone(gen, s, HomeMean(home, away), HomeMean(home', away'));
  }

  /** From the state the home side leaves, raising any rating of the visitors or lowering any of the home side's never
      costs the visitors a goal. */
  lemma {:induction false} AwayScoreMonotone(gen: Generator, s: Rng, home: Team, away: Team, s': Rng, home': Team,
                                             away': Team, r: Simulated, r': Simulated)
    requires IsDecay(gen.exp) && Rated(home) && Rated(away) && Rated(home') && Rated(away')
    requires away.attack <= away'.attack && away.midfield <= away'.midfield && away.defense <= away'.defense
    requires home'.attack <= home.attack && home'.midfield <= home.midfield && home'.defense <= home.defense
    requires SampleOf(gen, s, HomeMean(home, away)).rng == SampleOf(gen, s', HomeMean(home', away')).rng
    requires IsSimulated(gen, s, home, away, r) && IsSimulated(gen, s', home', away', r')
    ensures r.awayGoals <= r'.awayGoals
  {
    StrengthPositive(away, home);
    StrengthPositive(home', away');
    QuotientMonotone(Strength(away, home), Strength(away', home'), Strength(home, away), Strength(home', away'));
    SampleMonotone(gen, SampleOf(gen, s, HomeMean(home, away)).rng, AwayMean(home, away), AwayMean(home', away'));
  }

  lemma {:induction false} QuotientMonotone(x: real, y: real, d: real, e: real)
    requires 0.0 < x <= y && 0.0 < e <= d
    ensures x / d <= y / e
  {
    var p, q := x / d, y / e;
    assert p * d == x && q * e == y;
    assert q > 0.0;
    MultiplyBelow(q, q, e, d);
    assert p * d <= q * d;
    assert p > q ==> p * d > q * d;
  }
}
