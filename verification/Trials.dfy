/** Playing a list of matches one after the other with one generator. */
module Trials {
  import opened Domain

  /** Match j of the list, played from the state match j - 1 left behind. */
  function SimAt(list: seq<Match>, byId: map<nat, Team>, sim: Simulator, start: Rng, j: nat): Simulated
    requires j < |list|
    decreases j, 1
  {
    sim(Lookup(byId, list[j].home), Lookup(byId, list[j].away), RngAt(list, byId, sim, start, j))
  }

  /** The state after the first j matches. */
  function RngAt(list: seq<Match>, byId: map<nat, Team>, sim: Simulator, start: Rng, j: nat): Rng
    requires j <= |list|
    decreases j, 0
  {
    if j == 0 then start else SimAt(list, byId, sim, start, j - 1).rng
  }

  function OutcomeAt(list: seq<Match>, byId: map<nat, Team>, sim: Simulator, start: Rng, j: nat): Outcome
    requires j < |list|
  {
    var r := SimAt(list, byId, sim, start, j);
    Played(r.homeGoals, r.awayGoals)
  }

  /** The list with every match played. */
  function PlayedOut(list: seq<Match>, byId: map<nat, Team>, sim: Simulator, start: Rng): (r: seq<Match>)
    ensures |r| == |list|
  {
    seq(|list|, j requires 0 <= j < |list| => list[j].(outcome := OutcomeAt(list, byId, sim, start, j)))
  }

  // ----- the same, said of the results alone

  /** One result for each match of the list: the first played from `start`, each further one from the state its
      predecessor left. */
  ghost predicate IsChain(list: seq<Match>, byId: map<nat, Team>, sim: Simulator, start: Rng, g: seq<Simulated>) {
    && |g| == |list|
    && (|g| > 0 ==> g[0] == sim(Lookup(byId, list[0].home), Lookup(byId, list[0].away), start))
    && forall j :: 0 < j < |g| ==> g[j] == sim(Lookup(byId, list[j].home), Lookup(byId, list[j].away), g[j - 1].rng)
  }

  /** The list with the results filled in. */
  function WithScores(list: seq<Match>, g: seq<Simulated>): (ms: seq<Match>)
    requires |g| == |list|
    ensures |ms| == |list|
  {
    seq(|list|, j requires 0 <= j < |list| && |g| == |list| =>
      list[j].(outcome := Played(g[j].homeGoals, g[j].awayGoals)))
  }

  /** There is one chain only. */
  lemma {:induction false} ChainUnique(list: seq<Match>, byId: map<nat, Team>, sim: Simulator, start: Rng,
                                       g: seq<Simulated>, g': seq<Simulated>)
    requires IsChain(list, byId, sim, start, g) && IsChain(list, byId, sim, start, g')
    ensures g == g'
  {
    forall j | 0 <= j < |g| ensures g[j] == g'[j] {
      ChainAt(list, byId, sim, start, g, j);
      ChainAt(list, byId, sim, start, g', j);
    }
  }

  lemma {:induction false} ChainAt(list: seq<Match>, byId: map<nat, Team>, sim: Simulator, start: Rng,
                                   g: seq<Simulated>, j: nat)
    requires IsChain(list, byId, sim, start, g) && j < |g|
    ensures g[j] == SimAt(list, byId, sim, start, j)
  {
    if j > 0 { ChainAt(list, byId, sim, start, g, j - 1); }
  }

  /** The chain behind a list played out. */
  lemma {:induction false} ChainOf(list: seq<Match>, byId: map<nat, Team>, sim: Simulator, start: Rng)
    returns (g: seq<Simulated>)
    ensures IsChain(list, byId, sim, start, g) && PlayedOut(list, byId, sim, start) == WithScores(list, g)
    ensures forall j :: 0 <= j < |list| ==>
              OutcomeAt(list, byId, sim, start, j) == Played(g[j].homeGoals, g[j].awayGoals)
  {
    g := seq(|list|, j requires 0 <= j < |list| => SimAt(list, byId, sim, start, j));
    forall j | 0 < j < |g|
      ensures g[j] == sim(Lookup(byId, list[j].home), Lookup(byId, list[j].away), g[j - 1].rng)
    {
      assert g[j] == SimAt(list, byId, sim, start, j) && g[j - 1] == SimAt(list, byId, sim, start, j - 1);
      assert RngAt(list, byId, sim, start, j) == SimAt(list, byId, sim, start, j - 1).rng;
    }
    forall j | 0 <= j < |list|
      ensures OutcomeAt(list, byId, sim, start, j) == Played(g[j].homeGoals, g[j].awayGoals)
    {
      assert g[j] == SimAt(list, byId, sim, start, j);
    }
    assert PlayedOut(list, byId, sim, start) == WithScores(list, g);
  }
}
