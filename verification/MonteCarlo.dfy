/** The Monte Carlo forecast (internal/prediction/monte_carlo.go) in exact arithmetic. */
module MonteCarlo {
  import opened Seqs
  import opened Sorting
  import opened Text
  import opened Domain
  import opened Standings
  import opened Trials

  datatype Prediction = Prediction(teamId: nat, teamName: string, chance: real, average: real, mode: nat)

  /** rankCounts[id][r]: in how many trials the team finished at rank r + 1. */
  type RankCounts = map<nat, seq<nat>>

  // ----- one trial

  function IsPlayed(): Match -> bool { (m: Match) => m.outcome.Played? }
  function IsScheduled(): Match -> bool { (m: Match) => m.outcome.Scheduled? }

  /** Played results as they are, the rest played out with this trial's generator. */
  function Completed(teams: seq<Team>, ms: seq<Match>, sim: Simulator, rng: Rng): seq<Match> {
    Filter(ms, IsPlayed()) + PlayedOut(Filter(ms, IsScheduled()), ById(teams), sim, rng)
  }

  function TrialTables(teams: seq<Team>, ms: seq<Match>, sim: Simulator, rngs: nat -> Rng, t: nat)
    : (r: seq<seq<StandingRow>>)
    ensures |r| == t
  {
    seq(t, i requires 0 <= i < t => Table(teams, Completed(teams, ms, sim, rngs(i))))
  }

  // ----- tallies

  function FinishesAt(id: nat, r: nat): seq<StandingRow> -> bool {
    (table: seq<StandingRow>) => r < |table| && table[r].teamId == id
  }

  function CountsOf(id: nat, n: nat, tables: seq<seq<StandingRow>>): (c: seq<nat>)
    ensures |c| == n
  {
    seq(n, r requires 0 <= r < n => Count(tables, FinishesAt(id, r)))
  }

  function Tallies(teams: seq<Team>, tables: seq<seq<StandingRow>>): RankCounts {
    map id | id in ById(teams) :: CountsOf(id, |teams|, tables)
  }

  /** The counts after the first k rows of one more table. */
  function Bumped(counts: RankCounts, table: seq<StandingRow>, k: nat): RankCounts
    requires k <= |table|
  {
    map id | id in counts ::
      seq(|counts[id]|, r requires 0 <= r < |counts[id]| =>
        counts[id][r] + if r < k && table[r].teamId == id then 1 else 0)
  }

  lemma {:induction false} BumpedShape(counts: RankCounts, table: seq<StandingRow>, k: nat)
    requires k <= |table|
    ensures Bumped(counts, table, k).Keys == counts.Keys
    ensures forall id :: id in counts ==> |Bumped(counts, table, k)[id]| == |counts[id]|
  {
  }

  lemma {:induction false} BumpedIsTally(teams: seq<Team>, tables: seq<seq<StandingRow>>, table: seq<StandingRow>)
    ensures Bumped(Tallies(teams, tables), table, |table|) == Tallies(teams, tables + [table])
  {
    var more := tables + [table];
    assert more[..|more| - 1] == tables;
    forall id | id in ById(teams)
      ensures Bumped(Tallies(teams, tables), table, |table|)[id] == CountsOf(id, |teams|, more)
    {
    }
  }

  lemma {:induction false} NoTrials(teams: seq<Team>, counts: RankCounts)
    requires counts == map id | id in ById(teams) :: seq(|teams|, _ => 0)
    ensures counts == Tallies(teams, [])
  {
    forall id | id in ById(teams) ensures counts[id] == Tallies(teams, [])[id] {
    }
  }

  lemma {:induction false} TrialStep(teams: seq<Team>, ms: seq<Match>, sim: Simulator, rngs: nat -> Rng, i: nat)
    ensures var table := Table(teams, Completed(teams, ms, sim, rngs(i)));
            Bumped(Tallies(teams, TrialTables(teams, ms, sim, rngs, i)), table, |table|) ==
            Tallies(teams, TrialTables(teams, ms, sim, rngs, i + 1))
  {
    var tables, table := TrialTables(teams, ms, sim, rngs, i), Table(teams, Completed(teams, ms, sim, rngs(i)));
    BumpedIsTally(teams, tables, table);
    assert tables + [table] == TrialTables(teams, ms, sim, rngs, i + 1);
  }

  function Bump(counts: RankCounts, id: nat, r: nat): RankCounts
    requires id in counts && r < |counts[id]|
  {
    counts[id := counts[id][r := counts[id][r] + 1]]
  }

  lemma {:induction false} BumpedStart(counts: RankCounts, table: seq<StandingRow>)
    ensures Bumped(counts, table, 0) == counts
  {
    forall id | id in counts ensures Bumped(counts, table, 0)[id] == counts[id] {
    }
  }

  lemma {:induction false} BumpedStep(counts: RankCounts, table: seq<StandingRow>, k: nat)
    requires k < |table| && table[k].teamId in counts && k < |counts[table[k].teamId]|
    ensures Bumped(counts, table, k + 1) == Bump(Bumped(counts, table, k), table[k].teamId, k)
  {
    forall id | id in counts
      ensures Bumped(counts, table, k + 1)[id] == Bump(Bumped(counts, table, k), table[k].teamId, k)[id]
    {
    }
  }

  method CountRanks(counts: RankCounts, table: seq<StandingRow>, ghost n: nat) returns (r: RankCounts)
    requires |table| <= n && forall id :: id in counts ==> |counts[id]| == n
    requires forall i :: 0 <= i < |table| ==> table[i].teamId in counts && table[i].rank == i + 1
    ensures r == Bumped(counts, table, |table|)
  {
    r := counts;
    BumpedStart(counts, table);
    for k := 0 to |table|
      invariant r == Bumped(counts, table, k)
    {
      var row := table[k];
      BumpedStep(counts, table, k);
      r := r[row.teamId := r[row.teamId][row.rank - 1 := r[row.teamId][row.rank - 1] + 1]];
    }
  }

  // ----- aggregation

  function Weighted(counts: seq<nat>): int {
    Sum(|counts|, r => if 0 <= r < |counts| then (r + 1) * counts[r] else 0)
  }

  /** The first rank holding the largest count among the first k; 0 when all are zero. */
  function ModeUpTo(counts: seq<nat>, k: nat): (mode: nat)
    requires k <= |counts|
    ensures mode <= k
  {
    if k == 0 then 0
    else
      var m := ModeUpTo(counts, k - 1);
      if counts[k - 1] > CountAt(counts, m) then k else m
  }

  function CountAt(counts: seq<nat>, rank: nat): nat
    requires rank <= |counts|
  {
    if rank == 0 then 0 else counts[rank - 1]
  }

  function PredictionOf(team: Team, counts: seq<nat>, simulations: nat): Prediction
    requires counts != [] && simulations > 0
  {
    Prediction(team.id, team.name, counts[0] as real / simulations as real * 100.0,
               Weighted(counts) as real / simulations as real, ModeUpTo(counts, |counts|))
  }

  predicate PredictionLess(a: Prediction, b: Prediction) {
    if a.chance != b.chance then a.chance > b.chance
    else if a.average != b.average then a.average < b.average
    else StringLess(a.teamName, b.teamName)
  }

  function Predictions(teams: seq<Team>, tables: seq<seq<StandingRow>>): (ps: seq<Prediction>)
    requires tables != []
    ensures |ps| == |teams|
  {
    seq(|teams|, i requires 0 <= i < |teams| =>
      PredictionOf(teams[i], CountsOf(teams[i].id, |teams|, tables), |tables|))
  }

  /** The forecast as a function of the teams and the trials' tables. */
  function Forecast(teams: seq<Team>, tables: seq<seq<StandingRow>>): (ps: seq<Prediction>)
    requires tables != []
    ensures |ps| == |teams|
  {
    Sorted(Predictions(teams, tables), PredictionLess)
  }

  lemma {:induction false} PredictionLessIsStrictWeakOrder()
    ensures StrictWeakOrder(PredictionLess)
  {
    forall x: Prediction, y: Prediction ensures PredictionLess(x, y) ==> !PredictionLess(y, x) {
      StringLessTrichotomy(x.teamName, y.teamName);
    }
    forall x: Prediction, y: Prediction, z: Prediction
      ensures PredictionLess(x, z) ==> PredictionLess(x, y) || PredictionLess(y, z)
    {
      NameNegativelyTransitive(x.teamName, y.teamName, z.teamName);
    }
  }

  // ----- helpers of the engine

  method IndexTeams(teams: seq<Team>) returns (byId: map<nat, Team>)
    ensures byId == ById(teams)
  {
    byId := map[];
    for i := 0 to |teams|
      invariant byId == ById(teams[..i])
    {
      assert teams[..i + 1][..i] == teams[..i];
      byId := byId[teams[i].id := teams[i]];
    }
    assert teams[..|teams|] == teams;
  }

  method Partition(matches: seq<Match>) returns (played: seq<Match>, scheduled: seq<Match>)
    ensures played == Filter(matches, IsPlayed()) && scheduled == Filter(matches, IsScheduled())
  {
    played, scheduled := [], [];
    for i := 0 to |matches|
      invariant played == Filter(matches[..i], IsPlayed()) && scheduled == Filter(matches[..i], IsScheduled())
    {
      FilterPrefix(matches, i, IsPlayed());
      FilterPrefix(matches, i, IsScheduled());
      if matches[i].outcome.Played? { played := played + [matches[i]]; } else { scheduled := scheduled + [matches[i]]; }
    }
    assert matches[..|matches|] == matches;
  }

  method PlayOut(played: seq<Match>, scheduled: seq<Match>, byId: map<nat, Team>, sim: Simulator, start: Rng)
    returns (combined: seq<Match>)
    ensures combined == played + PlayedOut(scheduled, byId, sim, start)
  {
    combined := played;
    var rng := start;
    for j := 0 to |scheduled|
      invariant rng == RngAt(scheduled, byId, sim, start, j)
      invariant combined == played + PlayedOut(scheduled, byId, sim, start)[..j]
    {
      var m := scheduled[j];
      var r := sim(Lookup(byId, m.home), Lookup(byId, m.away), rng);
      combined := combined + [m.(outcome := Played(r.homeGoals, r.awayGoals))];
      rng := r.rng;
    }
  }

  lemma {:induction false} ByIdSize(teams: seq<Team>)
    ensures |ById(teams)| <= |teams|
  {
    if teams != [] {
      var init, last := teams[..|teams| - 1], teams[|teams| - 1];
      ByIdSize(init);
      assert ById(teams).Keys == ById(init).Keys + {last.id};
    }
  }

  method Predict(sim: Simulator, newRng: (int, nat) -> Rng, teams: seq<Team>, matches: seq<Match>, simulations: int,
                 seed: int) returns (out: seq<Prediction>)
    ensures simulations <= 0 || teams == [] ==> out == []
    ensures simulations > 0 && teams != [] && UniqueTeams(teams) ==>
              out == Forecast(teams, TrialTables(teams, matches, sim, (i: nat) => newRng(seed, i), simulations))
  {
    if simulations <= 0 || teams == [] { return []; }
    var byId := IndexTeams(teams);
    var rankCounts := RunTrials(sim, (i: nat) => newRng(seed, i), teams, matches, byId, simulations);
    ByIdKeys(teams);
    out := Aggregate(byId, rankCounts, simulations);
    if UniqueTeams(teams) {
      ForecastUnique(teams, TrialTables(teams, matches, sim, (i: nat) => newRng(seed, i), simulations), out);
    }
  }

  lemma {:induction false} TrialTable(teams: seq<Team>, ms: seq<Match>, sim: Simulator, rng: Rng,
                                      combined: seq<Match>, table: seq<StandingRow>)
    requires IsTable(table, RowMap(ById(teams), combined))
    requires combined == Filter(ms, IsPlayed()) + PlayedOut(Filter(ms, IsScheduled()), ById(teams), sim, rng)
    ensures combined == Completed(teams, ms, sim, rng)
    ensures forall i :: 0 <= i < |table| ==> table[i].teamId in ById(teams) && table[i].rank == i + 1
  {
  }

  /** The trial loop: the same tally grows by one table per trial. */
  method RunTrials(sim: Simulator, rngs: nat -> Rng, teams: seq<Team>, matches: seq<Match>, byId: map<nat, Team>,
                   simulations: nat) returns (rankCounts: RankCounts)
    requires byId == ById(teams)
    ensures rankCounts.Keys == byId.Keys && forall id :: id in rankCounts ==> |rankCounts[id]| == |teams|
    ensures UniqueTeams(teams) ==> rankCounts == Tallies(teams, TrialTables(teams, matches, sim, rngs, simulations))
  {
    hide Table, IsTable, RowMap, Tallies, Bumped, Completed, ById, PlayedOut, Filter;
    var played, scheduled := Partition(matches);
    var n := |teams|;
    rankCounts := map id | id in byId :: seq(n, _ => 0);
    NoTrials(teams, rankCounts);
    ByIdSize(teams);
    for i := 0 to simulations
      invariant rankCounts.Keys == byId.Keys && forall id :: id in rankCounts ==> |rankCounts[id]| == n
      invariant UniqueTeams(teams) ==> rankCounts == Tallies(teams, TrialTables(teams, matches, sim, rngs, i))
    {
      var combined := PlayOut(played, scheduled, byId, sim, rngs(i));
      var table := Calculate(teams, combined);
      TrialTable(teams, matches, sim, rngs(i), combined, table);
      BumpedShape(rankCounts, table, |table|);
      rankCounts := CountRanks(rankCounts, table, n);
      if UniqueTeams(teams) { TrialStep(teams, matches, sim, rngs, i); }
    }
  }

  /** One prediction per tallied team, in map order, then sorted. */
  method Aggregate(byId: map<nat, Team>, rankCounts: RankCounts, simulations: nat) returns (out: seq<Prediction>)
    requires simulations > 0 && Tallied(byId, rankCounts)
    ensures Summarises(out, byId, rankCounts, simulations) && NoInversion(out, PredictionLess)
  {
    hide Summarises, Tallied, PredictionLess;
    var list := Summaries(byId, rankCounts, simulations);
    var a := new Prediction[|list|](i requires 0 <= i < |list| => list[i]);
    assert a[..] == list;
    PredictionLessIsStrictWeakOrder();
    SortSlice(a, PredictionLess);
    out := a[..];
    SummaryCarriesOver(list, out, byId, rankCounts, simulations);
  }

  ghost predicate Tallied(byId: map<nat, Team>, counts: RankCounts) {
    forall id :: id in counts ==> id in byId && byId[id].id == id && counts[id] != []
  }

  ghost predicate Summarises(list: seq<Prediction>, byId: map<nat, Team>, counts: RankCounts, simulations: nat)
    requires simulations > 0 && Tallied(byId, counts)
  {
    && NoDuplicates(list)
    && (forall p :: p in list <==>
          p.teamId in counts && p == PredictionOf(byId[p.teamId], counts[p.teamId], simulations))
  }

  method Summaries(byId: map<nat, Team>, counts: RankCounts, simulations: nat) returns (list: seq<Prediction>)
    requires simulations > 0 && Tallied(byId, counts)
    ensures Summarises(list, byId, counts, simulations)
  {
    var remaining := counts.Keys;
    list := [];
    while remaining != {}
      invariant remaining <= counts.Keys
      invariant Summarises(list, byId, map id | id in counts && id !in remaining :: counts[id], simulations)
      decreases |remaining|
    {
      var id :| id in remaining;
      var p := Summarise(byId[id], counts[id], simulations);
      list := list + [p];
      remaining := remaining - {id};
    }
    assert (map id | id in counts && id !in remaining :: counts[id]) == counts;
  }

  /** The inner loop: weighted sum, largest count and its rank in one pass. */
  method Summarise(team: Team, counts: seq<nat>, simulations: nat) returns (p: Prediction)
    requires counts != [] && simulations > 0
    ensures p == PredictionOf(team, counts, simulations)
  {
    var weightedRankSum, modeCount, modeRank := 0, 0, 0;
    ghost var weight := r => if 0 <= r < |counts| then (r + 1) * counts[r] else 0;
    for r := 0 to |counts|
      invariant weightedRankSum == Sum(r, weight)
      invariant modeRank == ModeUpTo(counts, r) && modeCount == CountAt(counts, modeRank)
    {
      var c := counts[r];
      weightedRankSum := weightedRankSum + (r + 1) * c;
      if c > modeCount { modeCount, modeRank := c, r + 1; }
    }
    assert weightedRankSum == Weighted(counts);
    p := Prediction(team.id, team.name, counts[0] as real / simulations as real * 100.0,
                    weightedRankSum as real / simulations as real, modeRank);
  }

  // ----- one forecast only

  lemma {:induction false} ForecastUnique(teams: seq<Team>, tables: seq<seq<StandingRow>>, out: seq<Prediction>)
    requires UniqueTeams(teams) && teams != [] && tables != []
    requires Tallied(ById(teams), Tallies(teams, tables))
    requires Summarises(out, ById(teams), Tallies(teams, tables), |tables|) && NoInversion(out, PredictionLess)
    ensures out == Forecast(teams, tables)
  {
    var ps, byId, counts := Predictions(teams, tables), ById(teams), Tallies(teams, tables);
    PredictionsSummarise(teams, tables);
    PredictionLessIsStrictWeakOrder();
    SortedIsSorted(ps, PredictionLess);
    SummaryCarriesOver(ps, Forecast(teams, tables), byId, counts, |tables|);
    SummaryOrdered(teams, tables, out);
    SummaryOrdered(teams, tables, Forecast(teams, tables));
    StrictlySortedUnique(out, Forecast(teams, tables), PredictionLess);
  }

  lemma {:induction false} SummaryCarriesOver(list: seq<Prediction>, out: seq<Prediction>, byId: map<nat, Team>,
                                              counts: RankCounts, t: nat)
    requires t > 0 && Tallied(byId, counts) && Summarises(list, byId, counts, t) && multiset(out) == multiset(list)
    ensures Summarises(out, byId, counts, t)
  {
    assert forall x :: x in out <==> x in multiset(out);
    assert forall x :: x in list <==> x in multiset(list);
  }

  lemma {:induction false} SummaryOrdered(teams: seq<Team>, tables: seq<seq<StandingRow>>, out: seq<Prediction>)
    requires UniqueTeams(teams) && teams != [] && tables != []
    requires Tallied(ById(teams), Tallies(teams, tables))
    requires Summarises(out, ById(teams), Tallies(teams, tables), |tables|) && NoInversion(out, PredictionLess)
    ensures StrictlySorted(out, PredictionLess)
  {
    forall i, j | 0 <= i < j < |out| ensures PredictionLess(out[i], out[j]) {
      Distinct(out, i, j);
      assert out[i] in out && out[j] in out;
      DistinctTeamNames(teams, out[i].teamId, out[j].teamId);
      StringLessTrichotomy(out[i].teamName, out[j].teamName);
    }
  }

  lemma {:induction false} DistinctTeamNames(teams: seq<Team>, a: nat, b: nat)
    requires UniqueTeams(teams) && a in ById(teams) && b in ById(teams) && a != b
    ensures ById(teams)[a].name != ById(teams)[b].name
  {
    RowMapNames(teams, []);
    assert RowMap(ById(teams), [])[a].teamName != RowMap(ById(teams), [])[b].teamName;
  }

  lemma {:induction false} PredictionsSummarise(teams: seq<Team>, tables: seq<seq<StandingRow>>)
    requires UniqueTeams(teams) && teams != [] && tables != []
    requires Tallied(ById(teams), Tallies(teams, tables))
    ensures Summarises(Predictions(teams, tables), ById(teams), Tallies(teams, tables), |tables|)
  {
    var ps, counts := Predictions(teams, tables), Tallies(teams, tables);
    ByIdKeys(teams);
    forall i | 0 <= i < |ps|
      ensures ps[i].teamId in counts && ps[i] == PredictionOf(ById(teams)[ps[i].teamId], counts[ps[i].teamId], |tables|)
    {
      ByIdAt(teams, i);
    }
    forall p: Prediction | p.teamId in counts && p == PredictionOf(ById(teams)[p.teamId], counts[p.teamId], |tables|)
      ensures p in ps
    {
      var i :| 0 <= i < |teams| && teams[i].id == p.teamId;
      ByIdAt(teams, i);
      assert ps[i] == p;
    }
    DifferentEach(ps);
  }
}
