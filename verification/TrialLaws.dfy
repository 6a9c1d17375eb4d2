/** What the trials of a forecast and its predictions are, said without the functions that compute them. */
module TrialLaws {
  import opened Seqs
  import opened Domain
  import opened Standings
  import opened TableLaws
  import opened Trials
  import opened MonteCarlo
  import opened ForecastLaws

  // ----- trials

  /** Trial i ranks the played results together with the scheduled matches, each played out in turn: the first from the
      trial's own generator, each further one from the state its predecessor left. */
  lemma {:induction false} TrialIsChain(teams: seq<Team>, ms: seq<Match>, sim: Simulator, rngs: nat -> Rng,
                                        simulations: nat, i: nat) returns (g: seq<Simulated>)
    requires i < simulations
    ensures forall m :: m in Filter(ms, IsPlayed()) <==> m in ms && m.outcome.Played?
    ensures forall m :: m in Filter(ms, IsScheduled()) <==> m in ms && m.outcome.Scheduled?
    ensures var scheduled := Filter(ms, IsScheduled());
            && IsChain(scheduled, ById(teams), sim, rngs(i), g)
            && TrialTables(teams, ms, sim, rngs, simulations)[i] ==
               Table(teams, Filter(ms, IsPlayed()) + WithScores(scheduled, g))
  {
    hide Table, PlayedOut;
    g := ChainOf(Filter(ms, IsScheduled()), ById(teams), sim, rngs(i));
  }

  function AtHome(id: nat): Match -> bool { (m: Match) => m.home == id }
  function Visiting(id: nat): Match -> bool { (m: Match) => m.away == id }

  /** Every trial plays the whole season: each team has played all its matches, the played and the scheduled alike. */
  lemma {:induction false} TrialPlaysAll(teams: seq<Team>, ms: seq<Match>, sim: Simulator, rngs: nat -> Rng,
                                         simulations: nat, i: nat, k: nat)
    requires UniqueTeams(teams) && i < simulations && k < |teams|
    ensures |TrialTables(teams, ms, sim, rngs, simulations)[i]| == |teams|
    ensures var row := TrialTables(teams, ms, sim, rngs, simulations)[i][k];
            row.stats.played == Count(ms, AtHome(row.teamId)) + Count(ms, Visiting(row.teamId))
  {
    hide Table, Tally;
    var season := Completed(teams, ms, sim, rngs(i));
    var id := Table(teams, season)[k].teamId;
    TableRowIsTally(teams, season, k);
    TallyIsColumns(id, season);
    AppearancesAreMatches(id, season);
    CompletedCounts(teams, ms, sim, rngs(i), AtHome(id));
    CompletedCounts(teams, ms, sim, rngs(i), Visiting(id));
  }

  lemma {:induction false} AppearancesAreMatches(id: nat, ms: seq<Match>)
    requires forall m :: m in ms ==> m.outcome.Played?
    ensures Column(id, ms, Appearances) == Count(ms, AtHome(id)) + Count(ms, Visiting(id))
  {
    if ms != [] {
      assert ms[|ms| - 1] in ms && forall m :: m in ms[..|ms| - 1] ==> m in ms;
      AppearancesAreMatches(id, ms[..|ms| - 1]);
      ColumnStep(id, ms, Appearances);
    }
  }

  /** A trial has the fixtures it started from: what is said of the two sides holds of as many matches as before. */
  lemma {:induction false} CompletedCounts(teams: seq<Team>, ms: seq<Match>, sim: Simulator, rng: Rng, p: Match -> bool)
    requires forall m: Match, o: Outcome :: p(m.(outcome := o)) == p(m)
    ensures Count(Completed(teams, ms, sim, rng), p) == Count(ms, p)
  {
    var played, scheduled := Filter(ms, IsPlayed()), Filter(ms, IsScheduled());
    var rest := PlayedOut(scheduled, ById(teams), sim, rng);
    CountAppend(played, rest, p);
    CountCongruence(rest, scheduled, p, p);
    PartitionCount(ms, p);
  }

  lemma {:induction false} PartitionCount(ms: seq<Match>, p: Match -> bool)
    ensures Count(Filter(ms, IsPlayed()), p) + Count(Filter(ms, IsScheduled()), p) == Count(ms, p)
  {
    var pp := (m: Match) => m.outcome.Played? && p(m);
    var ps := (m: Match) => m.outcome.Scheduled? && p(m);
    CountFilter(ms, IsPlayed(), p, pp);
    CountFilter(ms, IsScheduled(), p, ps);
    CountSplit(ms, pp, ps, p);
  }

  // ----- predictions

  /** The rank the table gives a team. */
  function RankOf(id: nat): seq<StandingRow> -> int {
    (table: seq<StandingRow>) => RankFrom(table, id)
  }

  function RankFrom(table: seq<StandingRow>, id: nat): int {
    if table == [] then 0
    else if table[|table| - 1].teamId == id then table[|table| - 1].rank else RankFrom(table[..|table| - 1], id)
  }

  function Ranks(id: nat, rank: int): seq<StandingRow> -> bool {
    (table: seq<StandingRow>) => RankFrom(table, id) == rank
  }

  /** Every team once, and the ranks in the rows are their positions. */
  ghost predicate IsNumbered(table: seq<StandingRow>, teams: seq<Team>) {
    IsRanking(table, teams) && forall i :: 0 <= i < |table| ==> table[i].rank == i + 1
  }

  lemma {:induction false} TrialIsNumbered(teams: seq<Team>, ms: seq<Match>)
    requires UniqueTeams(teams)
    ensures IsNumbered(Table(teams, ms), teams)
  {
    hide IsRanking;
    TableIsRanking(teams, ms);
    TableIsTable(teams, ms);
  }

  lemma {:induction false} RankFromAt(table: seq<StandingRow>, i: nat)
    requires forall i, j :: 0 <= i < j < |table| ==> table[i].teamId != table[j].teamId
    requires i < |table|
    ensures RankFrom(table, table[i].teamId) == table[i].rank
  {
    if i < |table| - 1 { RankFromAt(table[..|table| - 1], i); }
  }

  /** Being ranked r + 1 is standing at position r. */
  lemma {:induction false} RankIsPosition(table: seq<StandingRow>, teams: seq<Team>, team: Team, r: nat)
    requires IsNumbered(table, teams) && team in teams && r < |teams|
    ensures Ranks(team.id, r + 1)(table) <==> FinishesAt(team.id, r)(table)
    ensures 1 <= RankFrom(table, team.id) <= |teams|
  {
    var i :| 0 <= i < |table| && table[i].teamId == team.id;
    RankFromAt(table, i);
    if table[r].teamId == team.id { RankFromAt(table, r); }
  }

  lemma {:induction false} CountsAreRanks(teams: seq<Team>, tables: seq<seq<StandingRow>>, team: Team, r: nat)
    requires (forall i :: 0 <= i < |tables| ==> IsNumbered(tables[i], teams)) && team in teams && r < |teams|
    ensures CountsOf(team.id, |teams|, tables)[r] == Count(tables, Ranks(team.id, r + 1))
  {
    hide IsNumbered;
    forall i | 0 <= i < |tables|
      ensures FinishesAt(team.id, r)(tables[i]) == Ranks(team.id, r + 1)(tables[i])
    {
      RankIsPosition(tables[i], teams, team, r);
    }
    CountCongruence(tables, tables, FinishesAt(team.id, r), Ranks(team.id, r + 1));
  }

  function TermAt(table: seq<StandingRow>, id: nat): int -> int {
    (r: int) => (r + 1) * OneAt(table, id)(r)
  }

  /** The weighted counts are the ranks, summed over the trials. */
  lemma {:induction false} WeightIsRanks(teams: seq<Team>, tables: seq<seq<StandingRow>>, team: Team)
    requires (forall i :: 0 <= i < |tables| ==> IsNumbered(tables[i], teams)) && team in teams
    ensures Sum(|teams|, WeightIn(tables, team.id)) == Total(tables, RankOf(team.id))
  {
    assert tables != [] ==> |tables[|tables| - 1]| == |teams|;
    hide IsNumbered, RankFrom;
    var n, id := |teams|, team.id;
    if tables == [] {
      forall r | 0 <= r < n ensures WeightIn(tables, id)(r) == 0 {
        assert CountIn(tables, id)(r) == 0;
        assert (r + 1) * 0 == 0;
      }
      SumCongruence(n, WeightIn(tables, id), _ => 0);
      SumZero(n);
    } else {
      var init, last := tables[..|tables| - 1], tables[|tables| - 1];
      WeightIsRanks(teams, init, team);
      forall r | 0 <= r < n ensures WeightIn(tables, id)(r) == WeightIn(init, id)(r) + TermAt(last, id)(r) {
        WeightInStep(tables, id, r);
      }
      SumAdd(n, WeightIn(init, id), TermAt(last, id), WeightIn(tables, id));
      OneTable(teams, last, team);
    }
  }

  lemma {:induction false} WeightInStep(tables: seq<seq<StandingRow>>, id: nat, r: nat)
    requires tables != [] && r < |tables[|tables| - 1]|
    ensures WeightIn(tables, id)(r) ==
            WeightIn(tables[..|tables| - 1], id)(r) + TermAt(tables[|tables| - 1], id)(r)
  {
    var init, last := tables[..|tables| - 1], tables[|tables| - 1];
    assert CountIn(tables, id)(r) == CountIn(init, id)(r) + OneAt(last, id)(r);
  }

  lemma {:induction false} OneTable(teams: seq<Team>, table: seq<StandingRow>, team: Team)
    requires IsNumbered(table, teams) && team in teams
    ensures Sum(|teams|, TermAt(table, team.id)) == RankFrom(table, team.id)
  {
    var id := team.id;
    var k :| 0 <= k < |table| && table[k].teamId == id;
    forall r | 0 <= r < |teams| && r != k ensures TermAt(table, id)(r) == 0 {
      assert OneAt(table, id)(r) == 0;
      assert (r + 1) * 0 == 0;
    }
    SumSingle(|teams|, TermAt(table, id), k);
    assert OneAt(table, id)(k) == 1 && (k + 1) * 1 == k + 1;
    RankFromAt(table, k);
  }

  /** A prediction in terms of the trials' tables: the share of first places, the mean rank, and the best of the ranks
      held most often. */
  ghost predicate Predicts(p: Prediction, teams: seq<Team>, tables: seq<seq<StandingRow>>)
    requires tables != []
  {
    && (exists t :: t in teams && p.teamId == t.id && p.teamName == t.name)
    && p.chance == 100.0 * Count(tables, Ranks(p.teamId, 1)) as real / |tables| as real
    && p.average == Total(tables, RankOf(p.teamId)) as real / |tables| as real
    && 1 <= p.mode <= |teams|
    && (forall r :: 1 <= r <= |teams| ==> Count(tables, Ranks(p.teamId, r)) <= Count(tables, Ranks(p.teamId, p.mode)))
    && (forall r :: 1 <= r < p.mode ==> Count(tables, Ranks(p.teamId, r)) < Count(tables, Ranks(p.teamId, p.mode)))
  }

  lemma {:induction false} PredictionMeans(teams: seq<Team>, tables: seq<seq<StandingRow>>, team: Team)
    requires (forall i :: 0 <= i < |tables| ==> IsNumbered(tables[i], teams)) && tables != [] && team in teams
    ensures Predicts(PredictionOf(team, CountsOf(team.id, |teams|, tables), |tables|), teams, tables)
  {
    hide IsNumbered, Weighted, ModeUpTo, Count, Total, CountsOf, RankFrom;
    var counts := CountsOf(team.id, |teams|, tables);
    var p := PredictionOf(team, counts, |tables|);
    forall r | 0 <= r < |teams| ensures counts[r] == Count(tables, Ranks(team.id, r + 1)) {
      CountsAreRanks(teams, tables, team, r);
    }
    WeightedIsTo(teams, tables, team.id);
    WeightIsRanks(teams, tables, team);
    ModeIsFirstLargest(counts, |counts|);
    SomeRank(teams, tables, team);
    forall r | 1 <= r <= |teams| ensures Count(tables, Ranks(team.id, r)) == counts[r - 1] {
      assert counts[r - 1] == Count(tables, Ranks(team.id, r - 1 + 1));
    }
  }

  /** A team holds some rank in some trial. */
  lemma {:induction false} SomeRank(teams: seq<Team>, tables: seq<seq<StandingRow>>, team: Team)
    requires (forall i :: 0 <= i < |tables| ==> IsNumbered(tables[i], teams)) && tables != [] && team in teams
    ensures exists r :: 0 <= r < |teams| && CountsOf(team.id, |teams|, tables)[r] > 0
  {
    var table := tables[0];
    var k :| 0 <= k < |table| && table[k].teamId == team.id;
    CountPositive(tables, FinishesAt(team.id, k), 0);
    assert CountsOf(team.id, |teams|, tables)[k] > 0;
  }

  /** Every entry of every forecast, in terms of the tables of the trials. */
  lemma {:induction false} ForecastMeans(teams: seq<Team>, ms: seq<Match>, sim: Simulator, rngs: nat -> Rng,
                                         simulations: nat)
    requires UniqueTeams(teams) && simulations > 0
    ensures var tables := TrialTables(teams, ms, sim, rngs, simulations); var out := Forecast(teams, tables);
            && (forall p :: p in out ==> Predicts(p, teams, tables))
            && (forall t :: t in teams ==> exists p :: p in out && p.teamId == t.id)
  {
    hide Table, Completed, IsNumbered, Predicts;
    var tables := TrialTables(teams, ms, sim, rngs, simulations);
    var out, ps := Forecast(teams, tables), Predictions(teams, tables);
    forall i | 0 <= i < |tables| ensures IsNumbered(tables[i], teams) {
      TrialIsNumbered(teams, Completed(teams, ms, sim, rngs(i)));
    }
    SameElements(ps, out);
    forall p | p in out ensures Predicts(p, teams, tables) {
      var k :| 0 <= k < |ps| && ps[k] == p;
      PredictionMeans(teams, tables, teams[k]);
    }
    forall t | t in teams ensures exists p :: p in out && p.teamId == t.id {
      var k :| 0 <= k < |teams| && teams[k] == t;
      assert ps[k] in out;
    }
  }

}
