/** What every forecast conserves, and the clinched title. */
module ForecastLaws {
  import opened Seqs
  import opened Sorting
  import opened Text
  import opened Domain
  import opened Standings
  import opened TableLaws
  import opened Trials
  import opened MonteCarlo

  // ----- every trial ranks every team once

  ghost predicate IsRanking(table: seq<StandingRow>, teams: seq<Team>) {
    && |table| == |teams|
    && (forall i :: 0 <= i < |table| ==> Listed(teams, table[i].teamId))
    && (forall i, j :: 0 <= i < j < |table| ==> table[i].teamId != table[j].teamId)
    && (forall t :: t in teams ==> exists i :: 0 <= i < |table| && table[i].teamId == t.id)
  }

  lemma {:induction false} TableIsRanking(teams: seq<Team>, ms: seq<Match>)
    requires UniqueTeams(teams)
    ensures IsRanking(Table(teams, ms), teams)
  {
    TableIsTable(teams, ms);
    ByIdKeys(teams);
    forall t | t in teams ensures exists i :: 0 <= i < |teams| && Table(teams, ms)[i].teamId == t.id {
      var k :| 0 <= k < |teams| && teams[k] == t;
      assert teams[k].id in RowMap(ById(teams), ms);
    }
  }

  function OneAt(table: seq<StandingRow>, id: nat): int -> int {
    (r: int) => if 0 <= r < |table| && table[r].teamId == id then 1 else 0
  }

  function CountIn(tables: seq<seq<StandingRow>>, id: nat): int -> int {
    (r: int) => if r >= 0 then Count(tables, FinishesAt(id, r)) else 0
  }

  /** After t trials a team's rank counts sum to t. */
  lemma {:induction false} RankCountsSum(teams: seq<Team>, tables: seq<seq<StandingRow>>, team: Team)
    requires team in teams && forall i :: 0 <= i < |tables| ==> IsRanking(tables[i], teams)
    ensures Sum(|teams|, CountIn(tables, team.id)) == |tables|
  {
    var n, id := |teams|, team.id;
    if tables == [] {
      SumCongruence(n, CountIn(tables, id), _ => 0);
      SumZero(n);
    } else {
      var init, last := tables[..|tables| - 1], tables[|tables| - 1];
      RankCountsSum(teams, init, team);
      SumAdd(n, CountIn(init, id), OneAt(last, id), CountIn(tables, id));
      var k :| 0 <= k < |last| && last[k].teamId == id;
      SumSingle(n, OneAt(last, id), k);
    }
  }

  function CountAtRank(tables: seq<seq<StandingRow>>, r: nat): Team -> int {
    (t: Team) => Count(tables, FinishesAt(t.id, r))
  }

  /** After t trials a rank's counts over the teams sum to t. */
  lemma {:induction false} TeamCountsSum(teams: seq<Team>, tables: seq<seq<StandingRow>>, r: nat)
    requires forall i, j :: 0 <= i < j < |teams| ==> teams[i].id != teams[j].id
    requires r < |teams| && forall i :: 0 <= i < |tables| ==> IsRanking(tables[i], teams)
    ensures Total(teams, CountAtRank(tables, r)) == |tables|
  {
    if tables == [] {
      TotalZero(teams, CountAtRank(tables, r));
    } else {
      var init, last := tables[..|tables| - 1], tables[|tables| - 1];
      TeamCountsSum(teams, init, r);
      var hit := (t: Team) => if t.id == last[r].teamId then 1 else 0;
      HitOnce(teams, last[r].teamId, 1, hit);
      TotalAdd(teams, CountAtRank(init, r), hit, CountAtRank(tables, r));
    }
  }

  // ----- the forecast's columns

  function ChanceOf(p: Prediction): real { p.chance }
  function AverageOf(p: Prediction): real { p.average }

  function WeightedTo(tables: seq<seq<StandingRow>>, k: nat): Team -> int {
    (t: Team) => Sum(k, WeightIn(tables, t.id))
  }

  function WeightIn(tables: seq<seq<StandingRow>>, id: nat): int -> int {
    (r: int) => (r + 1) * CountIn(tables, id)(r)
  }

  lemma {:induction false} WeightedTotal(teams: seq<Team>, tables: seq<seq<StandingRow>>, k: nat)
    requires forall r :: 0 <= r < k ==> Total(teams, CountAtRank(tables, r)) == |tables|
    ensures 2 * Total(teams, WeightedTo(tables, k)) == |tables| * (k * (k + 1))
  {
    if k == 0 {
      TotalZero(teams, WeightedTo(tables, 0));
    } else {
      WeightedTotal(teams, tables, k - 1);
      WeightedStep(teams, tables, k);
      Triangular(|tables|, k);
    }
  }

  lemma {:induction false} WeightedStep(teams: seq<Team>, tables: seq<seq<StandingRow>>, k: nat)
    requires k > 0
    ensures Total(teams, WeightedTo(tables, k)) ==
            Total(teams, WeightedTo(tables, k - 1)) + k * Total(teams, CountAtRank(tables, k - 1))
  {
    var count := CountAtRank(tables, k - 1);
    var term := (t: Team) => k * count(t);
    TotalScale(teams, k, count, term);
    forall t: Team ensures WeightedTo(tables, k)(t) == WeightedTo(tables, k - 1)(t) + term(t) {
      WeightStep(tables, t.id, k);
    }
    TotalAdd(teams, WeightedTo(tables, k - 1), term, WeightedTo(tables, k));
  }

  lemma {:induction false} WeightStep(tables: seq<seq<StandingRow>>, id: nat, k: nat)
    requires k > 0
    ensures Sum(k, WeightIn(tables, id)) == Sum(k - 1, WeightIn(tables, id)) + k * Count(tables, FinishesAt(id, k - 1))
  {
    var c := CountIn(tables, id)(k - 1);
    assert WeightIn(tables, id)(k - 1) == (k - 1 + 1) * c;
    assert c == Count(tables, FinishesAt(id, k - 1));
  }

  lemma {:induction false} Triangular(t: nat, k: nat)
    ensures t * (k * (k + 1)) == t * ((k - 1) * k) + 2 * (k * t)
  {
    assert k * (k + 1) == (k - 1) * k + 2 * k;
  }

  lemma {:induction false} WeightedIsTo(teams: seq<Team>, tables: seq<seq<StandingRow>>, id: nat)
    ensures Weighted(CountsOf(id, |teams|, tables)) == Sum(|teams|, WeightIn(tables, id))
  {
    var counts := CountsOf(id, |teams|, tables);
    forall r | 0 <= r < |teams| ensures (r + 1) * counts[r] == WeightIn(tables, id)(r) {
      assert counts[r] == CountIn(tables, id)(r);
    }
    SumCongruence(|teams|, r => if 0 <= r < |counts| then (r + 1) * counts[r] else 0, WeightIn(tables, id));
  }

  /** The chances sum to 100. */
  lemma {:induction false} ChancesSum(teams: seq<Team>, tables: seq<seq<StandingRow>>)
    requires UniqueTeams(teams) && teams != [] && tables != []
    requires forall i :: 0 <= i < |tables| ==> IsRanking(tables[i], teams)
    ensures RealTotal(Forecast(teams, tables), ChanceOf) == 100.0
  {
    hide Predictions, IsRanking, RealTotal, Total, Sorted;
    var ps, d := Predictions(teams, tables), |tables| as real / 100.0;
    RealTotalPermutation(Forecast(teams, tables), ps, ChanceOf);
    ChanceFractions(teams, tables);
    RealTotalFractions(ps, teams, ChanceOf, CountAtRank(tables, 0), d);
    TeamCountsSum(teams, tables, 0);
    Whole(|tables| as real);
  }

  lemma {:induction false} ChanceFractions(teams: seq<Team>, tables: seq<seq<StandingRow>>)
    requires teams != [] && tables != []
    ensures forall i :: 0 <= i < |teams| ==>
              ChanceOf(Predictions(teams, tables)[i]) ==
              CountAtRank(tables, 0)(teams[i]) as real / (|tables| as real / 100.0)
  {
    forall i | 0 <= i < |teams|
      ensures ChanceOf(Predictions(teams, tables)[i]) ==
              CountAtRank(tables, 0)(teams[i]) as real / (|tables| as real / 100.0)
    {
      Percent(CountAtRank(tables, 0)(teams[i]) as real, |tables| as real);
    }
  }

  lemma {:induction false} Whole(t: real)
    requires t > 0.0
    ensures t / (t / 100.0) == 100.0 && t / t * 100.0 == 100.0 && 0.0 / t * 100.0 == 0.0
  {
    Percent(t, t);
    assert t / t == 1.0;
  }

  lemma {:induction false} Percent(x: real, t: real)
    requires t > 0.0
    ensures x / t * 100.0 == x / (t / 100.0)
  {
    var q := x / t;
    assert q * t == x;
    assert (q * 100.0) * (t / 100.0) == x;
  }

  /** The average positions sum to n(n + 1) / 2. */
  lemma {:induction false} AveragesSum(teams: seq<Team>, tables: seq<seq<StandingRow>>)
    requires UniqueTeams(teams) && teams != [] && tables != []
    requires forall i :: 0 <= i < |tables| ==> IsRanking(tables[i], teams)
    ensures 2.0 * RealTotal(Forecast(teams, tables), AverageOf) == (|teams| * (|teams| + 1)) as real
  {
    forall r | 0 <= r < |teams| ensures Total(teams, CountAtRank(tables, r)) == |tables| {
      TeamCountsSum(teams, tables, r);
    }
    AveragesFromCounts(teams, tables);
  }

  lemma {:induction false} AveragesFromCounts(teams: seq<Team>, tables: seq<seq<StandingRow>>)
    requires teams != [] && tables != []
    requires forall r :: 0 <= r < |teams| ==> Total(teams, CountAtRank(tables, r)) == |tables|
    ensures 2.0 * RealTotal(Forecast(teams, tables), AverageOf) == (|teams| * (|teams| + 1)) as real
  {
    var ps, n := Predictions(teams, tables), |teams|;
    RealTotalPermutation(Forecast(teams, tables), ps, AverageOf);
    AverageFractions(teams, tables);
    RealTotalFractions(ps, teams, AverageOf, WeightedTo(tables, n), |tables| as real);
    WeightedTotal(teams, tables, n);
    DivideOut(Total(teams, WeightedTo(tables, n)), |tables|, n * (n + 1));
  }

  lemma {:induction false} AverageFractions(teams: seq<Team>, tables: seq<seq<StandingRow>>)
    requires teams != [] && tables != []
    ensures forall i :: 0 <= i < |teams| ==>
              AverageOf(Predictions(teams, tables)[i]) ==
              WeightedTo(tables, |teams|)(teams[i]) as real / |tables| as real
  {
    forall i | 0 <= i < |teams|
      ensures AverageOf(Predictions(teams, tables)[i]) ==
              WeightedTo(tables, |teams|)(teams[i]) as real / |tables| as real
    {
      WeightedIsTo(teams, tables, teams[i].id);
    }
  }

  lemma {:induction false} DivideOut(w: int, t: nat, m: int)
    requires t > 0 && 2 * w == t * m
    ensures 2.0 * (w as real / t as real) == m as real
  {
    var q := w as real / t as real;
    assert q * t as real == w as real;
    assert (2.0 * q - m as real) * t as real == 0.0;
  }

  // ----- the mode

  /** Every forecast over t trials: t finishes for each team and for each rank, chances of 100 in all,
      positions of n(n + 1) / 2. */
  lemma {:induction false} ForecastConserves(teams: seq<Team>, ms: seq<Match>, sim: Simulator, rngs: nat -> Rng,
                                             simulations: nat)
    requires UniqueTeams(teams) && teams != [] && simulations > 0
    ensures var tables := TrialTables(teams, ms, sim, rngs, simulations); var out := Forecast(teams, tables);
            && RealTotal(out, ChanceOf) == 100.0
            && 2.0 * RealTotal(out, AverageOf) == (|teams| * (|teams| + 1)) as real
            && (forall team :: team in teams ==> Sum(|teams|, CountIn(tables, team.id)) == simulations)
            && (forall r :: 0 <= r < |teams| ==> Total(teams, CountAtRank(tables, r)) == simulations)
  {
    hide Table, Completed, Forecast, IsRanking;
    var tables := TrialTables(teams, ms, sim, rngs, simulations);
    forall i | 0 <= i < |tables| ensures IsRanking(tables[i], teams) {
      TableIsRanking(teams, Completed(teams, ms, sim, rngs(i)));
    }
    ChancesSum(teams, tables);
    AveragesSum(teams, tables);
    forall team | team in teams ensures Sum(|teams|, CountIn(tables, team.id)) == simulations {
      RankCountsSum(teams, tables, team);
    }
    forall r | 0 <= r < |teams| ensures Total(teams, CountAtRank(tables, r)) == simulations {
      TeamCountsSum(teams, tables, r);
    }
  }

  /** Higher chance first, then the better average position, then the name. */
  lemma {:induction false} ForecastOrder(teams: seq<Team>, tables: seq<seq<StandingRow>>, i: nat, j: nat)
    requires tables != [] && i < j < |teams|
    ensures var a, b := Forecast(teams, tables)[i], Forecast(teams, tables)[j];
            && a.chance >= b.chance
            && (a.chance == b.chance ==> a.average <= b.average)
            && (a.chance == b.chance && a.average == b.average ==>
                  a.teamName == b.teamName || Alphabetical(a.teamName, b.teamName))
  {
    hide Predictions, StringLess, Alphabetical;
    PredictionLessIsStrictWeakOrder();
    SortedIsSorted(Predictions(teams, tables), PredictionLess);
    var a, b := Forecast(teams, tables)[i], Forecast(teams, tables)[j];
    assert !PredictionLess(b, a);
    StringLessTrichotomy(a.teamName, b.teamName);
    StringLessIsAlphabetical(a.teamName, b.teamName);
  }

  /** The mode is the best rank among those held most often. */
  lemma {:induction false} ModeIsFirstLargest(counts: seq<nat>, k: nat)
    requires k <= |counts|
    ensures var mode := ModeUpTo(counts, k);
            && (forall r :: 0 <= r < k ==> counts[r] <= CountAt(counts, mode))
            && (forall r :: 0 <= r < mode - 1 ==> counts[r] < counts[mode - 1])
            && (mode == 0 <==> forall r :: 0 <= r < k ==> counts[r] == 0)
  {
    if k > 0 { ModeIsFirstLargest(counts, k - 1); }
  }

  // ----- a clinched title

  function RemainingOf(id: nat): Match -> bool {
    (m: Match) => m.outcome.Scheduled? && m.Involves(id)
  }

  function Involving(id: nat): Match -> bool {
    (m: Match) => m.Involves(id)
  }

  /** Ahead of every rival by more than that rival can still win. */
  ghost predicate Clinched(teams: seq<Team>, ms: seq<Match>, leader: Team) {
    && leader in teams
    && forall t: Team :: t in teams && t.id != leader.id ==>
         Tally(leader.id, ms).points > Tally(t.id, ms).points + 3 * Count(ms, RemainingOf(t.id))
  }

  lemma {:induction false} PointsWithin(id: nat, ms: seq<Match>)
    ensures 0 <= Column(id, ms, PointsFor) <= 3 * Count(ms, Involving(id))
  {
    if ms != [] {
      PointsWithin(id, ms[..|ms| - 1]);
      ColumnStep(id, ms, PointsFor);
    }
  }

  /** A team ends the season with what it has, plus at most three points for each match it has left. */
  lemma {:induction false} CompletedPoints(teams: seq<Team>, ms: seq<Match>, sim: Simulator, rng: Rng, id: nat)
    ensures var now, end := Tally(id, ms).points, Tally(id, Completed(teams, ms, sim, rng)).points;
            now <= end <= now + 3 * Count(ms, RemainingOf(id))
  {
    var played, scheduled := Filter(ms, IsPlayed()), Filter(ms, IsScheduled());
    var rest := PlayedOut(scheduled, ById(teams), sim, rng);
    TallyIsColumns(id, played);
    TallyIsColumns(id, Completed(teams, ms, sim, rng));
    TallyFilter(id, ms, IsPlayed());
    TotalAppend(played, rest, Gain(id, PointsFor));
    PointsWithin(id, rest);
    CountCongruence(rest, scheduled, Involving(id), Involving(id));
    CountFilter(ms, IsScheduled(), Involving(id), RemainingOf(id));
  }

  /** Strictly most points is first place. */
  lemma {:induction false} MostPointsFirst(teams: seq<Team>, ms: seq<Match>, leader: Team)
    requires UniqueTeams(teams) && leader in teams
    requires forall t: Team :: t in teams && t.id != leader.id ==> Tally(leader.id, ms).points > Tally(t.id, ms).points
    ensures Table(teams, ms) != [] && Table(teams, ms)[0].teamId == leader.id
  {
    hide Table, Tally, ById;
    var table, rows := Table(teams, ms), RowMap(ById(teams), ms);
    TableIsTable(teams, ms);
    ByIdKeys(teams);
    var k :| 0 <= k < |teams| && teams[k] == leader;
    assert leader.id in rows;
    var i :| 0 <= i < |table| && table[i].teamId == leader.id;
    TopOfTable(table, rows, i);
    var first := ById(teams)[table[0].teamId];
    assert first in teams && first.id == table[0].teamId;
    assert table[0].stats == Tally(first.id, ms) && table[i].stats == Tally(leader.id, ms);
  }

  lemma {:induction false} TopOfTable(table: seq<StandingRow>, rows: map<nat, StandingRow>, i: nat)
    requires IsTable(table, rows) && i < |table|
    ensures table[0].teamId in rows && table[0].stats == rows[table[0].teamId].stats
    ensures table[i].teamId in rows && table[i].stats == rows[table[i].teamId].stats
    ensures table[0].stats.points >= table[i].stats.points
  {
    var top, own := table[0], table[i];
    assert Unranked(top) == rows[top.teamId] && Unranked(own) == rows[own.teamId];
    assert i == 0 || !RowLess(own, top);
  }

  lemma {:induction false} ClinchedEveryTrial(teams: seq<Team>, ms: seq<Match>, sim: Simulator, rng: Rng, leader: Team)
    requires UniqueTeams(teams) && Clinched(teams, ms, leader)
    ensures Table(teams, Completed(teams, ms, sim, rng)) != []
    ensures Table(teams, Completed(teams, ms, sim, rng))[0].teamId == leader.id
  {
    var season := Completed(teams, ms, sim, rng);
    forall t | t in teams && t.id != leader.id ensures Tally(leader.id, season).points > Tally(t.id, season).points {
      CompletedPoints(teams, ms, sim, rng, leader.id);
      CompletedPoints(teams, ms, sim, rng, t.id);
    }
    MostPointsFirst(teams, season, leader);
  }

  lemma {:induction false} CertainChampion(tables: seq<seq<StandingRow>>, id: nat, leader: nat)
    requires forall i :: 0 <= i < |tables| ==> tables[i] != [] && tables[i][0].teamId == leader
    ensures Count(tables, FinishesAt(id, 0)) == if id == leader then |tables| else 0
  {
    if id == leader { CountAll(tables, FinishesAt(id, 0)); } else { CountNone(tables, FinishesAt(id, 0)); }
  }

  lemma {:induction false} FirstCountLargest(counts: seq<nat>, k: nat)
    requires 1 <= k <= |counts| && counts[0] > 0 && forall r :: 0 <= r < |counts| ==> counts[r] <= counts[0]
    ensures ModeUpTo(counts, k) == 1
  {
    if k > 1 {
      FirstCountLargest(counts, k - 1);
    } else {
      assert ModeUpTo(counts, 0) == 0;
    }
  }

  lemma {:induction false} ChampionPrediction(teams: seq<Team>, tables: seq<seq<StandingRow>>, team: Team, leader: nat)
    requires teams != [] && tables != []
    requires forall i :: 0 <= i < |tables| ==> tables[i] != [] && tables[i][0].teamId == leader
    ensures var p := PredictionOf(team, CountsOf(team.id, |teams|, tables), |tables|);
            if team.id == leader then p.chance == 100.0 && p.mode == 1 else p.chance == 0.0
  {
    var counts := CountsOf(team.id, |teams|, tables);
    CertainChampion(tables, team.id, leader);
    Whole(|tables| as real);
    assert counts[0] == Count(tables, FinishesAt(team.id, 0));
    if team.id == leader {
      forall r | 0 <= r < |counts| ensures counts[r] <= counts[0] {
        CountAtMost(tables, FinishesAt(team.id, r));
      }
      FirstCountLargest(counts, |counts|);
    }
  }

  /** A mathematically clinched title reads 100 in every forecast, whatever the simulator returns. */
  lemma {:induction false} ClinchedTitle(teams: seq<Team>, ms: seq<Match>, sim: Simulator, rngs: nat -> Rng,
                                         simulations: nat, leader: Team)
    requires UniqueTeams(teams) && simulations > 0 && Clinched(teams, ms, leader)
    ensures var out := Forecast(teams, TrialTables(teams, ms, sim, rngs, simulations));
            && out != [] && out[0].teamId == leader.id && out[0].chance == 100.0 && out[0].mode == 1
            && forall i :: 1 <= i < |out| ==> out[i].teamId != leader.id && out[i].chance == 0.0
  {
    var tables: seq<seq<StandingRow>> := TrialTables(teams, ms, sim, rngs, simulations);
    forall i | 0 <= i < |tables| ensures tables[i] != [] && tables[i][0].teamId == leader.id {
      ClinchedEveryTrial(teams, ms, sim, rngs(i), leader);
    }
    LeaderListedFirst(teams, tables, leader);
  }

  lemma {:induction false} LeaderListedFirst(teams: seq<Team>, tables: seq<seq<StandingRow>>, leader: Team)
    requires UniqueTeams(teams) && leader in teams && tables != []
    requires forall i :: 0 <= i < |tables| ==> tables[i] != [] && tables[i][0].teamId == leader.id
    ensures var out := Forecast(teams, tables);
            && out != [] && out[0].teamId == leader.id && out[0].chance == 100.0 && out[0].mode == 1
            && forall i :: 1 <= i < |out| ==> out[i].teamId != leader.id && out[i].chance == 0.0
  {
    var ps, out := Predictions(teams, tables), Forecast(teams, tables);
    forall i | 0 <= i < |ps|
      ensures Decided(ps[i], leader.id)
    {
      ChampionPrediction(teams, tables, teams[i], leader.id);
    }
    PredictionLessIsStrictWeakOrder();
    SortedIsSorted(ps, PredictionLess);
    LeaderFirst(ps, out, leader.id, teams);
  }

  ghost predicate Decided(p: Prediction, leader: nat) {
    if p.teamId == leader then p.chance == 100.0 && p.mode == 1 else p.chance == 0.0
  }

  lemma {:induction false} LeaderFirst(ps: seq<Prediction>, out: seq<Prediction>, leader: nat, teams: seq<Team>)
    requires UniqueTeams(teams) && |ps| == |teams| && forall i :: 0 <= i < |ps| ==> ps[i].teamId == teams[i].id
    requires Listed(teams, leader) && multiset(out) == multiset(ps) && NoInversion(out, PredictionLess)
    requires forall i :: 0 <= i < |ps| ==> Decided(ps[i], leader)
    ensures out != [] && out[0].teamId == leader && out[0].chance == 100.0 && out[0].mode == 1
    ensures forall i :: 1 <= i < |out| ==> out[i].teamId != leader && out[i].chance == 0.0
  {
    hide NoInversion;
    SameElements(ps, out);
    var k :| 0 <= k < |teams| && teams[k].id == leader;
    assert ps[k] in out;
    var j :| 0 <= j < |out| && out[j] == ps[k];
    ChampionAtTop(out, leader, j);
    assert out[0] in out;
    forall i | 1 <= i < |out| ensures out[i].teamId != leader && out[i].chance == 0.0 {
      OtherTeams(ps, out, i);
      assert out[i] in out;
    }
  }

  lemma {:induction false} SameElements(a: seq<Prediction>, b: seq<Prediction>)
    requires multiset(a) == multiset(b)
    ensures forall x :: x in a <==> x in b
  {
    assert forall x :: x in a <==> x in multiset(a);
    assert forall x :: x in b <==> x in multiset(b);
  }

  lemma {:induction false} ChampionAtTop(out: seq<Prediction>, leader: nat, j: nat)
    requires NoInversion(out, PredictionLess) && forall x :: x in out ==> Decided(x, leader)
    requires j < |out| && out[j].teamId == leader
    ensures out[0].teamId == leader
  {
    var top, own := out[0], out[j];
    assert top in out && own in out;
    assert j == 0 || !PredictionLess(own, top);
  }

  lemma {:induction false} OtherTeams(ps: seq<Prediction>, out: seq<Prediction>, i: nat)
    requires forall i, j :: 0 <= i < j < |ps| ==> ps[i].teamId != ps[j].teamId
    requires multiset(out) == multiset(ps) && 1 <= i < |out|
    ensures out[i].teamId != out[0].teamId
  {
    DifferentEach(ps);
    Distinct(out, 0, i);
    assert out[0] in multiset(ps) && out[i] in multiset(ps);
    var x :| 0 <= x < |ps| && ps[x] == out[0];
    var y :| 0 <= y < |ps| && ps[y] == out[i];
  }
}
