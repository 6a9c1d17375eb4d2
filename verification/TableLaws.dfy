/** What the columns of the league table mean, and what the whole table conserves. */
module TableLaws {
  import opened Seqs
  import opened Sorting
  import opened Domain
  import opened Standings

  // ----- columns, defined match by match and without accumulation

  type Score = (nat, nat) -> int

  function Appearances(scored: nat, conceded: nat): int { 1 }
  function Wins(scored: nat, conceded: nat): int { if scored > conceded then 1 else 0 }
  function Draws(scored: nat, conceded: nat): int { if scored == conceded then 1 else 0 }
  function Losses(scored: nat, conceded: nat): int { if scored < conceded then 1 else 0 }
  function Scored(scored: nat, conceded: nat): int { scored }
  function Conceded(scored: nat, conceded: nat): int { conceded }
  function Margin(scored: nat, conceded: nat): int { scored - conceded }
  function PointsFor(scored: nat, conceded: nat): int {
    if scored > conceded then 3 else if scored == conceded then 1 else 0
  }

  /** What one match adds to a team's column. */
  function GainIn(team: nat, m: Match, f: Score): int {
    match m.outcome
    case Scheduled => 0
    case Played(hg, ag) => (if m.home == team then f(hg, ag) else 0) + (if m.away == team then f(ag, hg) else 0)
  }

  function Gain(team: nat, f: Score): Match -> int {
    (m: Match) => GainIn(team, m, f)
  }

  function Column(team: nat, ms: seq<Match>, f: Score): int {
    Total(ms, Gain(team, f))
  }

  lemma {:induction false} ColumnStep(team: nat, ms: seq<Match>, f: Score)
    requires ms != []
    ensures Column(team, ms, f) == Column(team, ms[..|ms| - 1], f) + GainIn(team, ms[|ms| - 1], f)
  {
  }

  /** Every column of a row is the sum of what the single matches contribute to it. */
  lemma {:induction false} TallyIsColumns(team: nat, ms: seq<Match>)
    ensures var s := Tally(team, ms);
            && s.played == Column(team, ms, Appearances)
            && s.won == Column(team, ms, Wins)
            && s.drawn == Column(team, ms, Draws)
            && s.lost == Column(team, ms, Losses)
            && s.goalsFor == Column(team, ms, Scored)
            && s.goalsAgainst == Column(team, ms, Conceded)
            && s.goalDifference == Column(team, ms, Margin)
            && s.points == Column(team, ms, PointsFor)
  {
    if ms != [] {
      var init, last := ms[..|ms| - 1], ms[|ms| - 1];
      TallyIsColumns(team, init);
      TallyBalances(team, init);
      assert Tally(team, ms) == ApplyMatch(team, Tally(team, init), last);
      ColumnStep(team, ms, Appearances);
      ColumnStep(team, ms, Wins);
      ColumnStep(team, ms, Draws);
      ColumnStep(team, ms, Losses);
      ColumnStep(team, ms, Scored);
      ColumnStep(team, ms, Conceded);
      ColumnStep(team, ms, Margin);
      ColumnStep(team, ms, PointsFor);
    }
  }

  /** A row with one more result, column by column: 3 points for a win, 1 for a draw, none for a defeat. */
  function WithResult(s: Stats, scored: nat, conceded: nat): Stats {
    Stats(s.played + 1,
          s.won + (if scored > conceded then 1 else 0),
          s.drawn + (if scored == conceded then 1 else 0),
          s.lost + (if scored < conceded then 1 else 0),
          s.goalsFor + scored,
          s.goalsAgainst + conceded,
          (s.goalsFor + scored) - (s.goalsAgainst + conceded),
          s.points + (if scored > conceded then 3 else if scored == conceded then 1 else 0))
  }

  /** Results enter a team's row one at a time, its own goals as scored whether it is at home or away. */
  lemma {:induction false} OneMoreResult(team: nat, ms: seq<Match>, m: Match)
    requires m.home != m.away
    ensures Tally(team, []) == Stats(0, 0, 0, 0, 0, 0, 0, 0)
    ensures m.outcome.Scheduled? || !m.Involves(team) ==> Tally(team, ms + [m]) == Tally(team, ms)
    ensures m.outcome.Played? && m.home == team ==>
              Tally(team, ms + [m]) == WithResult(Tally(team, ms), m.outcome.homeGoals, m.outcome.awayGoals)
    ensures m.outcome.Played? && m.away == team ==>
              Tally(team, ms + [m]) == WithResult(Tally(team, ms), m.outcome.awayGoals, m.outcome.homeGoals)
  {
    assert (ms + [m])[..|ms|] == ms;
    assert Tally(team, ms + [m]) == ApplyMatch(team, Tally(team, ms), m);
  }

  /** Points = 3 Won + Drawn, Played = Won + Drawn + Lost, and the difference is the difference. */
  lemma {:induction false} TallyBalances(team: nat, ms: seq<Match>)
    ensures var s := Tally(team, ms);
            && s.points == 3 * s.won + s.drawn
            && s.played == s.won + s.drawn + s.lost
            && s.goalDifference == s.goalsFor - s.goalsAgainst
  {
    if ms != [] {
      TallyBalances(team, ms[..|ms| - 1]);
      assert Tally(team, ms) == ApplyMatch(team, Tally(team, ms[..|ms| - 1]), ms[|ms| - 1]);
    }
  }

  // ----- conservation

  ghost predicate Listed(teams: seq<Team>, id: nat) {
    exists i :: 0 <= i < |teams| && teams[i].id == id
  }

  /** Both sides' contributions of a match. */
  function Sides(m: Match, f: Score): int {
    match m.outcome case Scheduled => 0 case Played(hg, ag) => f(hg, ag) + f(ag, hg)
  }

  function BothSides(f: Score): Match -> int {
    (m: Match) => Sides(m, f)
  }

  function PerTeam(ms: seq<Match>, f: Score): Team -> int {
    (t: Team) => Column(t.id, ms, f)
  }

  function GainOf(m: Match, f: Score): Team -> int {
    (t: Team) => GainIn(t.id, m, f)
  }

  lemma {:induction false} HitOnce(teams: seq<Team>, id: nat, v: int, hit: Team -> int)
    requires forall i, j :: 0 <= i < j < |teams| ==> teams[i].id != teams[j].id
    requires forall t :: hit(t) == if t.id == id then v else 0
    requires Listed(teams, id)
    ensures Total(teams, hit) == v
  {
    var init, last := teams[..|teams| - 1], teams[|teams| - 1];
    if last.id == id {
      TotalZero(init, hit);
    } else {
      var i :| 0 <= i < |teams| && teams[i].id == id;
      assert init[i].id == id;
      HitOnce(init, id, v, hit);
    }
  }

  lemma {:induction false} MatchConserved(teams: seq<Team>, m: Match, f: Score)
    requires forall i, j :: 0 <= i < j < |teams| ==> teams[i].id != teams[j].id
    requires m.outcome.Played? ==> Listed(teams, m.home) && Listed(teams, m.away)
    ensures Total(teams, GainOf(m, f)) == Sides(m, f)
  {
    match m.outcome
    case Scheduled => TotalZero(teams, GainOf(m, f));
    case Played(hg, ag) =>
      var atHome := (t: Team) => if t.id == m.home then f(hg, ag) else 0;
      var onTour := (t: Team) => if t.id == m.away then f(ag, hg) else 0;
      HitOnce(teams, m.home, f(hg, ag), atHome);
      HitOnce(teams, m.away, f(ag, hg), onTour);
      TotalAdd(teams, atHome, onTour, GainOf(m, f));
  }

  /** Summed over the teams, a column holds what the matches put into it from both sides. */
  lemma {:induction false} ColumnConserved(teams: seq<Team>, ms: seq<Match>, f: Score)
    requires forall i, j :: 0 <= i < j < |teams| ==> teams[i].id != teams[j].id
    requires forall m :: m in ms && m.outcome.Played? ==> Listed(teams, m.home) && Listed(teams, m.away)
    ensures Total(teams, PerTeam(ms, f)) == Total(ms, BothSides(f))
  {
    if ms == [] {
      TotalZero(teams, PerTeam(ms, f));
    } else {
      var init, last := ms[..|ms| - 1], ms[|ms| - 1];
      assert last in ms && forall m :: m in init ==> m in ms;
      ColumnConserved(teams, init, f);
      MatchConserved(teams, last, f);
      forall t: Team ensures PerTeam(ms, f)(t) == PerTeam(init, f)(t) + GainOf(last, f)(t) {
        ColumnStep(t.id, ms, f);
      }
      TotalAdd(teams, PerTeam(init, f), GainOf(last, f), PerTeam(ms, f));
    }
  }

  function StatOf(stat: Stats -> int): StandingRow -> int {
    (row: StandingRow) => stat(row.stats)
  }

  /** Sorting and numbering lose nothing. */
  lemma {:induction false} TableTotal(teams: seq<Team>, ms: seq<Match>, stat: Stats -> int)
    ensures Total(Table(teams, ms), StatOf(stat)) == Total(Rows(teams, ms), StatOf(stat))
  {
    var sorted := Sorted(Rows(teams, ms), RowLess);
    TotalCongruence(Table(teams, ms), sorted, StatOf(stat), StatOf(stat));
    TotalPermutation(sorted, Rows(teams, ms), StatOf(stat));
  }

  lemma {:induction false} TableColumn(teams: seq<Team>, ms: seq<Match>, stat: Stats -> int, f: Score)
    requires forall i, j :: 0 <= i < j < |teams| ==> teams[i].id != teams[j].id
    requires forall m :: m in ms && m.outcome.Played? ==> Listed(teams, m.home) && Listed(teams, m.away)
    requires forall t: Team :: t in teams ==> stat(Tally(t.id, ms)) == Column(t.id, ms, f)
    ensures Total(Table(teams, ms), StatOf(stat)) == Total(ms, BothSides(f))
  {
    TableTotal(teams, ms, stat);
    TotalCongruence(Rows(teams, ms), teams, StatOf(stat), PerTeam(ms, f));
    ColumnConserved(teams, ms, f);
  }

  predicate WasPlayed(m: Match) { m.outcome.Played? }
  predicate Decisive(m: Match) { m.outcome.Played? && m.outcome.homeGoals != m.outcome.awayGoals }
  predicate Drawn(m: Match) { m.outcome.Played? && m.outcome.homeGoals == m.outcome.awayGoals }

  lemma {:induction false} SidesCounted(ms: seq<Match>)
    ensures Total(ms, BothSides(PointsFor)) == 3 * Count(ms, Decisive) + 2 * Count(ms, Drawn)
    ensures Total(ms, BothSides(Margin)) == 0
    ensures Total(ms, BothSides(Appearances)) == 2 * Count(ms, WasPlayed)
  {
    if ms != [] {
      var last := ms[|ms| - 1];
      SidesCounted(ms[..|ms| - 1]);
      assert BothSides(PointsFor)(last) == Sides(last, PointsFor);
      assert BothSides(Margin)(last) == Sides(last, Margin);
      assert BothSides(Appearances)(last) == Sides(last, Appearances);
    }
  }

  /** Points come only from matches, goals for are goals against, and every match is played by two. */
  lemma {:induction false} TableConserves(teams: seq<Team>, ms: seq<Match>)
    requires UniqueTeams(teams)
    requires forall m :: m in ms && m.outcome.Played? ==> Listed(teams, m.home) && Listed(teams, m.away)
    ensures var table := Table(teams, ms);
            && Total(table, StatOf((s: Stats) => s.points)) == 3 * Count(ms, Decisive) + 2 * Count(ms, Drawn)
            && Total(table, StatOf((s: Stats) => s.goalDifference)) == 0
            && Total(table, StatOf((s: Stats) => s.played)) == 2 * Count(ms, WasPlayed)
  {
    var points, margin, played := (s: Stats) => s.points, (s: Stats) => s.goalDifference, (s: Stats) => s.played;
    forall t: Team | t in teams
      ensures points(Tally(t.id, ms)) == Column(t.id, ms, PointsFor)
      ensures margin(Tally(t.id, ms)) == Column(t.id, ms, Margin)
      ensures played(Tally(t.id, ms)) == Column(t.id, ms, Appearances)
    {
      TallyIsColumns(t.id, ms);
    }
    TableColumn(teams, ms, points, PointsFor);
    TableColumn(teams, ms, margin, Margin);
    TableColumn(teams, ms, played, Appearances);
    SidesCounted(ms);
  }

  lemma {:induction false} TableRowIsTally(teams: seq<Team>, ms: seq<Match>, i: nat)
    requires UniqueTeams(teams) && i < |teams|
    ensures Table(teams, ms)[i].teamId in ById(teams)
    ensures Table(teams, ms)[i].stats == Tally(Table(teams, ms)[i].teamId, ms)
  {
    TableIsTable(teams, ms);
    var row := Table(teams, ms)[i];
    assert Unranked(row) == RowMap(ById(teams), ms)[row.teamId];
  }
}
