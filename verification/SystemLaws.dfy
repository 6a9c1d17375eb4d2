/** What holds in every state the services can reach. */
module SystemLaws {
  import opened Seqs
  import opened Domain
  import Fixture
  import opened Standings
  import opened SeasonOps
  import opened SeasonLaws
  import opened SeasonTables
  import opened System

  // ----- the invariant

  ghost predicate ValidTeams(teams: seq<Team>) {
    && (forall i, j :: 0 <= i < j < |teams| ==> teams[i].id < teams[j].id && teams[i].name != teams[j].name)
    && (forall t :: t in teams ==> InRange(t.attack) && InRange(t.midfield) && InRange(t.defense))
  }

  ghost predicate ValidSeason(sys: Sys, l: nat)
    requires l in sys.seasons
  {
    var s := sys.seasons[l];
    && InOrder(s, Roster(sys.teams, s.members)) && HasSchedule(s)
    && l < sys.nextLeague
    && (forall id :: id in s.members ==> id in TeamIds(sys.teams))
    && (forall m :: m in s.matches ==> m.leagueId == l && m.id < sys.nextMatch)
  }

  ghost predicate Valid(sys: Sys) {
    && ValidTeams(sys.teams)
    && (forall l :: l in sys.seasons ==> ValidSeason(sys, l))
    && (forall l, l' :: l in sys.seasons && l' in sys.seasons && l != l' ==>
          DisjointIds(sys.seasons[l].matches, sys.seasons[l'].matches))
  }

  ghost predicate DisjointIds(a: seq<Match>, b: seq<Match>) {
    forall m, m' :: m in a && m' in b ==> m.id != m'.id
  }

  // ----- rosters

  lemma {:induction false} TeamsDiffer(teams: seq<Team>, a: Team, b: Team)
    requires ValidTeams(teams) && a in teams && b in teams && a != b
    ensures a.id != b.id && a.name != b.name
  {
    var i :| 0 <= i < |teams| && teams[i] == a;
    var j :| 0 <= j < |teams| && teams[j] == b;
    if i < j { assert teams[i].id < teams[j].id; } else { assert teams[j].id < teams[i].id; }
  }

  lemma {:induction false} RosterTeams(teams: seq<Team>, members: set<nat>, t: Team)
    ensures t in Roster(teams, members) <==> t in teams && t.id in members
  {
    assert t in Roster(teams, members) <==> t in multiset(Roster(teams, members));
    assert t in Filter(teams, MemberOf(members)) <==> t in multiset(Filter(teams, MemberOf(members)));
  }

  lemma {:induction false} RosterUnique(teams: seq<Team>, members: set<nat>)
    requires ValidTeams(teams)
    ensures UniqueTeams(Roster(teams, members))
  {
    var r := Roster(teams, members);
    DifferentEach(teams);
    forall t ensures multiset(r)[t] <= 1 {
      FilterMultiset(teams, MemberOf(members), t);
    }
    forall i, j | 0 <= i < j < |r| ensures r[i].id != r[j].id && r[i].name != r[j].name {
      Distinct(r, i, j);
      RosterTeams(teams, members, r[i]);
      RosterTeams(teams, members, r[j]);
      TeamsDiffer(teams, r[i], r[j]);
    }
  }

  /** The roster query yields exactly the members, each once. */
  lemma {:induction false} RosterIsRoster(teams: seq<Team>, members: set<nat>)
    requires ValidTeams(teams) && forall id :: id in members ==> id in TeamIds(teams)
    ensures RosterOf(Roster(teams, members), members)
  {
    var r := Roster(teams, members);
    RosterUnique(teams, members);
    ByIdKeys(r);
    forall id ensures id in ById(r) <==> id in members {
      if id in members {
        var i :| 0 <= i < |teams| && TeamIds(teams)[i] == id;
        RosterTeams(teams, members, teams[i]);
        assert teams[i] in r;
      }
      if id in ById(r) { RosterTeams(teams, members, ById(r)[id]); }
    }
  }

  // ----- operations on one league

  lemma {:induction false} SameRows(s: Season, t: Season, m: Match)
    requires SameLeague(s, t) && m in t.matches
    ensures exists m' :: m' in s.matches && m'.id == m.id && m'.leagueId == m.leagueId
  {
    SameFixtures(s.matches, t.matches);
    var i :| 0 <= i < |t.matches| && t.matches[i] == m;
    assert s.matches[i].(outcome := Scheduled) == t.matches[i].(outcome := Scheduled);
    assert s.matches[i] in s.matches;
  }

  lemma {:induction false} OnLeagueKeeps(sys: Sys, l: nat, t: Season)
    requires Valid(sys) && l in sys.seasons
    requires InOrder(t, RosterIn(sys, l)) && SameLeague(sys.seasons[l], t)
    ensures Valid(sys.(seasons := sys.seasons[l := t]))
  {
    hide InOrder, SameLeague, HasSchedule, Roster;
    var next := sys.(seasons := sys.seasons[l := t]);
    assert t.members == sys.seasons[l].members by { MembersSame(sys.seasons[l], t); }
    forall m | m in t.matches ensures
      exists m' :: m' in sys.seasons[l].matches && m'.id == m.id && m'.leagueId == m.leagueId {
      SameRows(sys.seasons[l], t, m);
    }
    assert HasSchedule(t) by { ScheduleCarriesOver(sys.seasons[l], t); }
    forall k | k in next.seasons ensures ValidSeason(next, k) {
      assert ValidSeason(sys, k);
    }
  }

  lemma {:induction false} MembersSame(s: Season, t: Season)
    requires SameLeague(s, t)
    ensures s.members == t.members
  {
  }

  /** Result and league agree: what the operation returns is in order and is the same competition. */
  ghost predicate Faithful(s: Season, roster: seq<Team>, r: Result<Season>) {
    r.Ok? ==> InOrder(r.value, roster) && SameLeague(s, r.value)
  }

  lemma {:induction false} PlayFaithful(s: Season, roster: seq<Team>, env: Env)
    requires InOrder(s, roster)
    ensures Faithful(s, roster, SeasonOps.PlayWeek(s, roster, env))
    ensures Faithful(s, roster, SeasonOps.PlayAll(s, roster, env))
  {
    hide InOrder, SameLeague, SeasonOps.PlayWeek, SeasonOps.PlayAll, WeekPlayed;
    PlayWeekKeeps(s, roster, env);
    PlayAllIsRepeatedPlayWeek(s, roster, env);
  }

  lemma {:induction false} RewriteFaithful(s: Season, roster: seq<Team>)
    requires InOrder(s, roster)
    ensures Faithful(s, roster, Ok(SeasonOps.Reset(s)))
    ensures Faithful(s, roster, Ok(SeasonOps.Recalculate(s, roster)))
  {
    hide TableThrough, Stored;
    ResetKeeps(s, roster);
    RecalculateChangesNothing(s, roster);
  }

  lemma {:induction false} EditFaithful(s: Season, roster: seq<Team>, seen: Match, homeGoals: nat, awayGoals: nat)
    requires InOrder(s, roster) && seen in s.matches
    ensures Faithful(s, roster, EditMatch(s, roster, seen, homeGoals, awayGoals))
  {
    hide TableThrough, Stored, EditMatch, Record, SameLeague, Coherent;
    EditKeeps(s, roster, seen, homeGoals, awayGoals);
    if seen.outcome.Played? {
      MembersSame(s, EditMatch(s, roster, seen, homeGoals, awayGoals).value);
    }
  }

  // ----- creating a league

  lemma {:induction false} SkeletonOfInserted(fixtures: seq<Match>, league: nat, firstId: nat)
    requires forall m :: m in fixtures ==> m.outcome == Scheduled && m.id == 0 && m.leagueId == 0
    ensures Skeleton(Inserted(fixtures, league, firstId)) == fixtures
  {
    forall i | 0 <= i < |fixtures| ensures Skeleton(Inserted(fixtures, league, firstId))[i] == fixtures[i] {
      assert fixtures[i] in fixtures;
    }
  }

  lemma {:induction false} ScheduleBare(wheel: seq<nat>)
    requires Fixture.IsWheel(wheel)
    ensures forall m :: m in Fixture.Schedule(wheel) ==> m.outcome == Scheduled && m.id == 0 && m.leagueId == 0
  {
    forall m | m in Fixture.Schedule(wheel) ensures m.outcome == Scheduled && m.id == 0 && m.leagueId == 0 {
      var r, q := Fixture.RoundOf(wheel, m);
    }
  }

  lemma {:induction false} WheelOf(ids: seq<nat>, env: Env, seed: int)
    requires |ids| >= 4 && |ids| % 2 == 0 && NoDuplicates(ids)
    ensures var wheel := Fixture.Shuffled(ids, ShuffleDraws(env, seed));
            Fixture.IsWheel(wheel) && |wheel| == |ids| && forall x :: x in wheel <==> x in ids
  {
    Fixture.ShuffledIsWheel(ids, ShuffleDraws(env, seed));
  }

  lemma {:induction false} NewSeasonScheduled(name: string, ids: seq<nat>, seed: int, env: Env, league: nat,
                                              firstId: nat)
    requires |ids| >= 4 && |ids| % 2 == 0 && NoDuplicates(ids)
    ensures HasSchedule(NewSeason(name, ids, seed, env, league, firstId))
  {
    var wheel := Fixture.Shuffled(ids, ShuffleDraws(env, seed));
    WheelOf(ids, env, seed);
    ScheduleBare(wheel);
    SkeletonOfInserted(Fixture.Schedule(wheel), league, firstId);
    assert ScheduledOn(NewSeason(name, ids, seed, env, league, firstId), wheel);
  }

  lemma {:induction false} NewSeasonCoherent(name: string, ids: seq<nat>, seed: int, env: Env, league: nat,
                                             firstId: nat)
    requires |ids| >= 4 && |ids| % 2 == 0 && NoDuplicates(ids)
    ensures var s := NewSeason(name, ids, seed, env, league, firstId);
            && Coherent(s) && IsFresh(s)
            && forall m :: m in s.matches ==> m.leagueId == league && firstId <= m.id < firstId + |s.matches|
  {
    var wheel := Fixture.Shuffled(ids, ShuffleDraws(env, seed));
    var s, fixtures := NewSeason(name, ids, seed, env, league, firstId), Fixture.Schedule(wheel);
    WheelOf(ids, env, seed);
    Fixture.ScheduleShape(wheel);
    forall m | m in s.matches
      ensures WellPlaced(s, m) && m.outcome == Scheduled && m.leagueId == league &&
              firstId <= m.id < firstId + |s.matches|
    {
      var i :| 0 <= i < |s.matches| && s.matches[i] == m;
      assert fixtures[i] in fixtures;
    }
  }

  lemma {:induction false} CreateKeeps(sys: Sys, name: string, explicit: seq<nat>, seed: int, env: Env)
    requires Valid(sys) && CreateIn(sys, name, explicit, seed, env).Ok?
    ensures Valid(CreateIn(sys, name, explicit, seed, env).value)
  {
    hide HasSchedule, Roster, TableThrough, Stored, Fixture.Schedule, Fixture.Shuffled, Inserted, InOrder, IsFresh;
    var ids := ResolveTeamIDs(sys.teams, explicit).value;
    var s := NewSeason(name, ids, seed, env, sys.nextLeague, sys.nextMatch);
    assert HasSchedule(s) by { NewSeasonScheduled(name, ids, seed, env, sys.nextLeague, sys.nextMatch); }
    NewSeasonInOrder(sys, name, explicit, seed, env);
    NewSeasonCoherent(name, ids, seed, env, sys.nextLeague, sys.nextMatch);
  }

  lemma {:induction false} NewSeasonInOrder(sys: Sys, name: string, explicit: seq<nat>, seed: int, env: Env)
    requires ValidTeams(sys.teams) && CreateIn(sys, name, explicit, seed, env).Ok?
    ensures var ids := ResolveTeamIDs(sys.teams, explicit).value;
            var s := NewSeason(name, ids, seed, env, sys.nextLeague, sys.nextMatch);
            InOrder(s, Roster(sys.teams, s.members))
  {
    hide Roster, TableThrough, Stored, Fixture.Schedule, Fixture.Shuffled, Inserted;
    var ids := ResolveTeamIDs(sys.teams, explicit).value;
    var s := NewSeason(name, ids, seed, env, sys.nextLeague, sys.nextMatch);
    NewSeasonCoherent(name, ids, seed, env, sys.nextLeague, sys.nextMatch);
    RosterIsRoster(sys.teams, s.members);
  }

  // ----- changing a rating

  lemma {:induction false} NamesInRoster(teams: seq<Team>, members: set<nat>, id: nat, i: nat)
    requires ValidTeams(teams) && id in ById(Roster(teams, members)) && i < |teams| && teams[i].id == id
    ensures ById(Roster(teams, members))[id] == teams[i]
  {
    var t := ById(Roster(teams, members))[id];
    ByIdKeys(Roster(teams, members));
    RosterTeams(teams, members, t);
  }

  lemma {:induction false} ReratedSame(teams: seq<Team>, id: nat, attack: int, midfield: int, defense: int)
    requires ValidTeams(teams) && InRange(attack) && InRange(midfield) && InRange(defense)
    ensures ValidTeams(Rerated(teams, id, attack, midfield, defense))
    ensures TeamIds(Rerated(teams, id, attack, midfield, defense)) == TeamIds(teams)
  {
    var r := Rerated(teams, id, attack, midfield, defense);
    forall t | t in r ensures InRange(t.attack) && InRange(t.midfield) && InRange(t.defense) {
      var i :| 0 <= i < |r| && r[i] == t;
      assert teams[i] in teams;
    }
  }

  /** No rating shows in a table: the rosters before and after give every table alike. */
  lemma {:induction false} ReratedTables(teams: seq<Team>, teams': seq<Team>, members: set<nat>, ms: seq<Match>)
    requires ValidTeams(teams) && ValidTeams(teams') && TeamIds(teams) == TeamIds(teams')
    requires forall i :: 0 <= i < |teams| ==> teams[i].name == teams'[i].name
    requires forall id :: id in members ==> id in TeamIds(teams)
    ensures Table(Roster(teams, members), ms) == Table(Roster(teams', members), ms)
  {
    hide Roster, ById, Table, Tally, ValidTeams;
    var r, r' := Roster(teams, members), Roster(teams', members);
    RosterIsRoster(teams, members);
    RosterIsRoster(teams', members);
    forall id | id in members ensures ById(r)[id].name == ById(r')[id].name {
      var i :| 0 <= i < |teams| && TeamIds(teams)[i] == id;
      assert TeamIds(teams')[i] == id;
      NamesInRoster(teams, members, id, i);
      NamesInRoster(teams', members, id, i);
    }
    assert RowMap(ById(r), ms) == RowMap(ById(r'), ms);
    TableByRows(r, ms, r', ms);
  }

  lemma {:induction false} RatingKeeps(sys: Sys, id: nat, attack: int, midfield: int, defense: int)
    requires Valid(sys) && InRange(attack) && InRange(midfield) && InRange(defense)
    ensures Valid(sys.(teams := Rerated(sys.teams, id, attack, midfield, defense)))
  {
    var next := sys.(teams := Rerated(sys.teams, id, attack, midfield, defense));
    ReratedSame(sys.teams, id, attack, midfield, defense);
    forall l | l in next.seasons ensures ValidSeason(next, l) {
      assert ValidSeason(sys, l);
      SeasonSurvivesRating(sys.teams, next.teams, sys.seasons[l]);
    }
  }

  lemma {:induction false} SeasonSurvivesRating(teams: seq<Team>, teams': seq<Team>, s: Season)
    requires ValidTeams(teams) && ValidTeams(teams') && TeamIds(teams) == TeamIds(teams')
    requires forall i :: 0 <= i < |teams| ==> teams[i].name == teams'[i].name
    requires InOrder(s, Roster(teams, s.members)) && forall id :: id in s.members ==> id in TeamIds(teams)
    ensures InOrder(s, Roster(teams', s.members))
  {
    hide Roster, Stored, Coherent, TeamIds, Table;
    RosterIsRoster(teams', s.members);
    forall k | k in s.snapshots
      ensures TableThrough(Roster(teams', s.members), s.matches, k) ==
              TableThrough(Roster(teams, s.members), s.matches, k)
    {
      ReratedTables(teams, teams', s.members, Filter(s.matches, UpToWeek(k)));
    }
  }
}
