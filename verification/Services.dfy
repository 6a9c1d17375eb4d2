/** The services over the tables: repositories' statements, transactions, and the operations themselves. */
module Services {
  import opened Seqs
  import opened Domain
  import Fixture
  import opened Standings
  import opened Trials
  import MonteCarlo
  import opened SeasonOps
  import opened SeasonLaws
  import opened System
  import opened SystemLaws
  import opened Reachability
  import opened Tables
  import opened StoreLaws
  import opened StepLaws
  import opened History

  class Store {
    const env: Env
    var teams: seq<Team>
    var leagues: map<nat, League>
    var members: map<nat, set<nat>>
    var matches: seq<Match>
    var snapshots: map<nat, map<nat, seq<SnapshotRow>>>
    var audits: seq<Audit>
    var nextLeague: nat
    var nextMatch: nat

    /** A database holding a catalog of teams and no league. */
    constructor (env: Env, catalog: seq<Team>)
      requires ValidTeams(catalog)
      ensures this.env == env && Sound() && Initial(Abstract(Rows())) && teams == catalog
    {
      this.env := env;
      teams, leagues, members, matches, snapshots, audits := catalog, map[], map[], [], map[], [];
      nextLeague, nextMatch := 1, 1;
      new;
      assert Abstract(Rows()).seasons == map[];
      InitialIsValid(Abstract(Rows()));
    }

    function Rows(): Database
      reads this
    {
      Database(teams, leagues, members, matches, snapshots, audits, nextLeague, nextMatch)
    }

    /** What every operation finds and leaves behind. */
    ghost predicate Sound()
      reads this
    {
      Schema(Rows()) && Valid(Abstract(Rows()))
    }

    ghost function State(): Sys
      reads this
      requires Schema(Rows())
    {
      Abstract(Rows())
    }

    // ----- transactions (transactor.go): commit iff the body succeeds

    /** The end of WithinTx: what the body wrote stays if it returned no error, and is undone otherwise. */
    method Conclude<T>(saved: Database, r: Result<T>)
      modifies this
      ensures Rows() == if r.Ok? then old(Rows()) else saved
    {
      if r.Err? {
        teams, leagues, members, matches := saved.teams, saved.leagues, saved.members, saved.matches;
        snapshots, audits, nextLeague, nextMatch := saved.snapshots, saved.audits, saved.nextLeague, saved.nextMatch;
      }
    }

    // ----- match_repo.go

    method RecordResult(id: nat, homeGoals: nat, awayGoals: nat) returns (r: Result<()>)
      modifies this
      ensures Rows() == old(Rows()).(matches := Record(old(matches), map[id := Played(homeGoals, awayGoals)]))
      ensures r == if exists m :: m in old(matches) && m.id == id then Ok(()) else Err(NotFound)
    {
      r := if exists m :: m in matches && m.id == id then Ok(()) else Err(NotFound);
      matches := Record(matches, map[id := Played(homeGoals, awayGoals)]);
    }

    method ClearResults(l: nat)
      modifies this
      ensures Rows() == old(Rows()).(matches := ClearedIn(old(matches), l))
    {
      matches := ClearedIn(matches, l);
    }

    // ----- standings_snapshot_repo.go

    /** A league without a row violates the foreign key. */
    method UpsertSnapshot(l: nat, week: nat, rows: seq<StandingRow>) returns (r: Result<()>)
      modifies this
      ensures r == if l in old(leagues) then Ok(()) else Err(Internal)
      ensures Rows() ==
              if r.Err? then old(Rows())
              else old(Rows()).(snapshots := old(snapshots)[l := Upserted(SnapshotsOf(old(snapshots), l), week, rows)])
    {
      if l !in leagues { return Err(Internal); }
      snapshots := snapshots[l := Upserted(SnapshotsOf(snapshots, l), week, rows)];
      r := Ok(());
    }

    method DeleteFromWeek(l: nat, fromWeek: nat)
      modifies this
      ensures Rows() ==
              if l !in old(snapshots) then old(Rows())
              else old(Rows()).(snapshots := old(snapshots)[l := EarlierThan(old(snapshots)[l], fromWeek)])
      ensures l in old(snapshots) ==>
                && l in snapshots
                && (forall k :: k in snapshots[l] <==> k in old(snapshots)[l] && k < fromWeek)
                && (forall k :: k in snapshots[l] ==> snapshots[l][k] == old(snapshots)[l][k])
    {
      if l in snapshots { snapshots := snapshots[l := EarlierThan(snapshots[l], fromWeek)]; }
    }

    // ----- league_repo.go

    method UpdateStatusAndWeek(l: nat, status: LeagueStatus, week: nat) returns (r: Result<()>)
      modifies this
      ensures r == if l in old(leagues) then Ok(()) else Err(NotFound)
      ensures Rows() ==
              if r.Err? then old(Rows())
              else old(Rows()).(leagues := old(leagues)[l := old(leagues)[l].(currentWeek := week, status := status)])
    {
      if l !in leagues { return Err(NotFound); }
      leagues := leagues[l := leagues[l].(currentWeek := week, status := status)];
      r := Ok(());
    }

    // ----- league_play.go: simulateWeek, advanceAndSnapshot

    /** Scores the week's matches one after the other; a team missing from the league aborts. */
    method SimulateWeek(l: nat, league: League, week: nat) returns (r: Result<seq<Match>>)
      requires Schema(Rows()) && l in leagues && league.seed == leagues[l].seed
      modifies this
      ensures Schema(Rows()) && leagues == old(leagues) && members == old(members) && teams == old(teams)
      ensures match SeasonOps.SimulateWeek(old(SeasonIn(Rows(), l)), old(Roster(teams, members[l])), env, week)
              case Err(e) => r == Err(e)
              case Ok(t) =>
                && r == Ok(Filter(SeasonIn(Rows(), l).matches, InWeek(week)))
                && Abstract(Rows()) == At(old(Abstract(Rows())), l, t)
    {
      hide Abstract, SeasonIn, Record, Scores, SeasonOps.SimulateWeek, Roster, Filter, Resolvable, IdsIncreasing;
      var byId := MonteCarlo.IndexTeams(Roster(teams, members[l]));
      var list := Filter(matches, OfLeagueInWeek(l, week));
      ghost var before := Rows();
      var ok, played := PlayMatches(list, byId, env.weekRng(league.seed, week));
      MatchesOnly(before, matches, l, week, byId, env.simulate, env.weekRng(league.seed, week), played);
      SimulateWeekMeans(before, Rows(), l, env, week, ok);
      WeekList(matches, l, week);
      SeasonMatches(Rows(), l);
      r := if ok then Ok(Filter(matches, OfLeagueInWeek(l, week))) else Err(Internal);
    }

    /** The loop over the week's matches; stops at the first one whose team the league does not have. */
    method PlayMatches(list: seq<Match>, byId: map<nat, Team>, start: Rng) returns (ok: bool, played: nat)
      requires forall j :: 0 <= j < |list| ==> list[j] in matches
      modifies this
      ensures played <= |list| && ok == Resolvable(list, byId) && (ok ==> played == |list|)
      ensures Rows() == old(Rows()).(matches := Record(old(matches), Scores(list, byId, env.simulate, start, played)))
    {
      var rng := start;
      played := 0;
      assert Record(matches, map[]) == matches;
      while played < |list|
        invariant played <= |list|
        invariant Rows() == old(Rows()).(matches :=
                    Record(old(matches), Scores(list, byId, env.simulate, start, played)))
        invariant rng == RngAt(list, byId, env.simulate, start, played)
        invariant forall i :: 0 <= i < played ==> list[i].home in byId && list[i].away in byId
        decreases |list| - played
      {
        var m := list[played];
        if m.home !in byId { return false, played; }
        if m.away !in byId { return false, played; }
        var g := env.simulate(byId[m.home], byId[m.away], rng);
        ghost var scores := Scores(list, byId, env.simulate, start, played);
        RecordedMore(old(matches), scores, m.id, Played(g.homeGoals, g.awayGoals));
        RecordKeepsIds(old(matches), scores, m);
        var recorded := RecordResult(m.id, g.homeGoals, g.awayGoals);
        assert recorded.Ok?;
        rng := g.rng;
        played := played + 1;
      }
      ok := true;
    }

    /** The table over all matches, stored as the week's snapshot; the league row moves on. */
    method AdvanceAndSnapshot(l: nat, league: League, week: nat) returns (standings: seq<StandingRow>)
      requires Schema(Rows()) && l in leagues && league.totalWeeks == leagues[l].totalWeeks
      requires UniqueTeams(Roster(teams, members[l]))
      modifies this
      ensures Schema(Rows()) && leagues.Keys == old(leagues).Keys && members == old(members) && teams == old(teams)
      ensures Abstract(Rows()) == At(old(Abstract(Rows())), l,
                SeasonOps.AdvanceAndSnapshot(old(SeasonIn(Rows(), l)), Roster(teams, members[l]), week))
      ensures standings == Table(Roster(teams, members[l]), ListByLeague(SeasonIn(Rows(), l).matches))
    {
      hide Abstract, Schema, Roster, Table, ListByLeague, Stored;
      ghost var before := Rows();
      RowsOf(before, l);
      standings := Calculate(Roster(teams, members[l]), ListByLeague(Filter(matches, OfLeague(l))));
      var saved := UpsertSnapshot(l, week, standings);
      assert saved.Ok?;
      SnapshotsReplaced(before, l, Upserted(before.snapshots[l], week, standings));
      ghost var middle := Rows();
      RowsOf(middle, l);
      var advanced := UpdateStatusAndWeek(l, StatusForWeek(week, league.totalWeeks), week);
      assert advanced.Ok?;
      LeagueReplaced(middle, l, leagues[l]);
      RowsOf(Rows(), l);
    }

    /** One week: simulated, then snapshotted. An error leaves the rollback to the caller. */
    method PlayOne(l: nat, league: League, week: nat) returns (r: Result<OneWeek>)
      requires Schema(Rows()) && l in leagues && UniqueTeams(Roster(teams, members[l]))
      requires league.seed == leagues[l].seed && league.totalWeeks == leagues[l].totalWeeks
      modifies this
      ensures Schema(Rows()) && leagues.Keys == old(leagues).Keys && members == old(members) && teams == old(teams)
      ensures match SeasonOps.PlayOne(old(SeasonIn(Rows(), l)), Roster(teams, members[l]), env, week)
              case Err(e) => r == Err(e)
              case Ok(t) =>
                && State() == At(old(State()), l, t) && SeasonIn(Rows(), l) == t
                && r == Ok(OneWeek(Filter(t.matches, InWeek(week)),
                                Table(Roster(teams, members[l]), ListByLeague(t.matches))))
    {
      hide Abstract, Schema, Roster, Table, ListByLeague, Stored, SeasonOps.SimulateWeek, SeasonOps.AdvanceAndSnapshot;
      ghost var before, sys := Rows(), State();
      var simulated := SimulateWeek(l, league, week);
      if simulated.Err? { return Err(simulated.error); }
      ghost var middle := Rows();
      RowsOf(before, l);
      RowsOf(middle, l);
      var standings := AdvanceAndSnapshot(l, league, week);
      Advanced(sys, State(), l, SeasonIn(middle, l), Roster(teams, members[l]), week);
      RowsOf(Rows(), l);
      r := Ok(OneWeek(simulated.value, standings));
    }

    /** Plays the next week in one transaction. */
    method PlayWeek(l: nat) returns (r: Result<PlayResult>)
      requires Sound()
      modifies this
      ensures Sound() && Carries(old(State()), State(), System.PlayWeek(l), env, r)
      ensures l !in old(leagues) ==> r == Err(NotFound)
      ensures l in old(leagues) && old(leagues[l]).status == Finished ==> r == Err(Conflict)
      ensures l in old(leagues) && old(leagues[l]).status != Finished ==> r.Ok?
      ensures r.Err? ==> Rows() == old(Rows())
      ensures r.Ok? ==> l in State().seasons && ReportsWeek(State(), l, r.value)
    {
      hide Abstract, Schema, Valid, Apply, ReportsWeek;
      StepKeeps(State(), System.PlayWeek(l), env);
      PlayEnds(State(), l, env);
      RowsOf(Rows(), l);
      var saved := Rows();
      r := PlayWeekBody(l);
      Conclude(saved, r);
    }

    method PlayWeekBody(l: nat) returns (r: Result<PlayResult>)
      requires Sound()
      modifies this
      ensures Returns(old(State()), Rows(), System.PlayWeek(l), env, r)
      ensures r.Ok? ==> l in State().seasons && ReportsWeek(State(), l, r.value)
    {
      hide Abstract, Schema, Valid, Roster, Table, ListByLeague, Apply, SeasonOps.PlayOne;
      ghost var before, sys := Rows(), State();
      PlayWeekMeans(before, l, env);
      if l !in leagues { return Err(NotFound); }
      var league := leagues[l];
      if league.status == Finished { return Err(Conflict); }
      var week := league.currentWeek + 1;
      RowsOf(before, l);
      SoundRoster(before, l);
      var played := PlayOne(l, league, week);
      if played.Err? { return Err(played.error); }
      RowsOf(Rows(), l);
      LeagueAfter(SeasonIn(before, l), SeasonIn(Rows(), l), Roster(teams, members[l]), env, week);
      r := Ok(PlayResult([WeekMatches(week, played.value.matches)], played.value.standings, week,
                         StatusForWeek(week, league.totalWeeks)));
    }

    /** Plays every remaining week in one transaction. */
    method PlayAll(l: nat) returns (r: Result<PlayResult>)
      requires Sound()
      modifies this
      ensures Sound() && Carries(old(State()), State(), System.PlayAll(l), env, r)
      ensures l !in old(leagues) ==> r == Err(NotFound)
      ensures l in old(leagues) && old(leagues[l]).status == Finished ==> r == Err(Conflict)
      ensures l in old(leagues) && old(leagues[l]).status != Finished ==> r.Ok?
      ensures r.Err? ==> Rows() == old(Rows())
      ensures r.Ok? ==> l in State().seasons && l in old(State()).seasons
      ensures r.Ok? ==> ReportsSeason(State(), l, old(State()).seasons[l].league.currentWeek, r.value)
    {
      hide Abstract, Schema, Valid, Apply, ReportsSeason;
      StepKeeps(State(), System.PlayAll(l), env);
      PlayEnds(State(), l, env);
      RowsOf(Rows(), l);
      var saved := Rows();
      r := PlayAllBody(l);
      Conclude(saved, r);
    }

    method PlayAllBody(l: nat) returns (r: Result<PlayResult>)
      requires Sound()
      modifies this
      ensures Returns(old(State()), Rows(), System.PlayAll(l), env, r)
      ensures r.Ok? ==> l in State().seasons && l in old(State()).seasons
      ensures r.Ok? ==> ReportsSeason(State(), l, old(State()).seasons[l].league.currentWeek, r.value)
    {
      hide Abstract, Schema, Valid, Roster, Table, ListByLeague, Apply, SeasonOps.PlayOne, IdsIncreasing, SeasonIn,
           PlayFrom, ReportsWeeks;
      ghost var before, sys := Rows(), State();
      PlayAllMeans(before, l, env);
      if l !in leagues { return Err(NotFound); }
      var league := leagues[l];
      if league.status == Finished { return Err(Conflict); }
      RowsOf(before, l);
      SoundRoster(before, l);
      WeeksLeft(before, l);
      ghost var roster, first := Roster(teams, members[l]), league.currentWeek + 1;
      var weeks, standings := [], [];
      NothingReported(SeasonIn(before, l), first);
      var week := league.currentWeek + 1;
      while week <= league.totalWeeks
        invariant Schema(Rows()) && l in leagues && members == before.members && teams == before.teams
        invariant first <= week <= league.totalWeeks + 1
        invariant State() == At(sys, l, SeasonIn(Rows(), l))
        invariant leagues[l].seed == league.seed && leagues[l].totalWeeks == league.totalWeeks
        invariant first < week ==>
                    leagues[l].currentWeek == week - 1 &&
                    leagues[l].status == StatusForWeek(week - 1, league.totalWeeks)
        invariant PlayFrom(SeasonIn(Rows(), l), roster, env, week) == PlayFrom(SeasonIn(before, l), roster, env, first)
        invariant ReportsWeeks(SeasonIn(Rows(), l), first, week, weeks)
        invariant standings == if week == first then [] else Table(roster, ListByLeague(SeasonIn(Rows(), l).matches))
      {
        ghost var middle := Rows();
        var played := PlayOne(l, league, week);
        if played.Err? {
          RowsOf(middle, l);
          PlayStops(SeasonIn(middle, l), roster, env, week);
          return Err(played.error);
        }
        OneMoreWeek(middle, Rows(), l, roster, env, first, week, weeks);
        weeks := weeks + [WeekMatches(week, played.value.matches)];
        standings := played.value.standings;
        week := week + 1;
      }
      RowsOf(Rows(), l);
      NothingToPlay(SeasonIn(Rows(), l), roster, env, week);
      r := Ok(PlayResult(weeks, standings, league.totalWeeks, Finished));
    }

    /** Un-plays a league: results cleared, every snapshot dropped, week 0. Fixtures and audits stay. */
    method Reset(l: nat) returns (r: Result<()>)
      requires Sound()
      modifies this
      ensures Sound() && Carries(old(State()), State(), System.Reset(l), env, r)
      ensures if l in old(leagues) then r.Ok? else r == Err(NotFound)
      ensures r.Err? ==> Rows() == old(Rows())
    {
      hide Abstract, Schema, Valid, Apply;
      StepKeeps(State(), System.Reset(l), env);
      RewriteEnds(State(), l, env);
      RowsOf(Rows(), l);
      var saved := Rows();
      r := ResetBody(l);
      Conclude(saved, r);
    }

    method ResetBody(l: nat) returns (r: Result<()>)
      requires Sound()
      modifies this
      ensures Returns(old(State()), Rows(), System.Reset(l), env, r)
    {
      hide Abstract, Schema, Valid, Cleared, ClearedIn, Filter;
      ghost var before, sys := Rows(), State();
      RowsOf(before, l);
      if l !in leagues { return Err(NotFound); }
      ClearResults(l);
      FilterCleared(before.matches, l);
      MatchesReplaced(before, matches, l);
      ghost var cleared := Rows();
      RowsOf(cleared, l);
      DeleteFromWeek(l, 0);
      SnapshotsReplaced(cleared, l, snapshots[l]);
      ghost var dropped := Rows();
      RowsOf(dropped, l);
      var rewound := UpdateStatusAndWeek(l, NotStarted, 0);
      assert rewound.Ok?;
      LeagueReplaced(dropped, l, leagues[l]);
      assert snapshots[l] == map[];
      assert SeasonIn(dropped, l) ==
             SeasonIn(before, l).(matches := Cleared(SeasonIn(before, l).matches), snapshots := map[]);
      assert State() == At(sys, l, SeasonOps.Reset(sys.seasons[l]));
      r := Ok(());
    }

    // ----- recalc.go

    /** Overwrites the snapshots of the weeks from fromWeek to the current one. */
    method RebuildSnapshots(l: nat, league: League, fromWeek: int)
      requires Schema(Rows()) && l in leagues && league.currentWeek == leagues[l].currentWeek
      requires UniqueTeams(Roster(teams, members[l]))
      modifies this
      ensures Schema(Rows()) && leagues == old(leagues) && members == old(members)
      ensures teams == old(teams) && matches == old(matches)
      ensures State() == At(old(State()), l,
                SeasonOps.RebuildSnapshots(old(SeasonIn(Rows(), l)), Roster(teams, members[l]), fromWeek))
    {
      hide Abstract, Schema, Roster, Table, ListByLeague, Stored, Filter;
      ghost var before := Rows();
      RowsOf(before, l);
      var first: nat := if fromWeek < 1 then 1 else fromWeek;
      var roster, all := Roster(teams, members[l]), ListByLeague(Filter(matches, OfLeague(l)));
      ghost var last := league.currentWeek;
      var week := first;
      while week <= league.currentWeek
        invariant l in snapshots && Rows() == before.(snapshots := before.snapshots[l := snapshots[l]])
        invariant Rebuilt(snapshots[l], roster, all, week, last) ==
                  Rebuilt(before.snapshots[l], roster, all, first, last)
      {
        var upto := UpTo(all, week);
        var rows := Calculate(roster, upto);
        var saved := UpsertSnapshot(l, week, rows);
        assert saved.Ok?;
        week := week + 1;
      }
      SnapshotsReplaced(before, l, snapshots[l]);
    }

    /** Rebuilds every snapshot and returns the live table. */
    method Recalculate(l: nat) returns (r: Result<seq<StandingRow>>)
      requires Sound()
      modifies this
      ensures Sound() && Carries(old(State()), State(), System.Recalculate(l), env, r)
      ensures if l in old(leagues) then r.Ok? else r == Err(NotFound)
      ensures r.Err? ==> Rows() == old(Rows())
      ensures r.Ok? ==> l in State().seasons && r.value == LiveTable(State(), l)
    {
      hide Abstract, Schema, Valid, Apply, LiveTable;
      StepKeeps(State(), System.Recalculate(l), env);
      RewriteEnds(State(), l, env);
      RowsOf(Rows(), l);
      var saved := Rows();
      r := RecalculateBody(l);
      Conclude(saved, r);
    }

    method RecalculateBody(l: nat) returns (r: Result<seq<StandingRow>>)
      requires Sound()
      modifies this
      ensures Returns(old(State()), Rows(), System.Recalculate(l), env, r)
      ensures r.Ok? ==> l in State().seasons && r.value == LiveTable(State(), l)
    {
      hide Abstract, Schema, Valid, Roster, Table, ListByLeague, SeasonOps.RebuildSnapshots;
      ghost var before, sys := Rows(), State();
      RowsOf(before, l);
      if l !in leagues { return Err(NotFound); }
      SoundRoster(before, l);
      RebuildSnapshots(l, leagues[l], 1);
      RowsOf(Rows(), l);
      var standings := Calculate(Roster(teams, members[l]), ListByLeague(Filter(matches, OfLeague(l))));
      r := Ok(standings);
    }

    // ----- match_service.go

    method FindMatch(id: nat) returns (m: Option<Match>)
      ensures m.Some? ==> m.value in matches && m.value.id == id
      ensures m.None? ==> forall x :: x in matches ==> x.id != id
    {
      for i := 0 to |matches|
        invariant forall j :: 0 <= j < i ==> matches[j].id != id
      {
        if matches[i].id == id { return Some(matches[i]); }
      }
      m := None;
    }

    /** Edits a played result: the old score goes to the audit log, the snapshots from its week on are rebuilt. */
    method UpdateResult(id: nat, homeGoals: int, awayGoals: int, reason: string) returns (r: Result<EditResult>)
      requires Sound()
      modifies this
      ensures Sound() && Carries(old(State()), State(), System.UpdateResult(id, homeGoals, awayGoals, reason), env, r)
      ensures homeGoals < 0 || awayGoals < 0 ==> r == Err(InvalidInput)
      ensures homeGoals >= 0 && awayGoals >= 0 && (forall m :: m in old(matches) ==> m.id != id) ==> r == Err(NotFound)
      ensures homeGoals >= 0 && awayGoals >= 0 ==>
                forall m :: m in old(matches) && m.id == id ==>
                  if m.outcome.Scheduled? then r == Err(Conflict)
                  else r.Ok? && audits == old(audits) + [Audit(id, m.outcome.homeGoals, m.outcome.awayGoals,
                                                               homeGoals, awayGoals, reason)]
      ensures r.Ok? ==> OneRescored(old(matches), matches, id, homeGoals, awayGoals)
      ensures r.Err? ==> Rows() == old(Rows())
      ensures r.Ok? ==>
                && homeGoals >= 0 && awayGoals >= 0 && Owns(State(), r.value.match_.leagueId, id)
                && r.value == EditResult(MatchOf(State().seasons[r.value.match_.leagueId], id),
                                         LiveTable(State(), r.value.match_.leagueId))
                && r.value.match_.outcome == Played(homeGoals, awayGoals)
    {
      hide Abstract, Schema, Valid, Apply, LiveTable, Owns, OneRescored;
      StepKeeps(State(), System.UpdateResult(id, homeGoals, awayGoals, reason), env);
      EditMeans(Rows(), System.UpdateResult(id, homeGoals, awayGoals, reason), env);
      RowsOf(Rows(), 0);
      if homeGoals < 0 || awayGoals < 0 { return Err(InvalidInput); }
      var saved := Rows();
      r := UpdateResultBody(id, homeGoals, awayGoals, reason);
      Conclude(saved, r);
      RowsOf(Rows(), 0);
    }

    method UpdateResultBody(id: nat, homeGoals: nat, awayGoals: nat, reason: string) returns (r: Result<EditResult>)
      requires Sound()
      modifies this
      ensures Returns(old(State()), Rows(), System.UpdateResult(id, homeGoals, awayGoals, reason), env, r)
      ensures r.Ok? ==>
                && Owns(State(), r.value.match_.leagueId, id)
                && r.value == EditResult(MatchOf(State().seasons[r.value.match_.leagueId], id),
                                         LiveTable(State(), r.value.match_.leagueId))
                && r.value.match_.outcome == Played(homeGoals, awayGoals)
      ensures r.Ok? ==> OneRescored(old(matches), matches, id, homeGoals, awayGoals)
    {
      hide Abstract, Schema, Valid, Roster, Table, ListByLeague, SeasonOps.RebuildSnapshots, Apply, Filter, Record,
           OneRescored;
      ghost var before, sys, op := Rows(), State(), System.UpdateResult(id, homeGoals, awayGoals, reason);
      EditMeans(before, op, env);
      var found := FindMatch(id);
      if found.None? { return Err(NotFound); }
      var seen := found.value;
      var l := seen.leagueId;
      LeagueOfMatch(before, seen);
      var league := leagues[l];
      if seen.outcome.Scheduled? { return Err(Conflict); }
      audits := audits + [AuditOf(seen, homeGoals, awayGoals, reason)];
      AuditsReplaced(before, audits);
      ghost var audited := Rows();
      var recorded := RecordResult(id, homeGoals, awayGoals);
      assert recorded.Ok?;
      RecordedIsRescored(before.matches, id, homeGoals, awayGoals);
      RecordedOne(audited, seen, Played(homeGoals, awayGoals));
      ghost var edited := Rows();
      RowsOf(before, l);
      RowsOf(audited, l);
      RowsOf(edited, l);
      SoundRoster(before, l);
      RebuildSnapshots(l, league, seen.week);
      EditDone(sys, State(), l, Roster(teams, members[l]), seen, homeGoals, awayGoals, audited.audits);
      RowsOf(Rows(), l);
      var updated := FindMatch(id);
      var standings := Calculate(Roster(teams, members[l]), ListByLeague(Filter(matches, OfLeague(l))));
      EditedRow(before, Rows(), seen, Played(homeGoals, awayGoals), updated);
      r := Ok(EditResult(updated.value, standings));
    }

    // ----- team_service.go, league_service.go

    method UpdateRating(id: nat, attack: int, midfield: int, defense: int) returns (r: Result<Team>)
      requires Sound()
      modifies this
      ensures Sound() && Carries(old(State()), State(), System.UpdateRating(id, attack, midfield, defense), env, r)
      ensures !RatingsAllowed(attack, midfield, defense) ==> r == Err(InvalidInput)
      ensures RatingsAllowed(attack, midfield, defense) ==>
                if exists t :: t in old(teams) && t.id == id then r.Ok? else r == Err(NotFound)
      ensures r.Err? ==> Rows() == old(Rows())
      ensures r.Ok? ==> OneRerated(old(teams), teams, id, attack, midfield, defense)
      ensures r.Ok? ==> r.value in teams && r.value.id == id
                        && r.value.attack == attack && r.value.midfield == midfield && r.value.defense == defense
    {
      hide Abstract, Schema, Valid;
      ghost var before, sys := Rows(), State();
      StepKeeps(sys, System.UpdateRating(id, attack, midfield, defense), env);
      RatingEnds(sys, id, attack, midfield, defense, env);
      RowsOf(before, 0);
      if !InRange(attack) || !InRange(midfield) || !InRange(defense) { return Err(InvalidInput); }
      if id !in TeamIds(teams) { return Err(NotFound); }
      teams := Rerated(teams, id, attack, midfield, defense);
      TeamsReplaced(before, teams);
      ghost var k :| 0 <= k < |before.teams| && TeamIds(before.teams)[k] == id;
      assert teams[k].id == id;
      var i :| 0 <= i < |teams| && teams[i].id == id;
      r := Ok(teams[i]);
    }

    /** The live table; with a right cache it is the last snapshot. */
    method Standings(l: nat) returns (r: Result<seq<StandingRow>>)
      requires Sound()
      ensures r.Ok? <==> l in State().seasons
      ensures r.Err? ==> r.error == NotFound
      ensures r.Ok? ==> r.value == LiveTable(State(), l)
      ensures r.Ok? && leagues[l].currentWeek > 0 ==>
                leagues[l].currentWeek in snapshots[l] && Stored(r.value) == snapshots[l][leagues[l].currentWeek]
    {
      hide Abstract, Schema, Valid, Roster, Table, ListByLeague;
      RowsOf(Rows(), l);
      if l !in leagues { return Err(NotFound); }
      SoundRoster(Rows(), l);
      var standings := Calculate(Roster(teams, members[l]), ListByLeague(Filter(matches, OfLeague(l))));
      if leagues[l].currentWeek > 0 { LiveIsCached(State(), l); }
      r := Ok(standings);
    }

    /** Every captured table of a league, by week. */
    method StandingsHistory(l: nat) returns (r: Result<seq<WeekTable>>)
      requires Sound()
      ensures r ==
              if l in State().seasons then Ok(HistoryOf(State().seasons[l], RosterIn(State(), l))) else Err(NotFound)
    {
      hide Abstract, Schema, Valid, Roster, HistoryOf, IsJoin, Flat;
      RowsOf(Rows(), l);
      if l !in leagues { return Err(NotFound); }
      var rows := SelectHistory(teams, snapshots[l]);
      var weeks := GroupByWeek(rows);
      HistoryRoundTrip(State(), l, rows, weeks);
      r := Ok(weeks);
    }

    /** The ids to play with: those given, each checked against the catalog, or the whole catalog. */
    method ResolveTeamIDs(explicit: seq<nat>) returns (r: Result<seq<nat>>)
      ensures r == System.ResolveTeamIDs(teams, explicit)
      ensures if AllKnown(teams, explicit) then r.Ok? && Resolved(teams, explicit, r.value) else r == Err(InvalidInput)
    {
      ResolvingMeans(teams, explicit);
      if |explicit| == 0 {
        var ids := [];
        for i := 0 to |teams|
          invariant ids == TeamIds(teams)[..i]
        {
          ids := ids + [teams[i].id];
        }
        assert TeamIds(teams)[..|teams|] == TeamIds(teams);
        return Ok(ids);
      }
      var known: set<nat> := {};
      for i := 0 to |teams|
        invariant forall id :: id in known <==> id in TeamIds(teams)[..i]
      {
        assert TeamIds(teams)[..i + 1] == TeamIds(teams)[..i] + [teams[i].id];
        known := known + {teams[i].id};
      }
      assert TeamIds(teams)[..|teams|] == TeamIds(teams);
      for i := 0 to |explicit|
        invariant forall j :: 0 <= j < i ==> explicit[j] in TeamIds(teams)
      {
        if explicit[i] !in known { return Err(InvalidInput); }
      }
      r := Ok(explicit);
    }

    /** The league row and its memberships; the membership key refuses a team given twice. */
    method InsertLeague(league: League, ids: seq<nat>) returns (r: Result<nat>)
      modifies this
      ensures r == if NoDuplicates(ids) then Ok(old(nextLeague)) else Err(Internal)
      ensures r.Ok? ==> Rows() == old(Rows()).(
                leagues := old(leagues)[r.value := league], members := old(members)[r.value := set id | id in ids],
                snapshots := old(snapshots)[r.value := map[]], nextLeague := old(nextLeague) + 1)
    {
      var id := nextLeague;
      leagues, nextLeague := leagues[id := league], nextLeague + 1;
      var duplicates := HasDuplicates(ids);
      if duplicates { return Err(Internal); }
      members, snapshots := members[id := set id | id in ids], snapshots[id := map[]];
      r := Ok(id);
    }

    /** One multi-row INSERT: all rows or, when a constraint objects, none. */
    method BulkCreate(fixtures: seq<Match>) returns (r: Result<()>)
      modifies this
      ensures r == if Acceptable(old(matches), fixtures) then Ok(()) else Err(Internal)
      ensures r.Ok? ==> Rows() == old(Rows()).(matches := old(matches) + Numbered(fixtures, old(nextMatch)),
                                               nextMatch := old(nextMatch) + |fixtures|)
    {
      if !Acceptable(matches, fixtures) { return Err(Internal); }
      matches, nextMatch := matches + Numbered(fixtures, nextMatch), nextMatch + |fixtures|;
      r := Ok(());
    }

    /** Validates the teams, draws the schedule and stores league and fixtures in one transaction. */
    method CreateLeague(name: string, explicit: seq<nat>, seed: int) returns (r: Result<nat>)
      requires Sound()
      modifies this
      ensures Sound() && Carries(old(State()), State(), System.CreateLeague(name, explicit, seed), env, r)
      ensures !Admissible(old(teams), name, explicit) ==> r == Err(InvalidInput)
      ensures Admissible(old(teams), name, explicit) ==> if Repeats(explicit) then r == Err(Internal) else r.Ok?
      ensures r.Err? ==> Rows() == old(Rows())
      ensures r.Ok? ==> r.value == old(nextLeague) && r.value in State().seasons
      ensures r.Ok? ==> exists ids :: Resolved(old(teams), explicit, ids) &&
                          CreatedAs(State().seasons[r.value], name, ids, seed, env, r.value, old(nextMatch))
    {
      hide Abstract, Schema, Valid, NewSeason, NewLeague, NoDuplicates, CreatedAs, Resolved, Admissible, Repeats;
      ghost var before := Rows();
      StepKeeps(State(), System.CreateLeague(name, explicit, seed), env);
      CreationMeans(State(), name, explicit, seed, env);
      RowsOf(before, 0);
      if name == "" { return Err(InvalidInput); }
      var resolved := ResolveTeamIDs(explicit);
      if resolved.Err? { return Err(resolved.error); }
      var ids := resolved.value;
      if |ids| < 4 || |ids| % 2 != 0 { return Err(InvalidInput); }
      var saved := Rows();
      r := CreateLeagueBody(name, explicit, ids, seed);
      Conclude(saved, r);
    }

    method CreateLeagueBody(name: string, ghost explicit: seq<nat>, ids: seq<nat>, seed: int) returns (r: Result<nat>)
      requires Sound() && name != "" && System.ResolveTeamIDs(teams, explicit) == Ok(ids)
      requires |ids| >= 4 && |ids| % 2 == 0
      modifies this
      ensures Returns(old(State()), Rows(), System.CreateLeague(name, explicit, seed), env, r)
      ensures r.Ok? ==> r.value == old(nextLeague)
    {
      hide Abstract, Schema, Valid, NewSeason, Fixture.Schedule, Fixture.Shuffled, Acceptable;
      ghost var before := Rows();
      RowsOf(before, 0);
      var created := InsertLeague(NewLeague(name, |ids|, seed), ids);
      if created.Err? { return Err(created.error); }
      var fixtures := Fixture.Generate(ids, ShuffleDraws(env, seed));
      var own := FillLeague(fixtures, created.value);
      FixturesFit(before, ids, ShuffleDraws(env, seed));
      var inserted := BulkCreate(own);
      assert inserted.Ok?;
      NewLeagueStored(before, Rows(), name, ids, seed, env);
      r := Ok(created.value);
    }
  }

  method FillLeague(fixtures: seq<Match>, l: nat) returns (own: seq<Match>)
    ensures own == WithLeague(fixtures, l)
  {
    own := [];
    for i := 0 to |fixtures|
      invariant own == WithLeague(fixtures, l)[..i]
    {
      own := own + [fixtures[i].(leagueId := l)];
    }
  }
}
