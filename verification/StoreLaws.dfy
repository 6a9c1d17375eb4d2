/** What the statements of the store mean for the leagues it holds. */
module StoreLaws {
  import opened Seqs
  import opened Domain
  import Fixture
  import opened Standings
  import opened SeasonOps
  import opened SeasonLaws
  import opened System
  import opened SystemLaws
  import opened AuditLaws
  import opened Tables

  datatype WeekMatches = WeekMatches(week: nat, matches: seq<Match>)

  datatype PlayResult = PlayResult(playedWeeks: seq<WeekMatches>, standings: seq<StandingRow>,
                                   currentWeek: nat, status: LeagueStatus)

  datatype EditResult = EditResult(match_: Match, standings: seq<StandingRow>)

  /** What one played week hands back: its scored matches and the live table. */
  datatype OneWeek = OneWeek(matches: seq<Match>, standings: seq<StandingRow>)

  /** The rows after the loop are the rows of the specified season, in the one league concerned. */
  lemma {:induction false} SimulateWeekMeans(db: Database, db': Database, l: nat, env: Env, week: nat, ok: bool)
    requires Schema(db) && Schema(db') && l in db.leagues
    requires var list, byId := Filter(db.matches, OfLeagueInWeek(l, week)), ById(Roster(db.teams, db.members[l]));
             var scores := Scores(list, byId, env.simulate, env.weekRng(db.leagues[l].seed, week), |list|);
             && ok == Resolvable(list, byId)
             && (ok ==>
                   Abstract(db') == At(Abstract(db), l,
                                       SeasonIn(db, l).(matches := Record(SeasonIn(db, l).matches, scores))))
    ensures match SeasonOps.SimulateWeek(SeasonIn(db, l), Roster(db.teams, db.members[l]), env, week)
            case Err(e) => !ok && e == Internal
            case Ok(t) => ok && Abstract(db') == At(Abstract(db), l, t)
  {
    hide Abstract, Schema, Record, Scores, Roster;
    WeekList(db.matches, l, week);
  }

  lemma {:induction false} RecordKeepsIds(ms: seq<Match>, scores: map<nat, Outcome>, m: Match)
    requires m in ms
    ensures exists m' :: m' in Record(ms, scores) && m'.id == m.id
  {
    var i :| 0 <= i < |ms| && ms[i] == m;
    assert Record(ms, scores)[i] in Record(ms, scores);
  }

  /** The first j scores of a league's week, recorded in the whole table, are recorded in that league alone. */
  lemma {:induction false} MatchesOnly(db: Database, ms: seq<Match>, l: nat, week: nat, byId: map<nat, Team>,
                                       sim: Simulator, start: Rng, j: nat)
    requires Schema(db) && l in db.leagues && j <= |Filter(db.matches, OfLeagueInWeek(l, week))|
    requires ms == Record(db.matches, Scores(Filter(db.matches, OfLeagueInWeek(l, week)), byId, sim, start, j))
    ensures var scores := Scores(Filter(db.matches, OfLeagueInWeek(l, week)), byId, sim, start, j);
            && Schema(db.(matches := ms))
            && Abstract(db.(matches := ms)) ==
               At(Abstract(db), l, SeasonIn(db, l).(matches := Record(SeasonIn(db, l).matches, scores)))
  {
    hide Abstract, SeasonIn;
    var list := Filter(db.matches, OfLeagueInWeek(l, week));
    var scores := Scores(list, byId, sim, start, j);
    forall m | m in db.matches && m.id in scores ensures m.leagueId == l {
      ScoresKeys(list, byId, sim, start, j);
      var i :| 0 <= i < j && list[i].id == m.id;
      assert list[i] in list;
      OneRowPerId(db.matches, m, list[i]);
    }
    MatchesReplaced(db, ms, l);
    assert SeasonIn(db, l).matches == Filter(db.matches, OfLeague(l)) by { SeasonMatches(db, l); }
    FilterRecord(db.matches, scores, l);
  }

  lemma {:induction false} SeasonMatches(db: Database, l: nat)
    requires Schema(db) && l in db.leagues
    ensures SeasonIn(db, l).matches == Filter(db.matches, OfLeague(l))
  {
  }

  /** A league's rows and the league they stand for. */
  lemma {:induction false} RowsOf(db: Database, l: nat)
    requires Schema(db)
    ensures l in db.leagues <==> l in Abstract(db).seasons
    ensures Abstract(db).teams == db.teams && Abstract(db).audits == db.audits
    ensures Abstract(db).nextLeague == db.nextLeague && Abstract(db).nextMatch == db.nextMatch
    ensures l in db.leagues ==>
              && l in db.snapshots && l in db.members
              && Abstract(db).seasons[l] == SeasonIn(db, l)
              && RosterIn(Abstract(db), l) == Roster(db.teams, db.members[l])
              && SeasonIn(db, l) ==
                 Season(db.leagues[l], db.members[l], Filter(db.matches, OfLeague(l)), db.snapshots[l])
  {
    hide IdsIncreasing, Roster;
  }

  /** The operation as specified: its result, its error, its new state; an error changes nothing. */
  ghost predicate Carries<T>(before: Sys, after: Sys, op: Op, env: Env, r: Result<T>) {
    && after == Next(before, op, env)
    && match Apply(before, op, env) case Err(e) => r == Err(e) case Ok(_) => r.Ok?
  }

  /** What the body of a transaction owes: the operation's error, or its success and its new state. */
  ghost predicate Returns<T>(before: Sys, after: Database, op: Op, env: Env, r: Result<T>) {
    match Apply(before, op, env)
    case Err(e) => r == Err(e)
    case Ok(next) => r.Ok? && Schema(after) && Abstract(after) == next
  }

  /** The week just played, with its scores, the live table, and where the league stands. */
  ghost predicate ReportsWeek(sys: Sys, l: nat, result: PlayResult)
    requires l in sys.seasons
  {
    var s := sys.seasons[l];
    result == PlayResult([WeekMatches(s.league.currentWeek, Filter(s.matches, InWeek(s.league.currentWeek)))],
                         Table(RosterIn(sys, l), ListByLeague(s.matches)), s.league.currentWeek, s.league.status)
  }

  lemma {:induction false} SoundRoster(db: Database, l: nat)
    requires Schema(db) && Valid(Abstract(db)) && l in db.leagues
    ensures UniqueTeams(Roster(db.teams, db.members[l]))
  {
    hide InOrder, Abstract, ValidSeason;
    RowsOf(db, l);
    RosterUnique(db.teams, db.members[l]);
  }

  /** The weeks from `first` up to `week`, each with the scores it now has. */
  ghost predicate ReportsWeeks(s: Season, first: nat, week: nat, weeks: seq<WeekMatches>) {
    && first <= week && |weeks| == week - first
    && forall i :: 0 <= i < |weeks| ==> weeks[i] == WeekMatches(first + i, Filter(s.matches, InWeek(first + i)))
  }

  /** All the weeks played by this call, with their scores, the final table, FINISHED. */
  ghost predicate ReportsSeason(sys: Sys, l: nat, weekBefore: nat, result: PlayResult)
    requires l in sys.seasons
  {
    var s := sys.seasons[l];
    && ReportsWeeks(s, weekBefore + 1, s.league.totalWeeks + 1, result.playedWeeks)
    && result.standings == Table(RosterIn(sys, l), ListByLeague(s.matches))
    && result.currentWeek == s.league.currentWeek == s.league.totalWeeks && result.status == s.league.status == Finished
  }

  lemma {:induction false} PlayWeekMeans(db: Database, l: nat, env: Env)
    requires Schema(db)
    ensures var applied := Apply(Abstract(db), System.PlayWeek(l), env);
            if l !in db.leagues then applied == Err(NotFound)
            else if db.leagues[l].status == Finished then applied == Err(Conflict)
            else
              match SeasonOps.PlayOne(SeasonIn(db, l), Roster(db.teams, db.members[l]), env,
                                       db.leagues[l].currentWeek + 1)
              case Err(e) => applied == Err(e)
              case Ok(t) => applied == Ok(At(Abstract(db), l, t))
  {
    hide Abstract, Schema, SeasonIn, Roster, SeasonOps.PlayOne;
    RowsOf(db, l);
  }

  lemma {:induction false} PlayAllMeans(db: Database, l: nat, env: Env)
    requires Schema(db)
    ensures var applied := Apply(Abstract(db), System.PlayAll(l), env);
            if l !in db.leagues then applied == Err(NotFound)
            else if db.leagues[l].status == Finished then applied == Err(Conflict)
            else
              match PlayFrom(SeasonIn(db, l), Roster(db.teams, db.members[l]), env, db.leagues[l].currentWeek + 1)
              case Err(e) => applied == Err(e)
              case Ok(t) => applied == Ok(At(Abstract(db), l, t))
  {
    hide Abstract, Schema, SeasonIn, Roster, PlayFrom;
    RowsOf(db, l);
  }

  lemma {:induction false} NothingToPlay(s: Season, roster: seq<Team>, env: Env, week: nat)
    requires week > s.league.totalWeeks
    ensures PlayFrom(s, roster, env, week) == Ok(s)
  {
  }

  lemma {:induction false} PlayStops(s: Season, roster: seq<Team>, env: Env, week: nat)
    requires week <= s.league.totalWeeks && SeasonOps.PlayOne(s, roster, env, week).Err?
    ensures PlayFrom(s, roster, env, week) == SeasonOps.PlayOne(s, roster, env, week)
  {
    hide SeasonOps.PlayOne;
  }

  lemma {:induction false} NothingReported(s: Season, first: nat)
    ensures ReportsWeeks(s, first, first, [])
  {
  }

  lemma {:induction false} LeagueAfter(s: Season, t: Season, roster: seq<Team>, env: Env, week: nat)
    requires SeasonOps.PlayOne(s, roster, env, week) == Ok(t)
    ensures t.league == s.league.(currentWeek := week, status := StatusForWeek(week, s.league.totalWeeks))
    ensures t.members == s.members && t.matches == Record(s.matches, WeekScores(s, roster, env, week))
  {
    hide Stored, Table, ListByLeague, Record, WeekScores;
  }

  lemma {:induction false} OneMoreWeek(db: Database, db': Database, l: nat, roster: seq<Team>, env: Env, first: nat,
                                       week: nat, weeks: seq<WeekMatches>)
    requires Schema(db) && Schema(db') && l in db.leagues && l in db'.leagues
    requires SeasonOps.PlayOne(SeasonIn(db, l), roster, env, week) == Ok(SeasonIn(db', l))
    requires ReportsWeeks(SeasonIn(db, l), first, week, weeks) && week <= db.leagues[l].totalWeeks
    ensures ReportsWeeks(SeasonIn(db', l), first, week + 1,
                         weeks + [WeekMatches(week, Filter(SeasonIn(db', l).matches, InWeek(week)))])
    ensures db'.leagues[l] ==
            db.leagues[l].(currentWeek := week, status := StatusForWeek(week, db.leagues[l].totalWeeks))
    ensures PlayFrom(SeasonIn(db', l), roster, env, week + 1) == PlayFrom(SeasonIn(db, l), roster, env, week)
  {
    hide Abstract, Record, WeekScores, SeasonOps.PlayOne, Schema, SeasonIn, Filter;
    var s, t := SeasonIn(db, l), SeasonIn(db', l);
    RowsOf(db, l);
    RowsOf(db', l);
    LeagueAfter(s, t, roster, env, week);
    FilterIds(db, l);
    forall other: nat | other != week ensures Filter(t.matches, InWeek(other)) == Filter(s.matches, InWeek(other)) {
      OtherWeekStands(s, roster, env, week, other);
    }
  }

  /** An unfinished league has a week left to play. */
  lemma {:induction false} WeeksLeft(db: Database, l: nat)
    requires Schema(db) && Valid(Abstract(db)) && l in db.leagues && db.leagues[l].status != Finished
    ensures db.leagues[l].currentWeek < db.leagues[l].totalWeeks
  {
    hide CacheAgrees, RosterOf, Abstract, IdsIncreasing, WellPlaced;
    RowsOf(db, l);
    assert ValidSeason(Abstract(db), l);
  }

  lemma {:induction false} OtherWeekStands(s: Season, roster: seq<Team>, env: Env, week: nat, other: nat)
    requires IdsIncreasing(s.matches) && other != week
    ensures Filter(Record(s.matches, WeekScores(s, roster, env, week)), InWeek(other)) ==
            Filter(s.matches, InWeek(other))
  {
    hide WeekScores, Record;
    WeekRecorded(s, roster, env, week);
    FilterCongruence(s.matches, Record(s.matches, WeekScores(s, roster, env, week)), InWeek(other));
  }

  lemma {:induction false} FilterIds(db: Database, l: nat)
    requires Schema(db) && l in db.leagues
    ensures IdsIncreasing(SeasonIn(db, l).matches)
  {
    FilterIncreasing(db.matches, OfLeague(l));
  }

  /** Two writes to one league are one, and what the second leaves alone is still there. */
  lemma {:induction false} Advanced(sys: Sys, sys': Sys, l: nat, t: Season, roster: seq<Team>, week: nat)
    requires sys' == At(At(sys, l, t), l, SeasonOps.AdvanceAndSnapshot(t, roster, week))
    ensures sys' == At(sys, l, SeasonOps.AdvanceAndSnapshot(t, roster, week))
    ensures sys'.seasons[l].matches == t.matches && sys'.seasons[l].members == t.members
    ensures sys'.seasons[l].league == t.league.(currentWeek := week, status := StatusForWeek(week, t.league.totalWeeks))
  {
    hide Stored, Table, ListByLeague;
  }

  /** The inner loop of the rebuild: the matches of the weeks so far. */
  method UpTo(all: seq<Match>, week: nat) returns (upto: seq<Match>)
    ensures upto == Filter(all, UpToWeek(week))
  {
    upto := [];
    for i := 0 to |all|
      invariant upto == Filter(all[..i], UpToWeek(week))
    {
      FilterPrefix(all, i, UpToWeek(week));
      if all[i].week <= week { upto := upto + [all[i]]; }
    }
    assert all[..|all|] == all;
  }

  ghost function LiveTable(sys: Sys, l: nat): seq<StandingRow>
    requires l in sys.seasons
  {
    Table(RosterIn(sys, l), ListByLeague(sys.seasons[l].matches))
  }

  /** In a valid state the table over all matches is the current week's snapshot. */
  lemma {:induction false} LiveIsCached(sys: Sys, l: nat)
    requires Valid(sys) && l in sys.seasons && sys.seasons[l].league.currentWeek > 0
    ensures sys.seasons[l].league.currentWeek in sys.seasons[l].snapshots
    ensures sys.seasons[l].snapshots[sys.seasons[l].league.currentWeek] == Stored(LiveTable(sys, l))
  {
    hide Stored, Table, Roster, ListByLeague;
    var s := sys.seasons[l];
    assert ValidSeason(sys, l);
    forall m | m in s.matches && m.week > s.league.currentWeek ensures m.outcome.Scheduled? {
      assert WellPlaced(s, m);
    }
    LiveTableIsTableThrough(RosterIn(sys, l), s.matches, s.league.currentWeek);
  }

  lemma {:induction false} LeagueOfMatch(db: Database, m: Match)
    requires Schema(db) && m in db.matches
    ensures m.leagueId in db.leagues && Owns(Abstract(db), m.leagueId, m.id)
    ensures m in SeasonIn(db, m.leagueId).matches
  {
    hide IdsIncreasing;
    RowsOf(db, m.leagueId);
  }

  lemma {:induction false} RecordedOne(db: Database, m: Match, o: Outcome)
    requires Schema(db) && m in db.matches
    ensures m.leagueId in db.leagues && Schema(db.(matches := Record(db.matches, map[m.id := o])))
    ensures Abstract(db.(matches := Record(db.matches, map[m.id := o]))) ==
            At(Abstract(db), m.leagueId,
               SeasonIn(db, m.leagueId).(matches := Record(SeasonIn(db, m.leagueId).matches, map[m.id := o])))
  {
    hide Abstract;
    forall x | x in db.matches && x.id in map[m.id := o] ensures x.leagueId == m.leagueId {
      OneRowPerId(db.matches, x, m);
    }
    MatchesReplaced(db, Record(db.matches, map[m.id := o]), m.leagueId);
    FilterRecord(db.matches, map[m.id := o], m.leagueId);
  }

  /** What an edit does, told by the row the id leads to. */
  lemma {:induction false} EditMeans(db: Database, op: Op, env: Env)
    requires Schema(db) && Valid(Abstract(db)) && op.UpdateResult?
    ensures var sys := Abstract(db); var applied := Apply(sys, op, env);
            && (op.homeGoals < 0 || op.awayGoals < 0 ==> applied == Err(InvalidInput))
            && (op.homeGoals >= 0 && op.awayGoals >= 0 ==>
                  && ((forall m :: m in db.matches ==> m.id != op.match_) ==> applied == Err(NotFound))
                  && forall m :: m in db.matches && m.id == op.match_ ==>
                       && m.leagueId in sys.seasons
                       && match EditMatch(sys.seasons[m.leagueId], RosterIn(sys, m.leagueId), m,
                                       op.homeGoals, op.awayGoals)
                          case Err(e) => applied == Err(e)
                          case Ok(s) => applied == Ok(At(sys, m.leagueId, s).(audits :=
                                          sys.audits + [AuditOf(m, op.homeGoals, op.awayGoals, op.reason)])))
  {
    hide Abstract, Valid, EditMatch, Roster;
    var sys := Abstract(db);
    if op.homeGoals >= 0 && op.awayGoals >= 0 {
      if m :| m in db.matches && m.id == op.match_ {
        LeagueOfMatch(db, m);
        forall k | Owns(sys, k, op.match_) ensures k == m.leagueId { OwnerOnce(sys, k, m.leagueId, op.match_); }
        MatchOfRow(db, m);
        forall x | x in db.matches && x.id == op.match_ ensures x == m { OneRowPerId(db.matches, x, m); }
      } else {
        forall k ensures !Owns(sys, k, op.match_) { OwnedIsRow(db, k, op.match_); }
      }
    }
  }

  lemma {:induction false} MatchOfRow(db: Database, m: Match)
    requires Schema(db) && m in db.matches
    ensures Owns(Abstract(db), m.leagueId, m.id) && MatchOf(Abstract(db).seasons[m.leagueId], m.id) == m
  {
    hide Abstract;
    LeagueOfMatch(db, m);
    RowsOf(db, m.leagueId);
    OneRowPerId(db.matches, m, MatchOf(Abstract(db).seasons[m.leagueId], m.id));
  }

  lemma {:induction false} OwnedIsRow(db: Database, l: nat, id: nat)
    requires Schema(db)
    ensures Owns(Abstract(db), l, id) ==> exists m :: m in db.matches && m.id == id
  {
    hide Abstract, IdsIncreasing;
    RowsOf(db, l);
    if Owns(Abstract(db), l, id) {
      var m := MatchOf(Abstract(db).seasons[l], id);
      assert m in db.matches;
    }
  }

  /** Reading the match again after the edit finds the new score. */
  lemma {:induction false} EditedRow(db: Database, db': Database, seen: Match, o: Outcome, updated: Option<Match>)
    requires Schema(db) && Schema(db') && seen in db.matches && db'.matches == Record(db.matches, map[seen.id := o])
    requires updated.Some? ==> updated.value in db'.matches && updated.value.id == seen.id
    requires updated.None? ==> forall x :: x in db'.matches ==> x.id != seen.id
    ensures updated == Some(seen.(outcome := o)) && updated.value in db'.matches
    ensures Owns(Abstract(db'), seen.leagueId, seen.id)
    ensures MatchOf(Abstract(db').seasons[seen.leagueId], seen.id) == seen.(outcome := o)
  {
    hide Abstract;
    var i :| 0 <= i < |db.matches| && db.matches[i] == seen;
    var m := db'.matches[i];
    assert m in db'.matches && m == seen.(outcome := o);
    OneRowPerId(db'.matches, m, if updated.Some? then updated.value else m);
    MatchOfRow(db', m);
  }

  lemma {:induction false} EditDone(sys: Sys, sys': Sys, l: nat, roster: seq<Team>, seen: Match, homeGoals: nat,
                                    awayGoals: nat, audits: seq<Audit>)
    requires l in sys.seasons && seen.outcome.Played?
    requires var s := sys.seasons[l];
             var recorded := s.(matches := Record(s.matches, map[seen.id := Played(homeGoals, awayGoals)]));
             sys' == At(At(sys.(audits := audits), l, recorded), l,
                       SeasonOps.RebuildSnapshots(recorded, roster, seen.week))
    ensures EditMatch(sys.seasons[l], roster, seen, homeGoals, awayGoals).Ok?
    ensures sys' == At(sys, l, EditMatch(sys.seasons[l], roster, seen, homeGoals, awayGoals).value).(audits := audits)
  {
    hide Record, SeasonOps.RebuildSnapshots;
  }

  // ----- creating a league

  function WithLeague(fixtures: seq<Match>, l: nat): (ms: seq<Match>)
    ensures |ms| == |fixtures|
  {
    seq(|fixtures|, i requires 0 <= i < |fixtures| => fixtures[i].(leagueId := l))
  }

  /** No schedule of the generator violates a constraint of the matches table. */
  lemma {:induction false} ScheduleAcceptable(db: Database, wheel: seq<nat>, l: nat)
    requires Fixture.IsWheel(wheel) && forall m :: m in db.matches ==> m.leagueId != l
    ensures Acceptable(db.matches, WithLeague(Fixture.Schedule(wheel), l))
  {
    var fs := Fixture.Schedule(wheel);
    Fixture.ScheduleShape(wheel);
    forall i | 0 <= i < |fs| ensures fs[i].home != fs[i].away && fs[i].week >= 1 {
      assert fs[i] in fs;
    }
    forall i, j | 0 <= i < j < |fs| ensures !SameFixture(WithLeague(fs, l)[i], WithLeague(fs, l)[j]) {
      DifferentPairings(wheel, i, j);
    }
    forall i, j | 0 <= i < |fs| && 0 <= j < |db.matches| ensures !SameFixture(WithLeague(fs, l)[i], db.matches[j]) {
      assert db.matches[j] in db.matches;
    }
  }

  lemma {:induction false} DifferentPairings(wheel: seq<nat>, i: nat, j: nat)
    requires Fixture.IsWheel(wheel) && i < j < |Fixture.Schedule(wheel)|
    ensures var fs := Fixture.Schedule(wheel); fs[i].home != fs[j].home || fs[i].away != fs[j].away
  {
    var fs := Fixture.Schedule(wheel);
    var p := Fixture.Pairing(fs[i].home, fs[i].away);
    Fixture.ScheduleShape(wheel);
    assert fs[i] in fs;
    Fixture.EveryPairingOnce(wheel, fs[i].home, fs[i].away);
    if p(fs[j]) { CountedOnce(fs, p, i, j); }
  }

  /** A league row, its members, an empty cache and its matches: one league more, the others as they were. */
  lemma {:induction false} LeagueAdded(db: Database, db': Database, s: Season)
    requires Schema(db) && s.snapshots == map[]
    requires IdsIncreasing(s.matches)
    requires forall m :: m in s.matches ==>
               m.leagueId == db.nextLeague && db.nextMatch <= m.id < db.nextMatch + |s.matches|
    requires db' == db.(leagues := db.leagues[db.nextLeague := s.league],
                        members := db.members[db.nextLeague := s.members],
                        snapshots := db.snapshots[db.nextLeague := map[]], matches := db.matches + s.matches,
                        nextLeague := db.nextLeague + 1, nextMatch := db.nextMatch + |s.matches|)
    ensures Schema(db')
    ensures Abstract(db') == Abstract(db).(seasons := Abstract(db).seasons[db.nextLeague := s],
                                           nextLeague := db.nextLeague + 1, nextMatch := db.nextMatch + |s.matches|)
  {
    hide IdsIncreasing;
    AddedSchema(db, db', s);
    forall k | k in db.leagues ensures SeasonIn(db', k) == SeasonIn(db, k) { OldSeasonStands(db, db', s, k); }
    NewSeasonIn(db, db', s);
    LeagueMore(db, db', s);
  }

  lemma {:induction false} LeagueMore(db: Database, db': Database, s: Season)
    requires Schema(db) && Schema(db') && db.nextLeague in db'.leagues && SeasonIn(db', db.nextLeague) == s
    requires forall k :: k in db'.leagues <==> k in db.leagues || k == db.nextLeague
    requires forall k :: k in db.leagues ==> SeasonIn(db', k) == SeasonIn(db, k)
    requires db'.teams == db.teams && db'.audits == db.audits
    ensures Abstract(db') == Abstract(db).(seasons := Abstract(db).seasons[db.nextLeague := s],
                                           nextLeague := db'.nextLeague, nextMatch := db'.nextMatch)
  {
    hide Schema, SeasonIn;
    assert Abstract(db').seasons == Abstract(db).seasons[db.nextLeague := s];
  }

  lemma {:induction false} AddedSchema(db: Database, db': Database, s: Season)
    requires Schema(db) && IdsIncreasing(s.matches)
    requires forall m :: m in s.matches ==>
               m.leagueId == db.nextLeague && db.nextMatch <= m.id < db.nextMatch + |s.matches|
    requires db'.leagues == db.leagues[db.nextLeague := s.league] &&
             db'.members == db.members[db.nextLeague := s.members]
    requires db'.snapshots == db.snapshots[db.nextLeague := map[]] && db'.matches == db.matches + s.matches
    requires db'.nextLeague == db.nextLeague + 1 && db'.nextMatch == db.nextMatch + |s.matches|
    ensures Schema(db')
  {
    assert db'.members.Keys == db'.leagues.Keys && db'.snapshots.Keys == db'.leagues.Keys;
    forall i, j | 0 <= i < j < |db'.matches| ensures db'.matches[i].id < db'.matches[j].id {
      if i < |db.matches| <= j {
        assert db.matches[i] in db.matches && s.matches[j - |db.matches|] in s.matches;
      } else if |db.matches| <= i {
        assert s.matches[i - |db.matches|].id < s.matches[j - |db.matches|].id;
      }
    }
    forall m | m in db'.matches ensures m.leagueId in db'.leagues && m.id < db'.nextMatch {
      assert m in db.matches || m in s.matches;
    }
  }

  lemma {:induction false} OldSeasonStands(db: Database, db': Database, s: Season, k: nat)
    requires Schema(db) && Schema(db') && k in db.leagues && k in db'.leagues && k != db.nextLeague
    requires db'.leagues[k] == db.leagues[k] && db'.members[k] == db.members[k] && db'.snapshots[k] == db.snapshots[k]
    requires db'.matches == db.matches + s.matches && forall m :: m in s.matches ==> m.leagueId == db.nextLeague
    ensures SeasonIn(db', k) == SeasonIn(db, k)
  {
    FilterAppend(db.matches, s.matches, OfLeague(k));
    forall i | 0 <= i < |s.matches| ensures s.matches[i].leagueId != k { assert s.matches[i] in s.matches; }
    FilterNone(s.matches, OfLeague(k));
  }

  lemma {:induction false} NewSeasonIn(db: Database, db': Database, s: Season)
    requires Schema(db) && Schema(db') && db.nextLeague in db'.leagues && s.snapshots == map[]
    requires db'.leagues[db.nextLeague] == s.league && db'.members[db.nextLeague] == s.members
    requires db'.snapshots[db.nextLeague] == map[] && db'.matches == db.matches + s.matches
    requires forall m :: m in s.matches ==> m.leagueId == db.nextLeague
    ensures SeasonIn(db', db.nextLeague) == s
  {
    FilterAppend(db.matches, s.matches, OfLeague(db.nextLeague));
    forall i | 0 <= i < |db.matches| ensures db.matches[i].leagueId != db.nextLeague {
      assert db.matches[i] in db.matches; }
    forall i | 0 <= i < |s.matches| ensures s.matches[i].leagueId == db.nextLeague { assert s.matches[i] in s.matches; }
    FilterNone(db.matches, OfLeague(db.nextLeague));
    FilterAll(s.matches, OfLeague(db.nextLeague));
  }

  /** What the matches table as a whole has to satisfy. */
  ghost predicate Constraints(ms: seq<Match>) {
    && (forall m :: m in ms ==> m.home != m.away && m.week >= 1)
    && forall i, j :: 0 <= i < j < |ms| ==>
         ms[i].leagueId != ms[j].leagueId || ms[i].week != ms[j].week ||
         ms[i].home != ms[j].home || ms[i].away != ms[j].away
  }

  /** New rows pass exactly when the table with them still satisfies its constraints. */
  lemma {:induction false} AcceptableIff(existing: seq<Match>, fixtures: seq<Match>)
    requires Constraints(existing)
    ensures Acceptable(existing, fixtures) <==> Constraints(existing + fixtures)
  {
    var all, n := existing + fixtures, |existing|;
    if Acceptable(existing, fixtures) {
      forall i, j | 0 <= i < j < |all|
        ensures all[i].leagueId != all[j].leagueId || all[i].week != all[j].week ||
                all[i].home != all[j].home || all[i].away != all[j].away
      {
        if i < n <= j { assert !SameFixture(fixtures[j - n], existing[i]); }
        if n <= i { assert !SameFixture(fixtures[i - n], fixtures[j - n]); }
      }
    }
    if Constraints(all) {
      forall i | 0 <= i < |fixtures| ensures fixtures[i].home != fixtures[i].away && fixtures[i].week >= 1 {
        assert all[n + i] in all;
      }
      forall i, j | 0 <= i < j < |fixtures| ensures !SameFixture(fixtures[i], fixtures[j]) {
        assert all[n + i] == fixtures[i] && all[n + j] == fixtures[j];
      }
      forall i, j | 0 <= i < |fixtures| && 0 <= j < n ensures !SameFixture(fixtures[i], existing[j]) {
        assert all[j] == existing[j] && all[n + i] == fixtures[i];
      }
    }
  }

  method HasDuplicates(ids: seq<nat>) returns (duplicates: bool)
    ensures duplicates == !NoDuplicates(ids)
  {
    var seen: set<nat> := {};
    for i := 0 to |ids|
      invariant forall id :: id in seen <==> id in ids[..i]
      invariant NoDuplicates(ids[..i])
    {
      assert ids[..i + 1] == ids[..i] + [ids[i]];
      if ids[i] in seen {
        assert ids == ids[..i + 1] + ids[i + 1..];
        assert multiset(ids)[ids[i]] >= multiset(ids[..i + 1])[ids[i]] >= 2;
        return true;
      }
      seen := seen + {ids[i]};
    }
    assert ids[..|ids|] == ids;
    duplicates := false;
  }

  lemma {:induction false} FixturesFit(db: Database, ids: seq<nat>, draw: nat -> nat)
    requires Schema(db) && |ids| >= 4 && |ids| % 2 == 0 && NoDuplicates(ids)
    ensures Acceptable(db.matches, WithLeague(Fixture.Schedule(Fixture.Shuffled(ids, draw)), db.nextLeague))
  {
    hide Fixture.Schedule, Fixture.Shuffled, Acceptable;
    Fixture.ShuffledIsWheel(ids, draw);
    ScheduleAcceptable(db, Fixture.Shuffled(ids, draw), db.nextLeague);
  }

  lemma {:induction false} NewLeagueStored(db: Database, db': Database, name: string, ids: seq<nat>, seed: int,
                                           env: Env)
    requires Schema(db) && |ids| >= 4 && |ids| % 2 == 0 && NoDuplicates(ids)
    requires var l := db.nextLeague;
             var fixtures := WithLeague(Fixture.Schedule(Fixture.Shuffled(ids, ShuffleDraws(env, seed))), l);
             db' == db.(leagues := db.leagues[l := NewLeague(name, |ids|, seed)],
                        members := db.members[l := set id | id in ids],
                        snapshots := db.snapshots[l := map[]], nextLeague := l + 1,
                        matches := db.matches + Numbered(fixtures, db.nextMatch),
                        nextMatch := db.nextMatch + |fixtures|)
    ensures Schema(db')
    ensures var s := NewSeason(name, ids, seed, env, db.nextLeague, db.nextMatch);
            Abstract(db') == Abstract(db).(seasons := Abstract(db).seasons[db.nextLeague := s],
                                           nextLeague := db.nextLeague + 1, nextMatch := db.nextMatch + |s.matches|)
  {
    assert forall fs: seq<Match> ::
      Numbered(WithLeague(fs, db.nextLeague), db.nextMatch) == Inserted(fs, db.nextLeague, db.nextMatch);
    hide Abstract, Schema, Fixture.Schedule, Fixture.Shuffled, Coherent, WellPlaced,
         IsFresh, Numbered, WithLeague, Inserted;
    var s := NewSeason(name, ids, seed, env, db.nextLeague, db.nextMatch);
    NewSeasonCoherent(name, ids, seed, env, db.nextLeague, db.nextMatch);
    LeagueAdded(db, db', s);
  }

}
