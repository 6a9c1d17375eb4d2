/** What every operation on a league keeps, and what the operations are to each other. */
module SeasonLaws {
  import opened Seqs
  import opened Domain
  import opened Standings
  import opened SeasonOps

  // ----- the invariants

  ghost predicate IdsIncreasing(ms: seq<Match>) {
    forall i, j :: 0 <= i < j < |ms| ==> ms[i].id < ms[j].id
  }

  /** A match is PLAYED exactly when its week is behind the league; status and week tell the same story. */
  ghost predicate Coherent(s: Season) {
    && s.league.currentWeek <= s.league.totalWeeks && 1 <= s.league.totalWeeks
    && s.league.status == (if s.league.currentWeek == 0 then NotStarted
                           else StatusForWeek(s.league.currentWeek, s.league.totalWeeks))
    && IdsIncreasing(s.matches)
    && forall m :: m in s.matches ==> WellPlaced(s, m)
  }

  ghost predicate WellPlaced(s: Season, m: Match) {
    && 1 <= m.week <= s.league.totalWeeks
    && m.home in s.members && m.away in s.members && m.home != m.away
    && (m.outcome.Played? <==> m.week <= s.league.currentWeek)
  }

  /** Snapshots exist for exactly the weeks behind the league, each the table through its week. */
  ghost predicate CacheAgrees(s: Season, roster: seq<Team>) {
    && (forall k :: k in s.snapshots <==> 1 <= k <= s.league.currentWeek)
    && (forall k :: k in s.snapshots ==> s.snapshots[k] == Stored(TableThrough(roster, s.matches, k)))
  }

  ghost predicate RosterOf(roster: seq<Team>, members: set<nat>) {
    UniqueTeams(roster) && forall id :: id in ById(roster) <==> id in members
  }

  /** The same competition: nothing but results, week, status and snapshots may differ. */
  ghost predicate SameLeague(s: Season, t: Season) {
    && s.members == t.members && s.league.name == t.league.name
    && s.league.totalWeeks == t.league.totalWeeks && s.league.seed == t.league.seed
    && Cleared(s.matches) == Cleared(t.matches)
  }

  lemma {:induction false} SameFixtures(a: seq<Match>, b: seq<Match>)
    ensures Cleared(a) == Cleared(b) <==>
            |a| == |b| && forall i :: 0 <= i < |a| ==> a[i].(outcome := Scheduled) == b[i].(outcome := Scheduled)
  {
    if Cleared(a) == Cleared(b) {
      forall i | 0 <= i < |a| ensures a[i].(outcome := Scheduled) == b[i].(outcome := Scheduled) {
        assert Cleared(a)[i] == Cleared(b)[i];
      }
    }
  }

  lemma {:induction false} OneRowPerId(ms: seq<Match>, a: Match, b: Match)
    requires IdsIncreasing(ms) && a in ms && b in ms && a.id == b.id
    ensures a == b
  {
    var i :| 0 <= i < |ms| && ms[i] == a;
    var j :| 0 <= j < |ms| && ms[j] == b;
    assert i == j;
  }

  lemma {:induction false} FilterIncreasing(ms: seq<Match>, p: Match -> bool)
    requires IdsIncreasing(ms)
    ensures IdsIncreasing(Filter(ms, p))
  {
    if ms != [] {
      var init, last := ms[..|ms| - 1], ms[|ms| - 1];
      FilterIncreasing(init, p);
      forall m | m in Filter(init, p) ensures m.id < last.id {
        var i :| 0 <= i < |init| && init[i] == m;
        assert ms[i].id < ms[|ms| - 1].id;
      }
      var r := Filter(init, p);
      assert forall i :: 0 <= i < |r| ==> r[i] in r;
    }
  }

  // ----- simulating a week

  lemma {:induction false} ScoresKeys(list: seq<Match>, byId: map<nat, Team>, sim: Simulator, start: Rng, j: nat)
    requires j <= |list|
    ensures forall id :: id in Scores(list, byId, sim, start, j) <==> exists i :: 0 <= i < j && list[i].id == id
    ensures forall id :: id in Scores(list, byId, sim, start, j) ==> Scores(list, byId, sim, start, j)[id].Played?
  {
    if j > 0 {
      ScoresKeys(list, byId, sim, start, j - 1);
      forall id ensures id in Scores(list, byId, sim, start, j) <==> exists i :: 0 <= i < j && list[i].id == id {
        var before := Scores(list, byId, sim, start, j - 1);
        assert id in Scores(list, byId, sim, start, j) <==> id in before || id == list[j - 1].id;
        if id in before { var i :| 0 <= i < j - 1 && list[i].id == id; }
      }
    }
  }

  lemma {:induction false} WeekScoresCover(s: Season, roster: seq<Team>, env: Env, week: nat, i: nat)
    requires IdsIncreasing(s.matches) && i < |s.matches|
    ensures var scores := WeekScores(s, roster, env, week);
            && (s.matches[i].id in scores <==> s.matches[i].week == week)
            && (s.matches[i].id in scores ==> scores[s.matches[i].id].Played?)
  {
    var m, list := s.matches[i], Filter(s.matches, InWeek(week));
    ScoresKeys(list, ById(roster), env.simulate, env.weekRng(s.league.seed, week), |list|);
    if m.week == week {
      assert m in list;
      var j :| 0 <= j < |list| && list[j] == m;
    }
    if m.id in WeekScores(s, roster, env, week) {
      var j :| 0 <= j < |list| && list[j].id == m.id;
      assert list[j] in s.matches;
      var k :| 0 <= k < |s.matches| && s.matches[k] == list[j];
      assert k == i;
    }
  }

  /** The week's matches are scored, every other row is as it was. */
  lemma {:induction false} WeekRecorded(s: Season, roster: seq<Team>, env: Env, week: nat)
    requires IdsIncreasing(s.matches)
    ensures var ms := Record(s.matches, WeekScores(s, roster, env, week));
            forall i :: 0 <= i < |ms| ==>
              if s.matches[i].week == week then
                ms[i].outcome.Played? && ms[i] == s.matches[i].(outcome := ms[i].outcome)
              else ms[i] == s.matches[i]
  {
    var ms := Record(s.matches, WeekScores(s, roster, env, week));
    forall i | 0 <= i < |ms|
      ensures if s.matches[i].week == week then
                ms[i].outcome.Played? && ms[i] == s.matches[i].(outcome := ms[i].outcome)
              else ms[i] == s.matches[i]
    {
      WeekScoresCover(s, roster, env, week, i);
    }
  }

  // ----- tables through a week

  lemma {:induction false} OrderDoesNotShow(roster: seq<Team>, ms: seq<Match>, week: nat)
    requires UniqueTeams(roster)
    ensures TableThrough(roster, ListByLeague(ms), week) == TableThrough(roster, ms, week)
    ensures Table(roster, ListByLeague(ms)) == Table(roster, ms)
  {
    FilterPermutation(ListByLeague(ms), ms, UpToWeek(week));
    TableOfSets(roster, Filter(ListByLeague(ms), UpToWeek(week)), roster, Filter(ms, UpToWeek(week)));
    TableOfSets(roster, ListByLeague(ms), roster, ms);
  }

  /** Rows of later weeks do not enter the table through a week. */
  lemma {:induction false} LaterWeeksDoNotShow(roster: seq<Team>, a: seq<Match>, b: seq<Match>, week: nat)
    requires |a| == |b|
    requires forall i :: 0 <= i < |a| ==> a[i].week == b[i].week && (a[i].week <= week ==> a[i] == b[i])
    ensures TableThrough(roster, a, week) == TableThrough(roster, b, week)
  {
    FilterCongruence(a, b, UpToWeek(week));
  }

  /** The two ways of computing a week's snapshot agree: nothing later is PLAYED. */
  lemma {:induction false} LiveTableIsTableThrough(roster: seq<Team>, ms: seq<Match>, week: nat)
    requires UniqueTeams(roster) && forall m :: m in ms && m.week > week ==> m.outcome.Scheduled?
    ensures Table(roster, ListByLeague(ms)) == TableThrough(roster, ms, week)
  {
    OrderDoesNotShow(roster, ms, week);
    TableFilter(roster, ms, UpToWeek(week));
  }

  // ----- playing a week keeps everything

  lemma {:induction false} PlayOneResolves(s: Season, roster: seq<Team>, env: Env, week: nat)
    requires Coherent(s) && RosterOf(roster, s.members)
    ensures PlayOne(s, roster, env, week) ==
            Ok(AdvanceAndSnapshot(s.(matches := Record(s.matches, WeekScores(s, roster, env, week))), roster, week))
  {
    var list := Filter(s.matches, InWeek(week));
    forall j | 0 <= j < |list| ensures list[j].home in ById(roster) && list[j].away in ById(roster) {
      assert list[j] in s.matches;
    }
  }

  /** One played week from a coherent league. */
  function WeekPlayed(s: Season, roster: seq<Team>, env: Env): Season {
    var week := s.league.currentWeek + 1;
    AdvanceAndSnapshot(s.(matches := Record(s.matches, WeekScores(s, roster, env, week))), roster, week)
  }

  lemma {:induction false} PlayedCoherent(s: Season, roster: seq<Team>, env: Env)
    requires Coherent(s) && s.league.currentWeek < s.league.totalWeeks
    ensures Coherent(WeekPlayed(s, roster, env))
  {
    hide Table, Stored, ListByLeague;
    var t, week := WeekPlayed(s, roster, env), s.league.currentWeek + 1;
    WeekRecorded(s, roster, env, week);
    forall m | m in t.matches ensures WellPlaced(t, m) {
      var i :| 0 <= i < |t.matches| && t.matches[i] == m;
      assert s.matches[i] in s.matches;
    }
  }

  /** The new snapshot, computed over all matches, is the table through the new week. */
  lemma {:induction false} NewSnapshotAgrees(s: Season, roster: seq<Team>, env: Env)
    requires Coherent(s) && UniqueTeams(roster) && s.league.currentWeek < s.league.totalWeeks
    ensures var t, week := WeekPlayed(s, roster, env), s.league.currentWeek + 1;
            t.snapshots == s.snapshots[week := Stored(TableThrough(roster, t.matches, week))]
  {
    hide Table, TableThrough, Stored, ListByLeague, Record, WeekScores;
    var t, week := WeekPlayed(s, roster, env), s.league.currentWeek + 1;
    PlayedCoherent(s, roster, env);
    forall m | m in t.matches && m.week > week ensures m.outcome.Scheduled? {
      assert WellPlaced(t, m);
    }
    LiveTableIsTableThrough(roster, t.matches, week);
  }

  /** Playing a week leaves the tables through the earlier weeks alone. */
  lemma {:induction false} OldTablesStand(s: Season, roster: seq<Team>, env: Env, k: nat)
    requires Coherent(s) && k <= s.league.currentWeek
    ensures TableThrough(roster, WeekPlayed(s, roster, env).matches, k) == TableThrough(roster, s.matches, k)
  {
    hide TableThrough, Stored, ListByLeague, Table, WeekScores;
    WeekRecorded(s, roster, env, s.league.currentWeek + 1);
    LaterWeeksDoNotShow(roster, s.matches, WeekPlayed(s, roster, env).matches, k);
  }

  lemma {:induction false} PlayedCacheAgrees(s: Season, roster: seq<Team>, env: Env)
    requires Coherent(s) && CacheAgrees(s, roster) && UniqueTeams(roster)
    requires s.league.currentWeek < s.league.totalWeeks
    ensures CacheAgrees(WeekPlayed(s, roster, env), roster)
  {
    hide TableThrough, Stored, Record, StatusForWeek;
    var t, week := WeekPlayed(s, roster, env), s.league.currentWeek + 1;
    NewSnapshotAgrees(s, roster, env);
    forall k | k in s.snapshots
      ensures s.snapshots[k] == Stored(TableThrough(roster, t.matches, k))
    {
      OldTablesStand(s, roster, env, k);
    }
    CacheExtended(s, t, roster);
  }

  lemma {:induction false} CacheExtended(s: Season, t: Season, roster: seq<Team>)
    requires CacheAgrees(s, roster) && t.league.currentWeek == s.league.currentWeek + 1
    requires t.snapshots ==
             s.snapshots[t.league.currentWeek := Stored(TableThrough(roster, t.matches, t.league.currentWeek))]
    requires forall k :: k in s.snapshots ==> s.snapshots[k] == Stored(TableThrough(roster, t.matches, k))
    ensures CacheAgrees(t, roster)
  {
    hide TableThrough, Stored;
  }

  lemma {:induction false} PlayedSameLeague(s: Season, roster: seq<Team>, env: Env)
    requires IdsIncreasing(s.matches)
    ensures SameLeague(s, WeekPlayed(s, roster, env))
  {
    WeekRecorded(s, roster, env, s.league.currentWeek + 1);
    SameFixtures(s.matches, WeekPlayed(s, roster, env).matches);
  }

  /** All that a league is supposed to satisfy between two operations. */
  ghost predicate InOrder(s: Season, roster: seq<Team>) {
    Coherent(s) && CacheAgrees(s, roster) && RosterOf(roster, s.members)
  }

  lemma {:induction false} WeekPlayedKeeps(s: Season, roster: seq<Team>, env: Env)
    requires InOrder(s, roster) && s.league.currentWeek < s.league.totalWeeks
    ensures InOrder(WeekPlayed(s, roster, env), roster) && SameLeague(s, WeekPlayed(s, roster, env))
    ensures WeekPlayed(s, roster, env).league.currentWeek == s.league.currentWeek + 1
  {
    hide TableThrough, Stored, ListByLeague, Record, WeekScores, Table;
    var t := WeekPlayed(s, roster, env);
    assert Coherent(t) by { PlayedCoherent(s, roster, env); }
    assert CacheAgrees(t, roster) by { PlayedCacheAgrees(s, roster, env); }
    assert SameLeague(s, t) by { PlayedSameLeague(s, roster, env); }
  }

  lemma {:induction false} PlayWeekKeeps(s: Season, roster: seq<Team>, env: Env)
    requires InOrder(s, roster)
    ensures s.league.status == Finished <==> s.league.currentWeek == s.league.totalWeeks
    ensures s.league.status == Finished ==> PlayWeek(s, roster, env) == Err(Conflict)
    ensures s.league.status != Finished ==>
              && PlayWeek(s, roster, env) == Ok(WeekPlayed(s, roster, env))
              && WeekPlayed(s, roster, env).league.currentWeek == s.league.currentWeek + 1
              && InOrder(WeekPlayed(s, roster, env), roster)
              && SameLeague(s, WeekPlayed(s, roster, env))
  {
    hide CacheAgrees, SimulateWeek, AdvanceAndSnapshot, Record, WeekScores;
    if s.league.status != Finished {
      PlayOneResolves(s, roster, env, s.league.currentWeek + 1);
      WeekPlayedKeeps(s, roster, env);
    }
  }

  // ----- PlayAll is PlayWeek repeated

  function PlayTimes(s: Season, roster: seq<Team>, env: Env, n: nat): Result<Season>
    decreases n
  {
    if n == 0 then Ok(s)
    else
      match PlayWeek(s, roster, env)
      case Err(e) => Err(e)
      case Ok(t) => PlayTimes(t, roster, env, n - 1)
  }

  lemma {:induction false} SameLeagueTransitive(s: Season, t: Season, u: Season)
    requires SameLeague(s, t) && SameLeague(t, u)
    ensures SameLeague(s, u)
  {
  }

  lemma {:induction false} PlayFromIsPlayTimes(s: Season, roster: seq<Team>, env: Env)
    requires InOrder(s, roster)
    ensures var n := s.league.totalWeeks - s.league.currentWeek;
            var r := PlayFrom(s, roster, env, s.league.currentWeek + 1);
            && r == PlayTimes(s, roster, env, n)
            && r.Ok? && InOrder(r.value, roster) && SameLeague(s, r.value)
            && r.value.league.currentWeek == s.league.totalWeeks
    decreases s.league.totalWeeks - s.league.currentWeek
  {
    hide PlayOne, WeekPlayed, CacheAgrees, RosterOf;
    if s.league.currentWeek < s.league.totalWeeks {
      PlayWeekKeeps(s, roster, env);
      var t := WeekPlayed(s, roster, env);
      PlayFromIsPlayTimes(t, roster, env);
      PlayFromUnfolds(s, roster, env);
      SameLeagueTransitive(s, t, PlayFrom(t, roster, env, t.league.currentWeek + 1).value);
    } else {
      assert PlayFrom(s, roster, env, s.league.currentWeek + 1) == Ok(s);
    }
  }

  lemma {:induction false} PlayFromUnfolds(s: Season, roster: seq<Team>, env: Env)
    requires Coherent(s) && RosterOf(roster, s.members) && s.league.currentWeek < s.league.totalWeeks
    ensures PlayFrom(s, roster, env, s.league.currentWeek + 1) ==
            PlayFrom(WeekPlayed(s, roster, env), roster, env, s.league.currentWeek + 2)
  {
    hide SimulateWeek, WeekScores, Record, Table, Stored, ListByLeague;
    PlayOneResolves(s, roster, env, s.league.currentWeek + 1);
  }

  /** PlayAll gives what repeating PlayWeek until FINISHED gives, and leaves the league FINISHED. */
  lemma {:induction false} PlayAllIsRepeatedPlayWeek(s: Season, roster: seq<Team>, env: Env)
    requires InOrder(s, roster)
    ensures s.league.currentWeek <= s.league.totalWeeks
    ensures s.league.status == Finished ==> PlayAll(s, roster, env) == Err(Conflict)
    ensures s.league.status != Finished ==>
              var r := PlayAll(s, roster, env);
              && r == PlayTimes(s, roster, env, s.league.totalWeeks - s.league.currentWeek)
              && r.Ok? && r.value.league.status == Finished
              && InOrder(r.value, roster) && SameLeague(s, r.value)
  {
    hide PlayFrom, PlayTimes, CacheAgrees, RosterOf;
    if s.league.status != Finished {
      PlayFromIsPlayTimes(s, roster, env);
      var t := PlayFrom(s, roster, env, s.league.currentWeek + 1).value;
    }
  }

  // ----- Reset undoes everything

  lemma {:induction false} ResetKeeps(s: Season, roster: seq<Team>)
    requires Coherent(s)
    ensures Coherent(Reset(s)) && CacheAgrees(Reset(s), roster) && SameLeague(s, Reset(s))
  {
    var t := Reset(s);
    forall m | m in t.matches ensures WellPlaced(t, m) {
      var i :| 0 <= i < |t.matches| && t.matches[i] == m;
      assert s.matches[i] in s.matches;
    }
    SameFixtures(s.matches, t.matches);
  }

  /** As created: no week played, no snapshot, every match scheduled. */
  ghost predicate IsFresh(s: Season) {
    && s.league.currentWeek == 0 && s.league.status == NotStarted && s.snapshots == map[]
    && forall m :: m in s.matches ==> m.outcome == Scheduled
  }

  /** Whatever was played and edited, Reset gives back the league as it was created. */
  lemma {:induction false} ResetRestores(origin: Season, s: Season)
    requires IsFresh(origin) && SameLeague(origin, s)
    ensures Reset(s) == origin
  {
    SameFixtures(origin.matches, s.matches);
    forall i | 0 <= i < |s.matches| ensures Cleared(s.matches)[i] == origin.matches[i] {
      assert origin.matches[i] in origin.matches;
    }
    assert Cleared(s.matches) == origin.matches;
  }

  /** So replaying K weeks after a Reset gives the league a fresh one would be after K weeks. */
  lemma {:induction false} ReplayAfterReset(origin: Season, s: Season, roster: seq<Team>, env: Env, k: nat)
    requires IsFresh(origin) && SameLeague(origin, s)
    ensures PlayTimes(Reset(s), roster, env, k) == PlayTimes(origin, roster, env, k)
  {
    ResetRestores(origin, s);
  }

  // ----- rebuilding

  lemma {:induction false} RebuiltAt(snapshots: map<nat, seq<SnapshotRow>>, roster: seq<Team>, all: seq<Match>,
                                     week: nat, last: nat, k: nat)
    ensures var r := Rebuilt(snapshots, roster, all, week, last);
            && (k in r <==> k in snapshots || week <= k <= last)
            && (k in r ==> r[k] == if week <= k <= last then Stored(TableThrough(roster, all, k)) else snapshots[k])
    decreases last + 1 - week
  {
    hide TableThrough, Stored;
    if week <= last {
      RebuiltAt(snapshots[week := Stored(TableThrough(roster, all, week))], roster, all, week + 1, last, k);
    }
  }

  /** A league whose cache is right below a week is right everywhere after rebuilding from that week. */
  lemma {:induction false} RebuildAgrees(s: Season, roster: seq<Team>, week: nat)
    requires UniqueTeams(roster) && 1 <= week <= s.league.currentWeek + 1
    requires forall k :: k in s.snapshots <==> 1 <= k <= s.league.currentWeek
    requires forall k :: k in s.snapshots && k < week ==> s.snapshots[k] == Stored(TableThrough(roster, s.matches, k))
    ensures CacheAgrees(RebuildSnapshots(s, roster, week), roster)
    ensures forall k :: k in s.snapshots && k < week ==>
              RebuildSnapshots(s, roster, week).snapshots[k] == s.snapshots[k]
  {
    var t := RebuildSnapshots(s, roster, week);
    forall k: nat
      ensures k in t.snapshots <==> 1 <= k <= s.league.currentWeek
      ensures k in t.snapshots ==> t.snapshots[k] == Stored(TableThrough(roster, s.matches, k))
      ensures k in s.snapshots && k < week ==> t.snapshots[k] == s.snapshots[k]
    {
      RebuiltAt(s.snapshots, roster, ListByLeague(s.matches), week, s.league.currentWeek, k);
      OrderDoesNotShow(roster, s.matches, k);
    }
  }

  lemma {:induction false} CacheUnique(s: Season, t: Season, roster: seq<Team>)
    requires CacheAgrees(s, roster) && CacheAgrees(t, roster)
    requires s.matches == t.matches && s.league.currentWeek == t.league.currentWeek
    ensures s.snapshots == t.snapshots
  {
  }

  /** Recalculate leaves every row of a league with a right cache unchanged. */
  lemma {:induction false} RecalculateChangesNothing(s: Season, roster: seq<Team>)
    requires CacheAgrees(s, roster) && UniqueTeams(roster)
    ensures Recalculate(s, roster) == s
  {
    RebuildAgrees(s, roster, 1);
    CacheUnique(s, Recalculate(s, roster), roster);
  }

  // ----- editing a result

  lemma {:induction false} RecordOne(s: Season, seen: Match, outcome: Outcome)
    requires IdsIncreasing(s.matches) && seen in s.matches
    ensures var ms := Record(s.matches, map[seen.id := outcome]);
            forall i :: 0 <= i < |ms| ==>
              ms[i] == if s.matches[i] == seen then seen.(outcome := outcome) else s.matches[i]
  {
    var k :| 0 <= k < |s.matches| && s.matches[k] == seen;
  }

  /** The season with the new score in and the snapshots not yet rebuilt. */
  function Edited(s: Season, seen: Match, homeGoals: nat, awayGoals: nat): Season {
    s.(matches := Record(s.matches, map[seen.id := Played(homeGoals, awayGoals)]))
  }

  lemma {:induction false} EditedCoherent(s: Season, seen: Match, homeGoals: nat, awayGoals: nat)
    requires Coherent(s) && seen in s.matches && seen.outcome.Played?
    ensures Coherent(Edited(s, seen, homeGoals, awayGoals))
    ensures SameLeague(s, Edited(s, seen, homeGoals, awayGoals))
  {
    var t := Edited(s, seen, homeGoals, awayGoals);
    RecordOne(s, seen, Played(homeGoals, awayGoals));
    forall m | m in t.matches ensures WellPlaced(t, m) {
      var i :| 0 <= i < |t.matches| && t.matches[i] == m;
      assert s.matches[i] in s.matches;
    }
    SameFixtures(s.matches, t.matches);
  }

  /** Below the edited week the cache is still right before anything is rebuilt. */
  lemma {:induction false} EarlierSnapshotsStand(s: Season, roster: seq<Team>, seen: Match, homeGoals: nat,
                                                 awayGoals: nat)
    requires Coherent(s) && CacheAgrees(s, roster) && seen in s.matches
    ensures forall k :: k in s.snapshots && k < seen.week ==>
              s.snapshots[k] == Stored(TableThrough(roster, Edited(s, seen, homeGoals, awayGoals).matches, k))
  {
    var t := Edited(s, seen, homeGoals, awayGoals);
    RecordOne(s, seen, Played(homeGoals, awayGoals));
    forall k | k in s.snapshots && k < seen.week ensures s.snapshots[k] == Stored(TableThrough(roster, t.matches, k)) {
      LaterWeeksDoNotShow(roster, s.matches, t.matches, k);
    }
  }

  /** An edit keeps the cache right, and its partial rebuild does what a full one would. */
  lemma {:induction false} EditKeeps(s: Season, roster: seq<Team>, seen: Match, homeGoals: nat, awayGoals: nat)
    requires Coherent(s) && CacheAgrees(s, roster) && UniqueTeams(roster) && seen in s.matches
    ensures EditMatch(s, roster, seen, homeGoals, awayGoals).Ok? <==> seen.outcome.Played?
    ensures seen.outcome.Played? ==>
              var t := EditMatch(s, roster, seen, homeGoals, awayGoals).value;
              && Coherent(t) && CacheAgrees(t, roster) && SameLeague(s, t)
              && t == Recalculate(Edited(s, seen, homeGoals, awayGoals), roster)
              && forall k :: k in s.snapshots && k < seen.week ==> t.snapshots[k] == s.snapshots[k]
  {
    hide TableThrough, Stored, Record, ListByLeague;
    if seen.outcome.Played? {
      var t := Edited(s, seen, homeGoals, awayGoals);
      assert WellPlaced(s, seen);
      EditedCoherent(s, seen, homeGoals, awayGoals);
      EarlierSnapshotsStand(s, roster, seen, homeGoals, awayGoals);
      RebuildAgrees(t, roster, seen.week);
      RebuildAgrees(t, roster, 1);
    }
  }
}
