/** The main theorems: every serial run of the services, whatever it does and whatever fails. */
module Reachability {
  import opened Seqs
  import opened Domain
  import Fixture
  import opened Standings
  import opened SeasonOps
  import opened SeasonLaws
  import opened SeasonTables
  import opened System
  import opened SystemLaws

  /** A catalog of teams and nothing else. */
  ghost predicate Initial(sys: Sys) {
    ValidTeams(sys.teams) && sys.seasons == map[] && sys.audits == []
  }

  /** What a league-changing operation does to its league. */
  lemma {:induction false} LeagueStep(sys: Sys, l: nat, r: Result<Season>)
    requires Valid(sys) && l in sys.seasons && Faithful(sys.seasons[l], RosterIn(sys, l), r)
    ensures OnLeague(sys, l, r).Ok? ==> Valid(OnLeague(sys, l, r).value)
    ensures OnLeague(sys, l, r).Ok? ==> KeepsLeagues(sys, OnLeague(sys, l, r).value)
  {
    hide InOrder, Roster, ValidTeams, ValidSeason, SameLeague;
    if r.Ok? {
      OnLeagueKeeps(sys, l, r.value);
      forall k | k in sys.seasons ensures SameLeague(sys.seasons[k], OnLeague(sys, l, r).value.seasons[k]) {
        SameAsItself(sys.seasons[k]);
      }
    }
  }

  /** Leagues never disappear, and each stays the same competition. */
  ghost predicate KeepsLeagues(sys: Sys, next: Sys) {
    forall l :: l in sys.seasons ==> l in next.seasons && SameLeague(sys.seasons[l], next.seasons[l])
  }

  lemma {:induction false} SameAsItself(s: Season)
    ensures SameLeague(s, s)
  {
  }

  lemma {:induction false} LeaguesKeptTransitive(a: Sys, b: Sys, c: Sys)
    requires KeepsLeagues(a, b) && KeepsLeagues(b, c)
    ensures KeepsLeagues(a, c)
  {
    hide SameLeague;
    forall l | l in a.seasons ensures l in c.seasons && SameLeague(a.seasons[l], c.seasons[l]) {
      SameLeagueTransitive(a.seasons[l], b.seasons[l], c.seasons[l]);
    }
  }

  lemma {:induction false} LeaguesUntouched(sys: Sys, next: Sys)
    requires forall l :: l in sys.seasons ==> l in next.seasons && next.seasons[l] == sys.seasons[l]
    ensures KeepsLeagues(sys, next)
  {
    forall l | l in sys.seasons ensures SameLeague(sys.seasons[l], next.seasons[l]) {
      SameAsItself(sys.seasons[l]);
    }
  }

  lemma {:induction false} ValidWithoutAudits(sys: Sys, audits: seq<Audit>)
    requires Valid(sys)
    ensures Valid(sys.(audits := audits))
  {
    hide InOrder, Roster, ValidTeams, HasSchedule, TeamIds;
    var next := sys.(audits := audits);
    forall l | l in next.seasons ensures ValidSeason(next, l) {
      assert ValidSeason(sys, l);
    }
  }

  lemma {:induction false} EditStep(sys: Sys, id: nat, homeGoals: int, awayGoals: int, reason: string)
    requires Valid(sys) && EditIn(sys, id, homeGoals, awayGoals, reason).Ok?
    ensures Valid(EditIn(sys, id, homeGoals, awayGoals, reason).value)
    ensures KeepsLeagues(sys, EditIn(sys, id, homeGoals, awayGoals, reason).value)
  {
    hide InOrder, Roster, ValidTeams, SameLeague, HasSchedule, EditMatch;
    var l :| && Owns(sys, l, id)
             && EditIn(sys, id, homeGoals, awayGoals, reason) == EditOf(sys, l, id, homeGoals, awayGoals, reason);
    var seen := MatchOf(sys.seasons[l], id);
    assert ValidSeason(sys, l);
    EditFaithful(sys.seasons[l], RosterIn(sys, l), seen, homeGoals, awayGoals);
    var r := EditMatch(sys.seasons[l], RosterIn(sys, l), seen, homeGoals, awayGoals);
    LeagueStep(sys, l, r);
    ValidWithoutAudits(OnLeague(sys, l, r).value, sys.audits + [AuditOf(seen, homeGoals, awayGoals, reason)]);
  }

  /** Every operation, successful or not, keeps the invariant and every league's identity. */
  lemma {:induction false} StepKeeps(sys: Sys, op: Op, env: Env)
    requires Valid(sys)
    ensures Valid(Next(sys, op, env)) && KeepsLeagues(sys, Next(sys, op, env))
  {
    hide InOrder, Roster, ValidTeams, SameLeague, HasSchedule, SeasonOps.PlayWeek, SeasonOps.PlayAll, EditIn, CreateIn,
         KeepsLeagues, SeasonOps.Recalculate, SeasonOps.Reset;
    LeaguesUntouched(sys, sys);
    match op
    case CreateLeague(name, ids, seed) =>
      if Apply(sys, op, env).Ok? {
        CreateKeeps(sys, name, ids, seed, env);
        CreateLeavesLeagues(sys, name, ids, seed, env);
      }
    case PlayWeek(l) =>
      if l in sys.seasons {
        assert ValidSeason(sys, l);
        PlayFaithful(sys.seasons[l], RosterIn(sys, l), env);
        LeagueStep(sys, l, SeasonOps.PlayWeek(sys.seasons[l], RosterIn(sys, l), env));
      }
    case PlayAll(l) =>
      if l in sys.seasons {
        assert ValidSeason(sys, l);
        PlayFaithful(sys.seasons[l], RosterIn(sys, l), env);
        LeagueStep(sys, l, SeasonOps.PlayAll(sys.seasons[l], RosterIn(sys, l), env));
      }
    case Reset(l) =>
      if l in sys.seasons {
        assert ValidSeason(sys, l);
        RewriteFaithful(sys.seasons[l], RosterIn(sys, l));
        LeagueStep(sys, l, Ok(SeasonOps.Reset(sys.seasons[l])));
      }
    case Recalculate(l) =>
      if l in sys.seasons {
        assert ValidSeason(sys, l);
        RewriteFaithful(sys.seasons[l], RosterIn(sys, l));
        LeagueStep(sys, l, Ok(SeasonOps.Recalculate(sys.seasons[l], RosterIn(sys, l))));
      }
    case UpdateResult(id, hg, ag, reason) =>
      if Apply(sys, op, env).Ok? { EditStep(sys, id, hg, ag, reason); }
    case UpdateRating(id, a, m, d) =>
      if Apply(sys, op, env).Ok? {
        RatingKeeps(sys, id, a, m, d);
        LeaguesUntouched(sys, Next(sys, op, env));
      }
  }

  lemma {:induction false} CreateLeavesLeagues(sys: Sys, name: string, ids: seq<nat>, seed: int, env: Env)
    requires Valid(sys) && CreateIn(sys, name, ids, seed, env).Ok?
    ensures KeepsLeagues(sys, CreateIn(sys, name, ids, seed, env).value)
  {
    hide InOrder, Roster, ValidTeams, HasSchedule, SameLeague, TeamIds, NewSeason;
    var next := CreateIn(sys, name, ids, seed, env).value;
    forall l | l in sys.seasons ensures l in next.seasons && next.seasons[l] == sys.seasons[l] {
      assert ValidSeason(sys, l);
    }
    LeaguesUntouched(sys, next);
  }

  /** The invariant holds in every reachable state. */
  lemma {:induction false} RunKeeps(sys: Sys, ops: seq<Op>, env: Env)
    requires Valid(sys)
    ensures Valid(Run(sys, ops, env)) && KeepsLeagues(sys, Run(sys, ops, env))
  {
    hide Valid, Next, KeepsLeagues;
    if ops == [] {
      LeaguesUntouched(sys, sys);
    } else {
      RunKeeps(sys, ops[..|ops| - 1], env);
      StepKeeps(Run(sys, ops[..|ops| - 1], env), ops[|ops| - 1], env);
      LeaguesKeptTransitive(sys, Run(sys, ops[..|ops| - 1], env), Run(sys, ops, env));
    }
  }

  lemma {:induction false} InitialIsValid(sys: Sys)
    requires Initial(sys)
    ensures Valid(sys)
  {
  }

  // ----- the theorems

  /** Cache agrees with source: snapshots for exactly the weeks played, each the table through its week. */
  lemma {:induction false} CacheAlwaysAgrees(start: Sys, ops: seq<Op>, env: Env, l: nat)
    requires Initial(start) && l in Run(start, ops, env).seasons
    ensures var sys := Run(start, ops, env); var s := sys.seasons[l];
            && (forall k :: k in s.snapshots <==> 1 <= k <= s.league.currentWeek)
            && (forall k :: k in s.snapshots ==> s.snapshots[k] == Stored(TableThrough(RosterIn(sys, l), s.matches, k)))
            && (forall m :: m in s.matches ==> (m.outcome.Played? <==> m.week <= s.league.currentWeek))
            && s.league.currentWeek <= s.league.totalWeeks
            && (s.league.status == Finished <==> s.league.currentWeek == s.league.totalWeeks)
  {
    hide Run, TableThrough, Stored, Roster;
    InitialIsValid(start);
    RunKeeps(start, ops, env);
    var s := Run(start, ops, env).seasons[l];
    assert ValidSeason(Run(start, ops, env), l);
    forall m | m in s.matches ensures m.outcome.Played? <==> m.week <= s.league.currentWeek {
      assert WellPlaced(s, m);
    }
  }

  /** In every reachable state every row of snapshot K has Played = K. */
  lemma {:induction false} PlayedIsAlwaysTheWeek(start: Sys, ops: seq<Op>, env: Env, l: nat, week: nat, i: nat)
    requires Initial(start) && l in Run(start, ops, env).seasons
    requires week in Run(start, ops, env).seasons[l].snapshots && i < |Run(start, ops, env).seasons[l].snapshots[week]|
    ensures Run(start, ops, env).seasons[l].snapshots[week][i].stats.played == week
  {
    hide Run, InOrder, HasSchedule, Roster;
    InitialIsValid(start);
    RunKeeps(start, ops, env);
    assert ValidSeason(Run(start, ops, env), l);
    SnapshotRowsPlayed(Run(start, ops, env).seasons[l], RosterIn(Run(start, ops, env), l), week, i);
  }

  /** Every FINISHED league of n members is a complete double round-robin: 2(n - 1) matches each, n - 1 at home and
      n - 1 away, and as many weeks. */
  lemma {:induction false} FinishedIsComplete(start: Sys, ops: seq<Op>, env: Env, l: nat, team: nat)
    requires Initial(start) && l in Run(start, ops, env).seasons
    requires var s := Run(start, ops, env).seasons[l]; s.league.status == Finished && team in s.members
    ensures var s := Run(start, ops, env).seasons[l]; var n := |s.members|;
            && n >= 4 && s.league.totalWeeks == 2 * (n - 1)
            && Tally(team, s.matches).played == 2 * (n - 1)
            && Count(s.matches, Fixture.AtHome(team)) == n - 1
            && Count(s.matches, Fixture.Visiting(team)) == n - 1
            && forall m :: m in s.matches ==> m.outcome.Played?
  {
    hide Run, Roster, CacheAgrees, Tally, Coherent, RosterOf, HasSchedule;
    InitialIsValid(start);
    RunKeeps(start, ops, env);
    var s := Run(start, ops, env).seasons[l];
    assert ValidSeason(Run(start, ops, env), l);
    SeasonLength(s);
    FinishedSeason(s, team);
  }

  /** Reset at any later time gives the league back as it was created; only the audit log remembers. */
  lemma {:induction false} ResetAnyTime(start: Sys, before: seq<Op>, name: string, ids: seq<nat>, seed: int,
                                        after: seq<Op>, env: Env)
    requires Initial(start) && CreateIn(Run(start, before, env), name, ids, seed, env).Ok?
    ensures var created := CreateIn(Run(start, before, env), name, ids, seed, env).value;
            var l := Run(start, before, env).nextLeague;
            var later := Run(created, after, env);
            && l in created.seasons && l in later.seasons
            && Next(later, Reset(l), env) == later.(seasons := later.seasons[l := created.seasons[l]])
  {
    hide Run, Valid, NewSeason, ResolveTeamIDs, SameLeague, IsFresh, SeasonOps.Reset;
    var sys := Run(start, before, env);
    var created, l := CreateIn(sys, name, ids, seed, env).value, sys.nextLeague;
    InitialIsValid(start);
    RunKeeps(start, before, env);
    CreateKeeps(sys, name, ids, seed, env);
    RunKeeps(created, after, env);
    CreatedFresh(sys, name, ids, seed, env);
    ResetRestores(created.seasons[l], Run(created, after, env).seasons[l]);
  }

  lemma {:induction false} CreatedFresh(sys: Sys, name: string, ids: seq<nat>, seed: int, env: Env)
    requires CreateIn(sys, name, ids, seed, env).Ok?
    ensures sys.nextLeague in CreateIn(sys, name, ids, seed, env).value.seasons
    ensures IsFresh(CreateIn(sys, name, ids, seed, env).value.seasons[sys.nextLeague])
  {
    hide IsFresh, NewSeason;
    var resolved := ResolveTeamIDs(sys.teams, ids).value;
    NewSeasonCoherent(name, resolved, seed, env, sys.nextLeague, sys.nextMatch);
  }

  // ----- PlayAll and repeated PlayWeek, on the whole system

  function Repeated(op: Op, n: nat): (ops: seq<Op>)
    ensures |ops| == n
  {
    seq(n, _ => op)
  }

  lemma {:induction false} RunFront(sys: Sys, op: Op, ops: seq<Op>, env: Env)
    ensures Run(sys, [op] + ops, env) == Run(Next(sys, op, env), ops, env)
  {
    hide Next;
    if ops == [] {
      assert ([op] + ops)[..0] == [];
    } else {
      RunFront(sys, op, ops[..|ops| - 1], env);
      assert ([op] + ops)[..|ops|] == [op] + ops[..|ops| - 1];
    }
  }

  /** One PlayWeek in a valid state with weeks left. */
  lemma {:induction false} NextWeek(sys: Sys, l: nat, env: Env)
    requires Valid(sys) && l in sys.seasons
    requires sys.seasons[l].league.currentWeek < sys.seasons[l].league.totalWeeks
    ensures var s, roster := sys.seasons[l], RosterIn(sys, l);
            && SeasonOps.PlayWeek(s, roster, env) == Ok(WeekPlayed(s, roster, env))
            && Next(sys, PlayWeek(l), env) == sys.(seasons := sys.seasons[l := WeekPlayed(s, roster, env)])
            && Valid(Next(sys, PlayWeek(l), env))
            && RosterIn(Next(sys, PlayWeek(l), env), l) == roster
            && WeekPlayed(s, roster, env).league.currentWeek == s.league.currentWeek + 1
            && WeekPlayed(s, roster, env).league.totalWeeks == s.league.totalWeeks
  {
    hide Roster, HasSchedule, CacheAgrees, WeekPlayed, SeasonOps.PlayWeek;
    StepKeeps(sys, PlayWeek(l), env);
    assert ValidSeason(sys, l);
    PlayWeekKeeps(sys.seasons[l], RosterIn(sys, l), env);
  }

  /** Repeating PlayWeek plays that many weeks of the one league and touches nothing else. */
  lemma {:induction false} RunOfWeeks(sys: Sys, l: nat, n: nat, env: Env)
    requires Valid(sys) && l in sys.seasons
    requires sys.seasons[l].league.currentWeek + n <= sys.seasons[l].league.totalWeeks
    ensures var r := PlayTimes(sys.seasons[l], RosterIn(sys, l), env, n);
            r.Ok? && Run(sys, Repeated(PlayWeek(l), n), env) == sys.(seasons := sys.seasons[l := r.value])
    decreases n
  {
    hide Valid, RosterIn, WeekPlayed, SeasonOps.PlayWeek, Next;
    if n == 0 {
      assert sys.seasons == sys.seasons[l := sys.seasons[l]];
    } else {
      NextWeek(sys, l, env);
      var next := Next(sys, PlayWeek(l), env);
      RunOfWeeks(next, l, n - 1, env);
      assert Repeated(PlayWeek(l), n) == [PlayWeek(l)] + Repeated(PlayWeek(l), n - 1);
      RunFront(sys, PlayWeek(l), Repeated(PlayWeek(l), n - 1), env);
    }
  }

  /** PlayAll on an unfinished league leaves the whole system as repeating PlayWeek until FINISHED does. */
  lemma {:induction false} PlayAllIsPlayWeeks(sys: Sys, l: nat, env: Env)
    requires Valid(sys) && l in sys.seasons && sys.seasons[l].league.status != Finished
    ensures sys.seasons[l].league.currentWeek < sys.seasons[l].league.totalWeeks
    ensures var weeks := sys.seasons[l].league.totalWeeks - sys.seasons[l].league.currentWeek;
            var end := Next(sys, PlayAll(l), env);
            && end == Run(sys, Repeated(PlayWeek(l), weeks), env)
            && l in end.seasons && end.seasons[l].league.status == Finished
  {
    hide RosterIn, HasSchedule, SeasonOps.PlayAll, PlayTimes, InOrder;
    assert ValidSeason(sys, l);
    RosterKnown(sys, l);
    PlayAllIsRepeatedPlayWeek(sys.seasons[l], RosterIn(sys, l), env);
    PlayWeekKeeps(sys.seasons[l], RosterIn(sys, l), env);
    RunOfWeeks(sys, l, sys.seasons[l].league.totalWeeks - sys.seasons[l].league.currentWeek, env);
  }

  lemma {:induction false} RosterKnown(sys: Sys, l: nat)
    requires Valid(sys) && l in sys.seasons
    ensures InOrder(sys.seasons[l], RosterIn(sys, l))
  {
    hide InOrder, Roster, HasSchedule;
    assert ValidSeason(sys, l);
  }

  /** With the ratings as they were, Reset and a replay of k weeks end where a fresh league ends after k weeks. */
  lemma {:induction false} ReplayAnyTime(start: Sys, before: seq<Op>, name: string, ids: seq<nat>, seed: int,
                                         after: seq<Op>, env: Env, k: nat)
    requires Initial(start) && CreateIn(Run(start, before, env), name, ids, seed, env).Ok?
    requires Run(CreateIn(Run(start, before, env), name, ids, seed, env).value, after, env).teams ==
             CreateIn(Run(start, before, env), name, ids, seed, env).value.teams
    ensures var created := CreateIn(Run(start, before, env), name, ids, seed, env).value;
            var l := Run(start, before, env).nextLeague;
            && l in created.seasons
            && (k <= created.seasons[l].league.totalWeeks ==>
                  var replayed := Run(Next(Run(created, after, env), Reset(l), env), Repeated(PlayWeek(l), k), env);
                  var direct := Run(created, Repeated(PlayWeek(l), k), env);
                  && l in replayed.seasons && l in direct.seasons
                  && replayed.seasons[l] == direct.seasons[l] && replayed.audits == Run(created, after, env).audits)
  {
    hide Run, Valid, Next, CreateIn, RosterIn, PlayTimes;
    var sys := Run(start, before, env);
    var created, l := CreateIn(sys, name, ids, seed, env).value, sys.nextLeague;
    var later := Run(created, after, env);
    ResetAnyTime(start, before, name, ids, seed, after, env);
    CreatedIsValid(start, before, name, ids, seed, env);
    RunKeeps(created, after, env);
    StepKeeps(later, Reset(l), env);
    FreshWeek(sys, name, ids, seed, env);
    if k <= created.seasons[l].league.totalWeeks {
      RunOfWeeks(created, l, k, env);
      RunOfWeeks(Next(later, Reset(l), env), l, k, env);
      SameRosters(created, Next(later, Reset(l), env), l);
    }
  }

  lemma {:induction false} SameRosters(a: Sys, b: Sys, l: nat)
    requires a.teams == b.teams && l in a.seasons && l in b.seasons && a.seasons[l].members == b.seasons[l].members
    ensures RosterIn(a, l) == RosterIn(b, l)
  {
  }

  lemma {:induction false} CreatedIsValid(start: Sys, before: seq<Op>, name: string, ids: seq<nat>, seed: int, env: Env)
    requires Initial(start) && CreateIn(Run(start, before, env), name, ids, seed, env).Ok?
    ensures Valid(CreateIn(Run(start, before, env), name, ids, seed, env).value)
  {
    hide Run, Valid, CreateIn;
    InitialIsValid(start);
    RunKeeps(start, before, env);
    CreateKeeps(Run(start, before, env), name, ids, seed, env);
  }

  lemma {:induction false} FreshWeek(sys: Sys, name: string, ids: seq<nat>, seed: int, env: Env)
    requires CreateIn(sys, name, ids, seed, env).Ok?
    ensures sys.nextLeague in CreateIn(sys, name, ids, seed, env).value.seasons
    ensures CreateIn(sys, name, ids, seed, env).value.seasons[sys.nextLeague].league.currentWeek == 0
  {
    hide CreateIn;
    CreatedFresh(sys, name, ids, seed, env);
  }

  /** The league an operation is about, if it is about one. */
  ghost predicate Concerns(sys: Sys, op: Op, l: nat) {
    match op
    case CreateLeague(_, _, _) => l == sys.nextLeague
    case PlayWeek(k) => k == l
    case PlayAll(k) => k == l
    case Reset(k) => k == l
    case Recalculate(k) => k == l
    case UpdateResult(id, _, _, _) => Owns(sys, l, id)
    case UpdateRating(_, _, _, _) => false
  }

  /** An operation on one league changes no other league's data; a failing one changes nothing at all. */
  lemma {:induction false} Isolation(sys: Sys, op: Op, env: Env, l: nat)
    requires Valid(sys) && l in sys.seasons && !Concerns(sys, op, l)
    ensures l in Next(sys, op, env).seasons && Next(sys, op, env).seasons[l] == sys.seasons[l]
    ensures Apply(sys, op, env).Err? ==> Next(sys, op, env) == sys
    ensures !op.UpdateRating? ==> Next(sys, op, env).teams == sys.teams
    ensures !op.UpdateResult? ==> Next(sys, op, env).audits == sys.audits
  {
    hide Valid, SeasonOps.PlayWeek, SeasonOps.PlayAll, SeasonOps.Reset, SeasonOps.Recalculate, NewSeason,
         EditMatch, RosterIn;
  }
}
