/** What the operations do, said without the functions that compute it. */
module StepLaws {
  import opened Seqs
  import opened Domain
  import Fixture
  import opened Standings
  import opened Trials
  import opened SeasonOps
  import opened SeasonLaws
  import opened SeasonTables
  import opened System
  import opened SystemLaws
  import opened Reachability

  // ----- creating a league

  /** The teams to play with: the ones named or, when none is, the catalog in its order. */
  ghost predicate Resolved(teams: seq<Team>, explicit: seq<nat>, ids: seq<nat>) {
    if explicit != [] then ids == explicit
    else |ids| == |teams| && forall i :: 0 <= i < |ids| ==> ids[i] == teams[i].id
  }

  /** Every id named is the id of some team. */
  ghost predicate AllKnown(teams: seq<Team>, explicit: seq<nat>) {
    forall id :: id in explicit ==> exists t :: t in teams && t.id == id
  }

  lemma {:induction false} IdsOfTeams(teams: seq<Team>, id: nat)
    ensures id in TeamIds(teams) <==> exists t :: t in teams && t.id == id
  {
    if id in TeamIds(teams) {
      var i :| 0 <= i < |teams| && TeamIds(teams)[i] == id;
      assert teams[i] in teams;
    }
    if t :| t in teams && t.id == id {
      var i :| 0 <= i < |teams| && teams[i] == t;
      assert TeamIds(teams)[i] == id;
    }
  }

  lemma {:induction false} ResolvingMeans(teams: seq<Team>, explicit: seq<nat>)
    ensures AllKnown(teams, explicit) ==>
              ResolveTeamIDs(teams, explicit).Ok? && Resolved(teams, explicit, ResolveTeamIDs(teams, explicit).value)
    ensures !AllKnown(teams, explicit) ==> ResolveTeamIDs(teams, explicit) == Err(InvalidInput)
  {
    forall id ensures id in TeamIds(teams) <==> exists t :: t in teams && t.id == id { IdsOfTeams(teams, id); }
    hide TeamIds;
    if exists i :: 0 <= i < |explicit| && explicit[i] !in TeamIds(teams) {
      var i :| 0 <= i < |explicit| && explicit[i] !in TeamIds(teams);
      assert explicit[i] in explicit;
    }
  }

  /** How many teams a league would have. */
  function SizeOf(teams: seq<Team>, explicit: seq<nat>): nat {
    if explicit == [] then |teams| else |explicit|
  }

  /** A name, known teams, four of them or a larger even number. */
  ghost predicate Admissible(teams: seq<Team>, name: string, explicit: seq<nat>) {
    name != "" && AllKnown(teams, explicit) && SizeOf(teams, explicit) >= 4 && SizeOf(teams, explicit) % 2 == 0
  }

  ghost predicate Repeats(ids: seq<nat>) {
    exists i, j :: 0 <= i < j < |ids| && ids[i] == ids[j]
  }

  lemma {:induction false} RepeatsIff(ids: seq<nat>)
    ensures Repeats(ids) <==> !NoDuplicates(ids)
  {
    if NoDuplicates(ids) {
      forall i, j | 0 <= i < j < |ids| ensures ids[i] != ids[j] { Distinct(ids, i, j); }
    } else if !Repeats(ids) {
      DifferentEach(ids);
    }
  }

  /** The outcome of every request to create a league. */
  lemma {:induction false} CreateEnds(sys: Sys, name: string, explicit: seq<nat>, seed: int, env: Env)
    requires ValidTeams(sys.teams)
    ensures var r := CreateIn(sys, name, explicit, seed, env);
            && (!Admissible(sys.teams, name, explicit) ==> r == Err(InvalidInput))
            && (Admissible(sys.teams, name, explicit) && Repeats(explicit) ==> r == Err(Internal))
            && (Admissible(sys.teams, name, explicit) && !Repeats(explicit) ==> r.Ok?)
  {
    hide TeamIds, NewSeason, NoDuplicates, Repeats;
    ResolvingMeans(sys.teams, explicit);
    RepeatsIff(explicit);
    if explicit == [] {
      NothingRepeats();
      CatalogDistinct(sys.teams, TeamIds(sys.teams));
    }
  }

  lemma {:induction false} NothingRepeats()
    ensures !Repeats([])
  {
  }

  lemma {:induction false} CatalogDistinct(teams: seq<Team>, ids: seq<nat>)
    requires ValidTeams(teams) && |ids| == |teams| && forall i :: 0 <= i < |ids| ==> ids[i] == teams[i].id
    ensures NoDuplicates(ids)
  {
    forall i, j | 0 <= i < j < |ids| ensures ids[i] != ids[j] { assert teams[i].id < teams[j].id; }
    DifferentEach(ids);
  }

  /** A league as it is created: the name and the seed given, two weeks for each opponent and none of them played, the
      teams as members, and as its fixtures the schedule of the teams shuffled by the draws of the seed. */
  ghost predicate CreatedAs(s: Season, name: string, ids: seq<nat>, seed: int, env: Env, l: nat, firstId: nat) {
    && ids != [] && s.league == League(name, 0, 2 * (|ids| - 1), NotStarted, seed)
    && |s.members| == |ids| && (forall id :: id in s.members <==> id in ids)
    && s.snapshots == map[]
    && (exists draw: nat -> nat :: (forall i: nat :: draw(i) == env.shuffle(seed, i)) &&
                                   Skeleton(s.matches) == Fixture.Schedule(Fixture.Shuffled(ids, draw)))
    && forall i :: 0 <= i < |s.matches| ==>
         s.matches[i].outcome == Scheduled && s.matches[i].leagueId == l && s.matches[i].id == firstId + i
  }

  lemma {:induction false} CreatedRow(sys: Sys, name: string, explicit: seq<nat>, seed: int, env: Env)
    returns (ids: seq<nat>)
    requires CreateIn(sys, name, explicit, seed, env).Ok?
    ensures Resolved(sys.teams, explicit, ids) && |ids| >= 4 && |ids| % 2 == 0 && NoDuplicates(ids)
    ensures var next := CreateIn(sys, name, explicit, seed, env).value; var l := sys.nextLeague;
            && l in next.seasons && CreatedAs(next.seasons[l], name, ids, seed, env, l, sys.nextMatch)
            && next == sys.(seasons := sys.seasons[l := next.seasons[l]], nextLeague := l + 1,
                            nextMatch := sys.nextMatch + |next.seasons[l].matches|)
  {
    hide TeamIds, NoDuplicates, NewSeason, CreatedAs;
    ResolvingMeans(sys.teams, explicit);
    ids := ResolveTeamIDs(sys.teams, explicit).value;
    NewSeasonAs(name, ids, seed, env, sys.nextLeague, sys.nextMatch);
  }

  lemma {:induction false} NewSeasonAs(name: string, ids: seq<nat>, seed: int, env: Env, l: nat, firstId: nat)
    requires |ids| >= 4 && |ids| % 2 == 0 && NoDuplicates(ids)
    ensures CreatedAs(NewSeason(name, ids, seed, env, l, firstId), name, ids, seed, env, l, firstId)
  {
    hide Fixture.Schedule, Fixture.Shuffled, NoDuplicates, Skeleton;
    var draw := ShuffleDraws(env, seed);
    var wheel := Fixture.Shuffled(ids, draw);
    var s := NewSeason(name, ids, seed, env, l, firstId);
    WheelOf(ids, env, seed);
    ScheduleBare(wheel);
    SkeletonOfInserted(Fixture.Schedule(wheel), l, firstId);
    WheelSize(ids, s.members);
    forall i | 0 <= i < |s.matches|
      ensures s.matches[i].outcome == Scheduled && s.matches[i].leagueId == l && s.matches[i].id == firstId + i
    {
      assert Fixture.Schedule(wheel)[i] in Fixture.Schedule(wheel);
    }
  }

  lemma {:induction false} CreationMeans(sys: Sys, name: string, explicit: seq<nat>, seed: int, env: Env)
    requires Valid(sys)
    ensures var r := CreateIn(sys, name, explicit, seed, env); var l := sys.nextLeague;
            && (!Admissible(sys.teams, name, explicit) ==> r == Err(InvalidInput))
            && (Admissible(sys.teams, name, explicit) ==> if Repeats(explicit) then r == Err(Internal) else r.Ok?)
            && (r.Ok? ==>
                  l in r.value.seasons &&
                  exists ids :: Resolved(sys.teams, explicit, ids) &&
                                CreatedAs(r.value.seasons[l], name, ids, seed, env, l, sys.nextMatch))
  {
    hide CreateIn, CreatedAs, Admissible, Repeats, Resolved, ValidSeason, ValidTeams;
    CreateEnds(sys, name, explicit, seed, env);
    if CreateIn(sys, name, explicit, seed, env).Ok? { var ids := CreatedRow(sys, name, explicit, seed, env); }
  }

  // ----- playing a week

  /** How PlayWeek ends. */
  lemma {:induction false} PlayEnds(sys: Sys, l: nat, env: Env)
    requires Valid(sys)
    ensures l !in sys.seasons ==>
              Apply(sys, PlayWeek(l), env) == Err(NotFound) && Apply(sys, PlayAll(l), env) == Err(NotFound)
    ensures l in sys.seasons && sys.seasons[l].league.status == Finished ==>
              Apply(sys, PlayWeek(l), env) == Err(Conflict) && Apply(sys, PlayAll(l), env) == Err(Conflict)
    ensures l in sys.seasons && sys.seasons[l].league.status != Finished ==>
              Apply(sys, PlayWeek(l), env).Ok? && Apply(sys, PlayAll(l), env).Ok?
  {
    hide Valid, InOrder, RosterIn, WeekPlayed, PlayFrom, SeasonOps.PlayOne;
    if l in sys.seasons {
      RosterKnown(sys, l);
      PlayWeekKeeps(sys.seasons[l], RosterIn(sys, l), env);
      PlayAllIsRepeatedPlayWeek(sys.seasons[l], RosterIn(sys, l), env);
    }
  }

  /**
   * A played week. Its matches are scored in the order of their ids, the first with the generator of (seed, week),
   * each further one with the state its predecessor left; no other match changes; the table through the week becomes
   * its snapshot; the league moves on by one week and is FINISHED after the last.
   */
  ghost predicate OneWeekOn(s: Season, t: Season, roster: seq<Team>, env: Env, seed: int, g: seq<Simulated>) {
    var week := s.league.currentWeek + 1;
    && IsChain(Filter(s.matches, InWeek(week)), ById(roster), env.simulate, env.weekRng(seed, week), g)
    && Filter(t.matches, InWeek(week)) == WithScores(Filter(s.matches, InWeek(week)), g)
    && 2 * |g| == |s.members|
    && |t.matches| == |s.matches|
    && (forall i :: 0 <= i < |s.matches| && s.matches[i].week != week ==> t.matches[i] == s.matches[i])
    && t.snapshots == s.snapshots[week := Stored(TableThrough(roster, t.matches, week))]
    && t.members == s.members
    && t.league == s.league.(currentWeek := week,
                             status := if week == s.league.totalWeeks then Finished else InProgress)
  }

  lemma {:induction false} WeekOfPlay(sys: Sys, l: nat, env: Env) returns (g: seq<Simulated>)
    requires Valid(sys) && l in sys.seasons && sys.seasons[l].league.status != Finished
    ensures var end := Next(sys, PlayWeek(l), env);
            && l in end.seasons && end == sys.(seasons := sys.seasons[l := end.seasons[l]])
            && OneWeekOn(sys.seasons[l], end.seasons[l], RosterIn(sys, l), env, sys.seasons[l].league.seed, g)
  {
    hide RosterIn, HasSchedule, SeasonOps.PlayWeek, WeekPlayed, OneWeekOn, InOrder;
    assert ValidSeason(sys, l);
    RosterKnown(sys, l);
    PlayWeekKeeps(sys.seasons[l], RosterIn(sys, l), env);
    g := WeekPlayedIsOneOn(sys.seasons[l], RosterIn(sys, l), env);
  }

  lemma {:induction false} WeekPlayedIsOneOn(s: Season, roster: seq<Team>, env: Env) returns (g: seq<Simulated>)
    requires InOrder(s, roster) && HasSchedule(s) && s.league.status != Finished
    ensures OneWeekOn(s, WeekPlayed(s, roster, env), roster, env, s.league.seed, g)
  {
    hide HasSchedule, WeekScores, Record, Table, TableThrough, Stored, ListByLeague, CacheAgrees, Filter;
    var week := s.league.currentWeek + 1;
    WeekPlayedKeeps(s, roster, env);
    g := WeekIsChain(s, roster, env, week);
    WeekRecorded(s, roster, env, week);
    NewSnapshotAgrees(s, roster, env);
    WeekSize(s, week);
  }

  lemma {:induction false} WeekSize(s: Season, week: nat)
    requires HasSchedule(s) && 1 <= week <= s.league.totalWeeks
    ensures 2 * |Filter(s.matches, InWeek(week))| == |s.members|
  {
    hide Fixture.Schedule;
    var wheel :| ScheduledOn(s, wheel);
    var fs := Fixture.Schedule(wheel);
    WheelSize(wheel, s.members);
    Fixture.EveryWeekFull(wheel, week);
    forall i | 0 <= i < |fs| ensures InWeek(week)(s.matches[i]) == Fixture.OfWeek(week)(fs[i]) {
      assert Skeleton(s.matches)[i] == fs[i];
    }
    CountCongruence(s.matches, fs, InWeek(week), Fixture.OfWeek(week));
    FilterSize(s.matches, InWeek(week));
  }

  lemma {:induction false} FilterSize(ms: seq<Match>, p: Match -> bool)
    ensures |Filter(ms, p)| == Count(ms, p)
  {
    if ms != [] { FilterSize(ms[..|ms| - 1], p); }
  }

  /**
   * A league keeps the seed it is created with: whatever happens after that, in every later state it has the name, the
   * seed, the length and the members of its creation, and the next week played is scored from the generator of that
   * seed.
   */
  lemma {:induction false} SeedForLife(start: Sys, before: seq<Op>, name: string, explicit: seq<nat>, seed: int,
                                       after: seq<Op>, env: Env) returns (ids: seq<nat>, g: seq<Simulated>)
    requires Initial(start) && CreateIn(Run(start, before, env), name, explicit, seed, env).Ok?
    ensures Resolved(Run(start, before, env).teams, explicit, ids)
    ensures var l := Run(start, before, env).nextLeague;
            var later := Run(CreateIn(Run(start, before, env), name, explicit, seed, env).value, after, env);
            && l in later.seasons
            && var s := later.seasons[l];
               && s.league.name == name && s.league.seed == seed && s.league.totalWeeks == 2 * (|ids| - 1)
               && |s.members| == |ids| && (forall id :: id in s.members <==> id in ids)
               && (s.league.status != Finished ==>
                     && l in Next(later, PlayWeek(l), env).seasons
                     && OneWeekOn(s, Next(later, PlayWeek(l), env).seasons[l], RosterIn(later, l), env, seed, g))
  {
    hide Run, Valid, CreateIn, RosterIn, OneWeekOn, Next, CreatedAs, SameLeague, KeepsLeagues;
    var sys := Run(start, before, env);
    var created, l := CreateIn(sys, name, explicit, seed, env).value, sys.nextLeague;
    var later := Run(created, after, env);
    ids := CreatedRow(sys, name, explicit, seed, env);
    CreatedIsValid(start, before, name, explicit, seed, env);
    RunKeeps(created, after, env);
    StillAs(created, later, l, name, ids, seed, env, sys.nextMatch);
    g := [];
    if later.seasons[l].league.status != Finished { g := WeekOfPlay(later, l, env); }
  }

  lemma {:induction false} StillAs(created: Sys, later: Sys, l: nat, name: string, ids: seq<nat>, seed: int, env: Env,
                                   firstId: nat)
    requires l in created.seasons && CreatedAs(created.seasons[l], name, ids, seed, env, l, firstId)
    requires KeepsLeagues(created, later)
    ensures l in later.seasons
    ensures var s := later.seasons[l];
            && s.league.name == name && s.league.seed == seed && s.league.totalWeeks == 2 * (|ids| - 1)
            && |s.members| == |ids| && (forall id :: id in s.members <==> id in ids)
  {
    hide Skeleton, Fixture.Schedule, Fixture.Shuffled;
  }

  // ----- rewriting a league

  lemma {:induction false} RewriteEnds(sys: Sys, l: nat, env: Env)
    ensures if l in sys.seasons then Apply(sys, Reset(l), env).Ok? else Apply(sys, Reset(l), env) == Err(NotFound)
    ensures if l in sys.seasons then Apply(sys, Recalculate(l), env).Ok?
            else Apply(sys, Recalculate(l), env) == Err(NotFound)
  {
    hide SeasonOps.Reset, SeasonOps.Recalculate, Roster;
  }

  /** The match with the id gets the score; nothing else about it and no other match changes. */
  ghost predicate OneRescored(ms: seq<Match>, ms': seq<Match>, id: nat, homeGoals: int, awayGoals: int) {
    && homeGoals >= 0 && awayGoals >= 0 && |ms'| == |ms|
    && forall i :: 0 <= i < |ms| ==>
         && (ms[i].id != id ==> ms'[i] == ms[i])
         && (ms[i].id == id ==>
               ms'[i] == Match(id, ms[i].leagueId, ms[i].week, ms[i].home, ms[i].away, Played(homeGoals, awayGoals)))
  }

  lemma {:induction false} RecordedIsRescored(ms: seq<Match>, id: nat, homeGoals: nat, awayGoals: nat)
    ensures OneRescored(ms, Record(ms, map[id := Played(homeGoals, awayGoals)]), id, homeGoals, awayGoals)
  {
  }

  // ----- changing ratings

  /** Only the team with the id gets the new ratings; identity and name stay. */
  ghost predicate OneRerated(teams: seq<Team>, teams': seq<Team>, id: nat, attack: int, midfield: int, defense: int) {
    && |teams'| == |teams|
    && forall i :: 0 <= i < |teams| ==>
         && (teams[i].id != id ==> teams'[i] == teams[i])
         && (teams[i].id == id ==> teams'[i] == Team(id, teams[i].name, attack, midfield, defense))
  }

  /** Each rating from 1 to 100. */
  predicate RatingsAllowed(attack: int, midfield: int, defense: int) {
    1 <= attack <= 100 && 1 <= midfield <= 100 && 1 <= defense <= 100
  }

  /** The outcome of every request to change a team's ratings. */
  lemma {:induction false} RatingEnds(sys: Sys, id: nat, attack: int, midfield: int, defense: int, env: Env)
    ensures var r := Apply(sys, UpdateRating(id, attack, midfield, defense), env);
            && (!RatingsAllowed(attack, midfield, defense) ==> r == Err(InvalidInput))
            && (RatingsAllowed(attack, midfield, defense) && (forall t :: t in sys.teams ==> t.id != id) ==>
                  r == Err(NotFound))
            && (RatingsAllowed(attack, midfield, defense) && (exists t :: t in sys.teams && t.id == id) ==>
                  && r.Ok? && OneRerated(sys.teams, r.value.teams, id, attack, midfield, defense)
                  && r.value == sys.(teams := r.value.teams))
  {
    IdsOfTeams(sys.teams, id);
  }
}
