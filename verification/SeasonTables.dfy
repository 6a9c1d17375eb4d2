/** Schedule, state machine and calculator together: how often a team has played. */
module SeasonTables {
  import opened Seqs
  import opened Domain
  import Fixture
  import opened Standings
  import opened TableLaws
  import opened Trials
  import opened SeasonOps
  import opened SeasonLaws

  /** A fixture without identity and result: what the generator decides. */
  function Bare(m: Match): Match { Match(0, 0, m.week, m.home, m.away, Scheduled) }

  function Skeleton(ms: seq<Match>): (r: seq<Match>)
    ensures |r| == |ms|
  {
    seq(|ms|, i requires 0 <= i < |ms| => Bare(ms[i]))
  }

  /** The league's matches are the double round-robin of its members. */
  ghost predicate ScheduledOn(s: Season, wheel: seq<nat>) {
    && Fixture.IsWheel(wheel) && (forall id :: id in wheel <==> id in s.members)
    && s.league.totalWeeks == 2 * (|wheel| - 1)
    && Skeleton(s.matches) == Fixture.Schedule(wheel)
  }

  ghost predicate HasSchedule(s: Season) {
    exists wheel :: ScheduledOn(s, wheel)
  }

  lemma {:induction false} ScheduleCarriesOver(s: Season, t: Season)
    requires SameLeague(s, t) && HasSchedule(s)
    ensures HasSchedule(t)
  {
    var wheel :| ScheduledOn(s, wheel);
    SameFixtures(s.matches, t.matches);
    forall i | 0 <= i < |s.matches| ensures Skeleton(s.matches)[i] == Skeleton(t.matches)[i] {
      assert Bare(s.matches[i]) == Bare(s.matches[i].(outcome := Scheduled));
    }
    assert Skeleton(s.matches) == Skeleton(t.matches);
    assert ScheduledOn(t, wheel);
  }

  function CountsFor(team: nat, week: nat): Match -> bool {
    (m: Match) => m.outcome.Played? && m.week <= week && m.Involves(team)
  }

  /** Played counts the played matches a team takes part in. */
  lemma {:induction false} AppearancesCounted(team: nat, ms: seq<Match>, week: nat)
    requires forall m :: m in ms ==> m.home != m.away
    ensures Column(team, Filter(ms, UpToWeek(week)), Appearances) == Count(ms, CountsFor(team, week))
  {
    if ms != [] {
      var init, last := ms[..|ms| - 1], ms[|ms| - 1];
      assert last in ms && forall m :: m in init ==> m in ms;
      AppearancesCounted(team, init, week);
      if last.week <= week {
        var r := Filter(init, UpToWeek(week));
        assert (r + [last])[..|r|] == r;
        ColumnStep(team, r + [last], Appearances);
      }
    }
  }

  /** Through week K, every member has played K matches. */
  lemma {:induction false} PlayedThroughWeek(s: Season, team: nat, week: nat)
    requires Coherent(s) && HasSchedule(s) && team in s.members && week <= s.league.currentWeek
    ensures Tally(team, Filter(s.matches, UpToWeek(week))).played == week
  {
    var wheel :| ScheduledOn(s, wheel);
    forall m | m in s.matches ensures m.home != m.away && (m.week <= week ==> m.outcome.Played?) {
      assert WellPlaced(s, m);
    }
    TallyIsColumns(team, Filter(s.matches, UpToWeek(week)));
    AppearancesCounted(team, s.matches, week);
    CountOnSkeleton(s, wheel, team, week);
    Fixture.MatchesUpTo(wheel, team, week);
  }

  lemma {:induction false} CountOnSkeleton(s: Season, wheel: seq<nat>, team: nat, week: nat)
    requires wheel != [] && Skeleton(s.matches) == Fixture.Schedule(wheel)
    requires forall m :: m in s.matches && m.week <= week ==> m.outcome.Played?
    ensures Count(s.matches, CountsFor(team, week)) == Count(Fixture.Schedule(wheel), Fixture.OfTeamUpTo(team, week))
  {
    var p, q, bare := CountsFor(team, week), Fixture.OfTeamUpTo(team, week), Skeleton(s.matches);
    forall i | 0 <= i < |s.matches| ensures p(s.matches[i]) == q(bare[i]) {
      assert s.matches[i] in s.matches;
    }
    CountCongruence(s.matches, bare, p, q);
  }

  /** In every row of snapshot K, Played is K. */
  lemma {:induction false} SnapshotRowsPlayed(s: Season, roster: seq<Team>, week: nat, i: nat)
    requires InOrder(s, roster) && HasSchedule(s) && week in s.snapshots && i < |s.snapshots[week]|
    ensures s.snapshots[week][i].stats.played == week && s.snapshots[week][i].teamId in s.members
  {
    TableRowIsTally(roster, Filter(s.matches, UpToWeek(week)), i);
    PlayedThroughWeek(s, TableThrough(roster, s.matches, week)[i].teamId, week);
  }

  lemma {:induction false} SidesOnSkeleton(s: Season, wheel: seq<nat>, team: nat)
    requires wheel != [] && Skeleton(s.matches) == Fixture.Schedule(wheel)
    ensures Count(s.matches, Fixture.AtHome(team)) == Count(Fixture.Schedule(wheel), Fixture.AtHome(team))
    ensures Count(s.matches, Fixture.Visiting(team)) == Count(Fixture.Schedule(wheel), Fixture.Visiting(team))
  {
    CountCongruence(s.matches, Skeleton(s.matches), Fixture.AtHome(team), Fixture.AtHome(team));
    CountCongruence(s.matches, Skeleton(s.matches), Fixture.Visiting(team), Fixture.Visiting(team));
  }

  /** A list without repetitions is as long as the set of its elements. */
  lemma {:induction false} WheelSize(wheel: seq<nat>, members: set<nat>)
    requires NoDuplicates(wheel) && forall id :: id in wheel <==> id in members
    ensures |wheel| == |members|
    decreases |wheel|
  {
    if wheel == [] {
      assert members == {};
    } else {
      var init, last := wheel[..|wheel| - 1], wheel[|wheel| - 1];
      assert wheel == init + [last];
      forall id ensures multiset(init)[id] <= 1 { assert multiset(init)[id] <= multiset(wheel)[id]; }
      assert multiset(wheel)[last] == multiset(init)[last] + 1;
      assert last !in multiset(init);
      WheelSize(init, members - {last});
    }
  }

  /** A season of n members lasts 2(n - 1) weeks. */
  lemma {:induction false} SeasonLength(s: Season)
    requires HasSchedule(s)
    ensures |s.members| >= 4 && s.league.totalWeeks == 2 * (|s.members| - 1)
  {
    hide Fixture.Schedule, Skeleton;
    var wheel :| ScheduledOn(s, wheel);
    WheelSize(wheel, s.members);
  }

  /** At the end of the season everyone has played 2(n - 1) matches, n - 1 at home and n - 1 away, none left. */
  lemma {:induction false} FinishedSeason(s: Season, team: nat)
    requires Coherent(s) && HasSchedule(s) && s.league.status == Finished && team in s.members
    ensures Tally(team, s.matches).played == 2 * (|s.members| - 1)
    ensures Count(s.matches, Fixture.AtHome(team)) == |s.members| - 1
    ensures Count(s.matches, Fixture.Visiting(team)) == |s.members| - 1
    ensures forall m :: m in s.matches ==> m.outcome.Played?
  {
    hide Fixture.Schedule, Skeleton;
    var last := s.league.totalWeeks;
    forall m | m in s.matches ensures m.outcome.Played? && m.week <= last {
      assert WellPlaced(s, m);
    }
    FilterAll(s.matches, UpToWeek(last));
    PlayedThroughWeek(s, team, last);
    SeasonLength(s);
    var wheel :| ScheduledOn(s, wheel);
    WheelSize(wheel, s.members);
    SidesOnSkeleton(s, wheel, team);
    Fixture.EveryTeamHalfAtHome(wheel, team);
    Fixture.EveryTeamHalfAway(wheel, team);
  }

  // ----- what a week's results depend on

  /** The outcome of a match depends on who plays in what order, not on earlier results or edits. */
  lemma {:induction false} SimAtIgnoresResults(a: seq<Match>, b: seq<Match>, byId: map<nat, Team>, sim: Simulator,
                                               start: Rng, j: nat)
    requires |a| == |b| && forall i :: 0 <= i < |a| ==> a[i].(outcome := Scheduled) == b[i].(outcome := Scheduled)
    requires j < |a|
    ensures SimAt(a, byId, sim, start, j) == SimAt(b, byId, sim, start, j)
  {
    assert a[j].(outcome := Scheduled) == b[j].(outcome := Scheduled);
    if j > 0 { SimAtIgnoresResults(a, b, byId, sim, start, j - 1); }
  }

  lemma {:induction false} ScoresIgnoreResults(a: seq<Match>, b: seq<Match>, byId: map<nat, Team>, sim: Simulator,
                                               start: Rng, j: nat)
    requires |a| == |b| && forall i :: 0 <= i < |a| ==> a[i].(outcome := Scheduled) == b[i].(outcome := Scheduled)
    requires j <= |a|
    ensures Scores(a, byId, sim, start, j) == Scores(b, byId, sim, start, j)
  {
    if j > 0 {
      assert a[j - 1].(outcome := Scheduled) == b[j - 1].(outcome := Scheduled);
      ScoresIgnoreResults(a, b, byId, sim, start, j - 1);
      SimAtIgnoresResults(a, b, byId, sim, start, j - 1);
    }
  }

  function Blank(m: Match): Match { m.(outcome := Scheduled) }

  /** However the league got here, a week's simulated results are those of (seed, week, ratings). */
  lemma {:induction false} WeekDependsOnSeedAndWeek(s: Season, t: Season, roster: seq<Team>, env: Env, week: nat)
    requires SameLeague(s, t)
    ensures WeekScores(s, roster, env, week) == WeekScores(t, roster, env, week)
  {
    SameFixtures(s.matches, t.matches);
    SameWeekLists(s.matches, t.matches, week);
    var a, b := Filter(s.matches, InWeek(week)), Filter(t.matches, InWeek(week));
    ScoresIgnoreResults(a, b, ById(roster), env.simulate, env.weekRng(s.league.seed, week), |a|);
  }

  lemma {:induction false} SameWeekLists(a: seq<Match>, b: seq<Match>, week: nat)
    requires |a| == |b| && forall i :: 0 <= i < |a| ==> Blank(a[i]) == Blank(b[i])
    ensures |Filter(a, InWeek(week))| == |Filter(b, InWeek(week))|
    ensures forall i :: 0 <= i < |Filter(a, InWeek(week))| ==>
              Blank(Filter(a, InWeek(week))[i]) == Blank(Filter(b, InWeek(week))[i])
  {
    if a != [] {
      SameWeekLists(a[..|a| - 1], b[..|b| - 1], week);
      assert Blank(a[|a| - 1]) == Blank(b[|b| - 1]);
    }
  }

  // ----- a week's scores, one after the other

  lemma {:induction false} ScoreAt(list: seq<Match>, byId: map<nat, Team>, sim: Simulator, start: Rng, n: nat, j: nat)
    requires IdsIncreasing(list) && j < n <= |list|
    ensures list[j].id in Scores(list, byId, sim, start, n)
    ensures Scores(list, byId, sim, start, n)[list[j].id] == OutcomeAt(list, byId, sim, start, j)
    decreases n
  {
    if j < n - 1 {
      ScoreAt(list, byId, sim, start, n - 1, j);
      assert list[j].id < list[n - 1].id;
    }
  }

  /** A week is scored match by match, in the order of the ids: the first with the generator of (seed, week), each
      further one with the state its predecessor left. */
  lemma {:induction false} WeekIsChain(s: Season, roster: seq<Team>, env: Env, week: nat) returns (g: seq<Simulated>)
    requires IdsIncreasing(s.matches)
    ensures var list := Filter(s.matches, InWeek(week));
            && IdsIncreasing(list)
            && IsChain(list, ById(roster), env.simulate, env.weekRng(s.league.seed, week), g)
            && Filter(Record(s.matches, WeekScores(s, roster, env, week)), InWeek(week)) == WithScores(list, g)
            && forall j :: 0 <= j < |list| ==>
                 && list[j].id in WeekScores(s, roster, env, week)
                 && WeekScores(s, roster, env, week)[list[j].id] == Played(g[j].homeGoals, g[j].awayGoals)
  {
    hide OutcomeAt, PlayedOut;
    var list := Filter(s.matches, InWeek(week));
    var byId, start := ById(roster), env.weekRng(s.league.seed, week);
    FilterIncreasing(s.matches, InWeek(week));
    g := ChainOf(list, byId, env.simulate, start);
    forall j | 0 <= j < |list|
      ensures list[j].id in WeekScores(s, roster, env, week)
      ensures WeekScores(s, roster, env, week)[list[j].id] == Played(g[j].homeGoals, g[j].awayGoals)
    {
      ScoreAt(list, byId, env.simulate, start, |list|, j);
    }
    var scores := WeekScores(s, roster, env, week);
    FilterMap(s.matches, Record(s.matches, scores), InWeek(week), Rescored(scores));
  }

  function Rescored(scores: map<nat, Outcome>): Match -> Match {
    (m: Match) => if m.id in scores then m.(outcome := scores[m.id]) else m
  }
}
