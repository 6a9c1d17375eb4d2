/** The audit log as the history of every played result. */
module AuditLaws {
  import opened Seqs
  import opened Domain
  import opened Trials
  import opened SeasonOps
  import opened SeasonLaws
  import opened SeasonTables
  import opened System
  import opened SystemLaws
  import opened Reachability

  // ----- chains of edits

  function ForMatch(id: nat): Audit -> bool {
    (a: Audit) => a.matchId == id
  }

  function EntriesFor(audits: seq<Audit>, id: nat): seq<Audit> {
    Filter(audits, ForMatch(id))
  }

  /** The entries lead from one score to another, each starting where the one before ended. */
  ghost predicate Chain(es: seq<Audit>, from: Outcome, to: Outcome) {
    if es == [] then from == to
    else
      var last := es[|es| - 1];
      && to == Played(last.newHome, last.newAway)
      && Chain(es[..|es| - 1], from, Played(last.oldHome, last.oldAway))
  }

  lemma {:induction false} ChainAppend(es: seq<Audit>, fs: seq<Audit>, from: Outcome, via: Outcome, to: Outcome)
    requires Chain(es, from, via) && Chain(fs, via, to)
    ensures Chain(es + fs, from, to)
  {
    if fs == [] {
      assert es + fs == es;
    } else {
      var last := fs[|fs| - 1];
      ChainAppend(es, fs[..|fs| - 1], from, via, Played(last.oldHome, last.oldAway));
      assert (es + fs)[..|es + fs| - 1] == es + fs[..|fs| - 1];
    }
  }

  // ----- scores in a state

  ghost predicate Holds(s: Season, id: nat, o: Outcome) {
    exists m :: m in s.matches && m.id == id && m.outcome == o
  }

  /** The match is PLAYED with this outcome. */
  ghost predicate ScoredAs(sys: Sys, id: nat, o: Outcome) {
    o.Played? && exists l :: l in sys.seasons && Holds(sys.seasons[l], id, o)
  }

  ghost predicate IsScored(sys: Sys, id: nat) {
    exists o: Outcome :: ScoredAs(sys, id, o)
  }

  lemma {:induction false} HoldsOnce(s: Season, id: nat, o: Outcome, o': Outcome)
    requires IdsIncreasing(s.matches) && Holds(s, id, o) && Holds(s, id, o')
    ensures o == o'
  {
    var m :| m in s.matches && m.id == id && m.outcome == o;
    var m' :| m' in s.matches && m'.id == id && m'.outcome == o';
    var i :| 0 <= i < |s.matches| && s.matches[i] == m;
    var j :| 0 <= j < |s.matches| && s.matches[j] == m';
    assert i == j;
  }

  lemma {:induction false} OwnerOnce(sys: Sys, l: nat, l': nat, id: nat)
    requires Valid(sys) && Owns(sys, l, id) && Owns(sys, l', id)
    ensures l == l'
  {
    hide ValidTeams, ValidSeason;
    var m, m' := MatchOf(sys.seasons[l], id), MatchOf(sys.seasons[l'], id);
    assert l != l' ==> DisjointIds(sys.seasons[l].matches, sys.seasons[l'].matches);
  }

  lemma {:induction false} ScoredOnce(sys: Sys, id: nat, o: Outcome, o': Outcome)
    requires Valid(sys) && ScoredAs(sys, id, o) && ScoredAs(sys, id, o')
    ensures o == o'
  {
    hide Valid;
    var l :| l in sys.seasons && Holds(sys.seasons[l], id, o);
    var l' :| l' in sys.seasons && Holds(sys.seasons[l'], id, o');
    OwnerOnce(sys, l, l', id);
    SeasonIds(sys, l);
    HoldsOnce(sys.seasons[l], id, o, o');
  }

  lemma {:induction false} SeasonIds(sys: Sys, l: nat)
    requires Valid(sys) && l in sys.seasons
    ensures IdsIncreasing(sys.seasons[l].matches) && InOrder(sys.seasons[l], RosterIn(sys, l))
  {
    hide HasSchedule, CacheAgrees, RosterOf, ValidTeams;
    assert ValidSeason(sys, l);
  }

  // ----- playing never touches a result that is there, and adds exactly the simulated ones

  lemma {:induction false} WeekPlayedResults(s: Season, roster: seq<Team>, env: Env, id: nat, o: Outcome)
    requires Coherent(s)
    ensures Holds(s, id, o) && o.Played? ==> Holds(WeekPlayed(s, roster, env), id, o)
    ensures Holds(WeekPlayed(s, roster, env), id, o) && o.Played? ==>
              || Holds(s, id, o)
              || exists m :: m in s.matches && m.id == id && m.outcome.Scheduled? &&
                   id in WeekScores(s, roster, env, m.week) && o == WeekScores(s, roster, env, m.week)[id]
  {
    hide AdvanceAndSnapshot, WeekScores, TableThrough;
    var week := s.league.currentWeek + 1;
    var t := WeekPlayed(s, roster, env);
    assert t.matches == Record(s.matches, WeekScores(s, roster, env, week)) by { PlayedMatches(s, roster, env); }
    WeekRecorded(s, roster, env, week);
    if Holds(s, id, o) && o.Played? {
      var m :| m in s.matches && m.id == id && m.outcome == o;
      var i :| 0 <= i < |s.matches| && s.matches[i] == m;
      assert WellPlaced(s, m);
      assert t.matches[i] == m && t.matches[i] in t.matches;
    }
    if Holds(t, id, o) && o.Played? {
      var m' :| m' in t.matches && m'.id == id && m'.outcome == o;
      var i :| 0 <= i < |t.matches| && t.matches[i] == m';
      var m := s.matches[i];
      assert m in s.matches && WellPlaced(s, m);
      WeekScoresCover(s, roster, env, week, i);
      if m.week != week { assert m == m'; }
    }
  }

  lemma {:induction false} PlayedMatches(s: Season, roster: seq<Team>, env: Env)
    ensures WeekPlayed(s, roster, env).matches ==
            Record(s.matches, WeekScores(s, roster, env, s.league.currentWeek + 1))
  {
  }

  /** The outcome the match gets when its week is simulated, in this league with these ratings. */
  ghost predicate WouldScore(s: Season, roster: seq<Team>, env: Env, id: nat, o: Outcome) {
    exists m :: m in s.matches && m.id == id && m.outcome.Scheduled? &&
      id in WeekScores(s, roster, env, m.week) && o == WeekScores(s, roster, env, m.week)[id]
  }

  /** The score a chain of simulations, begun with the generator of (seed, week), gives the match. */
  ghost predicate FromChain(s: Season, roster: seq<Team>, env: Env, id: nat, o: Outcome) {
    exists week: nat, g: seq<Simulated>, j: nat ::
      var list := Filter(s.matches, InWeek(week));
      && IsChain(list, ById(roster), env.simulate, env.weekRng(s.league.seed, week), g)
      && j < |list| && list[j].id == id && o == Played(g[j].homeGoals, g[j].awayGoals)
  }

  lemma {:induction false} WouldScoreIsChain(s: Season, roster: seq<Team>, env: Env, id: nat, o: Outcome)
    requires IdsIncreasing(s.matches) && WouldScore(s, roster, env, id, o)
    ensures FromChain(s, roster, env, id, o)
  {
    hide WeekScores;
    var m :| m in s.matches && m.id == id && m.outcome.Scheduled? &&
             id in WeekScores(s, roster, env, m.week) && o == WeekScores(s, roster, env, m.week)[id];
    var g := WeekIsChain(s, roster, env, m.week);
    var list := Filter(s.matches, InWeek(m.week));
    assert m in list;
    var j :| 0 <= j < |list| && list[j] == m;
  }

  lemma {:induction false} WouldScoreEarlier(s: Season, t: Season, roster: seq<Team>, env: Env, id: nat, o: Outcome)
    requires SameLeague(s, t) && WouldScore(t, roster, env, id, o)
    requires forall o': Outcome :: o'.Played? && Holds(s, id, o') ==> Holds(t, id, o')
    requires IdsIncreasing(t.matches)
    ensures WouldScore(s, roster, env, id, o)
  {
    hide WeekScores;
    var m :| m in t.matches && m.id == id && m.outcome.Scheduled? &&
             id in WeekScores(t, roster, env, m.week) && o == WeekScores(t, roster, env, m.week)[id];
    SameFixtures(s.matches, t.matches);
    var i :| 0 <= i < |t.matches| && t.matches[i] == m;
    var m' := s.matches[i];
    assert m'.(outcome := Scheduled) == m.(outcome := Scheduled) && m' in s.matches;
    WeekDependsOnSeedAndWeek(s, t, roster, env, m.week);
    if m'.outcome.Played? {
      assert Holds(s, id, m'.outcome);
      assert Holds(t, id, Scheduled);
      HoldsOnce(t, id, Scheduled, m'.outcome);
    }
  }

  lemma {:induction false} PlayTimesResults(s: Season, roster: seq<Team>, env: Env, n: nat, id: nat, o: Outcome)
    requires InOrder(s, roster) && PlayTimes(s, roster, env, n).Ok? && o.Played?
    ensures Holds(s, id, o) ==> Holds(PlayTimes(s, roster, env, n).value, id, o)
    ensures Holds(PlayTimes(s, roster, env, n).value, id, o) ==> Holds(s, id, o) || WouldScore(s, roster, env, id, o)
    decreases n
  {
    hide InOrder, Coherent, CacheAgrees, SeasonOps.PlayWeek, WeekPlayed, Holds, WouldScore, SameLeague;
    if n > 0 {
      PlayWeekKeeps(s, roster, env);
      var t := WeekPlayed(s, roster, env);
      PlayTimesResults(t, roster, env, n - 1, id, o);
      OneWeekResults(s, roster, env, id, o);
    }
  }

  lemma {:induction false} OneWeekResults(s: Season, roster: seq<Team>, env: Env, id: nat, o: Outcome)
    requires InOrder(s, roster) && s.league.status != Finished && o.Played?
    ensures Holds(s, id, o) ==> Holds(WeekPlayed(s, roster, env), id, o)
    ensures Holds(WeekPlayed(s, roster, env), id, o) ==> Holds(s, id, o) || WouldScore(s, roster, env, id, o)
    ensures WouldScore(WeekPlayed(s, roster, env), roster, env, id, o) ==> WouldScore(s, roster, env, id, o)
  {
    hide CacheAgrees, WeekPlayed, SeasonOps.PlayWeek, WeekScores, SameLeague, Holds;
    var t := WeekPlayed(s, roster, env);
    WeekPlayedResults(s, roster, env, id, o);
    PlayWeekKeeps(s, roster, env);
    if WouldScore(t, roster, env, id, o) {
      forall o': Outcome | o'.Played? && Holds(s, id, o') ensures Holds(t, id, o') {
        WeekPlayedResults(s, roster, env, id, o');
      }
      WouldScoreEarlier(s, t, roster, env, id, o);
    }
  }

  // ----- one operation

  lemma {:induction false} OwnerOf(sys: Sys, id: nat, o: Outcome) returns (l: nat)
    requires ScoredAs(sys, id, o)
    ensures l in sys.seasons && Holds(sys.seasons[l], id, o) && Owns(sys, l, id)
  {
    l :| l in sys.seasons && Holds(sys.seasons[l], id, o);
  }

  /** A match stays with its league. */
  lemma {:induction false} OwnerStays(sys: Sys, next: Sys, l: nat, id: nat, o: Outcome)
    requires KeepsLeagues(sys, next) && Valid(next) && Owns(sys, l, id)
    ensures l in next.seasons
    ensures ScoredAs(next, id, o) ==> Holds(next.seasons[l], id, o)
  {
    hide Valid, SameLeague;
    var m := MatchOf(sys.seasons[l], id);
    OwnsStill(sys.seasons[l], next.seasons[l], m);
    assert Owns(next, l, id);
    if ScoredAs(next, id, o) {
      var k := OwnerOf(next, id, o);
      OwnerOnce(next, l, k, id);
    }
  }

  lemma {:induction false} OwnsStill(s: Season, t: Season, m: Match)
    requires SameLeague(s, t) && m in s.matches
    ensures HasMatch(t, m.id)
  {
    SameFixtures(s.matches, t.matches);
    var i :| 0 <= i < |s.matches| && s.matches[i] == m;
    assert s.matches[i].(outcome := Scheduled) == t.matches[i].(outcome := Scheduled);
    assert t.matches[i] in t.matches;
  }

  /** What an operation other than an edit does to a result of its league: keep it or clear it. */
  lemma {:induction false} LeagueResultStands(sys: Sys, op: Op, env: Env, l: nat, id: nat, o: Outcome)
    requires Valid(sys) && l in sys.seasons && o.Played? && Holds(sys.seasons[l], id, o)
    requires !op.UpdateResult? && !op.Reset? && !op.CreateLeague?
    ensures l in Next(sys, op, env).seasons && Holds(Next(sys, op, env).seasons[l], id, o)
  {
    hide Valid, Holds, SeasonOps.PlayWeek, SeasonOps.PlayAll, WeekPlayed, InOrder, SeasonOps.Recalculate, Roster;
    var s, roster := sys.seasons[l], RosterIn(sys, l);
    SeasonIds(sys, l);
    if op == System.PlayWeek(l) && Apply(sys, op, env).Ok? {
      PlayWeekKeeps(s, roster, env);
      OneWeekResults(s, roster, env, id, o);
    } else if op == System.PlayAll(l) && Apply(sys, op, env).Ok? {
      PlayAllIsRepeatedPlayWeek(s, roster, env);
      PlayTimesResults(s, roster, env, s.league.totalWeeks - s.league.currentWeek, id, o);
    } else if op == System.Recalculate(l) {
      RecalculateIdentity(s, roster);
    }
  }

  lemma {:induction false} RecalculateIdentity(s: Season, roster: seq<Team>)
    requires InOrder(s, roster)
    ensures SeasonOps.Recalculate(s, roster) == s
  {
    hide TableThrough, Stored;
    RecalculateChangesNothing(s, roster);
  }

  lemma {:induction false} ResetHolds(s: Season, id: nat, o: Outcome)
    ensures Holds(SeasonOps.Reset(s), id, o) ==> o == Scheduled
  {
  }

  /** An edit replaces one result, starting from the one that was there, and touches no other. */
  lemma {:induction false} EditResults(s: Season, roster: seq<Team>, seen: Match, homeGoals: nat, awayGoals: nat,
                                       id: nat, o: Outcome)
    requires Coherent(s) && seen in s.matches && seen.outcome.Played? && Holds(s, id, o)
    ensures var t := EditMatch(s, roster, seen, homeGoals, awayGoals).value;
            if id == seen.id then o == seen.outcome && Holds(t, id, Played(homeGoals, awayGoals)) else Holds(t, id, o)
  {
    hide TableThrough, Rebuilt, WellPlaced;
    var t := EditMatch(s, roster, seen, homeGoals, awayGoals).value;
    var m :| m in s.matches && m.id == id && m.outcome == o;
    var i :| 0 <= i < |s.matches| && s.matches[i] == m;
    RecordOne(s, seen, Played(homeGoals, awayGoals));
    assert Holds(s, seen.id, seen.outcome);
    if id == seen.id { HoldsOnce(s, id, o, seen.outcome); }
    assert t.matches[i] in t.matches;
  }

  /** The log grows at the end, and what is new about a match leads from its old result to its new one. */
  lemma {:induction false} StepChain(sys: Sys, op: Op, env: Env, id: nat, o: Outcome, o': Outcome)
    requires Valid(sys) && ScoredAs(sys, id, o) && ScoredAs(Next(sys, op, env), id, o')
    ensures sys.audits <= Next(sys, op, env).audits
    ensures Chain(EntriesFor(Next(sys, op, env).audits[|sys.audits|..], id), o, o')
  {
    hide Valid, Holds, Next, KeepsLeagues, Chain;
    var next := Next(sys, op, env);
    StepKeeps(sys, op, env);
    var l := OwnerOf(sys, id, o);
    OwnerStays(sys, next, l, id, o');
    SeasonIds(next, l);
    if op.UpdateResult? {
      EditChain(sys, op, env, l, id, o, o');
    } else {
      NoEntries(sys, op, env, id);
      assert Holds(next.seasons[l], id, o) by { OtherStands(sys, op, env, l, id, o, o'); }
      HoldsOnce(next.seasons[l], id, o, o');
      EmptyChain(o);
    }
  }

  lemma {:induction false} EmptyChain(o: Outcome)
    ensures Chain([], o, o)
  {
  }

  lemma {:induction false} NoEntries(sys: Sys, op: Op, env: Env, id: nat)
    requires !op.UpdateResult?
    ensures Next(sys, op, env).audits == sys.audits
    ensures EntriesFor(Next(sys, op, env).audits[|sys.audits|..], id) == []
  {
    hide SeasonOps.PlayWeek, SeasonOps.PlayAll, SeasonOps.Reset, SeasonOps.Recalculate, NewSeason, RosterIn;
    assert Next(sys, op, env).audits[|sys.audits|..] == [];
  }

  lemma {:induction false} OtherStands(sys: Sys, op: Op, env: Env, l: nat, id: nat, o: Outcome, o': Outcome)
    requires Valid(sys) && l in sys.seasons && o.Played? && o'.Played? && Holds(sys.seasons[l], id, o)
    requires !op.UpdateResult? && l in Next(sys, op, env).seasons && Holds(Next(sys, op, env).seasons[l], id, o')
    ensures Holds(Next(sys, op, env).seasons[l], id, o)
  {
    hide Holds, NewSeason, SeasonOps.Reset, SeasonOps.PlayWeek, SeasonOps.PlayAll, SeasonOps.Recalculate,
         InOrder, HasSchedule;
    match op
    case CreateLeague(_, _, _) => assert ValidSeason(sys, l);
    case Reset(k) => ResetHolds(sys.seasons[l], id, o');
    case _ => LeagueResultStands(sys, op, env, l, id, o);
  }

  lemma {:induction false} EditChain(sys: Sys, op: Op, env: Env, l: nat, id: nat, o: Outcome, o': Outcome)
    requires Valid(sys) && op.UpdateResult? && l in sys.seasons && o.Played? && Holds(sys.seasons[l], id, o)
    requires l in Next(sys, op, env).seasons && Holds(Next(sys, op, env).seasons[l], id, o')
    requires IdsIncreasing(Next(sys, op, env).seasons[l].matches)
    ensures sys.audits <= Next(sys, op, env).audits
    ensures Chain(EntriesFor(Next(sys, op, env).audits[|sys.audits|..], id), o, o')
  {
    hide Holds, EditMatch, InOrder, HasSchedule, Roster, ValidTeams, Owns;
    var next := Next(sys, op, env);
    if Apply(sys, op, env).Err? {
      assert next.audits[|sys.audits|..] == [];
      HoldsOnce(sys.seasons[l], id, o, o');
    } else {
      var k :| Owns(sys, k, op.match_) &&
               Apply(sys, op, env) == EditOf(sys, k, op.match_, op.homeGoals, op.awayGoals, op.reason);
      EditOfChain(sys, op, env, k, l, id, o, o');
    }
  }

  lemma {:induction false} EditOfChain(sys: Sys, op: Op, env: Env, k: nat, l: nat, id: nat, o: Outcome, o': Outcome)
    requires Valid(sys) && op.UpdateResult? && l in sys.seasons && o.Played? && Holds(sys.seasons[l], id, o)
    requires op.homeGoals >= 0 && op.awayGoals >= 0 && Owns(sys, k, op.match_)
    requires EditOf(sys, k, op.match_, op.homeGoals, op.awayGoals, op.reason).Ok?
    requires var next := EditOf(sys, k, op.match_, op.homeGoals, op.awayGoals, op.reason).value;
             && l in next.seasons && Holds(next.seasons[l], id, o') && IdsIncreasing(next.seasons[l].matches)
    ensures var next := EditOf(sys, k, op.match_, op.homeGoals, op.awayGoals, op.reason).value;
            && sys.audits <= next.audits
            && Chain(EntriesFor(next.audits[|sys.audits|..], id), o, o')
  {
    hide Holds, EditMatch, InOrder, HasSchedule, Roster, ValidTeams;
    var next := EditOf(sys, k, op.match_, op.homeGoals, op.awayGoals, op.reason).value;
    var seen := MatchOf(sys.seasons[k], op.match_);
    var entry := AuditOf(seen, op.homeGoals, op.awayGoals, op.reason);
    assert next.audits[|sys.audits|..] == [entry];
    OneEntry(entry, id);
    if k == l {
      SeasonCoherent(sys, l);
      EditResults(sys.seasons[l], RosterIn(sys, l), seen, op.homeGoals, op.awayGoals, id, o);
      HoldsOnce(next.seasons[l], id, o', if id == seen.id then Played(op.homeGoals, op.awayGoals) else o);
    } else {
      HoldsOnce(next.seasons[l], id, o, o');
      assert id != seen.id by { OtherLeaguesMatch(sys, l, k, id, o, seen); }
    }
  }

  lemma {:induction false} SeasonCoherent(sys: Sys, l: nat)
    requires Valid(sys) && l in sys.seasons
    ensures Coherent(sys.seasons[l])
  {
    hide HasSchedule, CacheAgrees, RosterOf, ValidTeams;
    assert ValidSeason(sys, l);
  }

  lemma {:induction false} OtherLeaguesMatch(sys: Sys, l: nat, k: nat, id: nat, o: Outcome, seen: Match)
    requires Valid(sys) && l in sys.seasons && k in sys.seasons && l != k
    requires Holds(sys.seasons[l], id, o) && seen in sys.seasons[k].matches
    ensures id != seen.id
  {
    hide ValidSeason, ValidTeams;
    var m :| m in sys.seasons[l].matches && m.id == id && m.outcome == o;
    assert DisjointIds(sys.seasons[l].matches, sys.seasons[k].matches);
  }

  lemma {:induction false} OneEntry(entry: Audit, id: nat)
    ensures EntriesFor([entry], id) == if entry.matchId == id then [entry] else []
  {
    var p := ForMatch(id);
    assert [entry][..0] == [] && Filter([entry][..0], p) == [];
    assert Filter([entry], p) == if p(entry) then [] + [entry] else [];
  }

  // ----- every run

  /**
   * Audit chain: as long as a match stays PLAYED, the entries written for it lead, each from where the
   * one before ended, from the result it had to the result it has.
   */
  lemma {:induction false} AuditChain(sys: Sys, ops: seq<Op>, env: Env, id: nat, o: Outcome, o': Outcome)
    requires Valid(sys) && ScoredAs(sys, id, o) && ScoredAs(Run(sys, ops, env), id, o')
    requires forall i :: 0 <= i <= |ops| ==> IsScored(Run(sys, ops[..i], env), id)
    ensures sys.audits <= Run(sys, ops, env).audits
    ensures Chain(EntriesFor(Run(sys, ops, env).audits[|sys.audits|..], id), o, o')
  {
    hide Valid, ScoredAs, Next, Chain;
    if ops == [] {
      ScoredOnce(sys, id, o, o');
      EmptyChain(o);
      assert sys.audits[|sys.audits|..] == [];
    } else {
      var init, last := ops[..|ops| - 1], ops[|ops| - 1];
      var mid := Run(sys, init, env);
      assert IsScored(mid, id);
      var via: Outcome :| ScoredAs(mid, id, via);
      forall i | 0 <= i <= |init| ensures IsScored(Run(sys, init[..i], env), id) {
        assert init[..i] == ops[..i];
      }
      AuditChain(sys, init, env, id, o, via);
      RunKeeps(sys, init, env);
      StepChain(mid, last, env, id, via, o');
      JoinEntries(sys.audits, mid.audits, Run(sys, ops, env).audits, id);
      ChainAppend(EntriesFor(mid.audits[|sys.audits|..], id),
                  EntriesFor(Run(sys, ops, env).audits[|mid.audits|..], id), o, via, o');
    }
  }

  lemma {:induction false} JoinEntries(a: seq<Audit>, b: seq<Audit>, c: seq<Audit>, id: nat)
    requires a <= b <= c
    ensures EntriesFor(c[|a|..], id) == EntriesFor(b[|a|..], id) + EntriesFor(c[|b|..], id)
  {
    assert c[|a|..] == b[|a|..] + c[|b|..];
    FilterAppend(b[|a|..], c[|b|..], ForMatch(id));
  }

  /** The result such a chain starts from: a match becomes PLAYED only with the score simulated for its week. */
  lemma {:induction false} FirstResultIsSimulated(sys: Sys, op: Op, env: Env, l: nat, id: nat, o: Outcome)
    requires Valid(sys) && l in sys.seasons && Holds(sys.seasons[l], id, Scheduled)
    requires ScoredAs(Next(sys, op, env), id, o)
    ensures op == System.PlayWeek(l) || op == System.PlayAll(l)
    ensures WouldScore(sys.seasons[l], RosterIn(sys, l), env, id, o) && Next(sys, op, env).audits == sys.audits
  {
    assert Owns(sys, l, id);
    hide Valid, Holds, Next, KeepsLeagues, WouldScore, Apply;
    StepKeeps(sys, op, env);
    OwnerStays(sys, Next(sys, op, env), l, id, o);
    SeasonIds(sys, l);
    OnlyPlayingScores(sys, op, env, l, id, o);
  }

  lemma {:induction false} OnlyPlayingScores(sys: Sys, op: Op, env: Env, l: nat, id: nat, o: Outcome)
    requires Valid(sys) && l in sys.seasons && Holds(sys.seasons[l], id, Scheduled) && o.Played?
    requires l in Next(sys, op, env).seasons && Holds(Next(sys, op, env).seasons[l], id, o)
    ensures op == System.PlayWeek(l) || op == System.PlayAll(l)
    ensures WouldScore(sys.seasons[l], RosterIn(sys, l), env, id, o) && Next(sys, op, env).audits == sys.audits
  {
    hide Valid, Holds, WouldScore, InOrder, SeasonOps.PlayWeek, SeasonOps.PlayAll, SeasonOps.Reset,
         SeasonOps.Recalculate,
         NewSeason, WeekPlayed, EditOf, Roster;
    var s, roster := sys.seasons[l], RosterIn(sys, l);
    SeasonIds(sys, l);
    if Holds(s, id, o) { HoldsOnce(s, id, Scheduled, o); }
    match op
    case PlayWeek(k) =>
      if k == l {
        PlayWeekKeeps(s, roster, env);
        if s.league.status != Finished { OneWeekResults(s, roster, env, id, o); }
      }
    case PlayAll(k) =>
      if k == l {
        PlayAllIsRepeatedPlayWeek(s, roster, env);
        if s.league.status != Finished {
          PlayTimesResults(s, roster, env, s.league.totalWeeks - s.league.currentWeek, id, o);
        }
      }
    case Reset(k) => ResetHolds(s, id, o);
    case Recalculate(k) => RecalculateIdentity(s, roster);
    case UpdateResult(x, hg, ag, reason) => EditScoresNothing(sys, op, env, l, id, o);
    case CreateLeague(_, _, _) => NewLeagueIsNew(sys, l);
    case UpdateRating(_, _, _, _) =>
  }

  lemma {:induction false} NewLeagueIsNew(sys: Sys, l: nat)
    requires Valid(sys) && l in sys.seasons
    ensures l != sys.nextLeague
  {
    hide InOrder, HasSchedule, ValidTeams;
    assert ValidSeason(sys, l);
  }

  lemma {:induction false} EditScoresNothing(sys: Sys, op: Op, env: Env, l: nat, id: nat, o: Outcome)
    requires Valid(sys) && op.UpdateResult? && l in sys.seasons && Holds(sys.seasons[l], id, Scheduled) && o.Played?
    requires l in Next(sys, op, env).seasons
    ensures !Holds(Next(sys, op, env).seasons[l], id, o)
  {
    hide Holds, Valid, Next, KeepsLeagues, Apply;
    var next := Next(sys, op, env);
    StepKeeps(sys, op, env);
    SeasonIds(next, l);
    EditKeepsScheduled(sys, op, env, l, id);
    if Holds(next.seasons[l], id, o) { HoldsOnce(next.seasons[l], id, Scheduled, o); }
  }

  lemma {:induction false} EditKeepsScheduled(sys: Sys, op: Op, env: Env, l: nat, id: nat)
    requires Valid(sys) && op.UpdateResult? && l in sys.seasons && Holds(sys.seasons[l], id, Scheduled)
    requires l in Next(sys, op, env).seasons
    ensures Holds(Next(sys, op, env).seasons[l], id, Scheduled)
  {
    hide Holds, EditMatch, InOrder, HasSchedule, Roster, ValidTeams, ValidSeason;
    if Apply(sys, op, env).Ok? {
      var k :| Owns(sys, k, op.match_) &&
               Apply(sys, op, env) == EditOf(sys, k, op.match_, op.homeGoals, op.awayGoals, op.reason);
      if k == l {
        SeasonCoherent(sys, l);
        EditResults(sys.seasons[l], RosterIn(sys, l), MatchOf(sys.seasons[l], op.match_), op.homeGoals, op.awayGoals,
                    id, Scheduled);
      }
    }
  }

  // ----- from the empty catalog

  lemma {:induction false} RunAppend(sys: Sys, a: seq<Op>, b: seq<Op>, env: Env)
    ensures Run(sys, a + b, env) == Run(Run(sys, a, env), b, env)
  {
    hide Next;
    if b == [] {
      assert a + b == a;
    } else {
      RunAppend(sys, a, b[..|b| - 1], env);
      assert (a + b)[..|a + b| - 1] == a + b[..|b| - 1];
    }
  }

  /** A match that a step makes PLAYED was there before, SCHEDULED. */
  lemma {:induction false} ScoredFromScheduled(sys: Sys, op: Op, env: Env, id: nat, o: Outcome) returns (l: nat)
    requires Valid(sys) && !IsScored(sys, id) && ScoredAs(Next(sys, op, env), id, o)
    ensures l in sys.seasons && Holds(sys.seasons[l], id, Scheduled)
  {
    hide Valid, Holds, Next, KeepsLeagues, HasMatch;
    StepKeeps(sys, op, env);
    var next := Next(sys, op, env);
    l := OwnerOf(next, id, o);
    if l !in sys.seasons { OnlyCreatedIsNew(sys, op, env, l, id, o); }
    assert SameLeague(sys.seasons[l], next.seasons[l]) by { LeagueKept(sys, next, l); }
    SameLeagueBack(sys.seasons[l], next.seasons[l], id, o);
    var m :| m in sys.seasons[l].matches && m.id == id;
    assert Holds(sys.seasons[l], id, m.outcome) by { HeldOutcome(sys.seasons[l], m); }
    var scored := m.outcome.Played?;
    assert scored ==> ScoredAs(sys, id, m.outcome);
  }

  lemma {:induction false} LeagueKept(sys: Sys, next: Sys, l: nat)
    requires KeepsLeagues(sys, next) && l in sys.seasons
    ensures l in next.seasons && SameLeague(sys.seasons[l], next.seasons[l])
  {
    hide SameLeague;
  }

  lemma {:induction false} HeldOutcome(s: Season, m: Match)
    requires m in s.matches
    ensures Holds(s, m.id, m.outcome)
  {
  }

  lemma {:induction false} SameLeagueBack(s: Season, t: Season, id: nat, o: Outcome)
    requires SameLeague(s, t) && Holds(t, id, o)
    ensures exists m :: m in s.matches && m.id == id
  {
    SameFixtures(s.matches, t.matches);
    var m :| m in t.matches && m.id == id && m.outcome == o;
    var i :| 0 <= i < |t.matches| && t.matches[i] == m;
    assert s.matches[i].(outcome := Scheduled) == t.matches[i].(outcome := Scheduled);
    assert s.matches[i] in s.matches;
  }

  /** A league that a step adds has no result. */
  lemma {:induction false} OnlyCreatedIsNew(sys: Sys, op: Op, env: Env, l: nat, id: nat, o: Outcome)
    requires l !in sys.seasons && l in Next(sys, op, env).seasons && o.Played?
    ensures !Holds(Next(sys, op, env).seasons[l], id, o)
  {
    hide SeasonOps.PlayWeek, SeasonOps.PlayAll, SeasonOps.Reset, SeasonOps.Recalculate, NewSeason, EditMatch, RosterIn,
         ResolveTeamIDs;
    if op.CreateLeague? && Apply(sys, op, env).Ok? { CreatedFresh(sys, op.name, op.teamIds, op.seed, env); }
  }

  /** The last moment at which the match was not PLAYED. */
  lemma {:induction false} LastUnscored(start: Sys, ops: seq<Op>, env: Env, id: nat, n: nat) returns (k: nat)
    requires start.seasons == map[] && n <= |ops| && IsScored(Run(start, ops[..n], env), id)
    ensures k < n && !IsScored(Run(start, ops[..k], env), id)
    ensures forall i :: k < i <= n ==> IsScored(Run(start, ops[..i], env), id)
    decreases n
  {
    assert !IsScored(start, id);
    hide Next, IsScored;
    assert ops[..0] == [];
    if IsScored(Run(start, ops[..n - 1], env), id) { k := LastUnscored(start, ops, env, id, n - 1); }
    else { k := n - 1; }
  }

  /**
   * In every run from a catalog of teams, whatever match is PLAYED at the end got its first score from the simulator,
   * in step k, a PlayWeek or PlayAll of its league that wrote no audit; it has been PLAYED ever since, and the audit
   * entries written for it since then lead from that score to the one it has now.
   */
  lemma {:induction false} EveryScoreExplained(start: Sys, ops: seq<Op>, env: Env, id: nat, o: Outcome)
    returns (k: nat, l: nat, first: Outcome)
    requires Initial(start) && ScoredAs(Run(start, ops, env), id, o)
    ensures k < |ops| && (ops[k] == System.PlayWeek(l) || ops[k] == System.PlayAll(l))
    ensures var before, after, end := Run(start, ops[..k], env), Run(start, ops[..k + 1], env), Run(start, ops, env);
            && l in before.seasons && Holds(before.seasons[l], id, Scheduled)
            && FromChain(before.seasons[l], RosterIn(before, l), env, id, first)
            && ScoredAs(after, id, first) && after.audits == before.audits
            && (forall i :: k < i <= |ops| ==> IsScored(Run(start, ops[..i], env), id))
            && before.audits <= end.audits
            && Chain(EntriesFor(end.audits[|before.audits|..], id), first, o)
  {
    hide Valid, ScoredAs, Next, Chain, Holds, WouldScore, FromChain, Initial, RosterIn, Run, InOrder, IdsIncreasing;
    assert ops[..|ops|] == ops;
    assert IsScored(Run(start, ops, env), id);
    assert start.seasons == map[] && Valid(start) by { StartsEmpty(start); }
    k := LastUnscored(start, ops, env, id, |ops|);
    var before, after := Run(start, ops[..k], env), Run(start, ops[..k + 1], env);
    RunKeeps(start, ops[..k], env);
    RunKeeps(start, ops[..k + 1], env);
    assert after == Next(before, ops[k], env) by { LastOp(start, ops, k, env); }
    first :| ScoredAs(after, id, first);
    l := ScoredFromScheduled(before, ops[k], env, id, first);
    FirstResultIsSimulated(before, ops[k], env, l, id, first);
    SeasonIds(before, l);
    WouldScoreIsChain(before.seasons[l], RosterIn(before, l), env, id, first);
    var rest := ops[k + 1..];
    forall i | 0 <= i <= |rest| ensures Run(after, rest[..i], env) == Run(start, ops[..k + 1 + i], env) {
      assert ops[..k + 1 + i] == ops[..k + 1] + rest[..i];
      RunAppend(start, ops[..k + 1], rest[..i], env);
    }
    assert rest[..|rest|] == rest && ops[..k + 1 + |rest|] == ops;
    AuditChain(after, rest, env, id, first, o);
  }

  lemma {:induction false} StartsEmpty(start: Sys)
    requires Initial(start)
    ensures start.seasons == map[] && Valid(start)
  {
    InitialIsValid(start);
  }

  lemma {:induction false} LastOp(start: Sys, ops: seq<Op>, k: nat, env: Env)
    requires k < |ops|
    ensures Run(start, ops[..k + 1], env) == Next(Run(start, ops[..k], env), ops[k], env)
  {
    hide Next;
    assert ops[..k + 1][..k] == ops[..k];
  }
}
