/** No week is simulated twice without a Reset between: from single statements to committed operations. */
module WeeksOnce {
  import opened Seqs
  import opened Domain
  import opened Standings
  import opened SeasonOps
  import opened Concurrency
  import opened ConcurrencyLaws
  import opened Interleavings

  // ----- where a playing transaction stands

  predicate PlaysWeeks(pc: Pc) {
    match pc
    case NextWeek(_, _) => true
    case Scoring(_, _, _, _, _) => true
    case Tabling(_, _) => true
    case Advancing(_, _) => true
    case Opening(_, _, after) => PlaysWeeks(after)
    case Emptying(_, _, after) => PlaysWeeks(after)
    case Filling(_, _, after) => PlaysWeeks(after)
    case _ => false
  }

  /** The week at hand lies after week c. */
  predicate Beyond(pc: Pc, c: nat) {
    match pc
    case NextWeek(week, _) => week > c
    case Scoring(week, _, _, _, _) => week > c
    case Tabling(week, _) => week > c
    case Advancing(week, _) => week > c
    case Opening(_, _, after) => Beyond(after, c)
    case Emptying(_, _, after) => Beyond(after, c)
    case Filling(_, _, after) => Beyond(after, c)
    case _ => true
  }

  /** The transaction has the week behind it, or at hand: it cannot commit without it. */
  predicate Covers(pc: Pc, current: nat, week: nat) {
    match pc
    case NextWeek(k, _) => week < k && week <= current
    case Scoring(k, _, _, _, _) => week <= k
    case Tabling(k, _) => week <= k
    case Advancing(k, _) => week <= k
    case Opening(_, _, after) => Covers(after, current, week)
    case Emptying(_, _, after) => Covers(after, current, week)
    case Filling(_, _, after) => Covers(after, current, week)
    case Committing => week <= current
    case Refused(_) => true
    case _ => false
  }

  lemma {:induction false} StatementForward(pc: Pc, league: League, sh: Shared, roster: seq<Team>, env: Env, c: nat)
    ensures var e := Statement(pc, league, sh, roster, env);
            (PlaysWeeks(e.pc) ==> PlaysWeeks(pc)) && (Beyond(pc, c) ==> Beyond(e.pc, c))
  {
    hide Table, TableThrough, Stored, Filter, ListByLeague, ById;
    if pc.Rebuilding? {
      var next := Rebuilding(pc.week + 1, pc.last, pc.all);
      assert !PlaysWeeks(next) && Beyond(next, c);
    } else if pc.Tabling? {
      assert Beyond(Advancing(pc.week, pc.last), c) <==> pc.week > c;
    }
  }

  lemma {:induction false} StatementCovers(pc: Pc, league: League, sh: Shared, roster: seq<Team>, env: Env, week: nat)
    requires Covers(pc, sh.season.league.currentWeek, week)
    ensures var e := Statement(pc, league, sh, roster, env);
            Covers(e.pc, View(sh, e.writes).season.league.currentWeek, week)
  {
    hide Table, TableThrough, Stored, Filter, ListByLeague, ById, Record, View;
    var e := Statement(pc, league, sh, roster, env);
    ViewUnfolds(sh, [], if e.writes == [] then ClearScores else e.writes[0]);
    if pc.Tabling? { assert Covers(Advancing(pc.week, pc.last), sh.season.league.currentWeek, week); }
  }

  // ----- the holder's week is a new one

  /** The holder works on weeks after the committed one, and only a play operation works on weeks. */
  ghost predicate HolderBeyond(w: World) {
    w.holder.Some? && w.holder.value < |w.txns| && w.txns[w.holder.value].Running? ==>
      var t := w.txns[w.holder.value];
      && Beyond(t.pc, w.committed.season.league.currentWeek)
      && (PlaysWeeks(t.pc) ==> t.action.PlayWeek? || t.action.PlayAll?)
  }

  lemma {:induction false} StartedBeyond(a: Action, league: League)
    ensures Beyond(Started(a, league), league.currentWeek)
    ensures PlaysWeeks(Started(a, league)) ==> a.PlayWeek? || a.PlayAll?
  {
  }

  lemma {:induction false} MoveBeyond(w: World, move: Move, roster: seq<Team>, env: Env)
    requires LockDiscipline(w) && HolderBeyond(w)
    ensures HolderBeyond(Moved(w, move, roster, env))
  {
    hide Statement, View, Started, Begun, Beyond, PlaysWeeks;
    if move.i < |w.txns| {
      var t := w.txns[move.i];
      if move.Acquire? && t.Waiting? { StartedBeyond(t.action, w.committed.season.league); }
      if move.Run? && t.Running? {
        StatementForward(t.pc, t.league, View(w.committed, t.log), roster, env, w.committed.season.league.currentWeek);
      }
      if move.Begin? && t.Unstarted? { BegunServes(t.job, w.committed); }
    }
  }

  lemma {:induction false} ScheduleBeyond(start: Shared, jobs: seq<Job>, moves: seq<Move>, roster: seq<Team>, env: Env)
    ensures HolderBeyond(Interleaved(Opened(start, jobs), moves, roster, env))
  {
    hide Moved, HolderBeyond, LockDiscipline, JobsServed, SerialSoFar, HolderOnTrack;
    if moves == [] {
      assert HolderBeyond(Opened(start, jobs)) by { NobodyHolds(start, jobs); }
    } else {
      ScheduleBeyond(start, jobs, moves[..|moves| - 1], roster, env);
      ScheduleOrderly(start, jobs, moves[..|moves| - 1], roster, env);
      MoveBeyond(Interleaved(Opened(start, jobs), moves[..|moves| - 1], roster, env), moves[|moves| - 1], roster, env);
    }
  }

  lemma {:induction false} NobodyHolds(start: Shared, jobs: seq<Job>)
    ensures HolderBeyond(Opened(start, jobs))
  {
  }

  // ----- what a tenure of the lock that works on a week comes to

  /** Tenure n of the lock, held by i on rows c, still has the week in hand or behind it. */
  ghost predicate InTenure(w: World, i: nat, n: nat, c: Shared, week: nat) {
    && i < |w.txns| && w.txns[i].Running? && |w.history| == n && w.committed == c
    && Covers(w.txns[i].pc, View(c, w.txns[i].log).season.league.currentWeek, week)
  }

  /** Tenure n is over; if it committed, the league is past the week. */
  ghost predicate TenureOver(start: Shared, w: World, i: nat, n: nat, week: nat, roster: seq<Team>, env: Env) {
    && n < |w.history| && w.history[n].txn == i
    && (w.history[n].ending.Committed? ==> week <= WeekAt(start, w.history, n + 1, roster, env))
  }

  lemma {:induction false} TenureStep(start: Shared, jobs: seq<Job>, w: World, move: Move, i: nat, n: nat, c: Shared,
                                      week: nat, roster: seq<Team>, env: Env)
    requires Orderly(start, jobs, w, roster, env) && Orderly(start, jobs, Moved(w, move, roster, env), roster, env)
    requires InTenure(w, i, n, c, week)
    ensures var w' := Moved(w, move, roster, env);
            InTenure(w', i, n, c, week) || TenureOver(start, w', i, n, week, roster, env)
  {
    hide Statement, View, Started, Begun, Serial, Covers, HolderOnTrack, JobsServed, EndsAs, Atomic;
    var w', t := Moved(w, move, roster, env), w.txns[i];
    assert w.holder == Some(i);
    if move == Run(i) {
      var sh := View(c, t.log);
      StatementCovers(t.pc, t.league, sh, roster, env, week);
      OneWriteAtMost(t.pc, t.league, sh, roster, env);
      var e := Statement(t.pc, t.league, sh, roster, env);
      if e.writes == [] {
        assert t.log + [] == t.log;
        ViewUnfolds(sh, [], ClearScores);
      } else {
        ViewUnfolds(sh, [], e.writes[0]);
        ViewUnfolds(c, t.log, e.writes[0]);
      }
    } else if move == Finish(i) && t.pc.Committing? {
      CoversAtCommit(t.pc, View(c, t.log).season.league.currentWeek, week);
      assert w'.history[..n + 1] == w'.history;
    }
  }

  lemma {:induction false} CoversAtCommit(pc: Pc, current: nat, week: nat)
    requires pc.Committing? && Covers(pc, current, week)
    ensures week <= current
  {
  }

  lemma {:induction false} OverStays(start: Shared, w: World, move: Move, i: nat, n: nat, week: nat, roster: seq<Team>,
                                     env: Env)
    requires TenureOver(start, w, i, n, week, roster, env)
    ensures TenureOver(start, Moved(w, move, roster, env), i, n, week, roster, env)
  {
    hide Statement, View, Started, Begun, Serial;
    var w' := Moved(w, move, roster, env);
    assert w'.history[..n + 1] == w.history[..n + 1];
  }

  lemma {:induction false} TenureRuns(start: Shared, jobs: seq<Job>, moves: seq<Move>, more: seq<Move>, i: nat, n: nat,
                                      c: Shared, week: nat, roster: seq<Team>, env: Env)
    requires InTenure(Interleaved(Opened(start, jobs), moves, roster, env), i, n, c, week)
    ensures var w' := Interleaved(Opened(start, jobs), moves + more, roster, env);
            InTenure(w', i, n, c, week) || TenureOver(start, w', i, n, week, roster, env)
    decreases |more|
  {
    hide Moved, InTenure, TenureOver, Orderly;
    if more == [] {
      assert moves + more == moves;
    } else {
      var init := more[..|more| - 1];
      TenureRuns(start, jobs, moves, init, i, n, c, week, roster, env);
      var w := Interleaved(Opened(start, jobs), moves + init, roster, env);
      assert (moves + more)[..|moves + more| - 1] == moves + init;
      ScheduleOrderly(start, jobs, moves + init, roster, env);
      ScheduleOrderly(start, jobs, moves + more, roster, env);
      if InTenure(w, i, n, c, week) {
        TenureStep(start, jobs, w, more[|more| - 1], i, n, c, week, roster, env);
      } else {
        OverStays(start, w, more[|more| - 1], i, n, week, roster, env);
      }
    }
  }

  /** At this moment transaction i, in its tenure n of the lock, scores matches of the week. */
  ghost predicate SeenScoring(w: World, i: nat, n: nat, week: nat) {
    i < |w.txns| && w.txns[i].Running? && w.txns[i].pc.Scoring? && w.txns[i].pc.week == week && |w.history| == n
  }

  /** A transaction seen scoring a week that later commits has, in the serial run, taken the league past that week. */
  lemma {:induction false} ScoringSimulates(start: Shared, jobs: seq<Job>, moves: seq<Move>, more: seq<Move>, i: nat,
                                            n: nat, week: nat, roster: seq<Team>, env: Env)
    requires SeenScoring(Interleaved(Opened(start, jobs), moves, roster, env), i, n, week)
    requires var h := Interleaved(Opened(start, jobs), moves + more, roster, env).history;
             n < |h| && h[n].ending.Committed?
    ensures var h := Interleaved(Opened(start, jobs), moves + more, roster, env).history;
            h[n].txn == i && Simulates(start, h, n, week, roster, env)
  {
    hide Interleaved, Serial, View, Atomic, EndsAs, HolderOnTrack;
    var w := Interleaved(Opened(start, jobs), moves, roster, env);
    var w' := Interleaved(Opened(start, jobs), moves + more, roster, env);
    ScheduleOrderly(start, jobs, moves, roster, env);
    ScheduleOrderly(start, jobs, moves + more, roster, env);
    ScheduleBeyond(start, jobs, moves, roster, env);
    assert w.holder == Some(i);
    assert InTenure(w, i, n, w.committed, week);
    TenureRuns(start, jobs, moves, more, i, n, w.committed, week, roster, env);
    ScheduleAppend(Opened(start, jobs), moves, more, roster, env);
    HistoryGrows(w, more, roster, env);
    assert w'.history[..n] == w.history;
    TenureAction(start, jobs, moves, more, i, n, roster, env);
  }

  /** The entry of a tenure carries the action the transaction had all along. */
  lemma {:induction false} TenureAction(start: Shared, jobs: seq<Job>, moves: seq<Move>, more: seq<Move>, i: nat,
                                        n: nat, roster: seq<Team>, env: Env)
    requires var w := Interleaved(Opened(start, jobs), moves, roster, env);
             i < |w.txns| && w.txns[i].Running? && |w.history| == n
    ensures var w := Interleaved(Opened(start, jobs), moves, roster, env);
            var w' := Interleaved(Opened(start, jobs), moves + more, roster, env);
            && i < |w'.txns|
            && (|w'.history| == n ==> w'.txns[i].Running? && w'.txns[i].action == w.txns[i].action)
            && (|w'.history| > n ==> w'.history[n].action == w.txns[i].action)
    decreases |more|
  {
    hide Statement, View, Started, Begun, JobsServed, SerialSoFar, HolderOnTrack, Interleaved;
    if more == [] {
      assert moves + more == moves;
    } else {
      var init := more[..|more| - 1];
      assert moves + more == (moves + init) + [more[|more| - 1]];
      LastMove(Opened(start, jobs), moves + init, more[|more| - 1], roster, env);
      TenureAction(start, jobs, moves, init, i, n, roster, env);
      assert (moves + more)[..|moves + more| - 1] == moves + init;
      ScheduleOrderly(start, jobs, moves + init, roster, env);
      ScheduleAppend(Opened(start, jobs), moves, init, roster, env);
      HistoryGrows(Interleaved(Opened(start, jobs), moves, roster, env), init, roster, env);
    }
  }

  /** If two tenures of the lock were both seen scoring the same week and both committed, a Reset committed between
      them. */
  lemma {:induction false} WeekScoredOnce(start: Shared, jobs: seq<Job>, first: seq<Move>, then_: seq<Move>,
                                          rest: seq<Move>, i: nat, j: nat, n: nat, m: nat, week: nat, roster: seq<Team>,
                                          env: Env)
    requires SeenScoring(Interleaved(Opened(start, jobs), first, roster, env), i, n, week)
    requires SeenScoring(Interleaved(Opened(start, jobs), first + then_, roster, env), j, m, week)
    requires n < m
    requires var h := Interleaved(Opened(start, jobs), first + then_ + rest, roster, env).history;
             m < |h| && h[n].ending.Committed? && h[m].ending.Committed?
    ensures var h := Interleaved(Opened(start, jobs), first + then_ + rest, roster, env).history;
            exists r :: n < r < m && h[r].ending.Committed? && h[r].action.Reset?
  {
    hide Interleaved, ConcurrencyLaws.Simulates;
    assert first + then_ + rest == first + (then_ + rest);
    ScoringSimulates(start, jobs, first, then_ + rest, i, n, week, roster, env);
    ScoringSimulates(start, jobs, first + then_, rest, j, m, week, roster, env);
    var h := Interleaved(Opened(start, jobs), first + then_ + rest, roster, env).history;
    NoWeekTwice(start, h, n, m, week, roster, env);
  }

  // ----- within one tenure

  /** The transaction is past the week, or in it at position j of its matches or later. */
  predicate NotBefore(pc: Pc, week: nat, j: nat) {
    match pc
    case NextWeek(k, _) => week < k
    case Scoring(k, _, _, i, _) => week < k || (week == k && j <= i)
    case Tabling(k, _) => week <= k
    case Advancing(k, _) => week <= k
    case Opening(_, _, after) => NotBefore(after, week, j)
    case Emptying(_, _, after) => NotBefore(after, week, j)
    case Filling(_, _, after) => NotBefore(after, week, j)
    case Committing => true
    case Refused(_) => true
    case _ => false
  }

  lemma {:induction false} StatementMovesOn(pc: Pc, league: League, sh: Shared, roster: seq<Team>, env: Env, week: nat,
                                            j: nat)
    requires NotBefore(pc, week, j)
    ensures NotBefore(Statement(pc, league, sh, roster, env).pc, week, j)
  {
    hide Table, TableThrough, Stored, Filter, ListByLeague, ById;
    if pc.Tabling? { assert NotBefore(Advancing(pc.week, pc.last), week, j); }
  }

  lemma {:induction false} TenureMovesOn(w: World, moves: seq<Move>, i: nat, week: nat, j: nat, roster: seq<Team>,
                                         env: Env)
    requires i < |w.txns| && w.txns[i].Running? && NotBefore(w.txns[i].pc, week, j)
    ensures var w' := Interleaved(w, moves, roster, env);
            && |w'.history| >= |w.history| && i < |w'.txns|
            && (|w'.history| == |w.history| ==> w'.txns[i].Running? && NotBefore(w'.txns[i].pc, week, j))
  {
    hide Statement, View, Started, Begun, NotBefore;
    if moves != [] {
      var init, move := moves[..|moves| - 1], moves[|moves| - 1];
      TenureMovesOn(w, init, i, week, j, roster, env);
      var mid := Interleaved(w, init, roster, env);
      OneEntryAtMost(mid, move, roster, env);
      if move == Run(i) && |mid.history| == |w.history| {
        var t := mid.txns[i];
        StatementMovesOn(t.pc, t.league, View(mid.committed, t.log), roster, env, week, j);
      }
    }
  }

  /** A tenure never scores a match again: after the statement that scores match j of a week, the same tenure is only
      ever seen scoring later matches of that week, or later weeks. */
  lemma {:induction false} NoMatchTwice(start: Shared, jobs: seq<Job>, moves: seq<Move>, more: seq<Move>, i: nat,
                                        n: nat, week: nat, roster: seq<Team>, env: Env)
    requires SeenScoring(Interleaved(Opened(start, jobs), moves, roster, env), i, n, week)
    requires var pc := Interleaved(Opened(start, jobs), moves, roster, env).txns[i].pc; pc.j < |pc.list|
    requires var w' := Interleaved(Opened(start, jobs), moves + [Run(i)] + more, roster, env);
             |w'.history| == n && i < |w'.txns| && w'.txns[i].Running? && w'.txns[i].pc.Scoring?
    ensures var pc := Interleaved(Opened(start, jobs), moves, roster, env).txns[i].pc;
            var pc' := Interleaved(Opened(start, jobs), moves + [Run(i)] + more, roster, env).txns[i].pc;
            week < pc'.week || (week == pc'.week && pc.j < pc'.j)
  {
    hide Interleaved, View;
    var w := Interleaved(Opened(start, jobs), moves, roster, env);
    LastMove(Opened(start, jobs), moves, Run(i), roster, env);
    ScheduleAppend(Opened(start, jobs), moves + [Run(i)], more, roster, env);
    var next := Interleaved(Opened(start, jobs), moves + [Run(i)], roster, env);
    if next.txns[i].pc.Scoring? {
      TenureMovesOn(next, more, i, week, w.txns[i].pc.j + 1, roster, env);
    } else {
      RefusedStays(next, more, i, roster, env);
    }
  }

  lemma {:induction false} RefusedStays(w: World, moves: seq<Move>, i: nat, roster: seq<Team>, env: Env)
    requires i < |w.txns| && w.txns[i].Running? && w.txns[i].pc.Refused?
    ensures var w' := Interleaved(w, moves, roster, env);
            i < |w'.txns| && (w'.txns[i].Ended? || (w'.txns[i].Running? && w'.txns[i].pc.Refused?))
  {
    hide View, Started, Begun, Table, TableThrough, Filter;
    if moves != [] { RefusedStays(w, moves[..|moves| - 1], i, roster, env); }
  }
}
