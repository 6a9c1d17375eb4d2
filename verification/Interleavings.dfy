/** Particular schedules: a holder left alone gives the lock back; an edit overtaken by a Reset. */
module Interleavings {
  import opened Seqs
  import opened Domain
  import opened Standings
  import opened SeasonOps
  import opened SeasonLaws
  import opened Concurrency
  import opened ConcurrencyLaws

  lemma {:induction false} ScheduleFront(w: World, move: Move, moves: seq<Move>, roster: seq<Team>, env: Env)
    ensures Interleaved(w, [move] + moves, roster, env) == Interleaved(Moved(w, move, roster, env), moves, roster, env)
  {
    hide Moved;
    if moves == [] {
      assert ([move] + moves)[..0] == [];
    } else {
      ScheduleFront(w, move, moves[..|moves| - 1], roster, env);
      assert ([move] + moves)[..|moves|] == [move] + moves[..|moves| - 1];
    }
  }

  /** A move adds at most one entry to the history, at its end. */
  lemma {:induction false} OneEntryAtMost(w: World, move: Move, roster: seq<Team>, env: Env)
    ensures w.history <= Moved(w, move, roster, env).history
    ensures |Moved(w, move, roster, env).history| <= |w.history| + 1
  {
    hide Statement, View, Started, Begun;
  }

  lemma {:induction false} HistoryGrows(w: World, moves: seq<Move>, roster: seq<Team>, env: Env)
    ensures w.history <= Interleaved(w, moves, roster, env).history
  {
    hide Moved;
    if moves != [] {
      HistoryGrows(w, moves[..|moves| - 1], roster, env);
      OneEntryAtMost(Interleaved(w, moves[..|moves| - 1], roster, env), moves[|moves| - 1], roster, env);
    }
  }

  /** The moment at which the history was k entries long. */
  lemma {:induction false} MomentOf(w: World, moves: seq<Move>, k: nat, roster: seq<Team>, env: Env) returns (p: nat)
    requires |w.history| <= k <= |Interleaved(w, moves, roster, env).history|
    ensures p <= |moves| &&
            Interleaved(w, moves[..p], roster, env).history == Interleaved(w, moves, roster, env).history[..k]
    decreases |moves|
  {
    hide Moved;
    if k == |Interleaved(w, moves, roster, env).history| {
      p := |moves|;
      assert moves[..p] == moves;
    } else {
      var init := moves[..|moves| - 1];
      OneEntryAtMost(Interleaved(w, init, roster, env), moves[|moves| - 1], roster, env);
      p := MomentOf(w, init, k, roster, env);
      assert moves[..p] == init[..p];
    }
  }

  // ----- a transaction that is left running reaches its end

  /** At most this many statements for k weeks of at most n matches. */
  function Block(k: nat, n: nat): nat {
    if k == 0 then 0 else Block(k - 1, n) + n + 8
  }

  function Span(week: nat, last: nat): nat {
    if week > last then 0 else last + 1 - week
  }

  /** An upper bound on the statements left, in a league of n matches. */
  function Left(pc: Pc, n: nat): nat
    decreases pc
  {
    match pc
    case NextWeek(week, last) => Block(Span(week, last), n) + 1
    case Scoring(week, last, list, j, _) => (if j < |list| then |list| - j else 0) + 7 + Block(Span(week + 1, last), n)
    case Tabling(week, last) => Block(Span(week + 1, last), n) + 6
    case Opening(_, _, after) => Left(after, n) + 3
    case Emptying(_, _, after) => Left(after, n) + 2
    case Filling(_, _, after) => Left(after, n) + 1
    case Advancing(week, last) => Block(Span(week + 1, last), n) + 2
    case Clearing => 3
    case Dropping => 2
    case Rewinding => 1
    case Auditing(seen, _, _, _, last) => Block(Span(AtLeastOne(seen.week), last), n) + 4
    case Recording(seen, _, _, last) => Block(Span(AtLeastOne(seen.week), last), n) + 3
    case Loading(first, last) => Block(Span(AtLeastOne(first), last), n) + 2
    case Rebuilding(week, last, _) => Block(Span(week, last), n) + 1
    case Committing => 0
    case Refused(_) => 0
  }

  lemma {:induction false} FilterShorter(ms: seq<Match>, p: Match -> bool)
    ensures |Filter(ms, p)| <= |ms|
  {
    if ms != [] { FilterShorter(ms[..|ms| - 1], p); }
  }

  lemma {:induction false} StatementShrinks(pc: Pc, league: League, sh: Shared, roster: seq<Team>, env: Env)
    requires !pc.Committing? && !pc.Refused?
    ensures Left(Statement(pc, league, sh, roster, env).pc, |sh.season.matches|) < Left(pc, |sh.season.matches|)
  {
    hide Block, Filter, Table, TableThrough, ListByLeague, Stored, ById, StatusForWeek;
    if pc.NextWeek? && pc.week <= pc.last {
      FilterShorter(sh.season.matches, InWeek(pc.week));
      BlockMore(pc.week, pc.last, |sh.season.matches|);
    } else if pc.Rebuilding? && pc.week <= pc.last {
      BlockMore(pc.week, pc.last, |sh.season.matches|);
    }
  }

  lemma {:induction false} BlockMore(week: nat, last: nat, n: nat)
    requires week <= last
    ensures Block(Span(week, last), n) == Block(Span(week + 1, last), n) + n + 8
  {
  }

  lemma {:induction false} WritesKeepCount(sh: Shared, w: Write)
    ensures |Applied(sh, w).season.matches| == |sh.season.matches|
  {
  }

  /** One more statement of the holder: closer to the end, the same number of matches in sight. */
  lemma {:induction false} HolderRuns(w: World, i: nat, roster: seq<Team>, env: Env)
    requires i < |w.txns| && w.txns[i].Running? && !w.txns[i].pc.Committing? && !w.txns[i].pc.Refused?
    ensures var w' := Moved(w, Run(i), roster, env);
            var n := |View(w.committed, w.txns[i].log).season.matches|;
            && |w'.txns| == |w.txns| && w'.txns[i].Running? && w'.committed == w.committed
            && |View(w'.committed, w'.txns[i].log).season.matches| == n
            && Left(w'.txns[i].pc, n) < Left(w.txns[i].pc, n)
  {
    hide Statement, Left, View, Applied;
    var t := w.txns[i];
    var sh := View(w.committed, t.log);
    StatementShrinks(t.pc, t.league, sh, roster, env);
    OneWriteAtMost(t.pc, t.league, sh, roster, env);
    var e := Statement(t.pc, t.league, sh, roster, env);
    if e.writes == [] {
      assert t.log + [] == t.log;
    } else {
      ViewUnfolds(w.committed, t.log, e.writes[0]);
      WritesKeepCount(sh, e.writes[0]);
    }
  }

  function Statements(i: nat, m: nat): (moves: seq<Move>)
    ensures |moves| == m
  {
    seq(m, _ => Run(i))
  }

  /** Nothing but the one transaction's position and log differs. */
  ghost predicate OnlyRan(w: World, w': World, i: nat)
    requires i < |w.txns| && w.txns[i].Running?
  {
    && i < |w'.txns| && w'.txns[i].Running? && w'.txns[i].action == w.txns[i].action
    && w' == w.(txns := w.txns[i := w'.txns[i]])
  }

  lemma {:induction false} HolderReachesEnd(w: World, i: nat, roster: seq<Team>, env: Env) returns (m: nat)
    requires i < |w.txns| && w.txns[i].Running?
    ensures var w' := Interleaved(w, Statements(i, m), roster, env);
            OnlyRan(w, w', i) && (w'.txns[i].pc.Committing? || w'.txns[i].pc.Refused?)
    decreases Left(w.txns[i].pc, |View(w.committed, w.txns[i].log).season.matches|)
  {
    hide Moved, Left, View;
    if w.txns[i].pc.Committing? || w.txns[i].pc.Refused? {
      m := 0;
    } else {
      HolderRuns(w, i, roster, env);
      var next := Moved(w, Run(i), roster, env);
      assert OnlyRan(w, next, i) by { RanOnce(w, i, roster, env); }
      var rest := HolderReachesEnd(next, i, roster, env);
      m := rest + 1;
      assert Statements(i, m) == [Run(i)] + Statements(i, rest);
      ScheduleFront(w, Run(i), Statements(i, rest), roster, env);
    }
  }

  lemma {:induction false} RanOnce(w: World, i: nat, roster: seq<Team>, env: Env)
    requires i < |w.txns| && w.txns[i].Running?
    ensures OnlyRan(w, Moved(w, Run(i), roster, env), i)
  {
    hide Statement, View;
  }

  /** No deadlock: whoever holds the lock can finish, whatever the others have done, and then the lock is free. */
  lemma {:induction false} LockComesBack(w: World, i: nat, roster: seq<Team>, env: Env) returns (m: nat)
    requires i < |w.txns| && w.txns[i].Running?
    ensures var w' := Interleaved(w, Statements(i, m) + [Finish(i)], roster, env);
            w'.holder.None? && w'.txns == w.txns[i := Ended] && |w'.history| == |w.history| + 1
  {
    m := HolderReachesEnd(w, i, roster, env);
    var moves := Statements(i, m) + [Finish(i)];
    assert moves[..|moves| - 1] == Statements(i, m);
  }

  // ----- an edit that a Reset overtakes

  lemma {:induction false} ScheduleAppend(w: World, a: seq<Move>, b: seq<Move>, roster: seq<Team>, env: Env)
    ensures Interleaved(w, a + b, roster, env) == Interleaved(Interleaved(w, a, roster, env), b, roster, env)
  {
    hide Moved;
    if b == [] {
      assert a + b == a;
    } else {
      ScheduleAppend(w, a, b[..|b| - 1], roster, env);
      assert (a + b)[..|a + b| - 1] == a + b[..|b| - 1];
    }
  }

  /** A holder whose operation succeeds on the committed rows can be run to its commit. */
  lemma {:induction false} HolderCommits(start: Shared, jobs: seq<Job>, moves: seq<Move>, i: nat, roster: seq<Team>,
                                         env: Env) returns (more: seq<Move>)
    requires var w := Interleaved(Opened(start, jobs), moves, roster, env);
             i < |w.txns| && w.txns[i].Running? && Atomic(w.txns[i].action, w.committed, roster, env).Ok?
    ensures var w := Interleaved(Opened(start, jobs), moves, roster, env);
            var w' := Interleaved(Opened(start, jobs), moves + more, roster, env);
            && w'.holder.None? && w'.txns == w.txns[i := Ended]
            && w'.history == w.history + [Entry(i, w.txns[i].action, Committed)]
            && w'.committed == Atomic(w.txns[i].action, w.committed, roster, env).value
  {
    hide Interleaved, Atomic, Statements, View, Outlook, Serial, EndsAs, JobsServed, SerialSoFar, Moved;
    var w := Interleaved(Opened(start, jobs), moves, roster, env);
    var m := HolderReachesEnd(w, i, roster, env);
    ScheduleAppend(Opened(start, jobs), moves, Statements(i, m), roster, env);
    ScheduleOrderly(start, jobs, moves + Statements(i, m), roster, env);
    var w1 := Interleaved(Opened(start, jobs), moves + Statements(i, m), roster, env);
    assert w1.holder == Some(i);
    EndOutlook(w1.txns[i].pc, View(w1.committed, w1.txns[i].log), roster, env);
    more := Statements(i, m) + [Finish(i)];
    assert moves + more == (moves + Statements(i, m)) + [Finish(i)];
    LastMove(Opened(start, jobs), moves + Statements(i, m), Finish(i), roster, env);
    FinishCommits(w1, i, roster, env);
  }

  lemma {:induction false} EndOutlook(pc: Pc, sh: Shared, roster: seq<Team>, env: Env)
    ensures pc.Committing? ==> Outlook(pc, sh, roster, env) == Ok(sh)
    ensures pc.Refused? ==> Outlook(pc, sh, roster, env) == Err(pc.error)
  {
  }

  lemma {:induction false} LastMove(w: World, moves: seq<Move>, move: Move, roster: seq<Team>, env: Env)
    ensures Interleaved(w, moves + [move], roster, env) == Moved(Interleaved(w, moves, roster, env), move, roster, env)
  {
    hide Moved;
    assert (moves + [move])[..|moves|] == moves;
  }

  lemma {:induction false} FinishCommits(w: World, i: nat, roster: seq<Team>, env: Env)
    requires i < |w.txns| && w.txns[i].Running? && w.txns[i].pc.Committing?
    ensures Moved(w, Finish(i), roster, env) == Released(w, i, View(w.committed, w.txns[i].log), Committed)
  {
  }

  /** The edit has read its row, the Reset has the lock. */
  lemma {:induction false} BothBegun(start: Shared, m: Match, homeGoals: nat, awayGoals: nat, reason: string,
                                     roster: seq<Team>, env: Env)
    requires IdsIncreasing(start.season.matches) && m in start.season.matches
    ensures var jobs := [ToEdit(m.id, homeGoals, awayGoals, reason), ToReset];
            var w := Interleaved(Opened(start, jobs), [Begin(0), Begin(1), Acquire(1)], roster, env);
            && w.holder == Some(1) && w.history == [] && w.committed == start
            && |w.txns| == 2 && w.txns[0] == Waiting(Edit(m, homeGoals, awayGoals, reason))
            && w.txns[1].Running? && w.txns[1].action == Reset
  {
    hide Moved, Filter, Started;
    var jobs := [ToEdit(m.id, homeGoals, awayGoals, reason), ToReset];
    var found := Filter(start.season.matches, WithId(m.id));
    assert m in found && found[0] in found;
    var j :| 0 <= j < |start.season.matches| && start.season.matches[j] == m;
    var k :| 0 <= k < |start.season.matches| && start.season.matches[k] == found[0];
    assert j == k;
    var w0 := Opened(start, jobs);
    LastMove(w0, [Begin(0), Begin(1)], Acquire(1), roster, env);
    LastMove(w0, [Begin(0)], Begin(1), roster, env);
    LastMove(w0, [], Begin(0), roster, env);
    assert [Begin(0), Begin(1)] == [Begin(0)] + [Begin(1)] && [Begin(0)] == [] + [Begin(0)];
    assert [Begin(0), Begin(1), Acquire(1)] == [Begin(0), Begin(1)] + [Acquire(1)];
    BeginOne(w0, 0, roster, env);
    var w1 := Moved(w0, Begin(0), roster, env);
    BeginOne(w1, 1, roster, env);
    AcquireOne(Moved(w1, Begin(1), roster, env), 1, roster, env);
  }

  lemma {:induction false} BeginOne(w: World, i: nat, roster: seq<Team>, env: Env)
    requires i < |w.txns| && w.txns[i].Unstarted?
    ensures Moved(w, Begin(i), roster, env) == w.(txns := w.txns[i := Begun(w.txns[i].job, w.committed)])
  {
  }

  lemma {:induction false} AcquireOne(w: World, i: nat, roster: seq<Team>, env: Env)
    requires i < |w.txns| && w.txns[i].Waiting? && w.holder.None?
    ensures var w' := Moved(w, Acquire(i), roster, env);
            && w'.holder == Some(i) && w'.history == w.history && w'.committed == w.committed
            && |w'.txns| == |w.txns| && w'.txns[i].Running? && w'.txns[i].action == w.txns[i].action
            && forall k :: 0 <= k < |w.txns| && k != i ==> w'.txns[k] == w.txns[k]
  {
    hide Started;
  }

  function AfterOrUnchanged(sh: Shared, r: Result<Shared>): Shared {
    match r case Ok(after) => after case Err(_) => sh
  }

  /** The edit and the Reset, one after the other in either order. */
  ghost predicate SerialEnd(end: Shared, start: Shared, edit: Action, roster: seq<Team>, env: Env)
    requires edit.Edit?
  {
    || (exists mid :: Atomic(edit, start, roster, env) == Ok(mid) && Atomic(Reset, mid, roster, env) == Ok(end))
    || (exists mid, x :: Atomic(Reset, start, roster, env) == Ok(mid) && x in mid.season.matches && x.id == edit.seen.id
                         && end == AfterOrUnchanged(mid, Atomic(edit.(seen := x), mid, roster, env)))
  }

  /** UpdateResult is not serialisable: an edit that read its match before a Reset and gets the lock after it leaves a
      PLAYED match in a league at week 0, which neither order of the two operations does. */
  lemma {:induction false} OvertakenEdit(start: Shared, m: Match, homeGoals: nat, awayGoals: nat, reason: string,
                                         roster: seq<Team>, env: Env)
    returns (moves: seq<Move>)
    requires IdsIncreasing(start.season.matches) && m in start.season.matches && m.outcome.Played?
    ensures var edit := Edit(m, homeGoals, awayGoals, reason);
            var jobs := [ToEdit(m.id, homeGoals, awayGoals, reason), ToReset];
            var w := Interleaved(Opened(start, jobs), moves, roster, env);
            && w.holder.None? && w.txns == [Ended, Ended]
            && w.history == [Entry(1, Reset, Committed), Entry(0, edit, Committed)]
            && w.committed.season.league.currentWeek == 0
            && (exists x ::
                  x in w.committed.season.matches && x.id == m.id && x.outcome == Played(homeGoals, awayGoals))
            && !SerialEnd(w.committed, start, edit, roster, env)
  {
    hide Interleaved, Moved, Atomic, Started, SerialEnd, IdsIncreasing, Released;
    var edit := Edit(m, homeGoals, awayGoals, reason);
    var jobs := [ToEdit(m.id, homeGoals, awayGoals, reason), ToReset];
    var w0 := Opened(start, jobs);
    moves := [Begin(0), Begin(1), Acquire(1)];
    BothBegun(start, m, homeGoals, awayGoals, reason, roster, env);
    AtomicReset(start, roster, env);
    var more := HolderCommits(start, jobs, moves, 1, roster, env);
    moves := moves + more;
    var w1 := Interleaved(w0, moves, roster, env);
    assert w1.txns[0] == Waiting(edit);
    LastMove(w0, moves, Acquire(0), roster, env);
    AcquireOne(w1, 0, roster, env);
    moves := moves + [Acquire(0)];
    EditSucceeds(edit, w1.committed, roster, env);
    more := HolderCommits(start, jobs, moves, 0, roster, env);
    moves := moves + more;
    EditedAfterReset(start, m, homeGoals, awayGoals, reason, roster, env);
  }

  lemma {:induction false} AtomicReset(start: Shared, roster: seq<Team>, env: Env)
    ensures Atomic(Reset, start, roster, env) == Ok(start.(season := SeasonOps.Reset(start.season)))
  {
  }

  lemma {:induction false} EditSucceeds(edit: Action, sh: Shared, roster: seq<Team>, env: Env)
    requires edit.Edit? && edit.seen.outcome.Played?
    ensures Atomic(edit, sh, roster, env).Ok?
  {
  }

  ghost predicate NonePlayed(sh: Shared) {
    forall x :: x in sh.season.matches ==> x.outcome.Scheduled?
  }

  lemma {:induction false} SerialEndsClear(end: Shared, start: Shared, edit: Action, roster: seq<Team>, env: Env)
    requires edit.Edit? && SerialEnd(end, start, edit, roster, env)
    ensures NonePlayed(end)
  {
    if mid :| Atomic(edit, start, roster, env) == Ok(mid) && Atomic(Reset, mid, roster, env) == Ok(end) {
    } else {
    }
  }

  lemma {:induction false} EditedAfterReset(start: Shared, m: Match, homeGoals: nat, awayGoals: nat, reason: string,
                                            roster: seq<Team>, env: Env)
    requires m in start.season.matches && m.outcome.Played?
    ensures var edit, mid := Edit(m, homeGoals, awayGoals, reason), Atomic(Reset, start, roster, env).value;
            Atomic(edit, mid, roster, env).Ok? &&
            var end := Atomic(edit, mid, roster, env).value;
            && end.season.league.currentWeek == 0
            && (exists x :: x in end.season.matches && x.id == m.id && x.outcome == Played(homeGoals, awayGoals))
            && !SerialEnd(end, start, edit, roster, env)
  {
    hide Rebuilt, ListByLeague, SerialEnd;
    var edit, mid := Edit(m, homeGoals, awayGoals, reason), Atomic(Reset, start, roster, env).value;
    var end := Atomic(edit, mid, roster, env).value;
    var i :| 0 <= i < |start.season.matches| && start.season.matches[i] == m;
    var x := end.season.matches[i];
    assert x in end.season.matches && x.id == m.id && x.outcome == Played(homeGoals, awayGoals);
    if SerialEnd(end, start, edit, roster, env) { SerialEndsClear(end, start, edit, roster, env); }
  }
}
