/** Any interleaving is a serial run in lock order; what the unlocked read of an edit costs. */
module ConcurrencyLaws {
  import opened Seqs
  import opened Domain
  import opened Standings
  import opened Trials
  import opened SeasonOps
  import opened SeasonLaws
  import Tables
  import opened Concurrency

  // ----- the rest of a transaction as one function of what it sees

  /** The matches from position j of the list on, scored one after the other. */
  function ScoreRest(ms: seq<Match>, list: seq<Match>, byId: map<nat, Team>, sim: Simulator, rng: Rng, j: nat)
    : Result<seq<Match>>
    decreases |list| - j
  {
    if j >= |list| then Ok(ms)
    else if list[j].home !in byId || list[j].away !in byId then Err(Internal)
    else
      var g := sim(byId[list[j].home], byId[list[j].away], rng);
      ScoreRest(Record(ms, map[list[j].id := Played(g.homeGoals, g.awayGoals)]), list, byId, sim, g.rng, j + 1)
  }

  function AfterScoring(s: Season, scored: Result<seq<Match>>, roster: seq<Team>, env: Env, week: nat, last: nat)
    : Result<Season> {
    match scored
    case Err(e) => Err(e)
    case Ok(ms) => PlayWeeks(AdvanceAndSnapshot(s.(matches := ms), roster, week), roster, env, week + 1, last)
  }

  function Saved(sh: Shared, week: nat, rows: seq<SnapshotRow>): Shared {
    sh.(season := sh.season.(snapshots := sh.season.snapshots[week := rows]))
  }

  function RebuiltIn(sh: Shared, roster: seq<Team>, all: seq<Match>, first: nat, last: nat): Shared {
    sh.(season := sh.season.(snapshots := Rebuilt(sh.season.snapshots, roster, all, first, last)))
  }

  function AtLeastOne(week: nat): nat { if week < 1 then 1 else week }

  /** What the transaction would commit if it ran on from here alone. */
  function Outlook(pc: Pc, sh: Shared, roster: seq<Team>, env: Env): Result<Shared>
    decreases pc
  {
    var s := sh.season;
    match pc
    case NextWeek(week, last) => InShared(sh, PlayWeeks(s, roster, env, week, last))
    case Scoring(week, last, list, j, rng) =>
      InShared(sh, AfterScoring(s, ScoreRest(s.matches, list, ById(roster), env.simulate, rng, j),
                               roster, env, week, last))
    case Tabling(week, last) => InShared(sh, AfterScoring(s, Ok(s.matches), roster, env, week, last))
    case Opening(week, rows, after) => Outlook(after, Saved(sh, week, Stored(rows)), roster, env)
    case Emptying(week, rows, after) => Outlook(after, Saved(sh, week, Stored(rows)), roster, env)
    case Filling(week, rows, after) =>
      Outlook(after, Saved(sh, week, RowsFor(s.snapshots, week) + Stored(rows)), roster, env)
    case Advancing(week, last) =>
      InShared(sh, PlayWeeks(s.(league := s.league.
                                      (currentWeek := week, status := StatusForWeek(week, s.league.totalWeeks))),
                         roster, env, week + 1, last))
    case Clearing => Ok(sh.(season := SeasonOps.Reset(s)))
    case Dropping => Ok(sh.(season := SeasonOps.Reset(s).(matches := s.matches)))
    case Rewinding => Ok(sh.(season := s.(league := s.league.(currentWeek := 0, status := NotStarted))))
    case Auditing(seen, homeGoals, awayGoals, reason, last) =>
      if seen.outcome.Scheduled? then Err(Conflict)
      else
        var logged := sh.(audits := sh.audits + [AuditOf(seen, homeGoals, awayGoals, reason)]);
        var t := logged.(season := Edited(s, seen, homeGoals, awayGoals));
        Ok(RebuiltIn(t, roster, ListByLeague(t.season.matches), AtLeastOne(seen.week), last))
    case Recording(seen, homeGoals, awayGoals, last) =>
      var t := sh.(season := Edited(s, seen, homeGoals, awayGoals));
      Ok(RebuiltIn(t, roster, ListByLeague(t.season.matches), AtLeastOne(seen.week), last))
    case Loading(first, last) => Ok(RebuiltIn(sh, roster, ListByLeague(s.matches), AtLeastOne(first), last))
    case Rebuilding(week, last, all) => Ok(RebuiltIn(sh, roster, all, week, last))
    case Committing => Ok(sh)
    case Refused(e) => Err(e)
  }

  /** The fields of the locked row no statement changes. */
  predicate SameLeagueRow(league: League, sh: Shared) {
    league.seed == sh.season.league.seed && league.totalWeeks == sh.season.league.totalWeeks
  }

  // ----- one statement changes nothing of the outlook

  lemma {:induction false} ScoredInOrder(ms: seq<Match>, list: seq<Match>, byId: map<nat, Team>, sim: Simulator,
                                         start: Rng, j: nat)
    requires j <= |list| && Resolvable(list[..j], byId)
    ensures ScoreRest(Record(ms, Scores(list, byId, sim, start, j)), list, byId, sim,
                      RngAt(list, byId, sim, start, j), j) ==
            if Resolvable(list, byId) then Ok(Record(ms, Scores(list, byId, sim, start, |list|))) else Err(Internal)
    decreases |list| - j
  {
    hide Record;
    if j == |list| {
      assert list[..j] == list;
    } else if list[j].home in byId && list[j].away in byId {
      var o := OutcomeAt(list, byId, sim, start, j);
      Tables.RecordedMore(ms, Scores(list, byId, sim, start, j), list[j].id, o);
      assert list[..j + 1] == list[..j] + [list[j]];
      ScoredInOrder(ms, list, byId, sim, start, j + 1);
    }
  }

  lemma {:induction false} NothingRecorded(ms: seq<Match>)
    ensures Record(ms, map[]) == ms
  {
  }

  /** Scoring the list match by match and then tabling is playing the week. */
  lemma {:induction false} WeekByStatements(s: Season, roster: seq<Team>, env: Env, week: nat, last: nat)
    requires week <= last
    ensures var list := Filter(s.matches, InWeek(week));
            var rest := ScoreRest(s.matches, list, ById(roster), env.simulate, env.weekRng(s.league.seed, week), 0);
            AfterScoring(s, rest, roster, env, week, last) == PlayWeeks(s, roster, env, week, last)
  {
    hide Record, Scores, ScoreRest, AdvanceAndSnapshot, Resolvable;
    var list, start := Filter(s.matches, InWeek(week)), env.weekRng(s.league.seed, week);
    NothingRecorded(s.matches);
    assert Resolvable(list[..0], ById(roster)) by { NoneToResolve(list[..0], ById(roster)); }
    assert Scores(list, ById(roster), env.simulate, start, 0) == map[]
    by { NoScores(list, ById(roster), env.simulate, start); }
    ScoredInOrder(s.matches, list, ById(roster), env.simulate, start, 0);
  }

  lemma {:induction false} NoneToResolve(list: seq<Match>, byId: map<nat, Team>)
    requires list == []
    ensures Resolvable(list, byId)
  {
  }

  lemma {:induction false} NoScores(list: seq<Match>, byId: map<nat, Team>, sim: Simulator, start: Rng)
    ensures Scores(list, byId, sim, start, 0) == map[]
  {
  }

  lemma {:induction false} ViewUnfolds(sh: Shared, log: seq<Write>, w: Write)
    ensures View(sh, []) == sh
    ensures View(sh, log + [w]) == Applied(View(sh, log), w)
    ensures View(sh, [w]) == Applied(sh, w)
  {
    assert (log + [w])[..|log|] == log && [w][..0] == [];
  }

  lemma {:induction false} NoWeeks(s: Season, roster: seq<Team>, env: Env, week: nat, last: nat)
    requires week > last
    ensures PlayWeeks(s, roster, env, week, last) == Ok(s)
  {
  }

  /** What a statement must not change: the outlook, and the fixed fields of the league row. */
  ghost predicate KeepsOutlook(pc: Pc, league: League, sh: Shared, roster: seq<Team>, env: Env) {
    var e := Statement(pc, league, sh, roster, env);
    && Outlook(e.pc, View(sh, e.writes), roster, env) == Outlook(pc, sh, roster, env)
    && SameLeagueRow(league, View(sh, e.writes))
  }

  lemma {:induction false} WeekStatements(pc: Pc, league: League, sh: Shared, roster: seq<Team>, env: Env)
    requires SameLeagueRow(league, sh) && (pc.NextWeek? || pc.Scoring?)
    ensures KeepsOutlook(pc, league, sh, roster, env)
  {
    hide Table, Stored, Record, Cleared, ListByLeague, PlayWeeks, TableThrough, Filter, ById, Fold, View;
    var e := Statement(pc, league, sh, roster, env);
    ViewUnfolds(sh, [], if e.writes == [] then ClearScores else e.writes[0]);
    if pc.NextWeek? {
      if pc.week > pc.last { NoWeeks(sh.season, roster, env, pc.week, pc.last); }
      else { WeekByStatements(sh.season, roster, env, pc.week, pc.last); }
    }
  }

  lemma {:induction false} SnapshotStatements(pc: Pc, league: League, sh: Shared, roster: seq<Team>, env: Env)
    requires SameLeagueRow(league, sh) && (pc.Tabling? || pc.Opening? || pc.Emptying? || pc.Filling? || pc.Advancing?)
    ensures KeepsOutlook(pc, league, sh, roster, env)
  {
    hide Table, Stored, Record, ListByLeague, PlayWeeks, TableThrough, Filter, Fold, View;
    var e := Statement(pc, league, sh, roster, env);
    ViewUnfolds(sh, [], if e.writes == [] then ClearScores else e.writes[0]);
    if pc.Opening? || pc.Emptying? { RowsReplaced(sh, pc.week, pc.rows); }
    if pc.Tabling? {
      var rows, then_ := Table(roster, ListByLeague(sh.season.matches)), Advancing(pc.week, pc.last);
      assert Outlook(Opening(pc.week, rows, then_), sh, roster, env) ==
             Outlook(then_, Saved(sh, pc.week, Stored(rows)), roster, env);
    }
  }

  /** Opening, emptying and filling a snapshot leaves exactly the new rows. */
  lemma {:induction false} RowsReplaced(sh: Shared, week: nat, rows: seq<StandingRow>)
    ensures Saved(Applied(sh, OpenSnapshot(week)), week, Stored(rows)) == Saved(sh, week, Stored(rows))
    ensures var emptied := Applied(sh, EmptySnapshot(week));
            Saved(emptied, week, RowsFor(emptied.season.snapshots, week) + Stored(rows)) ==
            Saved(sh, week, Stored(rows))
  {
    hide Stored;
    assert [] + Stored(rows) == Stored(rows);
  }

  lemma {:induction false} ResetStatements(pc: Pc, league: League, sh: Shared, roster: seq<Team>, env: Env)
    requires SameLeagueRow(league, sh) &&
             (pc.Clearing? || pc.Dropping? || pc.Rewinding? || pc.Committing? || pc.Refused?)
    ensures KeepsOutlook(pc, league, sh, roster, env)
  {
    hide Cleared, Fold, View;
    var e := Statement(pc, league, sh, roster, env);
    ViewUnfolds(sh, [], if e.writes == [] then ClearScores else e.writes[0]);
    if pc.Dropping? { assert Tables.EarlierThan(sh.season.snapshots, 0) == map[]; }
  }

  lemma {:induction false} RebuildStatements(pc: Pc, league: League, sh: Shared, roster: seq<Team>, env: Env)
    requires SameLeagueRow(league, sh) && (pc.Auditing? || pc.Recording? || pc.Loading? || pc.Rebuilding?)
    ensures KeepsOutlook(pc, league, sh, roster, env)
  {
    hide Table, Stored, Record, ListByLeague, TableThrough, Fold, View;
    var e := Statement(pc, league, sh, roster, env);
    ViewUnfolds(sh, [], if e.writes == [] then ClearScores else e.writes[0]);
    if pc.Rebuilding? && pc.week <= pc.last {
      var rows, then_ := TableThrough(roster, pc.all, pc.week), Rebuilding(pc.week + 1, pc.last, pc.all);
      assert Outlook(Opening(pc.week, rows, then_), sh, roster, env) ==
             Outlook(then_, Saved(sh, pc.week, Stored(rows)), roster, env);
    }
  }

  /** Running one statement and then the rest is running the rest. */
  lemma {:induction false} StatementKeepsOutlook(pc: Pc, league: League, sh: Shared, roster: seq<Team>, env: Env)
    requires SameLeagueRow(league, sh)
    ensures KeepsOutlook(pc, league, sh, roster, env)
  {
    hide KeepsOutlook;
    if pc.NextWeek? || pc.Scoring? { WeekStatements(pc, league, sh, roster, env); }
    else if pc.Tabling? || pc.Opening? || pc.Emptying? || pc.Filling? || pc.Advancing? {
      SnapshotStatements(pc, league, sh, roster, env);
    } else if pc.Auditing? || pc.Recording? || pc.Loading? || pc.Rebuilding? {
      RebuildStatements(pc, league, sh, roster, env);
    } else { ResetStatements(pc, league, sh, roster, env); }
  }

  // ----- from the lock, the outlook is the whole operation

  lemma {:induction false} OneWeekOnly(s: Season, roster: seq<Team>, env: Env, week: nat)
    ensures PlayWeeks(s, roster, env, week, week) == PlayOne(s, roster, env, week)
  {
    hide PlayOne;
    if PlayOne(s, roster, env, week).Ok? { NoWeeks(PlayOne(s, roster, env, week).value, roster, env, week + 1, week); }
  }

  lemma {:induction false} LockedOutlook(a: Action, sh: Shared, roster: seq<Team>, env: Env)
    ensures Outlook(Started(a, sh.season.league), sh, roster, env) == Atomic(a, sh, roster, env)
  {
    hide PlayWeeks, PlayOne, Record, Rebuilt, ListByLeague, Cleared;
    var s := sh.season;
    OneWeekOnly(s, roster, env, s.league.currentWeek + 1);
  }

  // ----- the invariant of every schedule

  /** The action is the job, with what was read before the lock filled in. */
  predicate Serves(job: Job, a: Action) {
    match job
    case ToPlayWeek => a == PlayWeek
    case ToPlayAll => a == PlayAll
    case ToReset => a == Reset
    case ToRecalculate => a == Recalculate
    case ToEdit(id, homeGoals, awayGoals, reason) =>
      a.Edit? && a.seen.id == id && a.homeGoals == homeGoals && a.awayGoals == awayGoals && a.reason == reason
  }

  ghost predicate TxnServes(job: Job, t: Txn) {
    match t
    case Unstarted(j) => j == job
    case Waiting(a) => Serves(job, a)
    case Running(a, _, _, _) => Serves(job, a)
    case Ended => true
  }

  /** Who runs holds the lock; every lock was granted once, and all but the holder's were given back in order. */
  ghost predicate LockDiscipline(w: World) {
    && (w.holder.Some? ==> w.holder.value < |w.txns|)
    && (forall i :: 0 <= i < |w.txns| ==> (w.txns[i].Running? <==> w.holder == Some(i)))
    && |w.order| == |w.history| + (if w.holder.Some? then 1 else 0)
    && (forall k :: 0 <= k < |w.history| ==> w.history[k].txn == w.order[k])
    && (w.holder.Some? ==> w.order[|w.history|] == w.holder.value)
    && (forall k :: 0 <= k < |w.order| ==>
          w.order[k] < |w.txns| && (w.txns[w.order[k]].Running? || w.txns[w.order[k]].Ended?))
    && (forall j, k :: 0 <= j < k < |w.order| ==> w.order[j] != w.order[k])
  }

  ghost predicate JobsServed(w: World, jobs: seq<Job>) {
    && |w.txns| == |jobs|
    && (forall i :: 0 <= i < |jobs| ==> TxnServes(jobs[i], w.txns[i]))
    && (forall k :: 0 <= k < |w.history| ==>
          w.history[k].txn < |jobs| && Serves(jobs[w.history[k].txn], w.history[k].action))
  }

  /** What is committed is the serial run so far, and every entry ended as it would there. */
  ghost predicate SerialSoFar(start: Shared, w: World, roster: seq<Team>, env: Env) {
    && w.committed == Serial(start, w.history, roster, env)
    && forall k :: 0 <= k < |w.history| ==>
         EndsAs(w.history[k], Serial(start, w.history[..k], roster, env), roster, env)
  }

  /** The holder is on its way to what its whole operation would do to the committed rows. */
  ghost predicate HolderOnTrack(w: World, roster: seq<Team>, env: Env) {
    w.holder.Some? && w.holder.value < |w.txns| && w.txns[w.holder.value].Running? ==>
      var t := w.txns[w.holder.value];
      && SameLeagueRow(t.league, View(w.committed, t.log))
      && Outlook(t.pc, View(w.committed, t.log), roster, env) == Atomic(t.action, w.committed, roster, env)
  }

  ghost predicate Orderly(start: Shared, jobs: seq<Job>, w: World, roster: seq<Team>, env: Env) {
    LockDiscipline(w) && JobsServed(w, jobs) && SerialSoFar(start, w, roster, env) && HolderOnTrack(w, roster, env)
  }

  // ----- each move keeps it

  lemma {:induction false} BeginOrderly(start: Shared, jobs: seq<Job>, w: World, i: nat, roster: seq<Team>, env: Env)
    requires Orderly(start, jobs, w, roster, env)
    ensures Orderly(start, jobs, Moved(w, Begin(i), roster, env), roster, env)
  {
    hide Serial, Atomic, Outlook, View, EndsAs, Filter;
    if i < |w.txns| && w.txns[i].Unstarted? { BegunServes(w.txns[i].job, w.committed); }
  }

  lemma {:induction false} BegunServes(job: Job, committed: Shared)
    ensures TxnServes(job, Begun(job, committed)) && !Begun(job, committed).Running?
    ensures Begun(job, committed).Waiting? && Begun(job, committed).action.Edit? ==>
              Begun(job, committed).action.seen in committed.season.matches
  {
    match job
    case ToEdit(id, _, _, _) =>
      var found := Filter(committed.season.matches, WithId(id));
      if found != [] { assert found[0] in found; }
    case _ =>
  }

  lemma {:induction false} AcquireOrderly(start: Shared, jobs: seq<Job>, w: World, i: nat, roster: seq<Team>, env: Env)
    requires Orderly(start, jobs, w, roster, env)
    ensures Orderly(start, jobs, Moved(w, Acquire(i), roster, env), roster, env)
  {
    hide Serial, Atomic, Outlook, EndsAs, Started, View;
    if i < |w.txns| && w.txns[i].Waiting? && w.holder.None? {
      LockedOutlook(w.txns[i].action, w.committed, roster, env);
      ViewUnfolds(w.committed, [], ClearScores);
    }
  }

  lemma {:induction false} RunOrderly(start: Shared, jobs: seq<Job>, w: World, i: nat, roster: seq<Team>, env: Env)
    requires Orderly(start, jobs, w, roster, env)
    ensures Orderly(start, jobs, Moved(w, Run(i), roster, env), roster, env)
  {
    hide Serial, Atomic, Outlook, EndsAs, View, Statement;
    if i < |w.txns| && w.txns[i].Running? {
      var t := w.txns[i];
      var sh := View(w.committed, t.log);
      StatementKeepsOutlook(t.pc, t.league, sh, roster, env);
      var e := Statement(t.pc, t.league, sh, roster, env);
      OneWriteAtMost(t.pc, t.league, sh, roster, env);
      assert View(w.committed, t.log + e.writes) == View(sh, e.writes) by {
        if e.writes == [] { assert t.log + [] == t.log; ViewUnfolds(sh, [], ClearScores); }
        else { ViewUnfolds(sh, [], e.writes[0]); ViewUnfolds(w.committed, t.log, e.writes[0]); }
      }
    }
  }

  lemma {:induction false} OneWriteAtMost(pc: Pc, league: League, sh: Shared, roster: seq<Team>, env: Env)
    ensures var e := Statement(pc, league, sh, roster, env); e.writes == [] || e.writes == [e.writes[0]]
  {
  }

  lemma {:induction false} EntryAdded(start: Shared, w: World, committed: Shared, e: Entry, roster: seq<Team>, env: Env)
    requires SerialSoFar(start, w, roster, env) && EndsAs(e, w.committed, roster, env)
    requires if e.ending.Committed? then Atomic(e.action, w.committed, roster, env) == Ok(committed)
             else committed == w.committed
    ensures SerialSoFar(start, w.(committed := committed, history := w.history + [e]), roster, env)
  {
    hide Atomic, EndsAs;
    var history := w.history + [e];
    assert history[..|history| - 1] == w.history;
    forall k | 0 <= k < |history| ensures EndsAs(history[k], Serial(start, history[..k], roster, env), roster, env) {
      if k < |w.history| { assert history[..k] == w.history[..k]; }
    }
  }

  lemma {:induction false} ReleaseOrderly(start: Shared, jobs: seq<Job>, w: World, i: nat, committed: Shared,
                                          ending: Ending, roster: seq<Team>, env: Env)
    requires Orderly(start, jobs, w, roster, env) && i < |w.txns| && w.txns[i].Running?
    requires EndsAs(Entry(i, w.txns[i].action, ending), w.committed, roster, env)
    requires if ending.Committed? then Atomic(w.txns[i].action, w.committed, roster, env) == Ok(committed)
             else committed == w.committed
    ensures Orderly(start, jobs, Released(w, i, committed, ending), roster, env)
  {
    hide Serial, Atomic, Outlook, EndsAs, View, SerialSoFar;
    EntryAdded(start, w, committed, Entry(i, w.txns[i].action, ending), roster, env);
    SerialFieldsOnly(start, w.(committed := committed, history := w.history + [Entry(i, w.txns[i].action, ending)]),
                     Released(w, i, committed, ending), roster, env);
  }

  lemma {:induction false} SerialFieldsOnly(start: Shared, w: World, w': World, roster: seq<Team>, env: Env)
    requires SerialSoFar(start, w, roster, env) && w'.committed == w.committed && w'.history == w.history
    ensures SerialSoFar(start, w', roster, env)
  {
  }

  lemma {:induction false} FinishOrderly(start: Shared, jobs: seq<Job>, w: World, i: nat, roster: seq<Team>, env: Env)
    requires Orderly(start, jobs, w, roster, env)
    ensures Orderly(start, jobs, Moved(w, Finish(i), roster, env), roster, env)
  {
    hide Serial, Atomic, View, SerialSoFar;
    if i < |w.txns| && w.txns[i].Running? {
      var t := w.txns[i];
      if t.pc.Committing? { ReleaseOrderly(start, jobs, w, i, View(w.committed, t.log), Committed, roster, env); }
      else if t.pc.Refused? { ReleaseOrderly(start, jobs, w, i, w.committed, RolledBack(t.pc.error), roster, env); }
    }
  }

  lemma {:induction false} DieOrderly(start: Shared, jobs: seq<Job>, w: World, i: nat, roster: seq<Team>, env: Env)
    requires Orderly(start, jobs, w, roster, env)
    ensures Orderly(start, jobs, Moved(w, Die(i), roster, env), roster, env)
  {
    hide Serial, Atomic, Outlook, View, SerialSoFar;
    if i < |w.txns| {
      if w.txns[i].Running? { ReleaseOrderly(start, jobs, w, i, w.committed, Lost, roster, env); }
      else { SerialFieldsOnly(start, w, w.(txns := w.txns[i := Ended]), roster, env); }
    }
  }

  lemma {:induction false} ScheduleOrderly(start: Shared, jobs: seq<Job>, moves: seq<Move>, roster: seq<Team>, env: Env)
    ensures Orderly(start, jobs, Interleaved(Opened(start, jobs), moves, roster, env), roster, env)
  {
    hide Moved, Orderly;
    if moves == [] {
      OpenedOrderly(start, jobs, roster, env);
    } else {
      ScheduleOrderly(start, jobs, moves[..|moves| - 1], roster, env);
      var w := Interleaved(Opened(start, jobs), moves[..|moves| - 1], roster, env);
      match moves[|moves| - 1]
      case Begin(i) => BeginOrderly(start, jobs, w, i, roster, env);
      case Acquire(i) => AcquireOrderly(start, jobs, w, i, roster, env);
      case Run(i) => RunOrderly(start, jobs, w, i, roster, env);
      case Finish(i) => FinishOrderly(start, jobs, w, i, roster, env);
      case Die(i) => DieOrderly(start, jobs, w, i, roster, env);
    }
  }

  lemma {:induction false} OpenedOrderly(start: Shared, jobs: seq<Job>, roster: seq<Team>, env: Env)
    ensures Orderly(start, jobs, Opened(start, jobs), roster, env)
  {
  }

  // ----- the theorems

  /** Whatever the schedule, what is committed is what the entries give when run one by one in the order of their
      locks, each ending as it would there; no transaction takes effect twice, and each entry serves its job. */
  lemma {:induction false} SerialInLockOrder(start: Shared, jobs: seq<Job>, moves: seq<Move>, roster: seq<Team>,
                                             env: Env)
    ensures var w := Interleaved(Opened(start, jobs), moves, roster, env);
            && w.committed == Serial(start, w.history, roster, env) && |w.history| <= |w.order|
            && (forall k :: 0 <= k < |w.history| ==>
                  && w.history[k].txn == w.order[k] < |jobs| && Serves(jobs[w.order[k]], w.history[k].action)
                  && EndsAs(w.history[k], Serial(start, w.history[..k], roster, env), roster, env))
            && (forall j, k :: 0 <= j < k < |w.order| ==> w.order[j] != w.order[k])
            && (w.holder.None? ==> |w.history| == |w.order|)
  {
    hide Serial, Atomic, Outlook, View, Interleaved, EndsAs;
    ScheduleOrderly(start, jobs, moves, roster, env);
  }

  // ----- no week is simulated twice without a Reset between

  lemma {:induction false} SerialUnfolds(start: Shared, history: seq<Entry>, k: nat, roster: seq<Team>, env: Env)
    requires k < |history|
    ensures var before, after := Serial(start, history[..k], roster, env), Serial(start, history[..k + 1], roster, env);
            if history[k].ending.Committed? && Atomic(history[k].action, before, roster, env).Ok?
            then Ok(after) == Atomic(history[k].action, before, roster, env) else after == before
  {
    hide Atomic;
    assert history[..k + 1][..k] == history[..k];
  }

  function WeekAt(start: Shared, history: seq<Entry>, k: nat, roster: seq<Team>, env: Env): nat
    requires k <= |history|
  {
    Serial(start, history[..k], roster, env).season.league.currentWeek
  }

  /** Entry k committed a play operation that took the league past this week. */
  predicate Simulates(start: Shared, history: seq<Entry>, k: nat, week: nat, roster: seq<Team>, env: Env)
    requires k < |history|
  {
    && history[k].ending.Committed? && (history[k].action.PlayWeek? || history[k].action.PlayAll?)
    && WeekAt(start, history, k, roster, env) < week <= WeekAt(start, history, k + 1, roster, env)
  }

  lemma {:induction false} PlayFromAdvances(s: Season, roster: seq<Team>, env: Env, week: nat)
    requires s.league.currentWeek <= week
    ensures PlayFrom(s, roster, env, week).Ok? ==>
              PlayFrom(s, roster, env, week).value.league.currentWeek >= s.league.currentWeek
    decreases s.league.totalWeeks + 1 - week
  {
    hide Record, WeekScores, Stored, Table, ListByLeague;
    if week <= s.league.totalWeeks && PlayOne(s, roster, env, week).Ok? {
      PlayFromAdvances(PlayOne(s, roster, env, week).value, roster, env, week + 1);
    }
  }

  lemma {:induction false} OnlyResetGoesBack(a: Action, sh: Shared, roster: seq<Team>, env: Env)
    requires Atomic(a, sh, roster, env).Ok? && !a.Reset?
    ensures Atomic(a, sh, roster, env).value.season.league.currentWeek >= sh.season.league.currentWeek
  {
    hide Record, WeekScores, Stored, Table, ListByLeague, PlayFrom, Rebuilt;
    PlayFromAdvances(sh.season, roster, env, sh.season.league.currentWeek + 1);
  }

  lemma {:induction false} WeeksOnlyGrow(start: Shared, history: seq<Entry>, j: nat, k: nat, roster: seq<Team>,
                                         env: Env)
    requires j <= k <= |history|
    requires forall r :: j <= r < k ==> !(history[r].ending.Committed? && history[r].action.Reset?)
    ensures WeekAt(start, history, j, roster, env) <= WeekAt(start, history, k, roster, env)
    decreases k
  {
    hide Serial, Atomic;
    if j < k {
      WeeksOnlyGrow(start, history, j, k - 1, roster, env);
      SerialUnfolds(start, history, k - 1, roster, env);
      var before := Serial(start, history[..k - 1], roster, env);
      if history[k - 1].ending.Committed? && Atomic(history[k - 1].action, before, roster, env).Ok? {
        OnlyResetGoesBack(history[k - 1].action, before, roster, env);
      }
    }
  }

  /** Two entries that simulate the same week have a committed Reset between them. */
  lemma {:induction false} NoWeekTwice(start: Shared, history: seq<Entry>, j: nat, k: nat, week: nat, roster: seq<Team>,
                                       env: Env)
    requires j < k < |history|
    requires Simulates(start, history, j, week, roster, env) && Simulates(start, history, k, week, roster, env)
    ensures exists r :: j < r < k && history[r].ending.Committed? && history[r].action.Reset?
  {
    hide WeekAt;
    if forall r :: j + 1 <= r < k ==> !(history[r].ending.Committed? && history[r].action.Reset?) {
      WeeksOnlyGrow(start, history, j + 1, k, roster, env);
      assert false;
    }
  }
}
