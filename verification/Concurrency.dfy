/** Concurrent transactions on one league, statement by statement, at READ COMMITTED. Ratings are held fixed. */
module Concurrency {
  import opened Seqs
  import opened Domain
  import opened Standings
  import opened SeasonOps
  import Tables

  /** The committed rows of the league and the audit log. */
  datatype Shared = Shared(season: Season, audits: seq<Audit>)

  /** What a client asks for. */
  datatype Job =
    | ToPlayWeek
    | ToPlayAll
    | ToReset
    | ToRecalculate
    | ToEdit(id: nat, homeGoals: nat, awayGoals: nat, reason: string)

  /** A job that knows what it read before the lock: an edit holds the match row it saw. */
  datatype Action =
    | PlayWeek
    | PlayAll
    | Reset
    | Recalculate
    | Edit(seen: Match, homeGoals: nat, awayGoals: nat, reason: string)

  // ----- what one writing statement does

  datatype Write =
    | Score(id: nat, outcome: Outcome)
    | ClearScores
    | OpenSnapshot(week: nat)
    | EmptySnapshot(week: nat)
    | FillSnapshot(week: nat, rows: seq<SnapshotRow>)
    | DropSnapshots(fromWeek: nat)
    | MoveLeague(status: LeagueStatus, week: nat)
    | LogAudit(audit: Audit)

  function RowsFor(snapshots: map<nat, seq<SnapshotRow>>, week: nat): seq<SnapshotRow> {
    if week in snapshots then snapshots[week] else []
  }

  function Applied(sh: Shared, w: Write): Shared {
    var s := sh.season;
    match w
    case Score(id, outcome) => sh.(season := s.(matches := Record(s.matches, map[id := outcome])))
    case ClearScores => sh.(season := s.(matches := Cleared(s.matches)))
    case OpenSnapshot(week) => sh.(season := s.(snapshots := s.snapshots[week := RowsFor(s.snapshots, week)]))
    case EmptySnapshot(week) => sh.(season := s.(snapshots := s.snapshots[week := []]))
    case FillSnapshot(week, rows) =>
      sh.(season := s.(snapshots := s.snapshots[week := RowsFor(s.snapshots, week) + rows]))
    case DropSnapshots(fromWeek) => sh.(season := s.(snapshots := Tables.EarlierThan(s.snapshots, fromWeek)))
    case MoveLeague(status, week) => sh.(season := s.(league := s.league.(currentWeek := week, status := status)))
    case LogAudit(audit) => sh.(audits := sh.audits + [audit])
  }

  /** What a statement of a transaction sees: the committed rows with the transaction's own writes on top. */
  function View(committed: Shared, log: seq<Write>): Shared {
    Fold(log, Applied, committed)
  }

  // ----- the program of a transaction, from the lock to the commit

  /** Where a transaction that holds the lock stands, with its local variables. */
  datatype Pc =
    | NextWeek(week: nat, last: nat)
    | Scoring(week: nat, last: nat, list: seq<Match>, j: nat, rng: Rng)
    | Tabling(week: nat, last: nat)
    | Opening(week: nat, rows: seq<StandingRow>, after: Pc)
    | Emptying(week: nat, rows: seq<StandingRow>, after: Pc)
    | Filling(week: nat, rows: seq<StandingRow>, after: Pc)
    | Advancing(week: nat, last: nat)
    | Clearing
    | Dropping
    | Rewinding
    | Auditing(seen: Match, homeGoals: nat, awayGoals: nat, reason: string, last: nat)
    | Recording(seen: Match, homeGoals: nat, awayGoals: nat, last: nat)
    | Loading(first: nat, last: nat)
    | Rebuilding(week: nat, last: nat, all: seq<Match>)
    | Committing
    | Refused(error: Error)

  /** What follows the locking read of the league row. */
  function Started(a: Action, league: League): Pc {
    match a
    case PlayWeek =>
      if league.status == Finished then Refused(Conflict) else NextWeek(league.currentWeek + 1, league.currentWeek + 1)
    case PlayAll =>
      if league.status == Finished then Refused(Conflict) else NextWeek(league.currentWeek + 1, league.totalWeeks)
    case Reset => Clearing
    case Recalculate => Loading(1, league.currentWeek)
    case Edit(seen, homeGoals, awayGoals, reason) =>
      if seen.outcome.Scheduled? then Refused(Conflict)
      else Auditing(seen, homeGoals, awayGoals, reason, league.currentWeek)
  }

  /** The statement's effect: where the transaction goes, and its write, if it is a writing statement. */
  datatype Executed = Executed(pc: Pc, writes: seq<Write>)

  /** One statement, run against what the transaction sees at that moment. */
  function Statement(pc: Pc, league: League, sh: Shared, roster: seq<Team>, env: Env): Executed {
    match pc
    case NextWeek(week, last) =>
      if week > last then Executed(Committing, [])
      else
        var list := Filter(sh.season.matches, InWeek(week));
        Executed(Scoring(week, last, list, 0, env.weekRng(league.seed, week)), [])
    case Scoring(week, last, list, j, rng) =>
      if j >= |list| then Executed(Tabling(week, last), [])
      else if list[j].home !in ById(roster) || list[j].away !in ById(roster) then Executed(Refused(Internal), [])
      else
        var g := env.simulate(ById(roster)[list[j].home], ById(roster)[list[j].away], rng);
        Executed(Scoring(week, last, list, j + 1, g.rng), [Score(list[j].id, Played(g.homeGoals, g.awayGoals))])
    case Tabling(week, last) =>
      Executed(Opening(week, Table(roster, ListByLeague(sh.season.matches)), Advancing(week, last)), [])
    case Opening(week, rows, after) => Executed(Emptying(week, rows, after), [OpenSnapshot(week)])
    case Emptying(week, rows, after) => Executed(Filling(week, rows, after), [EmptySnapshot(week)])
    case Filling(week, rows, after) => Executed(after, [FillSnapshot(week, Stored(rows))])
    case Advancing(week, last) =>
      Executed(NextWeek(week + 1, last), [MoveLeague(StatusForWeek(week, league.totalWeeks), week)])
    case Clearing => Executed(Dropping, [ClearScores])
    case Dropping => Executed(Rewinding, [DropSnapshots(0)])
    case Rewinding => Executed(Committing, [MoveLeague(NotStarted, 0)])
    case Auditing(seen, homeGoals, awayGoals, reason, last) =>
      if seen.outcome.Scheduled? then Executed(Refused(Conflict), [])
      else Executed(Recording(seen, homeGoals, awayGoals, last),
                    [LogAudit(AuditOf(seen, homeGoals, awayGoals, reason))])
    case Recording(seen, homeGoals, awayGoals, last) =>
      Executed(Loading(seen.week, last), [Score(seen.id, Played(homeGoals, awayGoals))])
    case Loading(first, last) =>
      Executed(Rebuilding(if first < 1 then 1 else first, last, ListByLeague(sh.season.matches)), [])
    case Rebuilding(week, last, all) =>
      if week > last then Executed(Committing, [])
      else Executed(Opening(week, TableThrough(roster, all, week), Rebuilding(week + 1, last, all)), [])
    case Committing => Executed(Committing, [])
    case Refused(e) => Executed(Refused(e), [])
  }

  // ----- many transactions, one lock

  datatype Txn =
    | Unstarted(job: Job)
    | Waiting(action: Action)
    | Running(action: Action, league: League, pc: Pc, log: seq<Write>)
    | Ended

  datatype Ending = Committed | RolledBack(error: Error) | Lost

  /** A transaction that held the lock, and how it ended. */
  datatype Entry = Entry(txn: nat, action: Action, ending: Ending)

  /** `order` records who was granted the lock, `history` who gave it back, and how. */
  datatype World = World(committed: Shared, txns: seq<Txn>, holder: Option<nat>, order: seq<nat>, history: seq<Entry>)

  /** What the scheduler picks: a transaction begins, is granted the lock, runs a statement, finishes, or dies. */
  datatype Move = Begin(i: nat) | Acquire(i: nat) | Run(i: nat) | Finish(i: nat) | Die(i: nat)

  function WithId(id: nat): Match -> bool {
    (m: Match) => m.id == id
  }

  /** BEGIN, and for an edit the read of the match row that comes before the lock. */
  function Begun(job: Job, committed: Shared): Txn {
    match job
    case ToPlayWeek => Waiting(PlayWeek)
    case ToPlayAll => Waiting(PlayAll)
    case ToReset => Waiting(Reset)
    case ToRecalculate => Waiting(Recalculate)
    case ToEdit(id, homeGoals, awayGoals, reason) =>
      var found := Filter(committed.season.matches, WithId(id));
      if found == [] then Ended else Waiting(Edit(found[0], homeGoals, awayGoals, reason))
  }

  function Released(w: World, i: nat, committed: Shared, ending: Ending): World
    requires i < |w.txns| && w.txns[i].Running?
  {
    World(committed, w.txns[i := Ended], None, w.order, w.history + [Entry(i, w.txns[i].action, ending)])
  }

  /** A move that is not possible leaves the world as it is. */
  function Moved(w: World, move: Move, roster: seq<Team>, env: Env): World {
    if move.i >= |w.txns| then w
    else
      var i, t := move.i, w.txns[move.i];
      match move
      case Begin(_) => if t.Unstarted? then w.(txns := w.txns[i := Begun(t.job, w.committed)]) else w
      case Acquire(_) =>
        if t.Waiting? && w.holder.None? then
          var league := w.committed.season.league;
          w.(txns := w.txns[i := Running(t.action, league, Started(t.action, league), [])],
             holder := Some(i), order := w.order + [i])
        else w
      case Run(_) =>
        if t.Running? then
          var e := Statement(t.pc, t.league, View(w.committed, t.log), roster, env);
          w.(txns := w.txns[i := t.(pc := e.pc, log := t.log + e.writes)])
        else w
      case Finish(_) =>
        if t.Running? && t.pc.Committing? then Released(w, i, View(w.committed, t.log), Committed)
        else if t.Running? && t.pc.Refused? then Released(w, i, w.committed, RolledBack(t.pc.error))
        else w
      case Die(_) =>
        if t.Running? then Released(w, i, w.committed, Lost) else w.(txns := w.txns[i := Ended])
  }

  function Interleaved(w: World, moves: seq<Move>, roster: seq<Team>, env: Env): World {
    if moves == [] then w
    else Moved(Interleaved(w, moves[..|moves| - 1], roster, env), moves[|moves| - 1], roster, env)
  }

  /** The world before anybody has begun. */
  function Opened(start: Shared, jobs: seq<Job>): World {
    World(start, seq(|jobs|, i requires 0 <= i < |jobs| => Unstarted(jobs[i])), None, [], [])
  }

  // ----- the serial reference

  function InShared(sh: Shared, r: Result<Season>): Result<Shared> {
    match r
    case Err(e) => Err(e)
    case Ok(s) => Ok(sh.(season := s))
  }

  /** The whole operation in one step. */
  function Atomic(a: Action, sh: Shared, roster: seq<Team>, env: Env): Result<Shared> {
    match a
    case PlayWeek => InShared(sh, SeasonOps.PlayWeek(sh.season, roster, env))
    case PlayAll => InShared(sh, SeasonOps.PlayAll(sh.season, roster, env))
    case Reset => Ok(sh.(season := SeasonOps.Reset(sh.season)))
    case Recalculate => Ok(sh.(season := SeasonOps.Recalculate(sh.season, roster)))
    case Edit(seen, homeGoals, awayGoals, reason) =>
      match EditMatch(sh.season, roster, seen, homeGoals, awayGoals)
      case Err(e) => Err(e)
      case Ok(s) => Ok(Shared(s, sh.audits + [AuditOf(seen, homeGoals, awayGoals, reason)]))
  }

  /** The entries one after the other, whole operations only; what did not commit does nothing. */
  function Serial(start: Shared, history: seq<Entry>, roster: seq<Team>, env: Env): Shared {
    if history == [] then start
    else
      var before, last := Serial(start, history[..|history| - 1], roster, env), history[|history| - 1];
      if last.ending.Committed? then
        match Atomic(last.action, before, roster, env)
        case Err(_) => before
        case Ok(after) => after
      else before
  }

  /** An entry ends as its operation would at that point of the serial run; a lost connection excuses it. */
  predicate EndsAs(e: Entry, before: Shared, roster: seq<Team>, env: Env) {
    match e.ending
    case Committed => Atomic(e.action, before, roster, env).Ok?
    case RolledBack(error) => Atomic(e.action, before, roster, env) == Err(error)
    case Lost => true
  }
}
