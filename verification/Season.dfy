/** The operations on one league (internal/service), as functions of the rows that belong to it. */
module SeasonOps {
  import opened Seqs
  import opened Sorting
  import opened Text
  import opened Domain
  import opened Standings
  import opened Trials

  /** Everything one league owns: its row, its members, its matches in id order, its snapshots by week. */
  datatype Season = Season(league: League, members: set<nat>, matches: seq<Match>,
                           snapshots: map<nat, seq<SnapshotRow>>)

  // ----- queries

  function InWeek(week: nat): Match -> bool {
    (m: Match) => m.week == week
  }

  function UpToWeek(week: nat): Match -> bool {
    (m: Match) => m.week <= week
  }

  /** ORDER BY week_number, id */
  predicate ByWeekThenId(a: Match, b: Match) {
    if a.week != b.week then a.week < b.week else a.id < b.id
  }

  function ListByLeague(ms: seq<Match>): (r: seq<Match>)
    ensures multiset(r) == multiset(ms)
  {
    Sorted(ms, ByWeekThenId)
  }

  function MemberOf(members: set<nat>): Team -> bool {
    (t: Team) => t.id in members
  }

  predicate ByName(a: Team, b: Team) { StringLess(a.name, b.name) }

  /** The catalog joined with the memberships, ORDER BY name. */
  function Roster(teams: seq<Team>, members: set<nat>): seq<Team> {
    Sorted(Filter(teams, MemberOf(members)), ByName)
  }

  function Stored(table: seq<StandingRow>): (rows: seq<SnapshotRow>)
    ensures |rows| == |table|
  {
    seq(|table|, i requires 0 <= i < |table| => SnapshotRow(table[i].rank, table[i].teamId, table[i].stats))
  }

  // ----- match updates

  /** UPDATE matches SET goals, status = 'PLAYED' for the ids given. */
  function Record(ms: seq<Match>, scores: map<nat, Outcome>): (r: seq<Match>)
    ensures |r| == |ms|
  {
    seq(|ms|, i requires 0 <= i < |ms| => if ms[i].id in scores then ms[i].(outcome := scores[ms[i].id]) else ms[i])
  }

  function Cleared(ms: seq<Match>): (r: seq<Match>)
    ensures |r| == |ms|
  {
    seq(|ms|, i requires 0 <= i < |ms| => ms[i].(outcome := Scheduled))
  }

  // ----- simulateWeek, advanceAndSnapshot

  function StatusForWeek(week: nat, totalWeeks: nat): LeagueStatus {
    if week >= totalWeeks then Finished else InProgress
  }

  predicate Resolvable(list: seq<Match>, byId: map<nat, Team>) {
    forall j :: 0 <= j < |list| ==> list[j].home in byId && list[j].away in byId
  }

  /** The results of the first j matches of the list, by match id. */
  function Scores(list: seq<Match>, byId: map<nat, Team>, sim: Simulator, start: Rng, j: nat): map<nat, Outcome>
    requires j <= |list|
  {
    if j == 0 then map[]
    else Scores(list, byId, sim, start, j - 1)[list[j - 1].id := OutcomeAt(list, byId, sim, start, j - 1)]
  }

  function WeekScores(s: Season, roster: seq<Team>, env: Env, week: nat): map<nat, Outcome> {
    var list := Filter(s.matches, InWeek(week));
    Scores(list, ById(roster), env.simulate, env.weekRng(s.league.seed, week), |list|)
  }

  function SimulateWeek(s: Season, roster: seq<Team>, env: Env, week: nat): Result<Season> {
    if !Resolvable(Filter(s.matches, InWeek(week)), ById(roster)) then Err(Internal)
    else Ok(s.(matches := Record(s.matches, WeekScores(s, roster, env, week))))
  }

  /** The table over all matches becomes the week's snapshot, and the league moves on to that week. */
  function AdvanceAndSnapshot(s: Season, roster: seq<Team>, week: nat): Season {
    s.(snapshots := s.snapshots[week := Stored(Table(roster, ListByLeague(s.matches)))],
       league := s.league.(currentWeek := week, status := StatusForWeek(week, s.league.totalWeeks)))
  }

  function PlayOne(s: Season, roster: seq<Team>, env: Env, week: nat): Result<Season> {
    match SimulateWeek(s, roster, env, week)
    case Err(e) => Err(e)
    case Ok(t) => Ok(AdvanceAndSnapshot(t, roster, week))
  }

  // ----- the operations

  function PlayWeek(s: Season, roster: seq<Team>, env: Env): Result<Season> {
    if s.league.status == Finished then Err(Conflict)
    else PlayOne(s, roster, env, s.league.currentWeek + 1)
  }

  /** The weeks from `week` to `last`, in a row. */
  function PlayWeeks(s: Season, roster: seq<Team>, env: Env, week: nat, last: nat): Result<Season>
    decreases last + 1 - week
  {
    if week > last then Ok(s)
    else
      match PlayOne(s, roster, env, week)
      case Err(e) => Err(e)
      case Ok(t) => PlayWeeks(t, roster, env, week + 1, last)
  }

  /** The weeks from `week` to the end of the season. */
  function PlayFrom(s: Season, roster: seq<Team>, env: Env, week: nat): Result<Season> {
    PlayWeeks(s, roster, env, week, s.league.totalWeeks)
  }

  function PlayAll(s: Season, roster: seq<Team>, env: Env): Result<Season> {
    if s.league.status == Finished then Err(Conflict)
    else PlayFrom(s, roster, env, s.league.currentWeek + 1)
  }

  function Reset(s: Season): Season {
    s.(matches := Cleared(s.matches), snapshots := map[],
       league := s.league.(currentWeek := 0, status := NotStarted))
  }

  /** The table through a week: only matches up to that week are handed to the calculator. */
  function TableThrough(roster: seq<Team>, ms: seq<Match>, week: nat): seq<StandingRow> {
    Table(roster, Filter(ms, UpToWeek(week)))
  }

  /** Snapshots for the weeks from `week` to `last`, each overwritten with the table through it. */
  function Rebuilt(snapshots: map<nat, seq<SnapshotRow>>, roster: seq<Team>, all: seq<Match>, week: nat, last: nat)
    : map<nat, seq<SnapshotRow>>
    decreases last + 1 - week
  {
    if week > last then snapshots
    else Rebuilt(snapshots[week := Stored(TableThrough(roster, all, week))], roster, all, week + 1, last)
  }

  function RebuildSnapshots(s: Season, roster: seq<Team>, fromWeek: int): Season {
    var first: nat := if fromWeek < 1 then 1 else fromWeek;
    s.(snapshots := Rebuilt(s.snapshots, roster, ListByLeague(s.matches), first, s.league.currentWeek))
  }

  function Recalculate(s: Season, roster: seq<Team>): Season {
    RebuildSnapshots(s, roster, 1)
  }

  /** An edit of match i, made on the strength of the row `seen` (read before the league was locked). */
  function EditMatch(s: Season, roster: seq<Team>, seen: Match, homeGoals: nat, awayGoals: nat): (r: Result<Season>)
    ensures r.Ok? <==> seen.outcome.Played?
  {
    if seen.outcome.Scheduled? then Err(Conflict)
    else
      var t := s.(matches := Record(s.matches, map[seen.id := Played(homeGoals, awayGoals)]));
      Ok(RebuildSnapshots(t, roster, seen.week))
  }

  function AuditOf(seen: Match, homeGoals: nat, awayGoals: nat, reason: string): Audit
    requires seen.outcome.Played?
  {
    Audit(seen.id, seen.outcome.homeGoals, seen.outcome.awayGoals, homeGoals, awayGoals, reason)
  }
}
