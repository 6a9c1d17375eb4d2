/** All leagues together: the operations of the services as steps of one state machine. */
module System {
  import opened Seqs
  import opened Domain
  import Fixture
  import opened SeasonOps

  datatype Sys = Sys(teams: seq<Team>, seasons: map<nat, Season>, audits: seq<Audit>, nextLeague: nat, nextMatch: nat)

  datatype Op =
    | CreateLeague(name: string, teamIds: seq<nat>, seed: int)
    | PlayWeek(league: nat)
    | PlayAll(league: nat)
    | Reset(league: nat)
    | Recalculate(league: nat)
    | UpdateResult(match_: nat, homeGoals: int, awayGoals: int, reason: string)
    | UpdateRating(team: nat, attack: int, midfield: int, defense: int)

  function TeamIds(teams: seq<Team>): (ids: seq<nat>)
    ensures |ids| == |teams|
  {
    seq(|teams|, i requires 0 <= i < |teams| => teams[i].id)
  }

  /** The ids given, once each is known to exist; the whole catalog when none is given. */
  function ResolveTeamIDs(teams: seq<Team>, explicit: seq<nat>): Result<seq<nat>> {
    if explicit == [] then Ok(TeamIds(teams))
    else if exists i :: 0 <= i < |explicit| && explicit[i] !in TeamIds(teams) then Err(InvalidInput)
    else Ok(explicit)
  }

  function ShuffleDraws(env: Env, seed: int): nat -> nat {
    (i: nat) => env.shuffle(seed, i)
  }

  /** The generator's fixtures as inserted rows: ids in order, the league's id filled in. */
  function Inserted(fixtures: seq<Match>, league: nat, firstId: nat): (ms: seq<Match>)
    ensures |ms| == |fixtures|
  {
    seq(|fixtures|, i requires 0 <= i < |fixtures| => fixtures[i].(id := firstId + i, leagueId := league))
  }

  function NewLeague(name: string, n: nat, seed: int): League
    requires n > 0
  {
    League(name, 0, 2 * (n - 1), NotStarted, seed)
  }

  function NewSeason(name: string, ids: seq<nat>, seed: int, env: Env, league: nat, firstId: nat): Season
    requires ids != []
  {
    Season(NewLeague(name, |ids|, seed), (set id | id in ids),
           Inserted(Fixture.Schedule(Fixture.Shuffled(ids, ShuffleDraws(env, seed))), league, firstId), map[])
  }

  ghost function CreateIn(sys: Sys, name: string, explicit: seq<nat>, seed: int, env: Env): Result<Sys> {
    if name == "" then Err(InvalidInput)
    else
      match ResolveTeamIDs(sys.teams, explicit)
      case Err(e) => Err(e)
      case Ok(ids) =>
        if |ids| < 4 || |ids| % 2 != 0 then Err(InvalidInput)
        else if !NoDuplicates(ids) then Err(Internal)
        else
          var season := NewSeason(name, ids, seed, env, sys.nextLeague, sys.nextMatch);
          Ok(sys.(seasons := sys.seasons[sys.nextLeague := season], nextLeague := sys.nextLeague + 1,
                  nextMatch := sys.nextMatch + |season.matches|))
  }

  function RosterIn(sys: Sys, league: nat): seq<Team>
    requires league in sys.seasons
  {
    Roster(sys.teams, sys.seasons[league].members)
  }

  /** What an operation on a single league does to the whole. */
  function OnLeague(sys: Sys, league: nat, r: Result<Season>): Result<Sys> {
    match r
    case Err(e) => Err(e)
    case Ok(s) => Ok(sys.(seasons := sys.seasons[league := s]))
  }

  ghost predicate HasMatch(s: Season, id: nat) {
    exists m :: m in s.matches && m.id == id
  }

  ghost function MatchOf(s: Season, id: nat): (m: Match)
    requires HasMatch(s, id)
    ensures m in s.matches && m.id == id
  {
    var m :| m in s.matches && m.id == id; m
  }

  ghost predicate Owns(sys: Sys, league: nat, id: nat) {
    league in sys.seasons && HasMatch(sys.seasons[league], id)
  }

  ghost function EditOf(sys: Sys, league: nat, id: nat, homeGoals: nat, awayGoals: nat, reason: string): Result<Sys>
    requires Owns(sys, league, id)
  {
    var seen := MatchOf(sys.seasons[league], id);
    match EditMatch(sys.seasons[league], RosterIn(sys, league), seen, homeGoals, awayGoals)
    case Err(e) => Err(e)
    case Ok(s) =>
      Ok(sys.(seasons := sys.seasons[league := s],
              audits := sys.audits + [AuditOf(seen, homeGoals, awayGoals, reason)]))
  }

  ghost function EditIn(sys: Sys, id: nat, homeGoals: int, awayGoals: int, reason: string): Result<Sys> {
    if homeGoals < 0 || awayGoals < 0 then Err(InvalidInput)
    else if exists league :: Owns(sys, league, id) then
      var league :| Owns(sys, league, id);
      EditOf(sys, league, id, homeGoals, awayGoals, reason)
    else Err(NotFound)
  }

  predicate InRange(rating: int) { 1 <= rating <= 100 }

  function Rerated(teams: seq<Team>, id: nat, attack: int, midfield: int, defense: int): (r: seq<Team>)
    ensures |r| == |teams|
  {
    seq(|teams|, i requires 0 <= i < |teams| =>
      if teams[i].id == id then teams[i].(attack := attack, midfield := midfield, defense := defense) else teams[i])
  }

  /** One operation: the new state, or an error and no change. */
  ghost function Apply(sys: Sys, op: Op, env: Env): Result<Sys> {
    match op
    case CreateLeague(name, ids, seed) => CreateIn(sys, name, ids, seed, env)
    case PlayWeek(l) =>
      if l !in sys.seasons then Err(NotFound)
      else OnLeague(sys, l, SeasonOps.PlayWeek(sys.seasons[l], RosterIn(sys, l), env))
    case PlayAll(l) =>
      if l !in sys.seasons then Err(NotFound)
      else OnLeague(sys, l, SeasonOps.PlayAll(sys.seasons[l], RosterIn(sys, l), env))
    case Reset(l) =>
      if l !in sys.seasons then Err(NotFound) else OnLeague(sys, l, Ok(SeasonOps.Reset(sys.seasons[l])))
    case Recalculate(l) =>
      if l !in sys.seasons then Err(NotFound)
      else OnLeague(sys, l, Ok(SeasonOps.Recalculate(sys.seasons[l], RosterIn(sys, l))))
    case UpdateResult(id, hg, ag, reason) => EditIn(sys, id, hg, ag, reason)
    case UpdateRating(id, a, m, d) =>
      if !InRange(a) || !InRange(m) || !InRange(d) then Err(InvalidInput)
      else if id !in TeamIds(sys.teams) then Err(NotFound)
      else Ok(sys.(teams := Rerated(sys.teams, id, a, m, d)))
  }

  /** The state after an operation, whether it succeeded or not. */
  ghost function Next(sys: Sys, op: Op, env: Env): Sys {
    match Apply(sys, op, env)
    case Err(_) => sys
    case Ok(next) => next
  }

  ghost function Run(sys: Sys, ops: seq<Op>, env: Env): Sys {
    if ops == [] then sys else Next(Run(sys, ops[..|ops| - 1], env), ops[|ops| - 1], env)
  }
}
