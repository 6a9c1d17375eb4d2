/** Entities shared by every component. Identifiers are the BIGSERIAL keys of the schema. */
module Domain {

  datatype Option<+T> = None | Some(value: T)

  datatype Error = NotFound | Conflict | InvalidInput | Internal

  datatype Result<+T> = Ok(value: T) | Err(error: Error)

  datatype Team = Team(id: nat, name: string, attack: int, midfield: int, defense: int)

  /** What Go reads for a key missing from a map of teams. */
  const ZERO_TEAM := Team(0, "", 0, 0, 0)

  /** Status and goals in one value: goals are present exactly when the match is PLAYED. */
  datatype Outcome = Scheduled | Played(homeGoals: nat, awayGoals: nat)

  datatype Match = Match(id: nat, leagueId: nat, week: nat, home: nat, away: nat, outcome: Outcome) {
    predicate Involves(team: nat) { home == team || away == team }
  }

  datatype LeagueStatus = NotStarted | InProgress | Finished

  datatype League = League(name: string, currentWeek: nat, totalWeeks: nat, status: LeagueStatus, seed: int)

  datatype Stats = Stats(played: nat, won: nat, drawn: nat, lost: nat,
                         goalsFor: nat, goalsAgainst: nat, goalDifference: int, points: nat)

  const NO_STATS := Stats(0, 0, 0, 0, 0, 0, 0, 0)

  datatype StandingRow = StandingRow(rank: nat, teamId: nat, teamName: string, stats: Stats)

  /** State of a seeded generator; what it yields is a function of this state. */
  datatype Rng = Rng(state: nat)

  /** One simulated match: the score and the generator state it leaves behind. */
  datatype Simulated = Simulated(homeGoals: nat, awayGoals: nat, rng: Rng)

  type Simulator = (Team, Team, Rng) -> Simulated

  /** A stored table row: the team's name lives in the team catalog and is joined on reading. */
  datatype SnapshotRow = SnapshotRow(rank: nat, teamId: nat, stats: Stats)

  datatype Audit = Audit(matchId: nat, oldHome: nat, oldAway: nat, newHome: nat, newAway: nat, reason: string)

  /** The pluggable parts: the simulator, the generator seeded by (league seed, week), the draws of the shuffle. */
  datatype Env = Env(simulate: Simulator, weekRng: (int, nat) -> Rng, shuffle: (int, nat) -> nat)

  /** The map a Go loop over the teams builds, keyed by id: a later team replaces an earlier one. */
  function ById(teams: seq<Team>): map<nat, Team> {
    if teams == [] then map[]
    else ById(teams[..|teams| - 1])[teams[|teams| - 1].id := teams[|teams| - 1]]
  }

  function Lookup(byId: map<nat, Team>, id: nat): Team {
    if id in byId then byId[id] else ZERO_TEAM
  }

  ghost predicate UniqueTeams(teams: seq<Team>) {
    && (forall i, j :: 0 <= i < j < |teams| ==> teams[i].id != teams[j].id)
    && (forall i, j :: 0 <= i < j < |teams| ==> teams[i].name != teams[j].name)
  }

  lemma {:induction false} ByIdKeys(teams: seq<Team>)
    ensures forall id :: id in ById(teams) <==> exists i :: 0 <= i < |teams| && teams[i].id == id
    ensures forall id :: id in ById(teams) ==> ById(teams)[id] in teams && ById(teams)[id].id == id
  {
    if teams != [] {
      var init, last := teams[..|teams| - 1], teams[|teams| - 1];
      ByIdKeys(init);
      forall id ensures id in ById(teams) <==> exists i :: 0 <= i < |teams| && teams[i].id == id {
        if id in ById(init) {
          var i :| 0 <= i < |init| && init[i].id == id;
          assert teams[i].id == id;
        }
        if i :| 0 <= i < |teams| && teams[i].id == id {
          assert i < |init| ==> init[i].id == id;
        }
      }
    }
  }

  lemma {:induction false} ByIdAt(teams: seq<Team>, i: nat)
    requires i < |teams|
    requires forall i, j :: 0 <= i < j < |teams| ==> teams[i].id != teams[j].id
    ensures teams[i].id in ById(teams) && ById(teams)[teams[i].id] == teams[i]
  {
    if i < |teams| - 1 { ByIdAt(teams[..|teams| - 1], i); }
  }
}
