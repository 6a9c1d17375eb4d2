/** The database tables as values, and the leagues they hold. */
module Tables {
  import opened Seqs
  import opened Domain
  import opened SeasonOps
  import opened SeasonLaws
  import opened System

  datatype Database = Database(
    teams: seq<Team>,
    leagues: map<nat, League>,
    members: map<nat, set<nat>>,
    matches: seq<Match>,
    snapshots: map<nat, map<nat, seq<SnapshotRow>>>,
    audits: seq<Audit>,
    nextLeague: nat,
    nextMatch: nat)

  function OfLeague(l: nat): Match -> bool {
    (m: Match) => m.leagueId == l
  }

  function OfLeagueInWeek(l: nat, week: nat): Match -> bool {
    (m: Match) => m.leagueId == l && m.week == week
  }

  /** Primary and foreign keys. */
  ghost predicate Schema(db: Database) {
    && db.members.Keys == db.leagues.Keys && db.snapshots.Keys == db.leagues.Keys
    && IdsIncreasing(db.matches)
    && (forall m :: m in db.matches ==> m.leagueId in db.leagues && m.id < db.nextMatch)
    && (forall l :: l in db.leagues ==> l < db.nextLeague)
  }

  ghost function SeasonIn(db: Database, l: nat): Season
    requires Schema(db) && l in db.leagues
  {
    Season(db.leagues[l], db.members[l], Filter(db.matches, OfLeague(l)), db.snapshots[l])
  }

  /** The leagues behind the tables. */
  ghost function Abstract(db: Database): Sys
    requires Schema(db)
  {
    Sys(db.teams, map l | l in db.leagues :: SeasonIn(db, l), db.audits, db.nextLeague, db.nextMatch)
  }

  function At(sys: Sys, l: nat, s: Season): Sys {
    sys.(seasons := sys.seasons[l := s])
  }

  // ----- statements and what they mean for the leagues

  /** UPDATE matches ... WHERE league_id = l: rows keep their identity, other leagues their rows. */
  ghost predicate Touches(ms: seq<Match>, ms': seq<Match>, l: nat) {
    && |ms| == |ms'|
    && forall i :: 0 <= i < |ms| ==>
         && ms'[i].id == ms[i].id && ms'[i].leagueId == ms[i].leagueId
         && (ms[i].leagueId != l ==> ms'[i] == ms[i])
  }

  lemma {:induction false} OneLeagueReplaced(db: Database, db': Database, l: nat)
    requires Schema(db) && Schema(db') && l in db.leagues && db'.leagues.Keys == db.leagues.Keys
    requires db'.teams == db.teams && db'.audits == db.audits
    requires db'.nextLeague == db.nextLeague && db'.nextMatch == db.nextMatch
    requires forall k :: k in db.leagues && k != l ==> SeasonIn(db', k) == SeasonIn(db, k)
    ensures Abstract(db') == At(Abstract(db), l, SeasonIn(db', l))
  {
    hide Schema, SeasonIn;
    assert forall k :: k in db'.leagues <==> k in db.leagues;
    assert Abstract(db').seasons == At(Abstract(db), l, SeasonIn(db', l)).seasons;
  }

  lemma {:induction false} MatchesReplaced(db: Database, ms: seq<Match>, l: nat)
    requires Schema(db) && l in db.leagues && Touches(db.matches, ms, l)
    ensures Schema(db.(matches := ms))
    ensures Abstract(db.(matches := ms)) == At(Abstract(db), l, SeasonIn(db, l).(matches := Filter(ms, OfLeague(l))))
  {
    hide IdsIncreasing;
    SchemaKept(db, ms, l);
    var db' := db.(matches := ms);
    forall k | k in db.leagues && k != l ensures SeasonIn(db', k) == SeasonIn(db, k) {
      FilterCongruence(db.matches, ms, OfLeague(k));
    }
    OneLeagueReplaced(db, db', l);
  }

  lemma {:induction false} SchemaKept(db: Database, ms: seq<Match>, l: nat)
    requires Schema(db) && Touches(db.matches, ms, l)
    ensures Schema(db.(matches := ms))
  {
    forall i, j | 0 <= i < j < |ms| ensures ms[i].id < ms[j].id {
      assert db.matches[i].id < db.matches[j].id;
    }
    forall m | m in ms ensures m.leagueId in db.leagues && m.id < db.nextMatch {
      var i :| 0 <= i < |ms| && ms[i] == m;
      assert db.matches[i] in db.matches;
    }
  }

  lemma {:induction false} LeagueReplaced(db: Database, l: nat, league: League)
    requires Schema(db) && l in db.leagues
    ensures Schema(db.(leagues := db.leagues[l := league]))
    ensures Abstract(db.(leagues := db.leagues[l := league])) == At(Abstract(db), l, SeasonIn(db, l).(league := league))
  {
    hide IdsIncreasing;
    var db' := db.(leagues := db.leagues[l := league]);
    assert db'.leagues.Keys == db.leagues.Keys;
    OneLeagueReplaced(db, db', l);
  }

  lemma {:induction false} SnapshotsReplaced(db: Database, l: nat, snapshots: map<nat, seq<SnapshotRow>>)
    requires Schema(db) && l in db.leagues
    ensures Schema(db.(snapshots := db.snapshots[l := snapshots]))
    ensures Abstract(db.(snapshots := db.snapshots[l := snapshots])) ==
            At(Abstract(db), l, SeasonIn(db, l).(snapshots := snapshots))
  {
    hide IdsIncreasing;
    var db' := db.(snapshots := db.snapshots[l := snapshots]);
    assert db'.snapshots.Keys == db.snapshots.Keys;
    OneLeagueReplaced(db, db', l);
  }

  lemma {:induction false} AuditsReplaced(db: Database, audits: seq<Audit>)
    requires Schema(db)
    ensures Schema(db.(audits := audits)) && Abstract(db.(audits := audits)) == Abstract(db).(audits := audits)
  {
  }

  lemma {:induction false} TeamsReplaced(db: Database, teams: seq<Team>)
    requires Schema(db)
    ensures Schema(db.(teams := teams)) && Abstract(db.(teams := teams)) == Abstract(db).(teams := teams)
  {
  }

  // ----- recording scores

  lemma {:induction false} FilterRecord(ms: seq<Match>, scores: map<nat, Outcome>, l: nat)
    ensures Filter(Record(ms, scores), OfLeague(l)) == Record(Filter(ms, OfLeague(l)), scores)
  {
    var f := (m: Match) => if m.id in scores then m.(outcome := scores[m.id]) else m;
    FilterMap(ms, Record(ms, scores), OfLeague(l), f);
  }

  lemma {:induction false} RecordedMore(ms: seq<Match>, scores: map<nat, Outcome>, id: nat, o: Outcome)
    ensures Record(Record(ms, scores), map[id := o]) == Record(ms, scores[id := o])
  {
  }

  lemma {:induction false} WeekList(ms: seq<Match>, l: nat, week: nat)
    ensures Filter(ms, OfLeagueInWeek(l, week)) == Filter(Filter(ms, OfLeague(l)), InWeek(week))
  {
    FilterTwice(ms, OfLeague(l), InWeek(week), OfLeagueInWeek(l, week));
  }

  function ClearedIn(ms: seq<Match>, l: nat): (r: seq<Match>)
    ensures |r| == |ms|
  {
    seq(|ms|, i requires 0 <= i < |ms| => if ms[i].leagueId == l then ms[i].(outcome := Scheduled) else ms[i])
  }

  lemma {:induction false} FilterCleared(ms: seq<Match>, l: nat)
    ensures Filter(ClearedIn(ms, l), OfLeague(l)) == Cleared(Filter(ms, OfLeague(l)))
    ensures Touches(ms, ClearedIn(ms, l), l)
  {
    var f := (m: Match) => if m.leagueId == l then m.(outcome := Scheduled) else m;
    FilterMap(ms, ClearedIn(ms, l), OfLeague(l), f);
    var own := Filter(ms, OfLeague(l));
    forall i | 0 <= i < |own| ensures own[i].leagueId == l {
      assert own[i] in own;
    }
  }

  function SnapshotsOf(snapshots: map<nat, map<nat, seq<SnapshotRow>>>, l: nat): map<nat, seq<SnapshotRow>> {
    if l in snapshots then snapshots[l] else map[]
  }

  /** The old rows of the week, if any, are replaced wholesale. */
  function Upserted(snapshots: map<nat, seq<SnapshotRow>>, week: nat, rows: seq<StandingRow>): map<nat,
                    seq<SnapshotRow>> {
    snapshots[week := Stored(rows)]
  }

  /** What DELETE ... WHERE week_number >= fromWeek leaves. */
  function EarlierThan(snapshots: map<nat, seq<SnapshotRow>>, fromWeek: nat): map<nat, seq<SnapshotRow>> {
    map k | k in snapshots && k < fromWeek :: snapshots[k]
  }

  // ----- inserting fixtures

  /** Rows get the next ids of the sequence, in order. */
  function Numbered(fixtures: seq<Match>, firstId: nat): (ms: seq<Match>)
    ensures |ms| == |fixtures|
  {
    seq(|fixtures|, i requires 0 <= i < |fixtures| => fixtures[i].(id := firstId + i))
  }

  predicate SameFixture(a: Match, b: Match) {
    a.leagueId == b.leagueId && a.week == b.week && a.home == b.home && a.away == b.away
  }

  /** The CHECK and UNIQUE constraints of the matches table. */
  predicate Acceptable(existing: seq<Match>, fixtures: seq<Match>) {
    && (forall i :: 0 <= i < |fixtures| ==> fixtures[i].home != fixtures[i].away && fixtures[i].week >= 1)
    && (forall i, j :: 0 <= i < j < |fixtures| ==> !SameFixture(fixtures[i], fixtures[j]))
    && (forall i, j :: 0 <= i < |fixtures| && 0 <= j < |existing| ==> !SameFixture(fixtures[i], existing[j]))
  }
}
