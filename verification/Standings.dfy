/** The league table (internal/standings/calculator.go). */
module Standings {
  import opened Seqs
  import opened Sorting
  import opened Text
  import opened Domain

  // ----- one team's row

  function ApplyResult(s: Stats, scored: nat, conceded: nat): Stats {
    var goalsFor, goalsAgainst := s.goalsFor + scored, s.goalsAgainst + conceded;
    var t := s.(played := s.played + 1, goalsFor := goalsFor, goalsAgainst := goalsAgainst,
                goalDifference := goalsFor - goalsAgainst);
    if scored > conceded then t.(won := t.won + 1, points := t.points + 3)
    else if scored == conceded then t.(drawn := t.drawn + 1, points := t.points + 1)
    else t.(lost := t.lost + 1)
  }

  /** One match, seen from one team: the home side is applied before the away side. */
  function ApplyMatch(team: nat, s: Stats, m: Match): Stats {
    match m.outcome
    case Scheduled => s
    case Played(hg, ag) =>
      var s1 := if m.home == team then ApplyResult(s, hg, ag) else s;
      if m.away == team then ApplyResult(s1, ag, hg) else s1
  }

  function Step(team: nat): (Stats, Match) -> Stats {
    (s: Stats, m: Match) => ApplyMatch(team, s, m)
  }

  function Tally(team: nat, ms: seq<Match>): Stats {
    Fold(ms, Step(team), NO_STATS)
  }

  // ----- the ranking

  /** Points, then goal difference, then goals scored, then name. */
  predicate RowLess(a: StandingRow, b: StandingRow) {
    if a.stats.points != b.stats.points then a.stats.points > b.stats.points
    else if a.stats.goalDifference != b.stats.goalDifference then a.stats.goalDifference > b.stats.goalDifference
    else if a.stats.goalsFor != b.stats.goalsFor then a.stats.goalsFor > b.stats.goalsFor
    else StringLess(a.teamName, b.teamName)
  }

  lemma {:induction false} RowLessIsStrictWeakOrder()
    ensures StrictWeakOrder(RowLess)
  {
    forall x: StandingRow, y: StandingRow ensures RowLess(x, y) ==> !RowLess(y, x) {
      StringLessTrichotomy(x.teamName, y.teamName);
    }
    forall x: StandingRow, y: StandingRow, z: StandingRow
      ensures RowLess(x, z) ==> RowLess(x, y) || RowLess(y, z)
    {
      NameNegativelyTransitive(x.teamName, y.teamName, z.teamName);
    }
  }

  lemma {:induction false} NameNegativelyTransitive(a: string, b: string, c: string)
    ensures StringLess(a, c) ==> StringLess(a, b) || StringLess(b, c)
  {
    StringLessTrichotomy(a, b);
    if StringLess(b, a) && StringLess(a, c) { StringLessTransitive(b, a, c); }
  }

  function Row(team: Team, ms: seq<Match>): StandingRow {
    StandingRow(0, team.id, team.name, Tally(team.id, ms))
  }

  function Rows(teams: seq<Team>, ms: seq<Match>): (rows: seq<StandingRow>) {
    seq(|teams|, i requires 0 <= i < |teams| => Row(teams[i], ms))
  }

  function Ranked(rows: seq<StandingRow>): (r: seq<StandingRow>)
    ensures |r| == |rows|
  {
    seq(|rows|, i requires 0 <= i < |rows| => rows[i].(rank := i + 1))
  }

  /** The table as a function of the teams and the matches. */
  function Table(teams: seq<Team>, ms: seq<Match>): (table: seq<StandingRow>)
    ensures |table| == |teams|
  {
    Ranked(Sorted(Rows(teams, ms), RowLess))
  }

  // ----- what any run of the calculator returns

  /** The rows the accumulation loop leaves behind: one per distinct id. */
  function RowMap(byId: map<nat, Team>, ms: seq<Match>): map<nat, StandingRow> {
    map id | id in byId :: StandingRow(0, id, byId[id].name, Tally(id, ms))
  }

  function Unranked(row: StandingRow): StandingRow { row.(rank := 0) }

  /** Every row once, no row ahead of one that outranks it, ranks 1, 2, 3, ... */
  ghost predicate IsTable(out: seq<StandingRow>, rows: map<nat, StandingRow>) {
    && (forall i :: 0 <= i < |out| ==> out[i].rank == i + 1)
    && (forall i :: 0 <= i < |out| ==> out[i].teamId in rows && Unranked(out[i]) == rows[out[i].teamId])
    && (forall id :: id in rows ==> exists i :: 0 <= i < |out| && out[i].teamId == id)
    && (forall i, j :: 0 <= i < j < |out| ==> out[i].teamId != out[j].teamId)
    && NoInversion(out, RowLess)
  }

  ghost predicate DistinctNames(rows: map<nat, StandingRow>) {
    forall a, b :: a in rows && b in rows && a != b ==> rows[a].teamName != rows[b].teamName
  }

  method Calculate(teams: seq<Team>, matches: seq<Match>) returns (out: seq<StandingRow>)
    ensures IsTable(out, RowMap(ById(teams), matches)) && |out| == |ById(teams)|
    ensures UniqueTeams(teams) ==> out == Table(teams, matches)
  {
    var rows := NewRows(teams);
    for i := 0 to |matches|
      invariant rows == RowMap(ById(teams), matches[..i])
    {
      var m := matches[i];
      assert matches[..i + 1] == matches[..i] + [m];
      RowMapStep(ById(teams), matches[..i], m);
      match m.outcome
      case Scheduled =>
      case Played(hg, ag) =>
        rows := Credit(rows, m.home, hg, ag);
        rows := Credit(rows, m.away, ag, hg);
    }
    assert matches[..|matches|] == matches;
    assert rows.Keys == ById(teams).Keys && |rows| == |rows.Keys| && |ById(teams)| == |ById(teams).Keys|;
    out := Arrange(rows);
    if UniqueTeams(teams) {
      TableIsTable(teams, matches);
      RowMapNames(teams, matches);
      TableUnique(out, Table(teams, matches), rows);
    }
  }

  method NewRows(teams: seq<Team>) returns (rows: map<nat, StandingRow>)
    ensures rows == RowMap(ById(teams), [])
  {
    rows := map[];
    for i := 0 to |teams|
      invariant rows == RowMap(ById(teams[..i]), [])
    {
      var t := teams[i];
      assert teams[..i + 1][..i] == teams[..i];
      rows := rows[t.id := StandingRow(0, t.id, t.name, NO_STATS)];
    }
    assert teams[..|teams|] == teams;
  }

  /** applyResult on the row of a team; a team without a row is skipped. */
  function Credit(rows: map<nat, StandingRow>, team: nat, scored: nat, conceded: nat): map<nat, StandingRow> {
    if team in rows then rows[team := rows[team].(stats := ApplyResult(rows[team].stats, scored, conceded))] else rows
  }

  lemma {:induction false} RowMapStep(byId: map<nat, Team>, ms: seq<Match>, m: Match)
    ensures RowMap(byId, ms + [m]) ==
            match m.outcome
            case Scheduled => RowMap(byId, ms)
            case Played(hg, ag) => Credit(Credit(RowMap(byId, ms), m.home, hg, ag), m.away, ag, hg)
  {
    assert (ms + [m])[..|ms|] == ms;
    forall id | id in byId ensures Tally(id, ms + [m]) == ApplyMatch(id, Tally(id, ms), m) {
    }
  }

  /** The rows in whatever order the map yields them, sorted, then numbered. */
  method Arrange(rows: map<nat, StandingRow>) returns (out: seq<StandingRow>)
    requires Keyed(rows)
    ensures IsTable(out, rows) && |out| == |rows|
  {
    var list := Values(rows);
    var a := new StandingRow[|list|](i requires 0 <= i < |list| => list[i]);
    assert a[..] == list;
    RowLessIsStrictWeakOrder();
    SortSlice(a, RowLess);
    ghost var sorted := a[..];
    Number(a);
    RankedIsTable(list, sorted, rows);
    out := a[..];
  }

  method Number(a: array<StandingRow>)
    modifies a
    ensures a[..] == Ranked(old(a[..]))
  {
    for i := 0 to a.Length
      invariant forall j :: 0 <= j < i ==> a[j] == old(a[j]).(rank := j + 1)
      invariant forall j :: i <= j < a.Length ==> a[j] == old(a[j])
    {
      a[i] := a[i].(rank := i + 1);
    }
  }

  ghost predicate Enumerates(list: seq<StandingRow>, rows: map<nat, StandingRow>) {
    && NoDuplicates(list)
    && (forall x :: x in list <==> x.teamId in rows && x == rows[x.teamId])
  }

  /** Ranging over a map: the next key is any key not yet visited. */
  method Values(rows: map<nat, StandingRow>) returns (list: seq<StandingRow>)
    requires Keyed(rows)
    ensures Enumerates(list, rows) && |list| == |rows|
  {
    var remaining := rows.Keys;
    list := [];
    while remaining != {}
      invariant remaining <= rows.Keys && |list| + |remaining| == |rows|
      invariant Enumerates(list, map id | id in rows && id !in remaining :: rows[id])
      decreases |remaining|
    {
      var id :| id in remaining;
      list := list + [rows[id]];
      remaining := remaining - {id};
    }
    assert (map id | id in rows && id !in remaining :: rows[id]) == rows;
  }

  ghost predicate Keyed(rows: map<nat, StandingRow>) {
    forall id :: id in rows ==> rows[id].teamId == id && rows[id].rank == 0
  }

  lemma {:induction false} RankedInOrder(sorted: seq<StandingRow>)
    requires NoInversion(sorted, RowLess)
    ensures NoInversion(Ranked(sorted), RowLess)
  {
    var out := Ranked(sorted);
    forall i, j | 0 <= i < j < |out| ensures !RowLess(out[j], out[i]) {
      assert !RowLess(sorted[j], sorted[i]);
    }
  }

  lemma {:induction false} RankedIsTable(list: seq<StandingRow>, sorted: seq<StandingRow>, rows: map<nat, StandingRow>)
    requires Keyed(rows) && Enumerates(list, rows)
    requires multiset(sorted) == multiset(list) && NoInversion(sorted, RowLess)
    ensures IsTable(Ranked(sorted), rows)
  {
    var out := Ranked(sorted);
    SortedEnumerates(list, sorted, rows);
    assert forall i :: 0 <= i < |out| ==> sorted[i] in sorted;
    assert NoInversion(out, RowLess) by { RankedInOrder(sorted); }
    forall i, j | 0 <= i < j < |out| ensures out[i].teamId != out[j].teamId {
      DistinctTeams(sorted, rows, i, j);
    }
    forall id | id in rows ensures exists i :: 0 <= i < |out| && out[i].teamId == id {
      var i := RowOf(sorted, rows, id);
      assert out[i].teamId == id;
    }
  }

  lemma {:induction false} RowOf(list: seq<StandingRow>, rows: map<nat, StandingRow>, id: nat) returns (i: nat)
    requires Enumerates(list, rows) && Keyed(rows) && id in rows
    ensures i < |list| && list[i].teamId == id
  {
    assert rows[id] in list;
    i :| 0 <= i < |list| && list[i] == rows[id];
  }

  lemma {:induction false} SortedEnumerates(list: seq<StandingRow>, sorted: seq<StandingRow>,
                                            rows: map<nat, StandingRow>)
    requires Enumerates(list, rows) && multiset(sorted) == multiset(list)
    ensures Enumerates(sorted, rows)
  {
    assert forall x :: x in sorted <==> x in multiset(sorted);
    assert forall x :: x in list <==> x in multiset(list);
  }

  lemma {:induction false} DistinctTeams(list: seq<StandingRow>, rows: map<nat, StandingRow>, i: nat, j: nat)
    requires Enumerates(list, rows) && i < j < |list|
    ensures list[i].teamId != list[j].teamId
  {
    Distinct(list, i, j);
    assert list[i] in list && list[j] in list;
  }

  // ----- one table only

  lemma {:induction false} UnrankedOrdered(out: seq<StandingRow>, rows: map<nat, StandingRow>)
    requires IsTable(out, rows) && Keyed(rows) && DistinctNames(rows)
    ensures StrictlySorted(Stripped(out), RowLess)
    ensures forall x :: x in Stripped(out) <==> x.teamId in rows && x == rows[x.teamId]
  {
    var s := Stripped(out);
    forall i, j | 0 <= i < j < |s| ensures RowLess(s[i], s[j]) {
      assert rows[out[i].teamId].teamName != rows[out[j].teamId].teamName;
      StringLessTrichotomy(out[i].teamName, out[j].teamName);
    }
    forall x: StandingRow | x.teamId in rows && x == rows[x.teamId] ensures x in s {
      var i :| 0 <= i < |out| && out[i].teamId == x.teamId;
      assert s[i] == x;
    }
  }

  function Stripped(out: seq<StandingRow>): (s: seq<StandingRow>)
    ensures |s| == |out|
  {
    seq(|out|, i requires 0 <= i < |out| => Unranked(out[i]))
  }

  /** Names being unique, there is one table: neither map order nor an unstable sort can show. */
  lemma {:induction false} TableUnique(a: seq<StandingRow>, b: seq<StandingRow>, rows: map<nat, StandingRow>)
    requires IsTable(a, rows) && IsTable(b, rows) && Keyed(rows) && DistinctNames(rows)
    ensures a == b
  {
    assert Stripped(a) == Stripped(b) by {
      UnrankedOrdered(a, rows);
      UnrankedOrdered(b, rows);
      RowLessIsStrictWeakOrder();
      StrictlySortedUnique(Stripped(a), Stripped(b), RowLess);
    }
    RanksRestored(a);
    RanksRestored(b);
  }

  lemma {:induction false} RanksRestored(out: seq<StandingRow>)
    requires forall i :: 0 <= i < |out| ==> out[i].rank == i + 1
    ensures out == Ranked(Stripped(out))
  {
  }

  lemma {:induction false} RowMapNames(teams: seq<Team>, ms: seq<Match>)
    requires UniqueTeams(teams)
    ensures DistinctNames(RowMap(ById(teams), ms))
  {
    var byId := ById(teams);
    forall a, b | a in byId && b in byId && a != b ensures byId[a].name != byId[b].name {
      ByIdKeys(teams);
      var i :| 0 <= i < |teams| && teams[i].id == a;
      var j :| 0 <= j < |teams| && teams[j].id == b;
      ByIdAt(teams, i);
      ByIdAt(teams, j);
    }
  }

  lemma {:induction false} RowsEnumerate(teams: seq<Team>, ms: seq<Match>)
    requires UniqueTeams(teams)
    ensures Enumerates(Rows(teams, ms), RowMap(ById(teams), ms))
  {
    var list, rows := Rows(teams, ms), RowMap(ById(teams), ms);
    DifferentEach(list);
    ByIdKeys(teams);
    forall i | 0 <= i < |teams| ensures list[i].teamId in rows && list[i] == rows[list[i].teamId] {
      ByIdAt(teams, i);
    }
    forall x: StandingRow | x.teamId in rows && x == rows[x.teamId] ensures x in list {
      var i :| 0 <= i < |teams| && teams[i].id == x.teamId;
      ByIdAt(teams, i);
      assert list[i] == x;
    }
  }

  lemma {:induction false} TableIsTable(teams: seq<Team>, ms: seq<Match>)
    requires UniqueTeams(teams)
    ensures IsTable(Table(teams, ms), RowMap(ById(teams), ms))
  {
    RowsEnumerate(teams, ms);
    RowLessIsStrictWeakOrder();
    SortedIsSorted(Rows(teams, ms), RowLess);
    RankedIsTable(Rows(teams, ms), Sorted(Rows(teams, ms), RowLess), RowMap(ById(teams), ms));
  }

  /** Teams and matches that give every team the same row give the same table. */
  lemma {:induction false} TableByRows(teams: seq<Team>, ms: seq<Match>, teams': seq<Team>, ms': seq<Match>)
    requires UniqueTeams(teams) && UniqueTeams(teams')
    requires RowMap(ById(teams), ms) == RowMap(ById(teams'), ms')
    ensures Table(teams, ms) == Table(teams', ms')
  {
    TableIsTable(teams, ms);
    TableIsTable(teams', ms');
    RowMapNames(teams, ms);
    TableUnique(Table(teams, ms), Table(teams', ms'), RowMap(ById(teams), ms));
  }

  // ----- the table as a function of the sets alone

  lemma {:induction false} ApplyMatchCommutes(team: nat)
    ensures Commutes(Step(team))
  {
    forall s: Stats, a: Match, b: Match
      ensures Step(team)(Step(team)(s, a), b) == Step(team)(Step(team)(s, b), a)
    {
      MatchesSwap(team, s, a, b);
    }
  }

  lemma {:induction false} MatchesSwap(team: nat, s: Stats, a: Match, b: Match)
    ensures ApplyMatch(team, ApplyMatch(team, s, a), b) == ApplyMatch(team, ApplyMatch(team, s, b), a)
  {
    if a.outcome.Played? && b.outcome.Played? {
      var Played(ah, aa) := a.outcome;
      var Played(bh, ba) := b.outcome;
      var a1, a2, b1, b2 := a.home == team, a.away == team, b.home == team, b.away == team;
      var s1 := CreditIf(a1, s, ah, aa);
      assert ApplyMatch(team, s, a) == CreditIf(a2, s1, aa, ah);
      var t1 := CreditIf(b1, s, bh, ba);
      assert ApplyMatch(team, s, b) == CreditIf(b2, t1, ba, bh);
      // a1 a2 b1 b2 -> a1 b1 a2 b2 -> a1 b1 b2 a2 -> b1 a1 b2 a2 -> b1 b2 a1 a2
      CreditsSwap(s1, a2, aa, ah, b1, bh, ba);
      CreditsSwap(CreditIf(b1, s1, bh, ba), a2, aa, ah, b2, ba, bh);
      CreditsSwap(s, a1, ah, aa, b1, bh, ba);
      CreditsSwap(t1, a1, ah, aa, b2, ba, bh);
    }
  }

  function CreditIf(c: bool, s: Stats, scored: nat, conceded: nat): Stats {
    if c then ApplyResult(s, scored, conceded) else s
  }

  lemma {:induction false} CreditsSwap(s: Stats, c: bool, x: nat, y: nat, c': bool, x': nat, y': nat)
    ensures CreditIf(c', CreditIf(c, s, x, y), x', y') == CreditIf(c, CreditIf(c', s, x', y'), x, y)
  {
  }

  lemma {:induction false} TallyPermutation(team: nat, ms: seq<Match>, ms': seq<Match>)
    requires multiset(ms) == multiset(ms')
    ensures Tally(team, ms) == Tally(team, ms')
  {
    ApplyMatchCommutes(team);
    FoldPermutation(ms, ms', Step(team), NO_STATS);
  }

  lemma {:induction false} ByIdPermutation(teams: seq<Team>, teams': seq<Team>)
    requires UniqueTeams(teams) && UniqueTeams(teams') && multiset(teams) == multiset(teams')
    ensures ById(teams) == ById(teams')
  {
    ByIdCarriesOver(teams, teams');
    ByIdCarriesOver(teams', teams);
  }

  lemma {:induction false} ByIdCarriesOver(teams: seq<Team>, teams': seq<Team>)
    requires UniqueTeams(teams') && multiset(teams) == multiset(teams')
    ensures forall id :: id in ById(teams) ==> id in ById(teams') && ById(teams)[id] == ById(teams')[id]
  {
    ByIdKeys(teams);
    forall id | id in ById(teams) ensures id in ById(teams') && ById(teams)[id] == ById(teams')[id] {
      var t := ById(teams)[id];
      assert t in multiset(teams');
      var j :| 0 <= j < |teams'| && teams'[j] == t;
      ByIdAt(teams', j);
    }
  }

  /** Neither the order of the teams nor that of the matches shows in the table. */
  lemma {:induction false} TableOfSets(teams: seq<Team>, ms: seq<Match>, teams': seq<Team>, ms': seq<Match>)
    requires UniqueTeams(teams) && UniqueTeams(teams')
    requires multiset(teams) == multiset(teams') && multiset(ms) == multiset(ms')
    ensures Table(teams, ms) == Table(teams', ms')
  {
    ByIdPermutation(teams, teams');
    forall id | id in ById(teams) ensures Tally(id, ms) == Tally(id, ms') {
      TallyPermutation(id, ms, ms');
    }
    TableByRows(teams, ms, teams', ms');
  }

  /** Points decide, then goal difference, then goals scored, and teams level on all three stand by name. */
  lemma {:induction false} TableOrder(teams: seq<Team>, ms: seq<Match>, i: nat, j: nat)
    requires UniqueTeams(teams) && i < j < |teams|
    ensures var above, below := Table(teams, ms)[i], Table(teams, ms)[j]; var a, b := above.stats, below.stats;
            && a.points >= b.points
            && (a.points == b.points ==> a.goalDifference >= b.goalDifference)
            && (a.points == b.points && a.goalDifference == b.goalDifference ==> a.goalsFor >= b.goalsFor)
            && (a.points == b.points && a.goalDifference == b.goalDifference && a.goalsFor == b.goalsFor ==>
                  Alphabetical(above.teamName, below.teamName))
  {
    hide Table, Tally, ById, StringLess, Alphabetical;
    var table, rows := Table(teams, ms), RowMap(ById(teams), ms);
    TableIsTable(teams, ms);
    RowMapNames(teams, ms);
    var above, below := table[i], table[j];
    assert Unranked(above) == rows[above.teamId] && Unranked(below) == rows[below.teamId];
    assert above.teamName != below.teamName;
    StringLessTrichotomy(above.teamName, below.teamName);
    StringLessIsAlphabetical(above.teamName, below.teamName);
  }

  /** Matches that do not count for a team can be left out. */
  lemma {:induction false} TallyFilter(team: nat, ms: seq<Match>, p: Match -> bool)
    requires forall m :: m in ms && !p(m) ==> m.outcome.Scheduled? || !m.Involves(team)
    ensures Tally(team, Filter(ms, p)) == Tally(team, ms)
  {
    if ms != [] {
      var init, last := ms[..|ms| - 1], ms[|ms| - 1];
      assert last in ms && forall m :: m in init ==> m in ms;
      TallyFilter(team, init, p);
      if p(last) {
        var r := Filter(init, p);
        assert (r + [last])[..|r + [last]| - 1] == r;
      }
    }
  }

  lemma {:induction false} TableFilter(teams: seq<Team>, ms: seq<Match>, p: Match -> bool)
    requires forall m :: m in ms && !p(m) ==> m.outcome.Scheduled?
    ensures Table(teams, Filter(ms, p)) == Table(teams, ms)
  {
    forall i | 0 <= i < |teams| ensures Rows(teams, Filter(ms, p))[i] == Rows(teams, ms)[i] {
      TallyFilter(teams[i].id, ms, p);
    }
    assert Rows(teams, Filter(ms, p)) == Rows(teams, ms);
  }
}
