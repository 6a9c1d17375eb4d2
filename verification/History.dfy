/** The cached tables read back, grouped into weeks (standings_snapshot_repo.go). */
module History {
  import opened Seqs
  import opened Sorting
  import opened Domain
  import opened Standings
  import opened SeasonOps
  import opened SeasonLaws
  import opened SeasonTables
  import opened System
  import opened SystemLaws

  /** One row the query yields. */
  datatype HistoryRow = HistoryRow(week: nat, row: StandingRow)

  /** One week of the history. */
  datatype WeekTable = WeekTable(week: nat, rows: seq<StandingRow>)

  /** ORDER BY week_number, rank */
  predicate ByWeekThenRank(a: HistoryRow, b: HistoryRow) {
    if a.week != b.week then a.week < b.week else a.row.rank < b.row.rank
  }

  /** Stored rows with the names the catalog has for their teams. */
  function Joined(catalog: seq<Team>, rows: seq<SnapshotRow>): (table: seq<StandingRow>)
    ensures |table| == |rows|
  {
    seq(|rows|, i requires 0 <= i < |rows| =>
      StandingRow(rows[i].rank, rows[i].teamId, Lookup(ById(catalog), rows[i].teamId).name, rows[i].stats))
  }

  function Labelled(t: WeekTable): (rows: seq<HistoryRow>)
    ensures |rows| == |t.rows|
  {
    seq(|t.rows|, i requires 0 <= i < |t.rows| => HistoryRow(t.week, t.rows[i]))
  }

  function Flat(h: seq<WeekTable>): seq<HistoryRow> {
    if h == [] then [] else Flat(h[..|h| - 1]) + Labelled(h[|h| - 1])
  }

  /** The snapshot of one week, as the query joins it. */
  function Read(catalog: seq<Team>, snapshots: map<nat, seq<SnapshotRow>>, week: nat): WeekTable {
    WeekTable(week, if week in snapshots then Joined(catalog, snapshots[week]) else [])
  }

  function ReadAll(catalog: seq<Team>, snapshots: map<nat, seq<SnapshotRow>>, weeks: seq<nat>): (h: seq<WeekTable>)
    ensures |h| == |weeks|
  {
    seq(|weeks|, i requires 0 <= i < |weeks| => Read(catalog, snapshots, weeks[i]))
  }

  /** The rows of the join, in whatever order the snapshots are visited. */
  ghost predicate IsJoin(rows: seq<HistoryRow>, catalog: seq<Team>, snapshots: map<nat, seq<SnapshotRow>>) {
    exists weeks :: Visits(weeks, snapshots) && multiset(rows) == multiset(Flat(ReadAll(catalog, snapshots, weeks)))
  }

  ghost predicate Visits(weeks: seq<nat>, snapshots: map<nat, seq<SnapshotRow>>) {
    NoDuplicates(weeks) && forall k :: k in weeks <==> k in snapshots
  }

  lemma {:induction false} ReadMore(catalog: seq<Team>, snapshots: map<nat, seq<SnapshotRow>>, weeks: seq<nat>,
                                    week: nat)
    ensures Flat(ReadAll(catalog, snapshots, weeks + [week])) ==
            Flat(ReadAll(catalog, snapshots, weeks)) + Labelled(Read(catalog, snapshots, week))
  {
    var h := ReadAll(catalog, snapshots, weeks + [week]);
    assert h[..|h| - 1] == ReadAll(catalog, snapshots, weeks);
  }

  /** The join, its snapshots visited in no particular order, then sorted. */
  method SelectHistory(catalog: seq<Team>, snapshots: map<nat, seq<SnapshotRow>>) returns (rows: seq<HistoryRow>)
    ensures IsJoin(rows, catalog, snapshots) && NoInversion(rows, ByWeekThenRank)
  {
    hide Flat, ReadAll, Read, Labelled;
    var left := snapshots.Keys;
    var joined: seq<HistoryRow> := [];
    ghost var weeks: seq<nat> := [];
    assert Flat(ReadAll(catalog, snapshots, [])) == [] by { NothingRead(catalog, snapshots); }
    while left != {}
      invariant NoDuplicates(weeks) && forall k :: k in snapshots <==> k in left || k in weeks
      invariant forall k :: k in left ==> k !in weeks
      invariant joined == Flat(ReadAll(catalog, snapshots, weeks))
    {
      var week: nat :| week in left;
      ReadMore(catalog, snapshots, weeks, week);
      joined := joined + Labelled(Read(catalog, snapshots, week));
      weeks, left := weeks + [week], left - {week};
    }
    assert Visits(weeks, snapshots);
    var a := new HistoryRow[|joined|](i requires 0 <= i < |joined| => joined[i]);
    assert a[..] == joined;
    SortSlice(a, ByWeekThenRank);
    rows := a[..];
  }

  lemma {:induction false} NothingRead(catalog: seq<Team>, snapshots: map<nat, seq<SnapshotRow>>)
    ensures Flat(ReadAll(catalog, snapshots, [])) == []
  {
  }

  // ----- grouping consecutive rows

  /** No empty week, and no two neighbours for the same week. */
  ghost predicate Grouped(h: seq<WeekTable>) {
    && (forall i :: 0 <= i < |h| ==> h[i].rows != [])
    && (forall i :: 0 < i < |h| ==> h[i - 1].week != h[i].week)
  }

  /** The fold of ListHistory: a row joins the last week or opens the next one. */
  method GroupByWeek(rows: seq<HistoryRow>) returns (out: seq<WeekTable>)
    ensures Flat(out) == rows && Grouped(out)
  {
    out := [];
    for i := 0 to |rows|
      invariant Flat(out) == rows[..i] && Grouped(out)
    {
      var r := rows[i];
      ghost var before := out;
      if |out| == 0 || out[|out| - 1].week != r.week {
        out := out + [WeekTable(r.week, [])];
        assert out[..|out| - 1] == before;
      }
      var last := out[|out| - 1];
      assert Flat(out) == rows[..i];
      ghost var widened := out;
      out := out[|out| - 1 := last.(rows := last.rows + [r.row])];
      assert out[..|out| - 1] == widened[..|widened| - 1];
      assert Labelled(out[|out| - 1]) == Labelled(last) + [r];
      assert rows[..i + 1] == rows[..i] + [r];
    }
    assert rows[..|rows|] == rows;
  }

  /** Grouping loses nothing and invents nothing: a grouped history is determined by its rows. */
  lemma {:induction false} GroupingUnique(a: seq<WeekTable>, b: seq<WeekTable>)
    requires Grouped(a) && Grouped(b) && Flat(a) == Flat(b)
    ensures a == b
    decreases |a|
  {
    if a == [] || b == [] {
      if a != [] { FlatNotEmpty(a); }
      if b != [] { FlatNotEmpty(b); }
    } else {
      LastGroup(a, b);
      LastGroup(b, a);
      SameLastGroup(a, b);
      GroupingUnique(a[..|a| - 1], b[..|b| - 1]);
      assert a == a[..|a| - 1] + [a[|a| - 1]] && b == b[..|b| - 1] + [b[|b| - 1]];
    }
  }

  /** The last group ends in the last row and starts where the week changes. */
  lemma {:induction false} LastGroupBounds(h: seq<WeekTable>, k: nat)
    requires Grouped(h) && h != [] && k < |Flat(h)|
    ensures |h[|h| - 1].rows| <= |Flat(h)|
    ensures k >= |Flat(h)| - |h[|h| - 1].rows| ==> Flat(h)[k].week == h[|h| - 1].week
    ensures k == |Flat(h)| - |h[|h| - 1].rows| - 1 ==> Flat(h)[k].week != h[|h| - 1].week
  {
    var init, last := h[..|h| - 1], h[|h| - 1];
    if k >= |Flat(init)| {
      assert Flat(h)[k] == Labelled(last)[k - |Flat(init)|];
    } else if k == |Flat(init)| - 1 {
      assert Flat(h)[k] == Flat(init)[k] == Labelled(init[|init| - 1])[|init[|init| - 1].rows| - 1];
      assert h[|init| - 1].week != h[|init|].week;
    }
  }

  lemma {:induction false} LastGroup(a: seq<WeekTable>, b: seq<WeekTable>)
    requires Grouped(a) && Grouped(b) && a != [] && b != [] && Flat(a) == Flat(b)
    ensures |a[|a| - 1].rows| >= |b[|b| - 1].rows|
  {
    hide Flat;
    var flat, la, lb := Flat(a), a[|a| - 1], b[|b| - 1];
    assert flat != [] by { FlatNotEmpty(a); }
    LastGroupBounds(a, |flat| - 1);
    LastGroupBounds(b, |flat| - 1);
    var k := |flat| - |la.rows| - 1;
    if k >= 0 {
      LastGroupBounds(a, k);
      LastGroupBounds(b, k);
    }
  }

  lemma {:induction false} FlatNotEmpty(h: seq<WeekTable>)
    requires Grouped(h) && h != []
    ensures Flat(h) != []
  {
    assert |Flat(h)| >= |h[|h| - 1].rows| > 0;
  }

  lemma {:induction false} SameLastGroup(a: seq<WeekTable>, b: seq<WeekTable>)
    requires a != [] && b != [] && Flat(a) == Flat(b) && a[|a| - 1].rows != []
    requires |a[|a| - 1].rows| == |b[|b| - 1].rows|
    ensures a[|a| - 1] == b[|b| - 1] && Flat(a[..|a| - 1]) == Flat(b[..|b| - 1])
  {
    hide Labelled;
    var la, lb, n := a[|a| - 1], b[|b| - 1], |Flat(a)| - |a[|a| - 1].rows|;
    assert Flat(a)[n..] == Labelled(la) && Flat(b)[n..] == Labelled(lb);
    assert Flat(a)[..n] == Flat(a[..|a| - 1]) && Flat(b)[..n] == Flat(b[..|b| - 1]);
    LabelledInjective(la, lb);
  }

  lemma {:induction false} LabelledInjective(a: WeekTable, b: WeekTable)
    requires Labelled(a) == Labelled(b) && a.rows != []
    ensures a == b
  {
    assert |a.rows| == |b.rows| && Labelled(a)[0].week == Labelled(b)[0].week;
    forall i | 0 <= i < |a.rows| ensures a.rows[i] == b.rows[i] {
      assert Labelled(a)[i].row == Labelled(b)[i].row;
    }
    assert a.rows == b.rows;
  }

  // ----- the history of a league in order

  /** Weeks 1 to current, each with the table through it, names included. */
  function HistoryOf(s: Season, roster: seq<Team>): (h: seq<WeekTable>)
    ensures |h| == s.league.currentWeek
  {
    seq(s.league.currentWeek, i requires 0 <= i < s.league.currentWeek =>
      WeekTable(i + 1, TableThrough(roster, s.matches, i + 1)))
  }

  function WeeksTo(n: nat): (weeks: seq<nat>)
    ensures |weeks| == n
  {
    seq(n, i requires 0 <= i < n => i + 1)
  }

  /** Storing drops the names, reading joins them back. */
  lemma {:induction false} JoinedIsTable(catalog: seq<Team>, members: set<nat>, ms: seq<Match>)
    requires ValidTeams(catalog)
    ensures Joined(catalog, Stored(Table(Roster(catalog, members), ms))) == Table(Roster(catalog, members), ms)
  {
    var roster := Roster(catalog, members);
    hide Roster, Table, RowLess;
    RosterUnique(catalog, members);
    TableIsTable(roster, ms);
    var table := Table(roster, ms);
    forall i | 0 <= i < |table| ensures Lookup(ById(catalog), table[i].teamId).name == table[i].teamName {
      var id := table[i].teamId;
      assert Unranked(table[i]) == RowMap(ById(roster), ms)[id];
      ByIdKeys(roster);
      RosterTeams(catalog, members, ById(roster)[id]);
      InCatalog(catalog, ById(roster)[id]);
    }
  }

  lemma {:induction false} InCatalog(catalog: seq<Team>, t: Team)
    requires ValidTeams(catalog) && t in catalog
    ensures Lookup(ById(catalog), t.id) == t
  {
    var i :| 0 <= i < |catalog| && catalog[i] == t;
    forall j, k | 0 <= j < k < |catalog| ensures catalog[j].id != catalog[k].id {
      assert catalog[j].id < catalog[k].id;
    }
    ByIdAt(catalog, i);
  }

  /** With a right cache, the snapshots read in week order are the history. */
  lemma {:induction false} ReadIsHistory(catalog: seq<Team>, s: Season)
    requires ValidTeams(catalog) && CacheAgrees(s, Roster(catalog, s.members))
    ensures ReadAll(catalog, s.snapshots, WeeksTo(s.league.currentWeek)) == HistoryOf(s, Roster(catalog, s.members))
  {
    hide Roster, Table, Stored;
    var roster := Roster(catalog, s.members);
    var n := s.league.currentWeek;
    forall i | 0 <= i < n
      ensures ReadAll(catalog, s.snapshots, WeeksTo(n))[i] == HistoryOf(s, roster)[i]
    {
      assert i + 1 in s.snapshots;
      JoinedIsTable(catalog, s.members, Filter(s.matches, UpToWeek(i + 1)));
    }
  }

  /** Week by week and rank by rank, no two rows of the history tie. */
  lemma {:induction false} HistoryStrict(h: seq<WeekTable>)
    requires forall i :: 0 <= i < |h| ==> h[i].week == i + 1
    requires forall i, j :: 0 <= i < |h| && 0 <= j < |h[i].rows| ==> h[i].rows[j].rank == j + 1
    ensures StrictlySorted(Flat(h), ByWeekThenRank)
    ensures forall x :: x in Flat(h) ==> x.week <= |h|
  {
    if h != [] {
      var init, last := h[..|h| - 1], h[|h| - 1];
      HistoryStrict(init);
      var flat, n := Flat(h), |Flat(init)|;
      forall i, j | 0 <= i < j < |flat| ensures ByWeekThenRank(flat[i], flat[j]) {
        if i < n { assert flat[i] == Flat(init)[i] && flat[i] in Flat(init); }
        else { assert flat[i] == Labelled(last)[i - n]; }
        if j < n { assert flat[j] == Flat(init)[j]; } else { assert flat[j] == Labelled(last)[j - n]; }
      }
    }
  }

  // ----- the order of the visit does not show

  function AddWeek(catalog: seq<Team>, snapshots: map<nat, seq<SnapshotRow>>)
    : (multiset<HistoryRow>, nat) -> multiset<HistoryRow>
  {
    (acc: multiset<HistoryRow>, week: nat) => acc + multiset(Labelled(Read(catalog, snapshots, week)))
  }

  lemma {:induction false} FlatIsFold(catalog: seq<Team>, snapshots: map<nat, seq<SnapshotRow>>, weeks: seq<nat>)
    ensures multiset(Flat(ReadAll(catalog, snapshots, weeks))) == Fold(weeks, AddWeek(catalog, snapshots), multiset{})
  {
    hide Read;
    if weeks != [] {
      var init := weeks[..|weeks| - 1];
      FlatIsFold(catalog, snapshots, init);
      var h := ReadAll(catalog, snapshots, weeks);
      assert h[..|h| - 1] == ReadAll(catalog, snapshots, init);
    }
  }

  lemma {:induction false} AddWeekCommutes(catalog: seq<Team>, snapshots: map<nat, seq<SnapshotRow>>)
    ensures Commutes(AddWeek(catalog, snapshots))
  {
    hide Read, Labelled;
    var step := AddWeek(catalog, snapshots);
    forall acc, x, y ensures step(step(acc, x), y) == step(step(acc, y), x) {
      assert acc + multiset(Labelled(Read(catalog, snapshots, x))) + multiset(Labelled(Read(catalog, snapshots, y))) ==
             acc + multiset(Labelled(Read(catalog, snapshots, y))) + multiset(Labelled(Read(catalog, snapshots, x)));
    }
  }

  lemma {:induction false} VisitsPermuted(catalog: seq<Team>, snapshots: map<nat, seq<SnapshotRow>>, weeks: seq<nat>,
                                          weeks': seq<nat>)
    requires multiset(weeks) == multiset(weeks')
    ensures multiset(Flat(ReadAll(catalog, snapshots, weeks))) == multiset(Flat(ReadAll(catalog, snapshots, weeks')))
  {
    hide AddWeek, ReadAll, Flat, Fold;
    FlatIsFold(catalog, snapshots, weeks);
    FlatIsFold(catalog, snapshots, weeks');
    AddWeekCommutes(catalog, snapshots);
    FoldPermutation(weeks, weeks', AddWeek(catalog, snapshots), multiset{});
  }

  lemma {:induction false} VisitIsPermutation(weeks: seq<nat>, snapshots: map<nat, seq<SnapshotRow>>, n: nat)
    requires Visits(weeks, snapshots) && forall k :: k in snapshots <==> 1 <= k <= n
    ensures multiset(weeks) == multiset(WeeksTo(n))
  {
    DifferentEach(WeeksTo(n));
    forall k: nat ensures multiset(weeks)[k] == multiset(WeeksTo(n))[k] {
      assert k in weeks <==> k in multiset(weeks);
      if 1 <= k <= n { assert WeeksTo(n)[k - 1] == k; }
      assert k in WeeksTo(n) <==> 1 <= k <= n;
      assert k in WeeksTo(n) <==> k in multiset(WeeksTo(n));
    }
  }

  /** Sorted rows of a join without ties are the one sorted arrangement. */
  lemma {:induction false} SortedJoin(rows: seq<HistoryRow>, flat: seq<HistoryRow>)
    requires multiset(rows) == multiset(flat) && NoInversion(rows, ByWeekThenRank) &&
             StrictlySorted(flat, ByWeekThenRank)
    ensures rows == flat
  {
    DifferentEach(flat);
    assert forall x :: x in rows <==> x in multiset(rows);
    assert forall x :: x in flat <==> x in multiset(flat);
    forall i, j | 0 <= i < j < |rows| ensures ByWeekThenRank(rows[i], rows[j]) || ByWeekThenRank(rows[j], rows[i]) {
      Distinct(rows, i, j);
      assert rows[i] in rows && rows[j] in rows;
      var p :| 0 <= p < |flat| && flat[p] == rows[i];
      var q :| 0 <= q < |flat| && flat[q] == rows[j];
      assert p < q || q < p;
    }
    StrictlySortedUnique(rows, flat, ByWeekThenRank);
  }

  lemma {:induction false} HistoryIsGrouped(s: Season, roster: seq<Team>)
    requires roster != []
    ensures Grouped(HistoryOf(s, roster)) && StrictlySorted(Flat(HistoryOf(s, roster)), ByWeekThenRank)
  {
    hide Sorted;
    HistoryStrict(HistoryOf(s, roster));
  }

  /** However the join visits the snapshots, sorting and grouping its rows gives weeks 1..current with the exact
      tables. */
  lemma {:induction false} HistoryRoundTrip(sys: Sys, l: nat, rows: seq<HistoryRow>, out: seq<WeekTable>)
    requires Valid(sys) && l in sys.seasons
    requires IsJoin(rows, sys.teams, sys.seasons[l].snapshots) && NoInversion(rows, ByWeekThenRank)
    requires Flat(out) == rows && Grouped(out)
    ensures out == HistoryOf(sys.seasons[l], RosterIn(sys, l))
  {
    hide Roster, HistoryOf, Coherent, ReadAll, Flat, Grouped, IsTable, HasSchedule, ValidTeams;
    var s := sys.seasons[l];
    var roster := Roster(sys.teams, s.members);
    assert ValidSeason(sys, l);
    var weeks :| Visits(weeks, s.snapshots) && multiset(rows) == multiset(Flat(ReadAll(sys.teams, s.snapshots, weeks)));
    VisitIsPermutation(weeks, s.snapshots, s.league.currentWeek);
    VisitsPermuted(sys.teams, s.snapshots, weeks, WeeksTo(s.league.currentWeek));
    ReadIsHistory(sys.teams, s);
    RosterNotEmpty(s, roster);
    HistoryIsGrouped(s, roster);
    SortedJoin(rows, Flat(HistoryOf(s, roster)));
    GroupingUnique(out, HistoryOf(s, roster));
  }

  lemma {:induction false} RosterNotEmpty(s: Season, roster: seq<Team>)
    requires HasSchedule(s) && RosterOf(roster, s.members)
    ensures roster != []
  {
    var wheel :| ScheduledOn(s, wheel);
    assert wheel[0] in wheel;
    assert wheel[0] in ById(roster);
  }
}
