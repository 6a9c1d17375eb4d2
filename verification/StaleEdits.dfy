/** What the row an edit read before the lock does to the league: exactly when it stays in order and serial. */
module StaleEdits {
  import opened Seqs
  import opened Domain
  import opened Standings
  import opened SeasonOps
  import opened SeasonLaws
  import opened Concurrency
  import opened ConcurrencyLaws
  import opened Interleavings

  // ----- the edit's unlocked read

  /** An edit does what it would do had it read the row under the lock exactly when the row's outcome is still the one
      it saw. */
  lemma {:induction false} EditIsCurrentIff(sh: Shared, seen: Match, current: Match, homeGoals: nat, awayGoals: nat,
                                            reason: string, roster: seq<Team>, env: Env)
    requires current in sh.season.matches && seen == current.(outcome := seen.outcome)
    ensures Atomic(Edit(seen, homeGoals, awayGoals, reason), sh, roster, env) ==
            Atomic(Edit(current, homeGoals, awayGoals, reason), sh, roster, env)
            <==> seen.outcome == current.outcome
  {
    hide Record, RebuildSnapshots;
    if seen.outcome.Played? && current.outcome.Played? && seen.outcome != current.outcome {
      var a := sh.audits + [AuditOf(seen, homeGoals, awayGoals, reason)];
      var b := sh.audits + [AuditOf(current, homeGoals, awayGoals, reason)];
      assert a[|sh.audits|] != b[|sh.audits|];
    }
  }

  lemma {:induction false} PlayFromKeepsFixtures(s: Season, roster: seq<Team>, env: Env, week: nat)
    ensures PlayFrom(s, roster, env, week).Ok? ==>
              Cleared(PlayFrom(s, roster, env, week).value.matches) == Cleared(s.matches)
    decreases s.league.totalWeeks + 1 - week
  {
    hide Record, WeekScores, Stored, Table, ListByLeague, Cleared;
    if week <= s.league.totalWeeks && PlayOne(s, roster, env, week).Ok? {
      var t := PlayOne(s, roster, env, week).value;
      RecordKeepsFixtures(s.matches, WeekScores(s, roster, env, week));
      PlayFromKeepsFixtures(t, roster, env, week + 1);
    }
  }

  lemma {:induction false} RecordKeepsFixtures(ms: seq<Match>, scores: map<nat, Outcome>)
    ensures Cleared(Record(ms, scores)) == Cleared(ms) && Cleared(Cleared(ms)) == Cleared(ms)
  {
  }

  lemma {:induction false} AtomicKeepsFixtures(a: Action, sh: Shared, roster: seq<Team>, env: Env)
    requires Atomic(a, sh, roster, env).Ok?
    ensures Cleared(Atomic(a, sh, roster, env).value.season.matches) == Cleared(sh.season.matches)
  {
    hide Record, WeekScores, Stored, Table, ListByLeague, PlayFrom, Rebuilt, Cleared;
    var s := sh.season;
    PlayFromKeepsFixtures(s, roster, env, s.league.currentWeek + 1);
    RecordKeepsFixtures(s.matches, WeekScores(s, roster, env, s.league.currentWeek + 1));
    if a.Edit? { RecordKeepsFixtures(s.matches, map[a.seen.id := Played(a.homeGoals, a.awayGoals)]); }
  }

  lemma {:induction false} SerialKeepsFixtures(start: Shared, history: seq<Entry>, roster: seq<Team>, env: Env)
    ensures Cleared(Serial(start, history, roster, env).season.matches) == Cleared(start.season.matches)
  {
    hide Cleared, Atomic;
    if history != [] {
      var init, last := history[..|history| - 1], history[|history| - 1];
      SerialKeepsFixtures(start, init, roster, env);
      if Atomic(last.action, Serial(start, init, roster, env), roster, env).Ok? {
        AtomicKeepsFixtures(last.action, Serial(start, init, roster, env), roster, env);
      }
    }
  }

  /** The row is one of the league's fixtures, whatever its outcome. */
  ghost predicate IsFixture(start: Shared, m: Match) {
    m.(outcome := Scheduled) in Cleared(start.season.matches)
  }

  ghost predicate SawFixture(start: Shared, a: Action) {
    a.Edit? ==> IsFixture(start, a.seen)
  }

  ghost predicate SawFixtures(start: Shared, w: World) {
    && (forall i :: 0 <= i < |w.txns| ==>
          && (w.txns[i].Waiting? ==> SawFixture(start, w.txns[i].action))
          && (w.txns[i].Running? ==> SawFixture(start, w.txns[i].action)))
    && (forall k :: 0 <= k < |w.history| ==> SawFixture(start, w.history[k].action))
  }

  lemma {:induction false} RowIsFixture(start: Shared, sh: Shared, m: Match)
    requires Cleared(sh.season.matches) == Cleared(start.season.matches) && m in sh.season.matches
    ensures IsFixture(start, m)
  {
    var i :| 0 <= i < |sh.season.matches| && sh.season.matches[i] == m;
    assert Cleared(sh.season.matches)[i] == m.(outcome := Scheduled);
  }

  lemma {:induction false} FixtureHasRow(start: Shared, sh: Shared, m: Match) returns (current: Match)
    requires Cleared(sh.season.matches) == Cleared(start.season.matches) && IsFixture(start, m)
    ensures current in sh.season.matches && m == current.(outcome := m.outcome)
  {
    var i :| 0 <= i < |Cleared(sh.season.matches)| && Cleared(sh.season.matches)[i] == m.(outcome := Scheduled);
    current := sh.season.matches[i];
  }

  lemma {:induction false} MoveSawFixtures(start: Shared, w: World, move: Move, roster: seq<Team>, env: Env)
    requires SawFixtures(start, w) && Cleared(w.committed.season.matches) == Cleared(start.season.matches)
    ensures SawFixtures(start, Moved(w, move, roster, env))
  {
    hide Statement, View, IsFixture, Cleared, Started;
    if move.Begin? && move.i < |w.txns| && w.txns[move.i].Unstarted? {
      var t := Begun(w.txns[move.i].job, w.committed);
      BegunServes(w.txns[move.i].job, w.committed);
      if t.Waiting? && t.action.Edit? { RowIsFixture(start, w.committed, t.action.seen); }
    }
  }

  lemma {:induction false} ScheduleSawFixtures(start: Shared, jobs: seq<Job>, moves: seq<Move>, roster: seq<Team>,
                                               env: Env)
    ensures SawFixtures(start, Interleaved(Opened(start, jobs), moves, roster, env))
  {
    hide Moved, SawFixtures, Serial, Cleared, EndsAs;
    if moves == [] {
      assert SawFixtures(start, Opened(start, jobs)) by { NothingSeen(start, jobs); }
    } else {
      var w := Interleaved(Opened(start, jobs), moves[..|moves| - 1], roster, env);
      ScheduleSawFixtures(start, jobs, moves[..|moves| - 1], roster, env);
      SerialInLockOrder(start, jobs, moves[..|moves| - 1], roster, env);
      SerialKeepsFixtures(start, w.history, roster, env);
      MoveSawFixtures(start, w, moves[|moves| - 1], roster, env);
    }
  }

  lemma {:induction false} NothingSeen(start: Shared, jobs: seq<Job>)
    ensures SawFixtures(start, Opened(start, jobs))
  {
  }

  /** In every schedule: an edit acts as the serial UpdateResult at its place in the lock order if and only if
      the match row it read before the lock still has the same outcome when it gets the lock. */
  lemma {:induction false} EditsSerialIff(start: Shared, jobs: seq<Job>, moves: seq<Move>, k: nat, roster: seq<Team>,
                                          env: Env) returns (current: Match)
    requires var w := Interleaved(Opened(start, jobs), moves, roster, env); k < |w.history| && w.history[k].action.Edit?
    ensures var w := Interleaved(Opened(start, jobs), moves, roster, env);
            var a, before := w.history[k].action, Serial(start, w.history[..k], roster, env);
            && current in before.season.matches && current.id == a.seen.id
            && (Atomic(a, before, roster, env) == Atomic(a.(seen := current), before, roster, env)
                <==> a.seen.outcome == current.outcome)
  {
    hide Interleaved, Serial, Atomic, Cleared;
    var w := Interleaved(Opened(start, jobs), moves, roster, env);
    var a, before := w.history[k].action, Serial(start, w.history[..k], roster, env);
    ScheduleSawFixtures(start, jobs, moves, roster, env);
    SerialKeepsFixtures(start, w.history[..k], roster, env);
    assert SawFixture(start, a);
    current := FixtureHasRow(start, before, a.seen);
    EditIsCurrentIff(before, a.seen, current, a.homeGoals, a.awayGoals, a.reason, roster, env);
  }

  // ----- when an edit leaves the league in order

  /** An edit sees nothing of the row it read but its id and its week, once it has seen it PLAYED. */
  lemma {:induction false} EditIgnoresSeenScore(s: Season, roster: seq<Team>, seen: Match, current: Match,
                                                homeGoals: nat, awayGoals: nat)
    requires seen == current.(outcome := seen.outcome) && seen.outcome.Played? && current.outcome.Played?
    ensures EditMatch(s, roster, seen, homeGoals, awayGoals) == EditMatch(s, roster, current, homeGoals, awayGoals)
  {
  }

  /** An edit that saw a PLAYED row keeps coherence and cache if and only if the row is still PLAYED under the lock. */
  lemma {:induction false} EditInOrderIff(s: Season, roster: seq<Team>, seen: Match, current: Match, homeGoals: nat,
                                          awayGoals: nat)
    requires InOrder(s, roster) && current in s.matches
    requires seen == current.(outcome := seen.outcome) && seen.outcome.Played?
    ensures EditMatch(s, roster, seen, homeGoals, awayGoals).Ok?
    ensures InOrder(EditMatch(s, roster, seen, homeGoals, awayGoals).value, roster) <==> current.outcome.Played?
  {
    hide CacheAgrees, RosterOf, EditMatch;
    var t := EditMatch(s, roster, seen, homeGoals, awayGoals).value;
    if current.outcome.Played? {
      EditIgnoresSeenScore(s, roster, seen, current, homeGoals, awayGoals);
      assert UniqueTeams(roster) by { UniqueRoster(s, roster); }
      EditKeeps(s, roster, current, homeGoals, awayGoals);
    } else {
      EditedRowPlayed(s, roster, seen, current, homeGoals, awayGoals);
      var m := current.(outcome := Played(homeGoals, awayGoals));
      assert WellPlaced(s, current);
      assert !WellPlaced(t, m);
    }
  }

  lemma {:induction false} EditedRowPlayed(s: Season, roster: seq<Team>, seen: Match, current: Match, homeGoals: nat,
                                           awayGoals: nat)
    requires current in s.matches && seen == current.(outcome := seen.outcome) && seen.outcome.Played?
    ensures EditMatch(s, roster, seen, homeGoals, awayGoals).Ok?
    ensures var t := EditMatch(s, roster, seen, homeGoals, awayGoals).value;
            t.league == s.league && current.(outcome := Played(homeGoals, awayGoals)) in t.matches
  {
    hide Rebuilt, ListByLeague;
    var t := EditMatch(s, roster, seen, homeGoals, awayGoals).value;
    var i :| 0 <= i < |s.matches| && s.matches[i] == current;
    assert t.matches[i] == current.(outcome := Played(homeGoals, awayGoals));
  }

  lemma {:induction false} UniqueRoster(s: Season, roster: seq<Team>)
    requires RosterOf(roster, s.members)
    ensures UniqueTeams(roster)
  {
  }

  lemma {:induction false} LockedKeepsInOrder(a: Action, sh: Shared, roster: seq<Team>, env: Env)
    requires InOrder(sh.season, roster) && !a.Edit? && Atomic(a, sh, roster, env).Ok?
    ensures InOrder(Atomic(a, sh, roster, env).value.season, roster)
  {
    hide CacheAgrees, Coherent, RosterOf, SeasonOps.PlayWeek, SeasonOps.PlayAll, SeasonOps.Reset,
         SeasonOps.Recalculate, WeekPlayed;
    var s := sh.season;
    assert UniqueTeams(roster) by { UniqueRoster(s, roster); }
    match a
    case PlayWeek => PlayWeekKeeps(s, roster, env);
    case PlayAll => PlayAllIsRepeatedPlayWeek(s, roster, env);
    case Reset => ResetKeeps(s, roster);
    case Recalculate => RecalculateChangesNothing(s, roster);
  }

  // ----- every schedule

  /** A committed edit finds its match PLAYED at its place in the lock order: the check the code leaves out. */
  ghost predicate FindsPlayed(e: Entry, before: Shared) {
    e.ending.Committed? && e.action.Edit? ==>
      exists current :: current in before.season.matches && current.id == e.action.seen.id && current.outcome.Played?
  }

  /** The edit's match has a row, and it differs from the one seen in the outcome only. */
  ghost predicate HasRow(a: Action, sh: Shared) {
    a.Edit? ==>
      exists current :: current in sh.season.matches && a.seen == current.(outcome := a.seen.outcome)
  }

  lemma {:induction false} EntryInOrderIff(start: Shared, history: seq<Entry>, k: nat, roster: seq<Team>, env: Env)
    requires k < |history| && InOrder(Serial(start, history[..k], roster, env).season, roster)
    requires EndsAs(history[k], Serial(start, history[..k], roster, env), roster, env)
    requires HasRow(history[k].action, Serial(start, history[..k], roster, env))
    ensures InOrder(Serial(start, history[..k + 1], roster, env).season, roster) <==>
            FindsPlayed(history[k], Serial(start, history[..k], roster, env))
  {
    hide Serial, CacheAgrees, RosterOf, WellPlaced, SeasonOps.PlayWeek, SeasonOps.PlayAll, SeasonOps.Reset,
         SeasonOps.Recalculate, EditMatch;
    var a, before := history[k].action, Serial(start, history[..k], roster, env);
    SerialUnfolds(start, history, k, roster, env);
    if history[k].ending.Committed? {
      if a.Edit? {
        var current :| current in before.season.matches && a.seen == current.(outcome := a.seen.outcome);
        forall x | x in before.season.matches && x.id == a.seen.id ensures x == current {
          OneRowPerId(before.season.matches, x, current);
        }
        EditInOrderIff(before.season, roster, a.seen, current, a.homeGoals, a.awayGoals);
      } else {
        LockedKeepsInOrder(a, before, roster, env);
      }
    }
  }

  /** The rows after each of the first n entries are in order. */
  ghost predicate AllInOrder(start: Shared, history: seq<Entry>, n: nat, roster: seq<Team>, env: Env)
    requires n <= |history|
  {
    forall k :: 0 <= k <= n ==> InOrder(Serial(start, history[..k], roster, env).season, roster)
  }

  ghost predicate AllFindPlayed(start: Shared, history: seq<Entry>, n: nat, roster: seq<Team>, env: Env)
    requires n <= |history|
  {
    forall k :: 0 <= k < n ==> FindsPlayed(history[k], Serial(start, history[..k], roster, env))
  }

  lemma {:induction false} HistoryInOrderIff(start: Shared, history: seq<Entry>, n: nat, roster: seq<Team>, env: Env)
    requires n <= |history| && InOrder(start.season, roster)
    requires forall k :: 0 <= k < |history| ==>
               && EndsAs(history[k], Serial(start, history[..k], roster, env), roster, env)
               && HasRow(history[k].action, Serial(start, history[..k], roster, env))
    ensures AllInOrder(start, history, n, roster, env) <==> AllFindPlayed(start, history, n, roster, env)
    decreases n
  {
    hide InOrder, Atomic, FindsPlayed, HasRow, EndsAs;
    if n == 0 {
      assert history[..0] == [];
    } else {
      hide Serial;
      HistoryInOrderIff(start, history, n - 1, roster, env);
      if AllInOrder(start, history, n - 1, roster, env) { EntryInOrderIff(start, history, n - 1, roster, env); }
    }
  }

  lemma {:induction false} EntriesSound(start: Shared, jobs: seq<Job>, moves: seq<Move>, k: nat, roster: seq<Team>,
                                        env: Env)
    requires k < |Interleaved(Opened(start, jobs), moves, roster, env).history|
    ensures var h := Interleaved(Opened(start, jobs), moves, roster, env).history;
            && EndsAs(h[k], Serial(start, h[..k], roster, env), roster, env)
            && HasRow(h[k].action, Serial(start, h[..k], roster, env))
  {
    hide Interleaved, Serial, Atomic, Cleared, EndsAs, IsFixture;
    var h := Interleaved(Opened(start, jobs), moves, roster, env).history;
    SerialInLockOrder(start, jobs, moves, roster, env);
    ScheduleSawFixtures(start, jobs, moves, roster, env);
    SerialKeepsFixtures(start, h[..k], roster, env);
    if h[k].action.Edit? {
      assert SawFixture(start, h[k].action);
      var current := FixtureHasRow(start, Serial(start, h[..k], roster, env), h[k].action.seen);
    }
  }

  /** The committed rows at a moment are those after the entries of that moment. */
  lemma {:induction false} CommittedAt(start: Shared, jobs: seq<Job>, moves: seq<Move>, p: nat, roster: seq<Team>,
                                       env: Env)
    requires p <= |moves|
    ensures var w := Interleaved(Opened(start, jobs), moves, roster, env);
            var w' := Interleaved(Opened(start, jobs), moves[..p], roster, env);
            && |w'.history| <= |w.history| && w'.history == w.history[..|w'.history|]
            && w'.committed == Serial(start, w.history[..|w'.history|], roster, env)
  {
    hide Interleaved, Serial, Atomic, EndsAs;
    assert moves == moves[..p] + moves[p..];
    ScheduleAppend(Opened(start, jobs), moves[..p], moves[p..], roster, env);
    HistoryGrows(Interleaved(Opened(start, jobs), moves[..p], roster, env), moves[p..], roster, env);
    SerialInLockOrder(start, jobs, moves[..p], roster, env);
  }

  /** Every schedule of all five jobs: the committed rows are in order at every moment if and only if every committed
      edit finds its match PLAYED when its turn comes. */
  lemma {:induction false} AlwaysInOrderIff(start: Shared, jobs: seq<Job>, moves: seq<Move>, roster: seq<Team>,
                                            env: Env)
    requires InOrder(start.season, roster)
    ensures var h := Interleaved(Opened(start, jobs), moves, roster, env).history;
            (forall p :: 0 <= p <= |moves| ==>
               InOrder(Interleaved(Opened(start, jobs), moves[..p], roster, env).committed.season, roster))
            <==> (forall k :: 0 <= k < |h| ==> FindsPlayed(h[k], Serial(start, h[..k], roster, env)))
  {
    hide Interleaved, Serial, InOrder, FindsPlayed, EndsAs, HasRow;
    var h := Interleaved(Opened(start, jobs), moves, roster, env).history;
    forall k | 0 <= k < |h|
      ensures EndsAs(h[k], Serial(start, h[..k], roster, env), roster, env)
      ensures HasRow(h[k].action, Serial(start, h[..k], roster, env))
    {
      EntriesSound(start, jobs, moves, k, roster, env);
    }
    HistoryInOrderIff(start, h, |h|, roster, env);
    forall p | 0 <= p <= |moves| && AllInOrder(start, h, |h|, roster, env)
      ensures InOrder(Interleaved(Opened(start, jobs), moves[..p], roster, env).committed.season, roster)
    {
      CommittedAt(start, jobs, moves, p, roster, env);
    }
    if forall p :: 0 <= p <= |moves| ==>
         InOrder(Interleaved(Opened(start, jobs), moves[..p], roster, env).committed.season, roster) {
      forall k | 0 <= k <= |h| ensures InOrder(Serial(start, h[..k], roster, env).season, roster) {
        var p := MomentOf(Opened(start, jobs), moves, k, roster, env);
        CommittedAt(start, jobs, moves, p, roster, env);
      }
    }
  }

  /** PlayWeek, PlayAll, Reset and Recalculate in any interleaving: the committed cache agrees at every moment. */
  lemma {:induction false} LockedJobsStayInOrder(start: Shared, jobs: seq<Job>, moves: seq<Move>, roster: seq<Team>,
                                                 env: Env)
    requires InOrder(start.season, roster) && forall i :: 0 <= i < |jobs| ==> !jobs[i].ToEdit?
    ensures InOrder(Interleaved(Opened(start, jobs), moves, roster, env).committed.season, roster)
  {
    hide InOrder, Atomic, Serial, Interleaved, EndsAs;
    var h := Interleaved(Opened(start, jobs), moves, roster, env).history;
    SerialInLockOrder(start, jobs, moves, roster, env);
    forall k | 0 <= k < |h| ensures !h[k].action.Edit? {
      assert Serves(jobs[h[k].txn], h[k].action);
    }
    AlwaysInOrderIff(start, jobs, moves, roster, env);
    assert moves[..|moves|] == moves;
  }

  // ----- every edit re-reading its row

  /** The action with the row as it is now in place of the row seen before the lock: UpdateResult run at this point. */
  function Reread(a: Action, sh: Shared): (r: Action)
    ensures a.Edit? ==> r.Edit? && r == a.(seen := r.seen)
  {
    match a
    case Edit(seen, _, _, _) =>
      var found := Filter(sh.season.matches, WithId(seen.id));
      if found == [] then a else a.(seen := found[0])
    case _ => a
  }

  /** The serial run of the committed operations, each edit reading its row in its turn. */
  function SerialRereading(start: Shared, history: seq<Entry>, roster: seq<Team>, env: Env): Shared {
    if history == [] then start
    else
      var before := SerialRereading(start, history[..|history| - 1], roster, env);
      var last := history[|history| - 1];
      if last.ending.Committed? then
        match Atomic(Reread(last.action, before), before, roster, env)
        case Err(_) => before
        case Ok(after) => after
      else before
  }

  /** The row has, when the edit's turn comes, the outcome the edit saw. */
  predicate SawCurrent(e: Entry, before: Shared) {
    e.action.Edit? ==> Reread(e.action, before).seen.outcome == e.action.seen.outcome
  }

  /** The row re-read is the row seen, up to its outcome. */
  lemma {:induction false} RereadRow(start: Shared, sh: Shared, a: Action)
    requires IdsIncreasing(start.season.matches) && Cleared(sh.season.matches) == Cleared(start.season.matches)
    requires a.Edit? && HasRow(a, sh)
    ensures Reread(a, sh).seen in sh.season.matches
    ensures a.seen == Reread(a, sh).seen.(outcome := a.seen.outcome)
  {
    SameIds(start.season.matches, sh.season.matches);
    var current :| current in sh.season.matches && a.seen == current.(outcome := a.seen.outcome);
    var found := Filter(sh.season.matches, WithId(a.seen.id));
    assert current in found && found[0] in found;
    OneRowPerId(sh.season.matches, found[0], current);
  }

  lemma {:induction false} SameIds(a: seq<Match>, b: seq<Match>)
    requires IdsIncreasing(a) && Cleared(b) == Cleared(a)
    ensures IdsIncreasing(b)
  {
    SameFixtures(a, b);
    forall i, j | 0 <= i < j < |b| ensures b[i].id < b[j].id {
      assert a[i].(outcome := Scheduled) == b[i].(outcome := Scheduled);
      assert a[j].(outcome := Scheduled) == b[j].(outcome := Scheduled);
    }
  }

  /** An entry acts as UpdateResult at its place if and only if it saw the current outcome. */
  lemma {:induction false} EntrySerialIff(start: Shared, jobs: seq<Job>, moves: seq<Move>, k: nat, roster: seq<Team>,
                                          env: Env)
    requires IdsIncreasing(start.season.matches) && k < |Interleaved(Opened(start, jobs), moves, roster, env).history|
    ensures var h := Interleaved(Opened(start, jobs), moves, roster, env).history;
            var before := Serial(start, h[..k], roster, env);
            Atomic(Reread(h[k].action, before), before, roster, env) == Atomic(h[k].action, before, roster, env)
            <==> SawCurrent(h[k], before)
  {
    hide Interleaved, Serial, Atomic, Cleared, EndsAs, IdsIncreasing;
    var h := Interleaved(Opened(start, jobs), moves, roster, env).history;
    var a, before := h[k].action, Serial(start, h[..k], roster, env);
    if a.Edit? {
      EntriesSound(start, jobs, moves, k, roster, env);
      SerialKeepsFixtures(start, h[..k], roster, env);
      RereadRow(start, before, a);
      EditIsCurrentIff(before, a.seen, Reread(a, before).seen, a.homeGoals, a.awayGoals, a.reason, roster, env);
    }
  }

  /** One by one in lock order, each edit reading its row in its turn: the same end, and every entry ends alike. */
  ghost predicate IsRereadRun(start: Shared, history: seq<Entry>, end: Shared, roster: seq<Team>, env: Env) {
    && end == SerialRereading(start, history, roster, env)
    && forall k :: 0 <= k < |history| ==>
         EndsAsReread(history[k], SerialRereading(start, history[..k], roster, env), roster, env)
  }

  ghost predicate EndsAsReread(e: Entry, before: Shared, roster: seq<Team>, env: Env) {
    EndsAs(e.(action := Reread(e.action, before)), before, roster, env)
  }

  /** Every edit that was not lost saw the outcome its row has when its turn comes. */
  ghost predicate AllSawCurrent(start: Shared, history: seq<Entry>, n: nat, roster: seq<Team>, env: Env)
    requires n <= |history|
  {
    forall k :: 0 <= k < n && !history[k].ending.Lost? ==>
      SawCurrent(history[k], Serial(start, history[..k], roster, env))
  }

  /** The entry does the same with the row seen and with the row re-read. */
  ghost predicate ActsReread(e: Entry, before: Shared, roster: seq<Team>, env: Env) {
    Atomic(Reread(e.action, before), before, roster, env) == Atomic(e.action, before, roster, env)
  }

  lemma {:induction false} SameRun(start: Shared, history: seq<Entry>, n: nat, roster: seq<Team>, env: Env)
    requires n <= |history|
    requires forall k :: 0 <= k < n && !history[k].ending.Lost? ==>
               ActsReread(history[k], Serial(start, history[..k], roster, env), roster, env)
    ensures SerialRereading(start, history[..n], roster, env) == Serial(start, history[..n], roster, env)
    decreases n
  {
    hide Atomic, Reread;
    if n > 0 {
      SameRun(start, history, n - 1, roster, env);
      assert history[..n][..n - 1] == history[..n - 1];
    }
  }

  lemma {:induction false} AtomicAudits(a: Action, sh: Shared, roster: seq<Team>, env: Env)
    ensures Atomic(a, sh, roster, env).Ok? ==> sh.audits <= Atomic(a, sh, roster, env).value.audits
  {
    hide SeasonOps.PlayWeek, SeasonOps.PlayAll, SeasonOps.Reset, SeasonOps.Recalculate, EditMatch;
  }

  lemma {:induction false} AuditsGrow(start: Shared, history: seq<Entry>, k: nat, n: nat, roster: seq<Team>, env: Env)
    requires k <= n <= |history|
    ensures Serial(start, history[..k], roster, env).audits <= Serial(start, history[..n], roster, env).audits
    ensures SerialRereading(start, history[..k], roster, env).audits <=
            SerialRereading(start, history[..n], roster, env).audits
    decreases n
  {
    hide Atomic, Reread;
    if k < n {
      AuditsGrow(start, history, k, n - 1, roster, env);
      assert history[..n][..n - 1] == history[..n - 1];
      AtomicAudits(history[n - 1].action, Serial(start, history[..n - 1], roster, env), roster, env);
      var before := SerialRereading(start, history[..n - 1], roster, env);
      AtomicAudits(Reread(history[n - 1].action, before), before, roster, env);
    }
  }

  /** Two successful edits of the same row that saw different scores log different old scores. */
  lemma {:induction false} LogsDiffer(a: Action, b: Action, sh: Shared, roster: seq<Team>, env: Env)
    requires a.Edit? && b.Edit? && a.seen == b.seen.(outcome := a.seen.outcome) && a.seen.outcome != b.seen.outcome
    requires Atomic(a, sh, roster, env).Ok? && Atomic(b, sh, roster, env).Ok?
    ensures var x, y := Atomic(a, sh, roster, env).value.audits, Atomic(b, sh, roster, env).value.audits;
            |x| == |y| == |sh.audits| + 1 && x[|sh.audits|] != y[|sh.audits|]
  {
    hide RebuildSnapshots, Record;
  }

  /** The first edit that saw an outdated outcome shows: in how it ends, or for ever in the audit log. */
  lemma {:induction false} OutdatedShows(start: Shared, jobs: seq<Job>, moves: seq<Move>, k: nat, roster: seq<Team>,
                                         env: Env)
    requires IdsIncreasing(start.season.matches) && k < |Interleaved(Opened(start, jobs), moves, roster, env).history|
    requires var h := Interleaved(Opened(start, jobs), moves, roster, env).history;
             && SerialRereading(start, h[..k], roster, env) == Serial(start, h[..k], roster, env)
             && !h[k].ending.Lost? && !SawCurrent(h[k], Serial(start, h[..k], roster, env))
    ensures var w := Interleaved(Opened(start, jobs), moves, roster, env);
            !IsRereadRun(start, w.history, w.committed, roster, env)
  {
    hide Interleaved, Serial, SerialRereading, Atomic, IdsIncreasing, Cleared;
    var w := Interleaved(Opened(start, jobs), moves, roster, env);
    var h := w.history;
    var a, before := h[k].action, Serial(start, h[..k], roster, env);
    EntrySerialIff(start, jobs, moves, k, roster, env);
    EntriesSound(start, jobs, moves, k, roster, env);
    if IsRereadRun(start, h, w.committed, roster, env) {
      assert EndsAsReread(h[k], before, roster, env);
      SerialKeepsFixtures(start, h[..k], roster, env);
      RereadRow(start, before, a);
      LogsDiffer(a, Reread(a, before), before, roster, env);
      SerialUnfolds(start, h, k, roster, env);
      RereadUnfolds(start, h, k, roster, env);
      AuditsGrow(start, h, k + 1, |h|, roster, env);
      assert h[..|h|] == h;
      SerialInLockOrder(start, jobs, moves, roster, env);
    }
  }

  lemma {:induction false} RereadUnfolds(start: Shared, history: seq<Entry>, k: nat, roster: seq<Team>, env: Env)
    requires k < |history| && history[k].ending.Committed?
    ensures var before := SerialRereading(start, history[..k], roster, env);
            var r := Atomic(Reread(history[k].action, before), before, roster, env);
            r.Ok? ==> SerialRereading(start, history[..k + 1], roster, env) == r.value
  {
    hide Atomic, Reread;
    assert history[..k + 1][..k] == history[..k];
  }

  lemma {:induction false} CurrentSoFar(start: Shared, jobs: seq<Job>, moves: seq<Move>, n: nat, roster: seq<Team>,
                                        env: Env)
    requires IdsIncreasing(start.season.matches) && n <= |Interleaved(Opened(start, jobs), moves, roster, env).history|
    requires AllSawCurrent(start, Interleaved(Opened(start, jobs), moves, roster, env).history, n, roster, env)
    ensures var h := Interleaved(Opened(start, jobs), moves, roster, env).history;
            SerialRereading(start, h[..n], roster, env) == Serial(start, h[..n], roster, env)
  {
    hide Interleaved, Serial, SerialRereading, Atomic, Reread, SawCurrent, IdsIncreasing;
    var h := Interleaved(Opened(start, jobs), moves, roster, env).history;
    forall k | 0 <= k < n && !h[k].ending.Lost?
      ensures ActsReread(h[k], Serial(start, h[..k], roster, env), roster, env)
    {
      EntrySerialIff(start, jobs, moves, k, roster, env);
    }
    SameRun(start, h, n, roster, env);
  }

  /** The committed rows, and how every transaction ends, are those of running the committed operations one by one in
      lock order, every edit reading its row in its turn, if and only if every edit that was not lost saw the outcome
      its row has when its turn comes. */
  lemma {:induction false} SerialIffCurrent(start: Shared, jobs: seq<Job>, moves: seq<Move>, roster: seq<Team>,
                                            env: Env)
    requires IdsIncreasing(start.season.matches)
    ensures var w := Interleaved(Opened(start, jobs), moves, roster, env);
            IsRereadRun(start, w.history, w.committed, roster, env)
            <==> AllSawCurrent(start, w.history, |w.history|, roster, env)
  {
    hide Interleaved, Serial, SerialRereading, Atomic, Reread, SawCurrent, IdsIncreasing;
    var w := Interleaved(Opened(start, jobs), moves, roster, env);
    var h := w.history;
    SerialInLockOrder(start, jobs, moves, roster, env);
    if AllSawCurrent(start, h, |h|, roster, env) {
      forall k | 0 <= k <= |h|
        ensures SerialRereading(start, h[..k], roster, env) == Serial(start, h[..k], roster, env)
      {
        CurrentSoFar(start, jobs, moves, k, roster, env);
      }
      assert h[..|h|] == h;
      forall k | 0 <= k < |h| ensures EndsAsReread(h[k], SerialRereading(start, h[..k], roster, env), roster, env) {
        EntrySerialIff(start, jobs, moves, k, roster, env);
      }
    } else {
      var k := FirstOutdated(start, h, |h|, roster, env);
      CurrentSoFar(start, jobs, moves, k, roster, env);
      OutdatedShows(start, jobs, moves, k, roster, env);
    }
  }

  lemma {:induction false} FirstOutdated(start: Shared, history: seq<Entry>, n: nat, roster: seq<Team>, env: Env)
    returns (k: nat)
    requires n <= |history| && !AllSawCurrent(start, history, n, roster, env)
    ensures k < n && AllSawCurrent(start, history, k, roster, env)
    ensures !history[k].ending.Lost? && !SawCurrent(history[k], Serial(start, history[..k], roster, env))
    decreases n
  {
    hide Serial, SawCurrent;
    assert n > 0;
    if AllSawCurrent(start, history, n - 1, roster, env) { k := n - 1; }
    else { k := FirstOutdated(start, history, n - 1, roster, env); }
  }
}
