# Football league simulator: a verified model

The back end keeps leagues of football teams. A league is created with a double round-robin schedule drawn by the
circle method; weeks are simulated with a seeded Poisson sampler; the table is computed live and cached week by week;
results can be edited, with an audit log; a Monte Carlo engine forecasts the final table. This project models those
parts in Dafny and proves what they promise.

| file | what it covers |
|---|---|
| `Seqs.dfy`, `Sorting.dfy`, `Text.dfy`, `Domain.dfy` | sequences, the contract of an unstable sort, name comparison, the entities |
| `Fixture.dfy` | the generator, in place on an array, and the combinatorics of its schedule |
| `Standings.dfy`, `TableLaws.dfy` | the calculator over a map in arbitrary order, and what tables conserve |
| `Poisson.dfy` | Knuth's loop over exact reals: termination, exactness, monotonicity |
| `Trials.dfy`, `MonteCarlo.dfy`, `ForecastLaws.dfy`, `TrialLaws.dfy` | the trial loop and the aggregation; conservation; the clinched title; what trials and predictions are |
| `Season.dfy`, `SeasonLaws.dfy`, `SeasonTables.dfy` | the operations on one league as functions, and their laws |
| `System.dfy`, `SystemLaws.dfy`, `Reachability.dfy`, `AuditLaws.dfy`, `StepLaws.dfy` | all leagues as one state machine; theorems about every run; the effect of each operation |
| `Tables.dfy`, `StoreLaws.dfy`, `History.dfy`, `Services.dfy` | the tables as the fields of a class; repositories, transactions and services as methods on it, each proved to be the step of the state machine |
| `Concurrency.dfy`, `ConcurrencyLaws.dfy`, `Interleavings.dfy`, `WeeksOnce.dfy`, `StaleEdits.dfy` | concurrent transactions on one league, statement by statement, at READ COMMITTED |

Every lemma carries `{:induction false}`: an induction is a recursive call in the body, never left to the verifier.

How the parts hang together: a method of `Services.Store` ends with `Carries`, which says that its tables stand for
exactly the state, result and error that `System.Apply` gives; the theorems of `Reachability`, `AuditLaws` and
`StepLaws` are about runs of `System.Apply`; `ConcurrencyLaws` reduces every interleaving to such whole operations in lock order.

What is a parameter: the simulator (`Env.simulate`, any function of two teams and a generator state), the generator a
week starts with (`Env.weekRng`, any function of seed and week), the draws of the shuffle, and `exp` (positive and
antitone). The invariants of `database/schema.sql` enter as types and predicates: goals exist iff a match is PLAYED,
team names and ids are unique, memberships and fixtures are unique, home differs from away.

## Where the code and its documentation differ

- `internal/domain/repository.go:17-19` says the generator's matches come in chronological order grouped by week. The
  code appends both legs of a pair together (`internal/fixture/generator.go:49-62`), so weeks r and r + n - 1 alternate.
  The model follows the code; nothing proved depends on the order, since queries sort by week and id.
- `docs/DESIGN.md:348` says a locking read of the league row starts any state mutation. UpdateResult reads the match row
  before it (`internal/service/match_service.go:51`) and decides on that row's status and old goals afterwards without
  reading it again; the comment at lines 55-56, about the snapshot rebuild, is silent on that read. `Interleavings.OvertakenEdit`
  gives a schedule in which it shows, `StaleEdits.AlwaysInOrderIff` and `StaleEdits.SerialIffCurrent` the exact conditions
  under which it does not.

## Model

| member | source | states |
|---|---|---|
| Reachability.CacheAlwaysAgrees | internal/service/league_play.go:194-212 | In every state reachable by any serial run, successful or failing operations alike, a league has snapshots for exactly the weeks 1..current, snapshot K is the table over the matches of weeks up to K, a match is PLAYED iff its week is behind the league, and FINISHED holds iff the last week is played |
| Reachability.StepKeeps | internal/service/league_play.go:32-150 | Every operation, whether it succeeds or fails, keeps the whole invariant, and leaves every league the same competition (members, fixtures, seed, weeks) |
| Reachability.RunKeeps | internal/service/league_play.go:32-150 | The same for every sequence of operations |
| Reachability.PlayedIsAlwaysTheWeek | internal/service/league_service.go:68-87 | Generator, state machine and calculator together: in every reachable state every row of snapshot K has Played = K |
| Reachability.FinishedIsComplete | internal/service/league_play.go:79-89 | In every reachable FINISHED league of n members the season has 2(n-1) weeks, each member has played 2(n-1) matches, n-1 at home and n-1 away, and no match is left |
| Reachability.PlayAllIsPlayWeeks | internal/service/league_play.go:66-99 | PlayAll on an unfinished league leaves the whole system exactly as repeating PlayWeek for the weeks left, and the league FINISHED |
| Reachability.RunOfWeeks | internal/service/league_play.go:32-62 | n PlayWeeks in a row never fail while weeks are left and change the one league only |
| Reachability.ResetAnyTime | internal/service/league_play.go:104-121 | After any history of plays, edits and failures, Reset gives back the league exactly as CreateLeague made it; nothing else in the system changes |
| Reachability.ReplayAnyTime | internal/service/league_play.go:104-121 | With ratings as at creation, Reset and k PlayWeeks end in the very league that k PlayWeeks make of the fresh one; only the audit log remembers |
| Reachability.Isolation | internal/repository/postgres/transactor.go:25-39 | An operation on one league changes no other league; only UpdateRating touches teams, only UpdateResult writes audits |
| StepLaws.CreateEnds | internal/service/league_service.go:50-88 | InvalidInput without a name, with an unknown team, fewer than four or an odd number of them; an internal error if a team is named twice; otherwise a league |
| StepLaws.CreatedRow | internal/service/league_service.go:61-91 | The league created has exactly the name and the seed given, 2(n-1) weeks, week 0, NOT_STARTED; its members are exactly the resolved teams, its fixtures the schedule of the teams shuffled by the draws of the seed, numbered consecutively and SCHEDULED; no other league changes |
| StepLaws.SeedForLife | internal/service/league_play.go:160-171 | Whatever happens after its creation, a league keeps the name, seed, length and members it was given, and the next week played is scored by the chain of simulations begun with the generator of (the seed given at creation, week) |
| StepLaws.PlayEnds | internal/service/league_play.go:34-43 | PlayWeek and PlayAll: NotFound for an unknown league, Conflict for a FINISHED one, success in every other valid state |
| StepLaws.WeekOfPlay | internal/service/league_play.go:45-60 | The whole effect of PlayWeek: the n/2 matches of the next week scored as a chain from the generator of (seed, week), every other match as it was, the table through the week as its snapshot, the week one up, FINISHED exactly after the last |
| StepLaws.ResolvingMeans | internal/service/league_service.go:100-124 | No ids mean the catalog in its order; otherwise the ids given, InvalidInput if one is unknown |
| StepLaws.RatingEnds | internal/service/team_service.go:45-68 | InvalidInput iff a rating is outside 1..100, NotFound iff the team is unknown, otherwise the one team with the id has the new ratings and the others stand |
| AuditLaws.EveryScoreExplained | internal/service/match_service.go:64-79 | In every run from a catalog of teams, whatever match is PLAYED at the end got its first score in a PlayWeek or PlayAll of its league, from the chain of simulations of its week begun with the generator of (seed, week); it has been PLAYED ever since, and the audit entries written for it since then lead from that score to the present one |
| AuditLaws.AuditChain | internal/service/match_service.go:64-79 | In every run through which a match stays PLAYED, the audit entries written for it lead from the result it had to the result it has, each old score being the previous new one |
| AuditLaws.StepChain | internal/service/match_service.go:64-79 | One step: the log only grows, and the new entries for a match lead from its result before to its result after |
| AuditLaws.FirstResultIsSimulated | internal/service/league_play.go:171-185 | A SCHEDULED match becomes PLAYED only through PlayWeek or PlayAll of its league, with the score simulated for its week, and without an audit entry: the start of every chain |
| SeasonLaws.PlayWeekKeeps | internal/service/league_play.go:32-62 | PlayWeek is refused iff the league is FINISHED; otherwise it moves one week on and keeps week/result coherence, the cache and the fixtures |
| SeasonLaws.NewSnapshotAgrees | internal/service/league_play.go:194-212 | The snapshot computed over all matches is the table over the matches up to the new week, because nothing later is PLAYED |
| SeasonLaws.LiveTableIsTableThrough | internal/service/recalc.go:12-16 | The two formulas for a snapshot agree whenever no later match is PLAYED |
| SeasonLaws.OldTablesStand | internal/service/league_play.go:156-189 | Playing a week leaves the tables through the earlier weeks alone |
| SeasonLaws.PlayAllIsRepeatedPlayWeek | internal/service/league_play.go:66-99 | From any league in order PlayAll is refused iff FINISHED, and otherwise equals PlayWeek repeated to the end |
| SeasonLaws.ResetRestores | internal/service/league_play.go:104-121 | Reset of any league that shares its fixtures with a fresh one is that fresh one |
| SeasonLaws.ReplayAfterReset | internal/service/league_play.go:101-103 | k weeks after a Reset are k weeks of the fresh league |
| SeasonLaws.RebuiltAt | internal/service/recalc.go:35-46 | Which snapshots a rebuild has rewritten, and with what, for every week |
| SeasonLaws.RebuildAgrees | internal/service/recalc.go:14-46 | A rebuild from week W makes the cache right everywhere if it was right below W, and rewrites no snapshot below W |
| SeasonLaws.RecalculateChangesNothing | internal/service/league_play.go:128-150 | On a league whose cache is right, Recalculate changes no row |
| SeasonLaws.EditKeeps | internal/service/match_service.go:77-84 | An edit succeeds iff the match is PLAYED; its rebuild from the edited week gives the same league as a rebuild from week 1, leaves earlier snapshots untouched and keeps every invariant |
| SeasonLaws.EarlierSnapshotsStand | internal/service/recalc.go:14-18 | Below the edited week the stored snapshots are still right after the score has changed |
| SeasonLaws.WeekRecorded | internal/service/league_play.go:171-185 | After simulating a week exactly its matches are PLAYED and all others are as before |
| SeasonTables.WeekDependsOnSeedAndWeek | internal/service/league_play.go:152-155 | However a league got where it is, the scores of a week are determined by its fixtures, the ratings, the seed and the week |
| SeasonTables.WeekIsChain | internal/service/league_play.go:171-185 | A week is scored match by match in the order of the ids: the first from the generator of (seed, week), each further one from the state its predecessor left, and the rows of the week afterwards are the old ones with these scores |
| SeasonTables.PlayedThroughWeek | internal/fixture/generator.go:43-70 | Through week K every member has played exactly K matches |
| SeasonTables.SnapshotRowsPlayed | internal/service/league_play.go:194-212 | Every row of the cached table of week K has Played = K and belongs to a member |
| SeasonTables.SeasonLength | internal/service/league_service.go:68-74 | A league of n members lasts 2(n-1) weeks, n being the number of its memberships, not of the ids asked for |
| SeasonTables.FinishedSeason | internal/service/league_play.go:79-96 | At FINISHED everyone of n members has played 2(n-1) matches, n-1 at home and n-1 away, and all matches are PLAYED |
| SystemLaws.CreateKeeps | internal/service/league_service.go:50-93 | A created league is in order: fresh, scheduled as a double round-robin of its members, its match ids new |
| SystemLaws.RosterIsRoster | internal/repository/postgres/team_repo.go:87-112 | The roster query yields exactly the members, each once, with unique names |
| SystemLaws.RatingKeeps | internal/service/team_service.go:41-54 | Changing a rating keeps every league and every cached table right |
| SystemLaws.ReratedTables | internal/repository/postgres/team_repo.go:114-131 | No rating shows in a table |
| Fixture.Generate | internal/fixture/generator.go:25-73 | Odd or small input yields no match; otherwise the in-place rotation yields the closed-form schedule of the shuffled wheel |
| Fixture.PairUp | internal/fixture/generator.go:43-63 | One round of the loop appends both legs of every pair of the wheel as it now stands |
| Fixture.Rotate | internal/fixture/generator.go:65-69 | The in-place shift keeps position 0 and moves every other element one place, the last to position 1 |
| Fixture.Shuffle | internal/fixture/generator.go:36-37 | The in-place shuffle, for any draws |
| Fixture.ShuffledPermutes | internal/fixture/generator.go:34-37 | Whatever is drawn, the shuffle is a permutation |
| Fixture.ShuffledIsWheel | internal/fixture/generator.go:31-37 | The shuffled wheel holds the same teams, each once |
| Fixture.UpperStands | internal/fixture/generator.go:36-37 | The exchange at element i puts element draw(i) mod (i+1) there, and nothing above i moves afterwards |
| Fixture.EveryOrderDrawn | internal/fixture/generator.go:36-37 | Every order of the teams is the shuffle for some draws, one of 0..i for element i |
| Fixture.DrawsDetermined | internal/fixture/generator.go:36-37 | Different draws in these ranges give different orders: with the former, draws and orders correspond one to one |
| Fixture.RotationsAreSlots | internal/fixture/generator.go:65-69 | r single rotations are the closed form of the wheel after r rounds |
| Fixture.WheelReturns | internal/fixture/generator.go:43-70 | After n-1 rotations the wheel is back where it started |
| Fixture.SlotIsModular | internal/fixture/generator.go:65-69 | Position i >= 1 holds starting slot 1 + ((i-1-r) mod (n-1)) after r rotations, and Position inverts it |
| Fixture.MeetOnce | internal/fixture/generator.go:43-47 | Two different slots face each other in exactly one of the n-1 rounds |
| Fixture.EveryPairingOnce | internal/fixture/generator.go:43-63 | Every ordered pair of different teams is scheduled as (home, away) exactly once |
| Fixture.LegsApart | internal/fixture/generator.go:55-62 | The two legs of a pair lie exactly n-1 weeks apart |
| Fixture.EveryTeamOncePerWeek | internal/fixture/generator.go:43-63 | In each of the weeks 1..2(n-1) every team plays exactly one match |
| Fixture.EveryWeekFull | internal/fixture/generator.go:39-63 | Each of those weeks holds n/2 matches |
| Fixture.EveryTeamHalfAtHome | internal/fixture/generator.go:43-63 | Every team is at home in n-1 matches |
| Fixture.EveryTeamHalfAway | internal/fixture/generator.go:43-63 | And away in n-1 matches |
| Fixture.MatchesUpTo | internal/fixture/generator.go:43-63 | Through week K every team has K matches |
| Fixture.ScheduleAt | internal/fixture/generator.go:39-69 | The whole list of matches, entry by entry: entries r*n + 2i and r*n + 2i + 1 are pair i of round r, position i at home to position n-1-i in week r+1 and the sides swapped in week r+n, where position 0 always holds the first team and position j >= 1 the team 1 + ((j-1-r) mod (n-1)) |
| Fixture.ScheduleShape | internal/fixture/generator.go:49-62 | Every match joins two different teams of the wheel, is SCHEDULED and lies in weeks 1..2(n-1) |
| Standings.Calculate | internal/standings/calculator.go:25-67 | For every map order and every correct unstable sort: each listed team once, no row below one it outranks, ranks 1..n; with unique ids and names the one table the inputs determine |
| Standings.RowMapStep | internal/standings/calculator.go:31-41 | One more match changes the accumulated rows as the per-team tallies say, home side first, unlisted teams skipped |
| Standings.Values | internal/standings/calculator.go:43-46 | Ranging over the map in arbitrary order yields every row once |
| Standings.Arrange | internal/standings/calculator.go:43-66 | Copying, sorting and numbering the rows gives a ranking of them |
| Standings.RowLessIsStrictWeakOrder | internal/standings/calculator.go:48-61 | The comparator is one sort.Slice may be given |
| Standings.TableUnique | internal/standings/calculator.go:43-65 | With different names there is only one ranking of the rows |
| Text.StringLessIsAlphabetical | internal/standings/calculator.go:59 | The name comparison: some common beginning after which the first name ends or has the smaller letter |
| Standings.TableOrder | internal/standings/calculator.go:48-61 | Of any two rows the upper has more points, or equal points and the better difference, or both equal and more goals, or all equal and the name that is a proper prefix or has the smaller letter at the first difference |
| Standings.TableOfSets | internal/standings/calculator.go:25-67 | The table depends on the sets of teams and matches alone: any permutation of either gives the same table |
| Standings.TableFilter | internal/standings/calculator.go:35-37 | Leaving out matches that are not PLAYED changes no table |
| TableLaws.TallyIsColumns | internal/standings/calculator.go:71-89 | Each of the eight columns is the sum of what the single matches contribute to it |
| TableLaws.OneMoreResult | internal/standings/calculator.go:31-41 | A row starts at zero and takes one result at a time: a win counts 3 points, a draw 1, a defeat none; the home side scores the home goals and concedes the away goals, the away side the other way round; a scheduled match and one of other teams leave it alone |
| TableLaws.TallyBalances | internal/standings/calculator.go:71-89 | Points = 3 Won + Drawn, Played = Won + Drawn + Lost, difference = for - against |
| TableLaws.ColumnConserved | internal/standings/calculator.go:31-41 | Summed over the teams a column holds what the matches put into it from both sides |
| TableLaws.TableConserves | internal/standings/calculator.go:25-67 | When every played match joins listed teams: total points = 3 decisive + 2 drawn, total difference = 0, total Played = 2 played matches |
| Poisson.CountDraws | internal/simulation/poisson.go:70-80 | Knuth's loop terminates and returns the largest k such that the product of the first k draws exceeds l; k + 1 draws are consumed |
| Poisson.BoundSuffices | internal/simulation/poisson.go:55-61 | A bound computed from l alone: after that many draws of at most 1 - 2^-53 the product is at or below l |
| Poisson.Bernoulli | internal/simulation/poisson.go:73-79 | Bernoulli's inequality, the reason the bound exists |
| Poisson.KnuthIsExact | internal/simulation/poisson.go:70-80 | The count is the last index at which the running product is above l, and all earlier products are above it too |
| Poisson.SamplePoisson | internal/simulation/poisson.go:62-86 | The sampler, both clamps included, and the generator state it leaves |
| Poisson.SampleMonotone | internal/simulation/poisson.go:62-86 | From the same generator state a larger mean never yields fewer goals, and never more than 9 |
| Poisson.SampleIsKnuth | internal/simulation/poisson.go:62-86 | No draw for a mean of zero or less; otherwise min(9, k) goals and k + 1 draws for the one k at which the running product last exceeds e^-min(mean, 9) |
| Poisson.SampleOverDraws | internal/simulation/poisson.go:69-86 | Over the draws themselves: for every sequence d of draws from the state on, if d[0] * ... * d[k] is the first product (the empty one being 1) at or below e^-min(mean, 9), the sampler returns min(9, k) and leaves the generator right after draw k + 1 |
| Poisson.DrawsExist | internal/simulation/poisson.go:73-79 | From every state there are such draws: some product falls to any bound above 0, so the former is about every call |
| Poisson.NoGoalIff | internal/simulation/poisson.go:69-80 | For a mean above 0: no goal iff the first draw is at most e^-min(mean, 9) |
| Poisson.MeansFromRatings | internal/simulation/poisson.go:36-53 | Both means from the ratings alone, with the weights 0.5, 0.3 and 0.2; (home - 0.25) * away = 1.35^2 |
| Poisson.Simulate | internal/simulation/poisson.go:36-44 | Home side sampled first with mean 1.35 * h / a + 0.25, away side from the state it leaves with mean 1.35 * a / h, h and a being 0.5 attack + 0.3 midfield + 0.2 (100 - opposing defense); both scores at most 9 |
| Poisson.StrengthPositive | internal/simulation/poisson.go:46-53 | Ratings in 1..100 give strengths of at least 0.8 |
| Poisson.HomeScoreMonotone | internal/simulation/poisson.go:36-53 | With all ratings of the home side no lower and all of the visitors' no higher, the home score is no lower |
| Poisson.AwayScoreMonotone | internal/simulation/poisson.go:36-53 | From the state the home side leaves, no lower ratings of the visitors and no higher ones of the home side never lower the away score |
| MonteCarlo.Predict | internal/prediction/monte_carlo.go:29-82 | No trials or no teams, no predictions; otherwise the forecast determined by the tables of the trials, for every map order and every correct sort |
| MonteCarlo.RunTrials | internal/prediction/monte_carlo.go:49-79 | After t trials the tally holds, for every team and rank, the number of trial tables with that team at that rank |
| MonteCarlo.CountRanks | internal/prediction/monte_carlo.go:75-78 | One table adds one to one rank of every team in it |
| MonteCarlo.PlayOut | internal/prediction/monte_carlo.go:64-73 | Played results first and unchanged, then every scheduled match played out in order with one generator |
| MonteCarlo.Partition | internal/prediction/monte_carlo.go:39-47 | The matches split into those played and those not, order kept |
| MonteCarlo.Aggregate | internal/prediction/monte_carlo.go:86-116 | One prediction for each tallied team, each summarising its counts, in whatever order the map yields them and then without inversions |
| MonteCarlo.Summarise | internal/prediction/monte_carlo.go:89-103 | Chance, mean and mode of one team from one pass over its counts |
| MonteCarlo.ForecastUnique | internal/prediction/monte_carlo.go:106-114 | With unique names every duplicate-free list of these predictions without inversions is the one forecast |
| TrialLaws.TrialIsChain | internal/prediction/monte_carlo.go:39-73 | Every trial table is the table over the PLAYED matches and the SCHEDULED ones with the scores of a chain: the first simulated from the generator of the trial, each further one from the state its predecessor left |
| Trials.ChainUnique | internal/prediction/monte_carlo.go:66-73 | Fixtures, teams, simulator and starting state leave one chain of results only |
| TrialLaws.TrialPlaysAll | internal/prediction/monte_carlo.go:64-74 | In every trial table each team has played all its matches, PLAYED and SCHEDULED alike |
| TrialLaws.PredictionMeans | internal/prediction/monte_carlo.go:89-103 | A prediction in terms of the tables: chance is the share of trials with rank 1, average the mean rank, mode the best of the ranks held most often |
| TrialLaws.ForecastMeans | internal/prediction/monte_carlo.go:49-103 | The same for every entry of the forecast Predict returns, and every team has an entry |
| ForecastLaws.TableIsRanking | internal/standings/calculator.go:63-66 | Every table lists every team exactly once |
| ForecastLaws.RankCountsSum | internal/prediction/monte_carlo.go:75-78 | A team's rank counts sum to the number of trials |
| ForecastLaws.TeamCountsSum | internal/prediction/monte_carlo.go:75-78 | A rank's counts over the teams sum to the number of trials |
| ForecastLaws.ChancesSum | internal/prediction/monte_carlo.go:97-103 | The chances sum to 100 |
| ForecastLaws.AveragesSum | internal/prediction/monte_carlo.go:97-103 | The average positions sum to n(n+1)/2 |
| ForecastLaws.ForecastConserves | internal/prediction/monte_carlo.go:49-103 | All four at once for the trials Predict actually makes, whatever the simulator returns |
| ForecastLaws.ModeIsFirstLargest | internal/prediction/monte_carlo.go:89-96 | The mode is the best rank among those with the largest count, and 0 only if all counts are 0 |
| ForecastLaws.ForecastOrder | internal/prediction/monte_carlo.go:106-114 | Of any two predictions the upper has the higher chance, or the equal chance and the better average, or both equal and a name not alphabetically after the lower one |
| ForecastLaws.CompletedPoints | internal/prediction/monte_carlo.go:64-73 | A trial leaves a team with its points plus at most three for each match it has left |
| ForecastLaws.MostPointsFirst | internal/standings/calculator.go:48-61 | Strictly most points is first place |
| ForecastLaws.ClinchedTitle | docs/PREDICTION_ALGORITHM.md:160-167 | If a leader has more points than every rival can still reach, every forecast reads chance 100, mode 1, first in the list, and chance 0 for everyone else |
| Tables.MatchesReplaced | internal/repository/postgres/match_repo.go:93-125 | A statement on the rows of one league changes that league only |
| Tables.SnapshotsReplaced | internal/repository/postgres/standings_snapshot_repo.go:32-84 | Writing the snapshots of one league changes that league only |
| Tables.FilterCleared | internal/repository/postgres/match_repo.go:114-125 | Clearing by league id un-plays exactly that league |
| StoreLaws.MatchesOnly | internal/repository/postgres/match_repo.go:93-108 | Scores recorded in the whole matches table are recorded in the one league whose week they are |
| StoreLaws.ScheduleAcceptable | database/schema.sql:58-76 | No schedule of the generator violates a CHECK or UNIQUE constraint of the matches table |
| StoreLaws.AcceptableIff | database/schema.sql:58-76 | New rows are accepted exactly when the table with them meets its CHECK and UNIQUE constraints |
| StoreLaws.HasDuplicates | database/schema.sql:48 | The membership key refuses a team given twice, and nothing else |
| StoreLaws.UpTo | internal/service/recalc.go:36-41 | The inner loop selects exactly the matches of weeks up to the given one |
| StoreLaws.LiveIsCached | internal/service/league_service.go:143-159 | In every valid state with a week played, the live table is the current snapshot |
| StoreLaws.EditMeans | internal/service/match_service.go:44-60 | Which error an edit ends with, or what it leaves, told by the one row the id leads to |
| StoreLaws.NewLeagueStored | internal/service/league_service.go:76-88 | League row, memberships and numbered fixtures together are one league more, the others as they were |
| Services.Store.constructor | database/schema.sql:33-49 | A catalog of teams and no league is a valid start |
| Services.Store.PlayWeek | internal/service/league_play.go:32-62 | Result, error and whole new state are those of the serial operation; NotFound iff the league is unknown, Conflict iff it is FINISHED; an error, at whatever statement, leaves every table as it was; the reply holds the week just played, its scores and the live table |
| Services.Store.PlayAll | internal/service/league_play.go:66-99 | As PlayWeek, for all weeks left: the reply lists each with its scores and ends FINISHED |
| Services.Store.Reset | internal/service/league_play.go:104-121 | The serial Reset, statement by statement; NotFound iff the league is unknown, and then nothing changes |
| Services.Store.Recalculate | internal/service/league_play.go:128-150 | The serial Recalculate and the live table; NotFound iff the league is unknown |
| Services.Store.SimulateWeek | internal/service/league_play.go:156-189 | Scores the week's matches in order with the week's generator, or fails at the first team the league does not have |
| Services.Store.PlayMatches | internal/service/league_play.go:171-185 | The loop: after j matches exactly the first j scores are recorded |
| Services.Store.AdvanceAndSnapshot | internal/service/league_play.go:194-212 | Table over all matches stored as the snapshot, week and status moved on |
| Services.Store.PlayOne | internal/service/league_play.go:45-53 | One simulated and snapshotted week, or its error |
| Services.Store.RebuildSnapshots | internal/service/recalc.go:21-48 | The week loop rewrites the snapshots of weeks from..current of the one league |
| Services.Store.UpdateResult | internal/service/match_service.go:44-104 | The serial edit: negative goals, unknown match, scheduled match each their error and no change; otherwise one audit entry more, with the old goals of the row, the new ones and the reason; that one match rescored and no other; rebuilt snapshots; and a reply read back after the edit |
| Services.Store.UpdateRating | internal/service/team_service.go:45-68 | InvalidInput iff a rating is outside 1..100, NotFound iff the team is unknown, otherwise that team has exactly the new ratings and all others stand |
| Services.Store.Standings | internal/service/league_service.go:143-159 | The live table, equal to the current snapshot once a week is played; NotFound for an unknown league |
| Services.Store.StandingsHistory | internal/service/league_service.go:195-203 | NotFound for an unknown league, otherwise the weeks 1..current in order, each with exactly its table |
| Services.Store.ResolveTeamIDs | internal/service/league_service.go:100-124 | The given ids if all are known, the whole catalog if none is given, InvalidInput otherwise |
| Services.Store.CreateLeague | internal/service/league_service.go:50-93 | Every validation error and the duplicate-team error with rollback, each exactly when it is due, or a stored league with exactly the name, seed, weeks and members asked for and the drawn schedule |
| Services.Store.InsertLeague | internal/repository/postgres/league_repo.go:27-66 | League row and memberships, or the key violation of a repeated team |
| Services.Store.BulkCreate | internal/repository/postgres/match_repo.go:26-49 | All rows or none, depending on the constraints |
| Services.Store.RecordResult | internal/repository/postgres/match_repo.go:93-108 | The row with the id is PLAYED with the score; NotFound when there is none |
| Services.Store.UpsertSnapshot | internal/repository/postgres/standings_snapshot_repo.go:32-84 | The rows of the week are replaced wholesale; a league without a row is a foreign-key error and changes nothing |
| Services.Store.DeleteFromWeek | internal/repository/postgres/standings_snapshot_repo.go:152-162 | Snapshots of weeks from the given one on are gone, earlier ones stay; nothing happens for a league without any |
| Services.Store.UpdateStatusAndWeek | internal/repository/postgres/league_repo.go:135-149 | Week and status of one league row, nothing else; NotFound when there is none |
| Services.Store.FindMatch | internal/repository/postgres/match_repo.go:51-66 | Finds the row with the id, or there is none |
| Services.Store.Conclude | internal/repository/postgres/transactor.go:25-39 | What the body of a transaction wrote stays if and only if it returned no error; otherwise every table is back to what it was at the beginning |
| Services.Store.PlayWeekBody | internal/service/league_play.go:34-60 | Inside the transaction: the error of the operation, or its success and new state |
| Services.Store.PlayAllBody | internal/service/league_play.go:68-97 | The same for the week loop, whatever week it stops at |
| Services.Store.ResetBody | internal/service/league_play.go:105-120 | The same for the three statements of Reset |
| Services.Store.RecalculateBody | internal/service/league_play.go:130-148 | The same for the rebuild and the live table |
| Services.Store.UpdateResultBody | internal/service/match_service.go:50-102 | The same for the edit, once its goals are known not to be negative |
| Services.Store.CreateLeagueBody | internal/service/league_service.go:76-88 | The same for league row, memberships and fixtures, once the team list is known to be valid |
| History.SelectHistory | internal/repository/postgres/standings_snapshot_repo.go:111-126 | The join, its snapshots visited in any order, then sorted by week and rank |
| History.GroupByWeek | internal/repository/postgres/standings_snapshot_repo.go:129-149 | The fold: flattening what it returns gives the rows back, no week is empty, neighbours differ |
| History.GroupingUnique | internal/repository/postgres/standings_snapshot_repo.go:142-147 | Those two facts leave only one grouping |
| History.JoinedIsTable | internal/repository/postgres/standings_snapshot_repo.go:111-122 | Storing a table without names and joining the names back gives the table |
| History.HistoryRoundTrip | internal/repository/postgres/standings_snapshot_repo.go:108-150 | In every valid state the history is weeks 1..current, strictly ascending, each with exactly the table through it |
| ConcurrencyLaws.SerialInLockOrder | internal/service/league_play.go:27-35 | For every schedule of any number of concurrent transactions, with failures at any moment, the committed rows are those of running the committed operations one by one in the order of their locks; refusals are those of that serial run; no transaction takes effect twice |
| ConcurrencyLaws.StatementKeepsOutlook | internal/service/league_play.go:32-62 | No single statement of a lock holder changes what the whole transaction will commit |
| ConcurrencyLaws.LockedOutlook | internal/service/league_play.go:35-40 | From the moment of the lock that is the whole operation on the rows then committed |
| ConcurrencyLaws.RowsReplaced | internal/repository/postgres/standings_snapshot_repo.go:32-84 | The three statements of an upsert leave exactly the new rows |
| WeeksOnce.WeekScoredOnce | internal/service/league_play.go:27-35 | If, in any schedule, two tenures of the lock are each seen scoring matches of the same week and both commit, a Reset committed between them |
| WeeksOnce.NoMatchTwice | internal/service/league_play.go:171-185 | Within one tenure of the lock no match is scored again: after scoring match j of a week the tenure is only ever seen at later matches of that week or at later weeks |
| WeeksOnce.ScoringSimulates | internal/service/league_play.go:156-189 | A transaction seen scoring a week at any moment of any schedule either does not commit or takes the league, in the serial run, from before that week to that week or later |
| ConcurrencyLaws.NoWeekTwice | internal/service/league_play.go:27-31 | In the serial run, two committed plays that take the league past the same week have a committed Reset between them |
| StaleEdits.AlwaysInOrderIff | internal/service/match_service.go:51-84 | Every schedule of all five jobs: week/result coherence and the cache hold in the committed rows at every moment if and only if every committed edit finds its match PLAYED when its turn comes, the status check the code makes before the lock only |
| StaleEdits.EditInOrderIff | internal/service/match_service.go:51-84 | An edit that saw a PLAYED row leaves the league in order if and only if the row is PLAYED under the lock, whatever its score has become |
| StaleEdits.LockedJobsStayInOrder | internal/service/league_play.go:27-150 | Corollary: without edits every interleaving of PlayWeek, PlayAll, Reset and Recalculate keeps the committed rows in order |
| StaleEdits.EditIsCurrentIff | internal/service/match_service.go:51-72 | An edit does what it would have done with the row re-read under the lock iff the row still has the outcome it saw before the lock |
| StaleEdits.EditsSerialIff | internal/service/match_service.go:51-72 | The same for every edit of every schedule, against the row at its place in the lock order |
| StaleEdits.SerialIffCurrent | internal/service/match_service.go:51-79 | Every schedule: committed rows, audit log included, and every ending are those of the serial run in lock order in which each edit reads its row in its turn, if and only if every edit that was not lost saw the outcome its row then has |
| Interleavings.OvertakenEdit | internal/service/match_service.go:51-72 | UpdateResult is not serialisable: for every PLAYED match there is a schedule with a Reset that ends with a PLAYED match in a league at week 0, which neither serial order gives |
| Interleavings.LockComesBack | internal/service/league_play.go:27-35 | From any world, whoever holds the lock can run to its end and free it: no deadlock |
| Interleavings.HolderCommits | internal/repository/postgres/transactor.go:29-38 | A holder whose operation succeeds on the committed rows can be run to a commit of exactly that |

## Left out

- HTTP handlers, configuration, the composition root, the web page: transport and wiring.
- SQL text, pgx, migrations, connection errors: each repository method is modelled by what it does to the tables; a statement that fails for outside reasons appears only as `Die` in the step model, and as nothing in `Services`.
- Timestamps (`created_at`, `played_at`, `captured_at`, `changed_at`) and the order they give audits in listings.
- `float64` rounding: means, products, chances and averages are exact reals; the draws keep their bound 1 - 2^-53.
- PCG and `math.Exp`: a generator is an abstract state, the exponential any positive antitone function.
- Statistical behaviour of the sampler: not a property of the code alone.
- Machine integers: ids, weeks and goals are natural numbers, so a negative id or week in a request does not occur; goals of an edit are integers and checked.
- Gaps in BIGSERIAL sequences after a rollback: `Conclude` restores the counters too, so ids differ from those a database would give after a failed insert; nothing proved depends on their values.
- The random seed CreateLeague makes up when none is given: the seed is always an argument here.
- `PredictionService` (gate on weeks left, clamp of the number of trials): settled by reading one branch.
- `DeleteLeague`, `WeekDetail`, `Fixtures`, `GetAudit`, `GetByWeek` and the other read-only listings: easy members; `Reachability.KeepsLeagues` therefore says that leagues never disappear.
- `database/queries.sql`: reference queries the code does not use.
- Standings.Calculate: rows are values in a map, not shared references, so aliasing between rows is not modelled; the array that is sorted and numbered is modelled in place.
- MonteCarlo.RunTrials: the rank counts are a map of sequences rather than of slices, and `combined` is rebuilt per trial instead of reusing its buffer.
- Services.Store.UpdateResult: proved serial here, because a method runs alone; what its unlocked read costs under concurrency is in StaleEdits and Interleavings.
- Interleaved UpdateRating: ratings are held fixed in the step model, since that operation takes no league lock.
- ConcurrencyLaws.SerialInLockOrder: one league per world; the roster, the catalog and other leagues' rows are constant there. The row check of an UPDATE that finds no match is omitted, since no modelled operation deletes one. Statements that only read for the reply (the re-fetch of a week, the final table) are not steps, and an edit's goals are natural numbers there, negative ones being refused before the transaction begins.
