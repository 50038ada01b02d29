# cyboard: a verified model of the scoring engine

cyboard scores a cyber-defence competition. A monitor runs check scripts against every team's services at a fixed
interval and pauses for scheduled breaks; contestants submit flags; views in the database turn the rows into scores;
a hub pushes fresh data to browsers, whose page reconciles its rows with it. This project models those parts and proves what holds of
them on every input, in every interleaving and over every run. `dafny verify dfyconfig.toml` checks all of it.

| file | part of the system |
|---|---|
| `Schedule.dfy`, `Points.dfy`, `BreakSelection.dfy` | the event schedule: validation, points per check, which break is next |
| `Runner.dfy` | check runner, ticker and break scheduler as one step system over an integer clock |
| `PauseTime.dfy`, `PromptRuns.dfy` | what runs of that system cost: pauses against breaks, the exact number of rounds |
| `Results.dfy`, `Monitor.dfy`, `Activation.dfy`, `Round.dfy`, `RoundInsert.dfy` | active checks, one round's goroutines and collector, storing a round |
| `Engine.dfy`, `Earnings.dfy` | runner, rounds, reloads and stored rows as one step system, and the points its rows are worth |
| `CheckArgs.dfy`, `ArgsText.dfy` | filling in check arguments; the editor's text form of them |
| `Relational.dfy`, `FlagSubmission.dfy`, `SnapshotOrder.dfy`, `Scoring.dfy`, `Ledger.dfy`, `Progress.dfy`, `Grouping.dfy` | queries, flag submissions as transactions, score views, CTF progress, streaming group-by |
| `Hub.dfy`, `ServiceRows.dfy`, `Announcer.dfy` | broadcast hub, live service board, chat announcer |

Code that updates state is a class or method with loops, proved equal to a specification function (`Board.SyncServices` to
`Merge`, `ServiceMonitor.Activate` to a pair of filters, `SplitArgs` to `Split`); the properties are then proved of the function. Protocols are
step systems `State` / `Action` / `Enabled` / `Apply` / `Run`, and their results are about every run.

## What is assumed

- Clock: integer nanoseconds, monotone. A timer may be late by any amount and is never early. A ticker's channel holds one tick; a late
  ticker skips the ticks it missed.
- Database: a transaction reads one snapshot; a capture's commit is refused if another submission has since committed the solve its read
  looked for, or if the challenge is gone; no key on the solves is checked; deleting a challenge deletes its solves; a bulk copy stores all rows or none, and reports an
  error only in the second case. Staff edits are not assumed to be validated against submissions.
- Libraries: the address parser is a parameter; the sort is known only by its result (a permutation in order of start); replace-all
  is leftmost and does not rescan. Which select case is taken, how long the jitter lasts, which goroutine sends
  first, how commands end and which connection comes next in a map are arbitrary.
- Points are exact reals, times unbounded integers.

## What was found

- Break selection (`server/checks.go:410-418`, `server/middleware.go:103-112`) is commented as finding the next unfinished break. It
  yields the last break of the schedule, whatever the loop variable's scoping. It agrees with the comment exactly when no break is left, or one that
  is not starting at this instant (`AgreesWithComment`). So the runner only ever pauses for the last break, at most once
  (`HandoffsBounded`), the web server's flag is never up during an earlier one (`FlagOnlyForLastBreak`), and earlier breaks can be scored straight through
  (`EarlierBreaksAreScored`).
- What that does to points. With a prompt scheduler and breaks taken before ticks, a run of the code as commented always keeps a service within its total and
  one check more for the start and for each pause (`CommentedWithinCap`). For the code as written that holds for every such run exactly when
  the whole intervals before the last break and after it (to the end of the event, if that break is past or starting now) are no more than the service's checks
  (`WrittenWithinCapIff`). It does when one break is left (`LastBreakWithinCap`); with two, a service can pay any multiple of its total (`PaidThroughBreak`). Go's select may also take a tick while a
  break is on offer; if it may do so every time, the whole time from start-up to the end of the event decides (`TicksFirstWithinCapIff`). In
  every run, however late, the cap holds with the time that pauses did not make up for added to it (`ServiceCap`).
- `CalcPointsPerCheck` states its caveat about services that start during a break as something validation prevents. `Validate` never sees services; the
  span is right exactly when the service starts by the end of the event and outside every break, a break's first instant counting as inside (`SpanIsActiveTime`).
- A round's stamp is read before its jitter (`server/checks.go:305`), a reload uses a later time (line 249). "Every active check starts
  before the round's stamp" is therefore false (`StampCanTrail`) and holds exactly under the condition in `StampAgainstReload`; "before the clock" always
  holds (`ActiveAreStarted`).
- A capture is atomic at its place in the commit order exactly when the challenge row it read is there, unchanged, at its commit
  (`CommitIsAtomic`). Staff can hide a challenge between a submission's read and its commit, and the capture stands (`StaleCapture`).
  Such captures are in order all the same, placed at the snapshots they read: as long as no challenge id comes back after it has gone, that order
  explains every answer and ends with the same challenges and the same solves (`SerialAtSnapshots`).
- The hub remembers a new timestamp before it has the data for it. If fetching fails, nobody hears of that change until the timestamp changes
  again (`FailedFetchIsForgotten`); `BroadcastIsCurrent` says when the last broadcast is current.
- The announcer keeps the last solve of a challenge in a batch, not the first (`LastIsKept`, `LaterSolverWins`).
- A service without arguments gets one empty argument when it is edited and saved (`EditKeepsArgs`). A service renamed while a page is open keeps its
  old label there (`BoardEqualsData`).
- The four replacements in an argument are one simultaneous substitution, for all arguments, exactly when the team's name neither contains `{TEAM_ID}` nor
  ends in a beginning of it (`SimultaneousIffNamePassive`): only that token is replaced after the name. A name such as `{IP}` is safe, `{TEAM` is not
  (`NamesAndTokens`).
- Cyboard's own README (`README.md:311-313`) says exit code 2 is a failure; the code makes every code but 0 and 1 one. The comment at `server/checks.go:270` speaks of at least one second of
  jitter; the code's minimum is one nanosecond. The model allows any jitter.

## Model

| member | source | states |
|---|---|---|
| Schedule.Validate | server/config.go:79-134 | accepts exactly the configurations whose event, interval, timeout and prefix are right and whose breaks are positive, inside the event and pairwise disjoint in order; every refusal names the first fault in the order of the checks |
| Schedule.SortedByStart | server/config.go:96 | the copy is a permutation with ascending starts, all that a library sort promises |
| Schedule.SortedCopyAgrees | server/config.go:97-101 | up to the first difference, a list agrees with its sorted copy at a place exactly when nothing smaller comes later |
| Schedule.FirstFault | server/config.go:97-118 | returns the first break with a fault of its own, and which fault |
| Schedule.FirstOverlap | server/config.go:120-126 | returns the first break that ends after its neighbour starts |
| Schedule.AdjacentSuffices | server/config.go:120-126 | comparing neighbours only rules out overlap of every pair |
| Schedule.IPish | server/config.go:137-140 | accepts exactly a text and a dot that make an address with a last 0 |
| Points.CalcPointsPerCheck | server/check_score.go:26-41 | the award is the total over the truncated quotient of the span, or the division by zero the source makes when that is 0 |
| Points.QuotientTruncates | server/check_score.go:39 | the division drops less than one interval, toward zero, for negative spans too |
| Points.SpanExcess | server/check_score.go:31-37 | on disjoint breaks the span exceeds the number of instants outside breaks by exactly the rest of a break running at the start |
| Points.SpanIsActiveTime | server/check_score.go:22-37 | the span is the active time if and only if the service starts by the event's end and not during a break |
| Points.ChecksShareTotal | server/check_score.go:14-20 | the checks fill the active time to within one interval and add up to the service's total |
| Points.ShareOfTotal | server/check_score.go:39-40 | points are within the cap exactly when the passing checks are |
| BreakSelection.SelectBreak | server/checks.go:410-418 | the loop with its shared variable yields the last index as soon as any break is listed |
| BreakSelection.Intended | server/middleware.go:103 | the commented meaning: the earliest break whose end is still ahead |
| BreakSelection.SelectedIsLast | server/checks.go:412-418 | on a validated schedule the loop yields the last break exactly while that one is ahead or running |
| BreakSelection.AliasingIsHarmless | server/checks.go:412-418 | on a validated schedule a fresh loop variable per iteration would change nothing |
| BreakSelection.AgreesWithComment | server/middleware.go:103-112 | loop and comment agree if and only if no break is unfinished, or one that is not starting now |
| BreakSelection.UnfinishedIsTail | server/middleware.go:103-112 | on a validated schedule the unfinished breaks are a tail and the intended one is its first |
| BreakSelection.FlagOnlyForLastBreak | server/middleware.go:98-131 | in every run the break flag is up only from the last break's start on, so in no earlier break |
| BreakSelection.FlagFollows | server/middleware.go:119-129 | in any run the flag is up if and only if a break's beginning came after the last end |
| BreakSelection.LastBreakIsFlagged | server/middleware.go:98-131 | with timers on time the flag is up at every instant of the last break, down at its end, and the loop then finishes |
| Runner.RunCounts | server/checks.go:284-301 | over any run: claimed ticks are paid for by interval boundaries, passes by ticks and resumptions, and time is ticking or paused |
| Runner.RoundsBounded | server/checks.go:263-367 | rounds in any run are at most 1 + pauses + floor(unpaused time / interval), for any latency and any dropped ticks |
| Runner.RoundsBoundedSince | server/checks.go:263-367 | the same from any reachable state on, with the four rounds that can already be in the pipeline |
| Runner.NoRoundDuringHandedBreak | server/checks.go:284-301 | after a break is handed over no round starts before its end, and the runner is held past it by exactly the delay of the hand-off |
| Runner.HandoffsBounded | server/checks.go:406-449 | as written at most one hand-off, of the last break; as commented each break at most once, in order |
| Runner.RoundsAsWritten | server/checks.go:263-449 | the code as written: at most 2 + floor(unpaused time / interval) rounds |
| Runner.SchedulerReturns | server/checks.go:406-449 | every selection that is not the last leaves fewer breaks unfinished; at most one more than there are, and with none left it returns |
| Runner.RunsOn | server/checks.go:303-367 | in every run without a stop the runner has not stopped |
| Runner.StopsFromWaiting | server/checks.go:284-301 | it can be stopped whenever it waits for a tick or for a break's end |
| Runner.StoppedForGood | server/checks.go:364-371 | after that no round starts and no break is taken |
| PauseTime.SurplusRun | server/checks.go:284-301 | over any run, time paused and still to pause never falls behind the pauses that were handed over, from their computed start to their break's end |
| PauseTime.ActiveWithinSpan | server/check_score.go:31-37 | in any run the time with the ticker on is at most the span, the time breaks lost before they were handed over, and the last hand-off's delay |
| PauseTime.ServiceCap | server/checks.go:263-449 | in any run, late or prompt, a team earns at most the total, one check for the start and each pause, and the checks that fit that lost time |
| PauseTime.ServiceCapSince | server/checks.go:263-449 | the same for a service that starts while the monitor runs |
| PromptRuns.PromptRounds | server/checks.go:263-449 | with a prompt scheduler and breaks before ticks, rounds are at most 1 + pauses + the ticks that fit between the breaks picked |
| PromptRuns.MostRounds | server/checks.go:263-449 | and that many are reached, on every schedule and interval |
| PromptRuns.EarlierBreaksAreScored | server/checks.go:406-449 | for every schedule there is a run, with a prompt scheduler, that starts a round every interval up to the last break |
| PromptRuns.WithinCapIff | server/check_score.go:39-40 | all those runs keep within the cap exactly when those ticks are no more than the service's checks |
| PromptRuns.BeatsAreActive | server/checks.go:409-418 | as commented those ticks fit the active time |
| PromptRuns.CommentedWithinCap | server/checks.go:406-449 | as commented, every such run on every accepted schedule keeps within the cap |
| PromptRuns.WrittenWithinCapIff | server/checks.go:406-449 | as written, if and only if the intervals before and after the last break are no more than the service's checks |
| PromptRuns.LastBreakWithinCap | server/checks.go:406-449 | that is so when at most one break is left and it is not starting now |
| PromptRuns.TicksFirstWithinCapIff | server/checks.go:284-301 | if ticks may be taken before breaks, exactly when the whole time to the event's end fits the service's checks |
| PromptRuns.EmptyPassGoesOn | server/checks.go:327-333 | from every reachable pass, finding nothing to check leads on, by a tick or by a break that goes first, to a pass that starts a round |
| PromptRuns.PaidThroughBreak | server/checks.go:412-418 | as written, for every interval there are accepted schedules on which a service pays any multiple of its total |
| Engine.RoundScoresOnce | server/checks.go:335-349 | a finished round scores a service at most once for a team, and not at all if it was not active |
| Engine.PassesWithinRounds | server/checks.go:303-367 | in every run of the joint system, a team's stored passes for a service are no more than the runner's rounds that began after the service's start |
| Engine.PassesSince | server/checks.go:303-367 | and no more than the rounds since any state up to which none had begun after that start |
| Engine.TableIsStoredRounds | server/checks.go:353-362 | in every run the table is the results of the finished rounds whose store succeeded, whole and in order, and nothing else |
| Engine.PassesAreRounds | server/checks.go:353-362 | so a team's stored passes for a service are as many as the kept rounds that hold one |
| Engine.RoundGoesThrough | server/checks.go:303-364 | from every reachable state about to check, and for any way each command may end, a round goes through with those results, and a successful store puts them all in the table |
| Engine.EmptyPass | server/checks.go:327-333 | with no active checks the runner goes to wait and nothing else changes |
| Engine.ReloadTakes | server/checks.go:226-256 | between rounds any list of active checks can be loaded and is what is checked next |
| Earnings.EarnedInAnyRun | migrations/002cy_initialize_schema.up.sql:261-266 | in every run of the joint system, what the score view adds up for a team and service that was due at the start is within the cap of `ServiceCap` |
| Earnings.EarnedSince | migrations/002cy_initialize_schema.up.sql:261-266 | the same for a service that starts later, within the cap of `ServiceCapSince` |
| Earnings.EarnedWithinCap | migrations/002cy_initialize_schema.up.sql:261-266 | and within the plain cap where every run keeps to it |
| Earnings.EarnedIsRounds | migrations/002cy_initialize_schema.up.sql:261-266 | in every run the view adds up to a check's worth for each kept round holding a pass, no more and no less |
| Monitor.Collect | server/checks.go:347-349 | the buffer ends up holding the results sent, in whatever order they arrive |
| Monitor.ResultMeans | server/checks.go:130-180 | a pass is exit 0, a partial exit 1, a timeout a command that did not run or end in time, all else fails; the codes kept are the command's, 127 and 129 |
| Monitor.PassIffExitZero | server/checks.go:141-158 | results of the checks, in whatever order, hold a pass for a check if and only if its command exited with 0 |
| Monitor.ServiceMonitor.Reload | server/checks.go:244-256 | the prepared checks are split, in order, by whether they have started |
| Monitor.ServiceMonitor.Activate | server/checks.go:317-324 | the walk that removes while iterating ends, appends the started checks in order and keeps the others in order |
| Monitor.ServiceMonitor.RunRound | server/checks.go:335-349 | the buffer holds one result per active check, reallocated only when the number of checks changed |
| Activation.InvRun | server/checks.go:244-256 | every reload and activation keeps the partition and the horizon that separates active from unstarted |
| Activation.ActiveAreStarted | server/checks.go:315-324 | in every run active plus unstarted is a permutation of the last prepared list; a check is active exactly if it starts before the horizon, hence before the clock |
| Activation.StaysActive | server/checks.go:315-324 | until the next reload an active check stays active, in its place |
| Activation.StampAgainstReload | server/checks.go:305-324 | after activation nothing due waits; all active checks start before the stamp if and only if no prepared check starts between stamp and horizon |
| Activation.StampCanTrail | server/checks.go:305-324 | a run in which a check starting after the round's stamp is active in that round |
| Round.RoundsComplete | server/checks.go:335-351 | in every interleaving each finished round holds exactly one result per check, with the round's stamp, nothing left from before |
| Round.RoundHoldsItsExits | server/checks.go:335-351 | in every interleaving a round from lock to unlock ends with the checks and stamp it began with, and each check's result is of how its own command ended |
| Round.Completed | server/checks.go:343-349 | for any way the commands may end there is a course of the round that ends so |
| Round.ChecksAreReloaded | server/checks.go:244-256 | the checks are those of the last reload |
| Round.NoStraySender | server/checks.go:161-180 | outside a round no goroutine runs or waits to send; during one no older goroutine does |
| Round.RoundFinishes | server/checks.go:343-351 | while a round lasts some step of it can be taken, reloads cannot, and each step leaves less work |
| Round.DeliverOne | server/checks.go:347-349 | receiving from any goroutine adds exactly its result to what was delivered |
| Round.DeliveredAll | server/checks.go:344-349 | when all have sent, the deliveries are one result per check |
| RoundInsert.CheckTable.Insert | server/models/scoringservices.go:53-60 | the copy visits each row once, in order; all are stored or none |
| RoundInsert.CheckTable.StoreRound | server/checks.go:353-362 | first insert and five retries: the rows are stored once, in order, if any attempt succeeds, else not at all; and how long was waited |
| RoundInsert.WaitsClosed | server/checks.go:186-200 | k retries wait k(k+1)(2k+1)/6 seconds in all |
| CheckArgs.PrepareChecks | server/checks.go:55-98 | with the cache and skipped scripts the result is that of expanding every argument directly |
| CheckArgs.DirectMeans | server/checks.go:61-98 | one prepared check for each pair whose script is found, in order, its command that script's path and then each argument filled in |
| CheckArgs.TokensAreFilled | server/checks.go:80-91 | between any plain text, each of the four tokens becomes the prefix and number, the number, the name or the key; the numbers read back as numbers |
| CheckArgs.CommandsAreFilled | server/checks.go:73-97 | and so in the commands that are prepared |
| CheckArgs.ReplaceOneMore | server/checks.go:87-90 | replacing one more token in a partly substituted argument is substituting one more token |
| CheckArgs.ExpandIsSimultaneous | server/checks.go:80-91 | the four replacements are one simultaneous substitution if braces open only tokens and no occurrence of the last token can begin in the name |
| CheckArgs.SimultaneousIffNamePassive | server/checks.go:80-91 | over all such arguments, if and only if the name neither contains the last token nor ends in a beginning of it |
| CheckArgs.NameIsReplacedAgain | server/checks.go:89-90 | for any other name there is an argument in which the name is replaced again |
| CheckArgs.NamesAndTokens | server/checks.go:87-90 | names without braces and names that are one of the other three tokens are safe; the last token and a beginning of it are not |
| ArgsText.SplitArgs | ui/static/assets/js/staff/admin-utils.js:52-74 | the character loop computes the recursive parse, or its error |
| ArgsText.SplitMeans | ui/static/assets/js/staff/admin-utils.js:45-74 | fails exactly on an odd number of quotes; else one argument more than unquoted spaces, and the arguments spell the line without quotes |
| ArgsText.SplitPieces | ui/static/assets/js/staff/admin-utils.js:56-73 | the line is cut at its unquoted spaces and nowhere else, and each argument is the stretch between two cuts without its quotes |
| ArgsText.SplitPrinted | ui/static/assets/js/staff/services.js:32 | parsing the printed form of quote-free arguments returns them |
| ArgsText.EditKeepsArgs | ui/static/assets/js/staff/services.js:72 | an unchanged edit keeps the arguments if and only if there are some and none holds a quote; no arguments become one empty one |
| Relational.LeftJoinHas | server/models/scoringchallenges.go:70-72 | rows of a left join: each left row with each of its partners, or alone if it has none |
| FlagSubmission.QueryRowsAre | server/models/scoringchallenges.go:66-83 | which rows the query returns, with and without a solve |
| FlagSubmission.ReadsFirstRow | server/models/scoringchallenges.go:77-83 | the row a submission reads is the first row of the query, found by looking for the first matching challenge |
| FlagSubmission.ReadMeans | server/models/scoringchallenges.go:66-90 | the row read is the one challenge guessed, and tells whether the team holds it |
| FlagSubmission.SubmitMeans | server/models/scoringchallenges.go:47-49 | the atomic submission is the only one that awards a correct flag once, by exactly one new row, and writes nothing otherwise |
| FlagSubmission.AnswerMeans | server/models/scoringchallenges.go:66-100 | valid if and only if the flag is that challenge's own, the name its name and it is public, or no name is given and it is hidden, and the team does not hold it; likewise for the other answers |
| FlagSubmission.Store.CheckFlagSubmission | server/models/scoringchallenges.go:50-100 | valid exactly if the one challenge guessed is not held, then its row is added; already captured if it is held; invalid if there is none |
| FlagSubmission.NotHeldSince | server/models/scoringchallenges.go:60-72 | a solve missing from a snapshot stays missing until some submission commits it, whatever staff edit |
| FlagSubmission.InvStep | server/models/scoringchallenges.go:50-100 | every step of any submission or staff edit keeps the history invariant: versions keyed and captured once, each led to by its log entry, each transaction true to the snapshot it read |
| FlagSubmission.CapturedOnce | migrations/002cy_initialize_schema.up.sql:221-234 | in every reachable history no team holds a challenge twice, by the transactions' reads alone: no key is checked |
| FlagSubmission.CapturesAreRight | server/models/scoringchallenges.go:74-83 | every capture ever committed was by a guess with the challenge's own flag |
| FlagSubmission.AloneIsAtomic | server/models/scoringchallenges.go:50-100 | from any reachable state, a submission with nothing else going on does and answers what it should |
| FlagSubmission.RolledBack | server/models/scoringchallenges.go:60-64 | a rolled-back submission leaves the tables as they are and never captures anything |
| FlagSubmission.EditMeans | migrations/002cy_initialize_schema.up.sql:221-234 | which challenges and solves an edit leaves, the cascade included |
| FlagSubmission.CommitIsAtomic | server/models/scoringchallenges.go:50-100 | a committed capture equals an atomic submission at its place in the commit order if and only if the challenge row it read is still there at its commit |
| FlagSubmission.StaleCapture | server/models/scoringchallenges.go:70-96 | for any visible challenge there is a run in which staff hide it in between and the capture stands |
| FlagSubmission.SubmissionsStayFresh | server/models/scoringchallenges.go:50-100 | without staff edits that condition always holds |
| FlagSubmission.SerialInCommitOrder | server/models/scoringchallenges.go:50-100 | one serial order holds every submission that did not fail once, captures and edits in commit order, and replays to all their answers and the final tables |
| FlagSubmission.AnswersAreTimely | server/models/scoringchallenges.go:50-100 | each answer is an atomic submission's on tables current between its begin and its end |
| SnapshotOrder.SerialAtSnapshots | server/models/scoringchallenges.go:50-100 | whatever staff edit, unless an id comes back: each submission that did not fail, once, at its snapshot, replays to all answers, the final challenges and a permutation of the final solves |
| Progress.CountsMean | server/models/scoringchallenges.go:113-117 | both counts over the join are the true ones exactly when the team holds no visible challenge of the category twice |
| Progress.ProgressCounts | server/models/scoringchallenges.go:110-138 | with unique captures `max` is the number of visible challenges, `amount` the number held, and amount <= max |
| Scoring.JoinedScoreIs | migrations/002cy_initialize_schema.up.sql:261-273 | a two-join grouped view has one row per left team, with the sum over the rows its middle rows refer to |
| Scoring.SecondJoin | migrations/002cy_initialize_schema.up.sql:263-266 | summing after the second join is summing the worth of each middle row |
| Scoring.FirstJoin | migrations/002cy_initialize_schema.up.sql:263-266 | the first join gives a team the sum over its own middle rows only |
| Scoring.ViewsAreSums | migrations/002cy_initialize_schema.up.sql:255-279 | the three views have a row for exactly the enabled blue teams, holding the direct sums over passes, solves and bonuses |
| Scoring.OneRowPerTeam | server/models/scoring.go:15-49 | the scoreboard has exactly one row per enabled blue team, in key order, with its rounded sums |
| Scoring.RoundIsNearest | server/models/scoring.go:20-23 | a rounding is within a half, and even at a half |
| Scoring.ColumnsNearlyAdd | server/models/scoring.go:20-23 | the rounded columns differ from the rounded score by at most two, and can differ by two |
| Ledger.Reprice | migrations/002cy_initialize_schema.up.sql:268-273 | changing a challenge's total moves a team's sum by captures times the difference |
| Ledger.Cascade | migrations/002cy_initialize_schema.up.sql:224 | deleting a challenge takes away exactly the worth of its captures |
| Ledger.Revalue | migrations/002cy_initialize_schema.up.sql:261-266 | changing a service's points re-values every check passed before |
| Ledger.DeltaIsRight | migrations/002cy_initialize_schema.up.sql:255-279 | for every event and team, what is added to the tally is what recomputing would change |
| Ledger.ToggledMeans | migrations/002cy_initialize_schema.up.sql:255-259 | a disabled team leaves the views and comes back with all its points; no other is touched |
| Ledger.TalliesAreViews | migrations/002cy_initialize_schema.up.sql:255-279 | after any history, the incremental tallies equal the three views |
| Ledger.ScoreboardIsTallies | server/models/scoring.go:15-49 | after any history the scoreboard is the tallies of the enabled blue teams, rounded |
| Grouping.GroupRows | server/models/challenge.go:198-215 | the loop that appends to the last group computes the specified grouping |
| Grouping.FlattenGrouped | server/models/challenge.go:198-215 | flattening the groups gives back the rows; no group is empty and neighbours differ |
| Grouping.GroupedFlatten | server/models/challenge.go:198-215 | it is the only grouping like that |
| Grouping.KeysOnceIffTogether | server/models/challenge.go:190-212 | no key heads two groups if and only if rows with equal keys stand together |
| Grouping.SortedByKey | server/models/challenge.go:190-212 | rows sorted by the grouping key, in any order that tells different keys apart, give each key one group |
| Grouping.SortedStandTogether | server/models/scoringchallenges.go:204-236 | sorting by id and grouping by name is safe when id and name determine each other |
| Hub.BroadcastHub.Broadcast | server/websocket.go:115-122 | in whatever order clients come, each with an empty buffer gets the message and the others keep theirs |
| Hub.BroadcastHub.Tick | server/websocket.go:91-122 | a tick sends only if the timestamp changed and the data came; the timestamp is remembered either way |
| Hub.DeliveryInOrder | server/websocket.go:84-187 | in every run a client's messages are an ascending, repeat-free selection of those broadcast while it was connected, and with those it was passed over for they are all |
| Hub.FlowGrows | server/websocket.go:115-177 | over any run what was delivered to a client, read or not, is never taken back or replaced, and what follows is newer |
| Hub.OfferDecides | server/websocket.go:116-121 | in every run a message reaches a client it was offered to if and only if the buffer was empty then |
| Hub.OffersAreBroadcast | server/websocket.go:115-122 | the offers of a broadcast together do what the hub's own loop does |
| Hub.NothingAfterLeaving | server/websocket.go:67-72 | a client that has left is given nothing more |
| Hub.PromptClientGetsAll | server/websocket.go:115-121 | a client never passed over has every message since it joined, each once |
| Hub.BroadcastIsCurrent | server/websocket.go:97-113 | over any run, the last broadcast is of the timestamp held if and only if none was new, the last new one came with its data, or it was the last broadcast's again |
| Hub.FailedFetchIsForgotten | server/websocket.go:97-113 | from every reachable state, after a failed fetch nothing reaches any client until the timestamp changes |
| ServiceRows.Board.Step | ui/static/assets/js/serviceWs.js:69-89 | one turn inserts, deletes or updates in place and leaves a board whose completion is unchanged |
| ServiceRows.Board.RemoveTrailing | ui/static/assets/js/serviceWs.js:93-96 | removes exactly the rows left over, and does nothing while data are left |
| ServiceRows.Board.SyncServices | ui/static/assets/js/serviceWs.js:46-104 | throws without touching the page exactly when there are no data or the team count differs, else leaves the merge, on any rows and data |
| ServiceRows.MergeShowsData | ui/static/assets/js/serviceWs.js:46-104 | with both in ascending order, row k shows datum k: the old element if the service was on the page, else a new one |
| ServiceRows.BoardEqualsData | ui/static/assets/js/serviceWs.js:46-104 | with one box per team the board equals the data in ids, order and statuses; rows that stay keep element and label |
| ServiceRows.SyncIsIdempotent | ui/static/assets/js/serviceWs.js:120-139 | the same message again changes nothing |
| Announcer.Poller.Step | setup/discord/announce_ctf_solves.py:71-90 | announces the new challenges of the batch and adds them, no others, to those seen |
| Announcer.NewFirstsKeys | setup/discord/announce_ctf_solves.py:63-69 | a challenge is announced exactly if it is in the batch and not yet seen |
| Announcer.LastIsKept | setup/discord/announce_ctf_solves.py:66-68 | the solve announced for it is the last one in the batch |
| Announcer.FirstSolverAnnounced | setup/discord/announce_ctf_solves.py:66-68 | with unique captures, the first solver is announced if and only if the batch has one solve of that challenge |
| Announcer.AnnouncedOnce | setup/discord/announce_ctf_solves.py:71-90 | over any run of polls no challenge is announced twice |

## Left out

- Schedule.Validate: instants and durations are unbounded, so saturating subtraction of far-apart times is not modelled; the address parser is a parameter.
- Points.CalcPointsPerCheck: points are exact reals, not 32-bit floats, and a quotient of zero is reported as such where the source's float division gives an infinity.
- Scoring.ViewsAreSums: sums are exact, not REAL, so their rounding error and its dependence on row order are not modelled.
- PromptRuns.WithinCapIff: is about services that are due when the monitor comes up; for later ones `ServiceCapSince` gives a bound, with four checks for rounds and ticks under way.
- Runner.HandoffsBounded: the clock stops with the runner; what the scheduler does after the runner has stopped is not modelled.
- Round.RoundFinishes: a command is taken to end or time out eventually, as the source's own comment admits no other safeguard exists.
- Engine.PassesWithinRounds: a service's start is fixed over a run and its points are what the calculation gives; staff moving a start or changing points in between is not part of it (the ledger covers changed points).
- RoundInsert.CheckTable.StoreRound: what each attempt answers is a parameter; a copy that stores rows and still reports an error is outside the assumption.
- Announcer.Poller.Step: a poll that fails changes nothing and is not a step; sending the message is not modelled.
- The pause at start-up, before the event or during a break, ahead of both threads: the runs here begin when the threads do.
- Process execution, signals, killing, log output, and the listener that decides when to reload (a reload is a step that may come at any time the lock is free).
- The hub's shutdown: once its close channel is closed its loop does not return, so nothing is claimed there; write errors and pings only make a client leave.
- HTTP routing, sessions, passwords, rate limits, roles, templates, and the editing of teams, services and challenges beyond the changes that move scores.
- Captures per flag with its first solver, the score-change timestamp queries, and the sum of a challenge list: single queries or folds over rows already covered.
- Icons and animation of the status boxes, and the text input's own removal of line breaks, which a saved argument could hold.
