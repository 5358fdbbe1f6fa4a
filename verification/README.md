# Sovereign core models

Dafny models of the self-contained algorithms and state machines of the trading repository, with proofs of what they
promise. Each module follows one source component and keeps its form: code that changes things step by step is a method or
a class with a specification function, and the properties are lemmas about that function. `dafny verify dfyconfig.toml`
checks everything.

| modules | component |
|---|---|
| `Novelty`, `Explorer` | the strategy explorer: novelty metric, unique candidates, bounded lists |
| `BotCycle`, `BotCycleTrades`, `BotCycleProperties`, `BotCycleFixpoint`, `BotCycleRuns` | the trading bot's cycle: review, ranking, buying, what it trades, whole runs |
| `CycleLock` | the bot's pid-and-age lock file, any number of processes |
| `EvidenceSchema`, `SourceEvidence` | the crash-safe publication of verification evidence |
| `RateLimiter` | the API's fixed-window limiter and its purge |
| `Drawdown` | equity aggregation and drawdown, in C++ and JavaScript |
| `Calendar`, `Resampler` | weekly and monthly bars, in place |
| `JsonEscape` | the C++ JSON escaper |
| `Getline`, `SweepDatasets` | the C++ dataset-list parser |
| `Rounding`, `ServingManifest`, `Imputation` | the manifest between training and the two servers, and their matrices |
| `PriceArchive`, `ArchiveQuota`, `ArchiveVisits`, `ArchiveSettings` | the research archive: byte counter, pruning and rollback, what each lane does, its safe settings |
| `BackupLoop`, `BackupReports` | the backup service's schedule, heartbeats and exit codes |
| `CppNesting`, `JsNesting` | the control-flow audit's nesting depth |
| `Wrappers`, `Extrema`, `Picks` | options; minima and maxima; picking from a list |

What a component observes from outside (clock, draws, fetched data, order outcomes, commands, writes that fail) is a
parameter, usually one `Env` or `World` value, and every theorem is about all its values.

## Findings

Where the code does less than its surroundings suggest, the model keeps the code, gives an input, and proves exactly when
the expected property holds:

- Novelty: a missing strategy is at distance 1 from itself, so the distance is a pseudometric exactly on strategies that exist.
- Trading cycle: the repeated paper cycle is a fixpoint exactly if the first bought nothing that the next review lets go.
  On every feed that needs a minimum edge above 0.05 (at 0.05 it churns) with positive stop-loss and age limit, or a bot
  that buys nothing reviewable. Unique ids and a price range are not needed. A sell whose order log threw is counted and
  kept, and exactly that breaks conservation. The cooldown guard is dead code.
- Cycle lock: an expired holder's release removes a successor's lock exactly when both are cycles of one process; an
  unreadable lock file blocks forever.
- Weekly bars: keys are ten characters of a date text, which after the year 9999 no longer tell the day, and `Date.UTC`
  moves the years 0 to 99 to the twentieth century.
- Rate limiter: the bound over a closed 60 s interval is 2*600-1, and is attained. A purge can be observed only when the
  clock runs backwards.
- Dataset lists: the error for an empty list is never made.
- Train and serve parity: the manifest carries ten significant digits of a median, training imputes with all of them. Both
  end in single precision, and agree exactly when a median and its ten digits are the same single; for 1.0000000596 they
  are not.
- Archive quota: the counter measures a fetched series under the label `api`, the writer stores it under
  `clob_prices_history`, so the directory outgrows the counter, and the quota, by sixteen bytes a row. The fetch also keeps
  a cache file, which under the default root lies in the measured directory and is not counted at all. The quota holds from
  every directory exactly with the price lane off, or with the cache outside the root and a quota too small for one row.
  A series that fills the quota to the byte leaves the token's order book neither captured, failed nor counted as skipped.
- Backup loop: an interval or due time further away than a timer's range (2147483647 ms) turns into waits of one
  millisecond. A crash carries the schedule over; a stop forgets it, unless a completed backup keeps it. A one-shot run
  aborted before its attempt throws instead of returning.
- Nesting audit: a ';' in a header, as in a counting `for` loop, uses up the controls before it, so the body is measured as
  if they were not there; a header without a control word on or before its last line with a ';' is measured in full.

## Model

| member | source | states |
|---|---|---|
| Novelty.ComputeDistance | tools/strategies/auto_strategy_explorer.js:120-145 | the accumulating loop computes the mean of the six dimension distances; the closing cap at 1 never fires |
| Novelty.CountShared | tools/strategies/auto_strategy_explorer.js:135-141 | the counting loop finds the size of the intersection of two finite universes |
| Novelty.JaccardBounds | tools/strategies/auto_strategy_explorer.js:134-142 | the Jaccard term is in [0,1], symmetric, and 0 exactly on equal sets, two empty sets included |
| Novelty.SteinhausTriangle | tools/strategies/auto_strategy_explorer.js:134-142 | x/(a+b+x) is subadditive along a chain of three sizes: the arithmetic core of the Jaccard triangle |
| Novelty.JaccardTriangle | tools/strategies/auto_strategy_explorer.js:134-142 | the Jaccard distance obeys the triangle inequality over arbitrary finite sets |
| Novelty.DistanceBounds | tools/strategies/auto_strategy_explorer.js:120-145 | the novelty distance is symmetric and within [0,1] on all arguments, missing strategies included |
| Novelty.DistanceTriangle | tools/strategies/auto_strategy_explorer.js:120-145 | the triangle inequality for all arguments |
| Novelty.DistanceZeroExactly | tools/strategies/auto_strategy_explorer.js:120-145 | two strategies are at distance 0 if and only if both exist and agree on all six dimensions |
| Novelty.SelfDistanceZeroExactly | tools/strategies/auto_strategy_explorer.js:121-122 | a strategy is at distance 0 from itself if and only if it is there: a missing one is at distance 1 from itself |
| Novelty.DistanceSplits | tools/strategies/auto_strategy_explorer.js:120-145 | the distance of two strategies is the sum of the distances to the strategies that differ in one dimension only |
| Novelty.NameWeighsASixth | tools/strategies/auto_strategy_explorer.js:126-129 | another family, model or timeframe alone is a distance of exactly 1/6 |
| Novelty.GapWeighsUpToASixth | tools/strategies/auto_strategy_explorer.js:130-133 | a threshold gap counts in proportion up to 0.05, a holding period up to 20 days, and each for 1/6 from there on; a missing threshold is 0, a missing or zero horizon 1 |
| Novelty.UniverseWeighsByShare | tools/strategies/auto_strategy_explorer.js:134-142 | other symbols alone are a sixth of the share of all symbols that only one strategy trades; no symbols at all are no distance |
| Explorer.GeneratedIsComplete | tools/strategies/auto_strategy_explorer.js:148-198 | the registration defaults leave a generated strategy unchanged |
| Explorer.CheckedIsRegistered | tools/strategies/auto_strategy_explorer.js:148-198 | what generation checks against the seen list and the previous strategy is what registration stores |
| Explorer.DiscoveryTakesTheFirst | tools/strategies/auto_strategy_explorer.js:148-198 | a discovery takes the first draw whose fingerprint is not remembered and whose distance to the last strategy is 0.5 or more; every earlier draw fails one of the two |
| Explorer.SameNormExactly | tools/strategies/auto_strategy_explorer.js:105-118 | two specifications are fingerprinted alike if and only if they agree on everything up to the order of symbols and indicators, left-out lists being empty ones |
| Explorer.CompleteFillsGaps | tools/strategies/auto_strategy_explorer.js:307-335 | what is stored of a specification is what it says, with 1h, SPY, the six indicators, 0.6 and five days for what it leaves out or empty, and the maximum holding days before the horizon |
| Explorer.Store.SaveExplorerState | tools/strategies/auto_strategy_explorer.js:89-103 | a save that works stores the state with history cut to 100 and seen fingerprints to 500; a failing save changes nothing |
| Explorer.Store.GenerateUniqueCandidate | tools/strategies/auto_strategy_explorer.js:148-198 | the bounded loop returns the first draw that is unseen and novel enough, and fails if and only if no draw is |
| Explorer.Store.EvaluateAndRegisterSpec | tools/strategies/auto_strategy_explorer.js:307-367 | registering is one registration step of the run below: the entry goes to the end of the history, its strategy becomes the last one, its fingerprint is remembered, and the oldest of more than 100 entries go |
| Explorer.Store.RunExplorationCycle | tools/strategies/auto_strategy_explorer.js:370-376 | one cycle equals one step of the run below and saves nothing when no draw is acceptable |
| Explorer.StepKeepsInvariant | tools/strategies/auto_strategy_explorer.js:89-103 | each cycle or direct registration keeps the seen list duplicate-free, bounded by 500, and adds at most one entry at its end |
| Explorer.SeenInvariant | tools/strategies/auto_strategy_explorer.js:89-103 | over every run the seen list is duplicate-free, bounded, and the last 500 entries of the insertion log |
| Explorer.HistoryLaw | tools/strategies/auto_strategy_explorer.js:89-103 | over every run the history is the last 100 of the start's history followed by one entry per registered specification, in order; each carries its distance to the strategy stored just before it, or 1; the last strategy and the count of discoveries are those of these entries |
| Explorer.EqualFingerprintsFarApart | tools/strategies/auto_strategy_explorer.js:148-198 | two generated strategies with one fingerprint are at least 500 new insertions apart, in every run |
| Explorer.NovelFromPrevious | tools/strategies/auto_strategy_explorer.js:148-198 | every generated strategy is at distance 0.5 or more from whatever was registered last before it |
| Explorer.AcceptableDrawExists | tools/strategies/auto_strategy_explorer.js:148-198 | with a hash that tells the finitely many candidates apart, every valid state leaves an acceptable draw: the search space is never used up |
| BotCycle.Bot.SubmitRiskApproved | backend/execution/src/cycle.ts:161-183 | an order reaches the exchange if and only if the risk authorizer approved exactly that order |
| BotCycle.Bot.IndexBets | backend/execution/src/cycle.ts:355-358 | the slug index answers with the last bet of each slug |
| BotCycle.Bot.ReviewPositions | backend/execution/src/cycle.ts:363-425 | the sell loop computes the review function and posts exactly its orders; none in paper mode, and none that is not approved |
| BotCycle.Bot.BuyCandidates | backend/execution/src/cycle.ts:460-575 | the buy loop computes the buy function and posts exactly its orders; none in paper mode, and none that is not approved |
| BotCycle.Bot.RunCycle | backend/execution/src/cycle.ts:363-604 | review, rank, buy, save: the posted orders are those of the review and then those of the purchases; a throwing order log leaves the saved positions as they were |
| BotCycleProperties.EdgeIsDistance | backend/execution/src/cycle.ts:441-449 | a NO edge is the negated YES edge, so the chosen edge is the distance of model and market, and price plus edge is the side's probability |
| BotCycleProperties.SortIsStable | backend/execution/src/cycle.ts:449 | the ranking is a descending, stable rearrangement |
| BotCycleProperties.ConsidersTopSlots | backend/execution/src/cycle.ts:431-460 | the candidates considered are eligible bets of the feed by descending edge, as many as there are free slots, and no eligible bet left out has a larger edge |
| BotCycleProperties.ReviewConserves | backend/execution/src/cycle.ts:363-425 | the sell phase loses exactly the positions sold and logged, invents none and keeps those not yet reviewed |
| BotCycleProperties.UnloggedExactly | backend/execution/src/cycle.ts:395-420 | the tally of unlogged sells is 0 if and only if no reviewed position was sold with a log that threw |
| BotCycleProperties.CycleConserves | backend/execution/src/cycle.ts:363-574 | a completed cycle changes the number of positions by buys minus sells if and only if no position was sold with a log that threw; otherwise it is off by those sells |
| BotCycleProperties.UnloggedSellMiscounts | backend/execution/src/cycle.ts:395-420 | a cycle that miscounts by one: a matched live sell whose log throws is counted as sold and kept |
| BotCycleProperties.CycleRespectsMaximum | backend/execution/src/cycle.ts:431-460 | a completed cycle ends with at most max(maxPositions, survivors of the review) |
| BotCycleProperties.CooldownNeverBlocks | backend/execution/src/cycle.ts:462-466 | the cooldown check of the buy loop never fires in any cycle |
| BotCycleTrades.BetForExactly | backend/execution/src/cycle.ts:355-358 | the bet of a slug is the last one of the feed with that slug |
| BotCycleTrades.ObservablePriceExactly | backend/execution/src/cycle.ts:112-145 | a position is seen at a price if and only if it is the live quote of its token, or the feed price of its side in paper mode, above 0 and at most 1 |
| BotCycleTrades.ExitExactly | backend/execution/src/cycle.ts:90-110 | a position is to be sold for a reason if and only if it is seen at a price to which that reason applies and no earlier one of: resolved, target, stop, reversal, age |
| BotCycleTrades.SellsExactly | backend/execution/src/cycle.ts:363-425 | a position is sold if and only if it has a reason and, live, its closing order is approved and matched |
| BotCycleTrades.ReviewExactly | backend/execution/src/cycle.ts:363-425 | with unique ids the review keeps exactly, and in order, the positions that are not sold with a log that worked, and counts those sold |
| BotCycleTrades.ReviewOrdersExactly | backend/execution/src/cycle.ts:380-400 | the review posts, in order and only live, one order for each position with a reason whose closing order is approved: its token, its shares, at the price it was seen at |
| BotCycleTrades.OrderExactly | backend/execution/src/cycle.ts:495-497 | the order for a bet is for the YES token of its market if the model puts YES at or above the market price, else for the NO token, at that side's price, and shares times price are the configured amount |
| BotCycleTrades.PositionExactly | backend/execution/src/cycle.ts:549-567 | the stored position has the token, price and quantity of its order, the matching side, the fill price, the stop below it by the stop-loss share and the target between a cent above it and 0.95 |
| BotCycleTrades.FilledExactly | backend/execution/src/cycle.ts:470-547 | a candidate is bought at a fill price if and only if its market is open and its order, live, approved and matched at it |
| BotCycleTrades.BuyStepExactly | backend/execution/src/cycle.ts:460-575 | one more candidate adds exactly its position at the end, if it is filled and nothing has thrown, and else changes nothing; a failing log is a throw |
| BotCycleTrades.PurchasesExactly | backend/execution/src/cycle.ts:460-575 | every position bought in a cycle comes from a filled candidate, in the order of the ranking, with the token, side and prices of its bet, and every candidate filled before a throw is stored |
| BotCycleTrades.BuyOrdersExactly | backend/execution/src/cycle.ts:516-524 | the buy phase posts, in order, only live and not after a throw, the order for each considered bet whose market is open, if it is approved: the same order that its stored position carries |
| BotCycleFixpoint.SurvivorsHold | backend/execution/src/cycle.ts:363-425 | in paper mode whatever survives a review has no reason to exit, without unique ids |
| BotCycleFixpoint.FreshPositionHoldsExactly | backend/execution/src/cycle.ts:549-567 | a fresh paper position survives its first review if and only if it was bought below 0.95 with positive edge, stop distance and age limit, or at a price no review looks at |
| BotCycleFixpoint.DryBuys | backend/execution/src/cycle.ts:460-575 | a paper cycle buys exactly the tradable considered candidates |
| BotCycleFixpoint.SecondCycleSeesFailures | backend/execution/src/cycle.ts:431-460 | the free slots of a repeated cycle only meet candidates that failed market resolution before: no new one moves up |
| BotCycleFixpoint.DryRunFixpointExactly | backend/execution/src/cycle.ts:363-574 | with everything frozen and distinct slugs, a second paper cycle sells nothing, buys nothing and keeps every position if and only if the first bought nothing that the next review lets go |
| BotCycleFixpoint.FixpointForEveryFeed | backend/execution/src/cycle.ts:363-574 | the settings that make this so on every feed: disabled, no slots, a minimum edge of 1 or more, or a minimum edge above 0.05 with positive stop-loss and age limit; and no others |
| BotCycleFixpoint.DryRunIsFixpoint | backend/execution/src/cycle.ts:363-574 | in particular a minimum edge above 0.05 with positive stop-loss and age limit, even when failed candidates used up slots |
| BotCycleFixpoint.LowEdgeChurns | backend/execution/src/cycle.ts:90-110 | at a minimum edge of exactly 0.05 a paper bot buys at 0.95, sells and buys again |
| BotCycleRuns.CycleKeepsIds | backend/execution/src/cycle.ts:549-567 | under an advancing clock and distinct markets each cycle keeps position ids unique |
| BotCycleRuns.RunConserves | backend/execution/src/cycle.ts:363-604 | over any run of cycles ids stay unique and every position is accounted for by buys, sells and unlogged sells |
| CycleLock.LockPath.BreakStaleLock | backend/execution/src/bot_state.ts:134-147 | takes the lock over if and only if its record is ten minutes old or of a missing process |
| CycleLock.LockPath.AcquireLock | backend/execution/src/bot_state.ts:149-158 | acquires an absent or stale lock, and leaves any other as it was |
| CycleLock.LockPath.ReleaseLock | backend/execution/src/bot_state.ts:160-169 | removes the file if and only if it names the releasing process |
| CycleLock.StepExclusiveExactly | backend/execution/src/bot_state.ts:122-169 | a step keeps "at most one live holder younger than ten minutes, and the file names it" if and only if it is not a release beside a young session of the same process |
| CycleLock.ReleaseRemovesSuccessorExactly | backend/execution/src/bot_state.ts:160-169 | an expired holder's release removes the successor's lock if and only if the successor is the same process |
| CycleLock.RunExclusive | backend/execution/src/bot_state.ts:122-169 | exclusion at the end of every run without such a release |
| CycleLock.RunExclusiveExactly | backend/execution/src/bot_state.ts:122-169 | a run is exclusive at every moment if and only if none of its steps is such a release |
| CycleLock.SingleFlightKeepsOnePerProcess | backend/execution/src/bot_state.ts:149-169 | processes that start a cycle only after finishing theirs hold at most one session each, in every run |
| CycleLock.ExclusionForAnyProcesses | backend/execution/src/bot_state.ts:122-169 | any number of processes that run one cycle at a time, dying and being replaced at will, are exclusive |
| CycleLock.OverlappingCyclesCollide | backend/execution/src/bot_state.ts:122-169 | a run of two processes with two live young holders: one process starts a second cycle after ten minutes, then ends the first |
| CycleLock.RecordNeverBlocksForLong | backend/execution/src/bot_state.ts:134-147 | a lock record blocks an acquisition if and only if it is young and its process is alive |
| CycleLock.GarbageBlocksForever | backend/execution/src/bot_state.ts:134-147 | a lock file that is not a record is never broken, so no later run acquires the lock |
| CycleLock.LockObtainableExactly | backend/execution/src/bot_state.ts:134-158 | some run acquires the lock if and only if its file is absent or a record |
| EvidenceSchema.SameMembersExactly | tools/dev/source_evidence_schema.js:46-54 | comparing sorted copies is comparing multisets: order never matters, repetition does |
| EvidenceSchema.PassSays | tools/dev/source_evidence_schema.js:118-141 | a valid pass has every expected step exactly once, all five lockfiles, the claims of its mode and the fixed exclusions |
| EvidenceSchema.ClaimsNameTheMode | tools/dev/source_evidence_schema.js:128-138 | a record claims source evidence for its own mode and for no other |
| SourceEvidence.UndecidedIsSafe | tools/dev/source_evidence_schema.js:56-141 | a record under construction is refused if and only if its mode or job limit is bad |
| SourceEvidence.FailedIsSafe | tools/dev/source_evidence_schema.js:56-141 | the record of a failed or interrupted run is refused only for those or a malformed source identity |
| SourceEvidence.PassedIsSafe | tools/dev/source_evidence_schema.js:56-141 | the record of a complete run is refused only for those or a missing source identity |
| SourceEvidence.ExtendTrail | tools/dev/verify_source_evidence.js:306-312 | a safe record continues the published trail: steps only grow, and only the last record carries a verdict |
| SourceEvidence.NamesOfCompleteRun | tools/dev/verify_source_evidence.js:188-242 | running every fixed step in order satisfies the schema's comparison of names |
| SourceEvidence.Verifier.WriteEvidenceAtomic | tools/dev/verify_source_evidence.js:306-312 | a refused or failed write leaves the record on disk as it was; otherwise it is the record in memory |
| SourceEvidence.Verifier.OnStepStart | tools/dev/verify_source_evidence.js:406-416 | publishes an undecided record that names the active step, after the finished ones, and keeps the trail |
| SourceEvidence.Verifier.OnStepComplete | tools/dev/verify_source_evidence.js:417-423 | publishes an undecided record with the finished step, and keeps the trail |
| SourceEvidence.Verifier.RunStep | tools/dev/verify_source_evidence.js:244-297 | one step is announced, run and recorded with two writes; its record tells the command's exit code, signal and output, passes exactly a clean command and is inconclusive exactly for a signalled one |
| SourceEvidence.Verifier.ExecuteSteps | tools/dev/verify_source_evidence.js:244-297 | steps run in order up to the first whose command is not clean, whose signal alone decides between inconclusive and fail; without one every step ran and passed; two records are published for each step |
| SourceEvidence.Verifier.LockfileEvidence | tools/dev/verify_source_evidence.js:156-163 | one entry for each of the five roots, in order, with its own lockfile's path and digest, or an exception if and only if a lockfile cannot be read |
| SourceEvidence.Verifier.Prepare | tools/dev/verify_source_evidence.js:394-399 | the two first publications, of an undecided record without and with the source identity and lockfiles; it throws exactly if the arguments, the source, a lockfile or one of the writes is bad |
| SourceEvidence.Verifier.Attempt | tools/dev/verify_source_evidence.js:394-437 | the try block keeps the trail whatever throws; it decides pass for a complete clean run, and else inconclusive exactly if the first unclean command has a signal, and gives the reason |
| SourceEvidence.Verifier.RecordThrown | tools/dev/verify_source_evidence.js:438-456 | an exception turns the announced step into a failed one without exit code or signal, and the verdict into fail |
| SourceEvidence.Verifier.PublishVerdict | tools/dev/verify_source_evidence.js:454-456 | the last publication keeps the trail; a passing record is refused exactly for its mode, job limit or missing source, any other exactly for its mode, job limit or malformed source, or a failing write |
| SourceEvidence.Verifier.RunVerification | tools/dev/verify_source_evidence.js:376-466 | at every crash point the record on disk validates, follows the fixed steps and says pass only for a complete run; the last record says pass if and only if all commands, reads and writes succeeded, inconclusive if and only if the first unclean command has a signal, fail otherwise; its steps tell their commands' results; the exit code is 0 if and only if it passed and the clean-up succeeded |
| RateLimiter.Limiter.CheckRate | backend/api/app.js:138-153 | counts the request in its address's window or opens a new one, and accepts up to 600 |
| RateLimiter.Limiter.Purge | backend/api/app.js:73-81 | the timer's loop removes exactly the expired entries |
| RateLimiter.EntryIsLatestWindow | backend/api/app.js:138-148 | an address's entry holds the time of its latest opening, the first request more than 60000 ms after the one before, and the number of its requests since |
| RateLimiter.AcceptedExactly | backend/api/app.js:138-153 | a request is accepted if and only if at most 600 requests of its address lie from the latest opening up to and including it; rejected requests count but open nothing |
| RateLimiter.AcceptedWithPurgesExactly | backend/api/app.js:73-81 | under a non-decreasing clock this is so with purges at any moments too |
| RateLimiter.PurgeHides | backend/api/app.js:73-81 | over every run the purged table misses only expired entries of the unpurged one |
| RateLimiter.PurgeUnobservable | backend/api/app.js:73-81 | under a non-decreasing clock every interleaving of requests and purges gets exactly the decisions of a limiter that never purges |
| RateLimiter.PurgeObservableExactly | backend/api/app.js:73-81 | a purge changes a decision if and only if the entry was full and the clock has run back into its window |
| RateLimiter.WindowInvariant | backend/api/app.js:138-148 | what an interval can have accepted so far, given the address's current window |
| RateLimiter.SlidingWindowBound | backend/api/app.js:135-153 | no closed interval of 60 s holds more than 2*600-1 accepted requests of one address, whatever the requests and purges |
| RateLimiter.SlidingWindowBoundAttained | backend/api/app.js:135-153 | a run that attains 2*600-1 |
| Drawdown.MaxDrawdown | tools/strategies/portfolio_pulse.js:50-65 | on positive series the one-pass scan returns the minimum of the relative changes over all ordered pairs, and a pair that attains it |
| Drawdown.ScanIsMinimum | tools/strategies/portfolio_pulse.js:50-65 | after every prefix the peak is the first maximum and the worst decline is minimal over all pairs of the prefix |
| Drawdown.MaxDepth | backend/cpp_core/src/main.cpp:904-909 | the C++ loop computes the depth function of the curve's equities |
| Drawdown.ScansAgree | backend/cpp_core/src/main.cpp:904-909 | on every curve that starts at 1.0 the C++ depth is the JavaScript drawdown with the opposite sign, with the same peak |
| Drawdown.DepthBelowOneExactly | backend/cpp_core/src/main.cpp:904-909 | the depth stays below 1 if and only if every equity stays positive, and bounds every loss from the start |
| Drawdown.Aggregate | backend/cpp_core/src/main.cpp:876-912 | all symbols' trades fold into one curve; summary counts, net return, drawdown, win rate and expectancy are those of the flat list |
| Drawdown.CurveCompounds | backend/cpp_core/src/main.cpp:886-894 | the curve starts at 1 and has a point for every trade's exit, at which its return on the position is compounded |
| Drawdown.ReturnsExactly | backend/cpp_core/src/main.cpp:886-894 | the gains are the trades' net returns times the position size |
| Drawdown.CountsExactly | backend/cpp_core/src/main.cpp:893-898 | winners and losers are the numbers of trades above and below zero; a trade that breaks even is neither |
| Drawdown.SumAdds | backend/cpp_core/src/main.cpp:911 | the summed gains are additive over concatenation |
| Drawdown.PositionExactly | backend/cpp_core/src/main.cpp:887 | the position size is the requested share moved into 0.01 to 1 |
| Drawdown.WinRateWithinOne | backend/cpp_core/src/main.cpp:910 | winners and losers are disjoint trades, so the win rate lies in [0,1] |
| Drawdown.EquityStaysPositive | backend/cpp_core/src/main.cpp:886-894 | if no trade loses everything the equity stays positive |
| Drawdown.AggregateIsBounded | backend/cpp_core/src/main.cpp:876-912 | then drawdown is in [0,1), net_return >= -max_drawdown, and the JavaScript scan agrees |
| Calendar.YearLength | tools/strategies/rsi_reversal_signal.js:68-70 | the day count behind month keys gives 366 days exactly to leap years |
| Calendar.YearOf | tools/strategies/rsi_reversal_signal.js:68-70 | the year of a day is the one whose first day is on or before it and whose successor's is after it |
| Calendar.MonthExactly | tools/strategies/rsi_reversal_signal.js:68-70 | a day of a year lies in a month if and only if it lies between the lengths of the months before it and that plus the month's own, with 28 or 29 days in February |
| Calendar.MondayOnOrBefore | tools/strategies/rsi_reversal_signal.js:61-66 | the Monday of a day is the one on or before it, unless the year is 0 to 99, which Date.UTC takes for 1900 to 1999 |
| Calendar.SameWeekKeyExactly | tools/strategies/rsi_reversal_signal.js:61-66 | two days share a week key if and only if they share the Monday, or their Mondays lie outside the years 0 to 9999 and in one month, where ten characters of the date text do not reach the day |
| Calendar.WeeksMerge | tools/strategies/rsi_reversal_signal.js:61-66 | the first two Mondays of the year 10000 have one key |
| Calendar.EarlyYearsGoBack | tools/strategies/rsi_reversal_signal.js:61-66 | the first day of the year 50 has a later key than the first day of the year 100 |
| Calendar.KeyIsMonotone | tools/strategies/rsi_reversal_signal.js:61-70 | a later day has the same or a later week or month key, weeks of the years 0 to 99 aside |
| Resampler.Bar.Absorb | tools/strategies/rsi_reversal_signal.js:84-92 | the update of a running group: highest high, lowest low, last close and time, added volume |
| Resampler.AppendCopy | tools/strategies/rsi_reversal_signal.js:81-84 | a new group is a fresh copy of its first bar; earlier groups stay as they were |
| Resampler.ExtendLast | tools/strategies/rsi_reversal_signal.js:85-92 | the in-place update of the last group leaves the others as they were |
| Resampler.ResampleDaily | tools/strategies/rsi_reversal_signal.js:76-95 | the in-place fold yields fresh bars that hold the merged groups |
| Resampler.ResampleOne | tools/strategies/rsi_reversal_signal.js:76-95 | one more bar extends the last merged group or opens a new one |
| Resampler.GroupsPartition | tools/strategies/rsi_reversal_signal.js:76-95 | the groups partition the bars, in order, into stretches of one key with different neighbours |
| Resampler.VolumeConserved | tools/strategies/rsi_reversal_signal.js:76-95 | total volume is conserved on every input |
| Resampler.MergeBounds | tools/strategies/rsi_reversal_signal.js:76-95 | a merged bar bounds the lows and highs of its group, and attains both |
| Resampler.MergeSummarizes | tools/strategies/rsi_reversal_signal.js:80-92 | a merged bar opens with the first bar of its group, closes with and is dated by the last, spans their lows and highs exactly, and sums their volume |
| Resampler.VolumeOfConcat | tools/strategies/rsi_reversal_signal.js:91 | volume is additive over concatenation |
| Resampler.ResampleIsIdempotent | tools/strategies/rsi_reversal_signal.js:76-95 | resampling a resampled series changes nothing |
| Resampler.OrderedGroups | tools/strategies/rsi_reversal_signal.js:76-95 | on advancing keys the groups have strictly ascending keys and each holds exactly the bars of its key |
| Resampler.ResampleIsGroupBy | tools/strategies/rsi_reversal_signal.js:61-95 | on date-ordered bars, weekly ones not from the years 0 to 99, the result is the group-by of the code's own keys: each key of the input exactly once, ascending, with a bar that summarizes all its bars: first open, last close and time, spanned lows and highs, summed volume |
| JsonEscape.JsonEscape | backend/cpp_core/src/main.cpp:34-58 | the loop computes the escape of every byte |
| JsonEscape.ReadsBackByte | backend/cpp_core/src/main.cpp:34-58 | what is written for a byte is one plain character or one escape that a reader turns back into the byte |
| JsonEscape.EscapeLength | backend/cpp_core/src/main.cpp:38-53 | exactly quote, backslash, tab, line feed and carriage return have two-character escapes, other control bytes six characters with upper-case digits, and all other bytes stand for themselves |
| JsonEscape.EscapeReadsBack | backend/cpp_core/src/main.cpp:34-58 | the string grammar of section 7 of RFC 8259 reads the escaped bytes back, whatever follows the closing quote |
| JsonEscape.EscapeIsInjective | backend/cpp_core/src/main.cpp:34-58 | different byte strings have different escapes |
| JsonEscape.EscapeDistributes | backend/cpp_core/src/main.cpp:34-58 | escaping distributes over concatenation |
| JsonEscape.EscapeIsClean | backend/cpp_core/src/main.cpp:34-58 | no control byte comes out, and every quote follows a backslash |
| SweepDatasets.ParseEntry | backend/cpp_core/src/main.cpp:1205-1235 | one entry is parsed by its first ':' and its last '@' and '#' |
| SweepDatasets.ParseSweepDatasets | backend/cpp_core/src/main.cpp:1195-1241 | the loop parses piece by piece, keeps the entries read before an error, and never complains of an empty list |
| SweepDatasets.ParsedItemSpells | backend/cpp_core/src/main.cpp:1205-1235 | an accepted entry prints back to its text up to fingerprint case |
| SweepDatasets.SpelledItemParses | backend/cpp_core/src/main.cpp:1205-1235 | text that spells a valid entry parses to that entry |
| SweepDatasets.ItemsOfJoin | backend/cpp_core/src/main.cpp:1202-1205 | splitting a comma-joined list, with or without one trailing comma, gives the list back |
| SweepDatasets.JoinOfItems | backend/cpp_core/src/main.cpp:1202-1205 | joining the pieces gives the text back up to one trailing comma |
| SweepDatasets.ParseItemsExactly | backend/cpp_core/src/main.cpp:1195-1241 | pieces parse to a list if and only if each spells its entry |
| SweepDatasets.AcceptedExactly | backend/cpp_core/src/main.cpp:1195-1241 | an argument is accepted as a list if and only if it is the comma-joined spelling of that non-empty list, up to fingerprint case and one trailing comma |
| SweepDatasets.FingerprintRefusedExactly | backend/cpp_core/src/main.cpp:1208-1226 | an entry is refused for its fingerprint if and only if its shape is right, with 128 characters at the end, and they are not all hexadecimal; anything else is refused for its shape |
| SweepDatasets.FirstRefused | backend/cpp_core/src/main.cpp:1202-1236 | the entries before the first refused one are kept, and its complaint is the one reported |
| SweepDatasets.PrintParse | backend/cpp_core/src/main.cpp:1195-1241 | parsing a printed non-empty list of valid entries gives the list |
| ServingManifest.WriteServingManifest | tools/ml/train.py:100-112 | the appending loops build the manifest's lines |
| ServingManifest.LoadServingManifest | backend/cpp_core/src/main.cpp:945-966 | the C++ loop folds the lines, and accepts a manifest with a column and a model |
| ServingManifest.LoadManifest | tools/ml/verify_parity.py:23-36 | the Python loop folds the lines until one raises: a missing word, a median that is no number, a count that is no integer text |
| ServingManifest.ReadersAgree | tools/ml/verify_parity.py:23-36 | on every text that the Python reader accepts, without negative counts, the C++ reader reads the same |
| ServingManifest.PyAcceptsExactly | tools/ml/verify_parity.py:23-36 | the Python reader raises if and only if some line begins with COL or MODEL and has too few words, a median that is no number or a count that is no integer text |
| ServingManifest.CppReadsOn | backend/cpp_core/src/main.cpp:950-966 | the C++ reader goes by the first word and reads on: a missing word is empty, a missing or bad number 0, a negative count 0 |
| ServingManifest.WordsOfSpaced | backend/cpp_core/src/main.cpp:953-962 | splitting at white space undoes joining words by spaces |
| ServingManifest.LinesOfUnlines | backend/cpp_core/src/main.cpp:950 | splitting into lines undoes writing them |
| ServingManifest.ManifestRoundTrip | tools/ml/train.py:100-112 | both readers get back the columns in order, the models, and each median's ten-digit value |
| Rounding.NarrowNearOne | tools/ml/train.py:59 | between one and two the cast to single precision rounds to a multiple of two to the power of minus 23 |
| Rounding.NearestIsNearest | tools/ml/train.py:59 | no integer is nearer than the rounded one, and of two equally near it is the even one |
| Rounding.TenDigitsDrift | tools/ml/train.py:107-108 | 1.0000000596 becomes the single 1, its ten digits the single after it |
| Imputation.ServedColumns | backend/cpp_core/src/main.cpp:1004-1009 | each model is served all columns or the cross-family ones, in manifest order |
| Imputation.CrossFamilyExactly | backend/cpp_core/src/main.cpp:1004-1009 | the cross-family input set is exactly, and in order, the columns that start with regime_ or xf_corr_ |
| Imputation.FeaturesExactly | tools/ml/train.py:45-53 | the features are exactly, and in order, the columns other than symbol, as_of, label_class and label_fwd_return |
| Imputation.ServedExactly | backend/cpp_core/src/main.cpp:1013-1026 | a cell under the last column of a name counts if and only if it is there, not blank and reads as a number; any other is filled with the manifest's median, or with 0 |
| Imputation.FlatAt | backend/cpp_core/src/main.cpp:1013-1026 | the flat vector has rows times columns entries and keeps row r, column c at r * columns + c |
| Imputation.BuildFlat | backend/cpp_core/src/main.cpp:1013-1026 | the C++ loops fill it so: each entry is the single of the cell's number, else of the median, else 0 |
| Imputation.BuildMatrix | tools/ml/verify_parity.py:51-66 | the Python loops fill the same entries of a two-dimensional array |
| Imputation.SplitOfJoin | tools/ml/verify_parity.py:43-48 | the Python splitter gives a row's cells back |
| Imputation.PiecesOfJoin | backend/cpp_core/src/main.cpp:992-998 | the C++ splitter does too, except that it drops a blank last cell |
| Imputation.ServersAgree | backend/cpp_core/src/main.cpp:992-1026 | both servers read every cell of a written row alike, the dropped blank last cell included |
| Imputation.HeaderIndexed | backend/cpp_core/src/main.cpp:980-987 | both readers index the header's text alike |
| Imputation.ServersBuildTheSameMatrix | tools/ml/verify_parity.py:51-66 | from the written manifest, header and rows both servers build the same matrix, entry by entry, for every model |
| Imputation.TrainServeParityExactly | tools/ml/train.py:56-59 | serving fills a cell with the training value if and only if the cell has a number or the median and its ten digits are the same single |
| Imputation.ServedMatrixIsTrainedExactly | tools/ml/train.py:56-59 | the served matrix is the trained one if and only if no cell without a number stands in a column whose median drifts |
| Imputation.ShortMedianSurvives | tools/ml/train.py:107-108 | a median of at most ten digits never drifts |
| Imputation.LongMedianDrifts | tools/ml/train.py:107-108 | a median that does: rows that miss the cell are trained on 1 and served the next single |
| Imputation.ServedAsTrained | tools/ml/train.py:45-53 | from the manifest training wrote, every model gets the columns it was trained on, in training order, as many as its entry says |
| PriceArchive.NormalizeIsNormal | shared/lib/market/polymarket_history.js:133-153 | normalizing yields strictly ascending seconds, prices in [0,1] and one source label |
| PriceArchive.NormalizeExactly | shared/lib/market/polymarket_history.js:133-153 | a normalized series has a row for a second if and only if some observation of that second has a price from 0 to 1, and then with the price of the last such observation |
| PriceArchive.PlausiblePoints | shared/lib/market/polymarket_history.js:133-153 | observations up to the year 2286 have seconds that a second normalization leaves alone |
| PriceArchive.WrittenIsRelabelled | shared/lib/market/polymarket_history.js:218-244 | the writer's own normalization then changes nothing but the source label |
| PriceArchive.StoredSize | shared/lib/market/polymarket_history.js:218-244 | a stored series differs in size from the measured one by the labels' difference in length, once a row |
| ArchiveQuota.TotalUpdate | backend/scripts/data_ops/polymarket_research_scheduler.js:84-93 | replacing one file changes the directory total by the difference of its sizes |
| ArchiveQuota.DirectoryBytes | backend/scripts/data_ops/polymarket_research_scheduler.js:84-93 | the loop sums the sizes of all files |
| ArchiveQuota.SelectScopedActiveTokens | backend/scripts/data_ops/polymarket_research_scheduler.js:64-82 | the nested loops select the first allowed tokens of active markets, up to a limit between 1 and 100 |
| ArchiveQuota.PayloadReadsBack | backend/scripts/data_ops/polymarket_research_scheduler.js:102-115 | rows written as lines are read back as the same rows |
| ArchiveQuota.PruneIsIdempotent | backend/scripts/data_ops/polymarket_research_scheduler.js:102-115 | pruning what was pruned, at the same clock, changes nothing |
| ArchiveQuota.RetainedMembers | backend/scripts/data_ops/polymarket_research_scheduler.js:102-115 | what is kept was there and is recent |
| ArchiveQuota.PrunedRowsAreOldOrCrowdedOut | backend/scripts/data_ops/polymarket_research_scheduler.js:102-115 | a recent row is dropped only when the maximum of recent rows follow it |
| ArchiveVisits.RetainedExactly | backend/scripts/data_ops/polymarket_research_scheduler.js:102-115 | pruning keeps, in order, all recent rows from some row on, at most the maximum, and exactly the maximum if it drops any recent row before |
| ArchiveVisits.SettingsExactly | backend/scripts/data_ops/polymarket_research_scheduler.js:74-112 | left-out options are 20 tokens, 5 GiB, 30 days and 5000 rows; given ones are moved into 1 to 100, 1 to 3650 and 1 to 100000 |
| ArchiveVisits.StemExactly | shared/lib/market/polymarket_history.js:155-165 | a token of letters, digits, underscores and hyphens is its own file name; every other character becomes an underscore |
| ArchiveVisits.AllAllowedExactly | backend/scripts/data_ops/polymarket_research_scheduler.js:64-82 | the allowed tokens are exactly those of active markets that the allowlist names, in the order of the scope |
| ArchiveQuota.RollbackRestores | backend/scripts/data_ops/polymarket_research_scheduler.js:176-205 | undoing a capture brings the directory back exactly, a missing file included |
| ArchiveQuota.BookStepGap | backend/scripts/data_ops/polymarket_research_scheduler.js:176-208 | the order book lane moves counter and directory by the same amount, and leaves the whole directory alone when it does not fit |
| ArchiveQuota.PriceStepGap | backend/scripts/data_ops/polymarket_research_scheduler.js:158-174 | the price lane moves them apart by exactly what the writer stores beyond what was measured and what the fetch adds to its cache inside the directory |
| ArchiveQuota.CounterTracksDirectory | backend/scripts/data_ops/polymarket_research_scheduler.js:148-209 | after every token, on all inputs, the directory's size is the counter plus the writer's surplus on the series written so far plus the growth of the fetch's cache inside the directory |
| ArchiveQuota.RunSurplusOfLabel | shared/lib/market/polymarket_history.js:218-244 | for series fetched under one label the surplus is the labels' difference in length, once a price row written |
| ArchiveQuota.DirectoryOfLabel | backend/scripts/data_ops/polymarket_research_scheduler.js:148-209 | so the directory's size is the counter plus that difference times the price rows written plus the cache growth |
| ArchiveQuota.CacheOutside | shared/lib/market/polymarket_history.js:863-887 | a cache outside the archive root never grows it |
| ArchiveQuota.CounterExactly | backend/scripts/data_ops/polymarket_research_scheduler.js:148-209 | after one run the counter is the directory's size if and only if label drift and cache growth cancel; with the cache outside the root, if and only if no price row was written or the labels have one length |
| ArchiveQuota.CounterWithinQuota | backend/scripts/data_ops/polymarket_research_scheduler.js:148-208 | the counter ends at most at max(initial bytes, maxArchiveBytes) |
| ArchiveQuota.DirectoryWithinQuota | backend/scripts/data_ops/polymarket_research_scheduler.js:148-219 | the directory ends at most sixteen bytes for each price row fetched from the exchange, plus the cache growth, above that; with the cache outside the root, at most the sixteen bytes |
| ArchiveQuota.QuotaIsPassed | backend/scripts/data_ops/polymarket_research_scheduler.js:158-174 | and it does: a series with rows that measures exactly the quota is accepted into an empty archive and stored sixteen bytes a row beyond it, plus its cache file if the root holds the cache |
| ArchiveQuota.DefaultRootGrows | backend/scripts/data_ops/polymarket_research_scheduler.js:118-174 | under the default root a series that is fetched and skipped for the quota still grows the directory by its cache file, with the counter at 0 and no row written |
| ArchiveSettings.NothingFits | backend/scripts/data_ops/polymarket_research_scheduler.js:158-174 | if not even one row fits the quota, and the cache lies outside the root, no run from any directory writes a price row |
| ArchiveSettings.CacheOverflows | backend/scripts/data_ops/polymarket_research_scheduler.js:118-174 | with the cache in the root, two bytes of it overfill a directory one byte short of the quota, and the counter does not see them |
| ArchiveSettings.RowDrifts | backend/scripts/data_ops/polymarket_research_scheduler.js:158-174 | a row that exactly fills the quota by its measured size is stored with the labels' difference on top |
| ArchiveSettings.QuotaKeptExactly | backend/scripts/data_ops/polymarket_research_scheduler.js:148-219 | every run from every directory ends with at most max(initial bytes, maxArchiveBytes) if and only if the price lane is off, or the fetch's cache lies outside the root and either the stored label is no longer than the fetched one or no row fits at all |
| ArchiveSettings.CounterRightExactly | backend/scripts/data_ops/polymarket_research_scheduler.js:148-209 | after every run from every directory the counter is the directory's size if and only if the price lane is off, or the cache lies outside the root and either both labels have one length or no row fits at all |
| ArchiveQuota.OthersUntouched | backend/scripts/data_ops/polymarket_research_scheduler.js:148-209 | every file keeps its content, or stays missing, unless it is a selected token's series or order book, or its cache file while the root holds the cache |
| ArchiveQuota.Scheduler.FetchHistory | shared/lib/market/polymarket_history.js:39-45 | the fetch leaves its own cache file, inside the directory when the root holds the cache |
| ArchiveQuota.Scheduler.CapturePrices | backend/scripts/data_ops/polymarket_research_scheduler.js:158-174 | the price lane computes the price step, fetch included |
| ArchiveQuota.Scheduler.PruneOrderbookLiteFile | backend/scripts/data_ops/polymarket_research_scheduler.js:102-115 | rewrites one file with its kept rows and reports how many went |
| ArchiveQuota.Scheduler.CaptureOrderbook | backend/scripts/data_ops/polymarket_research_scheduler.js:176-208 | append, prune, and restore or remove what does not fit |
| ArchiveQuota.Scheduler.CaptureToken | backend/scripts/data_ops/polymarket_research_scheduler.js:148-208 | a token is skipped once the quota is reached, else both lanes run in turn |
| ArchiveVisits.PriceLaneTaken | backend/scripts/data_ops/polymarket_research_scheduler.js:155-174 | the price lane reports a failed fetch, counts a series that does not fit as skipped, and else stores the series once more normalized and moves the counter by the measured change of size |
| ArchiveVisits.BookLaneTaken | backend/scripts/data_ops/polymarket_research_scheduler.js:176-208 | the order book lane reports a failed fetch, and else appends, prunes to the last recent rows, and keeps the file and counts its rows if and only if the change fits; the pruned rows count in both cases |
| ArchiveVisits.RunVisits | backend/scripts/data_ops/polymarket_research_scheduler.js:148-209 | a run visits every token once, in order: a full archive skips it, once; else its lanes run in turn, and a price lane that fills the archive leaves the order book lane untried and uncounted |
| ArchiveQuota.Scheduler.RunPolymarketResearchCycle | backend/scripts/data_ops/polymarket_research_scheduler.js:117-221 | each refusal happens exactly for its reason; refusals and dry runs change nothing; a capture reports the directory's own size and succeeds if and only if no lane failed and some record was written, and one that wrote nothing says so last, and whether the limit was why |
| BackupLoop.Newest | backend/scripts/ops/host_backup.js:67-71 | the latest creation time, or none for an empty listing |
| BackupLoop.ResolveInitialBackupDueAt | backend/scripts/ops/host_backup.js:73-86 | the due time is never in the past |
| BackupLoop.EveryRun | backend/scripts/ops/host_backup.js:116-240 | at every moment of every run: each attempt is followed by its own healthy or degraded heartbeat, attempts are a timer's delay apart, none begins once aborted, and an ended run was stopped (with one closing heartbeat), did all its cycles, or was refused by the disk check |
| BackupReports.EveryRunTells | backend/scripts/ops/host_backup.js:103-232 | at every moment of every run each attempt counts what the host answered, an exception being neither ok nor backed up, and is followed by a heartbeat that is healthy if and only if it is ok, with the code of what went wrong and the next run one interval after its end; every other heartbeat is a wait, a stop after the signal, a failed disk check or a failed listing with its retry |
| BackupReports.AnnouncementsAreKept | backend/scripts/ops/host_backup.js:147-232 | no run attempts a backup before a time that any earlier heartbeat of it announced, if a timer can span the wait |
| BackupReports.OneShotExitsExactly | backend/scripts/ops/host_backup.js:234-239 | a one-shot run that is neither refused nor aborted makes one attempt at once and exits with 0 if and only if it is ok, with 3 if only the retention failed, else with 1 |
| BackupReports.WatchExitsExactly | backend/scripts/ops/host_backup.js:234-239 | a watching run that ends exits with 0, or with 1 if the disk check refused it |
| BackupLoop.FirstAttemptNotBeforeDue | backend/scripts/ops/host_backup.js:147-206 | no attempt begins before the settled due time, if a timer can span the wait |
| BackupLoop.DueReachedExactly | backend/scripts/ops/host_backup.js:88-101 | with punctual timers the wait reaches its due time if and only if the delay fits a timer's 31 bits |
| BackupLoop.SpacingExactly | backend/scripts/ops/host_backup.js:208-232 | watching for more than one cycle keeps attempts one interval apart on every host if and only if a timer can span the interval |
| BackupLoop.NotBeforeEarliest | backend/scripts/ops/host_backup.js:147-206 | no attempt of a life begins before what it finds at its start puts it off to: an announced run, a completed backup's interval, or the retry of a failing listing |
| BackupLoop.KeepsFromExactly | backend/scripts/ops/host_backup.js:147-232 | a life makes no attempt before a given time, on every host, also one that loses heartbeats, if and only if what it finds puts it off that long |
| BackupLoop.AnnouncedRunIsHonoured | backend/scripts/ops/host_backup.js:147-206 | a service that finds an announced run makes no attempt before it |
| BackupLoop.CrashKeepsSpacingExactly | backend/scripts/ops/host_backup.js:147-232 | a service killed after reporting an attempt and started again keeps the interval to that attempt if and only if a timer can span what is left of it |
| BackupLoop.StopKeepsSpacingExactly | backend/scripts/ops/host_backup.js:147-232 | a service that was stopped keeps it if and only if it starts that late, a completed backup puts it off that long, or it cannot list the backups and its retry comes that late |
| BackupLoop.StopForgetsTheSchedule | backend/scripts/ops/host_backup.js:73-86 | a life whose one attempt fails, stopped after a millisecond: the next attempts again at once, not after a day |
| BackupLoop.RefusedStays | backend/scripts/ops/host_backup.js:129-145 | a failing disk check is one degraded heartbeat and no attempt |
| BackupLoop.ExitCodesExactly | backend/scripts/ops/host_backup.js:234-239 | from the first turn on a run has ended without an exit code if and only if it is a one-shot run that passed the disk check and was aborted before its attempt |
| BackupLoop.HostBackup.Schedule | backend/scripts/ops/host_backup.js:149-206 | one turn of the scheduling loop computes the schedule turn |
| BackupLoop.HostBackup.AttemptOnce | backend/scripts/ops/host_backup.js:210-232 | one turn of the attempt loop computes the attempt turn: the attempt, its heartbeat, and the wait for the next |
| BackupLoop.HostBackup.RunHostBackupLoop | backend/scripts/ops/host_backup.js:116-240 | the two loops compute the run, turn by turn |
| CppNesting.CountsControlWords | tools/dev/audit_control_flow.js:128-131 | the count is the number of positions where one of the six words stands as a whole word, an if parted from an else by blanks alone left out |
| CppNesting.CountSuffix | tools/dev/audit_control_flow.js:128-131 | punctuation after a line adds no control word |
| CppNesting.ElseIfAddsNothing | tools/dev/audit_control_flow.js:128-131 | an "else if" counts for nothing where an "if" counts for one |
| CppNesting.CharsBalanced | tools/dev/audit_control_flow.js:133-155 | after every character the depth is the sum of the block stack, never negative, at most the maximum |
| CppNesting.LinesBalanced | tools/dev/audit_control_flow.js:157-180 | so it is after every line of any text |
| CppNesting.ReportsFirstDeepest | tools/dev/audit_control_flow.js:157-180 | the maximum is the deepest point any character reaches, and the line the first that reaches it |
| CppNesting.ItemRises | tools/dev/audit_control_flow.js:133-155 | scanning one printed item returns to its start and reaches the item's height above it |
| CppNesting.TreeDepth | tools/dev/audit_control_flow.js:157-180 | on the text of any tree of brace blocks the scanner reports the tree's height and ends at depth 0 |
| CppNesting.ItemsNesting | tools/dev/audit_control_flow.js:157-180 | without a ';' in a header that height is the nesting by control words, else blocks weighing 0 |
| CppNesting.CarriedAfterLastSemicolon | tools/dev/audit_control_flow.js:133-155 | a header's controls reach its block exactly as far as they stand after its last line with a ';' |
| CppNesting.HeaderMeasuredExactly | tools/dev/audit_control_flow.js:133-155 | a header lets every clean body be measured in full if and only if no control word stands on or before its last line with a ';' |
| CppNesting.CountingLoopLosesItsBody | tools/dev/audit_control_flow.js:133-155 | a one-line header with a ';', as of a counting for loop, is forgotten inside its block |
| CppNesting.CppScanner.UpdateCppDepth | tools/dev/audit_control_flow.js:133-155 | the in-place update computes one step, transient single statements included |
| CppNesting.CppScanner.ScanLine | tools/dev/audit_control_flow.js:170-174 | a line's controls are pending before its first character |
| CppNesting.AnalyzeCppSource | tools/dev/audit_control_flow.js:157-180 | the loops report the first deepest point, and on printed trees the height |
| JsNesting.DepthIsNesting | tools/dev/audit_control_flow.js:91-116 | the depth handed down to a node is the number of control nodes counted up from it to the nearest function |
| JsNesting.VisitedCovers | tools/dev/audit_control_flow.js:103-113 | a visit covers its whole subtree and names a node of it if it changed the report |
| JsNesting.ReportsDeepestNesting | tools/dev/audit_control_flow.js:91-116 | the audit reports the largest such number over all paths and a node that has it |
| JsNesting.ChainDepth | tools/dev/audit_control_flow.js:73-89 | an else-if chain of any length is one level deep |
| JsNesting.JsAudit.Visit | tools/dev/audit_control_flow.js:103-113 | the recursion over closure variables computes the visit function |
| JsNesting.AnalyzeJsSource | tools/dev/audit_control_flow.js:91-116 | from a fresh report, the deepest nesting of the whole tree |

## Left out

- Broker adapters, the exchange client, signing, HTTP routing, sockets, tools, command lines and dashboards: plumbing around code that is not modelled.
- The native backtester, the optimizers, the merger and the risk engine: they are not part of this model; `Aggregate` takes each symbol's trades as given.
- Floating-point rounding of doubles: prices, returns, equity and medians are reals; the cast of matrix entries to single precision is modelled, with reals for the doubles it starts from. NaN and infinite cells count as "no finite value".
- SHA-256 is a function parameter, and keeps inputs apart only where a lemma says so.
- Log lines, warnings and failure texts are left out or shortened; identifiers in evidence records are non-empty strings.
- Explorer: evaluation results, file names, timestamps and two cycles that overlap in time.
- Trading cycle: the resolution of a slug to tokens is one lookup function; `runForceSell` saves without the lock and is not modelled.
- Cycle lock: interleavings inside one operation, for which the code gives no exclusion, and the fallible unlink; an alive-probe that errs is an alive process. A record whose start time does not parse, which the code always takes for stale, is left out.
- Source evidence: exact-key checks are carried by the types, except for the source identity, which an injected function returns; a rename either happens or does not.
- Rate limiter: how the address of a request is found, and everything `checkSecurity` does besides the rate limit.
- Resampler: input bars are values, since the code only reads them; keys stand for the texts the code compares, by day number or by year and month.
- Manifest numbers: printing and reading are one shared partial parser and a ten-digit printer; partial numeric prefixes that C++ streams accept, underscores that Python accepts in numbers, and medians that are not finite, are left out. Training's row selection and sort by date do not touch columns and are left out.
- Which lines of a feature file are rows: blank lines and the row limit of the C++ reader. Header and rows are given as cells or as the text they were joined to; column names are distinct, since training renames repeated ones.
- Archive: the directory tree is a map from paths to ASCII contents; writers touch only their own file, the fetch's cache file included; the scheduler's outer polling loop, fractional option values and the text of dates are left out. Captures that fail leave the file alone, as the capture function does.
- PriceArchive.StoredSize: is about observation times up to the year 2286, because the writer's second normalization takes later seconds for milliseconds and merges them; `ArchiveQuota.CounterTracksDirectory` covers those too, with the surplus they cause.
- Backup: the clock only moves forward; intervals are whole milliseconds; reading the heartbeat and listing backups take no time of their own beyond the pause of the turn; texts of the printed results.
- Nesting audit: blanking of comments and literals, the TypeScript parser, blanks other than space, tab and carriage return; the audit's file walk and limits.
- Documentation audits, PDF builders, scrapers, setup scripts, version bumping and system doctors: file glue with easy properties.
