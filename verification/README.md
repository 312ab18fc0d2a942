# Verified model of a trading-signal service

A Dafny model of the parts of the service in which state, arithmetic or concurrency make mistakes likely: the
backtest simulator, the statistics reported about it and about the advisory AI, the validator of AI evidence, the
protocols by which several workers share a database, and the process-local cache. `dafny verify dfyconfig.toml`
checks everything.

Code that changes variables step by step is modelled by methods and classes that do the same (the bar loop, the scan
of a frame, the cache, the claim, breaker and lease rows, the backfill and the reconciliation). Each of these is proved
equal to a specification function, and the results are proved about those functions or about all reachable states of a
system of interleaved steps. In such a system one connection block of the source is one step, events that cannot happen
in a state are impossible by definition, and a result quantifies over every run.

## Files

| file | models |
|---|---|
| Backtest.dfy | configuration, signal normalization, one bar, the walk of a trade, costs, `_simulate` |
| BacktestBounds.dfy | what each trade keeps: allocations, excursions, the loss floor |
| BacktestRelations.dfy | two policies, two directions and two frames compared |
| BacktestRun.dfy | `run`: scheduling, counters, no look-ahead, where reported trades come from |
| BacktestTrades.dfy | what the figures and labels of one trade say about its bars and exits |
| BacktestLimits.dfy | the exact conditions under which the bounds and dominance hold for reports, with the signals and frames that break them otherwise |
| Performance.dfy | `_metrics`, `grouped`, the `quality` fold, `_percentile` |
| Calibration.dfy, CalibrationReport.dfy | `calibration_metrics`, and its report sample by sample |
| EvidenceRanking.dfy, EvidenceTheorems.dfy, EvidenceDecisions.dfy | `AIResponseValidator.validate`: the ranking, acceptance, refusal codes and reported fields |
| CircuitBreaker.dfy | the cross-worker circuit breaker |
| DecisionLedger.dfy | request claims and the write-once decision ledger |
| LruCache.dfy | the TTL/LRU cache |
| IsoTime.dfy, Lease.dfy | ISO timestamps as text, the cross-process lease |
| Backfill.dfy | the paged schema_valid backfill |
| Reconciliation.dfy | duplicate open plans |
| ErrorCodes.dfy, Migration.dfy | `_postgres_code`, the retry loop, the migration protocol |
| Certification.dfy | the paid-certification claim and its recovery |
| Common.dfy, Folds.dfy, Ordering.dfy, Permutations.dfy | shared definitions: options, sums, sorting, permutations |

## What the code does not promise

Each of these is a proved result about the code as it stands, with the exact condition where there is one.

- `BacktestConfig.__post_init__` looks only at the sum of the target allocations. With a negative allocation that a
  trade can reach, `run` can report a trade that loses more than its risk while its recorded adverse excursion is zero.
  All trades of all reports lie between their excursions exactly when no reachable allocation is negative, or no
  category is executable at all (`BacktestLimits.ExcursionBoundedExactly`).
- Under the optimistic policy a trade that takes a target on a bar that also crosses the stop, and times out on that
  bar, closes at the bar's close, which may lie beyond the stop. The loss floor of one risk unit and the dominance of the
  optimistic over the conservative result hold for all reports exactly under the conditions of
  `BacktestLimits.LossFlooredExactly` and `BacktestLimits.DominatedExactly`. All failing inputs are frames of positive
  prices, longer than the warm-up, with a signal that normalization accepts.
- A half-open probe that is cancelled commits no result, and once nobody else is in flight the breaker never admits
  a caller again (`CircuitBreaker.RecoversExactly`, `CircuitBreaker.WedgeIsReachable`).
- `_release_claim` deletes a claim whoever holds it, and the time a worker spends is not bounded by the time its claim
  lasts: the wait for the semaphore lies outside the request timeout (services/ai_trading.py:1680-1683). Claims keep
  workers on one request apart in every run exactly when the longest working time is shorter than the claim; beyond
  that even a worker whose own claim still runs is joined by another (`DecisionLedger.ClaimsExclusiveExactly`). The
  ledger itself stays write-once.
- `_finish_claim` changes the claim whoever holds it. Two paid certification requests can overlap exactly when set-up
  exceeds the suppression time, or bookkeeping outlives the claim while the suppression time is shorter than set-up and
  timeout together (`Certification.NoOverlapExactly`).
- A service can be told READY while a migration is running (`Migration.ServingDuringMigration`). At its status check
  nobody is inside migration() exactly when no process took the lock after the service's last probe without having
  finished, raised or crashed since (`Migration.OverlapExactly`).
- The migration lock belongs to a database session. If that session is lost, migration() goes on without it and a
  second process may enter (`Migration.TwoInsideAfterLoss`).

## Model

| member | source | states |
|---|---|---|
| Backtest.NormalizeSignal | core/backtest_engine.py:125-167 | a signal is malformed exactly when a field is missing, not a number or out of order, executable exactly when besides its readiness and category pass, and executed with positive risk; a missing readiness is zero |
| Backtest.FirstTouch | core/backtest_engine.py:206-209 | the first bar of the window whose range contains the entry, or none if no bar does |
| Backtest.EntryBar | core/backtest_engine.py:203-209 | the entry is the first bar after the signal, inside the expiry window, that touches the entry price, and without one no bar of the window does |
| Backtest.FindEntry | core/backtest_engine.py:203-209 | the search loop finds that bar |
| Backtest.ComputeCosts | core/backtest_engine.py:189-196 | the accumulating loop charges fees and slippage on the entry and on the total exited notional, and funding per bar |
| Backtest.RunBars | core/backtest_engine.py:219-282 | the loop over mutable variables, with its flags, break and else branch, computes the bar-by-bar walk of the trade |
| Backtest.Simulate | core/backtest_engine.py:198-313 | entry search, bar loop, time-out and costs together give the simulated trade |
| BacktestTrades.ExecutedSignals | core/backtest_engine.py:125-167 | field by field: which raw signals are executable and which malformed, for both directions, and that an executable one is taken over unchanged |
| BacktestTrades.TradeBalances | core/backtest_engine.py:247-286 | net plus the three costs is gross; in price units gross is the sum over the exits of move times allocation, fees and slippage are their rates on the entry and on every exit, funding its rate on the entry for every bar held |
| BacktestTrades.CostsOnlyTakeAway | core/backtest_engine.py:284-286 | on positive prices, with reachable allocations and funding not negative, net never exceeds gross, and is below it for an executed trade with a positive fee rate |
| BacktestTrades.ExcursionsAreExact | core/backtest_engine.py:229-233 | mae and mfe are the largest moves against and for the trade over exactly the bars from entry to exit |
| BacktestTrades.WalkWayOut | core/backtest_engine.py:229-282 | each label tells the exit bar, the exit price, the targets taken and the stop in force, and no earlier bar would have ended the trade |
| BacktestTrades.TradeIsExplained | core/backtest_engine.py:198-313 | so for every reported trade, with its waiting and holding time; an expired one reports the entry window and nothing else |
| BacktestTrades.NearlyAllIsExited | core/backtest_engine.py:45-46 | the tolerance of the allocation check leaves at most 0.00001001 of a TP3 trade unexited, and nothing of any other |
| BacktestBounds.WalkBooks | core/backtest_engine.py:229-278 | at every bar the exited allocations and the remaining one make 1 and the realized result is the sum over the exits |
| BacktestBounds.BarStaysOpen | core/backtest_engine.py:255-269 | a bar leaves the position open with exactly the unplanned remainder, or closes it within the cut-off |
| BacktestBounds.WalkResidue | core/backtest_engine.py:229-278 | stops and time-outs exit everything; TP3 leaves at most the cut-off or what the allocations fall short of 1 |
| BacktestBounds.WalkTakesTargetsInOrder | core/backtest_engine.py:236-269 | targets are exited in order without gaps, at their prices, and at most one further exit closes the trade |
| BacktestBounds.TradeConserves | core/backtest_engine.py:219-285 | allocation conservation, result as sum of exits and order of targets for every frame, signal and accepted configuration |
| BacktestBounds.Levels | core/backtest_engine.py:156-166 | in units of risk a valid signal stops at -1, breaks even at 0 and has positive targets |
| BacktestBounds.StopInsideBar | core/backtest_engine.py:173-187 | a level whose stop side is touched is covered by the bar's adverse excursion, in both directions |
| BacktestBounds.TargetInsideBar | core/backtest_engine.py:173-187 | a touched target is covered by the bar's favourable excursion |
| BacktestBounds.CloseInsideBar | core/backtest_engine.py:273-276 | the close used at a time-out lies between the bar's excursions |
| BacktestBounds.BarStaysWithin | core/backtest_engine.py:229-269 | one bar keeps the realized result between the excursions weighted by what was exited |
| BacktestBounds.WalkStaysWithin | core/backtest_engine.py:229-278 | so does the whole walk, from any open position |
| BacktestBounds.TradeInsideExcursions | core/backtest_engine.py:229-278 | -mae <= gross R <= mfe for both directions and both policies if no reachable allocation is negative |
| BacktestBounds.UntouchedStop | core/backtest_engine.py:184-187 | a stop that a bar did not touch is no better than that bar's close |
| BacktestBounds.WalkAboveFloor | core/backtest_engine.py:229-278 | from any open position nothing worse than its stop can happen unless the walk ends on an ambiguous bar |
| BacktestBounds.ConservativeNeverAmbiguous | core/backtest_engine.py:239-244 | under the conservative policy no walk ends ambiguously |
| BacktestBounds.TradeAboveFloor | core/backtest_engine.py:219-285 | a trade that does not end ambiguously loses at most its risk |
| BacktestRelations.WalkDominated | core/backtest_engine.py:239-282 | from any common open position the conservative walk never beats the optimistic one, ambiguous ends aside |
| BacktestRelations.PolicyDominance | core/backtest_engine.py:12-20 | the same for trades |
| BacktestRelations.BarMirrors | core/backtest_engine.py:173-269 | a bar and its reflection do the same to a long and to the mirrored short |
| BacktestRelations.WalkMirrors | core/backtest_engine.py:229-278 | so do all bars of a walk |
| BacktestRelations.ExecutionMirrors | core/backtest_engine.py:219-282 | same exit bar, same exited allocations, reflected prices |
| BacktestRelations.MirrorSymmetry | core/backtest_engine.py:156-278 | the mirrored signal on the reflected frame has the same entry, exit, gross R, excursions and waiting time |
| BacktestRelations.TradeIsCausal | core/backtest_engine.py:203-229 | a trade depends on no bar after its signal, entry expiry and holding period |
| BacktestRun.Run | core/backtest_engine.py:357-410 | the scan loop with its counters and next_available_index gives the report of the recursive scan |
| BacktestRun.SimulatedIsWellTimed | core/backtest_engine.py:211-313 | signal, entry and exit bars are in order and EXPIRED means never entered |
| BacktestRun.RunBalances | core/backtest_engine.py:365-399 | seen = rejected + trades, expired counts the trades without entry, one-at-a-time holding periods are disjoint and ascending |
| BacktestRun.ScanIsCausal | core/backtest_engine.py:369-390 | the scan state before the horizon depends only on the common prefix |
| BacktestRun.RunIsCausal | core/backtest_engine.py:357-390 | two frames with n common bars give the same trades for all signals decided before bar n |
| BacktestRun.ReportedTradesComeFromSignals | core/backtest_engine.py:369-386 | every reported trade is the simulation of the signal that the strategy gave on that bar and normalization accepted |
| BacktestRun.FirstSignalIsReported | core/backtest_engine.py:367-386 | an accepted signal on the last warm-up bar is simulated and reported |
| BacktestRun.ReportIsComplete | core/backtest_engine.py:361-390 | a bar has a trade in the report if and only if its signal is executable and, one trade at a time, every reported trade of an earlier signal has exited before it; rejected counts exactly the bars that could trade with a signal that is not executable; there is a report if and only if the frame is longer than the warm-up |
| BacktestLimits.NegativeFirst | core/backtest_engine.py:38-46 | with a negative first allocation there is a frame that run() accepts and a valid signal whose trade is below -1 with no adverse excursion |
| BacktestLimits.NegativeSecond | core/backtest_engine.py:38-46 | the same for a reachable second allocation |
| BacktestLimits.NegativeThird | core/backtest_engine.py:38-46 | the same for a reachable third allocation |
| BacktestLimits.AmbiguousClose | core/backtest_engine.py:239-278 | on an acceptable frame an optimistic trade that ends ambiguously loses more than its risk where the conservative one loses exactly its risk |
| BacktestLimits.ExcursionBoundedExactly | core/backtest_engine.py:38-390 | all trades of all reports lie between their excursions if and only if no reachable allocation is negative or nothing is executable; single simulations if and only if no reachable allocation is negative |
| BacktestLimits.FirstTargetEndsUnambiguously | core/backtest_engine.py:255-269 | if the first target closes the position no walk ends ambiguously |
| BacktestLimits.LossFlooredExactly | core/backtest_engine.py:38-390 | all trades of all reports end at -1 or above if and only if, besides, the policy is conservative or the first target closes the position, or nothing is executable; and the same for single simulations |
| BacktestLimits.ReportedIsSimulated | core/backtest_engine.py:376-386 | a reported trade has a valid signal behind it, and without an executable category there is none |
| BacktestLimits.DominatedExactly | core/backtest_engine.py:12-20 | of two reports on the same market and strategy the conservative never has the better trade for a signal, for all markets and strategies, if and only if the first target closes the position or nothing is executable; and the same for single simulations |
| Performance.DrawdownIsLargestFall | core/backtest_engine.py:330-333 | the accumulated drawdown is the largest fall from a point of the equity curve to a later one |
| Performance.QualityDrawdown | services/ai_evaluation.py:192-196 | the three-variable fold computes the negative of that same drawdown |
| Performance.LongestLosingStreak | core/backtest_engine.py:334-337 | the streak loop computes the recursive longest run |
| Performance.LongestIsLongest | core/backtest_engine.py:334-337 | that number is the length of a losing stretch and no stretch is longer |
| Performance.ComputeMetrics | core/backtest_engine.py:316-349 | one pass over the results yields the counts, gross sums, net result and drawdown that the specification defines from subsequences and the equity curve |
| Performance.MetricsBalance | core/backtest_engine.py:326-347 | wins and losses split the trades; profit minus loss is the net result |
| Performance.WinsAreStrict | core/backtest_engine.py:326-347 | wins are the indices with a positive result and losses the others, zero included; the net result is the indexed sum |
| Performance.Grouped | core/backtest_engine.py:395-399 | one entry per value of the field, each the metrics of exactly its trades |
| Performance.GroupsAddUp | core/backtest_engine.py:395-399 | trade counts and net results of the groups add up to the totals |
| Performance.PercentileIsNearestRank | services/ai_evaluation.py:100-104 | the percentile is a sample; at least the requested share is at most it and less than that share is below it |
| Calibration.CalibrationMetrics | services/ai_evaluation.py:73-90 | the bucket loop with its skipped buckets computes the specified report for any bucket count |
| Calibration.BucketIsUnique | services/ai_evaluation.py:78-80 | each sample falls into exactly one bucket, probability 1 into the last |
| Calibration.RowsPartition | services/ai_evaluation.py:78-89 | the row counts add up to the number of samples |
| Calibration.EceBracket | services/ai_evaluation.py:81-87 | n times ECE lies between the absolute summed error and the summed absolute error |
| Calibration.CauchySchwarz | services/ai_evaluation.py:77 | the squared summed absolute error is at most n times the summed squared error |
| Calibration.CalibrationInequalities | services/ai_evaluation.py:73-93 | rows partition the samples, the difference of the means is at most ECE, and ECE squared is at most Brier, which is at most 1 |
| CalibrationReport.RowsAreRight | services/ai_evaluation.py:78-89 | one row per non-empty bucket in ascending order; its count is the number of samples there, its confidence their mean clamped probability, its accuracy their share of positive outcomes |
| CalibrationReport.EceAddsUpRows | services/ai_evaluation.py:87 | the error is the weighted sum of the gaps between confidence and accuracy of the rows |
| CalibrationReport.BrierSums | services/ai_evaluation.py:77 | the Brier score is the mean squared distance of the clamped probabilities from their outcomes |
| CalibrationReport.ReportTells | services/ai_evaluation.py:73-93 | all of this for the report on the samples as given |
| EvidenceTheorems.EvidenceAcceptedExactly | services/ai_trading.py:1154-1199 | the evidence passes if and only if it is well formed and the ranking is a permutation of the canonical ranking |
| EvidenceTheorems.AcceptedIsCanonical | services/ai_trading.py:1178-1199 | an accepted ranking sorted by rank is ranks 1..n over the supporting items by strength and identifier |
| EvidenceTheorems.CanonicalIsAccepted | services/ai_trading.py:1178-1199 | every arrangement of the canonical ranking passes all ranking checks |
| EvidenceTheorems.CanonicalOrderIsUnique | services/ai_trading.py:1194-1197 | no other strict arrangement of the supporting items exists |
| EvidenceTheorems.EvidenceFailureIgnoresOrder | services/ai_trading.py:1157-1199 | permuting the three arrays never changes which evidence code is returned |
| EvidenceTheorems.ReportedListsIgnoreOrder | services/ai_trading.py:1200-1208 | nor any of the three reported statement lists |
| EvidenceTheorems.OrderIndependence | services/ai_trading.py:984-985 | array order has no meaning: the whole decision or fallback is the same for permuted arrays |
| EvidenceTheorems.RankingRearrangesSupport | services/ai_trading.py:1200-1208 | the reported ranking is a rearrangement of the reported supporting statements, one per supporting item |
| EvidenceTheorems.AcceptedIsCoherent | services/ai_trading.py:1214-1238 | in every accepted decision action, risk, abstention, direction, evidence and freshness fit together |
| EvidenceTheorems.ReportedRanking | services/ai_trading.py:1207-1208 | an accepted decision reports exactly its supporting statements from strongest to weakest |
| EvidenceDecisions.WellFormedExactly | services/ai_trading.py:1157-1177 | the set comparisons of the item checks say, item by item and pair by pair, which identifiers and statements are allowed |
| EvidenceDecisions.CanonicalMeans | services/ai_trading.py:1190-1199 | rank k is the k-th item by descending strength and, on ties, ascending identifier |
| EvidenceDecisions.AcceptedExactly | services/ai_trading.py:1117-1238 | a payload is accepted if and only if it has the schema's shape, names the context's symbol and price, the context is fresh, the evidence is proper with its canonical ranking, and action, risk, abstention and direction are consistent |
| EvidenceDecisions.FactorCodeIsRight | services/ai_trading.py:1162-1177 | a code of the item checks is returned only where the defect that it names is present |
| EvidenceDecisions.RankingCodeIsRight | services/ai_trading.py:1178-1199 | and so for the codes of the ranking checks |
| EvidenceDecisions.ReportedByIdentifier | services/ai_trading.py:1200-1204 | supporting and conflicting statements are reported by ascending identifier, each item once |
| EvidenceDecisions.ReportedFields | services/ai_trading.py:1205-1238 | the other fields are those of the payload, blank conditions dropped and regimes without repetition; only ABSTAIN overrides risk and abstention |
| EvidenceDecisions.DedupeMeans | services/ai_trading.py:1206 | regimes keep their first occurrences in order |
| CircuitBreaker.ProviderState.ProviderAvailable | services/ai_trading.py:1440-1460 | admission and the OPEN to HALF_OPEN change of the stored row |
| CircuitBreaker.ProviderState.ProviderResult | services/ai_trading.py:1489-1521 | the stored row after one committed result |
| CircuitBreaker.NextStaysConsistent | services/ai_trading.py:1440-1521 | every step keeps the row consistent with the history of committed results |
| CircuitBreaker.BreakerTellsHistory | services/ai_trading.py:1489-1521 | in every run consecutive_failures is the trailing failure run, the row is not CLOSED exactly from the threshold on, totals count commits and retries, and at most one probe is admitted between two commits |
| CircuitBreaker.AdmitsExactlyAfterCoolDown | services/ai_trading.py:1440-1460 | in every run an open breaker admits exactly from the last commit plus the opening time on, a closed one always, a half-open one never; admission from an open breaker makes it half-open |
| CircuitBreaker.WedgedForever | services/ai_trading.py:1687-1699 | a half-open row with nobody in flight never changes again |
| CircuitBreaker.RecoversExactly | services/ai_trading.py:1447-1460 | a reachable state can admit a caller again if and only if it is not such a state |
| CircuitBreaker.WedgeIsReachable | services/ai_trading.py:1687-1699 | under every setting a run leads there |
| DecisionLedger.SavedUnderClaimedKey | services/ai_trading.py:1289-1295 | on every path to save() the key saved under is the key claimed exactly when the identity is not empty or the provider is nameless too |
| DecisionLedger.Ledger.ByIdempotency | services/ai_trading.py:1380-1384 | the query finds the row of the key, if any |
| DecisionLedger.Ledger.Claim | services/ai_trading.py:1534-1542 | a claim succeeds exactly when none is stored or the stored one has expired; the ledger is untouched |
| DecisionLedger.Ledger.ReleaseClaim | services/ai_trading.py:1544-1547 | the claim of the key is deleted, whoever holds it |
| DecisionLedger.Ledger.Save | services/ai_trading.py:1359-1365 | a row is added only if the key has none; what is returned is the stored row |
| DecisionLedger.NextStaysSound | services/ai_trading.py:1549-1793 | every step of every worker keeps one row per key and changes no stored row |
| DecisionLedger.WriteOnce | services/ai_trading.py:1568-1577 | under any interleaving all calls for a key that return a decision return the same stored row |
| DecisionLedger.DecisionsNeverChange | services/ai_trading.py:1359-1365 | a stored decision is found unchanged however the run continues |
| DecisionLedger.DecidedCallReturnsDecision | services/ai_trading.py:1568-1570 | a call for a decided key returns the decision and touches neither table |
| DecisionLedger.SuppressedCallReturnsNothing | services/ai_trading.py:1571-1577 | a call for an undecided key that is claimed returns nothing and touches neither table |
| DecisionLedger.FreshCallDecides | services/ai_trading.py:1571-1793 | a call for a free, undecided key stores one row, returns it and leaves the key unclaimed |
| DecisionLedger.NextKeepsClaims | services/ai_trading.py:1534-1547 | while no worker outlives its claim, every step keeps workers exclusive and their claims in place |
| DecisionLedger.TimelyRunIsExclusive | services/ai_trading.py:1571-1793 | in such a run, whatever the durations of the claims, at most one worker per key is between claim and release |
| DecisionLedger.LateWorkerIsJoined | services/ai_trading.py:1534-1542 | for every claim duration, a worker still busy when its claim runs out is joined by a second one |
| DecisionLedger.LateReleaseBreaksExclusion | services/ai_trading.py:1698 | for every claim duration, its cancellation then deletes the successor's claim and a third worker joins the second, both with their claims still running |
| DecisionLedger.ClaimsExclusiveExactly | services/ai_trading.py:1534-1547 | over all runs, claims keep workers apart if and only if the longest working time is shorter than the claim; and so for workers whose own claim still runs |
| LruCache.Cache.constructor | services/cache.py:13-19 | the size limit is clamped to 8..2000 and the cache starts empty |
| LruCache.Cache.Get | services/cache.py:28-39 | a hit moves the entry to the recent end, an expired entry is dropped, a miss changes nothing |
| LruCache.Cache.Set | services/cache.py:41-46 | the entry becomes the most recent one, expired entries go, and the newest entries up to the limit stay |
| LruCache.Cache.Prune | services/cache.py:21-26 | both loops together keep exactly the newest unexpired entries in order |
| LruCache.PopExpired | services/cache.py:22-24 | popping the collected keys one by one leaves exactly the unexpired entries |
| LruCache.TraceAgrees | services/cache.py:28-46 | after any trace keys are unique, the limit holds and every entry is the last set of its key |
| LruCache.HitsAreFresh | services/cache.py:28-46 | a hit returns the value last set under the key and only while it is unexpired, whatever the clock did |
| LruCache.StaysHeld | services/cache.py:21-46 | a used key stays cached, with only keys used later behind it |
| LruCache.RecentKeysHit | services/cache.py:21-46 | an unexpired key hits if fewer distinct other keys than the limit were used since its last use |
| LruCache.HitsOnlyWhileAlive | services/cache.py:28-44 | a hit is on the last value set under the key, at most its ttl (and at least a hundredth of a second) after the clock of that set |
| LruCache.RecentKeysHitExactly | services/cache.py:21-46 | a recently used key hits exactly during that lifetime |
| LruCache.SetPrunes | services/cache.py:21-26 | after a set nothing expired is left, and an unexpired entry is given up only if the cache is full without it |
| IsoTime.BeforeIsEarlier | database/database.py:1820-1822 | comparing the fields of two UTC timestamps compares their instants, leap years included |
| IsoTime.FieldsOrder | database/database.py:1822 | comparing two isoformat strings compares the fields |
| IsoTime.StringOrderIsTimeOrder | database/database.py:1822-1831 | string order of isoformat timestamps is time order, with or without a fraction on either side |
| IsoTime.InstantIsInjective | database/database.py:1821 | one timestamp per instant, so the expiry of a grant is determined |
| IsoTime.MonthsJoin | database/database.py:1820-1821 | the second after the last one of a month is the first of the next, in every month and leap year |
| IsoTime.YearsJoin | database/database.py:1820-1821 | and so at the end of a year |
| IsoTime.FourCenturies | database/database.py:1820-1821 | four centuries have 146097 days, so the leap rule is the Gregorian one |
| IsoTime.IsoShape | database/database.py:1822 | the places of fields and separators in a stored timestamp, with and without a fraction |
| Lease.LeaseTable.Acquire | database/database.py:1818-1834 | the upsert is granted exactly on a missing row, a row that is not later than now as text, or the caller's own row |
| Lease.LeaseTable.Release | database/database.py:1837-1839 | only the owner's row is deleted |
| Lease.AcquireStaysRecorded | database/database.py:1818-1834 | a step with any earlier clock reading keeps every live grant on its row |
| Lease.AtMostOneHolder | database/database.py:1818-1839 | at every reachable state at most one owner has an unexpired, unreleased latest grant of a lease |
| Lease.AcquiresExactlyWhenFree | database/database.py:1824-1834 | with a current clock reading the lease is granted if and only if no other owner holds it; a stale reading never takes it from a holder |
| Lease.ReleaseIsOwn | database/database.py:1837-1839 | a release ends the caller's hold only, and changes no row if the caller is not on it |
| Lease.GrantLasts | database/database.py:1820-1821 | a grant is held for the longer of its ttl and 30 seconds from the clock reading of the call |
| Backfill.CorrectionsMean | database/database.py:199-206 | the one-shot correction changes schema_valid alone, exactly on rows of the current identity with a stage, to 1 if the provider was invoked and the stage is none of the six failing ones; it is idempotent |
| Backfill.ReadPage | database/database.py:249-257 | a page is split into the two update lists and its largest id becomes the keyset position |
| Backfill.PageIsNext | database/database.py:240-244 | the keyset query returns the next unread stretch of the table although earlier rows have been changed |
| Backfill.PageCorrected | database/database.py:258-267 | the two UPDATE statements correct exactly the rows of the page |
| Backfill.EachRowOnce | database/database.py:258-267 | the row counts of the statements add up without counting a row twice |
| Backfill.AllPositive | database/database.py:247 | with positive ids the scanned count is the number of rows |
| Backfill.PositiveIdsMean | database/database.py:248 | scanned is the number of rows with a positive id |
| Backfill.ChangedMeans | database/database.py:267 | updated is the number of rows that differ afterwards |
| Backfill.PagesMean | database/database.py:247 | batches is the scanned count divided by the batch size, rounded up |
| Backfill.Decisions.Update | database/database.py:262-267 | the statement changes the listed rows that differ and reports how many |
| Backfill.Decisions.Backfill | database/database.py:209-286 | for every table and batch size the loop ends with the one-shot correction, exact scanned, updated and batch counts, and a second call is a no-op |
| Reconciliation.HeadIsUnsuperseded | database/signal_history.py:33-45 | the first plan a market lists is the only open one that no other comes before |
| Reconciliation.KeptIsHead | database/database.py:1692-1695 | the plan that max() keeps is the one get_open_market lists first, and the others are the superseded plans |
| Reconciliation.Strongest | database/database.py:1692 | the maximum by priority and id |
| Reconciliation.DuplicateGroups | database/database.py:1674-1680 | exactly the markets with more than one open plan, each once |
| Reconciliation.SignalStore.Invalidate | database/database.py:1697-1700 | only the plan with the id changes |
| Reconciliation.SignalStore.ReconcileMarket | database/database.py:1683-1705 | one group: all but the kept plan are invalidated, with one event each |
| Reconciliation.SignalStore.Reconcile | database/database.py:1671-1705 | all groups: every superseded plan is invalidated with exactly one event naming the kept plan and its price; earlier events stay |
| Reconciliation.OtherMarketsUntouched | database/database.py:1683-1691 | reconciling some markets changes nothing that another market lists |
| Reconciliation.ListingKeepsItsHead | database/database.py:1671-1705 | afterwards every market lists what it would have listed first, and nothing else |
| Reconciliation.OneOpenPlanPerMarket | database/database.py:1798 | the unique index over open plans cannot fail on the reconciled table |
| Reconciliation.ReconcilingTwice | database/database.py:1671-1705 | a second reconciliation finds nothing and changes nothing |
| Reconciliation.FurtherPlansFirst | database/database.py:1682 | of two open plans the one further along WATCHING, TRIGGERED, ACTIVE, TP1, TP2 comes first, and on the same stage the newer one |
| Reconciliation.MarketsAndStages | database/signal_history.py:37-40 | an absent owner shares the market of owner 0, and exactly those five stages are open |
| Reconciliation.RowAfterReconciling | database/database.py:1697-1700 | exactly the open plans with an open rival that comes before them are invalidated, in five fields, and nothing else changes |
| Reconciliation.EventSays | database/database.py:1696-1705 | an event carries the last price or else the entry, and the id of the plan that its market keeps |
| ErrorCodes.ChainStaysInside | database/schema_management.py:60-66 | a set closed under cause and context contains the whole chain, cyclic or not |
| ErrorCodes.LinkStep | database/schema_management.py:66 | the chain goes to the cause, and to the context only where there is no cause |
| ErrorCodes.PostgresCode | database/schema_management.py:58-67 | the walk ends on every chain and returns the first non-empty code, or none exactly if no exception of the chain has one |
| ErrorCodes.RunAttempts | database/schema_management.py:224-261 | the loop stops at the first attempt that is not a retryable failure, or at the last allowed one, and that attempt is unique |
| Migration.NextStaysSound | database/schema_management.py:153-261 | every step keeps the lock, the phases and the attempt counters in agreement |
| Migration.AtMostOneInside | database/schema_management.py:153-215 | two processes are inside migration() together only if one of them has lost its lock session |
| Migration.ProbeFindsNobody | database/schema_management.py:116-150 | while a service holds the lock for its probe, only a process that has lost its session can be inside |
| Migration.ExclusiveWithoutLoss | database/schema_management.py:153-215 | without session loss migration() is exclusive and its process holds the lock |
| Migration.AttemptsAreBounded | database/schema_management.py:224-260 | migration() runs at most max_attempts times per process and only after retryable failures |
| Migration.MigratorsRunTheLoop | database/schema_management.py:224-261 | a migrator that succeeded or failed stopped at the attempt at which the retry loop stops on the same outcomes |
| Migration.SuccessWasChecked | database/schema_management.py:228-247 | success is returned only after a ready check that passed with the lock held from the check to the return |
| Migration.ServingWasReady | database/schema_management.py:274-298 | READY is returned only by a check that found tables and version committed, after a probe with nobody migrating |
| Migration.SchemaStandsStill | database/schema_management.py:230 | with nobody inside and nobody entering the committed schema does not change |
| Migration.ReadyExactly | database/schema_management.py:19-27 | ready means all seven required tables and a recorded version not below the expected one |
| Migration.InsideExactly | database/schema_management.py:178-215 | a process outside at one step is inside migration() later exactly when it took the lock in between and has not finished, raised or crashed since |
| Migration.OverlapExactly | database/schema_management.py:281-291 | without session loss before the service's last probe, the processes inside at its status check are exactly those that entered after that probe and did not leave; nobody is inside exactly when there is none |
| Migration.ServingDuringMigration | database/schema_management.py:281-291 | such a run exists for every setting |
| Migration.TwoInsideAfterLoss | database/schema_management.py:177-215 | losing the session does break exclusion |
| Certification.ClaimRow.TryClaim | services/ai_operations.py:346-360 | a claim succeeds exactly when none is stored or it has expired, and then lasts timeout plus suppression |
| Certification.ClaimRow.FinishClaim | services/ai_operations.py:362-366 | the expiry becomes now plus suppression, whoever holds the claim |
| Certification.NextStaysSpaced | services/ai_operations.py:346-366 | every step keeps claims apart and the claim with the last claimant |
| Certification.ClaimsAreSpaced | services/ai_operations.py:346-366 | successive claims are at least the suppression time apart, after crashes and late bookkeeping too |
| Certification.NextStaysExclusive | services/ai_operations.py:375-442 | with short set-up and timely bookkeeping every step keeps earlier requests over |
| Certification.SafeTimingSuffices | services/ai_operations.py:437-442 | under safe timing two requests are never in flight together |
| Certification.LateSetupOverlaps | services/ai_operations.py:387-442 | set-up longer than the suppression time leads to an overlap |
| Certification.LateBookkeepingOverlaps | services/ai_operations.py:511-531 | so does late bookkeeping, unless suppression outlasts set-up and timeout |
| Certification.NoOverlapExactly | services/ai_operations.py:346-531 | requests never overlap in any run if and only if the timing is safe |
| Certification.NextKeepsRecords | services/ai_operations.py:277-292 | with timely bookkeeping recovery marks only certifications whose claim has run out, and no step undoes it |
| Certification.LateBookkeepingRevives | services/ai_operations.py:511-526 | late bookkeeping overwrites a record that recovery has marked |
| Certification.InterruptionIsFinalExactly | services/ai_operations.py:277-292 | a recovered record stays interrupted in every run if and only if bookkeeping always ends before the claim does |

## Left out

- Rounding and floating point: all figures are exact reals; `round` and IEEE behaviour, NaN and infinities are not modelled; the source rejects them in prices but not in the readiness.
- Performance.ComputeMetrics: does not model win rate, expectancy, averages, profit factor and the sharpe-like ratio, which are quotients of modelled figures or need square roots.
- Calibration.CalibrationMetrics: does not model the bucket labels and the 95% interval, which needs a square root.
- BacktestRelations.MirrorSymmetry: does not cover costs, which depend on the price level, and the two labels STOP and BREAKEVEN, which the source tells apart by a relative tolerance.
- The open column of candles, duplicate or missing columns, and the metadata carried along with a signal.
- A refused payload: the fixed neutral fields of a fallback decision (abstention, risk 0) are not carried by the model, only its code and stage.
- EvidenceTheorems.OrderIndependence: JSON typing below the level of a typed payload and dictionary key checks are not modelled; `strip` and `casefold` are arbitrary functions on strings.
- Hashes: an idempotency key stands for the tuple it is computed from, so collisions are outside the model.
- DecisionLedger.WriteOnce: daily budgets, feature switches, the response cache and the semaphore only decide which path a worker takes, and every choice of paths is covered.
- LruCache.Cache.Get: a stored None is told apart from a miss, which the source does not do; the lock is modelled by each operation being one step.
- Lease.LeaseTable.Acquire: the sum of a timestamp and a duration is a parameter that must name the right instant; years after 9999 are outside it. Workers read one common clock.
- ErrorCodes.RunAttempts: how an attempt ends is a parameter here; lock, migration() and ready check are steps of the migration protocol, and Migration.MigratorsRunTheLoop joins the two.
- Migration.SuccessWasChecked: releasing the lock is taken to raise if the session is gone. The source ignores the boolean that pg_advisory_unlock returns, so behind a connection pooler that swaps sessions between transactions a live session without the lock would still report success.
- DecisionLedger.ClaimsExclusiveExactly: claim duration and working time are whole time units, and one duration holds for all claims of a run.
- Migration.AtMostOneInside: SQLite's in-process lock is not modelled, nor the polling intervals and time-outs, which only decide when a process gives up.
- Certification.NoOverlapExactly: of `certify` only claim, record, request and bookkeeping steps are modelled; the two reads and the update of the recovery are one step, and the checks that decide between PASSED and FAILED are a free choice.
- SQL itself: tables are sequences in primary key order or maps, each connection block is atomic, and text collation is by code point.
- HTTP transport, provider envelopes, environment parsing, logging, the Telegram interface and the scoring tables of core/.
