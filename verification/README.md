# IPO scoring and grading service: verified model

The service scores IPOs, records forward predictions before listing, grades them later against
daily price series and publishes the result. This Dafny project models its numeric and
state-keeping parts and proves what each of them keeps over all inputs and all runs.

One module per component:

| module | component |
|---|---|
| `RankAuc` | the fast tie-aware AUC against the pairwise Mann-Whitney form |
| `LinearSolve`, `Logistic`, `NewtonSteps`, `LogisticFit` | Gauss-Jordan elimination with partial pivoting, ridge-logistic Newton steps, when they are exact, and what the fitted weights are |
| `WalkForward`, `Standardized`, `Folds` | the yearly walk-forward split, its standardised design, and what each fold reports, said of the rows read |
| `PointInTime`, `MarketRegime`, `FeatureLaws` | the features a prediction may read, and what they measure |
| `PriceWindows`, `ReportedReturns`, `BarPruning`, `PriceRuns` | return windows over a daily series, the returns multiplied out, deleting most of that series, and the price table over runs of ingestion and pruning |
| `RateLimiter`, `Eviction` | the bounded sliding-window limiter against the unbounded one, and what eviction does to its decisions |
| `Lifecycle`, `Reconcile`, `UsRepair`, `Pipeline` | the status field, the snapshot ledger, the data flags that guard the SEC scripts, and every writer of them |
| `StatusLaw`, `UpsertLaw`, `ReconciledRows`, `RepairedRows` | what those writers leave in a row, said of its columns before |
| `Grading`, `GradedFigures` | the forward-prediction ledger and the grading pass, and what each stored figure measures |
| `ReverseDcf`, `DcfValue` | the implied-growth bisection, and the projection against the perpetuity formula |
| `TableGrid`, `GridSlots`, `HtmlTable` | the row and column bookkeeping of the HTML table parser, and the HTML standard's own layout |
| `EmailQueue`, `Retries`, `DayQuota` | the delivery queue and the provider's events, what becomes of one message, and the daily and monthly limits over runs |
| `Publish`, `PublishedRows`, `Slugs` | the publish-time partition, the duplicate rule, what is published in terms of the columns, and the page slugs |
| `Backfill`, `Ingestion` | resumable ingestion by day |
| `Options`, `Reals`, `Text`, `Grouping` | shared helpers |

Where the source updates things in place the model has a class or a method with a loop, proved
equal to a specification function; the properties are then lemmas about those functions.
Floats are `real`; `exp`, `log`, `sqrt` and `round` are function parameters (`exp` is only taken
to be positive). Days are integers and timestamps are seconds. Name cleaning, issue-type
classification, date parsing and slug normalisation are function parameters too, so every
result holds whatever they return.

## Where the code and its comments differ

The model follows the code.

- `app/services/nse_bhavcopy.py:235-241` says every return is identical before and after pruning.
  `BarPruning.StaleSeriesLosesLatest` and `BarPruning.EarlySessionIsLost` are series for which it
  is not; `BarPruning.PruneReadsIff` says exactly when the bars read survive, and
  `PriceRuns.TableRunKeepsReturns` when the returns do over whole runs.
- `app/services/ratelimit.py:17-20` says eviction lets one-shot scanners through while a sustained
  abuser stays tracked. `RateLimiter.EvictionFailsOpen` is a key that is let through;
  `Eviction.SafeIff` says exactly when a key's decisions stay right, and `Eviction.InUseCorrect`
  is the claim for a key in use.
- `app/models.py:230-234` says an outcome row is updated as more return windows elapse.
  `Grading.GradedForever` shows that a row with any return is never written again, and
  `Grading.YearNeverFilled` is one whose twelve-month return stays blank.
- `tests/test_backfill_us_repair.py:1` calls the repair pass idempotent. `UsRepair.RereadForever`
  is a row that every pass reads again, adding the same flag each time; `UsRepair.RepairRerunIff`
  is the exact condition.
- `scripts/backfill_us_priced.py:259-262` says the repair only writes empty fields.
  `RepairedRows.RereadStores` has it replace a symbol and a price, and remove a price off the scale.
- `app/services/email_queue.py:65` gives the waits as 30, 60, 120 seconds and on. By
  `Retries.Waits` they begin at 60.
- `scripts/build_pages.py:312-319` says no page is ever overwritten. `Slugs.SlugsCanCollide` is a
  collision of three issuers; `Slugs.SlugsDistinctIff` is the exact condition.
- `app/services/model_eval.py:221-222` replaces a tiny pivot instead of failing.
  `LinearSolve.ClampLosesSolution` is a non-singular system solved wrongly, and
  `LinearSolve.ClampedColumnFails` gives one for every matrix with a clamped column.
  `LinearSolve.CorrectForEveryIff` is the exact condition on the matrix,
  `LinearSolve.SolveCorrectIff` the one for a single right-hand side, and
  `NewtonSteps.FitExact` gives data, known before the fit, for which no step is clamped.
- The daily and monthly soft limits of `app/services/email_queue.py:96-123` count rows that are
  still Sent or Delivered. `DayQuota.DelayEscapesQuota` is a day that ends over its limit;
  `DayQuota.DayKeptIff` and `DayQuota.MonthKeptIff` are the exact conditions.
- `HtmlTable.OverlapDiverges` and `HtmlTable.GroupDiverges` are tables that the parser lays out
  differently from the HTML Living Standard, section 4.9.12; `HtmlTable.ReadAsStandardIff` is the
  exact condition for any table, `HtmlTable.ModestIff` for one row group with spans up to 50.

## Model

| member | source | states |
|---|---|---|
| RankAuc.RankAuc | app/services/model_eval.py:359-376 | the sort-and-average-rank AUC is the pairwise Mann-Whitney AUC for every list of scored 0/1 labels, ties included, and is None in the same cases |
| RankAuc.PairwiseAuc | app/services/walkforward.py:40-53 | the double loop computes the same function: wins plus half ties over positive-negative pairs |
| RankAuc.AverageRanks | app/services/model_eval.py:365-374 | over any sorted index list the tie-block loop gives each row one half plus its wins against all rows |
| RankAuc.RankSumIdentity | app/services/model_eval.py:375-376 | the positives' rank sum less n(n+1)/2 is the number of wins of positives over negatives |
| RankAuc.SelfWins | app/services/model_eval.py:376 | a list against itself wins half of all comparisons, where the n(n+1)/2 term comes from |
| RankAuc.AucInUnitInterval | app/services/model_eval.py:359-376 | the AUC lies in [0, 1] |
| RankAuc.AucOfFlippedLabels | app/services/walkforward.py:40-53 | swapping the two labels turns the AUC a into 1 - a |
| LinearSolve.Solve | app/services/model_eval.py:215-228 | the elimination with pivot choice, swap, clamp and row updates returns Solution(a, b); the input is a value and stays as it was |
| LinearSolve.ReduceKeeps | app/services/model_eval.py:218-227 | every swap and row update keeps the solution set, with each clamped pivot read as a raised coefficient |
| LinearSolve.SolutionOfPerturbed | app/services/model_eval.py:215-228 | backward error: the answer is the one solution of the system in which each clamped pivot entry was raised by its shift |
| LinearSolve.CorrectForEveryIff | app/services/model_eval.py:215-228 | the solver is right for every right-hand side if and only if elimination clamps no column of the matrix, which the matrix alone decides |
| LinearSolve.ClampedColumnFails | app/services/model_eval.py:221-222 | every matrix with a clamped column has a right-hand side, given outright, for which the code returns that column's unit vector and the system is not solved |
| LinearSolve.SolveCorrectIff | app/services/model_eval.py:215-228 | for one right-hand side the answer satisfies A x = b if and only if the system has a solution that is zero on every clamped column |
| LinearSolve.SolveUnique | app/services/model_eval.py:215-228 | with no chosen pivot below 1e-12 the answer is the only solution |
| LinearSolve.ClampLosesSolution | app/services/model_eval.py:221-222 | a non-singular 1 by 1 system that the clamp solves wrongly |
| LinearSolve.ExactReduction | app/services/model_eval.py:215-228 | for a matrix that kills only the zero vector, elimination without the clamp never runs out of pivots |
| LinearSolve.InjectiveSolvable | app/services/model_eval.py:215-228 | such a square system has exactly one solution for every right-hand side |
| Logistic.Accumulate | app/services/model_eval.py:237-250 | the nested sample loops build the gradient and the penalised curvature matrix |
| Logistic.FitLogistic | app/services/model_eval.py:231-255 | the loop is the Newton iteration from zero weights with its early stop |
| Logistic.HessianSymmetric | app/services/model_eval.py:238-250 | the accumulated matrix is symmetric |
| Logistic.HessianEnergy | app/services/model_eval.py:238-250 | v'Hv is the weighted sum of squared projections plus l2 times the squares of all but the intercept |
| Logistic.HessianPositiveDefinite | app/services/model_eval.py:231-255 | it is positive definite for any weights, any non-empty design with a column of ones and any l2 > 0 |
| Logistic.NewtonSystemSolvable | app/services/model_eval.py:251-252 | every Newton system has exactly one solution |
| Logistic.NewtonStepDescends | app/services/model_eval.py:251-252 | an unclamped step has a positive product with the gradient, so subtracting it goes downhill |
| NewtonSteps.CoerciveUnclamped | app/services/model_eval.py:218-222 | a matrix with v'Av at least n * 1e-12 times the squared length of every v is never clamped: each pivot is at least the curvature bound over n |
| NewtonSteps.CoerciveSolved | app/services/model_eval.py:215-228 | the solver returns the one solution of every system whose matrix has that curvature |
| NewtonSteps.HessianCoercive | app/services/model_eval.py:238-250 | the penalised curvature matrix is bounded below by mu when the sample weights sum to 2 mu and l2 is at least mu (1 + 2 q), q bounding the squared feature length |
| NewtonSteps.NewtonStepExact | app/services/model_eval.py:231-252 | with a total weight of at least 2 d * 1e-12 and l2 at least d * 1e-12 * (1 + 2 q) the Newton step is the one solution of its system and, unless the gradient is zero, goes downhill |
| NewtonSteps.FitExact | app/services/model_eval.py:231-255 | with enough rows for the columns and a large enough penalty, both known before the fit, every step the fit takes is the one solution of its Newton system and goes downhill |
| LogisticFit.FitReturnsIff | app/services/model_eval.py:231-255 | with enough data, r is what the fit returns if and only if r ends a sequence that starts at zero, whose every difference ws[i] - ws[i+1] solves the Newton system at ws[i], and that stops after iters differences or after the first with all entries below 1e-6 |
| LogisticFit.GradientIsMoments | app/services/model_eval.py:238-247 | entry j of the gradient is the sum of (probability - label) times feature j, plus l2 times the weight except for the intercept |
| LogisticFit.StationaryCalibrated | app/services/model_eval.py:238-252 | where the gradient vanishes the predicted probabilities of the training rows add up to the number of rows labelled 1 |
| LogisticFit.Odds | app/services/model_eval.py:240-241 | p is to 1 - p as exp(z) is to 1, and the row's weight in the curvature is the slope of the probability |
| LogisticFit.InterceptFirstStep | app/services/model_eval.py:231-255 | on an intercept alone one iteration returns 4k/n - 2 for k ones in n rows, positive if and only if more than half the labels are 1 |
| LogisticFit.OneByOne | app/services/model_eval.py:221-226 | a 1 by 1 system is solved exactly when its coefficient is at least 1e-12 in size, and through 1e-12 otherwise |
| WalkForward.Standardize | app/services/model_eval.py:189-212 | columns and statistics come from the training rows alone, missing flags from both sets |
| Standardized.EncodedAt | app/services/model_eval.py:199-212 | a row's design entries: a one, then each column's distance from its mean over its deviation or zero where missing, then a flag per column that some row lacks |
| Standardized.ColumnMoments | app/services/model_eval.py:195-202 | over the training rows that have it, a standardised column adds up to zero and, with an exact square root and two values that differ, its squares add up to their number |
| Standardized.ColumnIff | app/services/model_eval.py:192-196 | a column is used if and only if at least five training rows have it and two of them differ |
| Standardized.PredictionOdds | app/services/model_eval.py:258-260 | a predicted percentage p is to 100 - p as exp(score) is to 1 |
| WalkForward.WalkForward | app/services/model_eval.py:330-356 | the year loop computes the concatenation of the folds of the ascending label years |
| Folds.FoldsAre | app/services/model_eval.py:333-346 | one fold for each year of a labelled row, ascending; it trains on as many rows as are labelled in earlier years, tests on those of its own, and has figures if and only if the first number reaches the minimum and both labels occur among them |
| Folds.FoldRows | app/services/model_eval.py:336-341 | the fit gets every labelled row of an earlier year as often as it was read, and no other; the test rows are those of the year |
| Folds.TrainsOnEarlierTests | app/services/model_eval.py:336-341 | a fold trains on as many rows as all earlier folds test on |
| Folds.FiguresAre | app/services/model_eval.py:343-356 | base percentage, Brier score and AUC of a scored fold, multiplied out over its training labels and test rows |
| Folds.FoldPredicts | app/services/model_eval.py:343-349 | the weights that end the path of at most 25 Newton updates from zero, with penalty 1, on the fold's own training rows give every test row its percentage |
| Folds.HeuristicAre | app/services/model_eval.py:350-352 | the heuristic is compared on the test rows that carry its figure for the target, in order, with their labels |
| WalkForward.LaterRowsOnlyAppend | app/services/model_eval.py:330-356 | everything reported up to a year is what the rows up to that year produce; later rows only append |
| WalkForward.LabelsDoNotLeak | app/services/model_eval.py:336-349 | changing any labels of year Y or later changes no prediction and no base rate of fold Y |
| WalkForward.BaselinesAligned | app/services/model_eval.py:347-350 | model, base-rate and constant pairs carry the same labels in the same order |
| PointInTime.PaddedAdmitted | app/services/model_eval.py:103-123 | production admits the same observations whatever future ones are mixed in |
| PointInTime.ProductionIgnoresTheFuture | app/services/model_eval.py:126-145 | production features do not change with observations that are not point-in-time or available after the listing date, nor with listings on or after it |
| FeatureLaws.ProductionAdmits | app/services/model_eval.py:103-113 | production admits a value exactly by a point-in-time rule and when it was available by the date |
| FeatureLaws.NewestIsRead | app/services/model_eval.py:116-123 | the value read is that of an admissible observation with the latest period end, and among those the latest availability; none is read exactly when none is admissible |
| FeatureLaws.RatioFeatures | app/services/model_eval.py:126-145 | growth and margins multiplied out: growth from the previous revenue, margins of the revenue, absent without a divisor |
| PointInTime.PaddedCount | app/services/market_regime.py:108-112 | the trailing count ignores listings on or after the date |
| FeatureLaws.CountsNinetyDays | app/services/market_regime.py:108-112 | the count is the number of listings in the 90 days before the date |
| PointInTime.ResearchReadsComparatives | app/services/model_eval.py:110-112 | the research dataset does read a comparative filed after listing |
| MarketRegime.RegimeIgnoresTheFuture | app/services/market_regime.py:35-57 | the regime of a listing does not depend on any index bar of its day or later |
| MarketRegime.RegimeIsKnown | app/services/market_regime.py:35-57 | what is written is dated before the listing, at most 7 days before, and production features admit it |
| MarketRegime.ReturnSpan | app/services/market_regime.py:43-57 | the return ends at the last close before listing and spans 53 to 60 days |
| FeatureLaws.RegimeIff | app/services/market_regime.py:35-57 | a regime is written if and only if 21 closes precede the listing, the last within 7 days of it, and a base lies within 7 days of 60 days before that; the return is measured between the two |
| FeatureLaws.RegimeMeasures | app/services/market_regime.py:43-57 | the squared volatility is 252 times the sample variance of the last 20 log returns, in percent squared |
| PriceWindows.BarOnOrAfter | app/services/market.py:93-96 | the first bar at or after the target |
| PriceWindows.BarNearestBeforeOrOn | app/services/market.py:98-103 | the last bar before the first one past the target |
| PriceWindows.SplitAdjustedIssuePrice | app/services/market.py:39-45 | the issue price times the factors of later splits |
| PriceWindows.WindowedReturns | app/services/market.py:105-158 | the report as a function of the listing bar, the window bars and the latest bar |
| PriceWindows.WindowExact | app/services/market.py:147-153 | a window is read from the newest bar strictly after the session and not past its target, exactly once the series reaches the target |
| ReportedReturns.SessionIs | app/services/market.py:117-130 | the listing session is the first bar when it lies from 4 days before to 14 days after the listing, else the first bar on or after it if within 14 days |
| ReportedReturns.WindowReturnsMeasure | app/services/market.py:131-153 | each reported window return v satisfies base * (100 + v) == 100 * close of the bar that governs the window, base being the issue price times the factors of later splits, or the session close without one or when it is implausible |
| ReportedReturns.SessionReturns | app/services/market.py:131-146 | listing, open and day returns multiplied out, when each is there, and that the issue price is dropped exactly when the close is above 21 times or below -19 times it |
| ReportedReturns.ListingReturnsMeasure | app/services/market.py:105-158 | the same for a whole report, with the return since listing |
| ReportedReturns.FactorIsProduct | app/services/market.py:39-45 | the split factor is the product over the splits after the session |
| PriceWindows.ReturnsAreFinal | app/services/market.py:105-158 | appending later bars changes and removes no listing or window return already reported |
| BarPruning.PriceTable.PruneBars | app/services/nse_bhavcopy.py:258-277 | the table keeps exactly the rows the rule keeps for their security, and the count of deletions |
| BarPruning.KeptDays | app/services/nse_bhavcopy.py:248-255 | the days kept: the newest 20, three weeks from the listing, and the 12 days up to day 30, 90, 182, 365 and 730 |
| BarPruning.SurvivesIff | app/services/nse_bhavcopy.py:234-277 | pruning leaves every bar the report reads in place if and only if it keeps each of them and brings no pre-listing bar to the front |
| BarPruning.PromotesIff | app/services/nse_bhavcopy.py:248-255 | pruning brings a pre-listing bar to the front if and only if the series starts more than 4 days before listing and its first bar of the last 20 days lies in those 4 days |
| BarPruning.PruneReadsIff | app/services/nse_bhavcopy.py:234-277 | for any daily series, one pruning leaves the bars read in place if and only if the day rule keeps each of them and that does not happen |
| BarPruning.PruneSurvivesIff | app/services/nse_bhavcopy.py:218-277 | for a series that starts on its listing day, one pruning leaves the bars read in place if and only if the day rule keeps the newest bar and each reported window's bar |
| BarPruning.PruneKeepsReturns | app/services/nse_bhavcopy.py:234-277 | a pruning that keeps those bars changes no return for any issue price and splits |
| BarPruning.PruneComposes | app/services/nse_bhavcopy.py:248-277 | a later pruning includes every earlier one |
| BarPruning.StoreIsFiltered | app/services/nse_bhavcopy.py:258-277 | over any orderly run of ingest and prune the store is the full series filtered by the last pruning |
| BarPruning.RunKeepsReturns | app/services/nse_bhavcopy.py:234-277 | over any such run, without gaps before the window targets, all returns equal those of the never-pruned series |
| BarPruning.TablePrunesSeries | app/services/nse_bhavcopy.py:218-277 | pruning the table is pruning each security's series |
| BarPruning.StaleSeriesLosesLatest | app/services/nse_bhavcopy.py:235-241 | a stopped series loses its newest bar and its latest price goes back |
| BarPruning.EarlySessionIsLost | app/services/nse_bhavcopy.py:235-241 | a first session before the stated date is deleted and another bar becomes the session |
| PriceRuns.RunFollows | app/services/nse_bhavcopy.py:130-277 | over any run of ingestion, failed fetches, forced re-reads and prunings, the table is a part of the never-pruned one and holds every row of the security that no pruning deletes |
| PriceRuns.TableRunKeepsReturns | app/services/nse_bhavcopy.py:149-277 | over any such run, a security whose full series starts on its listing day, has no gaps and has a recent newest bar at each pruning gets the returns of the table never pruned |
| RateLimiter.SlidingWindowLimiter.Hit | app/services/ratelimit.py:42-74 | the decision and the whole new state of one hit |
| RateLimiter.SlidingWindowLimiter.Sweep | app/services/ratelimit.py:76-83 | a sweep removes exactly the stale buckets and counts them |
| RateLimiter.SweptOnSchedule | app/services/ratelimit.py:49-53 | every sweep_every-th hit leaves no other key whose last hit is older than the widest window seen |
| RateLimiter.ReachableHealthy | app/services/ratelimit.py:42-83 | every reachable state is within capacity, with sorted deques and keys in last-use order |
| RateLimiter.EvictsLeastRecentlyUsed | app/services/ratelimit.py:70-73 | capacity eviction takes exactly the surplus least recently used keys and never the key being hit |
| RateLimiter.BoundedRefinesUnbounded | app/services/ratelimit.py:42-74 | every decision equals that of the unbounded limiter while the keys with a hit in the widest window fit the capacity; sweeps do not show |
| Eviction.DecidedIff | app/services/ratelimit.py:42-74 | a hit is decided by the limit on accepted hits in its window if and only if the deque still holds limit of them or fewer were accepted |
| Eviction.RefusalIsEarned | app/services/ratelimit.py:17-18 | whatever was evicted, a refused hit finds limit accepted hits in its window |
| Eviction.SafeIff | app/services/ratelimit.py:42-74 | every further hit of a key alone is decided correctly if and only if its deque still holds all its unexpired accepted hits, or limit of them |
| Eviction.KnownIff | app/services/ratelimit.py:58-60 | equal counts mean the deque lacks expired hits only |
| Eviction.InUseCorrect | app/services/ratelimit.py:17-20 | a key with fewer than max_keys other keys hit between its hits and since the last one is decided correctly, however many keys are live |
| Eviction.WithinLimitIff | app/services/ratelimit.py:62-68 | no window of the configured length holds more than limit hits the limiter accepted if and only if every hit of the key was decided correctly |
| Eviction.NoWindowOverLimit | app/services/ratelimit.py:62-68 | no window holds more than limit hits the limiter accepted, for a key in use, nor for any key while the live keys fit the capacity |
| Eviction.AcceptedIsLog | app/services/ratelimit.py:42-74 | while the live keys fit, the hits accepted are those of the unbounded limiter |
| RateLimiter.EvictionFailsOpen | app/services/ratelimit.py:70-73 | past the capacity the limiter forgets a hit and accepts one too many |
| Lifecycle.SnapshotIff | app/services/pipeline.py:252-289 | a snapshot is recorded exactly on discovery, on a structural change or when the score moved |
| Lifecycle.Written | app/services/pipeline.py:311-322 | the write loop gives every field it takes the row's value, moves no other field, and reports exactly the fields that changed |
| Lifecycle.UpsertStatus | app/services/pipeline.py:311-322 | an upsert never lowers the status rank, never leaves the terminal statuses and never stores an unknown status |
| StatusLaw.LaterStatusStored | app/services/identity.py:98-104 | of the stored status and the row's, placed in Filed, Upcoming, Open, Closed, Priced, Listed, Withdrawn, Not IPO, the later one is stored |
| StatusLaw.OtherStatusIgnored | app/services/identity.py:98-104 | a row without a status, or with any other, leaves the stored one |
| StatusLaw.TerminalRecorded | app/services/pipeline.py:311-335 | an upsert that moves a row into Listed, Withdrawn or Not IPO records one snapshot of the change, which is not a forward one |
| UpsertLaw.ColumnsStored | app/services/pipeline.py:311-322 | any other column but the name holds the row's value when it has one, and its old value otherwise: nothing known is blanked |
| UpsertLaw.NameStored | app/services/pipeline.py:317-321 | the name moves only on a new row, a row without a symbol or for an input that brings one |
| UpsertLaw.ExtrasStored | app/services/pipeline.py:324-325 | a non-empty source record and any list of flags replace the old ones |
| UpsertLaw.CreatedRow | app/services/pipeline.py:305-322 | a new row holds what the input gives, column by column, and the default elsewhere |
| UpsertLaw.RecordedIff | app/services/pipeline.py:252-289 | an upsert of a stored row records a snapshot if and only if its status, filing or price band moved, it got its first final price before its listing, or its score differs from the last one recorded by a tenth or in its recommendation |
| UpsertLaw.StructuralStage | app/services/pipeline.py:269-280 | the stage recorded for a structural move: the end of the row, else its first price, else the filing (ingested or amended), else the band, else the status |
| UpsertLaw.ScoreStage | app/services/pipeline.py:281-289 | the stage recorded when only the score moved |
| UpsertLaw.ScoredAsStored | app/services/pipeline.py:328-335 | the one snapshot an upsert may add carries the score of the row as stored |
| Lifecycle.UpsertHistory | app/services/pipeline.py:328-335 | the history grows by at most one snapshot, forward exactly while the row is not terminal |
| Lifecycle.UpsertIdempotent | app/services/pipeline.py:294-336 | writing the same input again changes nothing and records nothing |
| Pipeline.Ledger.UpsertIpo | app/services/pipeline.py:294-336 | the in-place loop over the fields, the source record and the data flags give the specified row, and the result says whether a column changed |
| Pipeline.Ledger.ReconcileLifecycle | app/services/pipeline.py:583-642 | the two loops and the listed-by-name map give the specified rows |
| Pipeline.PastLawful | app/services/pipeline.py:117-139 | a past-issues item keeps a terminal row terminal, stores only known statuses and adds no snapshot |
| StatusLaw.PastListsIff | app/services/pipeline.py:117-139 | through the past-issues list an India row with a symbol is Listed afterwards if and only if it was, or was Open or Closed with a listing day that has come |
| RepairedRows.OfficialPrice | app/services/pipeline.py:100-128 | a row without a price takes the official one; a stored price stays, and one more than a hundredth off gets the official price beside it and the one flag that names both |
| Pipeline.MasterLawful | app/services/pipeline.py:483-499 | a listing found in the masters keeps a terminal row terminal, stores only known statuses and adds no snapshot |
| Pipeline.RowLawful | scripts/backfill_us_priced.py:222-320 | the repair and recheck scripts, whichever way they move a row between Listed and Not IPO, keep it terminal and add no snapshot |
| Pipeline.RowRerun | scripts/backfill_us_priced.py:222-325 | running a single-row writer again with the same input changes nothing, except a repair without verdict of a row with an implausible price (for past issues, with an official price that is not negative) |
| RepairedRows.RereadStores | scripts/backfill_us_priced.py:302-325 | a re-read offering stays Listed, takes the symbol and price the cover states, and loses a price below 0.50 or above 500 when it states none |
| RepairedRows.RepairReadsIff | scripts/backfill_us_priced.py:192-210 | which rows the repair reads, in terms of country, filing address, status, price and flags |
| RepairedRows.RecheckStores | scripts/backfill_us_priced.py:222-252 | a row put back is Listed with the symbol and price of its cover and without the flag that took it off |
| RepairedRows.PriceReadsIff | scripts/repair_us_prices.py:54-56 | the price repair reads the Listed SEC filers whose price is missing, zero or negative |
| UsRepair.RepairRerunIff | scripts/backfill_us_priced.py:192-325 | a second repair pass changes nothing if and only if the row was no candidate, its price was plausible or the cover gave a verdict |
| UsRepair.RereadForever | scripts/backfill_us_priced.py:196-292 | otherwise every pass reads the row again and its flags grow by one |
| Pipeline.NotIpoStep | scripts/backfill_us_priced.py:213-252 | under any writer a Not IPO row leaves that status exactly when the recheck reads an IPO off the cover of a row flagged as taken off and not yet rechecked, and no row becomes such a row |
| Pipeline.ReturnsOnce | scripts/backfill_us_priced.py:222-252 | over every run of all writers a row comes back at most once, and never unless it was so flagged at the start |
| Pipeline.RepairSticks | scripts/backfill_us_priced.py:295-301 | a row the repair takes off the list stays Not IPO over every later run |
| Pipeline.NothingToRecheck | scripts/backfill_us_priced.py:213-219 | on a ledger built by these writers the recheck finds no row to read |
| Pipeline.StepLawful | app/services/identity.py:90-104 | every writer keeps a terminal row terminal and adds no forward snapshot to it |
| Pipeline.LedgerRun | app/services/pipeline.py:328-335 | over every run of all writers, the forward snapshots of a row precede all others, and a row with any other is terminal |
| Pipeline.TerminalAbsorbing | app/services/identity.py:90-104 | Listed, Withdrawn and Not IPO are never left once entered, and later snapshots are not forward |
| Pipeline.RankNeverDecreases | app/services/identity.py:98-104 | under upserts alone the status rank never decreases |
| Reconcile.FirstLoop | app/services/pipeline.py:601-624 | the first loop classifies each row on its own, and the map holds exactly the names of Listed rows |
| Reconcile.ReconciledStatus | app/services/pipeline.py:599-642 | the final status of each row read off the rows before the pass, with no mention of order |
| ReconciledRows.ReconciledLaw | app/services/pipeline.py:599-642 | an India row ends as Not IPO when its name is an artifact or its stated type no IPO; as Listed when it waited and a Listed row has its name; as Closed when it waited and its offer closed before today; else as it was |
| ReconciledRows.TwinFills | app/services/pipeline.py:626-632 | a matched row gets listing date and price from one such row where it has none, and loses neither |
| ReconciledRows.TwinDates | app/services/pipeline.py:622-630 | when any such row has a listing date the matched row has one afterwards |
| Reconcile.OrderFree | app/services/pipeline.py:599-642 | statuses do not depend on the order in which rows are read |
| Reconcile.ReconcileIdempotent | app/services/pipeline.py:583-642 | a second pass on the same day changes no status, and nothing at all on rows whose name is not a report artifact |
| Grading.Grader.Sync | app/services/outcomes.py:84-150 | the pass attaches the specified outcomes and counts what it graded, blocked and skipped |
| Grading.TodoIsDue | app/services/outcomes.py:91-98 | a pass selects exactly the due snapshots, one batch per IPO |
| Grading.AfterPass | app/services/outcomes.py:101-147 | every covered snapshot carries what its IPO's series gives and every other outcome is as before |
| Grading.AttachedClass | app/services/outcomes.py:41-64 | an eligible snapshot becomes GRADED when its series is usable and BLOCKED_MARKET_DATA otherwise |
| GradedFigures.FiguresByDays | app/services/outcomes.py:52-62 | the window figures are the rounded returns over 7, 30, 182, 365 and 730 days from the base price to the newest close in the window, absent exactly when the series has none or does not reach that far |
| GradedFigures.ListingFigures | app/services/outcomes.py:52-56 | the listing figures, from the offer price to the session's open and close |
| GradedFigures.BenchmarkDifference | app/services/outcomes.py:67-74 | the benchmark figure is the twelve-month return less what the index made from its first bar on or after the listing to its last within 365 days |
| GradedFigures.Stamped | app/services/outcomes.py:41-64 | every outcome written carries the day of the pass, and a source when graded or a note, with all figures cleared, when blocked |
| GradedFigures.CategoryIff | app/services/forward_grading.py:44-68 | exactly when a snapshot is in each of the seven categories, in terms of status, days, symbol, price and figures |
| GradedFigures.GradedNowIff | app/services/outcomes.py:77-98 | a pass selects a snapshot if and only if its issue has traded, has symbol and price, has no figure, and was not blocked in the last 14 days |
| Grading.PassSettles | app/services/outcomes.py:84-150 | a pass that covers every selected IPO leaves nothing PENDING, each selected snapshot GRADED or BLOCKED_MARKET_DATA, and the rest unchanged |
| Grading.SameReturns | app/services/outcomes.py:145-147 | snapshots of one IPO graded in a pass carry equal returns |
| Grading.CoveredTogether | app/services/outcomes.py:92-103 | the limit never splits the due snapshots of one IPO |
| Grading.GradedForever | app/services/forward_grading.py:51-54 | an outcome with a return is never written again by any later pass |
| Grading.YearNeverFilled | app/models.py:230-234 | an outcome graded after a week keeps a blank twelve-month return although grading the longer series would give one |
| Grading.BlockedWaits | app/services/outcomes.py:77-81 | a blocked outcome is left alone until 14 days have passed |
| Grading.LedgerCounts | app/services/forward_grading.py:105-118 | the counting loop gives the total, the category counts and the counts per country |
| Grading.CategoriesSum | app/services/forward_grading.py:105-118 | the category counts add up to the number of snapshots |
| Grading.CountriesSum | app/services/forward_grading.py:105-118 | each category's country counts add up to its total |
| ReverseDcf.ProjectEquityValue | app/services/dcf.py:20-39 | the projection loop computes the discounted value, or None for no revenue or wacc at most terminal growth |
| DcfValue.Perpetuity | app/services/dcf.py:20-39 | with one margin m and growth equal to the terminal growth g, the value is revenue * (1 + g) * (m * 0.82 * (1 - tax) - capex) / (wacc - g), for every number of years |
| DcfValue.OneYear | app/services/dcf.py:20-39 | one projected year multiplied out, at any margin and growth |
| DcfValue.MarginOnLine | app/services/dcf.py:26-29 | the margins lie on the line from the first to the last |
| DcfValue.ScenarioPerpetuity | app/services/dcf.py:105-123 | the same identity for the assumptions the solver makes, tax 0.25 and capital expenditure 0.06 |
| ReverseDcf.SolveImpliedCagr | app/services/dcf.py:105-123 | the 60-step loop is the bisection on the rate |
| DcfValue.AnswerForEquityIff | app/services/dcf.py:105-123 | on a paying path the answer is within 3.3/2^61 of a rate at which projection plus cash less debt is the target exactly when that rate lies in [-0.3, 3.0] |
| DcfValue.AnswerEquity | app/services/dcf.py:105-123 | the answer lies between a rate at which projection plus cash less debt falls short of the target and one, 3.3/2^60 higher, at which it does not |
| ReverseDcf.EvIncreasing | app/services/dcf.py:20-39 | on a margin path that pays at both ends the value is strictly increasing in growth |
| ReverseDcf.BracketKept | app/services/dcf.py:113-123 | the loop keeps value(lo) < target <= value(hi) and ends 3.3/2^60 wide, on any margin path |
| ReverseDcf.AnswerSeparates | app/services/dcf.py:105-123 | rates 3.3/2^61 below the answer are worth less than the target, rates as far above at least the target |
| ReverseDcf.SolvesForGrowthIff | app/services/dcf.py:105-123 | for the rate worth the target on a paying path, the answer is within 3.3/2^61 of it if and only if it lies in [-0.3, 3.0]; no other rate above -1 is worth the target |
| ReverseDcf.SaturatesOutside | app/services/dcf.py:111-123 | a target outside the bracket gives half a bracket from the nearer end instead of failing |
| ReverseDcf.LossMakerGetsHighestGrowth | app/services/dcf.py:105-123 | a path that never pays is reported as the highest growth for any positive price |
| TableGrid.GridParser.FeedTable | app/services/prospectus_financials.py:115-159 | the callbacks of a table keep exactly the rows with text, each cell at the column the layout gives it |
| TableGrid.GridParser.FeedRow | app/services/prospectus_financials.py:122-151 | the callbacks of a row lay its cells past held columns and update the holds |
| GridSlots.RowLaidOut | app/services/prospectus_financials.py:104-106 | a row's cells have increasing disjoint column ranges, none starts in a held column, and only held columns are skipped |
| GridSlots.SpanWritten | app/services/prospectus_financials.py:78-82 | a span counts as written from 1 to 50, below as 1 and above as 50 |
| HtmlTable.ReadAsStandardIff | app/services/prospectus_financials.py:122-147 | a table of any row groups and spans is read as the HTML standard lays it out if and only if, in the standard's layout, every column passed over is one the last row-spanning cell above still reaches, no cell starts in such a column and every colspan is within the parser's cap |
| HtmlTable.ModestIff | app/services/prospectus_financials.py:122-147 | for one row group with spans up to 50 the condition is that the last row-spanning cell above still reaches the row at every column the standard passes over |
| HtmlTable.KeptHoldsReadAlike | app/services/prospectus_financials.py:122-147 | a table of one row group with spans up to 50 is read as the standard lays it out when no spanning cell cuts an earlier rowspan short |
| GridSlots.HeldByLastSpan | app/services/prospectus_financials.py:125-144 | on any table a column is held after n rows if and only if the last row-spanning cell over it reaches row n |
| GridSlots.HeldExactly | app/services/prospectus_financials.py:125-127 | a rowspan of R holds its columns for exactly the next R - 1 rows |
| GridSlots.SlotsDisjointIff | app/services/prospectus_financials.py:142-144 | two cells claim a common slot if and only if some colspan reaches into a held column |
| GridSlots.NoReachKeeps | app/services/prospectus_financials.py:142-144 | a table in which no colspan reaches into a held column cuts no rowspan short |
| HtmlTable.OverlapDiverges | app/services/prospectus_financials.py:142-144 | a table whose last cell the parser reads one column left of the standard |
| HtmlTable.GroupDiverges | app/services/prospectus_financials.py:125-127 | a rowspan that the parser carries past the end of its row group moves the next cell one column right of the standard |
| EmailQueue.EnqueuedOnce | app/services/email_queue.py:19-29 | once a message is queued, asking for the same lead, template and key again after any run changes nothing |
| EmailQueue.EnqueueKeeps | app/services/email_queue.py:19-29 | queuing keeps keys unique and every row's record of its calls |
| EmailQueue.Mailer.ProcessQueue | app/services/email_queue.py:71-134 | the loop over the selected rows gives the specified rows, calls and counters |
| EmailQueue.HandleKeeps | app/services/webhooks.py:43-79 | a provider event keeps keys unique and every row's record of its calls: a row still queued has no accepted call |
| EmailQueue.SelectedRows | app/services/email_queue.py:80 | a pass reads queued rows once each, most urgent first, and leaves out only rows that come after 3 * limit others |
| EmailQueue.EveryRun | app/services/email_queue.py:61-134 | over any run, each row is accepted at most once and tried at most the maximum, every retry waits for its backoff, and keys stay unique |
| Retries.SendIff | app/services/email_queue.py:84-110 | a row is given to the provider if and only if its wait is over, its lead is known and not suppressed, it is the welcome or the lead consents, both limits leave room or it is transactional, and it renders |
| Retries.TransactionalGoesOut | app/services/email_queue.py:71-134 | whatever is read before it, a ready transactional message among the first limit rows of a pass is given to the provider: no quota holds it |
| Retries.FailedReply | app/services/email_queue.py:118-134 | a failure for good, or the last one allowed, ends the message; any other leaves it Queued with one attempt more |
| Retries.TriedAgainIff | app/services/email_queue.py:61-66 | a queued message tried before, of a willing lead and within the limits, is tried again if and only if its backoff is over |
| Retries.Waits | app/services/email_queue.py:61-66 | the waits: 60, 120, 240, 480, 960 and 1920 seconds, then an hour |
| Retries.AllRead | app/services/email_queue.py:80 | with at most three times the limit queued, a pass reads every queued row |
| EmailQueue.NeverRequeued | app/services/webhooks.py:51-76 | a row that has left the queue never comes back and is never sent again |
| EmailQueue.PassRespectsLeads | app/services/email_queue.py:86-95 | a pass never writes to a suppressed lead, nor without consent except to welcome it |
| EmailQueue.SuppressedStaysSilent | app/services/email_queue.py:86-91 | once suppressed, nothing more goes to a lead over any run that does not lift it |
| EmailQueue.ComplaintSuppresses | app/services/webhooks.py:66-87 | a bounce or complaint suppresses the lead with the address the event or the message names |
| Retries.OtherEventsSpareLeads | app/services/webhooks.py:66-76 | an event that is no bounce and no complaint changes no lead |
| Retries.OneMessageMoved | app/services/webhooks.py:51-64 | an event moves only the status, and only of the message it names |
| Retries.EventStatus | app/services/webhooks.py:51-76 | the status each kind of event leaves |
| EmailQueue.QuotaRespected | app/services/email_queue.py:96-123 | accepted sends that are not transactional number at most what both soft limits leave after mail already sent and the pass's transactional sends |
| DayQuota.CountMisses | app/services/email_queue.py:68-69 | over any run, mail accepted since a time is what the count finds plus the rows that events have moved on from Sent and Delivered |
| DayQuota.DayKeptIff | app/services/email_queue.py:71-123 | after any run, no pass that accepts ordinary mail can end the day over the limit, whatever is asked for meanwhile, if and only if the rows that escaped the day's count fit into its room beside all that both limits still let through |
| DayQuota.MonthKeptIff | app/services/email_queue.py:71-123 | the same for the month |
| DayQuota.DelayEscapesQuota | app/services/webhooks.py:51-76 | a day of two passes that accepts two messages under a limit of one, because the first was reported delayed |
| Publish.Classify | scripts/build_pages.py:155-211 | the loops give the specified partition |
| Publish.DedupeByIssuer | scripts/build_pages.py:132-152 | the grouping loop keeps one row of each named issuer and records the others against it |
| Publish.NothingLost | scripts/build_pages.py:155-211 | every row lands in exactly one list, as often as it was read |
| Publish.OnceEach | scripts/build_pages.py:155-211 | with unique ids every row read appears exactly once over the six lists |
| Publish.KeptIff | scripts/build_pages.py:125-152 | a row is kept exactly when its name is blank or it comes first by completeness among its issuer's rows |
| Publish.IssuerStays | scripts/build_pages.py:142-149 | every issuer keeps a row |
| Publish.UpcomingIff | scripts/build_pages.py:194-206 | what is published as upcoming, said of the set of rows |
| Publish.HistoryIff | scripts/build_pages.py:180-207 | what is published as history, said of the set of rows |
| PublishedRows.UpcomingLaw | scripts/build_pages.py:108-206 | a row is published as upcoming if and only if it is active and fresh (365 days for a United States filing, 45 for a closed India issue), no dated Listed row has its country and name, and it gives way to no other fresh row of its issuer |
| PublishedRows.HistoryLaw | scripts/build_pages.py:125-207 | a row is in the published history if and only if it is Listed within the window and gives way to no other such row of its issuer: fewer columns filled, then no symbol, then the higher id |
| PublishedRows.OtherLists | scripts/build_pages.py:180-192 | which rows are in the withdrawn, undated and older lists |
| PublishedRows.ExcludedBecause | scripts/build_pages.py:180-207 | every row left out is in no state to be shown, or its record names a row of its country and name that is Listed or published |
| Publish.OrderFree | scripts/build_pages.py:155-211 | which rows are published does not depend on the order they are read in |
| Publish.NoSharedIssuer | scripts/build_pages.py:194-207 | published rows share no country and non-blank name within a list, and none across the two lists |
| Slugs.AssignSlugs | scripts/build_pages.py:320-331 | the loops give the lowest id of a base the bare slug and every other page the base, a dash and its id |
| Slugs.SlugsDistinctIff | scripts/build_pages.py:312-331 | slugs are distinct if and only if no base slug is the suffixed slug of a page that gave way |
| Slugs.SlugsCanCollide | scripts/build_pages.py:312-331 | three pages, two of them with the same slug |
| Backfill.Backfiller.Run | scripts/backfill_us_priced.py:114-189 | one run processes the business days from its resume point and records how far it came and why it stopped |
| Backfill.NoGapNoRepeat | scripts/backfill_us_priced.py:71-82 | over any runs the days processed are exactly the business days from the first start on, once each and in order, toward one fixed target end |
| Backfill.CompletedRunReachesEnd | scripts/backfill_us_priced.py:114-189 | once a run completes, every business day up to the target end has been processed |
| Backfill.DaysAre | scripts/backfill_us_priced.py:106-111 | the enumerated days are the weekdays of the range, each once, ascending |
| Backfill.FirstFiveOfWeek | scripts/backfill_us_priced.py:106-111 | the business days are the first five of every week counted from Monday, day 1 |
| Ingestion.PriceStore.IngestDays | app/services/nse_bhavcopy.py:149-193 | one budgeted run gives the specified day ledger and bars |
| Ingestion.PriceStore.StoreRows | app/services/nse_bhavcopy.py:130-146 | the insert loop stores the specified rows and counts them |
| Ingestion.StoredIff | app/services/nse_bhavcopy.py:130-146 | a day's file adds, for each wanted ISIN without a bar that day, its first row and nothing else |
| Ingestion.SplitEqualsUnbounded | app/services/nse_bhavcopy.py:149-193 | without fetch errors, budgeted runs that cover the open days end with the ledger and bars of one unbounded run |
| Ingestion.DayAfter | app/services/nse_bhavcopy.py:149-193 | a run with a fetch for every day leaves each business day of its range as the fetch gave it, unless it is a known holiday, was read and no re-read is forced, or failed and no retry is asked for; all other days are as before |
| Ingestion.OneBarKept | app/services/nse_bhavcopy.py:130-146 | with each file carrying its own date there is one bar per ISIN and date over any run |

## Left out

- Everything that only moves data: HTTP clients, fetching, rate pacing, SMTP and Resend transports, Sheets, sessions and migrations, routes, auth, rendering, backups.
- Regex-driven parsing and text classification; their results are parameters here.
- `scoring.py`, `redflags.py`, `contradictions.py`, `sensitivity.py`: weighted sums and rules with no property across steps.
- Floating-point rounding and `round`: arithmetic is exact; the grading figures go through an arbitrary rounding function.
- Metrics other than the AUC and the Brier score, bootstrap resampling, and convergence of the Newton iteration.
- Provenance rows, counters of the status writers, and `NameIndex`: which stored row an input resolves to is a parameter.
- Crashes and failed commits in the middle of a pass.
- ReverseDcf.SolvesForGrowthIff: the existence of a rate worth exactly the target (intermediate value theorem) is a hypothesis; AnswerSeparates needs no such rate.
- Lifecycle.UpsertIdempotent: the score is a function of the stored row; the count of provenance conflicts that also enters it is taken as fixed by the row.
- Pipeline.ReturnsOnce and the lemmas beside it: feeds are taken not to carry the flag that only the repair writes, as `app/services/sec.py:255-286` has it.
- Pipeline.RowRerun: deleting the performance snapshots of a re-priced row is not modelled, nor are the flags of the India writers other than the price conflict, the re-check of conflicted prices, and the shared prefix by which flags are replaced.
- LogisticFit.FitReturnsIff: names the returned weights when there are enough rows for the columns and l2 is not vanishing; otherwise a pivot may be clamped and LinearSolve.SolveCorrectIff says when a step is still right.
- RateLimiter.BoundedRefinesUnbounded and the lemmas of Eviction: need a non-decreasing clock and one fixed window and limit per key.
- BarPruning.RunKeepsReturns: needs bars from the listing day on, no gap of more than 12 days before an elapsed target and a newest bar at most 20 days old at each pruning, as StaleSeriesLosesLatest and EarlySessionIsLost show.
- EmailQueue.Mailer.ProcessQueue: one clock reading serves the whole pass, subjects, error texts and the failed and delivered times are not kept, and equal priority and age are taken in row order.
- EmailQueue.HandleKeeps: the automatic update time of a row is not touched by events; only queued rows' update times are ever read, and no event reaches a queued row.
- TableGrid.GridParser.FeedTable: tables without nested tables.
- Grading.LedgerCounts: the reasons tally is not modelled.
- Publish.Classify: exclusion reasons are kept only as the id of the record that replaces a row.
- WalkForward.WalkForward: folds carry exact figures; rounding and the skip message are left out.
- Pipeline.Ledger.UpsertIpo: provenance rows are not written.
- Backfill.Backfiller.Run: the filings of a processed day are not modelled, and explicit start and end arguments are left out.
- PriceRuns.TableRunKeepsReturns: each day has one file, which a fetch gives or fails to give, and every pruning knows the security's listing day.
- Ingestion.SplitEqualsUnbounded: a failed fetch changes the order of later inserts, so it is stated without failures and without forced re-reads.
