# Models of the trading system's numeric and stateful cores

The repository is a multi-service trading system: strategies turn trades into signals, an execution
service fills orders, a post-trade service keeps positions and equity, and a backtest service replays
history and reports performance. This project models the algorithms inside those services in Dafny and
proves what they promise on exact (real) numbers, for all inputs, all runs and all interleavings.

Code that changes state is modelled as classes and methods over mutable fields, each proved against a
specification function of the old state; the promises are then theorems about those functions.

| module | models | main results |
|---|---|---|
| `LinearSystem`, `LeastSquares` | Gaussian elimination with partial pivoting on a mutable matrix, ordinary least squares, the rolling refit | an answer is the one solution of the system; a fit is the one least-squares fit |
| `Ledger`, `Portfolio` | average-cost positions, the post-trade state | the books are a cash ledger; equity, profit counters and peak over any run of fills and prices |
| `BacktestLedger` | the two accounting loops of the backtest | they agree with the live position exactly when no fill crosses zero off the entry price |
| `Drawdown` | drawdown and total return | the single pass finds the worst loss over all pairs of moments; returns lose neither figure |
| `RateLimiter` | the token bucket, with any number of callers | both directions of the rate envelope |
| `BookWalk` | the greedy walk of the order book | optimal for buyers and sellers; the average never improves with size |
| `AlphaDecay` | the online signal tracker and the offline sort and binary search | both report the same returns |
| `Folds` | walk-forward folds | no leakage, no look-ahead, no gap between test sets |
| `CircuitBreaker` | the shared emergency halt, with any number of instances and a failing store | bounded staleness; a trip halts everyone |
| `Strategies` | mean reversion and momentum | the machines mirror each other; signals alternate, keep their distance and their size |
| `FeatureEngine`, `OrderBook` | rolling features and the order book, each in Python and in C++ | the implementations agree, up to the variance factor that separates them |
| `Correlation` | Pearson correlations and the spread z-score | bounds from the Cauchy-Schwarz inequality |
| `Common`, `Vectors`, `Runs` | shared vocabulary; inner products; runs of a state machine | invariants, conservation and tracking over any run |

Where the code does not do what a reader would expect, it is kept as it is and the difference is stated:

- The live position restarts its entry price at the fill when a fill takes it through zero; the backtest
  keeps or blends the old one. `BacktestLedger.BacktestAgreesIff` says exactly when the two agree and
  `BacktestLedger.CrossingLosesProfit` gives, for every size and pair of prices, a round trip whose whole
  profit the backtest never books.
- The solver's pivot tolerance is absolute, so it also rejects systems with a unique solution: exactly those
  on which elimination meets a pivot other than zero below the tolerance (`LinearSystem.UniqueIsRejectedIff`,
  with the family `LinearSystem.TinyPivotIsRejected`).
- A strategy records the side it is about to signal before it finds that it has no positive price, so the
  next signal may repeat a side (`Strategies.SidesCanRepeat`); `Strategies.SignalsAlternateIff` says exactly
  when it does.
- A breaker instance starts with an untripped answer stamped with time 0, so its first check needs the
  clock to be at 0.5 or later (`CircuitBreaker.FirstCheckNeedsTheClock`).
- Of two trades in one millisecond the online tracker takes the first to arrive, the offline analysis the
  cheaper one (`AlphaDecay.TiesDiffer`); from a negative mid price online has a return and offline has none.
  `AlphaDecay.OnlineEqualsOfflineIff` says exactly when the two agree.
- A rate limiter built with a negative burst size never grants anything (`RateLimiter.NegativeBurstStarves`).
- The fallback to fewer folds can still miss the minimum sizes (`Folds.FallbackCanMissMinimum`);
  `Folds.MinimumsMetIff` says exactly when they are met.
- The Python volatility is documented as a standard deviation of log returns but computed from simple
  returns, with one less than their number as divisor; the C++ one divides by their number
  (`FeatureEngine.ImplementationsAgree`).

## Model

| member | source | states |
|---|---|---|
| `LinearSystem.FindPivot` | services/alpha-engine/alpha_engine_svc/strategies/linear_regression.py:79-83 | the row found has the largest magnitude in its column among all rows from the diagonal down, and is the first such row |
| `LinearSystem.PivotIsLargest` | services/alpha-engine/alpha_engine_svc/strategies/linear_regression.py:79-84 | no candidate row beats the pivot row in magnitude |
| `LinearSystem.SwapKeepsSolutions` | services/alpha-engine/alpha_engine_svc/strategies/linear_regression.py:84 | exchanging two rows keeps the solution set, in both directions |
| `LinearSystem.ReduceKeepsSolutions` | services/alpha-engine/alpha_engine_svc/strategies/linear_regression.py:90-93 | subtracting any multiple of the pivot row keeps the solution set, in both directions |
| `LinearSystem.ReduceClears` | services/alpha-engine/alpha_engine_svc/strategies/linear_regression.py:91-93 | the multiplier used makes the entry below the pivot exactly zero |
| `LinearSystem.ReduceKeepsEchelon` | services/alpha-engine/alpha_engine_svc/strategies/linear_regression.py:90-93 | columns already cleared stay cleared and their pivots stay large enough |
| `LinearSystem.ClearColumn` | services/alpha-engine/alpha_engine_svc/strategies/linear_regression.py:90-93 | the inner loops zero a whole column below its pivot without changing the solution set |
| `LinearSystem.ForwardIsEchelon` | services/alpha-engine/alpha_engine_svc/strategies/linear_regression.py:78-93 | accepted elimination ends in an upper triangular matrix with every pivot at or above the tolerance |
| `LinearSystem.ForwardKeepsSolutions` | services/alpha-engine/alpha_engine_svc/strategies/linear_regression.py:78-93 | x solves the original augmented system if and only if it solves the triangular one |
| `LinearSystem.MultipliersAtMostOne` | services/alpha-engine/alpha_engine_svc/strategies/linear_regression.py:79-93 | every multiplier used in the whole elimination is at most one in magnitude |
| `LinearSystem.EliminateRow` | services/alpha-engine/alpha_engine_svc/strategies/linear_regression.py:91-93 | the in-place loop over the row reduces that row and touches nothing else |
| `LinearSystem.EliminateColumn` | services/alpha-engine/alpha_engine_svc/strategies/linear_regression.py:79-93 | one outer round pivots and clears the column, or stops exactly when the largest candidate is below the tolerance |
| `LinearSystem.ForwardEliminate` | services/alpha-engine/alpha_engine_svc/strategies/linear_regression.py:78-93 | the triple loop computes the elimination, and fails exactly when some pivot is too small |
| `LinearSystem.SolveRow` | services/alpha-engine/alpha_engine_svc/strategies/linear_regression.py:98-101 | the value stored satisfies its row's equation given the entries right of it; no other entry changes |
| `LinearSystem.BackSubstitute` | services/alpha-engine/alpha_engine_svc/strategies/linear_regression.py:95-103 | the vector returned satisfies every equation of the triangular system |
| `LinearSystem.TriangularUnique` | services/alpha-engine/alpha_engine_svc/strategies/linear_regression.py:95-101 | a triangular system with non-zero pivots has at most one solution |
| `LinearSystem.AcceptedIsUnique` | services/alpha-engine/alpha_engine_svc/strategies/linear_regression.py:72-103 | a system the elimination accepts has at most one solution, so a singular one is never accepted |
| `LinearSystem.KernelVector` | services/alpha-engine/alpha_engine_svc/strategies/linear_regression.py:79-87 | where the largest candidate pivot is zero, some non-zero vector is sent to zero by every row |
| `LinearSystem.NoPivotIsSingular` | services/alpha-engine/alpha_engine_svc/strategies/linear_regression.py:79-87 | so no solution of the system at that point is its only one |
| `LinearSystem.ZeroPivotIsSingular` | services/alpha-engine/alpha_engine_svc/strategies/linear_regression.py:79-87 | on a system with exactly one solution elimination never meets a zero pivot |
| `LinearSystem.RejectedAt` | services/alpha-engine/alpha_engine_svc/strategies/linear_regression.py:86-87 | a rejection is due to the first column whose pivot is below the tolerance |
| `LinearSystem.UniqueIsRejectedIff` | services/alpha-engine/alpha_engine_svc/strategies/linear_regression.py:72-103 | a system with exactly one solution is rejected if and only if elimination meets a pivot that is not zero but below the tolerance |
| `LinearSystem.TriangularSolution` | services/alpha-engine/alpha_engine_svc/strategies/linear_regression.py:95-101 | every triangular system elimination ends in has a solution |
| `LinearSystem.AcceptedIff` | services/alpha-engine/alpha_engine_svc/strategies/linear_regression.py:72-103 | elimination accepts exactly the systems with one solution on which no non-zero pivot is too small |
| `LinearSystem.TinyPivotIsRejected` | services/alpha-engine/alpha_engine_svc/strategies/linear_regression.py:86-87 | every equation p x = b with p not zero but below the tolerance has exactly one solution and is rejected |
| `LinearSystem.SolveLinearSystem` | services/alpha-engine/alpha_engine_svc/strategies/linear_regression.py:72-103 | an answer x satisfies A x = b and is the only vector that does; there is none exactly when a pivot below the tolerance is met; the arguments are not written to |
| `LeastSquares.Adjoint` | services/alpha-engine/alpha_engine_svc/strategies/linear_regression.py:51-62 | summing products by columns or by rows gives the same number, for any weights |
| `LeastSquares.AddOuterProduct` | services/alpha-engine/alpha_engine_svc/strategies/linear_regression.py:53-56 | one row of data adds its outer product to the matrix in place |
| `LeastSquares.BuildGram` | services/alpha-engine/alpha_engine_svc/strategies/linear_regression.py:51-56 | the loops build the matrix of inner products of all pairs of columns |
| `LeastSquares.BuildMoment` | services/alpha-engine/alpha_engine_svc/strategies/linear_regression.py:58-62 | the loops build the inner product of every column with the targets |
| `LeastSquares.InterceptIsLastCoefficient` | services/alpha-engine/alpha_engine_svc/strategies/linear_regression.py:47-49 | regressing on the table with a column of ones is regressing with an intercept: the residuals are the same |
| `LeastSquares.Orthogonal` | services/alpha-engine/alpha_engine_svc/strategies/linear_regression.py:51-65 | a solution of the normal equations leaves residuals orthogonal to every column |
| `LeastSquares.Pythagoras` | services/alpha-engine/alpha_engine_svc/strategies/linear_regression.py:51-65 | any other coefficients add exactly the squared length of the change in fitted values to the error |
| `LeastSquares.NormalEquationsMinimise` | services/alpha-engine/alpha_engine_svc/strategies/linear_regression.py:51-65 | no coefficients do better, and any that do as well solve the normal equations too |
| `LeastSquares.NormalEquationsFit` | services/alpha-engine/alpha_engine_svc/strategies/linear_regression.py:33-69 | coefficients and intercept split off such a solution are a least-squares fit whose residuals sum to zero |
| `LeastSquares.OnlySolutionIsUniqueBest` | services/alpha-engine/alpha_engine_svc/strategies/linear_regression.py:64-69 | when the normal equations have one solution, every other fit is strictly worse |
| `LeastSquares.SolveNormalEquations` | services/alpha-engine/alpha_engine_svc/strategies/linear_regression.py:51-67 | an answer is the only solution of the normal equations; there is none exactly when elimination rejects them |
| `LeastSquares.OlsFit` | services/alpha-engine/alpha_engine_svc/strategies/linear_regression.py:33-69 | a non-empty fit minimises the squared error over all coefficients and intercepts, uniquely, with residuals orthogonal to every feature and summing to zero; otherwise the fit is empty |
| `LeastSquares.ComputeResiduals` | services/alpha-engine/alpha_engine_svc/strategies/linear_regression.py:178-182 | the loop yields target minus prediction for every row, in order |
| `LeastSquares.Variance` | services/alpha-engine/alpha_engine_svc/strategies/linear_regression.py:188-189 | for residuals summing to zero the recorded variance is their mean square |
| `LeastSquares.ZeroIffPerfect` | services/alpha-engine/alpha_engine_svc/strategies/linear_regression.py:192 | the least error is zero exactly when some line fits the data perfectly |
| `LeastSquares.FitHistory` | services/alpha-engine/alpha_engine_svc/strategies/linear_regression.py:166-192 | a model is produced exactly when there is enough history, a feature, an accepted system and no perfect fit; it is the unique best model and its residuals average to zero |
| `LeastSquares.RollingRegression.FitModel` | services/alpha-engine/alpha_engine_svc/strategies/linear_regression.py:166-197 | a refit installs the best model and resets the counter, or leaves model, flag and counter untouched |
| `Ledger.ExtendCost` | services/post-trade/post_trade_svc/pnl.py:33-39 | adding to a position adds exactly the cash of the fill to its cost at entry |
| `Ledger.ApplyMovesCash` | services/post-trade/post_trade_svc/pnl.py:25-55 | any fill (open, add, reduce, close, flip) moves cost at entry less realized profit by the cash it moves |
| `Ledger.BookIsCashLedger` | services/post-trade/post_trade_svc/pnl.py:25-55 | after any fill sequence the books equal a plain cash ledger in cost, quantity and fees |
| `Ledger.ProfitOfHolding` | services/post-trade/post_trade_svc/pnl.py:57-64 | realized plus unrealized profit is the marked position less its cost basis, long, short or flat |
| `Ledger.ProfitIsMarkLessCash` | services/post-trade/post_trade_svc/pnl.py:25-64 | for every fill sequence and price, realized + unrealized = quantity * price - sum of signed quantity * fill price |
| `Ledger.FirstEntry` | services/post-trade/post_trade_svc/pnl.py:34-38 | a position opened from flat has the fill price as its entry price, whatever entry price was left behind |
| `Ledger.EntryIsMean` | services/post-trade/post_trade_svc/pnl.py:35-38 | adding to a position averages the old entry and the fill price by size |
| `Ledger.ApplyKeepsEntryWithin` | services/post-trade/post_trade_svc/pnl.py:33-53 | a fill priced within bounds keeps the entry price of an open position within them |
| `Ledger.EntryWithinTradedRange` | services/post-trade/post_trade_svc/pnl.py:33-53 | the entry price of an open position never leaves the range of prices traded at |
| `Ledger.Position.constructor` | services/post-trade/post_trade_svc/pnl.py:15-23 | a new position is flat, with nothing realized and no fees |
| `Ledger.Position.Extend` | services/post-trade/post_trade_svc/pnl.py:33-39 | the branch that opens or adds updates the object as the ledger step does |
| `Ledger.Position.ApplyFill` | services/post-trade/post_trade_svc/pnl.py:25-55 | the object's new fields are the ledger step of the old ones and the profit returned is the one booked |
| `Portfolio.FillMovesSum` | services/post-trade/post_trade_svc/pnl.py:73-87 | a fill moves any sum over positions by its effect on the one position of its symbol, created or not |
| `Portfolio.StepMovesTotals` | services/post-trade/post_trade_svc/state.py:86-96 | one event moves the total cost basis by its cash and the total fees by its fee |
| `Portfolio.TotalsAreConserved` | services/post-trade/post_trade_svc/state.py:86-140 | after any run over any symbols the totals are those of the fills |
| `Portfolio.PositionIsNetOfItsFills` | services/post-trade/post_trade_svc/state.py:90-96 | each symbol's quantity is the net of its own fills, whatever happens in other symbols |
| `Portfolio.PricesTrack` | services/post-trade/post_trade_svc/state.py:164-167 | the price used for a symbol is the latest one received, if any |
| `Portfolio.EquityIsCashLedger` | services/post-trade/post_trade_svc/state.py:171-178 | after any run, equity = initial - fees - net cash spent + positions marked at latest price, else at entry |
| `Portfolio.StepKeepsCounters` | services/post-trade/post_trade_svc/state.py:98-104 | every event keeps gross profit less gross loss equal to total realized profit |
| `Portfolio.StepKeepsPeak` | services/post-trade/post_trade_svc/state.py:132-134 | every event keeps the peak the maximum of the initial equity and all snapshots |
| `Portfolio.CountersAndPeak` | services/post-trade/post_trade_svc/state.py:86-140 | both hold after any run; wins never outnumber fills and there is one snapshot a fill |
| `Portfolio.SnapshotIsEquity` | services/post-trade/post_trade_svc/state.py:121-130 | the point a fill records is the equity right after that fill |
| `Portfolio.ReturnsFollowCurve` | services/post-trade/post_trade_svc/state.py:136-140 | while equity stays positive the returns recorded fill by fill are the period returns of the equity curve |
| `Portfolio.RecordedReturnsCompound` | services/post-trade/post_trade_svc/state.py:121-140 | and compound to the growth of equity from the first snapshot to the last |
| `Portfolio.PostTradeState.constructor` | services/post-trade/post_trade_svc/state.py:60-81 | the state starts empty with the initial equity as its peak |
| `Portfolio.PostTradeState.Create` | services/post-trade/post_trade_svc/pnl.py:74-75 | an unknown symbol gets a fresh flat position at the end of the order |
| `Portfolio.PostTradeState.GetOrCreate` | services/post-trade/post_trade_svc/pnl.py:73-76 | the position of the symbol is returned, every other one is untouched, and no two symbols share an object |
| `Portfolio.PostTradeState.ApplyTo` | services/post-trade/post_trade_svc/state.py:91-96 | mutating one position object changes that symbol's entry of the books alone |
| `Portfolio.PostTradeState.BookFill` | services/post-trade/post_trade_svc/state.py:90-96 | the fill is booked in its symbol's position and its profit returned |
| `Portfolio.PostTradeState.Count` | services/post-trade/post_trade_svc/state.py:98-104 | wins, gross profit and gross loss take in the realized profit by its sign |
| `Portfolio.PostTradeState.Record` | services/post-trade/post_trade_svc/state.py:121-140 | a snapshot is appended, the peak raised if exceeded, and a return recorded against a positive previous equity |
| `Portfolio.PostTradeState.ProcessFill` | services/post-trade/post_trade_svc/state.py:86-140 | the mutable state after a fill is the state machine's step |
| `Portfolio.PostTradeState.UpdatePrice` | services/post-trade/post_trade_svc/state.py:164-167 | only the latest price of the symbol changes |
| `BacktestLedger.ProfitsAgree` | services/backtest/backtest_svc/evaluator.py:124-130 | from agreeing ledgers the backtest's gross profit on a fill is the live position's |
| `BacktestLedger.EntriesAgreeUnlessCrossing` | services/backtest/backtest_svc/evaluator.py:132-142 | a fill that does not cross zero leaves both ledgers at the same entry price |
| `BacktestLedger.EntriesAgreeCrossing` | services/backtest/backtest_svc/evaluator.py:134-141 | through zero the live entry is the fill price, and the backtest's is only if that was the entry already |
| `BacktestLedger.StepAgreesIffFaithful` | services/backtest/backtest_svc/evaluator.py:117-142 | one fill keeps the ledgers in agreement exactly when it does not cross zero off the entry price |
| `BacktestLedger.FaithfulAgrees` | services/backtest/backtest_svc/evaluator.py:117-142 | then position, entry price unless flat, and realized profit plus deducted costs agree after every prefix |
| `BacktestLedger.BacktestAgreesIff` | services/backtest/backtest_svc/evaluator.py:117-142 | the ledgers agree throughout a fill sequence if and only if every fill that crosses zero is at the entry price |
| `BacktestLedger.CrossingLosesProfit` | services/backtest/backtest_svc/evaluator.py:134-141 | buy, sell twice as much, buy back: the live position realizes the whole profit, the backtest none |
| `BacktestLedger.PerSymbolOmitsSlippage` | services/backtest/backtest_svc/backtest_analysis.py:324-364 | the per-symbol analysis keeps the same position, entry price, fees and profit, except that it does not deduct slippage |
| `BacktestLedger.WinsAreRises` | services/backtest/backtest_svc/backtest_analysis.py:341-351 | where no fee is negative, the fills counted as wins are exactly those that raise the realized profit |
| `BacktestLedger.WinRaises` | services/backtest/backtest_svc/backtest_analysis.py:341-351 | a win raises the realized profit whatever its fee; without a win only a negative fee does |
| `BacktestLedger.ComputeSymbolBooks` | services/backtest/backtest_svc/backtest_analysis.py:324-364 | the loop keeps the per-symbol books and the count of wins |
| `BacktestLedger.RealizeFill` | services/backtest/backtest_svc/evaluator.py:124-127 | the branch that closes computes the gross profit of the fill, zero otherwise |
| `BacktestLedger.UpdateEntry` | services/backtest/backtest_svc/evaluator.py:132-141 | the branches on growing, closing and shrinking compute the next entry price |
| `BacktestLedger.AccountFill` | services/backtest/backtest_svc/evaluator.py:117-142 | one round of the loop extends the accounting from i fills to i + 1 |
| `BacktestLedger.UpdateDrawdown` | services/backtest/backtest_svc/evaluator.py:144-150 | the running peak and worst decline take in the new equity, and a non-positive peak counts no loss |
| `BacktestLedger.ExtendCurve` | services/backtest/backtest_svc/evaluator.py:144-150 | what one more fill does to the equity curve, its peak and its worst decline |
| `BacktestLedger.ComputeMetricsFromFills` | services/backtest/backtest_svc/evaluator.py:117-150 | the loop returns the accounting of all fills and the worst decline of the whole equity curve, and a return that rebuilds the realized profit |
| `BacktestLedger.TotalReturn` | services/backtest/backtest_svc/evaluator.py:178 | times the initial equity the return is the gain; it is zero without positive initial equity |
| `Drawdown.WorstDeclineIsMaxDrawdown` | services/post-trade/post_trade_svc/metrics.py:68-83 | on a positive curve the single pass finds the maximum of (e_i - e_j) / e_i over all i <= j |
| `Drawdown.UnderwaterSincePeak` | services/post-trade/post_trade_svc/metrics.py:74-81 | the duration counted is the number of periods since the running peak, below it ever since |
| `Drawdown.DrawdownIsUnitFree` | services/backtest/backtest_svc/monte_carlo.py:97-110 | converting a curve by any map that keeps order and declines keeps its worst decline |
| `Drawdown.CompoundReturns` | services/backtest/backtest_svc/monte_carlo.py:71-78 | compounding the first k returns and scaling by the first value gives back value k |
| `Drawdown.ReturnsKeepDrawdown` | services/backtest/backtest_svc/monte_carlo.py:97-110 | the drawdown rebuilt from the returns of a curve is the drawdown of the curve |
| `Drawdown.ReturnsKeepTotal` | services/backtest/backtest_svc/monte_carlo.py:113-120 | the total return rebuilt from the returns of a curve is last over first less one |
| `Drawdown.ComputeMaxDrawdown` | services/post-trade/post_trade_svc/metrics.py:60-83 | worst decline and longest time under water of any curve; it fails exactly when the curve falls below a zero peak, never on a positive curve |
| `Drawdown.MaxDrawdownFromReturns` | services/backtest/backtest_svc/monte_carlo.py:97-110 | the loop finds the worst decline of the unit-start curve the returns imply |
| `Drawdown.TotalReturnFromReturns` | services/backtest/backtest_svc/monte_carlo.py:113-120 | the loop compounds the returns |
| `RateLimiter.BurstSize` | lib/quant_core/rate_limiter.py:26 | the bucket cannot hold a token exactly when a negative burst size was given |
| `RateLimiter.LevelWithinRoom` | lib/quant_core/rate_limiter.py:37-40 | an attempt never finds more than any window ending with it has left of burst plus rate times length |
| `RateLimiter.LevelIsSomeRoom` | lib/quant_core/rate_limiter.py:52-58 | and finds exactly what one such window, the one since the bucket was last full, has left |
| `RateLimiter.GrantedIffAdmissible` | lib/quant_core/rate_limiter.py:37-41 | an attempt gets a token if and only if granting it keeps every window ending now within the envelope |
| `RateLimiter.EnvelopeOfAttempts` | lib/quant_core/rate_limiter.py:37-58 | between any two attempts at most burst plus rate times elapsed time are granted |
| `RateLimiter.RateEnvelope` | lib/quant_core/rate_limiter.py:32-58 | so too in any stretch of time, wherever it starts and ends |
| `RateLimiter.WaitingEarnsAToken` | lib/quant_core/rate_limiter.py:44-50 | an attempt made a full wait after the previous one always finds a token |
| `RateLimiter.NegativeBurstStarves` | lib/quant_core/rate_limiter.py:26 | a bucket without room for a token, as a negative burst size makes it, never grants an attempt |
| `RateLimiter.NextKeepsConsistent` | lib/quant_core/rate_limiter.py:32-58 | any step of any caller keeps the bucket what its attempts made it, the grants counted, and refusals past their deadline |
| `RateLimiter.EveryInterleavingIsLimited` | lib/quant_core/rate_limiter.py:32-58 | every interleaving of any number of callers keeps the envelope over every stretch of time |
| `RateLimiter.OneMoreAttempt` | lib/quant_core/rate_limiter.py:37-41 | one more attempt extends the bucket and the grant count of the run by exactly its own |
| `RateLimiter.FromContinues` | lib/quant_core/rate_limiter.py:36-50 | what one caller does to the bucket continues the run all callers share |
| `RateLimiter.RefillFinds` | lib/quant_core/rate_limiter.py:52-58 | a bucket that can hold a token has one once a full wait has passed since its last refill |
| `RateLimiter.SleepProgress` | lib/quant_core/rate_limiter.py:44-50 | every sleep uses up a full wait or the rest of the time to the deadline, so the loop ends |
| `RateLimiter.TokenBucket.constructor` | lib/quant_core/rate_limiter.py:20-30 | the bucket starts full at the time of construction |
| `RateLimiter.TokenBucket.Refill` | lib/quant_core/rate_limiter.py:52-58 | elapsed time is turned into tokens up to the capacity |
| `RateLimiter.TokenBucket.TryTake` | lib/quant_core/rate_limiter.py:37-41 | the locked section is one attempt, granted exactly when the refilled bucket holds a token |
| `RateLimiter.TokenBucket.WaitOrGiveUp` | lib/quant_core/rate_limiter.py:43-50 | the caller gives up exactly past its deadline, else sleeps and is counted as waiting |
| `RateLimiter.TokenBucket.Others` | lib/quant_core/rate_limiter.py:37-41 | what other callers do in between only adds their attempts to the run |
| `RateLimiter.TokenBucket.Pass` | lib/quant_core/rate_limiter.py:37-41 | one pass of the caller is one attempt, and on an undisturbed bucket finds a token after a full wait |
| `RateLimiter.TokenBucket.Acquire` | lib/quant_core/rate_limiter.py:32-50 | the wait loop, with any number of passes of other callers between its own: it succeeds exactly when its last pass finds a token, counts its waits, and refuses no earlier than the timeout; left alone with a usable bucket it ends within two passes |
| `BookWalk.GreedyIsFeasible` | services/execution/execution_svc/fill_simulator.py:107-117 | the walk takes between nothing and its size from each level, fills at most the quantity, and costs what it reports |
| `BookWalk.GreedySlope` | services/execution/execution_svc/fill_simulator.py:110-115 | filling more costs at least the best price for each extra unit |
| `BookWalk.GreedyIsCheapest` | services/execution/execution_svc/fill_simulator.py:110-115 | no way to take the same quantity from an ascending book is cheaper, for any additive and monotone price of amounts |
| `BookWalk.BuyerPaysLeast` | services/execution/execution_svc/fill_simulator.py:92-121 | the cost of the walk is the minimum over all feasible ways to fill what it fills, and is attained |
| `BookWalk.SellerReceivesMost` | services/execution/execution_svc/fill_simulator.py:92-121 | on a descending book the proceeds are the maximum |
| `BookWalk.MarginalPrice` | services/execution/execution_svc/fill_simulator.py:110-115 | there is a price no lower than the average so far and no higher than any further unit |
| `BookWalk.AverageAtLeast` | services/execution/execution_svc/fill_simulator.py:117-121 | the returned price is at least any lower bound on the book's prices |
| `BookWalk.AverageNeverImproves` | services/execution/execution_svc/fill_simulator.py:92-121 | for a buyer the returned price never falls as the quantity grows |
| `BookWalk.SellerAverageNeverImproves` | services/execution/execution_svc/fill_simulator.py:92-121 | for a seller it never rises |
| `BookWalk.AverageBetweenBestAndWorst` | services/execution/execution_svc/fill_simulator.py:92-121 | the returned price lies between the best and the worst level, for either side |
| `BookWalk.MirrorWalk` | services/execution/execution_svc/fill_simulator.py:98-100 | negating the prices negates the cost and keeps the fill: selling is buying in the mirror |
| `BookWalk.MirrorAverage` | services/execution/execution_svc/fill_simulator.py:98-100 | and negates the returned price |
| `BookWalk.WalkTheBook` | cpp/src/matching_engine.cpp:41-61 | the loop with its early exit returns the average price of the greedy walk (the Python loop is the same) |
| `AlphaDecay.InsertSorts` | services/backtest/backtest_svc/backtest_analysis.py:128-129 | insertion into a sorted timeline keeps it sorted and adds one tick |
| `AlphaDecay.SortSorts` | services/backtest/backtest_svc/backtest_analysis.py:128-129 | the timeline searched is a sorted permutation of the ticks |
| `AlphaDecay.SortKeepsSorted` | services/backtest/backtest_svc/backtest_analysis.py:128-129 | sorting ticks already in order changes nothing |
| `AlphaDecay.FirstPriceIs` | services/backtest/backtest_svc/backtest_analysis.py:221-228 | the index with only earlier ticks before it gives the first price at or after the target |
| `AlphaDecay.FindPriceAt` | services/backtest/backtest_svc/backtest_analysis.py:212-228 | binary search finds the first price at or after the target, or None when there is none |
| `AlphaDecay.ReturnAtHorizon` | services/backtest/backtest_svc/backtest_analysis.py:136-143 | the offline return of a signal at one horizon |
| `AlphaDecay.HorizonReturns` | services/backtest/backtest_svc/backtest_analysis.py:133-144 | the loop fills exactly the configured horizons, each with its offline return |
| `AlphaDecay.WatchFindsFirst` | services/post-trade/post_trade_svc/alpha_decay.py:148-153 | a watched signal keeps, at each horizon, the return of the first qualifying trade to arrive |
| `AlphaDecay.HeldUntilEvicted` | services/post-trade/post_trade_svc/alpha_decay.py:108-136 | a signal is held at its place until as many later ones arrive as the tracker retains, unaffected by other signals |
| `AlphaDecay.WatchIsOffline` | services/backtest/backtest_svc/backtest_analysis.py:120-144 | watching trades as they come finds what sorting and searching all of them finds |
| `AlphaDecay.Least` | services/backtest/backtest_svc/backtest_analysis.py:129 | the least qualifying tick by time, then by price, among ticks in any order |
| `AlphaDecay.SortFindsLeast` | services/backtest/backtest_svc/backtest_analysis.py:128-139 | sorting and searching finds the least qualifying tick, in whatever order the ticks arrived |
| `AlphaDecay.OnlineEqualsOfflineIff` | services/post-trade/post_trade_svc/alpha_decay.py:115-153 | for any signal held, any stream and any mid price: the tracker reports the offline return if and only if the first qualifying price to arrive is that of the least qualifying trade (positive mid), always (zero mid), or nothing has qualified (negative mid) |
| `AlphaDecay.OnlineEqualsOffline` | services/post-trade/post_trade_svc/alpha_decay.py:115-153 | with a symbol's trades in order, a non-negative mid price, and a signal recorded in time and not evicted, the tracker's return at each horizon is the offline one |
| `AlphaDecay.IncreasingTradesAgree` | services/post-trade/post_trade_svc/alpha_decay.py:115-153 | in particular when a symbol's time stamps strictly increase |
| `AlphaDecay.TiesDiffer` | services/backtest/backtest_svc/backtest_analysis.py:129 | of two trades in one millisecond online reports the first to arrive and offline the cheaper, so they agree exactly when the first is not dearer |
| `AlphaDecay.ReturnsDiffer` | services/post-trade/post_trade_svc/alpha_decay.py:152 | different prices mean different returns |
| `AlphaDecay.AlphaDecayTracker.constructor` | services/post-trade/post_trade_svc/alpha_decay.py:101-109 | a new tracker holds nothing |
| `AlphaDecay.AlphaDecayTracker.RecordSignal` | services/post-trade/post_trade_svc/alpha_decay.py:115-136 | the signal is appended with every horizon pending, the oldest dropped beyond capacity |
| `AlphaDecay.AlphaDecayTracker.Settle` | services/post-trade/post_trade_svc/alpha_decay.py:148-153 | the loop fills exactly the pending horizons the trade has reached |
| `AlphaDecay.AlphaDecayTracker.OnTrade` | services/post-trade/post_trade_svc/alpha_decay.py:138-153 | every held signal observes the trade; skipping complete, other-symbol and zero-mid signals loses nothing |
| `Folds.RollingDoesNotLeak` | services/backtest/backtest_svc/walk_forward.py:107-137 | no index is used by two rolling folds, so no test trade is trained on in any fold |
| `Folds.ExpandingDoesNotLookAhead` | services/backtest/backtest_svc/walk_forward.py:139-159 | no fold up to and including its own trains on an expanding test trade, and test sets are disjoint |
| `Folds.GrowingTestsAll` | services/backtest/backtest_svc/walk_forward.py:150-159 | expanding test sets leave no gap: every trade from the first test set on is in one |
| `Folds.PartsFitChunk` | services/backtest/backtest_svc/walk_forward.py:109-111 | the truncated train and test sizes are non-negative and all folds together fit into the data |
| `Folds.StepCoversFold` | services/backtest/backtest_svc/walk_forward.py:125 | with two splits or more a step is at least as wide as a fold |
| `Folds.StartsAdvance` | services/backtest/backtest_svc/walk_forward.py:127-132 | truncated starts of different folds are at least a fold apart |
| `Folds.StartsFit` | services/backtest/backtest_svc/walk_forward.py:127-132 | every fold starts at or after zero and ends within the data |
| `Folds.EndsMeet` | services/backtest/backtest_svc/walk_forward.py:125-128 | the first fold starts with the data and the last one ends with it |
| `Folds.RollingFoldsAreSound` | services/backtest/backtest_svc/walk_forward.py:125-137 | folds of sizes that fit are one a split, in order, inside the data, disjoint, and span it |
| `Folds.RollingFolds` | services/backtest/backtest_svc/walk_forward.py:125-137 | the loop yields the folds at the computed places up to the first one with nothing to test, for any sizes |
| `Folds.TestStartsReachEnd` | services/backtest/backtest_svc/walk_forward.py:141-152 | after the configured number of expanding folds the data is used up |
| `Folds.ExpandingFolds` | services/backtest/backtest_svc/walk_forward.py:139-159 | folds adjoin, start at the initial training size and end with the data; there are any exactly when the minimum training size leaves something to test |
| `Folds.SplitsUsed` | services/backtest/backtest_svc/walk_forward.py:113-123 | with or without the fallback at least one split is left |
| `Folds.ProperShareDivides` | services/backtest/backtest_svc/walk_forward.py:109-123 | with a training share within [0, 1] no division by zero happens unless there are no splits |
| `Folds.PlanSplits` | services/backtest/backtest_svc/walk_forward.py:107-123 | the split count with the fallback, failing exactly on a division by zero |
| `Folds.PartReachesIff` | services/backtest/backtest_svc/walk_forward.py:110-111 | a truncated share of a chunk reaches a minimum exactly when the share of all data reaches that minimum once for every chunk |
| `Folds.MinimumsMetIff` | services/backtest/backtest_svc/walk_forward.py:107-123 | rolling folds, after the fallback or without it, meet the minimum train size if and only if n * share >= minimum * splits, and the minimum test size if and only if n * (1 - share) >= minimum * splits |
| `Folds.TooFewTradesMissMinimum` | services/backtest/backtest_svc/walk_forward.py:113-123 | when the share of all trades is below a minimum, no fallback helps |
| `Folds.FallbackCanMissMinimum` | services/backtest/backtest_svc/walk_forward.py:113-123 | with as many trades as the two minimums together the fallback can still leave a train size below its minimum |
| `Folds.OverfullShareIsEmpty` | services/backtest/backtest_svc/walk_forward.py:127-135 | a training share above 1 yields no folds |
| `Folds.NegativeTrainSizeIsUnsound` | services/backtest/backtest_svc/walk_forward.py:127-137 | a negative training share that truncates to a negative size yields folds that stop training before they start |
| `Folds.GenerateFolds` | services/backtest/backtest_svc/walk_forward.py:92-161 | for a training share within [0, 1] every fold lies inside the data and trains right before it tests, rolling folds share no index, also after the fallback, and only zero rolling splits fail; for any other share which folds come out, and when the call fails, is stated too |
| `CircuitBreaker.NextKeepsCacheTrue` | lib/quant_core/circuit_breaker.py:48-92 | every call keeps each cached "not tripped" either the default or true of the store at its time stamp |
| `CircuitBreaker.CacheStaysTrue` | lib/quant_core/circuit_breaker.py:40-92 | so does every run of any instances |
| `CircuitBreaker.BoundedStaleness` | lib/quant_core/circuit_breaker.py:40-92 | if any instance answers "not tripped" at time t the key was absent at some moment in (t - 0.5, t], whatever the others did and however often the store failed |
| `CircuitBreaker.KeyStaysSet` | lib/quant_core/circuit_breaker.py:78-89 | after a successful trip the key stays set until a successful reset |
| `CircuitBreaker.TripHaltsEveryone` | lib/quant_core/circuit_breaker.py:48-85 | half a second after a trip every instance answers "tripped" until somebody resets |
| `CircuitBreaker.TripperKnowsAtOnce` | lib/quant_core/circuit_breaker.py:78-80 | the instance that tripped keeps both the key and its own answer set |
| `CircuitBreaker.TripperAnswersTripped` | lib/quant_core/circuit_breaker.py:53-80 | and answers "tripped" without delay |
| `CircuitBreaker.FirstCheckNeedsTheClock` | lib/quant_core/circuit_breaker.py:45-55 | a new instance sees a set key on its first check exactly when the clock has reached the interval |
| `CircuitBreaker.Breaker.constructor` | lib/quant_core/circuit_breaker.py:40-46 | an instance starts untripped with time stamp 0 |
| `CircuitBreaker.Breaker.CheckTripped` | lib/quant_core/circuit_breaker.py:48-66 | the answer is the fresh cache or the store's; with the store down only a fresh cached answer can be "not tripped" |
| `CircuitBreaker.Breaker.TripBreaker` | lib/quant_core/circuit_breaker.py:68-85 | the key and the cache are set together, or neither when the store fails |
| `CircuitBreaker.Breaker.ResetBreaker` | lib/quant_core/circuit_breaker.py:87-92 | the key and the cache are cleared together, or neither when the store fails |
| `Strategies.SidesMirrorIff` | services/alpha-engine/alpha_engine_svc/strategies/momentum.py:98-103 | the two side rules are opposite for a z-score exactly unless a negative threshold makes their branches overlap |
| `Strategies.OnMirrors` | services/alpha-engine/alpha_engine_svc/strategies/momentum.py:71-168 | from mirrored states one event keeps the machines mirrored and their signals opposite and otherwise equal |
| `Strategies.StatesMirror` | services/alpha-engine/alpha_engine_svc/strategies/mean_reversion.py:77-189 | the machines are mirrored after every stream |
| `Strategies.MachinesMirror` | services/alpha-engine/alpha_engine_svc/strategies/momentum.py:71-168 | they signal at exactly the same events, on opposite sides, with equal quantity, strength, urgency and price |
| `Strategies.FailsIff` | services/alpha-engine/alpha_engine_svc/strategies/mean_reversion.py:105-113 | a trade divides by zero exactly when the threshold is zero and a ready machine sees a z-score that is not |
| `Strategies.OnAny` | services/alpha-engine/alpha_engine_svc/strategies/mean_reversion.py:77-161 | on any event and state: a signal takes a new side past warm-up and cool-down, a swallowed side changes the memory without a signal, nothing else does |
| `Strategies.OnPositive` | services/alpha-engine/alpha_engine_svc/strategies/mean_reversion.py:77-161 | on positive prices nothing is swallowed and an event signals exactly when it changes the last side |
| `Strategies.CountsTrack` | services/alpha-engine/alpha_engine_svc/strategies/mean_reversion.py:78-79 | the trade counter counts the trades of any stream |
| `Strategies.MemoryTracks` | services/alpha-engine/alpha_engine_svc/strategies/mean_reversion.py:118-123 | between signals the machine remembers the side of the last one, turned over by every side swallowed since |
| `Strategies.SignalsAlternateIff` | services/alpha-engine/alpha_engine_svc/strategies/mean_reversion.py:118-146 | on every stream consecutive signals are at least the cool-down apart, and on opposite sides if and only if an even number of sides was taken between them without a positive price |
| `Strategies.SidesCanRepeat` | services/alpha-engine/alpha_engine_svc/strategies/mean_reversion.py:118-146 | trades at 20, 0 and 20 around a VWAP of 10 signal a sell, nothing and a sell |
| `Strategies.PositiveSwallowsNothing` | services/alpha-engine/alpha_engine_svc/strategies/mean_reversion.py:129-146 | on positive streams no side is taken without a signal |
| `Strategies.SignalsAlternate` | services/alpha-engine/alpha_engine_svc/strategies/mean_reversion.py:69-161 | on positive streams consecutive signals are on opposite sides and at least the cool-down apart in trades |
| `Strategies.NoEarlySignal` | services/alpha-engine/alpha_engine_svc/strategies/mean_reversion.py:88-92 | on every stream no signal comes before the warm-up, nor before a full cool-down from the start |
| `Strategies.NotionalWithinBounds` | services/alpha-engine/alpha_engine_svc/strategies/mean_reversion.py:129-146 | the notional of the computed size lies between the bounds, whatever volatility and target risk |
| `Strategies.OnSignal` | services/alpha-engine/alpha_engine_svc/strategies/mean_reversion.py:129-164 | what an emitted signal carries, and that its price is positive |
| `Strategies.SignalNotionalWithinBounds` | services/alpha-engine/alpha_engine_svc/strategies/mean_reversion.py:129-164 | every signal emitted on any stream has quantity * price between the bounds |
| `Strategies.RiskIsConstant` | services/alpha-engine/alpha_engine_svc/strategies/mean_reversion.py:125-139 | unless a notional bound intervenes, quantity * price * holding-period volatility is the target risk, whatever the asset |
| `Strategies.FadesTheBand` | services/alpha-engine/alpha_engine_svc/strategies/mean_reversion.py:99-113 | mean reversion buys exactly below, and sells exactly above, the band of threshold volatilities around VWAP |
| `Strategies.StrengthFollowsUrgency` | services/alpha-engine/alpha_engine_svc/strategies/mean_reversion.py:148-153 | urgency is positive exactly beyond the threshold and 1 exactly from twice the threshold on; strength is the mean of urgency and 1 |
| `Strategies.NonPositivePriceSwallows` | services/alpha-engine/alpha_engine_svc/strategies/mean_reversion.py:122-146 | without a positive price nothing is signalled although a new side is remembered |
| `Strategies.HighestOf` | services/alpha-engine/alpha_engine_svc/strategies/mean_reversion.py:178 | one of the bid prices, and none is higher |
| `Strategies.LowestOf` | services/alpha-engine/alpha_engine_svc/strategies/mean_reversion.py:179 | one of the ask prices, and none is lower |
| `Strategies.Size` | services/alpha-engine/alpha_engine_svc/strategies/mean_reversion.py:129-146 | a quantity exists exactly for a positive price |
| `Strategies.Emit` | services/alpha-engine/alpha_engine_svc/strategies/mean_reversion.py:125-164 | a side that has been taken becomes a signal unless there is no positive price |
| `Strategies.MeanReversionStrategy.constructor` | services/alpha-engine/alpha_engine_svc/strategies/mean_reversion.py:61-67 | the machine starts with nothing counted and no side taken |
| `Strategies.MeanReversionStrategy.HandleTrade` | services/alpha-engine/alpha_engine_svc/strategies/mean_reversion.py:77-172 | the mutable machine does what the fading machine does on a trade, failing where it divides by a zero threshold |
| `Strategies.MeanReversionStrategy.HandleBook` | services/alpha-engine/alpha_engine_svc/strategies/mean_reversion.py:174-189 | mid price and spread move on a two-sided update with non-zero best prices; nothing is signalled |
| `Strategies.MomentumStrategy.constructor` | services/alpha-engine/alpha_engine_svc/strategies/momentum.py:56-61 | the machine starts with nothing counted and no side taken |
| `Strategies.MomentumStrategy.HandleTrade` | services/alpha-engine/alpha_engine_svc/strategies/momentum.py:71-152 | the mutable machine does what the riding machine does on a trade, failing where it divides by a zero threshold |
| `Strategies.MomentumStrategy.HandleBook` | services/alpha-engine/alpha_engine_svc/strategies/momentum.py:154-168 | mid price and spread move on a two-sided update with non-zero best prices; nothing is signalled |
| `FeatureEngine.ImplementationsAgree` | cpp/src/feature_engine.cpp:40-97 | on a non-empty window the features differ in the variance alone, with sample * (m - 1) = population * m for m returns; on an empty one they agree exactly when no book has been seen |
| `FeatureEngine.VarianceFactor` | services/alpha-engine/alpha_engine_svc/feature_engine.py:100-103 | that relation for any series of returns, short ones included |
| `FeatureEngine.VwapWithinWindow` | services/alpha-engine/alpha_engine_svc/feature_engine.py:84 | with positive quantities the VWAP lies within any bounds on the window's prices |
| `FeatureEngine.ImbalanceWithinUnit` | services/alpha-engine/alpha_engine_svc/feature_engine.py:87-90 | with positive quantities the trade imbalance lies in [-1, 1] |
| `FeatureEngine.LastNStep` | services/alpha-engine/alpha_engine_svc/feature_engine.py:43-46 | retaining the last n after each trade retains the last n of the stream |
| `FeatureEngine.RollingWindow.constructor` | services/alpha-engine/alpha_engine_svc/feature_engine.py:40-53 | the engine starts with an empty window and no book |
| `FeatureEngine.RollingWindow.Shifted` | services/alpha-engine/alpha_engine_svc/feature_engine.py:58-69 | a full window's running sums stay the sums over exactly the last trades |
| `FeatureEngine.RollingWindow.Grown` | services/alpha-engine/alpha_engine_svc/feature_engine.py:64-69 | so do those of a window still filling |
| `FeatureEngine.RollingWindow.UpdateSums` | cpp/src/feature_engine.cpp:15-31 | the sums leave out the oldest trade of a full window and take in the new one |
| `FeatureEngine.RollingWindow.OnTradePython` | services/alpha-engine/alpha_engine_svc/feature_engine.py:55-69 | subtracting first and letting the deque drop keeps window and sums those of the last trades; it fails exactly for a window of size zero |
| `FeatureEngine.RollingWindow.OnTradeCpp` | cpp/src/feature_engine.cpp:13-32 | popping before pushing keeps them too |
| `FeatureEngine.RollingWindow.OnBookSnapshot` | cpp/src/feature_engine.cpp:34-38 | only the book fields change |
| `FeatureEngine.VolumeBySide` | cpp/src/feature_engine.cpp:56-63 | the loop splits the volume by side |
| `FeatureEngine.CollectReturns` | cpp/src/feature_engine.cpp:71-75 | the loop collects the returns between consecutive trades with a positive first price |
| `FeatureEngine.SumOfSquares` | cpp/src/feature_engine.cpp:78-82 | the loop sums the squared deviations |
| `FeatureEngine.VariancePython` | services/alpha-engine/alpha_engine_svc/feature_engine.py:93-103 | the square of the reported volatility is the sample variance of the window's returns |
| `FeatureEngine.VarianceCpp` | cpp/src/feature_engine.cpp:68-86 | the square of the reported volatility is their population variance |
| `FeatureEngine.RollingWindow.Assemble` | services/alpha-engine/alpha_engine_svc/feature_engine.py:83-110 | the features from running sums are the features of the window |
| `FeatureEngine.RollingWindow.ComputePython` | services/alpha-engine/alpha_engine_svc/feature_engine.py:77-110 | the features reported are those of exactly the last min(count, window) trades of the stream |
| `FeatureEngine.RollingWindow.ComputeCpp` | cpp/src/feature_engine.cpp:40-97 | the same for the C++ engine |
| `OrderBook.PutIsStore` | cpp/src/order_book.cpp:14-20 | inserting, replacing or erasing in price order keeps the order and is the dictionary's update |
| `OrderBook.PutAllIsStoreAll` | cpp/src/order_book.cpp:10-28 | so is a whole list of updates |
| `OrderBook.SortingRecovers` | services/alpha-engine/alpha_engine_svc/order_book.py:97-105 | whatever sorting the dictionary's prices yields is the ordered ladder |
| `OrderBook.BestIsHead` | services/alpha-engine/alpha_engine_svc/order_book.py:49-61 | the dictionary's best price with its quantity is the head of the ladder, and nothing else is |
| `OrderBook.BooksStayEqual` | cpp/src/order_book.cpp:10-28 | after any sequence of deltas the C++ ladders are ordered and hold exactly the Python dictionaries |
| `OrderBook.BooksAgree` | services/alpha-engine/alpha_engine_svc/order_book.py:49-105 | then best prices, mid, spread, top-N and imbalance agree for every N >= 1 |
| `OrderBook.TopsAgreeIff` | cpp/src/order_book.cpp:77-97 | for which N, zero and negative ones included, the two top-N lists agree |
| `OrderBook.ImbalanceWithinUnit` | services/alpha-engine/alpha_engine_svc/order_book.py:79-95 | with non-negative quantities in every delta the imbalance of either book lies in [-1, 1], for any N, zero and negative ones included |
| `OrderBook.TopLevels` | cpp/src/order_book.cpp:77-86 | the counting loop takes the first N levels, and at least one |
| `OrderBook.TopVolume` | cpp/src/order_book.cpp:60-64 | the counting loop sums the quantities of those levels |
| `OrderBook.CppOrderBook.constructor` | cpp/src/order_book.cpp:8 | the book starts empty |
| `OrderBook.CppOrderBook.ApplyDelta` | cpp/src/order_book.cpp:10-28 | both loops keep the sides ordered and apply the whole delta |
| `OrderBook.CppOrderBook.BestPrices` | cpp/src/order_book.cpp:30-40 | the first bid is the highest and the first ask the lowest price held |
| `OrderBook.CppOrderBook.Imbalance` | cpp/src/order_book.cpp:56-75 | the loops compute the imbalance of the top levels |
| `OrderBook.PyOrderBook.constructor` | services/alpha-engine/alpha_engine_svc/order_book.py:30-33 | the book starts empty |
| `OrderBook.PyOrderBook.ApplyDelta` | services/alpha-engine/alpha_engine_svc/order_book.py:35-47 | both loops apply the whole delta to the dictionaries |
| `Correlation.CauchySchwarz` | services/post-trade/post_trade_svc/alpha_decay.py:70-72 | the squared inner product of two series is at most the product of their squared lengths |
| `Correlation.CovarianceBounded` | services/post-trade/post_trade_svc/alpha_decay.py:70-72 | cov^2 <= var_x * var_y for all series of equal length |
| `Correlation.CorrelationsWithinUnit` | services/backtest/backtest_svc/backtest_analysis.py:85-97 | every correlation returned, by the signal rule or the asset rule, lies in [-1, 1] |
| `Correlation.SquareOfSum` | services/alpha-engine/alpha_engine_svc/cross_asset.py:181-182 | the square of a sum is at most the number of terms times the sum of squares |
| `Correlation.OneDeviation` | services/alpha-engine/alpha_engine_svc/cross_asset.py:181-182 | one of m deviations squares to at most (m - 1) / m of the sum of all squares |
| `Correlation.SpreadZScoreBounded` | services/alpha-engine/alpha_engine_svc/cross_asset.py:178-188 | the squared spread z-score over m ratios is at most m - 1 |

## Left out

- IEEE arithmetic: floats are exact reals, so rounding (including the rounding of quantities, metrics and correlations before they are reported) is not modelled; neither are NaN and infinities.
- Square roots: a root is represented by its square (residual variance, volatility) or enters as a non-negative number with the right square (holding period, correlation denominator, spread deviation).
- LinearSystem.SolveLinearSystem: the rows of the augmented matrix are immutable sequences held in an array, so aliasing between rows is not modelled; non-square and ragged input, on which the original raises, is excluded.
- LeastSquares.OlsFit: the table is rectangular with as many rows as targets; ragged input, on which the original misbehaves or raises, is excluded.
- LeastSquares.RollingRegression.FitModel: how the histories fill and the signals derived from residuals are not modelled; the recorded deviation is represented by its square.
- Portfolio.PostTradeState.ProcessFill: transaction cost analysis and the list of raw fills, which no modelled figure depends on.
- Portfolio.PostTradeState.UpdatePrice: the call into the alpha decay tracker, modelled on its own in AlphaDecay.
- BacktestLedger.ComputeMetricsFromFills: time buckets, the bucketed Sharpe ratio and the result of an empty fill list as a dictionary.
- BacktestLedger.ComputeSymbolBooks: the summed slippage, the counts by side, the period returns and the ratios of the per-symbol analysis.
- RateLimiter.TokenBucket.Acquire: the waits other callers count while this one sleeps. The clock is one that never runs backwards and sleeps at least as long as asked.
- BookWalk.WalkTheBook: fee tiers, the Brownian bridge and the simulated order state of the fill simulator.
- AlphaDecay.HorizonReturns: the information coefficients computed from the returns, overall and per strategy.
- Folds.GenerateFolds: for a negative training share only the places of the folds are stated, not that they are sound, because they need not be; the loop that optimises parameters over the folds is not modelled.
- CircuitBreaker.Breaker: each call is one atomic step of its instance; one instance shared by several threads, and the status report, are not modelled.
- Strategies.MeanReversionStrategy.HandleTrade: the feature engine behind VWAP and volatility, modelled on its own in FeatureEngine; signal metadata and identifiers.
- FeatureEngine.RollingWindow: one class stands for both engines, with one method for each implementation of an operation that differs.
- FeatureEngine.RollingWindow.OnTradeCpp: a window size of zero, for which the original reads the front of an empty queue and its behaviour is undefined.
- OrderBook.PyOrderBook: queries are specified by what a maximum, a minimum and a sorted list are, not by how the language finds them.
- Correlation: the log ratios and returns that enter the correlations and the z-score are given; relative strength is not modelled.
- Sampling (bootstrap, Box-Muller), value at risk, Sharpe, Sortino and Calmar ratios, validation grades, order tracking and risk checks.
- Transport and storage: Kafka, Redis, TimescaleDB, WebSocket, HTTP, configuration, logging, time stamps and identifiers.
