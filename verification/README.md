# Verified model of the trading pipeline's core

The repository collects candles and order-flow records from an exchange, turns them into
feature and label rows, and trades signals drawn from those rows, first in a backtest and
then on paper. This project models the code that decides what those numbers are, and
proves what holds of them over every input and every run.

| files | what they model |
|---|---|
| `TradeGate` | the gate that lets a signal through, scales it, and blocks it |
| `BacktestTypes`, `BacktestEngine`, `BacktestMetrics` | the bar-by-bar backtest and its metrics |
| `BacktestOutcomes` | every number of every trade of a run in terms of its inputs alone |
| `BacktestSafety`, `BacktestLedger`, `BacktestTrades`, `BacktestComparisons`, `BacktestExamples` | theorems about whole backtests and about two of them, and small concrete ones |
| `Ema`, `Wilder`, `Smoothing`, `Market` | the indicators |
| `OrderFlow`, `FlowFeatures`, `Features`, `Labels` | one chunk: order-flow join, feature rows, quality check, labels |
| `FeatureFormulas` | each indicator and each field of a row by the formula that defines it |
| `ChunkedCandles`, `LabelBackfill`, `FeatureBackfill`, `ChunkedFeatures`, `ChunkedOscillators`, `ChunkedFlow` | the overlapping chunk loop against one pass |
| `PaperOutcomes` | what one poll does, in terms of the account, the candle and the reading alone |
| `PaperTypes`, `PaperEngine`, `PaperLedger`, `PaperRestart`, `PaperSafety`, `PaperExamples` | the paper trader, its tables, theorems about its processes and their restarts |
| `TokenBucket`, `PagedBackfill`, `EdgeRanking`, `Numeric` | rate limit, backward paging, feature ranking, shared arithmetic |

## Conventions

Code that updates variables or fields is a method or a class, proved to compute a function
of its inputs or of its old state; the theorems are about these functions. For the two
engines that function is one step of a state machine (`BacktestEngine.Step`,
`PaperEngine.AfterTick`), and theorems about runs speak of its iterates. What such a function
computes is stated a second time without it: by `BacktestOutcomes`, `PaperOutcomes` and
`FeatureFormulas`, and elsewhere in the methods' own contracts, as products instead of
quotients, sums over indices instead of recursion, and conditions on the raw inputs.

A float64 is a real number. Where the program can meet an undefined value it is a `Num`,
either a number or `NaN`; infinities count as `NaN`, because the program rejects both where
it looks. Comparisons with `NaN` are false, as in Go. Logarithm and square root are
parameters, constrained only where a theorem says so. Times are whole milliseconds or bar
indices; the clock of the rate limiter is a real number of seconds.

The three scorers' outputs and the meta model's probabilities are arbitrary inputs, one per
bar or tick. Stores are sequences in time order and maps updated by upserts. Which database
statements and requests fail is an arbitrary input; a batch of inserts or upserts runs as one
transaction, so one that fails writes nothing.

## Where the code does less than it seems to

Each of these is a theorem here. The model follows the code.

- `UpdatePnl` may stop the gate, but both engines then call `OnTradeClosed`, which always
  makes it a cooldown. So the gate's daily drawdown stop, which `TestDailyDrawdownStop`
  exercises on the gate alone, decides nothing in any run of either engine
  (`StoppedExactlyWhen`, `LossIsForgottenAfterCooldown`, `StopDoesNotHold`, `RunIsSafe`,
  `PositionsAreSpaced`).
- The backtest never resets the gate's day, so the daily trade cap binds the whole run
  (`RunIsSafe`).
- The direction filter leaves the loop body early, so filtered bars have no equity entry.
  The length that `TestBacktestEquityCurveConsistency` expects is met if and only if no bar
  is filtered (`CurveLength`, `FilteredBarIsMissing`).
- In mode both, a technical score strictly between the thresholds opens a trade with the
  empty direction, which can only pay fees (`UndecidedTradesOnlyPayFees`,
  `UndecidedTradeHappens`).
- The gate accepts a signal with an unlisted regime, with size zero (`AcceptedSize`).
  `classifyRegime` only returns the five listed ones
  (internal/agent/regime/scorer.go:124-143), so neither engine ever asks about such a signal;
  only a direct caller of the gate can.
- The running-peak drawdown is always the fall between some pair of equities
  (`WorstDrawdownIsAFall`). It is the largest such fall if and only if none that ends below
  zero is larger (`LargestFallExactly`): always while equity is never negative
  (`MaxDrawdownIsLargestFall`), but not on every run (`NegativeEquityBreaksPairwise`).
- A label near the end of a chunk reads a candle of the re-appended overlap, which is older
  than its own (`SeamLabelsLookBack`); the later copy of the row always overwrites it
  (`OverlappedLabelsEqualOnePass`).
- A comment in label_test.go says the last rows are NaN; the code leaves them zero
  (`TailIsZero`).
- A chunk without any price movement at its start has no ADX, and one undefined field in
  twelve is above the 5 percent limit, so the whole backfill of the pair fails
  (`ChunkVerdict`, `ProcessPair`, `FlatSeriesIsRejected`). The true range that Wilder
  smoothing skips, at index `period`, does not help (`AdxDefinedExactlyIfMoved`).
- The liquidation query of a chunk ends at its last candle's start, so each 2000th row, the
  last of its chunk, misses the liquidations of its own bar (`WrittenLiquidations`,
  `CutLosesLiquidation`).
- A chunk without open interest inside a history that has some stores changes of zero where
  one pass has undefined ones; and one without ratios stores zero ratios, which are the
  one-pass ones exactly where a sell ratio is there, and zero imbalances, which are exactly
  where neither ratio is (`WrittenFlowNearOnePass`). One record at the first candle of a
  history does it to every later chunk (`LaterChunksHaveNone`, `LaterRowsDiffer`).
- The paper ledger credits the quantity when a position closes without having debited it,
  and charges the entry fee twice (`LedgerHolds`). At a commission rate c other than zero a
  flat account is off by 1 - c times the quantities it closed (`FlatBalance`; those whose
  entry fee an earlier process paid count in full), so at a rate between zero and one it
  reconciles if and only if none of them had any quantity (`ReconcilesExactly`). Three polls
  at a rate of 0.001 do not (`PaidTradingIsOff`).
- With a zero commission rate the filled quantity is 0/0, and the first close makes the
  balance undefined until the next restart (`BalanceDefinedExactly`,
  `FreeTradingLosesBalance`).
- The paper size is the risk fraction divided by a distance in price, but the PnL takes it
  as an amount of money (`StopLosesFractionOverPrice`), and market exits slip twice
  (`MarketExitSlipsTwice`).
- The trailing stop is given the close where an ATR is meant. At a given close no
  non-negative stop moves if and only if multiplier times close is at least one
  (`TrailingStopNeverMoves`, `TrailingStopMovesExactly`), and for a positive multiplier no
  stop ever gets above 1 / (4 * multiplier) by trailing (`TrailedStopCeiling`).
- A restart forgets the drawdown latch, the cooldown and the trade count
  (`RestartKeepsAllButDrift`).
- A close whose trade statement fails is only logged, and the next process does not know its
  PnL: a restart keeps the realised PnL if and only if such closes sum to zero
  (`RestartKeepsTotalExactly`, `UnrecordedTradeIsForgotten`). `closePosition` leaves two
  fields empty (internal/papertrade/engine.go:328-335) that `InsertTrade` passes as empty
  strings (internal/papertrade/store.go:66-71) into JSONB columns
  (internal/db/migrations/007_paper_trading.sql:60-61); whether a database takes them is not
  part of this model, in which any statement may fail.
- The error of the statement that marks a closed position (internal/papertrade/engine.go:340)
  is discarded, and when it fails the row stays open: a flat account that started without open rows stays flat over a restart if and only
  if every close was marked (`FlatStaysFlatExactly`); otherwise a closed position comes back
  (`UnmarkedCloseComesBack`).
- Paging stops when its cursor reaches the start, so a record stamped exactly there is
  missed if and only if another lies one millisecond later and the records above it fill
  whole pages (`BackfillSymbol`, `BackfillFundingRates`, `StartCanBeMissed`).
- The funding backfill counts records whose insert failed (`BackfillFundingRates`).
- A ranking of a single feature divides zero by zero (`SingleFeatureUndefined`).

## Model

| member | source | states |
|---|---|---|
| TradeGate.Screen | internal/agent/tradegate/gate.go:102-140 | a signal passes if and only if it passes every test and its confidence is at least 60; the reason of a refusal is the first test it fails; an accepted one gets the decision of its confidence tier and that tier's size times the factor of its regime |
| TradeGate.RawConfidence | internal/agent/tradegate/gate.go:91-100 | the confidence is the weighted blend, or the nearer end of [0, 100] when the blend lies outside |
| TradeGate.SizeFromConfidence | internal/agent/tradegate/gate.go:225-236 | sizes are 0, 0.25, 0.5 and 1, reached exactly at confidences 60, 70 and 80 |
| TradeGate.DecisionFromSize | internal/agent/tradegate/gate.go:238-249 | no trade, small, normal and full, each for exactly its range of sizes |
| TradeGate.AcceptedSize | internal/agent/tradegate/gate.go:121-140 | the multiplier lies in [0, 1], is 1 exactly for confidence 80 in a quiet trend, and is 0 for an accepted signal exactly when its regime is none of the known ones |
| TradeGate.StrongerSignalNeverShrinks | internal/agent/tradegate/gate.go:86-140 | of two inputs, the one with the higher blend and probability, in the same or a better of the three tradable regimes, passes whenever the other does, and never with a smaller size |
| TradeGate.EvaluateGate | internal/agent/tradegate/gate.go:86-140 | a signal that passes found the gate idle, below its trade cap, with all three scores defined; it is refused as invalid exactly when one is not |
| TradeGate.GateAnswers | internal/agent/tradegate/gate.go:86-140 | the gate's whole answer in terms of the blend of the scores, each times its own weight: confidence, reason in the order of the tests, decision and size |
| TradeGate.BreachesExactly | internal/agent/tradegate/gate.go:170-178 | a day's PnL reaches the limit exactly at that share of the capital, for a capital of either sign, and with a zero capital exactly when it is a loss |
| TradeGate.Gate.constructor | internal/agent/tradegate/gate.go:77-84 | a new gate is idle and has counted nothing |
| TradeGate.Gate.Evaluate | internal/agent/tradegate/gate.go:86-140 | the method, branch by branch, answers what `EvaluateGate` says |
| TradeGate.Gate.OnTradePlaced | internal/agent/tradegate/gate.go:143-147 | counts one trade and changes nothing else |
| TradeGate.Gate.OnTradeClosed | internal/agent/tradegate/gate.go:150-155 | any state, Stopped included, becomes Cooldown with the full count of bars |
| TradeGate.Gate.OnBar | internal/agent/tradegate/gate.go:158-167 | only a cooldown counts down, and it ends when no bar remains |
| TradeGate.Gate.UpdatePnl | internal/agent/tradegate/gate.go:170-178 | adds to the day's PnL and, for a positive capital, stops exactly when the PnL is at most the limit's share of the capital |
| TradeGate.Gate.ResetDay | internal/agent/tradegate/gate.go:182-193 | clears the count, sets the PnL, resumes exactly a stopped gate, and says whether it did |
| TradeGate.StoppedExactlyWhen | internal/agent/tradegate/gate.go:143-193 | after any sequence of calls the gate is stopped if and only if some PnL update breached the limit and no later call closed a trade or reset the day |
| TradeGate.LossIsForgottenAfterCooldown | internal/backtest/engine.go:197-203 | whatever the loss, a trade closed through the engine's two calls leaves the gate idle again after max(CooldownBars, 1) bars |
| TradeGate.StopDoesNotHold | internal/backtest/engine.go:197-203 | a concrete loss of 8 percent after which the very next bar is traded at full size |
| BacktestEngine.CloseTrade | internal/backtest/engine.go:242-264 | the closed trade and its fee; nothing else of the trade changes |
| BacktestEngine.ReadSignal | internal/backtest/engine.go:99-150 | skips exactly the filtered bars, schedules exactly the signals that pass, and counts a trade in the gate exactly then |
| BacktestEngine.CheckExit | internal/backtest/engine.go:171-201 | closes exactly when the stop is touched or the holding limit reached, and tells the gate the PnL and the close, in this order |
| BacktestEngine.ManagePosition | internal/backtest/engine.go:171-201 | ages the open position and, when the bar closes it, books the trade, its PnL, its fee and its bars: the exit step of the transition function |
| BacktestEngine.Simulate | internal/backtest/engine.go:48-218 | the loop with its local variables and gate object reaches the state of the per-bar transition function iterated over the live bars |
| BacktestEngine.Run | internal/backtest/engine.go:28-240 | each of the three errors exactly when its cause is the first to apply; otherwise the summary of the iterated transition function |
| BacktestSafety.EveryBarIsSafe | internal/backtest/engine.go:61-218 | before every bar: at most one of position and pending entry, trade count = closed + open + pending and within the cap, the gate never stopped, its cooldown exactly what is left since the last exit, and idle from max(CooldownBars, 1) bars after it |
| BacktestSafety.RunIsSafe | internal/backtest/engine.go:28-240 | a whole run ends flat, with as many trades as the gate counted, at most MaxTradesPerDay over the entire run, never stopped, trades in order and a cooldown apart |
| BacktestSafety.SpacedBounds | internal/backtest/engine.go:108-203 | no two trades overlap, and any later one enters after exit + max(CooldownBars, 1) |
| BacktestSafety.TradesInsideRun | internal/backtest/engine.go:61-230 | every trade enters after the warm-up and exits on a bar of the data, not before its entry |
| BacktestSafety.HeldAndShutBarsFit | internal/backtest/engine.go:108-203 | the held bars and the cooldowns between trades fit below the last exit |
| BacktestLedger.EveryBarBalances | internal/backtest/engine.go:192-200 | at every bar the running PnL is the sum of the closed trades' PnL, which is also the gate's day PnL; the running fees and bars in market are the sums over the same trades |
| BacktestLedger.RunConservesMoney | internal/backtest/engine.go:192-240 | the summary's net PnL and fees are the sums over its trades, each trade being its price move on its size less its fee |
| BacktestLedger.EquityCurveIsExact | internal/backtest/engine.go:205-217 | each entry is the initial capital plus what every trade of the final list was worth at that bar: nothing before entry, marked to market while open, its PnL once closed |
| BacktestOutcomes.CurveAddsUp | internal/backtest/engine.go:205-217 | the same with the worths spelled out: nothing before the entry, while open a number that times the entry price is size times the move in the trade's favour, the PnL once closed; undefined exactly when a trade with a direction is open at a price of zero |
| BacktestOutcomes.RunFees | internal/backtest/engine.go:242-264 | the fees of a run are the sum over its trades of amounts that times the entry price are the rate on size times both prices |
| BacktestLedger.RecordedBarsAreUnfiltered | internal/backtest/engine.go:110-121 | the bars with an entry are exactly the live bars on which the direction filter did not skip, in order |
| BacktestLedger.CurveLength | internal/backtest/engine.go:110-121 | at most one entry per live bar, and exactly one if and only if no bar was filtered, as always in mode both; filtered bars are flat; the last bar has its entry |
| BacktestExamples.FilteredBarIsMissing | internal/backtest/engine.go:110-121 | a concrete run, a long signal under the filter short, whose curve is shorter than its live bars |
| BacktestLedger.CurveEndsAtNetPnl | internal/backtest/engine.go:205-230 | when no trade was closed by the end of data, the last entry is the initial capital plus the net PnL |
| BacktestLedger.TradesFitLiveBars | internal/backtest/engine.go:108-203 | for k trades, held bars + 1 + (k-1) * max(CooldownBars, 1) is at most the number of live bars |
| BacktestLedger.ExposureBelowOneHundred | internal/backtest/metrics.go:40-43 | exposure is below 100 percent in every run |
| BacktestTrades.TradesAreExplained | internal/backtest/engine.go:108-230 | every trade of a run follows from the input: the gate passed the bar before its entry, direction, fill price, stop and size come from that bar, no earlier bar gave a reason to exit, and the exit bar, reason and price are the first that apply |
| BacktestOutcomes.DirectionFollowsScore | internal/backtest/types.go:70-78 | a trade of a run is long if and only if the score on the bar before its entry is at least the long threshold, and short if and only if it is below that and at most the short threshold |
| BacktestOutcomes.EntryScheduledExactly | internal/backtest/engine.go:99-150 | a bar schedules an entry, and counts a trade in the gate, if and only if the run is flat with nothing scheduled, a bar follows, the gate is idle and below its cap, the weighted scores reach 60, the probability its threshold (one if none is given), the regime is tradable, and the score satisfies the filter |
| BacktestOutcomes.TradeWasSignalled | internal/backtest/engine.go:99-150 | so was every trade; its size is the capital times the tier of the weighted scores times the regime's factor, or a quarter of the capital where that is nothing; its confidence is the weighted scores, at most 100 |
| BacktestOutcomes.TradeEntry | internal/backtest/engine.go:123-128 | it is entered at its first bar's open times 1 - slippage for a short and 1 + slippage otherwise, with its stop the multiplier times the ATR away, one percent of the entry price standing in for an ATR that is not positive |
| BacktestOutcomes.TradeExit | internal/backtest/engine.go:171-230 | on no bar before its last does its range reach the stop or its holding limit end; on the last it leaves at the stop if that is reached, else at the close moved by the slippage, for the limit if that is reached, else for the end of the data |
| BacktestOutcomes.TradeMoney | internal/backtest/engine.go:242-264 | PnL times entry price is size times the move in the trade's favour, less the rate on size times both prices; return times size is the PnL; both are zero if a price is not positive |
| BacktestTrades.UndecidedTradesOnlyPayFees | internal/backtest/types.go:70-78 | the score that signalled a trade is always defined; the trade has the empty direction if and only if that score lay strictly between the thresholds; such a trade never stops out and earns exactly minus its fee |
| BacktestExamples.UndecidedTradeHappens | internal/backtest/types.go:70-78 | a concrete run in mode both that trades without a direction and loses by it |
| BacktestTrades.StopExitsLose | internal/backtest/engine.go:176-200 | no stop exit of any run gains, for positive opens and slippage below one |
| BacktestTrades.StopIsAtrAway | internal/backtest/engine.go:288-297 | the stop is the multiplier times the ATR away from the entry, on the losing side |
| BacktestTrades.SlippageWorksAgainst | internal/backtest/engine.go:266-286 | slippage makes every fill no better than the reference and keeps it positive |
| BacktestTrades.LongMirrorsShort | internal/backtest/engine.go:242-264 | a long's gross PnL is minus the short's on the same prices, and positive exactly when the price rose |
| BacktestComparisons.NoLookahead | internal/backtest/engine.go:61-218 | two inputs that agree through bar k, and on the next open, have the same state after bar k, the same trades and equity entries so far, and differ only in trades that exit later |
| BacktestComparisons.BooksOnlyGrow | internal/backtest/engine.go:192-217 | trades and equity entries are only ever appended, and later trades exit on later bars |
| BacktestComparisons.CommissionOnlyCostsTurnover | internal/backtest/engine.go:130-134 | changing only the commission leaves every trade as it is but for its PnL, and lowers the total by the rate difference times the turnover |
| BacktestComparisons.HigherCommissionNeverPays | internal/backtest/engine.go:242-264 | raising the commission never raises the net PnL |
| BacktestMetrics.CalcMaxDrawdown | internal/backtest/metrics.go:165-189 | the single pass computes 100 times the worst drawdown from the running peak |
| BacktestMetrics.PeakIsMax | internal/backtest/metrics.go:165-178 | the running peak is attained and is the largest equity so far, the initial capital included |
| BacktestMetrics.WorstIsMax | internal/backtest/metrics.go:179-188 | the worst drawdown is attained, or zero, and no drawdown exceeds it |
| BacktestMetrics.WorstDrawdownIsAFall | internal/backtest/metrics.go:165-189 | for any positive capital, whatever the sign of the equities, the result is the fall from the highest equity so far to some later one |
| BacktestMetrics.LargestFallExactly | internal/backtest/metrics.go:165-189 | for any positive capital it is the largest fall over all ordered pairs if and only if no fall from a positive equity to a negative one exceeds it |
| BacktestMetrics.MaxDrawdownIsLargestFall | internal/backtest/metrics.go:165-189 | while equity is never negative it is the largest fall over all ordered pairs from a positive start, lies in [0, 1], and is 1 exactly when the equity falls to zero |
| BacktestMetrics.NegativeEquityBreaksPairwise | internal/backtest/metrics.go:165-189 | a concrete pair of trades with negative equity for which the pairwise form is a different number |
| BacktestMetrics.CalculateMetrics | internal/backtest/metrics.go:5-45 | the PnL is the sum over the trades, the winners are those with a positive return; win rate, expectancy and average holding times the number of trades are 100 times the winners, the PnL and the sum of the holding bars; exposure times the bars is 100 times those in the market; the drawdown is 100 times the worst |
| Ema.EMA | internal/feature/ema.go:5-27 | a column of numbers from index p on, undefined before, in which (p + 1) times the average is twice the newest value plus p - 1 times what stood before: the mean of the first p values at index p, the average before it afterwards |
| Ema.PriceAboveEMA | internal/feature/ema.go:29-44 | 1 exactly where the close stands above a defined average, else 0; nothing for columns of different lengths |
| Ema.EmaWithin | internal/feature/ema.go:9-27 | a defined average lies between the least and greatest value seen |
| Ema.ChunkedEmaError | internal/feature/ema.go:9-27 | the exact difference between one pass and a start at s: the seed difference times (1-2/(p+1))^(i-p+1) |
| Ema.ChunkedEmaBound | internal/feature/ema.go:9-27 | hence at most (1-2/(p+1))^(i-p+1) times the range of the values so far |
| Wilder.RSI | internal/feature/rsi.go:5-50 | the loop over running averages fills the column of the smoothed-moves formula |
| Wilder.RsiWithin | internal/feature/rsi.go:18-50 | defined exactly from index p on, and then in [0, 100] |
| Wilder.RsiIsGainShare | internal/feature/rsi.go:41-50 | the two-branch quotient is 100 times the share of the average gain in the average move, and 50 when nothing moved |
| Wilder.ATR | internal/feature/atr.go:5-41 | the loop fills the column of the Wilder-smoothed true range |
| Wilder.AtrWithin | internal/feature/atr.go:16-41 | defined exactly from index p on, and then between the least and greatest true range seen |
| Wilder.DirectionalIndices | internal/feature/adx.go:15-60 | the three smoothed sums and the DX column, as the loop fills them |
| Wilder.AverageDx | internal/feature/adx.go:56-74 | the second smoothing: undefined below 2p, then the smoothed DX |
| Wilder.ADX | internal/feature/adx.go:5-74 | the whole function computes the twice smoothed column |
| Wilder.DxDefinedExactly | internal/feature/adx.go:26-56 | DX is defined if and only if the smoothed true range is not zero, and then in [0, 100] |
| Wilder.AdxExactly | internal/feature/adx.go:26-74 | ADX is defined if and only if the index is at least 2p and no smoothed true range it averages over is zero, and then in [0, 100] |
| Wilder.AdxDefinedExactlyIfMoved | internal/feature/adx.go:26-74 | from index 2p on it is defined if and only if one of the true ranges it starts from is not zero |
| FeatureFormulas.RsiFormula | internal/feature/rsi.go:18-50 | for any two series that average the rises and the falls of the closes, from the mean of the first p at index p, the RSI times their sum is 100 times the average rise |
| FeatureFormulas.AtrFormula | internal/feature/atr.go:16-41 | the ATR is any series that averages the true ranges from the mean of the first p at index p, each the widest of the candle's range and its distances to the close before |
| FeatureFormulas.DxFormula | internal/feature/adx.go:26-60 | for any averages of true ranges and directional moves, DX times the sum of the two movements is 100 times their difference, undefined exactly over no range |
| FeatureFormulas.AdxStartFormula | internal/feature/adx.go:56-74 | p times the ADX at index 2p is the sum of DX over the p indices up to there |
| FeatureFormulas.AdxStepFormula | internal/feature/adx.go:66-70 | and afterwards p times the ADX is DX plus p - 1 times the ADX before |
| Market.LogReturn | internal/feature/market.go:5-22 | the loop fills the column of log ratios |
| Market.Mean | internal/feature/market.go:69-75 | the accumulated mean |
| Market.StdDev | internal/feature/market.go:77-85 | the accumulated population deviation: the sum of squares is divided by the length |
| Market.Volatility | internal/feature/market.go:24-41 | the sliding loop fills the column of window deviations |
| Market.ZScore | internal/feature/market.go:43-67 | the sliding loop fills the column of window scores |
| FeatureFormulas.LogReturnFormula | internal/feature/market.go:5-22 | of positive closes the return is 100 times the logarithm of their quotient |
| FeatureFormulas.VolatilityFormula | internal/feature/market.go:24-41 | the volatility is the root of the mean squared distance of the last `window` returns from their mean |
| FeatureFormulas.ZScoreFormula | internal/feature/market.go:43-67 | the score times that root is the newest value's distance from the mean, and zero when the root is |
| Market.LogReturnDefinedExactly | internal/feature/market.go:5-22 | for positive closes defined exactly from index `periods` on |
| Market.VolatilityDefinedExactly | internal/feature/market.go:24-41 | for positive closes defined exactly from index `window` on |
| Market.StdDevDefinedExactly | internal/feature/market.go:77-85 | a deviation is defined if and only if every value of its window is |
| Market.LogReturnIsLocal | internal/feature/market.go:5-22 | the value at an index is the same whatever slice of the series contains its window |
| Market.VolatilityIsLocal | internal/feature/market.go:24-41 | the same, through both windows |
| Market.ZScoreIsLocal | internal/feature/market.go:43-67 | two series that agree on a window have the same score there |
| OrderFlow.Advance | internal/db/feature_store.go:94-123 | one cursor loop stops at the first record after the candle and returns the last one consumed, or the default |
| OrderFlow.LoadOrderFlow | internal/db/feature_store.go:73-125 | the three-cursor merge: each field of row i is that of the last record of its own table stamped since the previous candle, given by its index in the table, and zero if there is none; the two liquidation fields are the sums over forced sales and over forced purchases in its bar inside the loaded range |
| OrderFlow.RecordLandsOnce | internal/db/feature_store.go:94-123 | every record between the first and the last candle falls into the window of exactly one row |
| OrderFlow.JoinIsLocal | internal/db/feature_store.go:94-123 | rows after the first, liquidations apart, do not depend on where the slice of candles starts or ends |
| OrderFlow.FirstRowReadsNoMore | internal/db/feature_store.go:94-123 | a record the first row of a load finds is the one a longer load finds there |
| OrderFlow.LastRowIsCut | internal/db/feature_store.go:116-120 | for candles at the starts of their bars, every row of a load has the liquidations of its whole bar except the last, which has only those stamped at the bar's very start |
| OrderFlow.CutLosesLiquidation | internal/db/feature_store.go:199-225 | a concrete liquidation that the cut loses |
| FlowFeatures.OIDeltaPct | internal/feature/orderflow.go:5-27 | the loop fills the column of percentage changes, undefined before the lag and from zero |
| FlowFeatures.NormalizedImbalance | internal/feature/orderflow.go:29-48 | the loop fills the column of imbalances, zero for an empty pair |
| FlowFeatures.ImbalanceWithin | internal/feature/orderflow.go:29-48 | an imbalance of two amounts lies in [-1, 1], changes its sign with their order, and is 1 exactly when only the first is there |
| FlowFeatures.LSRatioRaw | internal/feature/orderflow.go:50-68 | the loop fills the column of ratios, undefined over zero |
| FlowFeatures.FlowColumns | internal/feature/feature.go:73-118 | the order flow fields of every row; open interest only if some snapshot of the load has any, and ratios only if some have both sides |
| FeatureFormulas.FlowFormula | internal/feature/orderflow.go:5-68 | the open interest changes at lags 1, 4 and 12, the ratio and both imbalances as products of each field with its denominator |
| FeatureFormulas.FlowScoreFormula | internal/feature/feature.go:90-97 | the two scores over the last 30 values |
| Features.ComputeFeatures | internal/feature/feature.go:9-121 | fewer than 200 candles give no rows; otherwise row i gathers the values of every column at i and whether its close stands above the three averages, with order flow only when there is one snapshot per candle |
| FeatureFormulas.RowFormula | internal/feature/feature.go:20-72 | the averages, the ATR and the returns of a row past 200 from its candles and the row before |
| FeatureFormulas.RowVolatilityFormula | internal/feature/feature.go:36-45 | the volatilities of a row from the closes of its last 14 and 50 steps |
| FeatureFormulas.MandatoryFormula | internal/db/quality.go:61-78 | the twelve values counted in a row |
| Features.MandatoryDefinedExactly | internal/feature/feature.go:20-72 | from row 200 of a chunk on, eleven of the twelve mandatory fields are defined, and ADX is if and only if the chunk starts moving; at row 199 EMA200 is not |
| Features.ValidateFeatureRows | internal/db/quality.go:12-42 | accepts exactly non-empty rows with distinct timestamps and at most 5 percent undefined mandatory fields; each refusal exactly for its cause, the first that applies |
| Features.CountUndefined | internal/db/quality.go:61-78 | counts the undefined values of a row |
| Features.AdxDecidesCount | internal/db/quality.go:61-78 | when only ADX can be undefined, the count is zero or one per row |
| Features.RatioDecides | internal/db/quality.go:25-32 | one undefined field in twelve is above the 5 percent limit, for any number of rows |
| Labels.ComputeLabels | internal/label/label.go:9-53 | for every position and each of the horizons 4, 12 and 24 asked for and inside the list, the return times the close is 100 times the rise to that position, and success means it beats the threshold (0.25 if none is given); otherwise zero and no success |
| Labels.TailIsZero | internal/label/label.go:30-33 | the last rows, too near the end for every horizon, have returns of zero and no success |
| Labels.SuccessIsARise | internal/label/label.go:34-38 | success means the later close exceeds the first by more than the threshold in percent |
| ChunkedCandles.CursorFindsChunk | cmd/feature-backfill/main.go:87-156 | whatever answers the query after the cursor of round m is exactly candles 2000m to 2000m+2199 |
| ChunkedCandles.QueryIsFirstAfter | internal/db/feature_store.go:49-71 | the query's answer is a leading stretch of the candles after the cursor |
| ChunkedCandles.CopyAt | cmd/feature-backfill/main.go:100-100 | where each chunk's candles sit in the appended list |
| LabelBackfill.SeamLabelsLookBack | internal/label/label.go:23-31 | at a seam the label reads a candle of the re-appended overlap, earlier than the one it labels |
| LabelBackfill.LastWriteWins | internal/db/feature_store.go:305-341 | an upserted row whose key does not come again is what the table holds |
| LabelBackfill.OverlappedLabelsEqualOnePass | cmd/feature-backfill/main.go:158-168 | for every series, upserting the labels of the list with overlaps leaves the same table as upserting the labels of one pass |
| LabelBackfill.EachCandleKeepsItsLabel | cmd/feature-backfill/main.go:158-168 | so the table ends up with each candle's own returns over the next 4, 12 and 24 candles, and its successes beyond 0.25 percent |
| FeatureBackfill.FeatureStore.LoadCandlesAfter | internal/db/feature_store.go:49-71 | one contiguous stretch of candles, as many as there are up to the limit; all before it are at or below the cursor, all in it and after it above |
| FeatureBackfill.FeatureStore.UpsertFeatures | internal/db/feature_store.go:227-303 | row by row the table is updated, last write winning |
| FeatureBackfill.FeatureStore.UpsertLabels | internal/db/feature_store.go:305-341 | row by row the table is updated, last write winning |
| FeatureBackfill.ChunkVerdict | cmd/feature-backfill/main.go:117-131 | on a valid series a chunk passes the quality limit if and only if it starts moving |
| FeatureBackfill.FlatSeriesIsRejected | cmd/feature-backfill/main.go:128-131 | a market that does not trade, of any length above 200, is a valid series of which not every chunk is accepted, whatever the order flow; by `ProcessPair` its backfill never completes |
| FeatureBackfill.ProcessChunk | cmd/feature-backfill/main.go:106-138 | a chunk that is accepted and upserted appends exactly its rows past the warm-up to what was written, any other nothing; on any series it is refused if and only if it has rows, its order flow loads and too many values are undefined, and broken off if and only if its order flow fails to load or its accepted rows fail to be stored |
| FeatureBackfill.BackfillFeatures | cmd/feature-backfill/main.go:87-156 | the loop ends, whatever statements fail; it reads all if and only if every statement it comes to succeeds and every chunk with rows is accepted; then every candle from index 200 on had its row written once, in order, none below; otherwise a leading stretch of them |
| FeatureBackfill.ProcessPair | cmd/feature-backfill/main.go:63-178 | the whole backfill: rows written, feature table, total, and label table equal to one pass; it completes if and only if every statement it comes to succeeds and every chunk with rows is accepted, for any series; on a valid one each of those chunks then starts moving; however it ends, the rows written are those of a leading stretch |
| FeatureBackfill.AcceptedIfMoving | cmd/feature-backfill/main.go:87-156 | of a valid series the chunks are all accepted if and only if they all start moving |
| FeatureBackfill.EachCandleKeepsItsRow | cmd/feature-backfill/main.go:133-138 | after completion the table holds, for every candle from 200 on, that candle's row |
| FeatureBackfill.RowOfItsChunk | cmd/feature-backfill/main.go:87-156 | that row is the one computed at place 200 to 2199 of the 2200 candles from a multiple of 2000 on |
| FeatureBackfill.OnlyTheseRows | cmd/feature-backfill/main.go:117-138 | and the table gains no other key |
| ChunkedFeatures.WrittenRowNearOnePass | cmd/feature-backfill/main.go:106-155 | every written row equals the one-pass row in returns and volatilities, and its four averages differ by at most the geometric tolerance |
| ChunkedFeatures.WrittenFlagsNearOnePass | internal/feature/ema.go:29-44 | and each of its three price-above-average flags is the one-pass one unless the close is within that tolerance of the one-pass average |
| ChunkedFeatures.WrittenAtrNearOnePass | internal/feature/atr.go:16-41 | and its ATR by at most (13/14)^(i-14) times the greatest true range |
| ChunkedOscillators.ChunkedRsiBound | internal/feature/rsi.go:18-50 | for any closes, the RSI of a chunk and of one pass differ by at most 100 * (1-1/p)^(i-p) times the greatest close move, divided by the one-pass average move |
| ChunkedOscillators.WrittenRsiNearOnePass | internal/feature/rsi.go:18-50 | and so does the RSI of every written row, which is always defined |
| Wilder.DxIsShare | internal/feature/adx.go:47-54 | where defined, DX is 100 times the share of the net in the whole movement: the true range cancels |
| Wilder.IndexFreezes | internal/feature/adx.go:42-54 | over a bar without any movement the index does not change, whatever it is |
| ChunkedOscillators.ChunkedDxBound | internal/feature/adx.go:26-56 | where both are defined, DX of a chunk and of one pass differ by at most 400 * (1-1/p)^(i-p) times the greatest move, divided by the one-pass movement |
| ChunkedOscillators.ChunkedAdxBound | internal/feature/adx.go:56-74 | where both are defined and the one-pass movement keeps above a floor, ADX differs by at most 100 * (1-1/p)^(i-2p) + (400 * move / floor) * (1-1/p)^(i-p) * (i-2p)/p |
| ChunkedOscillators.WrittenAdxNearOnePass | internal/feature/adx.go:56-74 | and so does the ADX of every written row |
| ChunkedFlow.WrittenFlowNearOnePass | internal/feature/feature.go:82-113 | every written row has the one-pass funding rate and score; its open interest changes are the one-pass ones if and only if its chunk has open interest exactly when the history has, and are zero instead of undefined otherwise; its ratio and its imbalance of ratios are if and only if that holds of ratios, or the row has a sell ratio, or it has neither ratio, respectively |
| ChunkedFlow.LaterChunksHaveNone | internal/feature/feature.go:82-113 | concrete histories, of any length, of which every chunk but the first has no open interest, or no ratios, while the history has |
| ChunkedFlow.LaterRowsDiffer | internal/feature/feature.go:82-113 | and every row past their first chunk is written with zeros that one pass does not have |
| ChunkedFlow.WrittenLiquidations | cmd/feature-backfill/main.go:106-133 | every written row has the liquidations of its whole bar, but each 2000th has only those stamped at its very start; one pass would cut only the last row of all |
| PaperTypes.EntrySlippageBounded | internal/papertrade/executor.go:16-25 | the volume premium never lowers the slippage and at most triples it |
| PaperTypes.EntryNeverBetter | internal/papertrade/executor.go:16-42 | a long is filled between one and three slippages above the price asked, a short as much below, and the commission is the rate on the size |
| PaperTypes.SizeRisksFraction | internal/papertrade/executor.go:67-80 | size times stop distance is the configured fraction of equity |
| PaperEngine.PaperStore.StoreClose | internal/papertrade/store.go:52-72 | a trade row is appended and the position marked closed, each unless its statement fails |
| PaperEngine.PaperEngine.constructor | internal/papertrade/engine.go:42-55 | a fresh engine has the initial capital and no position |
| PaperEngine.PaperEngine.RecoverState | internal/papertrade/engine.go:406-435 | what a restart reads back, and what each failing query leaves out |
| PaperEngine.PaperEngine.ResetDay | internal/papertrade/engine.go:392-404 | the day's statistics are reloaded and both stops released |
| PaperEngine.PaperEngine.ClosePosition | internal/papertrade/engine.go:305-367 | the whole account after a close |
| PaperEngine.PaperEngine.CheckDrawdown | internal/papertrade/engine.go:350-360 | the latch is set exactly when the day's or the total limit is reached |
| PaperSafety.UnrealisedIsTheMove | internal/papertrade/engine.go:369-381 | what a position adds to the equity is defined exactly with a quantity and a non-zero entry price, and times that price is the move in its favour times the quantity |
| PaperEngine.PaperEngine.CheckExit | internal/papertrade/engine.go:178-228 | exits exactly on stop, holding limit or opposite signal, in this order; otherwise only a long's stop may rise |
| PaperEngine.PaperEngine.OpenPosition | internal/papertrade/engine.go:230-303 | the account with the position, unless the order or the position row fails, when nothing changes |
| PaperEngine.PaperEngine.NoteBar | internal/papertrade/engine.go:89-106 | a new bar ages the gate and the position, and resets the day exactly when flat on another day |
| PaperEngine.PaperEngine.ProcessTick | internal/papertrade/engine.go:80-176 | one poll does to the object exactly what the transition function says |
| PaperOutcomes.ClosesExactly | internal/papertrade/engine.go:178-213 | a poll closes the open position if and only if it brings a new candle with a reading and the stop is reached, the bars held reach the limit, or the score is for the other side |
| PaperOutcomes.CloseBooks | internal/papertrade/engine.go:305-367 | the reason is the first of these; the fill is the stop moved by the slippage, or the close moved by it twice; (net PnL + both fees) times the entry price is the quantity times the move in the position's favour; balance, totals, gate, latch, trade row and position row follow from it |
| PaperOutcomes.HoldKeeps | internal/papertrade/engine.go:215-228 | a poll that keeps a position ages it, trails a long's stop to its level, marks the equity to the close, and leaves the realised money alone |
| PaperOutcomes.OpensExactly | internal/papertrade/engine.go:132-175 | a poll opens a position if and only if it brings a new bar with a reading, no stop that outlasts the day holds, the score takes a side, the gate is or becomes free and is below its cap, the weighted scores, probability and regime pass, the equity, close, multiplier and risk give a size, and both statements succeed |
| PaperOutcomes.OpenBooks | internal/papertrade/engine.go:163-303 | size times stop distance is the equity's risk fraction times the signal's share; price, slippage with its volume premium, stop, fee and quantity of the position; what balance, gate and tables become |
| PaperOutcomes.FlatKeeps | internal/papertrade/engine.go:80-176 | any other poll of a flat account leaves money and tables alone |
| PaperOutcomes.DayBegins | internal/papertrade/engine.go:392-404 | a new day releases the latch and reloads PnL and count as those of the trades entered on it |
| PaperOutcomes.RecoveryReads | internal/papertrade/engine.go:406-435 | what a new process finds: the newest open position, the sum of the trades table, the day's trades, each unless its query fails |
| PaperLedger.LedgerHolds | internal/papertrade/engine.go:297-363 | in any process, whatever tables it starts from and whatever statements fail, recovery included: balance = capital + total PnL + sum over its closed positions of (quantity - entry fee it paid) - open entry fee it paid, and a flat account's equity is its balance |
| PaperLedger.BalanceDefinedExactly | internal/papertrade/engine.go:244-246 | in any process after any others the balance is a number if and only if the commission rate is not zero or the process has closed nothing yet |
| PaperLedger.FlatBalance | internal/papertrade/engine.go:342-345 | at any non-zero rate c, in any process after any others, whatever fails: a flat account has capital + total PnL + (1 - c) * the quantities it closed, those whose entry fee it did not pay counted in full |
| PaperLedger.ReconcilesExactly | internal/papertrade/engine.go:342-345 | at a rate between zero and one a flat account has capital + total PnL if and only if no position it closed had any quantity |
| PaperExamples.FreeTradingLosesBalance | internal/papertrade/engine.go:244-246 | a concrete process at a zero rate whose balance is NaN after its third poll |
| PaperExamples.PaidTradingIsOff | internal/papertrade/engine.go:342-345 | a concrete process at a rate of 0.001 that ends flat and does not reconcile |
| PaperRestart.TablesMirrorAccount | internal/papertrade/store.go:44-113 | through any number of restarts, whatever statements fail, a position row is open if and only if the account holds it, its close was not marked, or it was open before and the process never had it; the account's position, with its opening stop, is the newest open one |
| PaperRestart.TradesGrow | internal/papertrade/store.go:52-72 | in any process, whatever fails, the trades table grows by the PnL of the closes less that of the closes not recorded |
| PaperRestart.RestartKeepsAllButDrift | internal/papertrade/engine.go:406-435 | a restart, at any moment, after any number of earlier ones and whatever statements failed: the total PnL changes by exactly what unrecorded closes made and what the ending process had not found, the balance besides by exactly the drift and open fee; the account's position comes back but for a trailed long stop, no higher, and an age that may lag; a flat account gets the newest row left open; the gate's state and the latch are forgotten |
| PaperRestart.RestartKeepsTotalExactly | internal/papertrade/engine.go:406-435 | a restart keeps the total PnL if and only if the unrecorded closes of the ending process sum to zero |
| PaperRestart.FlatStaysFlatExactly | internal/papertrade/engine.go:406-435 | a flat account that began without open rows stays flat if and only if each of its closes was marked |
| PaperRestart.FaultFreeRestart | internal/papertrade/engine.go:406-435 | when no statement ever fails a restart keeps the total PnL, the position with its age, and flatness |
| PaperExamples.UnrecordedTradeIsForgotten | internal/papertrade/engine.go:328-341 | a concrete process whose one failing trade statement changes the total PnL of the next |
| PaperExamples.UnmarkedCloseComesBack | internal/papertrade/store.go:52-72 | a concrete process that ends flat and hands its closed position to the next |
| PaperLedger.TrailingStopNeverMoves | internal/papertrade/engine.go:216-222 | at a given close no non-negative stop of a long ever moves if and only if multiplier times close is at least one |
| PaperLedger.TrailingStopMovesExactly | internal/papertrade/engine.go:216-222 | a long's stop moves exactly when it stands below close * (1 - multiplier * close), and to there |
| PaperLedger.TrailedStopCeiling | internal/papertrade/engine.go:216-222 | a stop that moved, at whatever close, is at most 1 / (4 * multiplier) |
| PaperSafety.StopHolds | internal/papertrade/engine.go:96-161 | a stopped account neither opens nor resumes on a tick without a day reset |
| PaperSafety.StopHoldsUntilReset | internal/papertrade/engine.go:96-161 | and so over any number of ticks without one |
| PaperSafety.StopSetExactly | internal/papertrade/engine.go:350-360 | the latch is set on exactly the ticks that close a position with one of the two limits reached |
| PaperSafety.CapBindsBetweenResets | internal/papertrade/engine.go:144-161 | in any process the gate counts the positions opened since the last reset, never more than MaxTradesPerDay |
| PaperSafety.PositionsAreSpaced | internal/papertrade/engine.go:96-97 | in any process the gate is never stopped between ticks, and positions are disjoint and open at least max(CooldownBars, 1) bars after the last close |
| PaperSafety.NotingKeepsCooling | internal/papertrade/engine.go:96-97 | counting the bar before the decision keeps the cooldown equal to what is left since the last close |
| PaperSafety.MarketExitSlipsTwice | internal/papertrade/engine.go:191-213 | an expiry or opposite-signal exit is filled at the close moved by the slippage twice |
| PaperSafety.StopLosesFractionOverPrice | internal/papertrade/engine.go:163-172 | a position filled with the computed size loses at its own stop the risk fraction of equity divided by the entry price, not that fraction |
| RateLimit.TokenBucket.constructor | internal/collector/bybit/ratelimit.go:22-29 | a new bucket is full |
| RateLimit.TokenBucket.Take | internal/collector/bybit/ratelimit.go:44-58 | the tokens become the old ones plus rate times the time since the last refill, at most the burst, less one if that leaves one to take, which is exactly when the call is granted |
| RateLimit.TokensStayInRange | internal/collector/bybit/ratelimit.go:44-58 | over any calls with a non-decreasing clock tokens stay in [0, burst] |
| RateLimit.GrantsAreFunded | internal/collector/bybit/ratelimit.go:44-58 | tokens left plus the number of granted calls of a stretch are at most burst + rate * its length, written out |
| RateLimit.GrantsWithinRate | internal/collector/bybit/ratelimit.go:44-58 | the granted calls of any window number at most burst + rate * its length, written out |
| RateLimit.WaitingGrants | internal/collector/bybit/ratelimit.go:44-58 | after 1/rate seconds without a call the next one is granted |
| PagedBackfill.FetchWithRetries | internal/collector/poll/backfill.go:145-171 | a page is served exactly when one of three tries is, all before it being rate limited |
| PagedBackfill.BackfillSymbol | internal/collector/poll/backfill.go:125-190 | the loop ends; a completed run stored each record of the range exactly once, in one block, but for the start record exactly when it is missed; one ended by a failing fetch or insert stored a newest block; the total is the number stored |
| PagedBackfill.StorePage | internal/collector/poll/backfill.go:101-115 | stores the records of a page not older than 2020 whose insert succeeds, and counts them all |
| PagedBackfill.BackfillFundingRates | internal/collector/poll/backfill.go:90-123 | a completed run attempted each record of the range not older than 2020 exactly once, the start record apart when it is missed; it stored those whose insert succeeded, and its total counts the attempts |
| PagedBackfill.AllKept | internal/collector/poll/backfill.go:108-111 | when no insert fails, all of them are stored |
| PagedBackfill.PageSplitsRange | internal/collector/poll/backfill.go:135-182 | a full page and the range below its oldest record are the whole range |
| PagedBackfill.StartCanBeMissed | internal/collector/poll/backfill.go:135-182 | a concrete family of histories whose start record is missed |
| EdgeRanking.SortDescending | internal/edge/ranking.go:29-35 | the order is a permutation with non-increasing keys |
| EdgeRanking.RankValues | internal/edge/ranking.go:23-41 | the ranks are a bijection onto 1..n, and a greater value has a smaller rank |
| EdgeRanking.ComputeRanking | internal/edge/ranking.go:15-65 | the output is the input permuted to descending composites, where n - 1 times a composite is the sum of n minus each rank, weighted 40, 25, 15, 10 and 10 percent, and each rank vector is a bijection that ranks greater values of its own component first; from two entries on the composites lie in [0, 1] and sum to exactly n/2; no entry stands before one that beats it in all five components |
| EdgeRanking.CompositeWithin | internal/edge/ranking.go:49-57 | for n >= 2 each composite is defined and in [0, 1] |
| EdgeRanking.CompositesSumToHalf | internal/edge/ranking.go:49-57 | for n >= 2 the composites sum to exactly n/2 |
| EdgeRanking.DominanceScoresHigher | internal/edge/ranking.go:49-57 | an entry greater in all five components has the higher composite |
| EdgeRanking.PlacedSum | internal/edge/ranking.go:59-62 | reordering by a permutation keeps the sum |
| EdgeRanking.NoneBeforeBetter | internal/edge/ranking.go:59-62 | and stands earlier in the output |
| EdgeRanking.SingleFeatureUndefined | internal/edge/ranking.go:49-57 | for n = 1 the composite is 0/0 |

## Left out

- BacktestMetrics.CalculateMetrics: does not model Sharpe, Sortino, profit factor, the averages and extremes of winners and losers, and the calendar metrics, which are sums and quotients with no invariant across functions.
- Features.ValidateFeatureRows: does not model the separate limit on infinities, because an infinity counts as NaN here; on a valid series no mandatory field is infinite.
- ChunkedOscillators.WrittenAdxNearOnePass: assumes a floor under the one-pass movement and that both values are defined; without a floor no bound can hold, since in a market that stops moving all averages shrink at the same rate and both indices freeze where they are, however far apart and however old (`IndexFreezes`).
- OrderFlow.LoadOrderFlow: does not model failures of its first three queries, whose errors the source discards.
- Floating-point rounding, overflow, and the difference between infinities and NaN.
- The three scorers' formulas, the HTTP calls to the meta model, and the SQL text.
- Heartbeats and progress updates of the feature backfill, whose failures are only logged, and the optional-field report of the quality check.
- The score columns copied into trades for reporting.
- The gate's mutex and its `currentDay`, which no decision reads.
- Paper snapshots, orders and fills as tables, and trades of other symbols, which the total query would also count.
- `TokenBucket.Wait`, whose only own behaviour is how long it sleeps.
- The backtest position and the paper position are values here, where the source holds pointers. In the paper trader `State()` hands out the pointer itself, so that a reader could see it change, or change it; that sharing is not modelled.
- Which of several entries with equal keys a sort puts first: the source's sort leaves that open, and no theorem depends on it.
- Exchanges that answer with other pages than the newest records first.
- `recovery.Filler`, stream reconnection, the front end and the Python scripts.
