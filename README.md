# Posidex core in Dafny

A model of the calculation core of posidex, a browser-based position-size and
risk calculator for traders, with the proofs of what that core promises. The
model covers the following parts:

- **The calculator** (`src/lib/calculator.ts`). It covers these calculations:
  - the base metrics of a trade: the position size for a risked percentage of
    the account, the margin, the fees, the net loss at the stop-loss, and the
    break-even and liquidation prices;
  - the metrics of one take-profit target, and the totals over several;
  - the Average True Range with Wilder's smoothing;
  - the journal statistics (win rate, profit factor, expectancy, drawdown,
    streaks, long/short totals) and the per-symbol performance.
- **The derived calculation store** (`src/stores/calculationStore.ts`). It
  validates the inputs, runs the calculator and assembles the displayed
  results.
- **The application controller** (`src/services/app.ts`). The model covers:
  - `calculateAndDisplay`, with its own validation and the risk-amount and
    position-size locks;
  - the two lock toggles and `clearResults`;
  - the symbol suggestions;
  - `adjustTpPercentages`, which rebalances the take-profit percentages to
    100 %;
  - the journal operations: status, realized P/L, deletion, and the CSV import
    that merges by id. The CSV export's notes quoting is modelled too.
- **The price bar** (`src/services/uiManager.ts`, and the older
  `src/lib/uiManager.ts`). It places stop-loss, entry and targets on a 0–100
  scale.
- **The numeric input action** (`src/utils/inputUtils.ts`, and the older
  `src/lib/inputUtils.ts`). It sanitises typed text and moves the cursor.
- **The lenient number parser** `parseDecimal` (`src/utils/utils.ts`).
- **The backup service** (`src/services/backupService.ts`), the **presets**
  (`src/lib/presets.ts`), and the **trade store** (`src/stores/tradeStore.ts`).

decimal.js values are exact `real`s. A division that decimal.js would turn into
an infinity or NaN is the `Ext` datatype. Each `tradeType` string is
`Long | Short | OtherType(name)`, so that every branch that tests only for one of
the two constants stays faithful.

Several things the source gets from elsewhere become parameters:

- the application constants: default leverage, fees, ATR multiplier, storage
  keys and suggested symbols;
- JavaScript's number syntax for `parseDecimal`: `isNumeric` and the value of
  a numeric string;
- `parseFloat`;
- the decimal.js constructor on user text;
- `new Date(...).getTime()`;
- the CSV readers `parseInt`, `parseGermanDate` and the trade-type mapping.

The Svelte stores are a class `Stores` with one field per store. Each
operation that changes them is a method proved equal to a function of the old
state. The properties are proved about those functions.

Where the code and the test files disagree, the model follows the code:

- `partialROC` divides by the whole margin. A test expects half of it.
- `adjustTpPercentages` rescales proportionally. Several tests expect deficits
  to be taken from the last targets first.
- A test at `src/lib/calculator.test.ts:99` calls `calculateIndividualTp`
  without a trade type. The code then takes the short branch, which gives a
  price change of -5 %, while the test expects 5 %.
  `Calculator.IndividualTpExample` states the example for a long trade.

## Model

| member | source | states |
|---|---|---|
| `Common.DecimalDiv` | src/lib/calculator.ts:30-35 | decimal.js division: exact quotient for a non-zero divisor; otherwise never finite, NaN exactly for 0/0 |
| `Common.RoundHalfUp` | src/services/app.ts:788 | `toDecimalPlaces(0, ROUND_HALF_UP)`: the result is within half a unit of the input and an integer input is kept |
| `Common.NatToString` | src/lib/calculator.ts:273 | `${n}` of a count: at least one decimal digit, all digits, no leading zero |
| `Common.Trim` | src/utils/utils.ts:15 | `trim()`: no longer than the input, empty exactly for an all-white-space input, otherwise no white space at either end |
| `Common.IndexOf` | src/utils/inputUtils.ts:25 | `indexOf(c)`: -1 exactly when `c` is absent, otherwise the first position holding `c` |
| `Common.ReplaceFirst` | src/utils/utils.ts:14 | `replace(',', '.')`: only the first occurrence changes, every other character and the length are kept |
| `Utils.ParseDecimal` | src/utils/utils.ts:12-17 | 0 for null/undefined/empty and for non-numeric text; a number passes through unchanged |
| `Utils.WhitespaceParsesAsZero` | src/utils/utils.ts:15 | a text of white space only parses as 0 |
| `Utils.NumericParsesAsValue` | src/utils/utils.ts:14-16 | a numeric text without a comma parses as its value |
| `Utils.FirstCommaIsDecimalPoint` | src/utils/utils.ts:14 | only the first comma becomes the decimal point; later commas are kept |
| `Utils.CommaExample` | src/utils/utils.ts:14-16 | "1,5" reads as 1.5 |
| `Calculator.CalculateBaseMetrics` | src/lib/calculator.ts:16-42 | `null` exactly when the stop-loss equals the entry; the risk amount is account × risk % / 100 |
| `Calculator.PositionSizeMatchesRisk` | src/lib/calculator.ts:17-21 | position size × risk per unit = risk amount: the stop-loss loses exactly the risked amount |
| `Calculator.NetLossDecomposition` | src/lib/calculator.ts:24-26 | net loss = risk amount + entry fee (on volume at entry) + exit fee (on volume at stop-loss) |
| `Calculator.MarginFromLeverage` | src/lib/calculator.ts:22-23 | margin × leverage = order volume for positive leverage, margin = volume otherwise |
| `Calculator.LiquidationPrice` | src/lib/calculator.ts:37-39 | entry × (1 ∓ 1/leverage) against the trade direction for positive leverage; 0 otherwise |
| `Calculator.BreakEvenCoversFees` | src/lib/calculator.ts:28-35 | closing at break-even earns back the entry and exit fee; infinite for a long at 100 % fees, not finite for a short at -100 % |
| `Calculator.NetLossCoversRisk` | src/lib/calculator.ts:17-26 | with non-negative inputs and fees, metrics exist and the net loss is at least the risk amount |
| `Calculator.LongBaseMetricsExample` | src/lib/calculator.test.ts:9-41 | the long worked example: size 10, margin 100, net loss 11.99, break-even ≈100.2, liquidation 90 |
| `Calculator.ShortBaseMetricsExample` | src/lib/calculator.test.ts:43-69 | the short worked example: net loss 12.01, liquidation 110 |
| `Calculator.CalculateIndividualTp` | src/lib/calculator.ts:94-118 | the part volume is size × percent / 100; net profit + exit fee + entry-fee share = gross gain of the part; index and percent carried through |
| `Calculator.TpRatios` | src/lib/calculator.ts:104-116 | reward/risk = gain per unit / risk per unit, price change signed by direction in percent of entry, ROC = net profit / margin × 100; each 0 when its divisor is not positive |
| `Calculator.TpFeesOnlyReduceProfit` | src/lib/calculator.ts:96-101 | without fees a target nets its gross gain; with non-negative fees never more |
| `Calculator.IndividualTpExample` | src/lib/calculator.test.ts:72-119 | half of 10 units sold at 105: net profit 23.975, reward/risk 5, change 5 % |
| `Calculator.GuardedRatio` | src/lib/calculator.ts:169-170 | `a / b × scale` when `b > 0`, otherwise 0 |
| `Calculator.CalculateTotalMetrics` | src/lib/calculator.ts:129-172 | sells at targets in order until 100 % are gone, charges the rest at the stop-loss; totalRR and totalROC are the guarded ratios over net loss and margin |
| `Calculator.SellAtTargets` | src/lib/calculator.ts:136-146 | the target loop yields the cumulative percent sold, the summed net profits and the entry fee plus summed exit fees |
| `Calculator.SellAtTarget` | src/lib/calculator.ts:137-145 | one pass: a target with positive price and percent sells min(percent, what is left), while less than 100 % is sold |
| `Calculator.ChargeStopLoss` | src/lib/calculator.ts:149-167 | the unsold part loses its gross loss plus both its fees, and its exit fee is added to the fees |
| `Calculator.SoldAtTargetsBounds` | src/lib/calculator.ts:137-144 | the cumulative percent sold at targets stays within 0 and 100 |
| `Calculator.PartVolumeAdditive` | src/lib/calculator.ts:97 | selling a % then b % sells the units of a + b % |
| `Calculator.TargetsVolumeMatchesSold` | src/lib/calculator.ts:136-146 | units sold at targets = the position size applied to the percent sold at targets |
| `Calculator.PositionSplitsBetweenTargetsAndStop` | src/lib/calculator.ts:149-151 | target units plus stop-loss units equal the whole position |
| `Calculator.NoCapWithinHundred` | src/lib/calculator.ts:137-139 | when active targets ask for at most 100 %, every one sells exactly its own percent |
| `Calculator.TotalMetricsExample` | src/lib/calculator.test.ts:122-161 | the two-target worked example: all 100 % sold, net profit 72.925, reward/risk 7.2925, fees 2.075, risk 10, return on capital 72.925 % |
| `Calculator.TrueRange` | src/lib/calculator.ts:59-64 | the true range bounds the three spans and equals one of them |
| `Calculator.TrueRanges` | src/lib/calculator.ts:57-66 | one true range per candle after the first |
| `Calculator.TrueRangesAt` | src/lib/calculator.ts:58-65 | true range `i` belongs to candle `i + 1` and its predecessor |
| `Calculator.SmoothStep` | src/lib/calculator.ts:78 | one Wilder step lands between the old average and the new true range |
| `Calculator.StepBetween` | src/lib/calculator.ts:78 | `(atr × (p - 1) + tr) / p` lies between `atr` and `tr` |
| `Calculator.Atr` | src/lib/calculator.ts:51-82 | 0 without `period + 1` candles; otherwise the SMA of the first `period` true ranges, then smoothed |
| `Calculator.CalculateAtr` | src/lib/calculator.ts:51-82 | the loops of `calculateATR` compute `Atr` |
| `Calculator.CollectTrueRanges` | src/lib/calculator.ts:57-66 | the first loop collects exactly the true ranges |
| `Calculator.SumPrefix` | src/lib/calculator.ts:73 | the `reduce` sums the first `n` true ranges |
| `Calculator.SmoothFrom` | src/lib/calculator.ts:76-79 | the second loop applies Wilder's smoothing to the true ranges after the first `period` |
| `Calculator.SmoothOfConstant` | src/lib/calculator.ts:76-79 | smoothing a constant series from that constant keeps it |
| `Calculator.ConstantTrueRangeAtr` | src/lib/calculator.ts:51-82 | with enough candles whose true ranges are all `c`, the ATR is `c` |
| `Calculator.SmoothedAverageOfConstant` | src/lib/calculator.ts:73-79 | SMA then smoothing of a constant series gives the constant |
| `Performance.ValidTrades` | src/lib/calculator.ts:181-187 | exactly the won/lost trades with a realized P/L, from the journal; empty exactly when there is none |
| `Performance.InsertByTime` | src/lib/calculator.ts:189 | inserting adds the trade and loses none (multiset) |
| `Performance.InsertKeepsSorted` | src/lib/calculator.ts:189 | inserting into a time-sorted list keeps it sorted |
| `Performance.SortByTime` | src/lib/calculator.ts:189 | the sort is a permutation of the valid trades |
| `Performance.SortByTimeSorted` | src/lib/calculator.ts:189 | the sort orders trades by the timestamp of their date |
| `Performance.Pnls` | src/lib/calculator.ts:192-195 | one realized P/L per trade, in order |
| `Performance.CountOutcome` | src/lib/calculator.ts:197-199 | the win/loss counts never exceed the number of trades |
| `Performance.ProfitMinusLossIsNet` | src/lib/calculator.ts:202-203 | total profit − total loss = net P/L, both totals non-negative |
| `Performance.TotalsPositiveIffCounted` | src/lib/calculator.ts:202-208 | the total loss is positive iff some trade lost (so the profit factor exists), the total profit iff some trade won |
| `Performance.LargestAreMaxima` | src/lib/calculator.ts:210-211 | the largest profit/loss bounds every win/loss and is 0 or attained |
| `Performance.RMultipleCount` | src/lib/calculator.ts:213-221 | at most one counted R multiple per trade |
| `Performance.SumRMultiples` | src/lib/calculator.ts:213-221 | the loop sums pnl/risk over exactly the trades with a positive risk amount, and counts them |
| `Performance.UniformRMultiple` | src/lib/calculator.ts:213-222 | trades that all realized `k` times their risk sum to `k` per counted trade |
| `Performance.CumIsSum` | src/lib/calculator.ts:224-226 | the equity after `k` trades is the sum of their P/Ls |
| `Performance.DrawdownAdvance` | src/lib/calculator.ts:225-230 | one drawdown step keeps the running peak and the deepest fall so far, both attained |
| `Performance.PeakAdvance` | src/lib/calculator.ts:227 | the updated peak bounds every equity so far |
| `Performance.DeepestAdvance` | src/lib/calculator.ts:228-229 | the updated drawdown bounds every fall so far |
| `Performance.MaxDrawdown` | src/lib/calculator.ts:224-230 | the loop ends with the net P/L and the maximum fall from an earlier equity to a later one |
| `Performance.MaxDrawdownFacts` | src/lib/calculator.ts:224-230 | the maximum drawdown is non-negative, and 0 when no trade lost |
| `Performance.TrailingRun` | src/lib/calculator.ts:264-287 | the trailing streak is no longer than the trades |
| `Performance.TrailingRunIsMaximal` | src/lib/calculator.ts:269-272 | the trailing run is a block of one outcome and no longer such block ends the list |
| `Performance.LongestRunIsLongestBlock` | src/lib/calculator.ts:247-262 | the longest streak equals the longest block of consecutive trades with that outcome |
| `Performance.LongestRunBoundsBlocks` | src/lib/calculator.ts:247-262 | no block of one outcome is longer than the longest streak |
| `Performance.LongestRunIsBlock` | src/lib/calculator.ts:247-262 | the longest streak is the length of some block |
| `Performance.LongestStreaks` | src/lib/calculator.ts:247-262 | the streak loop yields the longest winning and losing streaks |
| `Performance.CurrentStreakText` | src/lib/calculator.ts:264-287 | "N/A" without trades; otherwise `W`/`L`/`B/E ` and the length of the trailing run of the last trade's outcome |
| `Performance.TrailingRunStops` | src/lib/calculator.ts:269-272 | the trade before the trailing run has another outcome |
| `Performance.CurrentStreakBounds` | src/lib/calculator.ts:264-287 | the current streak counts at least the last trade and stops at a different outcome |
| `Performance.DirectionTotals` | src/lib/calculator.ts:236-245 | long and other trades totalled separately; a P/L that is not positive counts as a loss |
| `Performance.DirectionsPartitionTotals` | src/lib/calculator.ts:236-245 | long and short totals add up to the overall profit and loss |
| `Performance.OptionalRatio` | src/lib/calculator.ts:204 | a ratio exists exactly for a positive divisor and times it gives the dividend |
| `Performance.CalculatePerformanceStats` | src/lib/calculator.ts:179-290 | `null` exactly without a valid trade; otherwise the statistics of the valid trades in date order |
| `Performance.StatsOfTrades` | src/lib/calculator.ts:197-289 | the record describes the trades: rates, averages, largest, drawdown, streaks, directions |
| `Performance.OutcomeStats` | src/lib/calculator.ts:197-222 | counts, totals, largest values and the R-multiple average of the trades |
| `Performance.SequenceStats` | src/lib/calculator.ts:224-287 | drawdown, recovery factor, streaks and direction totals of the trades in order |
| `Performance.AverageRMultiple` | src/lib/calculator.ts:222 | the mean R multiple, 0 without counted trades |
| `Performance.RateStats` | src/lib/calculator.ts:200-234 | win rate, profit factor, average win/loss, their ratio and expectancy fit the counts and totals |
| `Performance.EquityStats` | src/lib/calculator.ts:224-232 | the maximum drawdown and the net P/L over it (0 without a drawdown) |
| `Performance.AverageLossPositive` | src/lib/calculator.ts:207 | the average loss is positive exactly when some trade lost |
| `Performance.ExpectancyIsMeanPnl` | src/lib/calculator.ts:233-234 | expectancy times the trade count is the net P/L: it is the mean P/L per trade |
| `Performance.CalculateSymbolPerformance` | src/lib/calculator.ts:297-329 | the per-symbol loop computes the per-symbol table |
| `Performance.SymbolPerformanceTotals` | src/lib/calculator.ts:298-326 | a symbol has an entry iff it has closed trades; its totals, counted trades and wins are those of its trades |
| `Performance.WonAtMostTotal` | src/lib/calculator.ts:318-324 | no symbol has more wins than counted trades |
| `CalculationStore.ParseTargets` | src/stores/calculationStore.ts:31 | one parsed target per row, price and percent through `parseDecimal`, lock kept |
| `CalculationStore.StoreValidate` | src/stores/calculationStore.ts:19-73 | incomplete exactly for a missing required field, ATR inputs without entry, or a non-positive stop-loss; valid results carry the stop-loss in use on the losing side and percents summing to at most 100 |
| `CalculationStore.ActiveIndices` | src/stores/calculationStore.ts:100-101 | exactly the positions of targets with positive price and percent, increasing |
| `CalculationStore.TpDetails` | src/stores/calculationStore.ts:99-106 | one detail per active target |
| `CalculationStore.TpDetailsOfActiveTargets` | src/stores/calculationStore.ts:99-106 | detail `k` is `calculateIndividualTp` of the `k`-th active target, with its position as index |
| `CalculationStore.ResultsFor` | src/stores/calculationStore.ts:89-117 | size and negated net loss shown; liquidation only above leverage 1; totals group shown iff some percent is sold |
| `CalculationStore.Calculate` | src/stores/calculationStore.ts:16-126 | an error record (initial results, no trade data) or results with trade data, never both; the prompt exactly for incomplete input |
| `App.ValidateInputs` | src/services/app.ts:71-155 | incomplete, invalid (with the side or percent rule broken) or valid, with the ATR stop-loss derived and reported |
| `App.TargetViolation` | src/services/app.ts:137-147 | no violation iff every priced target lies on the profit side of stop-loss and entry; else the first offending target's reason |
| `App.ApplyLock` | src/services/app.ts:184-215 | refused exactly under an active position lock with the stop-loss at the entry; otherwise the locks are kept |
| `App.RiskLockSetsPercentage` | src/services/app.ts:184-191 | a locked risk amount sets risk % = amount / account × 100, so the metrics risk exactly that amount |
| `App.RiskLockExample` | src/services/app.test.ts:305-324 | locking 200 on an account of 10000 sets 2 % |
| `App.PositionLockKeepsSize` | src/services/app.ts:193-207 | a locked size sets the risk amount to distance × size and the metrics size the position at the locked size |
| `App.LockedSizeMetrics` | src/services/app.ts:200-207 | metrics computed from the percentage a locked size implies give that size |
| `App.ReportThenClearLosesMessage` | src/services/app.ts:169-174 | as written, showing the error then clearing the results hides the error again |
| `App.ReportError` | src/services/app.ts:169-174 | the intended report: the message stays shown, suggestions untouched |
| `App.CalculateAndDisplaySpec` | src/services/app.ts:66-264 | an invalid input or a stop-loss at the entry is shown and then cleared away with the results; locks are kept, except that a failed calculation under a position lock releases both; lock consistency is preserved |
| `App.TogglePositionSizeLockSpec` | src/services/app.ts:697-715 | locking without a positive displayed size is refused with a message; otherwise the size lock takes the displayed size and the risk lock is released |
| `App.ToggleRiskAmountLockSpec` | src/services/app.ts:717-734 | locking without a positive risk amount is refused; otherwise the risk lock takes the requested state and the size lock is released |
| `App.CalculateAndDisplayErrors` | src/services/app.ts:159-179 | an invalid ATR stop-loss shows only the flag; incomplete input clears and prompts; invalid input clears the results, and its reason, shown first, ends hidden; inputs unchanged |
| `App.CalculateAndDisplaySuccess` | src/services/app.ts:223-262 | a success shows no error and a positive size, and records the trade data with the stop-loss in use |
| `App.CalculateAndDisplayLockedSize` | src/services/app.ts:207 | under an active size lock the displayed size is the locked one |
| `App.ToUpper` | src/services/app.ts:690 | `toUpperCase`: same length, letter by letter |
| `App.RemoveFirst` | src/services/app.ts:690 | `replace('/', '')`: the first slash removed, nothing else |
| `App.StartingWith` | src/services/app.ts:693 | exactly the listed symbols starting with the query |
| `App.SymbolSuggestionsSpec` | src/services/app.ts:689-696 | suggestions are the symbols starting with the normalised query, shown iff there are any; none for an empty query |
| `App.SymbolQueryNormalised` | src/services/app.ts:690 | "btc/u" is looked up as "BTCU" |
| `App.ClearResults` | src/services/app.ts:266-273 | results reset; the prompt shown with guidance, the error hidden otherwise; inputs unchanged |
| `App.ReportInvalid` | src/services/app.ts:169-174 | the message is shown, then the results are reset and the error hidden again |
| `App.ApplyLocks` | src/services/app.ts:184-215 | the lock branches write risk % and amount back and yield the metrics; a stop-loss at the entry is shown and then cleared with the results |
| `App.LockPosition` | src/services/app.ts:193-207 | the position-lock branch as `PositionLock`; a stop-loss at the entry is shown and then cleared with the results |
| `App.CalculateAndDisplay` | src/services/app.ts:66-264 | the stores end as `CalculateAndDisplaySpec` of their old state |
| `App.TogglePositionSizeLock` | src/services/app.ts:697-715 | the stores end as `TogglePositionSizeLockSpec` of their old state |
| `App.ToggleRiskAmountLock` | src/services/app.ts:717-734 | the stores end as `ToggleRiskAmountLockSpec` of their old state |
| `App.UpdateSymbolSuggestions` | src/services/app.ts:689-696 | only the interface changes, as `SymbolSuggestionsSpec` |
| `Rebalance.UnlockedCount` | src/services/app.ts:766-767 | the number of unlocked targets is bounded by the targets seen |
| `Rebalance.LastUnlocked` | src/services/app.ts:793-796 | the last unlocked target: unlocked, only locked ones after it, -1 exactly without one |
| `Rebalance.SumSplits` | src/services/app.ts:760-770 | every percent is locked or unlocked: the sum splits in two |
| `Rebalance.Scaled` | src/services/app.ts:776-784 | locked percents kept; unlocked ones set to the share or scaled |
| `Rebalance.ScaledUpTo` | src/services/app.ts:782-783 | scaling every unlocked percent by `f` scales their sum by `f` |
| `Rebalance.SharedUpTo` | src/services/app.ts:778-779 | equal shares sum to count × share |
| `Rebalance.ScaledReachesTarget` | src/services/app.ts:776-784 | after rescaling the unlocked percents sum to 100 − locked, unless all were zero and nothing is left |
| `Rebalance.ScaledByFactor` | src/services/app.ts:782-783 | with a non-zero unlocked sum, scaling by target / sum reaches the target |
| `Rebalance.ScaledByShare` | src/services/app.ts:777-779 | with a zero unlocked sum and a positive target, equal shares reach the target |
| `Rebalance.ScaledKeepsZeros` | src/services/app.ts:776-777 | zero unlocked percents and no positive target: nothing changes |
| `Rebalance.Rounded` | src/services/app.ts:786-796 | locked kept; unlocked but last rounded half-up; the last takes the rounded remainder |
| `Rebalance.RebalancedPercents` | src/services/app.ts:754-796 | one new percent per target |
| `Rebalance.WithPercents` | src/services/app.ts:798-802 | the new percents with prices and locks as they were |
| `Rebalance.StoredDecimal` | src/services/app.ts:806-807 | the stored percent `.equals` is called on: missing for exactly a text percent |
| `Rebalance.ChangeScan` | src/services/app.ts:804-809 | `hasChanged` as written: no change iff every stored percent equals the new one; throwing only at a text percent, and at one met first |
| `Rebalance.ChangeScanWithoutText` | src/services/app.ts:804-809 | without text percents `hasChanged` does not throw and finds a change iff some percent differs |
| `Rebalance.AdjustedTargets` | src/services/app.ts:742-814 | as written: prices and locks kept; unchanged for a locked edited row, locked sum above 100, no unlocked row, or when `hasChanged` throws |
| `Rebalance.AdjustedTargetsIntended` | src/services/app.ts:798-813 | the intended comparison: prices and locks kept, unchanged when there is nothing to rebalance |
| `Rebalance.RoundedBelowInteger` | src/services/app.ts:786-791 | the running sum of rounded percents is whole |
| `Rebalance.RoundedUpTo` | src/services/app.ts:786-791 | up to the last unlocked target the rounded percents sum to the running sum |
| `Rebalance.RoundedShape` | src/services/app.ts:786-796 | unlocked results are whole, each but the last within half a percent of its scaled value |
| `Rebalance.RoundedLast` | src/services/app.ts:793-796 | the last unlocked target takes the rounded remainder |
| `Rebalance.RemainderIsWhole` | src/services/app.ts:795 | the remainder is whole for a whole target, so rounding keeps it |
| `Rebalance.RoundedReachesTarget` | src/services/app.ts:786-796 | for a whole target the unlocked rounded percents make it up exactly |
| `Rebalance.TotalIsHundred` | src/services/app.ts:760-796 | locked kept plus unlocked making up the rest: all sum to 100 |
| `Rebalance.RebalancedProperties` | src/services/app.ts:742-814 | locked percents kept, unlocked ones whole; with whole locked percents all sum to exactly 100 |
| `Rebalance.AdjustedTargetsRead` | src/services/app.ts:798-813 | as written: when `hasChanged` throws the targets are unchanged; otherwise they read as the new percents, written back or not |
| `Rebalance.AdjustedTargetsIntendedRead` | src/services/app.ts:798-813 | with the intended comparison the targets always read as the new percents |
| `Rebalance.ClearedFirstPlan` | src/services/app.ts:754-796 | a cleared first percent with 25/25 after it is rebalanced to 0/50/50 |
| `Rebalance.ClearedFirstPercentThrows` | src/services/app.ts:804-813 | for that input the plan is 0/50/50, `hasChanged` throws and nothing is written; the intended comparison writes 0/50/50 |
| `Rebalance.AdjustedBalanced` | src/services/app.ts:772-813 | targets written back without a throw, with whole locked percents, leave nothing to rebalance |
| `Rebalance.AdjustIdempotent` | src/services/app.ts:772-774 | with whole locked percents, adjusting twice is adjusting once |
| `Rebalance.AdjustTpPercentages` | src/services/app.ts:742-814 | only the targets change, to `AdjustedTargets`; `threw` is set exactly when `hasChanged` throws |
| `Rebalance.ComputePlan` | src/services/app.ts:746-796 | the computing part yields `PlanFor` |
| `Rebalance.Rescale` | src/services/app.ts:776-784 | the share or scaling step yields `Scaled` |
| `Rebalance.SetUnlocked` | src/services/app.ts:778-779 | every unlocked percent set to the share, locked ones kept |
| `Rebalance.ScaleUnlocked` | src/services/app.ts:782-783 | every unlocked percent times the factor, locked ones kept |
| `Rebalance.RoundUnlocked` | src/services/app.ts:786-796 | the rounding loop yields `Rounded` |
| `Rebalance.Differs` | src/services/app.ts:804-809 | the `some` loop yields `ChangeScan`: stops at the first difference or text percent |
| `Journal.IndexOfId` | src/services/app.ts:316 | `findIndex`: -1 iff no entry has the id, otherwise the first such entry |
| `Journal.WithStatus` | src/services/app.ts:318-328 | status set; a missing P/L filled from net profit on 'Won', negated net loss on 'Lost'; other fields kept |
| `Journal.UpdatedStatus` | src/services/app.ts:314-334 | only the first entry with the id changes; nothing without one; ids kept |
| `Journal.PnlEditOf` | src/services/app.ts:343 | missing or blank text clears, a readable number sets, anything else is rejected |
| `Journal.PnlEdited` | src/services/app.ts:335-353 | only the first entry with the id changes its P/L; a rejection or a missing id changes nothing |
| `Journal.WithoutId` | src/services/app.ts:355 | exactly the entries with another id, order kept |
| `Journal.WithoutIdUnique` | src/services/app.ts:355 | deleting keeps ids distinct |
| `Journal.WithoutIdIdempotent` | src/services/app.ts:354-358 | deleting an id twice is deleting it once |
| `Journal.Split` | src/services/app.ts:541 | `split(c)`: one more piece than separators, no piece holds the separator |
| `Journal.JoinSplit` | src/services/app.ts:541 | joining the pieces of a split gives the text back |
| `Journal.SplitJoin` | src/services/app.ts:551 | splitting a join of separator-free pieces gives the pieces back |
| `Journal.NonBlank` | src/services/app.ts:535 | exactly the lines whose trim is not empty, in order |
| `Journal.TrimAll` | src/services/app.ts:541 | every header trimmed |
| `Journal.Missing` | src/services/app.ts:543 | exactly the required headers the file lacks |
| `Journal.RowRecordReads` | src/services/app.ts:552-555 | the record has the headers as keys, each reading the cell of its last occurrence |
| `Journal.ToLower` | src/services/app.ts:576 | `toLowerCase`: same length, letter by letter |
| `Journal.StatusOf` | src/services/app.ts:577 | the status cell as the journal's status |
| `Journal.NewlinesToSpaces` | src/services/app.ts:516 | same length, line breaks become spaces, other characters kept |
| `Journal.DoubleQuotes` | src/services/app.ts:516 | every quote doubled, nothing else changed |
| `Journal.UndoubleQuotes` | src/services/app.ts:588 | no longer than the input; a text without quotes is kept |
| `Journal.Unwrap` | src/services/app.ts:588 | `slice(1, -1)`: the text between the first and last character |
| `Journal.ExportedNotes` | src/services/app.ts:516 | non-empty notes are written between double quotes |
| `Journal.UndoubleDoubled` | src/services/app.ts:588 | undoubling undoes doubling |
| `Journal.ExportedCellKept` | src/services/app.ts:553 | the import's trim leaves an exported notes cell as it is |
| `Journal.NotesRoundTrip` | src/services/app.ts:588 | notes without a comma survive export and (corrected) import, up to line breaks |
| `Journal.ExportedQuote` | src/services/app.ts:516 | a note of one quote is exported as four quotes |
| `Journal.NotesLostAsWritten` | src/services/app.ts:588 | the import as written reads that cell as empty notes; the corrected order gives the quote back |
| `Journal.CsvTargets` | src/services/app.ts:558-569 | one unlocked target per filled pair, in order, prices and percents parsed |
| `Journal.CsvTargetsCount` | src/services/app.ts:559-568 | with every pair filled, one target per pair |
| `Journal.CsvTargetsAllFilled` | src/services/app.ts:559-568 | with every pair filled, target `i` comes from pair `i + 1` |
| `Journal.EntryOf` | src/services/app.ts:571-595 | the entry of a row: defaults 0, leverage 1, fees 0.1; no realized P/L; notes read as written (undoubled, then stripped); dropped when its date does not parse |
| `Journal.RowEntries` | src/services/app.ts:550-596 | the entries of the data rows in order, dropped rows left out |
| `Journal.CsvImport` | src/services/app.ts:534-610 | fewer than two lines, a missing column, no usable row, or the entries |
| `Journal.CsvRequiresColumns` | src/services/app.ts:541-548 | a file is refused for its columns exactly when a required header is missing |
| `Journal.FirstIds` | src/services/app.ts:601 | the distinct ids in order of first appearance |
| `Journal.LastWithId` | src/services/app.ts:601 | the map keeps the last entry with an id |
| `Journal.MergeById` | src/services/app.ts:601 | one entry per id, in first-appearance order, each the last with that id |
| `Journal.LastWithIdAppend` | src/services/app.ts:601 | in `a + b` the last entry with an id comes from `b` when `b` has it |
| `Journal.FirstIdsAppend` | src/services/app.ts:600-601 | the ids of `a` come first, in order, among those of `a + b` |
| `Journal.LastWithIdUnique` | src/services/app.ts:316 | with distinct ids the map's entry is the one `findIndex` finds |
| `Journal.ImportMergeIds` | src/services/app.ts:600-601 | the merge keeps every id of both lists, adds none, journal ids first |
| `Journal.ImportOverrides` | src/services/app.ts:600-601 | an imported entry replaces the journal's entry with its id |
| `Journal.KeptInMerge` | src/services/app.ts:600-601 | a journal entry whose id was not imported stays, in its place |
| `Journal.ImportKeepsOthers` | src/services/app.ts:600-601 | every journal entry whose id was not imported stays, in its place |
| `Journal.JournalStore.UpdateTradeStatus` | src/services/app.ts:314-334 | the journal becomes `UpdatedStatus`; distinct ids stay distinct |
| `Journal.JournalStore.UpdateRealizedPnl` | src/services/app.ts:335-353 | the journal becomes `PnlEdited`; an error is shown exactly for a rejected text on an existing id |
| `Journal.JournalStore.DeleteTrade` | src/services/app.ts:354-358 | the journal loses exactly the entries with the id; distinct ids stay distinct |
| `Journal.JournalStore.ImportFromCsv` | src/services/app.ts:530-613 | an error for a short file, missing columns or no rows; otherwise on confirmation the merged journal |
| `Journal.ReadRows` | src/services/app.ts:550-596 | the row loop yields `RowEntries` |
| `Journal.ReadTargets` | src/services/app.ts:558-569 | the pair loop yields `CsvTargets` of pairs 1 to 5 |
| `Journal.ReadEntry` | src/services/app.ts:557-595 | the row callback yields `EntryOf` |
| `VisualBar.PositivePrices` | src/services/uiManager.ts:34 | exactly the positive target prices |
| `VisualBar.Highest` | src/services/uiManager.ts:38 | `Decimal.max`: bounds every price and is one of them |
| `VisualBar.Lowest` | src/services/uiManager.ts:39 | `Decimal.min`: bounded by every price and is one of them |
| `VisualBar.BarScale` | src/services/uiManager.ts:35-41 | no scale when a price is not positive or the range is empty; otherwise lowest price and positive range |
| `VisualBar.PositionInBar` | src/services/uiManager.ts:43-44 | a price in the range lies between 0 and 100, the ends at the ends |
| `VisualBar.Zones` | src/services/uiManager.ts:46-52 | long: loss zone from stop-loss to entry, gain zone to 100; otherwise gain from 0 to entry, loss to stop-loss |
| `VisualBar.DetailMarkers` | src/services/uiManager.ts:57-67 | one marker per detail at its target's price, labelled `TP{index+1}` with its reward/risk |
| `VisualBar.AllPrices` | src/services/uiManager.ts:35 | entry, stop-loss, then the positive target prices |
| `VisualBar.ScaleExists` | src/services/uiManager.ts:36-41 | a scale exists iff entry and stop-loss are positive and the prices span a range |
| `VisualBar.EmptyBarCases` | src/services/uiManager.ts:26-69 | empty iff entry or stop-loss not positive or all prices equal; otherwise two zones and the fixed markers |
| `VisualBar.PriceInBar` | src/services/uiManager.ts:43-44 | every price the scale was taken from lies between 0 and 100 |
| `VisualBar.PositionsInBar` | src/services/uiManager.ts:43-55 | stop-loss and entry markers lie between 0 and 100 |
| `VisualBar.TpPositionsInBar` | src/services/uiManager.ts:57-67 | every target marker with a positive price lies between 0 and 100 |
| `VisualBar.BarLayout` | src/services/uiManager.ts:46-67 | SL marker, entry marker, then one per detail; zones laid out by direction |
| `LibVisualBar.TargetMarkers` | src/lib/uiManager.ts:70-75 | one marker per target on the profit side of the entry, labelled `TP{i+1}`, in target order |
| `LibVisualBar.TargetMarkersCount` | src/lib/uiManager.ts:70-75 | as many markers as shown targets |
| `LibVisualBar.LibEmptyBarCases` | src/lib/uiManager.ts:47-54 | the older bar is empty in the same cases as the newer |
| `LibVisualBar.LibUpdateVisualBar` | src/lib/uiManager.ts:43-78 | the older bar as written: the newer bar's zones, and its markers followed by any extra target markers |
| `LibVisualBar.LibBarLayout` | src/lib/uiManager.ts:59-75 | as written: two zones, SL and entry markers, then one per target on the profit side of the entry, with or without a price |
| `LibVisualBar.LibPositionsInBar` | src/lib/uiManager.ts:56-75 | the intended bar, with markers only for positive prices: every marker lies between 0 and 100 |
| `LibVisualBar.TargetMarkersInBar` | src/lib/uiManager.ts:70-75 | target markers with positive prices lie between 0 and 100 |
| `LibVisualBar.EmptyShortTargetMarked` | src/lib/uiManager.ts:70-75 | as written, an empty target row of a short trade gets a third marker, `TP1` at -1000; the intended bar has only the SL and entry markers |
| `LibVisualBar.EmptyTargetScale` | src/lib/uiManager.ts:47-54 | one empty target, entry 100, stop-loss 110: the bar spans 100 to 110 |
| `InputFormat.CommasToDots` | src/utils/inputUtils.ts:6 | every comma becomes a dot, nothing else changes |
| `InputFormat.UpToDot` | src/utils/inputUtils.ts:23 | `split('.')[1]`: the prefix up to the next dot |
| `InputFormat.FormatValue` | src/utils/inputUtils.ts:4-37 | the sanitised text, or `maxValue`'s text when a bound replaced it |
| `InputFormat.KeepAllowedOnlyAllowed` | src/utils/inputUtils.ts:9-13 | step 2 keeps only digits (and dots unless `noDecimals`), in order |
| `InputFormat.KeepAllowedFixed` | src/utils/inputUtils.ts:9-13 | step 2 leaves an all-allowed text alone |
| `InputFormat.NoCommaFixed` | src/utils/inputUtils.ts:6 | step 1 leaves a text without commas alone |
| `InputFormat.RemoveDotsProperties` | src/utils/inputUtils.ts:18 | `join('')` of the later parts: no dots, nothing added |
| `InputFormat.KeepFirstDotProperties` | src/utils/inputUtils.ts:16-19 | step 3 leaves at most one dot, keeps the text before the first, removes only dots |
| `InputFormat.CollapsedAllowed` | src/utils/inputUtils.ts:18 | collapsing the later dots keeps only allowed characters |
| `InputFormat.CollapsedCount` | src/utils/inputUtils.ts:18 | collapsing leaves exactly one dot and no longer text |
| `InputFormat.CollapsedFirstDot` | src/utils/inputUtils.ts:18 | collapsing keeps the first dot and the text before it |
| `InputFormat.LimitDecimalsProperties` | src/utils/inputUtils.ts:22-27 | step 4 keeps a prefix after which the decimals fit |
| `InputFormat.LimitedPrefix` | src/utils/inputUtils.ts:25 | cutting after `dp` decimals keeps the dot in place |
| `InputFormat.SanitiseIsClean` | src/utils/inputUtils.ts:4-28 | steps 1–4 yield a clean text no longer than the input |
| `InputFormat.CleanIsFixed` | src/utils/inputUtils.ts:4-28 | steps 1–4 leave a clean text alone |
| `InputFormat.LimitFixed` | src/utils/inputUtils.ts:22-27 | a clean text has no decimals to cut |
| `InputFormat.SanitiseIdempotent` | src/utils/inputUtils.ts:4-28 | steps 1–4 are idempotent |
| `InputFormat.FormatValueOutput` | src/utils/inputUtils.ts:4-37 | output has no comma, only allowed characters, one dot at most, limited decimals, unless replaced by the bound |
| `InputFormat.FormatValueSettles` | src/utils/inputUtils.ts:30-34 | when the bound's text is settled, formatting settles after one pass |
| `InputFormat.FormatValueIdempotent` | src/utils/inputUtils.ts:39-57 | `formatValue` is idempotent, so the re-dispatched event changes nothing |
| `InputFormat.Rewrite` | src/utils/inputUtils.ts:47-56 | new text written, selection shifted by the length change when present, one event dispatched |
| `InputFormat.NumberInput.constructor` | src/utils/inputUtils.ts:1-2 | the action starts with the given options |
| `InputFormat.NumberInput.HandleInput` | src/utils/inputUtils.ts:39-57 | rewrites only when the formatted text differs; afterwards the field is settled |
| `InputFormat.NumberInput.Update` | src/utils/inputUtils.ts:85-92 | decimal places and bound replaced outright; `isPercentage` and `noDecimals` kept unless given |
| `LibInputFormat.AsOptions` | src/lib/inputUtils.ts:5-28 | the older pipeline is the newer one with dots allowed, places limited, no bound |
| `LibInputFormat.LibFormatValueOutput` | src/lib/inputUtils.ts:5-28 | output has only digits, one dot at most, limited decimals, and is no longer than the input |
| `LibInputFormat.LibFormatValueShorter` | src/lib/inputUtils.ts:5-28 | the output is never longer than the input |
| `LibInputFormat.LibFormatValueIdempotent` | src/lib/inputUtils.ts:5-28 | the older `formatValue` is idempotent |
| `LibInputFormat.LibNumberInput.constructor` | src/lib/inputUtils.ts:2-3 | the decimal places are fixed at creation |
| `LibInputFormat.LibNumberInput.HandleInput` | src/lib/inputUtils.ts:30-48 | rewrites only when the text differs; the result is settled and no longer |
| `LibInputFormat.LibNumberInput.Update` | src/lib/inputUtils.ts:53-55 | replaces the options object, formatting unaffected |
| `Backup.GetItem` | src/services/backupService.ts:35-38 | the stored string for a present key, `null` otherwise |
| `Backup.Rejection` | src/services/backupService.ts:77-94 | accepted iff in a browser, parsed, this app's name, a version that is non-zero and at most 1, and data present; checks in source order |
| `Backup.RestoredKeys` | src/services/backupService.ts:97-105 | each of the three keys is written iff its value is a non-empty string; no other key is touched |
| `Backup.LocalStorage.CreateBackup` | src/services/backupService.ts:43-55 | outside a browser nothing; otherwise version 1, this app's name and the raw strings of the three keys |
| `Backup.RestoreWritesStop` | src/services/backupService.ts:97-113 | the writes fail iff a key to be written fails; without a failure the storage is `Restored`; other keys and the failing ones keep their values |
| `Backup.LocalStorage.RestoreFromBackup` | src/services/backupService.ts:77-114 | a rejection leaves storage unchanged with its message; acceptance writes the non-empty values in order, and a failing write stops there and reports an invalid file |
| `Backup.SnapshotRestores` | src/services/backupService.ts:46-105 | a backup passes validation, and restoring it sets each captured non-empty key back, leaving others |
| `Backup.RestoreOwnSnapshot` | src/services/backupService.ts:46-105 | restoring a storage's own backup into it changes nothing |
| `Presets.NameList` | src/lib/presets.ts:34 | the names as a JSON array of strings, in order |
| `Presets.Without` | src/lib/presets.ts:49 | `delete presets[name]` on the key list: the names but `name`, distinct stays distinct |
| `Presets.ClearedResults` | src/lib/stores.ts:211-232 | the cleared result fields; the error flag shown exactly with guidance; selection and presets untouched |
| `Presets.Spread` | src/lib/presets.ts:72-76 | `{...state, ...overlay}`: overlay fields win, other state fields kept |
| `Presets.PresetStore.SavePreset` | src/lib/presets.ts:26-40 | on success: stored, a new name appended, the names published and `name` selected; on write failure nothing |
| `Presets.PresetStore.DeletePreset` | src/lib/presets.ts:46-60 | on success: removed from storage and list, selection cleared iff it was `name`; on write failure nothing |
| `Presets.PresetStore.ApplyPreset` | src/lib/presets.ts:66-79 | unknown name: nothing; known: preset overlaid, selected, then results cleared with guidance |
| `Presets.DeselectedIff` | src/lib/presets.ts:55 | the selection is cleared iff it named the deleted preset (or was already empty), kept otherwise |
| `Presets.AppliedFields` | src/lib/presets.ts:71-77 | after applying, non-result fields hold the preset's value or their old one; the name is selected; the prompt shown |
| `Presets.PublishedNames` | src/lib/presets.ts:34 | the published list names exactly the stored presets, each once |
| `TradeStore.InitialTradeState` | src/stores/tradeStore.ts:7-57 | no lock, no locked size, no risk amount; three unlocked target rows without a price |
| `TradeStore.TargetPercents` | src/stores/tradeStore.ts:45-49 | the percent of each row as `parseDecimal` reads it |
| `TradeStore.InitialPercentsSumToHundred` | src/stores/tradeStore.ts:45-49 | the initial targets split 50/25/25, summing to 100 |
| `TradeStore.InitialPercentsParse` | src/stores/tradeStore.ts:46-48 | the initial percent texts read as 50 and 25 |
| `TradeStore.Stores.constructor` | src/stores/tradeStore.ts:59 | the stores start at the initial trade, results and interface states |
| `TradeStore.Stores.ToggleAtrInputs` | src/stores/tradeStore.ts:67-73 | sets the flag, switching on sets the ATR mode to automatic, nothing else changes |
| `TradeStore.Stores.ResetAllInputs` | src/stores/tradeStore.ts:76-80 | inputs and results back to their initial values and the data prompt shown |

## Left out

- Formatting of the displayed numbers (`formatDynamicDecimal`, `toFixed`, `toDP`, locale date and time strings, the ATR formula text) is not modelled; the results carry the numbers themselves.
- decimal.js rounds to 20 significant digits; the model's arithmetic is exact.
- Performance.RateStats: `winRate` and `lossRate` are JavaScript floating-point numbers in the source (`(count / total) * 100`), and the expectancy is built from those rounded rates; the model's rates are exact, so `RateStats` and `Performance.ExpectancyIsMeanPnl` hold in the source only up to that float rounding (1 win of 10 and 2 losses of 1 give an expectancy of 2.6666666666666664 there, 8/3 here).
- `slippage` is read but never used by the calculation; it is kept as a field only.
- The German and English message texts are a `Message`/`InvalidReason` datatype; their wording is not modelled.
- Analytics (`trackCustomEvent`, onboarding tracking), `saveSettings`, `showFeedback` and the `saveJournal` storage error are left out: they do not change the modelled state.
- Network access (`handleFetchPrice`, `fetchAtr`, the ticker and kline endpoints) is not part of this model; `calculateATR` receives the candles.
- `debounce` and `handleKeyDown` (arrow-key stepping with `parseFloat`) are not modelled.
- `toUpperCase`/`toLowerCase` are modelled on the ASCII letters only.
- JSON parsing and serialisation (backup files, presets, the journal's `superjson`) are abstract: the restore receives the parsed file or `None`.
- A backup payload field that is not a string is not modelled; the data fields are optional strings.
- The download of a backup or a CSV export (`Blob`, object URLs, link clicks) is not modelled; the export's notes cell and line joining are.
- `loadPresets` falling back to `{}` on a parse failure is not modelled; the stored presets are a map.
- `Object.keys` lists integer-like names first; the model keeps insertion order for every preset name.
- A failing `setItem` is the `writeFails` parameter of `SavePreset` and `DeletePreset`, and the `failing` keys of `RestoreFromBackup`.
- The browser check is the `inBrowser` parameter; outside a browser only the backup service's answers are modelled.
- `Backup.Rejection`: a negative `backupVersion` passes validation, as in the code (`!backup.backupVersion` is false for it).
- The confirmation dialog of the CSV import is the `confirmed` parameter.
- `parseInt`, `parseGermanDate` and the trade-type mapping of the CSV import are the `CsvReaders` parameter; a date that does not parse drops the row.
- The decimal.js constructor on a typed P/L is the `decimalOf` parameter.
- A comma inside exported notes splits the CSV row on import; `Journal.NotesRoundTrip` requires notes without a comma.
- `new Error('dashboard.promptForData')` in `resetAllInputs` is modelled as the prompt message itself.
- The journal is one list; the source keeps a local-storage copy and `journalStore` and writes both together.
- `getJournal`, `addTrade` and `clearJournal` are not modelled: they read and write storage or depend on the clock.
- `Journal.JournalStore.UpdateRealizedPnl` does not state that distinct ids stay distinct; `Journal.SameIdsUnique` gives it, since the ids are unchanged.
- The style strings of the bar (`"<n>%"`) are kept as the numbers they print.
- Utils.ParseDecimal: `new Decimal(text)` throws for a text that `isNaN` accepts but decimal.js rejects, such as " 5" with a leading space; the `valueOf` parameter gives every numeric text a value, so that exception and its propagation to the callers are not modelled.
- `adjustTpPercentages` copies the targets through JSON, which turns a Decimal price into its string; the model keeps the price value as it was.
- `feeAdjustedRRR`, expected by one test file, does not exist in the code and is not modelled.
- The constants file is not part of this model; its values are the `Config` and `StorageKeys` parameters.

## Findings

| source | as written | input that shows it | evidently intended | confidence | as-written member | corrected member |
|---|---|---|---|---|---|---|
| src/services/app.ts:169-174 | an invalid input calls `showError(message)` and then `clearResults()`, whose `hideError` removes the message again (the same at lines 195-199) | any invalid input, e.g. a long trade with the stop-loss above the entry | the reason stays on screen next to the cleared results | high, not executed | `App.ReportThenClearLosesMessage` | `App.ReportError` |
| src/services/app.ts:588 | the import undoubles the quotes before stripping the outer ones | a note consisting of one `"`, exported as `""""`, is imported as an empty note | strip the outer quotes, then undouble, which gives the note back | high, not executed | `Journal.NotesLostAsWritten` | `Journal.NotesRoundTrip` |
| src/services/app.ts:804-809 | `hasChanged` calls `.equals` on the stored percent, and a percent held as text, as the inputs store it, has no such method: a `TypeError` is thrown and nothing is written | first percent field cleared (""), the other two 25: the plan is 0/50/50 but the targets stay as they were | compare the percents read as numbers | medium, not executed | `Rebalance.ClearedFirstPercentThrows` | `Rebalance.AdjustedTargetsIntendedRead` |
| src/lib/uiManager.ts:70-75 | target markers are placed for every target on the profit side of the entry, including targets without a price | a short trade, entry 100, stop-loss 110, one empty target row: a `TP1` marker at -1000 | markers only for positive target prices, as the scale assumes | medium, not executed | `LibVisualBar.EmptyShortTargetMarked` | `LibVisualBar.LibPositionsInBar` |
