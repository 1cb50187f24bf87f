# Nora-TS trading core in Dafny

This project models the arithmetic and decision logic of the Nora-TS trading SDK. It covers four parts:

- **Indicators** (`TechnicalAnalysis`): SMA, EMA, RSI, MACD and Bollinger Bands over candle closes.
- **`RiskManager`**: position sizing by the smaller of a risk cap and a size cap. Trade validation is an ordered two-stage rule: first the risk budget, then a reward/risk ratio of 2.
- **`Position`**: one open trade. It holds the long or short unrealised P&L and decides stop-loss and take-profit closing on JavaScript truthiness.
- **`PerformanceAnalytics`**: the Sharpe ratio and the maximum drawdown of an equity curve.

Numbers are Dafny `real`s, so arithmetic is exact. Where the source divides by a quantity that can be zero, the result is a `Value`: a finite real, ±Infinity or NaN, following JavaScript. Affected divisions are:

- RSI's relative strength;
- position sizing;
- the reward/risk ratio;
- the Sharpe ratio;
- each drawdown.

No precondition excludes those inputs. The square root is a function parameter `sqrt`. It is constrained only by `IsSqrt`: on non-negative arguments `sqrt(x) >= 0` and `sqrt(x) * sqrt(x) == x`.

Loops in the source are methods with loop invariants. Each is proved equal to a specification function, and the lemmas are proved about those functions:

- the SMA running sum;
- the EMA recurrence;
- the RSI changes and smoothing;
- the MACD line;
- the Bollinger band loop;
- the drawdown scan.

The EMA and Bollinger methods compute on closes scaled by 1e10, as the source does. They are proved equal to the unscaled definitions, because every step is homogeneous.

Files:

| file | module | models |
|---|---|---|
| `numbers.dfy` | `Numbers` | sums, squared deviations, `Value` with IEEE division, `Math.min` and `<`, the square-root facts |
| `indicator_types.dfy` | `IndicatorTypes` | `HistoricalCandle`, `MACDResult`, `BollingerBandsResult` |
| `moving_averages.dfy` | `MovingAverages` | `calculateSMA`, `calculateEMA`, the 1e10 scaling |
| `rsi.dfy` | `Rsi` | `calculateRSI` |
| `macd.dfy` | `Macd` | `calculateMACD` |
| `bollinger.dfy` | `Bollinger` | `calculateBollingerBands` |
| `technical_findings.dfy` | `TechnicalFindings` | the two indicator findings below, with as-written and corrected forms |
| `risk_manager.dfy` | `Risk` | `RiskManager` |
| `position.dfy` | `Positions` | `Position`, `PositionConfig` |
| `performance.dfy` | `Performance` | `PerformanceAnalytics` |

Some behaviour is kept exactly as the source has it, with no correction:

- **Risk check.** `validateTrade` compares the per-unit stop distance with the whole currency budget (`src/trading/RiskManager.ts:57`). `Risk.RiskManager.ValidateTrade` does the same.
- **Zero bounds.** A stop-loss or take-profit of 0 is treated as absent, and a leverage of 0 becomes 1 (`src/trading/Position.ts:22,37-40`).

## Model

| member | source | states |
|---|---|---|
| `Numbers.Divide` | src/trading/RiskManager.ts:22 | finite exactly for a non-zero divisor, then the quotient; otherwise +Infinity, -Infinity or NaN by the sign of the dividend |
| `Numbers.LessThan` | src/trading/RiskManager.ts:66 | `x < bound` holds for -Infinity and for a finite value below the bound, never for +Infinity or NaN |
| `Numbers.MinValue` | src/trading/RiskManager.ts:26 | NaN exactly when an argument is NaN; otherwise one of the arguments, no larger than either, with +Infinity as identity and -Infinity absorbing |
| `IndicatorTypes.Prices` | src/indicators/technical.ts:19-26 | the chosen price field of every candle, in order |
| `IndicatorTypes.Closes` | src/indicators/technical.ts:89 | the close of every candle, in order |
| `MovingAverages.ScaledUp` | src/indicators/technical.ts:144-145 | every element is multiplied by 1e10 and the length is kept |
| `MovingAverages.ScaledDownUp` | src/indicators/technical.ts:144-168 | scaling by 1e10 and dividing back out returns the input |
| `MovingAverages.CalculateSma` | src/indicators/technical.ts:10-31 | the result is the sequence of window means of the chosen field |
| `MovingAverages.RunningWindowMeans` | src/indicators/technical.ts:17-28 | the running sum (add the new price, drop the oldest) yields exactly the mean of every window |
| `MovingAverages.SmaValues` | src/indicators/technical.ts:17-28 | element j is the mean of the window starting at j |
| `MovingAverages.SmaShape` | src/indicators/technical.ts:11-28 | empty below `period` values; otherwise `length - period + 1` values, value j being the window sum over `period` |
| `MovingAverages.SmaAt` | src/indicators/technical.ts:22-28 | value j of the SMA is the mean of `xs[j..j+period]` |
| `MovingAverages.SmaOfConstantWindow` | src/indicators/technical.ts:18-28 | a window of identical values v gives v |
| `MovingAverages.WindowMeanBetween` | src/indicators/technical.ts:18-28 | a window mean lies between any lower and upper bound of the window |
| `MovingAverages.SmaScaledUp` | src/indicators/technical.ts:186-192 | the SMA of scaled data is the scaled SMA |
| `MovingAverages.CalculateEma` | src/indicators/technical.ts:134-169 | the result computed on 1e10-scaled data and scaled back equals the EMA of the data |
| `MovingAverages.EmaValues` | src/indicators/technical.ts:148-165 | element k is the k-th step of the seeded recurrence |
| `MovingAverages.EmaShape` | src/indicators/technical.ts:136-165 | empty below `period` values; otherwise `length - period + 1` values, the first the mean of the first window, each later one `prev + (x - prev) * 2/(period+1)` |
| `MovingAverages.EmaLength` | src/indicators/technical.ts:139-165 | the EMA length for every input length |
| `MovingAverages.EmaIndex` | src/indicators/technical.ts:155-165 | EMA element k exists and is the k-th recurrence step |
| `MovingAverages.EmaAtScaledUp` | src/indicators/technical.ts:145-165 | every recurrence step on scaled data is the scaled step |
| `MovingAverages.EmaScaledUp` | src/indicators/technical.ts:144-168 | the EMA of scaled data is the scaled EMA, so descaling recovers the EMA |
| `MovingAverages.MultiplierInUnitInterval` | src/indicators/technical.ts:136 | `2/(period+1)` lies in (0, 1] |
| `MovingAverages.EmaStepTowards` | src/indicators/technical.ts:163 | a step moves strictly towards a higher price without passing it |
| `MovingAverages.EmaAtOfConstant` | src/indicators/technical.ts:155-165 | the EMA of constant data is that constant |
| `MovingAverages.EmaAtOfIncreasing` | src/indicators/technical.ts:155-165 | on strictly rising data the EMA rises strictly and stays at or below the latest price |
| `MovingAverages.EmaAtPrefix` | src/indicators/technical.ts:159-165 | an EMA value depends only on the data up to its candle |
| `Rsi.GainLossSplit` | src/indicators/technical.ts:45-47 | gain and loss are non-negative, at most one is non-zero, and gain − loss is the change |
| `Rsi.Gains` | src/indicators/technical.ts:44-48 | one gain per consecutive pair of closes |
| `Rsi.Losses` | src/indicators/technical.ts:44-48 | one loss per consecutive pair of closes |
| `Rsi.PriceChanges` | src/indicators/technical.ts:43-48 | the loop builds exactly the gains and losses sequences |
| `Rsi.ChangesSplit` | src/indicators/technical.ts:44-48 | gains and losses are equally long and non-negative, and they recombine to the close-to-close changes |
| `Rsi.WilderAverageNonNegative` | src/indicators/technical.ts:51-57 | the smoothed averages of non-negative data stay non-negative |
| `Rsi.WilderAveragePositive` | src/indicators/technical.ts:51-57 | the smoothed averages of positive data stay positive |
| `Rsi.WilderAverageZero` | src/indicators/technical.ts:51-57 | the smoothed averages of all-zero data stay 0 |
| `Rsi.RsiIdentity` | src/indicators/technical.ts:59-60 | `100 - 100/(1 + g/l)` equals `100·g/(g+l)` for `l > 0` |
| `Rsi.RsiPointValue` | src/indicators/technical.ts:59-60 | a point is `100·g/(g+l)` when `l > 0`, 100 when only `l` is 0, and NaN when both are 0 |
| `Rsi.RsiPointInRange` | src/indicators/technical.ts:59-60 | NaN exactly when both averages are 0; otherwise in [0, 100], and below 100 when `l > 0` |
| `Rsi.RsiValues` | src/indicators/technical.ts:55-61 | point k is computed from the (k+1)-th smoothing step of gains and losses |
| `Rsi.CalculateRsi` | src/indicators/technical.ts:38-64 | the result is the RSI series of the closes |
| `Rsi.SmoothedRsi` | src/indicators/technical.ts:50-61 | the smoothing loop yields exactly that series |
| `Rsi.RsiLength` | src/indicators/technical.ts:44-55 | there are `max(0, length - period)` values |
| `Rsi.RsiAt` | src/indicators/technical.ts:55-60 | point k is the RSI of the k-th average gain and loss |
| `Rsi.RsiInRange` | src/indicators/technical.ts:44-61 | the averages are non-negative; a point is NaN exactly when both are 0, lies in [0, 100] otherwise, and is below 100 when the loss average is positive |
| `Rsi.RsiOfConstant` | src/indicators/technical.ts:44-61 | constant closes give NaN at every point |
| `Rsi.RsiOfRising` | src/indicators/technical.ts:44-61 | strictly rising closes give 100 at every point |
| `Macd.PairwiseDifference` | src/indicators/technical.ts:100-103 | `min` of the lengths, element i is `a[i] - b[i]` |
| `Macd.MacdLine` | src/indicators/technical.ts:99-103 | the loop builds exactly the pairwise difference of the two EMA arrays |
| `Macd.HistogramEntries` | src/indicators/technical.ts:116-117 | entry i is `macd[i] - signal[i]` while a signal value exists, and NaN (here `None`) after |
| `Macd.KeepNumbersOfSome` | src/indicators/technical.ts:118 | filtering out NaN keeps every number in order |
| `Macd.HistogramOf` | src/indicators/technical.ts:116-118 | the filtered histogram is the pairwise difference of the MACD and signal lines |
| `Macd.CalculateMacd` | src/indicators/technical.ts:73-127 | the result is the MACD of the closes |
| `Macd.MacdShape` | src/indicators/technical.ts:84-126 | three empty series below `max(fast, slow) + signal` closes; otherwise three series of length `length - max(fast, slow) - signal + 2`, at least 2 |
| `Macd.MacdElements` | src/indicators/technical.ts:99-126 | `macd[i] = fastEMA[i] - slowEMA[i]` by index, the signal is the EMA of the MACD line, and `histogram[i] = macd[i] - signal[i]` |
| `Bollinger.ScaledCloses` | src/indicators/technical.ts:186-190 | each candle's close is multiplied by 1e10, and nothing else changes |
| `Bollinger.ClosesOfScaled` | src/indicators/technical.ts:186-192 | the closes of the scaled candles are the scaled closes |
| `Bollinger.CalculateBollingerBands` | src/indicators/technical.ts:177-214 | computing on scaled closes and dividing back gives the bands of the closes |
| `Bollinger.BandLoop` | src/indicators/technical.ts:196-207 | the loop yields, for every window, mean ± `stdDev`·sqrt(population variance) |
| `Bollinger.WindowDeviation` | src/indicators/technical.ts:197-203 | the window's SMA entry and the square root of its population variance |
| `Bollinger.PushBands` | src/indicators/technical.ts:205-206 | appending one window's bands extends both band series by one element |
| `Bollinger.BandValuesAt` | src/indicators/technical.ts:196-207 | band element j is mean ± `stdDev`·deviation of window j |
| `Bollinger.WindowVarianceScaledUp` | src/indicators/technical.ts:201-202 | the variance of scaled data is 1e20 times the variance |
| `Bollinger.DeviationScaledUp` | src/indicators/technical.ts:203 | the deviation of scaled data is 1e10 times the deviation |
| `Bollinger.BandsScaledUp` | src/indicators/technical.ts:186-213 | dividing the bands of the scaled data by 1e10 gives the bands of the data |
| `Bollinger.WindowVarianceNonNegative` | src/indicators/technical.ts:201-202 | the variance is never negative |
| `Bollinger.BollingerShape` | src/indicators/technical.ts:182-213 | three empty series below `period` closes; otherwise three series of length `length - period + 1` |
| `Bollinger.BandsAt` | src/indicators/technical.ts:196-213 | middle j is the window mean, upper and lower j its bands |
| `Bollinger.BandsSymmetric` | src/indicators/technical.ts:205-206 | `upper - middle == middle - lower`, and `lower <= middle <= upper` when `stdDev >= 0` |
| `Bollinger.BandsOfConstantWindow` | src/indicators/technical.ts:196-206 | a constant window gives `upper == middle == lower` |
| `Bollinger.BandsOfVaryingWindow` | src/indicators/technical.ts:196-206 | a window with two different closes and `stdDev > 0` gives `lower < middle < upper` |
| `TechnicalFindings.MacdLinePairsByIndex` | src/indicators/technical.ts:100-103 | MACD value j subtracts the slow EMA of candle `slow-1+j` from the fast EMA of candle `fast-1+j` |
| `TechnicalFindings.MacdMisalignedExample` | src/indicators/technical.ts:99-103 | on closes 0, 2, 4 with periods 1 and 2 the source's MACD line is −1, −1, while the aligned differences are 1, 1 |
| `TechnicalFindings.AlignedMacdLine` | src/indicators/technical.ts:99-103 | the corrected line has one value per candle from `max(fast, slow)` on |
| `TechnicalFindings.AlignedMacdLineAt` | src/indicators/technical.ts:99-103 | corrected value j is the difference of the two EMAs over the same candles, the closes up to candle `max(fast, slow)-1+j` |
| `TechnicalFindings.AlignedMacdFromArrays` | src/indicators/technical.ts:90-103 | the corrected value j comes from the EMA arrays at offsets `n - fast` and `n - slow` |
| `TechnicalFindings.WilderAverageRepeatsSeedEnd` | src/indicators/technical.ts:51-57 | the source's averages are the standard Wilder averages of the data with its `period`-th change counted twice |
| `TechnicalFindings.RsiSeedCountedTwiceExample` | src/indicators/technical.ts:51-60 | on closes 1, 0, 1 with period 2 the source gives 75, while Wilder's RSI of the seed is 50 |
| `TechnicalFindings.WilderRsiValues` | src/indicators/technical.ts:51-61 | point k of the corrected RSI is computed from the k-th Wilder step, the seed itself at k = 0 |
| `TechnicalFindings.WilderRsi` | src/indicators/technical.ts:51-61 | the corrected RSI has `max(0, length - period)` values |
| `TechnicalFindings.WilderRsiLength` | src/indicators/technical.ts:55 | the corrected RSI is as long as the source's |
| `TechnicalFindings.WilderRsiFirstPoint` | src/indicators/technical.ts:51-60 | the first corrected point is `100·up/(up+down)` over the gains and losses of the first `period` changes |
| `Risk.RiskManager.constructor` | src/trading/RiskManager.ts:6-14 | stores the balance and both fractions |
| `Risk.DefaultManager` | src/trading/RiskManager.ts:6-14 | the defaults are 0.02 and 0.1, and `getMaxRiskPerTrade` returns the stored risk fraction |
| `Risk.RiskManager.CalculatePositionSize` | src/trading/RiskManager.ts:19-29 | for `stop ≠ entry ≠ 0` a finite size at most both caps and equal to one of them; with `stop == entry` the size cap (itself an IEEE quotient when the entry is 0), NaN when nothing may be risked, and -Infinity for a negative budget; with entry 0 the risk cap, -Infinity or NaN by the sign of the size budget |
| `Risk.RiskManager.CalculatePotentialLoss` | src/trading/RiskManager.ts:41-43 | non-negative, and it equals `|size|·|entry - stop|` |
| `Risk.PotentialLossSymmetric` | src/trading/RiskManager.ts:41-43 | swapping entry and stop does not change the loss |
| `Risk.PotentialLossWithinBudget` | src/trading/RiskManager.ts:19-43 | with non-negative balance and fractions, `entry > 0` and `stop ≠ entry`: size ≥ 0 and its loss at the stop ≤ `balance·maxRiskPerTrade` |
| `Risk.RiskManager.ValidateTrade` | src/trading/RiskManager.ts:48-74 | invalid with the risk reason when `|entry - stop| > balance·maxRisk`; otherwise valid exactly when `|target - entry| >= 2·|stop - entry|`, with the ratio reason when invalid; a reason exactly when invalid |
| `Risk.RatioBelowTwo` | src/trading/RiskManager.ts:65-66 | the IEEE test `reward/risk < 2` is `reward < 2·risk` for non-negative distances, including a zero risk |
| `Risk.RiskCheckFirst` | src/trading/RiskManager.ts:53-62 | once the risk check fails, the target does not matter |
| `Risk.RatioBoundary` | src/trading/RiskManager.ts:65-73 | a ratio of exactly 2 is valid, and `stop == entry` always passes the ratio check |
| `Risk.TestAccount` | tests/risk-manager.test.ts:9-44 | for 50000 at 2%/10%, size(100, 95) = size(100, 99) = 50, (100, 95, 110) is valid and (100, 95, 105) fails on the ratio |
| `Risk.RiskManager.UpdateBalance` | src/trading/RiskManager.ts:34-36 | the balance is the new one and `getAccountBalance` reports it; only `accountBalance` may change |
| `Risk.RiskManager.GetAccountBalance` | src/trading/RiskManager.ts:79-81 | the stored account balance |
| `Risk.RiskManager.GetMaxRiskPerTrade` | src/trading/RiskManager.ts:86-88 | the stored risk fraction |
| `Risk.UpdateThenRead` | src/trading/RiskManager.ts:79-81 | after an update the balance read back is the new one and both fractions are unchanged |
| `Positions.LeverageOf` | src/trading/Position.ts:22 | the given leverage when present and non-zero, else 1 |
| `Positions.Position.constructor` | src/trading/Position.ts:17-26 | copies the config, leverage by truthiness, P&L 0 |
| `Positions.Position.UpdatePnL` | src/trading/Position.ts:28-34 | the P&L is `(price - entry)·size·leverage` long and `(entry - price)·size·leverage` short; only `unrealizedPnL` may change |
| `Positions.ProfitAndLossOppositeSides` | src/trading/Position.ts:28-34 | at the same price the short P&L is minus the long P&L |
| `Positions.ProfitAndLossIsLinear` | src/trading/Position.ts:28-34 | the P&L moves by the price move times size and leverage, and is 0 at entry |
| `Positions.ProfitAndLossSign` | src/trading/Position.ts:28-34 | with positive exposure a long is in profit exactly above entry, a short exactly below |
| `Positions.Position.ShouldClose` | src/trading/Position.ts:36-42 | long: a set stop at or above the price, or a set target at or below it; short: the mirror image |
| `Positions.ZeroBoundIsUnset` | src/trading/Position.ts:37-38 | a stop-loss of 0 decides exactly as no stop-loss |
| `Positions.NoBoundsNeverClose` | src/trading/Position.ts:37-41 | without set bounds a position never closes |
| `Positions.ShouldCloseMirrored` | src/trading/Position.ts:37-40 | negating all prices turns a long's decisions into the short's |
| `Positions.LongOpenBetweenBounds` | src/trading/Position.ts:37-39 | a long with both bounds stays open exactly strictly between them |
| `Positions.LongExample` | tests/position.test.ts:8-38 | entry 100 at 2x: P&L 10 at 105 and −6 at 97; closes at 94 and 111, not at 100 |
| `Positions.ShortExample` | tests/position.test.ts:45-75 | short at 2x: P&L 10 at 95 and −6 at 103; closes at 106 and 89, not at 100 |
| `Positions.DefaultsExample` | tests/position.test.ts:79-97 | no leverage gives P&L 10 at 110; no bounds never close |
| `Performance.ExcessReturns` | src/analytics/Performance.ts:3 | every return less the risk-free rate |
| `Performance.CalculateSharpeRatio` | src/analytics/Performance.ts:2-7 | the IEEE quotient of the mean excess return by `sqrt` of the population variance: finite exactly when that root is non-zero, then times the root giving the mean; NaN exactly when both are 0 |
| `Performance.AverageExcessReturnShifted` | src/analytics/Performance.ts:3-4 | the mean excess return is the mean return less the rate |
| `Performance.ExcessVarianceIndependentOfRate` | src/analytics/Performance.ts:3-5 | the variance term does not depend on the risk-free rate |
| `Performance.ExcessVariancePositive` | src/analytics/Performance.ts:5 | the variance is ≥ 0, and positive exactly when some return differs from the first |
| `Performance.SharpeRatioSign` | src/analytics/Performance.ts:4-6 | with σ > 0 the ratio is finite with the sign of the mean excess return; with σ = 0 it is ±Infinity or NaN |
| `Performance.SharpeRatioDecreasesWithRate` | src/analytics/Performance.ts:3-6 | with σ > 0 a higher risk-free rate gives a strictly smaller ratio |
| `Performance.SharpeExamples` | tests/performance.test.ts:6-23 | positive for the 4-7% returns, negative for their negatives, smaller at 3% than at 2% |
| `Performance.GreaterThan` | src/analytics/Performance.ts:14-16 | `a > b` is false whenever NaN is involved, the real order on finite values, +Infinity above and -Infinity below every other number |
| `Performance.CalculateDrawdown` | src/analytics/Performance.ts:9-20 | the single pass with a running peak yields exactly the largest drawdown, and 0 for an empty curve |
| `Performance.PeakBounds` | src/analytics/Performance.ts:11-14 | the running peak is one of the values seen and no value seen is above it |
| `Performance.MaxDrawdownNonNegative` | src/analytics/Performance.ts:10-17 | on any curve the result is a non-negative number or +Infinity, never NaN |
| `Performance.MaxDrawdownRange` | src/analytics/Performance.ts:13-19 | on a positive curve the result is finite and in [0, 1) |
| `Performance.MaxDrawdownIsLargestFall` | src/analytics/Performance.ts:11-17 | on a positive curve the result is the largest `(e[i] - e[j])/e[i]` over `i <= j`: it bounds every pair and some pair attains it |
| `Performance.NonDecreasingHasNoDrawdown` | src/analytics/Performance.ts:13-19 | a curve that never falls has drawdown 0 |
| `Performance.SingleValueHasNoDrawdown` | src/analytics/Performance.ts:10-19 | a single value has drawdown 0, even 0 itself |
| `Performance.DrawdownExample` | tests/performance.test.ts:27-43 | 0.2 for 100, 95, 90, 95, 85, 80, 85, 90; 0 for an ascending curve and for a single value |

## Left out

- **Transport and side modules.** Network transport, event callbacks, the example script, the abstract strategy and the transport types are not part of this model. They are I/O or have no bodies: `src/client/WebSocketClient.ts`, `dist/client/*`, `examples/basic-usage.ts`, `src/strategy/Strategy.ts`, `src/types/index.ts`.
- **Logging.** The `console.log` calls in `calculateMACD` are not modelled. They are output only.
- **Floating point.** Rounding is not modelled. Numbers are exact reals, so the 1e10 scaling changes no result; the model proves exactly that. The EMA and RSI smoothing steps are written with the product expanded (`prev + x·m - prev·m`), which is the same real number.
- **NaN guards.** The `typeof`/`isNaN` guards inside `calculateEMA` cannot fire on real inputs. Nor can NaN or infinite inputs elsewhere, such as a NaN leverage or bound, which JavaScript also treats as falsy.
- **Square root.** `sqrt` is a parameter with the two facts in `IsSqrt`. The exact values of `Math.sqrt` are not modelled.
- **Reason strings.** The text of the two rejection reasons, including `toFixed(2)`, is not modelled. They are the two constructors of `RejectReason`.
- Rsi.CalculateRsi: requires at least two candles, because with fewer the source's `reduce` runs on an empty array and throws; it and the other indicators also require `period >= 1`, since with period 0 the source divides by zero or reads an empty window.
- Performance.CalculateSharpeRatio: requires at least one return, because `reduce` on an empty array throws.
- Macd.CalculateMacd: the histogram's NaN markers appear as `None` before the filter, since numbers here cannot be NaN.
- Bollinger.BandLoop: works on the sequence of scaled closes rather than on the scaled candle records; only the close field is read there. It pushes the scaled bands, and the division by 1e10 that the source applies inside each push is applied once after the loop in `CalculateBollingerBands`; over reals the results are equal.

## Findings

| source | as written | input that shows it | evidently intended | confidence | as-written member | corrected member |
|---|---|---|---|---|---|---|
| src/indicators/technical.ts:99-103 | `fastEMA[i] - slowEMA[i]` pairs the two EMA arrays by index. The fast array starts at candle `fast-1` and the slow one at `slow-1`, so each MACD value subtracts EMAs of different candles. | closes 0, 2, 4 with fast 1, slow 2, signal 1: the line is −1, −1 | each MACD value is fast EMA minus slow EMA at the same candle (here 1, 1) | not executed | `TechnicalFindings.MacdMisalignedExample` (with `Macd.MacdElements`, `TechnicalFindings.MacdLinePairsByIndex`) | `TechnicalFindings.AlignedMacdLine` (`TechnicalFindings.AlignedMacdLineAt`) |
| src/indicators/technical.ts:51-57 | The first smoothing step adds `gains[period-1]`, which is already in the seed average. So point k folds in the same latest change `gains[period+k-1]` as Wilder's point k, plus one extra early step that re-adds `gains[period-1]`; the first RSI is never the seed's own. | closes 1, 0, 1 with period 2: the RSI is 75 | Wilder's RSI: the first point from the seed averages, and each later step adding the next unused change (here 50) | not executed | `TechnicalFindings.RsiSeedCountedTwiceExample` (with `Rsi.RsiAt`, `TechnicalFindings.WilderAverageRepeatsSeedEnd`) | `TechnicalFindings.WilderRsi` (`TechnicalFindings.WilderRsiFirstPoint`) |

The indicator model keeps the behaviour as written; each corrected definition exists beside it with its property proved.
