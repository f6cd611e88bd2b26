# SSBT backtester core in Dafny

This project models the parts of the SSBT backtesting package that carry logic:

- the signal and trade value types (`SSBT/types.py`);
- the position ledger, `PositionManager` (`SSBT/position.py`);
- the pre-trade risk gate, `RiskManager` (`SSBT/risk.py`);
- the signal generator of the moving-average crossover strategy,
  `MovingAverageCrossover.generate_signals` (`SSBT/strategy.py`).

Prices and capital are Dafny `real`s. Timestamps are opaque integers. A set
timestamp is always truthy, as a `datetime` or `pd.Timestamp` is. Each
zero-division site of the source is a precondition.

Files and modules:

- `types.dfy`, module `Types`: `Position`, `SignalType`, `Signal` and `Trade`.
  `Trade` has `IsOpen`, `Duration` and `Profit`, and its constructor keeps the
  source's defaults (size 1.0, optional fields unset). `Truthy` models
  Python's truthiness of an optional float: unset and `0.0` are both false.
- `ledger.dfy`, module `Ledger`: class `PositionManager` with the fields of the
  source. A ghost list `applied` holds the trades whose profit has been added.
  `Valid()` states that current capital is initial capital plus their total
  profit. A symbol without an entry reads as FLAT. `GetCurrentPosition`
  inserts a FLAT entry on read, as `defaultdict` does. The position-count
  arithmetic is proved on plain maps (`OpenCount`, `OpenCountAfterSet`).
- `risk.dfy`, module `Risk`: class `RiskManager`. `ValidateTrade` updates
  `peakCapital` and is proved against the specification function `Approves`.
  A ghost list `seen` records every capital shown to the gate. `Valid()`
  states that the peak is the running maximum of that list, starting from 0.
  Lemmas give the gate's verdict in closed form and its boundary cases.
- `strategy.dfy`, module `Strategy`: `GenerateSignals` is the loop of the
  source, proved equal to the specification `Signals`. `Signals` is built from
  `RowSignals` (what one row emits), `ScanRows` (rows 1 .. n-1) and `Flush`
  (the end-of-series exit). The specification also records the row each
  signal was emitted at. Rows are `Bar` values. A moving average that pandas
  reports as NaN is `None`.

The model follows the code on these points:

- A trade's profit is zero only while its exit price is unset or `0.0`. It
  does not depend on whether the trade is open (`exit_time`).
- The drawdown check divides by the peak with no guard. The model therefore
  requires a positive peak after the update.
- Sizing fails only on a zero price, so the precondition is `price != 0`.
- Reading a symbol's position creates a FLAT entry for it. This never changes
  any reported position or the open count, and the model proves so.

## Model

| member | source | states |
|---|---|---|
| `Types.Multiplier` | SSBT/types.py:55 | the weight is 1 exactly for LONG; SHORT and FLAT both get -1 |
| `Types.Trade.IsOpen` | SSBT/types.py:41-43 | open means no exit time is set; an open trade reports zero duration |
| `Types.Trade.Duration` | SSBT/types.py:45-49 | zero while the exit time is unset; otherwise entry time plus duration is the exit time |
| `Types.Trade.Profit` | SSBT/types.py:51-56 | 0 when the exit price is unset or 0.0; (exit - entry) * size for LONG; (entry - exit) * size for every other position; with positive size, profit is positive exactly when the price moved in the position's favour |
| `Types.FreshTrade` | SSBT/types.py:28-39 | a trade built from its entry fields has size 1.0 and every optional field unset; it is open with zero profit and duration |
| `Types.ProfitDirectionSymmetry` | SSBT/types.py:55-56 | SHORT profit is the negation of LONG profit; FLAT is weighted exactly like SHORT |
| `Types.ProfitIgnoresExitTime` | SSBT/types.py:41-56 | changing the exit time never changes the profit |
| `Types.OpenTradeWithExitPriceHasProfit` | SSBT/types.py:41-56 | a trade with an exit price but no exit time is open and still reports a profit (100 -> 110 LONG gives 10) |
| `Types.ZeroExitPriceCountsAsUnset` | SSBT/types.py:53-54 | an exit price of 0.0 is falsy, so the profit is 0 |
| `Types.RoundTripScenarios` | SSBT/types.py:51-56 | LONG 100 -> 110 and SHORT 100 -> 90, size 1, both earn 10 |
| `Types.UnpricedTradesAddNothing` | SSBT/types.py:53-54 | the total profit of any list of trades equals the total over only the trades with a truthy exit price |
| `Ledger.OpenCount` | SSBT/position.py:30-33 | the number of non-FLAT entries never exceeds the number of entries |
| `Ledger.OpenCountAfterSet` | SSBT/position.py:26-33 | overwriting one symbol removes its old non-FLAT position from the count, if it had one, and adds the new one if it is non-FLAT |
| `Ledger.PositionSizeFor` | SSBT/position.py:15-16 | the size times the price equals capital times risk |
| `Ledger.PositionSizeScenario` | SSBT/position.py:12-16 | capital 100000, risk 0.02, price 50 gives a size of 40 |
| `Ledger.PositionManager.constructor` | SSBT/position.py:7-10 | current capital equals initial capital; every symbol reads FLAT; no trade applied; zero open positions |
| `Ledger.PositionManager.GetPositionSize` | SSBT/position.py:12-16 | size times price equals current capital times the risk per trade; needs a nonzero price; reads state and changes none |
| `Ledger.PositionManager.TotalPositions` | SSBT/position.py:30-33 | the count is the number of symbols whose position is not FLAT, at most the number of entries |
| `Ledger.PositionManager.UpdateCapital` | SSBT/position.py:18-20 | current capital grows by exactly the trade's profit; the trade joins the applied list, so capital stays initial plus total applied profit; initial capital and positions unchanged |
| `Ledger.PositionManager.GetCurrentPosition` | SSBT/position.py:22-24 | returns the stored position, or FLAT for an unseen symbol, and inserts a FLAT entry for it; no reported position and no count changes |
| `Ledger.PositionManager.SetPosition` | SSBT/position.py:26-28 | the symbol now reads the new position and no other symbol changes; the count rises by one on FLAT -> non-FLAT, falls by one on non-FLAT -> FLAT, and otherwise stays |
| `Risk.RunningPeakBounds` | SSBT/risk.py:19 | the running peak is at least 0 and at least every capital seen; unless 0, it is one of them |
| `Risk.RunningPeakMonotone` | SSBT/risk.py:19 | seeing more capitals never lowers the peak |
| `Risk.Approves` | SSBT/risk.py:21-35 | approval implies the drawdown is within the limit; an open count at or above the limit always rejects |
| `Risk.DrawdownClosedForm` | SSBT/risk.py:21-24 | with a positive peak, the drawdown check passes exactly when capital >= (1 - max drawdown) * peak |
| `Risk.SizeFractionIndependentOfCapital` | SSBT/risk.py:31-32 | the size fraction the gate tests is 0.02 / price, whatever the nonzero capital |
| `Risk.ApprovesClosedForm` | SSBT/risk.py:16-35 | with positive capital, the gate approves exactly when capital >= (1 - max drawdown) * peak, the open count is below the limit, and 0.02 / price <= the size limit |
| `Risk.DrawdownBoundary` | SSBT/risk.py:22-24 | under default limits, a drawdown exactly equal to 0.2 is accepted and 0.21 is rejected |
| `Risk.PositionCountBoundary` | SSBT/risk.py:27-28 | under default limits, 5 open positions reject and 4 accept |
| `Risk.RiskManager.constructor` | SSBT/risk.py:7-14 | the limits are stored (defaults 0.2, 0.1, 5) and the peak starts at 0 |
| `Risk.RiskManager.ValidateTrade` | SSBT/risk.py:16-35 | the peak becomes max(old peak, current capital), so it never decreases and stays the running maximum of every capital seen; the result is the `Approves` verdict on the updated peak; limits and the ledger are unchanged |
| `Risk.RiskManager.CalculateStopLoss` | SSBT/risk.py:37-42 | the stop lies the absolute value of atr * multiplier away from the price; for ENTRY_LONG it is at or below the price exactly when the offset is non-negative, and for every other signal kind at or above it exactly when the offset is non-negative |
| `Risk.RiskManager.CalculatePositionSize` | SSBT/risk.py:44-53 | with a truthy stop, size times the price-to-stop distance equals capital times risk; otherwise size times price equals capital times risk (the ledger's sizing) |
| `Risk.StopBasedSizing` | SSBT/risk.py:37-53 | sizing against an ATR stop risks capital times risk over a distance of exactly atr * multiplier |
| `Strategy.CrossoversExclusive` | SSBT/strategy.py:49-67 | no row is both a bullish and a bearish crossover |
| `Strategy.RowSignals` | SSBT/strategy.py:44-81 | a row emits at most two signals, and emits something exactly when it is a crossover with all four averages defined |
| `Strategy.RowSignalsShape` | SSBT/strategy.py:49-81 | every signal of a row carries the row's close and time; the last one is the entry in the crossover's direction (ENTRY_LONG on a bullish row, ENTRY_SHORT on a bearish one); a two-signal row starts with the exit of the tracked position, followed by the opposite entry |
| `Strategy.RowStep` | SSBT/strategy.py:44-81 | a row appends at most two signals, and the tracked position never returns to FLAT |
| `Strategy.Flush` | SSBT/strategy.py:83-95 | nothing when FLAT; otherwise one exit closing the tracked position, at the last row's close and time |
| `Strategy.GenerateSignals` | SSBT/strategy.py:34-97 | the loop returns exactly the specified signal list `Signals(data)` |
| `Strategy.ScanShape` | SSBT/strategy.py:38-81 | after rows 1 .. n-1: at most 2(n-1) signals; the tracked position is that of the last entry; it is FLAT exactly while nothing was emitted; the last signal is an entry |
| `Strategy.ScanExitsMatch` | SSBT/strategy.py:50-81 | within the loop, every exit closes the position of the latest entry before it |
| `Strategy.ScanExitsReversed` | SSBT/strategy.py:50-81 | within the loop, every exit is followed by the opposite entry at the same price and time |
| `Strategy.RowExitFollowsPrefix` | SSBT/strategy.py:50-81 | an exit a row appends comes directly after the signals already emitted and closes the position the loop tracks |
| `Strategy.ScanRowsCarryData` | SSBT/strategy.py:53-79 | every signal of the loop carries the close and time of a row in 1 .. n-1, and rows never decrease |
| `Strategy.QuietScan` | SSBT/strategy.py:38-81 | rows with no crossover leave the loop's state empty and FLAT |
| `Strategy.NoCrossoverNoSignals` | SSBT/strategy.py:34-97 | fewer than two rows, or no crossover row, gives an empty list |
| `Strategy.SignalCountBound` | SSBT/strategy.py:38-95 | at most 2(n-1)+1 signals for n >= 1 rows; none for n <= 1 |
| `Strategy.ExitsMatchTrackedPosition` | SSBT/strategy.py:50-95 | in the output, every exit closes the position of the latest entry before it; every exit but the last is followed by the opposite entry at the same price and time |
| `Strategy.EndsWithFlush` | SSBT/strategy.py:83-95 | a non-empty output ends with the exit of the still-open position, at the last close and last timestamp |
| `Strategy.SignalsCarryRowData` | SSBT/strategy.py:53-95 | every output signal carries close[i] and time[i] of some row i >= 1, in non-decreasing row order |
| `Strategy.TimestampsFollowRowOrder` | SSBT/strategy.py:53-95 | when the input timestamps are ordered, so are the output timestamps |
| `Strategy.EntriesNeedNotAlternate` | SSBT/strategy.py:49-64 | a tie followed by a rise, twice, emits ENTRY_LONG twice with no exit between |

## Left out

- `Backtester` (SSBT/backtester.py): the constructor only stores its arguments, and `run` has no body. The model has no execution loop, trade lifecycle, equity curve, commission or slippage, because the source has none.
- `Strategy` abstract base class and `MovingAverageCrossover.calculate_indicators`: the rolling means come from pandas. The model takes the averages as input columns of `Bar`.
- SSBT/utils.py (trade analysis, metrics, plotting) and setup.py: aggregation over DataFrames, presentation and packaging. They are not part of this model.
- IEEE floating point (rounding, infinities, NaN propagation): prices are exact reals. NaN appears only as a missing moving average (`None`).
- `metadata` fields of `Signal` and `Trade`: they hold arbitrary values and have no behaviour.
- The `signal` argument of `get_position_size`: it is kept but, as in the source, never consulted.
- Division by zero: the sites at SSBT/position.py:16, SSBT/risk.py:22, SSBT/risk.py:32 and SSBT/risk.py:52 are preconditions, not modelled exceptions.
- Risk.RiskManager.CalculateStopLoss: SSBT/risk.py:40 uses `SignalType`, which SSBT/risk.py:2 does not import. As written, every call raises `NameError`. The model gives the evidently intended branch and does not model the exception.
- Timestamps are opaque integers, and a duration is their difference. `pd.Timedelta` and `pd.Timestamp` arithmetic are not modelled.
