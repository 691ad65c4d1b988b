# ProtoSmartBeta backtest core in Dafny

This project models the simulation and scoring core of ProtoSmartBeta, a
backtester for a "smart beta" strategy on Vietnamese equities. On each date
of a price panel the strategy either rebalances or marks its book to market.
A rebalance screens the day's stocks by PE and dividend-yield bands, sizes
every qualified stock to an equal share of the total asset in 100-share
lots, sells down over-weight holdings, and buys the affordable shortfalls.
Each date's asset gives a period return and an accumulated return, and the
run ends with the Sharpe ratio of the period returns. The metrics (Sharpe,
Sortino, maximum and longest drawdown, information ratio) and the date
helpers (backtest window, first-of-month rebalancing calendar, lot
rounding) are modelled too.

Modules:

- `Wrappers`: `Option` and `Result`.
- `Utils`: dates, `RoundLot`, `GetDate` and the calendar method `FirstDateOfMonths`.
- `Ledger`: the portfolio dict as an ordered key list plus a map, and the target frame's row operations.
- `Engine`: the book operations as functions, with the lemmas about them:
  - screening, sizing, the sell scan and the affordability filter;
  - the buy scan, the whole rebalance and the daily mark.
- `Schedule`: which dates rebalance, given the calendar.
- `Metric`: the five statistics. The drawdown loops are methods proved against recursive definitions.
- `Backtest`: the class `Backtesting`.
  - Its fields are the book (cash, holdings, last known prices), the logs and the return series.
  - Its methods are the loops of the source, each proved equal to the `Engine` function that specifies it.
  - `Valid()` holds after every method:
    - every held stock has a last known price;
    - the asset history starts at the capital and explains both return series.

Behaviour the model keeps exactly as the code has it:

- A buy is paid with the sell fee: `backtesting.py:275-279` multiplies the order's cost by `1 + sell_fee`. The buy fee enters only the affordability filter at `backtesting.py:229-233`.
- A buy uses the target row's `qty` (the shortfall, or the full target of a new stock), not the affordable quantity. `adjusted_qty` only decides which rows are bought. Cash can therefore go negative, and nothing in the model excludes that.
- A stock whose count reaches 0 during the sell scan is deleted. A buy of 0 shares can still leave a 0 entry.
- `update_period_return` updates the book before it divides by the last asset. When that asset is 0, the book has changed but nothing is recorded, and `run` stops there.

Money is an exact `real`; share counts are `int`.

## Model

| member | source | states |
|---|---|---|
| Utils.RoundLot | utils.py:69-78 | the result is a multiple of 100 and the largest such multiple not above the quantity (floor, also for negatives) |
| Utils.RoundLotUnique | utils.py:78 | any multiple of 100 within one lot below the quantity is the rounded value |
| Utils.RoundLotIdempotent | utils.py:78 | rounding an already rounded quantity returns it unchanged |
| Utils.RoundLotOfInt | utils.py:78 | on whole counts the rounding is integer floor division by 100, times 100 |
| Utils.RoundLotExamples | utils.py:78 | 250 rounds to 200, 99 to 0, -1 to -100 |
| Utils.GetDate | utils.py:10-36 | start is look_back days before the first date, end is forward_period days after the last; the four are ordered when the inputs are |
| Utils.MonthStarts | utils.py:39-66 | the calendar holds one date per month from the start month through the end month |
| Utils.FirstDateOfMonths | utils.py:39-66 | the loop emits exactly the first days of the months from the start month to the end date; it fails exactly when the end date is in December 9999 |
| Utils.MonthStartsAreFirstDays | utils.py:52-56 | every emitted date is day 1, the first is day 1 of the start month |
| Utils.MonthStartsConsecutive | utils.py:57-64 | each emitted date is the month step of the one before, December rolling into January |
| Utils.MonthStartsBounded | utils.py:55-64 | the dates increase strictly, none is after the end date, and the next month step would be after it |
| Utils.MonthStartsEmpty | utils.py:52-55 | the calendar is empty exactly when the end date is before the start month, else it has the inclusive month count |
| Ledger.WithoutMembers | backtesting.py:226-227 | deleting a key keeps exactly the other keys, still without duplicates |
| Ledger.PutWellKeyed | backtesting.py:211 | assigning a count keeps the dict well keyed and changes the lookup of that key only |
| Ledger.RemoveWellKeyed | backtesting.py:226-227 | deleting a key keeps the dict well keyed and makes only that key's lookup missing |
| Ledger.ReinsertGoesLast | backtesting.py:226-227 | a stock deleted at 0 shares and bought again on a later rebalance (lines 282-284) becomes the last key of the dict; the other keys keep their order, and the dict stays well keyed |
| Ledger.FindTargetSome | backtesting.py:187-193 | the target lookup finds a qty exactly when the frame has a row for the ticker |
| Ledger.FindFirst | backtesting.py:187-190 | with unique tickers, the first matching row's qty is the qty of that ticker's row |
| Ledger.FindMember | backtesting.py:187-190 | a row of the frame is the one its ticker's lookup finds |
| Ledger.FindSetQty | backtesting.py:221-223 | after setting a ticker's qty, its lookup gives the new qty if it had a row; other lookups are unchanged |
| Ledger.FindDrop | backtesting.py:214-219 | after dropping a ticker's rows its lookup fails; other lookups are unchanged |
| Ledger.DropMembers | backtesting.py:214-219 | dropping keeps exactly the rows of other tickers |
| Ledger.DropDistinct | backtesting.py:214-219 | dropping keeps tickers unique |
| Ledger.SetQtyDistinct | backtesting.py:221-223 | setting a qty keeps tickers unique |
| Engine.Qualified | backtesting.py:255-257 | definition: the day's rows whose PE and DY are both inside their bands, in the group's order |
| Engine.HeldRows | backtesting.py:258-259 | definition: the day's rows whose ticker is a key of the portfolio, in the group's order |
| Engine.Valuation | backtesting.py:164-167 | the value of a row list at the held counts and previous closes; the value of two lists one after the other is the sum of their values |
| Engine.TotalAsset | backtesting.py:153-168 | definition: the cash plus the value of the current rows |
| Engine.Targets | backtesting.py:261-264 | definition: each qualified row with the lot-rounded equal share of the total asset at its previous close |
| Engine.SizedTargets | backtesting.py:255-264 | definition: the target frame of the qualified rows, sized from the total asset |
| Engine.SellStep | backtesting.py:186-227 | definition: one current stock sold down to its target (its row dropped) or kept with its shortfall as the target, its value added, its entry deleted at 0 |
| Engine.SellAll | backtesting.py:186-227 | definition: the sell step over the current rows, in order |
| Engine.SellPhase | backtesting.py:186-227 | definition: the sell scan from the cash, the holdings and the sized targets |
| Engine.AffordableFrom | backtesting.py:229-237 | definition: the rows whose affordable count, out of the given number of rows, is positive |
| Engine.Affordable | backtesting.py:229-237 | definition: the affordability filter over all remaining rows |
| Engine.Orders | backtesting.py:229-237 | definition: the rows the buy phase receives after the sell phase |
| Engine.BuyStep | backtesting.py:271-287 | definition: one order reprices the stock, pays qty at previous close with the sell fee, adds the qty to the entry and its close value to the holding capital |
| Engine.BuyAll | backtesting.py:271-290 | definition: the buy step over the orders, in order |
| Engine.Rebalance | backtesting.py:241-297 | definition: the sell phase, then the buy scan; the new asset is the holding capital plus the cash, logged as the allocation |
| Engine.Quote | backtesting.py:314 | definition: the close of the day's row for the ticker, none without a row |
| Engine.MarkStep | backtesting.py:313-321 | definition: one entry valued at its close (which becomes its last known price) or at its last known price, logged as suspended |
| Engine.MarkAll | backtesting.py:308-321 | definition: the mark step over the portfolio's keys, in dict order |
| Engine.DailyMark | backtesting.py:299-323 | definition: the cash plus every entry's mark, with the new prices and suspension log |
| Engine.QualifiedMembers | backtesting.py:255-257 | a row qualifies exactly when both PE and DY are present and inside their inclusive bands |
| Engine.QualifiedDistinct | backtesting.py:255-257 | screening keeps tickers unique |
| Engine.HeldRowsMembers | backtesting.py:258-259 | the current rows are exactly the day's rows whose ticker is held |
| Engine.HeldRowsDistinct | backtesting.py:258-259 | the current rows have unique tickers |
| Engine.HeldRowsTickers | backtesting.py:258-259 | a ticker is among the current rows exactly when it is quoted and held |
| Engine.ValuationAppend | backtesting.py:164-167 | the value of two row lists one after the other is the sum of their values |
| Engine.HeldValuation | backtesting.py:258-260 | valuing only the current rows equals valuing the whole group at the held counts: unheld stocks add nothing |
| Engine.QualifiedShape | backtesting.py:255-257 | the qualified rows have unique tickers and positive previous closes |
| Engine.TargetQty | backtesting.py:261-264 | the target is a multiple of 100 and the lot floor of total asset / (count x previous close) |
| Engine.TargetsShape | backtesting.py:261-264 | the target frame has unique tickers and positive previous closes |
| Engine.TargetsFind | backtesting.py:261-264 | each qualified stock's target qty is its equal-weight lot count |
| Engine.SizedTargetsShape | backtesting.py:255-264 | the target frame's tickers are exactly the qualified tickers, unique and priced |
| Engine.SellStepEffect | backtesting.py:186-227 | one scanned stock ends with its settled count (entry deleted at 0); its target row is dropped or cut to the shortfall; other stocks and rows are unchanged |
| Engine.SellAllEffect | backtesting.py:186-227 | after the scan every current stock holds its settled count and keeps only its unmet shortfall as a target; other stocks and targets are unchanged |
| Engine.SellAllUntouched | backtesting.py:186-227 | a stock the scan does not visit keeps its count and its target |
| Engine.SellAllCash | backtesting.py:206-210 | the scan's cash is the starting cash plus every sale's proceeds at the previous close net of the sell fee |
| Engine.SellAllStockAsset | backtesting.py:225 | the scan's stock asset is the close value of what every scanned stock keeps |
| Engine.SellStepShape | backtesting.py:214-223 | one step keeps the target frame priced and unique |
| Engine.SellAllShape | backtesting.py:214-223 | the scan keeps the target frame priced and unique |
| Engine.SellPhaseShape | backtesting.py:265-267 | the frame handed to the buy phase is priced and unique |
| Engine.AdjustedQty | backtesting.py:229-236 | the affordable count is a multiple of 100 and the lot floor of cash / (rows x previous close x (1 + buy fee)) |
| Engine.AffordableFromMembers | backtesting.py:229-237 | the filter keeps exactly the rows whose affordable count is positive |
| Engine.AffordableMembers | backtesting.py:229-237 | the orders are exactly the remaining rows whose affordable count, out of all remaining rows, is positive |
| Engine.NoCashNoneFrom | backtesting.py:229-237 | without positive cash no row survives the filter |
| Engine.NoCashNoPurchase | backtesting.py:229-237 | without positive cash there are no orders |
| Engine.AffordableFromDistinct | backtesting.py:237 | filtering keeps tickers unique |
| Engine.AffordableDistinct | backtesting.py:237 | the orders have unique tickers |
| Engine.BuyAllCash | backtesting.py:271-290 | the buy scan pays every order's qty at previous close x (1 + sell fee) and adds its close value to the holding capital |
| Engine.BuyAllWellKeyed | backtesting.py:282-284 | buying keeps the dict well keyed |
| Engine.BuyAllOthers | backtesting.py:282-284 | a stock without an order keeps its entry |
| Engine.BuyAllOrdered | backtesting.py:282-284 | an ordered stock ends with its previous count plus the order's qty |
| Engine.BuyAllHoldings | backtesting.py:271-290 | the whole buy scan: ordered stocks gain their qty, others are unchanged, the dict stays well keyed |
| Engine.BuyAllAt | backtesting.py:271-290 | a stock's entry after the buys, by whether it has an order |
| Engine.BuyAllPrices | backtesting.py:272 | every ordered stock's last known price is its close; other prices are unchanged |
| Engine.BuyAllPriceOthers | backtesting.py:272 | a stock without an order has a last known price after the buys exactly when it had one before |
| Engine.BuyAllPriceOrdered | backtesting.py:272 | every ordered stock has a last known price after the buys |
| Engine.BuyAllFromValue | backtesting.py:269-287 | starting the holding capital at the stock asset shifts only the holding capital |
| Engine.RebalanceFromPhases | backtesting.py:255-297 | a rebalance is the sell phase followed by the buy scan over the orders; the new asset is holding capital plus cash |
| Engine.PhaseFacts | backtesting.py:255-267 | after selling, each stock holds its settled count or is unchanged, the remaining targets are the shortfalls, and the orders are unique and drawn from them |
| Engine.PhaseAt | backtesting.py:255-267 | the sell phase and the orders at one ticker |
| Engine.RebalanceAccounting | backtesting.py:260-297 | cash after = cash + sale proceeds - cost of the orders; holding capital = close value of kept and bought shares; new asset = holding capital + cash remaining |
| Engine.RebalanceQualified | backtesting.py:255-290 | a qualified stock ends at its target if ordered; otherwise at min(target, held) if it was held, or not held |
| Engine.RebalanceUnqualified | backtesting.py:186-227 | a quoted stock that does not qualify gets no order and is sold out (it keeps only a negative count) |
| Engine.RebalanceUnquoted | backtesting.py:258-259 | a held stock with no row on the date is neither traded nor repriced |
| Engine.RebalanceOrders | backtesting.py:271-272 | every order is a qualified stock, now priced at its close |
| Engine.RebalancePricedAt | backtesting.py:271-272 | a stock held after a rebalance has a last known price |
| Engine.RebalanceKeepsBook | backtesting.py:241-297 | a rebalance keeps the dict well keyed, free of the cash key, and every held stock priced |
| Engine.QuoteFind | backtesting.py:314 | a stock is quoted exactly when the day has its row, at that row's close |
| Engine.MarkStepGrows | backtesting.py:313-321 | marking one entry never removes a last known price |
| Engine.MarkFrame | backtesting.py:309-321 | the mark depends on the old prices only for stocks without a quote |
| Engine.MarkAllValue | backtesting.py:308-321 | the mark adds every entry's count times its close, or its last known price when unquoted |
| Engine.MarkAllSuspensions | backtesting.py:317-320 | the suspension log grows by one record per unquoted entry, in dict order, with the last known price |
| Engine.MarkAllPrices | backtesting.py:316 | every quoted entry's last known price becomes its close; other prices are unchanged |
| Engine.AllQuotedNoSuspension | backtesting.py:313-321 | when every entry is quoted nothing is logged as suspended |
| Engine.DailyMarkKeepsBook | backtesting.py:299-323 | every held stock can be marked (no KeyError), and the mark keeps every held stock priced |
| Schedule.Fires | backtesting.py:446-450 | definition: a date rebalances when the calendar is not used up, the previous date did not rebalance, and the date is on or after the calendar's head |
| Schedule.Step | backtesting.py:446-454 | definition: one date appends its flag and consumes the calendar's head when it fires |
| Schedule.PlanOf | backtesting.py:444-456 | the loop sets one rebalancing flag per date |
| Schedule.ConsumedCountsRebalances | backtesting.py:446-454 | the calendar dates consumed equal the number of rebalancing dates, at most the calendar's length |
| Schedule.NoBackToBack | backtesting.py:446-450 | two consecutive dates never both rebalance |
| Schedule.DueWithinTwo | backtesting.py:446-450 | a calendar date that is due is consumed on that date or the next one |
| Schedule.PrefixFlags | backtesting.py:445-456 | the flags of a prefix of the dates are a prefix of the flags |
| Schedule.RebalanceNotEarly | backtesting.py:447-454 | the k-th rebalancing date is on or after the k-th calendar date |
| Schedule.RebalanceDatesIncrease | backtesting.py:452-453 | the rebalancing dates are panel dates, strictly increasing |
| Schedule.PlanSnoc | backtesting.py:445-456 | one more date extends the flags by that date's decision |
| Schedule.LoggedStart | backtesting.py:444 | before the loop nothing is tracked, rebalanced or consumed |
| Schedule.PlanFlag | backtesting.py:446-450 | the flag a date gets from the schedule state before it is its flag in the plan of all the dates |
| Schedule.LoggedStep | backtesting.py:445-456 | each date appends itself to the tracked dates, and to the rebalancing dates when it fires |
| Metric.SumShifted | metrics/metric.py:15-17 | the sum of excess returns is the sum of returns minus n x risk-free |
| Metric.MeanShifted | metrics/metric.py:15-19 | the mean excess return is the mean return minus the risk-free return |
| Metric.SumDifference | metrics/metric.py:104-106 | the sum of excess returns over the benchmark is the difference of the sums |
| Metric.MeanDifference | metrics/metric.py:98-108 | the mean excess return over the benchmark is the difference of the means |
| Metric.Variance | metrics/metric.py:19 | the variance is never negative |
| Metric.VarianceZero | metrics/metric.py:19 | the variance is 0 exactly when all returns are equal |
| Metric.SumSquaresZero | metrics/metric.py:29 | a sum of squares is non-negative and 0 exactly when all terms are 0 |
| Metric.ConstantMean | metrics/metric.py:19 | a constant series has that constant as its mean |
| Metric.SharpeRatio | metrics/metric.py:10-19 | an empty series fails; one return gives NaN; otherwise mean excess return over a non-negative sample variance |
| Metric.SharpeZeroVariance | metrics/metric.py:19 | the Sharpe denominator is 0 exactly when all returns are equal |
| Metric.Downside | metrics/metric.py:25-28 | the downside of a return is min(0, return - risk-free), non-zero exactly below the risk-free return |
| Metric.DownsideReturns | metrics/metric.py:25-28 | one downside per period return |
| Metric.SortinoRatio | metrics/metric.py:21-31 | an empty series fails; otherwise mean return minus risk-free over the non-negative mean squared downside |
| Metric.SortinoZeroDownside | metrics/metric.py:25-31 | the downside risk is 0 exactly when no return is below the risk-free return |
| Metric.Compound | metrics/metric.py:45 | definition: the performance times one plus the return |
| Metric.Perf | metrics/metric.py:38-45 | definition: the performance index, starting at 1 and compounded by every return |
| Metric.Drawdowns | metrics/metric.py:38-52 | one drawdown per return: the performance over the running peak minus 1 after that return |
| Metric.Peak | metrics/metric.py:41-47 | the running peak starts at 1 and is at least the current performance |
| Metric.Lowest | metrics/metric.py:43-52 | the maximum drawdown is at most 0, at most every drawdown, and 0 or attained |
| Metric.DrawdownScan | metrics/metric.py:41-54 | the loop yields the drawdown series and its minimum |
| Metric.MaximumDrawdown | metrics/metric.py:33-54 | fails exactly on an empty series or a return of -100% or worse; otherwise the drawdowns and their minimum |
| Metric.ScanStep | metrics/metric.py:44-52 | one more return compounds the performance, raises the peak only when exceeded, and appends one drawdown |
| Metric.PerfPositive | metrics/metric.py:38-45 | with no return at or below -1 the performance stays positive |
| Metric.DrawdownAt | metrics/metric.py:49 | each drawdown is the performance over the running peak minus 1 |
| Metric.DrawdownsBounded | metrics/metric.py:38-50 | every drawdown lies in (-1, 0] |
| Metric.NoLossAtPeak | metrics/metric.py:44-47 | without losses the performance is always at its peak |
| Metric.NoLossNoDrawdown | metrics/metric.py:44-54 | without losses every drawdown and the maximum drawdown are 0 |
| Metric.Underwater | metrics/metric.py:63-77 | the current run below the peak is at most the series length |
| Metric.Longest | metrics/metric.py:63-77 | the longest run is at most the series length |
| Metric.LongestRunScan | metrics/metric.py:63-79 | the loop yields the longest run of periods without a new peak |
| Metric.LongestDrawdown | metrics/metric.py:56-79 | fails exactly on an empty series or a return of -100% or worse; otherwise the longest run |
| Metric.FlatPeriodExtendsRun | metrics/metric.py:70-75 | a zero return never makes a new peak, so it extends the run |
| Metric.AllGainsNoRun | metrics/metric.py:67-73 | when every return is positive the longest drawdown is 0 |
| Metric.UnderwaterIsTrailingRun | metrics/metric.py:63-77 | the current run is a window of periods without a new peak, preceded by a new peak |
| Metric.WindowBelowRun | metrics/metric.py:63-77 | any window without a new peak is no longer than the run counted at its end |
| Metric.LongestOfPrefix | metrics/metric.py:76-77 | the longest run dominates the longest and current run of every prefix |
| Metric.LongestAttained | metrics/metric.py:76-77 | the longest run is the current run of some prefix |
| Metric.LongestIsLongestWindow | metrics/metric.py:56-79 | the result is the length of the longest window of periods without a new peak |
| Metric.InformationRatio | metrics/metric.py:81-108 | the error per guard in source order; 0 exactly when the means are equal; otherwise the mean excess over the benchmark and a non-negative variance |
| Metric.InformationRatioSelf | metrics/metric.py:98-102 | a series against itself scores exactly 0 |
| Backtest.Growth | backtesting.py:341-347 | the return from one asset to the next: the next asset is the first times one plus the return |
| Backtest.ExplainedSnoc | backtesting.py:341-349 | recording a return from a nonzero last asset keeps the asset history explaining both return series |
| Backtest.NothingToExplain | backtesting.py:95-97 | the initial history [capital] explains the empty return series |
| Backtest.EmptyBook | backtesting.py:94-99 | the initial book satisfies the book invariant |
| Backtest.Backtesting.constructor | backtesting.py:93-110 | all capital in cash, no stocks or prices, empty logs, assets [capital], the window from get_date |
| Backtest.Backtesting.TotalAsset | backtesting.py:153-168 | cash plus every current row's count at its previous close |
| Backtest.Backtesting.SellStocks | backtesting.py:170-239 | the sell scan's cash, stock asset and holdings, and the orders the affordability filter keeps |
| Backtest.Backtesting.SellLoop | backtesting.py:183-227 | the loop's cash, stock asset, holdings and remaining targets are those of the sell scan |
| Backtest.Backtesting.Rebalancing | backtesting.py:241-297 | cash, holdings, prices and new asset are those of the rebalance; one allocation is logged; the book invariant holds |
| Backtest.Backtesting.BuyLoop | backtesting.py:269-290 | the loop's cash, holdings, prices and holding capital are those of the buy scan |
| Backtest.Backtesting.DailyUpdateAsset | backtesting.py:299-323 | the asset is cash plus every entry's mark; prices and the suspension log follow the mark; no held stock lacks a price |
| Backtest.Backtesting.MarkEntry | backtesting.py:313-321 | one entry marked at its close (repriced) or at its last known price (logged as suspended) |
| Backtest.Backtesting.UpdatePeriodReturn | backtesting.py:325-349 | the book is rebalanced or marked; the asset and both returns are appended exactly when the last asset is not 0 |
| Backtest.Backtesting.Advance | backtesting.py:445-456 | the rebalancing flag follows the calendar head; the book becomes the date's update (a rebalance when it fires, a mark otherwise) and its asset is appended when recorded; a recorded date is tracked, and also logged as rebalancing and consumed when it fires |
| Backtest.Backtesting.Tick | backtesting.py:445-456 | one pass of the loop keeps the loop state: the date is logged as the schedule decides and its update extends the trail of books and assets; when the returns cannot be recorded, the book is still updated and the logs are unchanged |
| Backtest.Backtesting.RunDates | backtesting.py:444-456 | the dates processed are tracked, the flagged ones logged as rebalancing, the calendar consumed by their count; the books and assets follow the dates' updates; it stops early only at a zero asset |
| Backtest.Backtesting.Run | backtesting.py:426-459 | the book is the replay of the dates up to the one that stopped the run, the recorded assets are the replay's, and the dates are logged as the schedule decides; then the Sharpe ratio of all period returns at risk-free 0.03, and a zero asset stops the run with that date's index |
| Backtest.DayUpdate | backtesting.py:341-346 | one date: a rebalance logs exactly one allocation and leaves the suspension log alone; a mark leaves cash and stock entries unchanged; both keep every held stock priced |
| Backtest.Replay | backtesting.py:440-456 | the loop's book and assets over a prefix of the dates: one asset per date, every held stock priced |
| Backtest.ReplayAllocations | backtesting.py:292-296 | over the dates, the allocation log grows by exactly the number of rebalancing dates |
| Backtest.ReplayOnlyMarks | backtesting.py:299-323 | without a rebalancing date the cash and stock entries never change and nothing is allocated |
| Backtest.FollowsSnoc | backtesting.py:445-451 | one more date's update extends a trail that follows the dates |
| Backtest.FollowsPrefix | backtesting.py:445-451 | a trail without its last date follows the dates before it, and the last date takes the book before it to the last book |
| Backtest.FollowsReplay | backtesting.py:445-451 | a trail that follows the dates is their replay |
| Backtest.RunStateStep | backtesting.py:445-456 | one more date is logged as the schedule decides, and its update extends the trail |
| Backtest.DecimalSharpe | metrics/metric.py:10-19 | on the loop's Decimal returns, the Sharpe ratio is defined exactly when there are at least two returns that are not all equal; then it is the mean excess return over a positive variance; no returns fail as in the metric |

## Left out

- Data loading and I/O (`load_data`, `process_data`, `get_vnindex`, `load_vnindex`, the database service) are not part of this model. The panel is a parameter: a sequence of days, each with its date and rows.
- Plotting (`plot_nav`) is left out.
- `Engine.WellFormedRows` is required of every date's rows:
  - one row per ticker;
  - no row named like the cash key;
  - positive previous closes, which the sizing divides by.
- Engine.WellFormedRows: `load_data` (`backtesting.py:363-366`, `381-390`) leaves the previous close, and so PE and DY, NaN on a ticker's first row. The model represents such a row with no PE and no DY and an arbitrary positive previous close. Such a row never passes the screen, so the model never buys on it.
- Engine.WellFormedRows: a held stock whose row has a NaN previous close is not modelled. In the source it makes `total_asset` NaN, and `round_lot` then raises on `int` of a NaN quotient (`utils.py:78`).
- The cash entry of the portfolio dict is the separate field `cash`. `TotalAsset` and `DailyUpdateAsset` start from it, as the dict lists it first.
- Decimal and float arithmetic become exact reals. This covers:
  - Decimal's 28-digit context;
  - the `float(...)` conversions at the two sizing divisions;
  - the rounding of float quotients.
- Metric.SharpeRatio: returns the numerator and the variance instead of their quotient by a square root, because real square roots are not modelled. Division by a zero standard deviation is left to the caller.
- Backtest.DecimalSharpe: `run` passes Decimal returns. With one return numpy's sample variance divides a Decimal 0 by 0, and a constant series divides by a Decimal 0; Decimal raises in both cases. The model returns `Err(UndefinedRatio)` for both and does not tell the two exceptions apart.
- Metric.SortinoRatio: returns the numerator and the mean squared downside instead of the quotient by its square root, for the same reason.
- Metric.InformationRatio: returns the numerator and the population variance of the excess returns instead of the quotient by the standard deviation, for the same reason.
- Utils.GetDate: works on day ordinals. Parsing the date strings, and parse failures, are left out.
- Utils.FirstDateOfMonths: takes parsed dates that are in range, not strings. It requires only year, month and day ranges, not the length of the month.
- Backtest.Backtesting.Run: does not read the benchmark series that line 458 hands to `Metric`. `sharpe_ratio` does not use it.
- Backtest.Backtesting.UpdatePeriodReturn: the exception that division by a zero asset raises is modelled as `recorded == false`. `Run` turns it into `Err(AssetIsZero(index))`.
- Backtest.Backtesting.DailyUpdateAsset: the `except` branch is taken only for a missing quote. Other exceptions in that block are not modelled.
- Backtest.Backtesting.constructor: requires buy_fee > -1, so that the affordability divisor is positive.
- A held stock with no row on a rebalancing date is left out of `new_asset` (`backtesting.py:225`, `258-260`, `297`): that date's asset drops by the stock's value, and the next mark (lines 313-321) adds it back. `Engine.RebalanceAccounting` and `Engine.RebalanceUnquoted` state this.
- `selling_data` is built and never read, so it is left out.
- The columns of the data frames not read by the core are left out.
