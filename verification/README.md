# Trade discovery and capital paths of the Phrecia market analysis

This project models, in Dafny, the pure computations at the heart of three
analysis scripts of the poe-market-analysis repository. Each of them works on
per-asset, per-day price series of the Phrecia league.

- **Time-series helpers** (`scripts/phrecia_time_series_analysis.py`):
  - the analysis window;
  - daily means built from (total, count) tallies;
  - the trailing moving average;
  - the best single buy-then-sell trade (a one-pass running-minimum scan);
  - the enumeration of every buy-then-sell pair that passes a gain and gain-percent filter.
- **Global capital-path optimiser** (`scripts/phrecia_profit_timeline_gantt.py`):
  - every strictly profitable same-asset buy-then-sell trade;
  - a longest-path dynamic programme over the days of the window, with cash carry-forward edges and multiplicative trade edges;
  - the trade log read back from the back pointers;
  - the log's ending capital.
- **Greedy switching strategy** (`scripts/phrecia_strategy.py`):
  - the day-by-day pick of the asset with the greatest next-day factor above 1.0;
  - a one-position simulator that realises a trade only when the pick changes, and closes the last position on the final day;
  - the total return.

Modules:

- `Common` (common.dfy) holds shared definitions:
  - `Option` and `Result`;
  - strictly increasing sequences;
  - the ascending keys of a set of days;
  - runs of consecutive days.
- `Pairs` (pairs.dfy) holds the nested buy/sell index scan that both enumerations share.
- `TimeSeries` (time_series.dfy) covers the analysis helpers.
- `Timeline` (timeline.dfy) and `TimelineDp` (timeline_dp.dfy) cover the profit timeline:
  - the candidate trades, and the optimiser with its reconstruction;
  - its optimality over every chronological chain of candidates.
- `Strategy` (strategy.dfy) covers the greedy strategy.
- `Comparison` (comparison.dfy) proves that the greedy strategy never ends with more capital than the optimiser, for the same assets over the same window.

Conventions:

- Prices and capital are `real`, so the capital equalities hold exactly.
- Dates are day ordinals:
  - 2025-02-20 is 739302;
  - 2025-02-26 is 739308;
  - 2025-03-20 is 739330.
- A dictionary from asset id to series is a sequence in the dictionary's iteration order. This makes "first in iteration order" tie-breaks explicit. Where a lookup by id must agree with that order, `DistinctIds` states that the keys are unique, as dictionary keys are.

## Model

| member | source | states |
|---|---|---|
| TimeSeries.InRangeIsWindow | scripts/phrecia_time_series_analysis.py:397-398 | A day is in range exactly when it is one of the 29 calendar days from 2025-02-20 to 2025-03-20. |
| Common.SortedKeys | scripts/phrecia_time_series_analysis.py:403-403 | The sorted keys of a day-keyed dictionary are strictly ascending and hold exactly the dictionary's days, each once. |
| TimeSeries.BuildDailyValues | scripts/phrecia_time_series_analysis.py:401-406 | There is one entry per tallied day, in strictly ascending day order, and each value is that day's total divided by its count. |
| TimeSeries.MovingAverage | scripts/phrecia_time_series_analysis.py:409-424 | A non-positive window is rejected with an error, and only then. Otherwise the output has the input's length, and element i is the mean of the last min(i+1, window) input values. |
| TimeSeries.GainPct | scripts/phrecia_time_series_analysis.py:452-454 | The gain percent is present exactly when the buy value is positive, and then it times the buy value gives the gain. |
| TimeSeries.BestTrade | scripts/phrecia_time_series_analysis.py:427-463 | See the notes on `BestTrade` below the table. |
| TimeSeries.AcceptsMeansBothFilters | scripts/phrecia_time_series_analysis.py:477-486 | The script's sequence of continue-branches accepts a pair exactly when the gain exceeds the minimum gain and, when a minimum percent is given, the buy value is positive and the gain percent reaches it. |
| Pairs.KeptPairs | scripts/phrecia_time_series_analysis.py:475-476 | The nested loops yield exactly the forward index pairs the filter accepts, in lexicographic (buy, sell) order. There are none for fewer than two values. |
| TimeSeries.ProfitableTrades | scripts/phrecia_time_series_analysis.py:466-487 | Every reported trade comes from an accepted pair i<j of the series, and every accepted pair is reported. Over ascending days the trades are ordered by buy day, then sell day. Fewer than two values give nothing. |
| TimeSeries.BestGainDominatesProfitable | scripts/phrecia_time_series_analysis.py:427-487 | Every profitable trade found by the enumeration has a gain above the minimum gain and at most the best trade's gain. |
| Timeline.GainPct | scripts/phrecia_profit_timeline_gantt.py:64-68 | The gain percent is 0 for a non-positive buy price. Otherwise buy × (1 + gain percent) = sell. |
| Timeline.BuildDates | scripts/phrecia_profit_timeline_gantt.py:87-93 | The window is the seven consecutive, ascending days from 2025-02-20 to 2025-02-26. |
| Timeline.AssetTrades | scripts/phrecia_profit_timeline_gantt.py:192-213 | One asset's trades are exactly the buy-before-sell pairs of its priced days with a positive buy price and a strictly higher sell price, ordered by buy day, then sell day. |
| Timeline.BuildTrades | scripts/phrecia_profit_timeline_gantt.py:190-213 | Every trade is a candidate of some asset, and every candidate of every asset is listed. The first asset's trades come first. |
| Timeline.BuildTradesInBlocks | scripts/phrecia_profit_timeline_gantt.py:190-213 | The list is the assets' own trade lists laid end to end in asset order, each listed once. Asset k's trades fill the positions from the total of the earlier assets' counts up to that total plus its own count, and the list has no other entries. |
| TimelineDp.BuyingOn | scripts/phrecia_profit_timeline_gantt.py:217-219 | The trades grouped under a buy day are exactly the trades that buy on that day. |
| TimelineDp.BuyingOnPositions | scripts/phrecia_profit_timeline_gantt.py:217-219 | A day's group keeps the input order and repeats. It is read off the input at strictly increasing positions, and those positions are exactly the ones whose trade buys on that day. |
| TimelineDp.Init | scripts/phrecia_profit_timeline_gantt.py:221-222 | The table starts with only the first day, holding the starting capital and a cash pointer to itself. |
| TimelineDp.Seed | scripts/phrecia_profit_timeline_gantt.py:225-227 | A day reached without a value gets one. A day already holding a value is left alone. |
| TimelineDp.Update | scripts/phrecia_profit_timeline_gantt.py:233-238 | After one trade edge, its sell day holds at least the capital compounded through the trade. Values never decrease and days up to the buy day are unchanged. A changed day records that trade, bought today. The table is left alone when the sell day already holds at least the trade's result, so a tie keeps the earlier edge. Otherwise the sell day takes exactly that result, with a pointer to this trade. |
| TimelineDp.Relax | scripts/phrecia_profit_timeline_gantt.py:232-238 | See the notes on `Relax` below the table. |
| TimelineDp.Carry | scripts/phrecia_profit_timeline_gantt.py:241-245 | After the cash edge, the next day holds at least today's capital. Values never decrease, days up to today are unchanged, and a changed day records cash carried from today. The table is left alone when the next day already holds at least today's capital, so a tie keeps the earlier edge. Otherwise the next day takes today's capital as cash. |
| TimelineDp.StepKeepsLinks | scripts/phrecia_profit_timeline_gantt.py:224-245 | Processing a day keeps every back pointer consistent with the recorded capitals. Each pointer leads to an earlier day, and every trade it names is a candidate. |
| TimelineDp.StepKeepsProgress | scripts/phrecia_profit_timeline_gantt.py:224-245 | After processing a day, that day and the next hold values, the next day holds at least as much, and every trade bought that day has been relaxed. |
| TimelineDp.BestCapital | scripts/phrecia_profit_timeline_gantt.py:216-245 | See the notes on `BestCapital` below the table. |
| TimelineDp.BestCapitalMonotone | scripts/phrecia_profit_timeline_gantt.py:240-245 | Thanks to the cash edges, the best capital never decreases along the window. |
| TimelineDp.Path | scripts/phrecia_profit_timeline_gantt.py:247-269 | See the notes on `Path` below the table. |
| TimelineDp.OptimizeTrades | scripts/phrecia_profit_timeline_gantt.py:216-269 | See the notes on `OptimizeTrades` below the table. |
| TimelineDp.EndingCapitalIsBest | scripts/phrecia_profit_timeline_gantt.py:375-378 | The log's ending capital (the starting capital for an empty log, else the last capital end) is the best capital of the last day, and it is at least the starting capital. |
| TimelineDp.ChainBound | scripts/phrecia_profit_timeline_gantt.py:216-245 | Any followable chain of trades ending by day d compounds to at most the best capital of d. |
| TimelineDp.OptimizeTradesIsOptimal | scripts/phrecia_profit_timeline_gantt.py:216-269 | No chronological, non-overlapping chain of the given trades inside the window ends with more capital than the optimiser's log. |
| TimelineDp.CandidatesAreTradable | scripts/phrecia_profit_timeline_gantt.py:196-201 | Every candidate sells after it buys, at a non-zero buy price. |
| TimelineDp.OptimalOverCandidates | scripts/phrecia_profit_timeline_gantt.py:190-269 | Over the candidates of the assets, the optimiser's ending capital bounds every chronological, non-overlapping chain of candidates inside the window. |
| Strategy.Gain | scripts/phrecia_strategy.py:45-47 | Start capital plus gain is end capital, and the gain is positive exactly when the trade ended with more than it started with. |
| Strategy.GainPct | scripts/phrecia_strategy.py:49-53 | The gain percent is 0 when the start capital is not positive. Otherwise start × (1 + gain percent) = end. |
| Strategy.TotalReturn | scripts/phrecia_strategy.py:380-384 | The total return is 0 when the starting capital is not positive. Otherwise start × (1 + return) = final, and the return is non-negative exactly when the run ended with at least its starting capital. |
| Strategy.BuildDates | scripts/phrecia_strategy.py:402-408 | The window is the 29 consecutive, ascending days from 2025-02-20 to 2025-03-20. |
| Strategy.Find | scripts/phrecia_strategy.py:249-249 | The lookup by id finds the first asset with that id, and fails exactly when no asset has it. |
| Strategy.PriceOnDistinct | scripts/phrecia_strategy.py:272-272 | With unique ids, looking an asset's price up by its id yields that asset's own price on the day. |
| Strategy.FactorAboveOne | scripts/phrecia_strategy.py:206-209 | For a positive buy price, the factor exceeds 1.0 exactly when the next-day price is higher. |
| Strategy.LeadAmong | scripts/phrecia_strategy.py:196-213 | See the notes on `LeadAmong` below the table. |
| Strategy.BestNextDay | scripts/phrecia_strategy.py:193-223 | See the notes on `BestNextDay` below the table. |
| Strategy.DayPicks | scripts/phrecia_strategy.py:193-224 | There is one pick per day of the window but the last, and the pick at position i is the best pick between day i and day i + 1. |
| Strategy.ChoicesUpTo | scripts/phrecia_strategy.py:193-224 | After m days the picks are keyed by exactly the first m days. Over ascending days, the entry of day i is the i-th pick. |
| Strategy.BestDailyChoices | scripts/phrecia_strategy.py:186-225 | There is one pick for every day of the window except the last, keyed by its day. Over ascending days it is the best pick for that day and the next. |
| Strategy.BestNextDayRises | scripts/phrecia_strategy.py:201-213 | With unique ids, a picked asset can be bought on the day at a positive price and sold higher on the next day. |
| Strategy.BestDailyChoicesRise | scripts/phrecia_strategy.py:186-225 | With unique ids and ascending days, every greedy pick rises to the next day. |
| Strategy.Close | scripts/phrecia_strategy.py:248-267 | See the notes on `Close` below the table. |
| Strategy.Open | scripts/phrecia_strategy.py:269-274 | Opening leaves capital and trades alone and holds the asset from the day at its price on that day. The units bought are worth exactly the capital at that price, and the position remembers that capital. |
| Strategy.Step | scripts/phrecia_strategy.py:243-277 | See the notes on `Step` below the table. |
| Strategy.Run | scripts/phrecia_strategy.py:242-277 | See the notes on `Run` below the table. |
| Strategy.Simulate | scripts/phrecia_strategy.py:228-296 | See the notes on `Simulate` below the table. |
| Strategy.StepCompounds | scripts/phrecia_strategy.py:247-274 | One day multiplies the portfolio's worth by the pick's price ratio from the day to the next: the held asset's ratio, or 1 in cash. A held asset is priced on the next day. |
| Strategy.RunCompounds | scripts/phrecia_strategy.py:242-277 | The loop from a day on multiplies the worth by the product of the picks' day-to-day ratios over the rest of the window. |
| Strategy.CloseKeepsBooks | scripts/phrecia_strategy.py:249-262 | Closing keeps the ledger: the new trade starts from the position's capital and ends with units × sell. |
| Strategy.StepKeepsBooks | scripts/phrecia_strategy.py:247-274 | One day of the simulation keeps the ledger and the open position's bookkeeping. |
| Strategy.CloseKeepsChronological | scripts/phrecia_strategy.py:248-267 | Selling the open position on a later day of the window keeps the trades chronological, and all of them are sold by that day. |
| Strategy.StepKeepsTimed | scripts/phrecia_strategy.py:247-274 | Over ascending days, one day keeps the trades chronological and sold before the next day. |
| Strategy.RunKeepsTimed | scripts/phrecia_strategy.py:242-277 | Over ascending days, the whole loop keeps the trades chronological. |
| Strategy.SimulateChronological | scripts/phrecia_strategy.py:228-296 | Over ascending days, every trade sells after it buys, both on days of the window, and each trade sells no later than the next one buys. |
| Strategy.CloseGains | scripts/phrecia_strategy.py:249-262 | Selling a position whose price rose since purchase raises the capital and realises a profitable trade. |
| Strategy.StepKeepsGaining | scripts/phrecia_strategy.py:247-274 | With rising picks, one day keeps every trade profitable, keeps the capital at least the starting capital, and keeps the open asset above its buy price. |
| Strategy.RunKeepsGaining | scripts/phrecia_strategy.py:242-277 | With rising picks, the whole loop keeps those facts. |
| Strategy.SimulateProfitable | scripts/phrecia_strategy.py:228-296 | With rising picks, every trade sells above its positive buy price and ends with more capital than it started with. The final capital is at least the starting capital, and the total return is non-negative. |
| Strategy.BestRatio | scripts/phrecia_strategy.py:201-213 | With unique ids, the day's pick is priced on both days and its price ratio is the factor it reports (1 in cash). |
| Strategy.GrowthIsProduct | scripts/phrecia_strategy.py:242-277 | When the picks' ratios are a given list of factors, the compounded growth from a day on is the product of the remaining factors. |
| Strategy.GreedyRatios | scripts/phrecia_strategy.py:186-225 | With unique ids and ascending days, the greedy picks' ratios are the best factors of the days, in order. |
| Strategy.GreedyEnds | scripts/phrecia_strategy.py:228-296 | Simulating the greedy picks ends with the starting capital times the product of the days' best factors, and the last day's pick is sold on the final day. |
| Strategy.SimulateGreedy | scripts/phrecia_strategy.py:87-88 | See the notes on `SimulateGreedy` below the table. |
| Strategy.RunStrategy | scripts/phrecia_strategy.py:74-88 | The script's run over its 29-day window yields a ledger as above, with a non-negative total return matching the final capital. |
| Comparison.ChainCapitalFollowsLedger | scripts/phrecia_strategy.py:233-296 | Compounding the strategy's trades from the starting capital reaches each trade's end capital, and so the final capital. |
| Comparison.ChainOfCandidates | scripts/phrecia_profit_timeline_gantt.py:190-213 | The strategy's trades, read as timeline trades of the same assets, are all candidates of those assets inside the window, and they do not overlap. |
| Comparison.LedgerWithinOptimum | scripts/phrecia_profit_timeline_gantt.py:216-269 | A chronological ledger of profitable trades at the assets' own prices ends with no more than the optimiser's log. |
| Comparison.GreedyNeverBeatsOptimizer | scripts/phrecia_strategy.py:186-296 | For the same assets with unique ids and the same ascending window, the greedy strategy's final capital never exceeds the optimiser's ending capital. |

Notes on the longer rows:

- `TimeSeries.BestTrade`:
  - the result is None exactly when there are fewer than two values;
  - otherwise buy < sell, and the gain is the maximum of v[j] − v[i] over all i < j (it may be negative);
  - the sell index is the first at which the maximum is reached;
  - the buy index is the first minimum of the values before the sell index.
- `TimelineDp.Relax`: after the trade edges of a day are relaxed:
  - every sell day holds at least the trade's result;
  - recorded values never decrease, and days up to today are unchanged;
  - every changed day records a trade bought today.
- `TimelineDp.BestCapital`: after the scan,
  - every day of the window holds a value, and the first day holds the starting capital;
  - values never decrease from one day to the next;
  - every trade's sell day holds at least that trade's result from its buy day;
  - the back pointers are consistent.
- `TimelineDp.Path`: the back-pointer walk yields well-formed log entries:
  - each entry holds the trade recorded for its sell day;
  - the entries lie between the first and current days and chain their capital;
  - the log starts from the first day's capital and ends with the current day's.
- `TimelineDp.OptimizeTrades`: the log has these properties:
  - its trades come from the input, and each spends all its capital (units = start / buy, end = units × sell);
  - it is chronological and non-overlapping, inside the window;
  - its capital passes on unchanged from entry to entry, and the first entry starts from the starting capital;
  - its ending capital is the best capital of the last day.
- `Strategy.LeadAmong`: the scan's leader
  - starts at factor 1.0 with no asset;
  - its factor is at least every eligible asset's factor;
  - it has no asset exactly when no eligible factor exceeds 1.0;
  - otherwise it is an eligible asset whose factor exceeds 1.0, and every earlier eligible asset has a strictly smaller factor (ties stay with the first).
- `Strategy.BestNextDay`: the day's pick
  - has a factor at least that of every eligible asset;
  - is empty, with factor 1.0, exactly when no eligible factor exceeds 1.0;
  - otherwise reports a first-best asset's buy price, sell price and factor.
- `Strategy.Close`: closing sells the open position at the day's price:
  - it appends one trade from the position's buy day and price to that day;
  - the trade carries the position's capital as its start;
  - its end becomes the new capital.
- `Strategy.Step`: after a day,
  - the open asset is the day's pick;
  - if the pick equals the open asset, nothing changes;
  - a trade is appended only when the pick differs and a position was open, and earlier trades are kept.
- `Strategy.Run`:
  - after the loop the open asset is the pick of the second-to-last day;
  - the earlier trades are kept;
  - the ledger invariant is preserved.
- `Strategy.Simulate`: the trades hand the capital on:
  - the first starts from the starting capital;
  - each later one starts from the previous one's end;
  - each ends with (start / buy) × sell, at the asset's own prices on its buy and sell days;
  - the final capital is the last end, or the starting capital when there are no trades;
  - a position still open after the loop is sold on the final day: when the second-to-last day picks an asset, the last trade is of that asset and sells on the last day (lines 279-294);
  - the final capital is the starting capital times the product, over consecutive days, of the picked asset's price ratio (1 in cash).
- `Strategy.SimulateGreedy`: the greedy picks plus the simulation give a ledger with these properties:
  - it is chronological and non-overlapping, at the assets' own prices;
  - every trade is profitable;
  - the final capital is at least the starting capital;
  - it equals the starting capital times the product of the days' best factors;
  - when the second-to-last day picks an asset, the last trade sells that asset on the final day.

## Left out

- TimelineDp.Relax: its contract does not say which of several equally good trades a day keeps. Its body applies `Update` to the day's trades in list order, and `Update`'s contract states the tie rule for one edge. `BuyingOnPositions` states that the list keeps the input order.
- CSV ingestion and aggregation are not modelled: the `load_*` and `filter_and_aggregate_*` functions are file I/O and dictionary building. The model takes the aggregated series as input.
- The `write_*` functions, `round(…, 6)` and all plotting scripts are output only. So are `schemas.py` and `__init__.py`.
- Floating-point rounding is not modelled: money is `real`, so every capital equality is exact.
- The `meta` dictionary of the strategy is not modelled separately. An asset's type travels with its `AssetPrices` record, so the failing `meta[best_asset]` lookup cannot occur. The script's truthiness test that gives an empty id no type is kept in `BestNextDay` and stated by its contract.
- TimelineDp.OptimizeTrades: it requires what its callers supply:
  - a non-empty window, because `dates[0]` would fail otherwise;
  - strictly ascending dates, as `build_dates` produces;
  - trades that sell after they buy at a non-zero buy price, as every `build_trades` candidate does.

  Other trades would divide by zero or make the back-pointer walk loop.
- TimelineDp.Seed: the seeding branch never fires, because the previous day's cash edge always gives a day its value first. The model keeps the branch, and the scan states that the day is already present.
- TimelineDp.Path: it builds the log oldest-first instead of collecting it newest-first and reversing. The resulting list is the same.
- Strategy.Simulate: it requires `ChoicesFit`. For every day but the last, the pick exists and its asset is priced on that day (at a non-zero price) and on the next. This is stronger than the script's lookups need. An asset held through a day with an unchanged pick is never looked up that day, so it need not be priced there. Every caller meets the requirement, because `compute_best_daily_choices` only picks assets priced on both days (`Strategy.SimulateGreedy`, `Strategy.BestDailyChoicesRise`).
- Strategy.SimulateGreedy: it requires unique asset ids, which dictionary keys are, and an ascending window, which `build_dates` produces. Without both, a pick could be looked up against another asset's series.
- Strategy.RunStrategy: the `main` function's file checks and directory creation are left out.
- TimeSeries.MovingAverage: the bound that the window buffer never holds more than `window` values is a loop invariant of the method, not a postcondition.
- TimeSeries.ProfitableTrades: the generator is modelled as the list it yields.
