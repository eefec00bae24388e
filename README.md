# DOGE grid bot: order and profit bookkeeping

This project models the bookkeeping core of a Binance spot grid bot that trades DOGE/USDT, and proves properties of it.

- **Grid bot (`main.py`).** The bot lays a geometric grid of price levels between a low and a high price. It places limit buys at the levels just below the market. It pairs every filled buy with a limit sell one grid step higher. It books the profit of every filled sell against its parent buy.
- **Profit watcher (`profit_watcher.py`).** It follows the account's trades with a FIFO inventory of bought lots. Sells consume the lots front-first and book realized profit net of a fee on each side.
- **Profit splitter (`profit_split.py`).** It cuts realized profit into fixed chunks. Each chunk is split between a BNB purchase fund and a reinvestment pool.
- **Helpers.** Around these sit:
  - the recenter policy (`recenter.py`);
  - the ladder helpers (`grid_engine.py`, `regrid.py`);
  - the PnL arithmetic (`pnl.py`, `pnl_calculator.py`);
  - the rounding utilities and the dashboard's statistics counters (`utils.py`, `utils_stats.py`).

## How the model is built

- **Numbers.** Prices and quantities are exact `real`s.
  - Floor-to-tick rounding is written out as `floor(x / tick) * tick`.
  - Python's `round(x, 8)` is half-to-even at eight decimal places.
  - The source's float epsilons (1e-9, 1e-12, 1e-18) are named constants (`numeric.dfy`).
- **Exchange calls are inputs.**
  - Fetched data (the ticker, the balance, the order list) is an `Option` that is `None` when the call raised.
  - A placement is a function that says whether the exchange took the order, and under which id.
  - The clock is a parameter.
- **Python semantics reproduced.**
  - `x or y` treats `None`, `0` and `""` as false. This is `Wrappers.OrElse`/`Truthy`.
  - A dict keeps insertion order. `child_sells` is therefore a list of entries, and the reverse lookup finds the first entry holding a sell.
  - A Decimal division by zero that no `try` catches ends the pass. Its earlier changes stay in place.
- **State is a class.** The state the source mutates in place is a `class`: the trading state, the FIFO watcher, the split state, the dwell tracker and the stats file.
  - Its methods follow the source's loops.
  - Each method is proved equal to a specification function of the old state: `BuyPass`, `SellPass`, `HandleFills`, `FifoMatch`, `ProcessTrades`, `Distribute`.
  - The properties the source promises are lemmas about those functions.
- **Sizing as a parameter.** The layer split of `seed_grid` is proved for any per-level sizing function. `Regrid.Lot` is the sizing that `seed_grid` uses: `lot_from_usd` with the market and the dollar amount per order.
- **The earlier bot (`main_original.py`).** Its `round_price`/`round_amount` (main_original.py:142-154), `compute_levels` (main_original.py:190-203) and `handle_fills_and_post_sells` (main_original.py:259-361) compute exactly what `main.py`'s `round_price_down`/`round_amount_down`, `compute_grid_levels` and the two fill passes compute. They are modelled by the `MainBot` members below.
  - Its `bootstrap_buys` differs and is `LegacyBot`. The balance check only logs a warning, and a failing balance fetch is not caught.
  - Its run loop differs too. It calls `handle_fills_and_post_sells` outside any `try` (main_original.py:410-413), so an exception that escapes a fill pass, such as the zero-target division, ends the process. `main.py`'s loop logs the exception and polls again (main.py:694-697). The run loops are not modelled; one call of the fill handler is the same in both.
- **The split hook never fires.** Both fill handlers call `profit_split.on_realized_profit` only when the module has that attribute, which `profit_split.py` does not define. The model therefore makes no split call, and returns the list of profits booked instead.
- **The legacy PnL name.** `realized_profit_usd` (pnl.py:39-47) returns `calculate_realized_profit_usd` of its arguments. `Pnl.LegacyRealizedProfitUsd` is that delegation.

## Model

| member | source | states |
|---|---|---|
| MainBot.RoundDown | main.py:227-258 | A non-positive tick leaves the value unchanged. Otherwise the result is a whole number of ticks, at or below the value and less than one tick below it. |
| MainBot.RoundDownIsLargest | main.py:240-241 | No multiple of the tick that lies at or below the value is larger than the rounded result. |
| MainBot.RoundDownIdempotent | main.py:238-241 | Rounding an already rounded value changes nothing. |
| MainBot.RoundDownMonotone | main.py:244-258 | Rounding down preserves the order of its inputs. |
| MainBot.GridLevelsShape | main.py:367-382 | No levels when low ≤ 0, high ≤ 0 or high ≤ low. Otherwise the grid starts at low, is strictly increasing, stays within [low, high + 1e-18] and ends at or above high. |
| MainBot.GridLevelsGeometric | main.py:370-380 | Each level is the previous one times 1 + step/100, up to the last loop level. That level is either the last level, or the one just before an appended high that it falls short of. One more step from it would leave the range. |
| MainBot.GridLevelsPositive | main.py:367-376 | Every grid level is positive, so the bootstrap's division by a level is safe. |
| MainBot.ComputeGridLevels | main.py:353-382 | The while loop, plus the appended high, returns exactly the grid. It terminates for every positive step. |
| MainBot.FilledAmount | main.py:516 | `filled or amount or 0`: the first present non-zero of the two fields, else 0. |
| MainBot.AveragePrice | main.py:517 | `average or price or 0`: the first present non-zero of the two fields, else 0. |
| MainBot.MeetMinCost | main.py:533-539 | Enough notional keeps the quantity. The sizing raises exactly when the notional is short and the price is 0. Every sized result keeps the price. |
| MainBot.TopUpBounds | main.py:536-539 | A topped-up quantity is a lot multiple. At the price, its value is at most minCost·(1+buffer) and within one lot of it. |
| MainBot.SellTarget | main.py:523-526 | The sell target is a tick multiple, at or below avg·(1+step/100) and within one tick of it. The target is unrounded for a non-positive tick. |
| MainBot.SellQty | main.py:529-531 | The sell quantity is a lot multiple, at or below filled·(1−buffer) and within one lot of it. |
| MainBot.SellWithinFill | main.py:529-542 | A sell that meets the minimum notional is placed at the target. It never offers more than the fill less the buffer. |
| MainBot.PutLink | main.py:553 | `child_sells[buy] = sell`: afterwards the lookup of buy yields sell. Every other key's lookup is unchanged, and at most one entry is added. |
| MainBot.ParentIndex | main.py:583-586 | The position of the first entry holding the sell, with no earlier entry holding it. It is `len` when there is none. |
| MainBot.FindParent | main.py:582-586 | The reverse lookup finds nothing exactly when no entry holds the sell. Whatever it finds is an entry of `child_sells`. |
| MainBot.SellProfitPositiveIff | main.py:588-595 | With a recorded parent fill and positive quantities, the booked profit is positive exactly when the sell price beats the buy price. |
| MainBot.BuyStep | main.py:508-560 | The skip cases leave the state unchanged: not a closed buy of the symbol, already processed, or no fill or price. A sell is placed (one, and then recorded) exactly when the order is a new closed, filled buy whose sell is sized to a positive quantity and accepted by the exchange. The step stops on an exception exactly when such a new buy's sizing raises, and then changes nothing. |
| MainBot.BuyPassFacts | main.py:508-560 | Every sell placed is for a buy not processed before, and no buy id repeats. `processed_buys` grows by exactly the placed buys. The sell fills and the realized profit are untouched. Unless the pass stopped, every closed, filled buy whose sell is sized positive and accepted ends in `processed_buys`. The pass stops only on a filled buy, new to the starting state, whose sizing raises. |
| MainBot.BuyPassRecords | main.py:500-560 | In a pass that did not stop, every closed, filled buy of the symbol whose sell is sized positive and accepted ends in `processed_buys`. |
| MainBot.BuyPassAborts | main.py:500-560 | A pass stops only on a closed, filled buy, not processed before, whose sell sizing raises. |
| MainBot.BuyPassIds | main.py:508-560 | Every sell placed is for a buy not processed before, and no buy id repeats. `processed_buys` grows by exactly the placed buys. |
| MainBot.BuyPassSellSide | main.py:508-560 | The buy-fill pass leaves the sell fills and the realized profit untouched. |
| MainBot.AtMostOneSellPerBuy | main.py:512-514 | Two passes over the same orders, whatever the exchange answers, place at most one sell per buy id. |
| MainBot.NoPlacementNoChange | main.py:546-560 | When the exchange takes no sell, the pass leaves the state exactly as it was. |
| MainBot.BuyPassAbortSticks | main.py:533-539 | Once an escaping division stops the pass, no later order is looked at. |
| MainBot.SellStep | main.py:567-617 | Anything but a new closed sell of the symbol with a fill changes nothing. A new one is recorded in `sell_fills`. Its profit is added to the realized total only when positive. The buy side is untouched. |
| MainBot.SellPassFacts | main.py:567-619 | The realized profit grows by exactly the sum of the booked profits, each of which is positive. Earlier sell fills are kept, every qualifying sell ends up recorded, and the buy side is untouched. |
| MainBot.SellPassProfit | main.py:567-619 | The realized profit grows by exactly the sum of the booked profits, and each booked profit is positive. |
| MainBot.SellPassKeeps | main.py:567-619 | Earlier sell fills are kept with their values, and the buy side is untouched. |
| MainBot.SellPassRecords | main.py:567-619 | Every closed sell of the symbol with a positive fill and price ends up in the sell fills. |
| MainBot.RealizedNeverDecreases | main.py:603-606 | The realized profit never decreases. |
| MainBot.SellPassNoop | main.py:571-573 | A pass over sells that are all recorded already changes nothing. |
| MainBot.SellPassIdempotent | main.py:567-601 | A second sell pass over the same orders changes nothing and books no profit. |
| MainBot.NothingCountedTwice | main.py:473-497 | Two rounds of fill handling over the same orders place no second sell for a buy. After a first round that did not stop, the second books no profit. |
| MainBot.TradingState.constructor | main.py:113-119 | The state starts empty: no processed buys, links or fills, and zero profit. |
| MainBot.TradingState.HandleFilledBuy | main.py:509-560 | The body for one order updates the fields exactly as BuyStep says. It places a sell, and appends the buy to `processed_buys`, exactly when the order is a new closed, filled buy whose sell is sized positive and accepted. It stops exactly when such a buy's sizing raises. |
| MainBot.TradingState.ProcessFilledBuyOrders | main.py:500-560 | The loop with its early exit leaves the state, sells and abort flag that BuyPass describes. `processed_buys` grows by exactly the placed buys. Unless it stopped, every closed, filled buy whose sell is sized positive and accepted is in `processed_buys` afterwards. |
| MainBot.TradingState.HandleFilledSell | main.py:568-617 | The reverse lookup loop and the fill update leave the state and bookings that SellStep describes. |
| MainBot.TradingState.ProcessFilledSellOrders | main.py:563-619 | The loop leaves the state and bookings that SellPass describes. |
| MainBot.TradingState.HandleOrderFillsAndCreateSells | main.py:473-497 | A failed fetch changes nothing. Otherwise the buy pass runs, then the sell pass unless the buy pass stopped, as HandleFills describes. |
| MainBot.BuyQty | main.py:447 | The buy quantity is a lot multiple, at or below base/level and within one lot of it. |
| MainBot.BuyPrice | main.py:448 | The buy price is at or below the level; for a positive tick it is a tick multiple within one tick of the level. |
| MainBot.BuyAtPrice | main.py:447-455 | A sized buy is at the level rounded down. Sizing raises only for a zero level, or for a zero price whose notional is short of the minimum cost. |
| MainBot.AtOrBelow | main.py:415 | Keeps exactly the levels at or below the price. |
| MainBot.AtOrBelowIncreasing | main.py:415 | The kept levels stay in strictly increasing grid order. |
| MainBot.CandidatesClosestFirst | main.py:414-416 | Over the grid, the candidates are exactly the levels at or below the price. They are strictly decreasing, so the closest levels come first. |
| MainBot.Head | main.py:443 | `s[:7]`: the first min(len, n) elements, unchanged. |
| MainBot.PlaceAllBudget | main.py:443-465 | The loop places no more orders than there are candidates. It charges at most the cycle budget in base orders. |
| MainBot.PlaceAllWithin | main.py:447-467 | Every order placed has a positive quantity, was accepted, and is at a tick multiple no higher than the levels it comes from. |
| MainBot.PlaceAllSkip | main.py:457-458 | A level whose quantity is not positive, or whose order was refused, is passed over. The budget and balance are unchanged. |
| MainBot.PlaceAllPlace | main.py:461-465 | An accepted order is kept. It charges one base order to the budget and its notional to the free balance. |
| MainBot.PlaceBuyOrders | main.py:443-467 | The placement loop, with its early break, returns exactly the orders and failure flag that PlaceAll describes. |
| MainBot.PaperNeverShort | main.py:429-440 | In paper mode the free balance is the cycle budget, so the balance check never stops the bootstrap. |
| MainBot.BootstrapBounds | main.py:385-470 | At most seven orders, no more base orders than the cycle budget, each positive, accepted and at or below the last price. Nothing is placed without a ticker. |
| MainBot.PaperBootstrapPlaces | main.py:429-443 | With the default settings on a paper account, the bootstrap goes straight to the placement loop over the seven closest candidates. |
| MainBot.BootstrapBuyOrders | main.py:385-470 | Returns exactly what Bootstrap describes: nothing on a ticker or balance failure, otherwise the placement loop unless the balance is short. The count returned is the number of orders placed, at most seven. |
| LegacyBot.BootstrapsAgree | main_original.py:205-257 | The earlier bootstrap lets a failing balance fetch escape, where the current one returns nothing. On a short balance the current bootstrap places nothing. Otherwise the two bootstraps are equal, and in paper mode they are always equal. |
| LegacyBot.LegacyBootstrapBounds | main_original.py:229-254 | The earlier bootstrap keeps the same bounds: at most seven orders, within the cycle budget, each positive, accepted and at or below the price. |
| LegacyBot.BootstrapBuys | main_original.py:205-257 | The earlier bootstrap's code returns exactly LegacyBootstrap, with at most seven orders placed. |
| GridEngine.GeomLevels | grid_engine.py:1-9 | The loop returns exactly the ladder that starts at lower, multiplies by 1+spacing/100 and keeps each level up to upper·(1+1e-9), stopping once more than 5000 levels are taken. |
| GridEngine.LadderHead | grid_engine.py:4-8 | The ladder is non-empty exactly when its first level is within the bound and the cap is not reached. It then starts at that level, and it never reaches more than 5001 levels. |
| GridEngine.LadderWithin | grid_engine.py:4 | Every level is within the bound upper·(1+1e-9). |
| GridEngine.LadderGeometric | grid_engine.py:5-6 | Each level is the one before it times the ratio 1+spacing/100. |
| GridEngine.LadderComplete | grid_engine.py:4-8 | Below the cap the ladder is complete: the level after the last one would be out of range. |
| GridEngine.LadderIncreasing | grid_engine.py:2-6 | With a ratio above one (positive spacing) and a positive lower, the ladder is strictly increasing. |
| GridEngine.Below | grid_engine.py:12 | Keeps exactly the levels strictly below the price. |
| GridEngine.BelowDescendingSorted | grid_engine.py:13 | `sort(reverse=True)` orders the kept levels from largest to smallest. |
| GridEngine.SliceHeadLen | grid_engine.py:14 | The length of Python's `s[:n]`, including a negative n counted from the end. |
| GridEngine.Reverse | grid_engine.py:14 | `reversed`: the same length, with element i taken from position len−1−i. |
| GridEngine.ReverseMultiset | grid_engine.py:14 | Reversal keeps the same elements with the same multiplicities. |
| GridEngine.ActiveBuyWindow | grid_engine.py:11-14 | The window has the slice length of the below-price levels, so at most window_n for window_n ≥ 0. Every entry is a level strictly below the price, and the window is in ascending order. |
| GridEngine.ActiveBuyWindowIsLargest | grid_engine.py:12-14 | Together, the window and the passed-over levels are exactly the below-price levels. No passed-over level is larger than a window level. |
| Regrid.Round8All | regrid.py:73 | Every level is rounded to eight decimals, in place. |
| Regrid.GrowFacts | regrid.py:68-69 | Every generated level is below pmax. The loop stops by the 5000-level cap at the latest. |
| Regrid.RawLadderShape | regrid.py:62-71 | For a valid range, the raw ladder holds 2 to 5001 levels and starts at pmin. Every level but the last is below pmax, and the last is pmax. |
| Regrid.GeometricLevels | regrid.py:58-74 | The loop returns the rounded, de-duplicated, sorted ladder. It returns nothing for pmin ≤ 0, pmax ≤ 0 or pmax ≤ pmin. The output is strictly increasing. |
| Regrid.GeometricLevelsEnds | regrid.py:73 | The output holds both rounded ends and has 1 to 5001 levels. |
| Sorting.SortedSet | regrid.py:73 | `sorted(set(s))`: strictly increasing, with exactly the values of s. |
| Regrid.DistinctLength | regrid.py:73 | De-duplicating never makes the list longer. |
| Regrid.LotFromUsdBounds | regrid.py:76-93 | The lot is 0 for a non-positive price. Otherwise it is at least a non-zero market minimum. It is either that minimum or usd/price: within half a unit of the last decimal place when a precision is given, unchanged otherwise. |
| Regrid.LastPrice | regrid.py:95-97 | A non-zero result is one of last, close, bid and ask. The result is 0 exactly when none of them is present and non-zero. |
| Regrid.LayersFacts | regrid.py:133-139 | For any sizing, every layer is a level on the requested side of the last price, paired with its positive lot. Every such level with a positive lot yields a layer. |
| Regrid.LayersSound | regrid.py:133-139 | Every layer is a level on the requested side of the last price, paired with the positive lot of that level. |
| Regrid.LayersComplete | regrid.py:133-139 | Every level on the requested side with a positive lot yields its layer. |
| Regrid.LayersPartition | regrid.py:133-140 | For any sizing, every buy layer is priced below every sell layer. No layer is at the last price. |
| Regrid.SplitLevels | regrid.py:130-140 | For the sizing it is given, the loop builds exactly the buy and sell layers. |
| Regrid.Placements | regrid.py:159-176 | The orders sent are all the buy layers in order, then all the sell layers in order. |
| Regrid.PlaceLayers | regrid.py:159-176 | The two sending loops produce exactly those orders. |
| Regrid.SeedGrid | regrid.py:119-178 | Aborts without orders on a non-positive price or fewer than two levels. Otherwise it plans the layers, and sends them only when `apply` is set. |
| ProfitWatcher.MatchProfitAgreesWithPnl | profit_watcher.py:136-140 | The watcher's profit on a matched slice equals the two-sided-fee profit of `pnl.py`. |
| ProfitWatcher.FifoConservation | profit_watcher.py:150-161 | The slices taken total the matched quantity. The lots before the sell equal the lots after it, plus the matched quantity, plus the dust dropped with popped lots. |
| ProfitWatcher.FifoBounds | profit_watcher.py:150-161 | Over positive lots, 0 ≤ matched ≤ max(qty, 0) and matched ≤ the inventory total. Lots left and slices taken stay positive, and the dust is never negative. |
| ProfitWatcher.TotalNonNegative | profit_watcher.py:152 | Positive lots hold a non-negative total. |
| ProfitWatcher.FifoOrder | profit_watcher.py:152-159 | Slices are taken in insertion order, at the prices of the first lots. The lots left are a suffix of the old ones, except that the first of them may be partly consumed and keeps its price. |
| ProfitWatcher.FifoTakenOrder | profit_watcher.py:152-159 | Slices are taken in insertion order, at the prices of the first lots, and no more slices than lots. |
| ProfitWatcher.FifoLeftOrder | profit_watcher.py:152-159 | The lots left are a suffix of the old ones, except that the first of them may be partly consumed and keeps its price. |
| ProfitWatcher.FifoEmptyInventory | profit_watcher.py:150-161 | An empty inventory matches nothing and books nothing. |
| ProfitWatcher.FifoExample | profit_watcher.py:143-161 | Lots 1@100 and 1@110, and a sell of 1.5 at 120 with a 0.1% fee. The sell takes the first lot whole and half of the second, books 24.665, and leaves 0.5@110. |
| ProfitWatcher.Watcher.constructor | profit_watcher.py:110-111 | The watcher starts with no checkpoint and an empty inventory. |
| ProfitWatcher.Watcher.FifoMatchSell | profit_watcher.py:143-161 | The matching loop leaves the lots FifoMatch leaves. It returns the sum of the slice profits and qty − remaining. An empty inventory gives (0, 0). |
| ProfitWatcher.LowerAscii | profit_watcher.py:198 | `lower()` on ASCII letters, character by character. |
| ProfitWatcher.LastId | profit_watcher.py:194-213 | The returned checkpoint is the last trade's id, or the stored one for no trades. |
| ProfitWatcher.SellTradesBounded | profit_watcher.py:207-211 | The sell-trade counter never exceeds the number of sell trades. |
| ProfitWatcher.BatchesCompose | profit_watcher.py:189-216 | Processing a batch in two parts books the same profit and count, and leaves the same lots, as processing it whole. |
| ProfitWatcher.SkippedTradesIgnored | profit_watcher.py:201-203 | Dropping the trades with a non-positive amount or price leaves the inventory, profit and sell count unchanged. |
| ProfitWatcher.BuysAppend | profit_watcher.py:205-206 | Buys append their lots at the back, in trade order, and book nothing. |
| ProfitWatcher.ProcessKeepsPositive | profit_watcher.py:196-215 | Starting from positive lots, every lot stays positive. |
| ProfitWatcher.Watcher.ProcessTradesSequence | profit_watcher.py:189-216 | The loop leaves the inventory, profit and count that ProcessTrades describes. It returns the checkpoint LastId gives, and does not write the stored checkpoint. |
| ProfitWatcher.KeyLeTotalPreorder | profit_watcher.py:166-167 | The `(timestamp, id)` key order is total and transitive. |
| ProfitWatcher.ForPair | profit_watcher.py:168 | Keeps exactly the trades of the pair. |
| ProfitWatcher.NormalizeTradesSpec | profit_watcher.py:165-170 | Keeps exactly the pair's trades, each as often as it came, ordered by `(timestamp, id)`. |
| ProfitWatcher.Watcher.Bootstrap | profit_watcher.py:263-268 | With no checkpoint, the checkpoint becomes the most recent trade's id. Otherwise, or with no trades, nothing changes. |
| ProfitWatcher.NewTradesAsWritten | profit_watcher.py:280-285 | The filter as written keeps exactly the trades whose id string sorts after the checkpoint, or all trades with no checkpoint. |
| ProfitWatcher.StringIdsDropLaterTrade | profit_watcher.py:284 | As written, checkpoint "999" hides the later trade "1000". The corrected filter keeps it. |
| ProfitWatcher.IdAfterIsNumeric | profit_watcher.py:284 | For digit-string ids, the corrected test is exactly "greater as a number". |
| ProfitWatcher.NewTrades | profit_watcher.py:280-285 | The corrected filter keeps exactly the trades whose id comes after the checkpoint, or all trades with no checkpoint. |
| ProfitWatcher.NoReprocessing | profit_watcher.py:280-309 | With increasing numeric ids, checkpointing at the last id leaves nothing new when the same trades come back. |
| ProfitWatcher.Watcher.LiveTailStep | profit_watcher.py:274-309 | One poll as written: the new trades are those NewTradesAsWritten keeps, comparing id strings. No trades, or no new ones, change nothing. Otherwise the new trades are processed as ProcessPoll states. |
| ProfitWatcher.Watcher.LiveTailStepCorrected | profit_watcher.py:274-309 | The same poll with the corrected filter NewTrades, which compares ids by value. |
| ProfitWatcher.Watcher.ProcessPoll | profit_watcher.py:287-309 | Given the new trades: none changes nothing. Otherwise the inventory is the FIFO ledger over them, and the checkpoint becomes `new_last_id or last_id`. Stats are updated when the profit is non-negligible or a sell matched. A positive profit also goes to the splitter. |
| ProfitSplit.Distribute | profit_split.py:79-93 | No dollar is lost or created. What leaves the accumulator is split by the ratio, and it is whole chunks only. A non-negative accumulator ends in [0, chunk). |
| ProfitSplit.DistributeBounds | profit_split.py:82-83 | `acc // chunk` chunks leave a remainder in [0, chunk). A non-negative accumulator gives a non-negative count. |
| ProfitSplit.DistributeExample | profit_split.py:81-93 | 8.5 with chunks of 4 split half and half is two chunks: 4 to each bucket, with 0.5 left. |
| ProfitSplit.MinCost | profit_split.py:56-65 | The market's minimum cost when it reports a non-zero one, else 10. |
| ProfitSplit.ReinvestAmount | profit_split.py:123-126 | 0 for a non-positive request. Otherwise the smaller of the pool and the request. |
| ProfitSplit.FirstProfitExample | profit_split.py:79-97 | A first profit of 8.5 puts 4 in the BNB fund. That is below the fallback minimum of 10, so no buy is tried. |
| ProfitSplit.SplitState.constructor | profit_split.py:27-39 | A missing state file gives all-zero buckets and totals. |
| ProfitSplit.SplitState.HandleProfit | profit_split.py:68-115 | A non-positive profit, or a zero chunk (which raises), changes nothing. Otherwise the profit is chunked, and a buy is tried once the fund reaches the minimum. Only a placed positive quantity moves the whole fund to the BNB total; a failed, empty or skipped buy keeps it. The held dollars grow by exactly the profit, the accumulator ends below one chunk, and the time is stamped. |
| ProfitSplit.SplitState.PullReinvestment | profit_split.py:118-131 | Takes ReinvestAmount out of the pool into the reinvested total, conserving their sum. The state is saved and stamped only when something was taken. |
| Recenter.EdgeHit | recenter.py:3-9 | An empty or inverted range is never hit. Otherwise a hit means the price is within edge% of the width of either bound. |
| Recenter.WideEdgeAlwaysHits | recenter.py:7-9 | With an edge of 50% or more, every price of a non-empty range is a hit. |
| Recenter.DefaultEdgeAlwaysHits | recenter.py:16 | The default 90% edge therefore fires on every price. |
| Recenter.DriftOk | recenter.py:36-41 | Drift fires exactly when a percentage is given, the range is non-empty, and the price is at least that fraction of the width from the centre. |
| Recenter.DwellTracker.constructor | recenter.py:21 | The tracker holds the given time and hit start. |
| Recenter.DwellTracker.NeedRecenter | recenter.py:11-43 | The time becomes `now or clock`. The first hit starts the dwell clock, consecutive hits keep it, and a miss clears it. The answer is "hit and dwelt at least dwell_seconds", or drift. |
| Recenter.RecenterBounds | recenter.py:45-53 | The width is kept, with a floor of 1e-9. The lower bound is at least 1e-9. When the floor does not bind, the price is the exact midpoint. |
| Recenter.RecenterBoundsIdempotent | recenter.py:50-53 | Recentering a recentred range around the same price changes nothing. |
| Pnl.RealizedProfitUsd | pnl.py:9-35 | Profit is quantity × (sell·(1−fee) − buy·(1+fee)): what the sale keeps after its fee, less what the purchase cost with its fee. |
| Pnl.LegacyRealizedProfitUsd | pnl.py:39-47 | The legacy name gives the same net profit: quantity × (sell·(1−fee) − buy·(1+fee)). |
| Pnl.DocExample | pnl.py:25-26 | Buying at 100 and selling at 110 one unit, with 0.1% per side, nets 9.79. |
| Pnl.ZeroFeeIsGross | pnl.py:28-35 | Without fees the result is the gross profit. |
| Pnl.AdditiveInQuantity | pnl.py:28-35 | Splitting a quantity splits its profit. |
| Pnl.ScalesWithQuantity | pnl.py:28-35 | Profit scales linearly with the quantity. |
| Pnl.ProfitableIff | pnl.py:28-35 | For a positive quantity the trade is profitable exactly when sell·(1−fee) > buy·(1+fee). |
| PnlCalculator.UnrealizedPnl | pnl_calculator.py:7-30 | A zero inventory gives zeros. Otherwise the USD figure is the market value less the cost value. The percentage is 0 when the cost is not positive. |
| PnlCalculator.UnrealizedIsPriceChange | pnl_calculator.py:18-25 | For a held inventory bought at a positive price, the percentage is the relative price change. The PnL is positive exactly when the price rose. |
| PnlCalculator.ByTime | pnl_calculator.py:66 | Sorting by timestamp keeps every trade. |
| PnlCalculator.ByTimeSorted | pnl_calculator.py:66 | The sorted trades are in timestamp order. |
| PnlCalculator.FoldCounts | pnl_calculator.py:80-92 | The per-side counts and volumes are the counts and cost sums of the buy and the sell trades. |
| PnlCalculator.FoldQtyNonNegative | pnl_calculator.py:84-105 | Over buys of non-negative amounts, the inventory quantity is never negative. |
| PnlCalculator.SellWithoutInventory | pnl_calculator.py:90-94 | A sell with no inventory is counted and adds to the sell volume, but books nothing and leaves the inventory alone. |
| PnlCalculator.SellKeepsAverageCost | pnl_calculator.py:94-102 | A partial sell books cost − amount·avg and leaves the average cost unchanged. |
| PnlCalculator.SellBelowEpsResets | pnl_calculator.py:103-105 | A sell leaving less than 1e-9 resets quantity and cost to zero, including after an oversell. |
| PnlCalculator.ApplyTrade | pnl_calculator.py:67-105 | The loop body advances the running figures by exactly one step of the ledger. |
| PnlCalculator.CalculateRealizedPnl | pnl_calculator.py:32-114 | A failed fetch reports zeros. Otherwise the report is the ledger over the trades in timestamp order, and its counts are those of the buy and sell trades. |
| PnlCalculator.CombinePnl | pnl_calculator.py:128-149 | Total = realized + unrealized, and grid profit = realized. The percentage × initial = total × 100 for a positive initial investment, else 0. |
| PnlCalculator.PctSignIsProfitSign | pnl_calculator.py:136-138 | With a positive initial investment, the percentage is positive exactly when the total profit is. |
| PnlCalculator.CalculateAllPnl | pnl_calculator.py:116-149 | Combines the realized report (zeros when the fetch failed) and the unrealized PnL. A failed fetch with no inventory gives zero total and percentage. |
| Utils.FloorAtScale | utils.py:40 | `floor(x·f)/f` is a whole number of 1/f units, at or below x and within one unit of it. |
| Utils.RoundDownQty | utils.py:15-42 | A positive step wins and floors to its multiples. Otherwise a given precision floors to that many decimals. Otherwise the result is `math.floor`. Each result is within one unit below the quantity. |
| Utils.RoundPrice | utils.py:45-73 | A positive tick wins. Otherwise a given precision floors. Otherwise the price is unchanged. |
| Utils.RoundPriceIdempotent | utils.py:63-73 | Rounding a rounded price changes nothing. |
| Utils.FloorAtScaleFixed | utils.py:71 | A whole number of units floors to itself. |
| Utils.RoundPriceExampleTruncates | test_utils_round_price.py:5 | With a precision of 2, 1.2399 rounds to 1.23. |
| Utils.RoundPriceExampleHalfGoesDown | test_utils_round_price.py:6 | With a precision of 2, 1.235 rounds down to 1.23. |
| Utils.FloatOrZero | utils.py:138 | `float(v or 0.0)`: a falsy stored value counts as 0. |
| Utils.IntOrZero | utils.py:139 | `int(v or 0)`: a falsy stored value counts as 0. |
| Utils.AddRealizedProfit | utils.py:121-146 | The three counters grow by exactly the deltas, and every other key is written back as read. A counter that the conversion refuses raises before anything is written. |
| Utils.AddKeepsOtherKeys | utils.py:142-146 | Keys other than the three counters keep their values. The key set only gains the counters. |
| JsonValues.TruncToZero | utils_stats.py:40 | `int(f)` truncates toward zero. |
| JsonValues.PyFloat | utils_stats.py:34 | `float(x)` of a number is that number. Of null or a container it raises. |
| JsonValues.PyInt | utils_stats.py:40 | `int(x)` of an int is itself, and of a float is that float truncated toward zero. Of null or a container it raises. |
| UtilsStats.SafeFloat | utils_stats.py:32-36 | `float(x)`, or the default where that raises. |
| UtilsStats.SafeInt | utils_stats.py:38-42 | `int(x)`, or the default where that raises. |
| UtilsStats.StatsMap | utils_stats.py:51-55 | The stored stats hold exactly the three counter keys, with the given values. |
| UtilsStats.Normalize | utils_stats.py:62-66 | Normalising keeps exactly the three keys, each converted safely from the entry present (0 when missing). |
| UtilsStats.NormalizeIdempotent | utils_stats.py:50-66 | Normalising normalised stats changes nothing. |
| UtilsStats.NormalizeStats | utils_stats.py:62-66 | Stats that already hold the three typed counters normalise to themselves. |
| UtilsStats.ReadStats | utils_stats.py:44-58 | A missing file, an unreadable one or a non-object gives the defaults. An object gives its normalisation. |
| UtilsStats.ReadAfterWrite | utils_stats.py:60-70 | Reading back what `write_stats` wrote returns it unchanged. |
| UtilsStats.StatsFile.constructor | utils_stats.py:21 | The file holds the given contents. |
| UtilsStats.StatsFile.WriteStats | utils_stats.py:60-70 | The file then holds the normalised stats. |
| UtilsStats.StatsFile.AddRealizedProfit | utils_stats.py:72-82 | The file then holds exactly the three counters: those read, plus the deltas. |
| UtilsStats.AddComposes | utils_stats.py:72-82 | Two updates add up: the counters after them are those read, plus the sum of the deltas. |

## Left out

- **Floating point and Decimal rounding noise.** Numbers are exact reals. `Decimal(str(float))` round trips and float string formatting are not modelled.
- **Exchange I/O.** The exchange client itself is not modelled: `fetch_orders`, `fetch_ticker`, `fetch_balance`, `fetch_my_trades`, `create_order`, `amount_to_precision` and `load_market_precision`. Their results are inputs.
- **Persistence, locks, signals and timing.** Not modelled:
  - state-file persistence: the tmp-file write, `os.replace` and the stats-file lock;
  - the polling and run loops and their `sleep`s;
  - signal handlers, logging and printing;
  - client order ids built from `time.time()`.
- **Corrupt or odd state files.** A corrupted split-state or watcher-state file, and a watcher state without an `inventory` list, are left out. The model starts from the states that `_load`/`read_state` return for a missing file.
- **inc_sell_trades.** `profit_watcher.py` passes `inc_sell_trades` to `add_realized_profit` (profit_watcher.py:244, 298), which that function does not accept (utils_stats.py:72). The resulting exception is not modelled. LiveTailStep reports whether stats would be updated and profit split.
- **The split hook.** Both fill handlers test for `profit_split.on_realized_profit`, which is not defined, so no split call is modelled. The booked profits are returned instead.
- **do_backfill.** `do_backfill` and `_sync_bnb_converted_from_split_state` in `profit_watcher.py` are not part of this model.
- **seed_grid I/O.** The price is an input to `seed_grid`, so a raising ticker fetch is not modelled. Its printing, `cancel_all_open_orders`, the sleeps and the command-line parsing of `regrid.py` are left out. A failed order send is only reported by the source, so it changes nothing in the model.
- **Other files.** Dashboards, notifiers, diagnostics, the other scripts and the tests of code that is not in this repository are not part of this model.
- MainBot.ComputeGridLevels: requires a positive step for valid bounds, because the source's loop has no iteration cap and never ends otherwise; MainBot.GridLevels, MainBot.Bootstrap and LegacyBot.LegacyBootstrap carry the same precondition.
- Regrid.LotFromUsdBounds: the market's amount precision is a non-negative integer number of decimals. The negative precision that Python's format refuses, and non-integer precisions (which the source ignores), are not modelled.
- JsonValues.PyFloat: numeric JSON strings are modelled only as non-empty runs of decimal digits. Signs, decimal points, exponents and whitespace in strings are not accepted.
- ProfitWatcher.LowerAscii: case folding covers ASCII letters only, which is all that "buy" and "sell" can match.
- PnlCalculator.UnrealizedPnl: the percentage is stated for a non-positive cost, and, through UnrealizedIsPriceChange, for a positive inventory at a positive price. A negative inventory at a negative price is not stated separately.
- Recenter.DwellTracker.NeedRecenter: `edge_pct`, `dwell_seconds` and the drift percentage are reals rather than Python ints.

## Findings

| source | as written | input that shows it | evidently intended | confidence | as-written member | corrected member |
|---|---|---|---|---|---|---|
| profit_watcher.py:280-285 | new trades are the ones whose id string is greater than the checkpoint string | checkpoint "999" and a later trade with id "1000": "1000" < "999" as strings, so the trade is never processed | compare the numeric trade ids by value | not executed | ProfitWatcher.NewTradesAsWritten, used by ProfitWatcher.Watcher.LiveTailStep (counterexample ProfitWatcher.StringIdsDropLaterTrade) | ProfitWatcher.NewTrades, used by ProfitWatcher.Watcher.LiveTailStepCorrected (with ProfitWatcher.IdAfterIsNumeric, ProfitWatcher.NoReprocessing) |
