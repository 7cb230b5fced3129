# TradeSharp simulated exchange, strategy statistics and EMA strategy — a Dafny model

This project models three pieces of the TradeSharp trading platform in Dafny 4.11 and proves properties of them.

- **The simulated exchange `OrderExecutorGeneric`** (module `OrderExecution`, with the book in `OrderBook`).
  - It validates incoming market and limit orders. A bad order is rejected with the exchange's own reason text, `"Invaild Price Or Size"`.
  - It fills a market order at once: at its trigger price adjusted by the slippage, else at the last tick, else at the last bar's close.
  - It keeps accepted limit orders in a book ordered by an integer key. The key is read from the order's remarks (`name-<n>`).
  - On each bar it scans the book in key order and fills at most one order, at a price chosen from the bar's open, high and low and the limit price. The order under key 3 waits while key 2 rests.
  - It cancels the first resting order whose id matches a cancel request.
  - Every Accepted, Executed, Cancelled and Rejected notification it raises is appended to an `events` log.
- **A strategy's running `Statistics`** (module `StrategyStatistics`).
  - Share counters and average prices of the open position, and its profit and loss (Pnl).
  - Settlement of that Pnl into accumulators each time the position goes flat.
  - The fractional-position machine `MatlabStatisticsFunction`, with profit-target exits "PT-1", "PT-2", "PT-3".
  - The utility figure `GetRisk`.
- **The two-EMA crossover sample strategy `EmaStrategy`** (module `EmaCrossover`).
  - The entry-state machine driven by the short and long EMA of each bar.
  - The entry signal.
  - The two flags that say whether an entry order or an exit order is outstanding.
  - The counter that numbers every order the strategy sends.

The form follows the code:
- Objects whose fields the C# updates in place are Dafny classes. `OrderExecutorGeneric`, `Statistics`, `EmaStrategy` and the orders themselves (`Domain.Order`) have mutable fields, and their methods carry `modifies` clauses.
- Each such method is proved against pure specification functions: fill prices, `Fill`/`Settle`/`Record`/`MatlabStep`, `InitiateTradeStep`/`ExecutionStep`.
- The properties the platform relies on are proved about those functions as lemmas.

Supporting modules:
- `Text` models the .NET string and number operations the code uses: `Contains`, `Split(c)[1]`, `Replace(p, "")`, `int.TryParse`, `decimal.TryParse`, `ToString()` and `ToString("X")`.
- `Domain` holds the shared entities.
- `Wrappers` holds `Option`.

Modelling conventions:
- Prices (C# `decimal`) are `real`.
- Timestamps are `int`, compared by equality.
- A failure that the C# swallows in a `catch` leaves no trace, as it does in the code. This covers a missing `-` in the remarks, a duplicate book key, an absent bar snapshot and `Replace` with an empty pattern.

Where the code departs from what the system is described to do, the model follows the code:
- **Accepting a limit order** does not set the caller's order to OPEN. Only the fresh copy sent with Accepted is OPEN (OrderExecutorGeneric.cs:160-185).
- **An accepted market order gets no execution in two cases:**
  - when there is no bar snapshot;
  - when its remarks carry a `label:` with an empty value. `Replace("", "")` throws after Accepted was raised (OrderExecutorGeneric.cs:307-320).
- **A market order whose side is none of BUY, COVER, SELL, SHORT** is priced 0 (OrderExecutorGeneric.cs:276-302).
- **A partial profit-target exit from a short position** moves `Pos` 0.33 toward zero, even past it. For example −0.01 becomes 0.32. `Pos` stays within [−1, 1] (Statistics.cs:405-417).

## Model

Paths are relative to the repository root. E = Backend/Common/TradeHub.Common.HistoricalDataProvider/Utility/OrderExecutorGeneric.cs, S = Backend/StrategyRunner/TradeHub.StrategyRunner.Infrastructure/Entities/Statistics.cs, M = Backend/StrategyRunner/TradeHub.StrategyRunner.SampleStrategy/EMA/EmaStrategy.cs (each written out in the table).

| member | source | states |
|---|---|---|
| OrderExecution.BuySidePriceCalculation | Backend/Common/TradeHub.Common.HistoricalDataProvider/Utility/OrderExecutorGeneric.cs:488-503 | a bar opening at its low fills at the low; a bar opening above its low fills at the better (lower) of open and limit; a bar opening below its low gives 0 (no fill); when the low reaches the limit, any non-zero price lies between the low and the limit |
| OrderExecution.SellSidePriceCalculation | Backend/Common/TradeHub.Common.HistoricalDataProvider/Utility/OrderExecutorGeneric.cs:509-525 | the mirror image: open at the high fills at the open, otherwise the better (higher) of open and limit, 0 for a malformed bar; a non-zero price lies between the limit and the high |
| OrderExecution.LimitFillPrice | Backend/Common/TradeHub.Common.HistoricalDataProvider/Utility/OrderExecutorGeneric.cs:365-482 | nothing fills on a bar with the order's own timestamp or for a side other than BUY or SELL; an eligible BUY (low at or below the limit, non-zero BuySidePriceCalculation) fills at exactly that price, an eligible SELL at SellSidePriceCalculation; a BUY fill is the low, the open or the limit and lies between the low and the limit, a SELL fill is the open or the limit and lies between the limit and the high; never at 0 |
| OrderExecution.FirstFill | Backend/Common/TradeHub.Common.HistoricalDataProvider/Utility/OrderExecutorGeneric.cs:89-101 | the bar scan stops at the least book position that fills, or finds none; no earlier position fills; it never stops at key 3 while key 2 rests |
| OrderExecution.LimitExecution | Backend/Common/TradeHub.Common.HistoricalDataProvider/Utility/OrderExecutorGeneric.cs:389-460 | a full fill (leaves 0, cumulative = size) stamped with the bar's time; reported and average price are symmetric about the fill price, two slippages apart, reported above for BUY and below for SELL |
| OrderExecution.MarketPrice | Backend/Common/TradeHub.Common.HistoricalDataProvider/Utility/OrderExecutorGeneric.cs:276-302 | a non-zero trigger moved by the slippage against the trader, else the last tick, else the last bar's close; no price exactly when a known side has no trigger, tick or bar; unknown side gives 0 |
| OrderExecution.TriggerAnnotation | Backend/Common/TradeHub.Common.HistoricalDataProvider/Utility/OrderExecutorGeneric.cs:304-317 | fails exactly when the field after ':' is empty; a field that parses as a decimal becomes the trigger, one that does not leaves the trigger unchanged; the remarks lose every ':' and do not grow; remarks without ':' are untouched |
| OrderExecution.MarketExecution | Backend/Common/TradeHub.Common.HistoricalDataProvider/Utility/OrderExecutorGeneric.cs:322-337 | a full fill at the market price, reported and average price equal, stamped with the bar's time |
| OrderExecution.BookIndex | Backend/Common/TradeHub.Common.HistoricalDataProvider/Utility/OrderExecutorGeneric.cs:176-178 | no key exactly when the remarks lack '-'; otherwise a 32-bit key (0 when the text after '-' does not parse) |
| OrderExecution.ValidMarketOrder | Backend/Common/TradeHub.Common.HistoricalDataProvider/Utility/OrderExecutorGeneric.cs:250-253 | a market order with an empty id, side or provider, or a size that is not positive, is rejected; one with none of these defects passes |
| OrderExecution.ValideLimitOrder | Backend/Common/TradeHub.Common.HistoricalDataProvider/Utility/OrderExecutorGeneric.cs:260-264 | a limit order passes exactly when its size and limit price are positive, its id and side are non-empty and its symbol has a character that is not white space; a symbol of white space alone rejects it like an empty one |
| OrderExecution.BookIndexOfLabel | Backend/Common/TradeHub.Common.HistoricalDataProvider/Utility/OrderExecutorGeneric.cs:176-181 | remarks `name-<n>` with no '-' in the name yield key n for every 32-bit n >= 0 |
| OrderExecution.AcceptedView | Backend/Common/TradeHub.Common.HistoricalDataProvider/Utility/OrderExecutorGeneric.cs:160-169 | the Accepted copy carries the order's id, side and size with status OPEN |
| OrderExecution.FirstWithId | Backend/Common/TradeHub.Common.HistoricalDataProvider/Utility/OrderExecutorGeneric.cs:216-218 | the first book position whose order has the requested id, none earlier, or -1 |
| OrderExecution.OrderExecutorGeneric.constructor | Backend/Common/TradeHub.Common.HistoricalDataProvider/Utility/OrderExecutorGeneric.cs:71-74 | an empty book, no snapshots, no events |
| OrderExecution.OrderExecutorGeneric.TickArrived | Backend/Common/TradeHub.Common.HistoricalDataProvider/Utility/OrderExecutorGeneric.cs:80-83 | the tick becomes the latest tick and nothing else changes |
| OrderExecution.OrderExecutorGeneric.BarArrived | Backend/Common/TradeHub.Common.HistoricalDataProvider/Utility/OrderExecutorGeneric.cs:89-101 | records the bar; the order at FirstFill (if any) leaves the book, is EXECUTED with the bar in its OHLC audit and one Execution at its fill price is emitted; otherwise book and events are unchanged; the book stays sorted and valid, and only the filled order may change |
| OrderExecution.OrderExecutorGeneric.NewMarketOrderArrived | Backend/Common/TradeHub.Common.HistoricalDataProvider/Utility/OrderExecutorGeneric.cs:107-148 | an invalid order gets one Rejection and status REJECTED; a valid one gets Accepted (an OPEN copy) followed by an Execution at MarketPrice when price, annotation and bar are all available, status EXECUTED; the book is untouched |
| OrderExecution.OrderExecutorGeneric.NewLimitOrderArrived | Backend/Common/TradeHub.Common.HistoricalDataProvider/Utility/OrderExecutorGeneric.cs:154-206 | an invalid order gets one Rejection, REJECTED, book unchanged; a valid one with a free key rests under that key (map view gains exactly key -> order) and Accepted is emitted; a missing '-' or a taken key changes nothing; the caller's status is kept |
| OrderExecution.OrderExecutorGeneric.Accept | Backend/Common/TradeHub.Common.HistoricalDataProvider/Utility/OrderExecutorGeneric.cs:176-186 | the order is inserted in key order, the map view gains exactly the new key, one Accepted event follows |
| OrderExecution.OrderExecutorGeneric.CancelOrderArrived | Backend/Common/TradeHub.Common.HistoricalDataProvider/Utility/OrderExecutorGeneric.cs:212-243 | removes only the first entry with the request's id (map view loses exactly its key), sets the request CANCELLED and emits one Cancellation; an unknown id changes nothing |
| OrderExecution.OrderExecutorGeneric.CancelAt | Backend/Common/TradeHub.Common.HistoricalDataProvider/Utility/OrderExecutorGeneric.cs:218-227 | removing by key removes exactly the found position; request CANCELLED; one Cancellation |
| OrderExecution.OrderExecutorGeneric.ExecuteMarketOrder | Backend/Common/TradeHub.Common.HistoricalDataProvider/Utility/OrderExecutorGeneric.cs:270-358 | the trigger and remarks are rewritten only after a price exists; the Execution, EXECUTED status and OHLC audit happen only when price, annotation and bar snapshot all exist |
| OrderExecution.OrderExecutorGeneric.ExecuteLimitOrder | Backend/Common/TradeHub.Common.HistoricalDataProvider/Utility/OrderExecutorGeneric.cs:365-482 | fills exactly when LimitFillPrice has a price; then the order leaves the book at its own position, is EXECUTED with the bar audited and one Execution is emitted; otherwise nothing changes, and the order is not even in the frame |
| OrderExecution.OrderExecutorGeneric.Fill | Backend/Common/TradeHub.Common.HistoricalDataProvider/Utility/OrderExecutorGeneric.cs:378-419 | removal at IndexOfValue, OHLC audit of the latest bar, EXECUTED, one Execution; the book stays valid |
| OrderExecution.OrderExecutorGeneric.Clear | Backend/Common/TradeHub.Common.HistoricalDataProvider/Utility/OrderExecutorGeneric.cs:530-533 | the book is empty and nothing else changes |
| OrderBook.Insert | Backend/Common/TradeHub.Common.HistoricalDataProvider/Utility/OrderExecutorGeneric.cs:181 | `SortedList.Add` keeps keys strictly ascending, adds exactly the new key and one entry |
| OrderBook.InsertView | Backend/Common/TradeHub.Common.HistoricalDataProvider/Utility/OrderExecutorGeneric.cs:181 | as a dictionary, Add binds the new key to the order and leaves every other binding |
| OrderBook.AsMapAt | Backend/Common/TradeHub.Common.HistoricalDataProvider/Utility/OrderExecutorGeneric.cs:93 | in a sorted book each entry is what the dictionary holds under its key |
| OrderBook.RemoveAtSorted | Backend/Common/TradeHub.Common.HistoricalDataProvider/Utility/OrderExecutorGeneric.cs:383 | `RemoveAt` keeps the book sorted |
| OrderBook.RemoveAtView | Backend/Common/TradeHub.Common.HistoricalDataProvider/Utility/OrderExecutorGeneric.cs:383 | `RemoveAt(i)` removes exactly key i's binding from the dictionary |
| OrderBook.IndexOfKey | Backend/Common/TradeHub.Common.HistoricalDataProvider/Utility/OrderExecutorGeneric.cs:96 | the position holding a key, or -1 exactly when the key is absent |
| OrderBook.RemoveKeyAt | Backend/Common/TradeHub.Common.HistoricalDataProvider/Utility/OrderExecutorGeneric.cs:220 | in a sorted book, `Remove(key)` of an entry's key is `RemoveAt` of its position |
| OrderBook.IndexOfOrder | Backend/Common/TradeHub.Common.HistoricalDataProvider/Utility/OrderExecutorGeneric.cs:380 | `IndexOfValue`: the first position holding this very order, none earlier, or -1 |
| Text.SecondField | Backend/Common/TradeHub.Common.HistoricalDataProvider/Utility/OrderExecutorGeneric.cs:178 | `Split(sep)[1]` exists exactly when sep occurs, and contains no sep |
| Text.ParseInt32 | Backend/Common/TradeHub.Common.HistoricalDataProvider/Utility/OrderExecutorGeneric.cs:178 | `int.TryParse` succeeds only with a 32-bit value |
| Text.ParseInt32RoundTrip | Backend/Common/TradeHub.Common.HistoricalDataProvider/Utility/OrderExecutorGeneric.cs:178 | every rendering of a 32-bit n >= 0 parses back to n |
| Text.TrailingMinus | Backend/Common/TradeHub.Common.HistoricalDataProvider/Utility/OrderExecutorGeneric.cs:311 | `decimal.TryParse` reads a trailing '-' like a leading one: "t-" and "-t" both give the negated value of t |
| Text.TrailingPlus | Backend/Common/TradeHub.Common.HistoricalDataProvider/Utility/OrderExecutorGeneric.cs:311 | a trailing or leading '+' leaves the value of t unchanged |
| Text.TrailingMinusExample | Backend/Common/TradeHub.Common.HistoricalDataProvider/Utility/OrderExecutorGeneric.cs:311 | "1.5-" parses to -1.5 |
| Text.WhiteBeforeTrailingSign | Backend/Common/TradeHub.Common.HistoricalDataProvider/Utility/OrderExecutorGeneric.cs:311 | white space between a numeral and its trailing sign is skipped: "t   -" parses like "t-" |
| Text.RemoveAllChar | Backend/Common/TradeHub.Common.HistoricalDataProvider/Utility/OrderExecutorGeneric.cs:315 | `Replace(":", "")` leaves no ':' |
| Text.DigitsRoundTrip | Backend/StrategyRunner/TradeHub.StrategyRunner.Infrastructure/Entities/Statistics.cs:123 | the decimal digits of n read back as n |
| Text.HexRoundTrip | Backend/StrategyRunner/TradeHub.StrategyRunner.SampleStrategy/EMA/EmaStrategy.cs:409 | `ToString("X")` of n reads back as n |
| Text.HexInjective | Backend/StrategyRunner/TradeHub.StrategyRunner.SampleStrategy/EMA/EmaStrategy.cs:409 | distinct order numbers give distinct hexadecimal ids |
| StrategyStatistics.PositionDispatch | Backend/StrategyRunner/TradeHub.StrategyRunner.Infrastructure/Entities/Statistics.cs:116-131 | the position text contains "NONE", "Long" or "Short" exactly when bought = sold, bought > sold or bought < sold |
| StrategyStatistics.PositionText | Backend/StrategyRunner/TradeHub.StrategyRunner.Infrastructure/Entities/Statistics.cs:116-131 | "NONE" exactly when bought = sold; otherwise "Long " or "Short " followed by digits that read back as the size of the net position |
| StrategyStatistics.WeightedAverage | Backend/StrategyRunner/TradeHub.StrategyRunner.Infrastructure/Entities/Statistics.cs:297-299 | total cost is additive (new average x new count = old cost + fill cost), the first fill sets the average to its price, and the average stays between old average and fill price |
| StrategyStatistics.AverageCost | Backend/StrategyRunner/TradeHub.StrategyRunner.Infrastructure/Entities/Statistics.cs:297-299 | cost additivity of the average-price update |
| StrategyStatistics.AverageOfFirst | Backend/StrategyRunner/TradeHub.StrategyRunner.Infrastructure/Entities/Statistics.cs:297-299 | from zero shares the average becomes the fill price |
| StrategyStatistics.AverageBetween | Backend/StrategyRunner/TradeHub.StrategyRunner.Infrastructure/Entities/Statistics.cs:297-299 | the new average lies between the old average and the fill price |
| StrategyStatistics.Fill | Backend/StrategyRunner/TradeHub.StrategyRunner.Infrastructure/Entities/Statistics.cs:293-343 | BUY (or COVER while short) adds to the bought side only, SELL/SHORT (or COVER while long) to the sold side only, anything else to neither; counters stay non-negative; Pnl is sold value less bought cost |
| StrategyStatistics.Revalue | Backend/StrategyRunner/TradeHub.StrategyRunner.Infrastructure/Entities/Statistics.cs:341-343 | Pnl becomes sold value less bought cost and nothing else changes |
| StrategyStatistics.BuyMore | Backend/StrategyRunner/TradeHub.StrategyRunner.Infrastructure/Entities/Statistics.cs:296-302 | the bought counter grows by the size, its average absorbs the fill, the sold side is kept |
| StrategyStatistics.SellMore | Backend/StrategyRunner/TradeHub.StrategyRunner.Infrastructure/Entities/Statistics.cs:308-314 | the sold counter grows by the size, its average absorbs the fill, the bought side is kept |
| StrategyStatistics.Record | Backend/StrategyRunner/TradeHub.StrategyRunner.Infrastructure/Entities/Statistics.cs:195-210 | every value joins the sum; a loss adds one count and its square on the top side, a gain on the bottom side, and zero leaves both counts and both sums of squares unchanged; the accumulator invariant is kept |
| StrategyStatistics.Settle | Backend/StrategyRunner/TradeHub.StrategyRunner.Infrastructure/Entities/Statistics.cs:449-469 | a flat position (bought = sold) has its Pnl recorded and its five fields zeroed; any other leaves everything unchanged |
| StrategyStatistics.LongRoundTrip | Backend/StrategyRunner/TradeHub.StrategyRunner.Infrastructure/Entities/Statistics.cs:291-345 | BUY n at p then SELL n at q records exactly (q - p) * n and leaves the position flat |
| StrategyStatistics.ShortRoundTrip | Backend/StrategyRunner/TradeHub.StrategyRunner.Infrastructure/Entities/Statistics.cs:291-345 | SHORT n at p then COVER n at q records exactly (p - q) * n and leaves the position flat |
| StrategyStatistics.MatlabStep | Backend/StrategyRunner/TradeHub.StrategyRunner.Infrastructure/Entities/Statistics.cs:384-445 | from flat SELL/SHORT opens -1 and BUY opens +1 with the flag raised; a raised flag holds the position; with the flag down "PT-3" or a non-"PT" remark closes and another "PT" moves 0.33 toward zero; position stays in [-1, 1] with a raised flag only at +-1 |
| StrategyStatistics.FaultLeavesMove | Backend/StrategyRunner/TradeHub.StrategyRunner.Infrastructure/Entities/Statistics.cs:386-443 | when a bar the step reads is absent, Pos is left where the completed step would put it if the move comes before the read (opening from flat, a partial exit) and where it was otherwise (a full close) |
| StrategyStatistics.ProfitTargetsCloseLong | Backend/StrategyRunner/TradeHub.StrategyRunner.Infrastructure/Entities/Statistics.cs:426-436 | "PT-1", "PT-2", "PT-3" take a full long to 0.67, 0.34 and flat |
| StrategyStatistics.Statistics.constructor | Backend/StrategyRunner/TradeHub.StrategyRunner.Infrastructure/Entities/Statistics.cs:184-192 | a flat position, empty accumulators, position 0 and flag down |
| StrategyStatistics.Statistics.UpdatePnl | Backend/StrategyRunner/TradeHub.StrategyRunner.Infrastructure/Entities/Statistics.cs:195-210 | records fifteen times the value and changes nothing else |
| StrategyStatistics.Statistics.ResetValues | Backend/StrategyRunner/TradeHub.StrategyRunner.Infrastructure/Entities/Statistics.cs:215-222 | the five per-position fields are zero and nothing else changes |
| StrategyStatistics.Statistics.UpdateCalulcationsOnExecution | Backend/StrategyRunner/TradeHub.StrategyRunner.Infrastructure/Entities/Statistics.cs:291-345 | the new position and accumulators are Settle(Fill(old position, side, price, size), old accumulators); the invariant is kept |
| StrategyStatistics.Statistics.Absorb | Backend/StrategyRunner/TradeHub.StrategyRunner.Infrastructure/Entities/Statistics.cs:293-343 | the position becomes Fill(old position, side, price, size) |
| StrategyStatistics.Statistics.RevaluePnl | Backend/StrategyRunner/TradeHub.StrategyRunner.Infrastructure/Entities/Statistics.cs:341-343 | the position becomes its revaluation |
| StrategyStatistics.Statistics.BuyShares | Backend/StrategyRunner/TradeHub.StrategyRunner.Infrastructure/Entities/Statistics.cs:296-302 | the bought counter and average absorb the fill |
| StrategyStatistics.Statistics.SellShares | Backend/StrategyRunner/TradeHub.StrategyRunner.Infrastructure/Entities/Statistics.cs:308-314 | the sold counter and average absorb the fill |
| StrategyStatistics.Statistics.UpdateCalcualtions | Backend/StrategyRunner/TradeHub.StrategyRunner.Infrastructure/Entities/Statistics.cs:449-469 | the new position and accumulators are Settle of the old ones |
| StrategyStatistics.Statistics.UpdateBar | Backend/StrategyRunner/TradeHub.StrategyRunner.Infrastructure/Entities/Statistics.cs:358-363 | the bar becomes current and the current becomes previous |
| StrategyStatistics.Statistics.CalculatePnlAfterBar | Backend/StrategyRunner/TradeHub.StrategyRunner.Infrastructure/Entities/Statistics.cs:365-382 | lowers the flag; with an open position and both bars present records 15 x (current close - previous close) x position; with a bar absent it faults after lowering the flag and records nothing |
| StrategyStatistics.Statistics.MatlabStatisticsFunction | Backend/StrategyRunner/TradeHub.StrategyRunner.Infrastructure/Entities/Statistics.cs:384-445 | completes exactly when the bars its path reads are present; then position and flag follow MatlabStep and fifteen times its value is recorded; otherwise Pos is left as MatlabFault says, the flag is kept and nothing is recorded |
| StrategyStatistics.Statistics.StepPosition | Backend/StrategyRunner/TradeHub.StrategyRunner.Infrastructure/Entities/Statistics.cs:386-443 | completes exactly when the needed bars are present, with position, flag and returned value as MatlabStep's; a fault leaves the MatlabFault position and the old flag; the stance invariant is kept either way |
| StrategyStatistics.Statistics.GetRisk | Backend/StrategyRunner/TradeHub.StrategyRunner.Infrastructure/Entities/Statistics.cs:475-491 | half the recorded sum less half sigmaTop/sigmaBottom when both are non-zero; just half the sum while either count is zero; never above half the sum |
| StrategyStatistics.Statistics.ResetAllValues | Backend/StrategyRunner/TradeHub.StrategyRunner.Infrastructure/Entities/Statistics.cs:496-507 | flat position, empty accumulators, risk 0.5, position 0, flag down; bars kept |
| EmaCrossover.EntryState | Backend/StrategyRunner/TradeHub.StrategyRunner.SampleStrategy/EMA/EmaStrategy.cs:329-340 | the entry state is the sign of short - long, and unchanged when the two are equal |
| EmaCrossover.Signal | Backend/StrategyRunner/TradeHub.StrategyRunner.SampleStrategy/EMA/EmaStrategy.cs:360-379 | BUY iff previous -1 and current 1, SELL iff previous 1 and current -1, NONE otherwise |
| EmaCrossover.CrossoverSignals | Backend/StrategyRunner/TradeHub.StrategyRunner.SampleStrategy/EMA/EmaStrategy.cs:295 | a BUY arises exactly when the short EMA rises above the long one from state -1, a SELL exactly when it falls below from state 1 |
| EmaCrossover.NextBarSignal | Backend/StrategyRunner/TradeHub.StrategyRunner.SampleStrategy/EMA/EmaStrategy.cs:281-296 | in every state a run reaches, the previous and current entry states agree, so the next bar signals BUY exactly on an upward crossing from -1 and SELL exactly on a downward crossing from 1 |
| EmaCrossover.ExitSide | Backend/StrategyRunner/TradeHub.StrategyRunner.SampleStrategy/EMA/EmaStrategy.cs:655-657 | SELL after a BUY entry, BUY after anything else |
| EmaCrossover.SendEntry | Backend/StrategyRunner/TradeHub.StrategyRunner.SampleStrategy/EMA/EmaStrategy.cs:393-418 | NONE changes nothing; otherwise the entry flag is set and exactly one limit order (size 100, limit 1.24) is sent under the current number, which then advances |
| EmaCrossover.SendExit | Backend/StrategyRunner/TradeHub.StrategyRunner.SampleStrategy/EMA/EmaStrategy.cs:431-456 | NONE changes nothing; otherwise the exit flag is set and exactly one market order of 100 is sent under the current number |
| EmaCrossover.SendMarket | Backend/StrategyRunner/TradeHub.StrategyRunner.SampleStrategy/EMA/EmaStrategy.cs:469-496 | NONE changes nothing; otherwise the entry flag is set and one market BUY of 100 is sent whatever side was asked |
| EmaCrossover.InitiateTradeStep | Backend/StrategyRunner/TradeHub.StrategyRunner.SampleStrategy/EMA/EmaStrategy.cs:281-314 | acts only when both EMAs are positive and then ends with previous = current = the new entry state; an order is sent exactly when neither flag is set and the signal is not NONE, and it is then the one limit order with id Hex(nextId), the signal's side, the fixed quantity and price, after which the entry flag is set and nextId advances by one; the exit flag never changes |
| EmaCrossover.ExecutionStep | Backend/StrategyRunner/TradeHub.StrategyRunner.SampleStrategy/EMA/EmaStrategy.cs:648-665 | a non-zero leaves quantity changes nothing; a full fill with the entry flag set clears it and sends one exit order on the opposite side, setting the exit flag; otherwise a full fill clears the exit flag |
| EmaCrossover.InitialConsistent | Backend/StrategyRunner/TradeHub.StrategyRunner.SampleStrategy/EMA/EmaStrategy.cs:70-77 | the initial fields (numbering from 0xA00, flags clear) satisfy the strategy invariant |
| EmaCrossover.InitiateTradeConsistent | Backend/StrategyRunner/TradeHub.StrategyRunner.SampleStrategy/EMA/EmaStrategy.cs:298-314 | a bar keeps the invariant: flags never both set, numbering consecutive from 0xA00, a set flag matching the last order sent, states within -1..1 and equal to each other |
| EmaCrossover.ExecutionConsistent | Backend/StrategyRunner/TradeHub.StrategyRunner.SampleStrategy/EMA/EmaStrategy.cs:648-665 | an execution keeps the same invariant |
| EmaCrossover.RunConsistent | Backend/StrategyRunner/TradeHub.StrategyRunner.SampleStrategy/EMA/EmaStrategy.cs:266-322 | any sequence of bars and executions keeps the invariant |
| EmaCrossover.FlagsExclusive | Backend/StrategyRunner/TradeHub.StrategyRunner.SampleStrategy/EMA/EmaStrategy.cs:298-311 | from the initial state the entry and exit flags are never set together |
| EmaCrossover.IdsIncreasing | Backend/StrategyRunner/TradeHub.StrategyRunner.SampleStrategy/EMA/EmaStrategy.cs:74 | the i-th order sent carries number 0xA00 + i, below the counter; numbers strictly increase and ids are pairwise distinct |
| EmaCrossover.EmaStrategy.constructor | Backend/StrategyRunner/TradeHub.StrategyRunner.SampleStrategy/EMA/EmaStrategy.cs:70-77 | states 0, flags clear, counter 0xA00, nothing sent |
| EmaCrossover.EmaStrategy.ManageEntryStates | Backend/StrategyRunner/TradeHub.StrategyRunner.SampleStrategy/EMA/EmaStrategy.cs:329-355 | only the current entry state changes, to EntryState |
| EmaCrossover.EmaStrategy.EntrySignal | Backend/StrategyRunner/TradeHub.StrategyRunner.SampleStrategy/EMA/EmaStrategy.cs:360-386 | BUY iff previous -1 and current 1, SELL iff previous 1 and current -1; changes nothing |
| EmaCrossover.EmaStrategy.NextId | Backend/StrategyRunner/TradeHub.StrategyRunner.SampleStrategy/EMA/EmaStrategy.cs:409 | post-increment: the id is the old counter in hexadecimal and the counter grows by one |
| EmaCrossover.EmaStrategy.SendEntryOrder | Backend/StrategyRunner/TradeHub.StrategyRunner.SampleStrategy/EMA/EmaStrategy.cs:393-424 | the new fields are SendEntry of the old ones |
| EmaCrossover.EmaStrategy.SendExitOrder | Backend/StrategyRunner/TradeHub.StrategyRunner.SampleStrategy/EMA/EmaStrategy.cs:431-462 | the new fields are SendExit of the old ones |
| EmaCrossover.EmaStrategy.SendMarketOrder | Backend/StrategyRunner/TradeHub.StrategyRunner.SampleStrategy/EMA/EmaStrategy.cs:469-502 | the new fields are SendMarket of the old ones |
| EmaCrossover.EmaStrategy.InitiateTrade | Backend/StrategyRunner/TradeHub.StrategyRunner.SampleStrategy/EMA/EmaStrategy.cs:266-322 | the new fields are InitiateTradeStep of the old ones, and the invariant is kept |
| EmaCrossover.EmaStrategy.OnExecutionArrived | Backend/StrategyRunner/TradeHub.StrategyRunner.SampleStrategy/EMA/EmaStrategy.cs:636-672 | the new fields are ExecutionStep of the old ones, and the invariant is kept |

## Left out

- Logging, console output, `DateTime.Now` stamps on rejections, `Guid` execution ids and the `Fill`/`Security` wrapper objects: side effects or values with no bearing on the logic.
- Null references other than the bar snapshots: the model's values are never null. The snapshots that may be absent (`_latestTick`, `_latestBar`, `_currentBar`, `_prevBar`) are `Option`s. The exchange swallows the failure an absent one causes. In the statistics it is a fault: the partial update made before the failing read is kept, and the method reports `completed` false.
- The text of the OHLC remark suffix: each annotation is recorded as the bar in the order's `audit` sequence, not as formatted text.
- Decimal rounding: C# `decimal` arithmetic is modelled as exact `real` arithmetic, including the average-price divisions.
- `decimal.TryParse` (NumberStyles.Number) is modelled with optional white space, one sign either directly before the digits or after them (white space may come between the digits and a trailing sign), and digits with at most one '.'. The model assumes the current culture uses '.' as the decimal separator and does not model thousands separators.
- Text.ParseDecimal: `decimal.TryParse` range and precision are not modelled. The function returns the exact rational value of any numeral. `System.Decimal` fails to parse a magnitude beyond about 7.9e28, where the trigger then stays unchanged, and it rounds to 28-29 significant digits.
- `char.IsWhiteSpace` is modelled by its fixed Unicode list.
- 32-bit overflow of the share counters, `Statistics.Position` and the strategy's `_orderId` counter (which would wrap after 2^31 orders): integers are unbounded. `int.TryParse` does check the 32-bit range.
- Order identity: `IndexOfValue` is modelled as reference equality. This assumes the order type does not override `Equals`; the order classes are not part of this model.
- `ExecuteLimitOrder` requires the order to be in the book. It is called only from the bar scan, where it always is; elsewhere `RemoveAt(-1)` would throw.
- StrategyStatistics.Statistics.UpdateCalulcationsOnExecution: requires an execution size above zero. The code divides by the new share count, which a zero size can make zero. The exchange only executes orders whose size validation passed.
- StrategyStatistics.TallyValid: states that a sum of squares is zero while its count is zero, but not the converse. So `GetRisk` is not proved to include the dispersion term as soon as both counts are positive.
- `UpdateCalulcationsOnExecutionMatlab` (Statistics.cs:227-286), the property setters and `ToString`: an alternative, unused bookkeeping path and plain accessors.
- `GetRisk`'s `_pnlList` and `File.WriteAllLines`: file I/O.
- The `Indicator.EMA` computation: the two EMA values are inputs to `InitiateTrade`, as is the bar's symbol.
- EmaStrategy subscription, logon and locate-message callbacks, the `lock` and `Task` concurrency around `InitiateTrade`, and the base class's `SendOrder` transport. An order sent is recorded in the strategy's `sent` sequence.
- StrategyStatistics.MatlabStep: states the completed step only, for the bars its path reads being present. The step that throws on an absent bar is `MatlabFault`, and `MatlabStatisticsFunction`, `StepPosition` and `CalculatePnlAfterBar` report it through a `completed` result that the void C# methods do not have.
- A `null` bar passed to `InitiateTrade`: it returns at once, and the model's bars are never null.
