# ai-perp-trader: a verified model of the paper-trading core

This project models in Dafny the core of an automated perpetual-futures
trading agent and proves properties of that model. The model covers these
parts:

- **The paper-trading engine** `PerpSimAdapter` (module `PerpSim`, with the
  pure arithmetic in `SimMath`). It is a class holding these ledgers:
  - cash, the cumulative fee and funding ledgers;
  - the per-symbol position book;
  - the resting limit orders;
  - the market-data cache and the funding EMA.

  Orders are placed and cancelled against it. Market orders fill at once,
  at the quote plus slippage. Every fill moves cash by its realized profit
  less its fee and hands a trade to the trade log. Each market tick
  refreshes the cache, fills crossed limit orders, accrues funding at most
  once a minute, liquidates a position below maintenance margin and
  updates the EMA.
- **The agent loop's client-id bookkeeping** (module `Worker`, class
  `AgentWorker`):
  - renaming proposed order ids so they are unique and not held by the
    engine;
  - resolving cancellations to the ids actually placed;
  - registering and releasing ids as the engine answers;
  - the margin and return figures the loop shows the decision-making
    client.
- **The live feed's candle buffers** (module `Candles`, class
  `CoinbaseFeed`). These are 1-minute and 4-hour OHLC lists per symbol,
  capped at 240 and 50 candles.
- **The validator** (module `Validation`). It covers:
  - the per-order checks;
  - duplicate client ids within a request;
  - the floating tick-multiple test;
  - the per-coin checks of the position format.
- **The position manager** (module `PositionManagement`, class
  `PositionManager`). It turns per-coin buy, sell, hold and close decisions
  into at most one market order per coin. Each order is sized by the
  requested leverage and the margin still available.
- **The trade log** (module `TradeLog`, class `Database`). It covers:
  - the keyed inserts into trades, positions, equity snapshots and
    metadata;
  - the realized-P&L fold;
  - the completed-trades query.
- **The round-trip fold** (module `RoundTrips`). It rebuilds completed
  trades from the trade log, one per-symbol lot at a time.
- **The read-side API** (module `Dashboard`). It covers the
  completed-trades endpoint, the performance statistics and the maximum
  drawdown of the equity curve.

Other modules:

- `Broker` holds the broker-facing records.
- `Schemas` holds the decision formats.
- `Wrappers` holds `Option`.

Quantities are `real`. Times are integer seconds of UTC. The wall clock,
`uuid` and the database clock are parameters or choices.

Three defects of the code are listed under Findings. Each is modelled
twice: once as written, in a member of its own with a counterexample, and
once corrected. The rest of the model runs the corrected behaviour: the
engine's fill (and so every engine operation that fills), the realized-P&L
query, and the completed-trades query with its endpoint.

Behaviour of the code that the model keeps, which a reader may not expect:

- A full close (the position goes exactly flat) keeps the old average
  entry, leverage and entry time.
- The liquidation penalty is charged to the fee ledger but not to cash.
- A fill's "is flat" test is exact (`old_qty == 0`).
- Ticks are processed for any symbol, not only configured ones.
- The liquidation check values equity with the unrealized profit of the
  ticked symbol only.

## Model

| member | source | states |
|---|---|---|
| SimMath.NewPosition | apps/worker/adapters/perpsim.py:342-345 | a first fill of a symbol starts from a flat position with no realized profit, the funding clock seeded at the fill time and the default leverage |
| SimMath.FillPrice | apps/worker/adapters/perpsim.py:326-332 | a buy fills at or above the ask, a sell at or below the bid, each off the quote by exactly the slippage fraction; with no slippage the fill is the quote |
| SimMath.Fee | apps/worker/adapters/perpsim.py:351-353 | the fee is non-negative for a non-negative rate and price, and zero when rate, size or price is zero |
| SimMath.ApplyFill | apps/worker/adapters/perpsim.py:356-394 | a fill adds its signed size to the position and its realized profit to the position's realized total, and keeps the symbol and the funding clock (corrected; see Findings: a shrinking reversal reopens at the fill price) |
| SimMath.ApplyFillCases | apps/worker/adapters/perpsim.py:357-394 | from flat a fill opens at the fill price with the order's leverage; adding keeps the size-weighted average; closing realizes min(close, held) times the favourable move; a partial or full close keeps entry, leverage and entry time; a reversal reopens at the fill price (the corrected branch of the finding below) |
| SimMath.CloseRealized | apps/worker/adapters/perpsim.py:375-381 | the realized profit of a close is the closed size times the price move, signed by the position's direction |
| SimMath.ApplyFillAsWritten | apps/worker/adapters/perpsim.py:385-394 | the fill with the branch order as written adds the signed size to the position and keeps its symbol |
| SimMath.AsWrittenAgreesOffShrinkingReversal | apps/worker/adapters/perpsim.py:385-394 | the fill as written realizes the same profit as the corrected fill, and gives the same position except on a reversal that ends smaller than the old position |
| SimMath.ReversalAsWrittenKeepsStaleEntry | apps/worker/adapters/perpsim.py:387-394 | long 1 @ 100 sold 1.5 @ 110 leaves a short of 0.5 still at entry 100 and the old leverage under the code as written |
| SimMath.PartialCloseKeepsEntry | apps/worker/adapters/perpsim.py:387-389 | a partial close keeps average entry, leverage and entry time |
| SimMath.ReversalReopens | apps/worker/adapters/perpsim.py:390-394 | a reversal opens the new direction at the fill price with the order's leverage and the fill time |
| SimMath.FullCloseKeepsEntry | apps/worker/adapters/perpsim.py:386-394 | an exact full close goes flat but keeps entry, leverage and entry time |
| SimMath.AddAverageBetween | apps/worker/adapters/perpsim.py:365-371 | adding to a position puts the new average entry between the old average and the fill price |
| SimMath.SplitCloseLongSameRealized | apps/worker/adapters/perpsim.py:375-394 | selling a long position in two pieces at one price realizes the same as selling it at once, namely qty times (price - average entry) |
| SimMath.SplitCloseShortSameRealized | apps/worker/adapters/perpsim.py:375-394 | buying back a short position in two pieces at one price realizes the same as at once, namely qty times (price - average entry), a gain when the price fell |
| SimMath.LongReduce | apps/worker/adapters/perpsim.py:375-389 | selling part or all of a long realizes the sold size times the move from entry, shrinks the size by it and keeps the entry |
| SimMath.ShortReduce | apps/worker/adapters/perpsim.py:375-389 | buying back part or all of a short realizes the bought size times the move in the short's favour, shrinks the size by it and keeps the entry |
| SimMath.Unrealized | apps/worker/adapters/perpsim.py:523-527 | the unrealized profit written per direction (qty times (mark - entry) for a long, abs(qty) times (entry - mark) for a short) is qty times (mark - entry) in both cases |
| SimMath.FundingRate | apps/worker/adapters/perpsim.py:574-596 | mode B yields +0.01% exactly when the mark is above the symbol's EMA (negative when there is no EMA yet); every other mode yields 0 |
| SimMath.EmaUpdate | apps/worker/adapters/perpsim.py:598-605 | the first mark seeds the EMA; later marks move it to a value between the old EMA and the mark; other symbols are untouched |
| SimMath.Funding | apps/worker/adapters/perpsim.py:467-502 | nothing accrues for a flat position, on the first accrual (the clock is seeded), within a minute of the last accrual or without market data; otherwise the payment is -qty times the mark times the per-minute rate and the clock moves to the tick |
| SimMath.FundingDirection | apps/worker/adapters/perpsim.py:497-499 | with a positive rate and mark, longs pay funding and shorts receive it |
| SimMath.FundingAtMostOncePerMinute | apps/worker/adapters/perpsim.py:484-486 | after an accrual, a second tick inside the same minute accrues nothing |
| SimMath.MaintenanceMargin | apps/worker/adapters/perpsim.py:531-534 | the maintenance requirement is non-negative for a non-negative fraction and mark |
| SimMath.LiquidationEquity | apps/worker/adapters/perpsim.py:522-528 | the equity the liquidation check uses: cash, plus the ticked position's unrealized profit, plus cumulative funding; `PerpSim.LiquidationEquityIsAccountEquity` ties it to the account's equity |
| SimMath.Liquidates | apps/worker/adapters/perpsim.py:519-536 | a non-flat position is liquidated exactly when that equity is below the maintenance requirement; `PerpSim.PerpSimAdapter.CheckLiquidation` acts on it |
| SimMath.LiquidationPrice | apps/worker/adapters/perpsim.py:544-545 | a long is liquidated at or below the mark, a short at or above it |
| SimMath.LiquidationFee | apps/worker/adapters/perpsim.py:560-562 | the liquidation penalty is positive for a positive rate, size and mark |
| SimMath.LiquidationOrder | apps/worker/adapters/perpsim.py:548-555 | the liquidation order is a market order for the whole size on the opposite side |
| SimMath.LiquidationFlattens | apps/worker/adapters/perpsim.py:548-558 | executing the liquidation order against the position it was computed from leaves it flat |
| SimMath.LimitFillOrder | apps/worker/adapters/perpsim.py:428-435 | a crossed resting order fills as a limit order with its own id, symbol, signed size and limit price |
| SimMath.Crosses | apps/worker/adapters/perpsim.py:428-435 | a resting order of the ticked symbol crosses when a buy's limit reaches the ask or a sell's limit reaches the bid; `PerpSim.TickSplitsOrders` shows a tick fills exactly these |
| SimMath.TickInfo | apps/worker/adapters/perpsim.py:289-310 | the cached quote has the mid as mark, lies inside a positive non-crossed quote with non-negative spread, quotes $1000 of depth on both sides, and falls back to spread 0 and depth 1 at a non-positive mark |
| PerpSim.PositionInfoOf | apps/worker/adapters/perpsim.py:113-134 | a reported position carries the book's size, entry, leverage and entry time, unrealized profit qty times (mark - entry) and notional size times mark |
| PerpSim.OpenPositions | apps/worker/adapters/perpsim.py:105-134 | the reported positions in book order, one per non-flat position with cached market data; its soundness and completeness are `PerpSim.OpenPositionsSound` and `PerpSim.OpenPositionsComplete` |
| PerpSim.RealizedOver | apps/worker/adapters/perpsim.py:137 | the realized total summed over the book's symbols; `PerpSim.RealizedOverFrame` and `PerpSim.RealizedOverUpdate` state how it moves |
| PerpSim.OpenPositionsSound | apps/worker/adapters/perpsim.py:105-122 | every reported position is non-flat, has a cached market and is valued at it; the reported unrealized total is the sum over the report |
| PerpSim.OpenPositionsComplete | apps/worker/adapters/perpsim.py:105-134 | every non-flat position with a cached market is reported |
| PerpSim.RealizedOverFrame | apps/worker/adapters/perpsim.py:137 | the realized total does not depend on positions outside the book |
| PerpSim.RealizedOverUpdate | apps/worker/adapters/perpsim.py:137 | replacing one position changes the realized total by the change in that position's realized profit |
| PerpSim.LiquidationEquityIsAccountEquity | apps/worker/adapters/perpsim.py:522-528 | when the ticked symbol is the only reported position, the liquidation check's equity equals the reported account equity |
| PerpSim.FillTrade | apps/worker/adapters/perpsim.py:400-409 | the logged trade carries the order's symbol, side, size and client id, the fill price, the fill time and a non-negative fee |
| PerpSim.PositionFor | apps/worker/adapters/perpsim.py:341-347 | a fill applies to the symbol's existing position or to a new flat one |
| PerpSim.FillStep | apps/worker/adapters/perpsim.py:334-409 | one fill creates the symbol's position if needed, changes no other position, adds the signed size, charges the fee to the fee ledger and logs exactly one trade (corrected; see Findings: it applies the corrected `SimMath.ApplyFill`) |
| PerpSim.FillStepOf | apps/worker/adapters/perpsim.py:338-409 | the fill computed step by step (get or create the position, apply the fill, charge the fee and add the realized profit to cash, log the trade) is the fill step, and keeps the cash identity |
| PerpSim.StoreKeepsBook | apps/worker/adapters/perpsim.py:342-345 | storing a position under its own symbol keeps every position listed once in insertion order |
| PerpSim.ListedIff | apps/worker/adapters/perpsim.py:342-345 | the set of symbols the book lists holds exactly the symbols of its list |
| PerpSim.BookLists | apps/worker/adapters/perpsim.py:342-345 | in a well-formed book a symbol has a position exactly when the book lists it |
| PerpSim.FillKeepsBalance | apps/worker/adapters/perpsim.py:396-398 | every fill keeps cash equal to the starting cash plus all realized profit plus the fee ledger, less the liquidation penalties |
| PerpSim.FillAll | apps/worker/adapters/perpsim.py:438-558 | a run of fills logs one trade per fill in order and charges the sum of their fees |
| PerpSim.FillTrades | apps/worker/adapters/perpsim.py:400-409 | one trade per fill, the i-th describing the i-th fill |
| PerpSim.FillAllKeepsBalance | apps/worker/adapters/perpsim.py:396-398 | any run of fills keeps the cash identity |
| PerpSim.IndexOfOrder | apps/worker/adapters/perpsim.py:205 | the found index holds the id; -1 exactly when no resting order has it |
| PerpSim.UpsertOrder | apps/worker/adapters/perpsim.py:186-194 | storing a resting order under its id keeps every other order, grows the list by at most one and keeps ids distinct |
| PerpSim.RemoveOrder | apps/worker/adapters/perpsim.py:205-206 | cancelling removes exactly the order with that id and keeps all others |
| PerpSim.TickSplitsOrders | apps/worker/adapters/perpsim.py:417-458 | a tick partitions the resting orders: the crossed ones are filled, every other one stays |
| PerpSim.LimitFills | apps/worker/adapters/perpsim.py:425-454 | each crossed order fills at its own limit price, in book order |
| PerpSim.KeptUnique | apps/worker/adapters/perpsim.py:456-458 | the orders kept by a tick still have distinct ids |
| PerpSim.UncrossedSubsequence | apps/worker/adapters/perpsim.py:456-458 | the kept orders are a subset of the resting orders with distinct ids |
| PerpSim.CachedMarkets | apps/worker/adapters/perpsim.py:97 | the market state lists the cached market of every requested symbol that has one, and nothing else |
| PerpSim.FundedPositions | apps/worker/adapters/perpsim.py:460-502 | funding changes no position's size or entry and no other symbol's position |
| PerpSim.TickFills | apps/worker/adapters/perpsim.py:438-558 | a tick schedules each crossed order at its limit price, then the liquidation fill when it liquidates |
| PerpSim.LiquidationFill | apps/worker/adapters/perpsim.py:543-558 | the liquidation fill closes the whole position |
| PerpSim.PlaceAnswer | apps/worker/adapters/perpsim.py:154-201 | the answer to a placement keeps the order's client id; it succeeds exactly when the symbol has market data and the order is a market order or a priced limit order; otherwise it carries "no market data for <symbol>" or "limit price required for limit orders" |
| PerpSim.AfterPlace | apps/worker/adapters/perpsim.py:154-201 | the ledger and resting orders after one placement: a refused order changes nothing, a market order fills at once and leaves the resting orders alone, a limit order rests under its id and leaves the ledger alone; resting ids stay distinct |
| PerpSim.MarketPlacementFills | apps/worker/adapters/perpsim.py:169-175 | a market order with market data is accepted and moves the ledger by exactly one fill step at the slippage price of the cached quote |
| PerpSim.CloseFlattens | apps/worker/adapters/perpsim.py:169-175 | a market order for the whole size of a held position, on the opposite side, leaves that position flat when the symbol has market data |
| PerpSim.AfterPlaceAll | apps/worker/adapters/perpsim.py:154-201 | placing a run of orders in turn keeps the resting ids distinct |
| PerpSim.AfterPlaceAllAppend | apps/worker/adapters/perpsim.py:154-201 | placing two runs of orders one after the other is placing their concatenation |
| PerpSim.AfterPlaceAllLedger | apps/worker/adapters/perpsim.py:154-201 | after a run of placements the ledger is the run of fills of the accepted market orders, each at its slippage price, in order |
| PerpSim.AfterPlaceAllKeepsBalance | apps/worker/adapters/perpsim.py:396-398 | any run of placements keeps the cash identity |
| PerpSim.PlaceAnswers | apps/worker/adapters/perpsim.py:154-201 | one answer per order of a run, each the answer to that order alone |
| PerpSim.CancelAnswer | apps/worker/adapters/perpsim.py:203-212 | the answer to a cancellation keeps the id and succeeds exactly when an order rests under it; otherwise it carries "order not found" |
| PerpSim.AfterCancelAllKeeps | apps/worker/adapters/perpsim.py:203-212 | a run of cancellations adds no order and keeps every order it does not name; with distinct ids, none of the named ids still rests and ids stay distinct |
| PerpSim.CancelAnswers | apps/worker/adapters/perpsim.py:203-212 | one answer per cancellation of a run |
| PerpSim.CancelSucceedsIff | apps/worker/adapters/perpsim.py:203-212 | in a run of cancellations, the j-th succeeds exactly when its id rested before the run and was not named earlier in the run |
| PerpSim.LastCancelSucceedsIff | apps/worker/adapters/perpsim.py:205-206 | after some cancellations an id still rests exactly when it rested before and none of them named it |
| PerpSim.PerpSimAdapter.constructor | apps/worker/adapters/perpsim.py:75-90 | the engine starts with 10000 in cash, no positions, orders, market data, EMA or trades |
| PerpSim.PerpSimAdapter.GetMarketState | apps/worker/adapters/perpsim.py:95-98 | the cached markets of the requested symbols, stamped with the current time |
| PerpSim.PerpSimAdapter.GetAccountState | apps/worker/adapters/perpsim.py:100-152 | the reported positions and unrealized total are those of the book; equity = cash + unrealized + funding; cash, realized total, fees and funding are the ledgers |
| PerpSim.PerpSimAdapter.ExecuteFill | apps/worker/adapters/perpsim.py:334-415 | the ledger moves by exactly one fill step; orders, funding, market data and EMA are unchanged; the cash identity holds (corrected; see Findings) |
| PerpSim.PerpSimAdapter.StoreLedger | apps/worker/adapters/perpsim.py:342-398 | writing back a balanced ledger leaves the engine valid with exactly that ledger, and orders, funding, market data and EMA as they were |
| PerpSim.PerpSimAdapter.PlaceOrder | apps/worker/adapters/perpsim.py:154-201 | the answer is `PlaceAnswer` of the cache and the order, and the ledger and resting orders become `AfterPlace` of the old ones: refused without market data or, for a limit order, without a price, with nothing changed; a market order fills at once at the slippage price; a limit order rests under its id (corrected; see Findings) |
| PerpSim.PerpSimAdapter.CancelOrder | apps/worker/adapters/perpsim.py:203-212 | the answer is `CancelAnswer`: success exactly when the id rests; the resting orders lose exactly that id; the ledger is unchanged |
| PerpSim.PerpSimAdapter.TryFillLimits | apps/worker/adapters/perpsim.py:417-458 | returns the crossed orders in order and keeps the rest; the ledger is unchanged until they are filled |
| PerpSim.PerpSimAdapter.AccrueFunding | apps/worker/adapters/perpsim.py:460-508 | the ticked position's funding step as `Funding` states it; nothing without a position; cash, fees and trades unchanged |
| PerpSim.PerpSimAdapter.CheckLiquidation | apps/worker/adapters/perpsim.py:510-572 | a liquidation happens exactly when equity falls below maintenance; it yields the closing fill and charges the penalty to the fee ledger only |
| PerpSim.PerpSimAdapter.UpdateEma | apps/worker/adapters/perpsim.py:598-605 | the EMA map becomes `EmaUpdate` of the old one; nothing else changes |
| PerpSim.PerpSimAdapter.ApplyTick | apps/worker/adapters/perpsim.py:281-324 | a tick caches the quote, keeps the uncrossed orders, adds the funding payment, charges a liquidation penalty if it liquidates, updates the EMA and returns the fills to run; cash and trades are unchanged |
| PerpSim.PerpSimAdapter.RunScheduledFills | apps/worker/adapters/perpsim.py:438-558 | the scheduled fills are applied in order, with the cash identity kept (corrected; see Findings) |
| PerpSim.PerpSimAdapter.OnMarketData | apps/worker/adapters/perpsim.py:281-324 | the ledger after a tick is the synchronous tick state with the crossed limit fills and then the liquidation fill applied in order (corrected; see Findings) |
| Worker.KeyIndex | apps/worker/main.py:181 | the index of a key in an insertion-ordered dictionary, or -1 exactly when absent |
| Worker.RemoveKey | apps/worker/main.py:181 | popping a key leaves exactly the entries under other keys, and never lengthens the list |
| Worker.RemoveKeyKeepsDistinct | apps/worker/main.py:181 | popping a key from a dictionary with distinct keys leaves the keys distinct |
| Worker.RemoveAbsentKey | apps/worker/main.py:181 | popping a key the dictionary does not hold changes nothing |
| Worker.NewestPendingFor | apps/worker/main.py:174-176 | the newest pending rename whose original is the given id, or -1 when there is none |
| Worker.RemoveFirst | apps/worker/main.py:197-198 | `list.remove` drops one occurrence and keeps everything else |
| Worker.OriginalOf | apps/worker/main.py:181-184 | the original an id is registered under: its pending rename's, else the one recorded, else itself |
| Worker.Register | apps/worker/main.py:179-188 | the bookkeeping after a successful placement; its effects are `Worker.RegisterEffect` and `Worker.RegisterAliases` |
| Worker.Release | apps/worker/main.py:190-200 | the bookkeeping after a cancel or a failed placement, touching the alias list only under a non-empty original; its effects are `Worker.ReleaseEffect` and `Worker.ReleaseAliases` |
| Worker.WellKept | apps/worker/main.py:179-200 | the shape the bookkeeping keeps (no empty alias list, distinct pending keys, non-empty originals); `Worker.RegisterKeeps` and `Worker.ReleaseKeeps` show it is kept |
| Worker.RegisterEffect | apps/worker/main.py:179-188 | registering marks the id active, maps it to its original and consumes the pending rename |
| Worker.RegisterAliases | apps/worker/main.py:179-188 | registering puts the id on its original's alias list at most once, adds nothing else to that list, and leaves every other list alone |
| Worker.ReleaseEffect | apps/worker/main.py:190-200 | releasing marks the id inactive, forgets its original and consumes its pending rename |
| Worker.ReleaseAliases | apps/worker/main.py:190-200 | releasing adds no alias list; a list that does not hold the id is unchanged; a changed list is the old one less the first occurrence of the id; no list is left empty |
| Worker.Resolve | apps/worker/main.py:165-177 | a cancellation id resolves to itself when empty or known, else to the newest alias of that original, else to the newest pending rename, else to itself |
| Worker.RegisterKeeps | apps/worker/main.py:179-188 | registering keeps the bookkeeping well formed |
| Worker.ReleaseKeeps | apps/worker/main.py:190-200 | releasing keeps the bookkeeping well formed |
| Worker.ReleaseUnknownIsNoop | apps/worker/main.py:190-200 | releasing an id the bookkeeping does not know changes nothing |
| Worker.ReleaseUndoesRegister | apps/worker/main.py:179-200 | releasing a freshly registered id restores the bookkeeping, except that its pending rename stays consumed |
| Worker.ReleaseOfNewest | apps/worker/main.py:196-200 | releasing the newest alias takes it off its original's list |
| Worker.ResolveFindsPlacedRename | apps/worker/main.py:171-173 | once a pending rename is placed, cancelling by the original id resolves to the placed id |
| Worker.CancelErrors | apps/worker/main.py:404-410 | one "cancel failed" line per failed cancellation, in order |
| Worker.OrderErrors | apps/worker/main.py:430-435 | one "order failed" line per failed placement, in order |
| Worker.ErrorsCountFailures | apps/worker/main.py:399-437 | the adapter path reports exactly one error line per failed cancellation or placement |
| Worker.CancelErrorsCount | apps/worker/main.py:404-410 | the cancel error lines count the failed cancellations |
| Worker.OrderErrorsCount | apps/worker/main.py:413-435 | the order error lines count the failed placements |
| Worker.AdapterOrder | apps/worker/main.py:419-428 | the engine order carries the action order's fields, the chosen client id and the default leverage |
| Worker.PlaceableExactly | apps/worker/main.py:413-415 | exactly the orders tagged "place_order" are placed, in order |
| Worker.MarkFor | apps/worker/main.py:556-560 | a symbol's mark is the last one listed for it, and none when no market lists it |
| Worker.Truncate | apps/worker/main.py:583 | Python `int` of a real truncates toward zero |
| Worker.RawLiquidationEstimate | apps/worker/main.py:571-577 | the estimate lies below the entry for a long and above it for a short, by 95% of 1/leverage; it is 0 at non-positive leverage |
| Worker.ObservedPosition | apps/worker/main.py:558-606 | the observed position is priced at the symbol's mark (else its entry), its unrealized profit is qty times the move from entry, its liquidation estimate is clamped at 0, and holding minutes are present exactly when the entry time is known and never negative for a past entry |
| Worker.MarginOf | apps/worker/main.py:617-621 | a position's margin is its notional over leverage, 0 at non-positive leverage, never negative |
| Worker.UsedMargin | apps/worker/main.py:616-621 | the used margin is the sum of the position margins, never negative when prices are not |
| Worker.AvailableMargin | apps/worker/main.py:624 | the available margin is equity minus used margin, clamped at 0 |
| Worker.TotalReturnPct | apps/worker/main.py:609-611 | the return is the percentage change over the first equity, 0 when that is not positive |
| Worker.ObservedAccount | apps/worker/main.py:626-635 | the observed account shows available margin as cash, the engine's cash as margin balance and the absolute fees |
| Worker.FreshSuffixExists | apps/worker/main.py:153-154 | a suffix always exists that makes the renamed id free, so the retry loop can stop |
| Worker.NewIds | apps/worker/main.py:157 | the renamed ids in order |
| Worker.NewIdSetIff | apps/worker/main.py:156 | the set of renamed ids holds exactly the ids of the rename list |
| Worker.RenamedStep | apps/worker/main.py:150-157 | renaming the next order with a free id keeps the renames unique, free and prefixed by their original |
| Worker.WithNewIds | apps/worker/main.py:155 | every order keeps its fields and takes its renamed id |
| Worker.AgentWorker.constructor | apps/worker/main.py:37-94 | the worker starts with empty id bookkeeping |
| Worker.AgentWorker.NormalizeActionClientIds | apps/worker/main.py:145-163 | every order gets an id unique within the request and not held by the engine, renames are recorded in a fresh pending map, the other bookkeeping is unchanged, and each cancellation is resolved |
| Worker.AgentWorker.ChooseActualId | apps/worker/main.py:151-154 | the chosen id is free, equals the proposal when that is free, and extends the proposal otherwise |
| Worker.AgentWorker.ResolveCancellations | apps/worker/main.py:159-161 | each cancellation id is replaced by its resolution, in order |
| Worker.AgentWorker.ResolveClientId | apps/worker/main.py:165-177 | the loop over pending renames computes `Resolve` |
| Worker.AgentWorker.RegisterClientId | apps/worker/main.py:179-188 | the bookkeeping becomes `Register` of the old bookkeeping |
| Worker.AgentWorker.ReleaseClientId | apps/worker/main.py:190-200 | the bookkeeping becomes `Release` of the old bookkeeping |
| Worker.AgentWorker.ExecuteViaAdapter | apps/worker/main.py:399-437 | the cancellations go out first, then every placeable order under its own or a fresh id; the answers are the engine's `CancelAnswers` and `PlaceAnswers`; the engine ends in `AfterPlaceAll` of the sent orders applied after `AfterCancelAll` of the cancelled ids; the bookkeeping releases each cancelled id, registers each placed id and releases each failed one; the error lines are the cancel failures then the order failures |
| Worker.AgentWorker.ExecuteCancellations | apps/worker/main.py:404-410 | the answers are `CancelAnswers` of the resting orders and the ids in order; the resting orders become `AfterCancelAll` of them and the ledger and market data are unchanged; successes release; failures give error lines |
| Worker.AgentWorker.ExecuteOrders | apps/worker/main.py:413-435 | each placeable order goes out in order as its engine order; the answers are `PlaceAnswers` of what was sent and the engine ends in `AfterPlaceAll` of it; successes register and failures release |
| Worker.AgentWorker.CancelOne | apps/worker/main.py:405-410 | the answer is the engine's `CancelAnswer` for the id; the resting orders lose exactly that id; the ledger and market data are unchanged; a success releases the id, a failure changes no bookkeeping |
| Worker.AgentWorker.PlaceOne | apps/worker/main.py:417-435 | the order goes out under its own id, or a fresh non-empty one; the answer is the engine's `PlaceAnswer` and the engine ends in `AfterPlace` of that order; success registers the id, failure releases it and yields the error line |
| Worker.AgentWorker.ComputeUsedMargin | apps/worker/main.py:616-621 | the loop computes the used margin |
| Candles.MinuteBucket | apps/worker/market/coinbase_ws.py:167-168 | the 1-minute bucket is a whole minute in milliseconds, the start of the minute holding the tick |
| Candles.FourHourBucket | apps/worker/market/coinbase_ws.py:208-210 | the 4-hour bucket computed from the day and the hour rounded down to a multiple of four; `Candles.FourHourBucketAligned` shows it is the aligned 14400-second block |
| Candles.FourHourBucketAligned | apps/worker/market/coinbase_ws.py:208-210 | the 4-hour bucket computed from day and hour is the start of the aligned 14400-second block holding the tick |
| Candles.NextBuffer | apps/worker/market/coinbase_ws.py:170-198 | a tick in a new bucket appends a fresh mid-price candle with zero volume and drops the oldest past the cap; a tick in the newest bucket raises its high, lowers its low and sets its close; older candles are untouched |
| Candles.NextBufferBounded | apps/worker/market/coinbase_ws.py:186-188 | a buffer within its cap stays within it |
| Candles.NextBufferKeepsOhlc | apps/worker/market/coinbase_ws.py:176-196 | every candle keeps low <= open, close <= high |
| Candles.OutOfOrderTickAppends | apps/worker/market/coinbase_ws.py:173 | a tick stamped before the newest candle's bucket appends a new candle, since the test is "differs", not "later" |
| Candles.BufferOf | apps/worker/market/coinbase_ws.py:170 | a symbol never seen has an empty buffer |
| Candles.InitialBuffers | apps/worker/market/coinbase_ws.py:44-54 | every subscribed symbol starts from its prefilled list or an empty one |
| Candles.IsValidTicker | apps/worker/market/coinbase_ws.py:119-135 | a message reaches the callback and the buffers exactly when it is a ticker with positive bid and ask |
| Candles.CoinbaseFeed.constructor | apps/worker/market/coinbase_ws.py:21-54 | the buffers start as the initial buffers and no tick has been delivered |
| Candles.CoinbaseFeed.HandleMessage | apps/worker/market/coinbase_ws.py:117-156 | a ticker with positive bid and ask goes to the callback and into both buffers of its product, with a missing time read as now; any other message changes nothing; a message keeps every buffer within its cap and every candle OHLC-shaped when they were before |
| Candles.CoinbaseFeed.UpdateCandleBuffer | apps/worker/market/coinbase_ws.py:159-198 | the 1-minute buffer of the symbol becomes `NextBuffer` with cap 240; other symbols are untouched |
| Candles.CoinbaseFeed.Update4hCandleBuffer | apps/worker/market/coinbase_ws.py:200-239 | the 4-hour buffer of the symbol becomes `NextBuffer` with cap 50; other symbols are untouched |
| Candles.CoinbaseFeed.GetCandles | apps/worker/market/coinbase_ws.py:241-243 | the symbol's 1-minute buffer, or empty |
| Candles.CoinbaseFeed.Get4hCandles | apps/worker/market/coinbase_ws.py:245-247 | the symbol's 4-hour buffer, or empty |
| Candles.HandleMessageKeepsBuffers | apps/worker/market/coinbase_ws.py:117-239 | handling any message keeps every buffer within its cap and every candle OHLC-shaped |
| Validation.TickFor | apps/worker/validator.py:43 | a symbol's tick is the first table entry for it, else the default |
| Validation.PyMod | apps/worker/validator.py:60 | Python's float `%` with a positive modulus lies in [0, m) |
| Validation.PyModSplits | apps/worker/validator.py:60 | the remainder is the price less a whole number of ticks |
| Validation.IsValidTick | apps/worker/validator.py:58-61 | a price is on tick when its remainder is within 1e-6 of 0 or of a full tick; `Validation.ExactMultipleIsValidTick`, `Validation.ValidTickIsNearMultiple` and `Validation.NearMultipleIsValidTick` characterise it |
| Validation.ExactMultipleIsValidTick | apps/worker/validator.py:58-61 | every exact multiple of the tick is accepted |
| Validation.ValidTickIsNearMultiple | apps/worker/validator.py:58-61 | an accepted price lies within 1e-6 of a multiple of the tick |
| Validation.NearMultipleIsValidTick | apps/worker/validator.py:58-61 | conversely, for a tick of at least 1e-6, a price that close to a multiple is accepted |
| Validation.Notional | apps/worker/validator.py:49 | the notional is qty times the limit price, with an absent or zero price counting as 1.0 |
| Validation.ValidateOrder | apps/worker/validator.py:36-56 | a limit order without a price is refused for that reason first; an order passes exactly when it is not a priceless limit order, any price it gives is on tick and its notional reaches the minimum |
| Validation.OrdersVerdict | apps/worker/validator.py:24-34 | the first order that fails its own checks or repeats an earlier client id decides the request; `Validation.OrdersVerdictNoneIff` and `Validation.FailureIndex` characterise it |
| Validation.DistinctClientIds | apps/worker/validator.py:28-32 | no two orders of a request share a client id |
| Validation.OrdersVerdictNoneIff | apps/worker/validator.py:24-34 | the orders pass iff each passes its own checks and their client ids are distinct and new |
| Validation.OrdersVerdictFirstFailure | apps/worker/validator.py:26-32 | a refusal is the first order's own error or duplicate id, or the verdict on the rest once it passed |
| Validation.FailureIndex | apps/worker/validator.py:26-32 | a refusal stops at an order whose own error or duplicate id decides it, and every order before it passed its own checks |
| Validation.ValidateAction | apps/worker/validator.py:17-34 | a schema failure is reported first; otherwise the first failing order decides; otherwise the action is returned |
| Validation.DecisionSymbol | apps/worker/validator.py:81 | the table key is "<coin>-USD" when the first table key mentions USD, else "<coin>-PERP" |
| Validation.DecisionError | apps/worker/validator.py:72-96 | a coin mismatch is reported first, then excess leverage; a decision passes exactly when the tick table is not empty, the coin matches, the leverage is allowed, target and stop are on tick, a buy or sell has positive size and the confidence is in [0, 1] |
| Validation.HoldOrCloseMayBeEmpty | apps/worker/validator.py:90-92 | a hold or close with zero size and no exit prices passes once coin, leverage and confidence do |
| Validation.DecisionsVerdict | apps/worker/validator.py:71-98 | the first failing decision in key order decides, and none when all pass |
| Validation.ValidatePositionAction | apps/worker/validator.py:63-98 | a schema failure is reported first; otherwise the first failing decision; otherwise the action is returned |
| PositionManagement.RoundHalfEven | apps/worker/position_manager.py:25 | Python's `round` is within 1/2 of its argument and picks the even integer on a tie |
| PositionManagement.RoundHalfEvenNearest | apps/worker/position_manager.py:25 | away from ties the rounding is the unique nearest integer |
| PositionManagement.TickFor | apps/worker/position_manager.py:24 | the symbol's tick, else 0.5 |
| PositionManagement.RoundToTick | apps/worker/position_manager.py:22-25 | the price rounded to the nearest multiple of the symbol's tick, ties to even; `PositionManagement.RoundToTickIsNearestMultiple` and `PositionManagement.RoundToTickFixesMultiples` characterise it |
| PositionManagement.RoundToTickIsNearestMultiple | apps/worker/position_manager.py:22-25 | the rounded price is a whole number of ticks at most half a tick from the price |
| PositionManagement.RoundToTickFixesMultiples | apps/worker/position_manager.py:22-25 | a price already on the grid is unchanged |
| PositionManagement.CurrentPosition | apps/worker/position_manager.py:49 | a symbol's current position is one listed for it, and none exactly when none is listed |
| PositionManagement.UsedMargin | apps/worker/position_manager.py:51-56 | the sum over the positions of size times the market price (else the entry) over leverage; `PositionManagement.UsedMarginNonNegative` bounds it |
| PositionManagement.UsedMarginNonNegative | apps/worker/position_manager.py:51-58 | the used margin of positions at non-negative prices is never negative |
| PositionManagement.CloseOrder | apps/worker/position_manager.py:184-199 | the closing order is a reduce-only market order for the whole size on the opposite side |
| PositionManagement.TargetNotional | apps/worker/position_manager.py:120-126 | the target notional is the requested leverage on equity capped by the leverage on available margin |
| PositionManagement.ResizeOrder | apps/worker/position_manager.py:144-162 | a resize is a market order for the coin's symbol sized by the change, buying exactly when the change is positive |
| PositionManagement.TradeSizing | apps/worker/position_manager.py:90-146 | a buy or sell is refused without a price, when opening from flat with under 1.0 of margin, or when the capped target is below the effective margin; otherwise it resizes by the change to the target, or does nothing within 1e-6 |
| PositionManagement.TradeStep | apps/worker/position_manager.py:90-176 | a sized order is sent; it fails exactly without market data, and on success the margin drops by the target margin less the freed margin |
| PositionManagement.CloseStep | apps/worker/position_manager.py:70-83 | a close sends the closing order of a held position, failing without market data, and nothing when flat |
| PositionManagement.DecisionStep | apps/worker/position_manager.py:60-176 | one decision: close, hold, or buy and sell; its shape is `PositionManagement.DecisionStepShape` |
| PositionManagement.DecisionStepShape | apps/worker/position_manager.py:60-182 | each decision sends at most one market order, for its coin's symbol; hold does nothing; close sends the closing order of a held position only; buy or sell without a price is an error; a sent order fails exactly without market data |
| PositionManagement.FreedMarginNonNegative | apps/worker/position_manager.py:98-102 | the margin a position releases is never negative |
| PositionManagement.BuySellReachesTarget | apps/worker/position_manager.py:120-146 | a sized buy or sell moves the position exactly to the target, long for buy and short for sell, with notional at most equity times leverage |
| PositionManagement.DecisionStepKeepsMargin | apps/worker/position_manager.py:167-169 | each decision leaves the available margin non-negative |
| PositionManagement.ExecuteAll | apps/worker/position_manager.py:60-182 | the decisions in dictionary order folded over the running available margin; `PositionManagement.ExecuteAllBounds` and `PositionManagement.ExecuteAllSnoc` characterise it |
| PositionManagement.ExecuteAllBounds | apps/worker/position_manager.py:60-182 | the decisions together send at most one order and record at most one error per coin, and the margin never goes negative |
| PositionManagement.ExecuteAllSnoc | apps/worker/position_manager.py:60-182 | the decisions folded over one more entry give the earlier outcome followed by that entry's step on the margin left |
| PositionManagement.PositionManager.constructor | apps/worker/position_manager.py:18-20 | the manager holds its engine and tick table |
| PositionManagement.PositionManager.ComputeUsedMargin | apps/worker/position_manager.py:51-56 | the loop computes the used margin |
| PositionManagement.PositionManager.ExecutePositionDecisions | apps/worker/position_manager.py:27-182 | the decisions run in key order from the available margin; errors and sent orders are those `ExecuteAll` plans, and the engine ends in `AfterPlaceAll` of the sent orders |
| PositionManagement.PositionManager.ExecuteDecision | apps/worker/position_manager.py:60-179 | one decision's errors, sent orders and remaining margin are those `DecisionStep` plans, and the engine ends in `AfterPlaceAll` of the sent orders |
| PositionManagement.PositionManager.ClosePosition | apps/worker/position_manager.py:184-204 | a held position is closed by its closing order, failing only without market data, and the engine ends in `AfterPlaceAll` of it: with market data, the engine's position of that size is left flat; a flat position sends nothing |
| PositionManagement.PositionManager.Trade | apps/worker/position_manager.py:90-176 | a buy or sell's errors, sent orders and remaining margin are those `TradeStep` plans, and the engine ends in `AfterPlaceAll` of the sent orders |
| PositionManagement.PositionManager.Submit | apps/worker/position_manager.py:149-164 | the planned order goes out with a fresh id; the answer is the engine's `PlaceAnswer`, refused exactly without market data, and the engine ends in `AfterPlaceAll` of that one order; the resting orders and market data are unchanged |
| RoundTrips.LotStep | apps/worker/db.py:208-287 | one trade folded into its symbol's lot: opening from flat, adding in the same direction, or closing against the lot with a record; `RoundTrips.LotStepRecordWhen` and `RoundTrips.LotStepRecord` characterise it |
| RoundTrips.CloseRecord | apps/worker/db.py:225-265 | the completed trade of closing part of a lot; its fields are `RoundTrips.CloseRecordFacts` |
| RoundTrips.ClosedLot | apps/worker/db.py:266-287 | what is left of a lot after a close: flat below 1e-6, reversed at the trade price, or scaled down; see `RoundTrips.ClosedLotScales` and `RoundTrips.ReversalRestartsAtPrice` |
| RoundTrips.LotStepRecordWhen | apps/worker/db.py:208-252 | a completed trade is emitted exactly for a trade against an open lot in the opposite direction |
| RoundTrips.LotStepRecord | apps/worker/db.py:225-265 | a record closes min(trade, lot) in the lot's direction from the lot's entry time to the trade; net = gross - fees, with fees pro-rated from lot and trade; entry notional = qty * entry price >= 0 |
| RoundTrips.LotStepCloses | apps/worker/db.py:208-265 | a step that emits a record closes against an open lot, and records the close of min(trade, lot) |
| RoundTrips.CloseRecordFacts | apps/worker/db.py:225-265 | a close record carries the closed size, the trade's symbol, time and price, the lot's entry time and direction, fees pro-rated from lot and trade, net = gross - fees, and a non-negative entry notional |
| RoundTrips.AddingWeightsAverage | apps/worker/db.py:218-223 | adding in the same direction makes the average entry the size-weighted mean of the old average and the fill, keeping entry time and adding the fee |
| RoundTrips.ClosedLotScales | apps/worker/db.py:284-287 | a partial close scales cost and fees by the fraction kept |
| RoundTrips.ClosedLotKeepsAverage | apps/worker/db.py:284-287 | closing part of a lot keeps it open at the same average entry |
| RoundTrips.PartialCloseKeepsAverage | apps/worker/db.py:284-287 | a partial close keeps the average entry, direction and entry time |
| RoundTrips.ReversalRestartsAtPrice | apps/worker/db.py:277-283 | a reversal opens the leftover at the trade price and time, with the trade's fee pro-rated to it |
| RoundTrips.FullCloseGoesFlat | apps/worker/db.py:268-274 | a close leaving less than 1e-6 resets the lot to flat |
| RoundTrips.LotStepKeepsLotOk | apps/worker/db.py:208-287 | every step keeps a lot flat or open with a known entry time |
| RoundTrips.RoundTrip | apps/worker/db.py:190-287 | the per-symbol lot fold over the trades in order; `RoundTrips.RoundTripInvariant` and `RoundTrips.RoundTripStep` characterise it |
| RoundTrips.RoundTripInvariant | apps/worker/db.py:190-287 | over any trade log: at most one record per trade, all lots well formed, and every record with positive size, an entry time and holding time measured from it |
| RoundTrips.RoundTripStep | apps/worker/db.py:190-287 | a trade changes only its own symbol's lot and only appends records |
| RoundTrips.CompletedTrades | apps/worker/db.py:176-287 | the loop over trades computes the fold's records, oldest first |
| RoundTrips.PyTailFrom | apps/worker/db.py:290 | Python's `xs[-k:]` for every integer k |
| RoundTrips.NewestFirstAsWritten | apps/worker/db.py:290 | `list(reversed(completed))[-limit:]` as written (see Findings) |
| RoundTrips.NewestFirstAsWrittenKeepsOldest | apps/worker/db.py:290 | as written, a positive limit keeps the oldest `limit` records and a limit of 0 keeps all |
| RoundTrips.NewestFirstAsWrittenCounterexample | apps/api/main.py:253 | three records with limit 1 return the oldest, not the newest |
| RoundTrips.NewestFirst | apps/worker/db.py:290 | the `limit` most recent records, newest first (the corrected query) |
| TradeLog.TradesAfterInsert | apps/worker/db.py:28-40 | an insert stores the trade unless its client id is already stored, and then changes nothing; client ids stay unique |
| TradeLog.InsertTradeIdempotent | apps/worker/db.py:37 | inserting the same trade twice stores it once |
| TradeLog.DuplicateClientIdIgnored | apps/worker/db.py:37 | a second trade with a stored client id is dropped whatever its other fields |
| TradeLog.UpsertRow | apps/worker/db.py:42-80 | a zero size deletes the row; otherwise the row takes the new values and `now` as update time, with entry time `now` for a new row or a direction change and kept otherwise; other rows unchanged, no flat row stored |
| TradeLog.Replay | apps/worker/db.py:42-80 | the rows after a symbol's position updates in order; `TradeLog.ReplayEntryTime` states what it keeps |
| TradeLog.ReplayEntryTime | apps/worker/db.py:42-80 | after a symbol's updates, a row exists iff the last size is non-zero, and its entry time is when the current direction began |
| TradeLog.BasisStepAsWritten | apps/worker/db.py:163-173 | the cost step as written: every trade adds qty times price to the cost, closes included (see Findings) |
| TradeLog.BasisStepCorrected | apps/worker/db.py:163-173 | the cost step kept consistent: flat resets it, a reversal reopens at the price, a partial close scales it with the size (see Findings) |
| TradeLog.RealizedFold | apps/worker/db.py:149-175 | the realized-P&L fold over the trades, under either cost rule; `TradeLog.RealizedAsWrittenCounterexample` and `TradeLog.BuysRealizeNothing` are about it |
| TradeLog.StepRealizesOnlyOnClose | apps/worker/db.py:163-173 | only a trade against the running position realizes profit, under either cost rule |
| TradeLog.CorrectedPartialCloseKeepsAverage | apps/worker/db.py:163-173 | with the cost kept consistent, a partial close keeps the average entry |
| TradeLog.CorrectedSplitCloseSameRealized | apps/worker/db.py:163-173 | with the cost kept consistent, closing in two pieces at one price realizes the same as at once |
| TradeLog.SplitCloseAsWrittenCounterexample | apps/worker/db.py:170-171 | as written, closing 1 then 1 of 2 @ 100 at 110 realizes 30, not 20 |
| TradeLog.RealizedAsWrittenCounterexample | apps/worker/db.py:149-175 | buy 2 @ 100, sell 1 @ 110, sell 1 @ 110: as written 30, corrected 20 |
| TradeLog.BuysRealizeNothing | apps/worker/db.py:149-175 | a log of buys only realizes nothing, under either rule |
| TradeLog.Database.constructor | apps/worker/db.py:13-15 | every table starts empty |
| TradeLog.Database.InsertTrade | apps/worker/db.py:28-40 | the trades table becomes `TradesAfterInsert`; the other tables are unchanged |
| TradeLog.Database.UpsertPosition | apps/worker/db.py:42-80 | the positions table becomes `UpsertRow`; the other tables are unchanged |
| TradeLog.Database.InsertEquitySnapshot | apps/worker/db.py:95-105 | the snapshot for a timestamp is the last one written; others are unchanged |
| TradeLog.Database.GetMetadata | apps/worker/db.py:115-121 | the stored value for a key, none for an unknown key |
| TradeLog.Database.SetMetadata | apps/worker/db.py:123-133 | after a write, reading the key gives the written value, and other keys are unchanged |
| TradeLog.Database.CalculateRealizedPnl | apps/worker/db.py:149-175 | the loop computes the realized fold with the cost kept consistent (corrected rule) |
| TradeLog.Database.GetCompletedTrades | apps/worker/db.py:176-290 | the `limit` most recent round trips of the stored trades, newest first (corrected; see Findings) |
| Dashboard.CompletedTradesEndpoint | apps/api/main.py:139-253 | a limit outside [1, 500] is refused; otherwise at most `limit` round trips, all of them when fewer, newest first (corrected; see Findings) |
| Dashboard.Wins | apps/api/main.py:468-469 | the net P&L of the trades with positive net, in order, all positive |
| Dashboard.Losses | apps/api/main.py:470-471 | the net P&L of the trades with negative net, in order, all negative |
| Dashboard.WinsLossesPartition | apps/api/main.py:468-473 | every trade is exactly one of win, loss or break-even |
| Dashboard.MaxOrZero | apps/api/main.py:479 | `max(..., default=0.0)` bounds every term and is attained, 0 when empty |
| Dashboard.MinOrZero | apps/api/main.py:480 | `min(..., default=0.0)` bounds every term and is attained, 0 when empty |
| Dashboard.AverageBetweenExtremes | apps/api/main.py:476-480 | an average lies between the smallest and largest term |
| Dashboard.VolumeNonNegative | apps/api/main.py:482 | the total volume of well-formed records is never negative |
| Dashboard.StatsOf | apps/api/main.py:451-516 | the performance statistics of the completed trades and the equity curve; `Dashboard.StatsOfBounds` and `Dashboard.PerformanceStatsOf` bound them |
| Dashboard.PerformanceStatsOf | apps/api/main.py:368-533 | all-zero stats iff no round trip completed; otherwise total = trades, wins + losses <= total, win rate in [0, 100], 0 < average win <= largest win, largest loss <= average loss < 0, profit factor, volume and drawdown non-negative |
| Dashboard.AverageWinBounds | apps/api/main.py:476-479 | the average win is positive and at most the largest win |
| Dashboard.AverageLossBounds | apps/api/main.py:477-480 | the average loss is negative and at least the largest loss |
| Dashboard.RateAtMostHundred | apps/api/main.py:475 | the win rate is at most 100 percent |
| Dashboard.StatsOfBounds | apps/api/main.py:468-516 | the statistics of well-formed records satisfy the bounds above |
| Dashboard.PeakThrough | apps/api/main.py:511-514 | the running peak of the equity curve; `Dashboard.PeakThroughIsMaximum` shows it is the largest snapshot so far |
| Dashboard.PeakThroughIsMaximum | apps/api/main.py:511-514 | the running peak is the largest snapshot so far and is one of them |
| Dashboard.DrawdownThrough | apps/api/main.py:510-516 | the largest drawdown below the running peak so far; `Dashboard.DrawdownThroughBounds` and `Dashboard.DrawdownThroughAttained` characterise it |
| Dashboard.MaxDrawdown | apps/api/main.py:506-516 | the maximum drawdown of the whole curve, 0 with fewer than two snapshots; `Dashboard.MaxDrawdownNonNegative` and `Dashboard.MaxDrawdownAtMostHundred` bound it |
| Dashboard.DrawdownThroughBounds | apps/api/main.py:510-516 | the maximum drawdown so far is non-negative and bounds the drawdown at every snapshot so far |
| Dashboard.DrawdownThroughAttained | apps/api/main.py:510-516 | a positive maximum drawdown is the drawdown at some snapshot |
| Dashboard.MaxDrawdownNonNegative | apps/api/main.py:506-516 | the maximum drawdown is never negative |
| Dashboard.DrawdownAtMostHundred | apps/api/main.py:515 | below a positive peak, a non-negative equity is at most 100 percent down |
| Dashboard.DrawdownThroughAtMostHundred | apps/api/main.py:510-516 | with non-negative equity the drawdown so far never exceeds 100 percent |
| Dashboard.MaxDrawdownAtMostHundred | apps/api/main.py:506-516 | with non-negative equity the maximum drawdown never exceeds 100 percent |
| Dashboard.NonDecreasingCurveHasNoDrawdown | apps/api/main.py:511-516 | a curve that never falls below its running peak has no drawdown |
| Dashboard.ComputeMaxDrawdown | apps/api/main.py:506-516 | the peak/drawdown loop computes the maximum drawdown |

## Left out

- I/O is not modelled: the database connection, the websocket, HTTP and logging. The trade log is the `tradeLog` field of the engine and the tables of `Database`.
- The clock, `uuid` and the database's `now()` are parameters. Fresh ids are chosen by the verifier among the free ones.
- The asyncio tasks a tick schedules are not modelled as tasks. Their fills are applied after the synchronous part of the tick, in creation order; other interleavings are not modelled.
- Naive and aware datetimes are both treated as UTC integer seconds; sub-second precision is dropped.
- Exceptions are not modelled (a failed `insert_trade`, a malformed message, the catch-all of `place_order` and of `execute_position_decisions`).
- Validation.DecisionError: an empty tick table makes the validator raise an IndexError when it picks the symbol suffix (apps/worker/validator.py:81); the model reports the error `NoTickTable` instead.
- IEEE floating point is not modelled: quantities are exact reals. `round(x, 2)` and the other display rounding in the API are left out.
- The 30-day Sharpe ratio of the performance statistics is not modelled (it needs a square root).
- The `entry_trades` list and the `holding_time_display` string of completed trades are not modelled; no result depends on them.
- The early-exit warning in `execute_position_decisions` is left out; it only logs.
- The on-tick callback is recorded as the sequence `delivered` instead of being called.
- Metadata values are held as their JSON text; JSON encoding is not modelled.
- `get_positions`, `insert_chat`, `get_trades`, `calculate_fees_paid`, `update_market_prices` and the pass-through API endpoints are not modelled; they only read or write rows.
- `reconcile`, `limits`, `close` and the engine's exchange-side counterpart are not modelled.
- Trades are taken in stored order, which the queries read in timestamp order. Equity snapshots are given in timestamp order.
- RoundTrips.RoundTripInvariant: requires every trade to have a positive size (the fold divides by it; the trades table only holds fills of positive size).
- Validation.ValidateOrder: requires positive tick sizes; the source would raise on a zero tick.
- PositionManagement.RoundToTickIsNearestMultiple: requires positive tick sizes, for the same reason.
- PositionManagement.PositionManager.ExecutePositionDecisions: requires decisions that passed the schema (positive leverage), as they do after validation.
- PerpSim.PerpSimAdapter.GetAccountState: states the realized total over the book's symbols, which are all the positions while the engine is valid.

## Findings

| source | as written | input that shows it | evidently intended | confidence | as-written member | corrected member |
|---|---|---|---|---|---|---|
| apps/worker/adapters/perpsim.py:386-394 | a reversal whose new size is smaller than the old one takes the "partial close" branch and keeps the stale entry price, leverage and entry time | long 1 @ 100, sell 1.5 @ 110: a short of 0.5 is left at entry 100 | any reversal reopens at the fill price with the order's leverage | not executed | SimMath.ApplyFillAsWritten, SimMath.ReversalAsWrittenKeepsStaleEntry, SimMath.AsWrittenAgreesOffShrinkingReversal | SimMath.ApplyFill, SimMath.ReversalReopens |
| apps/worker/db.py:163-173 | a closing trade adds `qty * price` to the cost, so the average entry of the remainder drifts and later closes realize the wrong amount | buy 2 @ 100, sell 1 @ 110, sell 1 @ 110 realizes 30 instead of 20 | the cost is scaled with the size on a partial close and reset on a reversal or flat | not executed | TradeLog.BasisStepAsWritten, TradeLog.RealizedAsWrittenCounterexample | TradeLog.CorrectedSplitCloseSameRealized, TradeLog.Database.CalculateRealizedPnl |
| apps/worker/db.py:290, apps/api/main.py:253 | `list(reversed(completed))[-limit:]` keeps the oldest `limit` round trips (and all of them for a limit of 0) | three round trips, limit 1: the oldest comes back | the `limit` most recent round trips, newest first | not executed | RoundTrips.NewestFirstAsWrittenKeepsOldest, RoundTrips.NewestFirstAsWrittenCounterexample | RoundTrips.NewestFirst |
