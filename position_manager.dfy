/**
 * The position manager (apps/worker/position_manager.py): turns per-coin
 * buy / sell / hold / close decisions into at most one market order per
 * coin, sized by the requested leverage and the margin still available,
 * and submits them to the paper-trading engine.
 */
module PositionManagement {
  import opened Wrappers
  import opened Broker
  import opened Schemas
  import PerpSim

  /** Tick size assumed for a symbol missing from the table. */
  const DEFAULT_TICK: real := 0.5
  /** Smallest position change worth an order. */
  const QTY_EPSILON: real := 0.000001
  /** Least effective margin with which a position may be opened from flat. */
  const MIN_OPEN_MARGIN: real := 1.0

  // ---------------------------------------------------------------------
  // Rounding to the tick
  // ---------------------------------------------------------------------

  /** Python's `round`: the nearest integer, ties to the even one. */
  function RoundHalfEven(x: real): (n: int)
    ensures x - 0.5 <= n as real <= x + 0.5
    ensures (n as real == x - 0.5 || n as real == x + 0.5) ==> n % 2 == 0
  {
    var f := x.Floor;
    var diff := x - f as real;
    if diff < 0.5 then f
    else if diff > 0.5 then f + 1
    else if f % 2 == 0 then f
    else f + 1
  }

  /** The rounding is the unique nearest integer whenever it is not a tie. */
  lemma RoundHalfEvenNearest(x: real, k: int)
    requires x - 0.5 < k as real < x + 0.5
    ensures RoundHalfEven(x) == k
  {
  }

  predicate TicksPositive(tickSizes: map<string, real>) {
    forall s :: s in tickSizes ==> tickSizes[s] > 0.0
  }

  function TickFor(tickSizes: map<string, real>, symbol: string): (t: real)
    ensures symbol !in tickSizes ==> t == DEFAULT_TICK
    ensures TicksPositive(tickSizes) ==> t > 0.0
  {
    if symbol in tickSizes then tickSizes[symbol] else DEFAULT_TICK
  }

  /** `_round_to_tick`: the nearest multiple of the symbol's tick, ties to an even multiple. */
  function RoundToTick(tickSizes: map<string, real>, price: real, symbol: string): (r: real)
    requires TicksPositive(tickSizes)
  {
    RoundHalfEven(price / TickFor(tickSizes, symbol)) as real * TickFor(tickSizes, symbol)
  }

  /** The rounded price is a whole number of ticks, at most half a tick from the price. */
  lemma RoundToTickIsNearestMultiple(tickSizes: map<string, real>, price: real, symbol: string)
    requires TicksPositive(tickSizes)
    ensures var t := TickFor(tickSizes, symbol);
      RoundToTick(tickSizes, price, symbol) == RoundHalfEven(price / t) as real * t
      && price - t / 2.0 <= RoundToTick(tickSizes, price, symbol) <= price + t / 2.0
  {
    var t := TickFor(tickSizes, symbol);
    var q := price / t;
    var n := RoundHalfEven(q) as real;
    assert q - 0.5 <= n <= q + 0.5;
    assert n * t - price == (n - q) * t;
    assert (q + 0.5 - n) * t >= 0.0 by { NonNegativeProduct(q + 0.5 - n, t); }
    assert (n - q + 0.5) * t >= 0.0 by { NonNegativeProduct(n - q + 0.5, t); }
  }

  lemma NonNegativeProduct(a: real, b: real)
    requires a >= 0.0 && b >= 0.0
    ensures a * b >= 0.0
  {
  }

  /** A price already on the tick grid is left unchanged. */
  lemma RoundToTickFixesMultiples(tickSizes: map<string, real>, k: int, symbol: string)
    requires TicksPositive(tickSizes)
    ensures RoundToTick(tickSizes, k as real * TickFor(tickSizes, symbol), symbol) == k as real * TickFor(tickSizes, symbol)
  {
    var t := TickFor(tickSizes, symbol);
    var x := k as real * t;
    assert x / t == k as real;
    RoundHalfEvenNearest(k as real, k);
    assert RoundHalfEven(x / t) == k;
    assert RoundToTick(tickSizes, x, symbol) == k as real * t;
  }

  // ---------------------------------------------------------------------
  // Sizing
  // ---------------------------------------------------------------------

  /** `{pos.symbol: pos for pos in current_positions}[symbol]`: the last position listed for the symbol. */
  function CurrentPosition(positions: seq<Position>, symbol: string): (r: Option<Position>)
    ensures r.None? <==> forall i :: 0 <= i < |positions| ==> positions[i].symbol != symbol
    ensures r.Some? ==> r.value.symbol == symbol && exists i :: (0 <= i < |positions| && positions[i] == r.value
      && forall j :: i < j < |positions| ==> positions[j].symbol != symbol)
  {
    if |positions| == 0 then None
    else if positions[|positions| - 1].symbol == symbol then Some(positions[|positions| - 1])
    else CurrentPosition(positions[..|positions| - 1], symbol)
  }

  /** Margin held by one position, priced at the market or else at its entry; none at zero leverage. */
  function PositionMargin(p: Position, prices: map<string, real>): real {
    var price := if p.symbol in prices then prices[p.symbol] else p.avgEntry;
    if p.leverage > 0.0 then Abs(p.qty) * price / p.leverage else 0.0
  }

  /** The margin held by all current positions. */
  function UsedMargin(positions: seq<Position>, prices: map<string, real>): real {
    if |positions| == 0 then 0.0
    else UsedMargin(positions[..|positions| - 1], prices) + PositionMargin(positions[|positions| - 1], prices)
  }

  /** Positions priced at non-negative prices hold non-negative margin. */
  lemma {:induction false} UsedMarginNonNegative(positions: seq<Position>, prices: map<string, real>)
    requires forall s :: s in prices ==> prices[s] >= 0.0
    requires forall i :: 0 <= i < |positions| ==> positions[i].avgEntry >= 0.0
    ensures UsedMargin(positions, prices) >= 0.0
  {
    if |positions| > 0 {
      var p := positions[|positions| - 1];
      UsedMarginNonNegative(positions[..|positions| - 1], prices);
      if p.leverage > 0.0 {
        var price := if p.symbol in prices then prices[p.symbol] else p.avgEntry;
        NonNegativeProduct(Abs(p.qty), price);
      }
    }
  }

  /** A decision's outcome: the errors it records, the orders it submits (client ids left blank) and the margin left. */
  datatype Outcome = Outcome(errors: seq<ManagerError>, orders: seq<Order>, available: real)

  datatype ManagerError =
    | NoPrice(coin: string)
    | InsufficientMarginToOpen(coin: string, leverage: real, requestedNotional: real, available: real)
    | InsufficientMargin(coin: string, leverage: real, requestedNotional: real, available: real)
    | PlaceFailed(coin: string, side: Side, error: Option<string>)
    | CloseFailed(symbol: string, error: Option<string>)

  /** The engine's answer to a market order for a symbol without cached market data. */
  function NoMarketData(symbol: string): string {
    "no market data for " + symbol
  }

  /** `_close_position`'s order: reduce-only, market, opposite side, the full size. */
  function CloseOrder(symbol: string, qty: real): (o: Order)
    ensures o.symbol == symbol && o.orderType == Market && o.limitPrice.None? && o.reduceOnly
    ensures o.qty == Abs(qty) && (o.side == Side.Sell <==> qty > 0.0)
    ensures o.leverage == DEFAULT_LEVERAGE
  {
    Order(symbol, if qty > 0.0 then Side.Sell else Side.Buy, Abs(qty), Market, None, "ioc", true, "", DEFAULT_LEVERAGE)
  }

  /** The position's symbol for a coin. */
  function SymbolOf(coin: string): string {
    coin + "-USD"
  }

  /** The quantity held in the coin's symbol, 0 when flat. */
  function CurrentQty(positions: seq<Position>, coin: string): real {
    var cur := CurrentPosition(positions, SymbolOf(coin));
    if cur.Some? then cur.value.qty else 0.0
  }

  /** Margin the current position would release, valued at the current price. */
  function FreedMargin(positions: seq<Position>, coin: string, price: real): real {
    var cur := CurrentPosition(positions, SymbolOf(coin));
    if cur.Some? && cur.value.qty != 0.0 && cur.value.leverage != 0.0 then Abs(cur.value.qty) * price / cur.value.leverage
    else 0.0
  }

  /** The notional a buy or sell aims for: the requested leverage on equity, capped by the margin at hand. */
  function TargetNotional(equity: real, leverage: real, effective: real): (n: real)
    ensures n <= equity * leverage && n <= effective * leverage
    ensures n == equity * leverage || n == effective * leverage
  {
    Min(equity * leverage, effective * leverage)
  }

  /** The signed quantity a buy or sell aims to hold. */
  function TargetQty(signal: Signal, target: real, price: real): real
    requires price != 0.0
  {
    if signal == Signal.Buy then target / price else -(target / price)
  }

  /** How a buy or sell is sized before it reaches the engine. */
  datatype Sizing = Unchanged | Refused(error: ManagerError) | Resize(order: Order, freed: real, target: real)

  /** The order a buy or sell moving the position by `delta` submits. */
  function ResizeOrder(coin: string, delta: real, leverage: real): (o: Order)
    ensures o.symbol == SymbolOf(coin) && o.orderType == Market && o.limitPrice.None? && !o.reduceOnly
    ensures o.qty == Abs(delta) && (o.side == Side.Buy <==> delta > 0.0) && o.leverage == leverage
  {
    Order(SymbolOf(coin), if delta > 0.0 then Side.Buy else Side.Sell, Abs(delta), Market, None, "ioc", false, "", leverage)
  }

  /**
   * The buy/sell path of `execute_position_decisions`: a price is needed; a
   * position may not be opened from flat with under 1.0 of margin; the target
   * notional must reach the effective margin; an order is sent only for a
   * change of more than 1e-6.
   */
  function TradeSizing(coin: string, d: PositionDecision, positions: seq<Position>, equity: real,
                       prices: map<string, real>, available: real): Sizing
    requires d.leverage > 0.0
  {
    var symbol := SymbolOf(coin);
    var curQty := CurrentQty(positions, coin);
    if symbol !in prices || prices[symbol] == 0.0 then Refused(NoPrice(coin))
    else
      var price := prices[symbol];
      var freed := FreedMargin(positions, coin, price);
      var effective := available + freed;
      if curQty == 0.0 && effective < MIN_OPEN_MARGIN then
        Refused(InsufficientMarginToOpen(coin, d.leverage, equity * d.leverage, effective))
      else
        var target := TargetNotional(equity, d.leverage, effective);
        if target < effective then Refused(InsufficientMargin(coin, d.leverage, equity * d.leverage, effective))
        else
          var delta := TargetQty(d.signal, target, price) - curQty;
          if Abs(delta) > QTY_EPSILON then Resize(ResizeOrder(coin, delta, d.leverage), freed, target)
          else Unchanged
  }

  /** A buy or sell, given the symbols the engine has market data for (its only reason to refuse a market order). */
  function TradeStep(coin: string, d: PositionDecision, positions: seq<Position>, equity: real,
                     prices: map<string, real>, listed: set<string>, available: real): Outcome
    requires d.leverage > 0.0
  {
    match TradeSizing(coin, d, positions, equity, prices, available)
    case Unchanged => Outcome([], [], available)
    case Refused(e) => Outcome([e], [], available)
    case Resize(o, freed, target) =>
      if o.symbol in listed then Outcome([], [o], available + freed - target / d.leverage)
      else Outcome([PlaceFailed(coin, o.side, Some(NoMarketData(o.symbol)))], [o], available)
  }

  /** A close: one order for a held position, refused only without market data. */
  function CloseStep(coin: string, positions: seq<Position>, listed: set<string>, available: real): Outcome {
    var symbol := SymbolOf(coin);
    var curQty := CurrentQty(positions, coin);
    if curQty != 0.0 then
      Outcome(if symbol in listed then [] else [CloseFailed(symbol, Some(NoMarketData(symbol)))],
              [CloseOrder(symbol, curQty)], available)
    else Outcome([], [], available)
  }

  /** One decision of `execute_position_decisions`. */
  function DecisionStep(coin: string, d: PositionDecision, positions: seq<Position>, equity: real,
                        prices: map<string, real>, listed: set<string>, available: real): Outcome
    requires d.leverage > 0.0
  {
    match d.signal
    case Close => CloseStep(coin, positions, listed, available)
    case Hold => Outcome([], [], available)
    case _ => TradeStep(coin, d, positions, equity, prices, listed, available)
  }

  /**
   * The shape of one decision's outcome: at most one market order, for the
   * coin's symbol; hold does nothing; close sends the closing order of a held
   * position and nothing when flat; a buy or sell without a price records an
   * error; an error leaves the margin alone; a sent order fails exactly when
   * the engine has no market data.
   */
  lemma DecisionStepShape(coin: string, d: PositionDecision, positions: seq<Position>, equity: real,
                          prices: map<string, real>, listed: set<string>, available: real)
    requires d.leverage > 0.0
    ensures var r := DecisionStep(coin, d, positions, equity, prices, listed, available);
      |r.orders| <= 1 && |r.errors| <= 1
      && (forall o :: o in r.orders ==> o.symbol == SymbolOf(coin) && o.orderType == Market && o.limitPrice.None?)
      && (r.errors != [] ==> r.available == available)
      && (|r.orders| == 1 ==> (r.errors == [] <==> SymbolOf(coin) in listed))
    ensures var r := DecisionStep(coin, d, positions, equity, prices, listed, available);
      (d.signal == Hold ==> r == Outcome([], [], available))
      && (d.signal == Close && CurrentQty(positions, coin) == 0.0 ==> r == Outcome([], [], available))
      && (d.signal == Close && CurrentQty(positions, coin) != 0.0 ==>
            r.orders == [CloseOrder(SymbolOf(coin), CurrentQty(positions, coin))] && r.available == available)
    ensures var r := DecisionStep(coin, d, positions, equity, prices, listed, available);
      (d.signal == Signal.Buy || d.signal == Signal.Sell) && (SymbolOf(coin) !in prices || prices[SymbolOf(coin)] == 0.0) ==>
        r == Outcome([NoPrice(coin)], [], available)
  {
  }

  /** The effective margin of a buy or sell is non-negative when the positions' leverages and the price are. */
  lemma FreedMarginNonNegative(positions: seq<Position>, coin: string, price: real)
    requires price >= 0.0
    requires forall i :: 0 <= i < |positions| ==> positions[i].leverage >= 0.0
    ensures FreedMargin(positions, coin, price) >= 0.0
  {
    var cur := CurrentPosition(positions, SymbolOf(coin));
    if cur.Some? && cur.value.qty != 0.0 && cur.value.leverage != 0.0 {
      NonNegativeProduct(Abs(cur.value.qty), price);
    }
  }

  /**
   * A buy or sell order, when one is sized, moves the position exactly to the
   * target: long for a buy, short for a sell, with a notional at the current
   * price no larger than equity times the requested leverage.
   */
  lemma BuySellReachesTarget(coin: string, d: PositionDecision, positions: seq<Position>, equity: real,
                             prices: map<string, real>, available: real)
    requires d.leverage > 0.0 && available >= 0.0
    requires d.signal == Signal.Buy || d.signal == Signal.Sell
    requires SymbolOf(coin) in prices && prices[SymbolOf(coin)] > 0.0
    requires forall i :: 0 <= i < |positions| ==> positions[i].leverage >= 0.0
    requires TradeSizing(coin, d, positions, equity, prices, available).Resize?
    ensures var o := TradeSizing(coin, d, positions, equity, prices, available).order;
      var newQty := CurrentQty(positions, coin) + SignedQty(o.side, o.qty);
      (d.signal == Signal.Buy ==> newQty >= 0.0) && (d.signal == Signal.Sell ==> newQty <= 0.0)
      && Worth(newQty, prices[SymbolOf(coin)]) <= equity * d.leverage
  {
    var sizing := TradeSizing(coin, d, positions, equity, prices, available);
    var price := prices[SymbolOf(coin)];
    ResizeFacts(coin, d, positions, equity, prices, available);
    FreedMarginNonNegative(positions, coin, price);
    var target := sizing.target;
    assert 0.0 <= target <= equity * d.leverage;
    var tq := TargetQty(d.signal, target, price);
    var delta := tq - CurrentQty(positions, coin);
    ResizeMoves(coin, delta, d.leverage);
    var newQty := CurrentQty(positions, coin) + SignedQty(sizing.order.side, sizing.order.qty);
    assert newQty == tq;
    TargetQtyNotional(d.signal, target, price);
    assert Worth(newQty, price) == target;
  }

  /** The notional of a signed quantity at `price`. */
  function Worth(qty: real, price: real): real {
    Abs(qty) * price
  }

  /** The target quantity is long for a buy, short for a sell, and worth the target notional at the price. */
  lemma TargetQtyNotional(signal: Signal, target: real, price: real)
    requires target >= 0.0 && price > 0.0
    ensures var tq := TargetQty(signal, target, price);
      (signal == Signal.Buy ==> tq >= 0.0) && (signal != Signal.Buy ==> tq <= 0.0)
      && Worth(tq, price) == target
  {
    QuotientTimes(target, price);
  }

  /** A resize order's signed size is the change it was built from. */
  lemma ResizeMoves(coin: string, delta: real, leverage: real)
    ensures var o := ResizeOrder(coin, delta, leverage);
      SignedQty(o.side, o.qty) == delta
  {
  }


  /** Dividing a non-negative amount by a positive price and multiplying back. */
  lemma QuotientTimes(amount: real, price: real)
    requires amount >= 0.0 && price > 0.0
    ensures amount / price >= 0.0 && (amount / price) * price == amount
  {
  }

  /** Each decision keeps the available margin non-negative: a fill never commits more than the margin at hand. */
  lemma DecisionStepKeepsMargin(coin: string, d: PositionDecision, positions: seq<Position>, equity: real,
                                prices: map<string, real>, listed: set<string>, available: real)
    requires d.leverage > 0.0 && available >= 0.0
    ensures DecisionStep(coin, d, positions, equity, prices, listed, available).available >= 0.0
  {
    if d.signal == Signal.Buy || d.signal == Signal.Sell {
      var sizing := TradeSizing(coin, d, positions, equity, prices, available);
      if sizing.Resize? {
        ResizeFacts(coin, d, positions, equity, prices, available);
        MarginShare(sizing.target, available + sizing.freed, d.leverage);
      }
    }
  }

  /**
   * What a sized buy or sell consists of: the order moving the position to
   * the target quantity, and a target notional of at least the margin at
   * hand and at most the requested leverage on it.
   */
  lemma ResizeFacts(coin: string, d: PositionDecision, positions: seq<Position>, equity: real,
                    prices: map<string, real>, available: real)
    requires d.leverage > 0.0
    requires TradeSizing(coin, d, positions, equity, prices, available).Resize?
    ensures var sizing := TradeSizing(coin, d, positions, equity, prices, available);
      var price := prices[SymbolOf(coin)];
      SymbolOf(coin) in prices && price != 0.0
      && sizing.freed == FreedMargin(positions, coin, price)
      && sizing.target == TargetNotional(equity, d.leverage, available + sizing.freed)
      && available + sizing.freed <= sizing.target <= (available + sizing.freed) * d.leverage
      && sizing.order == ResizeOrder(coin, TargetQty(d.signal, sizing.target, price) - CurrentQty(positions, coin), d.leverage)
  {
    var symbol := SymbolOf(coin);
    assert symbol in prices && prices[symbol] != 0.0;
    var price := prices[symbol];
    var effective := available + FreedMargin(positions, coin, price);
    var target := TargetNotional(equity, d.leverage, effective);
    assert !(target < effective);
    assert TradeSizing(coin, d, positions, equity, prices, available)
        == Resize(ResizeOrder(coin, TargetQty(d.signal, target, price) - CurrentQty(positions, coin), d.leverage),
                  FreedMargin(positions, coin, price), target);
  }


  /** The margin a notional needs at a positive leverage is at most the margin it was sized from. */
  lemma MarginShare(notional: real, margin: real, leverage: real)
    requires leverage > 0.0 && notional <= margin * leverage
    ensures notional / leverage <= margin
  {
    assert (margin * leverage) / leverage == margin;
  }


  /** The decisions in dictionary order, folded over the running available margin. */
  function ExecuteAll(entries: seq<(string, PositionDecision)>, positions: seq<Position>, equity: real,
                      prices: map<string, real>, listed: set<string>, available: real): Outcome
    requires forall i :: 0 <= i < |entries| ==> DecisionSchemaOk(entries[i].1)
  {
    if |entries| == 0 then Outcome([], [], available)
    else
      var before := ExecuteAll(entries[..|entries| - 1], positions, equity, prices, listed, available);
      var last := entries[|entries| - 1];
      assert DecisionSchemaOk(last.1);
      var step := DecisionStep(last.0, last.1, positions, equity, prices, listed, before.available);
      Outcome(before.errors + step.errors, before.orders + step.orders, step.available)
  }

  /** At most one order per coin, and the available margin never goes negative. */
  lemma {:induction false} ExecuteAllBounds(entries: seq<(string, PositionDecision)>, positions: seq<Position>, equity: real,
                                            prices: map<string, real>, listed: set<string>, available: real)
    requires forall i :: 0 <= i < |entries| ==> DecisionSchemaOk(entries[i].1)
    requires available >= 0.0
    ensures |ExecuteAll(entries, positions, equity, prices, listed, available).orders| <= |entries|
    ensures |ExecuteAll(entries, positions, equity, prices, listed, available).errors| <= |entries|
    ensures ExecuteAll(entries, positions, equity, prices, listed, available).available >= 0.0
  {
    if |entries| > 0 {
      var prefix := entries[..|entries| - 1];
      ExecuteAllBounds(prefix, positions, equity, prices, listed, available);
      var before := ExecuteAll(prefix, positions, equity, prices, listed, available);
      var (coin, d) := entries[|entries| - 1];
      DecisionStepKeepsMargin(coin, d, positions, equity, prices, listed, before.available);
      DecisionStepShape(coin, d, positions, equity, prices, listed, before.available);
    }
  }

  /** The same order with the client id the caller chose. */
  predicate SameOrderBut(sent: Order, planned: Order) {
    sent == planned.(clientId := sent.clientId) && sent.clientId != ""
  }

  predicate SentAsPlanned(sent: seq<Order>, planned: seq<Order>) {
    |sent| == |planned| && forall j :: 0 <= j < |sent| ==> SameOrderBut(sent[j], planned[j])
  }

  lemma SentAsPlannedStep(sent: seq<Order>, planned: seq<Order>, sent2: seq<Order>, planned2: seq<Order>)
    requires SentAsPlanned(sent, planned) && SentAsPlanned(sent2, planned2)
    ensures SentAsPlanned(sent + sent2, planned + planned2)
  {
  }

  /** `ExecuteAll` over one more decision: the earlier outcome followed by that decision's step. */
  lemma ExecuteAllSnoc(entries: seq<(string, PositionDecision)>, i: nat, positions: seq<Position>, equity: real,
                       prices: map<string, real>, listed: set<string>, available: real)
    requires i < |entries| && forall k :: 0 <= k < |entries| ==> DecisionSchemaOk(entries[k].1)
    ensures DecisionSchemaOk(entries[i].1)
    ensures var before := ExecuteAll(entries[..i], positions, equity, prices, listed, available);
      var step := DecisionStep(entries[i].0, entries[i].1, positions, equity, prices, listed, before.available);
      ExecuteAll(entries[..i + 1], positions, equity, prices, listed, available)
      == Outcome(before.errors + step.errors, before.orders + step.orders, step.available)
  {
    assert entries[..i + 1][..i] == entries[..i];
  }

  class PositionManager {
    const adapter: PerpSim.PerpSimAdapter
    const tickSizes: map<string, real>

    constructor(adapter: PerpSim.PerpSimAdapter, tickSizes: map<string, real>)
      ensures this.adapter == adapter && this.tickSizes == tickSizes
    {
      this.adapter := adapter;
      this.tickSizes := tickSizes;
    }

    /** The margin held by the current positions, accumulated position by position. */
    method ComputeUsedMargin(positions: seq<Position>, prices: map<string, real>) returns (used: real)
      ensures used == UsedMargin(positions, prices)
    {
      used := 0.0;
      var i := 0;
      while i < |positions|
        invariant 0 <= i <= |positions|
        invariant used == UsedMargin(positions[..i], prices)
      {
        var pos := positions[i];
        var price := if pos.symbol in prices then prices[pos.symbol] else pos.avgEntry;
        var notional := Abs(pos.qty) * price;
        if pos.leverage > 0.0 {
          used := used + notional / pos.leverage;
        }
        assert positions[..i + 1][..i] == positions[..i];
        i := i + 1;
      }
      assert positions[..i] == positions;
    }

    /**
     * `execute_position_decisions`: the decisions in key order, each
     * submitting at most one market order through the engine, with a fresh
     * client id; returns the errors recorded on the way.
     */
    method ExecutePositionDecisions(decisions: seq<(string, PositionDecision)>, positions: seq<Position>,
                                    equity: real, prices: map<string, real>, now: int)
      returns (errors: seq<ManagerError>, ghost sent: seq<Order>)
      requires adapter.Valid()
      requires forall i :: 0 <= i < |decisions| ==> DecisionSchemaOk(decisions[i].1)
      modifies adapter
      ensures adapter.Valid()
      ensures var used := UsedMargin(positions, prices);
        var plan := ExecuteAll(decisions, positions, equity, prices, old(adapter.marketCache).Keys, Max(0.0, equity - used));
        errors == plan.errors && SentAsPlanned(sent, plan.orders)
      ensures adapter.EntryStateOf() == PerpSim.AfterPlaceAll(adapter.config, old(adapter.marketCache), old(adapter.EntryStateOf()), sent, now)
      ensures adapter.marketCache == old(adapter.marketCache) && adapter.openOrders == old(adapter.openOrders)
    {
      ghost var listed := adapter.marketCache.Keys;
      var used := ComputeUsedMargin(positions, prices);
      var available := Max(0.0, equity - used);
      errors := [];
      sent := [];
      var i := 0;
      while i < |decisions|
        invariant 0 <= i <= |decisions|
        invariant adapter.Valid()
        invariant adapter.marketCache == old(adapter.marketCache) && adapter.openOrders == old(adapter.openOrders)
        invariant adapter.EntryStateOf() == PerpSim.AfterPlaceAll(adapter.config, old(adapter.marketCache), old(adapter.EntryStateOf()), sent, now)
        invariant var plan := ExecuteAll(decisions[..i], positions, equity, prices, listed, Max(0.0, equity - used));
          errors == plan.errors && available == plan.available && SentAsPlanned(sent, plan.orders)
      {
        var (coin, decision) := decisions[i];
        ghost var before := ExecuteAll(decisions[..i], positions, equity, prices, listed, Max(0.0, equity - used));
        ghost var step := DecisionStep(coin, decision, positions, equity, prices, listed, available);
        ExecuteAllSnoc(decisions, i, positions, equity, prices, listed, Max(0.0, equity - used));
        ghost var engine := adapter.EntryStateOf();
        var stepErrors, newAvailable, stepSent := ExecuteDecision(coin, decision, positions, equity, prices, available, now);
        SentAsPlannedStep(sent, before.orders, stepSent, step.orders);
        PerpSim.AfterPlaceAllAppend(adapter.config, old(adapter.marketCache), old(adapter.EntryStateOf()), sent, stepSent, now);
        errors := errors + stepErrors;
        sent := sent + stepSent;
        available := newAvailable;
        i := i + 1;
      }
      assert decisions[..i] == decisions;
    }

    /** One decision: the order it calls for, if any, submitted to the engine. */
    method ExecuteDecision(coin: string, d: PositionDecision, positions: seq<Position>, equity: real,
                           prices: map<string, real>, available: real, now: int)
      returns (errors: seq<ManagerError>, newAvailable: real, ghost sent: seq<Order>)
      requires adapter.Valid() && DecisionSchemaOk(d)
      modifies adapter
      ensures adapter.Valid()
      ensures var step := DecisionStep(coin, d, positions, equity, prices, old(adapter.marketCache).Keys, available);
        errors == step.errors && newAvailable == step.available && SentAsPlanned(sent, step.orders)
      ensures adapter.EntryStateOf() == PerpSim.AfterPlaceAll(adapter.config, old(adapter.marketCache), old(adapter.EntryStateOf()), sent, now)
      ensures adapter.marketCache == old(adapter.marketCache) && adapter.openOrders == old(adapter.openOrders)
    {
      if d.signal == Close {
        newAvailable := available;
        errors, sent := ClosePosition(SymbolOf(coin), CurrentQty(positions, coin), now);
      } else if d.signal == Hold {
        errors, newAvailable, sent := [], available, [];
      } else {
        errors, newAvailable, sent := Trade(coin, d, positions, equity, prices, available, now);
      }
    }

    /** `_close_position` for a held position; a flat one sends nothing. */
    method ClosePosition(symbol: string, currentQty: real, now: int)
      returns (errors: seq<ManagerError>, ghost sent: seq<Order>)
      requires adapter.Valid()
      modifies adapter
      ensures adapter.Valid()
      ensures currentQty == 0.0 ==> errors == [] && sent == []
      ensures currentQty != 0.0 ==> SentAsPlanned(sent, [CloseOrder(symbol, currentQty)])
      ensures currentQty != 0.0 ==> errors == (if symbol in old(adapter.marketCache) then [] else [CloseFailed(symbol, Some(NoMarketData(symbol)))])
      ensures adapter.EntryStateOf() == PerpSim.AfterPlaceAll(adapter.config, old(adapter.marketCache), old(adapter.EntryStateOf()), sent, now)
      ensures currentQty != 0.0 && symbol in old(adapter.marketCache) && symbol in old(adapter.positions)
              && old(adapter.positions)[symbol].qty == currentQty
              ==> symbol in adapter.positions && adapter.positions[symbol].qty == 0.0
      ensures adapter.marketCache == old(adapter.marketCache) && adapter.openOrders == old(adapter.openOrders)
    {
      errors, sent := [], [];
      if currentQty != 0.0 {
        var order := CloseOrder(symbol, currentQty);
        var result;
        result, order := Submit(order, now);
        sent := [order];
        PerpSim.CloseFlattens(adapter.config, old(adapter.marketCache), old(adapter.EntryStateOf()), order, currentQty, now);
        if !result.success {
          errors := [CloseFailed(symbol, result.error)];
        }
      }
    }

    /** A buy or sell: sized against the margin at hand and submitted when it changes the position. */
    method Trade(coin: string, d: PositionDecision, positions: seq<Position>, equity: real,
                 prices: map<string, real>, available: real, now: int)
      returns (errors: seq<ManagerError>, newAvailable: real, ghost sent: seq<Order>)
      requires adapter.Valid() && d.leverage > 0.0
      modifies adapter
      ensures adapter.Valid()
      ensures var step := TradeStep(coin, d, positions, equity, prices, old(adapter.marketCache).Keys, available);
        errors == step.errors && newAvailable == step.available && SentAsPlanned(sent, step.orders)
      ensures adapter.EntryStateOf() == PerpSim.AfterPlaceAll(adapter.config, old(adapter.marketCache), old(adapter.EntryStateOf()), sent, now)
      ensures adapter.marketCache == old(adapter.marketCache) && adapter.openOrders == old(adapter.openOrders)
    {
      ghost var sizing := TradeSizing(coin, d, positions, equity, prices, available);
      var symbol := SymbolOf(coin);
      var currentQty := CurrentQty(positions, coin);
      errors, newAvailable, sent := [], available, [];
      if symbol !in prices || prices[symbol] == 0.0 {
        assert sizing == Refused(NoPrice(coin));
        errors := [NoPrice(coin)];
        return;
      }
      var price := prices[symbol];
      var freed := FreedMargin(positions, coin, price);
      var effective := available + freed;
      if currentQty == 0.0 && effective < MIN_OPEN_MARGIN {
        assert sizing.Refused? && sizing.error.requestedNotional == equity * d.leverage;
        assert sizing == Refused(InsufficientMarginToOpen(coin, d.leverage, equity * d.leverage, effective));
        errors := [InsufficientMarginToOpen(coin, d.leverage, equity * d.leverage, effective)];
        return;
      }
      var requested := equity * d.leverage;
      var target := TargetNotional(equity, d.leverage, effective);
      if target < effective {
        assert sizing.Refused? && sizing.error.requestedNotional == requested;
        assert sizing == Refused(InsufficientMargin(coin, d.leverage, requested, effective));
        errors := [InsufficientMargin(coin, d.leverage, requested, effective)];
        return;
      }
      var delta := TargetQty(d.signal, target, price) - currentQty;
      if Abs(delta) > QTY_EPSILON {
        var order := ResizeOrder(coin, delta, d.leverage);
        assert sizing == Resize(order, freed, target);
        var result;
        result, order := Submit(order, now);
        sent := [order];
        if !result.success {
          errors := [PlaceFailed(coin, order.side, result.error)];
          return;
        }
        newAvailable := available + freed - target / d.leverage;
      } else {
        assert sizing == Unchanged;
      }
    }

    /**
     * Submits a market order under a fresh client id; the engine refuses it
     * only when it has no market data for the symbol.
     */
    method Submit(planned: Order, now: int) returns (result: PlacedOrder, order: Order)
      requires adapter.Valid() && planned.orderType == Market
      modifies adapter
      ensures adapter.Valid()
      ensures SameOrderBut(order, planned) && result.clientId == order.clientId
      ensures result.success <==> planned.symbol in old(adapter.marketCache)
      ensures !result.success ==> result.error == Some(NoMarketData(planned.symbol))
      ensures result == PerpSim.PlaceAnswer(old(adapter.marketCache), order)
      ensures adapter.EntryStateOf() == PerpSim.AfterPlaceAll(adapter.config, old(adapter.marketCache), old(adapter.EntryStateOf()), [order], now)
      ensures adapter.marketCache == old(adapter.marketCache) && adapter.openOrders == old(adapter.openOrders)
    {
      var clientId: string;
      assert "uuid" != "";
      clientId :| clientId != "";
      order := planned.(clientId := clientId);
      result := adapter.PlaceOrder(order, now);
      PerpSim.AfterPlaceSnoc(adapter.config, old(adapter.marketCache), old(adapter.EntryStateOf()), [], order, now);
    }
  }
}
