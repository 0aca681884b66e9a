/**
 * The arithmetic of the paper-trading engine (apps/worker/adapters/perpsim.py)
 * as functions on values: fill prices, fees, the position update of a fill,
 * funding, liquidation and the funding-rate EMA. The class in perpsim.dfy
 * applies these to its state.
 */
module SimMath {
  import opened Wrappers
  import opened Broker

  /** Simulator settings. `fundingMode` is "A" (zero), "B" (EMA heuristic) or "C" (stub). */
  datatype PerpSimConfig = PerpSimConfig(
    im: real,
    mm: real,
    maxLeverage: real,
    slippageBps: real,
    feeBps: real,
    liqPenaltyBps: real,
    fundingMode: string,
    symbols: seq<string>,
    dataSource: string,
    minNotional: real,
    tickSize: real)

  const DefaultConfig := PerpSimConfig(0.05, 0.03, 20.0, 1.0, 2.0, 5.0, "A", ["BTC-USD"], "coinbase", 5.0, 0.5)

  /** The cash a fresh simulator starts with. */
  const STARTING_CASH: real := 10000.0

  /** Funding is quoted per 8 hours and accrued per minute: 8 * 60 periods. */
  const FUNDING_PERIODS_PER_8H: real := 480.0

  /** The mode-B funding rate magnitude, 0.01% per 8 hours. */
  const FUNDING_B_RATE: real := 0.0001

  /** Smoothing factor of the 24-period EMA, 2 / (24 + 1). */
  const EMA_ALPHA: real := 2.0 / 25.0

  /** Internal position state; `qty` is signed (positive long, negative short). */
  datatype SimPosition = SimPosition(
    symbol: string,
    qty: real,
    avgEntry: real,
    realizedPl: real,
    lastFundingTs: Option<int>,
    leverage: real,
    entryTime: Option<int>)

  /** A resting limit order. */
  datatype SimOrder = SimOrder(
    clientId: string,
    symbol: string,
    side: Side,
    qty: real,
    limitPrice: real,
    reduceOnly: bool,
    timestamp: int)

  /** The position a first fill of `symbol` creates: flat, funding clock seeded at `now`. */
  function NewPosition(symbol: string, now: int): (p: SimPosition)
    ensures p.symbol == symbol && p.qty == 0.0 && p.realizedPl == 0.0
    ensures p.lastFundingTs == Some(now) && p.entryTime.None? && p.leverage == DEFAULT_LEVERAGE
  {
    SimPosition(symbol, 0.0, 0.0, 0.0, Some(now), DEFAULT_LEVERAGE, None)
  }

  function Sign(x: real): (s: real)
    ensures x > 0.0 ==> s == 1.0
    ensures x < 0.0 ==> s == -1.0
    ensures x == 0.0 ==> s == 0.0
  {
    if x > 0.0 then 1.0 else if x < 0.0 then -1.0 else 0.0
  }

  lemma SignTimesAbs(x: real)
    ensures Sign(x) * Abs(x) == x
  {
  }

  /** Market fill price: the ask marked up by the slippage for a buy, the bid marked down for a sell. */
  function FillPrice(slippageBps: real, side: Side, bestBid: real, bestAsk: real): (p: real)
    ensures side == Buy && slippageBps >= 0.0 && bestAsk >= 0.0 ==> p >= bestAsk
    ensures side == Sell && slippageBps >= 0.0 && bestBid >= 0.0 ==> p <= bestBid
    ensures slippageBps == 0.0 ==> p == (if side == Buy then bestAsk else bestBid)
    ensures side == Buy ==> p - bestAsk == bestAsk * slippageBps / 10000.0
    ensures side == Sell ==> bestBid - p == bestBid * slippageBps / 10000.0
  {
    var slippageFactor := slippageBps / 10000.0;
    if side == Buy then bestAsk * (1.0 + slippageFactor) else bestBid * (1.0 - slippageFactor)
  }

  /** The taker fee of a fill: its notional times the fee rate. */
  function Fee(feeBps: real, qty: real, price: real): (fee: real)
    ensures feeBps >= 0.0 && price >= 0.0 ==> fee >= 0.0
    ensures feeBps == 0.0 || qty == 0.0 || price == 0.0 ==> fee == 0.0
  {
    var notional := Abs(qty) * price;
    notional * (feeBps / 10000.0)
  }

  /** Unrealized profit of a signed position at `mark`, written as the source writes it. */
  function Unrealized(qty: real, avgEntry: real, mark: real): (u: real)
    ensures u == qty * (mark - avgEntry)
  {
    if qty > 0.0 then qty * (mark - avgEntry) else Abs(qty) * (avgEntry - mark)
  }

  /** The new position and the realized profit of one fill. */
  datatype FillEffect = FillEffect(pos: SimPosition, realized: real)

  /**
   * One fill of `signedQty` at `price` applied to `pos`: open from flat, add in
   * the same direction (weighted-average entry), or reduce, close or reverse.
   * A fill that flips the sign of the position reopens it at the fill price,
   * whatever the size of the new position (see `ApplyFillAsWritten`).
   */
  function ApplyFill(pos: SimPosition, signedQty: real, price: real, orderLeverage: real, now: int): (e: FillEffect)
    ensures e.pos.symbol == pos.symbol && e.pos.lastFundingTs == pos.lastFundingTs
    ensures e.pos.qty == pos.qty + signedQty
    ensures e.pos.realizedPl == pos.realizedPl + e.realized
  {
    var oldQty := pos.qty;
    var newQty := oldQty + signedQty;
    if oldQty == 0.0 then
      FillEffect(pos.(qty := newQty, avgEntry := price, leverage := orderLeverage, entryTime := Some(now)), 0.0)
    else if oldQty * signedQty > 0.0 then
      var totalCost := oldQty * pos.avgEntry + signedQty * price;
      FillEffect(pos.(qty := newQty, avgEntry := if newQty != 0.0 then totalCost / newQty else 0.0), 0.0)
    else
      var realized := CloseRealized(oldQty, pos.avgEntry, signedQty, price);
      var closed := pos.(qty := newQty, realizedPl := pos.realizedPl + realized);
      if newQty * oldQty < 0.0 then
        FillEffect(closed.(avgEntry := price, leverage := orderLeverage, entryTime := Some(now)), realized)
      else
        FillEffect(closed, realized)
  }

  /** The profit realized by a fill opposite to a non-flat position, written as the source writes it. */
  function CloseRealized(oldQty: real, avgEntry: real, signedQty: real, price: real): (r: real)
    requires oldQty != 0.0 && oldQty * signedQty <= 0.0
    ensures r == Min(Abs(signedQty), Abs(oldQty)) * (price - avgEntry) * Sign(oldQty)
  {
    var closeQty := Min(Abs(signedQty), Abs(oldQty));
    if oldQty > 0.0 then closeQty * (price - avgEntry) else closeQty * (avgEntry - price)
  }

  /** What a fill does in each of its cases: open from flat, add, reduce, close, reverse. */
  lemma ApplyFillCases(pos: SimPosition, signedQty: real, price: real, orderLeverage: real, now: int)
    ensures var e := ApplyFill(pos, signedQty, price, orderLeverage, now);
      // opening from flat
      (pos.qty == 0.0 ==>
        e.pos.avgEntry == price && e.pos.leverage == orderLeverage
        && e.pos.entryTime == Some(now) && e.realized == 0.0)
      // adding in the same direction keeps the cost basis and the leverage
      && (pos.qty * signedQty > 0.0 ==>
        e.pos.qty * e.pos.avgEntry == pos.qty * pos.avgEntry + signedQty * price
        && e.pos.leverage == pos.leverage && e.pos.entryTime == pos.entryTime && e.realized == 0.0)
      // reducing realizes the closed quantity's profit against the average entry
      && (pos.qty != 0.0 && pos.qty * signedQty <= 0.0 ==>
        e.realized == Min(Abs(signedQty), Abs(pos.qty)) * (price - pos.avgEntry) * Sign(pos.qty))
      // a partial or full close keeps entry, leverage and entry time
      && (pos.qty != 0.0 && pos.qty * signedQty <= 0.0 && pos.qty * e.pos.qty >= 0.0 ==>
        e.pos.avgEntry == pos.avgEntry && e.pos.leverage == pos.leverage && e.pos.entryTime == pos.entryTime)
      // a reversal reopens at the fill price with the order's leverage
      && (pos.qty * e.pos.qty < 0.0 ==>
        e.pos.avgEntry == price && e.pos.leverage == orderLeverage && e.pos.entryTime == Some(now))
  {
  }

  /**
   * Closing a long in two sells at one price realizes what one sell of the
   * whole size does, the size times the move from entry: the realized
   * profit of a full close does not depend on the path.
   */
  lemma SplitCloseLongSameRealized(pos: SimPosition, a: real, price: real, lev1: real, lev2: real, now: int)
    requires pos.qty > 0.0 && 0.0 < a < pos.qty
    ensures var first := ApplyFill(pos, -a, price, lev1, now);
      var second := ApplyFill(first.pos, -(pos.qty - a), price, lev2, now);
      first.realized + second.realized == ApplyFill(pos, -pos.qty, price, lev1, now).realized == pos.qty * (price - pos.avgEntry)
  {
    var first := ApplyFill(pos, -a, price, lev1, now);
    LongReduce(pos, a, price, lev1, now);
    LongReduce(first.pos, pos.qty - a, price, lev2, now);
    LongReduce(pos, pos.qty, price, lev1, now);
    assert a * (price - pos.avgEntry) + (pos.qty - a) * (price - pos.avgEntry) == pos.qty * (price - pos.avgEntry);
  }

  /** The mirror image for a short: two buys at one price realize what one buy of the whole size does. */
  lemma SplitCloseShortSameRealized(pos: SimPosition, a: real, price: real, lev1: real, lev2: real, now: int)
    requires pos.qty < 0.0 && 0.0 < a < -pos.qty
    ensures var first := ApplyFill(pos, a, price, lev1, now);
      var second := ApplyFill(first.pos, -pos.qty - a, price, lev2, now);
      first.realized + second.realized == ApplyFill(pos, -pos.qty, price, lev1, now).realized == pos.qty * (price - pos.avgEntry)
  {
    var first := ApplyFill(pos, a, price, lev1, now);
    ShortReduce(pos, a, price, lev1, now);
    ShortReduce(first.pos, -pos.qty - a, price, lev2, now);
    ShortReduce(pos, -pos.qty, price, lev1, now);
    assert -a * (price - pos.avgEntry) - (-pos.qty - a) * (price - pos.avgEntry) == pos.qty * (price - pos.avgEntry);
  }

  /** Selling at most the size of a long realizes the sold size times the move from entry and keeps the entry. */
  lemma LongReduce(pos: SimPosition, a: real, price: real, lev: real, now: int)
    requires pos.qty > 0.0 && 0.0 < a <= pos.qty
    ensures var e := ApplyFill(pos, -a, price, lev, now);
      e.realized == a * (price - pos.avgEntry) && e.pos.qty == pos.qty - a && e.pos.avgEntry == pos.avgEntry
  {
    ApplyFillCases(pos, -a, price, lev, now);
  }

  /** Buying at most the size of a short realizes the bought size times the fall from entry and keeps the entry. */
  lemma ShortReduce(pos: SimPosition, a: real, price: real, lev: real, now: int)
    requires pos.qty < 0.0 && 0.0 < a <= -pos.qty
    ensures var e := ApplyFill(pos, a, price, lev, now);
      e.realized == -a * (price - pos.avgEntry) && e.pos.qty == pos.qty + a && e.pos.avgEntry == pos.avgEntry
  {
    ApplyFillCases(pos, a, price, lev, now);
  }

  /**
   * The fill as the source writes it: the partial-close test
   * (`new != 0 and |new| < |old|`) comes before the reversal test, so a
   * reversal to a smaller opposite position keeps the old entry.
   */
  function ApplyFillAsWritten(pos: SimPosition, signedQty: real, price: real, orderLeverage: real, now: int): (e: FillEffect)
    ensures e.pos.qty == pos.qty + signedQty && e.pos.symbol == pos.symbol
  {
    var oldQty := pos.qty;
    var newQty := oldQty + signedQty;
    if oldQty == 0.0 then
      FillEffect(pos.(qty := newQty, avgEntry := price, leverage := orderLeverage, entryTime := Some(now)), 0.0)
    else if oldQty * signedQty > 0.0 then
      var totalCost := oldQty * pos.avgEntry + signedQty * price;
      FillEffect(pos.(qty := newQty, avgEntry := if newQty != 0.0 then totalCost / newQty else 0.0), 0.0)
    else
      var realized := CloseRealized(oldQty, pos.avgEntry, signedQty, price);
      var closed := pos.(qty := newQty, realizedPl := pos.realizedPl + realized);
      if newQty != 0.0 && Abs(newQty) < Abs(oldQty) then
        FillEffect(closed, realized)
      else if newQty * oldQty < 0.0 then
        FillEffect(closed.(avgEntry := price, leverage := orderLeverage, entryTime := Some(now)), realized)
      else
        FillEffect(closed, realized)
  }

  /** A reversal that leaves a smaller position on the other side. */
  predicate ShrinkingReversal(oldQty: real, newQty: real) {
    newQty * oldQty < 0.0 && Abs(newQty) < Abs(oldQty)
  }

  /**
   * The fill as written realizes the same profit as the corrected fill and
   * differs from it only on a reversal that leaves a smaller position.
   */
  lemma AsWrittenAgreesOffShrinkingReversal(pos: SimPosition, signedQty: real, price: real, orderLeverage: real, now: int)
    ensures var w := ApplyFillAsWritten(pos, signedQty, price, orderLeverage, now);
      var c := ApplyFill(pos, signedQty, price, orderLeverage, now);
      w.realized == c.realized
      && (!ShrinkingReversal(pos.qty, pos.qty + signedQty) ==> w == c)
  {
    var oldQty := pos.qty;
    var newQty := oldQty + signedQty;
    if oldQty != 0.0 && !(oldQty * signedQty > 0.0) && newQty != 0.0 && Abs(newQty) < Abs(oldQty) {
      if !ShrinkingReversal(oldQty, newQty) {
        assert !(newQty * oldQty < 0.0);
      }
    }
  }

  /**
   * Long 1 at 100, sell 1.5 at 110: as written, the resulting short of 0.5
   * carries the long's entry 100 and leverage, so it shows an unrealized loss
   * of 5 at the 110 mark the moment it opens; the corrected fill enters it at 110.
   */
  lemma ReversalAsWrittenKeepsStaleEntry()
    ensures var pos := SimPosition("BTC-USD", 1.0, 100.0, 0.0, Some(0), 1.0, Some(0));
      var w := ApplyFillAsWritten(pos, -1.5, 110.0, 2.0, 60);
      var c := ApplyFill(pos, -1.5, 110.0, 2.0, 60);
      w.pos.qty == -0.5 && w.realized == 10.0
      && w.pos.avgEntry == 100.0 && w.pos.leverage == 1.0 && w.pos.entryTime == Some(0)
      && Unrealized(w.pos.qty, w.pos.avgEntry, 110.0) == -5.0
      && c.pos.avgEntry == 110.0 && c.pos.leverage == 2.0 && c.pos.entryTime == Some(60)
      && Unrealized(c.pos.qty, c.pos.avgEntry, 110.0) == 0.0
  {
  }

  /** A partial close keeps the average entry, the leverage and the entry time. */
  lemma PartialCloseKeepsEntry(pos: SimPosition, signedQty: real, price: real, orderLeverage: real, now: int)
    requires pos.qty * signedQty < 0.0 && Abs(signedQty) < Abs(pos.qty)
    ensures var e := ApplyFill(pos, signedQty, price, orderLeverage, now);
      e.pos.qty != 0.0 && Sign(e.pos.qty) == Sign(pos.qty)
      && e.pos.avgEntry == pos.avgEntry && e.pos.leverage == pos.leverage && e.pos.entryTime == pos.entryTime
      && e.realized == Abs(signedQty) * (price - pos.avgEntry) * Sign(pos.qty)
  {
    var newQty := pos.qty + signedQty;
    if pos.qty > 0.0 {
      assert signedQty < 0.0 && newQty > 0.0;
    } else {
      assert signedQty > 0.0 && newQty < 0.0;
    }
    assert pos.qty * newQty > 0.0;
  }

  /** A reversal opens the new direction at the fill price with the order's leverage. */
  lemma ReversalReopens(pos: SimPosition, signedQty: real, price: real, orderLeverage: real, now: int)
    requires pos.qty * signedQty < 0.0 && Abs(signedQty) > Abs(pos.qty)
    ensures var e := ApplyFill(pos, signedQty, price, orderLeverage, now);
      Sign(e.pos.qty) == -Sign(pos.qty)
      && e.pos.avgEntry == price && e.pos.leverage == orderLeverage && e.pos.entryTime == Some(now)
      && e.realized == Abs(pos.qty) * (price - pos.avgEntry) * Sign(pos.qty)
  {
    var newQty := pos.qty + signedQty;
    if pos.qty > 0.0 {
      assert signedQty < 0.0 && newQty < 0.0;
    } else {
      assert signedQty > 0.0 && newQty > 0.0;
    }
    assert newQty * pos.qty < 0.0;
  }

  /** An exact full close flattens the position but leaves entry, leverage and entry time as they were. */
  lemma FullCloseKeepsEntry(pos: SimPosition, price: real, orderLeverage: real, now: int)
    requires pos.qty != 0.0
    ensures var e := ApplyFill(pos, -pos.qty, price, orderLeverage, now);
      e.pos.qty == 0.0
      && e.pos.avgEntry == pos.avgEntry && e.pos.leverage == pos.leverage && e.pos.entryTime == pos.entryTime
      && e.realized == pos.qty * (price - pos.avgEntry)
  {
    assert pos.qty * -pos.qty < 0.0;
    SignTimesAbs(pos.qty);
  }

  /** Adding to a position moves the average entry between the old average and the fill price. */
  lemma AddAverageBetween(pos: SimPosition, signedQty: real, price: real, orderLeverage: real, now: int)
    requires pos.qty * signedQty > 0.0
    ensures var e := ApplyFill(pos, signedQty, price, orderLeverage, now);
      Min(pos.avgEntry, price) <= e.pos.avgEntry <= Max(pos.avgEntry, price)
  {
    var q, s := pos.qty, signedQty;
    var newQty := q + s;
    var avg := ApplyFill(pos, signedQty, price, orderLeverage, now).pos.avgEntry;
    assert newQty * avg == q * pos.avgEntry + s * price;
    // newQty * (avg - pos.avgEntry) == s * (price - pos.avgEntry), and likewise against price
    assert newQty * (avg - pos.avgEntry) == s * (price - pos.avgEntry);
    assert newQty * (avg - price) == q * (pos.avgEntry - price);
    if q > 0.0 {
      assert s > 0.0 && newQty > 0.0;
      SameSignFactor(newQty, avg - pos.avgEntry, s, price - pos.avgEntry);
      SameSignFactor(newQty, avg - price, q, pos.avgEntry - price);
    } else {
      assert s < 0.0 && newQty < 0.0;
      assert (-newQty) * (pos.avgEntry - avg) == (-s) * (pos.avgEntry - price);
      assert (-newQty) * (price - avg) == (-q) * (price - pos.avgEntry);
      SameSignFactor(-newQty, pos.avgEntry - avg, -s, pos.avgEntry - price);
      SameSignFactor(-newQty, price - avg, -q, price - pos.avgEntry);
    }
  }

  /** If n * x == m * y with n, m > 0, then x and y have the same sign. */
  lemma SameSignFactor(n: real, x: real, m: real, y: real)
    requires n > 0.0 && m > 0.0 && n * x == m * y
    ensures (x >= 0.0 <==> y >= 0.0) && (x <= 0.0 <==> y <= 0.0)
  {
    if x > 0.0 { assert n * x > 0.0; }
    if x < 0.0 { assert n * x < 0.0; }
    if y > 0.0 { assert m * y > 0.0; }
    if y < 0.0 { assert m * y < 0.0; }
  }

  /**
   * Funding rate of a tick, computed from the EMA before this tick updates it:
   * mode "B" charges longs when the mark is above the EMA and shorts otherwise;
   * every other mode pays nothing.
   */
  function FundingRate(mode: string, ema24: map<string, real>, symbol: string, mark: real): (r: real)
    ensures r == 0.0 || r == FUNDING_B_RATE || r == -FUNDING_B_RATE
    ensures mode != "B" ==> r == 0.0
    ensures mode == "B" ==> (r == FUNDING_B_RATE <==> symbol in ema24 && mark > ema24[symbol])
    ensures mode == "B" && symbol !in ema24 ==> r == -FUNDING_B_RATE
  {
    if mode == "A" then 0.0
    else if mode == "B" then
      var ema := if symbol in ema24 then ema24[symbol] else mark;
      if mark > ema then FUNDING_B_RATE else -FUNDING_B_RATE
    else if mode == "C" then 0.0
    else 0.0
  }

  /** The EMA after one mark: seeded with the first mark, then alpha-smoothed. */
  function EmaUpdate(ema24: map<string, real>, symbol: string, mark: real): (e: map<string, real>)
    ensures e.Keys == ema24.Keys + {symbol}
    ensures forall s :: s in ema24 && s != symbol ==> e[s] == ema24[s]
    ensures symbol !in ema24 ==> e[symbol] == mark
    ensures symbol in ema24 ==> Min(ema24[symbol], mark) <= e[symbol] <= Max(ema24[symbol], mark)
  {
    if symbol !in ema24 then ema24[symbol := mark]
    else ema24[symbol := EMA_ALPHA * mark + (1.0 - EMA_ALPHA) * ema24[symbol]]
  }

  /** The new position and the funding paid (negative) or received (positive) on one tick. */
  datatype FundingEffect = FundingEffect(pos: SimPosition, payment: real)

  /**
   * Funding on one tick for a present position: the first observation only seeds
   * the clock; afterwards one minute's worth is accrued once at least 60 seconds
   * have passed and the symbol has a cached market, whatever the gap.
   */
  function Funding(pos: SimPosition, market: Option<MarketInfo>, rate: real, ts: int): (e: FundingEffect)
    ensures e.pos == pos.(lastFundingTs := e.pos.lastFundingTs)
    ensures pos.qty == 0.0 ==> e == FundingEffect(pos, 0.0)
    ensures pos.qty != 0.0 && pos.lastFundingTs.None? ==> e == FundingEffect(pos.(lastFundingTs := Some(ts)), 0.0)
    ensures pos.lastFundingTs.Some? && (ts - pos.lastFundingTs.value < 60 || market.None?) ==> e == FundingEffect(pos, 0.0)
    ensures pos.qty != 0.0 && pos.lastFundingTs.Some? && ts - pos.lastFundingTs.value >= 60 && market.Some? ==>
      e.pos.lastFundingTs == Some(ts) && e.payment == -pos.qty * market.value.mark * rate / FUNDING_PERIODS_PER_8H
  {
    if pos.qty == 0.0 then FundingEffect(pos, 0.0)
    else if pos.lastFundingTs.None? then FundingEffect(pos.(lastFundingTs := Some(ts)), 0.0)
    else if ts - pos.lastFundingTs.value < 60 then FundingEffect(pos, 0.0)
    else if market.None? then FundingEffect(pos, 0.0)
    else
      var notional := Abs(pos.qty) * market.value.mark;
      var ratePerMinute := rate / FUNDING_PERIODS_PER_8H;
      var payment := -pos.qty * notional * ratePerMinute / Abs(pos.qty);
      assert payment == -pos.qty * market.value.mark * rate / FUNDING_PERIODS_PER_8H by {
        FundingPaymentSimplifies(pos.qty, market.value.mark, rate);
      }
      FundingEffect(pos.(lastFundingTs := Some(ts)), payment)
  }

  lemma FundingPaymentSimplifies(qty: real, mark: real, rate: real)
    requires qty != 0.0
    ensures -qty * (Abs(qty) * mark) * (rate / FUNDING_PERIODS_PER_8H) / Abs(qty)
            == -qty * mark * rate / FUNDING_PERIODS_PER_8H
  {
    var a := Abs(qty);
    var k := rate / FUNDING_PERIODS_PER_8H;
    var x := -qty * mark * k;
    assert -qty * (a * mark) * k == x * a;
    assert x * a / a == x;
    assert -qty * mark * rate / FUNDING_PERIODS_PER_8H == x;
  }

  /** With a positive rate and mark, longs pay funding and shorts receive it. */
  lemma FundingDirection(pos: SimPosition, market: MarketInfo, rate: real, ts: int)
    requires pos.qty != 0.0 && pos.lastFundingTs.Some? && ts - pos.lastFundingTs.value >= 60
    requires rate > 0.0 && market.mark > 0.0
    ensures var e := Funding(pos, Some(market), rate, ts);
      (pos.qty > 0.0 ==> e.payment < 0.0) && (pos.qty < 0.0 ==> e.payment > 0.0)
  {
    var p := -pos.qty * market.mark * rate / FUNDING_PERIODS_PER_8H;
    assert market.mark * rate > 0.0;
    if pos.qty > 0.0 {
      assert pos.qty * (market.mark * rate) > 0.0;
      assert p < 0.0;
    } else {
      assert (-pos.qty) * (market.mark * rate) > 0.0;
      assert p > 0.0;
    }
  }

  /** After a funding accrual, a second tick inside the same minute accrues nothing. */
  lemma FundingAtMostOncePerMinute(pos: SimPosition, market: Option<MarketInfo>, rate: real, ts: int,
                                   market2: Option<MarketInfo>, rate2: real, ts2: int)
    requires pos.qty != 0.0 && ts <= ts2 < ts + 60
    ensures var e1 := Funding(pos, market, rate, ts);
      e1.payment != 0.0 ==> Funding(e1.pos, market2, rate2, ts2) == FundingEffect(e1.pos, 0.0)
  {
  }

  /** Equity the liquidation check uses: cash plus this position's unrealized profit plus funding. */
  function LiquidationEquity(cash: real, pos: SimPosition, mark: real, cumulativeFunding: real): real {
    cash + Unrealized(pos.qty, pos.avgEntry, mark) + cumulativeFunding
  }

  /** The maintenance requirement of a position at `mark`. */
  function MaintenanceMargin(mm: real, qty: real, mark: real): (m: real)
    ensures mm >= 0.0 && mark >= 0.0 ==> m >= 0.0
  {
    mm * (Abs(qty) * mark)
  }

  /** A non-flat position is liquidated when equity falls below the maintenance requirement. */
  predicate Liquidates(mm: real, cash: real, pos: SimPosition, mark: real, cumulativeFunding: real) {
    pos.qty != 0.0 && LiquidationEquity(cash, pos, mark, cumulativeFunding) < MaintenanceMargin(mm, pos.qty, mark)
  }

  /** The liquidation fill price: the mark worsened by the penalty against the position. */
  function LiquidationPrice(liqPenaltyBps: real, qty: real, mark: real): (p: real)
    ensures liqPenaltyBps >= 0.0 && mark >= 0.0 && qty > 0.0 ==> p <= mark
    ensures liqPenaltyBps >= 0.0 && mark >= 0.0 && qty < 0.0 ==> p >= mark
  {
    var f := liqPenaltyBps / 10000.0;
    if qty > 0.0 then mark * (1.0 - f) else mark * (1.0 + f)
  }

  /** The penalty charged to the fee ledger on liquidation: the notional times the penalty rate. */
  function LiquidationFee(liqPenaltyBps: real, qty: real, mark: real): (fee: real)
    ensures liqPenaltyBps > 0.0 && qty != 0.0 && mark > 0.0 ==> fee > 0.0
  {
    Abs(qty) * mark * (liqPenaltyBps / 10000.0)
  }

  /** The market order closing a whole position, as the liquidation submits it. */
  function LiquidationOrder(symbol: string, qty: real, clientId: string): (o: Order)
    ensures o.orderType == Market && o.qty == Abs(qty) && o.leverage == DEFAULT_LEVERAGE
    ensures qty != 0.0 ==> SignedQty(o.side, o.qty) == -qty
  {
    Order(symbol, if qty > 0.0 then Sell else Buy, Abs(qty), Market, None, "gtc", false, clientId, DEFAULT_LEVERAGE)
  }

  /** Executing the liquidation order against the position it was computed from flattens it. */
  lemma LiquidationFlattens(pos: SimPosition, clientId: string, liqPenaltyBps: real, mark: real, now: int)
    requires pos.qty != 0.0
    ensures var o := LiquidationOrder(pos.symbol, pos.qty, clientId);
      var e := ApplyFill(pos, SignedQty(o.side, o.qty), LiquidationPrice(liqPenaltyBps, pos.qty, mark), o.leverage, now);
      e.pos.qty == 0.0 && e.realized == pos.qty * (LiquidationPrice(liqPenaltyBps, pos.qty, mark) - pos.avgEntry)
  {
    FullCloseKeepsEntry(pos, LiquidationPrice(liqPenaltyBps, pos.qty, mark), DEFAULT_LEVERAGE, now);
  }

  /** Whether a resting order crosses the book of `symbol`: a buy at or above the ask, a sell at or below the bid. */
  predicate Crosses(o: SimOrder, symbol: string, bestBid: real, bestAsk: real) {
    o.symbol == symbol
    && ((o.side == Buy && o.limitPrice >= bestAsk) || (o.side == Sell && o.limitPrice <= bestBid))
  }

  /** The order a crossed resting order is filled as (with the defaults an `Order` carries). */
  function LimitFillOrder(o: SimOrder): (order: Order)
    ensures order.clientId == o.clientId && order.symbol == o.symbol
    ensures SignedQty(order.side, order.qty) == SignedQty(o.side, o.qty)
    ensures order.orderType == Limit && order.limitPrice == Some(o.limitPrice) && order.leverage == DEFAULT_LEVERAGE
  {
    Order(o.symbol, o.side, o.qty, Limit, Some(o.limitPrice), "gtc", false, o.clientId, DEFAULT_LEVERAGE)
  }

  /** The client ids of a list of resting orders are distinct. */
  predicate UniqueIds(orders: seq<SimOrder>) {
    forall i, j :: 0 <= i < j < |orders| ==> orders[i].clientId != orders[j].clientId
  }

  /** The symbols a list holds are distinct. */
  predicate Distinct(xs: seq<string>) {
    forall i, j :: 0 <= i < j < |xs| ==> xs[i] != xs[j]
  }

  /** The market-data record the engine caches for a tick. */
  function TickInfo(symbol: string, bestBid: real, bestAsk: real, fundingRate: real): (m: MarketInfo)
    ensures m.symbol == symbol && m.bestBid == bestBid && m.bestAsk == bestAsk
    ensures m.mark == (bestBid + bestAsk) / 2.0 && m.funding8hRate == fundingRate && m.volume24h == 0.0
    ensures 0.0 < bestBid <= bestAsk ==> bestBid <= m.mark <= bestAsk && m.spreadBps >= 0.0 && m.bidQty * m.mark == 1000.0
    ensures m.mark <= 0.0 ==> m.spreadBps == 0.0 && m.bidQty == 1.0
    ensures m.bidQty == m.askQty
  {
    var mark := (bestBid + bestAsk) / 2.0;
    var spreadBps := if mark > 0.0 then (bestAsk - bestBid) / mark * 10000.0 else 0.0;
    var typicalQty := if mark > 0.0 then 1000.0 / mark else 1.0;
    MarketInfo(symbol, bestBid, bestAsk, mark, spreadBps, fundingRate, 0.0, typicalQty, typicalQty)
  }
}
