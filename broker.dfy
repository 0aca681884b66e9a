/**
 * The trading-backend capability contract shared by the live adapter and the
 * paper-trading simulator: the records that cross that interface
 * (apps/worker/adapters/base.py).
 */
module Broker {
  import opened Wrappers

  /** Order side. The source carries it as the string "buy" or "sell". */
  datatype Side = Buy | Sell

  /** Order type. The source carries it as the string "market" or "limit". */
  datatype OrderType = Market | Limit

  /** Market data for a single symbol. */
  datatype MarketInfo = MarketInfo(
    symbol: string,
    bestBid: real,
    bestAsk: real,
    mark: real,
    spreadBps: real,
    funding8hRate: real,
    volume24h: real,
    bidQty: real,
    askQty: real)

  /** An open position as reported to callers. */
  datatype PositionInfo = PositionInfo(
    symbol: string,
    qty: real,
    avgEntry: real,
    unrealizedPl: real,
    notional: real,
    leverage: real,
    entryTime: Option<int>)

  /** Market data for several symbols, stamped with the time it was read. */
  datatype MarketState = MarketState(markets: seq<MarketInfo>, timestamp: int)

  /** Account balances and open positions. */
  datatype AccountState = AccountState(
    equity: real,
    cash: real,
    realizedPl: real,
    unrealizedPl: real,
    fees: real,
    fundingNet: real,
    positions: seq<PositionInfo>,
    timestamp: int)

  datatype Limits = Limits(
    minNotional: real,
    tickSize: real,
    maxLeverage: real,
    initialMargin: real,
    maintenanceMargin: real)

  /** An order to be placed; `timeInForce` and `reduceOnly` are informational. */
  datatype Order = Order(
    symbol: string,
    side: Side,
    qty: real,
    orderType: OrderType,
    limitPrice: Option<real>,
    timeInForce: string,
    reduceOnly: bool,
    clientId: string,
    leverage: real)

  /** Result of placing an order. */
  datatype PlacedOrder = PlacedOrder(
    success: bool,
    clientId: string,
    exchangeId: Option<string>,
    error: Option<string>)

  /** Result of cancelling an order. */
  datatype CancelResult = CancelResult(success: bool, clientId: string, error: Option<string>)

  /** The default leverage an `Order` carries when the caller gives none. */
  const DEFAULT_LEVERAGE: real := 1.0

  /** A quantity with the sign of its side: positive for a buy, negative for a sell. */
  function SignedQty(side: Side, qty: real): (s: real)
    ensures qty >= 0.0 ==> (s >= 0.0 <==> side == Buy || qty == 0.0)
    ensures s == qty || s == -qty
  {
    if side == Buy then qty else -qty
  }

  function Abs(x: real): (r: real)
    ensures r >= 0.0 && (r == x || r == -x)
  {
    if x < 0.0 then -x else x
  }

  function Min(a: real, b: real): (r: real)
    ensures r <= a && r <= b && (r == a || r == b)
  {
    if a <= b then a else b
  }

  function Max(a: real, b: real): (r: real)
    ensures r >= a && r >= b && (r == a || r == b)
  {
    if a >= b then a else b
  }
}
