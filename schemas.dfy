/**
 * The records exchanged with the decision-making client and the persistence
 * layer, with the field constraints their schema enforces
 * (apps/worker/schemas.py).
 */
module Schemas {
  import opened Wrappers
  import opened Broker

  /** One order of the action-based format. */
  datatype PlaceOrder = PlaceOrder(
    kind: string,
    symbol: string,
    side: Side,
    qty: real,
    orderType: OrderType,
    limitPrice: Option<real>,
    timeInForce: string,
    reduceOnly: bool,
    clientId: string)

  datatype Cancellation = Cancellation(clientId: string)

  /** The action-based format: orders to place and client ids to cancel. */
  datatype Action = Action(
    actions: seq<PlaceOrder>,
    cancellations: seq<Cancellation>,
    notesForAudience: string)

  datatype ExitPlan = ExitPlan(
    profitTarget: Option<real>,
    stopLoss: Option<real>,
    invalidationCondition: string)

  /** The signal of a position decision. */
  datatype Signal = Buy | Sell | Hold | Close

  /** A per-coin decision of the position-based format. */
  datatype PositionDecision = PositionDecision(
    coin: string,
    signal: Signal,
    quantity: real,
    confidence: real,
    leverage: real,
    riskUsd: real,
    exitPlan: ExitPlan,
    justification: string)

  /** The position-based format; `positions` is a dictionary keyed by coin, in key order. */
  datatype PositionAction = PositionAction(
    positions: seq<(string, PositionDecision)>,
    notesForAudience: string)

  /** An open position as shown in the observation. */
  datatype Position = Position(
    symbol: string,
    qty: real,
    avgEntry: real,
    currentPrice: real,
    liquidationPrice: real,
    unrealizedPnl: real,
    leverage: real,
    entryTime: Option<int>,
    holdingTimeMinutes: Option<int>)

  /** The account as shown in the observation. */
  datatype Account = Account(
    equity: real,
    cash: real,
    marginBalance: real,
    usedMargin: real,
    positions: seq<Position>,
    unrealizedPl: real,
    feesPaidTotal: real,
    totalReturnPct: real)

  /** A filled trade as persisted. */
  datatype Trade = Trade(
    symbol: string,
    side: Side,
    qty: real,
    price: real,
    fee: real,
    clientId: string,
    ts: int)

  /** Field constraints of one order: the literal type tag, `qty > 0`, a known time-in-force. */
  predicate PlaceOrderSchemaOk(o: PlaceOrder) {
    o.kind == "place_order" && o.qty > 0.0 && (o.timeInForce == "gtc" || o.timeInForce == "ioc")
  }

  predicate ActionSchemaOk(a: Action) {
    (forall i :: 0 <= i < |a.actions| ==> PlaceOrderSchemaOk(a.actions[i]))
    && |a.notesForAudience| <= 220
  }

  /** Field constraints of a decision: `quantity >= 0`, confidence in [0, 1], leverage in [1, 50]. */
  predicate DecisionSchemaOk(d: PositionDecision) {
    d.quantity >= 0.0
    && 0.0 <= d.confidence <= 1.0
    && 1.0 <= d.leverage <= 50.0
    && d.riskUsd >= 0.0
    && |d.justification| <= 500
  }

  /** The keys of a dictionary given as a list of pairs are distinct. */
  predicate DistinctKeys<V>(entries: seq<(string, V)>) {
    forall i, j :: 0 <= i < j < |entries| ==> entries[i].0 != entries[j].0
  }

  predicate PositionActionSchemaOk(a: PositionAction) {
    DistinctKeys(a.positions)
    && (forall i :: 0 <= i < |a.positions| ==> DecisionSchemaOk(a.positions[i].1))
    && |a.notesForAudience| <= 1000
  }
}
