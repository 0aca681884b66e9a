/**
 * The validator that screens decisions before they reach the trading
 * backend (apps/worker/validator.py): per-order checks, duplicate client ids
 * within one request, the tick-multiple test and the per-coin checks of the
 * position-based format.
 */
module Validation {
  import opened Wrappers
  import opened Broker
  import opened Schemas

  /** Tolerance of the tick-multiple test. */
  const TICK_EPSILON: real := 0.000001
  /** Tick size assumed for an order's symbol missing from the table. */
  const ORDER_DEFAULT_TICK: real := 0.1
  /** Tick size assumed for a decision's coin missing from the table. */
  const DECISION_DEFAULT_TICK: real := 0.5

  /** Why a request was refused; the source reports these as messages. */
  datatype Rejection =
    | SchemaInvalid
    | LimitPriceRequired(clientId: string)
    | OffTick(price: real, tick: real)
    | BelowMinNotional(notional: real, minimum: real)
    | DuplicateClientId(clientId: string)
    | CoinMismatch(key: string, coin: string)
    | LeverageAboveMax(coin: string, leverage: real, maximum: real)
    | ProfitTargetOffTick(coin: string, price: real, tick: real)
    | StopLossOffTick(coin: string, price: real, tick: real)
    | QuantityRequired(coin: string, signal: Signal)
    | ConfidenceOutOfRange(coin: string, confidence: real)
    | NoTickTable

  /** The result pair `(value, None)` / `(None, error)`. */
  datatype Validated<T> = Accepted(value: T) | Rejected(error: Rejection)

  /** The validator's settings; `tickSizes` is the per-symbol table in its key order. */
  datatype Validator = Validator(minNotional: real, maxLeverage: real, tickSizes: seq<(string, real)>)

  /** Every tick size is positive (a zero tick would divide by zero). */
  predicate TicksPositive(v: Validator) {
    forall i :: 0 <= i < |v.tickSizes| ==> v.tickSizes[i].1 > 0.0
  }

  /** `tick_sizes.get(symbol, default)`: the entry of the first pair with that key. */
  function TickFor(table: seq<(string, real)>, symbol: string, default: real): (t: real)
    ensures (forall i :: 0 <= i < |table| ==> table[i].0 != symbol) ==> t == default
    ensures (exists i :: 0 <= i < |table| && table[i].0 == symbol) ==>
      exists i :: 0 <= i < |table| && table[i] == (symbol, t)
    ensures (default > 0.0 && forall i :: 0 <= i < |table| ==> table[i].1 > 0.0) ==> t > 0.0
  {
    if |table| == 0 then default
    else if table[0].0 == symbol then table[0].1
    else TickFor(table[1..], symbol, default)
  }

  /** Python's `x % m` on floats for `m > 0`: the remainder takes the sign of `m`. */
  function PyMod(x: real, m: real): (r: real)
    requires m > 0.0
    ensures 0.0 <= r < m
  {
    FloorBrackets(x, m);
    x - m * ((x / m).Floor as real)
  }

  /** `m * floor(x / m)` is the largest multiple of `m` not above `x`. */
  lemma FloorBrackets(x: real, m: real)
    requires m > 0.0
    ensures m * ((x / m).Floor as real) <= x < m * ((x / m).Floor as real) + m
  {
    var q := x / m;
    var f := q.Floor as real;
    assert f <= q < f + 1.0;
    assert m * q == x;
    PositiveProduct(m, f + 1.0 - q);
    assert m * (f + 1.0 - q) == m * f + m - m * q;
    assert x < m * f + m;
    if f < q {
      PositiveProduct(m, q - f);
      assert m * (q - f) == m * q - m * f;
    }
  }

  lemma PositiveProduct(a: real, b: real)
    requires a > 0.0 && b > 0.0
    ensures a * b > 0.0
  {
  }

  /** The remainder is what is left over a whole number of moduli. */
  lemma PyModSplits(x: real, m: real)
    requires m > 0.0
    ensures x == ((x / m).Floor as real) * m + PyMod(x, m)
  {
  }

  /** `_is_valid_tick`: the remainder is within the tolerance of 0 or of a full tick. */
  predicate IsValidTick(price: real, tick: real)
    requires tick > 0.0
  {
    var remainder := PyMod(price, tick);
    remainder < TICK_EPSILON || tick - remainder < TICK_EPSILON
  }

  /** Every exact multiple of the tick is accepted. */
  lemma ExactMultipleIsValidTick(k: int, tick: real)
    requires tick > 0.0
    ensures IsValidTick(k as real * tick, tick)
  {
    assert (k as real * tick) / tick == k as real;
  }

  /** An accepted price lies within the tolerance of some multiple of the tick. */
  lemma ValidTickIsNearMultiple(price: real, tick: real)
    requires tick > 0.0 && IsValidTick(price, tick)
    ensures exists k: int :: -TICK_EPSILON < price - Multiple(k, tick) < TICK_EPSILON
  {
    var f := (price / tick).Floor;
    PyModSplits(price, tick);
    if PyMod(price, tick) < TICK_EPSILON {
      assert -TICK_EPSILON < price - Multiple(f, tick) < TICK_EPSILON;
    } else {
      assert -TICK_EPSILON < price - Multiple(f + 1, tick) < TICK_EPSILON;
    }
  }

  /** The `k`-th multiple of the tick. */
  function Multiple(k: int, tick: real): real {
    k as real * tick
  }

  /** Conversely, for a tick no smaller than the tolerance, a price that close to a multiple is accepted. */
  lemma NearMultipleIsValidTick(price: real, tick: real, k: int)
    requires tick >= TICK_EPSILON
    requires -TICK_EPSILON < price - Multiple(k, tick) < TICK_EPSILON
    ensures IsValidTick(price, tick)
  {
    var f := (price / tick).Floor;
    var r := PyMod(price, tick);
    PyModSplits(price, tick);
    var d := f - k;
    var gap := d as real * tick;
    assert price - Multiple(k, tick) == gap + r by {
      assert (f - k) as real * tick == (f as real) * tick - k as real * tick;
    }
    ScaledTickBounds(d, tick, r);
    if d == 0 {
      assert gap == 0.0 && r < TICK_EPSILON;
    } else if d == -1 {
      assert gap == -tick && tick - r < TICK_EPSILON;
    } else {
      assert false;
    }
  }

  /**
   * A whole number `d` of ticks plus a remainder below one tick lies within the
   * tolerance of 0 only for `d` = 0 or `d` = -1.
   */
  lemma ScaledTickBounds(d: int, tick: real, r: real)
    requires tick >= TICK_EPSILON && 0.0 <= r < tick
    ensures d >= 1 ==> d as real * tick + r >= TICK_EPSILON
    ensures d <= -2 ==> d as real * tick + r <= -TICK_EPSILON
  {
    if d >= 1 {
      assert d as real * tick == (d - 1) as real * tick + tick;
      if d > 1 {
        PositiveProduct((d - 1) as real, tick);
      }
    } else if d <= -2 {
      assert d as real * tick == -2.0 * tick - (-d - 2) as real * tick;
      if d < -2 {
        PositiveProduct((-d - 2) as real, tick);
      }
    }
  }

  /** The notional `qty * (limit_price or 1.0)`: an absent or zero limit price counts as 1.0. */
  function Notional(o: PlaceOrder): (n: real)
    ensures o.limitPrice.None? ==> n == o.qty
    ensures o.limitPrice.Some? && o.limitPrice.value != 0.0 ==> n == o.qty * o.limitPrice.value
  {
    var px := if o.limitPrice.Some? && o.limitPrice.value != 0.0 then o.limitPrice.value else 1.0;
    o.qty * px
  }

  /** `_validate_order`: a limit order needs a price, a given price must be on tick, and the notional must reach the minimum. */
  function ValidateOrder(v: Validator, o: PlaceOrder): (r: Option<Rejection>)
    requires TicksPositive(v)
    ensures o.orderType == Limit && o.limitPrice.None? ==> r == Some(LimitPriceRequired(o.clientId))
    ensures r == None <==>
      !(o.orderType == Limit && o.limitPrice.None?)
      && (o.limitPrice.Some? ==> IsValidTick(o.limitPrice.value, TickFor(v.tickSizes, o.symbol, ORDER_DEFAULT_TICK)))
      && Notional(o) >= v.minNotional
    ensures o.orderType == Market && o.limitPrice.None? ==> (r == None <==> o.qty >= v.minNotional)
  {
    var tick := TickFor(v.tickSizes, o.symbol, ORDER_DEFAULT_TICK);
    if o.orderType == Limit && o.limitPrice.None? then Some(LimitPriceRequired(o.clientId))
    else if o.limitPrice.Some? && !IsValidTick(o.limitPrice.value, tick) then Some(OffTick(o.limitPrice.value, tick))
    else if Notional(o) < v.minNotional then Some(BelowMinNotional(Notional(o), v.minNotional))
    else None
  }

  /**
   * The verdict on a request's orders, taken front to back: the first order
   * that fails its own checks, or whose client id appeared earlier (in
   * `seen` or before it), decides.
   */
  function OrdersVerdict(v: Validator, orders: seq<PlaceOrder>, seen: set<string>): Option<Rejection>
    requires TicksPositive(v)
    decreases |orders|
  {
    if |orders| == 0 then None
    else if ValidateOrder(v, orders[0]).Some? then ValidateOrder(v, orders[0])
    else if orders[0].clientId in seen then Some(DuplicateClientId(orders[0].clientId))
    else OrdersVerdict(v, orders[1..], seen + {orders[0].clientId})
  }

  predicate DistinctClientIds(orders: seq<PlaceOrder>) {
    forall i, j :: 0 <= i < j < |orders| ==> orders[i].clientId != orders[j].clientId
  }

  /** The orders pass iff each passes its own checks and the client ids are distinct and new. */
  lemma {:induction false} OrdersVerdictNoneIff(v: Validator, orders: seq<PlaceOrder>, seen: set<string>)
    requires TicksPositive(v)
    ensures OrdersVerdict(v, orders, seen) == None <==>
      (forall i :: 0 <= i < |orders| ==> ValidateOrder(v, orders[i]) == None && orders[i].clientId !in seen)
      && DistinctClientIds(orders)
    decreases |orders|
  {
    if |orders| > 0 {
      OrdersVerdictNoneIff(v, orders[1..], seen + {orders[0].clientId});
      var tail := orders[1..];
      assert forall i :: 0 < i < |orders| ==> orders[i] == tail[i - 1];
    }
  }

  /** The index of the order a rejecting verdict stops at. */
  lemma {:induction false} FailureIndex(v: Validator, orders: seq<PlaceOrder>, seen: set<string>) returns (i: nat)
    requires TicksPositive(v)
    requires OrdersVerdict(v, orders, seen).Some?
    ensures i < |orders|
    ensures OrdersVerdict(v, orders, seen) == ValidateOrder(v, orders[i])
         || OrdersVerdict(v, orders, seen) == Some(DuplicateClientId(orders[i].clientId))
    ensures forall j :: 0 <= j < i ==> ValidateOrder(v, orders[j]) == None
    decreases |orders|
  {
    if ValidateOrder(v, orders[0]).Some? || orders[0].clientId in seen {
      i := 0;
    } else {
      var tail := orders[1..];
      var k := FailureIndex(v, tail, seen + {orders[0].clientId});
      i := k + 1;
      assert orders[i] == tail[k];
      forall j | 0 <= j < i ensures ValidateOrder(v, orders[j]) == None {
        if j > 0 { assert orders[j] == tail[j - 1]; }
      }
    }
  }

  /** A rejection is the first order's own error, or the verdict on the rest once it passed. */
  lemma OrdersVerdictFirstFailure(v: Validator, orders: seq<PlaceOrder>, seen: set<string>)
    requires TicksPositive(v)
    requires OrdersVerdict(v, orders, seen).Some?
    ensures exists i :: (0 <= i < |orders|
      && (OrdersVerdict(v, orders, seen) == ValidateOrder(v, orders[i])
          || OrdersVerdict(v, orders, seen) == Some(DuplicateClientId(orders[i].clientId)))
      && forall j :: 0 <= j < i ==> ValidateOrder(v, orders[j]) == None)
  {
    var i := FailureIndex(v, orders, seen);
  }

  /**
   * `validate_action`: the schema first, then each order in list order,
   * returning the first failure; otherwise the action itself.
   */
  method ValidateAction(v: Validator, a: Action) returns (r: Validated<Action>)
    requires TicksPositive(v)
    ensures !ActionSchemaOk(a) ==> r == Rejected(SchemaInvalid)
    ensures ActionSchemaOk(a) ==> match OrdersVerdict(v, a.actions, {})
      case None => r == Accepted(a)
      case Some(e) => r == Rejected(e)
  {
    if !ActionSchemaOk(a) {
      return Rejected(SchemaInvalid);
    }
    var seen: set<string> := {};
    var i := 0;
    while i < |a.actions|
      invariant 0 <= i <= |a.actions|
      invariant OrdersVerdict(v, a.actions, {}) == OrdersVerdict(v, a.actions[i..], seen)
    {
      var order := a.actions[i];
      assert a.actions[i..][0] == order && a.actions[i..][1..] == a.actions[i + 1..];
      var err := ValidateOrder(v, order);
      if err.Some? {
        return Rejected(err.value);
      }
      if order.clientId in seen {
        return Rejected(DuplicateClientId(order.clientId));
      }
      seen := seen + {order.clientId};
      i := i + 1;
    }
    return Accepted(a);
  }

  /** `sub` occurs in `s` as a contiguous piece. */
  predicate Contains(s: string, sub: string)
    decreases |s|
  {
    sub <= s || (|s| > 0 && Contains(s[1..], sub))
  }

  /** The table key for a coin: "<coin>-USD" when the table's first key mentions USD, else "<coin>-PERP". */
  function DecisionSymbol(coin: string, table: seq<(string, real)>): (s: string)
    requires |table| > 0
    ensures s == coin + "-USD" || s == coin + "-PERP"
  {
    if Contains(table[0].0, "USD") then coin + "-USD" else coin + "-PERP"
  }

  /** The checks of one `(key, decision)` pair, in the source's order. */
  function DecisionError(v: Validator, key: string, d: PositionDecision): (r: Option<Rejection>)
    requires TicksPositive(v)
    ensures d.coin != key ==> r == Some(CoinMismatch(key, d.coin))
    ensures d.coin == key && d.leverage > v.maxLeverage ==> r == Some(LeverageAboveMax(key, d.leverage, v.maxLeverage))
    ensures r == None <==>
      |v.tickSizes| > 0
      && var tick := TickFor(v.tickSizes, DecisionSymbol(key, v.tickSizes), DECISION_DEFAULT_TICK);
      d.coin == key && d.leverage <= v.maxLeverage
      && (d.exitPlan.profitTarget.Some? ==> IsValidTick(d.exitPlan.profitTarget.value, tick))
      && (d.exitPlan.stopLoss.Some? ==> IsValidTick(d.exitPlan.stopLoss.value, tick))
      && ((d.signal == Signal.Buy || d.signal == Signal.Sell) ==> d.quantity > 0.0)
      && 0.0 <= d.confidence <= 1.0
  {
    if d.coin != key then Some(CoinMismatch(key, d.coin))
    else if d.leverage > v.maxLeverage then Some(LeverageAboveMax(key, d.leverage, v.maxLeverage))
    else if |v.tickSizes| == 0 then Some(NoTickTable)
    else
      var tick := TickFor(v.tickSizes, DecisionSymbol(key, v.tickSizes), DECISION_DEFAULT_TICK);
      var plan := d.exitPlan;
      if plan.profitTarget.Some? && !IsValidTick(plan.profitTarget.value, tick) then
        Some(ProfitTargetOffTick(key, plan.profitTarget.value, tick))
      else if plan.stopLoss.Some? && !IsValidTick(plan.stopLoss.value, tick) then
        Some(StopLossOffTick(key, plan.stopLoss.value, tick))
      else if (d.signal == Signal.Buy || d.signal == Signal.Sell) && d.quantity <= 0.0 then
        Some(QuantityRequired(key, d.signal))
      else if d.confidence < 0.0 || d.confidence > 1.0 then
        Some(ConfidenceOutOfRange(key, d.confidence))
      else None
  }

  /** A hold or close decision with zero quantity and no exit prices passes once coin, leverage and confidence do. */
  lemma HoldOrCloseMayBeEmpty(v: Validator, key: string, d: PositionDecision)
    requires TicksPositive(v) && |v.tickSizes| > 0
    requires d.coin == key && d.leverage <= v.maxLeverage && 0.0 <= d.confidence <= 1.0
    requires d.signal == Hold || d.signal == Close
    requires d.exitPlan.profitTarget.None? && d.exitPlan.stopLoss.None?
    ensures DecisionError(v, key, d) == None
  {
  }

  /** The first failing decision in key order decides; `None` when all pass. */
  function DecisionsVerdict(v: Validator, entries: seq<(string, PositionDecision)>): (r: Option<Rejection>)
    requires TicksPositive(v)
    ensures r == None <==> forall i :: 0 <= i < |entries| ==> DecisionError(v, entries[i].0, entries[i].1) == None
    ensures r.Some? ==> exists i :: (0 <= i < |entries|
      && r == DecisionError(v, entries[i].0, entries[i].1)
      && forall j :: 0 <= j < i ==> DecisionError(v, entries[j].0, entries[j].1) == None)
  {
    if |entries| == 0 then None
    else if DecisionError(v, entries[0].0, entries[0].1).Some? then DecisionError(v, entries[0].0, entries[0].1)
    else
      var rest := DecisionsVerdict(v, entries[1..]);
      assert forall i :: 0 < i < |entries| ==> entries[i] == entries[1..][i - 1];
      rest
  }

  /**
   * `validate_position_action`: the schema first, then each coin's decision
   * in key order, returning the first failure; otherwise the action itself.
   */
  method ValidatePositionAction(v: Validator, a: PositionAction) returns (r: Validated<PositionAction>)
    requires TicksPositive(v)
    ensures !PositionActionSchemaOk(a) ==> r == Rejected(SchemaInvalid)
    ensures PositionActionSchemaOk(a) ==> match DecisionsVerdict(v, a.positions)
      case None => r == Accepted(a)
      case Some(e) => r == Rejected(e)
  {
    if !PositionActionSchemaOk(a) {
      return Rejected(SchemaInvalid);
    }
    var i := 0;
    while i < |a.positions|
      invariant 0 <= i <= |a.positions|
      invariant DecisionsVerdict(v, a.positions) == DecisionsVerdict(v, a.positions[i..])
    {
      var (coin, decision) := a.positions[i];
      assert a.positions[i..][0] == (coin, decision) && a.positions[i..][1..] == a.positions[i + 1..];
      var err := DecisionError(v, coin, decision);
      if err.Some? {
        return Rejected(err.value);
      }
      i := i + 1;
    }
    return Accepted(a);
  }
}
