/**
 * The paper-trading engine `PerpSimAdapter` (apps/worker/adapters/perpsim.py):
 * cash, fee and funding ledgers, a per-symbol position book, resting limit
 * orders, a market cache and the funding EMA, updated in place by orders and
 * market ticks.
 *
 * Fills that the source schedules as background tasks (limit fills and the
 * liquidation fill of a tick) are applied at the end of the tick, in the order
 * they were created. The database is represented by `tradeLog`, the sequence
 * of trades the engine hands to `insert_trade`; the wall clock is the `now`
 * parameter.
 */
module PerpSim {
  import opened Wrappers
  import opened Broker
  import opened Schemas
  import opened SimMath

  // ----- the position book as values -----

  /** Total realized profit over the positions named in `syms` (the source sums all positions). */
  function RealizedOver(syms: seq<string>, positions: map<string, SimPosition>): real
  {
    if |syms| == 0 then 0.0
    else
      var s := syms[|syms| - 1];
      RealizedOver(syms[..|syms| - 1], positions) + (if s in positions then positions[s].realizedPl else 0.0)
  }

  /** Changing a position outside `syms` does not change the realized total over `syms`. */
  lemma {:induction false} RealizedOverFrame(syms: seq<string>, positions: map<string, SimPosition>, sym: string, p: SimPosition)
    requires sym !in syms
    ensures RealizedOver(syms, positions[sym := p]) == RealizedOver(syms, positions)
  {
    if |syms| > 0 {
      RealizedOverFrame(syms[..|syms| - 1], positions, sym, p);
    }
  }

  /** Replacing one listed position changes the realized total by the change in its realized profit. */
  lemma {:induction false} RealizedOverUpdate(syms: seq<string>, positions: map<string, SimPosition>, sym: string, p: SimPosition)
    requires Distinct(syms) && sym in syms && sym in positions
    ensures RealizedOver(syms, positions[sym := p])
            == RealizedOver(syms, positions) - positions[sym].realizedPl + p.realizedPl
  {
    var n := |syms|;
    var init := syms[..n - 1];
    assert Distinct(init);
    if syms[n - 1] == sym {
      assert sym !in init;
      RealizedOverFrame(init, positions, sym, p);
    } else {
      assert sym in init;
      RealizedOverUpdate(init, positions, sym, p);
    }
  }

  /** The reported record of one open position at `mark`. */
  function PositionInfoOf(sym: string, pos: SimPosition, mark: real): (info: PositionInfo)
    ensures info.symbol == sym && info.qty == pos.qty && info.avgEntry == pos.avgEntry
    ensures info.unrealizedPl == pos.qty * (mark - pos.avgEntry) && info.notional == Abs(pos.qty) * mark
    ensures info.leverage == pos.leverage && info.entryTime == pos.entryTime
  {
    PositionInfo(sym, pos.qty, pos.avgEntry, Unrealized(pos.qty, pos.avgEntry, mark), Abs(pos.qty) * mark, pos.leverage, pos.entryTime)
  }

  /** Whether the account reports `s`: a non-flat position with a cached market. */
  predicate Reported(s: string, positions: map<string, SimPosition>, cache: map<string, MarketInfo>) {
    s in positions && positions[s].qty != 0.0 && s in cache
  }

  /** The positions the account reports, in book order. */
  function OpenPositions(syms: seq<string>, positions: map<string, SimPosition>, cache: map<string, MarketInfo>): seq<PositionInfo>
  {
    if |syms| == 0 then []
    else
      var s := syms[|syms| - 1];
      var rest := OpenPositions(syms[..|syms| - 1], positions, cache);
      if Reported(s, positions, cache) then rest + [PositionInfoOf(s, positions[s], cache[s].mark)] else rest
  }

  /** Total unrealized profit of the reported positions. */
  function UnrealizedOver(syms: seq<string>, positions: map<string, SimPosition>, cache: map<string, MarketInfo>): real
  {
    if |syms| == 0 then 0.0
    else
      var s := syms[|syms| - 1];
      var rest := UnrealizedOver(syms[..|syms| - 1], positions, cache);
      if Reported(s, positions, cache) then rest + Unrealized(positions[s].qty, positions[s].avgEntry, cache[s].mark) else rest
  }

  function SumUnrealizedPl(infos: seq<PositionInfo>): real {
    if |infos| == 0 then 0.0 else SumUnrealizedPl(infos[..|infos| - 1]) + infos[|infos| - 1].unrealizedPl
  }

  /**
   * Every reported position is open, has a cached market and is valued at
   * that mark; the reported unrealized total is the sum over the list.
   */
  lemma {:induction false} OpenPositionsSound(syms: seq<string>, positions: map<string, SimPosition>, cache: map<string, MarketInfo>)
    ensures var infos := OpenPositions(syms, positions, cache);
      |infos| <= |syms|
      && SumUnrealizedPl(infos) == UnrealizedOver(syms, positions, cache)
      && forall i :: 0 <= i < |infos| ==>
           infos[i].symbol in syms && Reported(infos[i].symbol, positions, cache)
           && infos[i] == PositionInfoOf(infos[i].symbol, positions[infos[i].symbol], cache[infos[i].symbol].mark)
  {
    if |syms| > 0 {
      var init := syms[..|syms| - 1];
      OpenPositionsSound(init, positions, cache);
      var rest := OpenPositions(init, positions, cache);
      var s := syms[|syms| - 1];
      if Reported(s, positions, cache) {
        var infos := rest + [PositionInfoOf(s, positions[s], cache[s].mark)];
        assert infos[..|infos| - 1] == rest;
      }
    }
  }

  /** A listed non-flat position with a cached market is reported. */
  lemma {:induction false} OpenPositionsComplete(syms: seq<string>, positions: map<string, SimPosition>, cache: map<string, MarketInfo>, s: string)
    requires s in syms && Reported(s, positions, cache)
    ensures PositionInfoOf(s, positions[s], cache[s].mark) in OpenPositions(syms, positions, cache)
  {
    var init := syms[..|syms| - 1];
    if syms[|syms| - 1] != s {
      assert s in init;
      OpenPositionsComplete(init, positions, cache, s);
    }
  }

  /** One more symbol of the book extends the report by that symbol's record, if it is reported. */
  lemma ReportStep(syms: seq<string>, i: int, positions: map<string, SimPosition>, cache: map<string, MarketInfo>)
    requires 0 <= i < |syms|
    ensures var s := syms[i];
      OpenPositions(syms[..i + 1], positions, cache)
        == OpenPositions(syms[..i], positions, cache) + (if Reported(s, positions, cache) then [PositionInfoOf(s, positions[s], cache[s].mark)] else [])
      && UnrealizedOver(syms[..i + 1], positions, cache)
        == UnrealizedOver(syms[..i], positions, cache) + (if Reported(s, positions, cache) then Unrealized(positions[s].qty, positions[s].avgEntry, cache[s].mark) else 0.0)
  {
    assert syms[..i + 1][..i] == syms[..i];
  }

  /**
   * With a single reported position, the equity the liquidation check computes
   * for it equals the equity `get_account_state` reports.
   */
  lemma {:induction false} LiquidationEquityIsAccountEquity(syms: seq<string>, positions: map<string, SimPosition>,
                                                           cache: map<string, MarketInfo>, sym: string, cash: real, funding: real)
    requires Distinct(syms) && sym in syms && Reported(sym, positions, cache)
    requires forall s :: s in syms && s != sym ==> !Reported(s, positions, cache)
    ensures cash + UnrealizedOver(syms, positions, cache) + funding
            == LiquidationEquity(cash, positions[sym], cache[sym].mark, funding)
  {
    OnlyReported(syms, positions, cache, sym);
  }

  lemma {:induction false} OnlyReported(syms: seq<string>, positions: map<string, SimPosition>, cache: map<string, MarketInfo>, sym: string)
    requires Distinct(syms) && Reported(sym, positions, cache)
    requires forall s :: s in syms && s != sym ==> !Reported(s, positions, cache)
    ensures UnrealizedOver(syms, positions, cache)
            == if sym in syms then Unrealized(positions[sym].qty, positions[sym].avgEntry, cache[sym].mark) else 0.0
  {
    if |syms| > 0 {
      var init := syms[..|syms| - 1];
      assert Distinct(init);
      OnlyReported(init, positions, cache, sym);
      if syms[|syms| - 1] == sym {
        assert sym !in init;
      }
    }
  }

  // ----- the cash and fee ledger -----

  /** The part of the engine state a fill changes. */
  datatype Ledger = Ledger(
    cash: real,
    positions: map<string, SimPosition>,
    positionOrder: seq<string>,
    cumulativeFees: real,
    tradeLog: seq<Trade>)

  /** The trade handed to the database for a fill. */
  function FillTrade(cfg: PerpSimConfig, order: Order, price: real, now: int): (t: Trade)
    ensures t.symbol == order.symbol && t.side == order.side && t.qty == order.qty && t.price == price
    ensures t.clientId == order.clientId && t.ts == now
    ensures cfg.feeBps >= 0.0 && price >= 0.0 ==> t.fee >= 0.0
  {
    Trade(order.symbol, order.side, order.qty, price, Fee(cfg.feeBps, order.qty, price), order.clientId, now)
  }

  /** The position a fill of `symbol` applies to: the existing one, or a new flat one. */
  function PositionFor(positions: map<string, SimPosition>, symbol: string, now: int): (p: SimPosition)
    ensures p.symbol == symbol || symbol in positions
    ensures symbol !in positions ==> p.qty == 0.0 && p.realizedPl == 0.0
  {
    if symbol in positions then positions[symbol] else NewPosition(symbol, now)
  }

  /** One fill applied to the ledger: the position update, the fee and realized profit in cash, the trade record. */
  function FillStep(cfg: PerpSimConfig, l: Ledger, order: Order, price: real, now: int): (r: Ledger)
    ensures order.symbol in r.positions && r.positions.Keys == l.positions.Keys + {order.symbol}
    ensures forall s :: s in l.positions && s != order.symbol ==> r.positions[s] == l.positions[s]
    ensures r.tradeLog == l.tradeLog + [FillTrade(cfg, order, price, now)]
    ensures r.cumulativeFees == l.cumulativeFees - FillTrade(cfg, order, price, now).fee
    ensures r.positions[order.symbol].qty == PositionFor(l.positions, order.symbol, now).qty + SignedQty(order.side, order.qty)
  {
    var pos := PositionFor(l.positions, order.symbol, now);
    var e := ApplyFill(pos, SignedQty(order.side, order.qty), price, order.leverage, now);
    var fee := Fee(cfg.feeBps, order.qty, price);
    Ledger(
      l.cash - fee + e.realized,
      l.positions[order.symbol := e.pos],
      if order.symbol in l.positions then l.positionOrder else l.positionOrder + [order.symbol],
      l.cumulativeFees - fee,
      l.tradeLog + [FillTrade(cfg, order, price, now)])
  }

  /** The symbols a sequence lists. */
  ghost function Listed(xs: seq<string>): set<string>
  {
    if |xs| == 0 then {} else Listed(xs[..|xs| - 1]) + {xs[|xs| - 1]}
  }

  lemma {:induction false} ListedIff(xs: seq<string>, s: string)
    ensures s in Listed(xs) <==> s in xs
  {
    if |xs| > 0 {
      ListedIff(xs[..|xs| - 1], s);
      assert xs == xs[..|xs| - 1] + [xs[|xs| - 1]];
    }
  }

  /**
   * A fill computed step by step (get or create the position, apply the fill,
   * charge the fee, log the trade) is `FillStep`, and keeps the ledger identity.
   */
  lemma FillStepOf(cfg: PerpSimConfig, l: Ledger, order: Order, price: real, now: int, penalties: real,
                   pos: SimPosition, syms: seq<string>, effect: FillEffect, fee: real)
    requires Balanced(l, penalties)
    requires pos == PositionFor(l.positions, order.symbol, now)
    requires syms == if order.symbol in l.positions then l.positionOrder else l.positionOrder + [order.symbol]
    requires effect == ApplyFill(pos, SignedQty(order.side, order.qty), price, order.leverage, now)
    requires fee == Fee(cfg.feeBps, order.qty, price)
    ensures var r := Ledger(l.cash - fee + effect.realized, l.positions[order.symbol := effect.pos], syms,
                            l.cumulativeFees - fee,
                            l.tradeLog + [Trade(order.symbol, order.side, order.qty, price, fee, order.clientId, now)]);
      r == FillStep(cfg, l, order, price, now) && Balanced(r, penalties)
  {
    var f := FillStep(cfg, l, order, price, now);
    assert f.positions == l.positions[order.symbol := effect.pos];
    assert f.positionOrder == syms;
    FillKeepsBalance(cfg, l, order, price, now, penalties);
  }

  /** The book lists every position exactly once, each under its own symbol. */
  ghost predicate BookWellFormed(positions: map<string, SimPosition>, positionOrder: seq<string>) {
    Distinct(positionOrder)
    && positions.Keys == Listed(positionOrder)
    && (forall s :: s in positions ==> positions[s].symbol == s)
  }

  /**
   * The ledger identity: cash is the starting cash plus all realized profit
   * plus the fee ledger, less the liquidation penalties the fee ledger holds
   * but cash was never charged (`penalties`).
   */
  ghost predicate Balanced(l: Ledger, penalties: real) {
    BookWellFormed(l.positions, l.positionOrder)
    && l.cash == STARTING_CASH + RealizedOver(l.positionOrder, l.positions) + l.cumulativeFees + penalties
  }

  /** Storing a position under its own symbol keeps the book well formed. */
  lemma StoreKeepsBook(positions: map<string, SimPosition>, positionOrder: seq<string>, sym: string, p: SimPosition)
    requires BookWellFormed(positions, positionOrder) && p.symbol == sym
    ensures BookWellFormed(positions[sym := p], if sym in positions then positionOrder else positionOrder + [sym])
  {
    if sym !in positions {
      var order' := positionOrder + [sym];
      forall i, j | 0 <= i < j < |order'| ensures order'[i] != order'[j] {
        if j == |order'| - 1 {
          assert order'[i] == positionOrder[i];
          BookLists(positions, positionOrder, positionOrder[i]);
        }
      }
      assert order'[..|order'| - 1] == positionOrder;
    }
  }

  /** In a well-formed book a symbol has a position exactly when the order lists it. */
  lemma BookLists(positions: map<string, SimPosition>, positionOrder: seq<string>, s: string)
    requires BookWellFormed(positions, positionOrder)
    ensures s in positions <==> s in positionOrder
  {
    ListedIff(positionOrder, s);
  }

  /** Every fill keeps the ledger identity: it moves cash by exactly realized minus fee. */
  lemma FillKeepsBalance(cfg: PerpSimConfig, l: Ledger, order: Order, price: real, now: int, penalties: real)
    requires Balanced(l, penalties)
    ensures Balanced(FillStep(cfg, l, order, price, now), penalties)
  {
    var sym := order.symbol;
    var pos := PositionFor(l.positions, sym, now);
    var e := ApplyFill(pos, SignedQty(order.side, order.qty), price, order.leverage, now);
    var fee := Fee(cfg.feeBps, order.qty, price);
    var r := FillStep(cfg, l, order, price, now);
    assert r.positions == l.positions[sym := e.pos];
    assert r.cash == l.cash - fee + e.realized;
    assert r.cumulativeFees == l.cumulativeFees - fee;
    assert e.pos.realizedPl == pos.realizedPl + e.realized && e.pos.symbol == sym;
    StoreKeepsBook(l.positions, l.positionOrder, sym, e.pos);
    if sym in l.positions {
      BookLists(l.positions, l.positionOrder, sym);
      RealizedOverUpdate(l.positionOrder, l.positions, sym, e.pos);
      assert RealizedOver(r.positionOrder, r.positions) == RealizedOver(l.positionOrder, l.positions) + e.realized;
    } else {
      RealizedOverFrame(l.positionOrder, l.positions, sym, e.pos);
      var order' := l.positionOrder + [sym];
      assert order'[..|order'| - 1] == l.positionOrder;
      assert RealizedOver(order', r.positions) == RealizedOver(l.positionOrder, l.positions) + e.pos.realizedPl;
    }
  }

  /** The fills of a tick, applied one after another. */
  function FillAll(cfg: PerpSimConfig, l: Ledger, fills: seq<(Order, real)>, now: int): (r: Ledger)
    ensures r.tradeLog == l.tradeLog + FillTrades(cfg, fills, now)
    ensures r.cumulativeFees == l.cumulativeFees - SumFees(FillTrades(cfg, fills, now))
  {
    if |fills| == 0 then l
    else
      var last := fills[|fills| - 1];
      FillStep(cfg, FillAll(cfg, l, fills[..|fills| - 1], now), last.0, last.1, now)
  }

  lemma FillAllStep(cfg: PerpSimConfig, l: Ledger, fills: seq<(Order, real)>, i: int, now: int)
    requires 0 <= i < |fills|
    ensures FillAll(cfg, l, fills[..i + 1], now) == FillStep(cfg, FillAll(cfg, l, fills[..i], now), fills[i].0, fills[i].1, now)
  {
    assert fills[..i + 1][..i] == fills[..i];
  }

  /** The trades a sequence of fills logs, one per fill, in order. */
  function FillTrades(cfg: PerpSimConfig, fills: seq<(Order, real)>, now: int): (trades: seq<Trade>)
    ensures |trades| == |fills|
    ensures forall i :: 0 <= i < |fills| ==> trades[i] == FillTrade(cfg, fills[i].0, fills[i].1, now)
  {
    if |fills| == 0 then []
    else FillTrades(cfg, fills[..|fills| - 1], now) + [FillTrade(cfg, fills[|fills| - 1].0, fills[|fills| - 1].1, now)]
  }

  function SumFees(trades: seq<Trade>): real {
    if |trades| == 0 then 0.0 else SumFees(trades[..|trades| - 1]) + trades[|trades| - 1].fee
  }

  lemma {:induction false} FillAllKeepsBalance(cfg: PerpSimConfig, l: Ledger, fills: seq<(Order, real)>, now: int, penalties: real)
    requires Balanced(l, penalties)
    ensures Balanced(FillAll(cfg, l, fills, now), penalties)
  {
    if |fills| > 0 {
      FillAllKeepsBalance(cfg, l, fills[..|fills| - 1], now, penalties);
      var last := fills[|fills| - 1];
      FillKeepsBalance(cfg, FillAll(cfg, l, fills[..|fills| - 1], now), last.0, last.1, now, penalties);
    }
  }

  // ----- resting orders -----

  /** Index of the resting order with `id`, or -1. */
  function IndexOfOrder(orders: seq<SimOrder>, id: string): (i: int)
    ensures -1 <= i < |orders|
    ensures i >= 0 ==> orders[i].clientId == id
    ensures i < 0 ==> forall j :: 0 <= j < |orders| ==> orders[j].clientId != id
  {
    if |orders| == 0 then -1
    else if orders[|orders| - 1].clientId == id then |orders| - 1
    else IndexOfOrder(orders[..|orders| - 1], id)
  }

  /** Storing a resting order under its id: a new id is appended, an existing one is overwritten in place. */
  function UpsertOrder(orders: seq<SimOrder>, o: SimOrder): (r: seq<SimOrder>)
    ensures o in r && |orders| <= |r| <= |orders| + 1
    ensures forall x :: x in orders && x.clientId != o.clientId ==> x in r
    ensures UniqueIds(orders) ==> UniqueIds(r) && forall x :: x in r ==> x == o || (x in orders && x.clientId != o.clientId)
  {
    var i := IndexOfOrder(orders, o.clientId);
    if i >= 0 then
      UpsertInPlace(orders, i, o);
      orders[i := o]
    else
      orders + [o]
  }

  lemma UpsertInPlace(orders: seq<SimOrder>, i: int, o: SimOrder)
    requires 0 <= i < |orders| && orders[i].clientId == o.clientId
    ensures var r := orders[i := o];
      o in r
      && (forall x :: x in orders && x.clientId != o.clientId ==> x in r)
      && (UniqueIds(orders) ==> UniqueIds(r) && forall x :: x in r ==> x == o || (x in orders && x.clientId != o.clientId))
  {
    var r := orders[i := o];
    assert r[i] == o;
    forall x | x in orders && x.clientId != o.clientId ensures x in r {
      var j :| 0 <= j < |orders| && orders[j] == x;
      assert r[j] == x;
    }
    if UniqueIds(orders) {
      forall x | x in r ensures x == o || (x in orders && x.clientId != o.clientId) {
        var j :| 0 <= j < |r| && r[j] == x;
        if j != i {
          assert orders[j] == x;
        }
      }
    }
  }

  /** Removing the resting order with `id`. */
  function RemoveOrder(orders: seq<SimOrder>, id: string): (r: seq<SimOrder>)
    ensures forall x :: x in orders && x.clientId != id ==> x in r
    ensures forall x :: x in r ==> x in orders
    ensures UniqueIds(orders) ==> UniqueIds(r) && forall x :: x in r ==> x.clientId != id
    ensures |r| == (if IndexOfOrder(orders, id) >= 0 then |orders| - 1 else |orders|)
  {
    var i := IndexOfOrder(orders, id);
    if i < 0 then orders
    else
      RemoveAt(orders, i);
      orders[..i] + orders[i + 1..]
  }

  lemma RemoveAt(orders: seq<SimOrder>, i: int)
    requires 0 <= i < |orders|
    ensures var r := orders[..i] + orders[i + 1..];
      var id := orders[i].clientId;
      (forall x :: x in orders && x.clientId != id ==> x in r)
      && (forall x :: x in r ==> x in orders)
      && (UniqueIds(orders) ==> UniqueIds(r) && forall x :: x in r ==> x.clientId != id)
  {
    var r := orders[..i] + orders[i + 1..];
    var id := orders[i].clientId;
    assert forall j :: 0 <= j < |r| ==> r[j] == orders[if j < i then j else j + 1];
    forall x | x in orders && x.clientId != id ensures x in r {
      var j :| 0 <= j < |orders| && orders[j] == x;
      if j < i { assert r[j] == x; } else { assert j > i; assert r[j - 1] == x; }
    }
    forall x | x in r ensures x in orders {
      var j :| 0 <= j < |r| && r[j] == x;
      assert orders[if j < i then j else j + 1] == x;
    }
    if UniqueIds(orders) {
      forall a, b | 0 <= a < b < |r| ensures r[a].clientId != r[b].clientId {
        assert r[a] == orders[if a < i then a else a + 1];
        assert r[b] == orders[if b < i then b else b + 1];
      }
      forall x | x in r ensures x.clientId != id {
        var j :| 0 <= j < |r| && r[j] == x;
        var j' := if j < i then j else j + 1;
        assert orders[j'] == x && j' != i;
      }
    }
  }

  /** The resting orders a tick leaves in place, in order. */
  function Uncrossed(orders: seq<SimOrder>, symbol: string, bestBid: real, bestAsk: real): seq<SimOrder>
  {
    if |orders| == 0 then []
    else
      var rest := Uncrossed(orders[..|orders| - 1], symbol, bestBid, bestAsk);
      var o := orders[|orders| - 1];
      if Crosses(o, symbol, bestBid, bestAsk) then rest else rest + [o]
  }

  /** The resting orders a tick fills, in order. */
  function Crossed(orders: seq<SimOrder>, symbol: string, bestBid: real, bestAsk: real): seq<SimOrder>
  {
    if |orders| == 0 then []
    else
      var rest := Crossed(orders[..|orders| - 1], symbol, bestBid, bestAsk);
      var o := orders[|orders| - 1];
      if Crosses(o, symbol, bestBid, bestAsk) then rest + [o] else rest
  }

  /**
   * A tick splits the resting orders exactly: the crossed ones are filled,
   * every other order (in particular every order for another symbol) stays.
   */
  lemma {:induction false} TickSplitsOrders(orders: seq<SimOrder>, symbol: string, bestBid: real, bestAsk: real)
    ensures |Crossed(orders, symbol, bestBid, bestAsk)| + |Uncrossed(orders, symbol, bestBid, bestAsk)| == |orders|
    ensures forall o :: o in Crossed(orders, symbol, bestBid, bestAsk) <==> o in orders && Crosses(o, symbol, bestBid, bestAsk)
    ensures forall o :: o in Uncrossed(orders, symbol, bestBid, bestAsk) <==> o in orders && !Crosses(o, symbol, bestBid, bestAsk)
  {
    if |orders| > 0 {
      var init := orders[..|orders| - 1];
      TickSplitsOrders(init, symbol, bestBid, bestAsk);
      assert orders == init + [orders[|orders| - 1]];
    }
  }

  /** The fills of the crossed orders: each at its own limit price. */
  function LimitFills(crossed: seq<SimOrder>): (fills: seq<(Order, real)>)
    ensures |fills| == |crossed|
    ensures forall i :: 0 <= i < |crossed| ==> fills[i] == (LimitFillOrder(crossed[i]), crossed[i].limitPrice)
  {
    if |crossed| == 0 then [] else LimitFills(crossed[..|crossed| - 1]) + [(LimitFillOrder(crossed[|crossed| - 1]), crossed[|crossed| - 1].limitPrice)]
  }

  /** The cached markets of the requested symbols that have one, in request order. */
  function CachedMarkets(symbols: seq<string>, cache: map<string, MarketInfo>): (r: seq<MarketInfo>)
    ensures |r| <= |symbols|
    ensures forall m :: m in r ==> exists s :: s in symbols && s in cache && cache[s] == m
    ensures forall s :: s in symbols && s in cache ==> cache[s] in r
    ensures (forall s :: s in symbols ==> s in cache) ==> |r| == |symbols|
  {
    if |symbols| == 0 then []
    else
      var init := symbols[..|symbols| - 1];
      var s := symbols[|symbols| - 1];
      assert forall t :: t in init ==> t in symbols;
      assert forall t :: t in symbols ==> t in init || t == s;
      CachedMarkets(init, cache) + (if s in cache then [cache[s]] else [])
  }

  // ----- order entry, as a caller of the engine sees it -----

  /** The part of the engine that placing and cancelling orders changes: the ledger and the resting orders. */
  datatype EntryState = EntryState(ledger: Ledger, openOrders: seq<SimOrder>)

  /** `place_order`'s answer; it depends only on the cached markets. */
  function PlaceAnswer(cache: map<string, MarketInfo>, order: Order): (r: PlacedOrder)
    ensures r.clientId == order.clientId && r.exchangeId.None? && (r.success <==> r.error.None?)
    ensures r.success <==> order.symbol in cache && (order.orderType == Market || order.limitPrice.Some?)
    ensures order.symbol !in cache ==> r.error == Some("no market data for " + order.symbol)
    ensures order.symbol in cache && order.orderType == Limit && order.limitPrice.None? ==>
      r.error == Some("limit price required for limit orders")
  {
    if order.symbol !in cache then PlacedOrder(false, order.clientId, None, Some("no market data for " + order.symbol))
    else if order.orderType == Market || order.limitPrice.Some? then PlacedOrder(true, order.clientId, None, None)
    else PlacedOrder(false, order.clientId, None, Some("limit price required for limit orders"))
  }

  /**
   * The ledger and resting orders after `place_order`: a refused order
   * changes nothing, a market order fills at once at the slippage price,
   * a limit order rests under its client id.
   */
  function AfterPlace(cfg: PerpSimConfig, cache: map<string, MarketInfo>, s: EntryState, order: Order, now: int): (r: EntryState)
    ensures !PlaceAnswer(cache, order).success ==> r == s
    ensures order.orderType == Limit ==> r.ledger == s.ledger
    ensures order.orderType == Market ==> r.openOrders == s.openOrders
    ensures UniqueIds(s.openOrders) ==> UniqueIds(r.openOrders)
  {
    if !PlaceAnswer(cache, order).success then s
    else if order.orderType == Market then
      var m := cache[order.symbol];
      EntryState(FillStep(cfg, s.ledger, order, FillPrice(cfg.slippageBps, order.side, m.bestBid, m.bestAsk), now), s.openOrders)
    else
      EntryState(s.ledger, UpsertOrder(s.openOrders, SimOrder(order.clientId, order.symbol, order.side, order.qty,
                                                              order.limitPrice.value, order.reduceOnly, now)))
  }

  /** An accepted market order moves the ledger by one fill at the slippage price of the cached quote. */
  lemma MarketPlacementFills(cfg: PerpSimConfig, cache: map<string, MarketInfo>, s: EntryState, order: Order, now: int)
    requires order.orderType == Market && order.symbol in cache
    ensures PlaceAnswer(cache, order).success
    ensures var m := cache[order.symbol];
      AfterPlace(cfg, cache, s, order, now)
      == EntryState(FillStep(cfg, s.ledger, order, FillPrice(cfg.slippageBps, order.side, m.bestBid, m.bestAsk), now), s.openOrders)
  {
  }

  /**
   * An accepted market order for the whole size on the opposite side of a
   * held position leaves that position flat.
   */
  lemma CloseFlattens(cfg: PerpSimConfig, cache: map<string, MarketInfo>, s: EntryState, order: Order, qty: real, now: int)
    requires qty != 0.0 && order.orderType == Market && order.qty == Abs(qty) && (order.side == Side.Sell <==> qty > 0.0)
    ensures order.symbol in cache && order.symbol in s.ledger.positions && s.ledger.positions[order.symbol].qty == qty ==>
      var r := AfterPlaceAll(cfg, cache, s, [order], now).ledger;
      order.symbol in r.positions && r.positions[order.symbol].qty == 0.0
  {
    if order.symbol in cache && order.symbol in s.ledger.positions && s.ledger.positions[order.symbol].qty == qty {
      AfterPlaceSnoc(cfg, cache, s, [], order, now);
      MarketPlacementFills(cfg, cache, s, order, now);
      var m := cache[order.symbol];
      var r := FillStep(cfg, s.ledger, order, FillPrice(cfg.slippageBps, order.side, m.bestBid, m.bestAsk), now);
      assert r.positions[order.symbol].qty == qty + SignedQty(order.side, order.qty);
      OppositeCancels(order.side, qty);
    }
  }

  lemma OppositeCancels(side: Side, qty: real)
    requires side == Side.Sell <==> qty > 0.0
    ensures qty + SignedQty(side, Abs(qty)) == 0.0
  {
  }

  /** Orders placed one after another; placing orders leaves the cached markets as they are. */
  function AfterPlaceAll(cfg: PerpSimConfig, cache: map<string, MarketInfo>, s: EntryState, orders: seq<Order>, now: int): (r: EntryState)
    ensures UniqueIds(s.openOrders) ==> UniqueIds(r.openOrders)
  {
    if |orders| == 0 then s
    else AfterPlace(cfg, cache, AfterPlaceAll(cfg, cache, s, orders[..|orders| - 1], now), orders[|orders| - 1], now)
  }

  /** The answers to orders placed one after another. */
  function PlaceAnswers(cache: map<string, MarketInfo>, orders: seq<Order>): (rs: seq<PlacedOrder>)
    ensures |rs| == |orders|
    ensures forall j :: 0 <= j < |orders| ==> rs[j] == PlaceAnswer(cache, orders[j])
  {
    if |orders| == 0 then []
    else PlaceAnswers(cache, orders[..|orders| - 1]) + [PlaceAnswer(cache, orders[|orders| - 1])]
  }

  lemma AfterPlaceSnoc(cfg: PerpSimConfig, cache: map<string, MarketInfo>, s: EntryState, orders: seq<Order>, o: Order, now: int)
    ensures AfterPlaceAll(cfg, cache, s, orders + [o], now) == AfterPlace(cfg, cache, AfterPlaceAll(cfg, cache, s, orders, now), o, now)
    ensures PlaceAnswers(cache, orders + [o]) == PlaceAnswers(cache, orders) + [PlaceAnswer(cache, o)]
  {
    assert (orders + [o])[..|orders|] == orders;
  }

  /** Placing two batches one after the other is placing their concatenation. */
  lemma {:induction false} AfterPlaceAllAppend(cfg: PerpSimConfig, cache: map<string, MarketInfo>, s: EntryState,
                                               a: seq<Order>, b: seq<Order>, now: int)
    ensures AfterPlaceAll(cfg, cache, s, a + b, now) == AfterPlaceAll(cfg, cache, AfterPlaceAll(cfg, cache, s, a, now), b, now)
  {
    if |b| == 0 {
      assert a + b == a;
    } else {
      var b' := b[..|b| - 1];
      AfterPlaceAllAppend(cfg, cache, s, a, b', now);
      assert (a + b)[..|a + b| - 1] == a + b';
    }
  }

  /** The fills a batch of placements makes: its accepted market orders, each at its slippage price. */
  function MarketFills(cfg: PerpSimConfig, cache: map<string, MarketInfo>, orders: seq<Order>): (fills: seq<(Order, real)>)
    ensures |fills| <= |orders|
  {
    if |orders| == 0 then []
    else
      var o := orders[|orders| - 1];
      MarketFills(cfg, cache, orders[..|orders| - 1])
      + (if o.orderType == Market && o.symbol in cache
         then [(o, FillPrice(cfg.slippageBps, o.side, cache[o.symbol].bestBid, cache[o.symbol].bestAsk))]
         else [])
  }

  /**
   * A batch of placements moves the ledger exactly as the tick's fills do:
   * its accepted market orders applied in order.
   */
  lemma {:induction false} AfterPlaceAllLedger(cfg: PerpSimConfig, cache: map<string, MarketInfo>, s: EntryState,
                                               orders: seq<Order>, now: int)
    ensures AfterPlaceAll(cfg, cache, s, orders, now).ledger == FillAll(cfg, s.ledger, MarketFills(cfg, cache, orders), now)
  {
    if |orders| > 0 {
      var init := orders[..|orders| - 1];
      var o := orders[|orders| - 1];
      AfterPlaceAllLedger(cfg, cache, s, init, now);
      var prev := AfterPlaceAll(cfg, cache, s, init, now);
      var fills := MarketFills(cfg, cache, init);
      if o.orderType == Market && o.symbol in cache {
        var f := (o, FillPrice(cfg.slippageBps, o.side, cache[o.symbol].bestBid, cache[o.symbol].bestAsk));
        assert MarketFills(cfg, cache, orders) == fills + [f];
        FillAllSnoc(cfg, s.ledger, fills, f, now);
        assert AfterPlace(cfg, cache, prev, o, now).ledger == FillStep(cfg, prev.ledger, o, f.1, now);
      } else {
        assert MarketFills(cfg, cache, orders) == fills;
        assert AfterPlace(cfg, cache, prev, o, now).ledger == prev.ledger;
      }
    }
  }

  lemma FillAllSnoc(cfg: PerpSimConfig, l: Ledger, fills: seq<(Order, real)>, f: (Order, real), now: int)
    ensures FillAll(cfg, l, fills + [f], now) == FillStep(cfg, FillAll(cfg, l, fills, now), f.0, f.1, now)
  {
    assert (fills + [f])[..|fills|] == fills;
  }

  /** Placing orders keeps the engine's cash identity. */
  lemma AfterPlaceAllKeepsBalance(cfg: PerpSimConfig, cache: map<string, MarketInfo>, s: EntryState,
                                  orders: seq<Order>, now: int, penalties: real)
    requires Balanced(s.ledger, penalties)
    ensures Balanced(AfterPlaceAll(cfg, cache, s, orders, now).ledger, penalties)
  {
    AfterPlaceAllLedger(cfg, cache, s, orders, now);
    FillAllKeepsBalance(cfg, s.ledger, MarketFills(cfg, cache, orders), now, penalties);
  }

  /** `cancel_order`'s answer against the resting orders. */
  function CancelAnswer(orders: seq<SimOrder>, id: string): (r: CancelResult)
    ensures r.clientId == id && (r.success <==> IndexOfOrder(orders, id) >= 0) && (r.success <==> r.error.None?)
    ensures !r.success ==> r.error == Some("order not found")
  {
    if IndexOfOrder(orders, id) >= 0 then CancelResult(true, id, None) else CancelResult(false, id, Some("order not found"))
  }

  /** The resting orders after cancelling `ids` in turn. */
  function AfterCancelAll(orders: seq<SimOrder>, ids: seq<string>): seq<SimOrder>
  {
    if |ids| == 0 then orders
    else RemoveOrder(AfterCancelAll(orders, ids[..|ids| - 1]), ids[|ids| - 1])
  }

  /**
   * Cancelling adds no order, and with distinct ids exactly the orders
   * under none of `ids` remain.
   */
  lemma {:induction false} AfterCancelAllKeeps(orders: seq<SimOrder>, ids: seq<string>)
    ensures var r := AfterCancelAll(orders, ids);
      (forall x :: x in r ==> x in orders)
      && (forall x :: x in orders && x.clientId !in ids ==> x in r)
      && (UniqueIds(orders) ==> UniqueIds(r) && forall x :: x in r ==> x.clientId !in ids)
  {
    if |ids| > 0 {
      var init := ids[..|ids| - 1];
      AfterCancelAllKeeps(orders, init);
      assert forall x :: x in ids <==> x in init || x == ids[|ids| - 1];
    }
  }

  /** The answers to cancellations made one after another. */
  function CancelAnswers(orders: seq<SimOrder>, ids: seq<string>): (rs: seq<CancelResult>)
    ensures |rs| == |ids|
  {
    if |ids| == 0 then []
    else CancelAnswers(orders, ids[..|ids| - 1]) + [CancelAnswer(AfterCancelAll(orders, ids[..|ids| - 1]), ids[|ids| - 1])]
  }

  lemma CancelStepAt(orders: seq<SimOrder>, ids: seq<string>, c: int)
    requires 0 <= c < |ids|
    ensures AfterCancelAll(orders, ids[..c + 1]) == RemoveOrder(AfterCancelAll(orders, ids[..c]), ids[c])
    ensures CancelAnswers(orders, ids[..c + 1]) == CancelAnswers(orders, ids[..c]) + [CancelAnswer(AfterCancelAll(orders, ids[..c]), ids[c])]
  {
    assert ids[..c + 1][..c] == ids[..c];
  }

  /**
   * With distinct resting ids, the j-th cancellation of a batch succeeds
   * exactly when an order rested under its id and no earlier cancellation
   * of the batch named that id.
   */
  lemma {:induction false} CancelSucceedsIff(orders: seq<SimOrder>, ids: seq<string>, j: int)
    requires UniqueIds(orders) && 0 <= j < |ids|
    ensures CancelAnswers(orders, ids)[j].clientId == ids[j]
    ensures CancelAnswers(orders, ids)[j].success <==> IndexOfOrder(orders, ids[j]) >= 0 && ids[j] !in ids[..j]
  {
    var k := |ids| - 1;
    if j < k {
      CancelSucceedsIff(orders, ids[..k], j);
      assert ids[..k][..j] == ids[..j];
    } else {
      LastCancelSucceedsIff(orders, ids[..k], ids[k]);
      assert ids[..k] == ids[..j];
    }
  }

  lemma LastCancelSucceedsIff(orders: seq<SimOrder>, earlier: seq<string>, id: string)
    requires UniqueIds(orders)
    ensures IndexOfOrder(AfterCancelAll(orders, earlier), id) >= 0 <==> IndexOfOrder(orders, id) >= 0 && id !in earlier
  {
    var rest := AfterCancelAll(orders, earlier);
    AfterCancelAllKeeps(orders, earlier);
    var i := IndexOfOrder(rest, id);
    if i >= 0 {
      IndexFound(orders, rest[i]);
    }
    var i0 := IndexOfOrder(orders, id);
    if i0 >= 0 && id !in earlier {
      assert orders[i0] in orders;
      IndexFound(rest, orders[i0]);
    }
  }

  lemma IndexFound(orders: seq<SimOrder>, x: SimOrder)
    requires x in orders
    ensures IndexOfOrder(orders, x.clientId) >= 0
  {
    var j :| 0 <= j < |orders| && orders[j] == x;
  }

  class PerpSimAdapter {
    const config: PerpSimConfig
    var cash: real
    var positions: map<string, SimPosition>
    /** The symbols of `positions` in insertion order (the order the source's dictionary iterates in). */
    var positionOrder: seq<string>
    /** Resting limit orders in insertion order, keyed by client id. */
    var openOrders: seq<SimOrder>
    var cumulativeFees: real
    var cumulativeFunding: real
    var marketCache: map<string, MarketInfo>
    var ema24: map<string, real>
    /** The trades handed to the database, in order. */
    var tradeLog: seq<Trade>
    /** Liquidation penalties charged to `cumulativeFees` but never to `cash`. */
    ghost var liquidationPenalties: real

    function LedgerOf(): Ledger
      reads this
    {
      Ledger(cash, positions, positionOrder, cumulativeFees, tradeLog)
    }

    function EntryStateOf(): EntryState
      reads this
    {
      EntryState(LedgerOf(), openOrders)
    }

    ghost predicate Valid()
      reads this
    {
      Balanced(LedgerOf(), liquidationPenalties)
      && UniqueIds(openOrders)
    }

    constructor(config: PerpSimConfig)
      ensures Valid()
      ensures this.config == config && cash == STARTING_CASH
      ensures positions == map[] && positionOrder == [] && openOrders == []
      ensures cumulativeFees == 0.0 && cumulativeFunding == 0.0
      ensures marketCache == map[] && ema24 == map[] && tradeLog == []
    {
      this.config := config;
      cash := STARTING_CASH;
      positions := map[];
      positionOrder := [];
      openOrders := [];
      cumulativeFees := 0.0;
      cumulativeFunding := 0.0;
      marketCache := map[];
      ema24 := map[];
      tradeLog := [];
      liquidationPenalties := 0.0;
    }

    /** Cached market data for the requested symbols that have any. */
    function GetMarketState(symbols: seq<string>, now: int): (m: MarketState)
      reads this
      ensures m.timestamp == now
      ensures |m.markets| <= |symbols|
      ensures forall s :: s in symbols && s in marketCache ==> marketCache[s] in m.markets
      ensures forall x :: x in m.markets ==> exists s :: s in symbols && s in marketCache && marketCache[s] == x
    {
      MarketState(CachedMarkets(symbols, marketCache), now)
    }

    /**
     * Balances and open positions. Equity is cash plus the unrealized profit of
     * the reported positions plus net funding (realized profit is already in cash).
     */
    method GetAccountState(now: int) returns (a: AccountState)
      requires Valid()
      ensures a.positions == OpenPositions(positionOrder, positions, marketCache)
      ensures a.unrealizedPl == UnrealizedOver(positionOrder, positions, marketCache)
      ensures a.equity == cash + a.unrealizedPl + cumulativeFunding
      ensures a.cash == cash && a.realizedPl == RealizedOver(positionOrder, positions)
      ensures a.fees == cumulativeFees && a.fundingNet == cumulativeFunding && a.timestamp == now
    {
      var unrealizedTotal := 0.0;
      var infos: seq<PositionInfo> := [];
      var syms, book, cache := positionOrder, positions, marketCache;
      forall s | s in syms ensures s in book {
        BookLists(book, syms, s);
      }
      var i := 0;
      while i < |syms|
        invariant 0 <= i <= |syms|
        invariant infos == OpenPositions(syms[..i], book, cache)
        invariant unrealizedTotal == UnrealizedOver(syms[..i], book, cache)
      {
        var sym := syms[i];
        ReportStep(syms, i, book, cache);
        var pos := book[sym];
        if pos.qty != 0.0 && sym in cache {
          var mark := cache[sym].mark;
          var unrealized := Unrealized(pos.qty, pos.avgEntry, mark);
          unrealizedTotal := unrealizedTotal + unrealized;
          var info := PositionInfo(sym, pos.qty, pos.avgEntry, unrealized, Abs(pos.qty) * mark, pos.leverage, pos.entryTime);
          assert info == PositionInfoOf(sym, pos, mark);
          infos := infos + [info];
        }
        i := i + 1;
      }
      assert syms[..i] == syms;
      var realizedTotal := RealizedOver(positionOrder, positions);
      a := AccountState(cash + unrealizedTotal + cumulativeFunding, cash, realizedTotal, unrealizedTotal,
                        cumulativeFees, cumulativeFunding, infos, now);
    }

    /** Writes a balanced ledger back into the adapter's fields, leaving the rest as it was. */
    method StoreLedger(l: Ledger)
      requires Balanced(l, liquidationPenalties) && UniqueIds(openOrders)
      modifies this
      ensures Valid() && LedgerOf() == l
      ensures openOrders == old(openOrders) && cumulativeFunding == old(cumulativeFunding)
      ensures marketCache == old(marketCache) && ema24 == old(ema24)
      ensures liquidationPenalties == old(liquidationPenalties)
    {
      cash, positions, positionOrder, cumulativeFees, tradeLog := l.cash, l.positions, l.positionOrder, l.cumulativeFees, l.tradeLog;
    }

    /** Applies one fill at `price`: position update, fee, realized profit, trade record. */
    method ExecuteFill(order: Order, price: real, now: int)
      requires Valid()
      modifies this
      ensures Valid()
      ensures LedgerOf() == FillStep(config, old(LedgerOf()), order, price, now)
      ensures openOrders == old(openOrders) && cumulativeFunding == old(cumulativeFunding)
      ensures marketCache == old(marketCache) && ema24 == old(ema24)
      ensures liquidationPenalties == old(liquidationPenalties)
    {
      ghost var before := LedgerOf();
      var symbol := order.symbol;
      var qtySigned := SignedQty(order.side, order.qty);
      // get or create the position; the fill then replaces it under its symbol
      var pos := if symbol in positions then positions[symbol] else NewPosition(symbol, now);
      var syms := if symbol in positions then positionOrder else positionOrder + [symbol];
      var fee := Fee(config.feeBps, order.qty, price);
      var effect := ApplyFill(pos, qtySigned, price, order.leverage, now);
      var newCash := cash - fee;
      newCash := newCash + effect.realized;
      var trade := Trade(symbol, order.side, order.qty, price, fee, order.clientId, now);
      FillStepOf(config, before, order, price, now, liquidationPenalties, pos, syms, effect, fee);
      StoreLedger(Ledger(newCash, positions[symbol := effect.pos], syms, cumulativeFees - fee, tradeLog + [trade]));
    }

    /**
     * Places an order: rejected without any change when the symbol has no
     * cached market or a limit order has no price; a market order fills at
     * once at the slippage price; a limit order rests under its client id.
     */
    method PlaceOrder(order: Order, now: int) returns (r: PlacedOrder)
      requires Valid()
      modifies this
      ensures Valid()
      ensures r.clientId == order.clientId && r.exchangeId.None? && (r.success <==> r.error.None?)
      ensures order.symbol !in old(marketCache) ==>
        r.error == Some("no market data for " + order.symbol) && unchanged(this)
      ensures order.symbol in old(marketCache) && order.orderType == Market ==>
        r.success
        && LedgerOf() == FillStep(config, old(LedgerOf()), order,
             FillPrice(config.slippageBps, order.side, old(marketCache)[order.symbol].bestBid, old(marketCache)[order.symbol].bestAsk), now)
        && openOrders == old(openOrders)
      ensures order.symbol in old(marketCache) && order.orderType == Limit && order.limitPrice.None? ==>
        r.error == Some("limit price required for limit orders") && unchanged(this)
      ensures order.symbol in old(marketCache) && order.orderType == Limit && order.limitPrice.Some? ==>
        r.success
        && openOrders == UpsertOrder(old(openOrders), SimOrder(order.clientId, order.symbol, order.side, order.qty,
                                                               order.limitPrice.value, order.reduceOnly, now))
        && LedgerOf() == old(LedgerOf())
      ensures r == PlaceAnswer(old(marketCache), order)
      ensures EntryStateOf() == AfterPlace(config, old(marketCache), old(EntryStateOf()), order, now)
      ensures cumulativeFunding == old(cumulativeFunding) && marketCache == old(marketCache) && ema24 == old(ema24)
      ensures liquidationPenalties == old(liquidationPenalties)
    {
      if order.symbol !in marketCache {
        return PlacedOrder(false, order.clientId, None, Some("no market data for " + order.symbol));
      }
      var market := marketCache[order.symbol];
      if order.orderType == Market {
        var fillPrice := FillPrice(config.slippageBps, order.side, market.bestBid, market.bestAsk);
        ExecuteFill(order, fillPrice, now);
        return PlacedOrder(true, order.clientId, None, None);
      }
      if order.limitPrice.None? {
        return PlacedOrder(false, order.clientId, None, Some("limit price required for limit orders"));
      }
      openOrders := UpsertOrder(openOrders, SimOrder(order.clientId, order.symbol, order.side, order.qty,
                                                     order.limitPrice.value, order.reduceOnly, now));
      r := PlacedOrder(true, order.clientId, None, None);
    }

    /** Cancels the resting order with `clientId`, or reports it missing and changes nothing. */
    method CancelOrder(clientId: string) returns (r: CancelResult)
      requires Valid()
      modifies this
      ensures Valid()
      ensures r.clientId == clientId
      ensures r.success <==> IndexOfOrder(old(openOrders), clientId) >= 0
      ensures r.success ==> r.error.None? && openOrders == RemoveOrder(old(openOrders), clientId)
      ensures !r.success ==> r.error == Some("order not found") && openOrders == old(openOrders)
      ensures r == CancelAnswer(old(openOrders), clientId) && openOrders == RemoveOrder(old(openOrders), clientId)
      ensures forall o :: o in openOrders ==> o.clientId != clientId
      ensures LedgerOf() == old(LedgerOf()) && cumulativeFunding == old(cumulativeFunding)
      ensures marketCache == old(marketCache) && ema24 == old(ema24) && liquidationPenalties == old(liquidationPenalties)
    {
      if IndexOfOrder(openOrders, clientId) >= 0 {
        openOrders := RemoveOrder(openOrders, clientId);
        r := CancelResult(true, clientId, None);
      } else {
        r := CancelResult(false, clientId, Some("order not found"));
      }
    }

    /** Removes the resting orders the tick crosses and returns them, in order, to be filled at their limits. */
    method TryFillLimits(symbol: string, bestBid: real, bestAsk: real) returns (crossed: seq<SimOrder>)
      requires Valid()
      modifies this
      ensures Valid()
      ensures crossed == Crossed(old(openOrders), symbol, bestBid, bestAsk)
      ensures openOrders == Uncrossed(old(openOrders), symbol, bestBid, bestAsk)
      ensures LedgerOf() == old(LedgerOf()) && cumulativeFunding == old(cumulativeFunding)
      ensures marketCache == old(marketCache) && ema24 == old(ema24) && liquidationPenalties == old(liquidationPenalties)
    {
      var kept: seq<SimOrder> := [];
      crossed := [];
      var i := 0;
      while i < |openOrders|
        invariant 0 <= i <= |openOrders|
        invariant kept == Uncrossed(openOrders[..i], symbol, bestBid, bestAsk)
        invariant crossed == Crossed(openOrders[..i], symbol, bestBid, bestAsk)
      {
        var o := openOrders[i];
        assert openOrders[..i + 1][..i] == openOrders[..i];
        if o.symbol == symbol && o.side == Side.Buy && o.limitPrice >= bestAsk {
          crossed := crossed + [o];
        } else if o.symbol == symbol && o.side == Side.Sell && o.limitPrice <= bestBid {
          crossed := crossed + [o];
        } else {
          kept := kept + [o];
        }
        i := i + 1;
      }
      assert openOrders[..i] == openOrders;
      KeptUnique(openOrders, symbol, bestBid, bestAsk);
      openOrders := kept;
    }

    /** Accrues funding for the ticked symbol's position, as `Funding` describes. */
    method AccrueFunding(symbol: string, rate: real, ts: int)
      requires Valid()
      modifies this
      ensures Valid()
      ensures symbol !in old(positions) ==> positions == old(positions) && cumulativeFunding == old(cumulativeFunding)
      ensures symbol in old(positions) ==>
        var e := Funding(old(positions)[symbol], if symbol in marketCache then Some(marketCache[symbol]) else None, rate, ts);
        positions == old(positions)[symbol := e.pos] && cumulativeFunding == old(cumulativeFunding) + e.payment
      ensures cash == old(cash) && positionOrder == old(positionOrder) && cumulativeFees == old(cumulativeFees)
      ensures tradeLog == old(tradeLog) && openOrders == old(openOrders)
      ensures marketCache == old(marketCache) && ema24 == old(ema24) && liquidationPenalties == old(liquidationPenalties)
    {
      if symbol !in positions {
        return;
      }
      var pos := positions[symbol];
      var market := if symbol in marketCache then Some(marketCache[symbol]) else None;
      var e := Funding(pos, market, rate, ts);
      BookLists(positions, positionOrder, symbol);
      RealizedOverUpdate(positionOrder, positions, symbol, e.pos);
      positions := positions[symbol := e.pos];
      cumulativeFunding := cumulativeFunding + e.payment;
    }

    /**
     * Liquidates the ticked symbol's position when equity falls below the
     * maintenance requirement: returns the closing fill to execute and charges
     * the penalty to the fee ledger (not to cash).
     */
    method CheckLiquidation(symbol: string, mark: real, liqClientId: string) returns (liq: Option<(Order, real)>)
      requires Valid()
      modifies this
      ensures Valid()
      ensures liq.Some? <==> symbol in positions && Liquidates(config.mm, cash, positions[symbol], mark, cumulativeFunding)
      ensures liq.Some? ==>
        var qty := positions[symbol].qty;
        liq.value == (LiquidationOrder(symbol, qty, liqClientId), LiquidationPrice(config.liqPenaltyBps, qty, mark))
        && cumulativeFees == old(cumulativeFees) - LiquidationFee(config.liqPenaltyBps, qty, mark)
        && liquidationPenalties == old(liquidationPenalties) + LiquidationFee(config.liqPenaltyBps, qty, mark)
      ensures liq.None? ==> cumulativeFees == old(cumulativeFees) && liquidationPenalties == old(liquidationPenalties)
      ensures cash == old(cash) && positions == old(positions) && positionOrder == old(positionOrder)
      ensures tradeLog == old(tradeLog) && openOrders == old(openOrders) && cumulativeFunding == old(cumulativeFunding)
      ensures marketCache == old(marketCache) && ema24 == old(ema24)
    {
      liq := None;
      if symbol !in positions {
        return;
      }
      var pos := positions[symbol];
      if pos.qty == 0.0 {
        return;
      }
      var equity := cash + Unrealized(pos.qty, pos.avgEntry, mark) + cumulativeFunding;
      var notional := Abs(pos.qty) * mark;
      var requiredMargin := config.mm * notional;
      if equity < requiredMargin {
        var liqPrice := LiquidationPrice(config.liqPenaltyBps, pos.qty, mark);
        liq := Some((LiquidationOrder(symbol, pos.qty, liqClientId), liqPrice));
        var liqFee := notional * (config.liqPenaltyBps / 10000.0);
        cumulativeFees := cumulativeFees - liqFee;
        liquidationPenalties := liquidationPenalties + liqFee;
      }
    }

    method UpdateEma(symbol: string, mark: real)
      modifies this
      ensures ema24 == EmaUpdate(old(ema24), symbol, mark)
      ensures LedgerOf() == old(LedgerOf()) && openOrders == old(openOrders) && cumulativeFunding == old(cumulativeFunding)
      ensures marketCache == old(marketCache) && liquidationPenalties == old(liquidationPenalties)
    {
      if symbol !in ema24 {
        ema24 := ema24[symbol := mark];
      } else {
        ema24 := ema24[symbol := EMA_ALPHA * mark + (1.0 - EMA_ALPHA) * ema24[symbol]];
      }
    }

    /**
     * The synchronous part of a tick: cache the quote, take the crossed resting
     * orders, accrue funding, check liquidation and update the EMA. Returns the
     * fills the source schedules as background tasks, in creation order.
     */
    method ApplyTick(symbol: string, bestBid: real, bestAsk: real, ts: int, liqClientId: string)
      returns (fills: seq<(Order, real)>)
      requires Valid()
      modifies this
      ensures Valid()
      ensures var mark := (bestBid + bestAsk) / 2.0;
        var info := TickInfo(symbol, bestBid, bestAsk, FundingRate(config.fundingMode, old(ema24), symbol, mark));
        var payment := FundingOnTick(old(positions), symbol, info, ts);
        var liquidated := LiquidatedOnTick(config, old(cash), old(positions), symbol, mark, old(cumulativeFunding) + payment);
        marketCache == old(marketCache)[symbol := info]
        && ema24 == EmaUpdate(old(ema24), symbol, mark)
        && openOrders == Uncrossed(old(openOrders), symbol, bestBid, bestAsk)
        && cumulativeFunding == old(cumulativeFunding) + payment
        && positions == FundedPositions(old(positions), symbol, info, ts)
        && fills == TickFills(config, old(openOrders), liquidated, old(positions), symbol, bestBid, bestAsk, liqClientId)
        && cumulativeFees == old(cumulativeFees) - (if liquidated then LiquidationFee(config.liqPenaltyBps, old(positions)[symbol].qty, mark) else 0.0)
      ensures cash == old(cash) && positionOrder == old(positionOrder) && tradeLog == old(tradeLog)
      ensures LedgerOf() == SyncedLedger(config, old(LedgerOf()), old(ema24), old(cumulativeFunding), symbol, bestBid, bestAsk, ts)
    {
      var mark := (bestBid + bestAsk) / 2.0;
      var fundingRate := FundingRate(config.fundingMode, ema24, symbol, mark);
      marketCache := marketCache[symbol := TickInfo(symbol, bestBid, bestAsk, fundingRate)];
      var crossed := TryFillLimits(symbol, bestBid, bestAsk);
      AccrueFunding(symbol, fundingRate, ts);
      var liq := CheckLiquidation(symbol, mark, liqClientId);
      UpdateEma(symbol, mark);
      fills := LimitFills(crossed) + (if liq.Some? then [liq.value] else []);
    }

    /** Runs the scheduled fills one after another. */
    method RunScheduledFills(fills: seq<(Order, real)>, now: int)
      requires Valid()
      modifies this
      ensures Valid()
      ensures LedgerOf() == FillAll(config, old(LedgerOf()), fills, now)
      ensures openOrders == old(openOrders) && cumulativeFunding == old(cumulativeFunding)
      ensures marketCache == old(marketCache) && ema24 == old(ema24)
    {
      ghost var start := LedgerOf();
      var i := 0;
      while i < |fills|
        invariant 0 <= i <= |fills|
        invariant Valid()
        invariant LedgerOf() == FillAll(config, start, fills[..i], now)
        invariant openOrders == old(openOrders) && cumulativeFunding == old(cumulativeFunding)
        invariant marketCache == old(marketCache) && ema24 == old(ema24)
      {
        FillAllStep(config, start, fills, i, now);
        ExecuteFill(fills[i].0, fills[i].1, now);
        i := i + 1;
      }
      assert fills[..i] == fills;
    }

    /**
     * One market tick (`on_market_data`): the synchronous part, then the
     * scheduled limit fills at their limit prices and the liquidation fill,
     * applied to the ledger the synchronous part left.
     */
    method OnMarketData(symbol: string, bestBid: real, bestAsk: real, ts: int, now: int, liqClientId: string)
      requires Valid()
      modifies this
      ensures Valid()
      ensures var mark := (bestBid + bestAsk) / 2.0;
        var info := TickInfo(symbol, bestBid, bestAsk, FundingRate(config.fundingMode, old(ema24), symbol, mark));
        var payment := FundingOnTick(old(positions), symbol, info, ts);
        var liquidated := LiquidatedOnTick(config, old(cash), old(positions), symbol, mark, old(cumulativeFunding) + payment);
        var fills := TickFills(config, old(openOrders), liquidated, old(positions), symbol, bestBid, bestAsk, liqClientId);
        marketCache == old(marketCache)[symbol := info]
        && ema24 == EmaUpdate(old(ema24), symbol, mark)
        && openOrders == Uncrossed(old(openOrders), symbol, bestBid, bestAsk)
        && cumulativeFunding == old(cumulativeFunding) + payment
        && LedgerOf() == FillAll(config, SyncedLedger(config, old(LedgerOf()), old(ema24), old(cumulativeFunding), symbol, bestBid, bestAsk, ts),
                                 fills, now)
    {
      var fills := ApplyTick(symbol, bestBid, bestAsk, ts, liqClientId);
      RunScheduledFills(fills, now);
    }
  }

  /**
   * The ledger after a tick's synchronous part: funding applied to the
   * symbol's position and, when the tick liquidates, the penalty charged to
   * the fee ledger; cash, the book order and the trade log are untouched.
   */
  ghost function SyncedLedger(cfg: PerpSimConfig, l: Ledger, ema24: map<string, real>, cumulativeFunding: real,
                              symbol: string, bestBid: real, bestAsk: real, ts: int): Ledger
  {
    var mark := (bestBid + bestAsk) / 2.0;
    var info := TickInfo(symbol, bestBid, bestAsk, FundingRate(cfg.fundingMode, ema24, symbol, mark));
    var payment := FundingOnTick(l.positions, symbol, info, ts);
    var liquidated := LiquidatedOnTick(cfg, l.cash, l.positions, symbol, mark, cumulativeFunding + payment);
    Ledger(l.cash, FundedPositions(l.positions, symbol, info, ts), l.positionOrder,
           l.cumulativeFees - (if liquidated then LiquidationFee(cfg.liqPenaltyBps, l.positions[symbol].qty, mark) else 0.0),
           l.tradeLog)
  }

  /** The positions after a tick's funding step. */
  function FundedPositions(positions: map<string, SimPosition>, symbol: string, info: MarketInfo, ts: int): (r: map<string, SimPosition>)
    ensures r.Keys == positions.Keys
    ensures forall s :: s in positions ==> r[s].qty == positions[s].qty && r[s].avgEntry == positions[s].avgEntry
    ensures forall s :: s in positions && s != symbol ==> r[s] == positions[s]
  {
    if symbol in positions then positions[symbol := Funding(positions[symbol], Some(info), info.funding8hRate, ts).pos] else positions
  }

  /**
   * The fills a tick schedules, in creation order: each crossed resting order
   * at its limit price, then the liquidation fill if the tick liquidates.
   */
  function TickFills(cfg: PerpSimConfig, orders: seq<SimOrder>, liquidated: bool, positions: map<string, SimPosition>,
                     symbol: string, bestBid: real, bestAsk: real, liqClientId: string): (fills: seq<(Order, real)>)
    requires liquidated ==> symbol in positions
    ensures var crossed := Crossed(orders, symbol, bestBid, bestAsk);
      |fills| == |crossed| + (if liquidated then 1 else 0)
      && (forall i :: 0 <= i < |crossed| ==> fills[i] == (LimitFillOrder(crossed[i]), crossed[i].limitPrice))
  {
    LimitFills(Crossed(orders, symbol, bestBid, bestAsk))
    + (if liquidated then [LiquidationFill(cfg, positions[symbol].qty, symbol, (bestBid + bestAsk) / 2.0, liqClientId)] else [])
  }

  /** The funding a tick accrues for `symbol` (nothing when there is no position). */
  function FundingOnTick(positions: map<string, SimPosition>, symbol: string, info: MarketInfo, ts: int): real {
    if symbol in positions then Funding(positions[symbol], Some(info), info.funding8hRate, ts).payment else 0.0
  }

  /** Whether a tick liquidates the position in `symbol`. */
  predicate LiquidatedOnTick(cfg: PerpSimConfig, cash: real, positions: map<string, SimPosition>, symbol: string,
                             mark: real, cumulativeFunding: real) {
    symbol in positions && Liquidates(cfg.mm, cash, positions[symbol], mark, cumulativeFunding)
  }

  /** The closing fill of a liquidation: the whole position, on the opposite side, at the penalised mark. */
  function LiquidationFill(cfg: PerpSimConfig, qty: real, symbol: string, mark: real, liqClientId: string): (fill: (Order, real))
    ensures qty != 0.0 ==> SignedQty(fill.0.side, fill.0.qty) == -qty
  {
    (LiquidationOrder(symbol, qty, liqClientId), LiquidationPrice(cfg.liqPenaltyBps, qty, mark))
  }

  /** The kept orders of a tick still have distinct ids. */
  lemma KeptUnique(orders: seq<SimOrder>, symbol: string, bestBid: real, bestAsk: real)
    requires UniqueIds(orders)
    ensures UniqueIds(Uncrossed(orders, symbol, bestBid, bestAsk))
  {
    UncrossedSubsequence(orders, symbol, bestBid, bestAsk);
  }

  /** The kept orders are a subsequence of the resting orders: each sits at an increasing position. */
  lemma {:induction false} UncrossedSubsequence(orders: seq<SimOrder>, symbol: string, bestBid: real, bestAsk: real)
    requires UniqueIds(orders)
    ensures UniqueIds(Uncrossed(orders, symbol, bestBid, bestAsk))
    ensures forall o :: o in Uncrossed(orders, symbol, bestBid, bestAsk) ==> o in orders
  {
    if |orders| > 0 {
      var init := orders[..|orders| - 1];
      var last := orders[|orders| - 1];
      assert UniqueIds(init);
      UncrossedSubsequence(init, symbol, bestBid, bestAsk);
      var rest := Uncrossed(init, symbol, bestBid, bestAsk);
      forall o | o in rest ensures o.clientId != last.clientId {
        var j :| 0 <= j < |init| && init[j] == o;
        assert orders[j] == o;
      }
    }
  }

}
