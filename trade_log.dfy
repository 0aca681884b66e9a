/**
 * The worker's trade log and position store (apps/worker/db.py): keyed
 * inserts into the trades, positions, equity-snapshot and metadata tables,
 * the realized-P&L fold and the completed-trades query.
 *
 * A table is a field of the `Database` class: trades in the order they are
 * read back (by timestamp), the other tables as maps keyed by their primary
 * key. The database clock `now()` is a parameter.
 */
module TradeLog {
  import opened Wrappers
  import opened Broker
  import opened Schemas
  import RoundTrips

  // ---------------------------------------------------------------------
  // trades: insert ... on conflict (client_id) do nothing
  // ---------------------------------------------------------------------

  predicate HasClientId(trades: seq<Trade>, clientId: string) {
    exists i :: 0 <= i < |trades| && trades[i].clientId == clientId
  }

  /** No two stored trades share a client id. */
  predicate UniqueClientIds(trades: seq<Trade>) {
    forall i, j :: 0 <= i < j < |trades| ==> trades[i].clientId != trades[j].clientId
  }

  /** The trades table after inserting `t`: unchanged when its client id is already stored. */
  function TradesAfterInsert(trades: seq<Trade>, t: Trade): (r: seq<Trade>)
    ensures HasClientId(r, t.clientId)
    ensures trades <= r && |r| <= |trades| + 1
    ensures HasClientId(trades, t.clientId) <==> r == trades
    ensures UniqueClientIds(trades) ==> UniqueClientIds(r)
  {
    if HasClientId(trades, t.clientId) then trades
    else
      assert (trades + [t])[|trades|] == t;
      trades + [t]
  }

  /** Inserting the same trade twice stores it once. */
  lemma InsertTradeIdempotent(trades: seq<Trade>, t: Trade)
    ensures TradesAfterInsert(TradesAfterInsert(trades, t), t) == TradesAfterInsert(trades, t)
  {
  }

  /** A second trade with a stored client id is dropped even if every other field differs. */
  lemma DuplicateClientIdIgnored(trades: seq<Trade>, t: Trade, u: Trade)
    requires u.clientId == t.clientId
    ensures TradesAfterInsert(TradesAfterInsert(trades, t), u) == TradesAfterInsert(trades, t)
  {
  }

  // ---------------------------------------------------------------------
  // positions: upsert_position
  // ---------------------------------------------------------------------

  /** A stored position row. */
  datatype PositionRow = PositionRow(
    qty: real,
    avgEntry: real,
    unrealizedPl: real,
    exitPlan: Option<ExitPlan>,
    leverage: real,
    entryTime: int,
    updatedAt: int)

  /** The values `upsert_position` is called with. */
  datatype PositionUpdate = PositionUpdate(
    qty: real,
    avgEntry: real,
    unrealizedPl: real,
    exitPlan: Option<ExitPlan>,
    leverage: real)

  function RowOf(u: PositionUpdate, entryTime: int, now: int): PositionRow {
    PositionRow(u.qty, u.avgEntry, u.unrealizedPl, u.exitPlan, u.leverage, entryTime, now)
  }

  /** The stored and the new quantity point in opposite directions. */
  predicate Flips(stored: real, qty: real) {
    (stored > 0.0 && qty < 0.0) || (stored < 0.0 && qty > 0.0)
  }

  /** No stored row is flat. */
  predicate NoFlatRows(rows: map<string, PositionRow>) {
    forall s :: s in rows ==> rows[s].qty != 0.0
  }

  /**
   * The positions table after `upsert_position(symbol, ...)` at time `now`:
   * a zero quantity deletes the row; otherwise the row takes the new values,
   * and its entry time is `now` for a new row or a change of direction and is
   * kept for a same-direction update.
   */
  function UpsertRow(rows: map<string, PositionRow>, symbol: string, u: PositionUpdate, now: int): (r: map<string, PositionRow>)
    ensures symbol in r <==> u.qty != 0.0
    ensures forall s :: s != symbol ==> (s in r <==> s in rows) && (s in r ==> r[s] == rows[s])
    ensures symbol in r ==>
      r[symbol].qty == u.qty && r[symbol].avgEntry == u.avgEntry
      && r[symbol].unrealizedPl == u.unrealizedPl && r[symbol].exitPlan == u.exitPlan
      && r[symbol].leverage == u.leverage && r[symbol].updatedAt == now
    ensures NoFlatRows(rows) ==> NoFlatRows(r)
  {
    if u.qty == 0.0 then rows - {symbol}
    else if symbol !in rows then rows[symbol := RowOf(u, now, now)]
    else if Flips(rows[symbol].qty, u.qty) then rows[symbol := RowOf(u, now, now)]
    else rows[symbol := RowOf(u, rows[symbol].entryTime, now)]
  }

  /** The updates of one symbol, with the time of each. */
  type History = seq<(PositionUpdate, int)>

  /** The rows after replaying a history of one symbol's updates. */
  function Replay(rows: map<string, PositionRow>, symbol: string, history: History): map<string, PositionRow> {
    if |history| == 0 then rows
    else
      var last := history[|history| - 1];
      UpsertRow(Replay(rows, symbol, history[..|history| - 1]), symbol, last.0, last.1)
  }

  /**
   * When the position's current direction began: the time of the first update
   * of the last run of non-zero same-direction updates, or `None` when the last
   * update closed it (or there was none).
   */
  function RunStart(history: History): Option<int> {
    if |history| == 0 then None
    else
      var last := history[|history| - 1];
      if last.0.qty == 0.0 then None
      else if |history| == 1 then Some(last.1)
      else
        var prev := history[|history| - 2].0.qty;
        if prev == 0.0 || Flips(prev, last.0.qty) then Some(last.1)
        else RunStart(history[..|history| - 1])
  }

  /**
   * Replaying a symbol's updates from no row leaves a row exactly when the
   * last update is non-zero, with the last quantity and the time its
   * current direction began as entry time.
   */
  lemma {:induction false} ReplayEntryTime(rows: map<string, PositionRow>, symbol: string, history: History)
    requires symbol !in rows
    ensures var r := Replay(rows, symbol, history);
      (symbol in r <==> RunStart(history).Some?)
      && (symbol in r ==> r[symbol].entryTime == RunStart(history).value
                          && r[symbol].qty == history[|history| - 1].0.qty)
  {
    if |history| > 1 {
      var prefix := history[..|history| - 1];
      ReplayEntryTime(rows, symbol, prefix);
      assert prefix[..|prefix| - 1] == history[..|history| - 2];
      assert prefix[|prefix| - 1] == history[|history| - 2];
    }
  }

  // ---------------------------------------------------------------------
  // equity_snapshots and metadata
  // ---------------------------------------------------------------------

  /** One row of equity_snapshots, keyed by its timestamp. */
  datatype EquityRow = EquityRow(equity: real, cash: real, unrealizedPl: real)

  // ---------------------------------------------------------------------
  // calculate_realized_pnl
  // ---------------------------------------------------------------------

  /** The running signed size and signed cost of one symbol. */
  datatype Basis = Basis(qty: real, cost: real)

  const NO_BASIS: Basis := Basis(0.0, 0.0)

  /** Average entry `cost / qty`, or 0 when flat. */
  function AverageOrZero(b: Basis): real {
    if b.qty != 0.0 then b.cost / b.qty else 0.0
  }

  /** What closing with signed quantity `q` at `price` realizes: the closed size times the move in the position's favour. */
  function CloseProfit(b: Basis, q: real, price: real): real {
    Min(Abs(q), Abs(b.qty)) * (price - AverageOrZero(b)) * (if b.qty > 0.0 then 1.0 else -1.0)
  }

  datatype BasisStep = BasisStep(next: Basis, realized: real)

  /** The step as written: the cost grows by `q * price` on every trade, closes included. */
  function BasisStepAsWritten(b: Basis, q: real, price: real): BasisStep {
    if b.qty * q < 0.0 then BasisStep(Basis(b.qty + q, b.cost + q * price), CloseProfit(b, q, price))
    else BasisStep(Basis(b.qty + q, b.cost + q * price), 0.0)
  }

  /**
   * The step with the cost kept consistent on a close: flat resets it, a
   * reversal reopens at `price`, a partial close scales it with the size.
   */
  function BasisStepCorrected(b: Basis, q: real, price: real): BasisStep {
    if b.qty * q < 0.0 then
      var n := b.qty + q;
      var next :=
        if n == 0.0 then NO_BASIS
        else if n * q > 0.0 then Basis(n, n * price)
        else Basis(n, b.cost * (n / b.qty));
      BasisStep(next, CloseProfit(b, q, price))
    else BasisStep(Basis(b.qty + q, b.cost + q * price), 0.0)
  }

  datatype CostRule = AsWritten | Corrected

  function BasisStepBy(rule: CostRule, b: Basis, q: real, price: real): BasisStep {
    if rule == AsWritten then BasisStepAsWritten(b, q, price) else BasisStepCorrected(b, q, price)
  }

  datatype RealizedState = RealizedState(bases: map<string, Basis>, realized: real)

  function BasisOf(bases: map<string, Basis>, symbol: string): Basis {
    if symbol in bases then bases[symbol] else NO_BASIS
  }

  /** The realized-P&L fold over the trades in order. */
  function RealizedFold(trades: seq<Trade>, rule: CostRule): RealizedState {
    if |trades| == 0 then RealizedState(map[], 0.0)
    else
      var before := RealizedFold(trades[..|trades| - 1], rule);
      var t := trades[|trades| - 1];
      var step := BasisStepBy(rule, BasisOf(before.bases, t.symbol), SignedQty(t.side, t.qty), t.price);
      RealizedState(before.bases[t.symbol := step.next], before.realized + step.realized)
  }

  /** Only a trade against the running position realizes anything, under either rule. */
  lemma StepRealizesOnlyOnClose(rule: CostRule, b: Basis, q: real, price: real)
    ensures b.qty * q >= 0.0 ==> BasisStepBy(rule, b, q, price).realized == 0.0
    ensures b.qty * q < 0.0 ==> BasisStepBy(rule, b, q, price).realized == CloseProfit(b, q, price)
    ensures BasisStepBy(rule, b, q, price).next.qty == b.qty + q
  {
  }

  /** With the cost kept consistent, a partial close leaves the average entry unchanged. */
  lemma CorrectedPartialCloseKeepsAverage(b: Basis, q: real, price: real)
    requires (b.qty > 0.0 && q < 0.0 && b.qty + q > 0.0) || (b.qty < 0.0 && q > 0.0 && b.qty + q < 0.0)
    ensures AverageOrZero(BasisStepCorrected(b, q, price).next) == AverageOrZero(b)
  {
    var n := b.qty + q;
    assert n != 0.0;
    assert b.qty * q < 0.0 by { if b.qty > 0.0 { assert b.qty * -q > 0.0; } else { assert -b.qty * q > 0.0; } }
    assert !(n * q > 0.0) by { if n > 0.0 { assert n * -q > 0.0; } else { assert -n * q > 0.0; } }
    var next := Basis(n, b.cost * (n / b.qty));
    assert BasisStepCorrected(b, q, price).next == next;
    assert AverageOrZero(next) == (b.cost * (n / b.qty)) / n;
    RoundTrips.ScaledCostKeepsAverage(b.cost, b.qty, n);
  }

  /** `(c1 + c2) * x` written as a sum, for the split-close proof. */
  lemma SumTimes(c1: real, c2: real, x: real)
    ensures (c1 + c2) * x == c1 * x + c2 * x
  {
  }

  /**
   * With the cost kept consistent, closing in two pieces at one price
   * realizes the same as closing both pieces at once.
   */
  lemma CorrectedSplitCloseSameRealized(b: Basis, q1: real, q2: real, price: real)
    requires (b.qty > 0.0 && q1 < 0.0 && q2 < 0.0 && b.qty + q1 + q2 >= 0.0)
          || (b.qty < 0.0 && q1 > 0.0 && q2 > 0.0 && b.qty + q1 + q2 <= 0.0)
    ensures var first := BasisStepCorrected(b, q1, price);
      BasisStepCorrected(b, q1 + q2, price).realized
        == first.realized + BasisStepCorrected(first.next, q2, price).realized
  {
    var n := b.qty + q1;
    var sign := if b.qty > 0.0 then 1.0 else -1.0;
    var move := price - AverageOrZero(b);
    assert b.qty * q1 < 0.0 && b.qty * (q1 + q2) < 0.0 by {
      if b.qty > 0.0 { assert b.qty * -q1 > 0.0; assert b.qty * -(q1 + q2) > 0.0; }
      else { assert -b.qty * q1 > 0.0; assert -b.qty * (q1 + q2) > 0.0; }
    }
    CorrectedPartialCloseKeepsAverage(b, q1, price);
    var first := BasisStepCorrected(b, q1, price);
    assert first.next.qty == n;
    assert n * q2 < 0.0 by { if n > 0.0 { assert n * -q2 > 0.0; } else { assert -n * q2 > 0.0; } }
    assert Min(Abs(q1), Abs(b.qty)) == Abs(q1);
    assert Min(Abs(q2), Abs(n)) == Abs(q2);
    assert Min(Abs(q1 + q2), Abs(b.qty)) == Abs(q1) + Abs(q2);
    assert (n > 0.0) == (b.qty > 0.0);
    assert first.realized == Abs(q1) * move * sign;
    assert BasisStepCorrected(first.next, q2, price).realized == Abs(q2) * move * sign;
    SumTimes(Abs(q1), Abs(q2), move * sign);
  }

  /** As written, closing 1 then 1 of a 2 @ 100 long at 110 realizes 30, not the 20 of closing 2 at once. */
  lemma SplitCloseAsWrittenCounterexample()
    ensures var first := BasisStepAsWritten(Basis(2.0, 200.0), -1.0, 110.0);
      first.realized + BasisStepAsWritten(first.next, -1.0, 110.0).realized == 30.0
    ensures BasisStepAsWritten(Basis(2.0, 200.0), -2.0, 110.0).realized == 20.0
  {
    var first := BasisStepAsWritten(Basis(2.0, 200.0), -1.0, 110.0);
    assert first.next == Basis(1.0, 90.0);
    assert AverageOrZero(first.next) == 90.0;
  }

  /** The same trades through the whole fold: buy 2 @ 100, sell 1 @ 110, sell 1 @ 110. */
  lemma RealizedAsWrittenCounterexample()
    ensures var trades := [Trade("BTC-USD", Side.Buy, 2.0, 100.0, 0.0, "a", 1),
                           Trade("BTC-USD", Side.Sell, 1.0, 110.0, 0.0, "b", 2),
                           Trade("BTC-USD", Side.Sell, 1.0, 110.0, 0.0, "c", 3)];
      RealizedFold(trades, AsWritten).realized == 30.0 && RealizedFold(trades, Corrected).realized == 20.0
  {
    var trades := [Trade("BTC-USD", Side.Buy, 2.0, 100.0, 0.0, "a", 1),
                   Trade("BTC-USD", Side.Sell, 1.0, 110.0, 0.0, "b", 2),
                   Trade("BTC-USD", Side.Sell, 1.0, 110.0, 0.0, "c", 3)];
    assert trades[..1] == [trades[0]] && trades[..2] == [trades[0], trades[1]];
    assert [trades[0], trades[1]][..1] == [trades[0]];
    assert [trades[0]][..0] == [];
    assert RealizedFold(trades[..1], AsWritten).bases["BTC-USD"] == Basis(2.0, 200.0);
    assert RealizedFold(trades[..2], AsWritten).bases["BTC-USD"] == Basis(1.0, 90.0);
    assert RealizedFold(trades[..2], AsWritten).realized == 10.0;
    assert RealizedFold(trades[..1], Corrected).bases["BTC-USD"] == Basis(2.0, 200.0);
    assert RealizedFold(trades[..2], Corrected).bases["BTC-USD"] == Basis(1.0, 100.0);
    assert RealizedFold(trades[..2], Corrected).realized == 10.0;
  }

  predicate AllBuys(trades: seq<Trade>) {
    forall i :: 0 <= i < |trades| ==> trades[i].side == Side.Buy && trades[i].qty >= 0.0
  }

  /** A log of buys only never realizes anything, under either rule, and every size stays long or flat. */
  lemma {:induction false} BuysRealizeNothing(trades: seq<Trade>, rule: CostRule)
    requires AllBuys(trades)
    ensures RealizedFold(trades, rule).realized == 0.0
    ensures forall s :: s in RealizedFold(trades, rule).bases ==> RealizedFold(trades, rule).bases[s].qty >= 0.0
  {
    if |trades| > 0 {
      var prefix := trades[..|trades| - 1];
      BuysRealizeNothing(prefix, rule);
      var before := RealizedFold(prefix, rule);
      var t := trades[|trades| - 1];
      var b := BasisOf(before.bases, t.symbol);
      assert b.qty >= 0.0;
      assert b.qty * t.qty >= 0.0;
      StepRealizesOnlyOnClose(rule, b, SignedQty(t.side, t.qty), t.price);
    }
  }

  // ---------------------------------------------------------------------
  // The store
  // ---------------------------------------------------------------------

  class Database {
    /** The trades table, in timestamp order. */
    var trades: seq<Trade>
    var positions: map<string, PositionRow>
    var equitySnapshots: map<int, EquityRow>
    /** Metadata values, each held as its JSON text. */
    var metadata: map<string, string>

    ghost predicate Valid()
      reads this
    {
      UniqueClientIds(trades) && NoFlatRows(positions)
    }

    constructor()
      ensures Valid()
      ensures trades == [] && positions == map[] && equitySnapshots == map[] && metadata == map[]
    {
      trades := [];
      positions := map[];
      equitySnapshots := map[];
      metadata := map[];
    }

    /** `insert_trade`: a trade whose client id is already stored is ignored. */
    method InsertTrade(t: Trade)
      requires Valid()
      modifies this
      ensures Valid()
      ensures trades == TradesAfterInsert(old(trades), t)
      ensures positions == old(positions) && equitySnapshots == old(equitySnapshots) && metadata == old(metadata)
    {
      trades := TradesAfterInsert(trades, t);
    }

    /** `upsert_position` at database time `now`. */
    method UpsertPosition(symbol: string, u: PositionUpdate, now: int)
      requires Valid()
      modifies this
      ensures Valid()
      ensures positions == UpsertRow(old(positions), symbol, u, now)
      ensures trades == old(trades) && equitySnapshots == old(equitySnapshots) && metadata == old(metadata)
    {
      if u.qty == 0.0 {
        positions := positions - {symbol};
      } else if symbol !in positions {
        positions := positions[symbol := RowOf(u, now, now)];
      } else if Flips(positions[symbol].qty, u.qty) {
        positions := positions[symbol := RowOf(u, now, now)];
      } else {
        positions := positions[symbol := RowOf(u, positions[symbol].entryTime, now)];
      }
    }

    /** `insert_equity_snapshot`: the last write for a timestamp wins. */
    method InsertEquitySnapshot(ts: int, row: EquityRow)
      requires Valid()
      modifies this
      ensures Valid()
      ensures equitySnapshots == old(equitySnapshots)[ts := row]
      ensures ts in equitySnapshots && equitySnapshots[ts] == row
      ensures trades == old(trades) && positions == old(positions) && metadata == old(metadata)
    {
      equitySnapshots := equitySnapshots[ts := row];
    }

    /** `get_metadata`: the stored value, or nothing for an unknown key. */
    function GetMetadata(key: string): (r: Option<string>)
      reads this
      ensures r.Some? <==> key in metadata
      ensures r.Some? ==> r.value == metadata[key]
    {
      if key in metadata then Some(metadata[key]) else None
    }

    /** `set_metadata`: the last write for a key wins and is what `get_metadata` returns. */
    method SetMetadata(key: string, value: string)
      requires Valid()
      modifies this
      ensures Valid()
      ensures metadata == old(metadata)[key := value]
      ensures GetMetadata(key) == Some(value)
      ensures forall k :: k != key ==> GetMetadata(k) == old(GetMetadata(k))
      ensures trades == old(trades) && positions == old(positions) && equitySnapshots == old(equitySnapshots)
    {
      metadata := metadata[key := value];
    }

    /** `calculate_realized_pnl`, with the cost kept consistent on closes. */
    method CalculateRealizedPnl() returns (realized: real)
      ensures realized == RealizedFold(trades, Corrected).realized
    {
      var bases: map<string, Basis> := map[];
      realized := 0.0;
      var i := 0;
      while i < |trades|
        invariant 0 <= i <= |trades|
        invariant RealizedFold(trades[..i], Corrected) == RealizedState(bases, realized)
      {
        var t := trades[i];
        var b := if t.symbol in bases then bases[t.symbol] else NO_BASIS;
        var step := BasisStepCorrected(b, SignedQty(t.side, t.qty), t.price);
        bases := bases[t.symbol := step.next];
        realized := realized + step.realized;
        assert trades[..i + 1][..i] == trades[..i];
        i := i + 1;
      }
      assert trades[..i] == trades;
    }

    /** `get_completed_trades(limit)`: the `limit` most recent round trips, newest first. */
    method GetCompletedTrades(limit: nat) returns (r: seq<RoundTrips.CompletedTrade>)
      requires RoundTrips.TradesOk(trades)
      ensures r == RoundTrips.NewestFirst(RoundTrips.RoundTrip(trades).completed, limit)
    {
      var completed := RoundTrips.CompletedTrades(trades);
      r := RoundTrips.NewestFirst(completed, limit);
    }
  }
}
