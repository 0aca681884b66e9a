/**
 * Round-trip reconstruction over the trade log: the per-symbol lot that
 * `get_completed_trades` (apps/worker/db.py and apps/api/main.py) and
 * `get_performance_stats` (apps/api/main.py) fold the trades through, and the
 * completed-trade record each closing or reversing trade emits.
 *
 * Trades are taken in timestamp order; timestamps are integer seconds.
 */
module RoundTrips {
  import opened Wrappers
  import opened Broker
  import opened Schemas

  /** A remainder below this is treated as flat. */
  const FLAT_EPSILON: real := 0.000001

  /** The running position of one symbol: signed size, signed cost, when it was opened, the fees it carries. */
  datatype Lot = Lot(qty: real, cost: real, entryTime: Option<int>, fees: real)

  const FLAT: Lot := Lot(0.0, 0.0, None, 0.0)

  datatype Direction = Long | Short

  /** One closed (part of a) position. */
  datatype CompletedTrade = CompletedTrade(
    symbol: string,
    direction: Direction,
    entryTime: Option<int>,
    exitTime: int,
    entryPrice: real,
    exitPrice: real,
    qty: real,
    entryNotional: real,
    exitNotional: real,
    holdingSeconds: int,
    grossPnl: real,
    fees: real,
    netPnl: real)

  /** The trades the log can hold: every fill has a positive size. */
  predicate TradesOk(trades: seq<Trade>) {
    forall i :: 0 <= i < |trades| ==> trades[i].qty > 0.0
  }

  /** A flat lot is exactly `FLAT`; an open one knows when it was opened. */
  predicate LotOk(lot: Lot) {
    (lot.qty == 0.0 ==> lot == FLAT) && (lot.qty != 0.0 ==> lot.entryTime.Some?)
  }

  /** Signed cost per unit of an open lot. */
  function AverageEntry(lot: Lot): real
    requires lot.qty != 0.0
  {
    lot.cost / lot.qty
  }

  datatype LotStepResult = LotStepResult(next: Lot, record: Option<CompletedTrade>)

  /** The record of closing `closeQty` of `lot` with trade `t`. */
  function CloseRecord(lot: Lot, t: Trade, closeQty: real): (c: CompletedTrade)
    requires lot.qty != 0.0 && t.qty > 0.0
  {
    var avg := lot.cost / lot.qty;
    var gross := if lot.qty > 0.0 then closeQty * (t.price - avg) else closeQty * (avg - t.price);
    var fees := lot.fees * (closeQty / Abs(lot.qty)) + t.fee * (closeQty / t.qty);
    CompletedTrade(
      t.symbol,
      if lot.qty > 0.0 then Long else Short,
      lot.entryTime,
      t.ts,
      Abs(avg),
      t.price,
      closeQty,
      closeQty * Abs(avg),
      closeQty * t.price,
      if lot.entryTime.Some? then t.ts - lot.entryTime.value else 0,
      gross,
      fees,
      gross - fees)
  }

  /**
   * What is left of `lot` after trade `t` closes against it: flat, reversed
   * into a new lot opened at the trade price, or the same lot scaled down.
   */
  function ClosedLot(lot: Lot, t: Trade): Lot
    requires lot.qty != 0.0 && t.qty > 0.0
  {
    var s := SignedQty(t.side, t.qty);
    var ratio := Min(t.qty, Abs(lot.qty)) / Abs(lot.qty);
    var q := lot.qty + s;
    if Abs(q) < FLAT_EPSILON then FLAT
    else if q * s > 0.0 then Lot(q, q * t.price, Some(t.ts), t.fee * (Abs(q) / t.qty))
    else Lot(q, lot.cost * (1.0 - ratio), lot.entryTime, lot.fees * (1.0 - ratio))
  }

  /**
   * One trade folded into its symbol's lot: opening from flat, adding in the
   * same direction, or closing (part of) the lot, which emits a record.
   */
  function LotStep(lot: Lot, t: Trade): LotStepResult
    requires t.qty > 0.0
  {
    var s := SignedQty(t.side, t.qty);
    if lot.qty == 0.0 then
      LotStepResult(Lot(s, s * t.price, Some(t.ts), t.fee), None)
    else if lot.qty * s > 0.0 then
      LotStepResult(Lot(lot.qty + s, lot.cost + s * t.price, lot.entryTime, lot.fees + t.fee), None)
    else
      LotStepResult(ClosedLot(lot, t), Some(CloseRecord(lot, t, Min(t.qty, Abs(lot.qty)))))
  }

  /** The sign of a product from the signs of its factors. */
  lemma ProductSign(a: real, b: real)
    ensures a * b > 0.0 <==> (a > 0.0 && b > 0.0) || (a < 0.0 && b < 0.0)
    ensures a * b < 0.0 <==> (a > 0.0 && b < 0.0) || (a < 0.0 && b > 0.0)
  {
    if a > 0.0 && b < 0.0 { assert a * b == -(a * -b); }
    if a < 0.0 && b > 0.0 { assert a * b == -(-a * b); }
    if a < 0.0 && b < 0.0 { assert a * b == -a * -b; }
  }

  /** A record is emitted exactly for a trade against an open lot in the opposite direction. */
  lemma LotStepRecordWhen(lot: Lot, t: Trade)
    requires t.qty > 0.0
    ensures LotStep(lot, t).record.Some? <==> lot.qty != 0.0 && lot.qty * SignedQty(t.side, t.qty) < 0.0
  {
    ProductSign(lot.qty, SignedQty(t.side, t.qty));
  }

  /**
   * A record closes min(|trade|, |lot|), in the lot's direction, from the
   * lot's entry to the trade; its net P&L is the gross less the fees
   * pro-rated from the lot and from the closing trade.
   */
  lemma LotStepRecord(lot: Lot, t: Trade)
    requires t.qty > 0.0
    requires LotStep(lot, t).record.Some?
    ensures var c := LotStep(lot, t).record.value;
      c.qty == Min(t.qty, Abs(lot.qty)) && c.qty > 0.0
      && c.symbol == t.symbol && c.exitTime == t.ts && c.exitPrice == t.price && c.entryTime == lot.entryTime
      && (c.direction == Long <==> lot.qty > 0.0)
      && c.fees == lot.fees * (c.qty / Abs(lot.qty)) + t.fee * (c.qty / t.qty)
      && c.netPnl == c.grossPnl - c.fees
      && c.entryPrice >= 0.0 && c.entryNotional == c.qty * c.entryPrice && c.entryNotional >= 0.0
  {
    LotStepCloses(lot, t);
    CloseRecordFacts(lot, t, Min(t.qty, Abs(lot.qty)));
  }

  /** A step that emits a record closes against an open lot, and the record is `CloseRecord`. */
  lemma LotStepCloses(lot: Lot, t: Trade)
    requires t.qty > 0.0
    requires LotStep(lot, t).record.Some?
    ensures lot.qty != 0.0 && LotStep(lot, t).record == Some(CloseRecord(lot, t, Min(t.qty, Abs(lot.qty))))
  {
  }

  /** The fields of a close record that do not depend on the direction of the move. */
  lemma CloseRecordFacts(lot: Lot, t: Trade, closeQty: real)
    requires lot.qty != 0.0 && t.qty > 0.0 && closeQty > 0.0
    ensures var c := CloseRecord(lot, t, closeQty);
      c.qty == closeQty && c.symbol == t.symbol && c.exitTime == t.ts && c.exitPrice == t.price
      && c.entryTime == lot.entryTime && (c.direction == Long <==> lot.qty > 0.0)
      && c.fees == lot.fees * (closeQty / Abs(lot.qty)) + t.fee * (closeQty / t.qty)
      && c.netPnl == c.grossPnl - c.fees
      && c.entryPrice >= 0.0 && c.entryNotional == closeQty * c.entryPrice && c.entryNotional >= 0.0
  {
    var c := CloseRecord(lot, t, closeQty);
    PositiveProductOf(closeQty, c.entryPrice);
  }

  lemma PositiveProductOf(a: real, b: real)
    requires a > 0.0 && b >= 0.0
    ensures a * b >= 0.0
  {
  }

  /** Adding in the same direction makes the average entry the size-weighted mean of the old average and the fill price. */
  lemma AddingWeightsAverage(lot: Lot, t: Trade)
    requires t.qty > 0.0 && lot.qty * SignedQty(t.side, t.qty) > 0.0
    ensures LotStep(lot, t).next.qty == lot.qty + SignedQty(t.side, t.qty)
    ensures LotStep(lot, t).next.qty != 0.0 && (LotStep(lot, t).next.qty > 0.0 <==> lot.qty > 0.0)
    ensures (lot.qty + SignedQty(t.side, t.qty)) * AverageEntry(LotStep(lot, t).next)
         == lot.qty * AverageEntry(lot) + SignedQty(t.side, t.qty) * t.price
    ensures LotStep(lot, t).next.entryTime == lot.entryTime && LotStep(lot, t).next.fees == lot.fees + t.fee
  {
    var s := SignedQty(t.side, t.qty);
    ProductSign(lot.qty, s);
    var q := lot.qty + s;
    var n := LotStep(lot, t).next;
    assert n == Lot(q, lot.cost + s * t.price, lot.entryTime, lot.fees + t.fee);
    assert lot.qty * AverageEntry(lot) == lot.cost;
    assert q * AverageEntry(n) == n.cost;
  }

  /** Scaling a cost by the fraction of the size kept keeps cost per unit. */
  lemma ScaledCostKeepsAverage(cost: real, qty: real, q: real)
    requires qty != 0.0 && q != 0.0
    ensures (cost * (q / qty)) / q == cost / qty
  {
    assert cost * (q / qty) == (cost / qty) * q;
  }

  /** What is left after closing `closeQty` of a lot, as a fraction of the lot. */
  lemma RemainingFraction(qty: real, closeQty: real, q: real)
    requires qty != 0.0 && closeQty > 0.0
    requires (qty > 0.0 && q == qty - closeQty) || (qty < 0.0 && q == qty + closeQty)
    ensures 1.0 - closeQty / Abs(qty) == q / qty
  {
    assert qty / qty == 1.0;
    if qty > 0.0 {
      assert q / qty == qty / qty - closeQty / qty;
    } else {
      assert closeQty / Abs(qty) == -(closeQty / qty);
      assert q / qty == qty / qty + closeQty / qty;
    }
  }

  /** Closing less than the whole lot scales its cost and fees by the fraction kept. */
  lemma ClosedLotScales(lot: Lot, t: Trade)
    requires t.qty > 0.0 && lot.qty != 0.0 && (lot.qty > 0.0 <==> t.side == Side.Sell)
    requires t.qty < Abs(lot.qty)
    requires Abs(lot.qty + SignedQty(t.side, t.qty)) >= FLAT_EPSILON
    ensures var q := lot.qty + SignedQty(t.side, t.qty);
      ClosedLot(lot, t) == Lot(q, lot.cost * (q / lot.qty), lot.entryTime, lot.fees * (q / lot.qty))
  {
    var s := SignedQty(t.side, t.qty);
    var q := lot.qty + s;
    assert Min(t.qty, Abs(lot.qty)) == t.qty;
    RemainingFraction(lot.qty, t.qty, q);
    assert !(q * s > 0.0) by { ProductSign(q, s); }
  }

  /** A partial close leaves the average entry, the direction and the entry time unchanged. */
  lemma PartialCloseKeepsAverage(lot: Lot, t: Trade)
    requires t.qty > 0.0 && lot.qty != 0.0
    requires lot.qty * SignedQty(t.side, t.qty) < 0.0
    requires t.qty < Abs(lot.qty)
    requires Abs(lot.qty + SignedQty(t.side, t.qty)) >= FLAT_EPSILON
    ensures LotStep(lot, t).next.qty == lot.qty + SignedQty(t.side, t.qty)
    ensures LotStep(lot, t).next.qty != 0.0 && (LotStep(lot, t).next.qty > 0.0 <==> lot.qty > 0.0)
    ensures AverageEntry(LotStep(lot, t).next) == AverageEntry(lot)
    ensures LotStep(lot, t).next.entryTime == lot.entryTime
  {
    var s := SignedQty(t.side, t.qty);
    var q := lot.qty + s;
    ProductSign(lot.qty, s);
    assert LotStep(lot, t).next == ClosedLot(lot, t);
    ClosedLotScales(lot, t);
    ClosedLotKeepsAverage(lot, t);
  }

  lemma ClosedLotKeepsAverage(lot: Lot, t: Trade)
    requires t.qty > 0.0 && lot.qty != 0.0 && (lot.qty > 0.0 <==> t.side == Side.Sell)
    requires t.qty < Abs(lot.qty)
    requires Abs(lot.qty + SignedQty(t.side, t.qty)) >= FLAT_EPSILON
    ensures ClosedLot(lot, t).qty != 0.0 && AverageEntry(ClosedLot(lot, t)) == AverageEntry(lot)
  {
    var q := lot.qty + SignedQty(t.side, t.qty);
    ClosedLotScales(lot, t);
    ScaledCostKeepsAverage(lot.cost, lot.qty, q);
  }


  /**
   * A reversal opens the leftover in the trade's direction at the trade
   * price, stamped with the trade's time and carrying the trade's fee pro-rated
   * to the leftover.
   */
  lemma ReversalRestartsAtPrice(lot: Lot, t: Trade)
    requires t.qty > 0.0 && lot.qty != 0.0
    requires lot.qty * SignedQty(t.side, t.qty) < 0.0
    requires t.qty > Abs(lot.qty) + FLAT_EPSILON
    ensures var n := LotStep(lot, t).next;
      n.qty == lot.qty + SignedQty(t.side, t.qty)
      && Abs(n.qty) == t.qty - Abs(lot.qty)
      && n.cost / n.qty == t.price
      && n.entryTime == Some(t.ts)
      && n.fees == t.fee * ((t.qty - Abs(lot.qty)) / t.qty)
  {
    var s := SignedQty(t.side, t.qty);
    var q := lot.qty + s;
    if lot.qty > 0.0 {
      assert s == -t.qty;
      assert q < 0.0;
    } else {
      assert s == t.qty;
      assert q > 0.0;
    }
    assert q * s > 0.0;
  }

  /** A close leaving less than the flat threshold resets the lot. */
  lemma FullCloseGoesFlat(lot: Lot, t: Trade)
    requires t.qty > 0.0 && lot.qty != 0.0
    requires lot.qty * SignedQty(t.side, t.qty) < 0.0
    requires Abs(lot.qty + SignedQty(t.side, t.qty)) < FLAT_EPSILON
    ensures LotStep(lot, t).next == FLAT
  {
  }

  /** Every step keeps a lot well formed. */
  lemma LotStepKeepsLotOk(lot: Lot, t: Trade)
    requires t.qty > 0.0 && LotOk(lot)
    ensures LotOk(LotStep(lot, t).next)
    ensures LotStep(lot, t).record.Some? ==> LotStep(lot, t).record.value.entryTime.Some?
  {
    var s := SignedQty(t.side, t.qty);
    if lot.qty != 0.0 && lot.qty * s > 0.0 {
      assert lot.qty + s != 0.0 by {
        if lot.qty > 0.0 { assert s > 0.0; } else { assert s < 0.0; }
      }
    }
  }

  /** The lot a symbol is at before a trade: its entry, or flat when never traded. */
  function LotOf(lots: map<string, Lot>, symbol: string): Lot {
    if symbol in lots then lots[symbol] else FLAT
  }

  /** The state of the fold after some trades: the lots by symbol and the records emitted so far. */
  datatype FoldState = FoldState(lots: map<string, Lot>, completed: seq<CompletedTrade>)

  /** The fold over the trades in order. */
  function RoundTrip(trades: seq<Trade>): FoldState
    requires TradesOk(trades)
  {
    if |trades| == 0 then FoldState(map[], [])
    else
      var before := RoundTrip(trades[..|trades| - 1]);
      var t := trades[|trades| - 1];
      var step := LotStep(LotOf(before.lots, t.symbol), t);
      FoldState(before.lots[t.symbol := step.next],
                before.completed + (if step.record.Some? then [step.record.value] else []))
  }

  predicate AllLotsOk(lots: map<string, Lot>) {
    forall s :: s in lots ==> LotOk(lots[s])
  }

  /** Every record of a completed trade closes a positive quantity of a lot with a known entry time. */
  predicate RecordsOk(completed: seq<CompletedTrade>) {
    forall i :: 0 <= i < |completed| ==>
      completed[i].qty > 0.0 && completed[i].entryTime.Some? && completed[i].entryNotional >= 0.0
      && completed[i].holdingSeconds == completed[i].exitTime - completed[i].entryTime.value
  }

  /**
   * At most one record per trade, every lot stays well formed, and every
   * record has an entry time, a holding time measured from it and a
   * positive quantity.
   */
  lemma {:induction false} RoundTripInvariant(trades: seq<Trade>)
    requires TradesOk(trades)
    ensures |RoundTrip(trades).completed| <= |trades|
    ensures AllLotsOk(RoundTrip(trades).lots)
    ensures RecordsOk(RoundTrip(trades).completed)
  {
    if |trades| > 0 {
      var prefix := trades[..|trades| - 1];
      RoundTripInvariant(prefix);
      var before := RoundTrip(prefix);
      var t := trades[|trades| - 1];
      LotStepKeepsLotOk(LotOf(before.lots, t.symbol), t);
      if LotStep(LotOf(before.lots, t.symbol), t).record.Some? {
        LotStepRecord(LotOf(before.lots, t.symbol), t);
      }
    }
  }

  /** Only the traded symbol's lot changes, and records are only ever appended. */
  lemma RoundTripStep(trades: seq<Trade>, t: Trade)
    requires TradesOk(trades) && t.qty > 0.0
    ensures TradesOk(trades + [t])
    ensures var after := RoundTrip(trades + [t]);
      var before := RoundTrip(trades);
      (forall s :: s in before.lots && s != t.symbol ==> s in after.lots && after.lots[s] == before.lots[s])
      && before.completed <= after.completed
      && |after.completed| <= |before.completed| + 1
  {
    assert (trades + [t])[..|trades|] == trades;
  }

  /**
   * `get_completed_trades`' loop: the trades in order through the per-symbol
   * lots, collecting the completed-trade records oldest first.
   */
  method CompletedTrades(trades: seq<Trade>) returns (completed: seq<CompletedTrade>)
    requires TradesOk(trades)
    ensures completed == RoundTrip(trades).completed
  {
    var lots: map<string, Lot> := map[];
    completed := [];
    var i := 0;
    while i < |trades|
      invariant 0 <= i <= |trades|
      invariant RoundTrip(trades[..i]) == FoldState(lots, completed)
    {
      var t := trades[i];
      var lot := if t.symbol in lots then lots[t.symbol] else FLAT;
      var step := LotStep(lot, t);
      if step.record.Some? {
        completed := completed + [step.record.value];
      }
      lots := lots[t.symbol := step.next];
      assert trades[..i + 1][..i] == trades[..i];
      i := i + 1;
    }
    assert trades[..i] == trades;
  }

  // ---------------------------------------------------------------------
  // Newest first, bounded by a limit
  // ---------------------------------------------------------------------

  function Reverse<T>(xs: seq<T>): (r: seq<T>)
    ensures |r| == |xs| && forall i :: 0 <= i < |xs| ==> r[i] == xs[|xs| - 1 - i]
  {
    if |xs| == 0 then [] else [xs[|xs| - 1]] + Reverse(xs[..|xs| - 1])
  }

  /** Python's `xs[-k:]`: the last `k` elements for `k > 0`, all of them for `k == 0`, all but the first `-k` for `k < 0`. */
  function PyTailFrom<T>(xs: seq<T>, k: int): (r: seq<T>)
    ensures k > 0 ==> r == xs[if k >= |xs| then 0 else |xs| - k..]
    ensures k == 0 ==> r == xs
  {
    if k > 0 then xs[if k >= |xs| then 0 else |xs| - k..]
    else if k == 0 then xs
    else xs[if -k >= |xs| then |xs| else -k..]
  }

  /** `list(reversed(completed))[-limit:]`, as the source writes it. */
  function NewestFirstAsWritten<T>(completed: seq<T>, limit: int): seq<T> {
    PyTailFrom(Reverse(completed), limit)
  }

  /**
   * As written, a positive limit keeps the OLDEST `limit` records (newest of
   * them first), and a limit of 0 keeps everything.
   */
  lemma NewestFirstAsWrittenKeepsOldest<T>(completed: seq<T>, limit: int)
    requires limit >= 0
    ensures var r := NewestFirstAsWritten(completed, limit);
      |r| == (if limit == 0 || limit >= |completed| then |completed| else limit)
      && forall i :: 0 <= i < |r| ==> r[i] == completed[|r| - 1 - i]
  {
  }

  /** Three records and a limit of 1: the oldest comes back, not the newest. */
  lemma NewestFirstAsWrittenCounterexample()
    ensures NewestFirstAsWritten([1, 2, 3], 1) == [1]
    ensures NewestFirst([1, 2, 3], 1) == [3]
  {
    assert Reverse([1, 2, 3]) == [3, 2, 1];
  }

  /** The `limit` most recent records, newest first. */
  function NewestFirst<T>(completed: seq<T>, limit: nat): (r: seq<T>)
    ensures |r| == (if limit < |completed| then limit else |completed|)
    ensures forall i :: 0 <= i < |r| ==> r[i] == completed[|completed| - 1 - i]
  {
    var reversed := Reverse(completed);
    reversed[..if limit < |reversed| then limit else |reversed|]
  }
}
