/**
 * The agent loop's client-id bookkeeping and the arithmetic it uses to
 * describe the account to the decision-making client
 * (apps/worker/main.py).
 *
 * The loop keeps four structures: the ids the adapter currently holds
 * (`used_client_ids`), for every id the client proposed the list of ids it
 * was actually placed under (`client_id_aliases`), the reverse map
 * (`actual_to_original`), and the renames of the current request that are
 * not yet placed (`pending_aliases`, a dictionary in insertion order).
 */
module Worker {
  import opened Wrappers
  import opened Broker
  import opened Schemas
  import PerpSim

  // ---------------------------------------------------------------------------
  // Insertion-ordered string dictionaries (actual id -> original id)
  // ---------------------------------------------------------------------------

  /** The position of `key` in an insertion-ordered dictionary, or -1. */
  function KeyIndex(entries: seq<(string, string)>, key: string): (i: int)
    ensures -1 <= i < |entries|
    ensures i >= 0 ==> entries[i].0 == key
    ensures i < 0 ==> forall j :: 0 <= j < |entries| ==> entries[j].0 != key
  {
    if |entries| == 0 then -1
    else if entries[|entries| - 1].0 == key then |entries| - 1
    else KeyIndex(entries[..|entries| - 1], key)
  }

  /** `d.pop(key, None)`: the dictionary without `key`, the other entries in their order. */
  function RemoveKey(entries: seq<(string, string)>, key: string): (r: seq<(string, string)>)
    ensures forall e :: e in r <==> e in entries && e.0 != key
    ensures |r| <= |entries|
  {
    if |entries| == 0 then []
    else (if entries[0].0 == key then [] else [entries[0]]) + RemoveKey(entries[1..], key)
  }

  /** Removing a key keeps the keys distinct. */
  lemma {:induction false} RemoveKeyKeepsDistinct(entries: seq<(string, string)>, key: string)
    requires DistinctKeys(entries)
    ensures DistinctKeys(RemoveKey(entries, key))
  {
    if |entries| > 0 {
      RemoveKeyKeepsDistinct(entries[1..], key);
      var rest := RemoveKey(entries[1..], key);
      if entries[0].0 != key {
        var r := [entries[0]] + rest;
        forall j, k | 0 <= j < k < |r| ensures r[j].0 != r[k].0 {
          if j == 0 {
            assert r[k] in entries[1..];
          }
        }
      }
    }
  }

  /** Removing a key the dictionary does not hold changes nothing. */
  lemma {:induction false} RemoveAbsentKey(entries: seq<(string, string)>, key: string)
    requires forall j :: 0 <= j < |entries| ==> entries[j].0 != key
    ensures RemoveKey(entries, key) == entries
  {
    if |entries| > 0 {
      RemoveAbsentKey(entries[1..], key);
      assert [entries[0]] + entries[1..] == entries;
    }
  }

  /** The position of the most recently added entry whose value is `original`, or -1. */
  function NewestPendingFor(entries: seq<(string, string)>, original: string): (i: int)
    ensures -1 <= i < |entries|
    ensures i >= 0 ==> entries[i].1 == original
    ensures forall j :: i < j < |entries| ==> entries[j].1 != original
  {
    if |entries| == 0 then -1
    else if entries[|entries| - 1].1 == original then |entries| - 1
    else NewestPendingFor(entries[..|entries| - 1], original)
  }

  /** `xs.remove(x)`: drops the first occurrence of `x`. */
  function RemoveFirst(xs: seq<string>, x: string): (r: seq<string>)
    ensures x in xs ==> |r| == |xs| - 1
    ensures x !in xs ==> r == xs
    ensures forall y :: y in r ==> y in xs
    ensures forall y :: y in xs && y != x ==> y in r
  {
    if |xs| == 0 then []
    else if xs[0] == x then xs[1..]
    else [xs[0]] + RemoveFirst(xs[1..], x)
  }

  lemma {:induction false} RemoveFirstAppended(xs: seq<string>, x: string)
    requires x !in xs
    ensures RemoveFirst(xs + [x], x) == xs
  {
    if |xs| == 0 {
      assert xs + [x] == [x];
    } else {
      assert (xs + [x])[1..] == xs[1..] + [x];
      RemoveFirstAppended(xs[1..], x);
      assert [xs[0]] + xs[1..] == xs;
    }
  }

  // ---------------------------------------------------------------------------
  // The bookkeeping as a value, and its operations
  // ---------------------------------------------------------------------------

  datatype AliasBook = AliasBook(
    used: set<string>,
    aliases: map<string, seq<string>>,
    actualToOriginal: map<string, string>,
    pending: seq<(string, string)>)

  /** The original id an `actual` id stands for when it is registered. */
  function OriginalOf(b: AliasBook, actual: string): (original: string)
    ensures KeyIndex(b.pending, actual) >= 0 ==> original == b.pending[KeyIndex(b.pending, actual)].1
    ensures KeyIndex(b.pending, actual) < 0 && actual !in b.actualToOriginal ==> original == actual
  {
    var k := KeyIndex(b.pending, actual);
    if k >= 0 then b.pending[k].1
    else if actual in b.actualToOriginal then b.actualToOriginal[actual]
    else actual
  }

  /** The alias list of `original`, empty when there is none (`setdefault(original, [])`). */
  function AliasesOf(b: AliasBook, original: string): seq<string> {
    if original in b.aliases then b.aliases[original] else []
  }

  /** `_register_client_id`: the bookkeeping after a successful placement under `actual`. */
  function Register(b: AliasBook, actual: string): AliasBook
  {
    var original := OriginalOf(b, actual);
    var list := AliasesOf(b, original);
    AliasBook(
      b.used + {actual},
      b.aliases[original := if actual in list then list else list + [actual]],
      b.actualToOriginal[actual := original],
      RemoveKey(b.pending, actual))
  }

  /**
   * `_release_client_id`: the bookkeeping after a cancel or a failed
   * placement. The alias list is only touched when the recorded original is
   * a non-empty string (the source tests it for truth).
   */
  function Release(b: AliasBook, actual: string): AliasBook
  {
    var pending := RemoveKey(b.pending, actual);
    var used := b.used - {actual};
    if actual in b.actualToOriginal then
      var original := b.actualToOriginal[actual];
      var a2o := b.actualToOriginal - {actual};
      if original != "" && original in b.aliases && actual in b.aliases[original] then
        var rest := RemoveFirst(b.aliases[original], actual);
        AliasBook(used, if rest == [] then b.aliases - {original} else b.aliases[original := rest], a2o, pending)
      else
        AliasBook(used, b.aliases, a2o, pending)
    else
      AliasBook(used, b.aliases, b.actualToOriginal, pending)
  }

  /**
   * Registering makes the id active, maps it to its original (the pending
   * rename's original, else the one already recorded, else itself) and
   * consumes the pending rename.
   */
  lemma RegisterEffect(b: AliasBook, actual: string)
    ensures Register(b, actual).used == b.used + {actual}
    ensures Register(b, actual).actualToOriginal == b.actualToOriginal[actual := OriginalOf(b, actual)]
    ensures Register(b, actual).pending == RemoveKey(b.pending, actual)
  {
  }

  /**
   * Registering appends the id at most once to its original's alias list and
   * leaves the other lists alone.
   */
  lemma RegisterAliases(b: AliasBook, actual: string)
    ensures var r := Register(b, actual); var original := OriginalOf(b, actual);
      original in r.aliases && actual in r.aliases[original]
      && (forall y :: y in r.aliases[original] <==> y in AliasesOf(b, original) || y == actual)
      && |r.aliases[original]| <= |AliasesOf(b, original)| + 1
      && r.aliases.Keys == b.aliases.Keys + {original}
      && (forall o :: o in b.aliases && o != original ==> r.aliases[o] == b.aliases[o])
  {
    var original := OriginalOf(b, actual);
    var list := AliasesOf(b, original);
    var newList := if actual in list then list else list + [actual];
    assert Register(b, actual).aliases == b.aliases[original := newList];
  }

  /** Releasing makes the id inactive, forgets its original and consumes its pending rename. */
  lemma ReleaseEffect(b: AliasBook, actual: string)
    ensures Release(b, actual).used == b.used - {actual}
    ensures Release(b, actual).actualToOriginal == b.actualToOriginal - {actual}
    ensures Release(b, actual).pending == RemoveKey(b.pending, actual)
  {
  }

  /**
   * Releasing takes the id off its original's alias list and drops a list it
   * empties; every other list is unchanged.
   */
  lemma ReleaseAliases(b: AliasBook, actual: string)
    ensures var r := Release(b, actual);
      (forall o :: o in r.aliases ==> o in b.aliases)
      && (forall o :: o in b.aliases && actual !in b.aliases[o] ==> o in r.aliases && r.aliases[o] == b.aliases[o])
      && (forall o :: o in r.aliases && o in b.aliases && r.aliases[o] != b.aliases[o] ==>
            actual in b.aliases[o] && r.aliases[o] == RemoveFirst(b.aliases[o], actual))
      && ((forall o :: o in b.aliases ==> b.aliases[o] != []) ==> forall o :: o in r.aliases ==> r.aliases[o] != [])
  {
    var r := Release(b, actual);
    if actual in b.actualToOriginal {
      var original := b.actualToOriginal[actual];
      if original != "" && original in b.aliases && actual in b.aliases[original] {
        var rest := RemoveFirst(b.aliases[original], actual);
        if rest == [] {
          assert r.aliases == b.aliases - {original};
        } else {
          assert r.aliases == b.aliases[original := rest];
        }
      } else {
        assert r.aliases == b.aliases;
      }
    } else {
      assert r.aliases == b.aliases;
    }
  }

  /** `_resolve_client_id`: the id a cancellation is sent under. */
  function Resolve(b: AliasBook, id: string): (r: string)
    ensures id == "" || id in b.actualToOriginal || id in b.used ==> r == id
    ensures id != "" && id !in b.actualToOriginal && id !in b.used && id in b.aliases && b.aliases[id] != [] ==>
      r == b.aliases[id][|b.aliases[id]| - 1]
    ensures id != "" && id !in b.actualToOriginal && id !in b.used && AliasesOf(b, id) == [] ==>
      var k := NewestPendingFor(b.pending, id);
      (k >= 0 ==> r == b.pending[k].0) && (k < 0 ==> r == id)
  {
    if id == "" then id
    else if id in b.actualToOriginal || id in b.used then id
    else if id in b.aliases && b.aliases[id] != [] then b.aliases[id][|b.aliases[id]| - 1]
    else
      var k := NewestPendingFor(b.pending, id);
      if k >= 0 then b.pending[k].0 else id
  }

  /** The shape the bookkeeping keeps: no empty alias list, distinct pending keys, non-empty originals. */
  predicate WellKept(b: AliasBook) {
    (forall o :: o in b.aliases ==> b.aliases[o] != [])
    && DistinctKeys(b.pending)
    && (forall j :: 0 <= j < |b.pending| ==> b.pending[j].1 != "")
  }

  lemma RegisterKeeps(b: AliasBook, actual: string)
    requires WellKept(b)
    ensures WellKept(Register(b, actual))
  {
    var r := Register(b, actual);
    RegisterEffect(b, actual);
    RegisterAliases(b, actual);
    RemoveKeyKeepsDistinct(b.pending, actual);
    forall j | 0 <= j < |r.pending| ensures r.pending[j].1 != "" {
      assert r.pending[j] in b.pending;
    }
  }

  lemma ReleaseKeeps(b: AliasBook, actual: string)
    requires WellKept(b)
    ensures WellKept(Release(b, actual))
  {
    var r := Release(b, actual);
    ReleaseEffect(b, actual);
    ReleaseAliases(b, actual);
    RemoveKeyKeepsDistinct(b.pending, actual);
    forall j | 0 <= j < |r.pending| ensures r.pending[j].1 != "" {
      assert r.pending[j] in b.pending;
    }
  }

  /** Releasing an id the bookkeeping does not know changes nothing. */
  lemma ReleaseUnknownIsNoop(b: AliasBook, actual: string)
    requires actual !in b.used && actual !in b.actualToOriginal
    requires forall j :: 0 <= j < |b.pending| ==> b.pending[j].0 != actual
    ensures Release(b, actual) == b
  {
    RemoveAbsentKey(b.pending, actual);
  }

  /**
   * Register and release are inverse: releasing an id right after it was
   * registered for the first time restores the bookkeeping, except that its
   * pending rename is consumed.
   */
  lemma ReleaseUndoesRegister(b: AliasBook, actual: string)
    requires WellKept(b) && actual != ""
    requires actual !in b.used && actual !in b.actualToOriginal
    requires forall o :: o in b.aliases ==> actual !in b.aliases[o]
    ensures Release(Register(b, actual), actual) == b.(pending := RemoveKey(b.pending, actual))
  {
    var original := OriginalOf(b, actual);
    assert original != "" by {
      var k := KeyIndex(b.pending, actual);
      if k >= 0 { assert b.pending[k].1 != ""; }
    }
    var list := AliasesOf(b, original);
    assert actual !in list;
    var r := AliasBook(b.used + {actual}, b.aliases[original := list + [actual]],
      b.actualToOriginal[actual := original], RemoveKey(b.pending, actual));
    assert Register(b, actual) == r;
    ReleaseOfNewest(r, actual, original, list);
    if list == [] {
      assert original !in b.aliases;
      RemoveAddedKey(b.aliases, original, list + [actual]);
    } else {
      RestoreKey(b.aliases, original, list + [actual]);
    }
    assert r.used - {actual} == b.used;
    RemoveAddedKey(b.actualToOriginal, actual, original);
    RemoveKeyTwice(b.pending, actual);
    assert Release(r, actual) == AliasBook(b.used, b.aliases, b.actualToOriginal, RemoveKey(b.pending, actual));
  }

  lemma RemoveKeyTwice(entries: seq<(string, string)>, key: string)
    ensures RemoveKey(RemoveKey(entries, key), key) == RemoveKey(entries, key)
  {
    var r := RemoveKey(entries, key);
    assert forall j :: 0 <= j < |r| ==> r[j] in r;
    RemoveAbsentKey(r, key);
  }

  lemma RestoreKey(m: map<string, seq<string>>, k: string, v: seq<string>)
    requires k in m
    ensures m[k := v][k := m[k]] == m
  {
  }

  lemma RemoveAddedKey<V>(m: map<string, V>, k: string, v: V)
    requires k !in m
    ensures m[k := v] - {k} == m
  {
  }

  /** Releasing an id that is the last alias of its original takes it off that list. */
  lemma ReleaseOfNewest(r: AliasBook, actual: string, original: string, list: seq<string>)
    requires actual in r.actualToOriginal && r.actualToOriginal[actual] == original && original != ""
    requires original in r.aliases && r.aliases[original] == list + [actual] && actual !in list
    ensures Release(r, actual) == AliasBook(r.used - {actual},
      if list == [] then r.aliases - {original} else r.aliases[original := list],
      r.actualToOriginal - {actual}, RemoveKey(r.pending, actual))
  {
    RemoveFirstAppended(list, actual);
    assert actual in r.aliases[original];
  }

  /**
   * After a pending rename is placed, a cancellation naming the original id
   * resolves to the id the order was actually placed under.
   */
  lemma ResolveFindsPlacedRename(b: AliasBook, actual: string)
    requires WellKept(b)
    requires KeyIndex(b.pending, actual) >= 0
    requires var original := b.pending[KeyIndex(b.pending, actual)].1;
      original != actual && original !in b.used && original !in b.actualToOriginal
      && (forall o :: o in b.aliases ==> actual !in b.aliases[o])
    ensures Resolve(Register(b, actual), b.pending[KeyIndex(b.pending, actual)].1) == actual
  {
    var original := b.pending[KeyIndex(b.pending, actual)].1;
    var r := Register(b, actual);
    assert OriginalOf(b, actual) == original;
    assert original != "";
    var list := AliasesOf(b, original);
    assert r.aliases[original] == list + [actual];
  }

  // ---------------------------------------------------------------------------
  // Executing an action through the simulator
  // ---------------------------------------------------------------------------

  /** The bookkeeping after the cancellation results, in order: each success releases its id. */
  function AfterCancels(b: AliasBook, results: seq<CancelResult>): AliasBook {
    if |results| == 0 then b
    else
      var prev := AfterCancels(b, results[..|results| - 1]);
      var last := results[|results| - 1];
      if last.success then Release(prev, last.clientId) else prev
  }

  /** The bookkeeping after the placement results, in order: success registers, failure releases. */
  function AfterPlacements(b: AliasBook, results: seq<PlacedOrder>): AliasBook {
    if |results| == 0 then b
    else
      var prev := AfterPlacements(b, results[..|results| - 1]);
      var last := results[|results| - 1];
      if last.success then Register(prev, last.clientId) else Release(prev, last.clientId)
  }

  /** The error text of an optional message, as Python formats `None`. */
  function ErrorText(e: Option<string>): string {
    e.GetOr("None")
  }

  /** The "cancel failed" line of a failed cancellation; nothing for a success. */
  function CancelFailure(r: CancelResult): seq<string> {
    if r.success then [] else ["cancel failed: " + ErrorText(r.error)]
  }

  /** One "cancel failed" line per failed cancellation, in order. */
  function CancelErrors(results: seq<CancelResult>): (errors: seq<string>)
    ensures |errors| <= |results|
  {
    if |results| == 0 then []
    else
      var last := results[|results| - 1];
      CancelErrors(results[..|results| - 1]) + CancelFailure(last)
  }

  /** The "order failed" line of a failed placement; nothing for a success. */
  function OrderFailure(r: PlacedOrder): seq<string> {
    if r.success then [] else ["order failed: " + ErrorText(r.error)]
  }

  /** One "order failed" line per failed placement, in order. */
  function OrderErrors(results: seq<PlacedOrder>): (errors: seq<string>)
    ensures |errors| <= |results|
  {
    if |results| == 0 then []
    else
      var last := results[|results| - 1];
      OrderErrors(results[..|results| - 1]) + OrderFailure(last)
  }

  /** Number of failed results. */
  function FailedCancels(results: seq<CancelResult>): nat {
    if |results| == 0 then 0
    else FailedCancels(results[..|results| - 1]) + (if results[|results| - 1].success then 0 else 1)
  }

  function FailedPlacements(results: seq<PlacedOrder>): nat {
    if |results| == 0 then 0
    else FailedPlacements(results[..|results| - 1]) + (if results[|results| - 1].success then 0 else 1)
  }

  /** Exactly one error line per failed cancellation or placement. */
  lemma {:induction false} ErrorsCountFailures(cancels: seq<CancelResult>, placements: seq<PlacedOrder>)
    ensures |CancelErrors(cancels) + OrderErrors(placements)| == FailedCancels(cancels) + FailedPlacements(placements)
    ensures (forall i :: 0 <= i < |cancels| ==> cancels[i].success)
      && (forall i :: 0 <= i < |placements| ==> placements[i].success)
      ==> CancelErrors(cancels) + OrderErrors(placements) == []
  {
    CancelErrorsCount(cancels);
    OrderErrorsCount(placements);
  }

  lemma {:induction false} CancelErrorsCount(results: seq<CancelResult>)
    ensures |CancelErrors(results)| == FailedCancels(results)
    ensures (forall i :: 0 <= i < |results| ==> results[i].success) ==> FailedCancels(results) == 0
  {
    if |results| > 0 {
      CancelErrorsCount(results[..|results| - 1]);
    }
  }

  lemma {:induction false} OrderErrorsCount(results: seq<PlacedOrder>)
    ensures |OrderErrors(results)| == FailedPlacements(results)
    ensures (forall i :: 0 <= i < |results| ==> results[i].success) ==> FailedPlacements(results) == 0
  {
    if |results| > 0 {
      OrderErrorsCount(results[..|results| - 1]);
    }
  }

  /** The adapter order for an action-format order; the simulator's default leverage applies. */
  function AdapterOrder(o: PlaceOrder, clientId: string): (order: Order)
    ensures order.symbol == o.symbol && order.side == o.side && order.qty == o.qty
    ensures order.orderType == o.orderType && order.limitPrice == o.limitPrice
    ensures order.clientId == clientId && order.leverage == DEFAULT_LEVERAGE
  {
    Order(o.symbol, o.side, o.qty, o.orderType, o.limitPrice, o.timeInForce, o.reduceOnly, clientId, DEFAULT_LEVERAGE)
  }

  /** The orders of an action that are placed: those tagged "place_order", in order. */
  function Placeable(orders: seq<PlaceOrder>): (r: seq<PlaceOrder>)
  {
    if |orders| == 0 then []
    else
      var last := orders[|orders| - 1];
      Placeable(orders[..|orders| - 1]) + (if last.kind == "place_order" then [last] else [])
  }

  /**
   * One placement result per placed order: under the order's own client id,
   * or under a fresh non-empty one when the order had none.
   */
  predicate IdsCarried(placed: seq<PlaceOrder>, results: seq<PlacedOrder>) {
    |results| == |placed|
    && (forall j :: 0 <= j < |results| ==> results[j].clientId != "")
    && (forall j :: 0 <= j < |results| && placed[j].clientId != "" ==> results[j].clientId == placed[j].clientId)
  }

  lemma IdsCarriedStep(placed: seq<PlaceOrder>, results: seq<PlacedOrder>, o: PlaceOrder, r: PlacedOrder)
    requires IdsCarried(placed, results)
    requires r.clientId != "" && (o.clientId != "" ==> r.clientId == o.clientId)
    ensures IdsCarried(placed + [o], results + [r])
  {
  }

  /** The client ids the cancellations name, in order. */
  function CancelIds(cancellations: seq<Cancellation>): (ids: seq<string>)
    ensures |ids| == |cancellations| && forall j :: 0 <= j < |ids| ==> ids[j] == cancellations[j].clientId
  {
    if |cancellations| == 0 then []
    else CancelIds(cancellations[..|cancellations| - 1]) + [cancellations[|cancellations| - 1].clientId]
  }

  /** The adapter orders sent for the placed action orders: each one's own fields under the client id it went out with. */
  predicate SentFor(placed: seq<PlaceOrder>, sent: seq<Order>) {
    |sent| == |placed| && forall j :: 0 <= j < |sent| ==> sent[j] == AdapterOrder(placed[j], sent[j].clientId)
  }

  lemma SentForStep(placed: seq<PlaceOrder>, sent: seq<Order>, o: PlaceOrder, clientId: string)
    requires SentFor(placed, sent)
    ensures SentFor(placed + [o], sent + [AdapterOrder(o, clientId)])
  {
  }

  lemma CancelStep(b: AliasBook, results: seq<CancelResult>, r: CancelResult)
    ensures CancelErrors(results + [r]) == CancelErrors(results) + CancelFailure(r)
    ensures AfterCancels(b, results + [r]) == if r.success then Release(AfterCancels(b, results), r.clientId) else AfterCancels(b, results)
  {
    assert (results + [r])[..|results|] == results;
  }

  lemma PlacementStep(b: AliasBook, results: seq<PlacedOrder>, r: PlacedOrder)
    ensures OrderErrors(results + [r]) == OrderErrors(results) + OrderFailure(r)
    ensures AfterPlacements(b, results + [r])
      == if r.success then Register(AfterPlacements(b, results), r.clientId) else Release(AfterPlacements(b, results), r.clientId)
  {
    assert (results + [r])[..|results|] == results;
  }

  /** Exactly the orders tagged "place_order" are placed; the others are skipped. */
  lemma {:induction false} PlaceableExactly(orders: seq<PlaceOrder>)
    ensures |Placeable(orders)| <= |orders|
    ensures forall o :: o in Placeable(orders) <==> o in orders && o.kind == "place_order"
  {
    if |orders| > 0 {
      PlaceableExactly(orders[..|orders| - 1]);
      assert orders == orders[..|orders| - 1] + [orders[|orders| - 1]];
    }
  }

  lemma PlaceableStep(orders: seq<PlaceOrder>, i: int)
    requires 0 <= i < |orders|
    ensures Placeable(orders[..i + 1]) == Placeable(orders[..i]) + (if orders[i].kind == "place_order" then [orders[i]] else [])
  {
    assert orders[..i + 1][..i] == orders[..i];
  }

  // ---------------------------------------------------------------------------
  // Observation arithmetic
  // ---------------------------------------------------------------------------

  /** Maintenance fraction the observation's liquidation estimate uses. */
  const LIQ_ESTIMATE_FRACTION: real := 0.95

  /** `{m.symbol: m.mark for m in markets}[symbol]`: the last market listed for the symbol wins. */
  function MarkFor(markets: seq<MarketInfo>, symbol: string): (r: Option<real>)
    ensures r.None? <==> forall i :: 0 <= i < |markets| ==> markets[i].symbol != symbol
    ensures r.Some? ==> exists i :: 0 <= i < |markets| && markets[i].symbol == symbol && markets[i].mark == r.value
  {
    if |markets| == 0 then None
    else if markets[|markets| - 1].symbol == symbol then Some(markets[|markets| - 1].mark)
    else MarkFor(markets[..|markets| - 1], symbol)
  }

  /** Python `int(x)` of a real: truncation toward zero. */
  function Truncate(x: real): (n: int)
    ensures x >= 0.0 ==> n as real <= x < n as real + 1.0
    ensures x < 0.0 ==> n as real - 1.0 < x <= n as real
  {
    if x >= 0.0 then x.Floor else -((-x).Floor)
  }

  /**
   * The estimated liquidation price before it is clamped at zero: below the
   * entry for a long and above it for a short, by 95% of 1/leverage; 0 when
   * the leverage is not positive.
   */
  function RawLiquidationEstimate(qty: real, avgEntry: real, leverage: real): (p: real)
    ensures leverage <= 0.0 ==> p == 0.0
    ensures leverage > 0.0 && qty > 0.0 && avgEntry >= 0.0 ==> p <= avgEntry
    ensures leverage > 0.0 && qty <= 0.0 && avgEntry >= 0.0 ==> p >= avgEntry
  {
    if leverage <= 0.0 then 0.0
    else if qty > 0.0 then avgEntry * (1.0 - (1.0 / leverage) * LIQ_ESTIMATE_FRACTION)
    else avgEntry * (1.0 + (1.0 / leverage) * LIQ_ESTIMATE_FRACTION)
  }

  /** A reported position as the observation shows it, at wall-clock `now`. */
  function ObservedPosition(pos: PositionInfo, markets: seq<MarketInfo>, now: int): (p: Position)
    ensures p.symbol == pos.symbol && p.qty == pos.qty && p.avgEntry == pos.avgEntry && p.leverage == pos.leverage
    ensures p.currentPrice == MarkFor(markets, pos.symbol).GetOr(pos.avgEntry)
    ensures p.unrealizedPnl == pos.qty * (p.currentPrice - pos.avgEntry)
    ensures p.liquidationPrice >= 0.0
    ensures p.liquidationPrice == Max(0.0, RawLiquidationEstimate(pos.qty, pos.avgEntry, pos.leverage))
    ensures p.entryTime == pos.entryTime
    ensures p.holdingTimeMinutes.Some? <==> pos.entryTime.Some?
    ensures pos.entryTime.Some? && now >= pos.entryTime.value ==> p.holdingTimeMinutes.value >= 0
  {
    var price := MarkFor(markets, pos.symbol).GetOr(pos.avgEntry);
    var holding := match pos.entryTime
      case Some(t) => Some(Truncate((now - t) as real / 60.0))
      case None => None;
    Position(pos.symbol, pos.qty, pos.avgEntry, price,
      Max(0.0, RawLiquidationEstimate(pos.qty, pos.avgEntry, pos.leverage)),
      pos.qty * (price - pos.avgEntry), pos.leverage, pos.entryTime, holding)
  }

  /** The initial margin of one position: notional over leverage, nothing when leverage is not positive. */
  function MarginOf(p: Position): (m: real)
    ensures p.leverage <= 0.0 ==> m == 0.0
    ensures p.leverage > 0.0 ==> m * p.leverage == Abs(p.qty) * p.currentPrice
    ensures p.currentPrice >= 0.0 ==> m >= 0.0
  {
    if p.leverage > 0.0 then Abs(p.qty) * p.currentPrice / p.leverage else 0.0
  }

  /** Margin locked in positions: the sum of their initial margins. */
  function UsedMargin(positions: seq<Position>): (used: real)
    ensures (forall i :: 0 <= i < |positions| ==> positions[i].currentPrice >= 0.0) ==> used >= 0.0
  {
    if |positions| == 0 then 0.0
    else UsedMargin(positions[..|positions| - 1]) + MarginOf(positions[|positions| - 1])
  }

  lemma UsedMarginStep(positions: seq<Position>, i: int)
    requires 0 <= i < |positions|
    ensures UsedMargin(positions[..i + 1]) == UsedMargin(positions[..i]) + MarginOf(positions[i])
  {
    assert positions[..i + 1][..i] == positions[..i];
  }

  /** Margin still free: equity minus used margin, never below zero. */
  function AvailableMargin(equity: real, used: real): (a: real)
    ensures a >= 0.0
    ensures a >= equity - used
    ensures equity >= used ==> a == equity - used
    ensures equity < used ==> a == 0.0
  {
    Max(0.0, equity - used)
  }

  /** Percentage return over the first observed equity; 0 when that is not positive. */
  function TotalReturnPct(equity: real, initialEquity: real): (pct: real)
    ensures initialEquity <= 0.0 ==> pct == 0.0
    ensures initialEquity > 0.0 ==> (pct > 0.0 <==> equity > initialEquity)
  {
    if initialEquity > 0.0 then (equity - initialEquity) / initialEquity * 100.0 else 0.0
  }

  /** The account as the observation shows it. */
  function ObservedAccount(state: AccountState, positions: seq<Position>, usedMargin: real, initialEquity: real): (a: Account)
    ensures a.equity == state.equity && a.marginBalance == state.cash && a.usedMargin == usedMargin
    ensures a.cash == AvailableMargin(state.equity, usedMargin) && a.cash >= 0.0
    ensures a.feesPaidTotal == Abs(state.fees) && a.feesPaidTotal >= 0.0
    ensures a.positions == positions && a.unrealizedPl == state.unrealizedPl
    ensures a.totalReturnPct == TotalReturnPct(state.equity, initialEquity)
  {
    Account(state.equity, AvailableMargin(state.equity, usedMargin), state.cash, usedMargin,
      positions, state.unrealizedPl, Abs(state.fees), TotalReturnPct(state.equity, initialEquity))
  }

  /** Some string extending `prefix` lies outside any finite set of strings. */
  lemma FreshSuffixExists(taken: set<string>, prefix: string)
    ensures exists suffix: string :: prefix + suffix !in taken
  {
    var suffix := seq(LongestLength(taken) + 1, _ => '0');
    assert prefix + suffix !in taken;
  }

  /** An upper bound on the lengths of the strings of a finite set. */
  ghost function LongestLength(s: set<string>): (n: nat)
    ensures forall x :: x in s ==> |x| <= n
    decreases |s|
  {
    if s == {} then 0
    else
      var x :| x in s;
      var m := LongestLength(s - {x});
      if |x| > m then |x| else m
  }

  /**
   * `pending` records, in order, the id each of `actions` is renamed to and
   * the original id it stands for, as the normalising pass does: the new ids
   * are pairwise distinct and not held by the adapter (`used`); the original
   * is the proposed id, or a fresh non-empty one when none was proposed; the
   * new id is the original or the original extended by "-" and a suffix; an
   * original that was free is kept.
   */
  predicate Renamed(actions: seq<PlaceOrder>, pending: seq<(string, string)>, used: set<string>) {
    |pending| == |actions|
    && (forall j, k :: 0 <= j < k < |pending| ==> pending[j].0 != pending[k].0)
    && (forall j :: 0 <= j < |pending| ==> pending[j].0 !in used && pending[j].1 != "")
    && (forall j :: 0 <= j < |pending| && actions[j].clientId != "" ==> pending[j].1 == actions[j].clientId)
    && (forall j :: 0 <= j < |pending| ==> HasIdPrefix(pending[j].0, pending[j].1))
    && (forall j :: 0 <= j < |pending| ==>
          pending[j].1 !in used && (forall k :: 0 <= k < j ==> pending[k].0 != pending[j].1) ==>
            pending[j].0 == pending[j].1)
  }

  /** `id` is `original`, or `original` followed by "-" and a suffix. */
  predicate HasIdPrefix(id: string, original: string) {
    id == original || (|id| >= |original| + 1 && id[..|original| + 1] == original + "-")
  }

  /** The new ids of a list of renames, in order. */
  function NewIds(pending: seq<(string, string)>): (ids: seq<string>)
    ensures |ids| == |pending|
    ensures forall j :: 0 <= j < |pending| ==> ids[j] == pending[j].0
  {
    if |pending| == 0 then [] else NewIds(pending[..|pending| - 1]) + [pending[|pending| - 1].0]
  }

  /** The new ids of a list of renames, as a set. */
  function NewIdSet(pending: seq<(string, string)>): set<string> {
    if |pending| == 0 then {} else NewIdSet(pending[..|pending| - 1]) + {pending[|pending| - 1].0}
  }

  lemma {:induction false} NewIdSetIff(pending: seq<(string, string)>, x: string)
    ensures x in NewIdSet(pending) <==> x in NewIds(pending)
  {
    if |pending| > 0 {
      var init := pending[..|pending| - 1];
      NewIdSetIff(init, x);
      assert NewIds(pending) == NewIds(init) + [pending[|pending| - 1].0];
    }
  }

  /** Renaming the next order with an id that is free keeps `Renamed`. */
  lemma RenamedStep(actions: seq<PlaceOrder>, i: int, pending: seq<(string, string)>,
                    used: set<string>, original: string, actual: string)
    requires 0 <= i < |actions| && Renamed(actions[..i], pending, used)
    requires original != "" && (actions[i].clientId != "" ==> original == actions[i].clientId)
    requires actual !in used && actual !in NewIds(pending) && HasIdPrefix(actual, original)
    requires original !in used && original !in NewIds(pending) ==> actual == original
    ensures Renamed(actions[..i + 1], pending + [(actual, original)], used)
  {
    var actions' := actions[..i + 1];
    var pending' := pending + [(actual, original)];
    assert actions'[..i] == actions[..i];
    RenamedSnocDistinct(pending, (actual, original));
    RenamedSnocFree(pending, used, original, actual);
    forall j | 0 <= j < |pending'|
      ensures pending'[j].0 !in used && pending'[j].1 != ""
      ensures actions'[j].clientId != "" ==> pending'[j].1 == actions'[j].clientId
      ensures HasIdPrefix(pending'[j].0, pending'[j].1)
    {
      if j < i {
        assert pending'[j] == pending[j] && actions'[j] == actions[..i][j];
      }
    }
  }

  /** Appending a rename whose new id is not among the earlier new ids keeps the new ids distinct. */
  lemma RenamedSnocDistinct(pending: seq<(string, string)>, entry: (string, string))
    requires forall j, k :: 0 <= j < k < |pending| ==> pending[j].0 != pending[k].0
    requires entry.0 !in NewIds(pending)
    ensures var pending' := pending + [entry];
      forall j, k :: 0 <= j < k < |pending'| ==> pending'[j].0 != pending'[k].0
  {
    var pending' := pending + [entry];
    forall j, k | 0 <= j < k < |pending'| ensures pending'[j].0 != pending'[k].0 {
      if k == |pending| {
        assert NewIds(pending)[j] == pending[j].0;
      } else {
        assert pending'[j] == pending[j] && pending'[k] == pending[k];
      }
    }
  }

  /**
   * Appending a rename keeps "an original that is free and not taken by an
   * earlier rename is kept as is" when the appended rename obeys it.
   */
  lemma RenamedSnocFree(pending: seq<(string, string)>, used: set<string>, original: string, actual: string)
    requires forall j :: 0 <= j < |pending| ==>
      pending[j].1 !in used && (forall k :: 0 <= k < j ==> pending[k].0 != pending[j].1) ==> pending[j].0 == pending[j].1
    requires original !in used && original !in NewIds(pending) ==> actual == original
    ensures var pending' := pending + [(actual, original)];
      forall j :: 0 <= j < |pending'| ==>
        pending'[j].1 !in used && (forall k :: 0 <= k < j ==> pending'[k].0 != pending'[j].1) ==> pending'[j].0 == pending'[j].1
  {
    var pending' := pending + [(actual, original)];
    forall j | 0 <= j < |pending'| && pending'[j].1 !in used && (forall k :: 0 <= k < j ==> pending'[k].0 != pending'[j].1)
      ensures pending'[j].0 == pending'[j].1
    {
      if j == |pending| {
        forall k | 0 <= k < |pending| ensures NewIds(pending)[k] != original {
          assert pending'[k].0 == pending[k].0;
        }
        assert original !in NewIds(pending);
      } else {
        assert pending'[j] == pending[j];
        assert forall k :: 0 <= k < j ==> pending'[k] == pending[k];
      }
    }
  }

  /** The orders with the new ids of the renames put in place of their client ids. */
  function WithNewIds(actions: seq<PlaceOrder>, pending: seq<(string, string)>): (orders: seq<PlaceOrder>)
    requires |pending| == |actions|
    ensures |orders| == |actions|
    ensures forall j :: 0 <= j < |actions| ==> orders[j] == actions[j].(clientId := pending[j].0)
  {
    if |actions| == 0 then []
    else
      var last := actions[|actions| - 1].(clientId := pending[|pending| - 1].0);
      WithNewIds(actions[..|actions| - 1], pending[..|pending| - 1]) + [last]
  }

  // ---------------------------------------------------------------------------
  // The agent loop's state
  // ---------------------------------------------------------------------------

  class AgentWorker {
    var usedClientIds: set<string>
    var clientIdAliases: map<string, seq<string>>
    var actualToOriginal: map<string, string>
    var pendingAliases: seq<(string, string)>

    function Book(): AliasBook
      reads this
    {
      AliasBook(usedClientIds, clientIdAliases, actualToOriginal, pendingAliases)
    }

    constructor()
      ensures Book() == AliasBook({}, map[], map[], [])
    {
      usedClientIds := {};
      clientIdAliases := map[];
      actualToOriginal := map[];
      pendingAliases := [];
    }

    /**
     * `_normalize_action_client_ids`: gives every order a client id that is
     * unique within the request and not held by the adapter, records each
     * rename in a fresh `pending_aliases`, then resolves the cancellations.
     */
    method NormalizeActionClientIds(action: Action) returns (r: Action)
      modifies this
      ensures usedClientIds == old(usedClientIds) && clientIdAliases == old(clientIdAliases)
      ensures actualToOriginal == old(actualToOriginal)
      ensures r.notesForAudience == action.notesForAudience
      ensures Renamed(action.actions, pendingAliases, usedClientIds)
      ensures r.actions == WithNewIds(action.actions, pendingAliases)
      ensures WellKept(old(Book())) ==> WellKept(Book())
      ensures |r.cancellations| == |action.cancellations|
      ensures forall j :: 0 <= j < |r.cancellations| ==>
        r.cancellations[j].clientId == Resolve(Book(), action.cancellations[j].clientId)
    {
      var pending: seq<(string, string)> := [];
      var seen: set<string> := {};
      var i := 0;
      while i < |action.actions|
        invariant 0 <= i <= |action.actions|
        invariant Renamed(action.actions[..i], pending, usedClientIds)
        invariant usedClientIds == old(usedClientIds) && clientIdAliases == old(clientIdAliases)
        invariant actualToOriginal == old(actualToOriginal)
        invariant seen == NewIdSet(pending)
      {
        var original := action.actions[i].clientId;
        if original == "" {
          // a fresh random identifier stands in for the missing one
          assert "uuid" != "";
          original :| original != "";
        }
        var actual := ChooseActualId(original, seen);
        NewIdSetIff(pending, actual);
        NewIdSetIff(pending, original);
        RenamedStep(action.actions, i, pending, usedClientIds, original, actual);
        seen := seen + {actual};
        pending := pending + [(actual, original)];
        assert pending[..|pending| - 1] == pending[..i];
        i := i + 1;
      }
      assert action.actions[..i] == action.actions;
      pendingAliases := pending;
      var cancels := ResolveCancellations(action.cancellations);
      r := Action(WithNewIds(action.actions, pending), cancels, action.notesForAudience);
    }

    /**
     * The retry loop of `_normalize_action_client_ids`: the proposed id when
     * it is free, otherwise the id extended by "-" and a random suffix that
     * makes it free.
     */
    method ChooseActualId(original: string, seen: set<string>) returns (actual: string)
      ensures actual !in seen && actual !in usedClientIds
      ensures original !in seen && original !in usedClientIds ==> actual == original
      ensures HasIdPrefix(actual, original)
    {
      actual := original;
      if actual in seen || actual in usedClientIds {
        FreshSuffixExists(seen + usedClientIds, original + "-");
        var suffix :| (original + "-") + suffix !in seen + usedClientIds;
        actual := (original + "-") + suffix;
      }
    }

    /** The cancellation half of `_normalize_action_client_ids`: every id resolved in order. */
    method ResolveCancellations(cancellations: seq<Cancellation>) returns (resolved: seq<Cancellation>)
      ensures |resolved| == |cancellations|
      ensures forall j :: 0 <= j < |resolved| ==> resolved[j].clientId == Resolve(Book(), cancellations[j].clientId)
    {
      resolved := [];
      var c := 0;
      while c < |cancellations|
        invariant 0 <= c <= |cancellations| && |resolved| == c
        invariant forall j :: 0 <= j < c ==> resolved[j].clientId == Resolve(Book(), cancellations[j].clientId)
      {
        var id := ResolveClientId(cancellations[c].clientId);
        resolved := resolved + [Cancellation(id)];
        c := c + 1;
      }
    }

    /** `_resolve_client_id`, scanning the pending renames newest first. */
    method ResolveClientId(id: string) returns (r: string)
      ensures r == Resolve(Book(), id)
    {
      if id == "" {
        return id;
      }
      if id in actualToOriginal || id in usedClientIds {
        return id;
      }
      if id in clientIdAliases && clientIdAliases[id] != [] {
        var aliases := clientIdAliases[id];
        return aliases[|aliases| - 1];
      }
      var i := |pendingAliases|;
      while i > 0
        invariant 0 <= i <= |pendingAliases|
        invariant forall j :: i <= j < |pendingAliases| ==> pendingAliases[j].1 != id
      {
        if pendingAliases[i - 1].1 == id {
          var k := NewestPendingFor(pendingAliases, id);
          assert k == i - 1;
          return pendingAliases[i - 1].0;
        }
        i := i - 1;
      }
      r := id;
    }

    /** `_register_client_id`. */
    method RegisterClientId(actual: string)
      modifies this
      ensures Book() == Register(old(Book()), actual)
    {
      var k := KeyIndex(pendingAliases, actual);
      var original: string;
      if k >= 0 {
        original := pendingAliases[k].1;
      } else if actual in actualToOriginal {
        original := actualToOriginal[actual];
      } else {
        original := actual;
      }
      pendingAliases := RemoveKey(pendingAliases, actual);
      actualToOriginal := actualToOriginal[actual := original];
      var aliases := if original in clientIdAliases then clientIdAliases[original] else [];
      if actual !in aliases {
        aliases := aliases + [actual];
      }
      clientIdAliases := clientIdAliases[original := aliases];
      usedClientIds := usedClientIds + {actual};
    }

    /** `_release_client_id`. */
    method ReleaseClientId(actual: string)
      modifies this
      ensures Book() == Release(old(Book()), actual)
    {
      pendingAliases := RemoveKey(pendingAliases, actual);
      usedClientIds := usedClientIds - {actual};
      if actual in actualToOriginal {
        var original := actualToOriginal[actual];
        actualToOriginal := actualToOriginal - {actual};
        if original != "" && original in clientIdAliases {
          var aliases := clientIdAliases[original];
          if actual in aliases {
            aliases := RemoveFirst(aliases, actual);
            if aliases == [] {
              clientIdAliases := clientIdAliases - {original};
            } else {
              clientIdAliases := clientIdAliases[original := aliases];
            }
          }
        }
      }
    }

    /**
     * `_execute_via_adapter`: cancellations first, then every "place_order"
     * order in turn. The adapter's answers and the orders sent are returned
     * alongside the error lines so that the bookkeeping and the engine's new
     * state can be stated in terms of them.
     */
    method ExecuteViaAdapter(adapter: PerpSim.PerpSimAdapter, action: Action, now: int)
      returns (errors: seq<string>, ghost cancelResults: seq<CancelResult>, ghost placeResults: seq<PlacedOrder>,
               ghost sent: seq<Order>)
      requires adapter.Valid()
      modifies this, adapter
      ensures adapter.Valid()
      ensures cancelResults == PerpSim.CancelAnswers(old(adapter.openOrders), CancelIds(action.cancellations))
      ensures SentFor(Placeable(action.actions), sent) && IdsCarried(Placeable(action.actions), placeResults)
      ensures placeResults == PerpSim.PlaceAnswers(old(adapter.marketCache), sent)
      ensures adapter.EntryStateOf()
        == PerpSim.AfterPlaceAll(adapter.config, old(adapter.marketCache),
             PerpSim.EntryState(old(adapter.LedgerOf()), PerpSim.AfterCancelAll(old(adapter.openOrders), CancelIds(action.cancellations))),
             sent, now)
      ensures adapter.marketCache == old(adapter.marketCache)
      ensures Book() == AfterPlacements(AfterCancels(old(Book()), cancelResults), placeResults)
      ensures errors == CancelErrors(cancelResults) + OrderErrors(placeResults)
    {
      var cancelErrors;
      cancelErrors, cancelResults := ExecuteCancellations(adapter, action.cancellations);
      var orderErrors;
      orderErrors, placeResults, sent := ExecuteOrders(adapter, action.actions, now);
      errors := cancelErrors + orderErrors;
    }

    /** The cancellation loop of `_execute_via_adapter`. */
    method ExecuteCancellations(adapter: PerpSim.PerpSimAdapter, cancellations: seq<Cancellation>)
      returns (errors: seq<string>, ghost results: seq<CancelResult>)
      requires adapter.Valid()
      modifies this, adapter
      ensures adapter.Valid()
      ensures results == PerpSim.CancelAnswers(old(adapter.openOrders), CancelIds(cancellations))
      ensures adapter.EntryStateOf() == PerpSim.EntryState(old(adapter.LedgerOf()), PerpSim.AfterCancelAll(old(adapter.openOrders), CancelIds(cancellations)))
      ensures adapter.marketCache == old(adapter.marketCache)
      ensures Book() == AfterCancels(old(Book()), results)
      ensures errors == CancelErrors(results)
    {
      errors := [];
      results := [];
      ghost var ids := CancelIds(cancellations);
      var c := 0;
      while c < |cancellations|
        invariant 0 <= c <= |cancellations|
        invariant adapter.Valid()
        invariant results == PerpSim.CancelAnswers(old(adapter.openOrders), ids[..c])
        invariant adapter.openOrders == PerpSim.AfterCancelAll(old(adapter.openOrders), ids[..c])
        invariant adapter.LedgerOf() == old(adapter.LedgerOf()) && adapter.marketCache == old(adapter.marketCache)
        invariant Book() == AfterCancels(old(Book()), results)
        invariant errors == CancelErrors(results)
      {
        var result := CancelOne(adapter, cancellations[c].clientId);
        CancelStep(old(Book()), results, result);
        PerpSim.CancelStepAt(old(adapter.openOrders), ids, c);
        errors := errors + CancelFailure(result);
        results := results + [result];
        c := c + 1;
      }
      assert ids[..c] == ids;
    }

    /** The placement loop of `_execute_via_adapter`. */
    method ExecuteOrders(adapter: PerpSim.PerpSimAdapter, orders: seq<PlaceOrder>, now: int)
      returns (errors: seq<string>, ghost results: seq<PlacedOrder>, ghost sent: seq<Order>)
      requires adapter.Valid()
      modifies this, adapter
      ensures adapter.Valid()
      ensures SentFor(Placeable(orders), sent) && IdsCarried(Placeable(orders), results)
      ensures results == PerpSim.PlaceAnswers(old(adapter.marketCache), sent)
      ensures adapter.EntryStateOf() == PerpSim.AfterPlaceAll(adapter.config, old(adapter.marketCache), old(adapter.EntryStateOf()), sent, now)
      ensures adapter.marketCache == old(adapter.marketCache)
      ensures Book() == AfterPlacements(old(Book()), results)
      ensures errors == OrderErrors(results)
    {
      errors := [];
      results := [];
      sent := [];
      ghost var placed: seq<PlaceOrder> := [];
      var i := 0;
      while i < |orders|
        invariant 0 <= i <= |orders|
        invariant placed == Placeable(orders[..i])
        invariant PlacedSoFar(adapter, old(adapter.marketCache), old(adapter.EntryStateOf()), old(Book()), now, placed, sent, results, errors)
      {
        var orderAction := orders[i];
        PlaceableStep(orders, i);
        if orderAction.kind == "place_order" {
          errors, placed, sent, results := PlaceNext(adapter, orderAction, now, old(adapter.marketCache), old(adapter.EntryStateOf()),
                                                    old(Book()), placed, sent, results, errors);
        }
        i := i + 1;
      }
      assert orders[..|orders|] == orders;
    }

    /** What the placement loop keeps: the answers, the engine's state, the bookkeeping and the error lines so far. */
    ghost predicate PlacedSoFar(adapter: PerpSim.PerpSimAdapter, cache0: map<string, MarketInfo>, s0: PerpSim.EntryState,
                                book0: AliasBook, now: int, placed: seq<PlaceOrder>, sent: seq<Order>,
                                results: seq<PlacedOrder>, errors: seq<string>)
      reads this, adapter
    {
      adapter.Valid() && adapter.marketCache == cache0
      && SentFor(placed, sent) && IdsCarried(placed, results)
      && results == PerpSim.PlaceAnswers(cache0, sent)
      && adapter.EntryStateOf() == PerpSim.AfterPlaceAll(adapter.config, cache0, s0, sent, now)
      && Book() == AfterPlacements(book0, results)
      && errors == OrderErrors(results)
    }

    /** A step of the placement loop: `PlaceOne`, with the loop's records extended by it. */
    method PlaceNext(adapter: PerpSim.PerpSimAdapter, orderAction: PlaceOrder, now: int, ghost cache0: map<string, MarketInfo>,
                     ghost s0: PerpSim.EntryState, ghost book0: AliasBook, ghost placed: seq<PlaceOrder>, ghost sent: seq<Order>,
                     ghost results: seq<PlacedOrder>, errors: seq<string>)
      returns (errors': seq<string>, ghost placed': seq<PlaceOrder>, ghost sent': seq<Order>, ghost results': seq<PlacedOrder>)
      requires PlacedSoFar(adapter, cache0, s0, book0, now, placed, sent, results, errors)
      modifies this, adapter
      ensures placed' == placed + [orderAction]
      ensures PlacedSoFar(adapter, cache0, s0, book0, now, placed', sent', results', errors')
    {
      var error;
      ghost var result;
      error, result := PlaceOne(adapter, orderAction, now);
      ghost var order := AdapterOrder(orderAction, result.clientId);
      PlacementStep(book0, results, result);
      PerpSim.AfterPlaceSnoc(adapter.config, cache0, s0, sent, order, now);
      IdsCarriedStep(placed, results, orderAction, result);
      SentForStep(placed, sent, orderAction, result.clientId);
      errors', placed', sent', results' := errors + error, placed + [orderAction], sent + [order], results + [result];
    }

    /** One cancellation of `_execute_via_adapter`: cancel, then release the id on success. */
    method CancelOne(adapter: PerpSim.PerpSimAdapter, clientId: string) returns (result: CancelResult)
      requires adapter.Valid()
      modifies this, adapter
      ensures adapter.Valid()
      ensures result == PerpSim.CancelAnswer(old(adapter.openOrders), clientId)
      ensures adapter.openOrders == PerpSim.RemoveOrder(old(adapter.openOrders), clientId)
      ensures adapter.LedgerOf() == old(adapter.LedgerOf()) && adapter.marketCache == old(adapter.marketCache)
      ensures Book() == if result.success then Release(old(Book()), clientId) else old(Book())
    {
      result := adapter.CancelOrder(clientId);
      if result.success {
        ReleaseClientId(clientId);
      }
    }

    /** One placement of `_execute_via_adapter`: place, then register on success or release on failure. */
    method PlaceOne(adapter: PerpSim.PerpSimAdapter, orderAction: PlaceOrder, now: int)
      returns (error: seq<string>, ghost result: PlacedOrder)
      requires adapter.Valid()
      modifies this, adapter
      ensures adapter.Valid()
      ensures result.clientId != "" && (orderAction.clientId != "" ==> result.clientId == orderAction.clientId)
      ensures result == PerpSim.PlaceAnswer(old(adapter.marketCache), AdapterOrder(orderAction, result.clientId))
      ensures adapter.EntryStateOf()
        == PerpSim.AfterPlace(adapter.config, old(adapter.marketCache), old(adapter.EntryStateOf()), AdapterOrder(orderAction, result.clientId), now)
      ensures adapter.marketCache == old(adapter.marketCache)
      ensures Book() == if result.success then Register(old(Book()), result.clientId) else Release(old(Book()), result.clientId)
      ensures error == OrderFailure(result)
    {
      var clientId := orderAction.clientId;
      if clientId == "" {
        // a fresh random identifier stands in for the missing one
        assert "uuid" != "";
        clientId :| clientId != "";
      }
      var order := AdapterOrder(orderAction, clientId);
      var placed := adapter.PlaceOrder(order, now);
      if placed.success {
        RegisterClientId(order.clientId);
        error := [];
      } else {
        ReleaseClientId(order.clientId);
        error := ["order failed: " + ErrorText(placed.error)];
      }
      result := placed;
    }

    /** The margin loop of the observation: the used margin summed position by position. */
    method ComputeUsedMargin(positions: seq<Position>) returns (used: real)
      ensures used == UsedMargin(positions)
    {
      used := 0.0;
      var i := 0;
      while i < |positions|
        invariant 0 <= i <= |positions|
        invariant used == UsedMargin(positions[..i])
      {
        var p := positions[i];
        UsedMarginStep(positions, i);
        if p.leverage > 0.0 {
          used := used + MarginOf(p);
        }
        i := i + 1;
      }
      assert positions[..|positions|] == positions;
    }
  }
}
