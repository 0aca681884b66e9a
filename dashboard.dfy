/**
 * The read-side API (apps/api/main.py): the completed-trades endpoint and
 * the performance statistics, both computed from the trade log through the
 * round-trip fold, and the maximum drawdown over the equity curve.
 */
module Dashboard {
  import opened Wrappers
  import opened Broker
  import opened Schemas
  import RoundTrips

  /** Bounds of the `limit` query parameter of `GET /completed-trades`. */
  const MIN_COMPLETED_LIMIT: int := 1
  const MAX_COMPLETED_LIMIT: int := 500

  /**
   * `GET /completed-trades?limit=`: a limit outside [1, 500] is refused
   * before anything is read; otherwise the `limit` most recent round trips,
   * newest first.
   */
  function CompletedTradesEndpoint(trades: seq<Trade>, limit: int): (r: Option<seq<RoundTrips.CompletedTrade>>)
    requires RoundTrips.TradesOk(trades)
    ensures r.None? <==> limit < MIN_COMPLETED_LIMIT || limit > MAX_COMPLETED_LIMIT
    ensures r.Some? ==>
      var completed := RoundTrips.RoundTrip(trades).completed;
      |r.value| <= limit && |r.value| <= |completed|
      && (|r.value| == limit || |r.value| == |completed|)
      && forall i :: 0 <= i < |r.value| ==> r.value[i] == completed[|completed| - 1 - i]
  {
    if limit < MIN_COMPLETED_LIMIT || limit > MAX_COMPLETED_LIMIT then None
    else Some(RoundTrips.NewestFirst(RoundTrips.RoundTrip(trades).completed, limit))
  }

  // ---------------------------------------------------------------------
  // Win/loss statistics
  // ---------------------------------------------------------------------

  /** Net P&L of the winning trades (net > 0), in order. */
  function Wins(c: seq<RoundTrips.CompletedTrade>): (w: seq<real>)
    ensures |w| <= |c|
    ensures forall i :: 0 <= i < |w| ==> w[i] > 0.0
  {
    if |c| == 0 then []
    else Wins(c[..|c| - 1]) + (if c[|c| - 1].netPnl > 0.0 then [c[|c| - 1].netPnl] else [])
  }

  /** Net P&L of the losing trades (net < 0), in order. */
  function Losses(c: seq<RoundTrips.CompletedTrade>): (l: seq<real>)
    ensures |l| <= |c|
    ensures forall i :: 0 <= i < |l| ==> l[i] < 0.0
  {
    if |c| == 0 then []
    else Losses(c[..|c| - 1]) + (if c[|c| - 1].netPnl < 0.0 then [c[|c| - 1].netPnl] else [])
  }

  /** Trades that broke even exactly. */
  function BreakEvens(c: seq<RoundTrips.CompletedTrade>): nat {
    if |c| == 0 then 0
    else BreakEvens(c[..|c| - 1]) + (if c[|c| - 1].netPnl == 0.0 then 1 else 0)
  }

  /** Every trade is a win, a loss or break-even, and no trade is two of them. */
  lemma {:induction false} WinsLossesPartition(c: seq<RoundTrips.CompletedTrade>)
    ensures |Wins(c)| + |Losses(c)| + BreakEvens(c) == |c|
  {
    if |c| > 0 {
      WinsLossesPartition(c[..|c| - 1]);
    }
  }

  function Sum(xs: seq<real>): real {
    if |xs| == 0 then 0.0 else Sum(xs[..|xs| - 1]) + xs[|xs| - 1]
  }

  /** Python's `max(xs, default=0.0)`. */
  function MaxOrZero(xs: seq<real>): (m: real)
    ensures |xs| > 0 ==> (forall i :: 0 <= i < |xs| ==> xs[i] <= m) && exists i :: 0 <= i < |xs| && xs[i] == m
    ensures |xs| == 0 ==> m == 0.0
  {
    if |xs| == 0 then 0.0
    else if |xs| == 1 then xs[0]
    else Max(MaxOrZero(xs[..|xs| - 1]), xs[|xs| - 1])
  }

  /** Python's `min(xs, default=0.0)`. */
  function MinOrZero(xs: seq<real>): (m: real)
    ensures |xs| > 0 ==> (forall i :: 0 <= i < |xs| ==> m <= xs[i]) && exists i :: 0 <= i < |xs| && xs[i] == m
    ensures |xs| == 0 ==> m == 0.0
  {
    if |xs| == 0 then 0.0
    else if |xs| == 1 then xs[0]
    else Min(MinOrZero(xs[..|xs| - 1]), xs[|xs| - 1])
  }

  /** A sum is at most the count times any upper bound of its terms, and at least the count times any lower bound. */
  lemma {:induction false} SumBounds(xs: seq<real>, lo: real, hi: real)
    requires forall i :: 0 <= i < |xs| ==> lo <= xs[i] <= hi
    ensures |xs| as real * lo <= Sum(xs) <= |xs| as real * hi
  {
    if |xs| > 0 {
      SumBounds(xs[..|xs| - 1], lo, hi);
    }
  }

  /** Dividing a sum bounded by `n` times `m` by `n` gives at most `m`, and likewise from below. */
  lemma DivideBound(total: real, n: real, m: real)
    requires n > 0.0
    ensures total <= n * m ==> total / n <= m
    ensures total >= n * m ==> total / n >= m
  {
    assert total / n * n == total;
    if total / n > m {
      assert total / n * n > m * n;
    }
    if total / n < m {
      assert total / n * n < m * n;
    }
  }

  /** An average lies within any bounds of its terms. */
  lemma AverageWithin(xs: seq<real>, lo: real, hi: real)
    requires |xs| > 0
    requires forall i :: 0 <= i < |xs| ==> lo <= xs[i] <= hi
    ensures lo <= Sum(xs) / |xs| as real <= hi
  {
    SumBounds(xs, lo, hi);
    DivideBound(Sum(xs), |xs| as real, hi);
    DivideBound(Sum(xs), |xs| as real, lo);
  }

  /** An average lies between the smallest and the largest term. */
  lemma AverageBetweenExtremes(xs: seq<real>)
    requires |xs| > 0
    ensures MinOrZero(xs) <= Sum(xs) / |xs| as real <= MaxOrZero(xs)
  {
    AverageWithin(xs, MinOrZero(xs), MaxOrZero(xs));
  }

  function HoldSeconds(c: seq<RoundTrips.CompletedTrade>): real {
    if |c| == 0 then 0.0 else HoldSeconds(c[..|c| - 1]) + c[|c| - 1].holdingSeconds as real
  }

  function Volume(c: seq<RoundTrips.CompletedTrade>): real {
    if |c| == 0 then 0.0 else Volume(c[..|c| - 1]) + c[|c| - 1].entryNotional
  }

  /** Total volume of well-formed records is never negative. */
  lemma {:induction false} VolumeNonNegative(c: seq<RoundTrips.CompletedTrade>)
    requires RoundTrips.RecordsOk(c)
    ensures Volume(c) >= 0.0
  {
    if |c| > 0 {
      VolumeNonNegative(c[..|c| - 1]);
    }
  }

  /** The statistics record; the 30-day Sharpe ratio is not part of this model. */
  datatype PerformanceStats = PerformanceStats(
    winRate: real,
    totalTrades: nat,
    winningTrades: nat,
    losingTrades: nat,
    avgWin: real,
    avgLoss: real,
    profitFactor: real,
    largestWin: real,
    largestLoss: real,
    avgHoldTimeMinutes: real,
    totalVolume: real,
    maxDrawdown: real)

  const ZERO_STATS: PerformanceStats := PerformanceStats(0.0, 0, 0, 0, 0.0, 0.0, 0.0, 0.0, 0.0, 0.0, 0.0, 0.0)

  /** The statistics of some completed trades, with the drawdown of the equity curve. */
  function StatsOf(completed: seq<RoundTrips.CompletedTrade>, equities: seq<real>): PerformanceStats {
    if |completed| == 0 then ZERO_STATS
    else
      var wins := Wins(completed);
      var losses := Losses(completed);
      var total := |completed| as real;
      var avgWin := if |wins| > 0 then Sum(wins) / |wins| as real else 0.0;
      var avgLoss := if |losses| > 0 then Sum(losses) / |losses| as real else 0.0;
      PerformanceStats(
        |wins| as real / total * 100.0,
        |completed|,
        |wins|,
        |losses|,
        avgWin,
        avgLoss,
        if avgLoss != 0.0 then Abs(avgWin / avgLoss) else 0.0,
        MaxOrZero(wins),
        MinOrZero(losses),
        HoldSeconds(completed) / total / 60.0,
        Volume(completed),
        MaxDrawdown(equities))
  }

  /**
   * `GET /performance-stats` over the trade log and the equity curve (in
   * timestamp order): the all-zero record when no round trip has completed;
   * otherwise wins and losses partition the non-break-even trades, the win
   * rate is a percentage, the averages lie between zero and the extremes,
   * and the volume and drawdown are never negative.
   */
  function PerformanceStatsOf(trades: seq<Trade>, equities: seq<real>): (s: PerformanceStats)
    requires RoundTrips.TradesOk(trades)
    ensures |RoundTrips.RoundTrip(trades).completed| == 0 <==> s == ZERO_STATS
    ensures s.totalTrades == |RoundTrips.RoundTrip(trades).completed|
    ensures s.winningTrades + s.losingTrades <= s.totalTrades
    ensures 0.0 <= s.winRate <= 100.0
    ensures s.winningTrades > 0 ==> 0.0 < s.avgWin <= s.largestWin
    ensures s.losingTrades > 0 ==> s.largestLoss <= s.avgLoss < 0.0
    ensures s.winningTrades == 0 ==> s.avgWin == 0.0 && s.largestWin == 0.0
    ensures s.losingTrades == 0 ==> s.avgLoss == 0.0 && s.largestLoss == 0.0 && s.profitFactor == 0.0
    ensures s.profitFactor >= 0.0
    ensures s.totalVolume >= 0.0 && s.maxDrawdown >= 0.0
  {
    RoundTrips.RoundTripInvariant(trades);
    StatsOfBounds(RoundTrips.RoundTrip(trades).completed, equities);
    StatsOf(RoundTrips.RoundTrip(trades).completed, equities)
  }

  /** The average win is positive and at most the largest win. */
  lemma AverageWinBounds(wins: seq<real>)
    requires |wins| > 0 && forall i :: 0 <= i < |wins| ==> wins[i] > 0.0
    ensures 0.0 < Sum(wins) / |wins| as real <= MaxOrZero(wins)
  {
    AverageBetweenExtremes(wins);
    assert MinOrZero(wins) > 0.0;
  }

  /** The average loss is negative and at least the largest loss. */
  lemma AverageLossBounds(losses: seq<real>)
    requires |losses| > 0 && forall i :: 0 <= i < |losses| ==> losses[i] < 0.0
    ensures MinOrZero(losses) <= Sum(losses) / |losses| as real < 0.0
  {
    AverageBetweenExtremes(losses);
    assert MaxOrZero(losses) < 0.0;
  }

  /** A count out of a positive total is at most 100 percent. */
  lemma RateAtMostHundred(part: nat, total: nat)
    requires 0 < total && part <= total
    ensures 0.0 <= part as real / total as real * 100.0 <= 100.0
  {
    DivideBound(part as real, total as real, 1.0);
  }

  lemma StatsOfBounds(completed: seq<RoundTrips.CompletedTrade>, equities: seq<real>)
    requires RoundTrips.RecordsOk(completed)
    ensures var s := StatsOf(completed, equities);
      (|completed| == 0 <==> s == ZERO_STATS)
      && s.totalTrades == |completed|
      && s.winningTrades + s.losingTrades <= s.totalTrades
      && 0.0 <= s.winRate <= 100.0
      && (s.winningTrades > 0 ==> 0.0 < s.avgWin <= s.largestWin)
      && (s.losingTrades > 0 ==> s.largestLoss <= s.avgLoss < 0.0)
      && (s.winningTrades == 0 ==> s.avgWin == 0.0 && s.largestWin == 0.0)
      && (s.losingTrades == 0 ==> s.avgLoss == 0.0 && s.largestLoss == 0.0 && s.profitFactor == 0.0)
      && s.profitFactor >= 0.0
      && s.totalVolume >= 0.0 && s.maxDrawdown >= 0.0
  {
    if |completed| > 0 {
      var wins := Wins(completed);
      var losses := Losses(completed);
      WinsLossesPartition(completed);
      VolumeNonNegative(completed);
      MaxDrawdownNonNegative(equities);
      RateAtMostHundred(|wins|, |completed|);
      if |wins| > 0 {
        AverageWinBounds(wins);
      }
      if |losses| > 0 {
        AverageLossBounds(losses);
      }
    }
  }

  // ---------------------------------------------------------------------
  // Maximum drawdown
  // ---------------------------------------------------------------------

  /** Percent below `peak`, or 0 when the peak is not positive. */
  function DrawdownPct(peak: real, equity: real): real {
    if peak > 0.0 then (peak - equity) / peak * 100.0 else 0.0
  }

  /** The running peak after snapshot `k`: the first snapshot, raised by every later one up to `k`. */
  function PeakThrough(equities: seq<real>, k: nat): real
    requires k < |equities|
  {
    if k == 0 then equities[0] else Max(PeakThrough(equities, k - 1), equities[k])
  }

  /** The running peak is the largest of the snapshots so far. */
  lemma {:induction false} PeakThroughIsMaximum(equities: seq<real>, k: nat)
    requires k < |equities|
    ensures forall j :: 0 <= j <= k ==> equities[j] <= PeakThrough(equities, k)
    ensures exists j :: 0 <= j <= k && equities[j] == PeakThrough(equities, k)
  {
    if k > 0 {
      PeakThroughIsMaximum(equities, k - 1);
      if equities[k] < PeakThrough(equities, k - 1) {
        var j :| 0 <= j <= k - 1 && equities[j] == PeakThrough(equities, k - 1);
        assert 0 <= j <= k && equities[j] == PeakThrough(equities, k);
      } else {
        assert 0 <= k <= k && equities[k] == PeakThrough(equities, k);
      }
    } else {
      assert equities[0] == PeakThrough(equities, 0);
    }
  }

  /** The drawdown at snapshot `k` below the running peak. */
  function DrawdownAt(equities: seq<real>, k: nat): real
    requires k < |equities|
  {
    DrawdownPct(PeakThrough(equities, k), equities[k])
  }

  /** The largest drawdown at any of the first `n` snapshots, and 0 if none is positive. */
  function DrawdownThrough(equities: seq<real>, n: nat): real
    requires n <= |equities|
  {
    if n == 0 then 0.0
    else Max(DrawdownThrough(equities, n - 1), DrawdownAt(equities, n - 1))
  }

  /** The maximum drawdown of the equity curve in percent; 0 with fewer than two snapshots. */
  function MaxDrawdown(equities: seq<real>): real {
    if |equities| < 2 then 0.0 else DrawdownThrough(equities, |equities|)
  }

  /** `DrawdownThrough` is never negative and bounds the drawdown at each of the first `n` snapshots. */
  lemma {:induction false} DrawdownThroughBounds(equities: seq<real>, n: nat)
    requires n <= |equities|
    ensures DrawdownThrough(equities, n) >= 0.0
    ensures forall k :: 0 <= k < n ==> DrawdownAt(equities, k) <= DrawdownThrough(equities, n)
  {
    if n > 0 {
      DrawdownThroughBounds(equities, n - 1);
      var before := DrawdownThrough(equities, n - 1);
      var here := DrawdownAt(equities, n - 1);
      assert DrawdownThrough(equities, n) == Max(before, here);
    }
  }

  /** A positive `DrawdownThrough` is the drawdown at one of the first `n` snapshots. */
  lemma {:induction false} DrawdownThroughAttained(equities: seq<real>, n: nat)
    requires n <= |equities|
    ensures DrawdownThrough(equities, n) == 0.0
         || exists k :: 0 <= k < n && DrawdownAt(equities, k) == DrawdownThrough(equities, n)
  {
    if n > 0 {
      DrawdownThroughAttained(equities, n - 1);
      var before := DrawdownThrough(equities, n - 1);
      var here := DrawdownAt(equities, n - 1);
      assert DrawdownThrough(equities, n) == Max(before, here);
    }
  }

  lemma MaxDrawdownNonNegative(equities: seq<real>)
    ensures MaxDrawdown(equities) >= 0.0
  {
    if |equities| >= 2 {
      DrawdownThroughBounds(equities, |equities|);
    }
  }

  /** A drawdown below a positive peak of a non-negative equity is at most 100 percent. */
  lemma DrawdownAtMostHundred(peak: real, equity: real)
    requires equity >= 0.0 && equity <= peak
    ensures 0.0 <= DrawdownPct(peak, equity) <= 100.0
  {
    if peak > 0.0 {
      assert (peak - equity) / peak <= 1.0 by {
        assert (peak - equity) / peak * peak == peak - equity;
      }
      assert (peak - equity) / peak >= 0.0;
    }
  }

  /** With non-negative equity the drawdown never exceeds 100 percent. */
  lemma {:induction false} DrawdownThroughAtMostHundred(equities: seq<real>, n: nat)
    requires n <= |equities|
    requires forall i :: 0 <= i < |equities| ==> equities[i] >= 0.0
    ensures DrawdownThrough(equities, n) <= 100.0
  {
    if n > 0 {
      DrawdownThroughAtMostHundred(equities, n - 1);
      PeakThroughIsMaximum(equities, n - 1);
      DrawdownAtMostHundred(PeakThrough(equities, n - 1), equities[n - 1]);
    }
  }

  lemma MaxDrawdownAtMostHundred(equities: seq<real>)
    requires forall i :: 0 <= i < |equities| ==> equities[i] >= 0.0
    ensures 0.0 <= MaxDrawdown(equities) <= 100.0
  {
    MaxDrawdownNonNegative(equities);
    if |equities| >= 2 {
      DrawdownThroughAtMostHundred(equities, |equities|);
    }
  }

  /** A curve that never falls below its running peak has no drawdown. */
  lemma {:induction false} NonDecreasingCurveHasNoDrawdown(equities: seq<real>, n: nat)
    requires n <= |equities|
    requires forall i, j :: 0 <= i < j < |equities| ==> equities[i] <= equities[j]
    ensures DrawdownThrough(equities, n) == 0.0
  {
    if n > 0 {
      NonDecreasingCurveHasNoDrawdown(equities, n - 1);
      var k := n - 1;
      assert PeakThrough(equities, k) == equities[k] by {
        PeakThroughIsMaximum(equities, k);
        var j :| 0 <= j <= k && equities[j] == PeakThrough(equities, k);
      }
    }
  }

  /** The peak/drawdown loop of `get_performance_stats`. */
  method ComputeMaxDrawdown(equities: seq<real>) returns (maxDd: real)
    ensures maxDd == MaxDrawdown(equities)
  {
    maxDd := 0.0;
    if |equities| >= 2 {
      var peak := equities[0];
      var i := 0;
      while i < |equities|
        invariant 0 <= i <= |equities|
        invariant peak == PeakThrough(equities, if i == 0 then 0 else i - 1)
        invariant maxDd == DrawdownThrough(equities, i)
      {
        var equity := equities[i];
        if equity > peak {
          peak := equity;
        }
        var drawdown := if peak > 0.0 then (peak - equity) / peak * 100.0 else 0.0;
        maxDd := Max(maxDd, drawdown);
        i := i + 1;
      }
    }
  }
}
