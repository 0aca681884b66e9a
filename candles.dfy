/**
 * The live market-data feed's candle buffers (apps/worker/market/coinbase_ws.py):
 * per-symbol lists of 1-minute and 4-hour candles that every valid ticker
 * message extends or updates in place, each list bounded by a cap.
 *
 * Timestamps are integer seconds of UTC; candle timestamps are the bucket
 * start in milliseconds, as the source stores them.
 */
module Candles {
  import opened Wrappers
  import opened Broker

  /** Caps of the two buffers: 4 hours of minutes, about 8 days of 4-hour candles. */
  const MINUTE_CAP: nat := 240
  const FOUR_HOUR_CAP: nat := 50

  /** One OHLCV candle `[timestamp_ms, open, high, low, close, volume]`. */
  datatype Candle = Candle(ts: int, open: real, high: real, low: real, close: real, volume: real)

  /** The OHLC shape: open and close lie between low and high. */
  predicate OhlcOk(c: Candle) {
    c.low <= c.open <= c.high && c.low <= c.close <= c.high
  }

  predicate AllOhlcOk(buffer: seq<Candle>) {
    forall i :: 0 <= i < |buffer| ==> OhlcOk(buffer[i])
  }

  /** Start of the minute holding `ts`, in milliseconds. */
  function MinuteBucket(ts: int): (ms: int)
    ensures ms % 60000 == 0
    ensures ms <= ts * 1000 < ms + 60000
  {
    (ts - ts % 60) * 1000
  }

  /**
   * Start of the 4-hour block holding `ts`, in milliseconds, computed as the
   * source does: midnight of the day plus the hour rounded down to a
   * multiple of four.
   */
  function FourHourBucket(ts: int): int {
    var day := ts - ts % 86400;
    var hour := (ts % 86400) / 3600;
    (day + (hour / 4) * 4 * 3600) * 1000
  }

  /** The 4-hour bucket is the start of the aligned 14400-second block holding `ts`. */
  lemma FourHourBucketAligned(ts: int)
    ensures FourHourBucket(ts) == (ts - ts % 14400) * 1000
    ensures FourHourBucket(ts) <= ts * 1000 < FourHourBucket(ts) + 14400000
  {
    var d := ts / 86400;
    var s := ts % 86400;
    assert ts == d * 86400 + s;
    var h := s / 3600;
    var q := h / 4;
    assert s == q * 14400 + (h % 4) * 3600 + s % 3600;
    assert 0 <= (h % 4) * 3600 + s % 3600 < 14400;
    assert ts == (d * 6 + q) * 14400 + ((h % 4) * 3600 + s % 3600);
    assert ts / 14400 == d * 6 + q;
  }

  /**
   * One tick folded into a buffer: a tick in a new bucket (or on an empty
   * buffer) appends a fresh candle at the mid price with zero volume and
   * drops the oldest candle when the buffer then exceeds `cap`; a tick in
   * the newest candle's bucket raises its high, lowers its low and sets its
   * close, keeping its open and volume.
   */
  function NextBuffer(buffer: seq<Candle>, bucket: int, mid: real, cap: nat): (r: seq<Candle>)
    requires cap > 0
    ensures |r| > 0
    ensures (|buffer| == 0 || buffer[|buffer| - 1].ts != bucket) ==>
      r[|r| - 1] == Candle(bucket, mid, mid, mid, mid, 0.0)
      && (|buffer| + 1 > cap ==> r == buffer[1..] + [r[|r| - 1]])
      && (|buffer| + 1 <= cap ==> r == buffer + [r[|r| - 1]])
    ensures |buffer| > 0 && buffer[|buffer| - 1].ts == bucket ==>
      var c := buffer[|buffer| - 1];
      |r| == |buffer| && r[..|r| - 1] == buffer[..|buffer| - 1]
      && r[|r| - 1] == Candle(c.ts, c.open, Max(c.high, mid), Min(c.low, mid), mid, c.volume)
  {
    if |buffer| == 0 || buffer[|buffer| - 1].ts != bucket then
      var appended := buffer + [Candle(bucket, mid, mid, mid, mid, 0.0)];
      if |appended| > cap then appended[1..] else appended
    else
      var c := buffer[|buffer| - 1];
      buffer[|buffer| - 1 := c.(high := Max(c.high, mid), low := Min(c.low, mid), close := mid)]
  }

  /** A buffer within its cap stays within it (at most one candle longer than before). */
  lemma NextBufferBounded(buffer: seq<Candle>, bucket: int, mid: real, cap: nat)
    requires cap > 0
    ensures |NextBuffer(buffer, bucket, mid, cap)| <= |buffer| + 1
    ensures |buffer| <= cap ==> |NextBuffer(buffer, bucket, mid, cap)| <= cap
  {
  }

  /** Every tick keeps low <= open, close <= high for every candle of the buffer. */
  lemma NextBufferKeepsOhlc(buffer: seq<Candle>, bucket: int, mid: real, cap: nat)
    requires cap > 0 && AllOhlcOk(buffer)
    ensures AllOhlcOk(NextBuffer(buffer, bucket, mid, cap))
  {
    var r := NextBuffer(buffer, bucket, mid, cap);
    forall i | 0 <= i < |r| ensures OhlcOk(r[i]) {
      if |buffer| == 0 || buffer[|buffer| - 1].ts != bucket {
        if i < |r| - 1 {
          assert r[i] in buffer;
        }
      } else if i < |r| - 1 {
        assert r[i] == buffer[i];
      }
    }
  }

  /**
   * The bucket test is "differs from the newest candle", not "is later": a
   * tick stamped before the newest candle's bucket appends a new candle.
   */
  lemma OutOfOrderTickAppends(buffer: seq<Candle>, bucket: int, mid: real, cap: nat)
    requires cap > 0 && |buffer| > 0 && bucket < buffer[|buffer| - 1].ts
    ensures var r := NextBuffer(buffer, bucket, mid, cap);
      r[|r| - 1].ts == bucket && r[|r| - 1].ts < buffer[|buffer| - 1].ts
  {
  }

  /** A ticker message, reduced to the fields the feed reads; a missing or unparsable time is `None`. */
  datatype FeedMessage = FeedMessage(msgType: string, productId: string, bestBid: real, bestAsk: real, time: Option<int>)

  /** A tick handed to the tick callback. */
  datatype Tick = Tick(symbol: string, bestBid: real, bestAsk: real, ts: int)

  /** The messages that reach the callback and the candle buffers. */
  predicate IsValidTicker(m: FeedMessage) {
    m.msgType == "ticker" && m.bestBid > 0.0 && m.bestAsk > 0.0
  }

  /** `d.get(symbol, [])`. */
  function BufferOf(buffers: map<string, seq<Candle>>, symbol: string): (b: seq<Candle>)
    ensures symbol !in buffers ==> b == []
    ensures symbol in buffers ==> b == buffers[symbol]
  {
    if symbol in buffers then buffers[symbol] else []
  }

  /** The buffers the feed starts from: the prefilled list of every subscribed symbol, or an empty one. */
  function InitialBuffers(symbols: seq<string>, prefilled: map<string, seq<Candle>>): (m: map<string, seq<Candle>>)
    ensures m.Keys == set s | s in symbols
    ensures forall s :: s in m ==> m[s] == BufferOf(prefilled, s)
  {
    map s | s in symbols :: BufferOf(prefilled, s)
  }

  class CoinbaseFeed {
    const symbols: seq<string>
    var candleBuffer: map<string, seq<Candle>>
    var candle4hBuffer: map<string, seq<Candle>>
    var lastTickTime: int
    /** The ticks handed to the tick callback, in order. */
    var delivered: seq<Tick>

    constructor(symbols: seq<string>, prefilled1m: map<string, seq<Candle>>, prefilled4h: map<string, seq<Candle>>, now: int)
      ensures this.symbols == symbols
      ensures candleBuffer == InitialBuffers(symbols, prefilled1m)
      ensures candle4hBuffer == InitialBuffers(symbols, prefilled4h)
      ensures lastTickTime == now && delivered == []
    {
      this.symbols := symbols;
      candleBuffer := InitialBuffers(symbols, prefilled1m);
      candle4hBuffer := InitialBuffers(symbols, prefilled4h);
      lastTickTime := now;
      delivered := [];
    }

    /**
     * `_handle_message`: a ticker with a positive bid and ask goes to the
     * tick callback and both candle buffers of its product; everything
     * else changes nothing. A missing or unparsable time stands for `now`.
     */
    method HandleMessage(m: FeedMessage, now: int)
      modifies this
      ensures !IsValidTicker(m) ==>
        candleBuffer == old(candleBuffer) && candle4hBuffer == old(candle4hBuffer)
        && delivered == old(delivered) && lastTickTime == old(lastTickTime)
      ensures IsValidTicker(m) ==>
        var ts := m.time.GetOr(now);
        var mid := (m.bestBid + m.bestAsk) / 2.0;
        delivered == old(delivered) + [Tick(m.productId, m.bestBid, m.bestAsk, ts)]
        && lastTickTime == now
        && candleBuffer == old(candleBuffer)[m.productId :=
             NextBuffer(BufferOf(old(candleBuffer), m.productId), MinuteBucket(ts), mid, MINUTE_CAP)]
        && candle4hBuffer == old(candle4hBuffer)[m.productId :=
             NextBuffer(BufferOf(old(candle4hBuffer), m.productId), FourHourBucket(ts), mid, FOUR_HOUR_CAP)]
      ensures old(BuffersOk()) ==> BuffersOk()
    {
      if m.msgType == "ticker" {
        var ts := m.time.GetOr(now);
        if m.bestBid > 0.0 && m.bestAsk > 0.0 {
          if BuffersOk() {
            HandleMessageKeepsBuffers(candleBuffer, candle4hBuffer, m.productId, ts, (m.bestBid + m.bestAsk) / 2.0);
          }
          lastTickTime := now;
          delivered := delivered + [Tick(m.productId, m.bestBid, m.bestAsk, ts)];
          UpdateCandleBuffer(m.productId, m.bestBid, m.bestAsk, ts);
          Update4hCandleBuffer(m.productId, m.bestBid, m.bestAsk, ts);
        }
      }
    }

    /** `_update_candle_buffer`: folds a tick into the symbol's 1-minute buffer. */
    method UpdateCandleBuffer(symbol: string, bid: real, ask: real, ts: int)
      modifies this
      ensures candleBuffer == old(candleBuffer)[symbol :=
        NextBuffer(BufferOf(old(candleBuffer), symbol), MinuteBucket(ts), (bid + ask) / 2.0, MINUTE_CAP)]
      ensures candle4hBuffer == old(candle4hBuffer) && delivered == old(delivered) && lastTickTime == old(lastTickTime)
    {
      var mid := (bid + ask) / 2.0;
      var bucket := MinuteBucket(ts);
      var buffer := BufferOf(candleBuffer, symbol);
      if |buffer| == 0 || buffer[|buffer| - 1].ts != bucket {
        buffer := buffer + [Candle(bucket, mid, mid, mid, mid, 0.0)];
        if |buffer| > MINUTE_CAP {
          buffer := buffer[1..];
        }
      } else {
        var candle := buffer[|buffer| - 1];
        candle := candle.(high := Max(candle.high, mid));
        candle := candle.(low := Min(candle.low, mid));
        candle := candle.(close := mid);
        buffer := buffer[|buffer| - 1 := candle];
      }
      candleBuffer := candleBuffer[symbol := buffer];
    }

    /** `_update_4h_candle_buffer`: folds a tick into the symbol's 4-hour buffer. */
    method Update4hCandleBuffer(symbol: string, bid: real, ask: real, ts: int)
      modifies this
      ensures candle4hBuffer == old(candle4hBuffer)[symbol :=
        NextBuffer(BufferOf(old(candle4hBuffer), symbol), FourHourBucket(ts), (bid + ask) / 2.0, FOUR_HOUR_CAP)]
      ensures candleBuffer == old(candleBuffer) && delivered == old(delivered) && lastTickTime == old(lastTickTime)
    {
      var mid := (bid + ask) / 2.0;
      var hour4h := ((ts % 86400) / 3600 / 4) * 4;
      var bucket := (ts - ts % 86400 + hour4h * 3600) * 1000;
      var buffer := BufferOf(candle4hBuffer, symbol);
      if |buffer| == 0 || buffer[|buffer| - 1].ts != bucket {
        buffer := buffer + [Candle(bucket, mid, mid, mid, mid, 0.0)];
        if |buffer| > FOUR_HOUR_CAP {
          buffer := buffer[1..];
        }
      } else {
        var candle := buffer[|buffer| - 1];
        candle := candle.(high := Max(candle.high, mid));
        candle := candle.(low := Min(candle.low, mid));
        candle := candle.(close := mid);
        buffer := buffer[|buffer| - 1 := candle];
      }
      candle4hBuffer := candle4hBuffer[symbol := buffer];
    }

    /** `get_candles`: the symbol's 1-minute buffer, empty for a symbol never seen. */
    function GetCandles(symbol: string): (r: seq<Candle>)
      reads this
      ensures symbol !in candleBuffer ==> r == []
      ensures symbol in candleBuffer ==> r == candleBuffer[symbol]
    {
      BufferOf(candleBuffer, symbol)
    }

    /** `get_4h_candles`: the symbol's 4-hour buffer, empty for a symbol never seen. */
    function Get4hCandles(symbol: string): (r: seq<Candle>)
      reads this
      ensures symbol !in candle4hBuffer ==> r == []
      ensures symbol in candle4hBuffer ==> r == candle4hBuffer[symbol]
    {
      BufferOf(candle4hBuffer, symbol)
    }

    /** Buffers within their caps whose candles have the OHLC shape. */
    ghost predicate BuffersOk()
      reads this
    {
      (forall s :: s in candleBuffer ==> |candleBuffer[s]| <= MINUTE_CAP && AllOhlcOk(candleBuffer[s]))
      && (forall s :: s in candle4hBuffer ==> |candle4hBuffer[s]| <= FOUR_HOUR_CAP && AllOhlcOk(candle4hBuffer[s]))
    }
  }

  /** Handling any message keeps the buffers within their caps and keeps every candle's OHLC shape. */
  lemma HandleMessageKeepsBuffers(before1m: map<string, seq<Candle>>, before4h: map<string, seq<Candle>>,
                                  symbol: string, ts: int, mid: real)
    requires forall s :: s in before1m ==> |before1m[s]| <= MINUTE_CAP && AllOhlcOk(before1m[s])
    requires forall s :: s in before4h ==> |before4h[s]| <= FOUR_HOUR_CAP && AllOhlcOk(before4h[s])
    ensures var after1m := before1m[symbol := NextBuffer(BufferOf(before1m, symbol), MinuteBucket(ts), mid, MINUTE_CAP)];
      forall s :: s in after1m ==> |after1m[s]| <= MINUTE_CAP && AllOhlcOk(after1m[s])
    ensures var after4h := before4h[symbol := NextBuffer(BufferOf(before4h, symbol), FourHourBucket(ts), mid, FOUR_HOUR_CAP)];
      forall s :: s in after4h ==> |after4h[s]| <= FOUR_HOUR_CAP && AllOhlcOk(after4h[s])
  {
    NextBufferBounded(BufferOf(before1m, symbol), MinuteBucket(ts), mid, MINUTE_CAP);
    NextBufferKeepsOhlc(BufferOf(before1m, symbol), MinuteBucket(ts), mid, MINUTE_CAP);
    NextBufferBounded(BufferOf(before4h, symbol), FourHourBucket(ts), mid, FOUR_HOUR_CAP);
    NextBufferKeepsOhlc(BufferOf(before4h, symbol), FourHourBucket(ts), mid, FOUR_HOUR_CAP);
  }
}
