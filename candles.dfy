/**
 * OHLC candles: the timeframe table, the candle record, how a candle is
 * started from a trade, updated by later trades and stamped with its
 * window, and the compatibility tests the TA service uses.
 */
module Candles {
  import opened Wrappers
  import opened Trades

  datatype CandleTimeframe = Tf1m | Tf5m | Tf15m | Tf30m | Tf1h | Tf4h | Tf1D | Tf1W | Tf1M

  /** The string value of a timeframe. */
  function TimeframeValue(tf: CandleTimeframe): string
  {
    match tf
    case Tf1m => "1m"
    case Tf5m => "5m"
    case Tf15m => "15m"
    case Tf30m => "30m"
    case Tf1h => "1h"
    case Tf4h => "4h"
    case Tf1D => "1D"
    case Tf1W => "1W"
    case Tf1M => "1M"
  }

  /** Position of a timeframe in its declaration order, shortest first. */
  function Rank(tf: CandleTimeframe): nat
  {
    match tf
    case Tf1m => 0
    case Tf5m => 1
    case Tf15m => 2
    case Tf30m => 3
    case Tf1h => 4
    case Tf4h => 5
    case Tf1D => 6
    case Tf1W => 7
    case Tf1M => 8
  }

  /** Length of a timeframe in seconds: a positive whole number of minutes. */
  function ToSec(tf: CandleTimeframe): (r: int)
    ensures r > 0 && r % 60 == 0
    ensures 60 <= r <= 2592000
  {
    match tf
    case Tf1m => 60 * 1
    case Tf5m => 60 * 5
    case Tf15m => 60 * 15
    case Tf30m => 60 * 30
    case Tf1h => 60 * 60 * 1
    case Tf4h => 60 * 60 * 4
    case Tf1D => 60 * 60 * 24
    case Tf1W => 60 * 60 * 24 * 7
    case Tf1M => 60 * 60 * 24 * 30
  }

  /** Longer timeframes in declaration order have strictly more seconds. */
  lemma ToSecStrictlyIncreasing(a: CandleTimeframe, b: CandleTimeframe)
    requires Rank(a) < Rank(b)
    ensures ToSec(a) < ToSec(b)
  {
  }

  lemma ToSecBounds()
    ensures ToSec(Tf1m) == 60 && ToSec(Tf1M) == 2592000
    ensures forall tf :: ToSec(Tf1m) <= ToSec(tf) <= ToSec(Tf1M)
  {
  }

  /** LIVE emits the partial candle after each trade; FULL emits once the window closes. */
  datatype EmissionMode = Live | Full

  /** The fields of a candle; `start` and `end` are None until the window is closed. */
  datatype CandleProps = CandleProps(
    symbol: Symbol,
    timeframe: CandleTimeframe,
    exchange: Exchange,
    open: real,
    high: real,
    low: real,
    close: real,
    volume: real,
    timestamp: int,
    start: Option<int>,
    end: Option<int>)

  // ---------------------------------------------------------------------------
  // Reference view of a run of trades, independent of the fold below.

  function Last<T>(s: seq<T>): T
    requires |s| > 0
  {
    s[|s| - 1]
  }

  function Max(a: real, b: real): real { if a >= b then a else b }

  function Min(a: real, b: real): real { if a <= b then a else b }

  /** Highest price of a non-empty run of trades. */
  function MaxPrice(ts: seq<Trade>): real
    requires |ts| > 0
  {
    if |ts| == 1 then ts[0].price else Max(MaxPrice(ts[..|ts| - 1]), Last(ts).price)
  }

  /** Lowest price of a non-empty run of trades. */
  function MinPrice(ts: seq<Trade>): real
    requires |ts| > 0
  {
    if |ts| == 1 then ts[0].price else Min(MinPrice(ts[..|ts| - 1]), Last(ts).price)
  }

  /** Summed volume of a run of trades. */
  function SumVolume(ts: seq<Trade>): real
  {
    if ts == [] then 0.0 else SumVolume(ts[..|ts| - 1]) + Last(ts).volume
  }

  /** Every price of the run lies between its lowest and highest price, and both are attained. */
  lemma {:induction false} PriceBounds(ts: seq<Trade>)
    requires |ts| > 0
    ensures forall i :: 0 <= i < |ts| ==> MinPrice(ts) <= ts[i].price <= MaxPrice(ts)
    ensures exists i :: 0 <= i < |ts| && ts[i].price == MaxPrice(ts)
    ensures exists i :: 0 <= i < |ts| && ts[i].price == MinPrice(ts)
  {
    if |ts| > 1 {
      var init := ts[..|ts| - 1];
      PriceBounds(init);
      assert forall i :: 0 <= i < |init| ==> init[i] == ts[i];
      var j :| 0 <= j < |init| && init[j].price == MaxPrice(init);
      var k :| 0 <= k < |init| && init[k].price == MinPrice(init);
      if MaxPrice(ts) == MaxPrice(init) { assert ts[j].price == MaxPrice(ts); }
      else { assert ts[|ts| - 1].price == MaxPrice(ts); }
      if MinPrice(ts) == MinPrice(init) { assert ts[k].price == MinPrice(ts); }
      else { assert ts[|ts| - 1].price == MinPrice(ts); }
    } else {
      assert ts[0].price == MaxPrice(ts) == MinPrice(ts);
    }
  }

  /** `c` is the candle of the run `ts` under timeframe `tf`. */
  ghost predicate Summarises(c: CandleProps, tf: CandleTimeframe, ts: seq<Trade>)
  {
    && |ts| > 0
    && c.symbol == ts[0].symbol
    && c.exchange == ts[0].exchange
    && c.timeframe == tf
    && c.open == ts[0].price
    && c.close == Last(ts).price
    && c.high == MaxPrice(ts)
    && c.low == MinPrice(ts)
    && c.volume == SumVolume(ts)
    && c.timestamp == Last(ts).timestamp
  }

  /** The OHLC invariant: open and close lie between low and high. */
  predicate Ohlc(c: CandleProps)
  {
    c.low <= c.open <= c.high && c.low <= c.close <= c.high
  }

  lemma SummarisesOhlc(c: CandleProps, tf: CandleTimeframe, ts: seq<Trade>)
    requires Summarises(c, tf, ts)
    ensures Ohlc(c)
  {
    PriceBounds(ts);
  }

  // ---------------------------------------------------------------------------
  // The candle operations as values; the stream re-parses a fresh candle at
  // every step, so these are what it computes.

  /** `Candle.init`: the candle of a single trade, with no window bounds yet. */
  function Initial(tf: CandleTimeframe, first: Trade): (c: CandleProps)
    ensures Summarises(c, tf, [first])
    ensures Ohlc(c) && c.open == c.high == c.low == c.close
    ensures c.start.None? && c.end.None?
  {
    CandleProps(first.symbol, tf, first.exchange,
      first.price, first.price, first.price, first.price,
      first.volume, first.timestamp, None, None)
  }

  /** `Candle.update`: fold one more trade into the candle. */
  function Updated(c: CandleProps, t: Trade): (r: CandleProps)
    ensures r.high >= c.high && r.high >= t.price && (r.high == c.high || r.high == t.price)
    ensures r.low <= c.low && r.low <= t.price && (r.low == c.low || r.low == t.price)
    ensures r.close == t.price && r.timestamp == t.timestamp
    ensures r.volume == c.volume + t.volume
    ensures r.(high := c.high, low := c.low, close := c.close, volume := c.volume, timestamp := c.timestamp) == c
    ensures Ohlc(c) ==> Ohlc(r)
  {
    c.(high := Max(c.high, t.price),
       low := Min(c.low, t.price),
       close := t.price,
       volume := c.volume + t.volume,
       timestamp := t.timestamp)
  }

  /** `Candle.close_window`: stamp the window bounds and change nothing else. */
  function Closed(c: CandleProps, start: int, end: int): (r: CandleProps)
    ensures r.start == Some(start) && r.end == Some(end)
    ensures r.(start := c.start, end := c.end) == c
  {
    c.(start := Some(start), end := Some(end))
  }

  /** Updating the candle of `ts` with `t` gives the candle of `ts + [t]`. */
  lemma UpdatedSummarises(c: CandleProps, tf: CandleTimeframe, ts: seq<Trade>, t: Trade)
    requires Summarises(c, tf, ts)
    ensures Summarises(Updated(c, t), tf, ts + [t])
  {
    var ts' := ts + [t];
    assert ts'[..|ts'| - 1] == ts;
  }

  /** `Candle.is_compatible`: false for None, otherwise same symbol and timeframe. */
  predicate IsCompatible(c: CandleProps, other: Option<CandleProps>)
  {
    other.Some? && c.symbol == other.value.symbol && c.timeframe == other.value.timeframe
  }

  /** `Candle.is_same_window`: compatible and with the same window bounds. */
  predicate IsSameWindow(c: CandleProps, other: Option<CandleProps>)
  {
    other.Some? && IsCompatible(c, other) && c.start == other.value.start && c.end == other.value.end
  }

  lemma CompatibleProperties(a: CandleProps, b: CandleProps)
    ensures !IsCompatible(a, None)
    ensures IsCompatible(a, Some(b)) <==> a.symbol == b.symbol && a.timeframe == b.timeframe
    ensures IsCompatible(a, Some(b)) == IsCompatible(b, Some(a))
    ensures IsCompatible(a, Some(a))
  {
  }

  lemma SameWindowProperties(a: CandleProps, other: Option<CandleProps>)
    ensures !IsSameWindow(a, None)
    ensures IsSameWindow(a, other) ==> IsCompatible(a, other)
    ensures IsSameWindow(a, Some(a))
  {
  }

  // ---------------------------------------------------------------------------
  // The mutable candle object: `update` and `close_window` assign fields of
  // `self` and return it.

  class Candle {
    var symbol: Symbol
    var timeframe: CandleTimeframe
    var exchange: Exchange
    var open: real
    var high: real
    var low: real
    var close: real
    var volume: real
    var timestamp: int
    var start: Option<int>
    var end: Option<int>

    /** The candle's fields as a value (`unpack`). */
    function Value(): CandleProps
      reads this
    {
      CandleProps(symbol, timeframe, exchange, open, high, low, close, volume, timestamp, start, end)
    }

    /** `Candle.init(timeframe, first_trade)`. */
    constructor Init(tf: CandleTimeframe, first: Trade)
      ensures Value() == Initial(tf, first)
    {
      symbol := first.symbol;
      timeframe := tf;
      exchange := first.exchange;
      open := first.price;
      high := first.price;
      low := first.price;
      close := first.price;
      volume := first.volume;
      timestamp := first.timestamp;
      start := None;
      end := None;
    }

    /** `update(trade)`: fold the trade in place and return this candle. */
    method Update(t: Trade) returns (r: Candle)
      modifies this
      ensures r == this
      ensures Value() == Updated(old(Value()), t)
    {
      high := Max(high, t.price);
      low := Min(low, t.price);
      close := t.price;
      volume := volume + t.volume;
      timestamp := t.timestamp;
      r := this;
    }

    /** `close_window(start, end)`: set the window bounds in place and return this candle. */
    method CloseWindow(s: int, e: int) returns (r: Candle)
      modifies this
      ensures r == this
      ensures Value() == Closed(old(Value()), s, e)
    {
      start := Some(s);
      end := Some(e);
      r := this;
    }
  }
}
