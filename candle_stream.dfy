/**
 * The candles service's stream: trades are grouped into tumbling windows of
 * one timeframe, each window is reduced to a candle (initialised by its
 * first trade, updated by the others), emitted per the emission mode, and
 * stamped with the window bounds.
 *
 * How the streaming library assigns trades to windows is not modelled: a
 * window is given as its bounds and its (non-empty) run of trades.
 */
module CandleStream {
  import opened Wrappers
  import opened Json
  import opened Trades
  import opened Candles

  /** Length in milliseconds of the tumbling window for a timeframe. */
  function WindowDurationMs(tf: CandleTimeframe): (r: int)
    ensures r > 0 && r % 1000 == 0 && r / 1000 == ToSec(tf)
  {
    ToSec(tf) * 1000
  }

  lemma WindowDurationIncreasing(a: CandleTimeframe, b: CandleTimeframe)
    requires Rank(a) < Rank(b)
    ensures WindowDurationMs(a) < WindowDurationMs(b)
  {
    ToSecStrictlyIncreasing(a, b);
  }

  /** A trade as the message value the stream consumes (`Trade.unpack()`). */
  function TradeMessage(t: Trade): map<string, Json>
  {
    map[
      "symbol" := JStr(SymbolValue(t.symbol)),
      "price" := JFloat(t.price),
      "volume" := JFloat(t.volume),
      "timestamp" := JInt(t.timestamp),
      "exchange" := JStr(ExchangeValue(t.exchange))]
  }

  /** `extract_ts`: the event time of a message is its `"timestamp"` entry (None: KeyError). */
  function ExtractTs(value: map<string, Json>): (r: Option<Json>)
    ensures r.Some? <==> "timestamp" in value
  {
    Get(value, "timestamp")
  }

  /** A trade's event time is its own timestamp. */
  lemma ExtractTsOfTrade(t: Trade)
    ensures ExtractTs(TradeMessage(t)) == Some(JInt(t.timestamp))
  {
  }

  /** A window as the library hands it over: bounds and the trades it holds, in arrival order. */
  datatype TradeWindow = TradeWindow(start: int, end: int, trades: seq<Trade>)

  /**
   * The window's reduce: initializer `Candle.init(timeframe, first)`, then
   * reducer `Candle.update` for every later trade, in order.
   */
  function Reduce(tf: CandleTimeframe, ts: seq<Trade>): (c: CandleProps)
    requires |ts| > 0
    ensures Summarises(c, tf, ts)
    ensures c.start.None? && c.end.None?
    decreases |ts|
  {
    if |ts| == 1 then Initial(tf, ts[0])
    else
      var init := ts[..|ts| - 1];
      var p := Reduce(tf, init);
      UpdatedSummarises(p, tf, init, Last(ts));
      assert init + [Last(ts)] == ts;
      Updated(p, Last(ts))
  }

  lemma ReduceOhlc(tf: CandleTimeframe, ts: seq<Trade>)
    requires |ts| > 0
    ensures Ohlc(Reduce(tf, ts))
    ensures Reduce(tf, ts).volume == SumVolume(ts)
  {
    SummarisesOhlc(Reduce(tf, ts), tf, ts);
  }

  /** Closing a candle does not touch what it summarises. */
  lemma ClosedSummarises(c: CandleProps, tf: CandleTimeframe, ts: seq<Trade>, s: int, e: int)
    requires Summarises(c, tf, ts)
    ensures Summarises(Closed(c, s, e), tf, ts) && Ohlc(Closed(c, s, e))
  {
    SummarisesOhlc(c, tf, ts);
  }

  /**
   * What the stream emits for one window: under LIVE (`current()`) the
   * partial candle after every trade, under FULL (`final()`) the reduced
   * candle once; each one passed through `close_window(start, end)`.
   */
  function Emitted(mode: EmissionMode, tf: CandleTimeframe, w: TradeWindow): (r: seq<CandleProps>)
    requires |w.trades| > 0
    ensures |r| == (if mode.Live? then |w.trades| else 1)
    ensures forall k :: 0 <= k < |r| ==> r[k].start == Some(w.start) && r[k].end == Some(w.end) && Ohlc(r[k])
    ensures mode.Live? ==> forall k :: 0 <= k < |r| ==> Summarises(r[k], tf, w.trades[..k + 1])
    ensures Summarises(Last(r), tf, w.trades)
  {
    var ts := w.trades;
    match mode
    case Live =>
      var r := seq(|ts|, k requires 0 <= k < |ts| => Closed(Reduce(tf, ts[..k + 1]), w.start, w.end));
      forall k | 0 <= k < |r|
        ensures r[k].start == Some(w.start) && r[k].end == Some(w.end)
        ensures Summarises(r[k], tf, ts[..k + 1]) && Ohlc(r[k])
      {
        ClosedSummarises(Reduce(tf, ts[..k + 1]), tf, ts[..k + 1], w.start, w.end);
      }
      assert ts[..|ts|] == ts;
      assert Last(r) == r[|ts| - 1];
      r
    case Full =>
      ClosedSummarises(Reduce(tf, ts), tf, ts, w.start, w.end);
      [Closed(Reduce(tf, ts), w.start, w.end)]
  }

  /** The last LIVE emission of a window is exactly the FULL emission. */
  lemma LiveEndsWithFull(tf: CandleTimeframe, w: TradeWindow)
    requires |w.trades| > 0
    ensures Last(Emitted(EmissionMode.Live, tf, w)) == Emitted(Full, tf, w)[0]
  {
    assert w.trades[..|w.trades|] == w.trades;
  }

  predicate AllNonEmpty(ws: seq<TradeWindow>)
  {
    forall i :: 0 <= i < |ws| ==> |ws[i].trades| > 0
  }

  /** The candles emitted for a sequence of windows, window after window. */
  function Stream(mode: EmissionMode, tf: CandleTimeframe, ws: seq<TradeWindow>): seq<CandleProps>
    requires AllNonEmpty(ws)
  {
    if ws == [] then [] else Emitted(mode, tf, ws[0]) + Stream(mode, tf, ws[1..])
  }

  function TradeCount(ws: seq<TradeWindow>): nat
  {
    if ws == [] then 0 else |ws[0].trades| + TradeCount(ws[1..])
  }

  /** FULL emits exactly one candle per window: the window's reduced candle with its bounds. */
  lemma {:induction false} FullStreamOnePerWindow(tf: CandleTimeframe, ws: seq<TradeWindow>)
    requires AllNonEmpty(ws)
    ensures |Stream(Full, tf, ws)| == |ws|
    ensures forall i :: 0 <= i < |ws| ==>
      Stream(Full, tf, ws)[i] == Closed(Reduce(tf, ws[i].trades), ws[i].start, ws[i].end)
  {
    if ws != [] {
      var tail := ws[1..];
      FullStreamOnePerWindow(tf, tail);
      var head := Emitted(Full, tf, ws[0]);
      var rest := Stream(Full, tf, tail);
      assert Stream(Full, tf, ws) == head + rest;
      assert head == [Closed(Reduce(tf, ws[0].trades), ws[0].start, ws[0].end)];
      forall i | 0 < i < |ws|
        ensures (head + rest)[i] == Closed(Reduce(tf, ws[i].trades), ws[i].start, ws[i].end)
      {
        assert (head + rest)[i] == rest[i - 1] && tail[i - 1] == ws[i];
      }
    }
  }

  /** LIVE emits exactly one candle per trade. */
  lemma {:induction false} LiveStreamOnePerTrade(tf: CandleTimeframe, ws: seq<TradeWindow>)
    requires AllNonEmpty(ws)
    ensures |Stream(EmissionMode.Live, tf, ws)| == TradeCount(ws)
  {
    if ws != [] {
      LiveStreamOnePerTrade(tf, ws[1..]);
    }
  }

  /** Every emitted candle, in either mode, keeps low <= open, close <= high and carries bounds. */
  lemma {:induction false} StreamOhlc(mode: EmissionMode, tf: CandleTimeframe, ws: seq<TradeWindow>)
    requires AllNonEmpty(ws)
    ensures forall c :: c in Stream(mode, tf, ws) ==> Ohlc(c) && c.start.Some? && c.end.Some?
  {
    if ws != [] {
      StreamOhlc(mode, tf, ws[1..]);
    }
  }
}
