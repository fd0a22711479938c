/**
 * The trades service settings that carry logic: the historical topic named
 * after the backfill job, the default job id taken from the clock, and the
 * two switches for live and historical ingestion. The clock is a parameter.
 */
module TradesSettings {
  import opened Wrappers
  import opened Strings
  import opened Trades

  /** The settings the logic reads; `backfillSince` is a point in time, abstracted to an int. */
  datatype Settings = Settings(
    topic: string,
    symbols: seq<Symbol>,
    backfillJobId: string,
    krakenBackfillTradesSince: Option<int>,
    krakenConsumeLiveTrades: bool)

  /** Python's `int(x)` on a float: truncation toward zero. */
  function TruncToInt(x: real): (r: int)
    ensures x >= 0.0 ==> r as real <= x < r as real + 1.0
    ensures x < 0.0 ==> r as real - 1.0 < x <= r as real
  {
    if x >= 0.0 then x.Floor else -((-x).Floor)
  }

  /** The default job id: `str(int(now.timestamp()))`, the decimal seconds of the clock. */
  function DefaultBackfillJobId(nowSeconds: real): (r: string)
    ensures |r| >= 1 && (AllDigits(r) || (r[0] == '-' && AllDigits(r[1..])))
    ensures ParseInt(r) == TruncToInt(nowSeconds)
    ensures nowSeconds >= 0.0 ==> AllDigits(r)
  {
    IntRoundTrip(TruncToInt(nowSeconds));
    IntToString(TruncToInt(nowSeconds))
  }

  /** The default settings, given the clock reading at start-up. */
  function DefaultSettings(nowSeconds: real): (s: Settings)
    ensures s.topic == "trades" && s.symbols == [XRPUSD]
    ensures s.backfillJobId == DefaultBackfillJobId(nowSeconds)
    ensures s.krakenBackfillTradesSince.None? && s.krakenConsumeLiveTrades
  {
    Settings("trades", [XRPUSD], DefaultBackfillJobId(nowSeconds), None, true)
  }

  /** `topic_historical`: `f"{topic}_historical_{backfill_job_id}"`. */
  function TopicHistorical(topic: string, jobId: string): (r: string)
    ensures topic < r && r != topic
    ensures r[|topic|..] == "_historical_" + jobId
  {
    topic + "_historical_" + jobId
  }

  /** For a fixed topic, the historical topic determines the job id. */
  lemma TopicHistoricalInjective(topic: string, a: string, b: string)
    requires TopicHistorical(topic, a) == TopicHistorical(topic, b)
    ensures a == b
  {
    assert a == TopicHistorical(topic, a)[|topic| + 12..];
    assert b == TopicHistorical(topic, b)[|topic| + 12..];
  }

  /** Default job ids from different whole seconds give different historical topics. */
  lemma DefaultJobIdsSeparateTopics(topic: string, t1: real, t2: real)
    requires TruncToInt(t1) != TruncToInt(t2)
    ensures TopicHistorical(topic, DefaultBackfillJobId(t1)) != TopicHistorical(topic, DefaultBackfillJobId(t2))
  {
    if TopicHistorical(topic, DefaultBackfillJobId(t1)) == TopicHistorical(topic, DefaultBackfillJobId(t2)) {
      TopicHistoricalInjective(topic, DefaultBackfillJobId(t1), DefaultBackfillJobId(t2));
      IntToStringInjective(TruncToInt(t1), TruncToInt(t2));
    }
  }

  /** `consume_historical_trades` runs only when a start time is configured (`if not since`). */
  predicate HistoricalIngestionActive(s: Settings)
  {
    s.krakenBackfillTradesSince.Some?
  }

  /** `consume_live_trades` runs only when live trades are switched on. */
  predicate LiveIngestionActive(s: Settings)
  {
    s.krakenConsumeLiveTrades
  }

  /** By default historical ingestion is off and live ingestion is on. */
  lemma DefaultsIngestLiveOnly(nowSeconds: real)
    ensures !HistoricalIngestionActive(DefaultSettings(nowSeconds))
    ensures LiveIngestionActive(DefaultSettings(nowSeconds))
  {
  }
}
