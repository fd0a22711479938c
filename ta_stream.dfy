/**
 * The TA service's per-key rolling candle buffer: a compatibility filter
 * against the last stored candle, the in-place update that replaces or
 * appends and evicts the oldest candle past the bound, and the series the
 * indicators are computed from.
 */
module TaStream {
  import opened Wrappers
  import opened Candles

  /** Default bound on the number of candles kept per key (`max_candles_in_state`). */
  const MaxCandlesInStateDefault: int := 60

  /** `get_last_candle` on a stored list: None when empty, else the last element. */
  function LastCandle(s: seq<CandleProps>): (r: Option<CandleProps>)
    ensures r.None? <==> s == []
    ensures r.Some? ==> r.value == s[|s| - 1]
  {
    if s == [] then None else Some(s[|s| - 1])
  }

  /** `is_compatible_with_last_candle_if_any` on a stored list. */
  predicate CompatibleWithLastIfAny(latest: CandleProps, s: seq<CandleProps>)
  {
    LastCandle(s).None? || IsCompatible(latest, LastCandle(s))
  }

  lemma FilterProperties(latest: CandleProps, s: seq<CandleProps>)
    ensures s == [] ==> CompatibleWithLastIfAny(latest, s)
    ensures s != [] ==> (CompatibleWithLastIfAny(latest, s) <==>
      latest.symbol == s[|s| - 1].symbol && latest.timeframe == s[|s| - 1].timeframe)
  {
  }

  /** The stored list after `update_state_with_latest`. */
  function UpdatedCandles(s: seq<CandleProps>, latest: CandleProps, maxCandles: int): seq<CandleProps>
  {
    var grown := if IsSameWindow(latest, LastCandle(s)) then s[..|s| - 1] + [latest] else s + [latest];
    if |grown| > maxCandles then grown[1..] else grown
  }

  /**
   * The update keeps the stored candles other than a replaced last one in
   * order, drops exactly the oldest one when the list grows past the bound,
   * and ends with `latest`.
   */
  lemma UpdatedCandlesShape(s: seq<CandleProps>, latest: CandleProps, maxCandles: int)
    requires maxCandles >= 1
    ensures var same := IsSameWindow(latest, LastCandle(s));
            var kept := if same then |s| - 1 else |s|;
            var drop := if kept + 1 > maxCandles then 1 else 0;
            0 <= drop <= kept &&
            UpdatedCandles(s, latest, maxCandles) == s[drop..kept] + [latest]
  {
  }

  /** A candle of the last window replaces the last element; the length does not change. */
  lemma SameWindowReplacesLast(s: seq<CandleProps>, latest: CandleProps, maxCandles: int)
    requires IsSameWindow(latest, LastCandle(s))
    requires |s| <= maxCandles
    ensures s != []
    ensures UpdatedCandles(s, latest, maxCandles) == s[..|s| - 1] + [latest]
    ensures |UpdatedCandles(s, latest, maxCandles)| == |s|
  {
  }

  /** A candle of a new window, or one arriving on an empty list, is appended. */
  lemma NewWindowAppends(s: seq<CandleProps>, latest: CandleProps, maxCandles: int)
    requires !IsSameWindow(latest, LastCandle(s))
    requires |s| < maxCandles
    ensures UpdatedCandles(s, latest, maxCandles) == s + [latest]
  {
  }

  /** On a full list, a new window evicts exactly the oldest candle. */
  lemma OverflowEvictsOldest(s: seq<CandleProps>, latest: CandleProps, maxCandles: int)
    requires !IsSameWindow(latest, LastCandle(s))
    requires |s| == maxCandles > 0
    ensures UpdatedCandles(s, latest, maxCandles) == s[1..] + [latest]
  {
  }

  /** The bound is an invariant of the update. */
  lemma UpdatePreservesBound(s: seq<CandleProps>, latest: CandleProps, maxCandles: int)
    requires 0 <= maxCandles && |s| <= maxCandles
    ensures |UpdatedCandles(s, latest, maxCandles)| <= maxCandles
  {
  }

  /** With room for at least one candle, the last stored candle afterwards is `latest`. */
  lemma UpdateEndsWithLatest(s: seq<CandleProps>, latest: CandleProps, maxCandles: int)
    requires maxCandles >= 1
    ensures LastCandle(UpdatedCandles(s, latest, maxCandles)) == Some(latest)
  {
  }

  /** With a bound of zero nothing is ever kept, so the last candle is not `latest`. */
  lemma ZeroBoundKeepsNothing(s: seq<CandleProps>, latest: CandleProps)
    requires |s| <= 0
    ensures UpdatedCandles(s, latest, 0) == []
  {
  }

  /** The series handed to `TechnicalAnalysis.calc`: the latest candle and four columns of the state. */
  datatype TaInput = TaInput(candle: CandleProps, high: seq<real>, low: seq<real>, close: seq<real>, volume: seq<real>)

  /** `generate_ta`'s column extraction, in state order. */
  function TaInputOf(latest: CandleProps, s: seq<CandleProps>): (r: TaInput)
    ensures r.candle == latest
    ensures |r.high| == |r.low| == |r.close| == |r.volume| == |s|
    ensures forall i :: 0 <= i < |s| ==>
      r.high[i] == s[i].high && r.low[i] == s[i].low && r.close[i] == s[i].close && r.volume[i] == s[i].volume
  {
    TaInput(latest,
      seq(|s|, i requires 0 <= i < |s| => s[i].high),
      seq(|s|, i requires 0 <= i < |s| => s[i].low),
      seq(|s|, i requires 0 <= i < |s| => s[i].close),
      seq(|s|, i requires 0 <= i < |s| => s[i].volume))
  }

  /**
   * After the update, with room for at least one candle, every series the
   * indicators see ends with the latest candle's own value and is no longer
   * than the bound (when the stored list respected it).
   */
  lemma TaSeriesEndWithLatest(s: seq<CandleProps>, latest: CandleProps, maxCandles: int)
    requires maxCandles >= 1 && |s| <= maxCandles
    ensures var t := TaInputOf(latest, UpdatedCandles(s, latest, maxCandles));
            1 <= |t.close| <= maxCandles &&
            t.high[|t.high| - 1] == latest.high && t.low[|t.low| - 1] == latest.low &&
            t.close[|t.close| - 1] == latest.close && t.volume[|t.volume| - 1] == latest.volume
  {
    UpdateEndsWithLatest(s, latest, maxCandles);
    UpdatePreservesBound(s, latest, maxCandles);
  }

  /**
   * The state store of one message key; `candles` is its `"candles"` entry,
   * an absent entry reading as the empty list.
   */
  class CandleState {
    var candles: seq<CandleProps>

    constructor ()
      ensures candles == []
    {
      candles := [];
    }

    /** `get_candle_state`. */
    function GetCandleState(): seq<CandleProps>
      reads this
    {
      candles
    }

    /** `get_last_candle`. */
    function GetLastCandle(): (r: Option<CandleProps>)
      reads this
      ensures r.None? <==> candles == []
      ensures r.Some? ==> r.value == candles[|candles| - 1]
    {
      LastCandle(candles)
    }

    /** `is_compatible_with_last_candle_if_any`: the filter in front of the update. */
    predicate IsCompatibleWithLastCandleIfAny(latest: CandleProps)
      reads this
    {
      CompatibleWithLastIfAny(latest, candles)
    }

    /**
     * `update_state_with_latest`: replace the last candle when `latest` is in
     * its window, otherwise append; then drop the oldest candle if the list
     * is longer than `maxCandles`; write the list back and return `latest`.
     */
    method UpdateStateWithLatest(latest: CandleProps, maxCandles: int) returns (r: CandleProps)
      modifies this
      ensures r == latest
      ensures candles == UpdatedCandles(old(candles), latest, maxCandles)
      ensures 0 <= maxCandles && |old(candles)| <= maxCandles ==> |candles| <= maxCandles
      ensures maxCandles >= 1 ==> GetLastCandle() == Some(latest)
    {
      var candlesState := GetCandleState();
      var lastCandle := GetLastCandle();
      if IsSameWindow(latest, lastCandle) {
        candlesState := candlesState[|candlesState| - 1 := latest];
      } else {
        candlesState := candlesState + [latest];
      }
      if |candlesState| > maxCandles {
        candlesState := candlesState[1..];
      }
      candles := candlesState;
      r := latest;
    }

    /** `generate_ta`: the latest candle and the high/low/close/volume series of the state. */
    function GenerateTa(latest: CandleProps): (r: TaInput)
      reads this
      ensures r.candle == latest
      ensures |r.high| == |r.low| == |r.close| == |r.volume| == |candles|
      ensures forall i :: 0 <= i < |candles| ==>
        r.high[i] == candles[i].high && r.low[i] == candles[i].low &&
        r.close[i] == candles[i].close && r.volume[i] == candles[i].volume
    {
      TaInputOf(latest, candles)
    }
  }
}
