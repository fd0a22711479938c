/**
 * The price-predictions feature store: how the store derives its feature
 * view name and feature list from the settings, and how a fetched batch of
 * feature rows is shaped into the training table (incomplete rows dropped,
 * one row per close time keeping the last, sorted by close time, and
 * optionally joined with the close `horizon` timeframes later as target).
 *
 * The Hopsworks connection and the batch query are I/O: the fetched rows
 * are a parameter.
 */
module FeatureStore {
  import opened Wrappers
  import opened Strings
  import opened Trades
  import opened Candles
  import opened Seqs

  datatype TechnicalIndicator =
    | RSI_9 | RSI_14 | RSI_21 | RSI_28
    | MACD | MACD_SIGNAL | MACD_HIST
    | BBANDS_UPPER | BBANDS_MIDDLE | BBANDS_LOWER
    | STOCHRSI_FASTK | STOCHRSI_FASTD
    | ADX | VOLUME_EMA
    | ICHIMOKU_CONV | ICHIMOKU_BASE | ICHIMOKU_SPAN_A | ICHIMOKU_SPAN_B
    | MFI | ATR | PRICE_ROC
    | SMA_7 | SMA_14 | SMA_21 | SMA_28

  /** The column name of an indicator (the enum is a `str` enum). */
  function IndicatorValue(t: TechnicalIndicator): string
  {
    match t
    case RSI_9 => "rsi_9"
    case RSI_14 => "rsi_14"
    case RSI_21 => "rsi_21"
    case RSI_28 => "rsi_28"
    case MACD => "macd"
    case MACD_SIGNAL => "macd_signal"
    case MACD_HIST => "macd_hist"
    case BBANDS_UPPER => "bbands_upper"
    case BBANDS_MIDDLE => "bbands_middle"
    case BBANDS_LOWER => "bbands_lower"
    case STOCHRSI_FASTK => "stochrsi_fastk"
    case STOCHRSI_FASTD => "stochrsi_fastd"
    case ADX => "adx"
    case VOLUME_EMA => "volume_ema"
    case ICHIMOKU_CONV => "ichimoku_conv"
    case ICHIMOKU_BASE => "ichimoku_base"
    case ICHIMOKU_SPAN_A => "ichimoku_span_a"
    case ICHIMOKU_SPAN_B => "ichimoku_span_b"
    case MFI => "mfi"
    case ATR => "atr"
    case PRICE_ROC => "price_roc"
    case SMA_7 => "sma_7"
    case SMA_14 => "sma_14"
    case SMA_21 => "sma_21"
    case SMA_28 => "sma_28"
  }

  /** The part of the price-predictions settings the store reads. */
  datatype StoreSettings = StoreSettings(
    symbol: Symbol,
    timeframe: CandleTimeframe,
    fviewName: string,
    fviewVersion: int,
    taFeatures: seq<TechnicalIndicator>)

  /** The store's configuration once constructed. */
  datatype PricePredictionsStore = PricePredictionsStore(
    symbol: Symbol,
    timeframe: CandleTimeframe,
    fviewBaseName: string,
    fviewVersion: int,
    taFeatures: seq<TechnicalIndicator>)

  /**
   * The constructor's defaulting. Each override falls back to the settings
   * when it is falsy in Python's sense: None or the empty string for the
   * base name, None or 0 for the version, None or the empty list for the
   * indicators. The default base name is the settings' view name up to its
   * first `"__"`.
   */
  function NewStore(settings: StoreSettings, fviewBaseName: Option<string>, fviewVersion: Option<int>,
                    taFeatures: Option<seq<TechnicalIndicator>>): (r: PricePredictionsStore)
    ensures r.symbol == settings.symbol && r.timeframe == settings.timeframe
    ensures fviewBaseName.Some? && fviewBaseName.value != "" ==> r.fviewBaseName == fviewBaseName.value
    ensures (fviewBaseName.None? || fviewBaseName.value == "") ==>
              r.fviewBaseName <= settings.fviewName &&
              (forall i :: 0 <= i < |r.fviewBaseName| ==> !OccursAt(settings.fviewName, "__", i)) &&
              (r.fviewBaseName == settings.fviewName || OccursAt(settings.fviewName, "__", |r.fviewBaseName|))
    ensures fviewVersion.Some? && fviewVersion.value != 0 ==> r.fviewVersion == fviewVersion.value
    ensures (fviewVersion.None? || fviewVersion.value == 0) ==> r.fviewVersion == settings.fviewVersion
    ensures taFeatures.Some? && taFeatures.value != [] ==> r.taFeatures == taFeatures.value
    ensures (taFeatures.None? || taFeatures.value == []) ==> r.taFeatures == settings.taFeatures
  {
    PricePredictionsStore(
      settings.symbol,
      settings.timeframe,
      if fviewBaseName.Some? && fviewBaseName.value != "" then fviewBaseName.value
      else BeforeFirst(settings.fviewName, "__"),
      if fviewVersion.Some? && fviewVersion.value != 0 then fviewVersion.value else settings.fviewVersion,
      if taFeatures.Some? && taFeatures.value != [] then taFeatures.value else settings.taFeatures)
  }

  /** A settings view name without `"__"` is its own default base name. */
  lemma DefaultBaseNameOfPlainName(settings: StoreSettings)
    requires forall i :: 0 <= i < |settings.fviewName| ==> !OccursAt(settings.fviewName, "__", i)
    ensures NewStore(settings, None, None, None).fviewBaseName == settings.fviewName
  {
  }

  /** The unlowered view name. */
  function RawFviewName(base: string, symbol: Symbol, tf: CandleTimeframe): string
  {
    base + "__" + SymbolValue(symbol) + "_" + TimeframeValue(tf)
  }

  /** `fview_name`: base, symbol and timeframe joined, then lower-cased. */
  function FviewName(store: PricePredictionsStore): (r: string)
    ensures |r| == |store.fviewBaseName| + 9 + |TimeframeValue(store.timeframe)|
    ensures r == Lower(store.fviewBaseName) + "__" + Lower(SymbolValue(store.symbol)) + "_"
                 + Lower(TimeframeValue(store.timeframe))
  {
    var base := store.fviewBaseName;
    var sym := SymbolValue(store.symbol);
    var tf := TimeframeValue(store.timeframe);
    LowerConcat(base + "__" + sym + "_", tf);
    LowerConcat(base + "__" + sym, "_");
    LowerConcat(base + "__", sym);
    LowerConcat(base, "__");
    Lower(RawFviewName(base, store.symbol, store.timeframe))
  }

  /** The documented example: `sentimented_ta__xrpusd_1h`. */
  lemma FviewNameExample()
    ensures FviewName(PricePredictionsStore(XRPUSD, Tf1h, "sentimented_ta", 1, [])) == "sentimented_ta__xrpusd_1h"
  {
  }

  /** Two timeframes whose values differ only in case. */
  predicate SameLowered(a: CandleTimeframe, b: CandleTimeframe)
  {
    Lower(TimeframeValue(a)) == Lower(TimeframeValue(b))
  }

  lemma LoweredTimeframe(tf: CandleTimeframe)
    ensures Lower(TimeframeValue(tf)) ==
      match tf
      case Tf1m => "1m"
      case Tf5m => "5m"
      case Tf15m => "15m"
      case Tf30m => "30m"
      case Tf1h => "1h"
      case Tf4h => "4h"
      case Tf1D => "1d"
      case Tf1W => "1w"
      case Tf1M => "1m"
  {
    var v := TimeframeValue(tf);
    var l := Lower(v);
    assert l[0] == LowerChar(v[0]) && l[|v| - 1] == LowerChar(v[|v| - 1]);
    if |v| == 3 {
      assert l[1] == LowerChar(v[1]);
    }
  }

  /** Lower-casing merges exactly one pair of timeframes: 1m (a minute) and 1M (a month). */
  lemma SameLoweredOnlyMinuteAndMonth(a: CandleTimeframe, b: CandleTimeframe)
    ensures SameLowered(a, b) <==> a == b || (a == Tf1m && b == Tf1M) || (a == Tf1M && b == Tf1m)
  {
    LoweredTimeframe(a);
    LoweredTimeframe(b);
  }

  lemma LowerInjectiveOnUpper(a: string, b: string)
    requires |a| == |b|
    requires forall i :: 0 <= i < |a| ==> IsUpperLetter(a[i]) && IsUpperLetter(b[i])
    requires Lower(a) == Lower(b)
    ensures a == b
  {
    forall i | 0 <= i < |a| ensures a[i] == b[i] {
      assert LowerChar(a[i]) == LowerChar(b[i]);
    }
  }

  lemma SymbolLetters(s: Symbol)
    ensures |SymbolValue(s)| == 6
    ensures forall i :: 0 <= i < 6 ==> IsUpperLetter(SymbolValue(s)[i])
  {
  }

  /**
   * Two stores with the same base name share a view name exactly when they
   * have the same symbol and timeframes equal up to case; so the 1m and the
   * 1M views of a symbol are the same view.
   */
  lemma FviewNameIdentifies(s1: PricePredictionsStore, s2: PricePredictionsStore)
    requires s1.fviewBaseName == s2.fviewBaseName
    ensures FviewName(s1) == FviewName(s2) <==> s1.symbol == s2.symbol && SameLowered(s1.timeframe, s2.timeframe)
  {
    var n1, n2 := FviewName(s1), FviewName(s2);
    var p := |s1.fviewBaseName| + 2;
    var sym1, sym2 := SymbolValue(s1.symbol), SymbolValue(s2.symbol);
    var t1, t2 := Lower(TimeframeValue(s1.timeframe)), Lower(TimeframeValue(s2.timeframe));
    SymbolLetters(s1.symbol);
    SymbolLetters(s2.symbol);
    if n1 == n2 {
      assert n1[p..p + 6] == Lower(sym1) && n2[p..p + 6] == Lower(sym2);
      LowerInjectiveOnUpper(sym1, sym2);
      SymbolValueInjective(s1.symbol, s2.symbol);
      assert n1[p + 7..] == t1 && n2[p + 7..] == t2;
    }
  }

  /** The 1m and the 1M feature views of one symbol have the same name. */
  lemma MinuteAndMonthViewsCollide(base: string, symbol: Symbol)
    ensures FviewName(PricePredictionsStore(symbol, Tf1m, base, 1, []))
         == FviewName(PricePredictionsStore(symbol, Tf1M, base, 1, []))
  {
    SameLoweredOnlyMinuteAndMonth(Tf1m, Tf1M);
    FviewNameIdentifies(PricePredictionsStore(symbol, Tf1m, base, 1, []), PricePredictionsStore(symbol, Tf1M, base, 1, []));
  }

  const BaseFeatures: seq<string> := ["end", "open", "close", "story_signal"]

  /** `features`: the four base columns, then one column per indicator, in order. */
  function Features(store: PricePredictionsStore): (r: seq<string>)
    ensures |r| == 4 + |store.taFeatures|
    ensures r[..4] == BaseFeatures
    ensures forall i :: 0 <= i < |store.taFeatures| ==> r[4 + i] == IndicatorValue(store.taFeatures[i])
  {
    BaseFeatures + seq(|store.taFeatures|, i requires 0 <= i < |store.taFeatures| => IndicatorValue(store.taFeatures[i]))
  }

  lemma IndicatorValueInjective(a: TechnicalIndicator, b: TechnicalIndicator)
    ensures IndicatorValue(a) == IndicatorValue(b) ==> a == b
  {
  }

  lemma IndicatorNotBase(t: TechnicalIndicator)
    ensures IndicatorValue(t) !in BaseFeatures
  {
  }

  /** With no indicator listed twice, the selected columns are pairwise distinct. */
  lemma FeaturesDistinct(store: PricePredictionsStore)
    requires forall i, j :: 0 <= i < j < |store.taFeatures| ==> store.taFeatures[i] != store.taFeatures[j]
    ensures forall i, j :: 0 <= i < j < |Features(store)| ==> Features(store)[i] != Features(store)[j]
  {
    var r := Features(store);
    forall i, j | 0 <= i < j < |r| ensures r[i] != r[j] {
      if j >= 4 {
        if i < 4 {
          IndicatorNotBase(store.taFeatures[j - 4]);
          assert r[i] in BaseFeatures;
        } else {
          IndicatorValueInjective(store.taFeatures[i - 4], store.taFeatures[j - 4]);
        }
      }
    }
  }

  /** A fetched row of the selected columns; a missing value is None. */
  datatype FetchedRow = FetchedRow(
    end: Option<int>,
    open: Option<real>,
    close: Option<real>,
    storySignal: Option<real>,
    indicators: seq<Option<real>>)

  /** A complete row, with `end` renamed to `close_time`. */
  datatype Row = Row(closeTime: int, open: real, close: real, storySignal: real, indicators: seq<real>)

  predicate Complete(f: FetchedRow)
  {
    f.end.Some? && f.open.Some? && f.close.Some? && f.storySignal.Some?
    && forall i :: 0 <= i < |f.indicators| ==> f.indicators[i].Some?
  }

  function ToRow(f: FetchedRow): (r: Row)
    requires Complete(f)
    ensures r.closeTime == f.end.value && r.open == f.open.value && r.close == f.close.value
    ensures r.storySignal == f.storySignal.value
    ensures |r.indicators| == |f.indicators|
    ensures forall i :: 0 <= i < |f.indicators| ==> r.indicators[i] == f.indicators[i].value
  {
    Row(f.end.value, f.open.value, f.close.value, f.storySignal.value,
        seq(|f.indicators|, i requires 0 <= i < |f.indicators| && f.indicators[i].Some? => f.indicators[i].value))
  }

  /** `dropna()`: the complete rows, in order. */
  function DropNa(rows: seq<FetchedRow>): (r: seq<Row>)
    ensures |r| <= |rows|
    ensures forall x :: x in r ==> exists i :: 0 <= i < |rows| && Complete(rows[i]) && ToRow(rows[i]) == x
    ensures forall i :: 0 <= i < |rows| && Complete(rows[i]) ==> ToRow(rows[i]) in r
  {
    if rows == [] then []
    else
      var rest := DropNa(rows[1..]);
      assert forall i :: 1 <= i < |rows| ==> rows[i] == rows[1..][i - 1];
      if Complete(rows[0]) then [ToRow(rows[0])] + rest else rest
  }

  /** `r` is the complete rows of `rows` at the increasing positions `idx`, which are exactly the complete ones. */
  predicate DroppedAt(r: seq<Row>, rows: seq<FetchedRow>, idx: seq<int>)
  {
    Increasing(idx, |rows|) && |idx| == |r| &&
    (forall k :: 0 <= k < |idx| ==> Complete(rows[idx[k]]) && r[k] == ToRow(rows[idx[k]])) &&
    (forall i :: 0 <= i < |rows| ==> (i in idx <==> Complete(rows[i])))
  }

  lemma DroppedAtSkip(x: FetchedRow, t: seq<FetchedRow>, rest: seq<Row>, idx: seq<int>)
    requires DroppedAt(rest, t, idx) && !Complete(x)
    ensures DroppedAt(rest, [x] + t, Shift(idx))
  {
    var s := [x] + t;
    var sh := Shift(idx);
    ShiftIncreasing(idx, |t|);
    forall k | 0 <= k < |sh| ensures Complete(s[sh[k]]) && rest[k] == ToRow(s[sh[k]]) {
      assert s[sh[k]] == t[idx[k]];
    }
    forall i | 0 <= i < |s| ensures i in sh <==> Complete(s[i]) {
      ShiftMember(idx, |t|, i);
      if i > 0 { assert s[i] == t[i - 1]; }
    }
  }

  lemma DroppedAtTake(x: FetchedRow, t: seq<FetchedRow>, rest: seq<Row>, idx: seq<int>)
    requires DroppedAt(rest, t, idx) && Complete(x)
    ensures DroppedAt([ToRow(x)] + rest, [x] + t, [0] + Shift(idx))
  {
    var s := [x] + t;
    var r := [ToRow(x)] + rest;
    var sh := [0] + Shift(idx);
    ShiftIncreasing(idx, |t|);
    forall k | 0 <= k < |sh| ensures Complete(s[sh[k]]) && r[k] == ToRow(s[sh[k]]) {
      if k > 0 { assert r[k] == rest[k - 1] && s[sh[k]] == t[idx[k - 1]]; }
    }
    forall i | 0 <= i < |s| ensures i in sh <==> Complete(s[i]) {
      ShiftMember(idx, |t|, i);
      if i > 0 { assert s[i] == t[i - 1]; }
    }
  }

  /**
   * `dropna()` keeps the fetched order and every complete row: the result
   * is the fetched table read at exactly the positions of its complete
   * rows, in increasing order.
   */
  lemma {:induction false} DropNaKeepsOrder(rows: seq<FetchedRow>)
    ensures exists idx :: DroppedAt(DropNa(rows), rows, idx)
  {
    if rows == [] {
      assert DroppedAt(DropNa(rows), rows, []);
    } else {
      var t := rows[1..];
      DropNaKeepsOrder(t);
      var idx :| DroppedAt(DropNa(t), t, idx);
      assert rows == [rows[0]] + t;
      if Complete(rows[0]) {
        DroppedAtTake(rows[0], t, DropNa(t), idx);
        assert DroppedAt(DropNa(rows), rows, [0] + Shift(idx));
      } else {
        DroppedAtSkip(rows[0], t, DropNa(t), idx);
        assert DroppedAt(DropNa(rows), rows, Shift(idx));
      }
    }
  }

  /** The set of close times of a table. */
  function Times(s: seq<Row>): set<int>
  {
    if s == [] then {} else {s[0].closeTime} + Times(s[1..])
  }

  lemma {:induction false} TimesMember(s: seq<Row>, t: int)
    ensures t in Times(s) <==> exists i :: 0 <= i < |s| && s[i].closeTime == t
  {
    if s != [] {
      TimesMember(s[1..], t);
      if t in Times(s[1..]) {
        var i :| 0 <= i < |s[1..]| && s[1..][i].closeTime == t;
        assert s[i + 1].closeTime == t;
      }
      if exists i :: 0 <= i < |s| && s[i].closeTime == t {
        var i :| 0 <= i < |s| && s[i].closeTime == t;
        if i > 0 { assert s[1..][i - 1].closeTime == t; }
      }
    }
  }

  predicate UniqueTimes(s: seq<Row>)
  {
    forall i, j :: 0 <= i < j < |s| ==> s[i].closeTime != s[j].closeTime
  }

  /** Row `i` is the last row with its close time. */
  predicate LastWithTime(s: seq<Row>, i: int)
  {
    0 <= i < |s| && forall j :: i < j < |s| ==> s[j].closeTime != s[i].closeTime
  }

  /** `drop_duplicates(subset=["close_time"], keep="last")`. */
  function DedupKeepLast(rows: seq<Row>): (r: seq<Row>)
    ensures |r| <= |rows|
  {
    if rows == [] then []
    else if rows[0].closeTime in Times(rows[1..]) then DedupKeepLast(rows[1..])
    else [rows[0]] + DedupKeepLast(rows[1..])
  }

  /** A close time occurs at most once after dedup, and no close time is lost or invented. */
  lemma {:induction false} DedupUnique(rows: seq<Row>)
    ensures UniqueTimes(DedupKeepLast(rows))
    ensures Times(DedupKeepLast(rows)) == Times(rows)
  {
    if rows != [] {
      DedupUnique(rows[1..]);
      var rest := DedupKeepLast(rows[1..]);
      if rows[0].closeTime !in Times(rows[1..]) {
        var r := [rows[0]] + rest;
        assert r[1..] == rest;
        forall i, j | 0 <= i < j < |r| ensures r[i].closeTime != r[j].closeTime {
          if i == 0 {
            TimesMember(rest, r[j].closeTime);
            assert rest[j - 1] == r[j];
          } else {
            assert r[i] == rest[i - 1] && r[j] == rest[j - 1];
          }
        }
      }
    }
  }

  /** The rows dedup keeps are exactly the last row of each close time. */
  lemma {:induction false} DedupKeepsLast(rows: seq<Row>)
    ensures forall x :: x in DedupKeepLast(rows) ==> exists i :: LastWithTime(rows, i) && rows[i] == x
    ensures forall i :: LastWithTime(rows, i) ==> rows[i] in DedupKeepLast(rows)
  {
    if rows != [] {
      DedupKeepsLast(rows[1..]);
      var tail := rows[1..];
      var rest := DedupKeepLast(tail);
      assert forall i :: 1 <= i < |rows| ==> rows[i] == tail[i - 1];
      assert forall i :: 1 <= i < |rows| ==> (LastWithTime(rows, i) <==> LastWithTime(tail, i - 1));
      TimesMember(tail, rows[0].closeTime);
      if rows[0].closeTime in Times(tail) {
        var k :| 0 <= k < |tail| && tail[k].closeTime == rows[0].closeTime;
        assert rows[k + 1].closeTime == rows[0].closeTime;
        assert !LastWithTime(rows, 0);
        forall x | x in rest ensures exists i :: LastWithTime(rows, i) && rows[i] == x {
          var i :| LastWithTime(tail, i) && tail[i] == x;
          assert LastWithTime(rows, i + 1);
        }
      } else {
        assert LastWithTime(rows, 0);
        var r := [rows[0]] + rest;
        forall x | x in r ensures exists i :: LastWithTime(rows, i) && rows[i] == x {
          if x != rows[0] {
            assert x in rest;
            var i :| LastWithTime(tail, i) && tail[i] == x;
            assert LastWithTime(rows, i + 1);
          }
        }
      }
    }
  }

  /** Non-decreasing close times. */
  predicate Sorted(s: seq<Row>)
  {
    forall i, j :: 0 <= i < j < |s| ==> s[i].closeTime <= s[j].closeTime
  }

  /** Strictly increasing close times. */
  predicate Ascending(s: seq<Row>)
  {
    forall i, j :: 0 <= i < j < |s| ==> s[i].closeTime < s[j].closeTime
  }

  /** Insertion of one row before the first row with a later or equal close time. */
  function InsertRow(x: Row, s: seq<Row>): (r: seq<Row>)
    ensures multiset(r) == multiset(s) + multiset{x}
    ensures Times(r) == Times(s) + {x.closeTime}
  {
    if s == [] || x.closeTime <= s[0].closeTime then
      assert ([x] + s)[1..] == s;
      [x] + s
    else
      var r := [s[0]] + InsertRow(x, s[1..]);
      assert s == [s[0]] + s[1..];
      assert r[1..] == InsertRow(x, s[1..]);
      r
  }

  /** Every close time in `s` is above `t`. */
  predicate AllAbove(s: seq<Row>, t: int, strict: bool)
  {
    forall i :: 0 <= i < |s| ==> (if strict then t < s[i].closeTime else t <= s[i].closeTime)
  }

  lemma {:induction false} InsertAbove(x: Row, s: seq<Row>, t: int, strict: bool)
    requires AllAbove(s, t, strict)
    requires if strict then t < x.closeTime else t <= x.closeTime
    ensures AllAbove(InsertRow(x, s), t, strict)
  {
    if !(s == [] || x.closeTime <= s[0].closeTime) {
      InsertAbove(x, s[1..], t, strict);
      var r := InsertRow(x, s);
      assert r == [s[0]] + InsertRow(x, s[1..]);
      forall i | 0 <= i < |r| ensures if strict then t < r[i].closeTime else t <= r[i].closeTime {
        if i > 0 { assert r[i] == InsertRow(x, s[1..])[i - 1]; }
      }
    }
  }

  /** Putting a row in front of a sorted table whose first row is not earlier keeps it sorted. */
  lemma PrependSorted(x: Row, s: seq<Row>, strict: bool)
    requires if strict then Ascending(s) else Sorted(s)
    requires s != [] ==> if strict then x.closeTime < s[0].closeTime else x.closeTime <= s[0].closeTime
    ensures if strict then Ascending([x] + s) else Sorted([x] + s)
  {
    var r := [x] + s;
    forall i, j | 0 <= i < j < |r|
      ensures if strict then r[i].closeTime < r[j].closeTime else r[i].closeTime <= r[j].closeTime
    {
      assert r[j] == s[j - 1];
      if i > 0 { assert r[i] == s[i - 1]; }
      else if j > 1 { assert s[0].closeTime <= s[j - 1].closeTime; }
    }
  }

  /**
   * Inserting keeps a table sorted, and strictly ascending when the new
   * close time is not already present.
   */
  lemma {:induction false} InsertSorted(x: Row, s: seq<Row>, strict: bool)
    requires if strict then Ascending(s) && x.closeTime !in Times(s) else Sorted(s)
    ensures if strict then Ascending(InsertRow(x, s)) else Sorted(InsertRow(x, s))
  {
    var r := InsertRow(x, s);
    if s == [] || x.closeTime <= s[0].closeTime {
      if s != [] && strict {
        assert s[0].closeTime in Times(s);
      }
      PrependSorted(x, s, strict);
    } else {
      var tail := s[1..];
      assert Times(s) == {s[0].closeTime} + Times(tail);
      InsertSorted(x, tail, strict);
      assert AllAbove(tail, s[0].closeTime, strict) by {
        forall i | 0 <= i < |tail| ensures if strict then s[0].closeTime < tail[i].closeTime else s[0].closeTime <= tail[i].closeTime {
          assert tail[i] == s[i + 1];
        }
      }
      InsertAbove(x, tail, s[0].closeTime, strict);
      var rest := InsertRow(x, tail);
      assert r == [s[0]] + rest;
      forall i, j | 0 <= i < j < |r|
        ensures if strict then r[i].closeTime < r[j].closeTime else r[i].closeTime <= r[j].closeTime
      {
        assert r[j] == rest[j - 1];
        if i > 0 { assert r[i] == rest[i - 1]; }
      }
    }
  }

  /** `sort_values(by="close_time")`. */
  function SortByCloseTime(rows: seq<Row>): (r: seq<Row>)
    ensures multiset(r) == multiset(rows)
    ensures Times(r) == Times(rows)
  {
    if rows == [] then []
    else
      assert rows == [rows[0]] + rows[1..];
      InsertRow(rows[0], SortByCloseTime(rows[1..]))
  }

  /** Sorting yields close-time order, strictly ascending when the close times are unique. */
  lemma {:induction false} SortOrders(rows: seq<Row>, strict: bool)
    requires strict ==> UniqueTimes(rows)
    ensures if strict then Ascending(SortByCloseTime(rows)) else Sorted(SortByCloseTime(rows))
  {
    if rows != [] {
      var tail := rows[1..];
      assert strict ==> UniqueTimes(tail) by {
        if strict {
          forall i, j | 0 <= i < j < |tail| ensures tail[i].closeTime != tail[j].closeTime {
            assert tail[i] == rows[i + 1] && tail[j] == rows[j + 1];
          }
        }
      }
      SortOrders(tail, strict);
      if strict {
        TimesMember(tail, rows[0].closeTime);
      }
      InsertSorted(rows[0], SortByCloseTime(tail), strict);
    }
  }

  /** The fetched batch after column selection, `dropna`, dedup and sort. */
  function Shape(fetched: seq<FetchedRow>): seq<Row>
  {
    SortByCloseTime(DedupKeepLast(DropNa(fetched)))
  }

  /**
   * The shaped table is strictly ascending in close time, covers every close
   * time of a complete fetched row, and for each close time holds the last
   * complete row fetched with it.
   */
  lemma ShapeProperties(fetched: seq<FetchedRow>)
    ensures Ascending(Shape(fetched))
    ensures Times(Shape(fetched)) == Times(DropNa(fetched))
    ensures forall x :: x in Shape(fetched) ==> exists i :: LastWithTime(DropNa(fetched), i) && DropNa(fetched)[i] == x
    ensures forall i :: LastWithTime(DropNa(fetched), i) ==> DropNa(fetched)[i] in Shape(fetched)
  {
    var d := DedupKeepLast(DropNa(fetched));
    DedupUnique(DropNa(fetched));
    DedupKeepsLast(DropNa(fetched));
    SortOrders(d, true);
    var r := SortByCloseTime(d);
    assert forall x :: x in r <==> x in d by {
      forall x ensures x in r <==> x in d {
        assert x in r <==> x in multiset(r);
        assert x in d <==> x in multiset(d);
      }
    }
  }

  /** The closes of the rows of `table` whose close time is `t`, in order. */
  function Partners(t: int, table: seq<Row>): seq<real>
  {
    if table == [] then []
    else (if table[0].closeTime == t then [table[0].close] else []) + Partners(t, table[1..])
  }

  lemma {:induction false} PartnersSpec(t: int, table: seq<Row>, c: real)
    ensures c in Partners(t, table) <==> exists y :: y in table && y.closeTime == t && y.close == c
  {
    if table != [] {
      PartnersSpec(t, table[1..], c);
      assert forall y :: y in table <==> y == table[0] || y in table[1..] by {
        assert table == [table[0]] + table[1..];
      }
    }
  }

  lemma {:induction false} PartnersAtMostOne(t: int, table: seq<Row>)
    requires UniqueTimes(table)
    ensures |Partners(t, table)| <= 1
  {
    if table != [] {
      var tail := table[1..];
      assert UniqueTimes(tail) by {
        forall i, j | 0 <= i < j < |tail| ensures tail[i].closeTime != tail[j].closeTime {
          assert tail[i] == table[i + 1] && tail[j] == table[j + 1];
        }
      }
      PartnersAtMostOne(t, tail);
      if table[0].closeTime == t && Partners(t, tail) != [] {
        PartnersSpec(t, tail, Partners(t, tail)[0]);
        assert false;
      }
    }
  }

  /** A feature row with its target: the close `horizon` timeframes later. */
  datatype TargetRow = TargetRow(row: Row, target: real)

  function Matches(x: Row, right: seq<Row>, delta: int): (r: seq<TargetRow>)
    ensures |r| == |Partners(x.closeTime + delta, right)|
    ensures forall k :: 0 <= k < |r| ==> r[k] == TargetRow(x, Partners(x.closeTime + delta, right)[k])
  {
    var ps := Partners(x.closeTime + delta, right);
    seq(|ps|, k requires 0 <= k < |ps| => TargetRow(x, ps[k]))
  }

  /**
   * The left merge of `left` with `right` shifted back by `delta`, followed
   * by `dropna`: each left row, in order, paired with the close of every
   * right row whose close time is `delta` later; left rows without such a
   * row have a missing target and are dropped.
   */
  function Joined(left: seq<Row>, right: seq<Row>, delta: int): seq<TargetRow>
  {
    if left == [] then [] else Matches(left[0], right, delta) + Joined(left[1..], right, delta)
  }

  /** Every joined row pairs a left row with the close of a right row `delta` later. */
  lemma {:induction false} JoinedSound(left: seq<Row>, right: seq<Row>, delta: int)
    ensures forall tr :: tr in Joined(left, right, delta) ==>
              tr.row in left && exists y :: y in right && y.closeTime == tr.row.closeTime + delta && y.close == tr.target
  {
    if left != [] {
      JoinedSound(left[1..], right, delta);
      var m := Matches(left[0], right, delta);
      var ps := Partners(left[0].closeTime + delta, right);
      assert left == [left[0]] + left[1..];
      forall tr | tr in m
        ensures exists y :: y in right && y.closeTime == tr.row.closeTime + delta && y.close == tr.target
      {
        var k :| 0 <= k < |m| && m[k] == tr;
        PartnersSpec(left[0].closeTime + delta, right, ps[k]);
      }
      assert forall tr :: tr in Joined(left, right, delta) ==> tr in m || tr in Joined(left[1..], right, delta);
    }
  }

  /** Every left row having a right row `delta` later is joined with that row's close. */
  lemma {:induction false} JoinedComplete(left: seq<Row>, right: seq<Row>, delta: int)
    ensures forall x, y :: x in left && y in right && y.closeTime == x.closeTime + delta ==>
              TargetRow(x, y.close) in Joined(left, right, delta)
  {
    if left != [] {
      JoinedComplete(left[1..], right, delta);
      var m := Matches(left[0], right, delta);
      var ps := Partners(left[0].closeTime + delta, right);
      assert left == [left[0]] + left[1..];
      forall y | y in right && y.closeTime == left[0].closeTime + delta
        ensures TargetRow(left[0], y.close) in m
      {
        PartnersSpec(left[0].closeTime + delta, right, y.close);
        var k :| 0 <= k < |ps| && ps[k] == y.close;
        assert m[k] == TargetRow(left[0], y.close);
      }
    }
  }

  lemma {:induction false} JoinedAbove(left: seq<Row>, right: seq<Row>, delta: int, t: int)
    requires forall i :: 0 <= i < |left| ==> t < left[i].closeTime
    ensures forall i :: 0 <= i < |Joined(left, right, delta)| ==> t < Joined(left, right, delta)[i].row.closeTime
  {
    if left != [] {
      JoinedAbove(left[1..], right, delta, t);
      var m := Matches(left[0], right, delta);
      var rest := Joined(left[1..], right, delta);
      var r: seq<TargetRow> := m + rest;
      forall i | 0 <= i < |r| ensures t < r[i].row.closeTime {
        if i >= |m| { assert r[i] == rest[i - |m|]; }
      }
    }
  }

  /** Over a strictly ascending table with unique close times, the joined rows stay strictly ascending. */
  lemma {:induction false} JoinedAscending(left: seq<Row>, right: seq<Row>, delta: int)
    requires Ascending(left) && UniqueTimes(right)
    ensures forall i, j :: 0 <= i < j < |Joined(left, right, delta)| ==>
              Joined(left, right, delta)[i].row.closeTime < Joined(left, right, delta)[j].row.closeTime
  {
    if left != [] {
      var tail := left[1..];
      assert Ascending(tail) by {
        forall i, j | 0 <= i < j < |tail| ensures tail[i].closeTime < tail[j].closeTime {
          assert tail[i] == left[i + 1] && tail[j] == left[j + 1];
        }
      }
      JoinedAscending(tail, right, delta);
      assert forall i :: 0 <= i < |tail| ==> left[0].closeTime < tail[i].closeTime by {
        forall i | 0 <= i < |tail| ensures left[0].closeTime < tail[i].closeTime {
          assert tail[i] == left[i + 1];
        }
      }
      JoinedAbove(tail, right, delta, left[0].closeTime);
      PartnersAtMostOne(left[0].closeTime + delta, right);
      var m := Matches(left[0], right, delta);
      var rest := Joined(tail, right, delta);
      var r := m + rest;
      forall i, j | 0 <= i < j < |r| ensures r[i].row.closeTime < r[j].row.closeTime {
        assert j >= |m|;
        assert r[j] == rest[j - |m|];
        if i >= |m| {
          assert r[i] == rest[i - |m|];
        }
      }
    }
  }

  /** The result of `get_features`: the plain table, or the table with its target column. */
  datatype FeatureTable = Plain(rows: seq<Row>) | WithTarget(targeted: seq<TargetRow>)

  /** Milliseconds in `horizon` timeframes. */
  function HorizonMs(tf: CandleTimeframe, horizon: int): (r: int)
    ensures horizon > 0 ==> r >= 60000 * horizon
    ensures horizon != 0 ==> r != 0
  {
    ToSec(tf) * horizon * 1000
  }

  /** `get_features` over a fetched batch; a falsy horizon (None or 0) gives the plain table. */
  function GetFeatures(store: PricePredictionsStore, fetched: seq<FetchedRow>, targetHorizon: Option<int>): (r: FeatureTable)
    ensures r.Plain? <==> targetHorizon.None? || targetHorizon.value == 0
    ensures r.Plain? ==> r.rows == Shape(fetched)
  {
    if targetHorizon.None? || targetHorizon.value == 0 then Plain(Shape(fetched))
    else
      var table := Shape(fetched);
      WithTarget(Joined(table, table, HorizonMs(store.timeframe, targetHorizon.value)))
  }

  /**
   * With a horizon h, every output row is a shaped row whose target is the
   * close of the shaped row exactly h timeframes later; every shaped row
   * having such a row is output; and close times stay strictly ascending,
   * so no row is output twice.
   */
  lemma GetFeaturesTarget(store: PricePredictionsStore, fetched: seq<FetchedRow>, h: int)
    requires h != 0
    ensures GetFeatures(store, fetched, Some(h)).WithTarget?
    ensures var t := GetFeatures(store, fetched, Some(h)).targeted;
            var table := Shape(fetched);
            var delta := ToSec(store.timeframe) * h * 1000;
            (forall tr :: tr in t ==>
               tr.row in table && exists y :: y in table && y.closeTime == tr.row.closeTime + delta && y.close == tr.target) &&
            (forall x, y :: x in table && y in table && y.closeTime == x.closeTime + delta ==> TargetRow(x, y.close) in t) &&
            (forall i, j :: 0 <= i < j < |t| ==> t[i].row.closeTime < t[j].row.closeTime)
  {
    var table := Shape(fetched);
    ShapeProperties(fetched);
    var delta := HorizonMs(store.timeframe, h);
    JoinedSound(table, table, delta);
    JoinedComplete(table, table, delta);
    JoinedAscending(table, table, delta);
  }
}
