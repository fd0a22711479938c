# crypto-predict core, modelled in Dafny

This project models the data path of the crypto-predict services and proves
properties of it:

- **Trades:** Kraken websocket frames are decoded into `Trade` records. This
  covers symbol conversion between `XRPUSD` and `XRP/USD`, entry validation
  and the receive loop with its error handling. Both websocket clients are
  modelled: the one in `trades/exchanges` and the older one in `trades/kraken.py`.
- **Trade settings:** the default backfill job id and the historical topic
  name built from it.
- **Candles:** the OHLC candle record. A candle is started from a trade,
  updated by later trades and stamped with its window. The candle stream
  folds each window's trades and emits one candle per trade (live mode) or
  one per window (full mode).
- **TA service:** the TA service's per-key rolling candle buffer. The
  compatibility filter, the replace-or-append-then-evict update and the
  columns handed to the indicator library.
- **Features service:** the features service's `None`-to-zero cleaning.
- **Sentiment:** sentiment signal encoding and the unwinding of a story
  analysis into per-asset records.
- **News source:** the CryptoPanic news source, with its `last` watermark,
  the filter, produce and state update of each poll, and whether a story can
  be produced twice.
- **Feature store:** the price-predictions feature store. This covers the
  defaulting of the view name, version and indicators, and the view name
  itself. It also covers the feature columns and the shaping of a fetched
  batch: drop incomplete rows, keep the last row per close time, sort, then
  attach the close `horizon` timeframes later as the target.
- **Model base:** the deployment-environment-to-status map, model names and
  the dummy model.

Pure code is modelled as datatypes and functions:

- Prices and volumes are `real`.
- Timestamps are `int` milliseconds.
- Python strings are `seq<char>`.
- Python exceptions become `Option`/`Result` values.

Objects whose methods assign their fields are classes:

- the candle;
- the TA state store;
- the two Kraken clients;
- the news source.

Their methods are specified by the pure functions. The quixstreams window
assignment is not modelled as a library. Instead, a window is an input: its
start, its end and its trades in arrival order. The stream is a fold over
those windows.

Candle emission follows the code:

- There are two modes, `live` and `full`. Live mode emits `.current()`, full
  mode emits `.final()`.
- A candle carries no trade count, and the candle code itself has no check
  for late trades. Dropping trades for windows that have already closed is
  left to the windowing library.
- Live mode emits exactly one candle per trade that the window accepts.

## Model

| member | source | states |
|---|---|---|
| Trades.ToAutoResetOffsetMode | libs/domain/domain/trades.py:17-23 | live ingestion maps to "earliest" and historical to "latest", each exactly |
| Trades.OffsetModeInjective | libs/domain/domain/trades.py:17-23 | the two modes reset to different offsets |
| Trades.SymbolShape | libs/domain/domain/trades.py:49-61 | every symbol is six characters: an upper-case base, then USD or EUR, with no slash |
| Trades.ParseSymbol | libs/domain/domain/trades.py:49-61 | `Symbol(v)` finds the member whose value is `v`, and fails exactly when no member has that value |
| Trades.SymbolRoundTrip | libs/domain/domain/trades.py:49-61 | parsing a symbol's value gives the symbol back |
| Trades.SymbolValueInjective | libs/domain/domain/trades.py:49-61 | distinct symbols have distinct values |
| Strings.NatToString | services/trades/trades/core/settings.py:23 | `str` of a natural number is all digits with no leading zero |
| Strings.NatRoundTrip | services/trades/trades/core/settings.py:23 | reading back the decimal digits of `str(n)` gives `n` |
| Strings.IntToString | services/trades/trades/core/settings.py:23 | `str(i)` is digits, with a leading minus sign exactly for negative `i` |
| Strings.IntRoundTrip | services/trades/trades/core/settings.py:23 | parsing `str(i)` gives `i` |
| Strings.IntToStringInjective | services/trades/trades/core/settings.py:23 | different integers print differently |
| Strings.Lower | services/price_predictions/price_predictions/fstore.py:126-130 | `lower()` keeps the length and lower-cases each ASCII letter in place |
| Strings.LowerConcat | services/price_predictions/price_predictions/fstore.py:126-130 | lower-casing distributes over concatenation |
| Strings.RemoveChar | services/trades/trades/exchanges/kraken.py:30-32 | `replace("/", "")` leaves no slash and never lengthens the string; a string without a slash is unchanged |
| Strings.RemoveCharKeepsOrder | services/trades/trades/exchanges/kraken.py:30-32 | the result is the input read at increasing positions, which are exactly the positions not holding the removed character, so order and repeats are kept |
| Strings.RemoveCharMultiset | services/trades/trades/exchanges/kraken.py:30-32 | every copy of the removed character goes, and every other character keeps its count |
| Strings.RemoveCharConcat | services/trades/trades/exchanges/kraken.py:30-32 | removal distributes over concatenation |
| Strings.BeforeFirst | services/price_predictions/price_predictions/fstore.py:46 | `split("__")[0]` is a prefix with no separator inside it, and it ends at the first separator or at the end of the string |
| Strings.StrLessIrreflexive | services/news/news/outlets/cryptopanic.py:32 | no string is greater than itself |
| Strings.StrLessTransitive | services/news/news/outlets/cryptopanic.py:32 | the string order used for `published_at > last` is transitive |
| Strings.StrLessTotal | services/news/news/outlets/cryptopanic.py:32 | of two different strings, one is the greater |
| Json.Get | services/trades/trades/exchanges/kraken.py:49-50 | `dict.get` is the value when the key is present and None otherwise |
| Candles.ToSec | libs/domain/domain/candles.py:23-43 | every timeframe is a positive whole number of minutes, from 60 to 2,592,000 seconds |
| Candles.ToSecStrictlyIncreasing | libs/domain/domain/candles.py:23-43 | longer timeframes in declaration order have strictly more seconds |
| Candles.ToSecBounds | libs/domain/domain/candles.py:23-43 | 1m is 60 s and 1M is 2,592,000 s |
| Candles.PriceBounds | libs/domain/domain/candles.py:120-133 | every traded price lies between the running minimum and maximum, and both are attained |
| Candles.Initial | libs/domain/domain/candles.py:90-112 | the first trade fixes open = high = low = close, volume and timestamp, with no window; the candle summarises the one trade |
| Candles.Updated | libs/domain/domain/candles.py:120-133 | high and low move to the max and min, close and timestamp come from the trade, volume adds up; symbol, timeframe, exchange, open, start and end are unchanged; low ≤ open, close ≤ high is preserved |
| Candles.Closed | libs/domain/domain/candles.py:114-118 | start and end are set to the window and no other field changes |
| Candles.SummarisesOhlc | libs/domain/domain/candles.py:120-133 | a candle that summarises its trades has low ≤ open, close ≤ high |
| Candles.UpdatedSummarises | libs/domain/domain/candles.py:120-133 | updating the candle of trades t1..tn with t gives the candle of t1..tn, t |
| Candles.IsCompatible | libs/domain/domain/candles.py:135-144 | `is_compatible`: another candle exists with the same symbol and timeframe; `Candles.CompatibleProperties` states its properties |
| Candles.IsSameWindow | libs/domain/domain/candles.py:146-158 | `is_same_window`: compatible, with the same start and end; `Candles.SameWindowProperties` states its properties |
| Candles.CompatibleProperties | libs/domain/domain/candles.py:135-144 | compatibility is false for None, and otherwise means equal symbol and timeframe, so it is symmetric |
| Candles.SameWindowProperties | libs/domain/domain/candles.py:146-158 | being in the same window is false for None, implies compatibility, and is reflexive |
| Candles.Candle.Init | libs/domain/domain/candles.py:90-112 | the new candle object holds `Initial(tf, trade)` |
| Candles.Candle.Update | libs/domain/domain/candles.py:120-133 | the object is updated in place to `Updated(old, trade)` and returned |
| Candles.Candle.CloseWindow | libs/domain/domain/candles.py:114-118 | the object is stamped in place to `Closed(old, start, end)` and returned |
| CandleStream.WindowDurationMs | services/candles/candles/stream.py:51 | the window length is the timeframe in whole milliseconds |
| CandleStream.WindowDurationIncreasing | services/candles/candles/stream.py:51 | longer timeframes give longer windows |
| CandleStream.ExtractTs | services/candles/candles/stream.py:34-40 | the message timestamp is the value's "timestamp" entry |
| CandleStream.ExtractTsOfTrade | services/candles/candles/stream.py:34-40 | a serialised trade's message time is the trade's own timestamp |
| CandleStream.Reduce | services/candles/candles/stream.py:52-57 | the initializer-then-reducer fold of a window's trades summarises exactly those trades, with no window yet |
| CandleStream.ReduceOhlc | services/candles/candles/stream.py:52-57 | the folded candle has low ≤ open, close ≤ high, and its volume is the sum of the trade volumes |
| CandleStream.ClosedSummarises | services/candles/candles/stream.py:69-75 | stamping the window keeps the summary and the OHLC order |
| CandleStream.Emitted | services/candles/candles/stream.py:61-75 | live mode emits one candle per trade, for each prefix of the window; full mode emits one; every emitted candle carries the window and is OHLC-ordered, and the last one summarises the whole window |
| CandleStream.LiveEndsWithFull | services/candles/candles/stream.py:61-67 | the last live candle of a window is the full-mode candle |
| CandleStream.Stream | services/candles/candles/stream.py:42-75 | the candles emitted for the windows, window after window; the lemmas below state its length and contents |
| CandleStream.FullStreamOnePerWindow | services/candles/candles/stream.py:65-75 | in full mode there is exactly one candle per window, in window order, each the closed fold of that window |
| CandleStream.LiveStreamOnePerTrade | services/candles/candles/stream.py:62-75 | in live mode there is exactly one candle per trade |
| CandleStream.StreamOhlc | services/candles/candles/stream.py:42-75 | every candle the stream produces is OHLC-ordered and has a window |
| TaStream.LastCandle | services/ta/ta/stream.py:64-67 | the last stored candle, or None exactly when nothing is stored |
| TaStream.FilterProperties | services/ta/ta/stream.py:70-76 | with nothing stored every candle passes; otherwise a candle passes exactly when it matches the last one's symbol and timeframe |
| TaStream.UpdatedCandles | services/ta/ta/stream.py:79-119 | replace the last candle of the same window or append, then drop the oldest beyond the bound; the lemmas below state its shape |
| TaStream.UpdatedCandlesShape | services/ta/ta/stream.py:79-119 | the new list keeps the stored candles in order, less a replaced last one and at most the oldest one, and ends with the latest |
| TaStream.SameWindowReplacesLast | services/ta/ta/stream.py:100-102 | a candle of the last window replaces the last element, and the length is unchanged |
| TaStream.NewWindowAppends | services/ta/ta/stream.py:103-105 | a candle of a new window is appended when there is room |
| TaStream.OverflowEvictsOldest | services/ta/ta/stream.py:103-110 | on a full list, a candle of a new window drops exactly the oldest candle and is appended |
| TaStream.UpdatePreservesBound | services/ta/ta/stream.py:100-110 | the bound on the number of stored candles is an invariant |
| TaStream.UpdateEndsWithLatest | services/ta/ta/stream.py:79-119 | with room for one candle, the latest candle is afterwards the last one stored |
| TaStream.ZeroBoundKeepsNothing | services/ta/ta/stream.py:103-110 | with a bound of 0, nothing stays stored |
| TaStream.TaInputOf | services/ta/ta/stream.py:122-139 | the high, low, close and volume series are the stored candles' fields, in state order |
| TaStream.TaSeriesEndWithLatest | services/ta/ta/stream.py:79-139 | after an update, each indicator series is within the bound and ends with the latest candle's value |
| TaStream.CandleState.constructor | services/ta/ta/stream.py:59-61 | a state without a "candles" entry reads as the empty list |
| TaStream.CandleState.GetLastCandle | services/ta/ta/stream.py:64-67 | the last stored candle, or None for an empty list |
| TaStream.CandleState.UpdateStateWithLatest | services/ta/ta/stream.py:79-119 | the stored list becomes `UpdatedCandles(old, latest, max)`, stays within the bound and ends with `latest`; `latest` is returned |
| TaStream.CandleState.GenerateTa | services/ta/ta/stream.py:122-139 | the latest candle and, per stored candle, its high, low, close and volume |
| Kraken.ToKrakenSymbol | services/trades/trades/exchanges/kraken.py:43-46 | a seven-character string with the slash at index 3, which is the symbol once the slash is removed |
| Kraken.RemoveSlashInverts | services/trades/trades/exchanges/kraken.py:30-46 | removing the slashes undoes inserting one after the base |
| Kraken.RemoveSlashFromSymbol | services/trades/trades/exchanges/kraken.py:30-32 | the serializer finds the symbol whose value is the slash-free string, or fails |
| Kraken.KrakenSymbolRoundTrip | services/trades/trades/exchanges/kraken.py:30-46 | serialising a Kraken-form symbol gives the symbol back |
| Kraken.ToKrakenSymbolInjective | services/trades/trades/exchanges/kraken.py:43-46 | distinct symbols subscribe under distinct Kraken names |
| Kraken.ToKrakenSymbols | services/trades/trades/exchanges/kraken.py:65 | the subscribed list maps each symbol elementwise to Kraken form |
| Kraken.Into | services/trades/trades/exchanges/kraken.py:38-41 | a trade on KRAKEN with volume from `qty` and the same price and timestamp, failing exactly when the symbol is unknown |
| Kraken.ParseKrakenTrade | services/trades/trades/exchanges/kraken.py:20-36 | validation succeeds exactly for an object with a string "symbol", numeric "price" and "qty" and a readable "timestamp", and the trade carries exactly those four values |
| Kraken.ParseEntryOfTrade | services/trades/trades/exchanges/kraken.py:20-26 | a trade written out as a JSON object with its four fields validates back to the same trade |
| Kraken.IsTrade | services/trades/trades/exchanges/kraken.py:49-50 | `is_trade`: the "channel" entry is "trade" |
| Kraken.IsHeartbeat | services/trades/trades/exchanges/kraken.py:53-54 | `is_heartbeat`: the "channel" entry is "heartbeat" |
| Kraken.ChannelClassification | services/trades/trades/exchanges/kraken.py:49-54 | both tests depend only on "channel", and never hold together |
| Kraken.EntryTrades | services/trades/trades/exchanges/kraken.py:108-113 | the trades of one message's entries, skipping entries that do not validate and stopping at an unknown symbol; `Kraken.EntryTradesPrefix` relates it to all valid trades |
| Kraken.EntryTradesPrefix | services/trades/trades/exchanges/kraken.py:108-113 | the entries' trades are a prefix of all the valid entries' trades, and all of them when no entry names an unknown symbol |
| Kraken.EntryTradesOnKraken | services/trades/trades/exchanges/kraken.py:108-113 | every yielded trade is on KRAKEN |
| Kraken.NonTradeMessageYieldsNothing | services/trades/trades/exchanges/kraken.py:101-106 | a heartbeat or other non-trade message yields no trade |
| Kraken.TradeMessageWithoutData | services/trades/trades/exchanges/kraken.py:108 | a trade message without "data" yields no trade |
| Kraken.MessageTrades | services/trades/trades/exchanges/kraken.py:99-113 | the trades of one received frame: nothing for undecodable, heartbeat and non-trade frames or a trade frame without data |
| Kraken.StreamedTrades | services/trades/trades/exchanges/kraken.py:97-125 | the trades of the received frames in order, up to the first closure |
| Kraken.ReceiveLoop | services/trades/trades/exchanges/kraken.py:97-125 | the loop yields exactly `StreamedTrades(events)`: per-message trades up to the first closure |
| Kraken.HandleMessage | services/trades/trades/exchanges/kraken.py:99-113 | one received frame yields exactly `MessageTrades(frame)` |
| Kraken.KrakenWebsocketClient.constructor | services/trades/trades/exchanges/kraken.py:60-70 | the endpoint, the symbols, their Kraken form, and no connection |
| Kraken.KrakenWebsocketClient.CheckConnection | services/trades/trades/exchanges/client.py:38-45 | RuntimeError exactly when `ws` is unset, otherwise `ws` |
| Kraken.KrakenWebsocketClient.Connect | services/trades/trades/exchanges/kraken.py:72-77 | the opened connection becomes `ws`, and the symbols are unchanged |
| Kraken.KrakenWebsocketClient.StreamTrades | services/trades/trades/exchanges/kraken.py:91-125 | an error without a connection; otherwise the receive loop's trades |
| KrakenLegacy.KrakenWebsocketAPI.constructor | services/trades/trades/kraken.py:59-65 | the symbols in Kraken form, and no connection |
| KrakenLegacy.KrakenWebsocketAPI.CheckConnection | services/trades/trades/kraken.py:84-91 | RuntimeError exactly when `ws` is None, otherwise `ws` |
| KrakenLegacy.KrakenWebsocketAPI.Connect | services/trades/trades/kraken.py:67-72 | the opened connection becomes `ws` |
| KrakenLegacy.KrakenWebsocketAPI.StreamTrades | services/trades/trades/kraken.py:93-129 | an error without a connection; otherwise the receive loop's trades |
| KrakenLegacy.ConnectThenStream | services/trades/trades/kraken.py:67-98 | after `connect`, streaming passes the connection check |
| KrakenLegacy.StreamBeforeConnect | services/trades/trades/kraken.py:84-98 | streaming before `connect` raises |
| TradesSettings.TruncToInt | services/trades/trades/core/settings.py:23 | `int()` of a float truncates toward zero |
| TradesSettings.DefaultBackfillJobId | services/trades/trades/core/settings.py:23 | the default job id is a decimal integer string that reads back as the truncated clock seconds |
| TradesSettings.DefaultSettings | services/trades/trades/core/settings.py:18-29 | topic "trades", symbols [XRPUSD], no backfill start, live trades on |
| TradesSettings.TopicHistorical | services/trades/trades/core/settings.py:31-35 | the historical topic extends the live topic with "_historical_" and the job id, so it never equals the live topic |
| TradesSettings.TopicHistoricalInjective | services/trades/trades/core/settings.py:31-35 | for one topic, distinct job ids give distinct historical topics |
| TradesSettings.DefaultJobIdsSeparateTopics | services/trades/trades/core/settings.py:23-35 | jobs started in different seconds get different historical topics |
| TradesSettings.DefaultsIngestLiveOnly | services/trades/trades/stream.py:24-68 | by default historical ingestion is skipped and live ingestion runs |
| SentimentAnalysis.Encoded | libs/domain/domain/sentiment_analysis.py:15-20 | BULLISH encodes as 1 and BEARISH as -1, each exactly |
| SentimentAnalysis.EncodedInjectiveNonZero | libs/domain/domain/sentiment_analysis.py:15-20 | the encoding is never 0 and tells the signals apart |
| SentimentAnalysis.Unwind | libs/domain/domain/sentiment_analysis.py:53-62 | one record per asset sentiment, in order, carrying the story's model, text and timestamp |
| SentimentAnalysis.UnwindProjectsBack | libs/domain/domain/sentiment_analysis.py:53-62 | the asset details of the unwound records are the original list |
| FeaturesStream.ReplaceNoneWithZero | services/features/features/stream.py:41-43 | the same keys, no None left, None becomes 0, and every other value is unchanged |
| FeaturesStream.ReplaceNoneWithZeroIdempotent | services/features/features/stream.py:41-43 | cleaning twice is cleaning once |
| FeaturesStream.FalsyValuesKept | services/features/features/stream.py:41-43 | False, 0.0 and "" are kept, because only None is replaced |
| CryptoPanic.NewStories | services/news/news/outlets/cryptopanic.py:30-32 | the comprehension over one fetch; `CryptoPanic.NewStoriesSpec` and `CryptoPanic.NewStoriesKeepsOrder` state what it keeps |
| CryptoPanic.NewStoriesSpec | services/news/news/outlets/cryptopanic.py:30-32 | all stories when there is no watermark; otherwise exactly the fetched stories published after it |
| CryptoPanic.NewStoriesKeepsOrder | services/news/news/outlets/cryptopanic.py:30-32 | the kept stories are the fetch read at increasing positions, which are exactly the positions of the stories after the watermark, so fetch order and repeats are kept |
| CryptoPanic.EqualToWatermarkDropped | services/news/news/outlets/cryptopanic.py:31-32 | a story published exactly at the watermark is not produced |
| CryptoPanic.NextWatermark | services/news/news/outlets/cryptopanic.py:39-41 | the watermark moves to the last produced story, and stays put when nothing is produced |
| CryptoPanic.StoredLast | services/news/news/outlets/cryptopanic.py:23 | `state.get("last", None)` |
| CryptoPanic.NewStoriesAbove | services/news/news/outlets/cryptopanic.py:30-32 | filtering keeps every story above any bound the fetch was above |
| CryptoPanic.NewStoriesAscending | services/news/news/outlets/cryptopanic.py:30-32 | filtering keeps an ascending fetch ascending |
| CryptoPanic.AscendingFetchesNeverReplay | services/news/news/outlets/cryptopanic.py:22-45 | when every fetch is ascending, a whole run produces strictly ascending stories after the starting watermark, so none twice |
| CryptoPanic.DescendingFetchReplays | services/news/news/outlets/cryptopanic.py:30-41 | a descending fetch leaves the watermark at the older story, so the newer one is produced again by the next poll |
| CryptoPanic.RunStep | services/news/news/outlets/cryptopanic.py:25-41 | one more poll extends the produced messages and the watermark exactly as one more fetch extends `RunProduced` and `RunWatermark` |
| CryptoPanic.CryptoPanicOutlet.constructor | services/news/news/outlets/cryptopanic.py:14-20 | the given persisted state, and nothing produced |
| CryptoPanic.CryptoPanicOutlet.Poll | services/news/news/outlets/cryptopanic.py:25-45 | one poll produces the kept stories as "news" messages in order, and stores and returns the new watermark |
| CryptoPanic.CryptoPanicOutlet.Run | services/news/news/outlets/cryptopanic.py:22-48 | a run produces exactly `RunProduced` from the stored watermark and leaves `RunWatermark` stored |
| FeatureStore.NewStore | services/price_predictions/price_predictions/fstore.py:44-50 | each override falls back to the settings when falsy; the default base name is the settings view name up to its first "__" |
| FeatureStore.DefaultBaseNameOfPlainName | services/price_predictions/price_predictions/fstore.py:46 | a settings view name without "__" is its own default base |
| FeatureStore.FviewName | services/price_predictions/price_predictions/fstore.py:120-130 | the lower-cased base, "__", symbol, "_" and timeframe |
| FeatureStore.FviewNameExample | services/price_predictions/price_predictions/fstore.py:124 | the documented example `sentimented_ta__xrpusd_1h` |
| FeatureStore.SameLoweredOnlyMinuteAndMonth | services/price_predictions/price_predictions/fstore.py:126-130 | lower-casing merges exactly the 1m and 1M timeframes |
| FeatureStore.FviewNameIdentifies | services/price_predictions/price_predictions/fstore.py:120-130 | with one base, view names are equal exactly when the symbols are equal and the timeframes are equal up to case |
| FeatureStore.MinuteAndMonthViewsCollide | services/price_predictions/price_predictions/fstore.py:120-130 | the 1m and 1M views of a symbol have the same name |
| FeatureStore.Features | services/price_predictions/price_predictions/fstore.py:79-83 | the four base columns, then one column per indicator in order: 4 + n columns |
| FeatureStore.FeaturesDistinct | services/price_predictions/price_predictions/fstore.py:79-83 | with no indicator repeated, no column is selected twice |
| FeatureStore.DropNa | services/price_predictions/price_predictions/fstore.py:169-171 | exactly the complete rows are kept |
| FeatureStore.DropNaKeepsOrder | services/price_predictions/price_predictions/fstore.py:171 | the result is the fetched table read at increasing positions, which are exactly those of its complete rows, so fetch order and repeats are kept |
| FeatureStore.DedupKeepLast | services/price_predictions/price_predictions/fstore.py:173 | `drop_duplicates(subset=["close_time"], keep="last")`, never longer than its input; `FeatureStore.DedupUnique` and `FeatureStore.DedupKeepsLast` state what it keeps |
| FeatureStore.DedupUnique | services/price_predictions/price_predictions/fstore.py:173 | after dedup, each close time occurs once, and no close time is lost |
| FeatureStore.DedupKeepsLast | services/price_predictions/price_predictions/fstore.py:173 | the kept rows are exactly the last row of each close time |
| FeatureStore.InsertRow | services/price_predictions/price_predictions/fstore.py:174 | insertion adds the row and nothing else |
| FeatureStore.InsertSorted | services/price_predictions/price_predictions/fstore.py:174 | insertion keeps close-time order, strictly when the time is new |
| FeatureStore.SortByCloseTime | services/price_predictions/price_predictions/fstore.py:174 | sorting is a permutation with the same close times |
| FeatureStore.SortOrders | services/price_predictions/price_predictions/fstore.py:174 | sorting orders by close time, strictly when close times are unique |
| FeatureStore.Shape | services/price_predictions/price_predictions/fstore.py:167-175 | `dropna`, then dedup keeping the last row, then sort by close time |
| FeatureStore.ShapeProperties | services/price_predictions/price_predictions/fstore.py:167-175 | the shaped table is strictly ascending, keeps every complete close time, and holds the last complete row of each |
| FeatureStore.PartnersSpec | services/price_predictions/price_predictions/fstore.py:185-194 | the merge partners of a time are exactly the closes of the rows at that time |
| FeatureStore.PartnersAtMostOne | services/price_predictions/price_predictions/fstore.py:185-194 | with unique close times, there is at most one partner |
| FeatureStore.Joined | services/price_predictions/price_predictions/fstore.py:185-197 | the left merge on the shifted close time followed by `dropna`, row by row |
| FeatureStore.JoinedSound | services/price_predictions/price_predictions/fstore.py:185-197 | each output row is a table row whose target is the close of a row `delta` later |
| FeatureStore.JoinedComplete | services/price_predictions/price_predictions/fstore.py:185-197 | every row with a row `delta` later is output with that close |
| FeatureStore.JoinedAscending | services/price_predictions/price_predictions/fstore.py:189-197 | the left merge keeps the ascending order, so no row is output twice |
| FeatureStore.HorizonMs | services/price_predictions/price_predictions/fstore.py:182 | a non-zero horizon shifts by a non-zero time, at least one minute per period when positive |
| FeatureStore.GetFeatures | services/price_predictions/price_predictions/fstore.py:177-198 | a missing or zero horizon gives the shaped table without a target; any other horizon adds one |
| FeatureStore.GetFeaturesTarget | services/price_predictions/price_predictions/fstore.py:182-197 | each target is the close exactly h timeframes later, every row that has one is kept, and the order stays strictly ascending |
| DomainCore.DeploymentEnvValueInjective | libs/domain/domain/core.py:45-50 | the three environments have distinct values |
| ModelBase.StatusValueInjective | services/price_predictions/price_predictions/model/base.py:12-17 | the five statuses have distinct values |
| ModelBase.FromDeploymentEnv | services/price_predictions/price_predictions/model/base.py:19-27 | dev, staging and prod map to DEV, STAGING and PROD, each exactly, and never to NONE or QA |
| ModelBase.FromDeploymentEnvInjective | services/price_predictions/price_predictions/model/base.py:19-27 | different environments get different statuses |
| ModelBase.ModelName | services/price_predictions/price_predictions/model/base.py:31-38 | the name is the base, symbol, timeframe, "x" and the decimal horizon, each at its position |
| ModelBase.ModelNameInjective | services/price_predictions/price_predictions/model/base.py:31-38 | the name determines the symbol, timeframe and horizon |
| ModelBase.NewModelHeader | services/price_predictions/price_predictions/model/base.py:40-51 | the constructor derives the name and defaults the status to NONE |
| ModelBase.SameNameSameModel | services/price_predictions/price_predictions/model/base.py:40-51 | two constructed models with one name share symbol, timeframe and horizon |
| ModelBase.NewDummyModel | services/price_predictions/price_predictions/model/base.py:102-121 | the dummy model has status NONE and the given feature |
| ModelBase.DummyDefaultsToClose | services/price_predictions/price_predictions/model/base.py:107 | the default feature is "close" |
| ModelBase.Fit | services/price_predictions/price_predictions/model/base.py:126-133 | fitting returns the model unchanged |
| ModelBase.Predict | services/price_predictions/price_predictions/model/base.py:135-141 | the feature column unchanged when present, otherwise an error naming the feature |
| ModelBase.FitKeepsPredictions | services/price_predictions/price_predictions/model/base.py:126-141 | fitting changes no prediction |
| ModelBase.DummyPredictsClose | services/price_predictions/price_predictions/model/base.py:107-137 | the default dummy model predicts the close column |

## Left out

- The network is not modelled: websocket connection, subscription sending, REST backfill clients, Kafka producers and sinks, Hopsworks login, `init_fview` and the batch query. Their results are parameters: the event list a connection delivers, and the fetched rows.
- The quixstreams runtime is not modelled: tumbling-window assignment, `.current()`/`.final()` timing, state persistence and `flush`. A window is given as an input, and the state store is a field.
- CandleStream.Emitted: a `TradeWindow` holds only trades that parsed and that the window accepted. `.tumbling_window(duration_ms=…)` at `services/candles/candles/stream.py:51` uses the library's default grace period of 0, so a trade for a window that has already closed is skipped silently. The model does not capture that skip.
- CandleStream.ExtractTs: a malformed message stops the service, and the model does not cover this. `Trade.parse(trade or {})` at `services/candles/candles/stream.py:49` raises a ValidationError on a value that is not a trade. `value["timestamp"]` at `services/candles/candles/stream.py:40` raises a KeyError when the field is missing. `services/candles/candles/main.py:38-48` sets no `on_processing_error`, so either error ends the app. The model's windows hold parsed trades only, and `ExtractTs` returns None where the source raises.
- The clock, `sleep` and the dummy `get_news` news generator are not modelled. The clock reading is a parameter.
- Kraken.ParseKrakenTrade: datetime parsing is the parameter `toMillis`. Pydantic's lax coercions, such as numeric strings accepted as floats, are not modelled; only JSON numbers are accepted.
- Strings.Lower: lower-cases ASCII letters only; Python's full Unicode `lower()` is not modelled.
- Indicator maths (`TechnicalAnalysis.calc`, talib) is not modelled. The model stops at the series handed to it.
- Floating point is not modelled: prices, volumes and times are exact reals or integers. pandas dtypes and NaN are modelled as `Option`.
- FeatureStore.SortByCloseTime: pandas' sort is not stable for equal keys, and it is modelled by a stable insertion sort. The two agree on the strictly ascending output the dedup guarantees.
- `get_inference_features` is not modelled, and neither are `unpack_model` or the XGBoost model.
- `services/trades/trades/exchanges/kraken.py:17` imports `TradesWebsocketClient` from `.client`, but `client.py` defines only `TradesWsClient`. `services/trades/trades/main.py:9` imports `KrakenTradesRestClient` and `KrakenTradesWsClient`, which `exchanges/kraken.py` does not define. As written, neither module can be imported. The model builds `Kraken.KrakenWebsocketClient` as if the base class were `TradesWsClient`, and does not model `main.py`.
- The `exchanges/kraken.py` constructor passes `name=` to the client base initializer, which takes `exchange`. The model builds the object as the constructor evidently intends.
- The price-predictions settings list `TI.ROC`, which the indicator enum lacks (it has `PRICE_ROC`). The default indicator list is therefore not modelled; the model takes the settings' list as given.
