/** The trade domain: ingestion modes, exchanges, assets, symbols and the Trade record. */
module Trades {
  import opened Wrappers

  /** How trades are ingested: from a live source or a historical one. */
  datatype TradeIngestionMode = Live | Historical

  /** The auto-offset-reset mode handed to Kafka for an ingestion mode. */
  function ToAutoResetOffsetMode(mode: TradeIngestionMode): (r: string)
    ensures mode == Live <==> r == "earliest"
    ensures mode == Historical <==> r == "latest"
  {
    match mode
    case Live => "earliest"
    case Historical => "latest"
  }

  lemma OffsetModeInjective(a: TradeIngestionMode, b: TradeIngestionMode)
    requires ToAutoResetOffsetMode(a) == ToAutoResetOffsetMode(b)
    ensures a == b
  {
  }

  datatype Exchange =
    KRAKEN | BINANCE | BYBIT | BITMEX | BITFINEX | BITGET | BITSTAMP | BITTREX | COINBASE | GEMINI

  /** The string value of an exchange. */
  function ExchangeValue(e: Exchange): string
  {
    match e
    case KRAKEN => "KRAKEN"
    case BINANCE => "BINANCE"
    case BYBIT => "BYBIT"
    case BITMEX => "BITMEX"
    case BITFINEX => "BITFINEX"
    case BITGET => "BITGET"
    case BITSTAMP => "BITSTAMP"
    case BITTREX => "BITTREX"
    case COINBASE => "COINBASE"
    case GEMINI => "GEMINI"
  }

  datatype Asset = BTC | ETH | XRP

  datatype Symbol = XRPUSD | XLMUSD | BTCUSD | ETHUSD | BTCEUR | XRPEUR | XLMEUR | ETHEUR

  /** The string value of a symbol (the enum is a `str` enum). */
  function SymbolValue(s: Symbol): string
  {
    match s
    case XRPUSD => "XRPUSD"
    case XLMUSD => "XLMUSD"
    case BTCUSD => "BTCUSD"
    case ETHUSD => "ETHUSD"
    case BTCEUR => "BTCEUR"
    case XRPEUR => "XRPEUR"
    case XLMEUR => "XLMEUR"
    case ETHEUR => "ETHEUR"
  }

  predicate IsUpperLetter(c: char) { 'A' <= c <= 'Z' }

  /** Every symbol is six characters: a three-letter base, then USD or EUR. */
  lemma SymbolShape(s: Symbol)
    ensures |SymbolValue(s)| == 6
    ensures forall i :: 0 <= i < 3 ==> IsUpperLetter(SymbolValue(s)[i])
    ensures SymbolValue(s)[3..] == "USD" || SymbolValue(s)[3..] == "EUR"
    ensures '/' !in SymbolValue(s)
  {
  }

  /** `Symbol(v)`: the enum member whose value is `v`, or None where Python raises ValueError. */
  function ParseSymbol(v: string): (r: Option<Symbol>)
    ensures r.Some? ==> SymbolValue(r.value) == v
    ensures r.None? ==> forall s: Symbol :: SymbolValue(s) != v
  {
    if v == "XRPUSD" then Some(XRPUSD)
    else if v == "XLMUSD" then Some(XLMUSD)
    else if v == "BTCUSD" then Some(BTCUSD)
    else if v == "ETHUSD" then Some(ETHUSD)
    else if v == "BTCEUR" then Some(BTCEUR)
    else if v == "XRPEUR" then Some(XRPEUR)
    else if v == "XLMEUR" then Some(XLMEUR)
    else if v == "ETHEUR" then Some(ETHEUR)
    else None
  }

  lemma SymbolRoundTrip(s: Symbol)
    ensures ParseSymbol(SymbolValue(s)) == Some(s)
  {
  }

  lemma SymbolValueInjective(a: Symbol, b: Symbol)
    requires SymbolValue(a) == SymbolValue(b)
    ensures a == b
  {
    SymbolRoundTrip(a);
    SymbolRoundTrip(b);
  }

  /**
   * A trade from a crypto exchange. Prices and volumes are only compared,
   * copied and summed downstream, so they are reals; the timestamp is in
   * milliseconds.
   */
  datatype Trade = Trade(symbol: Symbol, price: real, volume: real, timestamp: int, exchange: Exchange)
}
