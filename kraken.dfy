/**
 * Kraken trade ingestion (the websocket client of the trades service):
 * symbol conversion to and from Kraken's `BASE/QUOTE` form, message
 * classification, validation of one trade entry, and the receive loop that
 * yields one Trade per valid entry and skips everything else.
 *
 * Pydantic's validation is modelled for JSON as it arrives: `symbol` must be
 * a string, `price` and `qty` numbers; the datetime parsing of `timestamp`
 * and its conversion to milliseconds are the parameter `toMillis`.
 */
module Kraken {
  import opened Wrappers
  import opened Strings
  import opened Json
  import opened Trades

  /** A trade entry as Kraken sends it, once validated. */
  datatype KrakenTrade = KrakenTrade(symbol: string, price: real, qty: real, timestamp: int)

  /** `f"{s[:3]}/{s[3:]}"` on any string. */
  function SlashAfterBase(s: string): (r: string)
    ensures |r| == |s| + 1
    ensures |s| >= 3 ==> r[3] == '/' && r[..3] == s[..3] && r[4..] == s[3..]
  {
    var k := if |s| < 3 then |s| else 3;
    s[..k] + "/" + s[k..]
  }

  /** `KrakenTrade.to_kraken_symbol`: XRPUSD becomes XRP/USD. */
  function ToKrakenSymbol(s: Symbol): (r: string)
    ensures |r| == 7 && r[3] == '/'
    ensures r[..3] + r[4..] == SymbolValue(s)
  {
    SymbolShape(s);
    var v := SymbolValue(s);
    assert v[..3] + v[3..] == v;
    SlashAfterBase(v)
  }

  /** Removing the slashes from `SlashAfterBase(s)` gives back any slash-free `s`. */
  lemma RemoveSlashInverts(s: string)
    requires '/' !in s
    ensures RemoveChar(SlashAfterBase(s), '/') == s
  {
    var k := if |s| < 3 then |s| else 3;
    assert '/' !in s[..k] && '/' !in s[k..] by {
      forall i | 0 <= i < k ensures s[..k][i] != '/' { assert s[..k][i] == s[i]; }
      forall i | 0 <= i < |s| - k ensures s[k..][i] != '/' { assert s[k..][i] == s[k + i]; }
    }
    RemoveCharConcat(s[..k] + "/", s[k..], '/');
    RemoveCharConcat(s[..k], "/", '/');
    assert s[..k] + s[k..] == s;
  }

  /** `remove_slash_from_symbol`: `Symbol(s.replace("/", ""))`; None where that raises. */
  function RemoveSlashFromSymbol(s: string): (r: Option<Symbol>)
    ensures r.Some? ==> SymbolValue(r.value) == RemoveChar(s, '/')
  {
    ParseSymbol(RemoveChar(s, '/'))
  }

  lemma KrakenSymbolRoundTrip(s: Symbol)
    ensures RemoveSlashFromSymbol(ToKrakenSymbol(s)) == Some(s)
  {
    SymbolShape(s);
    RemoveSlashInverts(SymbolValue(s));
    SymbolRoundTrip(s);
  }

  lemma ToKrakenSymbolInjective(a: Symbol, b: Symbol)
    requires ToKrakenSymbol(a) == ToKrakenSymbol(b)
    ensures a == b
  {
    KrakenSymbolRoundTrip(a);
    KrakenSymbolRoundTrip(b);
  }

  /** `list(map(KrakenTrade.to_kraken_symbol, symbols))`. */
  function ToKrakenSymbols(symbols: seq<Symbol>): (r: seq<string>)
    ensures |r| == |symbols|
    ensures forall i :: 0 <= i < |symbols| ==> r[i] == ToKrakenSymbol(symbols[i])
  {
    seq(|symbols|, i requires 0 <= i < |symbols| => ToKrakenSymbol(symbols[i]))
  }

  /** The error `into` raises through the symbol serializer. */
  datatype IntoError = UnknownSymbol(symbol: string)

  /** `KrakenTrade.into`: dump by alias (`qty` as `volume`), add exchange KRAKEN, parse a Trade. */
  function Into(kt: KrakenTrade): (r: Result<Trade, IntoError>)
    ensures r.Ok? <==> RemoveSlashFromSymbol(kt.symbol).Some?
    ensures r.Ok? ==> r.value.exchange == KRAKEN && r.value.volume == kt.qty &&
                      r.value.price == kt.price && r.value.timestamp == kt.timestamp &&
                      SymbolValue(r.value.symbol) == RemoveChar(kt.symbol, '/')
  {
    match RemoveSlashFromSymbol(kt.symbol)
    case Some(s) => Ok(Trade(s, kt.price, kt.qty, kt.timestamp, KRAKEN))
    case None => Err(UnknownSymbol(kt.symbol))
  }

  /** Pydantic's `float` on a JSON value. */
  function AsFloat(j: Json): Option<real>
  {
    match j
    case JInt(i) => Some(i as real)
    case JFloat(f) => Some(f)
    case _ => None
  }

  /** The four fields of `KrakenTrade` are present and of the declared types. */
  predicate WellFormedEntry(entry: Json, toMillis: Json -> Option<int>)
  {
    entry.JObj? &&
    "symbol" in entry.fields && entry.fields["symbol"].JStr? &&
    "price" in entry.fields && AsFloat(entry.fields["price"]).Some? &&
    "qty" in entry.fields && AsFloat(entry.fields["qty"]).Some? &&
    "timestamp" in entry.fields && toMillis(entry.fields["timestamp"]).Some?
  }

  /** `KrakenTrade.parse(entry)`; None is a ValidationError. */
  function ParseKrakenTrade(entry: Json, toMillis: Json -> Option<int>): (r: Option<KrakenTrade>)
    ensures r.Some? <==> WellFormedEntry(entry, toMillis)
    ensures r.Some? ==> entry.fields["symbol"] == JStr(r.value.symbol)
    ensures r.Some? ==> AsFloat(entry.fields["price"]) == Some(r.value.price)
    ensures r.Some? ==> AsFloat(entry.fields["qty"]) == Some(r.value.qty)
    ensures r.Some? ==> toMillis(entry.fields["timestamp"]) == Some(r.value.timestamp)
  {
    match entry
    case JObj(f) =>
      if "symbol" in f && f["symbol"].JStr? && "price" in f && "qty" in f && "timestamp" in f then
        match (AsFloat(f["price"]), AsFloat(f["qty"]), toMillis(f["timestamp"]))
        case (Some(p), Some(q), Some(ms)) => Some(KrakenTrade(f["symbol"].s, p, q, ms))
        case _ => None
      else None
    case _ => None
  }

  /** A trade entry written out as JSON numbers validates back to the same trade. */
  lemma ParseEntryOfTrade(kt: KrakenTrade, ts: Json, toMillis: Json -> Option<int>)
    requires toMillis(ts) == Some(kt.timestamp)
    ensures var entry := JObj(map["symbol" := JStr(kt.symbol), "price" := JFloat(kt.price),
                                  "qty" := JFloat(kt.qty), "timestamp" := ts]);
            ParseKrakenTrade(entry, toMillis) == Some(kt)
  {
  }

  /** `is_trade`: the `"channel"` entry is `"trade"`. */
  predicate IsTrade(response: map<string, Json>)
  {
    Get(response, "channel") == Some(JStr("trade"))
  }

  /** `is_heartbeat`: the `"channel"` entry is `"heartbeat"`. */
  predicate IsHeartbeat(response: map<string, Json>)
  {
    Get(response, "channel") == Some(JStr("heartbeat"))
  }

  /** The two tests depend on `"channel"` alone and never hold together. */
  lemma ChannelClassification(a: map<string, Json>, b: map<string, Json>)
    ensures !(IsTrade(a) && IsHeartbeat(a))
    ensures Get(a, "channel") == Get(b, "channel") ==> IsTrade(a) == IsTrade(b) && IsHeartbeat(a) == IsHeartbeat(b)
  {
  }

  /**
   * The trades yielded for the entries of one trade message, in order. An
   * entry that does not validate is skipped; a validated entry whose symbol
   * is not a known Symbol makes `into` raise an error that is not a
   * ValidationError, which ends the message.
   */
  function EntryTrades(items: seq<Json>, toMillis: Json -> Option<int>): seq<Trade>
  {
    if items == [] then []
    else
      match ParseKrakenTrade(items[0], toMillis)
      case None => EntryTrades(items[1..], toMillis)
      case Some(kt) =>
        match Into(kt)
        case Err(_) => []
        case Ok(t) => [t] + EntryTrades(items[1..], toMillis)
  }

  /** Reference: one trade per entry that validates and converts, all of them, in order. */
  function ValidTrades(items: seq<Json>, toMillis: Json -> Option<int>): seq<Trade>
  {
    if items == [] then []
    else
      var rest := ValidTrades(items[1..], toMillis);
      match ParseKrakenTrade(items[0], toMillis)
      case None => rest
      case Some(kt) => if Into(kt).Ok? then [Into(kt).value] + rest else rest
  }

  /** Some entry validates but names a symbol that is not a Symbol. */
  predicate HasUnknownSymbol(items: seq<Json>, toMillis: Json -> Option<int>)
  {
    exists i :: 0 <= i < |items| && ParseKrakenTrade(items[i], toMillis).Some? &&
      Into(ParseKrakenTrade(items[i], toMillis).value).Err?
  }

  /**
   * The yielded trades are a prefix of the valid ones, and all of them when
   * no validated entry has an unknown symbol.
   */
  lemma {:induction false} EntryTradesPrefix(items: seq<Json>, toMillis: Json -> Option<int>)
    ensures EntryTrades(items, toMillis) <= ValidTrades(items, toMillis)
    ensures !HasUnknownSymbol(items, toMillis) ==> EntryTrades(items, toMillis) == ValidTrades(items, toMillis)
  {
    if items != [] {
      EntryTradesPrefix(items[1..], toMillis);
    }
  }

  /** Every yielded trade is on KRAKEN. */
  lemma {:induction false} EntryTradesOnKraken(items: seq<Json>, toMillis: Json -> Option<int>)
    ensures forall t :: t in EntryTrades(items, toMillis) ==> t.exchange == KRAKEN
  {
    if items != [] {
      EntryTradesOnKraken(items[1..], toMillis);
    }
  }

  /** A decoded websocket frame: `json.loads` fails, or gives a JSON value. */
  datatype Payload = NotJson | Decoded(value: Json)

  /** What one `recv` gives: a frame, a normal or abnormal closure, or another error. */
  datatype WsEvent = Received(payload: Payload) | ClosedOk | ClosedError | RecvFailed

  /**
   * The trades one message yields. Anything but a JSON object makes `.get`
   * raise, which is logged and skipped; a non-trade channel yields nothing;
   * missing `"data"` reads as `[]`; `"data"` that is not a list yields
   * nothing either (a dict or a string iterates as strings, which never
   * validate; other values raise and are skipped).
   */
  function MessageTrades(p: Payload, toMillis: Json -> Option<int>): seq<Trade>
  {
    match p
    case NotJson => []
    case Decoded(v) =>
      match v
      case JObj(response) =>
        if !IsTrade(response) then []
        else (
          match Get(response, "data")
          case None => []
          case Some(JArr(items)) => EntryTrades(items, toMillis)
          case Some(_) => [])
      case _ => []
  }

  lemma NonTradeMessageYieldsNothing(response: map<string, Json>, toMillis: Json -> Option<int>)
    requires !IsTrade(response)
    ensures MessageTrades(Decoded(JObj(response)), toMillis) == []
  {
  }

  lemma TradeMessageWithoutData(response: map<string, Json>, toMillis: Json -> Option<int>)
    requires IsTrade(response) && "data" !in response
    ensures MessageTrades(Decoded(JObj(response)), toMillis) == []
  {
  }

  /** Everything the loop yields for a run of events: it stops at the first closure. */
  function StreamedTrades(events: seq<WsEvent>, toMillis: Json -> Option<int>): seq<Trade>
  {
    if events == [] then []
    else
      match events[0]
      case Received(p) => MessageTrades(p, toMillis) + StreamedTrades(events[1..], toMillis)
      case RecvFailed => StreamedTrades(events[1..], toMillis)
      case ClosedOk => []
      case ClosedError => []
  }

  /**
   * The body of `stream_trades` after the connection check: receive, decode,
   * skip non-trade messages, yield one trade per valid entry, and stop on
   * closure. The yielded trades are returned in order.
   */
  method ReceiveLoop(events: seq<WsEvent>, toMillis: Json -> Option<int>) returns (yielded: seq<Trade>)
    ensures yielded == StreamedTrades(events, toMillis)
  {
    yielded := [];
    var i := 0;
    while i < |events|
      invariant 0 <= i <= |events|
      invariant yielded + StreamedTrades(events[i..], toMillis) == StreamedTrades(events, toMillis)
    {
      var ev := events[i];
      assert events[i..][0] == ev && events[i..][1..] == events[i + 1..];
      if ev.ClosedOk? || ev.ClosedError? {
        break;
      }
      i := i + 1;
      if ev.RecvFailed? {
        continue;
      }
      var fromMessage := HandleMessage(ev.payload, toMillis);
      yielded := yielded + fromMessage;
    }
  }

  /** One pass of the loop body for a received frame: what it yields. */
  method HandleMessage(p: Payload, toMillis: Json -> Option<int>) returns (fromMessage: seq<Trade>)
    ensures fromMessage == MessageTrades(p, toMillis)
  {
    fromMessage := [];
    if p.NotJson? || !p.value.JObj? {
      return;
    }
    var response := p.value.fields;
    if !IsTrade(response) {
      return;
    }
    var trades := if "data" in response then response["data"] else JArr([]);
    if !trades.JArr? {
      return;
    }
    var items := trades.items;
    var j := 0;
    while j < |items|
      invariant 0 <= j <= |items|
      invariant fromMessage + EntryTrades(items[j..], toMillis) == EntryTrades(items, toMillis)
    {
      assert items[j..][0] == items[j] && items[j..][1..] == items[j + 1..];
      var parsed := ParseKrakenTrade(items[j], toMillis);
      if parsed.Some? {
        var t := Into(parsed.value);
        if t.Err? {
          break;
        }
        fromMessage := fromMessage + [t.value];
      }
      j := j + 1;
    }
    assert items[|items|..] == [];
  }

  /** An established websocket connection. */
  datatype Connection = Connection(url: string)

  /** Why `stream_trades` produced nothing: `check_connection` raised RuntimeError. */
  datatype StreamError = NotConnected

  /**
   * The websocket client of services/trades/trades/exchanges. It keeps the
   * subscribed symbols in Kraken form; the connection starts out unset.
   */
  class KrakenWebsocketClient {
    const url: string
    var symbols: seq<Symbol>
    var krakenSymbols: seq<string>
    var ws: Option<Connection>

    constructor (symbols: seq<Symbol>)
      ensures url == "wss://ws.kraken.com/v2"
      ensures this.symbols == symbols
      ensures krakenSymbols == ToKrakenSymbols(symbols)
      ensures ws.None?
    {
      url := "wss://ws.kraken.com/v2";
      this.symbols := symbols;
      krakenSymbols := ToKrakenSymbols(symbols);
      ws := None;
    }

    /** `check_connection`: the connection, or RuntimeError when it is unset. */
    function CheckConnection(): (r: Result<Connection, StreamError>)
      reads this
      ensures r.Err? <==> ws.None?
      ensures r.Ok? ==> ws == Some(r.value)
    {
      if ws.None? then Err(NotConnected) else Ok(ws.value)
    }

    /** `connect`: the connection the websocket library opened becomes `ws`. */
    method Connect(conn: Connection)
      modifies this
      ensures ws == Some(conn)
      ensures symbols == old(symbols) && krakenSymbols == old(krakenSymbols)
    {
      ws := Some(conn);
    }

    /** `stream_trades` over the events the connection delivers. */
    method StreamTrades(events: seq<WsEvent>, toMillis: Json -> Option<int>) returns (r: Result<seq<Trade>, StreamError>)
      ensures ws.None? ==> r == Err(NotConnected)
      ensures ws.Some? ==> r == Ok(StreamedTrades(events, toMillis))
    {
      var conn := CheckConnection();
      if conn.Err? {
        return Err(conn.error);
      }
      var yielded := ReceiveLoop(events, toMillis);
      r := Ok(yielded);
    }
  }
}
