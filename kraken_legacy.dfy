/**
 * The older Kraken websocket API of services/trades/trades. Its symbol
 * helpers, channel tests and message handling are the same as those of the
 * exchanges client and are used from module Kraken; what differs is the
 * object: `symbols` holds the Kraken form directly and `check_connection`
 * is its own.
 */
module KrakenLegacy {
  import opened Wrappers
  import opened Json
  import opened Trades
  import opened Kraken

  class KrakenWebsocketAPI {
    const url: string
    var symbols: seq<string>
    var ws: Option<Connection>

    /** `__init__`: the symbols mapped elementwise to Kraken form, no connection yet. */
    constructor (symbols: seq<Symbol>)
      ensures url == "wss://ws.kraken.com/v2"
      ensures this.symbols == ToKrakenSymbols(symbols)
      ensures ws.None?
    {
      url := "wss://ws.kraken.com/v2";
      this.symbols := ToKrakenSymbols(symbols);
      ws := None;
    }

    /** `check_connection`: RuntimeError exactly when `ws` is None, otherwise `ws`. */
    function CheckConnection(): (r: Result<Connection, StreamError>)
      reads this
      ensures r.Err? <==> ws.None?
      ensures r.Ok? ==> ws == Some(r.value)
    {
      if ws.None? then Err(NotConnected) else Ok(ws.value)
    }

    /** `connect`: the opened connection becomes `ws`; the symbols stay. */
    method Connect(conn: Connection)
      modifies this
      ensures ws == Some(conn) && symbols == old(symbols)
    {
      ws := Some(conn);
    }

    /** `stream_trades`: the connection check, then the receive loop. */
    method StreamTrades(events: seq<WsEvent>, toMillis: Json -> Option<int>) returns (r: Result<seq<Trade>, StreamError>)
      ensures ws.None? ==> r == Err(NotConnected)
      ensures ws.Some? ==> r == Ok(StreamedTrades(events, toMillis))
    {
      var conn := CheckConnection();
      if conn.Err? {
        return Err(conn.error);
      }
      var yielded := ReceiveLoop(events, toMillis);
      r := Ok(yielded);
    }
  }

  /** After `connect`, streaming never fails the connection check. */
  method ConnectThenStream(symbols: seq<Symbol>, conn: Connection, events: seq<WsEvent>, toMillis: Json -> Option<int>)
    returns (r: Result<seq<Trade>, StreamError>)
    ensures r == Ok(StreamedTrades(events, toMillis))
  {
    var api := new KrakenWebsocketAPI(symbols);
    api.Connect(conn);
    r := api.StreamTrades(events, toMillis);
  }

  /** Streaming on a fresh object, before `connect`, raises. */
  method StreamBeforeConnect(symbols: seq<Symbol>, events: seq<WsEvent>, toMillis: Json -> Option<int>)
    returns (r: Result<seq<Trade>, StreamError>)
    ensures r == Err(NotConnected)
  {
    var api := new KrakenWebsocketAPI(symbols);
    r := api.StreamTrades(events, toMillis);
  }
}
