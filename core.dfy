/** The consumer service (`core`): an in-memory quote cache fed by a
    reconnecting stream client, and the two read handlers of its HTTP API.
    Locking is not modelled: every locked section is one atomic call. */
module Core {
  import opened Quotes

  /** Seconds the client waits after a failed open or a closed stream. */
  const ReconnectDelaySeconds: nat := 5

  /** The address `main` hands to the client; it is fixed in the program
      text, not read from the environment. */
  const FtAddress: string := "ft:50051"

  /** The last known price of every symbol received so far. */
  class QuoteStore {
    var quotes: map<string, real>

    /** `NewQuoteStore`: an empty store. */
    constructor ()
      ensures quotes == map[]
    {
      quotes := map[];
    }

    /** Insert or overwrite the price of one symbol. */
    method Set(symbol: string, price: real)
      modifies this
      ensures quotes == old(quotes)[symbol := price]
    {
      quotes := quotes[symbol := price];
    }

    /** The price of `symbol` and whether the store holds it; an absent
        symbol yields Go's zero value together with `false`. */
    method Get(symbol: string) returns (price: real, found: bool)
      ensures found <==> symbol in quotes
      ensures found ==> price == quotes[symbol]
      ensures !found ==> price == 0.0
    {
      found := symbol in quotes;
      price := if found then quotes[symbol] else 0.0;
    }

    /** A copy of the whole store, built entry by entry into a new map.
        Dafny maps are values, so later calls of `Set` cannot reach it. */
    method GetAll() returns (result: map<string, real>)
      ensures result == quotes
    {
      result := map[];
      var remaining := quotes.Keys;
      while remaining != {}
        invariant remaining <= quotes.Keys
        invariant result.Keys == quotes.Keys - remaining
        invariant forall k :: k in result ==> result[k] == quotes[k]
        decreases remaining
      {
        var k :| k in remaining;
        result := result[k := quotes[k]];
        remaining := remaining - {k};
      }
    }
  }

  /** A caller can keep a copy across later updates: the copy taken before
      `Set` is the old contents, whatever `Set` writes afterwards. */
  method SnapshotSurvivesSet(store: QuoteStore, symbol: string, price: real)
    returns (snapshot: map<string, real>, price': real, found: bool)
    modifies store
    ensures snapshot == old(store.quotes)
    ensures store.quotes == old(store.quotes)[symbol := price]
    ensures found && price' == price
  {
    snapshot := store.GetAll();
    store.Set(symbol, price);
    price', found := store.Get(symbol);
  }

  /** What the read API answers. */
  datatype Body =
    | PriceMap(prices: map<string, real>)
    | Error(error: string)
    | NotFound(error: string, symbol: string)
    | SymbolPrice(symbol: string, price: real)

  datatype Response = Response(status: int, body: Body)

  /** The decision of `GET /quotes` over the result of `GetAll`. */
  function AllQuotesResponse(quotes: map<string, real>): (r: Response)
    ensures r.status == 503 <==> |quotes| == 0
    ensures r.status == 503 || r.status == 200
    ensures r.status == 503 ==> r.body == Error("no quotes available yet")
    ensures r.status == 200 ==> r.body == PriceMap(quotes)
  {
    if |quotes| == 0 then Response(503, Error("no quotes available yet"))
    else Response(200, PriceMap(quotes))
  }

  /** The decision of `GET /quotes/:symbol` over the result of `Get`. */
  function QuoteBySymbolResponse(symbol: string, price: real, found: bool): (r: Response)
    ensures r.status == 404 <==> !found
    ensures r.status == 404 || r.status == 200
    ensures !found ==> r.body == NotFound("not found", symbol)
    ensures found ==> r.body == SymbolPrice(symbol, price)
  {
    if !found then Response(404, NotFound("not found", symbol))
    else Response(200, SymbolPrice(symbol, price))
  }

  /** `getAllQuotesHandler`: 503 exactly when the store is empty, otherwise
      200 with every cached pair. */
  method GetAllQuotesHandler(store: QuoteStore) returns (r: Response)
    ensures r.status == 503 <==> store.quotes == map[]
    ensures r.status == 503 ==> r.body == Error("no quotes available yet")
    ensures r.status != 503 ==> r == Response(200, PriceMap(store.quotes))
  {
    var quotes := store.GetAll();
    if quotes != map[] {
      var k :| k in quotes.Keys;
      assert |quotes.Keys| != 0;
    }
    r := AllQuotesResponse(quotes);
  }

  /** `getQuoteBySymbolHandler`: 200 with the exact key's price, or 404
      naming the requested symbol. There is no fuzzy matching. */
  method GetQuoteBySymbolHandler(store: QuoteStore, symbol: string) returns (r: Response)
    ensures symbol !in store.quotes ==> r == Response(404, NotFound("not found", symbol))
    ensures symbol in store.quotes ==> r == Response(200, SymbolPrice(symbol, store.quotes[symbol]))
  {
    var price, found := store.Get(symbol);
    r := QuoteBySymbolResponse(symbol, price, found);
  }

  /** A fresh store answers 503 for the whole map and 404 for any symbol:
      nothing is found before the first quote arrives. */
  method FreshStoreResponses(symbol: string) returns (all: Response, one: Response)
    ensures all == Response(503, Error("no quotes available yet"))
    ensures one == Response(404, NotFound("not found", symbol))
  {
    var store := new QuoteStore();
    all := GetAllQuotesHandler(store);
    one := GetQuoteBySymbolHandler(store, symbol);
  }

  // ---------------------------------------------------------------------
  // The stream client

  /** One pass of the reconnect loop: either `StreamQuotes` failed to open,
      or it opened, delivered `received` in order, and then `Recv` failed. */
  datatype Attempt =
    | OpenFailed(openError: string)
    | Streamed(received: seq<Quote>, recvError: string)

  /** Where the client is when the modelled prefix of its life ends. */
  datatype ClientPhase =
    | DialFatal(dialError: string)   // `log.Fatalf`: the process exits
    | Reopening                       // about to call `StreamQuotes` again

  /** The quotes an attempt delivers. */
  function Delivered(a: Attempt): seq<Quote>
  {
    if a.Streamed? then a.received else []
  }

  /** Every quote delivered over a sequence of attempts, in arrival order. */
  function DeliveredAll(attempts: seq<Attempt>): seq<Quote>
  {
    if attempts == [] then []
    else DeliveredAll(attempts[..|attempts| - 1]) + Delivered(attempts[|attempts| - 1])
  }

  /** The cache after upserting `qs` one by one into `cache`. */
  function Upserted(cache: map<string, real>, qs: seq<Quote>): map<string, real>
  {
    if qs == [] then cache
    else
      var last := qs[|qs| - 1];
      Upserted(cache, qs[..|qs| - 1])[last.symbol := last.price]
  }

  /** Latest value wins: after the upserts, a symbol maps to the price of
      its last received quote; a symbol never received keeps its entry (or
      its absence). */
  lemma {:induction false} UpsertedAt(cache: map<string, real>, qs: seq<Quote>, s: string)
    ensures var i := LastIndexOf(qs, s);
      && (s in Upserted(cache, qs) <==> s in cache || i >= 0)
      && (i >= 0 ==> Upserted(cache, qs)[s] == qs[i].price)
      && (i < 0 && s in cache ==> Upserted(cache, qs)[s] == cache[s])
  {
    if qs != [] {
      UpsertedAt(cache, qs[..|qs| - 1], s);
    }
  }

  /** Upserting never forgets a symbol. */
  lemma {:induction false} UpsertedKeysGrow(cache: map<string, real>, qs: seq<Quote>)
    ensures Upserted(cache, qs).Keys == cache.Keys + SymbolSet(qs)
  {
    forall s | true ensures s in Upserted(cache, qs).Keys <==> s in cache.Keys + SymbolSet(qs) {
      UpsertedAt(cache, qs, s);
      SymbolSetLastIndex(qs, s);
    }
  }

  /** `startGRPCClient(store, FtAddress)`, as `main` starts it, over a
      finite prefix of its environment: `dial(address)` is the error, if
      any, of dialing that address, and `attempts` are the outcomes of the
      first `|attempts|` passes of the reconnect loop. A failed dial is
      fatal and touches nothing. Otherwise every received quote is upserted
      in arrival order, every attempt is followed by one
      `ReconnectDelaySeconds` wait before the next `StreamQuotes` call, and
      the loop is always ready for another attempt. */
  method StartGRPCClient(store: QuoteStore, dial: string -> Option<string>, attempts: seq<Attempt>)
    returns (phase: ClientPhase, opens: nat, waitedSeconds: nat)
    modifies store
    ensures var dialError := dial(FtAddress);
      dialError.Some? ==> phase == DialFatal(dialError.value) && opens == 0 && waitedSeconds == 0
    ensures dial(FtAddress).Some? ==> store.quotes == old(store.quotes)
    ensures dial(FtAddress).None? ==> phase == Reopening && opens == |attempts|
    ensures dial(FtAddress).None? ==> waitedSeconds == ReconnectDelaySeconds * |attempts|
    ensures dial(FtAddress).None? ==> store.quotes == Upserted(old(store.quotes), DeliveredAll(attempts))
  {
    var dialError := dial(FtAddress);
    if dialError.Some? {
      return DialFatal(dialError.value), 0, 0;
    }
    opens, waitedSeconds := ReconnectLoop(store, attempts);
    phase := Reopening;
  }

  /** The reconnect loop of `startGRPCClient` over its first `|attempts|`
      passes: one `StreamQuotes` call and one wait per pass, every received
      quote upserted in arrival order. */
  method ReconnectLoop(store: QuoteStore, attempts: seq<Attempt>) returns (opens: nat, waitedSeconds: nat)
    modifies store
    ensures opens == |attempts|
    ensures waitedSeconds == ReconnectDelaySeconds * |attempts|
    ensures store.quotes == Upserted(old(store.quotes), DeliveredAll(attempts))
  {
    ghost var initial := store.quotes;
    opens, waitedSeconds := 0, 0;
    var k := 0;
    while k < |attempts|
      invariant 0 <= k <= |attempts|
      invariant opens == k && waitedSeconds == ReconnectDelaySeconds * k
      invariant store.quotes == Upserted(initial, DeliveredAll(attempts[..k]))
    {
      opens := opens + 1;
      ghost var before := DeliveredAll(attempts[..k]);
      assert attempts[..k + 1][..k] == attempts[..k];
      assert DeliveredAll(attempts[..k + 1]) == before + Delivered(attempts[k]);
      match attempts[k] {
        case OpenFailed(_) =>
        assert before + [] == before;
        waitedSeconds := waitedSeconds + ReconnectDelaySeconds;
        case Streamed(received, _) =>
        ReceiveAll(store, received, initial, before);
        waitedSeconds := waitedSeconds + ReconnectDelaySeconds;
      }
      k := k + 1;
    }
    assert attempts[..k] == attempts;
  }

  /** The inner loop of `startGRPCClient`: every quote of one session is
      written into the store as it arrives, extending the run's upserts. */
  method ReceiveAll(store: QuoteStore, received: seq<Quote>, ghost initial: map<string, real>,
                    ghost before: seq<Quote>)
    requires store.quotes == Upserted(initial, before)
    modifies store
    ensures store.quotes == Upserted(initial, before + received)
  {
    var j := 0;
    assert before + received[..0] == before;
    while j < |received|
      invariant 0 <= j <= |received|
      invariant store.quotes == Upserted(initial, before + received[..j])
    {
      var q := received[j];
      assert (before + received[..j + 1])[..|before + received[..j + 1]| - 1] == before + received[..j];
      store.Set(q.symbol, q.price);
      j := j + 1;
    }
    assert received[..j] == received;
  }

  /** The client cache after any run: for every symbol, the price of the
      last quote received for it in any session, or the earlier entry when
      no session delivered it. Failed opens contribute nothing. */
  lemma ClientCacheLatestWins(cache: map<string, real>, attempts: seq<Attempt>, s: string)
    ensures var all := DeliveredAll(attempts);
      var i := LastIndexOf(all, s);
      && (s in Upserted(cache, all) <==> s in cache || i >= 0)
      && (i >= 0 ==> Upserted(cache, all)[s] == all[i].price)
      && (i < 0 && s in cache ==> Upserted(cache, all)[s] == cache[s])
  {
    UpsertedAt(cache, DeliveredAll(attempts), s);
  }

  /** A failed open between two sessions loses nothing. */
  lemma FailedOpenDeliversNothing(attempts: seq<Attempt>, e: string)
    ensures DeliveredAll(attempts + [OpenFailed(e)]) == DeliveredAll(attempts)
  {
  }
}
