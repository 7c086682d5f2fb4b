/** The HTTP gateway (`ht`): each `GET /quotes` opens its own stream to the
    generator, collects what arrives before the first receive error (the
    5 s deadline ends every stream with one), keeps the latest quote per
    symbol and answers with them as a flat list. */
module Gateway {
  import opened Quotes
  import Os

  /** The fallback when `GRPC_SERVER` is unset or empty. */
  const DefaultGrpcServer: string := "localhost:50051"

  /** The symbols every collection asks for. */
  const RequestedSymbols: seq<string> := ["BTC", "ETH", "SBER"]

  /** Length of the collection window, in seconds. */
  const CollectTimeoutSeconds: nat := 5

  /** The `Access-Control-*` headers set on every response. */
  const CorsHeaders: map<string, string> := map[
    "Access-Control-Allow-Origin" := "*",
    "Access-Control-Allow-Methods" := "GET, POST, OPTIONS",
    "Access-Control-Allow-Headers" := "Content-Type"
  ]

  /** The address the gateway dials. */
  function GrpcAddress(env: map<string, string>): (addr: string)
    ensures addr != ""
    ensures Os.Getenv(env, "GRPC_SERVER") != "" ==> addr == env["GRPC_SERVER"]
    ensures Os.Getenv(env, "GRPC_SERVER") == "" ==> addr == DefaultGrpcServer
  {
    var fromEnv := Os.Getenv(env, "GRPC_SERVER");
    if fromEnv == "" then DefaultGrpcServer else fromEnv
  }

  /** The default applies when the variable is unset or empty, and a set
      variable is used as it is. */
  lemma GrpcAddressCases(env: map<string, string>, addr: string)
    requires addr != ""
    ensures GrpcAddress(env - {"GRPC_SERVER"}) == "localhost:50051"
    ensures GrpcAddress(env["GRPC_SERVER" := ""]) == "localhost:50051"
    ensures GrpcAddress(env["GRPC_SERVER" := addr]) == addr
  {
  }

  /** The streaming request the handler sends. */
  datatype Request = Request(symbols: seq<string>, timeoutSeconds: nat)

  const QuotesRequest: Request := Request(RequestedSymbols, CollectTimeoutSeconds)

  /** One result of `stream.Recv()`. */
  datatype RecvResult = Got(quote: Quote) | RecvFailed(reason: string)

  /** The result of `client.StreamQuotes`: an error, or an open stream and
      the receive results it yields, in order. */
  datatype OpenResult = OpenError(error: string) | Opened(stream: seq<RecvResult>)

  datatype GatewayResponse =
    | NoContent                        // the OPTIONS short-circuit
    | InternalError(error: string)     // the stream could not be opened
    | QuoteList(records: seq<Quote>)   // the collected snapshot
    | RouteNotFound                    // no route matched
  {
    function Status(): int
    {
      match this
      case NoContent => 204
      case InternalError(_) => 500
      case QuoteList(_) => 200
      case RouteNotFound => 404
    }
  }

  /** Where the first receive error is, or the end of the results. */
  function FirstError(stream: seq<RecvResult>): (n: nat)
    ensures n <= |stream|
    ensures forall j :: 0 <= j < n ==> stream[j].Got?
    ensures n < |stream| ==> stream[n].RecvFailed?
  {
    if stream == [] || stream[0].RecvFailed? then 0 else 1 + FirstError(stream[1..])
  }

  /** The quotes among some receive results, in order. */
  function GotQuotes(rs: seq<RecvResult>): seq<Quote>
  {
    if rs == [] then []
    else
      var last := rs[|rs| - 1];
      GotQuotes(rs[..|rs| - 1]) + (if last.Got? then [last.quote] else [])
  }

  /** The quotes received before the first receive error. */
  function ReceivedBeforeError(stream: seq<RecvResult>): seq<Quote>
  {
    GotQuotes(stream[..FirstError(stream)])
  }

  /** Collection stops at the first receive error: what comes after it is
      never looked at. */
  lemma {:induction false} StopsAtFirstError(received: seq<Quote>, reason: string, rest: seq<RecvResult>)
    ensures ReceivedBeforeError(AsReceived(received) + [RecvFailed(reason)] + rest) == received
  {
    var stream := AsReceived(received) + [RecvFailed(reason)] + rest;
    var n := FirstError(stream);
    AsReceivedShape(received);
    assert stream[|received|] == RecvFailed(reason);
    assert forall j :: 0 <= j < |received| ==> stream[j] == Got(received[j]);
    assert n == |received|;
    assert stream[..n] == AsReceived(received);
    GotAsReceived(received);
  }

  /** The receive results that deliver `qs` one after another. */
  function AsReceived(qs: seq<Quote>): seq<RecvResult>
  {
    seq(|qs|, i requires 0 <= i < |qs| => Got(qs[i]))
  }

  lemma AsReceivedShape(qs: seq<Quote>)
    ensures |AsReceived(qs)| == |qs|
    ensures forall i :: 0 <= i < |qs| ==> AsReceived(qs)[i] == Got(qs[i])
  {
  }

  lemma {:induction false} GotAsReceived(qs: seq<Quote>)
    ensures GotQuotes(AsReceived(qs)) == qs
  {
    if qs != [] {
      var init := qs[..|qs| - 1];
      assert AsReceived(qs)[..|qs| - 1] == AsReceived(init);
      GotAsReceived(init);
    }
  }

  /** The snapshot map after collecting `qs`: the last quote wins. */
  function CollectLatest(qs: seq<Quote>): map<string, Quote>
  {
    if qs == [] then map[]
    else
      var last := qs[|qs| - 1];
      CollectLatest(qs[..|qs| - 1])[last.symbol := last]
  }

  /** Latest value wins: a symbol is in the snapshot exactly when some
      received quote carries it, and then it maps to the last such quote,
      symbol, price and timestamp alike. */
  lemma {:induction false} CollectLatestAt(qs: seq<Quote>, s: string)
    ensures var i := LastIndexOf(qs, s);
      && (s in CollectLatest(qs) <==> i >= 0)
      && (i >= 0 ==> CollectLatest(qs)[s] == qs[i])
  {
    if qs != [] {
      CollectLatestAt(qs[..|qs| - 1], s);
    }
  }

  /** Every entry of a snapshot is keyed by its own symbol. */
  predicate KeyedBySymbol(m: map<string, Quote>)
  {
    forall s :: s in m ==> m[s].symbol == s
  }

  /** The snapshot holds one entry per distinct received symbol, each keyed
      by its own symbol. */
  lemma {:induction false} CollectLatestKeys(qs: seq<Quote>)
    ensures CollectLatest(qs).Keys == SymbolSet(qs)
    ensures KeyedBySymbol(CollectLatest(qs))
  {
    forall s | true ensures s in CollectLatest(qs) <==> s in SymbolSet(qs) {
      CollectLatestAt(qs, s);
      SymbolSetLastIndex(qs, s);
    }
    forall s | s in CollectLatest(qs) ensures CollectLatest(qs)[s].symbol == s {
      CollectLatestAt(qs, s);
    }
  }

  /** `records` lists the entries of `m`, each exactly once, in some order. */
  predicate ListsEntries(records: seq<Quote>, m: map<string, Quote>)
  {
    && DistinctSymbols(records)
    && SymbolSet(records) == m.Keys
    && forall i :: 0 <= i < |records| ==> records[i].symbol in m && records[i] == m[records[i].symbol]
  }

  /** A listing of a snapshot has one record per entry. */
  lemma ListsEntriesLength(records: seq<Quote>, m: map<string, Quote>)
    requires ListsEntries(records, m)
    ensures |records| == |m|
  {
    DistinctSymbolsCount(records);
    assert |m| == |m.Keys|;
  }

  /** The map-to-slice loop: append every entry of the snapshot. The order
      of map iteration is unspecified, so any order may come out. */
  method Flatten(m: map<string, Quote>) returns (records: seq<Quote>)
    requires KeyedBySymbol(m)
    ensures ListsEntries(records, m)
  {
    records := [];
    var remaining := m.Keys;
    while remaining != {}
      invariant remaining <= m.Keys
      invariant SymbolSet(records) == m.Keys - remaining
      invariant DistinctSymbols(records)
      invariant forall i :: 0 <= i < |records| ==> records[i].symbol in m && records[i] == m[records[i].symbol]
      decreases remaining
    {
      var s :| s in remaining;
      SymbolSetSnoc(records, m[s]);
      assert s !in SymbolSet(records);
      assert forall i :: 0 <= i < |records| ==> records[i].symbol in SymbolSet(records);
      records := records + [m[s]];
      remaining := remaining - {s};
    }
  }

  /** What `GET /quotes` answers for a given result of opening the stream. */
  ghost predicate AnswersQuotes(open: OpenResult, resp: GatewayResponse)
  {
    match open
    case OpenError(e) => resp == InternalError(e)
    case Opened(stream) =>
      resp.QuoteList? && ListsEntries(resp.records, CollectLatest(ReceivedBeforeError(stream)))
  }

  /** The first receive error is at `n` when every earlier result is a
      quote and `n` is an error or the end. */
  lemma {:induction false} FirstErrorAt(stream: seq<RecvResult>, n: nat)
    requires n <= |stream|
    requires forall j :: 0 <= j < n ==> stream[j].Got?
    requires n < |stream| ==> stream[n].RecvFailed?
    ensures FirstError(stream) == n
  {
    if n > 0 {
      assert stream[0].Got?;
      FirstErrorAt(stream[1..], n - 1);
    }
  }

  /** One more received quote updates the snapshot at its own symbol. */
  lemma CollectOneMore(stream: seq<RecvResult>, i: nat)
    requires i < |stream| && stream[i].Got?
    ensures CollectLatest(GotQuotes(stream[..i + 1]))
         == CollectLatest(GotQuotes(stream[..i]))[stream[i].quote.symbol := stream[i].quote]
  {
    assert stream[..i + 1][..i] == stream[..i];
  }

  /** The `/quotes` handler: open a stream for `RequestedSymbols` with the
      collection deadline, fold every received quote into the snapshot
      until the first receive error, then list the snapshot. */
  method HandleQuotes(openStream: Request -> OpenResult) returns (resp: GatewayResponse)
    ensures AnswersQuotes(openStream(QuotesRequest), resp)
  {
    var open := openStream(QuotesRequest);
    if open.OpenError? {
      return InternalError(open.error);
    }
    var stream := open.stream;
    var latest: map<string, Quote> := map[];
    var i := 0;
    while i < |stream| && stream[i].Got?
      invariant 0 <= i <= |stream|
      invariant forall j :: 0 <= j < i ==> stream[j].Got?
      invariant latest == CollectLatest(GotQuotes(stream[..i]))
    {
      var quote := stream[i].quote;
      CollectOneMore(stream, i);
      latest := latest[quote.symbol := quote];
      i := i + 1;
    }
    FirstErrorAt(stream, i);
    CollectLatestKeys(GotQuotes(stream[..i]));
    var records := Flatten(latest);
    resp := QuoteList(records);
  }

  /** The whole gateway for a request to `/quotes`: the CORS headers go on
      every response, OPTIONS ends with 204 before any route runs, GET runs
      the handler, and any other method finds no route. */
  method Serve(httpMethod: string, openStream: Request -> OpenResult)
    returns (headers: map<string, string>, resp: GatewayResponse)
    ensures headers == CorsHeaders
    ensures httpMethod == "OPTIONS" ==> resp == NoContent
    ensures httpMethod == "GET" ==> AnswersQuotes(openStream(QuotesRequest), resp)
    ensures httpMethod != "OPTIONS" && httpMethod != "GET" ==> resp == RouteNotFound
  {
    headers := CorsHeaders;
    if httpMethod == "OPTIONS" {
      resp := NoContent;
    } else if httpMethod == "GET" {
      resp := HandleQuotes(openStream);
    } else {
      resp := RouteNotFound;
    }
  }

  /** An opened stream always yields 200; with no quote before the first
      error the list is empty, not an error. */
  lemma OpenedMeansSuccess(stream: seq<RecvResult>, resp: GatewayResponse)
    requires AnswersQuotes(Opened(stream), resp)
    ensures resp.Status() == 200
    ensures ReceivedBeforeError(stream) == [] ==> resp.records == []
  {
    if ReceivedBeforeError(stream) == [] {
      ListsEntriesLength(resp.records, CollectLatest([]));
    }
  }

  /** The response of `GET /quotes` has exactly one record per distinct
      symbol received before the first error. */
  lemma ResponseSize(stream: seq<RecvResult>, resp: GatewayResponse)
    requires AnswersQuotes(Opened(stream), resp)
    ensures |resp.records| == |SymbolSet(ReceivedBeforeError(stream))|
  {
    var qs := ReceivedBeforeError(stream);
    CollectLatestKeys(qs);
    ListsEntriesLength(resp.records, CollectLatest(qs));
  }

  /** {BTC,100}, {BTC,101}, {ETH,50} reduce to exactly {BTC,101} and
      {ETH,50}: never both BTC values, never an average. */
  lemma ReductionExample(t1: int, t2: int, t3: int)
    ensures CollectLatest([Quote("BTC", 100.0, t1), Quote("BTC", 101.0, t2), Quote("ETH", 50.0, t3)])
      == map["BTC" := Quote("BTC", 101.0, t2), "ETH" := Quote("ETH", 50.0, t3)]
  {
    var q1, q2, q3 := Quote("BTC", 100.0, t1), Quote("BTC", 101.0, t2), Quote("ETH", 50.0, t3);
    var qs := [q1, q2, q3];
    assert [q1][..0] == [];
    assert CollectLatest([q1]) == map["BTC" := q1];
    assert [q1, q2][..1] == [q1];
    assert CollectLatest([q1, q2]) == map["BTC" := q2];
    assert qs[..2] == [q1, q2];
  }
}
