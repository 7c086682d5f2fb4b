/** Properties of the pipeline as a whole: what a consumer cache and a
    gateway snapshot hold after receiving one complete round of the
    generator, and the configuration rule two services share. */
module Pipeline {
  import opened Quotes
  import Core
  import Gateway
  import Generator
  import Auth

  /** A gateway that sees one complete round answers with one record per
      generator symbol, carrying that round's price. */
  lemma GatewayOverCompleteRound(sent: seq<Quote>, snapshot: map<string, real>, clock: nat -> int)
    requires Generator.CompleteRound(sent, snapshot, clock)
    ensures Gateway.CollectLatest(sent).Keys == snapshot.Keys
    ensures forall s :: s in snapshot ==> Gateway.CollectLatest(sent)[s].price == snapshot[s]
  {
    Gateway.CollectLatestKeys(sent);
    forall s | s in snapshot ensures Gateway.CollectLatest(sent)[s].price == snapshot[s] {
      Gateway.CollectLatestAt(sent, s);
      SymbolSetLastIndex(sent, s);
    }
  }

  /** A consumer cache that receives one complete round agrees with the
      round's snapshot on every generator symbol and keeps its other
      entries. */
  lemma CacheAfterCompleteRound(cache: map<string, real>, sent: seq<Quote>, snapshot: map<string, real>,
                                clock: nat -> int)
    requires Generator.CompleteRound(sent, snapshot, clock)
    ensures Core.Upserted(cache, sent) == cache + snapshot
  {
    var after := Core.Upserted(cache, sent);
    forall s | true
      ensures s in after <==> s in cache + snapshot
      ensures s in after ==> after[s] == (cache + snapshot)[s]
    {
      Core.UpsertedAt(cache, sent, s);
      SymbolSetLastIndex(sent, s);
    }
  }

  /** Starting from the initial prices, a tick whose every change is zero
      leaves them as they were, and a consumer that starts empty and
      receives the next complete round holds exactly those prices. */
  lemma NeutralTickScenario(draws: map<string, real>, sent: seq<Quote>, clock: nat -> int)
    requires forall s :: s in Generator.InitialQuotes ==> s in draws && draws[s] == 0.5
    requires Generator.CompleteRound(sent, Generator.Ticked(Generator.InitialQuotes, draws), clock)
    ensures Generator.Ticked(Generator.InitialQuotes, draws) == Generator.InitialQuotes
    ensures Core.Upserted(map[], sent) == Generator.InitialQuotes
  {
    Generator.NeutralTick(Generator.InitialQuotes, draws);
    CacheAfterCompleteRound(map[], sent, Generator.InitialQuotes, clock);
    assert map[] + Generator.InitialQuotes == Generator.InitialQuotes;
  }

  /** The gateway picks its address by the same rule as the auth service's
      `getEnv`. */
  lemma GatewayAddressIsGetEnv(env: map<string, string>)
    ensures Gateway.GrpcAddress(env) == Auth.GetEnv(env, "GRPC_SERVER", Gateway.DefaultGrpcServer)
  {
  }
}
