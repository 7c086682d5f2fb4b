/** The quote generator (`ft`): an authoritative price map, advanced once
    per tick by a random relative change and replayed to every stream
    subscriber round after round. The read/write lock is not modelled:
    each tick and each round is one atomic step over the map. */
module Generator {
  import opened Quotes

  /** The prices the generator starts from. */
  const InitialQuotes: map<string, real> := map["SBER" := 275.5, "BTC" := 95400.0, "ETH" := 2650.2]

  predicate AllPositive(prices: map<string, real>)
  {
    forall s :: s in prices ==> prices[s] > 0.0
  }

  /** The relative change made from one draw of `rand.Float64()`, which lies
      in [0, 1): the change lies in [-0.001, 0.001). */
  function Change(draw: real): (c: real)
    requires 0.0 <= draw < 1.0
    ensures -0.001 <= c < 0.001
  {
    draw * 0.002 - 0.001
  }

  /** One draw per symbol of the map. */
  predicate DrawsFor(prices: map<string, real>, draws: map<string, real>)
  {
    forall s :: s in prices ==> s in draws && 0.0 <= draws[s] < 1.0
  }

  /** The prices after one tick: every price times one plus its change. */
  function Ticked(prices: map<string, real>, draws: map<string, real>): map<string, real>
    requires DrawsFor(prices, draws)
  {
    map s | s in prices :: prices[s] * (1.0 + Change(draws[s]))
  }

  /** A tick keeps the key set and moves a positive price by less than
      0.1% of itself, so it stays positive. */
  lemma TickBounds(prices: map<string, real>, draws: map<string, real>, s: string)
    requires DrawsFor(prices, draws)
    requires s in prices && prices[s] > 0.0
    ensures Ticked(prices, draws).Keys == prices.Keys
    ensures 0.999 * prices[s] <= Ticked(prices, draws)[s] < 1.001 * prices[s]
    ensures Ticked(prices, draws)[s] > 0.0
  {
  }

  /** Ticks preserve the generator's invariant: same symbols, all prices
      positive. */
  lemma TickKeepsPositive(prices: map<string, real>, draws: map<string, real>)
    requires DrawsFor(prices, draws)
    requires AllPositive(prices)
    ensures Ticked(prices, draws).Keys == prices.Keys
    ensures AllPositive(Ticked(prices, draws))
  {
    forall s | s in prices ensures Ticked(prices, draws)[s] > 0.0 {
      TickBounds(prices, draws, s);
    }
  }

  /** A draw of one half is no change: such a tick leaves every price as
      it was. */
  lemma NeutralTick(prices: map<string, real>, draws: map<string, real>)
    requires forall s :: s in prices ==> s in draws && draws[s] == 0.5
    ensures Ticked(prices, draws) == prices
  {
    assert Change(0.5) == 0.0;
    forall s | s in prices ensures Ticked(prices, draws)[s] == prices[s] {
      assert Ticked(prices, draws)[s] == prices[s] * (1.0 + Change(0.5));
    }
  }

  /** `sent` is a sequence of quotes emitted from one snapshot: each symbol
      at most once, each price the snapshot's, the i-th stamped `clock(i)`. */
  predicate EmittedFrom(sent: seq<Quote>, snapshot: map<string, real>, clock: nat -> int)
  {
    && DistinctSymbols(sent)
    && forall i :: 0 <= i < |sent| ==>
         && sent[i].symbol in snapshot
         && sent[i].price == snapshot[sent[i].symbol]
         && sent[i].timestamp == clock(i)
  }

  /** A complete round: every entry of the snapshot exactly once. */
  predicate CompleteRound(sent: seq<Quote>, snapshot: map<string, real>, clock: nat -> int)
  {
    EmittedFrom(sent, snapshot, clock) && SymbolSet(sent) == snapshot.Keys
  }

  /** Emitting one more entry that was not yet sent keeps the emission
      faithful to the snapshot. */
  lemma EmitOneMore(sent: seq<Quote>, snapshot: map<string, real>, clock: nat -> int, symbol: string)
    requires EmittedFrom(sent, snapshot, clock)
    requires symbol in snapshot && symbol !in SymbolSet(sent)
    ensures var sent' := sent + [Quote(symbol, snapshot[symbol], clock(|sent|))];
      EmittedFrom(sent', snapshot, clock) && SymbolSet(sent') == SymbolSet(sent) + {symbol}
  {
    SymbolSetSnoc(sent, Quote(symbol, snapshot[symbol], clock(|sent|)));
  }

  /** A complete round has one quote per entry. */
  lemma CompleteRoundLength(sent: seq<Quote>, snapshot: map<string, real>, clock: nat -> int)
    requires CompleteRound(sent, snapshot, clock)
    ensures |sent| == |snapshot|
  {
    DistinctSymbolsCount(sent);
    assert |snapshot| == |snapshot.Keys|;
  }

  /** The generator's state. */
  class QuoteServer {
    var quotes: map<string, real>

    /** The generator's invariant: every price is positive. */
    ghost predicate Valid()
      reads this
    {
      AllPositive(quotes)
    }

    /** `NewQuoteServer`: the three initial prices. */
    constructor ()
      ensures quotes == InitialQuotes
      ensures Valid()
    {
      quotes := InitialQuotes;
    }

    /** One tick of `updateQuotes`: rewrite every entry in place from its
        old price and its own draw of `rand.Float64()`. */
    method UpdateQuotes(draws: map<string, real>)
      requires Valid()
      requires DrawsFor(quotes, draws)
      modifies this
      ensures quotes == Ticked(old(quotes), draws)
      ensures quotes.Keys == old(quotes).Keys
      ensures Valid()
    {
      ghost var before := quotes;
      ghost var after := Ticked(before, draws);
      var remaining := quotes.Keys;
      while remaining != {}
        invariant remaining <= before.Keys
        invariant quotes.Keys == before.Keys
        invariant forall s :: s in remaining ==> quotes[s] == before[s]
        invariant forall s :: s in before && s !in remaining ==> quotes[s] == after[s]
        decreases remaining
      {
        var symbol :| symbol in remaining;
        var oldPrice := quotes[symbol];
        var change := Change(draws[symbol]);
        var newPrice := oldPrice * (1.0 + change);
        assert newPrice == after[symbol];
        quotes := quotes[symbol := newPrice];
        remaining := remaining - {symbol};
      }
      assert quotes == after;
      TickKeepsPositive(before, draws);
    }

    /** One round of `StreamQuotes`: send one quote per entry of the map, as
        it stands, with the `time.Now()` reading `clock(i)` on the i-th
        quote; `send(i)` is the result of the i-th send. The round stops at
        the first failed send and returns its error. The request is never
        looked at, and the map is never written. */
    method StreamRound(req: seq<string>, clock: nat -> int, send: nat -> Option<string>)
      returns (sent: seq<Quote>, err: Option<string>)
      ensures EmittedFrom(sent, quotes, clock)
      ensures forall i :: 0 <= i < |sent| ==> send(i).None?
      ensures err.None? <==> forall i :: 0 <= i < |quotes| ==> send(i).None?
      ensures err.None? ==> CompleteRound(sent, quotes, clock)
      ensures err.Some? ==> |sent| < |quotes| && err == send(|sent|)
    {
      sent, err := [], None;
      var remaining := quotes.Keys;
      while remaining != {}
        invariant remaining <= quotes.Keys
        invariant SymbolSet(sent) == quotes.Keys - remaining
        invariant EmittedFrom(sent, quotes, clock)
        invariant forall i :: 0 <= i < |sent| ==> send(i).None?
        decreases remaining
      {
        var symbol :| symbol in remaining;
        var quote := Quote(symbol, quotes[symbol], clock(|sent|));
        var result := send(|sent|);
        if result.Some? {
          SentFewer(sent, quotes, clock, symbol);
          return sent, result;
        }
        EmitOneMore(sent, quotes, clock, symbol);
        sent := sent + [quote];
        remaining := remaining - {symbol};
      }
      CompleteRoundLength(sent, quotes, clock);
    }
  }

  /** While some entry is still unsent, fewer quotes than entries were sent. */
  lemma SentFewer(sent: seq<Quote>, snapshot: map<string, real>, clock: nat -> int, symbol: string)
    requires EmittedFrom(sent, snapshot, clock)
    requires SymbolSet(sent) <= snapshot.Keys
    requires symbol in snapshot && symbol !in SymbolSet(sent)
    ensures |sent| < |snapshot|
  {
    DistinctSymbolsCount(sent);
    var rest := snapshot.Keys - SymbolSet(sent);
    assert symbol in rest;
    assert snapshot.Keys == SymbolSet(sent) + rest;
    assert SymbolSet(sent) * rest == {};
    assert |rest| != 0;
    assert |snapshot| == |snapshot.Keys|;
  }

  /** The initial state holds exactly SBER, BTC and ETH, all positive, and
      no other symbol such as UNKNOWN. */
  lemma InitialQuotesFacts()
    ensures InitialQuotes.Keys == {"SBER", "BTC", "ETH"}
    ensures |InitialQuotes| == 3
    ensures AllPositive(InitialQuotes)
    ensures "UNKNOWN" !in InitialQuotes
  {
  }
}
