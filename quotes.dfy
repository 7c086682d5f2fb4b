/** The quote message shared by the generator, the consumer and the gateway
    (the `Quote` message of the streaming RPC), and facts about sequences of
    quotes that all three components rely on. */
module Quotes {

  datatype Option<T> = None | Some(value: T)

  /** One observation: a symbol, its price and the emission time in
      milliseconds since the epoch. Prices are modelled as reals. */
  datatype Quote = Quote(symbol: string, price: real, timestamp: int)

  /** The symbols that occur in a sequence of quotes. */
  function SymbolSet(qs: seq<Quote>): set<string>
  {
    set i | 0 <= i < |qs| :: qs[i].symbol
  }

  /** No symbol occurs twice. */
  predicate DistinctSymbols(qs: seq<Quote>)
  {
    forall i, j :: 0 <= i < j < |qs| ==> qs[i].symbol != qs[j].symbol
  }

  /** The position of the last quote for `s`, or -1 when there is none. */
  function LastIndexOf(qs: seq<Quote>, s: string): (i: int)
    ensures -1 <= i < |qs|
    ensures i >= 0 ==> qs[i].symbol == s && forall j :: i < j < |qs| ==> qs[j].symbol != s
    ensures i == -1 <==> forall j :: 0 <= j < |qs| ==> qs[j].symbol != s
  {
    if qs == [] then -1
    else if qs[|qs| - 1].symbol == s then |qs| - 1
    else LastIndexOf(qs[..|qs| - 1], s)
  }

  /** A symbol occurs exactly when it has a last occurrence. */
  lemma {:induction false} SymbolSetLastIndex(qs: seq<Quote>, s: string)
    ensures s in SymbolSet(qs) <==> LastIndexOf(qs, s) >= 0
  {
    if s in SymbolSet(qs) {
      var i :| 0 <= i < |qs| && qs[i].symbol == s;
      assert qs[i].symbol == s;
    }
  }

  /** Appending a quote adds exactly its symbol. */
  lemma SymbolSetSnoc(qs: seq<Quote>, q: Quote)
    ensures SymbolSet(qs + [q]) == SymbolSet(qs) + {q.symbol}
  {
    var r := qs + [q];
    forall x | x in SymbolSet(r) ensures x in SymbolSet(qs) + {q.symbol} {
      var j :| 0 <= j < |r| && r[j].symbol == x;
      if j < |qs| { assert qs[j].symbol == x; }
    }
    forall x | x in SymbolSet(qs) ensures x in SymbolSet(r) {
      var j :| 0 <= j < |qs| && qs[j].symbol == x;
      assert r[j].symbol == x;
    }
    assert r[|qs|].symbol == q.symbol;
  }

  /** A sequence of distinct symbols has as many symbols as elements. */
  lemma {:induction false} DistinctSymbolsCount(qs: seq<Quote>)
    requires DistinctSymbols(qs)
    ensures |SymbolSet(qs)| == |qs|
  {
    if qs != [] {
      var init, last := qs[..|qs| - 1], qs[|qs| - 1];
      assert qs == init + [last];
      DistinctSymbolsCount(init);
      SymbolSetSnoc(init, last);
    }
  }
}
