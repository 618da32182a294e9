/** actions/finance.ts: the asset search behind the add-asset form, and the
    single-quote action. Yahoo's search answer is a parameter; `None` stands for
    a request or a JSON body that failed, or a body without `quotes`. */
module FinanceActions {
  import opened Common
  import F = Finance

  /** One entry of Yahoo's `quotes`; absent texts are "". */
  datatype YahooQuote = YahooQuote(symbol: string, longname: string, shortname: string, quoteType: string, exchange: string)

  datatype Market = BR | Crypto | US

  /** `{ ticker, name, market }`. */
  datatype Hit = Hit(ticker: string, name: string, market: Market)

  /** The quote types the search keeps. */
  predicate Listed(q: YahooQuote)
  {
    q.quoteType == "EQUITY" || q.quoteType == "ETF" || q.quoteType == "MUTUALFUND" || q.quoteType == "CRYPTOCURRENCY"
  }

  /** The market: B3 by exchange first, then crypto by type, else US. */
  function MarketOf(q: YahooQuote): (m: Market)
    ensures m == BR <==> q.exchange == "SAO"
    ensures m == Crypto <==> q.exchange != "SAO" && q.quoteType == "CRYPTOCURRENCY"
  {
    if q.exchange == "SAO" then BR else if q.quoteType == "CRYPTOCURRENCY" then Crypto else US
  }

  /** The name shown: the long name, else the short name, else the symbol. */
  function NameOf(q: YahooQuote): (n: string)
    ensures q.longname != "" ==> n == q.longname
    ensures q.longname == "" && q.shortname != "" ==> n == q.shortname
    ensures q.longname == "" && q.shortname == "" ==> n == q.symbol
  {
    if q.longname != "" then q.longname else if q.shortname != "" then q.shortname else q.symbol
  }

  function HitOf(q: YahooQuote): Hit
  {
    Hit(q.symbol, NameOf(q), MarketOf(q))
  }

  /** `searchAssets(query)`: nothing for a query of fewer than two characters
      or a failed request, else the listed quotes, in Yahoo's order. */
  function SearchAssets(query: string, response: Option<seq<YahooQuote>>): (hits: seq<Hit>)
    ensures |query| < 2 || response.None? ==> hits == []
  {
    if |query| < 2 then []
    else if response.None? then []
    else Mapped(Filter(response.value, Listed), HitOf)
  }

  /** The hits are exactly the listed quotes, one each, in order; a quote of
      another type never shows up. */
  lemma {:induction false} SearchKeepsListed(query: string, quotes: seq<YahooQuote>)
    requires |query| >= 2
    ensures var hits := SearchAssets(query, Some(quotes));
      && |hits| <= |quotes|
      && (forall h :: h in hits <==> exists q :: q in quotes && Listed(q) && h == HitOf(q))
  {
    var kept := Filter(quotes, Listed);
    var hits := Mapped(kept, HitOf);
    assert SearchAssets(query, Some(quotes)) == hits;
    forall h ensures h in hits <==> exists q :: q in quotes && Listed(q) && h == HitOf(q) {
      if h in hits {
        var q := HitSource(kept, h);
        assert q in quotes && Listed(q);
      }
      if exists q :: q in quotes && Listed(q) && h == HitOf(q) {
        var q :| q in quotes && Listed(q) && h == HitOf(q);
        assert q in kept;
        HitOfKept(kept, q);
      }
    }
  }

  /** Every hit comes from a kept quote. */
  lemma HitSource(kept: seq<YahooQuote>, h: Hit) returns (q: YahooQuote)
    requires h in Mapped(kept, HitOf)
    ensures q in kept && h == HitOf(q)
  {
    var hits := Mapped(kept, HitOf);
    var i :| 0 <= i < |hits| && hits[i] == h;
    q := kept[i];
  }

  /** Every kept quote gives a hit. */
  lemma HitOfKept(kept: seq<YahooQuote>, q: YahooQuote)
    requires q in kept
    ensures HitOf(q) in Mapped(kept, HitOf)
  {
    var i :| 0 <= i < |kept| && kept[i] == q;
    assert Mapped(kept, HitOf)[i] == HitOf(q);
  }

  /** Appending a quote appends its hit when it is listed, and nothing else. */
  lemma SearchStep(query: string, quotes: seq<YahooQuote>, q: YahooQuote)
    requires |query| >= 2
    ensures SearchAssets(query, Some(quotes + [q])) ==
      SearchAssets(query, Some(quotes)) + (if Listed(q) then [HitOf(q)] else [])
  {
    assert (quotes + [q])[..|quotes + [q]| - 1] == quotes;
    var a, b := Filter(quotes, Listed), (if Listed(q) then [q] else []);
    assert Filter(quotes + [q], Listed) == a + b;
    MappedAppend(a, b, HitOf);
  }

  /** `getQuotes([ticker])` holds one answer at most. */
  lemma {:induction false} PresentOne<T(!new)>(x: Option<T>)
    ensures Present([x]) == if x.Some? then [x.value] else []
  {
    assert [x][..0] == [];
  }

  /** `getQuote(ticker)`: the first quote of `getQuotes([ticker])`, undefined
      (`None`) when there is none. */
  method GetQuote(service: F.FinanceService, ticker: string, now: int,
                  brapi: string -> Option<F.Quote>, yahoo: string -> Option<F.Quote>) returns (quote: Option<F.Quote>)
    modifies service
    ensures quote == F.Resolve(old(service.cache), ticker, now, brapi, yahoo)
    ensures service.cache == F.Refreshed(old(service.cache), [ticker], now, brapi, yahoo)
  {
    var quotes := service.GetQuotes([ticker], now, brapi, yahoo);
    assert F.Answers(old(service.cache), [ticker], now, brapi, yahoo) == [F.Resolve(old(service.cache), ticker, now, brapi, yahoo)];
    PresentOne(F.Resolve(old(service.cache), ticker, now, brapi, yahoo));
    quote := if |quotes| > 0 then Some(quotes[0]) else None;
  }
}
