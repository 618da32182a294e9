/** lib/services/finance/types.ts and lib/services/finance/FinanceService.ts: the
    quote record, the routing of a ticker to a market-data provider, and the quote
    service that keeps a five-minute cache in front of the providers. The
    providers themselves are network clients; their answers are parameters. */
module Finance {
  import opened Common

  /** `Quote['type']`. */
  datatype AssetType = Stock | Fund | Etf

  /** The `Quote` record. */
  datatype Quote = Quote(ticker: string, price: real, currency: string, changePct: real, assetType: AssetType, updatedAt: int)

  datatype Provider = Brapi | Yahoo

  /** One request made to a provider: which one, and the symbol asked for. */
  datatype Call = Call(provider: Provider, symbol: string)

  /** `CACHE_TTL_MS`, five minutes. */
  const CacheTtlMs: int := 5 * 60 * 1000

  datatype CacheEntry = CacheEntry(quote: Quote, expires: int)

  predicate AllUpper(s: string)
  {
    forall i :: 0 <= i < |s| ==> IsUpper(s[i])
  }

  /** The regular expression `^[A-Z]{4}[34]|^[A-Z]{4}11$|^[A-Z]{3}11$`. Its first
      alternative is anchored only at the start, so it accepts any continuation. */
  predicate LooseB3Pattern(t: string)
  {
    || (|t| >= 5 && AllUpper(t[..4]) && (t[4] == '3' || t[4] == '4'))
    || (|t| == 6 && AllUpper(t[..4]) && t[4..] == "11")
    || (|t| == 5 && AllUpper(t[..3]) && t[3..] == "11")
  }

  /** `getProvider`: brapi for `.SA` tickers and for tickers shaped like B3 codes,
      yahoo for everything else. */
  function GetProvider(ticker: string): (p: Provider)
    ensures EndsWith(ticker, ".SA") ==> p == Brapi
    ensures |ticker| > 0 && !IsUpper(ticker[0]) && !EndsWith(ticker, ".SA") ==> p == Yahoo
  {
    if EndsWith(ticker, ".SA") then Brapi
    else if LooseB3Pattern(ticker) then Brapi
    else Yahoo
  }

  /** Four capitals and a 3 or 4 route to brapi whatever follows them. */
  lemma {:induction false} CapitalsThenDigitRouteToBrapi(head: string, rest: string)
    requires |head| == 5 && AllUpper(head[..4]) && (head[4] == '3' || head[4] == '4')
    ensures GetProvider(head + rest) == Brapi
  {
    var t := head + rest;
    assert t[..4] == head[..4];
    assert t[4] == head[4];
  }

  /** The routing of the tickers the service was written for: B3 codes and units
      go to brapi, US and lowercase codes to yahoo. */
  lemma RoutingExamples()
    ensures GetProvider("PETR4") == Brapi && GetProvider("KNRI11") == Brapi && GetProvider("BBS11") == Brapi
    ensures GetProvider("PETR4.SA") == Brapi && GetProvider("petr4.SA") == Brapi
    ensures GetProvider("AAPL") == Yahoo && GetProvider("IVV") == Yahoo && GetProvider("petr4") == Yahoo
    ensures GetProvider("PETR11X") == Yahoo
  {
    B3Codes();
    SaSuffixes();
    OtherCodes();
  }

  lemma B3Codes()
    ensures GetProvider("PETR4") == Brapi && GetProvider("KNRI11") == Brapi && GetProvider("BBS11") == Brapi
  {
    assert !EndsWith("PETR4", ".SA");
    assert !EndsWith("KNRI11", ".SA") && "KNRI11"[4..] == "11";
    assert !EndsWith("BBS11", ".SA") && "BBS11"[3..] == "11";
  }

  lemma SaSuffixes()
    ensures GetProvider("PETR4.SA") == Brapi && GetProvider("petr4.SA") == Brapi
  {
    assert "PETR4.SA"[|"PETR4.SA"| - 3..] == ".SA";
    assert "petr4.SA"[|"petr4.SA"| - 3..] == ".SA";
  }

  lemma OtherCodes()
    ensures GetProvider("AAPL") == Yahoo && GetProvider("IVV") == Yahoo && GetProvider("petr4") == Yahoo
    ensures GetProvider("PETR11X") == Yahoo
  {
    assert !EndsWith("AAPL", ".SA") && !EndsWith("IVV", ".SA") && !EndsWith("petr4", ".SA");
    assert !EndsWith("PETR11X", ".SA") && "PETR11X"[4] == '1';
  }

  /** The symbol of the yahoo retry: `.SA` appended unless already present. */
  function YahooSymbol(ticker: string): (s: string)
    ensures EndsWith(s, ".SA")
    ensures EndsWith(ticker, ".SA") ==> s == ticker
    ensures !EndsWith(ticker, ".SA") ==> s == ticker + ".SA"
  {
    if EndsWith(ticker, ".SA") then ticker
    else
      var s := ticker + ".SA";
      assert s[|s| - 3..] == ".SA";
      s
  }

  /** The outcome of the live path of `getQuote`: the quote and the requests made. */
  datatype Fetch = Fetch(quote: Option<Quote>, calls: seq<Call>)

  /** The live path of `getQuote`: ask the routed provider; when that is brapi and it
      answers null, ask yahoo once for the `.SA` symbol. A null from yahoo is final. */
  function FetchLive(ticker: string, brapi: string -> Option<Quote>, yahoo: string -> Option<Quote>): (r: Fetch)
    ensures 1 <= |r.calls| <= 2 && r.calls[0] == Call(GetProvider(ticker), ticker)
    ensures |r.calls| == 2 <==> GetProvider(ticker) == Brapi && brapi(ticker).None?
    ensures |r.calls| == 2 ==> r.calls[1] == Call(Yahoo, YahooSymbol(ticker)) && r.quote == yahoo(YahooSymbol(ticker))
    ensures GetProvider(ticker) == Brapi && brapi(ticker).Some? ==> r.quote == brapi(ticker)
    ensures GetProvider(ticker) == Yahoo ==> r.quote == yahoo(ticker)
  {
    if GetProvider(ticker) == Brapi then
      match brapi(ticker)
      case Some(q) => Fetch(Some(q), [Call(Brapi, ticker)])
      case None => Fetch(yahoo(YahooSymbol(ticker)), [Call(Brapi, ticker), Call(Yahoo, YahooSymbol(ticker))])
    else
      Fetch(yahoo(ticker), [Call(Yahoo, ticker)])
  }

  /** A cache entry is usable only while its expiry is strictly in the future. */
  predicate Fresh(cache: map<string, CacheEntry>, t: string, now: int)
  {
    t in cache && cache[t].expires > now
  }

  /** The answer `getQuote(t)` gives at time `now` against `cache`. */
  function Resolve(cache: map<string, CacheEntry>, t: string, now: int,
                   brapi: string -> Option<Quote>, yahoo: string -> Option<Quote>): Option<Quote>
  {
    if Fresh(cache, t, now) then Some(cache[t].quote) else FetchLive(t, brapi, yahoo).quote
  }

  /** The tickers of a batch that `getQuote` fetches live with a non-null
      answer: those in the batch that are not fresh at its start. */
  function Fetched(start: map<string, CacheEntry>, tickers: seq<string>, now: int,
                   brapi: string -> Option<Quote>, yahoo: string -> Option<Quote>): set<string>
  {
    set t | t in tickers && !Fresh(start, t, now) && FetchLive(t, brapi, yahoo).quote.Some?
  }

  /** The cache after a `getQuotes` batch at time `now`: every ticker fetched
      live with an answer holds that answer until `now + CACHE_TTL_MS`; every
      other entry is as it was at the start of the batch. */
  function Refreshed(start: map<string, CacheEntry>, tickers: seq<string>, now: int,
                     brapi: string -> Option<Quote>, yahoo: string -> Option<Quote>): map<string, CacheEntry>
  {
    var fetched := Fetched(start, tickers, now, brapi, yahoo);
    map t | t in start.Keys + fetched ::
      if t in fetched then CacheEntry(FetchLive(t, brapi, yahoo).quote.value, now + CacheTtlMs) else start[t]
  }

  /** Since the calls of one `getQuotes` batch share `now`, every entry that is
      fresh now answers what a lookup against the cache at the start of the batch
      would have answered, and entries fresh at the start are still there. */
  ghost predicate Coherent(start: map<string, CacheEntry>, cache: map<string, CacheEntry>, now: int,
                           brapi: string -> Option<Quote>, yahoo: string -> Option<Quote>)
  {
    && (forall t :: Fresh(start, t, now) ==> t in cache && cache[t] == start[t])
    && (forall t :: Fresh(cache, t, now) ==> Some(cache[t].quote) == Resolve(start, t, now, brapi, yahoo))
  }

  /** The cache a batch leaves behind answers as the cache at its start did,
      and holds every non-null answer of the batch as a fresh entry. */
  lemma RefreshedCoherent(start: map<string, CacheEntry>, tickers: seq<string>, now: int,
                          brapi: string -> Option<Quote>, yahoo: string -> Option<Quote>)
    ensures Coherent(start, Refreshed(start, tickers, now, brapi, yahoo), now, brapi, yahoo)
    ensures forall t :: t in tickers && Resolve(start, t, now, brapi, yahoo).Some? ==>
      var after := Refreshed(start, tickers, now, brapi, yahoo);
      Fresh(after, t, now) && Some(after[t].quote) == Resolve(start, t, now, brapi, yahoo)
  {
  }

  /** An empty batch leaves the cache alone. */
  lemma RefreshedNothing(start: map<string, CacheEntry>, now: int,
                         brapi: string -> Option<Quote>, yahoo: string -> Option<Quote>)
    ensures Refreshed(start, [], now, brapi, yahoo) == start
  {
  }

  /** One more `getQuote` in a batch answers what the cache at the start of the
      batch would have answered, and its cache update extends the batch. */
  lemma RefreshStep(start: map<string, CacheEntry>, done: seq<string>, t: string, now: int,
                    brapi: string -> Option<Quote>, yahoo: string -> Option<Quote>,
                    q: Option<Quote>, after: map<string, CacheEntry>)
    requires q == Resolve(Refreshed(start, done, now, brapi, yahoo), t, now, brapi, yahoo)
    requires var before := Refreshed(start, done, now, brapi, yahoo);
      && (Fresh(before, t, now) ==> after == before)
      && (!Fresh(before, t, now) ==>
            after == if q.Some? then before[t := CacheEntry(q.value, now + CacheTtlMs)] else before)
    ensures q == Resolve(start, t, now, brapi, yahoo)
    ensures after == Refreshed(start, done + [t], now, brapi, yahoo)
  {
    if Fresh(Refreshed(start, done, now, brapi, yahoo), t, now) {
      RefreshHit(start, done, t, now, brapi, yahoo);
    } else {
      RefreshMiss(start, done, t, now, brapi, yahoo);
    }
  }

  /** A ticker fresh in the batch's cache answers from it and changes nothing. */
  lemma RefreshHit(start: map<string, CacheEntry>, done: seq<string>, t: string, now: int,
                   brapi: string -> Option<Quote>, yahoo: string -> Option<Quote>)
    requires Fresh(Refreshed(start, done, now, brapi, yahoo), t, now)
    ensures Resolve(Refreshed(start, done, now, brapi, yahoo), t, now, brapi, yahoo) == Resolve(start, t, now, brapi, yahoo)
    ensures Refreshed(start, done + [t], now, brapi, yahoo) == Refreshed(start, done, now, brapi, yahoo)
  {
    assert Fetched(start, done + [t], now, brapi, yahoo) == Fetched(start, done, now, brapi, yahoo);
  }

  /** A ticker not fresh in the batch's cache was not fresh at its start either;
      it is fetched live, and a non-null answer is stored. */
  lemma RefreshMiss(start: map<string, CacheEntry>, done: seq<string>, t: string, now: int,
                    brapi: string -> Option<Quote>, yahoo: string -> Option<Quote>)
    requires !Fresh(Refreshed(start, done, now, brapi, yahoo), t, now)
    ensures !Fresh(start, t, now)
    ensures Resolve(start, t, now, brapi, yahoo) == FetchLive(t, brapi, yahoo).quote
    ensures var q, before := FetchLive(t, brapi, yahoo).quote, Refreshed(start, done, now, brapi, yahoo);
      Refreshed(start, done + [t], now, brapi, yahoo)
        == if q.Some? then before[t := CacheEntry(q.value, now + CacheTtlMs)] else before
  {
    NotFreshAtStart(start, done, t, now, brapi, yahoo);
    if FetchLive(t, brapi, yahoo).quote.Some? {
      StoreAnswer(start, done, t, now, brapi, yahoo);
    } else {
      assert Fetched(start, done + [t], now, brapi, yahoo) == Fetched(start, done, now, brapi, yahoo);
    }
  }

  /** A ticker stale in the batch's cache was stale at its start and has not
      been fetched with an answer in the batch. */
  lemma NotFreshAtStart(start: map<string, CacheEntry>, done: seq<string>, t: string, now: int,
                        brapi: string -> Option<Quote>, yahoo: string -> Option<Quote>)
    requires !Fresh(Refreshed(start, done, now, brapi, yahoo), t, now)
    ensures !Fresh(start, t, now) && t !in Fetched(start, done, now, brapi, yahoo)
  {
  }

  /** Storing a live answer for a ticker stale at the start of the batch. */
  lemma StoreAnswer(start: map<string, CacheEntry>, done: seq<string>, t: string, now: int,
                    brapi: string -> Option<Quote>, yahoo: string -> Option<Quote>)
    requires !Fresh(start, t, now) && FetchLive(t, brapi, yahoo).quote.Some?
    ensures var before := Refreshed(start, done, now, brapi, yahoo);
      Refreshed(start, done + [t], now, brapi, yahoo)
        == before[t := CacheEntry(FetchLive(t, brapi, yahoo).quote.value, now + CacheTtlMs)]
  {
    var f0, f1 := Fetched(start, done, now, brapi, yahoo), Fetched(start, done + [t], now, brapi, yahoo);
    assert f1 == f0 + {t};
  }

  /** The answer `getQuote` gives each ticker against the cache at the start
      of a batch. */
  function Answers(start: map<string, CacheEntry>, tickers: seq<string>, now: int,
                   brapi: string -> Option<Quote>, yahoo: string -> Option<Quote>): seq<Option<Quote>>
  {
    seq(|tickers|, i requires 0 <= i < |tickers| => Resolve(start, tickers[i], now, brapi, yahoo))
  }

  /** One more ticker of a batch: one more answer, and its cache prefix. */
  lemma AnswersStep(start: map<string, CacheEntry>, tickers: seq<string>, i: nat, now: int,
                    brapi: string -> Option<Quote>, yahoo: string -> Option<Quote>)
    requires i < |tickers|
    ensures var q := Resolve(start, tickers[i], now, brapi, yahoo);
      && Present(Answers(start, tickers[..i + 1], now, brapi, yahoo))
           == Present(Answers(start, tickers[..i], now, brapi, yahoo)) + (if q.Some? then [q.value] else [])
      && tickers[..i] + [tickers[i]] == tickers[..i + 1]
  {
    AnswersSnoc(start, tickers, i, now, brapi, yahoo);
    PresentSnoc(Answers(start, tickers[..i], now, brapi, yahoo), Resolve(start, tickers[i], now, brapi, yahoo));
  }

  lemma AnswersSnoc(start: map<string, CacheEntry>, tickers: seq<string>, i: nat, now: int,
                    brapi: string -> Option<Quote>, yahoo: string -> Option<Quote>)
    requires i < |tickers|
    ensures Answers(start, tickers[..i + 1], now, brapi, yahoo)
         == Answers(start, tickers[..i], now, brapi, yahoo) + [Resolve(start, tickers[i], now, brapi, yahoo)]
  {
    var a, b := Answers(start, tickers[..i + 1], now, brapi, yahoo), Answers(start, tickers[..i], now, brapi, yahoo);
    var c := b + [Resolve(start, tickers[i], now, brapi, yahoo)];
    forall j | 0 <= j < |a|
      ensures a[j] == c[j]
    {
      assert tickers[..i + 1][j] == tickers[j];
    }
  }

  /** The `FinanceService` class: a quote cache keyed by the requested ticker. */
  class FinanceService {
    var cache: map<string, CacheEntry>

    constructor ()
      ensures cache == map[]
    {
      cache := map[];
    }

    /** `getQuote(ticker)` at time `now`, the providers answering `brapi` and
        `yahoo`; `calls` lists the provider requests made, in order. */
    method GetQuote(ticker: string, now: int, brapi: string -> Option<Quote>, yahoo: string -> Option<Quote>)
      returns (quote: Option<Quote>, calls: seq<Call>)
      modifies this
      ensures quote == Resolve(old(cache), ticker, now, brapi, yahoo)
      ensures Fresh(old(cache), ticker, now) ==> calls == [] && cache == old(cache)
      ensures !Fresh(old(cache), ticker, now) ==> calls == FetchLive(ticker, brapi, yahoo).calls
      ensures !Fresh(old(cache), ticker, now) ==>
        cache == if quote.Some? then old(cache)[ticker := CacheEntry(quote.value, now + CacheTtlMs)] else old(cache)
    {
      if ticker in cache && cache[ticker].expires > now {
        return Some(cache[ticker].quote), [];
      }
      var provider := GetProvider(ticker);
      calls := [Call(provider, ticker)];
      quote := if provider == Brapi then brapi(ticker) else yahoo(ticker);
      if quote.None? && provider == Brapi {
        var symbol := YahooSymbol(ticker);
        calls := calls + [Call(Yahoo, symbol)];
        quote := yahoo(symbol);
      }
      if quote.Some? {
        cache := cache[ticker := CacheEntry(quote.value, now + CacheTtlMs)];
      }
    }

    /** `getQuotes(tickers)`: one `getQuote` per ticker, in order, nulls dropped. */
    method GetQuotes(tickers: seq<string>, now: int, brapi: string -> Option<Quote>, yahoo: string -> Option<Quote>)
      returns (quotes: seq<Quote>)
      modifies this
      ensures quotes == Present(Answers(old(cache), tickers, now, brapi, yahoo))
      ensures |quotes| <= |tickers|
      ensures cache == Refreshed(old(cache), tickers, now, brapi, yahoo)
    {
      quotes := [];
      RefreshedNothing(cache, now, brapi, yahoo);
      var i := 0;
      while i < |tickers|
        invariant 0 <= i <= |tickers|
        invariant quotes == Present(Answers(old(cache), tickers[..i], now, brapi, yahoo))
        invariant cache == Refreshed(old(cache), tickers[..i], now, brapi, yahoo)
      {
        var q, _ := GetQuote(tickers[i], now, brapi, yahoo);
        RefreshStep(old(cache), tickers[..i], tickers[i], now, brapi, yahoo, q, cache);
        AnswersStep(old(cache), tickers, i, now, brapi, yahoo);
        quotes := quotes + (if q.Some? then [q.value] else []);
        i := i + 1;
      }
      assert tickers[..i] == tickers;
    }
  }
}
