/** actions/priceHistory.ts: the value of a portfolio on a given day, computed
    from the net quantity per ticker and the latest stored close on or before
    that day, and the lookup of a ticker's stored price history. */
module PriceHistory {
  import opened Common

  /** What a transaction adds to its ticker's net quantity: BUY adds, SELL
      subtracts, every other type is ignored. */
  function Signed(tx: Tx): real
  {
    match tx.kind
    case Buy => tx.qty
    case Sell => -tx.qty
    case Dividend => 0.0
  }

  /** What `tx` adds to the net quantity of ticker `t`. */
  function ContributionTo(t: string, tx: Tx): real
  {
    if tx.ticker == t then Signed(tx) else 0.0
  }

  /** One iteration of the `positions` loop: BUY and SELL set
      `positions[ticker] = (positions[ticker] || 0) ± qty`; other types are skipped. */
  function NetStep(ps: OMap<string, real>, tx: Tx): OMap<string, real>
  {
    if tx.kind == Dividend then ps else ps.Put(tx.ticker, ps.Get(tx.ticker, 0.0) + Signed(tx))
  }

  /** The `positions` record after the whole ledger. */
  function NetQuantities(ledger: seq<Tx>): OMap<string, real>
  {
    if ledger == [] then EmptyMap() else NetStep(NetQuantities(ledger[..|ledger| - 1]), ledger[|ledger| - 1])
  }

  lemma NetQuantitiesPrefix(ledger: seq<Tx>, i: int)
    requires 0 <= i < |ledger|
    ensures NetQuantities(ledger[..i + 1]) == NetStep(NetQuantities(ledger[..i]), ledger[i])
  {
    assert ledger[..i + 1][..i] == ledger[..i];
  }

  /** `NetStep` is the loop body of `calculatePortfolioValue`, branch by branch. */
  lemma PositionsStep(ps: OMap<string, real>, tx: Tx)
    ensures tx.kind == Buy ==> NetStep(ps, tx) == ps.Put(tx.ticker, ps.Get(tx.ticker, 0.0) + tx.qty)
    ensures tx.kind == Sell ==> NetStep(ps, tx) == ps.Put(tx.ticker, ps.Get(tx.ticker, 0.0) - tx.qty)
    ensures tx.kind == Dividend ==> NetStep(ps, tx) == ps
  {
  }

  /** Some BUY or SELL of `t` occurs in `ledger`. */
  predicate Trades(ledger: seq<Tx>, t: string)
  {
    exists tx :: tx in ledger && tx.ticker == t && tx.kind != Dividend
  }

  /** The net quantity of `t` is the sum of its BUY quantities minus its SELL
      quantities, and `t` has an entry exactly when it was bought or sold. */
  lemma {:induction false} NetQuantityIsSum(ledger: seq<Tx>, t: string)
    ensures NetQuantities(ledger).Valid()
    ensures t in NetQuantities(ledger).m <==> Trades(ledger, t)
    ensures NetQuantities(ledger).Get(t, 0.0) == SumOf(ledger, tx => ContributionTo(t, tx))
  {
    if ledger != [] {
      var prefix, last := ledger[..|ledger| - 1], ledger[|ledger| - 1];
      NetQuantityIsSum(prefix, t);
      assert ledger == prefix + [last];
      if Trades(ledger, t) && !Trades(prefix, t) {
        var tx :| tx in ledger && tx.ticker == t && tx.kind != Dividend;
        assert tx == last;
      }
    }
  }

  /** The net quantities, and which tickers have an entry, do not depend on the
      order of the transactions. */
  lemma NetQuantitiesIgnoreOrder(a: seq<Tx>, b: seq<Tx>)
    requires multiset(a) == multiset(b)
    ensures forall t :: t in NetQuantities(a).m <==> t in NetQuantities(b).m
    ensures forall t :: NetQuantities(a).Get(t, 0.0) == NetQuantities(b).Get(t, 0.0)
  {
    forall t ensures (t in NetQuantities(a).m <==> t in NetQuantities(b).m)
                  && NetQuantities(a).Get(t, 0.0) == NetQuantities(b).Get(t, 0.0)
    {
      NetQuantityIsSum(a, t);
      NetQuantityIsSum(b, t);
      SumOfPermutation(a, b, tx => ContributionTo(t, tx));
      forall tx ensures tx in a <==> tx in b {
        assert tx in a <==> tx in multiset(a);
        assert tx in b <==> tx in multiset(b);
      }
    }
  }

  /** What one entry adds to the total: quantity × close when the quantity is
      positive and a price row exists (a row whose close is null counts as 0),
      nothing otherwise. */
  function EntryValue(ps: OMap<string, real>, t: string, day: int, closeAt: (string, int) -> Option<real>): real
  {
    var q := ps.Get(t, 0.0);
    if q > 0.0 && closeAt(t, day).Some? then q * closeAt(t, day).value else 0.0
  }

  /** An entry's value depends only on its quantity. */
  lemma EntryValueOfSameQuantity(pa: OMap<string, real>, pb: OMap<string, real>, t: string, day: int,
                                 closeAt: (string, int) -> Option<real>)
    requires pa.Get(t, 0.0) == pb.Get(t, 0.0)
    ensures EntryValue(pa, t, day, closeAt) == EntryValue(pb, t, day, closeAt)
  {
  }

  /** The portfolio value on `day` from a positions record. */
  function ValueOf(ps: OMap<string, real>, day: int, closeAt: (string, int) -> Option<real>): real
  {
    SumOf(ps.keys, t => EntryValue(ps, t, day, closeAt))
  }

  /** `calculatePortfolioValue(portfolioId, date)`. `transactions` is what the
      query for the portfolio's transactions dated on or before `day` returned
      (null: None); `closeAt(t, day)` is the latest stored close of `t` on or
      before `day`, None when there is no row. */
  method CalculatePortfolioValue(transactions: Option<seq<Tx>>, day: int, closeAt: (string, int) -> Option<real>)
    returns (totalValue: real)
    ensures transactions.None? ==> totalValue == 0.0
    ensures transactions.Some? ==> totalValue == ValueOf(NetQuantities(transactions.value), day, closeAt)
  {
    if transactions.None? {
      return 0.0;
    }
    var ledger := transactions.value;
    var positions: OMap<string, real> := EmptyMap();
    for i := 0 to |ledger|
      invariant positions == NetQuantities(ledger[..i])
    {
      NetQuantitiesPrefix(ledger, i);
      var tx := ledger[i];
      PositionsStep(positions, tx);
      if tx.kind == Buy {
        positions := positions.Put(tx.ticker, positions.Get(tx.ticker, 0.0) + tx.qty);
      } else if tx.kind == Sell {
        positions := positions.Put(tx.ticker, positions.Get(tx.ticker, 0.0) - tx.qty);
      }
    }
    assert ledger[..|ledger|] == ledger;
    totalValue := 0.0;
    var entries := positions.keys;
    for i := 0 to |entries|
      invariant totalValue == SumOf(entries[..i], t => EntryValue(positions, t, day, closeAt))
    {
      SumOfPrefix(entries, i, t => EntryValue(positions, t, day, closeAt));
      var ticker := entries[i];
      var quantity := positions.Get(ticker, 0.0);
      if quantity <= 0.0 {
        continue;
      }
      var priceData := closeAt(ticker, day);
      if priceData.Some? {
        totalValue := totalValue + quantity * priceData.value;
      }
    }
    assert entries[..|entries|] == entries;
  }

  /** The value on a day depends only on the multiset of transactions, not on
      the order the query returned them in. */
  lemma ValueIgnoresOrder(a: seq<Tx>, b: seq<Tx>, day: int, closeAt: (string, int) -> Option<real>)
    requires multiset(a) == multiset(b)
    ensures ValueOf(NetQuantities(a), day, closeAt) == ValueOf(NetQuantities(b), day, closeAt)
  {
    var pa, pb := NetQuantities(a), NetQuantities(b);
    NetQuantitiesIgnoreOrder(a, b);
    var t0 := "";
    NetQuantityIsSum(a, t0);
    NetQuantityIsSum(b, t0);
    forall t ensures EntryValue(pa, t, day, closeAt) == EntryValue(pb, t, day, closeAt) {
      EntryValueOfSameQuantity(pa, pb, t, day, closeAt);
    }
    SumOverSameKeys(pa.keys, pb.keys, t => EntryValue(pa, t, day, closeAt));
    SumOfCongruent(pb.keys, t => EntryValue(pa, t, day, closeAt), t => EntryValue(pb, t, day, closeAt));
  }

  /** With non-negative closes the value is never negative, and with no price
      rows at all it is 0. */
  lemma {:induction false} ValueBounds(keys: seq<string>, ps: OMap<string, real>, day: int, closeAt: (string, int) -> Option<real>)
    ensures (forall t :: closeAt(t, day).Some? ==> closeAt(t, day).value >= 0.0) ==>
              SumOf(keys, t => EntryValue(ps, t, day, closeAt)) >= 0.0
    ensures (forall t :: closeAt(t, day).None?) ==> SumOf(keys, t => EntryValue(ps, t, day, closeAt)) == 0.0
  {
    if keys != [] {
      ValueBounds(keys[..|keys| - 1], ps, day, closeAt);
      var t := keys[|keys| - 1];
      var q := ps.Get(t, 0.0);
      if q > 0.0 && closeAt(t, day).Some? && closeAt(t, day).value >= 0.0 {
        assert q * closeAt(t, day).value >= 0.0;
      }
    }
  }

  // ------------------------------------------------------------ price history

  /** A stored `price_history` row. */
  datatype PriceRow = PriceRow(ticker: string, date: int, close: real)

  /** `getHistoricalPrices(ticker, days)`: the stored rows for the uppercased
      ticker, or None when the query fails. `query(t)` is the date-filtered query
      for ticker `t`; its `data` may itself be null. */
  function HistoricalPrices(ticker: string, query: string -> DbResult<seq<PriceRow>>): (r: Option<Option<seq<PriceRow>>>)
    ensures query(Upper(ticker)).DbError? <==> r.None?
    ensures query(Upper(ticker)).DbOk? ==> r == Some(query(Upper(ticker)).data)
  {
    match query(Upper(ticker))
    case DbError => None
    case DbOk(data) => Some(data)
  }

  lemma UpperIdempotent(s: string)
    ensures Upper(Upper(s)) == Upper(s)
  {
    assert forall i :: 0 <= i < |s| ==> Upper(Upper(s))[i] == Upper(s)[i];
  }

  /** The lookup ignores the case of the ticker: "petr4" and "PETR4" query the
      same rows. */
  lemma HistoricalPricesIgnoreCase(ticker: string, query: string -> DbResult<seq<PriceRow>>)
    ensures HistoricalPrices(ticker, query) == HistoricalPrices(Upper(ticker), query)
  {
    UpperIdempotent(ticker);
  }
}
