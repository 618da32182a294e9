/** actions/dashboard.ts: `getPortfolioSummary`, the engine behind the dashboard.
    It folds the ledger into one blended-average position per ticker, in the
    order the ledger arrives (newest first, actions/transaction.ts:82), keeps the
    open positions, values them at the quote service's prices, totals them and
    lists the assets largest first. */
module Dashboard {
  import opened Common
  import Finance

  /** The entry the positions `Map` keeps per ticker. */
  datatype Position = Position(qty: real, avgPrice: real, totalCost: real)

  const Zero: Position := Position(0.0, 0.0, 0.0)

  /** Positions at or below this quantity are treated as closed. */
  const MinQty: real := 0.000001

  function Abs(x: real): real { if x < 0.0 then -x else x }

  /** One pass of the ledger loop over an existing entry: a BUY adds quantity and
      cost and recomputes the average as cost over quantity (over 1 when the
      quantity is 0); a SELL removes |qty| units at the current average; a
      DIVIDEND changes nothing. */
  function Apply(pos: Position, tx: Tx): Position
  {
    match tx.kind
    case Buy =>
      var qty := pos.qty + tx.qty;
      var cost := pos.totalCost + tx.total;
      Position(qty, cost / (if qty != 0.0 then qty else 1.0), cost)
    case Sell =>
      var sold := Abs(tx.qty);
      Position(pos.qty - sold, pos.avgPrice, pos.totalCost - sold * pos.avgPrice)
    case Dividend => pos
  }

  /** One iteration: the ticker's entry is created at zero if absent, then updated. */
  function Step(ps: OMap<string, Position>, tx: Tx): OMap<string, Position>
  {
    ps.Put(tx.ticker, Apply(ps.Get(tx.ticker, Zero), tx))
  }

  /** The positions `Map` after folding `ledger` in the order given. */
  function Consolidate(ledger: seq<Tx>): (r: OMap<string, Position>)
    ensures r.Valid()
  {
    if ledger == [] then EmptyMap() else Step(Consolidate(ledger[..|ledger| - 1]), ledger[|ledger| - 1])
  }

  /** The ledger loop of `getPortfolioSummary`, updating the map entry in place. */
  method ConsolidateLedger(ledger: seq<Tx>) returns (positions: OMap<string, Position>)
    ensures positions == Consolidate(ledger)
    ensures positions.Valid()
  {
    positions := EmptyMap();
    for i := 0 to |ledger|
      invariant positions == Consolidate(ledger[..i])
      invariant positions.Valid()
    {
      assert ledger[..i + 1][..i] == ledger[..i];
      var tx := ledger[i];
      ghost var prev := positions;
      if tx.ticker !in positions.m {
        positions := positions.Put(tx.ticker, Zero);
      }
      var pos := positions.m[tx.ticker];
      assert pos == prev.Get(tx.ticker, Zero);
      positions := positions.Put(tx.ticker, Apply(pos, tx));
      assert positions == Step(prev, tx);
    }
    assert ledger[..|ledger|] == ledger;
  }

  function Tickers(ledger: seq<Tx>): (ts: seq<string>)
    ensures |ts| == |ledger|
    ensures forall i :: 0 <= i < |ledger| ==> ts[i] == ledger[i].ticker
  {
    seq(|ledger|, i requires 0 <= i < |ledger| => ledger[i].ticker)
  }

  /** Every transaction, of any type, gives its ticker an entry; the entries are
      listed in the order their tickers first appear in the ledger. */
  lemma {:induction false} EveryTickerGetsAnEntry(ledger: seq<Tx>)
    ensures Consolidate(ledger).Valid()
    ensures Consolidate(ledger).keys == Dedup(Tickers(ledger))
  {
    if ledger != [] {
      var prefix := ledger[..|ledger| - 1];
      EveryTickerGetsAnEntry(prefix);
      assert Tickers(ledger)[..|ledger| - 1] == Tickers(prefix);
    }
  }

  /** The bookkeeping identity the source aims for: cost = quantity × average. */
  predicate KeepsBasis(p: Position)
  {
    p.totalCost == p.qty * p.avgPrice
  }

  /** A SELL removes |qty| units and exactly |qty| × average of cost, leaves the
      average unchanged and so keeps cost = quantity × average. */
  lemma SellKeepsAverage(pos: Position, tx: Tx)
    requires tx.kind == Sell
    ensures Apply(pos, tx).avgPrice == pos.avgPrice
    ensures Apply(pos, tx).qty == pos.qty - Abs(tx.qty)
    ensures Apply(pos, tx).totalCost == pos.totalCost - Abs(tx.qty) * pos.avgPrice
    ensures KeepsBasis(pos) ==> KeepsBasis(Apply(pos, tx))
  {
    var s := Abs(tx.qty);
    assert (pos.qty - s) * pos.avgPrice == pos.qty * pos.avgPrice - s * pos.avgPrice;
  }

  /** A BUY sets the average to cost over quantity, so cost = quantity × average
      whenever the new quantity is not zero; at quantity zero the average is the
      whole cost. */
  lemma BuyResetsAverage(pos: Position, tx: Tx)
    requires tx.kind == Buy
    ensures Apply(pos, tx).qty == pos.qty + tx.qty
    ensures Apply(pos, tx).totalCost == pos.totalCost + tx.total
    ensures Apply(pos, tx).qty != 0.0 ==> KeepsBasis(Apply(pos, tx))
    ensures Apply(pos, tx).qty == 0.0 ==> Apply(pos, tx).avgPrice == Apply(pos, tx).totalCost
  {
    var r := Apply(pos, tx);
    if r.qty != 0.0 {
      assert r.avgPrice == r.totalCost / r.qty;
      assert r.qty * (r.totalCost / r.qty) == r.totalCost;
    }
  }

  /** No BUY in the ledger brings its ticker's quantity to exactly zero. */
  ghost predicate BuysNeverZero(ledger: seq<Tx>)
  {
    forall i :: 0 <= i < |ledger| && ledger[i].kind == Buy ==>
      Consolidate(ledger[..i]).Get(ledger[i].ticker, Zero).qty + ledger[i].qty != 0.0
  }

  lemma ApplyKeepsBasis(p: Position, tx: Tx)
    requires KeepsBasis(p)
    requires tx.kind == Buy ==> p.qty + tx.qty != 0.0
    ensures KeepsBasis(Apply(p, tx))
  {
    match tx.kind {
      case Buy => BuyResetsAverage(p, tx);
      case Sell => SellKeepsAverage(p, tx);
      case Dividend =>
    }
  }

  /** Every entry of a positions map keeps cost = quantity × average. */
  predicate AllKeepBasis(m: map<string, Position>)
  {
    forall t :: t in m ==> KeepsBasis(m[t])
  }

  /** One step keeps cost = quantity × average for every entry, unless it is a
      BUY that lands on quantity zero. */
  lemma StepKeepsBasis(ps: OMap<string, Position>, tx: Tx)
    requires AllKeepBasis(ps.m)
    requires tx.kind == Buy ==> ps.Get(tx.ticker, Zero).qty + tx.qty != 0.0
    ensures AllKeepBasis(Step(ps, tx).m)
  {
    var p := ps.Get(tx.ticker, Zero);
    ApplyKeepsBasis(p, tx);
    UpdateKeepsBasis(ps.m, tx.ticker, Apply(p, tx));
  }

  lemma UpdateKeepsBasis(m: map<string, Position>, t: string, v: Position)
    requires AllKeepBasis(m) && KeepsBasis(v)
    ensures AllKeepBasis(m[t := v])
  {
  }

  /** Folding preserves cost = quantity × average for every entry, as long as no
      BUY lands on quantity zero. */
  lemma {:induction false} LedgerKeepsBasis(ledger: seq<Tx>)
    requires BuysNeverZero(ledger)
    ensures AllKeepBasis(Consolidate(ledger).m)
  {
    if ledger != [] {
      var n := |ledger| - 1;
      var prefix, last := ledger[..n], ledger[n];
      PrefixBuysNeverZero(ledger);
      LedgerKeepsBasis(prefix);
      assert last.kind == Buy ==> Consolidate(prefix).Get(last.ticker, Zero).qty + last.qty != 0.0;
      StepKeepsBasis(Consolidate(prefix), last);
      assert Consolidate(ledger) == Step(Consolidate(prefix), last);
    }
  }

  lemma PrefixBuysNeverZero(ledger: seq<Tx>)
    requires ledger != [] && BuysNeverZero(ledger)
    ensures BuysNeverZero(ledger[..|ledger| - 1])
  {
    var prefix := ledger[..|ledger| - 1];
    forall i | 0 <= i < |prefix| && prefix[i].kind == Buy
      ensures Consolidate(prefix[..i]).Get(prefix[i].ticker, Zero).qty + prefix[i].qty != 0.0
    {
      assert prefix[..i] == ledger[..i];
      assert prefix[i] == ledger[i];
    }
  }

  /** Folding follows input order, and the order changes the outcome: with the
      ledger newest first, a SELL folded before its BUY drives the quantity
      negative at average 0, and the later BUY then spreads the whole cost over
      the net quantity. Buying 10 for 100 and selling 5 gives an average of 20
      newest first, and of 10 oldest first. */
  lemma NewestFirstChangesAverage()
    ensures
      var buy := Tx("p", "X", Buy, 1, 10.0, 100.0);
      var sell := Tx("p", "X", Sell, 2, 5.0, 60.0);
      && Consolidate([sell, buy]).m["X"] == Position(5.0, 20.0, 100.0)
      && Consolidate([buy, sell]).m["X"] == Position(5.0, 10.0, 50.0)
      && Consolidate([sell]).m["X"] == Position(-5.0, 0.0, 0.0)
  {
    var buy := Tx("p", "X", Buy, 1, 10.0, 100.0);
    var sell := Tx("p", "X", Sell, 2, 5.0, 60.0);
    assert [sell, buy][..1] == [sell];
    assert [buy, sell][..1] == [buy];
    assert [sell][..0] == [];
    assert [buy][..0] == [];
    assert Consolidate([]) == EmptyMap();
    assert Apply(Zero, sell) == Position(-5.0, 0.0, 0.0);
    assert Apply(Zero, buy) == Position(10.0, 10.0, 100.0);
    var afterSell := Consolidate([sell]);
    assert afterSell == Step(EmptyMap(), sell);
    assert afterSell.m["X"] == Position(-5.0, 0.0, 0.0);
    var afterBuy := Consolidate([buy]);
    assert afterBuy == Step(EmptyMap(), buy);
    assert afterBuy.m["X"] == Position(10.0, 10.0, 100.0);
    assert Consolidate([sell, buy]) == Step(afterSell, buy);
    assert Apply(Position(-5.0, 0.0, 0.0), buy) == Position(5.0, 20.0, 100.0);
    assert Consolidate([buy, sell]) == Step(afterBuy, sell);
    assert Apply(Position(10.0, 10.0, 100.0), sell) == Position(5.0, 10.0, 50.0);
  }

  // ------------------------------------------------------------------ valuation

  /** One element of `assets`. `profitPct` is None where the source divides by a
      zero cost (JavaScript would give NaN or an infinity). */
  datatype AssetDetail = AssetDetail(ticker: string, qty: real, avgPrice: real, currentPrice: real,
                                     currentValue: real, profit: real, profitPct: Option<real>,
                                     assetType: Finance.AssetType, updatedAt: Option<int>)

  /** The open positions, in map order: `qty > 0.000001`. */
  function ActivePositions(ps: OMap<string, Position>): (r: seq<(string, Position)>)
    requires ps.Valid()
    ensures forall e :: e in r ==> e.1.qty > MinQty && e.0 in ps.m && ps.m[e.0] == e.1
    ensures forall t :: t in ps.m && ps.m[t].qty > MinQty ==> (t, ps.m[t]) in r
  {
    var all := seq(|ps.keys|, i requires 0 <= i < |ps.keys| => (ps.keys[i], ps.m[ps.keys[i]]));
    assert forall t :: t in ps.m ==> (t, ps.m[t]) in all by {
      forall t | t in ps.m ensures (t, ps.m[t]) in all {
        var i :| 0 <= i < |ps.keys| && ps.keys[i] == t;
        assert all[i] == (t, ps.m[t]);
      }
    }
    Filter(all, (e: (string, Position)) => e.1.qty > MinQty)
  }

  /** `new Map(quotes.map(q => [q.ticker, q])).get(t)`: the last quote for `t`. */
  function QuoteFor(quotes: seq<Finance.Quote>, t: string): (r: Option<Finance.Quote>)
    ensures r.Some? ==> r.value in quotes && r.value.ticker == t
    ensures r.Some? ==> exists i :: 0 <= i < |quotes| && quotes[i] == r.value &&
                                    forall j :: i < j < |quotes| ==> quotes[j].ticker != t
    ensures r.None? ==> forall q :: q in quotes ==> q.ticker != t
  {
    if quotes == [] then None
    else if quotes[|quotes| - 1].ticker == t then Some(quotes[|quotes| - 1])
    else QuoteFor(quotes[..|quotes| - 1], t)
  }

  /** The `map` callback: value at the quoted price, or at the average price when
      there is no quote or its price is 0 (`quote?.price || pos.avgPrice`). */
  function Detail(t: string, pos: Position, quote: Option<Finance.Quote>): (d: AssetDetail)
    ensures d.ticker == t && d.qty == pos.qty && d.avgPrice == pos.avgPrice
    ensures d.currentValue == pos.qty * d.currentPrice
    ensures d.profit == d.currentValue - pos.qty * pos.avgPrice
    ensures quote.None? || quote.value.price == 0.0 ==> d.currentPrice == pos.avgPrice && d.profit == 0.0
    ensures quote.Some? && quote.value.price != 0.0 ==> d.currentPrice == quote.value.price
  {
    var price := if quote.Some? && quote.value.price != 0.0 then quote.value.price else pos.avgPrice;
    var value := pos.qty * price;
    var cost := pos.qty * pos.avgPrice;
    var profit := value - cost;
    AssetDetail(t, pos.qty, pos.avgPrice, price, value, profit,
                if cost != 0.0 then Some(profit / cost * 100.0) else None,
                if quote.Some? then quote.value.assetType else Finance.Stock,
                if quote.Some? then Some(quote.value.updatedAt) else None)
  }

  /** The quotes `getQuotes` returns for the open positions, against the quote
      cache `cache` at the start of the batch. */
  function Quotes(cache: map<string, Finance.CacheEntry>, active: seq<(string, Position)>, now: int,
                  brapi: string -> Option<Finance.Quote>, yahoo: string -> Option<Finance.Quote>): seq<Finance.Quote>
  {
    Present(Finance.Answers(cache, ActiveTickers(active), now, brapi, yahoo))
  }

  /** The tickers of the open positions, in order (`activePositions.map(p => p.ticker)`). */
  function ActiveTickers(active: seq<(string, Position)>): seq<string>
  {
    seq(|active|, i requires 0 <= i < |active| => active[i].0)
  }

  /** The details of the open positions at `quotes`, in order. */
  function Details(active: seq<(string, Position)>, quotes: seq<Finance.Quote>): seq<AssetDetail>
  {
    seq(|active|, i requires 0 <= i < |active| => Detail(active[i].0, active[i].1, QuoteFor(quotes, active[i].0)))
  }

  function Value(d: AssetDetail): real { d.currentValue }

  function Cost(d: AssetDetail): real { d.qty * d.avgPrice }

  /** The `map` over the open positions, which also accumulates `totalValue` and
      `totalCost`. */
  method Valuate(active: seq<(string, Position)>, quotes: seq<Finance.Quote>)
    returns (details: seq<AssetDetail>, totalValue: real, totalCost: real)
    ensures |details| == |active|
    ensures forall i :: 0 <= i < |active| ==> details[i] == Detail(active[i].0, active[i].1, QuoteFor(quotes, active[i].0))
    ensures totalValue == SumOf(details, Value)
    ensures totalCost == SumOf(details, Cost)
  {
    details, totalValue, totalCost := [], 0.0, 0.0;
    for i := 0 to |active|
      invariant |details| == i
      invariant forall k :: 0 <= k < i ==> details[k] == Detail(active[k].0, active[k].1, QuoteFor(quotes, active[k].0))
      invariant totalValue == SumOf(details, Value)
      invariant totalCost == SumOf(details, Cost)
    {
      var (t, pos) := active[i];
      var d := Detail(t, pos, QuoteFor(quotes, t));
      assert (details + [d])[..i] == details;
      details := details + [d];
      totalValue := totalValue + d.currentValue;
      totalCost := totalCost + pos.qty * pos.avgPrice;
    }
  }

  /** Every reported asset is an open position of the ledger. */
  lemma AssetsAreActive(positions: OMap<string, Position>, active: seq<(string, Position)>,
                        details: seq<AssetDetail>, assets: seq<AssetDetail>)
    requires forall e :: e in active ==> e.1.qty > MinQty && e.0 in positions.m
    requires |details| == |active|
    requires forall i :: 0 <= i < |active| ==> details[i].ticker == active[i].0 && details[i].qty == active[i].1.qty
    requires multiset(assets) == multiset(details)
    ensures forall d :: d in assets ==> d.qty > MinQty && d.ticker in positions.m
  {
    forall d | d in assets ensures d.qty > MinQty && d.ticker in positions.m {
      assert d in multiset(details);
      var i :| 0 <= i < |details| && details[i] == d;
      assert active[i] in active;
    }
  }

  /** Every open position of the ledger is reported. */
  lemma ActiveAreAssets(positions: OMap<string, Position>, active: seq<(string, Position)>,
                        details: seq<AssetDetail>, assets: seq<AssetDetail>)
    requires forall t :: t in positions.m && positions.m[t].qty > MinQty ==> (t, positions.m[t]) in active
    requires |details| == |active|
    requires forall i :: 0 <= i < |active| ==> details[i].ticker == active[i].0
    requires multiset(assets) == multiset(details)
    ensures forall t :: t in positions.m && positions.m[t].qty > MinQty ==> exists d :: d in assets && d.ticker == t
  {
    forall t | t in positions.m && positions.m[t].qty > MinQty ensures exists d :: d in assets && d.ticker == t {
      var i :| 0 <= i < |active| && active[i] == (t, positions.m[t]);
      assert details[i] in multiset(assets);
      assert details[i] in assets;
    }
  }

  /** What `getPortfolioSummary` returns. The early return for an empty ledger has
      no `cost`, `profit` or `lastUpdate`. */
  datatype Summary = Summary(netWorth: real, cost: Option<real>, variation: real, profit: Option<real>,
                             assets: seq<AssetDetail>, lastUpdate: Option<int>)

  /** `getPortfolioSummary(portfolioId)`. `ledger` is what `getTransactions` returned
      (null: None), `svc` the shared quote service, `now` the clock. */
  method GetPortfolioSummary(ledger: Option<seq<Tx>>, svc: Finance.FinanceService, now: int,
                             brapi: string -> Option<Finance.Quote>, yahoo: string -> Option<Finance.Quote>)
    returns (s: Summary)
    modifies svc
    ensures ledger.None? || ledger.value == [] ==> s == Summary(0.0, None, 0.0, None, [], None) && svc.cache == old(svc.cache)
    ensures ledger.Some? && ledger.value != [] ==>
      var active := ActivePositions(Consolidate(ledger.value));
      && multiset(s.assets) == multiset(Details(active, Quotes(old(svc.cache), active, now, brapi, yahoo)))
      && svc.cache == Finance.Refreshed(old(svc.cache), ActiveTickers(active), now, brapi, yahoo)
    ensures ledger.Some? && ledger.value != [] ==>
      && s.cost.Some? && s.profit.Some? && s.lastUpdate == Some(now)
      && s.netWorth == SumOf(s.assets, Value)
      && s.cost.value == SumOf(s.assets, Cost)
      && s.profit.value == s.netWorth - s.cost.value
      && s.variation == Variation(s.profit.value, s.cost.value)
      && SortedBy(s.assets, (d: AssetDetail) => -d.currentValue)
      && (forall d :: d in s.assets ==> d.qty > MinQty && d.ticker in Consolidate(ledger.value).m)
      && (forall t :: t in Consolidate(ledger.value).m && Consolidate(ledger.value).m[t].qty > MinQty ==>
            exists d :: d in s.assets && d.ticker == t)
  {
    if ledger.None? || ledger.value == [] {
      return Summary(0.0, None, 0.0, None, [], None);
    }
    var positions := ConsolidateLedger(ledger.value);
    var active := ActivePositions(positions);
    var tickers := ActiveTickers(active);
    var quotes := svc.GetQuotes(tickers, now, brapi, yahoo);
    var details, totalValue, totalCost := Valuate(active, quotes);
    assert details == Details(active, quotes);
    s := Assemble(details, totalValue, totalCost, now);
    AssembledSummary(positions, active, details, totalValue, totalCost, now);
  }

  /** `totalCost > 0 ? (totalProfit / totalCost) * 100 : 0`. */
  function Variation(profit: real, cost: real): real
  {
    if cost > 0.0 then profit / cost * 100.0 else 0.0
  }

  /** Steps 5 and 6: the variation, and the details sorted by value, largest
      first. */
  function Assemble(details: seq<AssetDetail>, totalValue: real, totalCost: real, now: int): Summary
  {
    var profit := totalValue - totalCost;
    Summary(totalValue, Some(totalCost), Variation(profit, totalCost),
            Some(profit), SortBy(details, (d: AssetDetail) => -d.currentValue), Some(now))
  }

  /** The assembled summary reports each open position once, with totals that
      match its assets. */
  lemma AssembledSummary(positions: OMap<string, Position>, active: seq<(string, Position)>,
                         details: seq<AssetDetail>, totalValue: real, totalCost: real, now: int)
    requires forall e :: e in active ==> e.1.qty > MinQty && e.0 in positions.m
    requires forall t :: t in positions.m && positions.m[t].qty > MinQty ==> (t, positions.m[t]) in active
    requires |details| == |active|
    requires forall i :: 0 <= i < |active| ==> details[i].ticker == active[i].0 && details[i].qty == active[i].1.qty
    requires totalValue == SumOf(details, Value) && totalCost == SumOf(details, Cost)
    ensures var s := Assemble(details, totalValue, totalCost, now);
      && s.cost.Some? && s.profit.Some? && s.lastUpdate == Some(now)
      && s.netWorth == SumOf(s.assets, Value)
      && s.cost.value == SumOf(s.assets, Cost)
      && s.profit.value == s.netWorth - s.cost.value
      && s.variation == Variation(s.profit.value, s.cost.value)
      && SortedBy(s.assets, (d: AssetDetail) => -d.currentValue)
      && (forall d :: d in s.assets ==> d.qty > MinQty && d.ticker in positions.m)
      && (forall t :: t in positions.m && positions.m[t].qty > MinQty ==> exists d :: d in s.assets && d.ticker == t)
    ensures multiset(Assemble(details, totalValue, totalCost, now).assets) == multiset(details)
  {
    var assets := SortBy(details, (d: AssetDetail) => -d.currentValue);
    SumOfPermutation(details, assets, Value);
    SumOfPermutation(details, assets, Cost);
    AssetsAreActive(positions, active, details, assets);
    ActiveAreAssets(positions, active, details, assets);
  }
}
