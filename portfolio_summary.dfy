/** actions/portfolioSummary.ts: a second, record-based reconstruction of the
    positions (oldest transaction first) with a running `totalInvested`, valued
    at stored or live prices; and the day-by-day performance history. */
module PortfolioSummary {
  import opened Common
  import PriceHistory

  /** One entry of the `positions` record. `avgPrice` is None where the source
      divides by a quantity of 0, which JavaScript turns into NaN or an infinity. */
  datatype Holding = Holding(quantity: real, avgPrice: Option<real>, invested: real)

  const Fresh: Holding := Holding(0.0, Some(0.0), 0.0)

  /** The state of the ledger loop: the record and the running total. */
  datatype Book = Book(positions: OMap<string, Holding>, totalInvested: real)

  function EmptyBook(): Book { Book(EmptyMap(), 0.0) }

  /** One iteration of the ledger loop. None when the step turns the totals
      non-finite: a SELL against an average that is itself not finite. */
  function Post(b: Book, tx: Tx): Option<Book>
  {
    match tx.kind
    case Buy =>
      var cur := b.positions.Get(tx.ticker, Fresh);
      var quantity := cur.quantity + tx.qty;
      var invested := cur.invested + tx.total;
      var avg := if quantity != 0.0 then Some(invested / quantity) else None;
      Some(Book(b.positions.Put(tx.ticker, Holding(quantity, avg, invested)), b.totalInvested + tx.total))
    case Sell =>
      if tx.ticker !in b.positions.m then Some(b)
      else
        var cur := b.positions.m[tx.ticker];
        if cur.avgPrice.None? then None
        else
          var soldValue := SoldValue(cur, tx.qty);
          Some(Book(b.positions.Put(tx.ticker, Holding(cur.quantity - tx.qty, cur.avgPrice, cur.invested - soldValue)),
                    b.totalInvested - soldValue))
    case Dividend => Some(b)
  }

  /** `tx.qty * currentPos.avgPrice`: the cost basis a SELL takes off. */
  function SoldValue(h: Holding, qty: real): real
    requires h.avgPrice.Some?
  {
    qty * h.avgPrice.value
  }

  /** The book after the whole ledger, in the order given (oldest first). */
  function Fold(ledger: seq<Tx>): Option<Book>
  {
    if ledger == [] then Some(EmptyBook())
    else
      match Fold(ledger[..|ledger| - 1])
      case None => None
      case Some(b) => Post(b, ledger[|ledger| - 1])
  }

  function Invested(b: Book): string -> real
  {
    t => b.positions.Get(t, Fresh).invested
  }

  /** What the loop keeps: the record is a well-formed map, the running total is
      the sum of `invested` over every entry (closed ones included), each entry
      with a finite average satisfies invested = quantity × average, and only an
      entry at quantity 0 lacks a finite average. */
  ghost predicate Sound(b: Book)
  {
    && b.positions.Valid()
    && b.totalInvested == SumOf(b.positions.keys, Invested(b))
    && AllEntriesSound(b.positions.m)
  }

  /** invested = quantity × average when the average is finite; otherwise the
      quantity is 0. */
  predicate EntrySound(h: Holding)
  {
    && (h.avgPrice.Some? ==> h.invested == h.quantity * h.avgPrice.value)
    && (h.avgPrice.None? ==> h.quantity == 0.0)
  }

  predicate AllEntriesSound(m: map<string, Holding>)
  {
    forall t :: t in m ==> EntrySound(m[t])
  }

  lemma PutKeepsEntriesSound(m: map<string, Holding>, t: string, h: Holding)
    requires AllEntriesSound(m) && EntrySound(h)
    ensures AllEntriesSound(m[t := h])
  {
  }

  /** A BUY's new entry is sound. */
  lemma BuyEntrySound(cur: Holding, tx: Tx)
    requires tx.kind == Buy
    ensures var q := cur.quantity + tx.qty;
            var inv := cur.invested + tx.total;
            EntrySound(Holding(q, if q != 0.0 then Some(inv / q) else None, inv))
  {
    var q := cur.quantity + tx.qty;
    var inv := cur.invested + tx.total;
    if q != 0.0 {
      assert q * (inv / q) == inv;
    }
  }

  /** A SELL against a sound entry with a finite average leaves a sound entry. */
  lemma SellEntrySound(cur: Holding, tx: Tx)
    requires EntrySound(cur) && cur.avgPrice.Some?
    ensures EntrySound(Holding(cur.quantity - tx.qty, cur.avgPrice, cur.invested - SoldValue(cur, tx.qty)))
  {
    var a := cur.avgPrice.value;
    assert (cur.quantity - tx.qty) * a == cur.quantity * a - tx.qty * a;
  }

  /** A BUY adds its quantity and total to the entry and to the running total
      and sets the average to invested over quantity; a SELL of a held ticker
      takes qty × average off the entry and the total and keeps the average; a
      SELL of an unknown ticker and any DIVIDEND change nothing. Each keeps
      `Sound`. */
  lemma {:induction false} PostKeepsSound(b: Book, tx: Tx)
    requires Sound(b)
    requires Post(b, tx).Some?
    ensures Sound(Post(b, tx).value)
  {
    var r := Post(b, tx).value;
    if tx.kind == Buy || (tx.kind == Sell && tx.ticker in b.positions.m) {
      var cur := b.positions.Get(tx.ticker, Fresh);
      var h := r.positions.m[tx.ticker];
      assert r.positions.m == b.positions.m[tx.ticker := h];
      if tx.kind == Buy {
        BuyEntrySound(cur, tx);
      } else {
        assert EntrySound(cur);
        SellEntrySound(cur, tx);
      }
      PutKeepsEntriesSound(b.positions.m, tx.ticker, h);
      InvestedAfterPut(b, tx.ticker, h, h.invested - cur.invested);
    }
  }

  /** The running total moves by exactly the change in the updated entry. */
  lemma InvestedAfterPut(b: Book, t: string, h: Holding, delta: real)
    requires b.positions.Valid()
    requires b.totalInvested == SumOf(b.positions.keys, Invested(b))
    requires h.invested == b.positions.Get(t, Fresh).invested + delta
    ensures var r := Book(b.positions.Put(t, h), b.totalInvested + delta);
            r.totalInvested == SumOf(r.positions.keys, Invested(r))
  {
    var r := Book(b.positions.Put(t, h), b.totalInvested + delta);
    var keys, f, g := b.positions.keys, Invested(b), Invested(r);
    assert r.positions.m == b.positions.m[t := h];
    forall x | x != t ensures f(x) == g(x) {
      assert b.positions.Get(x, Fresh) == r.positions.Get(x, Fresh);
    }
    assert g(t) == h.invested;
    SumOfUpdate(keys, f, g, t);
    if t !in b.positions.m {
      var ks := keys + [t];
      assert r.positions.keys == ks;
      assert ks[..|ks| - 1] == keys;
      assert SumOf(ks, g) == SumOf(keys, g) + g(t);
      assert f(t) == 0.0;
      assert SumOf(r.positions.keys, g) == b.totalInvested + delta;
    } else {
      assert r.positions.keys == keys;
      assert SumOf(r.positions.keys, g) == b.totalInvested + delta;
    }
  }

  /** The ledger loop keeps `Sound` from the empty record on. */
  lemma {:induction false} FoldSound(ledger: seq<Tx>)
    ensures Fold(ledger).Some? ==> Sound(Fold(ledger).value)
  {
    if ledger != [] {
      FoldSound(ledger[..|ledger| - 1]);
      var prev := Fold(ledger[..|ledger| - 1]);
      if prev.Some? && Post(prev.value, ledger[|ledger| - 1]).Some? {
        PostKeepsSound(prev.value, ledger[|ledger| - 1]);
      }
    }
  }

  /** A BUY that opens a ticker and a SELL of half of it: the entry keeps the
      BUY's average and the running total drops by the cost of the units sold,
      whatever the SELL was paid. */
  lemma SellRemovesCostBasis()
    ensures
      var buy := Tx("p", "X", Buy, 1, 10.0, 100.0);
      var sell := Tx("p", "X", Sell, 2, 5.0, 80.0);
      && Fold([buy, sell]) == Some(Book(OMap(["X"], map["X" := Holding(5.0, Some(10.0), 50.0)]), 50.0))
      && Fold([sell, buy]) == Some(Book(OMap(["X"], map["X" := Holding(10.0, Some(10.0), 100.0)]), 100.0))
  {
    var buy := Tx("p", "X", Buy, 1, 10.0, 100.0);
    var sell := Tx("p", "X", Sell, 2, 5.0, 80.0);
    assert [buy, sell][..1] == [buy];
    assert [sell, buy][..1] == [sell];
    assert [buy][..0] == [];
    assert [sell][..0] == [];
    var h1 := Holding(10.0, Some(10.0), 100.0);
    var one := Book(OMap(["X"], map["X" := h1]), 100.0);
    assert EmptyBook().positions.Get("X", Fresh) == Fresh;
    assert EmptyBook().positions.Put("X", h1) == OMap(["X"], map["X" := h1]);
    assert Post(EmptyBook(), buy) == Some(one);
    assert Fold([buy]) == Some(one);
    assert Post(EmptyBook(), sell) == Some(EmptyBook());
    assert Fold([sell]) == Some(EmptyBook());
    assert Fold([sell, buy]) == Some(one);
    assert one.positions.Put("X", Holding(5.0, Some(10.0), 50.0)) == OMap(["X"], map["X" := Holding(5.0, Some(10.0), 50.0)]);
    assert Post(one, sell) == Some(Book(OMap(["X"], map["X" := Holding(5.0, Some(10.0), 50.0)]), 50.0));
  }

  // ------------------------------------------------------------------ valuation

  /** JavaScript truthiness of a looked-up price: present and not 0. */
  predicate Truthy(p: Option<real>)
  {
    p.Some? && p.value != 0.0
  }

  /** The contribution of one open position: quantity × the latest stored close
      when that is truthy, else × the live brapi price when that is truthy, else
      the position's `invested` (also what a failed lookup falls back to). */
  function PositionValue(h: Holding, t: string, storedClose: string -> Option<real>, livePrice: string -> Option<real>): real
  {
    if Truthy(storedClose(t)) then h.quantity * storedClose(t).value
    else if Truthy(livePrice(t)) then h.quantity * livePrice(t).value
    else h.invested
  }

  /** `Object.keys(positions).filter(t => positions[t].quantity > 0)`. */
  function OpenTickers(b: Book): (r: seq<string>)
    ensures forall t :: t in r <==> t in b.positions.keys && b.positions.Get(t, Fresh).quantity > 0.0
  {
    Filter(b.positions.keys, IsOpen(b))
  }

  function IsOpen(b: Book): string -> bool
  {
    t => b.positions.Get(t, Fresh).quantity > 0.0
  }

  function ValueOf(b: Book, storedClose: string -> Option<real>, livePrice: string -> Option<real>): string -> real
  {
    t => PositionValue(b.positions.Get(t, Fresh), t, storedClose, livePrice)
  }

  /** The price a position is valued at is the first truthy one of the stored
      close and the live price; without either it is carried at `invested`. */
  lemma ValueAt(b: Book, t: string, storedClose: string -> Option<real>, livePrice: string -> Option<real>, price: Option<real>)
    requires price == if Truthy(storedClose(t)) then storedClose(t) else livePrice(t)
    ensures Truthy(price) ==> ValueOf(b, storedClose, livePrice)(t) == b.positions.Get(t, Fresh).quantity * price.value
    ensures !Truthy(price) ==> ValueOf(b, storedClose, livePrice)(t) == b.positions.Get(t, Fresh).invested
  {
  }

  /** One element of the returned `positions` array. */
  datatype Reported = Reported(ticker: string, quantity: real, avgPrice: real, invested: real)

  datatype Summary = Summary(currentValue: real, totalInvested: real, variationPercent: real,
                             variationValue: real, positions: seq<Reported>)

  /** What `getPortfolioSummary` yields: null for a failed query or null `data`
      (an empty list of rows is summarised as zeros), a
      result the model does not follow into non-finite arithmetic, or the
      summary. */
  datatype Outcome = NoData | NonFinite | Done(summary: Summary)

  /** `totalInvested > 0 ? (currentValue - totalInvested) / totalInvested * 100 : 0`. */
  function Variation(current: real, invested: real): real
  {
    if invested > 0.0 then (current - invested) / invested * 100.0 else 0.0
  }

  /** A reported element copies an open, sound entry. */
  predicate ReportOf(h: Holding, p: Reported)
  {
    && p.quantity == h.quantity > 0.0
    && p.invested == h.invested
    && h.avgPrice == Some(p.avgPrice)
    && p.invested == p.quantity * p.avgPrice
  }

  /** `reported` lists the open entries of `b` in record order. */
  predicate Reports(b: Book, reported: seq<Reported>)
  {
    && |reported| == |OpenTickers(b)|
    && forall i :: 0 <= i < |reported| ==>
         && reported[i].ticker == OpenTickers(b)[i]
         && reported[i].ticker in b.positions.m
         && ReportOf(b.positions.m[reported[i].ticker], reported[i])
  }

  /** The body of the ledger loop: one transaction applied to the record and
      `totalInvested`. */
  method ApplyTx(book: Book, tx: Tx) returns (out: Option<Book>)
    ensures out == Post(book, tx)
  {
    var positions, totalInvested := book.positions, book.totalInvested;
    if tx.kind == Buy {
      var currentPos := positions.Get(tx.ticker, Fresh);
      var newQuantity := currentPos.quantity + tx.qty;
      var newInvested := currentPos.invested + tx.total;
      var avg := if newQuantity != 0.0 then Some(newInvested / newQuantity) else None;
      positions := positions.Put(tx.ticker, Holding(newQuantity, avg, newInvested));
      totalInvested := totalInvested + tx.total;
    } else if tx.kind == Sell {
      if tx.ticker in positions.m {
        var currentPos := positions.m[tx.ticker];
        if currentPos.avgPrice.None? {
          return None;
        }
        var soldValue := SoldValue(currentPos, tx.qty);
        positions := positions.Put(tx.ticker, Holding(currentPos.quantity - tx.qty, currentPos.avgPrice,
                                                      currentPos.invested - soldValue));
        totalInvested := totalInvested - soldValue;
      } else {
        assert Post(book, tx) == Some(Book(positions, totalInvested));
      }
    } else {
      assert Post(book, tx) == Some(Book(positions, totalInvested));
    }
    return Some(Book(positions, totalInvested));
  }

  /** The ledger loop of `getPortfolioSummary`, updating the record and
      `totalInvested` transaction by transaction. */
  method FoldLedger(ledger: seq<Tx>) returns (out: Option<Book>)
    ensures out == Fold(ledger)
    ensures out.Some? ==> Sound(out.value)
  {
    var book := EmptyBook();
    for i := 0 to |ledger|
      invariant Fold(ledger[..i]) == Some(book)
    {
      assert ledger[..i + 1][..i] == ledger[..i];
      var next := ApplyTx(book, ledger[i]);
      if next.None? {
        FoldStaysNone(ledger, i + 1);
        assert ledger[..|ledger|] == ledger;
        return None;
      }
      book := next.value;
    }
    assert ledger[..|ledger|] == ledger;
    FoldSound(ledger);
    return Some(book);
  }

  /** The `try` block for one open ticker: the stored close, else the live
      price; what it adds to `currentValue`. */
  method ValuePosition(book: Book, ticker: string, storedClose: string -> Option<real>, livePrice: string -> Option<real>)
    returns (added: real)
    ensures added == ValueOf(book, storedClose, livePrice)(ticker)
    ensures !Truthy(storedClose(ticker)) && !Truthy(livePrice(ticker)) ==> added == book.positions.Get(ticker, Fresh).invested
  {
    var h := book.positions.Get(ticker, Fresh);
    var price := storedClose(ticker);
    if !Truthy(price) {
      price := livePrice(ticker);
    }
    ValueAt(book, ticker, storedClose, livePrice, price);
    if Truthy(price) {
      added := h.quantity * price.value;
    } else {
      added := h.invested;
    }
  }

  /** The valuation loop: `currentValue` over the open tickers. */
  method CurrentValue(book: Book, storedClose: string -> Option<real>, livePrice: string -> Option<real>)
    returns (currentValue: real)
    ensures currentValue == SumOf(OpenTickers(book), ValueOf(book, storedClose, livePrice))
  {
    var tickers := OpenTickers(book);
    currentValue := 0.0;
    for i := 0 to |tickers|
      invariant currentValue == SumOf(tickers[..i], ValueOf(book, storedClose, livePrice))
    {
      SumOfPrefix(tickers, i, ValueOf(book, storedClose, livePrice));
      var added := ValuePosition(book, tickers[i], storedClose, livePrice);
      currentValue := currentValue + added;
    }
    assert tickers[..|tickers|] == tickers;
  }

  /** `Object.entries(positions).filter(([_, pos]) => pos.quantity > 0).map(...)`:
      every open entry is reported with a finite average, and
      invested = quantity × avg_price holds for each. */
  method ReportOpen(book: Book) returns (reported: seq<Reported>)
    requires Sound(book)
    ensures Reports(book, reported)
  {
    var tickers := OpenTickers(book);
    reported := [];
    for i := 0 to |tickers|
      invariant |reported| == i
      invariant forall k :: 0 <= k < i ==>
         && reported[k].ticker == tickers[k]
         && reported[k].ticker in book.positions.m
         && ReportOf(book.positions.m[reported[k].ticker], reported[k])
    {
      var t := tickers[i];
      assert t in tickers;
      var h := book.positions.m[t];
      assert EntrySound(h);
      reported := reported + [Reported(t, h.quantity, h.avgPrice.value, h.invested)];
    }
  }

  /** `getPortfolioSummary(portfolioId)`. `transactions` is the query result
      ordered by date ascending; `storedClose(t)` is the `close` of the newest
      stored row of `t` (None when there is none or the query fails) and
      `livePrice(t)` the brapi `regularMarketPrice` (None on a non-ok response,
      a missing field or an exception). */
  method GetPortfolioSummary(transactions: DbResult<seq<Tx>>, storedClose: string -> Option<real>,
                             livePrice: string -> Option<real>)
    returns (out: Outcome)
    ensures transactions.DbError? || transactions.data.None? <==> out.NoData?
    ensures transactions.DbOk? && transactions.data.Some? ==>
      (Fold(transactions.data.value).None? <==> out.NonFinite?)
    ensures out.Done? ==>
      transactions.DbOk? && transactions.data.Some? && Fold(transactions.data.value).Some? &&
      var b := Fold(transactions.data.value).value;
      var s := out.summary;
      && s.totalInvested == b.totalInvested
      && s.totalInvested == SumOf(b.positions.keys, Invested(b))
      && s.currentValue == SumOf(OpenTickers(b), ValueOf(b, storedClose, livePrice))
      && s.variationValue == s.currentValue - s.totalInvested
      && s.variationPercent == Variation(s.currentValue, s.totalInvested)
      && Reports(b, s.positions)
  {
    if transactions.DbError? || transactions.data.None? {
      return NoData;
    }
    var folded := FoldLedger(transactions.data.value);
    if folded.None? {
      return NonFinite;
    }
    var book := folded.value;
    var currentValue := CurrentValue(book, storedClose, livePrice);
    var reported := ReportOpen(book);
    var invested := book.totalInvested;
    out := Done(Summary(currentValue, invested, Variation(currentValue, invested), currentValue - invested, reported));
  }

  /** Once the fold has turned non-finite it stays so. */
  lemma {:induction false} FoldStaysNone(ledger: seq<Tx>, i: nat)
    requires i <= |ledger|
    requires Fold(ledger[..i]).None?
    ensures Fold(ledger).None?
    decreases |ledger| - i
  {
    if i < |ledger| {
      assert ledger[..i + 1][..i] == ledger[..i];
      FoldStaysNone(ledger, i + 1);
    } else {
      assert ledger[..i] == ledger;
    }
  }

  /** With no truthy price for any open position, each is carried at its
      `invested`; if moreover no closed entry carries invested capital, the
      current value equals the running total and the variation is 0. */
  lemma NoPricesNoVariation(b: Book, storedClose: string -> Option<real>, livePrice: string -> Option<real>)
    requires b.positions.Valid()
    requires b.totalInvested == SumOf(b.positions.keys, Invested(b))
    requires forall t :: !Truthy(storedClose(t)) && !Truthy(livePrice(t))
    requires forall t :: t in b.positions.m && b.positions.m[t].quantity <= 0.0 ==> b.positions.m[t].invested == 0.0
    ensures SumOf(OpenTickers(b), ValueOf(b, storedClose, livePrice)) == b.totalInvested
    ensures Variation(SumOf(OpenTickers(b), ValueOf(b, storedClose, livePrice)), b.totalInvested) == 0.0
  {
    var keys := b.positions.keys;
    var v := ValueOf(b, storedClose, livePrice);
    forall t | t in keys ensures Invested(b)(t) == if IsOpen(b)(t) then v(t) else 0.0 {
      assert t in b.positions.m;
    }
    SumOfFilter(keys, IsOpen(b), v, Invested(b));
    var total := b.totalInvested;
    if total > 0.0 {
      assert (total - total) / total * 100.0 == 0.0;
    }
  }

  // ---------------------------------------------------------------- performance

  /** One emitted point of the history. */
  datatype DayPoint = DayPoint(date: int, value: real, invested: real, ret: real)

  /** What a transaction does to the history's `invested`: a BUY adds its total,
      a SELL subtracts its total (the sale proceeds, not the cost basis). */
  function CashFlow(tx: Tx): real
  {
    match tx.kind
    case Buy => tx.total
    case Sell => -tx.total
    case Dividend => 0.0
  }

  predicate OnOrBefore(tx: Tx, day: int) { tx.date <= day }

  /** `transactions.filter(tx => new Date(tx.date) <= currentDate)`. */
  function UpTo(ledger: seq<Tx>, day: int): seq<Tx>
  {
    Filter(ledger, tx => OnOrBefore(tx, day))
  }

  /** The point for `day`, emitted only when both value and invested are positive. */
  function PointOn(ledger: seq<Tx>, day: int, closeAt: (string, int) -> Option<real>): (r: Option<DayPoint>)
    ensures r.Some? ==> r.value.date == day && r.value.value > 0.0 && r.value.invested > 0.0
    ensures r.Some? ==> r.value.ret == (r.value.value - r.value.invested) / r.value.invested * 100.0
  {
    var txs := UpTo(ledger, day);
    var value := PriceHistory.ValueOf(PriceHistory.NetQuantities(txs), day, closeAt);
    var invested := SumOf(txs, CashFlow);
    if value > 0.0 && invested > 0.0 then Some(DayPoint(day, value, invested, (value - invested) / invested * 100.0))
    else None
  }

  /** The points emitted for the days `first` through `last`. */
  function Series(ledger: seq<Tx>, first: int, last: int, closeAt: (string, int) -> Option<real>): (r: seq<DayPoint>)
    decreases last - first
    ensures forall p :: p in r ==> first <= p.date <= last && p.value > 0.0 && p.invested > 0.0
    ensures forall i, j :: 0 <= i < j < |r| ==> r[i].date < r[j].date
    ensures forall p :: p in r ==> PointOn(ledger, p.date, closeAt) == Some(p)
    ensures forall d :: first <= d <= last && PointOn(ledger, d, closeAt).Some? ==> PointOn(ledger, d, closeAt).value in r
  {
    if last < first then []
    else
      var earlier := Series(ledger, first, last - 1, closeAt);
      var p := PointOn(ledger, last, closeAt);
      earlier + (if p.Some? then [p.value] else [])
  }

  /** The history's `invested` on a day, as the per-day loop accumulates it. */
  method InvestedOn(txUpToDate: seq<Tx>) returns (invested: real)
    ensures invested == SumOf(txUpToDate, CashFlow)
  {
    invested := 0.0;
    for i := 0 to |txUpToDate|
      invariant invested == SumOf(txUpToDate[..i], CashFlow)
    {
      SumOfPrefix(txUpToDate, i, CashFlow);
      var tx := txUpToDate[i];
      if tx.kind == Buy {
        invested := invested + tx.total;
      } else if tx.kind == Sell {
        invested := invested - tx.total;
      }
    }
    assert txUpToDate[..|txUpToDate|] == txUpToDate;
  }

  /** The body of the per-day loop: positions, invested and value from the
      transactions dated on or before `day`, and the point if it is emitted. */
  method PointForDay(ledger: seq<Tx>, day: int, closeAt: (string, int) -> Option<real>) returns (point: Option<DayPoint>)
    ensures point == PointOn(ledger, day, closeAt)
  {
    var txUpToDate := UpTo(ledger, day);
    var invested := InvestedOn(txUpToDate);
    var portfolioValue := PriceHistory.CalculatePortfolioValue(Some(txUpToDate), day, closeAt);
    if portfolioValue > 0.0 && invested > 0.0 {
      point := Some(DayPoint(day, portfolioValue, invested, (portfolioValue - invested) / invested * 100.0));
    } else {
      point := None;
    }
  }

  /** `getPortfolioPerformance(portfolioId)`: one pass per calendar day from the
      first transaction's date to `today`, inclusive. `transactions` is the query
      result ordered by date ascending (None when null); `closeAt(t, d)` is the
      latest stored close of `t` on or before day `d`. */
  method GetPortfolioPerformance(transactions: Option<seq<Tx>>, today: int, closeAt: (string, int) -> Option<real>)
    returns (performanceData: seq<DayPoint>)
    ensures transactions.None? || transactions.value == [] ==> performanceData == []
    ensures transactions.Some? && transactions.value != [] ==>
      performanceData == Series(transactions.value, transactions.value[0].date, today, closeAt)
  {
    if transactions.None? || transactions.value == [] {
      return [];
    }
    var ledger := transactions.value;
    var startDate := ledger[0].date;
    performanceData := [];
    var currentDate := startDate;
    while currentDate <= today
      invariant startDate <= currentDate
      invariant currentDate <= today + 1 || currentDate == startDate
      invariant performanceData == Series(ledger, startDate, currentDate - 1, closeAt)
      decreases today - currentDate
    {
      var point := PointForDay(ledger, currentDate, closeAt);
      if point.Some? {
        performanceData := performanceData + [point.value];
      }
      currentDate := currentDate + 1;
    }
  }

  /** The two notions of invested capital part ways on a sale: after buying 10
      for 100 and selling 5 for 80, the summary carries 50 (the cost of what is
      left) while the history carries 20 (purchases minus proceeds). */
  lemma InvestedNotionsDiffer()
    ensures
      var buy := Tx("p", "X", Buy, 1, 10.0, 100.0);
      var sell := Tx("p", "X", Sell, 2, 5.0, 80.0);
      && Fold([buy, sell]).Some? && Fold([buy, sell]).value.totalInvested == 50.0
      && SumOf([buy, sell], CashFlow) == 20.0
  {
    SellRemovesCostBasis();
    var buy := Tx("p", "X", Buy, 1, 10.0, 100.0);
    var sell := Tx("p", "X", Sell, 2, 5.0, 80.0);
    assert [buy, sell][..1] == [buy];
    assert [buy][..0] == [];
    assert SumOf([buy], CashFlow) == 100.0;
  }
}
