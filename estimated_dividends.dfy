/** actions/dividends.ts: `getEstimatedDividends`, the dividends a portfolio
    would have received over the last year on what it holds now. */
module EstimatedDividends {
  import opened Common

  /** One row of the provider's daily history; `dividends` is absent on most days. */
  datatype HistoryRow = HistoryRow(date: int, dividends: Option<real>)

  /** A `DividendEvent`: `amount` per share, `quantity` held now, `total` paid. */
  datatype Event = Event(ticker: string, date: int, amount: real, quantity: real, total: real)

  /** What a transaction adds to its ticker's quantity here: a SELL subtracts,
      every other type (BUY and DIVIDEND alike) adds. */
  function Delta(tx: Tx): real
  {
    if tx.kind == Sell then -tx.qty else tx.qty
  }

  /** The key a transaction counts towards. */
  function UpperTicker(tx: Tx): string
  {
    Upper(tx.ticker)
  }

  function QtyStep(m: OMap<string, real>, tx: Tx): OMap<string, real>
  {
    var t := Upper(tx.ticker);
    m.Put(t, m.Get(t, 0.0) + Delta(tx))
  }

  /** `qtyMap` after the `forEach`, keyed by the uppercased ticker. */
  function Quantities(ledger: seq<Tx>): (r: OMap<string, real>)
    ensures r.Valid()
  {
    if ledger == [] then EmptyMap() else QtyStep(Quantities(ledger[..|ledger| - 1]), ledger[|ledger| - 1])
  }

  lemma QuantitiesPrefix(ledger: seq<Tx>, i: int)
    requires 0 <= i < |ledger|
    ensures Quantities(ledger[..i + 1]) == QtyStep(Quantities(ledger[..i]), ledger[i])
  {
    assert ledger[..i + 1][..i] == ledger[..i];
  }

  /** `QtyStep` is the `forEach` body: a SELL subtracts, anything else adds. */
  lemma QtyStepIs(m: OMap<string, real>, tx: Tx, t: string, next: real)
    requires t == Upper(tx.ticker)
    requires next == if tx.kind == Sell then m.Get(t, 0.0) - tx.qty else m.Get(t, 0.0) + tx.qty
    ensures QtyStep(m, tx) == m.Put(t, next)
  {
  }

  function ContributionTo(t: string, tx: Tx): real
  {
    if Upper(tx.ticker) == t then Delta(tx) else 0.0
  }

  /** Every transaction counts towards its uppercased ticker, and the quantity
      of a ticker is the sum of those contributions. */
  lemma QuantityIsSum(ledger: seq<Tx>, t: string)
    ensures t in Quantities(ledger).m <==> Carries(ledger, UpperTicker, t)
    ensures Quantities(ledger).Get(t, 0.0) == SumOf(ledger, tx => ContributionTo(t, tx))
  {
    QuantityKeys(ledger, t);
    QuantitySum(ledger, t);
  }

  lemma {:induction false} QuantityKeys(ledger: seq<Tx>, t: string)
    ensures t in Quantities(ledger).m <==> Carries(ledger, UpperTicker, t)
  {
    if ledger != [] {
      var prefix, last := ledger[..|ledger| - 1], ledger[|ledger| - 1];
      QuantityKeys(prefix, t);
      CarriesStep(ledger, UpperTicker, t);
      assert Quantities(ledger) == QtyStep(Quantities(prefix), last);
    }
  }

  lemma {:induction false} QuantitySum(ledger: seq<Tx>, t: string)
    ensures Quantities(ledger).Get(t, 0.0) == SumOf(ledger, tx => ContributionTo(t, tx))
  {
    if ledger != [] {
      var prefix, last := ledger[..|ledger| - 1], ledger[|ledger| - 1];
      QuantitySum(prefix, t);
      var f := tx => ContributionTo(t, tx);
      var q := Quantities(prefix);
      assert Quantities(ledger) == QtyStep(q, last);
      assert SumOf(ledger, f) == SumOf(prefix, f) + f(last);
      if Upper(last.ticker) == t {
        assert Quantities(ledger).Get(t, 0.0) == q.Get(t, 0.0) + Delta(last);
      } else {
        assert Quantities(ledger).Get(t, 0.0) == q.Get(t, 0.0);
      }
    }
  }

  predicate IsHeld(e: (string, real)) { e.1 > 0.0 }

  function HeldTicker(e: (string, real)): string { e.0 }

  /** The tickers of `m` with a positive quantity. */
  function PositiveIn(m: map<string, real>): string -> bool
  {
    k => k in m && m[k] > 0.0
  }

  /** `Array.from(qtyMap.entries())`. */
  function Entries(m: OMap<string, real>): (all: seq<(string, real)>)
    requires m.Valid()
    ensures |all| == |m.keys|
    ensures forall i :: 0 <= i < |m.keys| ==> m.keys[i] in m.m && all[i] == (m.keys[i], m.m[m.keys[i]])
    ensures forall k :: k in m.m ==> (k, m.m[k]) in all
  {
    var all := seq(|m.keys|, i requires 0 <= i < |m.keys| => (m.keys[i], m.m[m.keys[i]]));
    assert forall k :: k in m.m ==> (k, m.m[k]) in all by {
      forall k | k in m.m ensures (k, m.m[k]) in all {
        var i :| 0 <= i < |m.keys| && m.keys[i] == k;
        assert all[i] == (k, m.m[k]);
      }
    }
    all
  }

  /** The tickers held now, in map order: `filter(([_, qty]) => qty > 0)`. */
  function Held(m: OMap<string, real>): (r: seq<(string, real)>)
    requires m.Valid()
    ensures forall e :: e in r ==> e.1 > 0.0 && e.0 in m.m && m.m[e.0] == e.1
    ensures forall k :: k in m.m && m.m[k] > 0.0 ==> (k, m.m[k]) in r
    ensures Mapped(r, HeldTicker) == Filter(m.keys, PositiveIn(m.m))
  {
    HeldInKeyOrder(m.keys, m.m, Entries(m));
    Filter(Entries(m), IsHeld)
  }

  /** Filtering the entries keeps their keys in the order of `keys`. */
  lemma {:induction false} HeldInKeyOrder(keys: seq<string>, m: map<string, real>, all: seq<(string, real)>)
    requires |all| == |keys|
    requires forall i :: 0 <= i < |keys| ==> keys[i] in m && all[i] == (keys[i], m[keys[i]])
    ensures Mapped(Filter(all, IsHeld), HeldTicker) == Filter(keys, PositiveIn(m))
  {
    if keys != [] {
      var n := |keys| - 1;
      HeldInKeyOrder(keys[..n], m, all[..n]);
      var tail := if IsHeld(all[n]) then [all[n]] else [];
      MappedAppend(Filter(all[..n], IsHeld), tail, HeldTicker);
      assert all[..|all| - 1] == all[..n];
    }
  }

  /** The symbols tried for a ticker: itself, then with ".SA" unless it already
      ends with ".SA". */
  function Candidates(ticker: string): (r: seq<string>)
    ensures 1 <= |r| <= 2 && r[0] == ticker
    ensures |r| == 2 <==> !EndsWith(ticker, ".SA")
    ensures |r| == 2 ==> r[1] == ticker + ".SA" && EndsWith(r[1], ".SA")
  {
    if EndsWith(ticker, ".SA") then [ticker]
    else
      var s := ticker + ".SA";
      assert s[|s| - 3..] == ".SA";
      [ticker, s]
  }

  predicate PaysDividend(row: HistoryRow)
  {
    row.dividends.Some? && row.dividends.value > 0.0
  }

  /** The event a paying row becomes. */
  function EventOf(ticker: string, qty: real, row: HistoryRow): (e: Event)
    requires PaysDividend(row)
    ensures e.ticker == ticker && e.date == row.date && e.amount == row.dividends.value > 0.0
    ensures e.quantity == qty && e.total == e.amount * qty
  {
    var amountPerShare := row.dividends.value;
    Event(ticker, row.date, amountPerShare, qty, amountPerShare * qty)
  }

  /** The events one history yields for `ticker` held in quantity `qty`: one per
      row with a positive dividend, in row order. */
  function EventsFrom(ticker: string, qty: real, rows: seq<HistoryRow>): (r: seq<Event>)
    ensures |r| <= |rows|
    ensures forall e :: e in r ==> e.ticker == ticker && e.quantity == qty && e.amount > 0.0 && e.total == e.amount * qty
    ensures r == [] <==> forall row :: row in rows ==> !PaysDividend(row)
  {
    if rows == [] then []
    else
      var last := rows[|rows| - 1];
      var earlier := EventsFrom(ticker, qty, rows[..|rows| - 1]);
      assert forall row :: row in rows <==> row in rows[..|rows| - 1] || row == last;
      earlier + (if PaysDividend(last) then [EventOf(ticker, qty, last)] else [])
  }

  lemma EventsFromPrefix(ticker: string, qty: real, rows: seq<HistoryRow>, k: int)
    requires 0 <= k < |rows|
    ensures EventsFrom(ticker, qty, rows[..k + 1]) ==
      EventsFrom(ticker, qty, rows[..k]) + (if PaysDividend(rows[k]) then [EventOf(ticker, qty, rows[k])] else [])
  {
    assert rows[..k + 1][..k] == rows[..k];
  }

  /** The events of the first candidate whose history yields at least one;
      `history(s)` is None when the lookup of `s` throws. */
  function FirstFound(ticker: string, qty: real, candidates: seq<string>, history: string -> Option<seq<HistoryRow>>): seq<Event>
  {
    if candidates == [] then []
    else
      var h := history(candidates[0]);
      if h.Some? && EventsFrom(ticker, qty, h.value) != [] then EventsFrom(ticker, qty, h.value)
      else FirstFound(ticker, qty, candidates[1..], history)
  }

  /** The events for every held ticker, in the order the tickers are visited. */
  function AllEvents(held: seq<(string, real)>, history: string -> Option<seq<HistoryRow>>): seq<Event>
  {
    if held == [] then []
    else
      var (t, q) := held[|held| - 1];
      AllEvents(held[..|held| - 1], history) + FirstFound(t, q, Candidates(t), history)
  }

  function EventDate(e: Event): real { e.date as real }

  /** When the ticker as written yields events, the ".SA" form is never used. */
  lemma PlainSymbolWins(ticker: string, qty: real, history: string -> Option<seq<HistoryRow>>)
    requires history(ticker).Some? && EventsFrom(ticker, qty, history(ticker).value) != []
    ensures FirstFound(ticker, qty, Candidates(ticker), history) == EventsFrom(ticker, qty, history(ticker).value)
  {
  }

  /** A ticker that fails or pays nothing under its own symbol is looked up once
      more with ".SA"; one already ending in ".SA" is not. */
  lemma SuffixedRetry(ticker: string, qty: real, history: string -> Option<seq<HistoryRow>>)
    requires history(ticker).None? || EventsFrom(ticker, qty, history(ticker).value) == []
    ensures EndsWith(ticker, ".SA") ==> FirstFound(ticker, qty, Candidates(ticker), history) == []
    ensures !EndsWith(ticker, ".SA") ==>
      FirstFound(ticker, qty, Candidates(ticker), history) ==
        (var h := history(ticker + ".SA"); if h.Some? then EventsFrom(ticker, qty, h.value) else [])
  {
    var c := Candidates(ticker);
    if !EndsWith(ticker, ".SA") {
      assert c[1..] == [ticker + ".SA"];
      assert c[1..][1..] == [];
      assert FirstFound(ticker, qty, c, history) == FirstFound(ticker, qty, c[1..], history);
      assert FirstFound(ticker, qty, c[1..][1..], history) == [];
    } else {
      assert c[1..] == [];
    }
  }

  lemma {:induction false} FirstFoundEvents(ticker: string, qty: real, candidates: seq<string>, history: string -> Option<seq<HistoryRow>>)
    ensures forall e :: e in FirstFound(ticker, qty, candidates, history) ==>
      e.ticker == ticker && e.quantity == qty && e.amount > 0.0 && e.total == e.amount * qty
  {
    if candidates != [] {
      FirstFoundEvents(ticker, qty, candidates[1..], history);
    }
  }

  /** Every event is for a ticker held now, with the quantity held, a positive
      amount and total = amount × quantity. */
  lemma {:induction false} AllEventsHeld(held: seq<(string, real)>, history: string -> Option<seq<HistoryRow>>)
    ensures forall e :: e in AllEvents(held, history) ==>
      (e.ticker, e.quantity) in held && e.amount > 0.0 && e.total == e.amount * e.quantity
  {
    if held != [] {
      var prefix, last := held[..|held| - 1], held[|held| - 1];
      AllEventsHeld(prefix, history);
      FirstFoundEvents(last.0, last.1, Candidates(last.0), history);
      assert AllEvents(held, history) == AllEvents(prefix, history) + FirstFound(last.0, last.1, Candidates(last.0), history);
      assert forall h :: h in prefix ==> h in held;
      assert last in held;
    }
  }

  /** The rows loop for one symbol: pushes an event per paying row and reports
      whether any was pushed. */
  method PushEvents(ticker: string, qty: real, rows: seq<HistoryRow>, allEvents: seq<Event>)
    returns (events: seq<Event>, found: bool)
    ensures events == allEvents + EventsFrom(ticker, qty, rows)
    ensures found <==> EventsFrom(ticker, qty, rows) != []
  {
    events, found := allEvents, false;
    for k := 0 to |rows|
      invariant events == allEvents + EventsFrom(ticker, qty, rows[..k])
      invariant found <==> EventsFrom(ticker, qty, rows[..k]) != []
    {
      EventsFromPrefix(ticker, qty, rows, k);
      var row := rows[k];
      if row.dividends.Some? && row.dividends.value > 0.0 {
        events := events + [EventOf(ticker, qty, row)];
        found := true;
      }
    }
    assert rows[..|rows|] == rows;
  }

  /** The candidate loop for one held ticker, with its `found` flag and `break`. */
  method SearchTicker(ticker: string, qty: real, history: string -> Option<seq<HistoryRow>>, allEvents: seq<Event>)
    returns (events: seq<Event>)
    ensures events == allEvents + FirstFound(ticker, qty, Candidates(ticker), history)
  {
    var tryTickers := Candidates(ticker);
    events := allEvents;
    var j := 0;
    while j < |tryTickers|
      invariant 0 <= j <= |tryTickers|
      invariant events == allEvents
      invariant FirstFound(ticker, qty, tryTickers, history) == FirstFound(ticker, qty, tryTickers[j..], history)
    {
      var t := tryTickers[j];
      var hist := history(t);
      assert tryTickers[j..][1..] == tryTickers[j + 1..];
      if hist.Some? {
        var found;
        events, found := PushEvents(ticker, qty, hist.value, events);
        if found {
          break;
        }
      }
      j := j + 1;
    }
  }

  /** The `forEach` over the transactions that builds `qtyMap`. */
  method SumQuantities(ledger: seq<Tx>) returns (qtyMap: OMap<string, real>)
    ensures qtyMap == Quantities(ledger)
  {
    qtyMap := EmptyMap();
    for i := 0 to |ledger|
      invariant qtyMap == Quantities(ledger[..i])
    {
      QuantitiesPrefix(ledger, i);
      var tx := ledger[i];
      var t := Upper(tx.ticker);
      var curr := qtyMap.Get(t, 0.0);
      var next := if tx.kind == Sell then curr - tx.qty else curr + tx.qty;
      QtyStepIs(qtyMap, tx, t, next);
      qtyMap := qtyMap.Put(t, next);
    }
    assert ledger[..|ledger|] == ledger;
  }

  /** The loop over the held tickers that gathers `allEvents`. */
  method CollectEvents(tickers: seq<(string, real)>, history: string -> Option<seq<HistoryRow>>)
    returns (allEvents: seq<Event>)
    ensures allEvents == AllEvents(tickers, history)
  {
    allEvents := [];
    for i := 0 to |tickers|
      invariant allEvents == AllEvents(tickers[..i], history)
    {
      assert tickers[..i + 1][..i] == tickers[..i];
      var (ticker, qty) := tickers[i];
      allEvents := SearchTicker(ticker, qty, history, allEvents);
    }
    assert tickers[..|tickers|] == tickers;
  }

  /** `getEstimatedDividends(portfolioId)`. `transactions` is the query result
      (None when null); `history(s)` is the provider's daily history of symbol
      `s` over the last year (an empty list when it returns nothing, None when
      the call throws). */
  method GetEstimatedDividends(transactions: Option<seq<Tx>>, history: string -> Option<seq<HistoryRow>>)
    returns (result: seq<Event>)
    ensures transactions.None? || transactions.value == [] ==> result == []
    ensures transactions.Some? && transactions.value != [] ==>
      var held := Held(Quantities(transactions.value));
      && multiset(result) == multiset(AllEvents(held, history))
      && SortedBy(result, EventDate)
      && result == SortBy(AllEvents(held, history), EventDate)
  {
    if transactions.None? || transactions.value == [] {
      return [];
    }
    var qtyMap := SumQuantities(transactions.value);
    var allEvents := CollectEvents(Held(qtyMap), history);
    result := SortBy(allEvents, EventDate);
  }
}
