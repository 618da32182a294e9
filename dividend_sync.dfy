/** app/api/cron/dividends/route.ts: the scheduled job that stores, for every
    portfolio and ticker, the dividends of the last year the portfolio held
    shares for on the ex-date, skipping those already stored. The provider's
    history, the database reads and the inserts are parameters. */
module DividendSync {
  import opened Common
  import CronAuth
  import EstimatedDividends

  // ------------------------------------------------------------ tickers

  /** `normalizeTicker`: uppercase, then drop the first ".SA". */
  function NormalizeTicker(t: string): (r: string)
    ensures !Contains(Upper(t), ".SA") ==> r == Upper(t)
    ensures Contains(Upper(t), ".SA") ==> |r| == |t| - 3
  {
    ReplaceFirst(Upper(t), ".SA", "")
  }

  /** A ticker written with its ".SA" suffix and the same ticker written without
      it, in any case, normalise to the same symbol, so their transactions share
      a group. */
  lemma SuffixedAndPlainAgree(b: string)
    requires !Contains(Upper(b), ".SA")
    ensures NormalizeTicker(b + ".SA") == NormalizeTicker(b) == Upper(b)
  {
    var u, s, p := Upper(b), Upper(b + ".SA"), ".SA";
    assert s == u + p;
    assert OccursAt(s, p, |u|) by {
      assert s[|u|..|u| + 3] == p;
    }
    forall j | 0 <= j < |u|
      ensures !OccursAt(s, p, j)
    {
      if j + 3 <= |u| {
        assert !OccursAt(u, p, j);
        assert s[j..j + 3] == u[j..j + 3];
      } else if j + 1 == |u| {
        assert s[j..j + 3][1] == s[j + 1] == '.' != p[1];
      } else {
        assert s[j..j + 3][2] == s[j + 2] == '.' != p[2];
      }
    }
    FirstOccurrence(s, p, |u|);
    assert s[..|u|] == u && s[|u| + 3..] == [];
    assert ReplaceFirst(s, p, "") == s[..|u|] + "" + s[|u| + 3..];
  }

  // ------------------------------------------------------------ provider

  /** A dividend as `fetchDividends` reports it. */
  datatype DividendEvt = DividendEvt(date: int, amount: real)

  /** The rows with a positive dividend, in row order, as events. */
  function EvtsOf(rows: seq<EstimatedDividends.HistoryRow>): (r: seq<DividendEvt>)
    ensures |r| <= |rows|
    ensures forall e :: e in r ==> e.amount > 0.0
    ensures r == [] <==> forall row :: row in rows ==> !EstimatedDividends.PaysDividend(row)
  {
    if rows == [] then []
    else
      var last := rows[|rows| - 1];
      assert forall row :: row in rows <==> row in rows[..|rows| - 1] || row == last;
      EvtsOf(rows[..|rows| - 1]) +
        (if EstimatedDividends.PaysDividend(last) then [DividendEvt(last.date, last.dividends.value)] else [])
  }

  /** `[ticker, ticker.endsWith('.SA') ? ticker : ticker + '.SA']`: always two
      lookups, of the same symbol twice when it already ends with ".SA". */
  function FetchCandidates(ticker: string): (r: seq<string>)
    ensures |r| == 2 && r[0] == ticker && EndsWith(r[1], ".SA")
    ensures EndsWith(ticker, ".SA") ==> r[1] == ticker
    ensures !EndsWith(ticker, ".SA") ==> r[1] == ticker + ".SA"
  {
    if EndsWith(ticker, ".SA") then [ticker, ticker]
    else
      var s := ticker + ".SA";
      assert s[|s| - 3..] == ".SA";
      [ticker, s]
  }

  /** The events of the first candidate whose history yields any; `history(s)` is
      None when the lookup of `s` throws, and an empty list when it returns null. */
  function FirstYield(candidates: seq<string>, history: string -> Option<seq<EstimatedDividends.HistoryRow>>): seq<DividendEvt>
  {
    if candidates == [] then []
    else
      var h := history(candidates[0]);
      if h.Some? && EvtsOf(h.value) != [] then EvtsOf(h.value) else FirstYield(candidates[1..], history)
  }

  /** Nothing is found exactly when no candidate's history yields an event;
      otherwise the result is the events of the first candidate that does. */
  lemma {:induction false} FirstYieldSpec(candidates: seq<string>, history: string -> Option<seq<EstimatedDividends.HistoryRow>>)
    ensures var r := FirstYield(candidates, history);
      r == [] <==> forall i :: 0 <= i < |candidates| && history(candidates[i]).Some? ==> EvtsOf(history(candidates[i]).value) == []
    ensures var r := FirstYield(candidates, history);
      r != [] ==> exists i :: 0 <= i < |candidates| && history(candidates[i]).Some? && r == EvtsOf(history(candidates[i]).value)
  {
    if candidates != [] {
      var rest := candidates[1..];
      FirstYieldSpec(rest, history);
      forall i | 0 < i < |candidates|
        ensures candidates[i] == rest[i - 1]
      {
      }
      var h := history(candidates[0]);
      if !(h.Some? && EvtsOf(h.value) != []) && FirstYield(candidates, history) != [] {
        var i :| 0 <= i < |rest| && history(rest[i]).Some? && FirstYield(candidates, history) == EvtsOf(history(rest[i]).value);
        assert rest[i] == candidates[i + 1];
      }
    }
  }

  /** `fetchDividends(ticker)`: the candidate loop with its early return. */
  method FetchDividends(ticker: string, history: string -> Option<seq<EstimatedDividends.HistoryRow>>)
    returns (evts: seq<DividendEvt>)
    ensures evts == FirstYield(FetchCandidates(ticker), history)
  {
    var candidates := FetchCandidates(ticker);
    var i := 0;
    while i < |candidates|
      invariant 0 <= i <= |candidates|
      invariant FirstYield(candidates, history) == FirstYield(candidates[i..], history)
    {
      var hist := history(candidates[i]);
      assert candidates[i..][1..] == candidates[i + 1..];
      if hist.Some? {
        var found := EvtsOf(hist.value);
        if |found| > 0 {
          return found;
        }
      }
      i := i + 1;
    }
    return [];
  }

  // ------------------------------------------------------------ grouping

  /** `${portfolio_id}:${normalizeTicker(ticker)}`, kept as a pair. */
  type Key = (string, string)

  function KeyOf(tx: Tx): Key
  {
    (tx.portfolio, NormalizeTicker(tx.ticker))
  }

  /** The copy pushed into a group: the ticker normalised, the rest unchanged. */
  function Normalized(tx: Tx): (r: Tx)
    ensures r.ticker == NormalizeTicker(tx.ticker)
    ensures r.portfolio == tx.portfolio && r.kind == tx.kind && r.date == tx.date && r.qty == tx.qty
  {
    tx.(ticker := NormalizeTicker(tx.ticker))
  }

  function GroupStep(g: OMap<Key, seq<Tx>>, tx: Tx): OMap<Key, seq<Tx>>
  {
    var k := KeyOf(tx);
    g.Put(k, g.Get(k, []) + [Normalized(tx)])
  }

  /** The `grouped` Map after the `forEach`. */
  function Grouped(txs: seq<Tx>): (r: OMap<Key, seq<Tx>>)
    ensures r.Valid()
  {
    if txs == [] then EmptyMap() else GroupStep(Grouped(txs[..|txs| - 1]), txs[|txs| - 1])
  }

  /** The normalised transactions whose key is `k`, in input order. */
  function GroupOf(txs: seq<Tx>, k: Key): (r: seq<Tx>)
    ensures |r| <= |txs|
    ensures forall x :: x in r ==> x.portfolio == k.0 && x.ticker == k.1
  {
    if txs == [] then []
    else
      var last := txs[|txs| - 1];
      GroupOf(txs[..|txs| - 1], k) + (if KeyOf(last) == k then [Normalized(last)] else [])
  }

  /** A key has a group exactly when some transaction carries it. */
  lemma {:induction false} GroupedKeys(txs: seq<Tx>, k: Key)
    ensures k in Grouped(txs).m <==> Carries(txs, KeyOf, k)
  {
    if txs != [] {
      var prefix, last := txs[..|txs| - 1], txs[|txs| - 1];
      GroupedKeys(prefix, k);
      CarriesStep(txs, KeyOf, k);
      assert Grouped(txs) == GroupStep(Grouped(prefix), last);
    }
  }

  /** The group of a key holds exactly its transactions, normalised, in input
      order. */
  lemma {:induction false} GroupedHoldsGroupOf(txs: seq<Tx>, k: Key)
    ensures Grouped(txs).Get(k, []) == GroupOf(txs, k)
  {
    if txs != [] {
      GroupedHoldsGroupOf(txs[..|txs| - 1], k);
    }
  }

  function GroupSize(g: OMap<Key, seq<Tx>>, k: Key): real
  {
    |g.Get(k, [])| as real
  }

  /** Σ over the groups of their sizes. */
  function TotalSize(g: OMap<Key, seq<Tx>>): real
  {
    SumOf(g.keys, k => GroupSize(g, k))
  }

  /** Every transaction lands in exactly one group: the group sizes add up to the
      number of transactions. */
  lemma {:induction false} GroupsPartition(txs: seq<Tx>)
    ensures TotalSize(Grouped(txs)) == |txs| as real
  {
    if txs != [] {
      var prefix, last := txs[..|txs| - 1], txs[|txs| - 1];
      GroupsPartition(prefix);
      var before, after := Grouped(prefix), Grouped(txs);
      var k := KeyOf(last);
      assert after == GroupStep(before, last);
      var f, g := (x: Key) => GroupSize(before, x), (x: Key) => GroupSize(after, x);
      assert g(k) == f(k) + 1.0;
      if k in before.m {
        SumOfUpdate(before.keys, f, g, k);
      } else {
        SumOfUpdate(before.keys, f, g, k);
        SumOfAppend(before.keys, [k], g);
        assert SumOf([k], g) == g(k) by {
          assert [k][..0] == [];
        }
      }
    }
  }

  /** The `forEach` that fills `grouped`. */
  method GroupTransactions(txs: seq<Tx>) returns (grouped: OMap<Key, seq<Tx>>)
    ensures grouped == Grouped(txs)
  {
    grouped := EmptyMap();
    for i := 0 to |txs|
      invariant grouped == Grouped(txs[..i])
    {
      assert txs[..i + 1][..i] == txs[..i];
      var tx := txs[i];
      var key := KeyOf(tx);
      var arr := grouped.Get(key, []);
      arr := arr + [Normalized(tx)];
      grouped := grouped.Put(key, arr);
    }
    assert txs[..|txs|] == txs;
  }

  // ------------------------------------------------------------ holdings

  /** What `tx` adds to the quantity held on `day`: nothing when it is later,
      otherwise −qty for a SELL and +qty for BUY and DIVIDEND alike. */
  function ContributionAt(day: int, tx: Tx): real
  {
    if tx.date <= day then EstimatedDividends.Delta(tx) else 0.0
  }

  /** `qtyAtDate`: the quantity held at the end of `day`. */
  function QtyAt(list: seq<Tx>, day: int): real
  {
    SumOf(list, tx => ContributionAt(day, tx))
  }

  /** The loop that accumulates `qtyAtDate`. */
  method QtyAtDate(list: seq<Tx>, day: int) returns (qtyAtDate: real)
    ensures qtyAtDate == QtyAt(list, day)
  {
    qtyAtDate := 0.0;
    for i := 0 to |list|
      invariant qtyAtDate == SumOf(list[..i], tx => ContributionAt(day, tx))
    {
      SumOfPrefix(list, i, tx => ContributionAt(day, tx));
      var tx := list[i];
      if tx.date <= day {
        qtyAtDate := qtyAtDate + (if tx.kind == Sell then -tx.qty else tx.qty);
      }
    }
    assert list[..|list|] == list;
  }

  /** The held quantity does not depend on the order of the group, so sorting it
      by date first changes nothing. */
  lemma QtyAtIgnoresOrder(a: seq<Tx>, b: seq<Tx>, day: int)
    requires multiset(a) == multiset(b)
    ensures QtyAt(a, day) == QtyAt(b, day)
  {
    SumOfPermutation(a, b, tx => ContributionAt(day, tx));
  }

  /** On or after the last transaction of the group, the quantity is the plain
      net quantity `getEstimatedDividends` uses (SELL subtracts, the rest adds). */
  lemma QtyAtAfterLastTrade(list: seq<Tx>, day: int)
    requires forall tx :: tx in list ==> tx.date <= day
    ensures QtyAt(list, day) == SumOf(list, EstimatedDividends.Delta)
  {
    SumOfCongruent(list, tx => ContributionAt(day, tx), EstimatedDividends.Delta);
  }

  function TxDate(tx: Tx): real { tx.date as real }

  // ------------------------------------------------------------ storing

  /** The row inserted into the dividends table (`payment_date` is always null). */
  datatype DividendRow = DividendRow(portfolio: string, ticker: string, exDate: int, amount: real, quantity: real, total: real)

  /** The row for dividend `div` on a holding of `qty`: total = amount × qty. */
  function RowFor(portfolio: string, ticker: string, div: DividendEvt, qty: real): (row: DividendRow)
    ensures row.exDate == div.date && row.amount == div.amount && row.quantity == qty
    ensures row.total == row.amount * row.quantity
  {
    DividendRow(portfolio, ticker, div.date, div.amount, qty, div.amount * qty)
  }

  /** The fate of one fetched dividend: stored as the returned row, or skipped
      (None). `existing` holds the (ex_date, amount) pairs already stored;
      `insertOk(row)` is whether the insert succeeds. */
  function Decide(portfolio: string, ticker: string, list: seq<Tx>, div: DividendEvt,
                  existing: set<(int, real)>, insertOk: DividendRow -> bool): (r: Option<DividendRow>)
    ensures var q := QtyAt(list, div.date);
      && (r.Some? <==> q > 0.0 && (div.date, div.amount) !in existing && insertOk(RowFor(portfolio, ticker, div, q)))
      && (r.Some? ==> r.value == RowFor(portfolio, ticker, div, q))
  {
    var qtyAtDate := QtyAt(list, div.date);
    if qtyAtDate <= 0.0 then None
    else if (div.date, div.amount) in existing then None
    else
      var row := RowFor(portfolio, ticker, div, qtyAtDate);
      if insertOk(row) then Some(row) else None
  }

  /** The rows stored for one group, in event order. */
  function Stored(portfolio: string, ticker: string, list: seq<Tx>, divs: seq<DividendEvt>,
                  existing: set<(int, real)>, insertOk: DividendRow -> bool): (r: seq<DividendRow>)
    ensures |r| <= |divs|
  {
    if divs == [] then []
    else
      var d := Decide(portfolio, ticker, list, divs[|divs| - 1], existing, insertOk);
      Stored(portfolio, ticker, list, divs[..|divs| - 1], existing, insertOk) + (if d.Some? then [d.value] else [])
  }

  /** Every stored row is for a positive holding on its ex-date, with total =
      amount × quantity, and its (ex_date, amount) pair was not stored before. */
  lemma {:induction false} StoredRowsSound(portfolio: string, ticker: string, list: seq<Tx>, divs: seq<DividendEvt>,
                                           existing: set<(int, real)>, insertOk: DividendRow -> bool)
    ensures forall row :: row in Stored(portfolio, ticker, list, divs, existing, insertOk) ==>
      && row.portfolio == portfolio && row.ticker == ticker
      && row.quantity == QtyAt(list, row.exDate) > 0.0
      && row.total == row.amount * row.quantity
      && (row.exDate, row.amount) !in existing
      && DividendEvt(row.exDate, row.amount) in divs
  {
    if divs != [] {
      var prefix := divs[..|divs| - 1];
      StoredRowsSound(portfolio, ticker, list, prefix, existing, insertOk);
      assert forall e :: e in prefix ==> e in divs;
      assert divs[|divs| - 1] in divs;
    }
  }

  /** Sorting the group by date before the loop stores the same rows. */
  lemma {:induction false} StoredIgnoresOrder(portfolio: string, ticker: string, a: seq<Tx>, b: seq<Tx>, divs: seq<DividendEvt>,
                                              existing: set<(int, real)>, insertOk: DividendRow -> bool)
    requires multiset(a) == multiset(b)
    ensures Stored(portfolio, ticker, a, divs, existing, insertOk) == Stored(portfolio, ticker, b, divs, existing, insertOk)
  {
    if divs != [] {
      var d := divs[|divs| - 1];
      StoredIgnoresOrder(portfolio, ticker, a, b, divs[..|divs| - 1], existing, insertOk);
      QtyAtIgnoresOrder(a, b, d.date);
      assert Decide(portfolio, ticker, a, d, existing, insertOk) == Decide(portfolio, ticker, b, d, existing, insertOk);
    }
  }

  /** The set of stored pairs is read once, before the loop, and inserts do not
      add to it: a dividend reported twice in one history is stored twice. */
  lemma RepeatedEventStoredTwice(portfolio: string, ticker: string, list: seq<Tx>, div: DividendEvt,
                                 existing: set<(int, real)>, insertOk: DividendRow -> bool)
    requires QtyAt(list, div.date) > 0.0 && (div.date, div.amount) !in existing
    requires insertOk(RowFor(portfolio, ticker, div, QtyAt(list, div.date)))
    ensures Stored(portfolio, ticker, list, [div, div], existing, insertOk) ==
      [RowFor(portfolio, ticker, div, QtyAt(list, div.date)), RowFor(portfolio, ticker, div, QtyAt(list, div.date))]
  {
    var row := RowFor(portfolio, ticker, div, QtyAt(list, div.date));
    assert Decide(portfolio, ticker, list, div, existing, insertOk) == Some(row);
    assert [div, div][..1] == [div];
    assert [div][..0] == [];
    assert Stored(portfolio, ticker, list, [div], existing, insertOk) == [row];
  }

  /** The loop over one group's dividends with its two counters; `existingRows`
      is what the query for stored (ex_date, amount) pairs returned (null: []). */
  method ProcessGroup(portfolio: string, ticker: string, list: seq<Tx>, dividends: seq<DividendEvt>,
                      existingRows: seq<(int, real)>, insertOk: DividendRow -> bool)
    returns (inserted: nat, skipped: nat, stored: seq<DividendRow>)
    ensures stored == Stored(portfolio, ticker, list, dividends, (set e | e in existingRows), insertOk)
    ensures inserted == |stored|
    ensures inserted + skipped == |dividends|
  {
    var existsSet := set e | e in existingRows;
    inserted, skipped, stored := 0, 0, [];
    for i := 0 to |dividends|
      invariant stored == Stored(portfolio, ticker, list, dividends[..i], existsSet, insertOk)
      invariant inserted == |stored|
      invariant inserted + skipped == i
    {
      assert dividends[..i + 1][..i] == dividends[..i];
      var div := dividends[i];
      var qtyAtDate := QtyAtDate(list, div.date);
      if qtyAtDate <= 0.0 {
        skipped := skipped + 1;
        continue;
      }
      if (div.date, div.amount) in existsSet {
        skipped := skipped + 1;
        continue;
      }
      var row := RowFor(portfolio, ticker, div, qtyAtDate);
      if !insertOk(row) {
        skipped := skipped + 1;
      } else {
        stored := stored + [row];
        inserted := inserted + 1;
      }
    }
    assert dividends[..|dividends|] == dividends;
  }

  // ------------------------------------------------------------ the job

  /** The rows the job stores over the groups `keys`; `existingFor(k)` is the
      stored pairs the query returns for key `k`. */
  function JobStored(keys: seq<Key>, g: OMap<Key, seq<Tx>>, history: string -> Option<seq<EstimatedDividends.HistoryRow>>,
                     existingFor: Key -> seq<(int, real)>, insertOk: DividendRow -> bool): seq<DividendRow>
  {
    if keys == [] then []
    else
      var k := keys[|keys| - 1];
      var divs := FirstYield(FetchCandidates(k.1), history);
      var earlier := JobStored(keys[..|keys| - 1], g, history, existingFor, insertOk);
      if divs == [] then earlier
      else earlier + Stored(k.0, k.1, SortBy(g.Get(k, []), TxDate), divs, (set e | e in existingFor(k)), insertOk)
  }

  /** The number of dividends the job examines over the groups `keys`. */
  function JobEvents(keys: seq<Key>, history: string -> Option<seq<EstimatedDividends.HistoryRow>>): nat
  {
    if keys == [] then 0
    else JobEvents(keys[..|keys| - 1], history) + |FirstYield(FetchCandidates(keys[|keys| - 1].1), history)|
  }

  /** Every row the job stores satisfies the storing rule of its own group. */
  lemma {:induction false} JobRowsSound(keys: seq<Key>, g: OMap<Key, seq<Tx>>, history: string -> Option<seq<EstimatedDividends.HistoryRow>>,
                                        existingFor: Key -> seq<(int, real)>, insertOk: DividendRow -> bool)
    ensures forall row :: row in JobStored(keys, g, history, existingFor, insertOk) ==>
      var k := (row.portfolio, row.ticker);
      && k in keys
      && row.quantity == QtyAt(g.Get(k, []), row.exDate) > 0.0
      && row.total == row.amount * row.quantity
      && (row.exDate, row.amount) !in existingFor(k)
  {
    if keys != [] {
      var prefix, k := keys[..|keys| - 1], keys[|keys| - 1];
      JobRowsSound(prefix, g, history, existingFor, insertOk);
      var divs := FirstYield(FetchCandidates(k.1), history);
      var list := g.Get(k, []);
      var sorted := SortBy(list, TxDate);
      StoredRowsSound(k.0, k.1, sorted, divs, (set e | e in existingFor(k)), insertOk);
      forall row | row in JobStored(keys, g, history, existingFor, insertOk)
        ensures var k' := (row.portfolio, row.ticker);
          && k' in keys
          && row.quantity == QtyAt(g.Get(k', []), row.exDate) > 0.0
          && row.total == row.amount * row.quantity
          && (row.exDate, row.amount) !in existingFor(k')
      {
        if row in JobStored(prefix, g, history, existingFor, insertOk) {
          assert (row.portfolio, row.ticker) in prefix;
        } else {
          assert (row.portfolio, row.ticker) == k;
          QtyAtIgnoresOrder(sorted, list, row.exDate);
        }
      }
    }
  }

  /** The `for … of grouped.entries()` loop. */
  method SyncGroups(g: OMap<Key, seq<Tx>>, history: string -> Option<seq<EstimatedDividends.HistoryRow>>,
                    existingFor: Key -> seq<(int, real)>, insertOk: DividendRow -> bool)
    returns (inserted: nat, skipped: nat, stored: seq<DividendRow>)
    ensures stored == JobStored(g.keys, g, history, existingFor, insertOk)
    ensures inserted == |stored|
    ensures inserted + skipped == JobEvents(g.keys, history)
  {
    inserted, skipped, stored := 0, 0, [];
    var keys := g.keys;
    for i := 0 to |keys|
      invariant stored == JobStored(keys[..i], g, history, existingFor, insertOk)
      invariant inserted == |stored|
      invariant inserted + skipped == JobEvents(keys[..i], history)
    {
      assert keys[..i + 1][..i] == keys[..i];
      var key := keys[i];
      var (portfolio, ticker) := key;
      var dividends := FetchDividends(ticker, history);
      if |dividends| == 0 {
        continue;
      }
      var list := SortBy(g.Get(key, []), TxDate);
      var ins, sk, rows := ProcessGroup(portfolio, ticker, list, dividends, existingFor(key), insertOk);
      inserted, skipped, stored := inserted + ins, skipped + sk, stored + rows;
    }
    assert keys[..|keys|] == keys;
  }

  datatype Response = Unauthorized | ServerError | Synced(inserted: nat, skipped: nat)

  /** `GET`. `txs` is the transactions query; `stored` lists the rows inserted. */
  method Get(authHeader: Option<string>, secretParam: Option<string>, cronSecret: Option<string>,
             serviceKeySet: bool, txs: DbResult<seq<Tx>>,
             history: string -> Option<seq<EstimatedDividends.HistoryRow>>,
             existingFor: Key -> seq<(int, real)>, insertOk: DividendRow -> bool)
    returns (resp: Response, stored: seq<DividendRow>)
    ensures !CronAuth.Authorized(authHeader, secretParam, cronSecret) ==> resp == Unauthorized && stored == []
    ensures CronAuth.Authorized(authHeader, secretParam, cronSecret) && (!serviceKeySet || txs.DbError? || txs.data.None?) ==>
      resp == ServerError && stored == []
    ensures resp.Synced? <==>
      CronAuth.Authorized(authHeader, secretParam, cronSecret) && serviceKeySet && txs.DbOk? && txs.data.Some?
    ensures resp.Synced? && txs.DbOk? && txs.data.Some? ==>
      var g := Grouped(txs.data.value);
      && stored == JobStored(g.keys, g, history, existingFor, insertOk)
      && resp.inserted == |stored|
      && resp.inserted + resp.skipped == JobEvents(g.keys, history)
  {
    stored := [];
    if !CronAuth.Authorized(authHeader, secretParam, cronSecret) {
      return Unauthorized, stored;
    }
    if !serviceKeySet || txs.DbError? || txs.data.None? {
      return ServerError, stored;
    }
    var grouped := GroupTransactions(txs.data.value);
    var inserted, skipped;
    inserted, skipped, stored := SyncGroups(grouped, history, existingFor, insertOk);
    resp := Synced(inserted, skipped);
  }
}
