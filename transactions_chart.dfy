/** components/dashboard/transactions/TransactionsChart.tsx: bought and sold
    amounts per calendar month, oldest month first. */
module TransactionsChart {
  import opened Common

  /** The month of a transaction, the pair behind the key `${month}/${year}`. */
  function KeyOf(t: ChartTx): (int, int)
  {
    (t.year, t.month)
  }

  /** The key `${getMonth() + 1}/${getFullYear()}`, not zero-padded; it is
      also the bar's label. */
  function Label(t: ChartTx): string
  {
    NatToString(t.month + 1) + "/" + NatToString(t.year)
  }

  /** Different months never share a key, so the pair is a faithful stand-in
      for the string. */
  lemma LabelsTellMonthsApart(t: ChartTx, u: ChartTx)
    ensures Label(t) == Label(u) <==> KeyOf(t) == KeyOf(u)
  {
    JoinedNumbersDetermine(t.month + 1, t.year, u.month + 1, u.year, '/');
  }

  /** One bar: `{ date, buy, sell, sortDate }`; None stands for NaN. */
  datatype Bar = Bar(date: string, buy: Option<real>, sell: Option<real>, sortDate: int)

  /** The bar the first transaction of a month opens. */
  function Fresh(t: ChartTx): Bar
  {
    Bar(Label(t), Some(0.0), Some(0.0), t.stamp)
  }

  /** What a transaction adds to `buy`: its total for a BUY, else nothing. */
  function BuyPart(t: ChartTx): Option<real>
  {
    if t.kind == Buy then t.total else Some(0.0)
  }

  /** What a transaction adds to `sell`: minus its total for a SELL, else
      nothing. */
  function SellPart(t: ChartTx): Option<real>
  {
    if t.kind != Sell then Some(0.0)
    else if t.total.Some? then Some(-t.total.value)
    else None
  }

  /** One step of the `reduce`. */
  function BarStep(acc: OMap<(int, int), Bar>, t: ChartTx): OMap<(int, int), Bar>
  {
    var b := if KeyOf(t) in acc.m then acc.m[KeyOf(t)] else Fresh(t);
    var b' := if t.kind == Buy then b.(buy := AddNum(b.buy, t.total))
              else if t.kind == Sell then b.(sell := AddNum(b.sell, SellPart(t)))
              else b;
    acc.Put(KeyOf(t), b')
  }

  /** The `grouped` accumulator after all of `txs`. */
  function Bars(txs: seq<ChartTx>): (r: OMap<(int, int), Bar>)
    ensures r.Valid()
  {
    if txs == [] then EmptyMap() else BarStep(Bars(txs[..|txs| - 1]), txs[|txs| - 1])
  }

  /** `Object.values(grouped)`: the bars in insertion order. */
  function Values(acc: OMap<(int, int), Bar>): seq<Bar>
  {
    Mapped(acc.keys, (k: (int, int)) => acc.Get(k, Bar("", None, None, 0)))
  }

  function SortDate(b: Bar): real
  {
    b.sortDate as real
  }

  /** The bars come one per distinct month, in order of first appearance. */
  lemma {:induction false} BarKeys(txs: seq<ChartTx>)
    ensures Bars(txs).keys == Dedup(Mapped(txs, KeyOf))
  {
    if txs != [] {
      BarKeys(txs[..|txs| - 1]);
      DedupMappedStep(txs, KeyOf);
    }
  }

  /** The accumulators the bars are made of list the same months. */
  lemma SameMonths(txs: seq<ChartTx>)
    ensures Bars(txs).keys == FirstOf(txs, KeyOf, Fresh).keys
    ensures Bars(txs).keys == GroupNums(txs, KeyOf, BuyPart).keys == GroupNums(txs, KeyOf, SellPart).keys
  {
    BarKeys(txs);
    FirstOfKeys(txs, KeyOf, Fresh);
    GroupNumsKeys(txs, KeyOf, BuyPart);
    GroupNumsKeys(txs, KeyOf, SellPart);
  }

  /** `x + 0` is `x`, NaN included. */
  lemma AddZero(x: Option<real>)
    ensures AddNum(x, Some(0.0)) == x
  {
  }

  /** Each bar is its month's first transaction's bar, with the month's BUY
      totals summed into `buy` and its SELL totals subtracted into `sell`. */
  lemma {:induction false} BarAt(txs: seq<ChartTx>, k: (int, int))
    requires k in Bars(txs).m
    ensures k in FirstOf(txs, KeyOf, Fresh).m
    ensures Bars(txs).m[k] == FirstOf(txs, KeyOf, Fresh).m[k].(buy := GroupNums(txs, KeyOf, BuyPart).Get(k, Some(0.0)),
                                                              sell := GroupNums(txs, KeyOf, SellPart).Get(k, Some(0.0)))
  {
    var p, t := txs[..|txs| - 1], txs[|txs| - 1];
    var acc, first := Bars(p), FirstOf(p, KeyOf, Fresh);
    var buys, sells := GroupNums(p, KeyOf, BuyPart), GroupNums(p, KeyOf, SellPart);
    SameMonths(p);
    assert Bars(txs) == BarStep(acc, t);
    FirstOfLast(txs, KeyOf, Fresh, k);
    GroupNumsLast(txs, KeyOf, BuyPart, k);
    GroupNumsLast(txs, KeyOf, SellPart, k);
    if KeyOf(t) != k {
      BarAt(p, k);
    } else if k in acc.m {
      BarAt(p, k);
      AddAfter(acc.m[k], t);
    } else {
      assert k !in first.m && k !in buys.m && k !in sells.m;
      AddAfter(Fresh(t), t);
    }
  }

  /** What one transaction adds to its month's bar, component by component. */
  lemma AddAfter(b: Bar, t: ChartTx)
    ensures var b' := if t.kind == Buy then b.(buy := AddNum(b.buy, t.total))
                      else if t.kind == Sell then b.(sell := AddNum(b.sell, SellPart(t)))
                      else b;
      b' == b.(buy := AddNum(b.buy, BuyPart(t)), sell := AddNum(b.sell, SellPart(t)))
  {
    AddZero(b.buy);
    AddZero(b.sell);
  }

  /** What a bar holds: its label and `sortDate` come from the first
      transaction of its month; `buy` is NaN if a BUY of the month is, else the
      sum of the month's BUY totals; `sell` likewise with minus the SELL
      totals. DIVIDEND rows open a bar but add nothing. */
  lemma {:induction false} BarContents(txs: seq<ChartTx>, k: (int, int))
    requires k in Bars(txs).m
    ensures exists i :: 0 <= i < |txs| && KeyOf(txs[i]) == k
                        && Bars(txs).m[k].date == Label(txs[i])
                        && Bars(txs).m[k].sortDate == txs[i].stamp
                        && forall j :: 0 <= j < i ==> KeyOf(txs[j]) != k
    ensures Bars(txs).m[k].buy
         == if HasNaN(txs, KeyOf, BuyPart, k) then None
            else Some(SumOf(txs, x => ShareOf(k, x, KeyOf, Zeroed(BuyPart))))
    ensures Bars(txs).m[k].sell
         == if HasNaN(txs, KeyOf, SellPart, k) then None
            else Some(SumOf(txs, x => ShareOf(k, x, KeyOf, Zeroed(SellPart))))
  {
    BarAt(txs, k);
    FirstOfSpec(txs, KeyOf, Fresh, k);
    GroupNumsSpec(txs, KeyOf, BuyPart, k);
    GroupSumsSpec(txs, KeyOf, Zeroed(BuyPart), k);
    GroupNumsSpec(txs, KeyOf, SellPart, k);
    GroupSumsSpec(txs, KeyOf, Zeroed(SellPart), k);
  }

  /** With non-negative totals every bar has `buy >= 0 >= sell`. */
  lemma {:induction false} BuysUpSellsDown(txs: seq<ChartTx>, k: (int, int))
    requires forall i :: 0 <= i < |txs| ==> txs[i].total.Some? && txs[i].total.value >= 0.0
    requires k in Bars(txs).m
    ensures Bars(txs).m[k].buy.Some? && Bars(txs).m[k].buy.value >= 0.0
    ensures Bars(txs).m[k].sell.Some? && Bars(txs).m[k].sell.value <= 0.0
  {
    BarContents(txs, k);
    SumOfNonNegative(txs, x => ShareOf(k, x, KeyOf, Zeroed(BuyPart)));
    SumOfNonPositive(txs, x => ShareOf(k, x, KeyOf, Zeroed(SellPart)));
  }

  /** The `useMemo` body: the `reduce` into `grouped`, then the bars sorted by
      `sortDate`, oldest first (a stable sort). */
  method Chart(transactions: seq<ChartTx>) returns (data: seq<Bar>)
    ensures transactions == [] ==> data == []
    ensures multiset(data) == multiset(Values(Bars(transactions)))
    ensures forall i, j :: 0 <= i < j < |data| ==> data[i].sortDate <= data[j].sortDate
  {
    if |transactions| == 0 {
      return [];
    }
    var grouped: OMap<(int, int), Bar> := EmptyMap();
    for i := 0 to |transactions|
      invariant grouped == Bars(transactions[..i])
    {
      assert transactions[..i + 1][..i] == transactions[..i];
      var tx := transactions[i];
      assert Bars(transactions[..i + 1]) == BarStep(grouped, tx);
      ghost var before := grouped;
      var key: (int, int) := (tx.year, tx.month);
      if key !in grouped.m {
        grouped := grouped.Put(key, Fresh(tx));
      }
      ghost var made := grouped;
      var b := grouped.m[key];
      if tx.kind == Buy {
        grouped := grouped.Put(key, b.(buy := AddNum(b.buy, tx.total)));
      } else if tx.kind == Sell {
        grouped := grouped.Put(key, b.(sell := AddNum(b.sell, SellPart(tx))));
      } else {
        made.PutSame(key);
      }
      if key !in before.m {
        before.PutPut(key, Fresh(tx), grouped.m[key]);
      } else {
        assert made == before;
      }
      assert grouped == BarStep(before, tx);
    }
    assert transactions[..|transactions|] == transactions;
    data := SortBy(Values(grouped), SortDate);
    forall i, j | 0 <= i < j < |data| ensures data[i].sortDate <= data[j].sortDate {
      assert SortDate(data[i]) <= SortDate(data[j]);
    }
  }
}
