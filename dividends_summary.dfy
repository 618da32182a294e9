/** components/dashboard/dividends/DividendsSummary.tsx: the total received and
    one bar per calendar month, oldest month first. */
module DividendsSummary {
  import opened Common

  /** The month of a transaction: the pair behind the key `YYYY-MM`. */
  function KeyOf(t: ChartTx): (int, int)
  {
    (t.year, t.month)
  }

  /** `Number(t.total)`, None when it is NaN. */
  function Amount(t: ChartTx): Option<real>
  {
    t.total
  }

  /** The bar label `MM/YYYY`. */
  function Label(t: ChartTx): string
  {
    MonthYear(t.year, t.month)
  }

  /** Two transactions get the same label exactly when they fall in the same
      month, so the labels, like the keys `YYYY-MM`, name the buckets
      unambiguously. */
  lemma LabelsTellMonthsApart(t: ChartTx, u: ChartTx)
    ensures Label(t) == Label(u) <==> KeyOf(t) == KeyOf(u)
  {
    MonthYearInjective(t.year, t.month, u.year, u.month);
  }

  /** One bar: `{ date: label, value, rawDate }`. */
  datatype Bucket = Bucket(date: string, value: Option<real>, rawDate: int)

  /** The bucket a month's first transaction opens. */
  function Fresh(t: ChartTx): Bucket
  {
    Bucket(Label(t), Some(0.0), t.stamp)
  }

  /** One step of the grouping `reduce`. */
  function BucketStep(acc: OMap<(int, int), Bucket>, t: ChartTx): OMap<(int, int), Bucket>
  {
    var b := if KeyOf(t) in acc.m then acc.m[KeyOf(t)] else Fresh(t);
    acc.Put(KeyOf(t), b.(value := AddNum(b.value, Amount(t))))
  }

  /** The `grouped` accumulator after all of `txs`. */
  function Buckets(txs: seq<ChartTx>): (r: OMap<(int, int), Bucket>)
    ensures r.Valid()
  {
    if txs == [] then EmptyMap() else BucketStep(Buckets(txs[..|txs| - 1]), txs[|txs| - 1])
  }

  /** `Object.values(grouped)`: the buckets in insertion order. */
  function Values(acc: OMap<(int, int), Bucket>): seq<Bucket>
  {
    Mapped(acc.keys, (k: (int, int)) => acc.Get(k, Bucket("", None, 0)))
  }

  function RawDate(b: Bucket): real
  {
    b.rawDate as real
  }

  /** The `reduce` for the total: `Number(t.total) || 0` summed. */
  function Total(txs: seq<ChartTx>): real
  {
    SumOf(txs, Zeroed(Amount))
  }

  /** The three accumulators list the same months. */
  lemma SameMonths(txs: seq<ChartTx>)
    ensures Buckets(txs).keys == FirstOf(txs, KeyOf, Fresh).keys == GroupNums(txs, KeyOf, Amount).keys
  {
    BucketKeys(txs);
    FirstOfKeys(txs, KeyOf, Fresh);
    GroupNumsKeys(txs, KeyOf, Amount);
  }

  /** Each bucket is its month's first transaction's bucket with the month's
      sum as value. */
  lemma {:induction false} BucketAt(txs: seq<ChartTx>, k: (int, int))
    requires k in Buckets(txs).m
    ensures k in FirstOf(txs, KeyOf, Fresh).m
    ensures Buckets(txs).m[k] == FirstOf(txs, KeyOf, Fresh).m[k].(value := GroupNums(txs, KeyOf, Amount).Get(k, Some(0.0)))
  {
    var p, t := txs[..|txs| - 1], txs[|txs| - 1];
    var acc, first, sums := Buckets(p), FirstOf(p, KeyOf, Fresh), GroupNums(p, KeyOf, Amount);
    SameMonths(txs);
    SameMonths(p);
    assert Buckets(txs) == BucketStep(acc, t);
    assert FirstOf(txs, KeyOf, Fresh) == KeepFirst(first, t, KeyOf, Fresh);
    assert GroupNums(txs, KeyOf, Amount) == AddNumTo(sums, t, KeyOf, Amount);
    if k in acc.m {
      BucketAt(p, k);
      if KeyOf(t) == k {
        assert FirstOf(txs, KeyOf, Fresh).m[k] == first.m[k];
        assert GroupNums(txs, KeyOf, Amount).Get(k, Some(0.0)) == AddNum(sums.Get(k, Some(0.0)), Amount(t));
      } else {
        assert FirstOf(txs, KeyOf, Fresh).m[k] == first.m[k];
        assert GroupNums(txs, KeyOf, Amount).Get(k, Some(0.0)) == sums.Get(k, Some(0.0));
      }
    } else {
      assert KeyOf(t) == k && k !in first.m && k !in sums.m;
      assert FirstOf(txs, KeyOf, Fresh).m[k] == Fresh(t);
      assert GroupNums(txs, KeyOf, Amount).Get(k, Some(0.0)) == AddNum(Some(0.0), Amount(t));
    }
  }

  /** The buckets come one per distinct month, in order of first appearance. */
  lemma {:induction false} BucketKeys(txs: seq<ChartTx>)
    ensures Buckets(txs).keys == Dedup(Mapped(txs, KeyOf))
  {
    if txs != [] {
      BucketKeys(txs[..|txs| - 1]);
      DedupMappedStep(txs, KeyOf);
    }
  }

  /** What a bucket holds: its label and `rawDate` come from the first
      transaction of its month, and its value is NaN if some transaction of the
      month is, else the sum of the month's amounts. */
  lemma {:induction false} BucketContents(txs: seq<ChartTx>, k: (int, int))
    requires k in Buckets(txs).m
    ensures exists i :: 0 <= i < |txs| && KeyOf(txs[i]) == k
                        && Buckets(txs).m[k].date == Label(txs[i])
                        && Buckets(txs).m[k].rawDate == txs[i].stamp
                        && forall j :: 0 <= j < i ==> KeyOf(txs[j]) != k
    ensures Buckets(txs).m[k].value
         == if HasNaN(txs, KeyOf, Amount, k) then None
            else Some(SumOf(txs, x => ShareOf(k, x, KeyOf, Zeroed(Amount))))
  {
    BucketAt(txs, k);
    FirstOfSpec(txs, KeyOf, Fresh, k);
    GroupNumsSpec(txs, KeyOf, Amount, k);
    GroupSumsSpec(txs, KeyOf, Zeroed(Amount), k);
  }

  /** With no NaN amount, the bars add up to the total shown beside them. */
  lemma {:induction false} BarsAddUpToTotal(txs: seq<ChartTx>)
    requires forall i :: 0 <= i < |txs| ==> txs[i].total.Some?
    ensures SumOf(Values(Buckets(txs)), (b: Bucket) => OrZero(b.value)) == Total(txs)
  {
    var acc, g := Buckets(txs), GroupSums(txs, KeyOf, Zeroed(Amount));
    BucketKeys(txs);
    GroupSumsKeys(txs, KeyOf, Zeroed(Amount));
    GroupSumsTotal(txs, KeyOf, Zeroed(Amount));
    forall k | k in acc.keys
      ensures OrZero(acc.Get(k, Bucket("", None, 0)).value) == g.Get(k, 0.0)
    {
      assert k in acc.m;
      BucketAt(txs, k);
      GroupNumsSpec(txs, KeyOf, Amount, k);
    }
    SumOfMapped(acc.keys, (k: (int, int)) => acc.Get(k, Bucket("", None, 0)), (b: Bucket) => OrZero(b.value), (k: (int, int)) => g.Get(k, 0.0));
  }

  /** The `useMemo` body: the total, then the buckets sorted by `rawDate`,
      oldest first (a stable sort). */
  method Summary(transactions: seq<ChartTx>) returns (total: real, data: seq<Bucket>)
    ensures transactions == [] ==> total == 0.0 && data == []
    ensures total == Total(transactions)
    ensures multiset(data) == multiset(Values(Buckets(transactions)))
    ensures forall i, j :: 0 <= i < j < |data| ==> data[i].rawDate <= data[j].rawDate
  {
    if |transactions| == 0 {
      return 0.0, [];
    }
    total := Total(transactions);
    var grouped: OMap<(int, int), Bucket> := EmptyMap();
    for i := 0 to |transactions|
      invariant grouped == Buckets(transactions[..i])
    {
      assert transactions[..i + 1][..i] == transactions[..i];
      var t := transactions[i];
      assert Buckets(transactions[..i + 1]) == BucketStep(grouped, t);
      ghost var before := grouped;
      var key: (int, int) := (t.year, t.month);
      var b := if key in grouped.m then grouped.m[key] else Fresh(t);
      if key !in grouped.m {
        grouped := grouped.Put(key, Fresh(t));
      }
      grouped := grouped.Put(key, b.(value := AddNum(b.value, Amount(t))));
      if key !in before.m {
        before.PutPut(key, Fresh(t), b.(value := AddNum(b.value, Amount(t))));
      }
    }
    assert transactions[..|transactions|] == transactions;
    data := SortBy(Values(grouped), RawDate);
    forall i, j | 0 <= i < j < |data| ensures data[i].rawDate <= data[j].rawDate {
      assert RawDate(data[i]) <= RawDate(data[j]);
    }
  }
}
