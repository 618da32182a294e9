/** components/dashboard/dividends/DividendsMatrix.tsx: the year × month table
    of dividends, with a total and a monthly average per year. */
module DividendsMatrix {
  import opened Common

  /** `Number(t.total) || 0`. */
  function Val(t: ChartTx): real
  {
    if t.total.Some? then t.total.value else 0.0
  }

  function YearOf(t: ChartTx): int { t.year }

  /** The cell `data[year][month]` a transaction adds to. */
  function CellOf(t: ChartTx): (int, int) { (t.year, t.month) }

  /** January to December. */
  const Months: seq<int> := [0, 1, 2, 3, 4, 5, 6, 7, 8, 9, 10, 11]

  lemma MonthsListEachMonthOnce()
    ensures forall i, j :: 0 <= i < j < |Months| ==> Months[i] != Months[j]
    ensures forall m :: 0 <= m < 12 ==> Months[m] == m
  {
  }

  /** The row of year `y`: month `m` to `data[y][m] || 0`. */
  function Row(cells: OMap<(int, int), real>, y: int): int -> real
  {
    m => cells.Get((y, m), 0.0)
  }

  /** Σ over the twelve cells of year `y`. */
  function RowTotal(cells: OMap<(int, int), real>, y: int): real
  {
    SumOf(Months, Row(cells, y))
  }

  /** Adding one transaction moves its own year's row by its value and leaves
      every other row alone. */
  lemma RowAfterAdd(cells: OMap<(int, int), real>, t: ChartTx, y: int)
    ensures RowTotal(AddTo(cells, t, CellOf, Val), y) == RowTotal(cells, y) + (if t.year == y then Val(t) else 0.0)
  {
    var after := AddTo(cells, t, CellOf, Val);
    assert after == cells.Put((t.year, t.month), cells.Get((t.year, t.month), 0.0) + Val(t));
    var f, g := Row(cells, y), Row(after, y);
    if t.year == y {
      MonthsListEachMonthOnce();
      assert Months[t.month] == t.month;
      assert g(t.month) == f(t.month) + Val(t);
      assert forall m :: m != t.month ==> f(m) == g(m);
      SumOfUpdate(Months, f, g, t.month);
    } else {
      assert forall m :: m in Months ==> f(m) == g(m);
      SumOfCongruent(Months, f, g);
    }
  }

  /** Each year's total equals the sum of its twelve monthly cells. */
  lemma {:induction false} YearTotalIsRowSum(txs: seq<ChartTx>, y: int)
    ensures GroupSums(txs, YearOf, Val).Get(y, 0.0) == RowTotal(GroupSums(txs, CellOf, Val), y)
  {
    if txs != [] {
      var p, t := txs[..|txs| - 1], txs[|txs| - 1];
      YearTotalIsRowSum(p, y);
      var before := GroupSums(p, CellOf, Val);
      assert GroupSums(txs, CellOf, Val) == AddTo(before, t, CellOf, Val);
      RowAfterAdd(before, t, y);
      var tb := GroupSums(p, YearOf, Val);
      assert GroupSums(txs, YearOf, Val) == AddTo(tb, t, YearOf, Val);
      assert AddTo(tb, t, YearOf, Val).Get(y, 0.0) == tb.Get(y, 0.0) + (if t.year == y then Val(t) else 0.0);
    } else {
      SumOfZeros(Months, Row(EmptyMap(), y));
    }
  }

  function NegYear(y: int): real { -(y as real) }

  /** The row average: the year's total over 12, however many months paid. */
  function Average(totals: OMap<int, real>, y: int): (avg: real)
    ensures avg * 12.0 == totals.Get(y, 0.0)
    ensures totals.Get(y, 0.0) >= 0.0 ==> 0.0 <= avg <= totals.Get(y, 0.0)
  {
    totals.Get(y, 0.0) / 12.0
  }

  /** One step of the cell fold, spelled out. */
  lemma CellStep(data: OMap<(int, int), real>, t: ChartTx)
    ensures AddTo(data, t, CellOf, Val) == data.Put((t.year, t.month), data.Get((t.year, t.month), 0.0) + Val(t))
  {
  }

  /** One step of the year fold, spelled out. */
  lemma YearStep(totals: OMap<int, real>, t: ChartTx)
    ensures AddTo(totals, t, YearOf, Val) == totals.Put(t.year, totals.Get(t.year, 0.0) + Val(t))
  {
  }

  /** The `forEach` over the transactions: fills the cells, the year totals and
      the set of years (kept in insertion order). */
  method Accumulate(transactions: seq<ChartTx>) returns (data: OMap<(int, int), real>, yearsSet: seq<int>, totals: OMap<int, real>)
    ensures data == GroupSums(transactions, CellOf, Val)
    ensures totals == GroupSums(transactions, YearOf, Val)
    ensures yearsSet == totals.keys
  {
    data, totals, yearsSet := EmptyMap(), EmptyMap(), [];
    for i := 0 to |transactions|
      invariant data == GroupSums(transactions[..i], CellOf, Val)
      invariant totals == GroupSums(transactions[..i], YearOf, Val)
      invariant yearsSet == totals.keys
    {
      assert transactions[..i + 1][..i] == transactions[..i];
      var t := transactions[i];
      assert GroupSums(transactions[..i + 1], CellOf, Val) == AddTo(data, t, CellOf, Val);
      assert GroupSums(transactions[..i + 1], YearOf, Val) == AddTo(totals, t, YearOf, Val);
      if t.year !in yearsSet {
        yearsSet := yearsSet + [t.year];
      }
      CellStep(data, t);
      YearStep(totals, t);
      data := data.Put((t.year, t.month), data.Get((t.year, t.month), 0.0) + Val(t));
      totals := totals.Put(t.year, totals.Get(t.year, 0.0) + Val(t));
    }
    assert transactions[..|transactions|] == transactions;
  }

  /** Years sorted by `b - a` with no year twice are strictly newest first. */
  lemma NewestFirst(years: seq<int>)
    requires SortedBy(years, NegYear)
    requires forall i, j :: 0 <= i < j < |years| ==> years[i] != years[j]
    ensures forall i, j :: 0 <= i < j < |years| ==> years[i] > years[j]
  {
    forall i, j | 0 <= i < j < |years| ensures years[i] > years[j] {
      assert NegYear(years[i]) <= NegYear(years[j]);
    }
  }

  /** The `useMemo` body: `data` holds `data[year][month]` under the pair
      (year, month), `totals` is `yearTotals`, and `years` the distinct years,
      newest first. */
  method BuildMatrix(transactions: seq<ChartTx>) returns (data: OMap<(int, int), real>, years: seq<int>, totals: OMap<int, real>)
    ensures data == GroupSums(transactions, CellOf, Val)
    ensures totals == GroupSums(transactions, YearOf, Val)
    ensures transactions == [] ==> years == []
    ensures forall y :: y in years <==> exists t :: t in transactions && t.year == y
    ensures forall i, j :: 0 <= i < j < |years| ==> years[i] > years[j]
    ensures forall y :: y in years ==> totals.Get(y, 0.0) == RowTotal(data, y)
    ensures SumOf(years, y => totals.Get(y, 0.0)) == SumOf(transactions, Val)
  {
    if transactions == [] {
      return EmptyMap(), [], EmptyMap();
    }
    var yearsSet;
    data, yearsSet, totals := Accumulate(transactions);
    years := SortBy(yearsSet, NegYear);
    PermutationKeepsDistinct(yearsSet, years);
    NewestFirst(years);
    forall y ensures y in years <==> exists t :: t in transactions && t.year == y {
      GroupSumsSpec(transactions, YearOf, Val, y);
      assert y in years <==> y in multiset(years);
      assert y in yearsSet <==> y in multiset(yearsSet);
    }
    forall y | y in years ensures totals.Get(y, 0.0) == RowTotal(data, y) {
      YearTotalIsRowSum(transactions, y);
    }
    GroupSumsTotal(transactions, YearOf, Val);
    SumOfPermutation(yearsSet, years, y => totals.Get(y, 0.0));
  }
}
