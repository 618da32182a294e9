/** components/dashboard/dividends/DividendsByAsset.tsx: the dividends of each
    asset, as the slices of a donut chart, largest first. */
module DividendsByAsset {
  import opened Common

  /** `t.ticker || 'Outros'`: a missing or empty ticker is grouped as "Outros". */
  function Name(t: ChartTx): string
  {
    if t.ticker == "" then "Outros" else t.ticker
  }

  /** `Number(t.total)`, None when it is NaN. */
  function Amount(t: ChartTx): Option<real>
  {
    t.total
  }

  /** One slice of the chart: `{ name, value }`. */
  datatype Slice = Slice(name: string, value: Option<real>)

  /** `t` is a transaction of `name` whose amount is NaN. */
  predicate NaNOf(t: ChartTx, name: string)
  {
    Name(t) == name && Amount(t).None?
  }

  /** The position of the last transaction of `name` with a NaN amount, or -1. */
  function LastNaN(txs: seq<ChartTx>, name: string): (r: int)
    ensures -1 <= r < |txs|
    ensures r >= 0 ==> NaNOf(txs[r], name)
    ensures forall j :: r < j < |txs| ==> !NaNOf(txs[j], name)
  {
    if txs == [] then -1
    else if NaNOf(txs[|txs| - 1], name) then |txs| - 1
    else LastNaN(txs[..|txs| - 1], name)
  }

  /** The transactions after the last NaN amount of `name`. */
  function Since(txs: seq<ChartTx>, name: string): seq<ChartTx>
  {
    txs[LastNaN(txs, name) + 1..]
  }

  /** What a transaction adds to the value of `name`. */
  function Share(name: string): ChartTx -> real
  {
    x => ShareOf(name, x, Name, Zeroed(Amount))
  }

  /** Reference definition of a slice's value. A NaN accumulator is falsy, so
      the next transaction of the name restarts it at 0: the value is NaN when
      the name's last transaction has a NaN amount, and otherwise the sum of
      the amounts after its last NaN. */
  function ValueOf(txs: seq<ChartTx>, name: string): Option<real>
  {
    if LastNaN(txs, name) >= 0 && !Carries(Since(txs, name), Name, name) then None
    else Some(SumOf(Since(txs, name), Share(name)))
  }

  /** A NaN amount of the name empties `Since`; anything else extends it. */
  lemma {:induction false} SinceStep(txs: seq<ChartTx>, name: string)
    requires txs != []
    ensures var p, t := txs[..|txs| - 1], txs[|txs| - 1];
      if NaNOf(t, name) then LastNaN(txs, name) == |p| && Since(txs, name) == []
      else LastNaN(txs, name) == LastNaN(p, name) && Since(txs, name) == Since(p, name) + [t]
  {
  }

  /** `if (!acc[ticker]) acc[ticker] = 0; acc[ticker] += Number(t.total)`:
      an absent, zero or NaN accumulator restarts at 0. */
  function AddTotal(acc: OMap<string, Option<real>>, t: ChartTx): OMap<string, Option<real>>
  {
    acc.Put(Name(t), AddNum(Some(OrZero(acc.Get(Name(t), Some(0.0)))), Amount(t)))
  }

  /** The `reduce` into `grouped`. */
  function Grouped(txs: seq<ChartTx>): (g: OMap<string, Option<real>>)
    ensures g.Valid()
  {
    if txs == [] then EmptyMap() else AddTotal(Grouped(txs[..|txs| - 1]), txs[|txs| - 1])
  }

  /** The names are the accumulator's keys in order of first appearance. */
  lemma {:induction false} GroupedKeys(txs: seq<ChartTx>)
    ensures Grouped(txs).keys == Dedup(Mapped(txs, Name))
  {
    if txs != [] {
      GroupedKeys(txs[..|txs| - 1]);
      DedupMappedStep(txs, Name);
    }
  }

  /** What one transaction does to the accumulator of `name`. */
  function Step(acc: Option<real>, t: ChartTx, name: string): Option<real>
  {
    if Name(t) == name then AddNum(Some(OrZero(acc)), Amount(t)) else acc
  }

  /** The last transaction changes only its own name's accumulator. */
  lemma {:induction false} GroupedLast(txs: seq<ChartTx>, name: string)
    requires txs != []
    ensures Grouped(txs).Get(name, Some(0.0))
         == Step(Grouped(txs[..|txs| - 1]).Get(name, Some(0.0)), txs[|txs| - 1], name)
  {
    assert Grouped(txs) == AddTotal(Grouped(txs[..|txs| - 1]), txs[|txs| - 1]);
  }

  /** The reference value follows the same step. */
  lemma {:induction false} ValueOfStep(txs: seq<ChartTx>, name: string)
    requires txs != []
    ensures ValueOf(txs, name) == Step(ValueOf(txs[..|txs| - 1], name), txs[|txs| - 1], name)
  {
    var t := txs[|txs| - 1];
    if Name(t) != name {
      ValueOfOther(txs, name);
    } else if Amount(t).None? {
      ValueOfNaN(txs, name);
    } else {
      ValueOfNumber(txs, name);
    }
  }

  /** A number of the name adds to the accumulator, a NaN one restarting at 0. */
  lemma {:induction false} StepNumber(acc: Option<real>, t: ChartTx, name: string)
    requires Name(t) == name && Amount(t).Some?
    ensures Step(acc, t, name) == Some(OrZero(acc) + Amount(t).value)
  {
  }

  /** The accumulator holds the reference value of every name (0 for a name
      no transaction carries). */
  lemma {:induction false} GroupedValue(txs: seq<ChartTx>, name: string)
    ensures Grouped(txs).Get(name, Some(0.0)) == ValueOf(txs, name)
  {
    if txs == [] {
      assert LastNaN(txs, name) == -1 && Since(txs, name) == [];
    } else {
      GroupedValue(txs[..|txs| - 1], name);
      GroupedLast(txs, name);
      ValueOfStep(txs, name);
    }
  }

  /** A transaction of another name leaves the value as it was. */
  lemma {:induction false} ValueOfOther(txs: seq<ChartTx>, name: string)
    requires txs != [] && Name(txs[|txs| - 1]) != name
    ensures ValueOf(txs, name) == Step(ValueOf(txs[..|txs| - 1], name), txs[|txs| - 1], name)
  {
    var p, t := txs[..|txs| - 1], txs[|txs| - 1];
    SinceStep(txs, name);
    CarriesStep(Since(txs, name), Name, name);
    SumOfAppend(Since(p, name), [t], Share(name));
  }

  /** A NaN amount of the name makes the value NaN. */
  lemma {:induction false} ValueOfNaN(txs: seq<ChartTx>, name: string)
    requires txs != [] && NaNOf(txs[|txs| - 1], name)
    ensures ValueOf(txs, name) == Step(ValueOf(txs[..|txs| - 1], name), txs[|txs| - 1], name)
  {
    SinceStep(txs, name);
    assert ValueOf(txs, name) == None;
  }

  /** A number of the name is added to the value, a NaN value restarting at 0. */
  lemma {:induction false} ValueOfNumber(txs: seq<ChartTx>, name: string)
    requires txs != [] && Name(txs[|txs| - 1]) == name && Amount(txs[|txs| - 1]).Some?
    ensures ValueOf(txs, name) == Step(ValueOf(txs[..|txs| - 1], name), txs[|txs| - 1], name)
  {
    var p, t := txs[..|txs| - 1], txs[|txs| - 1];
    StepNumber(ValueOf(p, name), t, name);
    var before := Since(p, name);
    SinceStep(txs, name);
    CarriesStep(Since(txs, name), Name, name);
    SumOfAppend(before, [t], Share(name));
    assert Zeroed(Amount)(t) == OrZero(Amount(t));
    assert Share(name)(t) == ShareOf(name, t, Name, Zeroed(Amount)) == Amount(t).value;
    assert Carries(Since(txs, name), Name, name);
    if LastNaN(p, name) >= 0 && !Carries(before, Name, name) {
      forall x | x in before ensures Share(name)(x) == 0.0 {
        var j :| 0 <= j < |before| && before[j] == x;
      }
      SumOfZeros(before, Share(name));
    }
  }

  /** A NaN total followed by a total of 5 for the same ticker: the falsy NaN
      restarts at 0, so the slice holds 5. */
  lemma NaNThenNumberRestarts(nan: ChartTx, five: ChartTx)
    requires nan.ticker == five.ticker == "A" && nan.total == None && five.total == Some(5.0)
    ensures ValueOf([nan, five], "A") == Some(5.0)
  {
    var s := [nan, five];
    assert s[..1] == [nan];
    ValueOfNaN([nan], "A");
    assert ValueOf([nan], "A") == None;
    ValueOfNumber(s, "A");
    StepNumber(None, five, "A");
  }

  /** A NaN total last leaves the slice NaN, whatever came before. */
  lemma NumberThenNaNIsNaN(five: ChartTx, nan: ChartTx)
    requires nan.ticker == five.ticker == "A" && nan.total == None && five.total == Some(5.0)
    ensures ValueOf([five, nan], "A") == None
  {
    ValueOfNaN([five, nan], "A");
    assert Step(ValueOf([five], "A"), nan, "A") == None;
  }

  function SliceIn(txs: seq<ChartTx>): string -> Slice
  {
    name => Slice(name, ValueOf(txs, name))
  }

  /** Reference definition of the chart before sorting: one slice per distinct
      name, in order of first appearance. */
  function Totals(txs: seq<ChartTx>): seq<Slice>
  {
    Mapped(Dedup(Mapped(txs, Name)), SliceIn(txs))
  }

  /** The `Object.entries(grouped).map(...)` step. */
  function SliceOf(grouped: OMap<string, Option<real>>): string -> Slice
  {
    name => Slice(name, grouped.Get(name, Some(0.0)))
  }

  /** `b.value - a.value` as a key for an ascending sort; a NaN value orders
      as 0 here. */
  function Descending(s: Slice): real
  {
    -OrZero(s.value)
  }

  /** The slices built from the grouped accumulator are the reference slices. */
  lemma {:induction false} GroupedSlices(txs: seq<ChartTx>)
    ensures var g := Grouped(txs);
      Mapped(g.keys, SliceOf(g)) == Totals(txs)
  {
    var g := Grouped(txs);
    forall i | 0 <= i < |g.keys| ensures SliceOf(g)(g.keys[i]) == SliceIn(txs)(g.keys[i]) {
      GroupedSlice(txs, g.keys[i]);
    }
    MappedAgree(g.keys, SliceOf(g), SliceIn(txs));
    GroupedKeys(txs);
  }

  /** The slice the accumulator gives a name is its reference slice. */
  lemma GroupedSlice(txs: seq<ChartTx>, k: string)
    ensures SliceOf(Grouped(txs))(k) == SliceIn(txs)(k)
  {
    GroupedValue(txs, k);
  }

  /** A sort by `Descending` puts larger values first. */
  lemma LargestFirst(data: seq<Slice>)
    requires SortedBy(data, Descending)
    ensures forall i, j :: 0 <= i < j < |data| ==> OrZero(data[i].value) >= OrZero(data[j].value)
  {
    forall i, j | 0 <= i < j < |data| ensures OrZero(data[i].value) >= OrZero(data[j].value) {
      assert Descending(data[i]) <= Descending(data[j]);
    }
  }

  /** The `useMemo` body: the `reduce` into `grouped`, then the entries sorted
      by value, largest first. */
  method ByAsset(transactions: seq<ChartTx>) returns (data: seq<Slice>)
    ensures transactions == [] ==> data == []
    ensures multiset(data) == multiset(Totals(transactions))
    ensures forall i, j :: 0 <= i < j < |data| ==> OrZero(data[i].value) >= OrZero(data[j].value)
  {
    if |transactions| == 0 {
      return [];
    }
    var grouped: OMap<string, Option<real>> := EmptyMap();
    for i := 0 to |transactions|
      invariant grouped == Grouped(transactions[..i])
    {
      assert transactions[..i + 1][..i] == transactions[..i];
      var t := transactions[i];
      var cur := grouped.Get(Name(t), Some(0.0));
      if cur.None? || cur == Some(0.0) {
        cur := Some(0.0);
      }
      grouped := grouped.Put(Name(t), AddNum(cur, Amount(t)));
    }
    assert transactions[..|transactions|] == transactions;
    data := SortBy(Mapped(grouped.keys, SliceOf(grouped)), Descending);
    GroupedSlices(transactions);
    LargestFirst(data);
  }

  function SliceName(s: Slice): string { s.name }

  /** The slices carry the distinct names of the transactions, each once, in
      order of first appearance (so a name has a slice iff some transaction
      carries it). */
  lemma OneSlicePerName(txs: seq<ChartTx>)
    ensures Mapped(Totals(txs), SliceName) == Dedup(Mapped(txs, Name))
  {
    var keys, slices := Dedup(Mapped(txs, Name)), Totals(txs);
    var names := Mapped(slices, SliceName);
    forall i | 0 <= i < |keys|
      ensures names[i] == keys[i]
    {
      assert slices[i] == SliceIn(txs)(keys[i]);
    }
  }

  /** The slices add up to the dividends received, when no amount is NaN. */
  lemma SlicesAddUp(txs: seq<ChartTx>)
    requires forall i :: 0 <= i < |txs| ==> txs[i].total.Some?
    ensures forall i :: 0 <= i < |Totals(txs)| ==> Totals(txs)[i].value.Some?
    ensures SumOf(Totals(txs), (s: Slice) => OrZero(s.value)) == SumOf(txs, Zeroed(Amount))
  {
    var g := GroupSums(txs, Name, Zeroed(Amount));
    var keys := Dedup(Mapped(txs, Name));
    GroupSumsKeys(txs, Name, Zeroed(Amount));
    GroupSumsTotal(txs, Name, Zeroed(Amount));
    forall k | k in keys ensures SliceIn(txs)(k) == Slice(k, Some(g.Get(k, 0.0))) {
      SliceWithoutNaN(txs, k);
    }
    forall i | 0 <= i < |Totals(txs)| ensures Totals(txs)[i].value.Some? {
      assert Totals(txs)[i] == SliceIn(txs)(keys[i]);
      assert keys[i] in keys;
    }
    SumOfMapped(keys, SliceIn(txs), (s: Slice) => OrZero(s.value), (k: string) => g.Get(k, 0.0));
  }

  /** Without NaN amounts a slice holds the grouped sum of its name. */
  lemma {:induction false} SliceWithoutNaN(txs: seq<ChartTx>, k: string)
    requires forall i :: 0 <= i < |txs| ==> txs[i].total.Some?
    ensures SliceIn(txs)(k) == Slice(k, Some(GroupSums(txs, Name, Zeroed(Amount)).Get(k, 0.0)))
  {
    assert LastNaN(txs, k) == -1;
    assert Since(txs, k) == txs;
    GroupSumsSpec(txs, Name, Zeroed(Amount), k);
  }
}
