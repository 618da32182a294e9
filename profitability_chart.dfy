/** components/dashboard/performance/ProfitabilityChart.tsx: the daily series
    of the performance chart, and the last return of each month and year. */
module ProfitabilityChart {
  import opened Common

  /** A `PerformancePoint`: `shown` is its date as `toLocaleDateString('pt-BR')`
      writes it, `year` and `month` its local calendar fields. */
  datatype Point = Point(shown: string, year: nat, month: Month, value: real, invested: real, ret: real)

  /** An entry of the main series. */
  datatype Daily = Daily(date: string, invested: real, value: real, variation: real)

  /** An entry of the monthly or yearly series: `{ date, ret }`. */
  datatype Entry = Entry(date: string, ret: real)

  /** The `performance.map(...)` callback. */
  function DailyOf(p: Point): Daily
  {
    Daily(p.shown, p.invested, p.value, p.ret)
  }

  /** The key `YYYY-MM`, as a pair. */
  function MonthKey(p: Point): (int, int)
  {
    (p.year, p.month)
  }

  function MonthEntry(p: Point): Entry
  {
    Entry(MonthYear(p.year, p.month), p.ret)
  }

  /** The key `${getFullYear()}`, as a number. */
  function YearKey(p: Point): int
  {
    p.year
  }

  function YearEntry(p: Point): Entry
  {
    Entry(NatToString(p.year), p.ret)
  }

  /** `Array.from(map.values())`. */
  function Values<K(==,!new)>(acc: OMap<K, Entry>): seq<Entry>
  {
    Mapped(acc.keys, (k: K) => acc.Get(k, Entry("", 0.0)))
  }

  /** The series of one `Map` filled by `map.set(key(p), entry(p))`: one entry
      per distinct key, in order of first appearance, each taken from the last
      point with that key. */
  lemma {:induction false} LastWriteWins<K(!new)>(perf: seq<Point>, key: Point -> K, entry: Point -> Entry)
    ensures |Values(LastOf(perf, key, entry))| == |Dedup(Mapped(perf, key))|
    ensures forall i :: 0 <= i < |Dedup(Mapped(perf, key))| ==>
      exists j :: 0 <= j < |perf| && key(perf[j]) == Dedup(Mapped(perf, key))[i]
                  && Values(LastOf(perf, key, entry))[i] == entry(perf[j])
                  && forall l :: j < l < |perf| ==> key(perf[l]) != Dedup(Mapped(perf, key))[i]
  {
    var acc, keys := LastOf(perf, key, entry), Dedup(Mapped(perf, key));
    LastOfKeys(perf, key, entry);
    forall i | 0 <= i < |keys|
      ensures exists j :: 0 <= j < |perf| && key(perf[j]) == keys[i]
                          && Values(acc)[i] == entry(perf[j])
                          && forall l :: j < l < |perf| ==> key(perf[l]) != keys[i]
    {
      assert keys[i] in acc.m;
      var j := LastOfSpec(perf, key, entry, keys[i]);
      assert Values(acc)[i] == acc.m[keys[i]] == entry(perf[j]);
    }
  }

  /** The `forEach` that fills `monthlyMap`. */
  method MonthlyMap(performance: seq<Point>) returns (monthlyMap: OMap<(int, int), Entry>)
    ensures monthlyMap == LastOf(performance, MonthKey, MonthEntry)
  {
    monthlyMap := EmptyMap();
    for i := 0 to |performance|
      invariant monthlyMap == LastOf(performance[..i], MonthKey, MonthEntry)
    {
      LastOfPrefix(performance, i, MonthKey, MonthEntry);
      var p := performance[i];
      var key: (int, int) := (p.year, p.month);
      monthlyMap := monthlyMap.Put(key, Entry(MonthYear(p.year, p.month), p.ret));
    }
    assert performance[..|performance|] == performance;
  }

  /** The `forEach` that fills `yearlyMap`. */
  method YearlyMap(performance: seq<Point>) returns (yearlyMap: OMap<int, Entry>)
    ensures yearlyMap == LastOf(performance, YearKey, YearEntry)
  {
    yearlyMap := EmptyMap();
    for i := 0 to |performance|
      invariant yearlyMap == LastOf(performance[..i], YearKey, YearEntry)
    {
      LastOfPrefix(performance, i, YearKey, YearEntry);
      var p := performance[i];
      yearlyMap := yearlyMap.Put(p.year, Entry(NatToString(p.year), p.ret));
    }
    assert performance[..|performance|] == performance;
  }

  /** The `useMemo` body. */
  method Series(performance: seq<Point>) returns (main: seq<Daily>, monthly: seq<Entry>, yearly: seq<Entry>)
    ensures performance == [] ==> main == [] && monthly == [] && yearly == []
    ensures |main| == |performance|
    ensures main == Mapped(performance, DailyOf)
    ensures monthly == Values(LastOf(performance, MonthKey, MonthEntry))
    ensures yearly == Values(LastOf(performance, YearKey, YearEntry))
  {
    if |performance| == 0 {
      return [], [], [];
    }
    main := Mapped(performance, DailyOf);
    var monthlyMap := MonthlyMap(performance);
    var yearlyMap := YearlyMap(performance);
    monthly, yearly := Values(monthlyMap), Values(yearlyMap);
  }
}
