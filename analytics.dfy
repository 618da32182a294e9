/** actions/analytics.ts: the history gate, the annualised volatility of a
    ticker's daily closes, and the placeholder metrics that are served once
    enough history exists. `Math.sqrt` is a parameter. */
module Analytics {
  import opened Common
  import UpdatePrices

  // ------------------------------------------------------------ history gate

  /** What the head-only count query on price_history yields: a failure (an
      error field or a thrown exception), or a count that may be null. */
  datatype CountResult = CountFailed | Counted(count: Option<int>)

  /** `checkPriceHistoryExists`: more than 100 stored rows; a null count is 0
      and a failure is false. */
  function HasHistory(r: CountResult): (ok: bool)
    ensures ok ==> r.Counted?
    ensures r.Counted? ==> (ok <==> r.count.Some? && r.count.value >= 101)
  {
    match r
    case CountFailed => false
    case Counted(count) => (if count.Some? then count.value else 0) > 100
  }

  // ------------------------------------------------------------ volatility

  /** No price after the first is 0, so every daily return is finite. */
  predicate NoZeroDivisor(prices: seq<real>)
  {
    forall i :: 1 <= i < |prices| ==> prices[i] != 0.0
  }

  /** The simple return from `before` to `after`. */
  function Growth(after: real, before: real): (g: real)
    requires before != 0.0
    ensures g * before == after - before
    ensures after == before ==> g == 0.0
  {
    (after - before) / before
  }

  /** The daily simple returns of a newest-first price series: one per pair of
      consecutive closes, each from the older close to the newer. */
  function Returns(prices: seq<real>): (r: seq<real>)
    requires |prices| >= 1 && NoZeroDivisor(prices)
    ensures |r| == |prices| - 1
    ensures forall i :: 0 <= i < |r| ==> r[i] == Growth(prices[i], prices[i + 1])
  {
    seq(|prices| - 1, i requires 0 <= i < |prices| - 1 => Growth(prices[i], prices[i + 1]))
  }

  function Id(x: real): real { x }

  function Sq(x: real): real { x * x }

  /** The arithmetic mean. */
  function Mean(xs: seq<real>): real
    requires |xs| > 0
  {
    SumOf(xs, Id) / |xs| as real
  }

  /** Σ (x − m)² over `xs`. */
  function SquaredDeviations(xs: seq<real>, m: real): real
  {
    SumOf(xs, x => Sq(x - m))
  }

  /** The population variance (divided by n, not n − 1). */
  function Variance(xs: seq<real>): (v: real)
    requires |xs| > 0
    ensures v >= 0.0
  {
    SquaredDeviationsNonNegative(xs, Mean(xs));
    SquaredDeviations(xs, Mean(xs)) / |xs| as real
  }

  lemma {:induction false} SquaredDeviationsNonNegative(xs: seq<real>, m: real)
    ensures SquaredDeviations(xs, m) >= 0.0
  {
    if xs != [] {
      SquaredDeviationsNonNegative(xs[..|xs| - 1], m);
      var d := xs[|xs| - 1] - m;
      assert Sq(d) >= 0.0;
    }
  }

  lemma {:induction false} SumOfConstant(xs: seq<real>, c: real)
    requires forall x :: x in xs ==> x == c
    ensures SumOf(xs, Id) == |xs| as real * c
    ensures SquaredDeviations(xs, c) == 0.0
  {
    if xs != [] {
      var p := xs[..|xs| - 1];
      assert forall x :: x in p ==> x in xs;
      SumOfConstant(p, c);
      assert xs[|xs| - 1] in xs;
      assert Sq(xs[|xs| - 1] - c) == 0.0;
    }
  }

  /** A series whose values are all `c` has mean `c` and variance 0. */
  lemma ConstantSeriesHasNoVariance(xs: seq<real>, c: real)
    requires |xs| > 0
    requires forall x :: x in xs ==> x == c
    ensures Mean(xs) == c
    ensures Variance(xs) == 0.0
  {
    SumOfConstant(xs, c);
  }

  /** What `calculateVolatility` returns: null, a non-finite number (a zero
      close makes a return infinite or undefined), or a finite percentage. */
  datatype Volatility = Null | NonFinite | Finite(pct: real)

  /** The volatility of a newest-first close series: null below 10 closes,
      otherwise √variance × √252 × 100 of the daily returns. */
  function VolatilityOf(prices: Option<seq<real>>, sqrt: real -> real): (r: Volatility)
    ensures r.Null? <==> prices.None? || |prices.value| < 10
    ensures r.NonFinite? <==> prices.Some? && |prices.value| >= 10 && !NoZeroDivisor(prices.value)
    ensures r.Finite? ==>
      var rs := Returns(prices.value);
      |rs| == |prices.value| - 1 >= 9 && r.pct == Annualise(sqrt(Variance(rs)), sqrt)
  {
    if prices.None? || |prices.value| < 10 then Null
    else if !NoZeroDivisor(prices.value) then NonFinite
    else
      var dailyReturns := Returns(prices.value);
      var dailyVol := sqrt(Variance(dailyReturns));
      Finite(Annualise(dailyVol, sqrt))
  }

  /** A daily standard deviation as an annual percentage: × √252 × 100. */
  function Annualise(dailyVol: real, sqrt: real -> real): real
  {
    dailyVol * sqrt(252.0) * 100.0
  }

  /** Taking √ as a true square root, the volatility is never negative. */
  lemma VolatilityNonNegative(prices: Option<seq<real>>, sqrt: real -> real)
    requires forall x :: x >= 0.0 ==> sqrt(x) >= 0.0
    ensures VolatilityOf(prices, sqrt).Finite? ==> VolatilityOf(prices, sqrt).pct >= 0.0
  {
    if VolatilityOf(prices, sqrt).Finite? {
      var rs := Returns(prices.value);
      var a, b := sqrt(Variance(rs)), sqrt(252.0);
      assert a >= 0.0 && b >= 0.0;
      assert a * b >= 0.0;
      assert Annualise(a, sqrt) == a * b * 100.0;
    }
  }

  /** A price that never moves has only zero returns, and so volatility 0. */
  lemma ConstantPriceHasNoVolatility(prices: seq<real>, sqrt: real -> real)
    requires sqrt(0.0) == 0.0
    requires |prices| >= 10 && prices[0] != 0.0
    requires forall p :: p in prices ==> p == prices[0]
    ensures VolatilityOf(Some(prices), sqrt) == Finite(0.0)
  {
    assert NoZeroDivisor(prices) by {
      forall i | 1 <= i < |prices| ensures prices[i] != 0.0 {
        assert prices[i] in prices;
      }
    }
    var rs := Returns(prices);
    forall i | 0 <= i < |rs| ensures rs[i] == 0.0 {
      assert prices[i] in prices && prices[i + 1] in prices;
    }
    ConstantSeriesHasNoVariance(rs, 0.0);
    assert Annualise(0.0, sqrt) == 0.0;
  }

  /** The most recent `days` stored rows of one ticker, newest first, as the
      `.order('date', { ascending: false }).limit(days)` query returns them. */
  function Recent(rows: seq<UpdatePrices.PriceRow>, days: nat): (r: seq<UpdatePrices.PriceRow>)
    ensures |r| == if |rows| < days then |rows| else days
    ensures r == rows[..|r|]
  {
    if |rows| < days then rows else rows[..days]
  }

  /** The numeric columns of price_history, as the update job writes them. */
  predicate IsColumn(column: string)
  {
    column in ["open", "high", "low", "close", "volume"]
  }

  function ColumnValue(row: UpdatePrices.PriceRow, column: string): real
    requires IsColumn(column)
  {
    if column == "open" then row.open
    else if column == "high" then row.high
    else if column == "low" then row.low
    else if column == "close" then row.close
    else row.volume
  }

  /** Selecting `column` from the rows: the query fails, and its data is null,
      when the table has no such column. */
  function ReadColumn(column: string, rows: seq<UpdatePrices.PriceRow>): (r: Option<seq<real>>)
    ensures r.Some? <==> IsColumn(column)
    ensures column == "close" ==> |r.value| == |rows| && forall i :: 0 <= i < |rows| ==> r.value[i] == rows[i].close
  {
    if !IsColumn(column) then None
    else Some(seq(|rows|, i requires 0 <= i < |rows| => ColumnValue(rows[i], column)))
  }

  /** `calculateVolatility(ticker, days)` as written: it selects `close_price`,
      a column price_history does not have. */
  function CalculateVolatilityAsWritten(rows: seq<UpdatePrices.PriceRow>, days: nat, sqrt: real -> real): Volatility
  {
    VolatilityOf(ReadColumn("close_price", Recent(rows, days)), sqrt)
  }

  /** As written, the volatility is null whatever is stored. */
  lemma VolatilityAsWrittenIsAlwaysNull(rows: seq<UpdatePrices.PriceRow>, days: nat, sqrt: real -> real)
    ensures CalculateVolatilityAsWritten(rows, days, sqrt) == Null
  {
  }

  /** `calculateVolatility(ticker, days)` reading the `close` column the update
      job writes. */
  function CalculateVolatility(rows: seq<UpdatePrices.PriceRow>, days: nat, sqrt: real -> real): Volatility
  {
    VolatilityOf(ReadColumn("close", Recent(rows, days)), sqrt)
  }

  /** The closes of the rows, in row order. */
  function Closes(rows: seq<UpdatePrices.PriceRow>): (r: seq<real>)
    ensures |r| == |rows| && forall i :: 0 <= i < |rows| ==> r[i] == rows[i].close
  {
    seq(|rows|, i requires 0 <= i < |rows| => rows[i].close)
  }

  /** Reading `close`, the volatility is that of the stored closes, and ten or
      more rows with no zero close after the newest give a finite value. */
  lemma CorrectedVolatilityUsesCloses(rows: seq<UpdatePrices.PriceRow>, days: nat, sqrt: real -> real)
    ensures CalculateVolatility(rows, days, sqrt) == VolatilityOf(Some(Closes(Recent(rows, days))), sqrt)
    ensures days >= 10 && |rows| >= 10 && (forall i :: 1 <= i < |rows| ==> rows[i].close != 0.0) ==>
      CalculateVolatility(rows, days, sqrt).Finite?
  {
    var recent := Recent(rows, days);
    var read := ReadColumn("close", recent).value;
    assert read == Closes(recent);
    if days >= 10 && |rows| >= 10 && (forall i :: 1 <= i < |rows| ==> rows[i].close != 0.0) {
      assert forall i :: 0 <= i < |recent| ==> recent[i] == rows[i];
      assert NoZeroDivisor(Closes(recent));
    }
  }

  // ------------------------------------------------------------ placeholders

  datatype Metrics = Metrics(sharpe: real, beta: real, volatility: real, sortino: real)

  /** `calculatePortfolioMetrics`: null without history, fixed figures otherwise. */
  function PortfolioMetrics(hasHistory: bool): (r: Option<Metrics>)
    ensures r.Some? <==> hasHistory
    ensures r.Some? ==> r.value.volatility > 0.0 && r.value.beta > 0.0
  {
    if !hasHistory then None else Some(Metrics(1.45, 0.89, 15.2, 1.82))
  }

  datatype DrawdownPoint = DrawdownPoint(date: string, value: real)

  datatype Drawdown = Drawdown(maxDrawdown: real, currentDrawdown: real, peakDate: string, troughDate: string,
                               chartData: seq<DrawdownPoint>)

  /** `calculateDrawdown`: null without history, a fixed example otherwise. */
  function PortfolioDrawdown(hasHistory: bool): (r: Option<Drawdown>)
    ensures r.Some? <==> hasHistory
    ensures r.Some? ==>
      && r.value.maxDrawdown <= r.value.currentDrawdown <= 0.0
      && |r.value.chartData| == 3
      && forall p :: p in r.value.chartData ==> r.value.maxDrawdown <= p.value <= 0.0
  {
    if !hasHistory then None
    else
      Some(Drawdown(-12.5, -3.2, "2025-06-15", "2025-09-22",
                    [DrawdownPoint("01/2025", 0.0), DrawdownPoint("02/2025", -2.1), DrawdownPoint("03/2025", -5.4)]))
  }

  datatype RiskReturn = RiskReturn(ticker: string, risk: real, ret: real)

  /** `calculateRiskReturn`: null without history, three fixed assets otherwise. */
  function PortfolioRiskReturn(hasHistory: bool): (r: Option<seq<RiskReturn>>)
    ensures r.Some? <==> hasHistory
    ensures r.Some? ==> |r.value| == 3 && forall a :: a in r.value ==> a.risk > 0.0 && a.ret > 0.0
  {
    if !hasHistory then None
    else Some([RiskReturn("VALE3", 18.5, 22.3), RiskReturn("PETR4", 25.1, 15.8), RiskReturn("ITUB4", 12.4, 18.2)])
  }

  datatype Correlation = Correlation(tickers: seq<string>, matrix: seq<seq<real>>)

  /** A correlation matrix: one row and column per ticker, symmetric, 1 on the
      diagonal and every entry in [−1, 1]. */
  predicate WellFormed(c: Correlation)
  {
    && |c.matrix| == |c.tickers|
    && (forall i :: 0 <= i < |c.matrix| ==> |c.matrix[i]| == |c.tickers|)
    && (forall i, j :: 0 <= i < |c.matrix| && 0 <= j < |c.matrix| ==> c.matrix[i][j] == c.matrix[j][i])
    && (forall i :: 0 <= i < |c.matrix| ==> c.matrix[i][i] == 1.0)
    && (forall i, j :: 0 <= i < |c.matrix| && 0 <= j < |c.matrix[i]| ==> -1.0 <= c.matrix[i][j] <= 1.0)
  }

  /** `calculateCorrelationMatrix`: null without history, a fixed 3 × 3 matrix
      otherwise. */
  function PortfolioCorrelation(hasHistory: bool): (r: Option<Correlation>)
    ensures r.Some? <==> hasHistory
    ensures r.Some? ==> WellFormed(r.value) && |r.value.tickers| == 3
  {
    if !hasHistory then None
    else
      Some(Correlation(["VALE3", "PETR4", "ITUB4"],
                       [[1.00, 0.72, 0.45],
                        [0.72, 1.00, 0.58],
                        [0.45, 0.58, 1.00]]))
  }
}
