# Wenvest portfolio core, modelled in Dafny

Wenvest is a Next.js application in which a financial adviser keeps client
portfolios. A portfolio is a ledger of BUY, SELL and DIVIDEND transactions.
From it the application derives positions, average prices, invested capital,
the current value at stored or live quotes, a day-by-day history of value
against invested capital, and dividend estimates. Two scheduled routes keep
price history and received dividends up to date. A quote service routes each
ticker to brapi (B3) or Yahoo and caches answers for five minutes. The
dashboard charts group dividends and trades by month, year and asset. A
landing-page questionnaire scores a prospect's financial maturity and lays
out a PDF report. A CVM search finds a fund by its CNPJ and guesses the
fund's ticker.

The model has one Dafny module per source file, plus `Common`, which holds
the pieces the source takes from JavaScript itself:

- `String.prototype` helpers: `split`, `trim`, `includes`, `replace` of the
  first match, and ASCII `toUpperCase`.
- Number and label formatting for month keys.
- `Map`/record accumulators as ordered maps (`OMap`, keys in insertion order).
- `reduce`-style sums and the grouping folds the components use.
- A stable insertion sort standing for `Array.prototype.sort`.

The modules are:

- **Ledgers.** The dashboard and portfolio summaries, net quantities and
  portfolio value on a date, and estimated dividends. Their loops are
  `method`s proved against folds over the ledger.
- **Quotes.** `FinanceService` is a `class` whose `cache` map its methods
  update.
- **Cron routes.** The dividend-sync and price-update routes. Their grouping
  and counter loops are methods with invariants.
- **Analytics.** Pure functions over price rows, including the volatility
  calculation.
- **Charts.** The four dashboard charts, each a fold proved equal to an
  independent per-key specification.
- **Lead diagnostic.** Scoring, ranking and SWOT defaults are pure. The PDF
  cursor and the step/answers state machine are classes.
- **CVM search, asset search and currency conversion.**

The network, the database, the clock and `Math.sqrt` are parameters. Each
answer a service can give is a value: `Option` for a missing or failed
answer, and `DbResult` for a Supabase answer with its error. JavaScript
numbers are `real`. A NaN is `None` where it can arise, and it absorbs every
sum it enters, except where the source's `if (!acc[k]) acc[k] = 0` sees the
falsy NaN and restarts the sum at 0 (the by-asset chart).

## Model

| member | source | states |
|---|---|---|
| Dashboard.ConsolidateLedger | actions/dashboard.ts:23-51 | the ledger loop builds exactly the per-ticker map `Consolidate` defines, one entry per ticker |
| Dashboard.EveryTickerGetsAnEntry | actions/dashboard.ts:25-36 | the consolidated map has exactly the distinct tickers of the ledger, in first-seen order |
| Dashboard.SellKeepsAverage | actions/dashboard.ts:44-50 | a SELL takes abs(qty) units and abs(qty) × average off, keeps the average and keeps cost = qty × average |
| Dashboard.BuyResetsAverage | actions/dashboard.ts:38-43 | a BUY adds qty and total; the average becomes cost/qty, and cost itself when the quantity reaches 0 |
| Dashboard.ApplyKeepsBasis | actions/dashboard.ts:38-50 | each step keeps totalCost = qty × avgPrice when no BUY lands on quantity 0 |
| Dashboard.StepKeepsBasis | actions/dashboard.ts:32-50 | one loop iteration keeps the cost-basis invariant for every entry of the map |
| Dashboard.UpdateKeepsBasis | actions/dashboard.ts:32-36 | writing a sound entry keeps every entry sound |
| Dashboard.LedgerKeepsBasis | actions/dashboard.ts:25-51 | a ledger whose BUYs never zero a position leaves every entry with cost = qty × average |
| Dashboard.NewestFirstChangesAverage | actions/transaction.ts:82 | the ledger arrives newest first, so a SELL before its BUY gives a different average (20 instead of 10) and a negative position for a lone SELL |
| Dashboard.ActivePositions | actions/dashboard.ts:54-56 | exactly the entries with quantity above 0.000001 are kept |
| Dashboard.QuoteFor | actions/dashboard.ts:68 | the quote found is the last quote in the list with the ticker, as a `Map` built from the list keeps the last write; none is found only when no quote has it |
| Dashboard.Detail | actions/dashboard.ts:66-86 | value = qty × price and profit = value − qty × average; a missing or zero price falls back to the average, giving profit 0 |
| Dashboard.Valuate | actions/dashboard.ts:64-88 | one detail per active position, in order; total value and total cost are the sums over the details |
| Dashboard.GetPortfolioSummary | actions/dashboard.ts:11-102 | the empty summary and an untouched quote cache for no ledger; otherwise the assets are a permutation of `Detail` of each active position at the quote the `getQuotes` batch returns for its ticker, sorted by value descending; net worth, cost, profit and variation (0 when cost ≤ 0) are the sums over them; exactly the active tickers are reported; the quote cache afterwards is `Finance.Refreshed` of the active tickers |
| Dashboard.AssembledSummary | actions/dashboard.ts:90-101 | the returned assets are a permutation of the details; the totals are the sums over them, profit = net worth − cost, the variation is 0 unless cost > 0, and the assets are exactly the active positions |
| PortfolioSummary.PutKeepsEntriesSound | actions/portfolioSummary.ts:32-36 | writing a sound entry keeps the record sound |
| PortfolioSummary.BuyEntrySound | actions/portfolioSummary.ts:27-38 | a BUY's new entry has invested = quantity × average |
| PortfolioSummary.SellEntrySound | actions/portfolioSummary.ts:39-48 | a SELL keeps the average and invested = quantity × average |
| PortfolioSummary.PostKeepsSound | actions/portfolioSummary.ts:27-48 | every transaction kind keeps totalInvested = Σ invested and invested = quantity × average |
| PortfolioSummary.InvestedAfterPut | actions/portfolioSummary.ts:23-49 | the running total moves by exactly the change of the updated entry |
| PortfolioSummary.FoldSound | actions/portfolioSummary.ts:23-49 | the whole ledger loop keeps both invariants |
| PortfolioSummary.SellRemovesCostBasis | actions/portfolioSummary.ts:39-48 | buying 10 for 100 and selling 5 for 80 leaves invested 50, whatever the sale fetched; the reverse order ignores the SELL |
| PortfolioSummary.OpenTickers | actions/portfolioSummary.ts:52 | exactly the tickers with quantity > 0 are valued |
| PortfolioSummary.ApplyTx | actions/portfolioSummary.ts:27-48 | the loop body computes the next book of the ledger fold |
| PortfolioSummary.FoldLedger | actions/portfolioSummary.ts:23-49 | the ledger loop computes the fold, and the result is sound |
| PortfolioSummary.CurrentValue | actions/portfolioSummary.ts:55-90 | currentValue is Σ over open tickers of quantity × stored close, else × live price, else invested |
| PortfolioSummary.ValuePosition | actions/portfolioSummary.ts:56-89 | one open ticker adds quantity × the first truthy of stored close and live price, else its invested amount |
| PortfolioSummary.ReportOpen | actions/portfolioSummary.ts:101-108 | every open position, and only those, is reported, with invested = quantity × avg_price |
| PortfolioSummary.GetPortfolioSummary | actions/portfolioSummary.ts:8-110 | a query error gives no data; otherwise the summary's invested is Σ invested, value is the valuation sum, and the variation and positions are as stated |
| PortfolioSummary.FoldStaysNone | actions/portfolioSummary.ts:23-49 | once the totals turn non-finite they stay so |
| PortfolioSummary.NoPricesNoVariation | actions/portfolioSummary.ts:80-94 | with no price for any ticker, every position is carried at invested and the variation is 0 |
| PortfolioSummary.PointOn | actions/portfolioSummary.ts:162-186 | a day's point has positive value and invested, and return = (value − invested)/invested × 100 |
| PortfolioSummary.Series | actions/portfolioSummary.ts:137-190 | the history holds exactly the emitted days between the first and last date, in strictly increasing date order |
| PortfolioSummary.InvestedOn | actions/portfolioSummary.ts:149-157 | the per-day invested is purchases minus sale proceeds |
| PortfolioSummary.PointForDay | actions/portfolioSummary.ts:141-186 | one pass of the day loop computes that day's point |
| PortfolioSummary.GetPortfolioPerformance | actions/portfolioSummary.ts:115-193 | no transactions give an empty history; otherwise the series from the first transaction's date to today |
| PortfolioSummary.InvestedNotionsDiffer | actions/portfolioSummary.ts:149-157 | the summary and the history disagree on invested after a sale (50 against 20) |
| PriceHistory.NetQuantityIsSum | actions/priceHistory.ts:114-122 | a ticker's net quantity is Σ BUY qty − Σ SELL qty, and a ticker has an entry iff it is traded |
| PriceHistory.NetQuantitiesIgnoreOrder | actions/priceHistory.ts:114-122 | reordering the ledger changes no net quantity |
| PriceHistory.CalculatePortfolioValue | actions/priceHistory.ts:100-146 | null transactions value at 0; otherwise Σ quantity × latest close over the tickers held |
| PriceHistory.ValueIgnoresOrder | actions/priceHistory.ts:114-145 | the portfolio value does not depend on transaction order |
| PriceHistory.ValueBounds | actions/priceHistory.ts:128-145 | non-negative closes give a non-negative value; no price rows give 0 |
| PriceHistory.HistoricalPrices | actions/priceHistory.ts:76-95 | the uppercased ticker is queried; null exactly on a query error |
| PriceHistory.HistoricalPricesIgnoreCase | actions/priceHistory.ts:85 | a ticker and its uppercase get the same answer |
| EstimatedDividends.QuantityIsSum | actions/dividends.ts:25-31 | a ticker has an entry iff some transaction's uppercased ticker is it, and its quantity is Σ over those transactions, SELL subtracting and every other kind adding |
| EstimatedDividends.Held | actions/dividends.ts:33 | exactly the entries with quantity > 0, each with its quantity, their tickers in the map's insertion order |
| EstimatedDividends.Candidates | actions/dividends.ts:40-44 | the ticker first, then ticker + ".SA" exactly when it does not already end in ".SA" |
| EstimatedDividends.EventOf | actions/dividends.ts:55-65 | an event carries the ticker, date, positive amount, quantity and total = amount × quantity |
| EstimatedDividends.EventsFrom | actions/dividends.ts:55-67 | only rows with dividends > 0 become events; none exactly when no row pays |
| EstimatedDividends.PlainSymbolWins | actions/dividends.ts:46-68 | events found under the plain symbol stop the search |
| EstimatedDividends.SuffixedRetry | actions/dividends.ts:40-68 | otherwise the ".SA" symbol is tried, unless the ticker already has it |
| EstimatedDividends.FirstFoundEvents | actions/dividends.ts:46-68 | every event found carries the un-suffixed ticker and the held quantity |
| EstimatedDividends.AllEventsHeld | actions/dividends.ts:46-73 | every event is for a held (ticker, quantity) pair, with a positive amount and total = amount × quantity |
| EstimatedDividends.PushEvents | actions/dividends.ts:55-68 | the inner loop appends the candidate's events and sets `found` iff any |
| EstimatedDividends.SearchTicker | actions/dividends.ts:46-70 | the candidate loop appends the first candidate's events that are non-empty |
| EstimatedDividends.SumQuantities | actions/dividends.ts:25-31 | the `forEach` builds the quantity map |
| EstimatedDividends.CollectEvents | actions/dividends.ts:46-73 | the outer loop gathers the events of every held ticker |
| EstimatedDividends.GetEstimatedDividends | actions/dividends.ts:15-77 | no transactions give []; otherwise a permutation of all events, sorted by date |
| DividendSync.NormalizeTicker | app/api/cron/dividends/route.ts:22 | the uppercase ticker, less three characters when ".SA" occurs in it |
| DividendSync.SuffixedAndPlainAgree | app/api/cron/dividends/route.ts:22 | "X.SA" and "X" normalise to the same key |
| DividendSync.EvtsOf | app/api/cron/dividends/route.ts:35-40 | only rows paying dividends > 0 give events; none exactly when no row pays |
| DividendSync.FetchCandidates | app/api/cron/dividends/route.ts:25 | [ticker, ticker + ".SA"], or [ticker, ticker] when the ticker already ends with ".SA" |
| DividendSync.FirstYieldSpec | app/api/cron/dividends/route.ts:24-48 | [] iff no candidate yields a paying row; otherwise some candidate's events |
| DividendSync.FetchDividends | app/api/cron/dividends/route.ts:24-48 | the candidate loop returns the first candidate's non-empty events |
| DividendSync.Normalized | app/api/cron/dividends/route.ts:80-81 | only the ticker is normalised |
| DividendSync.GroupedKeys | app/api/cron/dividends/route.ts:76-88 | a group exists iff some transaction has that portfolio and normalised ticker |
| DividendSync.GroupedHoldsGroupOf | app/api/cron/dividends/route.ts:76-88 | a group holds exactly its key's transactions, in order |
| DividendSync.GroupsPartition | app/api/cron/dividends/route.ts:76-88 | the groups' sizes add up to the number of transactions, so each lands in one group |
| DividendSync.GroupTransactions | app/api/cron/dividends/route.ts:76-88 | the `forEach` builds the grouping |
| DividendSync.QtyAtDate | app/api/cron/dividends/route.ts:113-119 | the loop computes Σ over transactions dated ≤ the event of (SELL ? −qty : +qty) |
| DividendSync.QtyAtIgnoresOrder | app/api/cron/dividends/route.ts:113-119 | the quantity at a date does not depend on order |
| DividendSync.QtyAtAfterLastTrade | app/api/cron/dividends/route.ts:113-119 | after the last trade it is the full signed sum |
| DividendSync.RowFor | app/api/cron/dividends/route.ts:131-139 | the row stores the date, amount, quantity and total = amount × quantity |
| DividendSync.Decide | app/api/cron/dividends/route.ts:120-146 | an event is stored iff quantity > 0, its `date:amount` key is new and the insert succeeds |
| DividendSync.StoredRowsSound | app/api/cron/dividends/route.ts:112-147 | every stored row has positive quantity at its date, a correct total and a key not already present |
| DividendSync.StoredIgnoresOrder | app/api/cron/dividends/route.ts:113-147 | the rows stored do not depend on transaction order |
| DividendSync.RepeatedEventStoredTwice | app/api/cron/dividends/route.ts:102-147 | the key set is not updated by inserts, so an event listed twice is stored twice |
| DividendSync.ProcessGroup | app/api/cron/dividends/route.ts:93-147 | inserted counts the stored rows and inserted + skipped is the number of events |
| DividendSync.JobRowsSound | app/api/cron/dividends/route.ts:93-148 | every row the job stores belongs to a group and has a positive quantity and a correct total |
| DividendSync.SyncGroups | app/api/cron/dividends/route.ts:93-148 | the group loop stores the job's rows and counts every event once |
| DividendSync.Get | app/api/cron/dividends/route.ts:50-158 | 401 without the secret, 500 on a missing key or a query error, otherwise the counts of the sync |
| CronAuth.ProvidedSecret | app/api/cron/dividends/route.ts:52-56 | without a header the query parameter is used; a bearer token is never empty; a non-empty header without "Bearer " (such as "Basic x") is used whole |
| CronAuth.Authorized | app/api/cron/dividends/route.ts:52-59 | no configured secret never authorises; otherwise the provided secret must equal it |
| CronAuth.BearerHeaderSuppliesToken | app/api/cron/update-prices/route.ts:79-87 | "Bearer t" supplies t, and authorises iff t is the secret |
| Finance.GetProvider | lib/services/finance/FinanceService.ts:18-31 | ".SA" routes to brapi; a ticker not starting with a capital routes to yahoo |
| Finance.CapitalsThenDigitRouteToBrapi | lib/services/finance/FinanceService.ts:27 | four capitals and a 3 or 4 route to brapi whatever follows |
| Finance.RoutingExamples | lib/services/finance/FinanceService.ts:24-30 | PETR4, KNRI11, BBS11 and any ".SA" ticker go to brapi; AAPL, IVV, lowercase petr4 and PETR11X go to yahoo |
| Finance.YahooSymbol | lib/services/finance/FinanceService.ts:47-50 | ".SA" is appended unless already there |
| Finance.FetchLive | lib/services/finance/FinanceService.ts:43-50 | one provider call, and exactly one yahoo retry after a null brapi answer |
| Finance.FinanceService.constructor | lib/services/finance/FinanceService.ts:12-16 | the cache starts empty |
| Finance.FinanceService.GetQuote | lib/services/finance/FinanceService.ts:33-57 | a fresh entry answers with no call; otherwise a live fetch, cached for 300000 ms only when non-null |
| Finance.FinanceService.GetQuotes | lib/services/finance/FinanceService.ts:59-63 | the non-null answers the cache at the start would give, in input order; the cache afterwards is `Refreshed`: each ticker fetched live with an answer holds it until now + 300000 ms, every other entry is unchanged |
| Finance.RefreshStep | lib/services/finance/FinanceService.ts:33-63 | within one batch every `getQuote` answers what the cache at the start of the batch would have answered, and its cache update is the batch's `Refreshed` cache extended by its ticker |
| Finance.RefreshedCoherent | lib/services/finance/FinanceService.ts:33-63 | the cache a batch leaves keeps every entry fresh at its start, every fresh entry answers as the start cache did, and every non-null answer of the batch is a fresh entry |
| UpdatePrices.QuoteServiceRoutingIsLooser | app/api/cron/update-prices/route.ts:11-15 | every B3 ticker routes to brapi, but "AAPL34" routes to brapi without being B3 |
| UpdatePrices.RowsOf | app/api/cron/update-prices/route.ts:36-44 | one row per bar, carrying the ticker |
| UpdatePrices.FetchHistory | app/api/cron/update-prices/route.ts:17-69 | B3 rows come from brapi under the ticker without ".SA", others from yahoo; empty history fails |
| UpdatePrices.RunUpdates | app/api/cron/update-prices/route.ts:114-145 | success + failed = tickers and one error per failure |
| UpdatePrices.Get | app/api/cron/update-prices/route.ts:76-165 | 401 iff unauthorised; 500 for a missing service key or a failed query; once those pass, `updated: 0` iff there are no tickers and a run report iff there are some, with total = success + failed, failed = the number of tickers whose fetch or upsert failed, and the error list exactly those failures, omitted iff there are none |
| Analytics.HasHistory | actions/analytics.ts:8-29 | true iff the count is over 100; any error gives false |
| Analytics.Growth | actions/analytics.ts:48-50 | the return r satisfies r × previous = current − previous |
| Analytics.Returns | actions/analytics.ts:48-50 | n − 1 returns, each from a row and the next, older one |
| Analytics.Variance | actions/analytics.ts:53-54 | the population variance is non-negative |
| Analytics.ConstantSeriesHasNoVariance | actions/analytics.ts:53-54 | a constant series has its value as mean and variance 0 |
| Analytics.VolatilityOf | actions/analytics.ts:45-57 | null for fewer than 10 prices; otherwise sqrt(variance) × sqrt(252) × 100 of the returns |
| Analytics.VolatilityNonNegative | actions/analytics.ts:55-57 | the volatility is never negative |
| Analytics.ConstantPriceHasNoVolatility | actions/analytics.ts:45-57 | a constant price has volatility 0 |
| Analytics.Recent | actions/analytics.ts:38-43 | the first min(days, number of rows) rows of the newest-first list |
| Analytics.ReadColumn | actions/analytics.ts:40 | a column that does not exist gives no data |
| Analytics.VolatilityAsWrittenIsAlwaysNull | actions/analytics.ts:40-60 | selecting `close_price` makes the volatility null on every input |
| Analytics.CorrectedVolatilityUsesCloses | actions/analytics.ts:40-57 | reading `close` gives the volatility of the closes, finite once 10 rows with non-zero closes exist |
| Analytics.PortfolioMetrics | actions/analytics.ts:66-80 | a value iff history exists, with positive volatility and beta |
| Analytics.PortfolioDrawdown | actions/analytics.ts:85-103 | a value iff history exists; every point lies between the maximum drawdown and 0 |
| Analytics.PortfolioRiskReturn | actions/analytics.ts:108-119 | a value iff history exists: three assets with positive risk and return |
| Analytics.PortfolioCorrelation | actions/analytics.ts:124-138 | a value iff history exists: a square, symmetric matrix with a unit diagonal, one row per ticker |
| DividendsMatrix.MonthsListEachMonthOnce | components/dashboard/dividends/DividendsMatrix.tsx:41 | the columns are the twelve months, each once |
| DividendsMatrix.RowAfterAdd | components/dashboard/dividends/DividendsMatrix.tsx:27-30 | adding a transaction raises its year's row total by its value |
| DividendsMatrix.YearTotalIsRowSum | components/dashboard/dividends/DividendsMatrix.tsx:27-33 | a year's total equals the sum of its row |
| DividendsMatrix.Average | components/dashboard/dividends/DividendsMatrix.tsx:77-78 | the average is the total over 12 months, between 0 and the total |
| DividendsMatrix.CellStep | components/dashboard/dividends/DividendsMatrix.tsx:27-30 | one iteration adds the value to its cell |
| DividendsMatrix.YearStep | components/dashboard/dividends/DividendsMatrix.tsx:32-33 | one iteration adds the value to its year |
| DividendsMatrix.Accumulate | components/dashboard/dividends/DividendsMatrix.tsx:19-34 | the `forEach` builds the per-cell and per-year sums and the year set |
| DividendsMatrix.NewestFirst | components/dashboard/dividends/DividendsMatrix.tsx:36 | distinct years sorted by the comparator are strictly descending |
| DividendsMatrix.BuildMatrix | components/dashboard/dividends/DividendsMatrix.tsx:12-39 | years are the distinct years, descending; each total is its row's sum; the totals add up to all values |
| DividendsByAsset.GroupedValue | components/dashboard/dividends/DividendsByAsset.tsx:18-23 | the accumulator of a name is NaN exactly when its last transaction's total is NaN, and otherwise the sum of its totals after its last NaN (a falsy NaN restarts at 0); 0 for an absent name |
| DividendsByAsset.GroupedKeys | components/dashboard/dividends/DividendsByAsset.tsx:18-23 | the accumulator's keys are the distinct names in first-seen order |
| DividendsByAsset.NaNThenNumberRestarts | components/dashboard/dividends/DividendsByAsset.tsx:20-21 | totals [NaN, 5] for one ticker give a slice of 5 |
| DividendsByAsset.NumberThenNaNIsNaN | components/dashboard/dividends/DividendsByAsset.tsx:20-21 | totals [5, NaN] for one ticker give a NaN slice |
| DividendsByAsset.GroupedSlices | components/dashboard/dividends/DividendsByAsset.tsx:18-26 | the entries of the accumulator are exactly the reference slices, one per name in first-seen order, each with its reference value |
| DividendsByAsset.LargestFirst | components/dashboard/dividends/DividendsByAsset.tsx:27 | sorted slices run by value descending |
| DividendsByAsset.ByAsset | components/dashboard/dividends/DividendsByAsset.tsx:15-30 | [] for no transactions; otherwise a permutation of the reference slices (value per ValueOf, NaN reset included), by value descending |
| DividendsByAsset.OneSlicePerName | components/dashboard/dividends/DividendsByAsset.tsx:18-26 | one slice per distinct ticker, "Outros" standing for a missing one |
| DividendsByAsset.SlicesAddUp | components/dashboard/dividends/DividendsByAsset.tsx:18-26 | without NaN totals, every slice is a number and the slices add up to the sum of all totals |
| DividendsSummary.LabelsTellMonthsApart | components/dashboard/dividends/DividendsSummary.tsx:23-24 | the zero-padded `MM/YYYY` label is equal iff the month is |
| DividendsSummary.SameMonths | components/dashboard/dividends/DividendsSummary.tsx:21-31 | the buckets have the same month keys as the first-seen and the sum groupings |
| DividendsSummary.BucketAt | components/dashboard/dividends/DividendsSummary.tsx:21-31 | a bucket is its month's first transaction with the month's sum as value |
| DividendsSummary.BucketKeys | components/dashboard/dividends/DividendsSummary.tsx:21-31 | one bucket per distinct month, in first-seen order |
| DividendsSummary.BucketContents | components/dashboard/dividends/DividendsSummary.tsx:21-31 | label and raw date come from the month's first transaction; the value is the month's sum, NaN if any total is |
| DividendsSummary.BarsAddUpToTotal | components/dashboard/dividends/DividendsSummary.tsx:18-31 | the bars add up to the headline total |
| DividendsSummary.Summary | components/dashboard/dividends/DividendsSummary.tsx:13-36 | total 0 and no data for no input; the total sum; a permutation of the buckets sorted by raw date |
| TransactionsChart.LabelsTellMonthsApart | components/dashboard/transactions/TransactionsChart.tsx:26-30 | the unpadded `month/year` label is equal iff the month is |
| TransactionsChart.BarKeys | components/dashboard/transactions/TransactionsChart.tsx:24-40 | one bar per distinct month, in first-seen order |
| TransactionsChart.SameMonths | components/dashboard/transactions/TransactionsChart.tsx:24-40 | the bars have the same keys as the first-seen, buy and sell groupings |
| TransactionsChart.BarAt | components/dashboard/transactions/TransactionsChart.tsx:24-40 | a bar is its month's first transaction with the month's buy and sell sums |
| TransactionsChart.BarContents | components/dashboard/transactions/TransactionsChart.tsx:24-40 | label and date come from the first transaction; buy sums BUY totals and sell subtracts SELL totals |
| TransactionsChart.BuysUpSellsDown | components/dashboard/transactions/TransactionsChart.tsx:32-37 | with non-negative totals, buy ≥ 0 ≥ sell |
| TransactionsChart.Chart | components/dashboard/transactions/TransactionsChart.tsx:20-44 | [] for no input; otherwise a permutation of the bars sorted by timestamp |
| ProfitabilityChart.LastWriteWins | components/dashboard/performance/ProfitabilityChart.tsx:44-56 | one entry per distinct key in first-seen order, holding the last point with that key |
| ProfitabilityChart.MonthlyMap | components/dashboard/performance/ProfitabilityChart.tsx:44-49 | the month map after the `forEach` is the last-write map of the points keyed by (year, month) |
| ProfitabilityChart.YearlyMap | components/dashboard/performance/ProfitabilityChart.tsx:51-56 | the year map after the `forEach` is the last-write map of the points keyed by year |
| ProfitabilityChart.Series | components/dashboard/performance/ProfitabilityChart.tsx:32-63 | three empty series for no input; the main series is the points mapped in order; monthly and yearly keep each month's and year's last return |
| LeadDiagnostic.PercentIsTwiceTheSum | components/landing/LeadDiagnostic.tsx:100-102 | over five questions, the rounded percentage is twice the score sum |
| LeadDiagnostic.StatusBands | components/landing/LeadDiagnostic.tsx:103-106 | "Em risco" iff sum < 25, "Sólido" iff sum ≥ 38, "Em evolução" otherwise |
| LeadDiagnostic.SumBounds | components/landing/LeadDiagnostic.tsx:100-101 | the sum lies between count × lowest and count × highest score |
| LeadDiagnostic.AnsweredRange | components/landing/LeadDiagnostic.tsx:22-34 | a fully answered questionnaire scores between 30% and 90% |
| LeadDiagnostic.Ratings | components/landing/LeadDiagnostic.tsx:59-60 | one rating per question, in order, an unanswered one scoring 0 |
| LeadDiagnostic.Ranked | components/landing/LeadDiagnostic.tsx:197-199 | the stable sort is a permutation, strictly ordered by score and then question order |
| LeadDiagnostic.WeakestAreLowest | components/landing/LeadDiagnostic.tsx:59-64 | the two weakest areas rank below every other |
| LeadDiagnostic.WeakestNamesTwoAreas | components/landing/LeadDiagnostic.tsx:59-66 | the summary names two different areas of the questionnaire, so its default text never applies |
| LeadDiagnostic.SwotDefaults | components/landing/LeadDiagnostic.tsx:197-205 | strengths are the two best areas and weaknesses the two worst, each default text naming its area and score |
| LeadDiagnostic.Fill | components/landing/LeadDiagnostic.tsx:170 | the bar fill is score/10 × 110, clamped to [3, 110] |
| LeadDiagnostic.FillMonotone | components/landing/LeadDiagnostic.tsx:170 | a higher score never gives a shorter bar |
| LeadDiagnostic.BlockFits | components/landing/LeadDiagnostic.tsx:81-86 | after `ensureSpace`, a block that fits a page ends above the bottom margin |
| LeadDiagnostic.LinesStayOnPage | components/landing/LeadDiagnostic.tsx:88-98 | every wrapped line is drawn above the bottom margin |
| LeadDiagnostic.PdfCursor.constructor | components/landing/LeadDiagnostic.tsx:79 | the cursor starts at y = 22 on page 1 |
| LeadDiagnostic.PdfCursor.EnsureSpace | components/landing/LeadDiagnostic.tsx:81-86 | a new page and y = 22 exactly when the block would pass 285 |
| LeadDiagnostic.PdfCursor.Wrap | components/landing/LeadDiagnostic.tsx:88-98 | y and the page count after drawing the lines one by one |
| LeadDiagnostic.AnswerAdvances | components/landing/LeadDiagnostic.tsx:256-267 | answering moves one step on, records the question's id, and raises progress, which reaches 100 after the last question |
| LeadDiagnostic.Diagnostic.constructor | components/landing/LeadDiagnostic.tsx:249-250 | step 0 and no answers |
| LeadDiagnostic.Diagnostic.Start | components/landing/LeadDiagnostic.tsx:313-325 | the start button moves to step 1 |
| LeadDiagnostic.Diagnostic.HandleAnswer | components/landing/LeadDiagnostic.tsx:259-267 | no question, no change; otherwise the answer is stored and the step advances |
| LeadDiagnostic.SubmitNeedsEveryField | components/landing/LeadDiagnostic.tsx:269-275 | a lead is sent iff name, email and phone are non-blank after trimming |
| CvmApi.CleanCnpj | actions/cvmApi.ts:21 | only digits remain, and the result is no longer |
| CvmApi.CleanAppend | actions/cvmApi.ts:21 | cleaning distributes over concatenation |
| CvmApi.CleanOfDigits | actions/cvmApi.ts:21 | digits are kept as they are |
| CvmApi.CleanDropsOthers | actions/cvmApi.ts:21 | any non-digit is removed |
| CvmApi.CleanIdempotent | actions/cvmApi.ts:21 | cleaning twice is cleaning once |
| CvmApi.LayoutMatches | actions/cvmApi.ts:104 | every layout of the digit groups with optional separators matches the pattern and cleans back to its digits |
| CvmApi.MatchIsLayout | actions/cvmApi.ts:104 | every match is such a layout of its cleaned digits |
| CvmApi.CnpjPattern | actions/cvmApi.ts:101-106 | the trimmed query matches iff it is 14 digits laid out 2.3.3/4-2 with each separator optional |
| CvmApi.CnpjQueryCleansTo14Digits | actions/cvmApi.ts:104-108 | a query that matches cleans to 14 digits |
| Common.SplitJoin | actions/cvmApi.ts:41 | joining the parts of `split(';')` with ';' gives the line back |
| CvmApi.FundOf | actions/cvmApi.ts:41-48 | cnpj, nome and tipo are columns 0, 1 and 4 of the line split at ';' when present and non-empty, else the clean CNPJ, "Fundo sem nome" and "Indefinido"; there is no ticker |
| CvmApi.FirstRowFrom | actions/cvmApi.ts:38-50 | the first line from i on that contains the needle |
| CvmApi.SearchFundByCnpj | actions/cvmApi.ts:18-57 | the loop returns the fund the lookup defines |
| CvmApi.FundLookupFinds | actions/cvmApi.ts:35-52 | a fund iff some data line contains the clean CNPJ, and then the first such line |
| CvmApi.EmptyKeyFindsFirstRow | actions/cvmApi.ts:38-40 | a CNPJ with no digits matches the first data line |
| CvmApi.MatchCount | actions/cvmApi.ts:81-83 | no more matches than words |
| CvmApi.TwoMatches | actions/cvmApi.ts:81-85 | two matches iff two distinct words longer than 3 occur in the stock name |
| CvmApi.OneMatch | actions/cvmApi.ts:81-83 | one match iff one such word occurs |
| CvmApi.FirstStockFrom | actions/cvmApi.ts:79-88 | the first stock from i on whose name shares two words |
| CvmApi.TickerLookupFinds | actions/cvmApi.ts:77-94 | a ticker iff some stock resembles the fund, and then the first such stock's |
| CvmApi.FindTickerForFund | actions/cvmApi.ts:63-95 | the nested loops return the ticker the lookup defines |
| CvmApi.FundAssetOf | actions/cvmApi.ts:114-120 | symbol is the ticker when there is one, else the CNPJ; hasTicker iff a non-empty ticker |
| CvmApi.TickerAssetOf | actions/cvmApi.ts:142-152 | an asset iff brapi returned a result, with its symbol and price; the name is the long name, else the short name, else the symbol; the type is the result's, else "STOCK" |
| CvmApi.SearchAssetUnified | actions/cvmApi.ts:100-160 | a matching query is a fund lookup with ticker guess; any other is a brapi search |
| FinanceActions.MarketOf | actions/finance.ts:27 | BR iff the exchange is SAO; Crypto iff not SAO and a cryptocurrency; else US |
| FinanceActions.NameOf | actions/finance.ts:26 | the long name, else the short name, else the symbol |
| FinanceActions.SearchAssets | actions/finance.ts:5-33 | nothing for a query under 2 characters or a failed request |
| FinanceActions.SearchKeepsListed | actions/finance.ts:22-28 | the hits are exactly the listed quotes' hits, no more of them than quotes |
| FinanceActions.SearchStep | actions/finance.ts:22-28 | one more quote adds its hit exactly when it is listed |
| FinanceActions.GetQuote | actions/finance.ts:35-38 | the quote service's answer for the ticker, or none; the service's cache afterwards is `Finance.Refreshed` of the one ticker |
| CurrencyConverter.Rate | hooks/useCurrencyConverter.ts:6-15 | every rate is positive, and an unknown currency converts at 1 |
| CurrencyConverter.KnownRates | hooks/useCurrencyConverter.ts:6-10 | BRL at 1, USD at 5.15, EUR at 5.58 |
| CurrencyConverter.Linear | hooks/useCurrencyConverter.ts:13-15 | conversion is linear and undone by dividing by the rate |
| CurrencyConverter.KeepsSignAndOrder | hooks/useCurrencyConverter.ts:13-15 | conversion keeps the sign and the order of amounts |
| CurrencyConverter.UnknownIsIdentity | hooks/useCurrencyConverter.ts:14 | a code missing from the table is left as is |

## Left out

- Supabase queries, inserts and upserts, and every `fetch` to brapi, Yahoo, CVM, Groq and the lead route, are not modelled as calls. Their answers are function parameters or `Option`/`DbResult` values.
- `Promise.all` in `getQuotes` is modelled as a sequential map. The `setTimeout` pauses between tickers in the cron routes are left out, since they change no result.
- Dates are whole day numbers or (year, month) pairs. `new Date`, time zones, `toISOString` and `toLocaleDateString` are left out, and formatted date labels are parameters.
- JavaScript numbers are unbounded `real`s, with no rounding or overflow. `Math.sqrt` is a parameter, and `Math.round` of a non-negative value is `Floor(x + 0.5)`.
- NaN is `None` where the model meets it: a `Number(...)` of a missing total in the charts, the 0/0 average price and the non-finite sum of the portfolio summary (actions/portfolioSummary.ts:32-35), a profit percentage over a zero cost in the dashboard's details, and a non-finite return over a zero close in the volatility. Where a NaN value meets the sort in the by-asset chart, the model orders it as 0.
- When the transactions query fails, `getTransactions` throws "Failed to fetch transactions" (actions/transaction.ts:84-87) and `getPortfolioSummary` in actions/dashboard.ts rejects with it. The dashboard model takes the query's data as its input and has no rejected outcome.
- The dividend job keys its groups by the string `portfolio_id:ticker` and splits the key back with `key.split(':')` (app/api/cron/dividends/route.ts:94). The model keeps the key as a pair, so a ticker or portfolio id that contains ':' is not split apart as the source would split it.
- Object key order is modelled as insertion order. JavaScript lists integer-like keys first; the keys here are tickers and month strings, which are not integer-like.
- Case mapping covers ASCII letters only.
- `generatePdf` drawing is left out, apart from the y cursor, the page breaks, the bar fill and the SWOT defaults. So are the `toFixed` summary text, the AI insights request in `handleSubmitLead` and the request that sends the lead.
- The brapi URL with or without `token` is left out, since the query string does not change the answer the model takes as a parameter.
- `fetchAndStoreHistoricalPrices` in actions/priceHistory.ts, the backfill route and script, the CRUD actions and the UI-only components are not part of this model.
- CurrencyConverter.Rate: `Other(code)` stands for any key the rate table lacks, including `undefined`.
- Finance.GetProvider: the contract covers the ".SA" and lowercase cases; the regex alternatives are stated by `Finance.CapitalsThenDigitRouteToBrapi` and compared in `UpdatePrices.QuoteServiceRoutingIsLooser`.
- Analytics.PortfolioMetrics, PortfolioDrawdown, PortfolioRiskReturn and PortfolioCorrelation return the source's fixed literals; the contracts state their shape and signs rather than every number.

## Findings

| source | as written | input that shows it | evidently intended | confidence | as-written member | corrected member |
|---|---|---|---|---|---|---|
| actions/analytics.ts:40 | `calculateVolatility` selects `close_price`, but the price rows are stored with a `close` column (app/api/cron/update-prices/route.ts:42); the query errors and the function returns null | any ticker with 10 or more stored rows | read `close`, so the volatility of the stored closes is returned | not executed | Analytics.VolatilityAsWrittenIsAlwaysNull | Analytics.CorrectedVolatilityUsesCloses |
