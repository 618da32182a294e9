/** app/api/cron/update-prices/route.ts: the stricter B3 classifier, the provider
    routing and row shaping of `fetchHistory`, and the success/failure accounting
    of the `GET` job. Provider responses and database results are parameters. */
module UpdatePrices {
  import opened Common
  import Finance
  import CronAuth

  /** `/^[A-Z]{4}[34]$|^[A-Z]{4}11$|^[A-Z]{3}11$/`: every alternative anchored at
      both ends. */
  predicate StrictB3Pattern(t: string)
  {
    || (|t| == 5 && Finance.AllUpper(t[..4]) && (t[4] == '3' || t[4] == '4'))
    || (|t| == 6 && Finance.AllUpper(t[..4]) && t[4..] == "11")
    || (|t| == 5 && Finance.AllUpper(t[..3]) && t[3..] == "11")
  }

  /** `isB3Ticker`. */
  predicate IsB3Ticker(t: string)
  {
    EndsWith(t, ".SA") || StrictB3Pattern(t)
  }

  /** Every ticker this route treats as B3 is also routed to brapi by the quote
      service, but not conversely: a BDR code such as AAPL34 starts with four
      capitals and a 3, which the quote service's unanchored alternative accepts. */
  lemma {:induction false} QuoteServiceRoutingIsLooser(t: string)
    ensures IsB3Ticker(t) ==> Finance.GetProvider(t) == Finance.Brapi
    ensures Finance.GetProvider("AAPL34") == Finance.Brapi && !IsB3Ticker("AAPL34")
  {
    Finance.CapitalsThenDigitRouteToBrapi("AAPL3", "4");
    assert "AAPL3" + "4" == "AAPL34";
    assert !EndsWith("AAPL34", ".SA") by {
      assert "AAPL34"[3..] != ".SA";
    }
    assert "AAPL34"[4..] == "34";
  }

  /** One daily bar as a provider returns it; `date` is a day number. */
  datatype Bar = Bar(date: int, open: real, high: real, low: real, close: real, volume: real)

  /** One row of the price_history table. */
  datatype PriceRow = PriceRow(ticker: string, date: int, open: real, high: real, low: real, close: real, volume: real)

  datatype HistoryError = BrapiHttpError | BrapiNoData | YahooFailed | YahooNoData

  datatype History = HistoryOk(rows: seq<PriceRow>) | HistoryFailed(error: HistoryError)

  function RowsOf(ticker: string, bars: seq<Bar>): (rows: seq<PriceRow>)
    ensures |rows| == |bars|
    ensures forall i :: 0 <= i < |bars| ==>
      rows[i] == PriceRow(ticker, bars[i].date, bars[i].open, bars[i].high, bars[i].low, bars[i].close, bars[i].volume)
  {
    seq(|bars|, i requires 0 <= i < |bars| =>
      PriceRow(ticker, bars[i].date, bars[i].open, bars[i].high, bars[i].low, bars[i].close, bars[i].volume))
  }

  /** `fetchHistory(ticker, days)`. `brapi(base)` is brapi's history for the ticker
      without `.SA` (None: the request failed or was not ok), `yahoo(symbol)` is
      yahoo's history (None: the call threw). An empty history is an error. */
  function FetchHistory(ticker: string, brapi: string -> Option<seq<Bar>>, yahoo: string -> Option<seq<Bar>>): (r: History)
    ensures r.HistoryOk? ==> |r.rows| > 0
    ensures IsB3Ticker(Upper(ticker)) ==>
      var base := ReplaceFirst(Upper(ticker), ".SA", "");
      && (r.HistoryOk? <==> brapi(base).Some? && brapi(base).value != [])
      && (r.HistoryOk? ==> r.rows == RowsOf(base, brapi(base).value))
    ensures !IsB3Ticker(Upper(ticker)) ==>
      && (r.HistoryOk? <==> yahoo(Upper(ticker)).Some? && yahoo(Upper(ticker)).value != [])
      && (r.HistoryOk? ==> r.rows == RowsOf(Upper(ticker), yahoo(Upper(ticker)).value))
  {
    var normalized := Upper(ticker);
    var base := ReplaceFirst(normalized, ".SA", "");
    if IsB3Ticker(normalized) then
      match brapi(base)
      case None => HistoryFailed(BrapiHttpError)
      case Some(bars) => if bars == [] then HistoryFailed(BrapiNoData) else HistoryOk(RowsOf(base, bars))
    else
      match yahoo(normalized)
      case None => HistoryFailed(YahooFailed)
      case Some(bars) => if bars == [] then HistoryFailed(YahooNoData) else HistoryOk(RowsOf(normalized, bars))
  }

  datatype FailReason = FetchFailed(error: HistoryError) | UpsertFailed

  /** One entry of `errors`: the ticker and why it failed. */
  datatype Failure = Failure(ticker: string, reason: FailReason)

  /** Whether the job fails for ticker `t`, and why; `upsertOk(t)` is the result of
      upserting its rows. */
  function FailureOf(t: string, brapi: string -> Option<seq<Bar>>, yahoo: string -> Option<seq<Bar>>,
                     upsertOk: string -> bool): Option<Failure>
  {
    match FetchHistory(t, brapi, yahoo)
    case HistoryFailed(e) => Some(Failure(t, FetchFailed(e)))
    case HistoryOk(_) => if upsertOk(t) then None else Some(Failure(t, UpsertFailed))
  }

  function Failures(ts: seq<string>, brapi: string -> Option<seq<Bar>>, yahoo: string -> Option<seq<Bar>>,
                    upsertOk: string -> bool): seq<Failure>
  {
    if ts == [] then []
    else
      var last := FailureOf(ts[|ts| - 1], brapi, yahoo, upsertOk);
      Failures(ts[..|ts| - 1], brapi, yahoo, upsertOk) + (if last.Some? then [last.value] else [])
  }

  /** The ticker loop of `GET`: every ticker adds to exactly one of the two counters,
      and every failure pushes one error. */
  method RunUpdates(tickers: seq<string>, brapi: string -> Option<seq<Bar>>, yahoo: string -> Option<seq<Bar>>,
                    upsertOk: string -> bool)
    returns (success: nat, failed: nat, errors: seq<Failure>)
    ensures errors == Failures(tickers, brapi, yahoo, upsertOk)
    ensures success + failed == |tickers|
    ensures failed == |errors|
  {
    success, failed, errors := 0, 0, [];
    for i := 0 to |tickers|
      invariant errors == Failures(tickers[..i], brapi, yahoo, upsertOk)
      invariant success + failed == i
      invariant failed == |errors|
    {
      assert tickers[..i + 1][..i] == tickers[..i];
      var t := tickers[i];
      match FetchHistory(t, brapi, yahoo)
      case HistoryFailed(e) =>
        errors := errors + [Failure(t, FetchFailed(e))];
        failed := failed + 1;
      case HistoryOk(_) =>
        if upsertOk(t) {
          success := success + 1;
        } else {
          errors := errors + [Failure(t, UpsertFailed)];
          failed := failed + 1;
        }
    }
    assert tickers[..|tickers|] == tickers;
  }

  datatype Response =
    | Unauthorized
    | ServerError
    | NothingToUpdate
    | Updated(total: nat, success: nat, failed: nat, errors: Option<seq<Failure>>)

  /** `GET`. `tickerRows` is the ticker column of the transactions query. */
  method Get(authHeader: Option<string>, secretParam: Option<string>, cronSecret: Option<string>,
             serviceKeySet: bool, tickerRows: DbResult<seq<string>>,
             brapi: string -> Option<seq<Bar>>, yahoo: string -> Option<seq<Bar>>, upsertOk: string -> bool)
    returns (resp: Response)
    ensures !CronAuth.Authorized(authHeader, secretParam, cronSecret) ==> resp == Unauthorized
    ensures CronAuth.Authorized(authHeader, secretParam, cronSecret) && (!serviceKeySet || tickerRows.DbError?) ==> resp == ServerError
    ensures resp.NothingToUpdate? || resp.Updated? ==> tickerRows.DbOk?
    ensures CronAuth.Authorized(authHeader, secretParam, cronSecret) && serviceKeySet && tickerRows.DbOk? ==>
      && (resp.NothingToUpdate? <==> tickerRows.data.None? || Dedup(tickerRows.data.value) == [])
      && (resp.Updated? <==> tickerRows.data.Some? && Dedup(tickerRows.data.value) != [])
    ensures resp.NothingToUpdate? ==> tickerRows.data.None? || Dedup(tickerRows.data.value) == []
    ensures resp.Updated? ==> tickerRows.DbOk? && tickerRows.data.Some?
    ensures resp.Updated? && tickerRows.DbOk? && tickerRows.data.Some? ==>
      var unique := Dedup(tickerRows.data.value);
      && resp.total == |unique| > 0
      && resp.total == resp.success + resp.failed
      && (resp.errors.None? <==> resp.failed == 0)
      && (resp.errors.Some? ==> resp.errors.value == Failures(unique, brapi, yahoo, upsertOk) && |resp.errors.value| == resp.failed)
      && resp.failed == |Failures(unique, brapi, yahoo, upsertOk)|
      && (resp.errors.None? <==> Failures(unique, brapi, yahoo, upsertOk) == [])
  {
    if !CronAuth.Authorized(authHeader, secretParam, cronSecret) {
      return Unauthorized;
    }
    if !serviceKeySet || tickerRows.DbError? {
      return ServerError;
    }
    var tickers := if tickerRows.data.Some? then tickerRows.data.value else [];
    var unique := Dedup(tickers);
    if |unique| == 0 {
      return NothingToUpdate;
    }
    var success, failed, errors := RunUpdates(unique, brapi, yahoo, upsertOk);
    resp := Updated(|unique|, success, failed, if |errors| > 0 then Some(errors) else None);
  }
}
