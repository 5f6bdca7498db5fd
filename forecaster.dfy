/** `train_arima`: try five ARIMA orders on a monthly cost series, keep the
    fitted model with the lowest AIC, and forecast the months after the
    series' last month.  Fitting and forecasting are statsmodels' numerics and
    enter the model as oracle parameters. */
module Forecaster {
  import opened Wrappers
  import opened Dataset

  /** An ARIMA (p, d, q) order. */
  datatype Order = Order(p: nat, d: nat, q: nat)

  /** The orders tried, in the order they are tried. */
  const CandidateOrders: seq<Order> :=
    [Order(1, 1, 1), Order(2, 1, 1), Order(1, 0, 1), Order(0, 1, 1), Order(1, 1, 0)]

  /** Fewest monthly points a series needs before any model is fitted. */
  const MinPoints: nat := 3

  /** `ARIMA(values, order).fit().aic`: None when fitting raises, or when the
      AIC is NaN or +inf (neither ever compares below the best so far). */
  type FitOracle = (seq<real>, Order) -> Option<real>

  /** One step of `get_forecast(steps)`: predicted mean and the two confidence bounds. */
  datatype ForecastStep = ForecastStep(mean: real, lower: real, upper: real)

  /** `fit(values, order).get_forecast(steps)`: None when it raises. */
  type ForecastOracle = (seq<real>, Order, nat) -> Option<seq<ForecastStep>>

  /** One row of the returned frame: YEAR_MONTH, FORECAST, CONFIDENCE_LOWER, CONFIDENCE_UPPER. */
  datatype ForecastRow = ForecastRow(month: YearMonth, forecast: real, lower: real, upper: real)

  /** The ValueErrors train_arima raises, and a failure inside the forecasting call. */
  datatype ForecastError = InsufficientData | NoModelConverged | ForecastFailed

  /** The AIC each candidate order yields on the series, in candidate order. */
  function Aics(values: seq<real>, fit: FitOracle): (r: seq<Option<real>>)
    ensures |r| == |CandidateOrders|
  {
    seq(|CandidateOrders|, i requires 0 <= i < |CandidateOrders| => fit(values, CandidateOrders[i]))
  }

  /** Index i holds the smallest AIC of the list, and no earlier entry ties with it. */
  ghost predicate IsFirstMinimum(aics: seq<Option<real>>, i: int)
  {
    0 <= i < |aics| && aics[i].Some? &&
    (forall j :: 0 <= j < i && aics[j].Some? ==> aics[i].value < aics[j].value) &&
    (forall j :: i < j < |aics| && aics[j].Some? ==> aics[i].value <= aics[j].value)
  }

  /** The position of the first smallest AIC, None when every fit failed. */
  function FirstMinimum(aics: seq<Option<real>>): (r: Option<nat>)
    ensures r.Some? ==> r.value < |aics| && aics[r.value].Some?
  {
    if aics == [] then None
    else
      var last := |aics| - 1;
      match FirstMinimum(aics[..last])
      case None => if aics[last].Some? then Some(last) else None
      case Some(b) =>
        if aics[last].Some? && aics[last].value < aics[b].value then Some(last) else Some(b)
  }

  /** FirstMinimum finds a model exactly when some fit succeeded, and then the
      first of the lowest AICs. */
  lemma {:induction false} FirstMinimumCorrect(aics: seq<Option<real>>)
    ensures FirstMinimum(aics).None? <==> forall j :: 0 <= j < |aics| ==> aics[j].None?
    ensures FirstMinimum(aics).Some? ==> IsFirstMinimum(aics, FirstMinimum(aics).value)
  {
    if aics != [] {
      var last := |aics| - 1;
      FirstMinimumCorrect(aics[..last]);
      assert forall j :: 0 <= j < last ==> aics[j] == aics[..last][j];
    }
  }

  /** `ts + pd.DateOffset(months=n)` on a month start. */
  function AddMonths(ym: YearMonth, n: int): YearMonth
  {
    FromOrdinal(Ordinal(ym) + n)
  }

  /** The forecast frame: the i-th step is dated i+1 months after `last`. */
  function ForecastRows(last: YearMonth, steps: seq<ForecastStep>): (rows: seq<ForecastRow>)
    ensures |rows| == |steps|
  {
    seq(|steps|, i requires 0 <= i < |steps| =>
      ForecastRow(AddMonths(last, i + 1), steps[i].mean, steps[i].lower, steps[i].upper))
  }

  /** What `train_arima(ts, horizon)` returns or raises. */
  function Forecast(ts: seq<MonthTotal>, horizon: nat, fit: FitOracle, forecast: ForecastOracle)
    : (r: Result<seq<ForecastRow>, ForecastError>)
    ensures r.Ok? ==> |r.value| == horizon
  {
    if |ts| < MinPoints then Err(InsufficientData)
    else
      var values := Totals(ts);
      match FirstMinimum(Aics(values, fit))
      case None => Err(NoModelConverged)
      case Some(b) =>
        match forecast(values, CandidateOrders[b], horizon)
        case None => Err(ForecastFailed)
        case Some(steps) =>
          // the DataFrame constructor raises when the columns differ in length
          if |steps| != horizon then Err(ForecastFailed)
          else Ok(ForecastRows(ts[|ts| - 1].month, steps))
  }

  /** The candidate loop of train_arima, with `float('inf')` as the initial best
      AIC written as None. */
  method TrainArima(ts: seq<MonthTotal>, horizon: nat, fit: FitOracle, forecast: ForecastOracle)
    returns (r: Result<seq<ForecastRow>, ForecastError>)
    ensures r == Forecast(ts, horizon, fit, forecast)
  {
    if |ts| < MinPoints {
      return Err(InsufficientData);
    }
    var values := Totals(ts);
    ghost var aics := Aics(values, fit);
    var best: Option<nat> := None;
    var bestAic: Option<real> := None;
    for i := 0 to |CandidateOrders|
      invariant best == FirstMinimum(aics[..i])
      invariant bestAic == if best.Some? then aics[best.value] else None
    {
      var aic := fit(values, CandidateOrders[i]);
      assert aics[i] == aic;
      assert aics[..i + 1][..i] == aics[..i];
      if aic.Some? && (bestAic.None? || aic.value < bestAic.value) {
        best := Some(i);
        bestAic := aic;
      }
    }
    assert aics[..|CandidateOrders|] == aics;
    if best.None? {
      return Err(NoModelConverged);
    }
    var steps := forecast(values, CandidateOrders[best.value], horizon);
    if steps.None? || |steps.value| != horizon {
      return Err(ForecastFailed);
    }
    r := Ok(ForecastRows(ts[|ts| - 1].month, steps.value));
  }

  // ---------------------------------------------------------------------------
  // What train_arima promises
  // ---------------------------------------------------------------------------

  /** A series of fewer than three months is refused before any fitting, and only then. */
  lemma InsufficientDataIff(ts: seq<MonthTotal>, horizon: nat, fit: FitOracle, forecast: ForecastOracle)
    ensures Forecast(ts, horizon, fit, forecast) == Err(InsufficientData) <==> |ts| < 3
  {
  }

  /** "All ARIMA models failed" exactly when the series is long enough and no candidate fits. */
  lemma NoModelConvergedIff(ts: seq<MonthTotal>, horizon: nat, fit: FitOracle, forecast: ForecastOracle)
    ensures Forecast(ts, horizon, fit, forecast) == Err(NoModelConverged) <==>
      |ts| >= 3 && forall i :: 0 <= i < |CandidateOrders| ==> fit(Totals(ts), CandidateOrders[i]).None?
  {
    if |ts| >= 3 {
      var aics := Aics(Totals(ts), fit);
      FirstMinimumCorrect(aics);
      assert forall i :: 0 <= i < |CandidateOrders| ==> aics[i] == fit(Totals(ts), CandidateOrders[i]);
    }
  }

  /** A forecast comes from the candidate with the lowest AIC (the earliest among
      equals), and reports that model's predictions step by step. */
  lemma ForecastUsesBestModel(ts: seq<MonthTotal>, horizon: nat, fit: FitOracle, forecast: ForecastOracle)
    requires Forecast(ts, horizon, fit, forecast).Ok?
    ensures |ts| >= 3
    ensures exists b :: (IsFirstMinimum(Aics(Totals(ts), fit), b) &&
      forecast(Totals(ts), CandidateOrders[b], horizon).Some? &&
      var steps := forecast(Totals(ts), CandidateOrders[b], horizon).value;
      var rows := Forecast(ts, horizon, fit, forecast).value;
      |steps| == horizon &&
      forall i :: 0 <= i < horizon ==>
        rows[i].forecast == steps[i].mean && rows[i].lower == steps[i].lower && rows[i].upper == steps[i].upper)
  {
    var b := FirstMinimum(Aics(Totals(ts), fit)).value;
    FirstMinimumCorrect(Aics(Totals(ts), fit));
    assert IsFirstMinimum(Aics(Totals(ts), fit), b);
  }

  /** The forecast months start the month after the series' last month and run
      on without gaps, one calendar month apart. */
  lemma ForecastMonthsFollowSeries(ts: seq<MonthTotal>, horizon: nat, fit: FitOracle, forecast: ForecastOracle)
    requires Forecast(ts, horizon, fit, forecast).Ok?
    ensures var rows := Forecast(ts, horizon, fit, forecast).value;
      |ts| > 0 &&
      (horizon > 0 ==> rows[0].month == NextMonth(ts[|ts| - 1].month)) &&
      forall i :: 0 <= i < horizon - 1 ==> rows[i + 1].month == NextMonth(rows[i].month)
  {
    var rows := Forecast(ts, horizon, fit, forecast).value;
    var last := ts[|ts| - 1].month;
    if horizon > 0 {
      NextMonthOrdinal(last);
    }
    forall i | 0 <= i < horizon - 1
      ensures rows[i + 1].month == NextMonth(rows[i].month)
    {
      NextMonthOrdinal(rows[i].month);
    }
  }
}
