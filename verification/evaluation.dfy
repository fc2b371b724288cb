/** Walk-forward (rolling-origin) evaluation and the accuracy metrics of
    scripts/2_forecasting_models.py.

    `rolling_origin_forecast` indexes a numpy array with a start that may
    be negative (`start = len(data) - 12` on a short series), so Python's
    negative-index slicing is modelled exactly. RMSE's square root is left
    out; the mean squared error under it is modelled. */
module Evaluation {
  import opened Results
  import opened Stats
  import opened Forecast

  /** Python's `s[:t]`: a negative end counts from the back, clamped at 0. */
  function PrefixUpTo(s: seq<real>, t: int): (r: seq<real>)
    ensures r <= s
    ensures |r| == (if t < 0 then (if |s| + t > 0 then |s| + t else 0) else if t <= |s| then t else |s|)
    ensures 0 <= t <= |s| ==> r == s[..t]
  {
    if t >= 0 then s[..if t <= |s| then t else |s|]
    else s[..if |s| + t > 0 then |s| + t else 0]
  }

  /** Python's `s[t]`, which fails outside -len(s) <= t < len(s). */
  function ElementAt(s: seq<real>, t: int): (r: Option<real>)
    ensures r.Some? <==> -|s| <= t < |s|
    ensures 0 <= t < |s| ==> r == Some(s[t])
    ensures -|s| <= t < 0 ==> r == Some(s[|s| + t])
  {
    if 0 <= t < |s| then Some(s[t])
    else if -|s| <= t < 0 then Some(s[|s| + t])
    else None
  }

  /** Forecasts paired with the observations they target. */
  datatype Backtest = Backtest(forecasts: seq<real>, actuals: seq<real>)

  /** Period t of the walk can be evaluated: its history yields a forecast
      and its observation exists. */
  predicate Evaluable(data: seq<real>, f: seq<real> -> Result<real>, t: int)
  {
    f(PrefixUpTo(data, t)).Ok? && ElementAt(data, t).Some?
  }

  /** `rolling_origin_forecast(data, f, start)`: for every t from `start`
      to the end, forecast from `data[:t]` and record `data[t]`. The walk
      succeeds exactly when every period is evaluable; then it yields
      `len(data) - start` pairs, pair k targeting period start + k. */
  function RollingOrigin(data: seq<real>, f: seq<real> -> Result<real>, start: int): (r: Result<Backtest>)
    ensures r.Ok? <==> forall t :: start <= t < |data| ==> Evaluable(data, f, t)
    ensures r.Ok? ==> |r.value.forecasts| == |r.value.actuals| == (if start < |data| then |data| - start else 0)
    ensures r.Ok? ==> forall k :: 0 <= k < |r.value.forecasts| ==>
      Evaluable(data, f, start + k)
      && r.value.forecasts[k] == f(PrefixUpTo(data, start + k)).value
      && r.value.actuals[k] == ElementAt(data, start + k).value
    decreases |data| - start
  {
    if start >= |data| then Ok(Backtest([], []))
    else
      match f(PrefixUpTo(data, start))
      case Err(e) => assert !Evaluable(data, f, start); Err(e)
      case Ok(fc) =>
        match ElementAt(data, start)
        case None => assert !Evaluable(data, f, start); Err(IndexOutOfRange)
        case Some(actual) =>
          match RollingOrigin(data, f, start + 1)
          case Err(e) => Err(e)
          case Ok(rest) => Ok(Backtest([fc] + rest.forecasts, [actual] + rest.actuals))
  }

  /** The evaluation policy: score the last twelve periods. */
  function EvaluationStart(data: seq<real>): int
  {
    |data| - 12
  }

  /** Any successful evaluation from `len(data) - 12` scores exactly
      twelve periods, whatever the length of the series. */
  lemma LastTwelvePeriods(data: seq<real>, f: seq<real> -> Result<real>)
    requires RollingOrigin(data, f, EvaluationStart(data)).Ok?
    ensures |RollingOrigin(data, f, EvaluationStart(data)).value.forecasts| == 12
    ensures |RollingOrigin(data, f, EvaluationStart(data)).value.actuals| == 12
  {
  }

  /** For the naive and moving-average strategies the last-twelve
      evaluation succeeds exactly when the series has at least 13 periods:
      with fewer, some scored period (period 0, or the first one on an
      empty series) has an empty history. */
  lemma CausalEvaluationDefined(data: seq<real>, s: Strategy)
    ensures WellConfigured(s) ==>
      (RollingOrigin(data, Forecaster(s), EvaluationStart(data)).Ok? <==> |data| >= 13)
  {
    if !WellConfigured(s) {
      return;
    }
    var start := EvaluationStart(data);
    if |data| >= 13 {
      forall t | start <= t < |data|
        ensures Evaluable(data, Forecaster(s), t)
      {
        assert |PrefixUpTo(data, t)| == t;
      }
    } else {
      var t := if |data| > 0 then 0 else start;
      assert PrefixUpTo(data, t) == [];
      assert !Evaluable(data, Forecaster(s), t);
    }
  }

  /** Walk-forward causality: with a non-negative start, forecast k only
      sees the observations strictly before its target period, and the
      recorded actual is that target observation. */
  lemma RollingOriginCausal(data: seq<real>, other: seq<real>, f: seq<real> -> Result<real>, start: int, k: nat)
    requires 0 <= start && start + k < |data| && start + k < |other|
    requires data[..start + k] == other[..start + k]
    requires RollingOrigin(data, f, start).Ok? && RollingOrigin(other, f, start).Ok?
    ensures RollingOrigin(data, f, start).value.forecasts[k] == RollingOrigin(other, f, start).value.forecasts[k]
    ensures RollingOrigin(data, f, start).value.actuals[k] == data[start + k]
  {
  }

  /** The squared error `(actual - forecast)**2` of one forecast, written
      as |actual - forecast| * |forecast - actual| so that the solver sees
      a product of two terms; `SquaredErrorIsSquare` shows it is the square.
      It is zero when the forecast is right and positive when it is wrong. */
  function SquaredError(actual: real, forecast: real): (r: real)
    ensures actual == forecast ==> r == 0.0
    ensures actual != forecast ==> r > 0.0
  {
    var u, v := Abs(actual - forecast), Abs(forecast - actual);
    if u > 0.0 then PositiveProduct(u, v); u * v else 0.0
  }

  lemma SquaredErrorIsSquare(actual: real, forecast: real)
    ensures SquaredError(actual, forecast) == (actual - forecast) * (actual - forecast)
  {
  }

  lemma PositiveProduct(a: real, b: real)
    requires a > 0.0 && b > 0.0
    ensures a * b > 0.0
  {
  }

  function AbsoluteErrors(forecasts: seq<real>, actuals: seq<real>): (e: seq<real>)
    requires |forecasts| == |actuals|
    ensures |e| == |actuals|
  {
    seq(|actuals|, i requires 0 <= i < |actuals| => Abs(actuals[i] - forecasts[i]))
  }

  /** A metric built from per-period terms that are zero on a correct
      forecast and positive on a wrong one is zero exactly on a perfect
      forecast and positive otherwise. */
  lemma MeanOfErrorTerms(forecasts: seq<real>, actuals: seq<real>, terms: seq<real>)
    requires |forecasts| == |actuals| == |terms| > 0
    requires forall i :: 0 <= i < |terms| ==> actuals[i] == forecasts[i] ==> terms[i] == 0.0
    requires forall i :: 0 <= i < |terms| ==> actuals[i] != forecasts[i] ==> terms[i] > 0.0
    ensures Mean(terms).value >= 0.0
    ensures forecasts == actuals ==> Mean(terms).value == 0.0
    ensures forecasts != actuals ==> Mean(terms).value > 0.0
  {
    assert forall i :: 0 <= i < |terms| ==> terms[i] >= 0.0;
    SumNonNegative(terms);
    var n := |terms| as real;
    assert Mean(terms).value == Sum(terms) / n;
    if forecasts == actuals {
      assert Sum(terms) == 0.0;
    } else {
      var i :| 0 <= i < |terms| && actuals[i] != forecasts[i];
      assert terms[i] != 0.0;
      assert Sum(terms) > 0.0;
    }
  }

  /** Mean absolute error; NaN (`None`) on an empty evaluation. It is
      never negative and is zero exactly on a perfect forecast. */
  function Mae(forecasts: seq<real>, actuals: seq<real>): (m: Option<real>)
    requires |forecasts| == |actuals|
    ensures m.Some? <==> |actuals| > 0
    ensures m.Some? ==> m.value >= 0.0
    ensures m.Some? ==> (m.value == 0.0 <==> forecasts == actuals)
  {
    var terms := AbsoluteErrors(forecasts, actuals);
    if |terms| == 0 then None
    else
      MeanOfErrorTerms(forecasts, actuals, terms);
      Mean(terms)
  }

  /** Mean squared error, the quantity under RMSE's square root. */
  function Mse(forecasts: seq<real>, actuals: seq<real>): (m: Option<real>)
    requires |forecasts| == |actuals|
    ensures m.Some? <==> |actuals| > 0
    ensures m.Some? ==> m.value >= 0.0
    ensures m.Some? ==> (m.value == 0.0 <==> forecasts == actuals)
  {
    var terms := seq(|actuals|, i requires 0 <= i < |actuals| => SquaredError(actuals[i], forecasts[i]));
    if |terms| == 0 then None
    else
      MeanOfErrorTerms(forecasts, actuals, terms);
      Mean(terms)
  }

  /** Mean absolute percentage error, times 100. A zero actual makes a
      term infinite or NaN, so the metric is defined (`Some`) exactly when
      the evaluation is non-empty and every actual is non-zero; it is then
      never negative and zero exactly on a perfect forecast. */
  function Mape(forecasts: seq<real>, actuals: seq<real>): (m: Option<real>)
    requires |forecasts| == |actuals|
    ensures m.Some? <==> |actuals| > 0 && forall i :: 0 <= i < |actuals| ==> actuals[i] != 0.0
    ensures m.Some? ==> m.value >= 0.0
    ensures m.Some? ==> (m.value == 0.0 <==> forecasts == actuals)
  {
    if |actuals| == 0 || exists i :: 0 <= i < |actuals| && actuals[i] == 0.0 then None
    else
      var terms := seq(|actuals|, i requires 0 <= i < |actuals| =>
        Abs((actuals[i] - forecasts[i]) / actuals[i]));
      MeanOfErrorTerms(forecasts, actuals, terms);
      Some(Mean(terms).value * 100.0)
  }

  /** The evaluation table row of one strategy: MAE, MSE and MAPE. */
  datatype Accuracy = Accuracy(mae: Option<real>, mse: Option<real>, mape: Option<real>)

  /** `forecast_accuracy` applied to a backtest. */
  function ForecastAccuracy(bt: Backtest): Accuracy
    requires |bt.forecasts| == |bt.actuals|
  {
    Accuracy(Mae(bt.forecasts, bt.actuals), Mse(bt.forecasts, bt.actuals), Mape(bt.forecasts, bt.actuals))
  }

  /** The evaluation loop body for one strategy: walk the last twelve
      periods and score them. MAE and MSE are always defined when the walk
      succeeds, since it scores twelve periods. */
  function Evaluate(data: seq<real>, s: Strategy): (r: Result<Accuracy>)
    ensures WellConfigured(s) ==> (r.Ok? <==> |data| >= 13)
    ensures r.Ok? ==> r.value.mae.Some? && r.value.mse.Some?
  {
    CausalEvaluationDefined(data, s);
    match RollingOrigin(data, Forecaster(s), EvaluationStart(data))
    case Err(e) => Err(e)
    case Ok(bt) => Ok(ForecastAccuracy(bt))
  }
}
