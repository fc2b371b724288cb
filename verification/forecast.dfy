/** The two causal forecast strategies of the scripts and the in-sample
    driver that turns a strategy into a forecast series aligned with the
    demand series.

    `naive_forecast` and `moving_average_forecast` appear twice in the
    repository with identical bodies (scripts/2_forecasting_models.py:33-39
    and scripts/4_sensitivity_analysis.py:47-53); this module models both
    copies. ETS and ARIMA are opaque statsmodels fits and are not modelled
    here: a caller supplies their forecast series directly. */
module Forecast {
  import opened Results
  import opened Stats

  /** A forecast strategy; `window` is the moving-average length (3 by default). */
  datatype Strategy = Naive | MovingAverage(window: int)

  const DefaultWindow: int := 3

  /** The strategies for which a non-empty history always yields a forecast. */
  predicate WellConfigured(s: Strategy)
  {
    s.Naive? || s.window >= 1
  }

  /** First index of Python's slice `h[-w:]` for a history of length n:
      with w > 0 the last w entries, with w == 0 the whole history,
      and with w < 0 everything after the first -w entries. */
  function TailStart(n: nat, w: int): (k: nat)
    ensures k <= n
    ensures w > 0 ==> n - k == (if w <= n then w else n)
    ensures w == 0 ==> k == 0
  {
    if w > 0 then (if w <= n then n - w else 0)
    else if -w <= n then -w
    else n
  }

  /** The entries `moving_average_forecast` averages. */
  function Window(h: seq<real>, w: int): (r: seq<real>)
    ensures w >= 1 ==> |r| == (if |h| < w then |h| else w) && r == h[|h| - |r|..]
  {
    if |h| < w then h else h[TailStart(|h|, w)..]
  }

  /** `naive_forecast`: the last observed value; an empty history raises
      IndexError in the source. */
  function NaiveForecast(h: seq<real>): (r: Result<real>)
    ensures r.Ok? <==> |h| > 0
    ensures r.Ok? ==> r.value == h[|h| - 1]
    ensures r.Err? ==> r.error == EmptyHistory
  {
    if |h| == 0 then Err(EmptyHistory) else Ok(h[|h| - 1])
  }

  /** `moving_average_forecast`: the mean of the window; a NaN mean of an
      empty slice is an `EmptyWindow` error. For a positive window the
      forecast exists exactly when the history is non-empty and lies
      between the smallest and largest value in the window. */
  function MovingAverageForecast(h: seq<real>, w: int): (r: Result<real>)
    ensures w >= 1 ==> (r.Ok? <==> |h| > 0)
    ensures r.Ok? ==> |Window(h, w)| > 0
    ensures r.Ok? ==> SeqMin(Window(h, w)) <= r.value <= SeqMax(Window(h, w))
  {
    var win := Window(h, w);
    match Mean(win)
    case None => Err(EmptyWindow)
    case Some(m) => MeanBetweenExtremes(win); Ok(m)
  }

  /** One-step-ahead forecast from a causal history. */
  function ForecastNext(s: Strategy, h: seq<real>): (r: Result<real>)
    ensures WellConfigured(s) ==> (r.Ok? <==> |h| > 0)
  {
    match s
    case Naive => NaiveForecast(h)
    case MovingAverage(w) => MovingAverageForecast(h, w)
  }

  /** A strategy as a forecaster: a function from a causal history to
      the next-period forecast. */
  function Forecaster(s: Strategy): seq<real> -> Result<real>
  {
    h => ForecastNext(s, h)
  }

  /** `rolling_forecast_out_of_sample` for forecaster `f`: entry 0 is the
      first observation itself, entry t >= 1 is `f(series[..t])`. Built
      period by period; the first failing period decides the error. */
  function InSample(f: seq<real> -> Result<real>, series: seq<real>): (r: Result<seq<real>>)
    ensures r.Ok? ==> |r.value| == |series|
    decreases |series|
  {
    if |series| == 0 then Ok([])
    else
      var n := |series| - 1;
      match InSample(f, series[..n])
      case Err(e) => Err(e)
      case Ok(prev) =>
        if n == 0 then Ok([series[0]])
        else
          match f(series[..n])
          case Err(e) => Err(e)
          case Ok(x) => Ok(prev + [x])
  }

  /** The moving-average boundary: a history shorter than the window is
      averaged whole, otherwise exactly its last `w` values are. */
  lemma MovingAverageBoundary(h: seq<real>, w: int)
    requires w >= 1 && |h| > 0
    ensures |h| < w ==> MovingAverageForecast(h, w) == Ok(Mean(h).value)
    ensures |h| >= w ==> MovingAverageForecast(h, w) == Ok(Mean(h[|h| - w..]).value)
  {
  }

  /** A moving average over a window of one is the naive forecast: both
      fail on exactly the same (empty) histories and agree elsewhere. */
  lemma MovingAverageOfOneIsNaive(h: seq<real>)
    ensures MovingAverageForecast(h, 1).Ok? <==> NaiveForecast(h).Ok?
    ensures NaiveForecast(h).Ok? ==> MovingAverageForecast(h, 1).value == NaiveForecast(h).value
  {
    if |h| > 0 {
      var last := h[|h| - 1];
      var win := Window(h, 1);
      assert win == [last];
      assert Sum(win) == last by {
        assert win[..0] == [];
      }
      assert Mean(win) == Some(last);
    }
  }

  /** With a zero window the source's slice `h[-0:]` is the whole history,
      so the forecast is the whole-history mean rather than a
      configuration error. */
  lemma ZeroWindowAveragesEverything(h: seq<real>)
    requires |h| > 0
    ensures MovingAverageForecast(h, 0) == Ok(Mean(h).value)
  {
  }

  /** The in-sample driver succeeds exactly when every period t >= 1 can
      be forecast from `series[..t]`. */
  lemma {:induction false} InSampleDefined(f: seq<real> -> Result<real>, series: seq<real>)
    ensures InSample(f, series).Ok? <==> forall t :: 1 <= t < |series| ==> f(series[..t]).Ok?
    decreases |series|
  {
    if |series| > 0 {
      var n := |series| - 1;
      var init := series[..n];
      InSampleDefined(f, init);
      assert forall t :: 1 <= t < n ==> init[..t] == series[..t];
    }
  }

  /** Closed form of the in-sample driver: it succeeds exactly when every
      period t >= 1 can be forecast from `series[..t]`, and then entry 0
      is `series[0]` and entry t is that forecast. */
  lemma {:induction false} InSampleClosedForm(f: seq<real> -> Result<real>, series: seq<real>)
    ensures InSample(f, series).Ok? <==> forall t :: 1 <= t < |series| ==> f(series[..t]).Ok?
    ensures InSample(f, series).Ok? && |series| > 0 ==> InSample(f, series).value[0] == series[0]
    ensures InSample(f, series).Ok? ==>
      forall t :: 1 <= t < |series| ==> InSample(f, series).value[t] == f(series[..t]).value
    decreases |series|
  {
    InSampleDefined(f, series);
    if |series| > 0 && InSample(f, series).Ok? {
      var n := |series| - 1;
      var init := series[..n];
      InSampleClosedForm(f, init);
      var prev := InSample(f, init).value;
      var r := InSample(f, series).value;
      if n > 0 {
        assert r == prev + [f(init).value];
        forall t | 1 <= t < |series|
          ensures r[t] == f(series[..t]).value
        {
          if t < n {
            assert init[..t] == series[..t];
          }
        }
      }
    }
  }

  /** For the naive strategy and any positive moving-average window the
      driver never fails. */
  lemma InSampleTotal(s: Strategy, series: seq<real>)
    requires WellConfigured(s)
    ensures InSample(Forecaster(s), series).Ok?
  {
    InSampleDefined(Forecaster(s), series);
  }

  /** Causality of the in-sample series: entries 0..t depend only on
      `series[..t]` (t >= 1), so changing any later observation leaves
      them unchanged. */
  lemma InSampleCausal(f: seq<real> -> Result<real>, series: seq<real>, other: seq<real>, t: nat)
    requires 1 <= t < |series| && t < |other|
    requires series[..t] == other[..t]
    requires InSample(f, series).Ok? && InSample(f, other).Ok?
    ensures InSample(f, series).value[..t + 1] == InSample(f, other).value[..t + 1]
  {
    InSampleClosedForm(f, series);
    InSampleClosedForm(f, other);
    var a, b := InSample(f, series).value, InSample(f, other).value;
    forall i | 0 <= i <= t
      ensures a[i] == b[i]
    {
      if i == 0 {
        assert series[0] == series[..t][0] == other[..t][0] == other[0];
      } else {
        assert series[..i] == series[..t][..i] == other[..t][..i] == other[..i];
      }
    }
  }
}
