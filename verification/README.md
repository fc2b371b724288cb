# Forecast-driven inventory engine, in Dafny

This project models the computational core of a small demand-forecasting
and inventory study. The study has four parts:

- **Order-up-to simulator** (`simulate_inventory`, and the inline loop of
  `scripts/3_inventory_simulation.py`). In each period it:
  - raises the inventory position to the target `S_t = F[t] + z*sigma`;
  - orders `Q_t = max(0, S_t - I)`;
  - books `I := I + Q_t - D[t]`, with backlog carried as a negative level;
  - accrues holding cost `h*max(I,0)` and shortage cost `p*max(-I,0)`.

  It then reports total cost, service level (the fraction of periods that
  end with a non-negative level), average on-hand stock and average
  backlog.
- **Causal forecast strategies.**
  - Naive: the last observation.
  - Moving average: the mean of the last `window` observations, or of the
    whole history when it is shorter.

  Two drivers use them:
  - The in-sample driver (`rolling_forecast_out_of_sample`) starts at
    `series[0]` and forecasts period t from `series[:t]`.
  - The walk-forward evaluator (`rolling_origin_forecast`) pairs the
    forecast from `data[:t]` with `data[t]` for the last twelve periods.
    MAE, squared error and MAPE are computed over those pairs.
- **Model comparison and sensitivity sweep.** Every model is first run at
  the default parameters. Then every model is run over a grid of safety
  factors z ∈ {1.0, 1.28, 1.65} and shortage costs p ∈ {2, 5, 10}. The
  sweep emits one row per cell, with z outermost, p in the middle and the
  model innermost.

All arithmetic is over Dafny's exact `real`. Python's negative indices and
slices are modelled as written: `start = len(data) - 12` may be negative,
and a window of 0 slices the whole history. Every Python failure becomes
an explicit error value, as the `Results` module lists:

- `EmptyHistory` when `history[-1]` is taken of an empty history;
- `EmptyWindow` for the mean of an empty slice, where numpy returns NaN;
- `IndexOutOfRange` for an index outside the series;
- `LengthMismatch` when numpy arrays of different lengths are subtracted;
- `EmptyHorizon` for the division by T = 0 in the service level.

Modules:

- `Results`: `Option`, `Result` and the error cases.
- `Stats`: sums, means, extremes and counts over `seq<real>`.
- `Forecast`: the two strategies and the in-sample driver.
- `Evaluation`: the rolling-origin evaluator and the accuracy metrics.
- `Inventory`: the order-up-to fold, costs, service level and `Simulate`.
- `Baseline`: the inline loop of the baseline script, written as an
  imperative method and proved equal to `Simulate` at its defaults.
- `Sensitivity`: the model comparison and the z × p × model sweep.
- `Scenario`: a worked three-period example.

The forecast-error standard deviation `sigma` is `np.std` of
`demand - forecast`. Every simulator therefore takes a function
`std: seq<real> -> real` and applies it to the residual series.
ETS and ARIMA are statistical fits, so they enter the model in one of two
ways:

- as an arbitrary forecasting function `f: seq<real> -> Result<real>`,
  for the evaluator and the in-sample driver;
- as an arbitrary supplied forecast series (a `Model`), for the simulator
  and the sweep.

## Model

| member | source | states |
|---|---|---|
| Forecast.NaiveForecast | scripts/4_sensitivity_analysis.py:47-48 | defined exactly when the history is non-empty, and then equal to its last element; an empty history is an `EmptyHistory` error |
| Forecast.MovingAverageForecast | scripts/4_sensitivity_analysis.py:50-53 | for a window ≥ 1, defined exactly when the history is non-empty; the result lies between the minimum and the maximum of the averaged window |
| Forecast.MovingAverageBoundary | scripts/4_sensitivity_analysis.py:50-53 | a history shorter than the window gives the mean of the whole history; otherwise the mean of its last `window` elements |
| Forecast.MovingAverageOfOneIsNaive | scripts/2_forecasting_models.py:33-39 | a window of 1 agrees with the naive forecast: same definedness, same value |
| Forecast.ZeroWindowAveragesEverything | scripts/2_forecasting_models.py:36-39 | with window 0, Python's `history[-0:]` is the whole history, so the forecast is the mean of all of it |
| Forecast.Window | scripts/4_sensitivity_analysis.py:53 | for a window ≥ 1, the averaged slice is a suffix of the history of length min(window, len) |
| Forecast.ForecastNext | scripts/4_sensitivity_analysis.py:109-111 | a well-configured strategy (naive, or moving average with window ≥ 1) forecasts exactly when the history is non-empty |
| Forecast.InSample | scripts/4_sensitivity_analysis.py:65-73 | a successful in-sample run has one forecast per period |
| Forecast.InSampleDefined | scripts/4_sensitivity_analysis.py:67-72 | the driver succeeds exactly when the forecaster succeeds on every proper prefix `series[:t]`, 1 ≤ t < len |
| Forecast.InSampleClosedForm | scripts/4_sensitivity_analysis.py:65-73 | element 0 is `series[0]`, element t ≥ 1 is the forecaster applied to `series[:t]`, and success holds exactly when every such forecast exists |
| Forecast.InSampleTotal | scripts/4_sensitivity_analysis.py:110-111 | with naive or moving average (window ≥ 1), the driver never fails, whatever the series |
| Forecast.InSampleCausal | scripts/4_sensitivity_analysis.py:67-72 | two series that agree before period t give in-sample forecasts that agree on periods 0..t: later data never changes an earlier forecast |
| Evaluation.PrefixUpTo | scripts/2_forecasting_models.py:18 | Python's `data[:t]`: always a prefix of `data`, of length t for 0 ≤ t ≤ len, len for t > len, and max(0, len + t) for negative t |
| Evaluation.ElementAt | scripts/2_forecasting_models.py:21 | Python's `data[t]`: defined exactly for -len ≤ t < len; equal to `data[t]` for t ≥ 0 and to `data[len + t]` for negative t |
| Evaluation.RollingOrigin | scripts/2_forecasting_models.py:14-22 | succeeds exactly when every period from `start` to the end has a forecast and an actual; it returns max(0, len - start) of each; forecast k is made from `data[:start+k]` and actual k is `data[start+k]` |
| Evaluation.RollingOriginCausal | scripts/2_forecasting_models.py:17-21 | forecast k depends only on the strict prefix before its target period; actual k is `data[start+k]` |
| Evaluation.LastTwelvePeriods | scripts/2_forecasting_models.py:59 | with `start = len(data) - 12`, a successful evaluation pairs exactly 12 forecasts with 12 actuals |
| Evaluation.CausalEvaluationDefined | scripts/2_forecasting_models.py:59-71 | for naive and moving average, the last-twelve evaluation succeeds exactly when the series has at least 13 periods, so that no scored period, t = 0 included, has an empty history |
| Evaluation.SquaredError | scripts/2_forecasting_models.py:26 | zero exactly when forecast equals actual, positive otherwise |
| Evaluation.SquaredErrorIsSquare | scripts/2_forecasting_models.py:26 | the squared-error term is `(actual - forecast)**2` |
| Evaluation.MeanOfErrorTerms | scripts/2_forecasting_models.py:25-27 | the mean of per-period error terms that vanish exactly on correct forecasts is ≥ 0, and is 0 exactly when every forecast is correct |
| Evaluation.Mae | scripts/2_forecasting_models.py:25 | defined exactly for a non-empty evaluation; ≥ 0; zero exactly when forecasts equal actuals |
| Evaluation.Mse | scripts/2_forecasting_models.py:26 | defined exactly for a non-empty evaluation; ≥ 0; zero exactly when forecasts equal actuals |
| Evaluation.Mape | scripts/2_forecasting_models.py:27 | defined exactly when the evaluation is non-empty and no actual is zero; ≥ 0; zero exactly when forecasts equal actuals |
| Evaluation.Evaluate | scripts/2_forecasting_models.py:70-73 | for naive and moving average, evaluating a model succeeds exactly when the series has at least 13 periods, and then MAE and MSE exist |
| Inventory.OrderQuantity | scripts/4_sensitivity_analysis.py:91 | the order is never negative, and position plus order equals max(position, target) |
| Inventory.Trace | scripts/4_sensitivity_analysis.py:83-95 | the policy run produces one period per demand |
| Inventory.TraceFollowsPolicy | scripts/4_sensitivity_analysis.py:89-95 | every period of the fold is one policy step from the closing level of the period before, starting from the initial inventory |
| Inventory.PolicyDeterminesTrace | scripts/4_sensitivity_analysis.py:89-95 | any trace that follows the policy step by step is the fold: the policy determines the run uniquely |
| Inventory.TracePrefix | scripts/4_sensitivity_analysis.py:89-95 | running the policy on the first k periods gives the first k periods of the full run, so later demand never changes earlier periods |
| Inventory.TraceRecurrence | scripts/4_sensitivity_analysis.py:83-95 | with I_{-1} = initial: every order Q_t ≥ 0, I_{t-1} + Q_t = max(I_{t-1}, F[t] + safety), and I_t = I_{t-1} + Q_t - D[t] |
| Inventory.LevelsMonotone | scripts/4_sensitivity_analysis.py:90-92 | more safety stock or more opening stock never leaves a lower level in any period |
| Inventory.Residuals | scripts/4_sensitivity_analysis.py:80 | the residual series has one entry per period |
| Inventory.TotalCost | scripts/4_sensitivity_analysis.py:99 | non-negative whenever h, p ≥ 0 |
| Inventory.CostsNonNegative | scripts/4_sensitivity_analysis.py:96-97 | for h, p ≥ 0, the holding and shortage costs each sum to a non-negative amount |
| Inventory.CostIdentity | scripts/4_sensitivity_analysis.py:96-99 | total cost is the sum of the per-period costs h·max(I_t,0) + p·max(-I_t,0), and equals h·Σ max(I_t,0) + p·Σ max(-I_t,0) |
| Inventory.ServiceLevel | scripts/4_sensitivity_analysis.py:100 | lies in [0,1]; times T it is the number of periods ending with I_t ≥ 0; it is 1 exactly when no period ends short and 0 exactly when every period does |
| Inventory.ServiceLevelMonotone | scripts/4_sensitivity_analysis.py:100 | raising every closing level never lowers the service level |
| Inventory.AverageOnHand | scripts/4_sensitivity_analysis.py:101 | the average on-hand stock is ≥ 0 |
| Inventory.AverageBacklog | scripts/4_sensitivity_analysis.py:102 | the average shortage is ≥ 0 |
| Inventory.Simulate | scripts/4_sensitivity_analysis.py:78-104 | succeeds exactly when forecast and demand have the same non-zero length; a failure is `LengthMismatch` exactly when the lengths differ; both traces have length T; every order is ≥ 0; service level is in [0,1]; the averages are ≥ 0; total cost is ≥ 0 when h, p ≥ 0 |
| Inventory.SimulateRecurrence | scripts/4_sensitivity_analysis.py:83-95 | the reported traces obey Q_t ≥ 0, I_{t-1} + Q_t = max(I_{t-1}, F[t] + z·sigma) and I_t = I_{t-1} + Q_t - D[t], with I_{-1} = initial_inventory |
| Inventory.SimulateAccounting | scripts/4_sensitivity_analysis.py:96-100 | for a successful run, the total cost equals the sum over periods of h·max(I_t,0) + p·max(-I_t,0), and equally h times the total on-hand stock plus p times the total backlog; the service level times T equals the number of periods ending with I_t ≥ 0 |
| Inventory.SafetyFactorRaisesService | scripts/4_sensitivity_analysis.py:90-100 | for sigma ≥ 0, a larger z never gives a lower service level |
| Baseline.InlineSimulation | scripts/3_inventory_simulation.py:42-62 | the inline loop succeeds exactly when the fitted values match the non-empty data in length. Its four lists have length T; the costs per period are 1·max(I,0) and 5·max(-I,0); total cost is ≥ 0 and service is in [0,1]. Its traces, total cost and service level equal `simulate_inventory` with h=1, p=5, z=1.28, initial=50 |
| Baseline.LoopStep | scripts/3_inventory_simulation.py:49-51 | from the opening level of period t, one iteration's order `max(0, S_t - I)` and new level `I + Q_t - data[t]` are period t's order and closing level in the policy run, and that level is the opening level of period t + 1 |
| Baseline.MatchesSimulation | scripts/3_inventory_simulation.py:61-62 | the loop's totals are those of the functional simulator at the script's constants |
| Sensitivity.CausalModel | scripts/4_sensitivity_analysis.py:109-111 | the naive and moving-average table entries always produce a forecast series as long as the demand |
| Sensitivity.CausalEntriesRun | scripts/4_sensitivity_analysis.py:109-111 | the table's naive entry and its moving average with the default window of 3 both produce forecasts, and on non-empty demand every cell built from either succeeds for any z and p |
| Sensitivity.Collect | scripts/4_sensitivity_analysis.py:159-176 | the rows are gathered in order; the run succeeds exactly when every cell does, and row n is cell n's report |
| Sensitivity.RunCell | scripts/4_sensitivity_analysis.py:164-176 | a cell succeeds exactly when the model's forecast fits the non-empty demand; the row carries the cell's (model, z, p); service is reported in percent within [0,100]; the cost is ≥ 0 for p ≥ 0 |
| Sensitivity.ComparisonRows | scripts/4_sensitivity_analysis.py:116-127 | the per-model summary succeeds exactly when every model fits the demand; row k is model k simulated at the defaults, with service in percent |
| Sensitivity.GridSize | scripts/4_sensitivity_analysis.py:161-163 | the grid has |z| · |p| · |models| cells |
| Sensitivity.GridCell | scripts/4_sensitivity_analysis.py:161-163 | cell (i·|p| + j)·|models| + k is (z[i], p[j], model k): z outermost, p in the middle, model innermost |
| Sensitivity.GridDistinct | scripts/4_sensitivity_analysis.py:161-171 | with distinct axis values and model names, no two cells share a (model, z, p) key |
| Sensitivity.SweepDefined | scripts/4_sensitivity_analysis.py:161-167 | the sweep succeeds exactly when an axis is empty or every model's forecast fits the non-empty demand |
| Sensitivity.SweepSucceeds | scripts/4_sensitivity_analysis.py:161-167 | a sweep whose every model fits the demand succeeds |
| Sensitivity.SweepFails | scripts/4_sensitivity_analysis.py:161-167 | a model that does not fit fails the sweep when both axes are non-empty |
| Sensitivity.SweepSize | scripts/4_sensitivity_analysis.py:161-176 | a successful sweep emits |z| · |p| · |models| rows |
| Sensitivity.SweepOrder | scripts/4_sensitivity_analysis.py:161-176 | row (i·|p| + j)·|models| + k is the report of model k simulated with z[i] and p[j] |
| Sensitivity.SweepKeysDistinct | scripts/4_sensitivity_analysis.py:168-171 | with distinct axis values and model names, each (model, z, p) key appears in at most one row |
| Sensitivity.StandardSweep | scripts/4_sensitivity_analysis.py:157-176 | when every model fits the non-empty demand (with distinct model names), the sweep over z ∈ {1.0, 1.28, 1.65} and p ∈ {2, 5, 10} succeeds and emits 9 rows per model, each (model, z, p) key once |
| Scenario.FlatScenario | scripts/4_sensitivity_analysis.py:65-104 | worked example: on flat demand 10, 10, 10, naive forecasting with z = 0 and opening stock 20 orders 0, 0, 10 and ends at levels 10, 0, 0. The cost is 10, the service level is 1 and there is no shortage |

## Left out

- Synthetic demand generation (`scripts/1_data_generation.py`,
  `scripts/4_sensitivity_analysis.py:17-31`): it draws seeded random
  normals and uses `sin`.
- ETS and ARIMA fitting (`ets_fitted`, `arima_fitted`, `ets_forecast`,
  `arima_forecast`) are statsmodels calls. They appear only as an arbitrary
  forecasting function, or as an arbitrary supplied forecast series.
- `np.std` is not modelled. Sigma is the caller-supplied `std` applied to
  the residuals. No lemma relies on it being a standard deviation, except that
  `Inventory.SafetyFactorRaisesService` takes sigma ≥ 0 as a premise.
- Evaluation.Mse: models RMSE without the final `np.sqrt`. The
  mean-squared error is zero, positive or undefined exactly when RMSE is,
  but its value is the square of RMSE's.
- Evaluation.Mape: a zero actual makes numpy return inf or NaN. The model
  returns `None` instead of carrying a non-finite value into the table.
- Evaluation.ForecastAccuracy and Sensitivity.Sweep: only their
  properties are stated, as lemmas (`Evaluation.Evaluate`,
  `Sensitivity.SweepDefined`, `SweepSize`, `SweepOrder`,
  `SweepKeysDistinct`).
- The mean of an empty slice is NaN in numpy. The model makes it an
  `EmptyWindow` error, so a moving average over an empty history fails
  instead of propagating NaN into the metrics.
- A one-element demand series against a longer forecast series is not
  modelled: numpy broadcasting would let it through. Every length
  difference is a `LengthMismatch`.
- The parameters are not checked. The scripts never check h, p, z ≥ 0 or
  window ≥ 1, and neither does the model. Windows ≤ 0 follow Python's
  slicing. Cost non-negativity is stated under h, p ≥ 0.
- The sweep computes each model's forecast series once and reuses it in
  every cell. The script recomputes it in every cell, which gives the same
  series because the computation is deterministic.
- Sensitivity.ComparisonRows: a comparison row keeps the model name,
  cost, service and the two averages. It drops the per-model
  "Inventory Levels" and "Orders" lists
  (`scripts/4_sensitivity_analysis.py:123-124`). Those lists only feed
  the figures, and the same run's levels and orders are described by
  `Inventory.Simulate`, `Inventory.SimulateRecurrence` and
  `Inventory.SimulateAccounting`.
- Presentation is not modelled: rounding to two decimals, the
  "Best Cost" / "Best Service" markers
  (`scripts/4_sensitivity_analysis.py:132-152, 172-175`), the DataFrame and
  `tabulate` tables, CSV/pickle I/O, directory creation and every figure
  (`scripts/5_generate_figures.py`).
- IEEE-754 floating-point rounding is not modelled. All arithmetic is
  exact.
