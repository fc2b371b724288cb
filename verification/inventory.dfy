/** The periodic-review order-up-to simulator `simulate_inventory`
    (scripts/4_sensitivity_analysis.py:78-104).

    Each period t the policy sets the target S_t = F[t] + z*sigma, orders
    Q_t = max(0, S_t - I), then lets demand draw the level down:
    I := I + Q_t - D[t]. A negative level is backlog and is carried into
    the next period. The simulation is written as a fold (`Trace`) and
    summarised into costs, service level and averages.

    `sigma = np.std(demand - forecast)` needs a square root, so the model
    takes the standard deviation as a function parameter `std` and applies
    it to the residuals exactly where the source does. */
module Inventory {
  import opened Results
  import opened Stats

  /** Policy parameters: holding cost h, shortage cost p, safety factor z
      and the opening inventory. */
  datatype Config = Config(h: real, p: real, z: real, initialInventory: real)

  /** The keyword defaults of `simulate_inventory`: h=1, p=5, z=1.28,
      initial_inventory=50. */
  const Defaults: Config := Config(1.0, 5.0, 1.28, 50.0)

  /** One simulated period: the quantity ordered and the level after demand. */
  datatype Period = Period(order: real, level: real)

  /** `max(0, S_t - I)`: never negative, and it lifts the position to
      exactly max(I, S_t). */
  function OrderQuantity(position: real, target: real): (q: real)
    ensures q >= 0.0
    ensures position + q == Max(position, target)
  {
    Max(0.0, target - position)
  }

  /** One period of the policy from an opening level. */
  function Step(opening: real, forecast: real, demand: real, safety: real): Period
  {
    var q := OrderQuantity(opening, forecast + safety);
    Period(q, opening + q - demand)
  }

  /** The level a trace ends at, or the initial inventory before any period. */
  function Closing(tr: seq<Period>, initial: real): real
  {
    if |tr| == 0 then initial else tr[|tr| - 1].level
  }

  /** The level at the start of period t: I_{t-1}, with I_{-1} the initial inventory. */
  function Opening(tr: seq<Period>, initial: real, t: nat): real
    requires t <= |tr|
  {
    if t == 0 then initial else tr[t - 1].level
  }

  /** The simulation loop as a left fold over the periods. */
  function Trace(forecast: seq<real>, demand: seq<real>, safety: real, initial: real): (tr: seq<Period>)
    requires |forecast| == |demand|
    ensures |tr| == |demand|
    decreases |demand|
  {
    if |demand| == 0 then []
    else
      var n := |demand| - 1;
      var prev := Trace(forecast[..n], demand[..n], safety, initial);
      prev + [Step(Closing(prev, initial), forecast[n], demand[n], safety)]
  }

  /** Independent, pointwise description of a run of the policy: every
      period is one policy step from the level the previous period left. */
  predicate FollowsPolicy(forecast: seq<real>, demand: seq<real>, safety: real, initial: real, tr: seq<Period>)
  {
    && |forecast| == |demand| == |tr|
    && forall t :: 0 <= t < |tr| ==>
         tr[t] == Step(Opening(tr, initial, t), forecast[t], demand[t], safety)
  }

  /** The fold runs the policy. */
  lemma {:induction false} TraceFollowsPolicy(forecast: seq<real>, demand: seq<real>, safety: real, initial: real)
    requires |forecast| == |demand|
    ensures FollowsPolicy(forecast, demand, safety, initial, Trace(forecast, demand, safety, initial))
    decreases |demand|
  {
    if |demand| > 0 {
      var n := |demand| - 1;
      TraceFollowsPolicy(forecast[..n], demand[..n], safety, initial);
      TraceSnoc(forecast, demand, safety, initial);
      PolicySnoc(forecast, demand, safety, initial, Trace(forecast[..n], demand[..n], safety, initial));
    }
  }

  /** Extending a run of the policy on a prefix by one policy step gives
      a run on the whole horizon. */
  lemma PolicySnoc(forecast: seq<real>, demand: seq<real>, safety: real, initial: real, prev: seq<Period>)
    requires |forecast| == |demand| > 0
    requires FollowsPolicy(forecast[..|demand| - 1], demand[..|demand| - 1], safety, initial, prev)
    ensures var n := |demand| - 1;
      FollowsPolicy(forecast, demand, safety, initial, prev + [Step(Closing(prev, initial), forecast[n], demand[n], safety)])
  {
    var n := |demand| - 1;
    var tr := prev + [Step(Closing(prev, initial), forecast[n], demand[n], safety)];
    forall t | 0 <= t < |tr|
      ensures tr[t] == Step(Opening(tr, initial, t), forecast[t], demand[t], safety)
    {
      if t < n {
        PolicySnocEarly(forecast, demand, safety, initial, prev, tr[n], t);
      } else {
        assert Opening(tr, initial, t) == Closing(prev, initial);
      }
    }
  }

  lemma PolicySnocEarly(forecast: seq<real>, demand: seq<real>, safety: real, initial: real, prev: seq<Period>, last: Period, t: nat)
    requires |forecast| == |demand| > 0
    requires FollowsPolicy(forecast[..|demand| - 1], demand[..|demand| - 1], safety, initial, prev)
    requires t < |prev|
    ensures (prev + [last])[t] == Step(Opening(prev + [last], initial, t), forecast[t], demand[t], safety)
  {
    var n := |demand| - 1;
    assert (prev + [last])[t] == prev[t];
    assert Opening(prev + [last], initial, t) == Opening(prev, initial, t);
    assert forecast[..n][t] == forecast[t] && demand[..n][t] == demand[t];
  }

  /** Only the fold runs the policy: a trace that follows it is the fold. */
  lemma PolicyDeterminesTrace(forecast: seq<real>, demand: seq<real>, safety: real, initial: real, tr: seq<Period>)
    requires FollowsPolicy(forecast, demand, safety, initial, tr)
    ensures tr == Trace(forecast, demand, safety, initial)
  {
    var folded := Trace(forecast, demand, safety, initial);
    forall t | 0 <= t < |tr|
      ensures tr[t] == folded[t]
    {
      PolicyAgreesAt(forecast, demand, safety, initial, tr, t);
    }
  }

  /** Period by period, a run of the policy agrees with the fold: both
      take the same step from the same opening level. */
  lemma {:induction false} PolicyAgreesAt(forecast: seq<real>, demand: seq<real>, safety: real, initial: real, tr: seq<Period>, t: nat)
    requires FollowsPolicy(forecast, demand, safety, initial, tr)
    requires t < |tr|
    ensures tr[t] == Trace(forecast, demand, safety, initial)[t]
    decreases t
  {
    var folded := Trace(forecast, demand, safety, initial);
    TraceStepAt(forecast, demand, safety, initial, t);
    if t > 0 {
      PolicyAgreesAt(forecast, demand, safety, initial, tr, t - 1);
    }
    assert Opening(tr, initial, t) == Opening(folded, initial, t);
  }

  /** One unfolding of the fold: the last period steps from where the
      prefix ended. */
  lemma TraceSnoc(forecast: seq<real>, demand: seq<real>, safety: real, initial: real)
    requires |forecast| == |demand| > 0
    ensures var n := |demand| - 1;
      var prev := Trace(forecast[..n], demand[..n], safety, initial);
      Trace(forecast, demand, safety, initial) == prev + [Step(Closing(prev, initial), forecast[n], demand[n], safety)]
  {
  }

  /** Every prefix of a run of the policy is a run of the policy on the
      prefix of the horizon. */
  lemma PolicyPrefix(forecast: seq<real>, demand: seq<real>, safety: real, initial: real, tr: seq<Period>, k: nat)
    requires FollowsPolicy(forecast, demand, safety, initial, tr)
    requires k <= |tr|
    ensures FollowsPolicy(forecast[..k], demand[..k], safety, initial, tr[..k])
  {
    var pre, f, d := tr[..k], forecast[..k], demand[..k];
    forall t | 0 <= t < k
      ensures pre[t] == Step(Opening(pre, initial, t), f[t], d[t], safety)
    {
      assert Opening(pre, initial, t) == Opening(tr, initial, t);
    }
  }

  /** Simulating a prefix of the horizon gives the prefix of the full
      simulation: period t's order and level never depend on later
      forecasts or demand. */
  lemma TracePrefix(forecast: seq<real>, demand: seq<real>, safety: real, initial: real, k: nat)
    requires |forecast| == |demand| && k <= |demand|
    ensures Trace(forecast[..k], demand[..k], safety, initial) == Trace(forecast, demand, safety, initial)[..k]
  {
    var tr := Trace(forecast, demand, safety, initial);
    TraceFollowsPolicy(forecast, demand, safety, initial);
    PolicyPrefix(forecast, demand, safety, initial, tr, k);
    PolicyDeterminesTrace(forecast[..k], demand[..k], safety, initial, tr[..k]);
  }

  /** The recurrence of the simulation loop, period by period: the order
      is never negative, it raises the opening level I_{t-1} to
      max(I_{t-1}, F[t] + safety), and I_t = I_{t-1} + Q_t - D[t]. */
  lemma TraceRecurrence(forecast: seq<real>, demand: seq<real>, safety: real, initial: real)
    requires |forecast| == |demand|
    ensures forall t :: 0 <= t < |demand| ==>
      var tr := Trace(forecast, demand, safety, initial);
      var opening := Opening(tr, initial, t);
      && tr[t].order >= 0.0
      && opening + tr[t].order == Max(opening, forecast[t] + safety)
      && tr[t].level == opening + tr[t].order - demand[t]
  {
    forall t | 0 <= t < |demand|
      ensures var tr := Trace(forecast, demand, safety, initial);
        var opening := Opening(tr, initial, t);
        && tr[t].order >= 0.0
        && opening + tr[t].order == Max(opening, forecast[t] + safety)
        && tr[t].level == opening + tr[t].order - demand[t]
    {
      TraceStepAt(forecast, demand, safety, initial, t);
    }
  }

  /** Period t of the fold is one policy step from the level before it. */
  lemma TraceStepAt(forecast: seq<real>, demand: seq<real>, safety: real, initial: real, t: nat)
    requires |forecast| == |demand| && t < |demand|
    ensures var tr := Trace(forecast, demand, safety, initial);
      tr[t] == Step(Opening(tr, initial, t), forecast[t], demand[t], safety)
  {
    TraceFollowsPolicy(forecast, demand, safety, initial);
  }

  /** More safety stock or more opening stock never leaves less stock in
      any period: the level after period t is max(I_{t-1}, S_t) - D[t],
      monotone in both arguments. */
  lemma {:induction false} LevelsMonotone(forecast: seq<real>, demand: seq<real>, safety: real, safety': real, initial: real, initial': real)
    requires |forecast| == |demand|
    requires safety <= safety' && initial <= initial'
    ensures forall t :: 0 <= t < |demand| ==>
      Trace(forecast, demand, safety, initial)[t].level <= Trace(forecast, demand, safety', initial')[t].level
    decreases |demand|
  {
    if |demand| > 0 {
      var n := |demand| - 1;
      LevelsMonotone(forecast[..n], demand[..n], safety, safety', initial, initial');
      var prev := Trace(forecast[..n], demand[..n], safety, initial);
      var prev' := Trace(forecast[..n], demand[..n], safety', initial');
      assert Closing(prev, initial) <= Closing(prev', initial');
    }
  }

  function Levels(tr: seq<Period>): (levels: seq<real>)
    ensures |levels| == |tr|
  {
    seq(|tr|, t requires 0 <= t < |tr| => tr[t].level)
  }

  function Orders(tr: seq<Period>): (orders: seq<real>)
    ensures |orders| == |tr|
  {
    seq(|tr|, t requires 0 <= t < |tr| => tr[t].order)
  }

  function OnHandTrace(levels: seq<real>): (s: seq<real>)
    ensures |s| == |levels|
  {
    seq(|levels|, t requires 0 <= t < |levels| => OnHand(levels[t]))
  }

  function BacklogTrace(levels: seq<real>): (s: seq<real>)
    ensures |s| == |levels|
  {
    seq(|levels|, t requires 0 <= t < |levels| => Backlog(levels[t]))
  }

  /** Per-period holding costs h * max(I_t, 0). */
  function HoldingCosts(levels: seq<real>, h: real): (s: seq<real>)
    ensures |s| == |levels|
  {
    seq(|levels|, t requires 0 <= t < |levels| => h * OnHand(levels[t]))
  }

  /** Per-period shortage costs p * max(-I_t, 0). */
  function ShortageCosts(levels: seq<real>, p: real): (s: seq<real>)
    ensures |s| == |levels|
  {
    seq(|levels|, t requires 0 <= t < |levels| => p * Backlog(levels[t]))
  }

  /** `demand - forecast_series`, the residuals sigma is computed from. */
  function Residuals(demand: seq<real>, forecast: seq<real>): (r: seq<real>)
    requires |demand| == |forecast|
    ensures |r| == |demand|
  {
    seq(|demand|, t requires 0 <= t < |demand| => demand[t] - forecast[t])
  }

  lemma NonNegativeProduct(a: real, b: real)
    requires a >= 0.0 && b >= 0.0
    ensures a * b >= 0.0
  {
  }

  /** Dividing a count of periods by the number of periods. */
  lemma FractionOfPeriods(count: nat, n: nat)
    requires 0 < n && count <= n
    ensures 0.0 <= (count as real) / (n as real) <= 1.0
    ensures (count as real) / (n as real) * (n as real) == count as real
    ensures (count as real) / (n as real) == 1.0 <==> count == n
    ensures (count as real) / (n as real) == 0.0 <==> count == 0
  {
    DivideBounds(count as real, n as real, 0.0, 1.0);
  }

  /** `sum(holding_costs) + sum(shortage_costs)`; never negative when
      both unit costs are non-negative. */
  function TotalCost(levels: seq<real>, h: real, p: real): (c: real)
    ensures h >= 0.0 && p >= 0.0 ==> c >= 0.0
  {
    CostsNonNegative(levels, h, p);
    Sum(HoldingCosts(levels, h)) + Sum(ShortageCosts(levels, p))
  }

  lemma CostsNonNegative(levels: seq<real>, h: real, p: real)
    ensures h >= 0.0 && p >= 0.0 ==> Sum(HoldingCosts(levels, h)) >= 0.0 && Sum(ShortageCosts(levels, p)) >= 0.0
  {
    if h >= 0.0 && p >= 0.0 {
      var holding, shortage := HoldingCosts(levels, h), ShortageCosts(levels, p);
      forall t | 0 <= t < |levels|
        ensures holding[t] >= 0.0 && shortage[t] >= 0.0
      {
        NonNegativeProduct(h, OnHand(levels[t]));
        NonNegativeProduct(p, Backlog(levels[t]));
      }
      SumNonNegative(holding);
      SumNonNegative(shortage);
    }
  }

  /** The share of periods ending without backlog: a fraction that is 1
      exactly when no period ends in backlog and 0 exactly when all do. */
  function ServiceLevel(levels: seq<real>): (s: real)
    requires |levels| > 0
    ensures 0.0 <= s <= 1.0
    ensures s * (|levels| as real) == CountNonNegative(levels) as real
    ensures s == 1.0 <==> forall t :: 0 <= t < |levels| ==> levels[t] >= 0.0
    ensures s == 0.0 <==> forall t :: 0 <= t < |levels| ==> levels[t] < 0.0
  {
    CountNonNegativeBounds(levels);
    FractionOfPeriods(CountNonNegative(levels), |levels|);
    CountNonNegative(levels) as real / |levels| as real
  }

  /** Mean of max(I_t, 0) and of max(-I_t, 0): both non-negative. */
  function AverageOnHand(levels: seq<real>): (a: real)
    requires |levels| > 0
    ensures a >= 0.0
  {
    var s := OnHandTrace(levels);
    MeanBounds(s, 0.0, SeqMax(s));
    Mean(s).value
  }

  function AverageBacklog(levels: seq<real>): (a: real)
    requires |levels| > 0
    ensures a >= 0.0
  {
    var s := BacklogTrace(levels);
    MeanBounds(s, 0.0, SeqMax(s));
    Mean(s).value
  }

  /** What `simulate_inventory` returns. */
  datatype SimulationResult = SimulationResult(
    totalCost: real,
    serviceLevel: real,
    levels: seq<real>,
    orders: seq<real>,
    avgInventory: real,
    avgShortage: real)

  /** The summary of a non-empty run. */
  function Summarise(tr: seq<Period>, cfg: Config): SimulationResult
    requires |tr| > 0
  {
    var levels := Levels(tr);
    SimulationResult(TotalCost(levels, cfg.h, cfg.p), ServiceLevel(levels), levels, Orders(tr),
      AverageOnHand(levels), AverageBacklog(levels))
  }

  /** `simulate_inventory(forecast_series, demand, h, p, z, initial_inventory)`.
      It fails when the series differ in length (numpy cannot subtract
      them) and on an empty horizon (`/ T` divides by zero); otherwise
      every order is non-negative, the service level is a fraction and
      the averages and, for non-negative costs, the total cost are
      non-negative. */
  function Simulate(forecast: seq<real>, demand: seq<real>, cfg: Config, std: seq<real> -> real): (r: Result<SimulationResult>)
    ensures r.Ok? <==> |forecast| == |demand| && |demand| > 0
    ensures r.Err? ==> (r.error == LengthMismatch <==> |forecast| != |demand|)
    ensures r.Ok? ==> |r.value.levels| == |demand| && |r.value.orders| == |demand|
    ensures r.Ok? ==> forall t :: 0 <= t < |demand| ==> r.value.orders[t] >= 0.0
    ensures r.Ok? ==> 0.0 <= r.value.serviceLevel <= 1.0
    ensures r.Ok? ==> r.value.avgInventory >= 0.0 && r.value.avgShortage >= 0.0
    ensures r.Ok? && cfg.h >= 0.0 && cfg.p >= 0.0 ==> r.value.totalCost >= 0.0
  {
    if |forecast| != |demand| then Err(LengthMismatch)
    else if |demand| == 0 then Err(EmptyHorizon)
    else
      var sigma := std(Residuals(demand, forecast));
      var tr := Trace(forecast, demand, cfg.z * sigma, cfg.initialInventory);
      TraceRecurrence(forecast, demand, cfg.z * sigma, cfg.initialInventory);
      Ok(Summarise(tr, cfg))
  }

  /** The safety stock z * sigma the simulator adds to every forecast. */
  function SafetyStock(forecast: seq<real>, demand: seq<real>, cfg: Config, std: seq<real> -> real): real
    requires |forecast| == |demand|
  {
    cfg.z * std(Residuals(demand, forecast))
  }

  /** The returned traces obey the order-up-to recurrence with
      S_t = F[t] + z*sigma and I_{-1} = initial_inventory. */
  lemma SimulateRecurrence(forecast: seq<real>, demand: seq<real>, cfg: Config, std: seq<real> -> real)
    requires Simulate(forecast, demand, cfg, std).Ok?
    ensures var r := Simulate(forecast, demand, cfg, std).value;
      forall t :: 0 <= t < |demand| ==>
        var opening := if t == 0 then cfg.initialInventory else r.levels[t - 1];
        && r.orders[t] >= 0.0
        && opening + r.orders[t] == Max(opening, forecast[t] + SafetyStock(forecast, demand, cfg, std))
        && r.levels[t] == opening + r.orders[t] - demand[t]
  {
    forall t | 0 <= t < |demand|
      ensures var r := Simulate(forecast, demand, cfg, std).value;
        var opening := if t == 0 then cfg.initialInventory else r.levels[t - 1];
        && r.orders[t] >= 0.0
        && opening + r.orders[t] == Max(opening, forecast[t] + SafetyStock(forecast, demand, cfg, std))
        && r.levels[t] == opening + r.orders[t] - demand[t]
    {
      SimulateStepAt(forecast, demand, cfg, std, t);
    }
  }

  /** What a successful simulation reports about the levels it returns:
      the total cost is the sum over periods of h*max(I_t,0) +
      p*max(-I_t,0), and the service level times T counts the periods
      ending with I_t >= 0. */
  lemma SimulateAccounting(forecast: seq<real>, demand: seq<real>, cfg: Config, std: seq<real> -> real)
    requires Simulate(forecast, demand, cfg, std).Ok?
    ensures var r := Simulate(forecast, demand, cfg, std).value;
      && r.totalCost == Sum(PeriodCosts(r.levels, cfg.h, cfg.p))
      && r.totalCost == cfg.h * Sum(OnHandTrace(r.levels)) + cfg.p * Sum(BacklogTrace(r.levels))
      && r.serviceLevel * (|demand| as real) == CountNonNegative(r.levels) as real
  {
    SimulatePeriodCosts(forecast, demand, cfg, std);
    SimulateWeightedCost(forecast, demand, cfg, std);
    SimulateServiceCount(forecast, demand, cfg, std);
  }

  /** The total cost is the sum of the per-period costs. */
  lemma SimulatePeriodCosts(forecast: seq<real>, demand: seq<real>, cfg: Config, std: seq<real> -> real)
    requires Simulate(forecast, demand, cfg, std).Ok?
    ensures var r := Simulate(forecast, demand, cfg, std).value;
      r.totalCost == Sum(PeriodCosts(r.levels, cfg.h, cfg.p))
  {
    SimulateCostField(forecast, demand, cfg, std);
    CostIsSumOfPeriods(Simulate(forecast, demand, cfg, std).value.levels, cfg.h, cfg.p);
  }

  /** The total cost is h times the total on-hand stock plus p times the
      total backlog. */
  lemma SimulateWeightedCost(forecast: seq<real>, demand: seq<real>, cfg: Config, std: seq<real> -> real)
    requires Simulate(forecast, demand, cfg, std).Ok?
    ensures var r := Simulate(forecast, demand, cfg, std).value;
      r.totalCost == cfg.h * Sum(OnHandTrace(r.levels)) + cfg.p * Sum(BacklogTrace(r.levels))
  {
    SimulatePeriodCosts(forecast, demand, cfg, std);
    WeightedPeriodCosts(Simulate(forecast, demand, cfg, std).value.levels, cfg);
  }

  /** Summing the per-period costs splits into the two weighted sums. */
  lemma WeightedPeriodCosts(levels: seq<real>, cfg: Config)
    ensures Sum(PeriodCosts(levels, cfg.h, cfg.p)) == cfg.h * Sum(OnHandTrace(levels)) + cfg.p * Sum(BacklogTrace(levels))
  {
    PeriodCostsAreWeighted(levels, cfg.h, cfg.p);
  }

  /** The service level times the horizon counts the periods without
      backlog. */
  lemma SimulateServiceCount(forecast: seq<real>, demand: seq<real>, cfg: Config, std: seq<real> -> real)
    requires Simulate(forecast, demand, cfg, std).Ok?
    ensures var r := Simulate(forecast, demand, cfg, std).value;
      r.serviceLevel * (|demand| as real) == CountNonNegative(r.levels) as real
  {
    SimulateServiceField(forecast, demand, cfg, std);
    ServiceCountOf(Simulate(forecast, demand, cfg, std).value, demand);
  }

  /** The counting identity for any result whose service level is that of
      its own levels. */
  lemma ServiceCountOf(r: SimulationResult, demand: seq<real>)
    requires |r.levels| == |demand| > 0
    requires r.serviceLevel == ServiceLevel(r.levels)
    ensures r.serviceLevel * (|demand| as real) == CountNonNegative(r.levels) as real
  {
  }

  /** The reported total cost is the cost of the reported levels. */
  lemma SimulateCostField(forecast: seq<real>, demand: seq<real>, cfg: Config, std: seq<real> -> real)
    requires Simulate(forecast, demand, cfg, std).Ok?
    ensures var r := Simulate(forecast, demand, cfg, std).value;
      r.totalCost == TotalCost(r.levels, cfg.h, cfg.p)
  {
    SimulateIsSummary(forecast, demand, cfg, std);
  }

  /** The reported service level is that of the reported levels, one per
      demand period. */
  lemma SimulateServiceField(forecast: seq<real>, demand: seq<real>, cfg: Config, std: seq<real> -> real)
    requires Simulate(forecast, demand, cfg, std).Ok?
    ensures var r := Simulate(forecast, demand, cfg, std).value;
      |r.levels| == |demand| > 0 && r.serviceLevel == ServiceLevel(r.levels)
  {
    SimulateIsSummary(forecast, demand, cfg, std);
  }

  /** Period t of a successful simulation is one policy step. */
  lemma SimulateStepAt(forecast: seq<real>, demand: seq<real>, cfg: Config, std: seq<real> -> real, t: nat)
    requires Simulate(forecast, demand, cfg, std).Ok?
    requires t < |demand|
    ensures var r := Simulate(forecast, demand, cfg, std).value;
      var opening := if t == 0 then cfg.initialInventory else r.levels[t - 1];
      && r.orders[t] >= 0.0
      && opening + r.orders[t] == Max(opening, forecast[t] + SafetyStock(forecast, demand, cfg, std))
      && r.levels[t] == opening + r.orders[t] - demand[t]
  {
    var safety := SafetyStock(forecast, demand, cfg, std);
    var tr := Trace(forecast, demand, safety, cfg.initialInventory);
    var r := Simulate(forecast, demand, cfg, std).value;
    SimulateTraces(forecast, demand, cfg, std);
    TraceStepAt(forecast, demand, safety, cfg.initialInventory, t);
    assert r.orders[t] == tr[t].order && r.levels[t] == tr[t].level;
    if t > 0 {
      assert r.levels[t - 1] == tr[t - 1].level;
    }
  }

  /** The levels and orders a successful simulation reports are those of
      the policy run with safety stock z * std(residuals). */
  lemma SimulateTraces(forecast: seq<real>, demand: seq<real>, cfg: Config, std: seq<real> -> real)
    requires Simulate(forecast, demand, cfg, std).Ok?
    ensures |forecast| == |demand| > 0
    ensures var tr := Trace(forecast, demand, SafetyStock(forecast, demand, cfg, std), cfg.initialInventory);
      && Simulate(forecast, demand, cfg, std).value.levels == Levels(tr)
      && Simulate(forecast, demand, cfg, std).value.orders == Orders(tr)
  {
    SimulateIsSummary(forecast, demand, cfg, std);
  }

  /** Per-period cost h * max(I_t, 0) + p * max(-I_t, 0). */
  function PeriodCosts(levels: seq<real>, h: real, p: real): (s: seq<real>)
    ensures |s| == |levels|
  {
    seq(|levels|, t requires 0 <= t < |levels| => h * OnHand(levels[t]) + p * Backlog(levels[t]))
  }

  /** The cost identity: the total is the sum of the per-period costs,
      and equally h times the total on-hand stock plus p times the total
      backlog. */
  lemma CostIdentity(levels: seq<real>, h: real, p: real)
    ensures TotalCost(levels, h, p) == Sum(PeriodCosts(levels, h, p))
    ensures TotalCost(levels, h, p) == h * Sum(OnHandTrace(levels)) + p * Sum(BacklogTrace(levels))
  {
    CostIsSumOfPeriods(levels, h, p);
    PeriodCostsAreWeighted(levels, h, p);
  }

  lemma CostIsSumOfPeriods(levels: seq<real>, h: real, p: real)
    ensures TotalCost(levels, h, p) == Sum(PeriodCosts(levels, h, p))
  {
    PeriodCostsSplit(levels, h, p);
    SumLinear(HoldingCosts(levels, h), ShortageCosts(levels, p), PeriodCosts(levels, h, p), 1.0, 1.0);
  }

  lemma PeriodCostsSplit(levels: seq<real>, h: real, p: real)
    ensures var holding, shortage := HoldingCosts(levels, h), ShortageCosts(levels, p);
      forall i :: 0 <= i < |levels| ==> PeriodCosts(levels, h, p)[i] == 1.0 * holding[i] + 1.0 * shortage[i]
  {
  }

  lemma PeriodCostsAreWeighted(levels: seq<real>, h: real, p: real)
    ensures Sum(PeriodCosts(levels, h, p)) == h * Sum(OnHandTrace(levels)) + p * Sum(BacklogTrace(levels))
  {
    var perPeriod := PeriodCosts(levels, h, p);
    var onHand, backlog := OnHandTrace(levels), BacklogTrace(levels);
    forall i | 0 <= i < |perPeriod|
      ensures perPeriod[i] == h * onHand[i] + p * backlog[i]
    {
      assert onHand[i] == OnHand(levels[i]) && backlog[i] == Backlog(levels[i]);
    }
    SumLinear(onHand, backlog, perPeriod, h, p);
  }

  /** A successful simulation is the summary of the policy run with
      safety stock z * std(residuals). */
  lemma SimulateIsSummary(forecast: seq<real>, demand: seq<real>, cfg: Config, std: seq<real> -> real)
    requires |forecast| == |demand| > 0
    ensures Simulate(forecast, demand, cfg, std) ==
      Ok(Summarise(Trace(forecast, demand, SafetyStock(forecast, demand, cfg, std), cfg.initialInventory), cfg))
  {
  }

  /** Raising every level never lowers the service level. */
  lemma ServiceLevelMonotone(levels: seq<real>, levels': seq<real>)
    requires |levels| == |levels'| > 0
    requires forall t :: 0 <= t < |levels| ==> levels[t] <= levels'[t]
    ensures ServiceLevel(levels) <= ServiceLevel(levels')
  {
    CountNonNegativeMonotone(levels, levels');
    DivideMonotone(CountNonNegative(levels) as real, CountNonNegative(levels') as real, |levels| as real);
  }

  /** Raising the safety factor (sigma being a standard deviation, hence
      non-negative) never lowers the service level. */
  lemma SafetyFactorRaisesService(forecast: seq<real>, demand: seq<real>, cfg: Config, z': real, std: seq<real> -> real)
    requires Simulate(forecast, demand, cfg, std).Ok?
    requires cfg.z <= z'
    requires std(Residuals(demand, forecast)) >= 0.0
    ensures Simulate(forecast, demand, cfg, std).value.serviceLevel
      <= Simulate(forecast, demand, cfg.(z := z'), std).value.serviceLevel
  {
    var cfg' := cfg.(z := z');
    var safety, safety' := SafetyStock(forecast, demand, cfg, std), SafetyStock(forecast, demand, cfg', std);
    NonNegativeProduct(z' - cfg.z, std(Residuals(demand, forecast)));
    assert safety <= safety';
    SimulateIsSummary(forecast, demand, cfg, std);
    SimulateIsSummary(forecast, demand, cfg', std);
    var tr := Trace(forecast, demand, safety, cfg.initialInventory);
    var tr' := Trace(forecast, demand, safety', cfg.initialInventory);
    LevelsMonotone(forecast, demand, safety, safety', cfg.initialInventory, cfg.initialInventory);
    ServiceLevelMonotone(Levels(tr), Levels(tr'));
  }

  lemma DivideMonotone(a: real, b: real, n: real)
    requires n > 0.0 && a <= b
    ensures a / n <= b / n
  {
    var qa, qb := a / n, b / n;
    assert a == n * qa && b == n * qb;
  }
}
