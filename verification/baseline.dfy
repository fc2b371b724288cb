/** The stand-alone baseline run of scripts/3_inventory_simulation.py:
    an inline copy of the order-up-to loop with h = 1, p = 5, z = 1.28 and
    an opening inventory of 50, driven by a model's fitted values. It is
    written here as the imperative loop the script runs and proved to
    compute exactly what the functional simulator computes with its
    default parameters. */
module Baseline {
  import opened Results
  import opened Stats
  import opened Inventory

  /** The lists and totals the script computes. */
  datatype BaselineRun = BaselineRun(
    levels: seq<real>,
    orders: seq<real>,
    holdingCosts: seq<real>,
    shortageCosts: seq<real>,
    totalCost: real,
    serviceAchieved: real)

  /** The script's loop over the fitted values. The fitted series must
      match the data in length (the residuals are an element-wise
      difference) and the horizon must be non-empty (the service level
      divides by T). On success the four lists have length T, the
      per-period costs are h*max(I,0) and p*max(-I,0), and the traces,
      total cost and service level coincide with `simulate_inventory` at
      its defaults. */
  method InlineSimulation(fitted: seq<real>, data: seq<real>, std: seq<real> -> real) returns (r: Result<BaselineRun>)
    ensures r.Ok? <==> |fitted| == |data| && |data| > 0
    ensures r.Ok? ==> |r.value.levels| == |r.value.orders| == |data|
    ensures r.Ok? ==> r.value.holdingCosts == HoldingCosts(r.value.levels, 1.0)
    ensures r.Ok? ==> r.value.shortageCosts == ShortageCosts(r.value.levels, 5.0)
    ensures r.Ok? ==> r.value.totalCost >= 0.0 && 0.0 <= r.value.serviceAchieved <= 1.0
    ensures r.Ok? ==>
      var s := Simulate(fitted, data, Defaults, std);
      && s.Ok?
      && r.value.levels == s.value.levels
      && r.value.orders == s.value.orders
      && r.value.totalCost == s.value.totalCost
      && r.value.serviceAchieved == s.value.serviceLevel
  {
    if |fitted| != |data| {
      return Err(LengthMismatch);
    }
    var T := |data|;
    if T == 0 {
      return Err(EmptyHorizon);
    }
    var sigma := std(Residuals(data, fitted));
    var h, p, z, initialInventory := 1.0, 5.0, 1.28, 50.0;

    assert z * sigma == SafetyStock(fitted, data, Defaults, std);
    ghost var tr := Trace(fitted, data, z * sigma, initialInventory);

    var I := initialInventory;
    var levels, orders, holdingCosts, shortageCosts := [], [], [], [];
    var t := 0;
    while t < T
      invariant 0 <= t <= T
      invariant |levels| == t && |orders| == t && |holdingCosts| == t && |shortageCosts| == t
      invariant forall i :: 0 <= i < t ==> levels[i] == tr[i].level && orders[i] == tr[i].order
      invariant forall i :: 0 <= i < t ==> holdingCosts[i] == h * OnHand(levels[i])
      invariant forall i :: 0 <= i < t ==> shortageCosts[i] == p * Backlog(levels[i])
      invariant I == Opening(tr, initialInventory, t)
    {
      var target := fitted[t] + z * sigma;
      var order := Max(0.0, target - I);
      LoopStep(fitted, data, z * sigma, initialInventory, t, I);
      I := I + order - data[t];
      levels := levels + [I];
      orders := orders + [order];
      holdingCosts := holdingCosts + [h * Max(I, 0.0)];
      shortageCosts := shortageCosts + [p * Max(-I, 0.0)];
      t := t + 1;
    }

    var totalCost := Sum(holdingCosts) + Sum(shortageCosts);
    var serviceAchieved := CountNonNegative(levels) as real / T as real;
    MatchesSimulation(fitted, data, std, tr, levels, orders, holdingCosts, shortageCosts);
    return Ok(BaselineRun(levels, orders, holdingCosts, shortageCosts, totalCost, serviceAchieved));
  }

  /** One pass of the loop from the opening level of period t yields
      period t of the policy run and the opening level of period t + 1. */
  lemma LoopStep(fitted: seq<real>, data: seq<real>, safety: real, initial: real, t: nat, I: real)
    requires |fitted| == |data| && t < |data|
    requires I == Opening(Trace(fitted, data, safety, initial), initial, t)
    ensures var tr := Trace(fitted, data, safety, initial);
      var order := Max(0.0, fitted[t] + safety - I);
      && order == tr[t].order
      && I + order - data[t] == tr[t].level
      && I + order - data[t] == Opening(tr, initial, t + 1)
  {
    TraceFollowsPolicy(fitted, data, safety, initial);
  }

  /** The lists the loop built, read against the policy run, are the
      simulator's traces and cost lists at its defaults. */
  lemma MatchesSimulation(fitted: seq<real>, data: seq<real>, std: seq<real> -> real, tr: seq<Period>,
                          levels: seq<real>, orders: seq<real>, holdingCosts: seq<real>, shortageCosts: seq<real>)
    requires |fitted| == |data| > 0
    requires tr == Trace(fitted, data, SafetyStock(fitted, data, Defaults, std), Defaults.initialInventory)
    requires |levels| == |orders| == |holdingCosts| == |shortageCosts| == |data|
    requires forall i :: 0 <= i < |data| ==> levels[i] == tr[i].level && orders[i] == tr[i].order
    requires forall i :: 0 <= i < |data| ==> holdingCosts[i] == 1.0 * OnHand(levels[i])
    requires forall i :: 0 <= i < |data| ==> shortageCosts[i] == 5.0 * Backlog(levels[i])
    ensures holdingCosts == HoldingCosts(levels, 1.0)
    ensures shortageCosts == ShortageCosts(levels, 5.0)
    ensures var s := Simulate(fitted, data, Defaults, std);
      && s.Ok?
      && levels == s.value.levels
      && orders == s.value.orders
      && Sum(holdingCosts) + Sum(shortageCosts) == s.value.totalCost
      && CountNonNegative(levels) as real / |data| as real == s.value.serviceLevel
  {
    assert levels == Levels(tr);
    assert orders == Orders(tr);
    assert holdingCosts == HoldingCosts(levels, 1.0);
    var shortage := ShortageCosts(levels, 5.0);
    forall i | 0 <= i < |data|
      ensures shortageCosts[i] == shortage[i]
    {
    }
    assert shortageCosts == shortage;
    SimulateIsSummary(fitted, data, Defaults, std);
  }
}
