/** A worked run of the whole pipeline on a flat demand of 10 for three
    periods: the naive in-sample forecast, then the order-up-to policy
    with h = 1, p = 5, z = 0 and an opening inventory of 20. The stock
    drifts down to zero, one order of 10 restores it, and no period ends
    in backlog. */
module Scenario {
  import opened Results
  import opened Stats
  import opened Forecast
  import opened Inventory

  const FlatDemand: seq<real> := [10.0, 10.0, 10.0]
  const ScenarioConfig: Config := Config(1.0, 5.0, 0.0, 20.0)

  /** The naive in-sample series of a flat demand is the demand itself. */
  lemma NaiveFlatForecast()
    ensures InSample(Forecaster(Naive), FlatDemand) == Ok(FlatDemand)
  {
    var f := Forecaster(Naive);
    InSampleClosedForm(f, FlatDemand);
    var r := InSample(f, FlatDemand).value;
    assert f(FlatDemand[..1]) == Ok(10.0);
    assert f(FlatDemand[..2]) == Ok(10.0);
    assert r == FlatDemand;
  }

  /** With z = 0 the safety stock vanishes whatever sigma is. */
  lemma NoSafetyStock(std: seq<real> -> real)
    ensures SafetyStock(FlatDemand, FlatDemand, ScenarioConfig, std) == 0.0
  {
  }

  /** The run holds 10, 0, 0 units after ordering 0, 0, 10. */
  lemma FlatTrace()
    ensures Trace(FlatDemand, FlatDemand, 0.0, 20.0) == [Period(0.0, 10.0), Period(0.0, 0.0), Period(10.0, 0.0)]
  {
    FlatTraceOf(FlatDemand);
  }

  /** The same run, period by period: each prefix of the flat demand is
      one policy step further. */
  lemma FlatTraceOf(d: seq<real>)
    requires |d| == 3 && d[0] == d[1] == d[2] == 10.0
    ensures Trace(d, d, 0.0, 20.0) == [Period(0.0, 10.0), Period(0.0, 0.0), Period(10.0, 0.0)]
  {
    var prev := Trace(d[..2], d[..2], 0.0, 20.0);
    FlatTraceTwo(d[..2]);
    TraceSnoc(d, d, 0.0, 20.0);
    assert Trace(d, d, 0.0, 20.0) == prev + [Step(0.0, 10.0, 10.0, 0.0)];
    AppendTwo(prev, Period(10.0, 0.0));
  }

  lemma FlatTraceTwo(d: seq<real>)
    requires |d| == 2 && d[0] == d[1] == 10.0
    ensures Trace(d, d, 0.0, 20.0) == [Period(0.0, 10.0), Period(0.0, 0.0)]
  {
    var prev := Trace(d[..1], d[..1], 0.0, 20.0);
    FlatTraceOne(d[..1]);
    TraceSnoc(d, d, 0.0, 20.0);
    assert Trace(d, d, 0.0, 20.0) == prev + [Step(10.0, 10.0, 10.0, 0.0)];
    AppendOne(prev, Period(0.0, 0.0));
  }

  lemma FlatTraceOne(d: seq<real>)
    requires |d| == 1 && d[0] == 10.0
    ensures Trace(d, d, 0.0, 20.0) == [Period(0.0, 10.0)]
  {
    TraceSnoc(d, d, 0.0, 20.0);
    assert d[..0] == [];
    assert Trace(d[..0], d[..0], 0.0, 20.0) == [];
    assert Closing([], 20.0) == 20.0;
    assert Step(20.0, 10.0, 10.0, 0.0) == Period(0.0, 10.0);
  }

  lemma AppendOne(prev: seq<Period>, p: Period)
    requires |prev| == 1
    ensures prev + [p] == [prev[0], p]
  {
  }

  lemma AppendTwo(prev: seq<Period>, p: Period)
    requires |prev| == 2
    ensures prev + [p] == [prev[0], prev[1], p]
  {
  }

  /** The summary of that run: total cost 10 (all holding), full service
      and no shortage. */
  lemma FlatSummary()
    ensures var s := Summarise([Period(0.0, 10.0), Period(0.0, 0.0), Period(10.0, 0.0)], ScenarioConfig);
      && s.levels == [10.0, 0.0, 0.0]
      && s.orders == [0.0, 0.0, 10.0]
      && s.totalCost == 10.0
      && s.serviceLevel == 1.0
      && s.avgShortage == 0.0
  {
    var tr := [Period(0.0, 10.0), Period(0.0, 0.0), Period(10.0, 0.0)];
    var levels := Levels(tr);
    assert levels == [10.0, 0.0, 0.0];
    assert Orders(tr) == [0.0, 0.0, 10.0];
    FlatCost(levels);
    FlatService(levels);
    FlatShortage(levels);
  }

  lemma FlatCost(levels: seq<real>)
    requires |levels| == 3 && levels[0] == 10.0 && levels[1] == 0.0 && levels[2] == 0.0
    ensures TotalCost(levels, 1.0, 5.0) == 10.0
  {
    var holding, shortage := HoldingCosts(levels, 1.0), ShortageCosts(levels, 5.0);
    forall t | 0 <= t < 3
      ensures shortage[t] == 0.0 && holding[t] == (if t == 0 then 10.0 else 0.0)
    {
    }
    SumNonNegative(shortage);
    SumFirstOnly(holding);
  }

  /** A three-entry sequence that is zero after its first entry sums to
      that entry. */
  lemma SumFirstOnly(s: seq<real>)
    requires |s| == 3 && s[1] == 0.0 && s[2] == 0.0
    ensures Sum(s) == s[0]
  {
    var two := s[..2];
    var one := two[..1];
    assert one[..0] == [];
    assert Sum(one) == one[0];
    assert Sum(two) == Sum(one) + two[1];
    assert Sum(s) == Sum(two) + s[2];
  }

  lemma FlatService(levels: seq<real>)
    requires |levels| == 3 && levels[0] == 10.0 && levels[1] == 0.0 && levels[2] == 0.0
    ensures ServiceLevel(levels) == 1.0
  {
  }

  lemma FlatShortage(levels: seq<real>)
    requires |levels| == 3 && levels[0] == 10.0 && levels[1] == 0.0 && levels[2] == 0.0
    ensures AverageBacklog(levels) == 0.0
  {
    var backlog := BacklogTrace(levels);
    forall t | 0 <= t < 3
      ensures backlog[t] == 0.0
    {
    }
    SumNonNegative(backlog);
  }

  /** End to end: the naive forecast of the flat demand drives a
      simulation that orders 0, 0, 10, ends at 10, 0, 0, costs 10 and
      never runs short. */
  lemma FlatScenario(std: seq<real> -> real)
    ensures InSample(Forecaster(Naive), FlatDemand).Ok?
    ensures var r := Simulate(InSample(Forecaster(Naive), FlatDemand).value, FlatDemand, ScenarioConfig, std);
      && r.Ok?
      && r.value.levels == [10.0, 0.0, 0.0]
      && r.value.orders == [0.0, 0.0, 10.0]
      && r.value.totalCost == 10.0
      && r.value.serviceLevel == 1.0
      && r.value.avgShortage == 0.0
  {
    NaiveFlatForecast();
    NoSafetyStock(std);
    FlatTrace();
    SimulateIsSummary(FlatDemand, FlatDemand, ScenarioConfig, std);
    FlatSummary();
  }
}
