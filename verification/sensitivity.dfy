/** The sensitivity sweep of scripts/4_sensitivity_analysis.py:157-176:
    every safety factor z, every shortage cost p and every forecast model
    is simulated with h = 1 and an opening inventory of 50, producing one
    row per (z, p, model) cell in the order of the three nested loops
    (z outermost, model innermost).

    The source re-fits each model inside the innermost loop; since a fit
    is a pure function of the data, the model here carries its forecast
    series, computed once. Rounding the row fields to two decimals is
    presentation and is not modelled. */
module Sensitivity {
  import opened Results
  import opened Stats
  import opened Forecast
  import opened Inventory

  /** The swept safety factors and shortage costs. */
  const SafetyFactors: seq<real> := [1.0, 1.28, 1.65]
  const ShortageCostValues: seq<real> := [2.0, 5.0, 10.0]

  /** A forecast model: its table name and its in-sample forecast series. */
  datatype Model = Model(name: string, forecast: seq<real>)

  /** The naive and moving-average entries of the table of models: the
      in-sample driver applied to the demand series. */
  function CausalModel(name: string, s: Strategy, data: seq<real>): (r: Result<Model>)
    ensures WellConfigured(s) ==> r.Ok?
    ensures r.Ok? ==> r.value.name == name && |r.value.forecast| == |data|
  {
    if WellConfigured(s) then InSampleTotal(s, data); CausalModelOf(name, s, data)
    else CausalModelOf(name, s, data)
  }

  function CausalModelOf(name: string, s: Strategy, data: seq<real>): (r: Result<Model>)
    ensures r.Ok? ==> r.value.name == name && |r.value.forecast| == |data|
  {
    match InSample(Forecaster(s), data)
    case Err(e) => Err(e)
    case Ok(f) => Ok(Model(name, f))
  }

  /** One cell of the grid. */
  datatype Cell = Cell(z: real, p: real, model: Model)

  /** The (model, z, p) key a row is reported under. */
  datatype Key = Key(model: string, z: real, p: real)

  function KeyOf(c: Cell): Key
  {
    Key(c.model.name, c.z, c.p)
  }

  /** The cells for one (z, p) pair: the innermost loop over models. */
  function ModelBlock(z: real, p: real, ms: seq<Model>): (cells: seq<Cell>)
    ensures |cells| == |ms|
    ensures forall k :: 0 <= k < |ms| ==> cells[k] == Cell(z, p, ms[k])
  {
    seq(|ms|, k requires 0 <= k < |ms| => Cell(z, p, ms[k]))
  }

  /** The cells for one z: the middle loop over shortage costs. */
  function CostBlock(z: real, ps: seq<real>, ms: seq<Model>): seq<Cell>
    decreases |ps|
  {
    if |ps| == 0 then [] else ModelBlock(z, ps[0], ms) + CostBlock(z, ps[1..], ms)
  }

  /** All cells in loop order: z outer, p middle, model inner. */
  function Grid(zs: seq<real>, ps: seq<real>, ms: seq<Model>): seq<Cell>
    decreases |zs|
  {
    if |zs| == 0 then [] else CostBlock(zs[0], ps, ms) + Grid(zs[1..], ps, ms)
  }

  predicate Distinct<T(==)>(xs: seq<T>)
  {
    forall i, j :: 0 <= i < j < |xs| ==> xs[i] != xs[j]
  }

  function Names(ms: seq<Model>): (names: seq<string>)
    ensures |names| == |ms|
  {
    seq(|ms|, k requires 0 <= k < |ms| => ms[k].name)
  }

  function Keys(cells: seq<Cell>): (keys: seq<Key>)
    ensures |keys| == |cells|
  {
    seq(|cells|, n requires 0 <= n < |cells| => KeyOf(cells[n]))
  }

  lemma MulStep(a: nat, b: nat)
    ensures (a + 1) * b == a * b + b
  {
  }

  lemma {:induction false} MulNat(a: nat, b: nat)
    ensures a * b >= 0
    decreases a
  {
    if a > 0 {
      MulNat(a - 1, b);
      MulStep(a - 1, b);
    }
  }

  /** The position of cell (i, j, k) in a grid with np shortage costs and
      nm models: (i*np + j)*nm + k, the row-major order of three nested
      loops. */
  function Position(i: nat, j: nat, k: nat, np: nat, nm: nat): (n: nat)
    ensures n == (i * np + j) * nm + k
  {
    MulNat(np, nm);
    MulNat(i, np * nm);
    MulNat(j, nm);
    RowMajor(i, j, np, nm);
    i * (np * nm) + (j * nm + k)
  }

  lemma {:induction false} RowMajor(i: nat, j: nat, np: nat, nm: nat)
    ensures i * (np * nm) + j * nm == (i * np + j) * nm
    decreases i
  {
    if i > 0 {
      RowMajor(i - 1, j, np, nm);
      MulStep(i - 1, np * nm);
      MulStep(i - 1, np);
      assert (i * np + j) * nm == ((i - 1) * np + j) * nm + np * nm by {
        assert i * np + j == ((i - 1) * np + j) + np;
        AddMul((i - 1) * np + j, np, nm);
      }
    }
  }

  lemma AddMul(a: int, b: int, c: int)
    ensures (a + b) * c == a * c + b * c
  {
  }

  lemma {:induction false} CostBlockSize(z: real, ps: seq<real>, ms: seq<Model>)
    ensures |CostBlock(z, ps, ms)| == |ps| * |ms|
    decreases |ps|
  {
    if |ps| > 0 {
      CostBlockSize(z, ps[1..], ms);
      MulStep(|ps| - 1, |ms|);
    }
  }

  /** Cell j*|ms| + k of the block for one z is the j-th shortage cost
      with the k-th model. */
  lemma {:induction false} CostBlockAt(z: real, ps: seq<real>, ms: seq<Model>, j: nat, k: nat)
    requires j < |ps| && k < |ms|
    ensures j * |ms| + k < |CostBlock(z, ps, ms)|
    ensures CostBlock(z, ps, ms)[j * |ms| + k] == Cell(z, ps[j], ms[k])
    decreases j
  {
    CostBlockSize(z, ps, ms);
    if j == 0 {
      assert CostBlock(z, ps, ms)[k] == ModelBlock(z, ps[0], ms)[k];
    } else {
      var rest := ps[1..];
      CostBlockAt(z, rest, ms, j - 1, k);
      CostBlockSize(z, rest, ms);
      MulStep(j - 1, |ms|);
      MulStep(|rest|, |ms|);
      var r := (j - 1) * |ms| + k;
      assert j * |ms| + k == |ms| + r;
      assert CostBlock(z, ps, ms)[|ms| + r] == CostBlock(z, rest, ms)[r];
    }
  }

  /** The grid holds |zs| * |ps| * |ms| cells. */
  lemma {:induction false} GridSize(zs: seq<real>, ps: seq<real>, ms: seq<Model>)
    ensures |Grid(zs, ps, ms)| == |zs| * (|ps| * |ms|)
    decreases |zs|
  {
    if |zs| > 0 {
      GridSize(zs[1..], ps, ms);
      CostBlockSize(zs[0], ps, ms);
      MulStep(|zs| - 1, |ps| * |ms|);
    }
  }

  /** Cell i*(|ps|*|ms|) + r of the grid is cell r of the block for zs[i]:
      z is the outermost loop. */
  lemma {:induction false} GridAt(zs: seq<real>, ps: seq<real>, ms: seq<Model>, i: nat, r: nat)
    requires i < |zs| && r < |ps| * |ms|
    ensures i * (|ps| * |ms|) + r < |Grid(zs, ps, ms)|
    ensures r < |CostBlock(zs[i], ps, ms)|
    ensures Grid(zs, ps, ms)[i * (|ps| * |ms|) + r] == CostBlock(zs[i], ps, ms)[r]
    decreases i, 1
  {
    var b := |ps| * |ms|;
    GridSize(zs, ps, ms);
    CostBlockSize(zs[i], ps, ms);
    if i > 0 {
      GridTail(zs, ps, ms, i - 1, r);
    } else {
      CostBlockSize(zs[0], ps, ms);
      assert Grid(zs, ps, ms)[r] == CostBlock(zs[0], ps, ms)[r];
    }
  }

  /** Stepping past the first z block. */
  lemma GridTail(zs: seq<real>, ps: seq<real>, ms: seq<Model>, i: nat, r: nat)
    requires i + 1 < |zs| && r < |ps| * |ms|
    ensures (i + 1) * (|ps| * |ms|) + r < |Grid(zs, ps, ms)|
    ensures r < |CostBlock(zs[i + 1], ps, ms)|
    ensures Grid(zs, ps, ms)[(i + 1) * (|ps| * |ms|) + r] == CostBlock(zs[i + 1], ps, ms)[r]
    decreases i + 1, 0
  {
    var b := |ps| * |ms|;
    var rest := zs[1..];
    GridAt(rest, ps, ms, i, r);
    MulNat(i, b);
    MulStep(i, b);
    GridCons(zs, ps, ms, i * b + r);
    assert rest[i] == zs[i + 1];
  }

  /** Past the first z block the grid continues with the grid of the
      remaining z values. */
  lemma GridCons(zs: seq<real>, ps: seq<real>, ms: seq<Model>, n: nat)
    requires |zs| > 0 && n < |Grid(zs[1..], ps, ms)|
    ensures |ps| * |ms| + n < |Grid(zs, ps, ms)|
    ensures Grid(zs, ps, ms)[|ps| * |ms| + n] == Grid(zs[1..], ps, ms)[n]
  {
    CostBlockSize(zs[0], ps, ms);
  }

  /** The cell at (i*|ps| + j)*|ms| + k is (zs[i], ps[j], ms[k]):
      z outer, p middle, model inner. */
  lemma GridCell(zs: seq<real>, ps: seq<real>, ms: seq<Model>, i: nat, j: nat, k: nat)
    requires i < |zs| && j < |ps| && k < |ms|
    ensures Position(i, j, k, |ps|, |ms|) < |Grid(zs, ps, ms)|
    ensures Grid(zs, ps, ms)[Position(i, j, k, |ps|, |ms|)] == Cell(zs[i], ps[j], ms[k])
  {
    MulNat(j, |ms|);
    CostBlockAt(zs[i], ps, ms, j, k);
    CostBlockSize(zs[i], ps, ms);
    GridAt(zs, ps, ms, i, j * |ms| + k);
  }

  /** Every cell of the grid combines a swept z, a swept p and a model. */
  lemma {:induction false} GridMembers(zs: seq<real>, ps: seq<real>, ms: seq<Model>)
    ensures forall n :: 0 <= n < |Grid(zs, ps, ms)| ==>
      var c := Grid(zs, ps, ms)[n];
      c.z in zs && c.p in ps && c.model in ms
    decreases |zs|
  {
    if |zs| > 0 {
      GridMembers(zs[1..], ps, ms);
      CostBlockMembers(zs[0], ps, ms);
    }
  }

  lemma {:induction false} CostBlockMembers(z: real, ps: seq<real>, ms: seq<Model>)
    ensures forall n :: 0 <= n < |CostBlock(z, ps, ms)| ==>
      var c := CostBlock(z, ps, ms)[n];
      c.z == z && c.p in ps && c.model in ms
    decreases |ps|
  {
    if |ps| > 0 {
      CostBlockMembers(z, ps[1..], ms);
    }
  }

  /** Concatenating two key-distinct sequences with no key in common
      keeps keys distinct. */
  lemma DistinctConcat(xs: seq<Cell>, ys: seq<Cell>)
    requires Distinct(Keys(xs)) && Distinct(Keys(ys))
    requires forall a, b :: 0 <= a < |xs| && 0 <= b < |ys| ==> KeyOf(xs[a]) != KeyOf(ys[b])
    ensures Distinct(Keys(xs + ys))
  {
    var zs := xs + ys;
    forall a, b | 0 <= a < b < |zs|
      ensures Keys(zs)[a] != Keys(zs)[b]
    {
      if b < |xs| {
        assert Keys(xs)[a] != Keys(xs)[b];
      } else if a >= |xs| {
        assert Keys(ys)[a - |xs|] != Keys(ys)[b - |xs|];
      } else {
        assert KeyOf(xs[a]) != KeyOf(ys[b - |xs|]);
      }
    }
  }

  lemma {:induction false} CostBlockDistinct(z: real, ps: seq<real>, ms: seq<Model>)
    requires Distinct(ps) && Distinct(Names(ms))
    ensures Distinct(Keys(CostBlock(z, ps, ms)))
    decreases |ps|
  {
    if |ps| > 0 {
      var head := ModelBlock(z, ps[0], ms);
      var tail := CostBlock(z, ps[1..], ms);
      forall a, b | 0 <= a < b < |head|
        ensures Keys(head)[a] != Keys(head)[b]
      {
        assert Names(ms)[a] != Names(ms)[b];
      }
      assert Distinct(ps[1..]);
      CostBlockDistinct(z, ps[1..], ms);
      CostBlockMembers(z, ps[1..], ms);
      forall a, b | 0 <= a < |head| && 0 <= b < |tail|
        ensures KeyOf(head[a]) != KeyOf(tail[b])
      {
        assert tail[b].p in ps[1..];
      }
      DistinctConcat(head, tail);
    }
  }

  /** With distinct z values, distinct p values and distinct model names,
      every (model, z, p) key appears in exactly one cell. */
  lemma {:induction false} GridDistinct(zs: seq<real>, ps: seq<real>, ms: seq<Model>)
    requires Distinct(zs) && Distinct(ps) && Distinct(Names(ms))
    ensures Distinct(Keys(Grid(zs, ps, ms)))
    decreases |zs|
  {
    if |zs| > 0 {
      var head := CostBlock(zs[0], ps, ms);
      var tail := Grid(zs[1..], ps, ms);
      CostBlockDistinct(zs[0], ps, ms);
      assert Distinct(zs[1..]);
      GridDistinct(zs[1..], ps, ms);
      CostBlockMembers(zs[0], ps, ms);
      GridMembers(zs[1..], ps, ms);
      forall a, b | 0 <= a < |head| && 0 <= b < |tail|
        ensures KeyOf(head[a]) != KeyOf(tail[b])
      {
        assert tail[b].z in zs[1..];
      }
      DistinctConcat(head, tail);
    }
  }

  /** One row of the sensitivity table (the unrounded values). */
  datatype Row = Row(
    model: string,
    z: real,
    p: real,
    totalCost: real,
    servicePct: real,
    avgInventory: real,
    avgShortage: real)

  /** The configuration of a cell: h = 1 and an opening inventory of 50. */
  function CellConfig(c: Cell): Config
  {
    Config(1.0, c.p, c.z, 50.0)
  }

  /** Simulate one cell and report it. The row carries the cell's key,
      its service level in percent, and, for a non-negative shortage
      cost, a non-negative total cost. */
  function RunCell(demand: seq<real>, c: Cell, std: seq<real> -> real): (r: Result<Row>)
    ensures r.Ok? <==> |c.model.forecast| == |demand| && |demand| > 0
    ensures r.Ok? ==> Key(r.value.model, r.value.z, r.value.p) == KeyOf(c)
    ensures r.Ok? ==> 0.0 <= r.value.servicePct <= 100.0
    ensures r.Ok? && c.p >= 0.0 ==> r.value.totalCost >= 0.0
  {
    match Simulate(c.model.forecast, demand, CellConfig(c), std)
    case Err(e) => Err(e)
    case Ok(s) =>
      Ok(Row(c.model.name, c.z, c.p, s.totalCost, s.serviceLevel * 100.0, s.avgInventory, s.avgShortage))
  }

  /** The two causal entries of the table of models, naive and the moving
      average over the default window of 3, never fail: each yields a
      forecast series as long as the demand, so on a non-empty demand
      series every cell built from either one succeeds, whatever z and p. */
  lemma CausalEntriesRun(demand: seq<real>, z: real, p: real, std: seq<real> -> real)
    requires |demand| > 0
    ensures CausalModel("Naive", Naive, demand).Ok?
    ensures CausalModel("Moving Average", MovingAverage(DefaultWindow), demand).Ok?
    ensures RunCell(demand, Cell(z, p, CausalModel("Naive", Naive, demand).value), std).Ok?
    ensures RunCell(demand, Cell(z, p, CausalModel("Moving Average", MovingAverage(DefaultWindow), demand).value), std).Ok?
  {
  }

  /** Gather cell results in order; the first failing cell aborts the
      sweep, as an exception in the loop would. */
  function Collect(results: seq<Result<Row>>): (r: Result<seq<Row>>)
    ensures r.Ok? <==> forall n :: 0 <= n < |results| ==> results[n].Ok?
    ensures r.Ok? ==> |r.value| == |results|
    ensures r.Ok? ==> forall n :: 0 <= n < |results| ==> r.value[n] == results[n].value
    decreases |results|
  {
    if |results| == 0 then Ok([])
    else
      match results[0]
      case Err(e) => Err(e)
      case Ok(row) =>
        match Collect(results[1..])
        case Err(e) => Err(e)
        case Ok(rows) => Ok([row] + rows)
  }

  /** The result of every cell, in grid order. */
  function CellResults(demand: seq<real>, cells: seq<Cell>, std: seq<real> -> real): (rs: seq<Result<Row>>)
    ensures |rs| == |cells|
    ensures forall n :: 0 <= n < |cells| ==> rs[n] == RunCell(demand, cells[n], std)
  {
    seq(|cells|, n requires 0 <= n < |cells| => RunCell(demand, cells[n], std))
  }

  /** The per-model summary the script prints before the sweep: every
      model simulated once at the keyword defaults (h = 1, p = 5,
      z = 1.28, opening inventory 50), in model order. */
  function Comparison(demand: seq<real>, ms: seq<Model>, std: seq<real> -> real): Result<seq<Row>>
  {
    Collect(CellResults(demand, ModelBlock(Defaults.z, Defaults.p, ms), std))
  }

  /** The summary succeeds exactly when every model's forecast fits the
      (non-empty) demand series; row k then reports model k with the
      total cost, the service level in percent and the averages of
      `simulate_inventory` at its defaults. */
  lemma ComparisonRows(demand: seq<real>, ms: seq<Model>, std: seq<real> -> real)
    ensures Comparison(demand, ms, std).Ok? <==>
      forall k :: 0 <= k < |ms| ==> |ms[k].forecast| == |demand| > 0
    ensures Comparison(demand, ms, std).Ok? ==>
      var rows := Comparison(demand, ms, std).value;
      && |rows| == |ms|
      && forall k :: 0 <= k < |ms| ==>
        var sim := Simulate(ms[k].forecast, demand, Defaults, std);
        && sim.Ok?
        && rows[k] == Row(ms[k].name, Defaults.z, Defaults.p, sim.value.totalCost,
             sim.value.serviceLevel * 100.0, sim.value.avgInventory, sim.value.avgShortage)
  {
    var cells := ModelBlock(Defaults.z, Defaults.p, ms);
    forall k | 0 <= k < |ms|
      ensures CellConfig(cells[k]) == Defaults
    {
    }
  }

  /** The sweep over an arbitrary grid of z values, p values and models. */
  function Sweep(demand: seq<real>, zs: seq<real>, ps: seq<real>, ms: seq<Model>, std: seq<real> -> real): Result<seq<Row>>
  {
    Collect(CellResults(demand, Grid(zs, ps, ms), std))
  }

  /** A model that fits the demand series makes every cell using it succeed. */
  lemma SweepSucceeds(demand: seq<real>, zs: seq<real>, ps: seq<real>, ms: seq<Model>, std: seq<real> -> real)
    requires forall k :: 0 <= k < |ms| ==> |ms[k].forecast| == |demand| > 0
    ensures Sweep(demand, zs, ps, ms, std).Ok?
  {
    var grid := Grid(zs, ps, ms);
    var rs := CellResults(demand, grid, std);
    GridMembers(zs, ps, ms);
    forall n | 0 <= n < |rs|
      ensures rs[n].Ok?
    {
      var m := grid[n].model;
      assert m in ms;
      var k :| 0 <= k < |ms| && ms[k] == m;
      assert |m.forecast| == |demand| > 0;
    }
  }

  /** A model that does not fit the demand series fails the sweep, as
      soon as there is at least one (z, p) pair. */
  lemma SweepFails(demand: seq<real>, zs: seq<real>, ps: seq<real>, ms: seq<Model>, std: seq<real> -> real, k: nat)
    requires |zs| > 0 && |ps| > 0 && k < |ms|
    requires !(|ms[k].forecast| == |demand| > 0)
    ensures Sweep(demand, zs, ps, ms, std).Err?
  {
    var grid := Grid(zs, ps, ms);
    var rs := CellResults(demand, grid, std);
    GridCell(zs, ps, ms, 0, 0, k);
    assert Position(0, 0, k, |ps|, |ms|) == k;
    assert grid[k] == Cell(zs[0], ps[0], ms[k]);
    assert rs[k].Err?;
  }

  /** The sweep succeeds exactly when there is nothing to sweep or every
      model's forecast series matches the (non-empty) demand series. */
  lemma SweepDefined(demand: seq<real>, zs: seq<real>, ps: seq<real>, ms: seq<Model>, std: seq<real> -> real)
    ensures Sweep(demand, zs, ps, ms, std).Ok? <==>
      (|zs| == 0 || |ps| == 0 || forall k :: 0 <= k < |ms| ==> |ms[k].forecast| == |demand| > 0)
  {
    if |zs| == 0 || |ps| == 0 {
      GridSize(zs, ps, ms);
      assert |Grid(zs, ps, ms)| == 0;
    } else if forall k :: 0 <= k < |ms| ==> |ms[k].forecast| == |demand| > 0 {
      SweepSucceeds(demand, zs, ps, ms, std);
    } else {
      var k :| 0 <= k < |ms| && !(|ms[k].forecast| == |demand| > 0);
      SweepFails(demand, zs, ps, ms, std, k);
    }
  }

  /** Row n of a successful sweep is the report of grid cell n. */
  lemma SweepReportsCells(demand: seq<real>, zs: seq<real>, ps: seq<real>, ms: seq<Model>, std: seq<real> -> real)
    requires Sweep(demand, zs, ps, ms, std).Ok?
    ensures |Sweep(demand, zs, ps, ms, std).value| == |Grid(zs, ps, ms)|
    ensures forall n :: 0 <= n < |Grid(zs, ps, ms)| ==>
      RunCell(demand, Grid(zs, ps, ms)[n], std) == Ok(Sweep(demand, zs, ps, ms, std).value[n])
  {
  }

  /** A successful sweep yields |zs| * |ps| * |ms| rows. */
  lemma SweepSize(demand: seq<real>, zs: seq<real>, ps: seq<real>, ms: seq<Model>, std: seq<real> -> real)
    requires Sweep(demand, zs, ps, ms, std).Ok?
    ensures |Sweep(demand, zs, ps, ms, std).value| == |zs| * (|ps| * |ms|)
  {
    GridSize(zs, ps, ms);
    SweepReportsCells(demand, zs, ps, ms, std);
  }

  /** Row (i*|ps| + j)*|ms| + k of a successful sweep reports model k
      with z = zs[i] and p = ps[j]: z outer, p middle, model inner. */
  lemma SweepOrder(demand: seq<real>, zs: seq<real>, ps: seq<real>, ms: seq<Model>, std: seq<real> -> real, i: nat, j: nat, k: nat)
    requires Sweep(demand, zs, ps, ms, std).Ok?
    requires i < |zs| && j < |ps| && k < |ms|
    ensures Position(i, j, k, |ps|, |ms|) < |Sweep(demand, zs, ps, ms, std).value|
    ensures RunCell(demand, Cell(zs[i], ps[j], ms[k]), std)
      == Ok(Sweep(demand, zs, ps, ms, std).value[Position(i, j, k, |ps|, |ms|)])
  {
    var n := Position(i, j, k, |ps|, |ms|);
    GridCell(zs, ps, ms, i, j, k);
    SweepReportsCell(demand, zs, ps, ms, std, n);
  }

  lemma SweepReportsCell(demand: seq<real>, zs: seq<real>, ps: seq<real>, ms: seq<Model>, std: seq<real> -> real, n: nat)
    requires Sweep(demand, zs, ps, ms, std).Ok?
    requires n < |Grid(zs, ps, ms)|
    ensures n < |Sweep(demand, zs, ps, ms, std).value|
    ensures RunCell(demand, Grid(zs, ps, ms)[n], std) == Ok(Sweep(demand, zs, ps, ms, std).value[n])
  {
    SweepReportsCells(demand, zs, ps, ms, std);
  }

  /** With distinct axis values and model names no (model, z, p) key is
      repeated in a successful sweep. */
  lemma SweepKeysDistinct(demand: seq<real>, zs: seq<real>, ps: seq<real>, ms: seq<Model>, std: seq<real> -> real)
    requires Sweep(demand, zs, ps, ms, std).Ok?
    requires Distinct(zs) && Distinct(ps) && Distinct(Names(ms))
    ensures var rows := Sweep(demand, zs, ps, ms, std).value;
      forall a, b :: 0 <= a < b < |rows| ==>
        Key(rows[a].model, rows[a].z, rows[a].p) != Key(rows[b].model, rows[b].z, rows[b].p)
  {
    var grid := Grid(zs, ps, ms);
    var rows := Sweep(demand, zs, ps, ms, std).value;
    SweepReportsCells(demand, zs, ps, ms, std);
    GridDistinct(zs, ps, ms);
    forall a, b | 0 <= a < b < |rows|
      ensures Key(rows[a].model, rows[a].z, rows[a].p) != Key(rows[b].model, rows[b].z, rows[b].p)
    {
      assert Keys(grid)[a] != Keys(grid)[b];
    }
  }

  /** The sweep the script runs: 3 safety factors x 3 shortage costs x
      the models: when every model fits the demand it succeeds with 9
      rows per model, each (model, z, p) key once. */
  lemma StandardSweep(demand: seq<real>, ms: seq<Model>, std: seq<real> -> real)
    requires Distinct(Names(ms))
    requires forall k :: 0 <= k < |ms| ==> |ms[k].forecast| == |demand| > 0
    ensures Sweep(demand, SafetyFactors, ShortageCostValues, ms, std).Ok?
    ensures |Sweep(demand, SafetyFactors, ShortageCostValues, ms, std).value| == 9 * |ms|
    ensures var rows := Sweep(demand, SafetyFactors, ShortageCostValues, ms, std).value;
      forall a, b :: 0 <= a < b < |rows| ==>
        Key(rows[a].model, rows[a].z, rows[a].p) != Key(rows[b].model, rows[b].z, rows[b].p)
  {
    SweepSucceeds(demand, SafetyFactors, ShortageCostValues, ms, std);
    StandardAxes();
    ThreeByThree(demand, SafetyFactors, ShortageCostValues, ms, std);
  }

  /** The swept axes have three distinct values each. */
  lemma StandardAxes()
    ensures |SafetyFactors| == 3 && Distinct(SafetyFactors)
    ensures |ShortageCostValues| == 3 && Distinct(ShortageCostValues)
  {
  }

  lemma ThreeByThree(demand: seq<real>, zs: seq<real>, ps: seq<real>, ms: seq<Model>, std: seq<real> -> real)
    requires |zs| == 3 && |ps| == 3
    requires Distinct(zs) && Distinct(ps) && Distinct(Names(ms))
    requires Sweep(demand, zs, ps, ms, std).Ok?
    ensures |Sweep(demand, zs, ps, ms, std).value| == 9 * |ms|
    ensures var rows := Sweep(demand, zs, ps, ms, std).value;
      forall a, b :: 0 <= a < b < |rows| ==>
        Key(rows[a].model, rows[a].z, rows[a].p) != Key(rows[b].model, rows[b].z, rows[b].p)
  {
    SweepSize(demand, zs, ps, ms, std);
    MulStep(2, |ms|);
    MulStep(1, |ms|);
    MulStep(0, |ms|);
    assert |ps| * |ms| == 3 * |ms|;
    MulStep(2, 3 * |ms|);
    MulStep(1, 3 * |ms|);
    MulStep(0, 3 * |ms|);
    SweepKeysDistinct(demand, zs, ps, ms, std);
  }
}
