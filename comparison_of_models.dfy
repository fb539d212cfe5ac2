/**
  plotting_functions/comparison_of_models.py: the path along which the
  finite-element results are compared with the other models. It runs down
  the middle of a rail (x = half the gauge, z = 1 mm into the model) from
  1 mm below the top of the layers to 1 mm above the bottom of the ballast.
 */
module ComparisonOfModels {
  import opened Common
  import S = Simulations

  /** layer.name.lower().startswith('ballast'). */
  predicate IsBallast(layer: S.ElasticLayer) {
    StartsWith(Lower(layer.name), "ballast")
  }

  /** The position of the first ballast layer, or the number of layers when
      there is none. */
  function FirstBallast(layers: seq<S.ElasticLayer>): (k: nat)
    ensures k <= |layers|
    ensures k < |layers| ==> IsBallast(layers[k])
  {
    if layers == [] then 0
    else if IsBallast(layers[0]) then 0
    else 1 + FirstBallast(layers[1..])
  }

  /** No layer below the first ballast layer is ballast. */
  lemma {:induction false} FirstBallastIsFirst(layers: seq<S.ElasticLayer>, j: nat)
    requires j < FirstBallast(layers)
    ensures !IsBallast(layers[j])
  {
    if j > 0 {
      FirstBallastIsFirst(layers[1..], j - 1);
    }
  }

  /** The loop with break of lines 6-9: the height of the layers below the
      first ballast layer (all of them when there is none). */
  method BallastStartHeight(layers: seq<S.ElasticLayer>) returns (h: real)
    ensures h == S.LayersHeight(layers[..FirstBallast(layers)])
    ensures FirstBallast(layers) == |layers| ==> h == S.LayersHeight(layers)
  {
    h := 0.0;
    var i := 0;
    while i < |layers|
      invariant i <= |layers|
      invariant forall j :: 0 <= j < i ==> !IsBallast(layers[j])
      invariant h == S.LayersHeight(layers[..i])
    {
      if IsBallast(layers[i]) {
        break;
      }
      S.LayersHeightStep(layers, i);
      h := h + layers[i].height;
      i := i + 1;
    }
    StopsAtFirstBallast(layers, i);
    assert layers[..|layers|] == layers;
  }

  /** Where the scan stops: at the first ballast layer, or past the end. */
  lemma StopsAtFirstBallast(layers: seq<S.ElasticLayer>, i: nat)
    requires i <= |layers|
    requires forall j :: 0 <= j < i ==> !IsBallast(layers[j])
    requires i == |layers| || IsBallast(layers[i])
    ensures i == FirstBallast(layers)
  {
    if i < FirstBallast(layers) {
      FirstBallastIsFirst(layers, i);
    }
  }

  /** The ballast and everything on it lie between the ballast start and the
      total height: the two heights differ by the heights of those layers. */
  lemma BallastStartBelowTotal(layers: seq<S.ElasticLayer>)
    ensures var k := FirstBallast(layers);
      S.LayersHeight(layers) == S.LayersHeight(layers[..k]) + S.LayersHeight(layers[k..])
  {
    var k := FirstBallast(layers);
    assert layers == layers[..k] + layers[k..];
    S.LayersHeightAppend(layers[..k], layers[k..]);
  }

  /** np.linspace(start, stop, num): num evenly spaced values from start to
      stop, both included; the last one is stop itself. */
  function Linspace(start: real, stop: real, num: nat): (r: seq<real>)
    ensures |r| == num
    ensures num > 0 ==> r[0] == start
    ensures num > 1 ==> r[num - 1] == stop
  {
    seq(num, i requires 0 <= i < num =>
      if num > 1 && i == num - 1 then stop
      else if num > 1 then start + (i as real) * ((stop - start) / ((num - 1) as real))
      else start)
  }

  /** Consecutive values of linspace are one step (stop - start) / (num - 1)
      apart, the last one included. */
  lemma LinspaceEvenlySpaced(start: real, stop: real, num: nat, i: nat)
    requires i + 1 < num
    ensures Linspace(start, stop, num)[i + 1] - Linspace(start, stop, num)[i] == (stop - start) / ((num - 1) as real)
  {
    var step := (stop - start) / ((num - 1) as real);
    var r := Linspace(start, stop, num);
    assert r[i] == start + (i as real) * step;
    if i + 1 == num - 1 {
      assert step * ((num - 1) as real) == stop - start;
      assert r[i + 1] == stop;
    } else {
      assert r[i + 1] == start + ((i + 1) as real) * step;
    }
  }

  /** The number of points on the path. */
  const PathLength: nat := 1000

  /** get_path_points_for_fem_simulation(sim_name): KeyError for a name the
      dictionary of simulations does not hold; otherwise the path of that
      simulation. */
  method GetPathPointsForFemSimulation(simName: string) returns (r: Result<array2<real>>)
    ensures r.Ok? <==> simName in S.SimulationsByName
    ensures r.Err? ==> r.error == KeyError
    ensures r.Ok? ==> fresh(r.value) && IsPathOf(r.value, S.SimulationsByName[simName])
  {
    if simName !in S.SimulationsByName {
      return Err(KeyError);
    }
    var points := PathPoints(S.SimulationsByName[simName]);
    return Ok(points);
  }

  /** 1000 points (x, y, z) with x and z fixed and y running evenly from
      yTop to yBottom. */
  ghost predicate IsPath(points: array2<real>, x: real, yTop: real, yBottom: real, z: real)
    reads points
  {
    points.Length0 == PathLength && points.Length1 == 3 &&
    (forall i :: 0 <= i < PathLength ==> points[i, 0] == x) &&
    (forall i :: 0 <= i < PathLength ==> points[i, 1] == Linspace(yTop, yBottom, PathLength)[i]) &&
    (forall i :: 0 <= i < PathLength ==> points[i, 2] == z)
  }

  /** The path of a simulation: x = track_gauge / 2, z = 1e-3, and y from
      1 mm below the top of the layers to 1 mm above the ballast start. */
  ghost predicate IsPathOf(points: array2<real>, sim: S.Simulation)
    reads points
  {
    IsPath(points, sim.trackGauge / 2.0, S.LayersHeight(sim.layers) - 0.001,
           S.LayersHeight(sim.layers[..FirstBallast(sim.layers)]) + 0.001, 0.001)
  }

  /** The path starts at yTop and ends at yBottom. */
  lemma PathEnds(points: array2<real>, x: real, yTop: real, yBottom: real, z: real)
    requires IsPath(points, x, yTop, yBottom, z)
    ensures points[0, 1] == yTop && points[PathLength - 1, 1] == yBottom
  {
    assert points[0, 1] == Linspace(yTop, yBottom, PathLength)[0];
    assert points[PathLength - 1, 1] == Linspace(yTop, yBottom, PathLength)[PathLength - 1];
  }

  /** The path of one simulation: the two heights, then the array. */
  method PathPoints(sim: S.Simulation) returns (points: array2<real>)
    ensures fresh(points) && IsPathOf(points, sim)
  {
    var ballastStartHeight := BallastStartHeight(sim.layers);
    var totalHeight := S.LayersHeight(sim.layers);
    points := new real[PathLength, 3]((i, j) => 0.0);
    FillPath(points, sim.trackGauge / 2.0, totalHeight - 0.001, ballastStartHeight + 0.001);
  }

  /** The array fills of lines 13-16 on np.zeros((1000, 3)): column 1 gets
      the heights, column 0 the abscissa, and 1e-3 is added to column 2. */
  method FillPath(points: array2<real>, x: real, yTop: real, yBottom: real)
    requires points.Length0 == PathLength && points.Length1 == 3
    requires forall i :: 0 <= i < PathLength ==> points[i, 2] == 0.0
    modifies points
    ensures IsPath(points, x, yTop, yBottom, 0.001)
  {
    var y := Linspace(yTop, yBottom, PathLength);
    forall i | 0 <= i < PathLength {
      points[i, 1] := y[i];
    }
    forall i | 0 <= i < PathLength {
      points[i, 0] := x;
    }
    assert forall i :: 0 <= i < PathLength ==> points[i, 1] == y[i];
    forall i | 0 <= i < PathLength {
      points[i, 2] := points[i, 2] + 0.001;
    }
  }

  /** Three layers that are not ballast under a ballast layer: the ballast
      starts at the top of the third, at the height of the three. */
  lemma BallastOnThird(layers: seq<S.ElasticLayer>)
    requires |layers| == 5
    requires forall i :: 0 <= i < 3 ==> layers[i].name != [] && layers[i].name[0] != 'b' && layers[i].name[0] != 'B'
    requires StartsWith(layers[3].name, "ballast")
    requires forall i :: 0 <= i < |layers[3].name| ==> !('A' <= layers[3].name[i] <= 'Z')
    ensures FirstBallast(layers) == 3
    ensures S.LayersHeight(layers[..3]) == layers[0].height + layers[1].height + layers[2].height
  {
    BallastInitial(layers[0]);
    BallastInitial(layers[1]);
    BallastInitial(layers[2]);
    LowercaseNameIsBallast(layers[3]);
    StopsAtFirstBallast(layers, 3);
    S.LayersHeightStep(layers, 0);
    S.LayersHeightStep(layers, 1);
    S.LayersHeightStep(layers, 2);
    assert layers[..0] == [];
  }

  /** The layers of the named simulations: the ballast starts on the
      subgrade, 7 m up. */
  lemma BallastOnSubgrade(layers: seq<S.ElasticLayer>)
    requires |layers| == 5 && layers == [S.Soil, S.Clay, S.Subgrade, layers[3], S.UpperBallast]
    requires layers[3].name == "ballast_1"
    ensures FirstBallast(layers) == 3 && S.LayersHeight(layers[..3]) == 7.0
  {
    var b := layers[3];
    assert forall i :: 0 <= i < |b.name| ==> !('A' <= b.name[i] <= 'Z');
    assert layers[0] == S.Soil && layers[1] == S.Clay && layers[2] == S.Subgrade;
    BallastOnThird(layers);
  }

  /** A ballast layer's name starts with b or B. */
  lemma BallastInitial(layer: S.ElasticLayer)
    ensures IsBallast(layer) ==> |layer.name| >= 7 && (layer.name[0] == 'b' || layer.name[0] == 'B')
  {
    if IsBallast(layer) {
      var lower := Lower(layer.name);
      assert lower[..7] == "ballast";
      assert lower[0] == (lower[..7])[0] == 'b';
      assert LowerChar(layer.name[0]) == 'b';
    }
  }

  /** A lower-case name starting with "ballast" is ballast. */
  lemma LowercaseNameIsBallast(layer: S.ElasticLayer)
    requires StartsWith(layer.name, "ballast")
    requires forall i :: 0 <= i < |layer.name| ==> !('A' <= layer.name[i] <= 'Z')
    ensures IsBallast(layer)
  {
    assert Lower(layer.name) == layer.name;
  }

  /** On every named simulation the path runs at half the standard gauge and
      ends 1 mm above the bottom of the ballast, 7.001 m up. */
  lemma PathOfNamedSimulations(simName: string)
    requires simName in S.SimulationsByName
    ensures var sim := S.SimulationsByName[simName];
      sim.trackGauge / 2.0 == 0.7175 && FirstBallast(sim.layers) == 3 &&
      S.LayersHeight(sim.layers[..FirstBallast(sim.layers)]) + 0.001 == 7.001
  {
    var sim := S.SimulationsByName[simName];
    S.NamedLayers(simName);
    BallastOnSubgrade(sim.layers);

  }
}
