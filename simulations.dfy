/**
  finite_element_model/simulations.py: the description of an embankment
  simulation (its elastic layers, the rail gauge, the axle load and, on top of
  the layers, either a concrete slab or sleepers) and the four variants the
  plotting scripts look up by name.

  Simulation objects are values here: deepcopy gives an independent value,
  and an attribute assignment is a record update. A ConcreteSlab is a
  namedtuple of two fields and a Sleeper an object without __bool__ or
  __len__, so both are always true in a condition: "set" is Some, "unset"
  (None) is None.
 */
module Simulations {
  import opened Common

  datatype ConcreteSlab = ConcreteSlab(width: real, height: real)

  datatype Sleeper = Sleeper(ccDistance: real, width: real, length: real, height: real, centerSleeper: bool)

  datatype ElasticLayer = ElasticLayer(name: string, bottomWidth: real, topWidth: real, height: real,
                                       E: real, v: real, density: real)

  datatype Simulation = Simulation(jobName: string, cycles: seq<int>, layers: seq<ElasticLayer>,
                                   embankmentLength: real, trackGauge: real, axesLoad: real,
                                   concreteSlab: Option<ConcreteSlab>, sleepers: Option<Sleeper>)

  /** The standard rail gauge every simulation carries, in metres. */
  const TrackGauge: real := 1.435

  /** Simulation(job_name, cycles, layers, embankment_length, axes_load):
      the standard gauge, and neither a slab nor sleepers. */
  function NewSimulation(jobName: string, cycles: seq<int>, layers: seq<ElasticLayer>,
                         embankmentLength: real, axesLoad: real): (s: Simulation)
    ensures s.jobName == jobName && s.cycles == cycles && s.layers == layers
    ensures s.embankmentLength == embankmentLength && s.axesLoad == axesLoad
    ensures s.trackGauge == TrackGauge && s.concreteSlab.None? && s.sleepers.None?
  {
    Simulation(jobName, cycles, layers, embankmentLength, TrackGauge, axesLoad, None, None)
  }

  /** The heights of the layers, bottom first. */
  function Heights(layers: seq<ElasticLayer>): (r: seq<real>)
    ensures |r| == |layers| && forall i :: 0 <= i < |layers| ==> r[i] == layers[i].height
  {
    seq(|layers|, i requires 0 <= i < |layers| => layers[i].height)
  }

  /** sum([layer.height for layer in layers]). */
  function LayersHeight(layers: seq<ElasticLayer>): real {
    Sum(Heights(layers))
  }

  /** Stacking: the height of a pile of layers is that of its lower part
      plus that of its upper part. */
  lemma LayersHeightAppend(lower: seq<ElasticLayer>, upper: seq<ElasticLayer>)
    ensures LayersHeight(lower + upper) == LayersHeight(lower) + LayersHeight(upper)
  {
    assert Heights(lower + upper) == Heights(lower) + Heights(upper);
    SumAppend(Heights(lower), Heights(upper));
  }

  /** One layer more on top adds its height. */
  lemma LayersHeightStep(layers: seq<ElasticLayer>, i: nat)
    requires i < |layers|
    ensures LayersHeight(layers[..i + 1]) == LayersHeight(layers[..i]) + layers[i].height
  {
    assert layers[..i + 1] == layers[..i] + [layers[i]];
    LayersHeightAppend(layers[..i], [layers[i]]);
    assert Heights([layers[i]]) == [layers[i].height];
    assert Sum([layers[i].height]) == layers[i].height + Sum([]);
  }

  /** track_lower_height: the height of the layers plus that of the slab when
      there is one, else plus that of the sleepers when there are some. */
  function TrackLowerHeight(s: Simulation): real {
    var h := LayersHeight(s.layers);
    if s.concreteSlab.Some? then h + s.concreteSlab.value.height
    else if s.sleepers.Some? then h + s.sleepers.value.height
    else h
  }

  /** The precedence of track_lower_height: the bare layers, the layers under
      sleepers, the layers under a slab, and a slab winning over sleepers. */
  lemma TrackLowerHeightPrecedence(s: Simulation, slab: ConcreteSlab, sleeper: Sleeper)
    requires s.concreteSlab.None? && s.sleepers.None?
    ensures TrackLowerHeight(s) == LayersHeight(s.layers)
    ensures TrackLowerHeight(s.(sleepers := Some(sleeper))) == LayersHeight(s.layers) + sleeper.height
    ensures TrackLowerHeight(s.(concreteSlab := Some(slab))) == LayersHeight(s.layers) + slab.height
    ensures TrackLowerHeight(s.(concreteSlab := Some(slab), sleepers := Some(sleeper))) ==
            TrackLowerHeight(s.(concreteSlab := Some(slab)))
  {
  }

  /** A slab on top of layers of non-negative height: the track starts no
      lower than the layers end, and setting sleepers changes nothing. */
  lemma SlabWins(s: Simulation, sleepers: Option<Sleeper>)
    requires s.concreteSlab.Some? && s.concreteSlab.value.height >= 0.0
    requires forall i :: 0 <= i < |s.layers| ==> s.layers[i].height >= 0.0
    ensures TrackLowerHeight(s.(sleepers := sleepers)) == TrackLowerHeight(s)
    ensures TrackLowerHeight(s) >= LayersHeight(s.layers) >= 0.0
  {
    NonNegativeSum(Heights(s.layers));
  }

  lemma {:induction false} NonNegativeSum(s: seq<real>)
    requires forall i :: 0 <= i < |s| ==> s[i] >= 0.0
    ensures Sum(s) >= 0.0
  {
    if s != [] {
      NonNegativeSum(s[1..]);
    }
  }

  lemma SumOfFive(a: real, b: real, c: real, d: real, e: real)
    ensures Sum([a, b, c, d, e]) == a + b + c + d + e
  {
    assert Sum([e]) == e + Sum([]);
    assert [d, e][1..] == [e];
    assert Sum([d, e]) == d + e;
    assert [c, d, e][1..] == [d, e];
    assert Sum([c, d, e]) == c + d + e;
    assert [b, c, d, e][1..] == [c, d, e];
    assert Sum([b, c, d, e]) == b + c + d + e;
    assert [a, b, c, d, e][1..] == [b, c, d, e];
  }

  /** Lines 81-83 (and 85-87): the slab variant is a deep copy taken before
      the sleepers are attached to the original; the original then gets the
      sleepers, the copy the slab. */
  function SleeperAndSlabVariants(base: Simulation, sleeper: Sleeper, slab: ConcreteSlab): (r: (Simulation, Simulation))
    ensures r.0.sleepers == Some(sleeper) && r.0.concreteSlab == base.concreteSlab
    ensures r.1.concreteSlab == Some(slab) && r.1.sleepers == base.sleepers
    ensures r.0.(sleepers := base.sleepers) == base && r.1.(concreteSlab := base.concreteSlab) == base
  {
    var copy := base;
    var withSleepers := base.(sleepers := Some(sleeper));
    var withSlab := copy.(concreteSlab := Some(slab));
    (withSleepers, withSlab)
  }

  const Sleepers: Sleeper := Sleeper(0.65, 0.265, 1.25, 0.175, true)
  const Slab: ConcreteSlab := ConcreteSlab(1.25, 0.5)
  const Cycles: seq<int> := [100, 1000, 10000, 100000, 1000000]

  const Soil: ElasticLayer := ElasticLayer("soil", 20.0, 20.0, 2.0, 50.0e6, 0.2, 2000.0)
  const Clay: ElasticLayer := ElasticLayer("clay", 20.0, 20.0, 4.0, 50.0e6, 0.2, 2000.0)
  const Subgrade: ElasticLayer := ElasticLayer("subgrade", 20.0, 20.0, 1.0, 50.0e6, 0.2, 2000.0)
  const UpperBallast: ElasticLayer := ElasticLayer("ballast_2", 2.55, 1.8, 0.5, 200.0e6, 0.35, 1600.0)

  const Embankment21: Simulation := NewSimulation("embankment", Cycles,
    [Soil, Clay, Subgrade, ElasticLayer("ballast_1", 11.2, 3.6, 3.8, 200.0e6, 0.35, 1600.0), UpperBallast], 5.5, 22.5)

  const Embankment21Low: Simulation := NewSimulation("embankment", Cycles,
    [Soil, Clay, Subgrade, ElasticLayer("ballast_1", 6.9, 3.6, 1.65, 200.0e6, 0.35, 1600.0), UpperBallast], 5.5, 22.5)

  /** The dictionary `simulations` of the module. */
  const SimulationsByName: map<string, Simulation> :=
    var high := SleeperAndSlabVariants(Embankment21, Sleepers, Slab);
    var low := SleeperAndSlabVariants(Embankment21Low, Sleepers, Slab);
    map["sleepers_high" := high.0, "sleepers_low" := low.0, "slab_high" := high.1, "slab_low" := low.1]

  /** The four variants: the 'sleepers_*' ones have sleepers and no slab, the
      'slab_*' ones a slab and no sleepers, all the standard gauge; heights
      of the track bed below the rails follow. */
  lemma NamedVariants()
    ensures SimulationsByName.Keys == {"sleepers_high", "sleepers_low", "slab_high", "slab_low"}
    ensures forall name :: name in SimulationsByName ==> SimulationsByName[name].trackGauge == TrackGauge
    ensures SimulationsByName["sleepers_high"].sleepers == Some(Sleepers) && SimulationsByName["sleepers_high"].concreteSlab.None?
    ensures SimulationsByName["sleepers_low"].sleepers == Some(Sleepers) && SimulationsByName["sleepers_low"].concreteSlab.None?
    ensures SimulationsByName["slab_high"].concreteSlab == Some(Slab) && SimulationsByName["slab_high"].sleepers.None?
    ensures SimulationsByName["slab_low"].concreteSlab == Some(Slab) && SimulationsByName["slab_low"].sleepers.None?
    ensures TrackLowerHeight(SimulationsByName["sleepers_high"]) == 11.475
    ensures TrackLowerHeight(SimulationsByName["slab_high"]) == 11.8
    ensures TrackLowerHeight(SimulationsByName["sleepers_low"]) == 9.325
    ensures TrackLowerHeight(SimulationsByName["slab_low"]) == 9.65
  {
    var high := SleeperAndSlabVariants(Embankment21, Sleepers, Slab);
    var low := SleeperAndSlabVariants(Embankment21Low, Sleepers, Slab);
    assert LayersHeight(Embankment21.layers) == 11.3 by {
      assert Heights(Embankment21.layers) == [2.0, 4.0, 1.0, 3.8, 0.5];
      SumOfFive(2.0, 4.0, 1.0, 3.8, 0.5);
    }
    assert LayersHeight(Embankment21Low.layers) == 9.15 by {
      assert Heights(Embankment21Low.layers) == [2.0, 4.0, 1.0, 1.65, 0.5];
      SumOfFive(2.0, 4.0, 1.0, 1.65, 0.5);
    }
  }

  /** The named simulations stand on soil, clay and subgrade under two
      ballast layers. */
  lemma NamedLayers(name: string)
    requires name in SimulationsByName
    ensures var layers := SimulationsByName[name].layers;
      |layers| == 5 && layers == [Soil, Clay, Subgrade, layers[3], UpperBallast] && layers[3].name == "ballast_1" &&
      SimulationsByName[name].trackGauge == TrackGauge
  {
  }
}
