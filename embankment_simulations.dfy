/**
  embankment_model/simulations.py: the same Simulation, ElasticLayer, Sleeper
  and ConcreteSlab as finite_element_model/simulations.py (the module
  Simulations holds them and track_lower_height), with shorter sleepers and
  four module-level simulations built by deepcopy and attribute assignment.
 */
module EmbankmentSimulations {
  import opened Common
  import S = Simulations

  /** The sleepers of this module are 1 m long. */
  const Sleepers: S.Sleeper := S.Sleeper(0.65, 0.265, 1.0, 0.175, true)
  const Slab: S.ConcreteSlab := S.ConcreteSlab(1.25, 0.5)

  /** The four module-level simulations. */
  datatype Variants = Variants(simulation1: S.Simulation, simulation2: S.Simulation,
                               embankment: S.Simulation, embankmentSlab: S.Simulation)

  /** Lines 80-88 in their order: simulation2 is a deep copy of simulation1
      taken after the sleepers are attached, so it keeps them while its load
      and job name change; the slab variant is a deep copy of the embankment
      taken before its sleepers are attached, renamed with '_slab' and given
      the slab. */
  function BuildVariants(simulation1: S.Simulation, embankment: S.Simulation,
                         sleeper: S.Sleeper, slab: S.ConcreteSlab): (r: Variants)
    ensures r.simulation1 == simulation1.(sleepers := Some(sleeper))
    ensures r.simulation2 == simulation1.(sleepers := Some(sleeper), axesLoad := 30.0, jobName := "embankment_30t")
    ensures r.embankment == embankment.(sleepers := Some(sleeper))
    ensures r.embankmentSlab == embankment.(jobName := embankment.jobName + "_slab", concreteSlab := Some(slab))
  {
    var sim1 := simulation1.(sleepers := Some(sleeper));
    var sim2 := sim1;
    var slabCopy := embankment;
    var emb := embankment.(sleepers := Some(sleeper));
    var renamed := slabCopy.(jobName := slabCopy.jobName + "_slab");
    var withSlab := renamed.(concreteSlab := Some(slab));
    var loaded := sim2.(axesLoad := 30.0);
    var sim2Final := loaded.(jobName := "embankment_30t");
    Variants(sim1, sim2Final, emb, withSlab)
  }

  const Cycles: seq<int> := [100, 1000, 10000, 100000, 1000000]

  const Simulation1Base: S.Simulation := S.NewSimulation("embankment_second_order_2", Cycles,
    [S.Soil, S.Clay, S.Subgrade, S.ElasticLayer("ballast_1", 9.3, 3.6, 3.8, 200.0e6, 0.35, 1600.0), S.UpperBallast],
    5.5, 22.5)

  const EmbankmentBase: S.Simulation := S.NewSimulation("embankment_21_22_5t", Cycles,
    [S.Soil, S.Clay, S.Subgrade, S.ElasticLayer("ballast_1", 11.2, 3.6, 3.8, 200.0e6, 0.35, 1600.0), S.UpperBallast],
    5.5, 22.5)

  const ModuleVariants: Variants := BuildVariants(Simulation1Base, EmbankmentBase, Sleepers, Slab)

  /** simulation2 has the sleepers, axle load 30 and job name
      'embankment_30t'; the slab variant has the slab, no sleepers and the job
      name 'embankment_21_22_5t_slab'; every variant has the standard gauge,
      and track_lower_height gives the sleeper or the slab precedence. */
  lemma ModuleVariantsState()
    ensures ModuleVariants.simulation1.sleepers == Some(Sleepers) && ModuleVariants.simulation1.concreteSlab.None?
    ensures var s2 := ModuleVariants.simulation2;
      s2.sleepers == Some(Sleepers) && s2.concreteSlab.None? && s2.axesLoad == 30.0 && s2.jobName == "embankment_30t" &&
      s2.layers == Simulation1Base.layers
    ensures ModuleVariants.embankment.sleepers == Some(Sleepers) && ModuleVariants.embankment.concreteSlab.None?
    ensures var slab := ModuleVariants.embankmentSlab;
      slab.concreteSlab == Some(Slab) && slab.sleepers.None? && slab.jobName == "embankment_21_22_5t_slab" &&
      slab.axesLoad == 22.5
    ensures ModuleVariants.simulation1.trackGauge == S.TrackGauge && ModuleVariants.simulation2.trackGauge == S.TrackGauge
    ensures ModuleVariants.embankment.trackGauge == S.TrackGauge && ModuleVariants.embankmentSlab.trackGauge == S.TrackGauge
    ensures S.TrackLowerHeight(ModuleVariants.simulation2) == 11.475
    ensures S.TrackLowerHeight(ModuleVariants.embankment) == 11.475
    ensures S.TrackLowerHeight(ModuleVariants.embankmentSlab) == 11.8
  {
    assert S.LayersHeight(Simulation1Base.layers) == 11.3 by {
      assert S.Heights(Simulation1Base.layers) == [2.0, 4.0, 1.0, 3.8, 0.5];
      S.SumOfFive(2.0, 4.0, 1.0, 3.8, 0.5);
    }
    assert S.LayersHeight(EmbankmentBase.layers) == 11.3 by {
      assert S.Heights(EmbankmentBase.layers) == [2.0, 4.0, 1.0, 3.8, 0.5];
      S.SumOfFive(2.0, 4.0, 1.0, 3.8, 0.5);
    }
  }
}
