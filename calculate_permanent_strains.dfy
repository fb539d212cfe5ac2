/**
  calculate_permanent_strains.py: the variant of the permanent-strain driver
  that gets its stresses from the two pickles of write_stress_state_pickles.py
  (static and cyclic), evaluates the material model in twelve chunks without
  doubling the shear components, and writes one EP step per cycle count.

  The pickles are parameters; starting the helper scripts, reading and
  removing the files are left out. The chunking, the job loop and the
  write-back are those of CalculatePermanentDeformations.
 */
module CalculatePermanentStrains {
  import opened Common
  import MaterialModel
  import WriteStressStatePickles
  import BoundaryConditions
  import CalculatePermanentDeformations

  /** The supports of this variant: BOTTOM_NODES where the other driver holds
      ballast_bottom_nodes. */
  const SupportConditions: seq<BoundaryConditions.BoundaryCondition> := [
    BoundaryConditions.BoundaryCondition("X1_NODES", "node_set", 1, None),
    BoundaryConditions.BoundaryCondition("BOTTOM_NODES", "node_set", 2, None),
    BoundaryConditions.BoundaryCondition("X_SYM_NODES", "node_set", 1, None),
    BoundaryConditions.BoundaryCondition("Z_SYM_NODES", "node_set", 3, None),
    BoundaryConditions.BoundaryCondition("Z1_NODES", "node_set", 3, None)
  ]

  /** str() of the pickled set name: a missing set becomes the text "None". */
  function SetNameText(elementSet: Option<string>): (s: string)
    ensures elementSet.Some? ==> s == elementSet.value
    ensures elementSet.None? ==> s == "None"
  {
    match elementSet
    case Some(name) => name
    case None => "None"
  }

  /** What the script writes before it stops: the instance and set names, the
      EP field per cycle count with its step and the supports, and the
      exception that ends it when the deformation calculator is built. */
  datatype StrainPlan = StrainPlan(instance: string, elementSet: string, strainSteps: seq<string>,
                                   strains: seq<seq<Vec6>>, boundaryConditions: seq<BoundaryConditions.BoundaryCondition>,
                                   raised: Error)

  /** calculate_permanent_strains after the pickles are written: both stress
      arrays in kPa, the chunked evaluation without shear doubling
      (IndexError for a point without a cyclic row or for parameters too
      short) and one step per cycle count. Every point carries the strain of
      its own model, whatever the chunks. The script then stops where it
      builds the deformation calculator: `cycles[0]` raises IndexError
      without cycle counts, and otherwise the call, which omits the required
      argument `abq`, raises TypeError. */
  method CalculatePermanentStrains(staticPickle: WriteStressStatePickles.StressPickle,
                                   cyclicPickle: WriteStressStatePickles.StressPickle,
                                   cycles: seq<nat>, parameters: seq<real>,
                                   k: MaterialModel.Kernels, solve: MaterialModel.Integrator)
    returns (r: Result<StrainPlan>)
    requires CalculatePermanentDeformations.PointsDefined(k, CalculatePermanentDeformations.InKilo(cyclicPickle.data))
    ensures r.Ok? <==>
      |staticPickle.data| == 0 || (|parameters| >= 6 && |staticPickle.data| <= |cyclicPickle.data|)
    ensures r.Err? ==> r.error == IndexError
    ensures r.Ok? ==>
      r.value.instance == staticPickle.instance && r.value.elementSet == SetNameText(staticPickle.elementSet) &&
      r.value.boundaryConditions == SupportConditions &&
      |r.value.strainSteps| == |cycles| && r.value.raised == (if cycles == [] then IndexError else TypeError) &&
      (forall i :: 0 <= i < |cycles| ==> r.value.strainSteps[i] == CalculatePermanentDeformations.StepName(cycles[i])) &&
      (|parameters| >= 6 || |staticPickle.data| == 0) && |staticPickle.data| <= |cyclicPickle.data| &&
      r.value.strains == CalculatePermanentDeformations.Expected(false, parameters,
                           CalculatePermanentDeformations.CycleTimes(cycles),
                           CalculatePermanentDeformations.InKilo(staticPickle.data),
                           CalculatePermanentDeformations.InKilo(cyclicPickle.data), k, solve)
  {
    var staticStress := CalculatePermanentDeformations.InKilo(staticPickle.data);
    var cyclicStress := CalculatePermanentDeformations.InKilo(cyclicPickle.data);
    var instance := staticPickle.instance;
    var elementSet := SetNameText(staticPickle.elementSet);
    var times := CalculatePermanentDeformations.CycleTimes(cycles);
    var n := |staticStress|;
    if n > 0 && (|parameters| < 6 || |cyclicStress| < n) {
      // the job holding the last point fails: the model cannot be built
      // from the parameters, or cyclic_stress_state[i, :] is past the end
      return Err(IndexError);
    }
    var results := CalculatePermanentDeformations.RunJobs(false, parameters, times, staticStress, cyclicStress, k, solve);
    var strains := CalculatePermanentDeformations.WriteBack(|times|, n, results,
                     CalculatePermanentDeformations.Expected(false, parameters, times, staticStress, cyclicStress, k, solve));
    var steps := CalculatePermanentDeformations.StepNames(cycles);
    var raised := if cycles == [] then IndexError else TypeError;
    r := Ok(StrainPlan(instance, elementSet, steps, strains, SupportConditions, raised));
  }

  /** The two drivers evaluate the same model: this one's strains are the
      other one's with the shear components not doubled, point by point. */
  lemma SameModelUndoubled(parameters: seq<real>, cycles: seq<real>, staticStress: seq<Vec6>, cyclicStress: seq<Vec6>,
                           k: MaterialModel.Kernels, solve: MaterialModel.Integrator, c: nat, p: nat)
    requires |parameters| >= 6 || |staticStress| == 0
    requires |staticStress| <= |cyclicStress| && CalculatePermanentDeformations.PointsDefined(k, cyclicStress)
    requires c < |cycles| && p < |staticStress|
    ensures var plain := CalculatePermanentDeformations.Expected(false, parameters, cycles, staticStress, cyclicStress, k, solve);
            var doubled := CalculatePermanentDeformations.Expected(true, parameters, cycles, staticStress, cyclicStress, k, solve);
            CalculatePermanentDeformations.DoubledShear(plain[c][p]) == doubled[c][p]
  {
  }
}
