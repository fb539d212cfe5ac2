/**
  calculate_permanent_deformations.py: the permanent strain of every
  integration point of the ballast set, one fresh material model per point,
  evaluated in twelve chunks; shear components are doubled (engineering
  shear strain) before the strains are written, one step per cycle count.

  The two stress reads are parameters; the parallel job runner is modelled
  as running the jobs in order. The chunk bounds, the write-back and the step
  names are shared with calculate_permanent_strains.py.
 */
module CalculatePermanentDeformations {
  import opened Common
  import MaterialModel
  import WriteStressStatePickles
  import OdbIo
  import BoundaryConditions

  // ---------------------------------------------------------------------------
  // Stresses
  // ---------------------------------------------------------------------------

  /** A stress divided by 1e3 (Pa to kPa). */
  function ScaleRow(t: Vec6): (r: Vec6)
    ensures forall k :: 0 <= k < 6 ==> r[k] == t[k] / 1000.0
  {
    [t[0] / 1000.0, t[1] / 1000.0, t[2] / 1000.0, t[3] / 1000.0, t[4] / 1000.0, t[5] / 1000.0]
  }

  /** The stresses read, divided by 1e3. */
  function InKilo(s: seq<Vec6>): (r: seq<Vec6>)
    ensures |r| == |s|
    ensures forall i, k :: 0 <= i < |s| && 0 <= k < 6 ==> r[i][k] == s[i][k] / 1000.0
  {
    seq(|s|, i requires 0 <= i < |s| => ScaleRow(s[i]))
  }

  /** Scaling before or after the subtraction gives the same cyclic stress. */
  lemma ScaleCommutesWithDifference(loading: seq<Vec6>, staticStress: seq<Vec6>, i: nat, k: nat)
    requires |loading| == |staticStress| && i < |loading| && k < 6
    ensures WriteStressStatePickles.Difference(InKilo(loading), InKilo(staticStress)).Ok?
    ensures WriteStressStatePickles.Difference(InKilo(loading), InKilo(staticStress)).value[i][k] ==
            (loading[i][k] - staticStress[i][k]) / 1000.0
  {
  }

  /** The engineering shear strain: components 3..5 doubled, 0..2 kept. */
  function DoubledShear(v: Vec6): (r: Vec6)
    ensures forall k :: 0 <= k < 3 ==> r[k] == v[k]
    ensures forall k :: 3 <= k < 6 ==> r[k] == 2.0 * v[k]
  {
    [v[0], v[1], v[2], 2.0 * v[3], 2.0 * v[4], 2.0 * v[5]]
  }

  // ---------------------------------------------------------------------------
  // One point, one model
  // ---------------------------------------------------------------------------

  /** The cycle counts as the model's real-valued times. */
  function CycleTimes(cycles: seq<nat>): (r: seq<real>)
    ensures |r| == |cycles| && forall i :: 0 <= i < |cycles| ==> r[i] == cycles[i] as real
  {
    seq(|cycles|, i requires 0 <= i < |cycles| => cycles[i] as real)
  }

  /** The model is defined at every point: sound kernels and a non-zero von
      Mises cyclic stress. */
  ghost predicate PointsDefined(k: MaterialModel.Kernels, cyclicStress: seq<Vec6>) {
    MaterialModel.KernelsSound(k) &&
    forall i :: 0 <= i < |cyclicStress| ==> k.sqrt(MaterialModel.VonMisesRadicand(cyclicStress[i])) != 0.0
  }

  /** The default model of evaluate_permanent_strain_for_gp (5 Hz). */
  function DefaultConstants(parameters: seq<real>): (r: Result<MaterialModel.Constants>)
    ensures r.Ok? <==> |parameters| >= 6
    ensures r.Ok? ==> r.value.fd == 1.0
  {
    MaterialModel.ConstitutiveParameters(parameters, 5.0)
  }

  /** What a fresh model gives for point i. */
  function PointStrain(parameters: seq<real>, cycles: seq<real>, staticStress: seq<Vec6>, cyclicStress: seq<Vec6>,
                       k: MaterialModel.Kernels, solve: MaterialModel.Integrator, i: nat): (rows: seq<Vec6>)
    requires |parameters| >= 6 && i < |staticStress| && i < |cyclicStress| && PointsDefined(k, cyclicStress)
    ensures |rows| == |cycles|
  {
    MaterialModel.StrainHistory(DefaultConstants(parameters).value, cycles, cyclicStress[i], staticStress[i], k, solve)
  }

  /** The strains of the first i points are in place. */
  ghost predicate PointsFilled(ps: seq<seq<Vec6>>, parameters: seq<real>, cycles: seq<real>, staticStress: seq<Vec6>,
                               cyclicStress: seq<Vec6>, k: MaterialModel.Kernels, solve: MaterialModel.Integrator, i: nat)
    requires |parameters| >= 6 && i <= |staticStress| <= |cyclicStress| && PointsDefined(k, cyclicStress)
  {
    |ps| == |cycles| &&
    (forall c :: 0 <= c < |cycles| ==> |ps[c]| == |staticStress|) &&
    forall c, j :: 0 <= c < |cycles| && 0 <= j < i ==>
      ps[c][j] == PointStrain(parameters, cycles, staticStress, cyclicStress, k, solve, j)[c]
  }

  /** The loop over the points: a fresh model per point, its strain history
      written into the point's column. A missing cyclic row or a parameter
      vector too short raises IndexError. This is the whole of
      evaluate_permanent_strain_for_gp in calculate_permanent_strains.py. */
  method EvaluatePoints(parameters: seq<real>, cycles: seq<real>, staticStress: seq<Vec6>, cyclicStress: seq<Vec6>,
                        k: MaterialModel.Kernels, solve: MaterialModel.Integrator) returns (r: Result<seq<seq<Vec6>>>)
    requires PointsDefined(k, cyclicStress)
    ensures r.Err? <==> |staticStress| > 0 && (|parameters| < 6 || |cyclicStress| < |staticStress|)
    ensures r.Err? ==> r.error == IndexError
    ensures r.Ok? ==> |r.value| == |cycles| && forall c :: 0 <= c < |cycles| ==> |r.value[c]| == |staticStress|
    ensures r.Ok? ==>
      (|parameters| >= 6 || |staticStress| == 0) && |staticStress| <= |cyclicStress| &&
      r.value == Expected(false, parameters, cycles, staticStress, cyclicStress, k, solve)
  {
    var n := |staticStress|;
    var ps: seq<seq<Vec6>> := seq(|cycles|, c => seq(n, j => Zero6));
    if n == 0 {
      return Ok(ps);
    }
    if |parameters| < 6 || |cyclicStress| < n {
      return Err(IndexError);
    }
    for i := 0 to n
      invariant PointsFilled(ps, parameters, cycles, staticStress, cyclicStress, k, solve, i)
    {
      var created := MaterialModel.Model.Create(parameters, 5.0);
      var model := created.value;
      var rows := model.Update(cycles, cyclicStress[i], staticStress[i], k, solve);
      ps := WriteColumn(ps, parameters, cycles, staticStress, cyclicStress, k, solve, i, rows);
    }
    ghost var e := Expected(false, parameters, cycles, staticStress, cyclicStress, k, solve);
    assert forall c :: 0 <= c < |cycles| ==> ps[c] == e[c];
    return Ok(ps);
  }

  /** permanent_strain[:, i, :] = rows. */
  function WriteColumn(ps: seq<seq<Vec6>>, parameters: seq<real>, cycles: seq<real>, staticStress: seq<Vec6>,
                       cyclicStress: seq<Vec6>, k: MaterialModel.Kernels, solve: MaterialModel.Integrator, i: nat,
                       rows: seq<Vec6>): (r: seq<seq<Vec6>>)
    requires |parameters| >= 6 && i < |staticStress| <= |cyclicStress| && PointsDefined(k, cyclicStress)
    requires PointsFilled(ps, parameters, cycles, staticStress, cyclicStress, k, solve, i)
    requires rows == PointStrain(parameters, cycles, staticStress, cyclicStress, k, solve, i)
    ensures PointsFilled(r, parameters, cycles, staticStress, cyclicStress, k, solve, i + 1)
  {
    seq(|cycles|, c requires 0 <= c < |cycles| => ps[c][i := rows[c]])
  }

  /** A strain row as written: shear components doubled or kept. */
  function Engineering(doubleShear: bool, v: Vec6): (r: Vec6)
    ensures r == if doubleShear then DoubledShear(v) else v
  {
    if doubleShear then DoubledShear(v) else v
  }

  /** What evaluate_permanent_strain_for_gp returns for these stresses,
      [cycle][point]: the strain history of a fresh model per point, shear
      components doubled (calculate_permanent_deformations.py) or kept
      (calculate_permanent_strains.py). */
  function Expected(doubleShear: bool, parameters: seq<real>, cycles: seq<real>, staticStress: seq<Vec6>, cyclicStress: seq<Vec6>,
                    k: MaterialModel.Kernels, solve: MaterialModel.Integrator): (e: seq<seq<Vec6>>)
    requires |parameters| >= 6 || |staticStress| == 0
    requires |staticStress| <= |cyclicStress| && PointsDefined(k, cyclicStress)
    ensures |e| == |cycles| && forall c :: 0 <= c < |cycles| ==> |e[c]| == |staticStress|
    ensures forall c, p :: 0 <= c < |cycles| && 0 <= p < |staticStress| ==>
      |parameters| >= 6 &&
      e[c][p] == Engineering(doubleShear, PointStrain(parameters, cycles, staticStress, cyclicStress, k, solve, p)[c])
  {
    seq(|cycles|, c requires 0 <= c < |cycles| =>
      seq(|staticStress|, p requires 0 <= p < |staticStress| =>
        Engineering(doubleShear, PointStrain(parameters, cycles, staticStress, cyclicStress, k, solve, p)[c])))
  }

  /** evaluate_permanent_strain_for_gp: the strain of each point from its own
      fresh model, [cycle][point], with the shear components doubled; a point
      without a cyclic row or parameters too short for the model raise
      IndexError. */
  method EvaluatePermanentStrainForGp(parameters: seq<real>, cycles: seq<real>, staticStress: seq<Vec6>,
                                      cyclicStress: seq<Vec6>, k: MaterialModel.Kernels,
                                      solve: MaterialModel.Integrator) returns (r: Result<seq<seq<Vec6>>>)
    requires PointsDefined(k, cyclicStress)
    ensures r.Err? <==> |staticStress| > 0 && (|parameters| < 6 || |cyclicStress| < |staticStress|)
    ensures r.Err? ==> r.error == IndexError
    ensures r.Ok? ==>
      (|parameters| >= 6 || |staticStress| == 0) && |staticStress| <= |cyclicStress| &&
      r.value == Expected(true, parameters, cycles, staticStress, cyclicStress, k, solve)
  {
    var evaluated := EvaluatePoints(parameters, cycles, staticStress, cyclicStress, k, solve);
    if evaluated.Err? {
      return evaluated;
    }
    var ps := evaluated.value;
    ps := seq(|cycles|, c requires 0 <= c < |cycles| =>
            seq(|staticStress|, i requires 0 <= i < |staticStress| => DoubledShear(ps[c][i])));
    ghost var e := Expected(true, parameters, cycles, staticStress, cyclicStress, k, solve);
    assert forall c :: 0 <= c < |cycles| ==> ps[c] == e[c];
    return Ok(ps);
  }

  /** Each point depends on its own stresses only: the strains of a slice of
      the points are the slice of the strains. */
  lemma PointsIndependent(doubleShear: bool, parameters: seq<real>, cycles: seq<real>, staticStress: seq<Vec6>, cyclicStress: seq<Vec6>,
                          k: MaterialModel.Kernels, solve: MaterialModel.Integrator, lo: nat, hi: nat)
    requires |parameters| >= 6 || |staticStress| == 0
    requires lo <= hi <= |staticStress| <= |cyclicStress| && PointsDefined(k, cyclicStress)
    ensures PointsDefined(k, cyclicStress[lo..hi])
    ensures forall c, q :: 0 <= c < |cycles| && 0 <= q < hi - lo ==>
      Expected(doubleShear, parameters, cycles, staticStress[lo..hi], cyclicStress[lo..hi], k, solve)[c][q] ==
      Expected(doubleShear, parameters, cycles, staticStress, cyclicStress, k, solve)[c][lo + q]
  {
    assert forall q :: 0 <= q < hi - lo ==>
      cyclicStress[lo..hi][q] == cyclicStress[lo + q] && staticStress[lo..hi][q] == staticStress[lo + q];
  }

  // ---------------------------------------------------------------------------
  // Chunks
  // ---------------------------------------------------------------------------

  const NumCpus: nat := 12

  /** indices: i * (n // 12) for the twelve workers, then n; the bounds
      increase from 0 to n. */
  function ChunkBounds(n: nat): (b: seq<nat>)
    ensures |b| == NumCpus + 1 && b[0] == 0 && b[NumCpus] == n
    ensures forall i :: 0 <= i < NumCpus ==> b[i] == i * (n / NumCpus)
    ensures forall i :: 0 <= i < NumCpus ==> b[i] <= b[i + 1]
    ensures forall i :: 0 <= i <= NumCpus ==> b[i] <= n
  {
    MultiplesIncrease(n);
    var b := seq(NumCpus, i requires 0 <= i < NumCpus => i * (n / NumCpus)) + [n];
    assert forall i :: 0 <= i < NumCpus ==> b[i] == i * (n / NumCpus);
    b
  }

  lemma MultiplesIncrease(n: nat)
    ensures forall i: nat :: i < NumCpus - 1 ==> i * (n / NumCpus) <= (i + 1) * (n / NumCpus)
    ensures forall i: nat :: i < NumCpus ==> i * (n / NumCpus) <= n
  {
    forall i: nat | i < NumCpus - 1
      ensures i * (n / NumCpus) <= (i + 1) * (n / NumCpus)
    {
      MulMonotone(i, i + 1, n / NumCpus);
    }
    forall i: nat | i < NumCpus
      ensures i * (n / NumCpus) <= n
    {
      MulMonotone(i, NumCpus - 1, n / NumCpus);
    }
  }

  lemma MulMonotone(a: nat, b: nat, c: nat)
    requires a <= b
    ensures a * c <= b * c
  {
  }

  /** The chunk that holds point p. */
  function ChunkOf(n: nat, p: nat): (i: nat)
    requires p < n
    ensures i < NumCpus && ChunkBounds(n)[i] <= p < ChunkBounds(n)[i + 1]
  {
    var c := n / NumCpus;
    if c == 0 then NumCpus - 1
    else
      var i := if p / c < NumCpus - 1 then p / c else NumCpus - 1;
      ChunkOfBounds(n, p, c, i);
      i
  }

  lemma ChunkOfBounds(n: nat, p: nat, c: nat, i: nat)
    requires p < n && c == n / NumCpus && c > 0 && i == if p / c < NumCpus - 1 then p / c else NumCpus - 1
    ensures i * c <= p && (i < NumCpus - 1 ==> p < (i + 1) * c)
  {
    if p / c < NumCpus - 1 {
      assert p == c * (p / c) + p % c;
    } else {
      assert c * (p / c) <= p;
      MulMonotone(i, p / c, c);
    }
  }

  lemma BoundsOrdered(n: nat, i: nat, j: nat)
    requires i <= j <= NumCpus
    ensures ChunkBounds(n)[i] <= ChunkBounds(n)[j]
  {
    var c := n / NumCpus;
    if j < NumCpus {
      MulMonotone(i, j, c);
    } else if i < NumCpus {
      MulMonotone(i, NumCpus - 1, c);
    }
  }

  /** The last chunk takes the remainder of n // 12, for n < 12 all chunks
      but the last are empty, and every point lies in exactly one chunk. */
  lemma ChunkPartition(n: nat)
    ensures ChunkBounds(n)[NumCpus] - ChunkBounds(n)[NumCpus - 1] == n / NumCpus + n % NumCpus
    ensures n < NumCpus ==> forall i :: 0 <= i < NumCpus ==> ChunkBounds(n)[i] == 0
    ensures forall p, i :: 0 <= p < n && 0 <= i < NumCpus && ChunkBounds(n)[i] <= p < ChunkBounds(n)[i + 1] ==>
      i == ChunkOf(n, p)
  {
    var b := ChunkBounds(n);
    forall p, i | 0 <= p < n && 0 <= i < NumCpus && b[i] <= p < b[i + 1]
      ensures i == ChunkOf(n, p)
    {
      var j := ChunkOf(n, p);
      if i < j {
        BoundsOrdered(n, i + 1, j);
      } else if j < i {
        BoundsOrdered(n, j + 1, i);
      }
    }
  }

  /** The loop that builds indices: twelve multiples of the chunk size, then
      n appended. */
  method Indices(n: nat) returns (indices: seq<nat>)
    ensures indices == ChunkBounds(n)
  {
    var chunksize := n / NumCpus;
    indices := [];
    for i := 0 to NumCpus
      invariant |indices| == i && forall j :: 0 <= j < i ==> indices[j] == j * chunksize
    {
      indices := indices + [i * chunksize];
    }
    indices := indices + [n];
  }

  /** The first i job results fit their chunks. */
  ghost predicate ChunksFit(results: seq<seq<seq<Vec6>>>, m: nat, n: nat, i: nat) {
    |results| == i <= NumCpus &&
    forall j :: 0 <= j < i ==>
      |results[j]| == m &&
      forall c :: 0 <= c < m ==> |results[j][c]| == ChunkBounds(n)[j + 1] - ChunkBounds(n)[j]
  }

  /** Row q of job j is point indices[j] + q of the strains e. */
  ghost predicate JobsMatch(results: seq<seq<seq<Vec6>>>, e: seq<seq<Vec6>>, m: nat, n: nat, i: nat)
    requires ChunksFit(results, m, n, i) && |e| == m && forall c :: 0 <= c < m ==> |e[c]| == n
  {
    var b := ChunkBounds(n);
    forall j, c, q :: 0 <= j < i && 0 <= c < m && 0 <= q < |results[j][c]| ==>
      assert |results[j][c]| == b[j + 1] - b[j];
      results[j][c][q] == e[c][b[j] + q]
  }

  /** The job loop: chunk i of the static and cyclic stresses to job i, the
      results collected in job order. */
  method RunJobs(doubleShear: bool, parameters: seq<real>, cycles: seq<real>, staticStress: seq<Vec6>, cyclicStress: seq<Vec6>,
                 k: MaterialModel.Kernels, solve: MaterialModel.Integrator) returns (results: seq<seq<seq<Vec6>>>)
    requires |parameters| >= 6 || |staticStress| == 0
    requires |staticStress| <= |cyclicStress| && PointsDefined(k, cyclicStress)
    ensures ChunksFit(results, |cycles|, |staticStress|, NumCpus)
    ensures JobsMatch(results, Expected(doubleShear, parameters, cycles, staticStress, cyclicStress, k, solve),
                      |cycles|, |staticStress|, NumCpus)
  {
    var n := |staticStress|;
    ghost var e := Expected(doubleShear, parameters, cycles, staticStress, cyclicStress, k, solve);
    var indices := Indices(n);
    results := [];
    for i := 0 to NumCpus
      invariant ChunksFit(results, |cycles|, n, i)
      invariant JobsMatch(results, e, |cycles|, n, i)
    {
      var lo, hi := indices[i], indices[i + 1];
      BoundsOrdered(n, i + 1, NumCpus);
      var job := RunJob(doubleShear, parameters, cycles, staticStress, cyclicStress, k, solve, lo, hi);
      AppendJob(results, job, e, |cycles|, n, i);
      results := results + [job];
    }
  }

  /** One job: the points lo..hi, each with the strain of its own model. */
  method RunJob(doubleShear: bool, parameters: seq<real>, cycles: seq<real>, staticStress: seq<Vec6>, cyclicStress: seq<Vec6>,
                k: MaterialModel.Kernels, solve: MaterialModel.Integrator, lo: nat, hi: nat) returns (job: seq<seq<Vec6>>)
    requires |parameters| >= 6 || |staticStress| == 0
    requires lo <= hi <= |staticStress| <= |cyclicStress| && PointsDefined(k, cyclicStress)
    ensures |job| == |cycles| && forall c :: 0 <= c < |cycles| ==> |job[c]| == hi - lo
    ensures forall c, q :: 0 <= c < |cycles| && 0 <= q < hi - lo ==>
      job[c][q] == Expected(doubleShear, parameters, cycles, staticStress, cyclicStress, k, solve)[c][lo + q]
  {
    PointsIndependent(doubleShear, parameters, cycles, staticStress, cyclicStress, k, solve, lo, hi);
    var r;
    if doubleShear {
      r := EvaluatePermanentStrainForGp(parameters, cycles, staticStress[lo..hi], cyclicStress[lo..hi], k, solve);
    } else {
      r := EvaluatePoints(parameters, cycles, staticStress[lo..hi], cyclicStress[lo..hi], k, solve);
    }
    job := r.value;
  }

  /** A job whose rows are the points of chunk i extends the results. */
  lemma AppendJob(results: seq<seq<seq<Vec6>>>, job: seq<seq<Vec6>>, e: seq<seq<Vec6>>, m: nat, n: nat, i: nat)
    requires i < NumCpus && |e| == m && forall c :: 0 <= c < m ==> |e[c]| == n
    requires ChunksFit(results, m, n, i) && JobsMatch(results, e, m, n, i)
    requires |job| == m && forall c :: 0 <= c < m ==> |job[c]| == ChunkBounds(n)[i + 1] - ChunkBounds(n)[i]
    requires forall c, q :: 0 <= c < m && 0 <= q < |job[c]| ==> job[c][q] == e[c][ChunkBounds(n)[i] + q]
    ensures ChunksFit(results + [job], m, n, i + 1) && JobsMatch(results + [job], e, m, n, i + 1)
  {
    var r := results + [job];
    assert forall j :: 0 <= j < i ==> r[j] == results[j];
  }

  /** One chunk written into rows lo..hi of every cycle. */
  function Splice(ps: seq<seq<Vec6>>, chunk: seq<seq<Vec6>>, lo: nat, hi: nat): (r: seq<seq<Vec6>>)
    requires |chunk| == |ps| && lo <= hi
    requires forall c :: 0 <= c < |ps| ==> hi <= |ps[c]| && |chunk[c]| == hi - lo
    ensures |r| == |ps| && forall c :: 0 <= c < |ps| ==> |r[c]| == |ps[c]|
    ensures forall c, p :: 0 <= c < |ps| && 0 <= p < |ps[c]| ==>
      r[c][p] == if lo <= p < hi then chunk[c][p - lo] else ps[c][p]
  {
    seq(|ps|, c requires 0 <= c < |ps| => ps[c][..lo] + chunk[c] + ps[c][hi..])
  }

  /** The write-back loop: result i goes to the rows [indices[i],
      indices[i+1]) of every cycle, so that every point ends up with its own
      strain. */
  method WriteBack(m: nat, n: nat, results: seq<seq<seq<Vec6>>>, ghost e: seq<seq<Vec6>>) returns (ps: seq<seq<Vec6>>)
    requires ChunksFit(results, m, n, NumCpus) && |e| == m && forall c :: 0 <= c < m ==> |e[c]| == n
    requires JobsMatch(results, e, m, n, NumCpus)
    ensures ps == e
  {
    ps := seq(m, c => seq(n, p => Zero6));
    for i := 0 to NumCpus
      invariant |ps| == m && forall c :: 0 <= c < m ==> |ps[c]| == n
      invariant forall c, p :: 0 <= c < m && 0 <= p < ChunkBounds(n)[i] ==> ps[c][p] == e[c][p]
    {
      var lo, hi := ChunkBounds(n)[i], ChunkBounds(n)[i + 1];
      BoundsOrdered(n, i + 1, NumCpus);
      ps := Splice(ps, results[i], lo, hi);
    }
    assert forall c :: 0 <= c < m ==> ps[c] == e[c];
  }

  // ---------------------------------------------------------------------------
  // Steps
  // ---------------------------------------------------------------------------

  /** The step written for a cycle count: 'cycles_' + str(n). */
  function StepName(n: nat): (s: string)
    ensures |s| > 7 && s[..7] == "cycles_"
  {
    "cycles_" + NatToString(n)
  }

  /** Different cycle counts are written to different steps. */
  lemma StepNamesDistinct(a: nat, b: nat)
    requires a != b
    ensures StepName(a) != StepName(b)
  {
    if StepName(a) == StepName(b) {
      assert NatToString(a) == StepName(a)[7..] == StepName(b)[7..] == NatToString(b);
      NatToStringInjective(a, b);
    }
  }

  // ---------------------------------------------------------------------------
  // calculate_permanent_deformations
  // ---------------------------------------------------------------------------

  /** What the script writes: the instance and set it works on, the EP field
      per cycle count with its step, and the step the deformation calculator
      starts from. The deformation fields (UP, ERR) of each step are computed
      by DeformationCalculator. */
  datatype Plan = Plan(instance: string, elementSet: Option<string>, strainSteps: seq<string>,
                       strains: seq<seq<Vec6>>, boundaryConditions: seq<BoundaryConditions.BoundaryCondition>,
                       initialStep: string)

  /** The supports of the deformation calculation: node sets and the
      component held fixed. */
  const SupportConditions: seq<BoundaryConditions.BoundaryCondition> := [
    BoundaryConditions.BoundaryCondition("X1_NODES", "node_set", 1, None),
    BoundaryConditions.BoundaryCondition("ballast_bottom_nodes", "node_set", 2, None),
    BoundaryConditions.BoundaryCondition("X_SYM_NODES", "node_set", 1, None),
    BoundaryConditions.BoundaryCondition("Z_SYM_NODES", "node_set", 3, None),
    BoundaryConditions.BoundaryCondition("Z1_NODES", "node_set", 3, None)
  ]

  /** The cyclic stress of the script: loading less static, both in kPa. */
  function CyclicStress(staticRead: seq<Vec6>, loadingRead: seq<Vec6>): Result<seq<Vec6>> {
    WriteStressStatePickles.Difference(InKilo(loadingRead), InKilo(staticRead))
  }

  /** calculate_permanent_deformations up to the field writes: the first
      instance (StopIteration without one), its ballast set (KeyError from
      the reader when the instance has no sets), the stresses in kPa and
      their difference, the chunked evaluation (IndexError for a point
      without a cyclic row or for parameters too short), and one step per
      cycle count, the calculator starting on the first (IndexError without
      cycle counts). The result does not depend on the chunking: every point
      carries the doubled-shear strain of its own model. */
  method CalculatePermanentDeformations(instanceKeys: seq<string>, setNames: seq<string>, staticRead: seq<Vec6>,
                                        loadingRead: seq<Vec6>, cycles: seq<nat>, parameters: seq<real>,
                                        k: MaterialModel.Kernels, solve: MaterialModel.Integrator)
    returns (r: Result<Plan>)
    requires CyclicStress(staticRead, loadingRead).Ok? ==> PointsDefined(k, CyclicStress(staticRead, loadingRead).value)
    ensures instanceKeys == [] ==> r == Err(StopIteration)
    ensures instanceKeys != [] && setNames == [] ==> r == Err(KeyError)
    ensures r.Ok? <==>
      instanceKeys != [] && setNames != [] && CyclicStress(staticRead, loadingRead).Ok? &&
      (|staticRead| == 0 || (|parameters| >= 6 && |staticRead| <= |CyclicStress(staticRead, loadingRead).value|)) &&
      cycles != []
    ensures r.Ok? ==>
      r.value.instance == instanceKeys[0] && FirstBallastSetName(setNames, r.value.elementSet) &&
      r.value.boundaryConditions == SupportConditions &&
      |r.value.strainSteps| == |cycles| && r.value.initialStep == r.value.strainSteps[0] &&
      (forall i :: 0 <= i < |cycles| ==> r.value.strainSteps[i] == StepName(cycles[i])) &&
      (|parameters| >= 6 || |staticRead| == 0) && |staticRead| <= |CyclicStress(staticRead, loadingRead).value| &&
      r.value.strains == Expected(true, parameters, CycleTimes(cycles), InKilo(staticRead),
                                  CyclicStress(staticRead, loadingRead).value, k, solve)
  {
    if instanceKeys == [] {
      return Err(StopIteration);
    }
    var elementSet := WriteStressStatePickles.FindElementSet(setNames);
    var region := OdbIo.ReadRegion(OdbIo.IntegrationPoint, elementSet, set s | s in setNames, {});
    if region.Err? {
      return Err(region.error);
    }
    var staticStress := InKilo(staticRead);
    var cyclic := CyclicStress(staticRead, loadingRead);
    if cyclic.Err? {
      return Err(cyclic.error);
    }
    var times := CycleTimes(cycles);
    var n := |staticStress|;
    if n > 0 && (|parameters| < 6 || |cyclic.value| < n) {
      // the job holding the last point fails: the model cannot be built
      // from the parameters, or cyclic_stress_state[i, :] is past the end
      return Err(IndexError);
    }
    var results := RunJobs(true, parameters, times, staticStress, cyclic.value, k, solve);
    var strains := WriteBack(|times|, n, results, Expected(true, parameters, times, staticStress, cyclic.value, k, solve));
    var steps := StepNames(cycles);
    if cycles == [] {
      return Err(IndexError);
    }
    r := Ok(Plan(instanceKeys[0], elementSet, steps, strains, SupportConditions, StepName(cycles[0])));
  }

  /** The steps of the strain writes, one per cycle count. */
  method StepNames(cycles: seq<nat>) returns (steps: seq<string>)
    ensures |steps| == |cycles| && forall j :: 0 <= j < |cycles| ==> steps[j] == StepName(cycles[j])
  {
    steps := [];
    for i := 0 to |cycles|
      invariant |steps| == i && forall j :: 0 <= j < i ==> steps[j] == StepName(cycles[j])
    {
      steps := steps + [StepName(cycles[i])];
    }
  }

  /** The set the script works on, as the set-search loop picks it. */
  ghost predicate FirstBallastSetName(names: seq<string>, name: Option<string>) {
    (names == [] ==> name == None) &&
    (WriteStressStatePickles.FirstBallastSet(names).Some? ==>
       name == Some(names[WriteStressStatePickles.FirstBallastSet(names).value])) &&
    (WriteStressStatePickles.FirstBallastSet(names).None? && names != [] ==> name == Some(names[|names| - 1]))
  }
}
