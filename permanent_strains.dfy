/**
  permanent_strains.py: for every instance of the stress database, the
  permanent strain after a fixed number of cycles. Instances whose name
  holds "BALLAST" get, point by point, a clamped strain magnitude along the
  direction 1.5 s / q of the cyclic deviator s and its von Mises stress q;
  every other instance gets zero strain. One EP field per instance is
  written to the step str(cycles) + '_cycles'.

  The stress reads are a parameter (instance, step) -> rows, the magnitude
  law permanent_strain of functional_shapes.py is a parameter of the static
  pressure and the von Mises stress (the cycle count and the material
  parameters being the script's constants), the square root is the kernel
  of MaterialModel. numpy arrays are sequences of rows whose columns the
  loops update one at a time.
 */
module PermanentStrains {
  import opened Common
  import MaterialModel
  import WriteStressStatePickles

  /** cycles = 1e5, and str(1e5) == '100000.0'. */
  const CycleCount: real := 100000.0
  const StepName: string := "100000.0_cycles"

  // ---------------------------------------------------------------------------
  // Point-wise definitions
  // ---------------------------------------------------------------------------

  /** -sum(s[0:3]) / 3. */
  function Pressure(t: Vec6): real {
    -(t[0] + t[1] + t[2]) / 3.0
  }

  /** The deviator of the cyclic stress: the pressure added to the normal
      components, the shear components kept. */
  function DeviatorOf(t: Vec6): (d: Vec6) {
    var p := Pressure(t);
    [t[0] + p, t[1] + p, t[2] + p, t[3], t[4], t[5]]
  }

  /** The deviator is trace free and keeps the shear of the cyclic stress;
      its normal components are s_ii - tr/3. */
  lemma DeviatorTraceFree(t: Vec6)
    ensures var d := DeviatorOf(t);
      d[0] + d[1] + d[2] == 0.0 &&
      (forall i :: 0 <= i < 3 ==> d[i] == t[i] - (t[0] + t[1] + t[2]) / 3.0) &&
      forall i :: 3 <= i < 6 ==> d[i] == t[i]
  {
  }

  /** The von Mises stress of the cyclic stress. */
  function VonMises(k: MaterialModel.Kernels, t: Vec6): real {
    k.sqrt(MaterialModel.VonMisesRadicand(t))
  }

  /** 1.5 * deviator / von Mises, component by component. */
  function DirectionOf(t: Vec6, q: real): (n: Vec6)
    requires q != 0.0
  {
    var d := DeviatorOf(t);
    [1.5 * d[0] / q, 1.5 * d[1] / q, 1.5 * d[2] / q, 1.5 * d[3] / q, 1.5 * d[4] / q, 1.5 * d[5] / q]
  }

  /** The direction is trace free, and scaling it back by q / 1.5 gives the
      deviator. */
  lemma DirectionTraceFree(t: Vec6, q: real)
    requires q != 0.0
    ensures var n := DirectionOf(t, q);
      n[0] + n[1] + n[2] == 0.0 && forall i :: 0 <= i < 6 ==> n[i] * q / 1.5 == DeviatorOf(t)[i]
  {
    var d, n := DeviatorOf(t), DirectionOf(t, q);
    DeviatorTraceFree(t);
    assert n[0] + n[1] + n[2] == 1.5 * (d[0] + d[1] + d[2]) / q;
  }

  /** ep_magnitude[ep_magnitude > 1.] = 1. */
  function Clamp(m: real): (r: real)
    ensures r <= 1.0 && (m <= 1.0 ==> r == m) && (m > 1.0 ==> r == 1.0)
  {
    if m > 1.0 then 1.0 else m
  }

  /** The permanent strain of one ballast point. */
  function PointStrain(m: real, n: Vec6): (e: Vec6)
  {
    Scale(Clamp(m), n)
  }

  /** The strain is the clamped magnitude along the direction: trace free,
      and no larger than the direction for a non-negative magnitude. */
  lemma PointStrainAlongDirection(m: real, n: Vec6)
    requires m >= 0.0
    ensures forall i :: 0 <= i < 6 && n[i] >= 0.0 ==> 0.0 <= PointStrain(m, n)[i] <= n[i]
  {
    var c := Clamp(m);
    assert 0.0 <= c <= 1.0;
    forall i | 0 <= i < 6 && n[i] >= 0.0
      ensures 0.0 <= c * n[i] <= n[i]
    {
      ScaleBelow(c, n[i]);
    }
  }

  /** The strain of a point is trace free. */
  lemma PointStrainTraceFree(m: real, t: Vec6, q: real)
    requires q != 0.0 && m >= 0.0
    ensures var e := PointStrain(m, DirectionOf(t, q)); e[0] + e[1] + e[2] == 0.0
  {
    var n := DirectionOf(t, q);
    DirectionTraceFree(t, q);
    Distribute(Clamp(m), n[0], n[1], n[2]);
  }

  lemma Distribute(c: real, a: real, b: real, d: real)
    ensures c * a + c * b + c * d == c * (a + b + d)
  {
  }

  lemma ScaleBelow(c: real, x: real)
    requires 0.0 <= c <= 1.0 && x >= 0.0
    ensures 0.0 <= c * x <= x
  {
  }

  // ---------------------------------------------------------------------------
  // Column loops
  // ---------------------------------------------------------------------------

  function SetComponent(v: Vec6, i: nat, x: real): (r: Vec6)
    requires i < 6
    ensures forall c :: 0 <= c < 6 ==> r[c] == if c == i then x else v[c]
  {
    v[i := x]
  }

  /** rows[:, i] = column. */
  function SetColumn(rows: seq<Vec6>, i: nat, column: seq<real>): (r: seq<Vec6>)
    requires i < 6 && |column| == |rows|
    ensures |r| == |rows|
    ensures forall j, c :: 0 <= j < |rows| && 0 <= c < 6 ==> r[j][c] == if c == i then column[j] else rows[j][c]
  {
    seq(|rows|, j requires 0 <= j < |rows| => SetComponent(rows[j], i, column[j]))
  }

  /** The first i columns hold the values of f, the others those of g. */
  ghost predicate ColumnsUpTo(rows: seq<Vec6>, f: seq<Vec6>, g: seq<Vec6>, i: nat) {
    |rows| == |f| == |g| &&
    forall j, c :: 0 <= j < |rows| && 0 <= c < 6 ==> rows[j][c] == if c < i then f[j][c] else g[j][c]
  }

  /** deviator = copy(cyclic); deviator[:, i] += pressure_cyclic for i < 3. */
  method Deviator(cyclic: seq<Vec6>) returns (deviator: seq<Vec6>)
    ensures |deviator| == |cyclic| && forall j :: 0 <= j < |cyclic| ==> deviator[j] == DeviatorOf(cyclic[j])
  {
    var pressureCyclic := seq(|cyclic|, j requires 0 <= j < |cyclic| => Pressure(cyclic[j]));
    ghost var target := seq(|cyclic|, j requires 0 <= j < |cyclic| => DeviatorOf(cyclic[j]));
    deviator := cyclic;
    for i := 0 to 3
      invariant ColumnsUpTo(deviator, target, cyclic, i)
    {
      deviator := SetColumn(deviator, i, seq(|cyclic|, j requires 0 <= j < |cyclic| => deviator[j][i] + pressureCyclic[j]));
    }
    assert forall j :: 0 <= j < |cyclic| ==> deviator[j] == target[j];
  }

  /** direction = 1.5 * deviator; direction[:, i] /= von_Mises_cyclic. */
  method Direction(cyclic: seq<Vec6>, deviator: seq<Vec6>, vonMises: seq<real>) returns (direction: seq<Vec6>)
    requires |deviator| == |cyclic| == |vonMises| && forall j :: 0 <= j < |cyclic| ==> deviator[j] == DeviatorOf(cyclic[j])
    requires forall j :: 0 <= j < |vonMises| ==> vonMises[j] != 0.0
    ensures |direction| == |cyclic| &&
      forall j :: 0 <= j < |cyclic| ==> direction[j] == DirectionOf(cyclic[j], vonMises[j])
  {
    var scaled := seq(|deviator|, j requires 0 <= j < |deviator| => Scale(1.5, deviator[j]));
    ghost var target := seq(|cyclic|, j requires 0 <= j < |cyclic| => DirectionOf(cyclic[j], vonMises[j]));
    direction := scaled;
    for i := 0 to 6
      invariant ColumnsUpTo(direction, target, scaled, i)
    {
      direction := SetColumn(direction, i, seq(|cyclic|, j requires 0 <= j < |cyclic| => direction[j][i] / vonMises[j]));
    }
    assert forall j :: 0 <= j < |cyclic| ==> direction[j] == target[j];
  }

  function Scale(a: real, v: Vec6): (r: Vec6)
    ensures forall c :: 0 <= c < 6 ==> r[c] == a * v[c]
  {
    [a * v[0], a * v[1], a * v[2], a * v[3], a * v[4], a * v[5]]
  }

  /** ep = 0 * static; ep[:, i] = ep_magnitude * direction[:, i]. */
  method Strain(magnitudes: seq<real>, direction: seq<Vec6>) returns (ep: seq<Vec6>)
    requires |magnitudes| == |direction|
    ensures |ep| == |direction| &&
      forall j :: 0 <= j < |direction| ==> ep[j] == PointStrain(magnitudes[j], direction[j])
  {
    var clamped := seq(|magnitudes|, j requires 0 <= j < |magnitudes| => Clamp(magnitudes[j]));
    ghost var target := seq(|direction|, j requires 0 <= j < |direction| => PointStrain(magnitudes[j], direction[j]));
    var zeros := seq(|direction|, j => Zero6);
    ep := zeros;
    for i := 0 to 6
      invariant ColumnsUpTo(ep, target, zeros, i)
    {
      ep := SetColumn(ep, i, seq(|direction|, j requires 0 <= j < |direction| => clamped[j] * direction[j][i]));
    }
    assert forall j :: 0 <= j < |direction| ==> ep[j] == target[j];
  }

  // ---------------------------------------------------------------------------
  // One instance
  // ---------------------------------------------------------------------------

  /** The strain law of the ballast: magnitude of static pressure and cyclic
      von Mises stress. */
  type Magnitude = (real, real) -> real

  /** Every point of a ballast instance has a non-zero cyclic von Mises
      stress (numpy would divide by zero there). */
  ghost predicate PointsDefined(k: MaterialModel.Kernels, cyclic: seq<Vec6>) {
    forall j :: 0 <= j < |cyclic| ==> VonMises(k, cyclic[j]) != 0.0
  }

  /** The strain of each point of a ballast instance. */
  function BallastStrain(k: MaterialModel.Kernels, magnitude: Magnitude, staticStress: seq<Vec6>, cyclic: seq<Vec6>)
    : (ep: seq<Vec6>)
    requires |staticStress| == |cyclic| && PointsDefined(k, cyclic)
    ensures |ep| == |cyclic|
  {
    seq(|cyclic|, j requires 0 <= j < |cyclic| => BallastPoint(k, magnitude, staticStress[j], cyclic[j]))
  }

  /** The strain of one ballast point from its static and cyclic stress. */
  function BallastPoint(k: MaterialModel.Kernels, magnitude: Magnitude, staticStress: Vec6, cyclic: Vec6): Vec6
    requires VonMises(k, cyclic) != 0.0
  {
    PointStrain(magnitude(Pressure(staticStress), VonMises(k, cyclic)), DirectionOf(cyclic, VonMises(k, cyclic)))
  }

  /** The body of the ballast branch: pressures, deviator, von Mises, the
      direction, one magnitude job per point run in order, the clamp and the
      strain. */
  method BallastBranch(k: MaterialModel.Kernels, magnitude: Magnitude, staticStress: seq<Vec6>, cyclic: seq<Vec6>)
    returns (ep: seq<Vec6>)
    requires |staticStress| == |cyclic| && PointsDefined(k, cyclic)
    ensures ep == BallastStrain(k, magnitude, staticStress, cyclic)
  {
    var n := |cyclic|;
    var pressureStatic := seq(n, j requires 0 <= j < n => Pressure(staticStress[j]));
    var deviator := Deviator(cyclic);
    var vonMises := seq(n, j requires 0 <= j < n => VonMises(k, cyclic[j]));
    var direction := Direction(cyclic, deviator, vonMises);
    var magnitudes: seq<real> := [];
    for j := 0 to n
      invariant |magnitudes| == j && forall m :: 0 <= m < j ==> magnitudes[m] == magnitude(pressureStatic[m], vonMises[m])
    {
      magnitudes := magnitudes + [magnitude(pressureStatic[j], vonMises[j])];
    }
    ep := Strain(magnitudes, direction);
  }

  /** The instances whose name contains "BALLAST" (case sensitive). */
  predicate IsBallastInstance(name: string) {
    Contains(name, "BALLAST")
  }

  /** The stresses read: instance, step -> one row per integration point. */
  type StressReader = (string, string) -> seq<Vec6>

  /** The cyclic stress of an instance: loading less gravity, in kPa. */
  function CyclicStress(read: StressReader, name: string): Result<seq<Vec6>> {
    WriteStressStatePickles.Difference(InKilo(read(name, "loading")), InKilo(read(name, "gravity")))
  }

  /** The cyclic stress as the script reads it: both reads are from step
      'gravity'. */
  function CyclicStressAsWritten(read: StressReader, name: string): Result<seq<Vec6>> {
    WriteStressStatePickles.Difference(InKilo(read(name, "gravity")), InKilo(read(name, "gravity")))
  }

  /** As written, the cyclic stress is zero for every instance, so its von
      Mises stress is zero and the direction divides by zero at every point
      of a ballast instance. */
  lemma AsWrittenCyclicIsZero(read: StressReader, name: string, k: MaterialModel.Kernels)
    requires k.sqrt(0.0) == 0.0
    ensures CyclicStressAsWritten(read, name).Ok?
    ensures var c := CyclicStressAsWritten(read, name).value;
      |c| == |read(name, "gravity")| &&
      forall j :: 0 <= j < |c| ==> c[j] == Zero6 && VonMises(k, c[j]) == 0.0
  {
    var s := InKilo(read(name, "gravity"));
    WriteStressStatePickles.CyclicIsLoadingLessStatic(s, s);
    var c := CyclicStressAsWritten(read, name).value;
    forall j | 0 <= j < |c|
      ensures c[j] == Zero6 && VonMises(k, c[j]) == 0.0
    {
      assert forall i :: 0 <= i < 6 ==> c[j][i] == 0.0;
    }
  }

  /** Corrected, the cyclic stress added to the static stress gives back the
      loading stress, point by point. */
  lemma CyclicStressRestoresLoading(read: StressReader, name: string)
    requires |read(name, "loading")| == |read(name, "gravity")|
    ensures CyclicStress(read, name).Ok?
    ensures var s, l, c := InKilo(read(name, "gravity")), InKilo(read(name, "loading")), CyclicStress(read, name).value;
      |c| == |s| && forall j, i :: 0 <= j < |c| && 0 <= i < 6 ==> s[j][i] + c[j][i] == l[j][i]
  {
    WriteStressStatePickles.CyclicIsLoadingLessStatic(InKilo(read(name, "loading")), InKilo(read(name, "gravity")));
  }

  function InKilo(s: seq<Vec6>): (r: seq<Vec6>)
    ensures |r| == |s| && forall j :: 0 <= j < |s| ==> r[j] == Scale(1.0 / 1000.0, s[j])
  {
    seq(|s|, j requires 0 <= j < |s| => Scale(1.0 / 1000.0, s[j]))
  }

  /** What the script writes for an instance: zeros of the static stress's
      shape, or the ballast strain. */
  datatype FieldWrite = FieldWrite(instance: string, step: string, data: seq<Vec6>)

  /** The points of a ballast instance are defined once its cyclic stress
      is formed. */
  ghost predicate Computable(read: StressReader, k: MaterialModel.Kernels, name: string) {
    IsBallastInstance(name) ==>
      |read(name, "loading")| == |read(name, "gravity")| && CyclicStress(read, name).Ok? &&
      PointsDefined(k, CyclicStress(read, name).value)
  }

  /** The write for one instance: zeros of the static stress's shape for a
      non-ballast instance, the ballast law at every point otherwise. */
  function InstanceWrite(read: StressReader, k: MaterialModel.Kernels, magnitude: Magnitude, name: string)
    : (w: FieldWrite)
    requires Computable(read, k, name)
    ensures w.instance == name && w.step == StepName && |w.data| == |read(name, "gravity")|
    ensures !IsBallastInstance(name) ==> forall m :: 0 <= m < |w.data| ==> w.data[m] == Zero6
  {
    var staticStress := InKilo(read(name, "gravity"));
    FieldWrite(name, StepName,
      if IsBallastInstance(name) then BallastStrain(k, magnitude, staticStress, CyclicStress(read, name).value)
      else seq(|staticStress|, i => Zero6))
  }

  /** At a ballast point the strain is the clamped magnitude of the static
      pressure and the cyclic von Mises stress, along 1.5 s / q. */
  lemma BallastWrite(read: StressReader, k: MaterialModel.Kernels, magnitude: Magnitude, name: string, m: nat)
    requires Computable(read, k, name) && IsBallastInstance(name) && m < |read(name, "gravity")|
    ensures var c := CyclicStress(read, name).value; var s := InKilo(read(name, "gravity"));
      var q := VonMises(k, c[m]);
      q != 0.0 &&
      InstanceWrite(read, k, magnitude, name).data[m] == PointStrain(magnitude(Pressure(s[m]), q), DirectionOf(c[m], q))
  {
  }

  /** The body of the instance loop. */
  method InstanceStrain(read: StressReader, k: MaterialModel.Kernels, magnitude: Magnitude, name: string)
    returns (w: FieldWrite)
    requires Computable(read, k, name)
    ensures w == InstanceWrite(read, k, magnitude, name)
  {
    var staticStress := InKilo(read(name, "gravity"));
    var stress2 := InKilo(read(name, "loading"));
    var ep := seq(|staticStress|, m => Zero6);
    if IsBallastInstance(name) {
      var cyclic := WriteStressStatePickles.Difference(stress2, staticStress);
      ep := BallastBranch(k, magnitude, staticStress, cyclic.value);
    }
    w := FieldWrite(name, StepName, ep);
  }

  /** The script's loop over the instances, with the cyclic stress read from
      step 'loading': one write per instance, in instance order. */
  method PermanentStrains(names: seq<string>, read: StressReader, k: MaterialModel.Kernels, magnitude: Magnitude)
    returns (writes: seq<FieldWrite>)
    requires forall name :: name in names ==> Computable(read, k, name)
    ensures |writes| == |names|
    ensures forall j :: 0 <= j < |names| ==> writes[j] == InstanceWrite(read, k, magnitude, names[j])
  {
    writes := [];
    for j := 0 to |names|
      invariant |writes| == j
      invariant forall m :: 0 <= m < j ==> writes[m] == InstanceWrite(read, k, magnitude, names[m])
    {
      var w := InstanceStrain(read, k, magnitude, names[j]);
      writes := writes + [w];
    }
  }
}
