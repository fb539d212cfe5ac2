/**
  material_model.py: the permanent-strain law for ballast under cyclic
  loading. A model is built from a parameter vector and a loading frequency;
  `update` integrates the strain rate over the intervals between the
  requested cycle counts, each interval starting where the previous ended.

  Tensors are six-component vectors (Common.Vec6). The square root,
  the exponential, the power function and the ODE integrator are floating
  point kernels and are parameters here.
 */
module MaterialModel {
  import opened Common

  /** The identity tensor [1, 1, 1, 0, 0, 0] scaled by c. */
  function Spherical(c: real): (r: Vec6)
    ensures forall k :: 0 <= k < 3 ==> r[k] == c
    ensures forall k :: 3 <= k < 6 ==> r[k] == 0.0
  {
    [c, c, c, 0.0, 0.0, 0.0]
  }

  /** invariant_1: the trace, the sum of the three normal components. */
  function Invariant1(t: Vec6): real {
    t[0] + t[1] + t[2]
  }

  /** The expression under the square root of von_Mises. */
  function VonMisesRadicand(t: Vec6): real {
    t[0] * t[0] + t[1] * t[1] + t[2] * t[2] + 3.0 * (t[3] * t[3] + t[4] * t[4] + t[5] * t[5])
    - t[0] * t[1] - t[0] * t[2] - t[1] * t[2]
  }

  /** A spherical tensor carries no von Mises stress. */
  lemma VonMisesOfSpherical(c: real)
    ensures VonMisesRadicand(Spherical(c)) == 0.0
  {
  }

  /** The floating point kernels the law calls. */
  datatype Kernels = Kernels(sqrt: real -> real, exp: real -> real, pow: (real, real) -> real)

  /** What the law needs of its kernels: a positive square root of a positive
      number, and a non-negative power of a non-negative base. */
  ghost predicate KernelsSound(k: Kernels) {
    (forall x: real :: x > 0.0 ==> k.sqrt(x) > 0.0) &&
    (forall x: real, y: real :: x >= 0.0 ==> k.pow(x, y) >= 0.0)
  }

  function Abs(x: real): (r: real)
    ensures r >= 0.0 && (r == x || r == -x)
  {
    if x < 0.0 then -x else x
  }

  // ---------------------------------------------------------------------------
  // Construction
  // ---------------------------------------------------------------------------

  /** The constants of the law. */
  datatype Constants = Constants(gf: real, a: real, a1: real, a2: real, nf: real, h1: real, fd: real)

  /** The constructor's reading of the parameter vector: absolute values of
      parameters 0, 1, 2, 4 and 5, parameter 3 as it is, and the frequency
      factor 1 at 5 Hz or parameter 6, 7 or 8 at 10, 20 or 40 Hz. Any other
      frequency raises KeyError; a vector too short for an index read raises
      IndexError. */
  function ConstitutiveParameters(parameters: seq<real>, frequency: real): (r: Result<Constants>)
    ensures r.Ok? ==> |parameters| >= 6
    ensures r.Ok? ==> (var c := r.value;
      c.gf == Abs(parameters[0]) && c.a == Abs(parameters[1]) && c.a1 == Abs(parameters[2]) &&
      c.a2 == parameters[3] && c.nf == Abs(parameters[4]) && c.h1 == Abs(parameters[5]))
    ensures r.Ok? && frequency == 5.0 ==> r.value.fd == 1.0
    ensures r.Ok? && frequency == 10.0 ==> |parameters| > 6 && r.value.fd == parameters[6]
    ensures r.Ok? && frequency == 20.0 ==> |parameters| > 7 && r.value.fd == parameters[7]
    ensures r.Ok? && frequency == 40.0 ==> |parameters| > 8 && r.value.fd == parameters[8]
    ensures r == Err(KeyError) <==> |parameters| >= 6 && frequency !in {5.0, 10.0, 20.0, 40.0}
    ensures r.Err? ==> r.error in {KeyError, IndexError}
  {
    if |parameters| < 6 then Err(IndexError)
    else
      var fd :=
        if frequency == 5.0 then Ok(1.0)
        else if frequency == 10.0 then PyIndex(parameters, 6)
        else if frequency == 20.0 then PyIndex(parameters, 7)
        else if frequency == 40.0 then PyIndex(parameters, 8)
        else Err(KeyError);
      if fd.Err? then Err(fd.error)
      else Ok(Constants(Abs(parameters[0]), Abs(parameters[1]), Abs(parameters[2]), parameters[3],
                        Abs(parameters[4]), Abs(parameters[5]), fd.value))
  }

  /** Every constant but A2 is non-negative; A2 keeps its sign. */
  lemma ConstantsSigns(parameters: seq<real>, frequency: real)
    requires ConstitutiveParameters(parameters, frequency).Ok?
    ensures var c := ConstitutiveParameters(parameters, frequency).value;
      c.gf >= 0.0 && c.a >= 0.0 && c.a1 >= 0.0 && c.nf >= 0.0 && c.h1 >= 0.0 && c.a2 == parameters[3]
  {
  }

  /** A full 9-parameter vector is accepted exactly at the four frequencies;
      at 5 Hz six parameters suffice. */
  lemma SupportedFrequencies(parameters: seq<real>, frequency: real)
    requires |parameters| >= 9
    ensures ConstitutiveParameters(parameters, frequency).Ok? <==> frequency in {5.0, 10.0, 20.0, 40.0}
    ensures |parameters[..6]| == 6 && ConstitutiveParameters(parameters[..6], 5.0).Ok?
  {
  }

  // ---------------------------------------------------------------------------
  // The strain rate (dedn)
  // ---------------------------------------------------------------------------

  /** The flow direction 1.5 (sigma - I1/3 [1,1,1,0,0,0]) / q. */
  function Direction(cyclicStress: Vec6, q: real): (nij: Vec6)
    requires q != 0.0
  {
    var s, m := cyclicStress, Invariant1(cyclicStress) / 3.0;
    [1.5 * (s[0] - m) / q, 1.5 * (s[1] - m) / q, 1.5 * (s[2] - m) / q, 1.5 * s[3] / q, 1.5 * s[4] / q, 1.5 * s[5] / q]
  }

  /** The direction is trace-free, and its shear part is 1.5 sigma / q. */
  lemma DirectionTraceFree(cyclicStress: Vec6, q: real)
    requires q != 0.0
    ensures Invariant1(Direction(cyclicStress, q)) == 0.0
    ensures forall k :: 3 <= k < 6 ==> Direction(cyclicStress, q)[k] == 1.5 * cyclicStress[k] / q
  {
    var s, m := cyclicStress, Invariant1(cyclicStress) / 3.0;
    SumOfQuotients(1.5 * (s[0] - m), 1.5 * (s[1] - m), 1.5 * (s[2] - m), q);
  }

  lemma SumOfQuotients(x: real, y: real, z: real, q: real)
    requires q != 0.0
    ensures x / q + y / q + z / q == (x + y + z) / q
  {
  }

  /** The argument of the pressure dependence, 1 + A1 p + A2 p^2, floored at
      1e-6. */
  function RateArgument(c: Constants, p: real): (arg: real)
    ensures arg >= 0.000001
    ensures 1.0 + c.a1 * p + c.a2 * p * p >= 0.000001 ==> arg == 1.0 + c.a1 * p + c.a2 * p * p
  {
    var raw := 1.0 + c.a1 * p + c.a2 * p * p;
    if raw < 0.000001 then 0.000001 else raw
  }

  /** The overstress fd q / g - hf, floored at 0. */
  function Overstress(c: Constants, q: real, g: real, hf: real): (f: real)
    requires g != 0.0
    ensures f >= 0.0
    ensures c.fd * q / g - hf >= 0.0 ==> f == c.fd * q / g - hf
  {
    var raw := c.fd * q / g - hf;
    if raw < 0.0 then 0.0 else raw
  }

  /** The hardening function H1 (1 - exp(-nf ep)). */
  function Hardening(c: Constants, epVonMises: real, k: Kernels): real {
    c.h1 * (1.0 - k.exp(-c.nf * epVonMises))
  }

  /** dedn: the strain rate at the accumulated strain ep. */
  function StrainRate(c: Constants, p: real, q: real, nij: Vec6, ep: Vec6, k: Kernels): (e: Vec6)
    requires KernelsSound(k) && c.fd != 0.0
  {
    var hf := Hardening(c, k.sqrt(VonMisesRadicand(ep)), k);
    var g := k.sqrt(RateArgument(c, p));
    var f := Overstress(c, q, g, hf);
    var rate := c.a * k.pow(f, c.gf);
    var v := 0.5 * hf / c.fd * (c.a1 + c.a2 * p) / g;
    [rate * (nij[0] + v), rate * (nij[1] + v), rate * (nij[2] + v), rate * nij[3], rate * nij[4], rate * nij[5]]
  }

  /** The effective rate A f^gf is never negative, whatever the stresses:
      the argument floor keeps g positive, the overstress floor keeps f
      non-negative, and A is an absolute value. */
  lemma StrainRateNonNegative(parameters: seq<real>, frequency: real, p: real, q: real, ep: Vec6, k: Kernels)
    requires ConstitutiveParameters(parameters, frequency).Ok? && KernelsSound(k)
    ensures var c := ConstitutiveParameters(parameters, frequency).value;
      var g := k.sqrt(RateArgument(c, p));
      g > 0.0 && c.a * k.pow(Overstress(c, q, g, Hardening(c, k.sqrt(VonMisesRadicand(ep)), k)), c.gf) >= 0.0
  {
    var c := ConstitutiveParameters(parameters, frequency).value;
    var g := k.sqrt(RateArgument(c, p));
    var f := Overstress(c, q, g, Hardening(c, k.sqrt(VonMisesRadicand(ep)), k));
    assert k.pow(f, c.gf) >= 0.0;
    NonNegativeProduct(c.a, k.pow(f, c.gf));
  }

  lemma NonNegativeProduct(x: real, y: real)
    requires x >= 0.0 && y >= 0.0
    ensures x * y >= 0.0
  {
  }

  // ---------------------------------------------------------------------------
  // update: chaining the integration intervals
  // ---------------------------------------------------------------------------

  /** The right-hand side of the ODE, as handed to the integrator. */
  type Rhs = (real, Vec6) -> Vec6

  /** solve_ivp(rhs, [n0, n1], e0) reduced to its final state y[:, -1]. */
  type Integrator = (Rhs, real, real, Vec6) -> Vec6

  /** The cycle count an interval starts from: 1 for the first, the previous
      requested count after that. */
  function IntervalStart(cycles: seq<real>, i: nat): real
    requires i < |cycles|
  {
    if i == 0 then 1.0 else cycles[i - 1]
  }

  /** The strain rows after the first n intervals. */
  function History(rhs: Rhs, solve: Integrator, cycles: seq<real>, n: nat): (rows: seq<Vec6>)
    requires n <= |cycles|
    ensures |rows| == n
  {
    if n == 0 then []
    else
      var prev := History(rhs, solve, cycles, n - 1);
      prev + [solve(rhs, IntervalStart(cycles, n - 1), cycles[n - 1], if n == 1 then Zero6 else prev[n - 2])]
  }

  /** One row per requested cycle count; interval i runs from the row before
      it (zero strain at N = 1 for the first) up to cycles[i]. */
  lemma {:induction false} HistoryChains(rhs: Rhs, solve: Integrator, cycles: seq<real>, n: nat, i: nat)
    requires i < n <= |cycles|
    ensures History(rhs, solve, cycles, n)[i] ==
      solve(rhs, IntervalStart(cycles, i), cycles[i], if i == 0 then Zero6 else History(rhs, solve, cycles, n)[i - 1])
  {
    if i < n - 1 {
      HistoryChains(rhs, solve, cycles, n - 1, i);
      var prev := History(rhs, solve, cycles, n - 1);
      assert History(rhs, solve, cycles, n)[..n - 1] == prev;
      if i > 0 {
        assert History(rhs, solve, cycles, n)[i - 1] == prev[i - 1];
      }
    }
  }

  /** Later cycle counts never change earlier rows. */
  lemma {:induction false} HistoryPrefix(rhs: Rhs, solve: Integrator, cycles: seq<real>, n: nat, m: nat)
    requires m <= n <= |cycles|
    ensures History(rhs, solve, cycles, n)[..m] == History(rhs, solve, cycles, m)
  {
    if m < n {
      HistoryPrefix(rhs, solve, cycles, n - 1, m);
      assert History(rhs, solve, cycles, n)[..n - 1] == History(rhs, solve, cycles, n - 1);
    }
  }

  /** The hydrostatic pressure p = -I1 / 3 of the static stress. */
  function Pressure(staticStress: Vec6): real {
    -Invariant1(staticStress) / 3.0
  }

  /** The ODE of one point: the rate at the given stresses. */
  function PointRhs(c: Constants, cyclicStress: Vec6, staticStress: Vec6, k: Kernels): Rhs
    requires KernelsSound(k) && c.fd != 0.0 && k.sqrt(VonMisesRadicand(cyclicStress)) != 0.0
  {
    var q := k.sqrt(VonMisesRadicand(cyclicStress));
    (n: real, ep: Vec6) => StrainRate(c, Pressure(staticStress), q, Direction(cyclicStress, q), ep, k)
  }

  /** What update returns for one point. */
  function StrainHistory(c: Constants, cycles: seq<real>, cyclicStress: Vec6, staticStress: Vec6, k: Kernels,
                         solve: Integrator): (rows: seq<Vec6>)
    requires KernelsSound(k) && c.fd != 0.0 && k.sqrt(VonMisesRadicand(cyclicStress)) != 0.0
    ensures |rows| == |cycles|
  {
    History(PointRhs(c, cyclicStress, staticStress, k), solve, cycles, |cycles|)
  }

  /** The sum of components 0..2 of each row. */
  function Volumetric(rows: seq<Vec6>): (r: seq<real>)
    ensures |r| == |rows|
    ensures forall i :: 0 <= i < |rows| ==> r[i] == Invariant1(rows[i])
  {
    seq(|rows|, i requires 0 <= i < |rows| => Invariant1(rows[i]))
  }

  /** Each row less a third of its volumetric strain on components 0..2. */
  function Deviatoric(rows: seq<Vec6>): (r: seq<Vec6>)
    ensures |r| == |rows|
  {
    seq(|rows|, i requires 0 <= i < |rows| => DeviatoricRow(rows[i]))
  }

  function DeviatoricRow(t: Vec6): Vec6 {
    var m := Invariant1(t) / 3.0;
    [t[0] - m, t[1] - m, t[2] - m, t[3], t[4], t[5]]
  }

  /** The deviatoric strain has zero trace, keeps the shear components, and
      with a third of the volumetric strain added back gives the strain. */
  lemma DeviatoricSplit(rows: seq<Vec6>, i: nat)
    requires i < |rows|
    ensures Invariant1(Deviatoric(rows)[i]) == 0.0
    ensures forall k :: 3 <= k < 6 ==> Deviatoric(rows)[i][k] == rows[i][k]
    ensures forall k :: 0 <= k < 3 ==> Deviatoric(rows)[i][k] + Volumetric(rows)[i] / 3.0 == rows[i][k]
  {
  }

  class Model {
    const constants: Constants
    const parameters: seq<real>
    /** The strain rows of the last update; None before the first. */
    var strain: Option<seq<Vec6>>

    constructor(parameters: seq<real>, constants: Constants)
      ensures this.parameters == parameters && this.constants == constants && strain == None
    {
      this.parameters := parameters;
      this.constants := constants;
      strain := None;
    }

    /** MaterialModel(parameters, frequency): KeyError or IndexError exactly
        when the parameters cannot be read, else a fresh model without
        strain. */
    static method Create(parameters: seq<real>, frequency: real) returns (r: Result<Model>)
      ensures r.Ok? <==> ConstitutiveParameters(parameters, frequency).Ok?
      ensures r.Err? ==> r.error == ConstitutiveParameters(parameters, frequency).error
      ensures r.Ok? ==> fresh(r.value) && r.value.strain == None && r.value.parameters == parameters &&
                        r.value.constants == ConstitutiveParameters(parameters, frequency).value
    {
      var c := ConstitutiveParameters(parameters, frequency);
      if c.Err? {
        return Err(c.error);
      }
      var m := new Model(parameters, c.value);
      return Ok(m);
    }

    /** update: one strain row per requested cycle count, each interval's
        integration started from the previous row; the rows are kept as the
        model's strain and returned. */
    method Update(cycles: seq<real>, cyclicStress: Vec6, staticStress: Vec6, k: Kernels, solve: Integrator)
      returns (rows: seq<Vec6>)
      requires KernelsSound(k) && constants.fd != 0.0 && k.sqrt(VonMisesRadicand(cyclicStress)) != 0.0
      modifies this
      ensures strain == Some(rows)
      ensures rows == StrainHistory(constants, cycles, cyclicStress, staticStress, k, solve)
    {
      var rhs := PointRhs(constants, cyclicStress, staticStress, k);
      rows := seq(|cycles|, i => Zero6);
      for i := 0 to |cycles|
        invariant |rows| == |cycles|
        invariant rows[..i] == History(rhs, solve, cycles, i)
      {
        var n0, e1;
        if i == 0 {
          n0 := 1.0;
          e1 := Zero6;
        } else {
          e1 := rows[i - 1];
          n0 := cycles[i - 1];
        }
        var solution := solve(rhs, n0, cycles[i], e1);
        assert rows[..i][..] == rows[..i];
        rows := rows[i := solution];
        assert rows[..i + 1] == rows[..i] + [solution];
      }
      assert rows[..|cycles|] == rows;
      strain := Some(rows);
    }

    /** volumetric_strain: per row the sum of components 0..2; before any
        update the strain is None and indexing it raises TypeError. */
    function VolumetricStrain(): (r: Result<seq<real>>)
      reads this
      ensures r.Err? <==> strain.None?
      ensures r.Err? ==> r.error == TypeError
      ensures r.Ok? ==> r.value == Volumetric(strain.value)
    {
      if strain.None? then Err(TypeError) else Ok(Volumetric(strain.value))
    }

    /** deviatoric_strain: the strain less a third of its volumetric strain on
        the normal components; before any update the same TypeError. */
    function DeviatoricStrain(): (r: Result<seq<Vec6>>)
      reads this
      ensures r.Err? <==> strain.None?
      ensures r.Err? ==> r.error == TypeError
      ensures r.Ok? ==> r.value == Deviatoric(strain.value)
    {
      if strain.None? then Err(TypeError) else Ok(Deviatoric(strain.value))
    }
  }
}
