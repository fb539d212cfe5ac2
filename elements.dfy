/**
  The 8-node linear hexahedron (C3D8): its corner and Gauss-point tables, the
  shape-function derivatives with respect to the local coordinates, the
  Jacobian, and the layout of the 6x24 strain-displacement operator with the
  1/3 volume-averaged + 2/3 point-value blend of the normal rows.

  Solving the Jacobian for spatial derivatives and taking its determinant are
  floating-point kernels; they enter as parameters (the spatial derivatives of
  every node at the evaluation point, and at each Gauss point with the
  Jacobian determinants there).
 */
module Elements {
  import opened Common

  /** Local corner coordinates (ξ, η, ζ) of the eight nodes. */
  const LocalNodalPos: seq<seq<int>> :=
    [[-1, -1, -1], [1, -1, -1], [1, 1, -1], [-1, 1, -1],
     [-1, -1, 1], [1, -1, 1], [1, 1, 1], [-1, 1, 1]]

  lemma LocalNodalPosIsTheCube()
    ensures |LocalNodalPos| == 8 && IsMatrix(LocalNodalPos, 3)
    ensures forall n, c :: 0 <= n < 8 && 0 <= c < 3 ==> LocalNodalPos[n][c] == -1 || LocalNodalPos[n][c] == 1
    ensures forall n, m :: 0 <= n < m < 8 ==> LocalNodalPos[n] != LocalNodalPos[m]
    ensures forall n :: 0 <= n < 4 ==> LocalNodalPos[n][2] == -1
    ensures forall n :: 4 <= n < 8 ==> LocalNodalPos[n][2] == 1
  {
  }

  function Sign(bit: int): real {
    if bit == 0 then -1.0 else 1.0
  }

  /** Coordinate c of Gauss point g, where s stands for 1/sqrt(3): bit 0 of g
      gives the sign of ξ, bit 1 that of η and bit 2 that of ζ. */
  function GaussCoordinate(s: real, g: nat, c: nat): (r: real)
    requires c < 3
    ensures r == s || r == -s
  {
    Sign(if c == 0 then g % 2 else if c == 1 then (g / 2) % 2 else (g / 4) % 2) * s
  }

  /** The class-level Gauss table: three nested loops over the signs of ζ, η
      and ξ (outermost first) and a running counter. */
  method GaussPointTable(s: real) returns (gp: array2<real>)
    ensures gp.Length0 == 8 && gp.Length1 == 3
    ensures forall g, c :: 0 <= g < 8 && 0 <= c < 3 ==> gp[g, c] == GaussCoordinate(s, g, c)
  {
    gp := new real[8, 3]((_, _) => 0.0);
    var counter := 0;
    for i := 0 to 2
      invariant counter == 4 * i
      invariant forall g, c :: 0 <= g < counter && 0 <= c < 3 ==> gp[g, c] == GaussCoordinate(s, g, c)
    {
      for j := 0 to 2
        invariant counter == 4 * i + 2 * j
        invariant forall g, c :: 0 <= g < counter && 0 <= c < 3 ==> gp[g, c] == GaussCoordinate(s, g, c)
      {
        for k := 0 to 2
          invariant counter == 4 * i + 2 * j + k
          invariant forall g, c :: 0 <= g < counter && 0 <= c < 3 ==> gp[g, c] == GaussCoordinate(s, g, c)
        {
          gp[counter, 0], gp[counter, 1], gp[counter, 2] := Sign(k) * s, Sign(j) * s, Sign(i) * s;
          counter := counter + 1;
        }
      }
    }
  }

  /** Row r, column i of d: the derivative of shape function i with respect to
      local coordinate r at (ξ, η, ζ). */
  function DerivativeEntry(r: nat, i: nat, xi: real, eta: real, zeta: real): real
    requires r < 3 && i < 8
  {
    var p0, p1, p2 := LocalNodalPos[i][0] as real, LocalNodalPos[i][1] as real, LocalNodalPos[i][2] as real;
    if r == 0 then (1.0 + eta * p1) * (1.0 + zeta * p2) * p0 / 8.0
    else if r == 1 then (1.0 + xi * p0) * (1.0 + zeta * p2) * p1 / 8.0
    else (1.0 + xi * p0) * (1.0 + eta * p1) * p2 / 8.0
  }

  function DerivativeRow(r: nat, xi: real, eta: real, zeta: real): (row: seq<real>)
    requires r < 3
    ensures |row| == 8
  {
    seq(8, i requires 0 <= i < 8 => DerivativeEntry(r, i, xi, eta, zeta))
  }

  /** Every row of d sums to zero over the eight nodes, at every local point. */
  lemma DerivativeRowsSumToZero(r: nat, xi: real, eta: real, zeta: real)
    requires r < 3
    ensures Sum(DerivativeRow(r, xi, eta, zeta)) == 0.0
  {
    SumOfEight(DerivativeRow(r, xi, eta, zeta));
  }

  lemma SumFrom(s: seq<real>, i: nat)
    requires i < |s|
    ensures Sum(s[i..]) == s[i] + Sum(s[i + 1..])
  {
    assert s[i..][1..] == s[i + 1..];
  }

  lemma SumOfEight(s: seq<real>)
    requires |s| == 8
    ensures Sum(s) == s[0] + s[1] + s[2] + s[3] + s[4] + s[5] + s[6] + s[7]
  {
    assert s[0..] == s && s[8..] == [];
    SumFrom(s, 0); SumFrom(s, 1); SumFrom(s, 2); SumFrom(s, 3);
    SumFrom(s, 4); SumFrom(s, 5); SumFrom(s, 6); SumFrom(s, 7);
  }

  /** Σ_n a[n] * x[n]. */
  function Dot(a: seq<real>, x: seq<real>): real
    requires |a| == |x|
  {
    if a == [] then 0.0 else a[0] * x[0] + Dot(a[1..], x[1..])
  }

  function Shift(x: seq<real>, t: real): (r: seq<real>)
    ensures |r| == |x|
  {
    seq(|x|, n requires 0 <= n < |x| => x[n] + t)
  }

  lemma {:induction false} DotShift(a: seq<real>, x: seq<real>, t: real)
    requires |a| == |x|
    ensures Dot(a, Shift(x, t)) == Dot(a, x) + t * Sum(a)
  {
    if a != [] {
      assert Shift(x, t)[1..] == Shift(x[1..], t);
      DotShift(a[1..], x[1..], t);
    }
  }

  /** Column c of the nodal coordinate matrix xe. */
  function CoordinateColumn(xe: seq<seq<real>>, c: nat): (col: seq<real>)
    requires IsMatrix(xe, 3) && c < 3
    ensures |col| == |xe|
  {
    seq(|xe|, n requires 0 <= n < |xe| => xe[n][c])
  }

  /** J = d · xe at (ξ, η, ζ), for an 8x3 nodal coordinate matrix. */
  function JacobianOf(xe: seq<seq<real>>, xi: real, eta: real, zeta: real): (jac: seq<seq<real>>)
    requires |xe| == 8 && IsMatrix(xe, 3)
    ensures |jac| == 3 && IsMatrix(jac, 3)
  {
    seq(3, r requires 0 <= r < 3 =>
      seq(3, c requires 0 <= c < 3 => Dot(DerivativeRow(r, xi, eta, zeta), CoordinateColumn(xe, c))))
  }

  function Translate(xe: seq<seq<real>>, t: seq<real>): (moved: seq<seq<real>>)
    requires IsMatrix(xe, 3) && |t| == 3
    ensures |moved| == |xe| && IsMatrix(moved, 3)
  {
    seq(|xe|, n requires 0 <= n < |xe| => [xe[n][0] + t[0], xe[n][1] + t[1], xe[n][2] + t[2]])
  }

  /** Moving every node by the same vector leaves the Jacobian unchanged,
      because each row of d sums to zero. */
  lemma JacobianTranslationInvariant(xe: seq<seq<real>>, t: seq<real>, xi: real, eta: real, zeta: real)
    requires |xe| == 8 && IsMatrix(xe, 3) && |t| == 3
    ensures JacobianOf(Translate(xe, t), xi, eta, zeta) == JacobianOf(xe, xi, eta, zeta)
  {
    var moved := Translate(xe, t);
    forall r, c | 0 <= r < 3 && 0 <= c < 3
      ensures JacobianOf(moved, xi, eta, zeta)[r][c] == JacobianOf(xe, xi, eta, zeta)[r][c]
    {
      assert CoordinateColumn(moved, c) == Shift(CoordinateColumn(xe, c), t[c]);
      DotShift(DerivativeRow(r, xi, eta, zeta), CoordinateColumn(xe, c), t[c]);
      DerivativeRowsSumToZero(r, xi, eta, zeta);
    }
    assert forall r | 0 <= r < 3 :: JacobianOf(moved, xi, eta, zeta)[r] == JacobianOf(xe, xi, eta, zeta)[r];
  }

  // ---------------------------------------------------------------------------
  // Volume-averaged spatial derivatives
  // ---------------------------------------------------------------------------

  /** volume(): the sum of the Jacobian determinants at the Gauss points. */
  function Volume(dets: seq<real>): real {
    Sum(dets)
  }

  /** Σ_g w[g] * v[g][k]: the determinant-weighted sum of one derivative component. */
  function WeightedSum(v: seq<seq<real>>, w: seq<real>, k: nat): real
    requires |v| == |w| && IsMatrix(v, 3) && k < 3
  {
    if v == [] then 0.0 else w[0] * v[0][k] + WeightedSum(v[1..], w[1..], k)
  }

  /** dx_avg for one node: its spatial derivative at each Gauss point, weighted
      by the Jacobian determinant there, summed and divided by the volume. */
  function AveragedDerivative(atGauss: seq<seq<real>>, dets: seq<real>): (avg: seq<real>)
    requires |atGauss| == |dets| && IsMatrix(atGauss, 3)
    requires Volume(dets) != 0.0
    ensures |avg| == 3
  {
    seq(3, k requires 0 <= k < 3 => WeightedSum(atGauss, dets, k) / Volume(dets))
  }

  lemma {:induction false} WeightedSumOfConstant(v: seq<seq<real>>, w: seq<real>, x: seq<real>, k: nat)
    requires |v| == |w| && IsMatrix(v, 3) && k < 3 && |x| == 3
    requires forall g :: 0 <= g < |v| ==> v[g] == x
    ensures WeightedSum(v, w, k) == Sum(w) * x[k]
  {
    if v != [] {
      WeightedSumOfConstant(v[1..], w[1..], x, k);
    }
  }

  /** When a node's spatial derivative is the same at every Gauss point (an
      affinely mapped element), its volume average is that value. */
  lemma AverageOfConstantDerivative(atGauss: seq<seq<real>>, dets: seq<real>, x: seq<real>)
    requires |atGauss| == |dets| && IsMatrix(atGauss, 3) && |x| == 3
    requires Volume(dets) != 0.0
    requires forall g :: 0 <= g < |atGauss| ==> atGauss[g] == x
    ensures AveragedDerivative(atGauss, dets) == x
  {
    forall k | 0 <= k < 3
      ensures AveragedDerivative(atGauss, dets)[k] == x[k]
    {
      WeightedSumOfConstant(atGauss, dets, x, k);
    }
  }

  // ---------------------------------------------------------------------------
  // The strain-displacement operator B
  // ---------------------------------------------------------------------------

  /** Eight nodes, three spatial derivative components each. */
  predicate IsNodeDerivatives(v: seq<seq<real>>) {
    |v| == 8 && IsMatrix(v, 3)
  }

  /** Entry (r, col) of B for spatial derivatives dx at the point and dxAvg
      averaged over the element. Column col belongs to node col/3, direction
      col%3. Normal rows blend 1/3 average with 2/3 (diagonal) or -1/3
      (off-diagonal) of the point value; rows 3, 4, 5 are the engineering
      shears xy, xz, yz. */
  function OperatorEntry(dx: seq<seq<real>>, dxAvg: seq<seq<real>>, r: nat, col: nat): real
    requires IsNodeDerivatives(dx) && IsNodeDerivatives(dxAvg) && r < 6 && col < 24
  {
    var i, k := col / 3, col % 3;
    if r < 3 then
      dxAvg[i][k] / 3.0 + (if r == k then 2.0 * dx[i][k] / 3.0 else -dx[i][k] / 3.0)
    else if r == 3 then (if k == 0 then dx[i][1] else if k == 1 then dx[i][0] else 0.0)
    else if r == 4 then (if k == 0 then dx[i][2] else if k == 2 then dx[i][0] else 0.0)
    else (if k == 1 then dx[i][2] else if k == 2 then dx[i][1] else 0.0)
  }

  /** The three normal rows of node i's column 3i+k add up to the averaged
      derivative dxAvg[i][k]. */
  lemma NormalRowsSumToAverage(dx: seq<seq<real>>, dxAvg: seq<seq<real>>, i: nat, k: nat)
    requires IsNodeDerivatives(dx) && IsNodeDerivatives(dxAvg) && i < 8 && k < 3
    ensures OperatorEntry(dx, dxAvg, 0, 3 * i + k) + OperatorEntry(dx, dxAvg, 1, 3 * i + k)
            + OperatorEntry(dx, dxAvg, 2, 3 * i + k) == dxAvg[i][k]
  {
    assert (3 * i + k) / 3 == i && (3 * i + k) % 3 == k;
  }

  /** When the average equals the point value, the blend is the standard
      linear-hexahedron operator: dx on the diagonal, 0 off it. */
  lemma BlendReducesToStandard(dx: seq<seq<real>>, i: nat, j: nat, k: nat)
    requires IsNodeDerivatives(dx) && i < 8 && j < 3 && k < 3
    ensures OperatorEntry(dx, dx, j, 3 * i + k) == (if j == k then dx[i][k] else 0.0)
  {
    assert (3 * i + k) / 3 == i && (3 * i + k) % 3 == k;
  }

  /** Placement of the shear rows for node i. */
  lemma ShearRowLayout(dx: seq<seq<real>>, dxAvg: seq<seq<real>>, i: nat)
    requires IsNodeDerivatives(dx) && IsNodeDerivatives(dxAvg) && i < 8
    ensures OperatorEntry(dx, dxAvg, 3, 3 * i) == dx[i][1] && OperatorEntry(dx, dxAvg, 3, 3 * i + 1) == dx[i][0]
    ensures OperatorEntry(dx, dxAvg, 3, 3 * i + 2) == 0.0
    ensures OperatorEntry(dx, dxAvg, 4, 3 * i) == dx[i][2] && OperatorEntry(dx, dxAvg, 4, 3 * i + 2) == dx[i][0]
    ensures OperatorEntry(dx, dxAvg, 4, 3 * i + 1) == 0.0
    ensures OperatorEntry(dx, dxAvg, 5, 3 * i + 1) == dx[i][2] && OperatorEntry(dx, dxAvg, 5, 3 * i + 2) == dx[i][1]
    ensures OperatorEntry(dx, dxAvg, 5, 3 * i) == 0.0
  {
    assert (3 * i) / 3 == i && (3 * i) % 3 == 0;
    assert (3 * i + 1) / 3 == i && (3 * i + 1) % 3 == 1;
    assert (3 * i + 2) / 3 == i && (3 * i + 2) % 3 == 2;
  }

  /** Columns 3i..3i+2 depend only on node i's derivatives. */
  lemma OperatorColumnsAreLocal(dx: seq<seq<real>>, dxAvg: seq<seq<real>>, dx': seq<seq<real>>,
                                dxAvg': seq<seq<real>>, r: nat, col: nat)
    requires IsNodeDerivatives(dx) && IsNodeDerivatives(dxAvg) && IsNodeDerivatives(dx') && IsNodeDerivatives(dxAvg')
    requires r < 6 && col < 24
    requires dx[col / 3] == dx'[col / 3] && dxAvg[col / 3] == dxAvg'[col / 3]
    ensures OperatorEntry(dx, dxAvg, r, col) == OperatorEntry(dx', dxAvg', r, col)
  {
  }

  function OperatorRow(dx: seq<seq<real>>, dxAvg: seq<seq<real>>, r: nat): (row: seq<real>)
    requires IsNodeDerivatives(dx) && IsNodeDerivatives(dxAvg) && r < 6
    ensures |row| == 24
  {
    seq(24, c requires 0 <= c < 24 => OperatorEntry(dx, dxAvg, r, c))
  }

  /** Σ_i v[i][k] over the eight nodes. */
  function NodeSum(v: seq<seq<real>>, k: nat): real
    requires IsNodeDerivatives(v) && k < 3
  {
    v[0][k] + v[1][k] + v[2][k] + v[3][k] + v[4][k] + v[5][k] + v[6][k] + v[7][k]
  }

  /** The nodal displacement vector of a rigid translation t. */
  function RigidTranslation(t: seq<real>): (u: seq<real>)
    requires |t| == 3
    ensures |u| == 24
  {
    seq(24, c requires 0 <= c < 24 => t[c % 3])
  }

  /** Σ_i row[3i + k] over the eight nodes: the part of a row acting on direction k. */
  function DirectionSum(row: seq<real>, k: nat): real
    requires |row| == 24 && k < 3
  {
    row[k] + row[3 + k] + row[6 + k] + row[9 + k] + row[12 + k] + row[15 + k] + row[18 + k] + row[21 + k]
  }

  lemma DotFrom(a: seq<real>, x: seq<real>, i: nat)
    requires |a| == |x| && i < |a|
    ensures Dot(a[i..], x[i..]) == a[i] * x[i] + Dot(a[i + 1..], x[i + 1..])
  {
    assert a[i..][1..] == a[i + 1..];
    assert x[i..][1..] == x[i + 1..];
  }

  /** x repeats t every three entries, as a uniform translation does. */
  predicate Periodic(x: seq<real>, t: seq<real>)
    requires |t| == 3
  {
    forall c :: 0 <= c < |x| ==> x[c] == t[c % 3]
  }

  /** Σ_i a[3i + k]. */
  function Strided(a: seq<real>, k: nat): real
    requires k < 3 && |a| % 3 == 0
    decreases |a|
  {
    if a == [] then 0.0 else a[k] + Strided(a[3..], k)
  }

  lemma {:induction false} DotPeriodic(a: seq<real>, x: seq<real>, t: seq<real>)
    requires |a| == |x| && |a| % 3 == 0 && |t| == 3 && Periodic(x, t)
    ensures Dot(a, x) == t[0] * Strided(a, 0) + t[1] * Strided(a, 1) + t[2] * Strided(a, 2)
    decreases |a|
  {
    if a != [] {
      PeriodicTail(x, t);
      DotFirstThree(a, x);
      DotPeriodic(a[3..], x[3..], t);
      Regroup(a[0], a[1], a[2], t[0], t[1], t[2], Strided(a[3..], 0), Strided(a[3..], 1), Strided(a[3..], 2));
    }
  }

  /** The first three terms of a dot product. */
  lemma DotFirstThree(a: seq<real>, x: seq<real>)
    requires |a| == |x| && 3 <= |a|
    ensures Dot(a, x) == a[0] * x[0] + a[1] * x[1] + a[2] * x[2] + Dot(a[3..], x[3..])
  {
    DotFromTwice(a, x);
    Telescope(Dot(a, x), Dot(a[1..], x[1..]), Dot(a[2..], x[2..]), Dot(a[3..], x[3..]),
              a[0] * x[0], a[1] * x[1], a[2] * x[2]);
  }

  /** The second and third steps of DotFirstThree. */
  lemma DotFromTwice(a: seq<real>, x: seq<real>)
    requires |a| == |x| && 3 <= |a|
    ensures Dot(a[1..], x[1..]) == a[1] * x[1] + Dot(a[2..], x[2..])
    ensures Dot(a[2..], x[2..]) == a[2] * x[2] + Dot(a[3..], x[3..])
  {
    DotFrom(a, x, 1);
    DotFrom(a, x, 2);
  }

  lemma Telescope(d0: real, d1: real, d2: real, d3: real, p0: real, p1: real, p2: real)
    requires d0 == p0 + d1 && d1 == p1 + d2 && d2 == p2 + d3
    ensures d0 == p0 + p1 + p2 + d3
  {
  }

  /** A periodic vector starts with t and stays periodic after it. */
  lemma PeriodicTail(x: seq<real>, t: seq<real>)
    requires |t| == 3 && 3 <= |x| && Periodic(x, t)
    ensures x[0] == t[0] && x[1] == t[1] && x[2] == t[2] && Periodic(x[3..], t)
  {
    assert x[0] == t[0 % 3] && x[1] == t[1 % 3] && x[2] == t[2 % 3];
    forall c | 0 <= c < |x[3..]|
      ensures x[3..][c] == t[c % 3]
    {
      assert x[3..][c] == x[c + 3];
    }
  }

  lemma Regroup(a0: real, a1: real, a2: real, t0: real, t1: real, t2: real, s0: real, s1: real, s2: real)
    ensures a0 * t0 + a1 * t1 + a2 * t2 + (t0 * s0 + t1 * s1 + t2 * s2) ==
      t0 * (a0 + s0) + t1 * (a1 + s1) + t2 * (a2 + s2)
  {
  }

  lemma StridedFrom(a: seq<real>, k: nat, m: nat)
    requires k < 3 && |a| % 3 == 0 && 3 * m + 3 <= |a|
    ensures Strided(a[3 * m..], k) == a[3 * m + k] + Strided(a[3 * m + 3..], k)
  {
    assert a[3 * m..][3..] == a[3 * m + 3..];
  }

  lemma DirectionSumIsStrided(row: seq<real>, k: nat)
    requires |row| == 24 && k < 3
    ensures DirectionSum(row, k) == Strided(row, k)
  {
    assert row[0..] == row && row[24..] == [];
    StridedFrom(row, k, 0); StridedFrom(row, k, 1); StridedFrom(row, k, 2); StridedFrom(row, k, 3);
    StridedFrom(row, k, 4); StridedFrom(row, k, 5); StridedFrom(row, k, 6); StridedFrom(row, k, 7);
  }

  /** A row applied to a rigid translation collects, per direction, the row's
      entries for that direction. */
  lemma RowTimesTranslation(row: seq<real>, t: seq<real>)
    requires |row| == 24 && |t| == 3
    ensures Dot(row, RigidTranslation(t)) == t[0] * DirectionSum(row, 0) + t[1] * DirectionSum(row, 1) + t[2] * DirectionSum(row, 2)
  {
    RigidTranslationPeriodic(t);
    DotPeriodic(row, RigidTranslation(t), t);
    DirectionSumIsStrided(row, 0);
    DirectionSumIsStrided(row, 1);
    DirectionSumIsStrided(row, 2);
    SameCombination(t[0], t[1], t[2], Strided(row, 0), Strided(row, 1), Strided(row, 2),
      DirectionSum(row, 0), DirectionSum(row, 1), DirectionSum(row, 2));
  }

  /** A rigid translation repeats t node after node. */
  lemma RigidTranslationPeriodic(t: seq<real>)
    requires |t| == 3
    ensures Periodic(RigidTranslation(t), t)
  {
  }

  /** Equal coefficients give equal combinations; the products stay atoms. */
  lemma SameCombination(t0: real, t1: real, t2: real, a0: real, a1: real, a2: real, b0: real, b1: real, b2: real)
    requires a0 == b0 && a1 == b1 && a2 == b2
    ensures t0 * a0 + t1 * a1 + t2 * a2 == t0 * b0 + t1 * b1 + t2 * b2
  {
  }

  /** The direction sums of every row of B are combinations of the nodal sums
      of dx and dxAvg. */
  lemma OperatorDirectionSums(dx: seq<seq<real>>, dxAvg: seq<seq<real>>, r: nat, k: nat)
    requires IsNodeDerivatives(dx) && IsNodeDerivatives(dxAvg) && r < 6 && k < 3
    ensures DirectionSum(OperatorRow(dx, dxAvg, r), k) == (
      if r < 3 then NodeSum(dxAvg, k) / 3.0 + (if r == k then 2.0 * NodeSum(dx, k) / 3.0 else -NodeSum(dx, k) / 3.0)
      else if r == 3 then (if k == 0 then NodeSum(dx, 1) else if k == 1 then NodeSum(dx, 0) else 0.0)
      else if r == 4 then (if k == 0 then NodeSum(dx, 2) else if k == 2 then NodeSum(dx, 0) else 0.0)
      else (if k == 1 then NodeSum(dx, 2) else if k == 2 then NodeSum(dx, 1) else 0.0))
  {
  }

  /** When the nodal derivatives (at the point and averaged) sum to zero over
      the nodes, a uniform translation produces no strain in any of the six
      rows of B. */
  lemma BalancedOperatorIgnoresTranslation(dx: seq<seq<real>>, dxAvg: seq<seq<real>>, t: seq<real>, r: nat)
    requires IsNodeDerivatives(dx) && IsNodeDerivatives(dxAvg) && |t| == 3 && r < 6
    requires forall k :: 0 <= k < 3 ==> NodeSum(dx, k) == 0.0 && NodeSum(dxAvg, k) == 0.0
    ensures Dot(OperatorRow(dx, dxAvg, r), RigidTranslation(t)) == 0.0
  {
    var row := OperatorRow(dx, dxAvg, r);
    RowTimesTranslation(row, t);
    BalancedDirectionSum(dx, dxAvg, r, 0);
    BalancedDirectionSum(dx, dxAvg, r, 1);
    BalancedDirectionSum(dx, dxAvg, r, 2);
    SameCombination(t[0], t[1], t[2], DirectionSum(row, 0), DirectionSum(row, 1), DirectionSum(row, 2), 0.0, 0.0, 0.0);
  }

  /** With zero nodal sums, every direction sum of every row of B is zero. */
  lemma BalancedDirectionSum(dx: seq<seq<real>>, dxAvg: seq<seq<real>>, r: nat, k: nat)
    requires IsNodeDerivatives(dx) && IsNodeDerivatives(dxAvg) && r < 6 && k < 3
    requires forall j :: 0 <= j < 3 ==> NodeSum(dx, j) == 0.0 && NodeSum(dxAvg, j) == 0.0
    ensures DirectionSum(OperatorRow(dx, dxAvg, r), k) == 0.0
  {
    OperatorDirectionSums(dx, dxAvg, r, k);
  }

  predicate Is3x3(m: seq<seq<real>>) {
    |m| == 3 && IsMatrix(m, 3)
  }

  /** d(ξ, η, ζ) as three rows of eight. */
  function DerivativeMatrix(xi: real, eta: real, zeta: real): (d: seq<seq<real>>)
    ensures |d| == 3 && IsMatrix(d, 8)
  {
    [DerivativeRow(0, xi, eta, zeta), DerivativeRow(1, xi, eta, zeta), DerivativeRow(2, xi, eta, zeta)]
  }

  /** A 3x8 matrix whose rows sum to zero, as the rows of d do. */
  predicate Balanced(d: seq<seq<real>>) {
    |d| == 3 && IsMatrix(d, 8) && forall r :: 0 <= r < 3 ==> Sum(d[r]) == 0.0
  }

  lemma DerivativeMatrixBalanced(xi: real, eta: real, zeta: real)
    ensures Balanced(DerivativeMatrix(xi, eta, zeta))
  {
    DerivativeRowsSumToZero(0, xi, eta, zeta);
    DerivativeRowsSumToZero(1, xi, eta, zeta);
    DerivativeRowsSumToZero(2, xi, eta, zeta);
  }

  /** dx = np.linalg.solve(J, d[:, i]) for the eight nodes, written as the
      inverse Jacobian inv applied to column i of d. */
  function SolvedDerivatives(inv: seq<seq<real>>, d: seq<seq<real>>): (dx: seq<seq<real>>)
    requires Is3x3(inv) && |d| == 3 && IsMatrix(d, 8)
    ensures IsNodeDerivatives(dx)
  {
    seq(8, i requires 0 <= i < 8 => seq(3, k requires 0 <= k < 3 =>
      Combination(inv[k][0], d[0][i], inv[k][1], d[1][i], inv[k][2], d[2][i])))
  }

  /** a x + b y + c z. */
  function Combination(a: real, x: real, b: real, y: real, c: real, z: real): real {
    a * x + b * y + c * z
  }

  /** Scaling eight entries that sum to zero keeps their sum zero. */
  lemma ScaleOfBalanced(a: real, x: seq<real>)
    requires |x| == 8 && Sum(x) == 0.0
    ensures a * x[0] + a * x[1] + a * x[2] + a * x[3] + a * x[4] + a * x[5] + a * x[6] + a * x[7] == 0.0
  {
    SumOfEight(x);
    assert a * x[0] + a * x[1] + a * x[2] + a * x[3] + a * x[4] + a * x[5] + a * x[6] + a * x[7] ==
      a * (x[0] + x[1] + x[2] + x[3] + x[4] + x[5] + x[6] + x[7]);
  }

  /** a x + y over eight entries sums to zero when x and y do. */
  lemma AffineBalanced(a: real, x: seq<real>, y: seq<real>, e: seq<real>)
    requires |x| == |y| == |e| == 8 && Sum(x) == 0.0 && Sum(y) == 0.0
    requires forall i :: 0 <= i < 8 ==> e[i] == a * x[i] + y[i]
    ensures Sum(e) == 0.0
  {
    ScaleOfBalanced(a, x);
    SumOfEight(y);
    SumOfEight(e);
  }

  /** a x + b y + c z over eight entries sums to zero when x, y and z do. */
  lemma CombinationBalanced(a: real, b: real, c: real, x: seq<real>, y: seq<real>, z: seq<real>, e: seq<real>)
    requires |x| == |y| == |z| == |e| == 8 && Sum(x) == 0.0 && Sum(y) == 0.0 && Sum(z) == 0.0
    requires forall i :: 0 <= i < 8 ==> e[i] == Combination(a, x[i], b, y[i], c, z[i])
    ensures Sum(e) == 0.0
  {
    ScaleOfBalanced(a, x);
    ScaleOfBalanced(b, y);
    ScaleOfBalanced(c, z);
    SumOfEight(e);
  }

  /** Dividing eight entries that sum to zero keeps their sum zero. */
  lemma DivideOfBalanced(x: seq<real>, v: real)
    requires |x| == 8 && Sum(x) == 0.0 && v != 0.0
    ensures x[0] / v + x[1] / v + x[2] / v + x[3] / v + x[4] / v + x[5] / v + x[6] / v + x[7] / v == 0.0
  {
    SumOfEight(x);
    assert x[0] / v + x[1] / v + x[2] / v + x[3] / v + x[4] / v + x[5] / v + x[6] / v + x[7] / v ==
      (x[0] + x[1] + x[2] + x[3] + x[4] + x[5] + x[6] + x[7]) / v;
  }

  /** Column k of the eight nodes' derivatives. */
  function Component(dx: seq<seq<real>>, k: nat): (col: seq<real>)
    requires IsNodeDerivatives(dx) && k < 3
    ensures |col| == 8 && Sum(col) == NodeSum(dx, k)
  {
    var col := seq(8, i requires 0 <= i < 8 => dx[i][k]);
    SumOfEight(col);
    col
  }

  /** The solved derivatives of the eight nodes sum to zero in every
      direction: each is a fixed combination of the columns of d, whose rows
      sum to zero. */
  lemma SolvedDerivativesBalance(inv: seq<seq<real>>, d: seq<seq<real>>, k: nat)
    requires Is3x3(inv) && Balanced(d) && k < 3
    ensures NodeSum(SolvedDerivatives(inv, d), k) == 0.0
  {
    var e := Component(SolvedDerivatives(inv, d), k);
    assert Sum(d[0]) == 0.0 && Sum(d[1]) == 0.0 && Sum(d[2]) == 0.0;
    CombinationBalanced(inv[k][0], inv[k][1], inv[k][2], d[0], d[1], d[2], e);
  }

  /** Node i's derivative at each of the eight Gauss points (inverse Jacobian
      invs[g] at point g of the table for s = 1/sqrt(3)). */
  function NodeAtGauss(invs: seq<seq<seq<real>>>, s: real, i: nat): (v: seq<seq<real>>)
    requires |invs| == 8 && (forall g :: 0 <= g < 8 ==> Is3x3(invs[g])) && i < 8
    ensures |v| == 8 && IsMatrix(v, 3)
  {
    seq(8, g requires 0 <= g < 8 => SolvedDerivatives(invs[g], GaussDerivatives(s, g))[i])
  }

  /** d at Gauss point g. */
  function GaussDerivatives(s: real, g: nat): (d: seq<seq<real>>)
    ensures |d| == 3 && IsMatrix(d, 8)
  {
    DerivativeMatrix(GaussCoordinate(s, g, 0), GaussCoordinate(s, g, 1), GaussCoordinate(s, g, 2))
  }

  /** The dx_avg list of B: each node's Gauss-point derivatives averaged with
      the determinant weights dets. */
  function AveragedDerivatives(invs: seq<seq<seq<real>>>, dets: seq<real>, s: real): (dxAvg: seq<seq<real>>)
    requires |invs| == 8 && (forall g :: 0 <= g < 8 ==> Is3x3(invs[g])) && |dets| == 8 && Volume(dets) != 0.0
    ensures IsNodeDerivatives(dxAvg)
  {
    seq(8, i requires 0 <= i < 8 => AveragedDerivative(NodeAtGauss(invs, s, i), dets))
  }

  /** Eight nodes' values at n points, three components each. */
  predicate Layers(vs: seq<seq<seq<real>>>, n: nat) {
    |vs| == 8 && forall i :: 0 <= i < 8 ==> |vs[i]| == n && IsMatrix(vs[i], 3)
  }

  /** The eight nodes' weighted sums of component k. */
  function WeightedSums(vs: seq<seq<seq<real>>>, w: seq<real>, k: nat): (ws: seq<real>)
    requires Layers(vs, |w|) && k < 3
    ensures |ws| == 8
  {
    seq(8, i requires 0 <= i < 8 => WeightedSum(vs[i], w, k))
  }

  /** The eight nodes' component k at point g. */
  function AtPoint(vs: seq<seq<seq<real>>>, n: nat, g: nat, k: nat): (col: seq<real>)
    requires Layers(vs, n) && g < n && k < 3
    ensures |col| == 8
  {
    seq(8, i requires 0 <= i < 8 => vs[i][g][k])
  }

  /** Weighted sums of eight nodes whose values cancel at every point cancel too. */
  lemma {:induction false} WeightedSumsCancel(vs: seq<seq<seq<real>>>, w: seq<real>, k: nat)
    requires Layers(vs, |w|) && k < 3
    requires forall g :: 0 <= g < |w| ==> Sum(AtPoint(vs, |w|, g, k)) == 0.0
    ensures Sum(WeightedSums(vs, w, k)) == 0.0
    decreases |w|
  {
    if w == [] {
      assert forall i :: 0 <= i < 8 ==> WeightedSums(vs, w, k)[i] == 0.0;
      SumOfEight(WeightedSums(vs, w, k));
    } else {
      var n := |w| - 1;
      var tails := seq(8, i requires 0 <= i < 8 => vs[i][1..]);
      assert Layers(tails, n);
      forall g | 0 <= g < n
        ensures Sum(AtPoint(tails, n, g, k)) == 0.0
      {
        assert AtPoint(tails, n, g, k) == AtPoint(vs, |w|, g + 1, k);
      }
      WeightedSumsCancel(tails, w[1..], k);
      var here, later, all := AtPoint(vs, |w|, 0, k), WeightedSums(tails, w[1..], k), WeightedSums(vs, w, k);
      assert forall i :: 0 <= i < 8 ==> all[i] == w[0] * here[i] + later[i];
      AffineBalanced(w[0], here, later, all);
    }
  }

  /** The averaged derivatives of the eight nodes sum to zero in every
      direction: at each Gauss point the solved derivatives do. */
  lemma AveragedDerivativesBalance(invs: seq<seq<seq<real>>>, dets: seq<real>, s: real, k: nat)
    requires |invs| == 8 && (forall g :: 0 <= g < 8 ==> Is3x3(invs[g])) && |dets| == 8 && Volume(dets) != 0.0
    requires k < 3
    ensures NodeSum(AveragedDerivatives(invs, dets, s), k) == 0.0
  {
    var vs := seq(8, i requires 0 <= i < 8 => NodeAtGauss(invs, s, i));
    assert Layers(vs, 8);
    forall g | 0 <= g < 8
      ensures Sum(AtPoint(vs, 8, g, k)) == 0.0
    {
      var d := GaussDerivatives(s, g);
      DerivativeMatrixBalanced(GaussCoordinate(s, g, 0), GaussCoordinate(s, g, 1), GaussCoordinate(s, g, 2));
      SolvedDerivativesBalance(invs[g], d, k);
      assert AtPoint(vs, 8, g, k) == Component(SolvedDerivatives(invs[g], d), k);
    }
    WeightedSumsCancel(vs, dets, k);
    var ws := WeightedSums(vs, dets, k);
    var avg := AveragedDerivatives(invs, dets, s);
    assert forall i :: 0 <= i < 8 ==> avg[i][k] == ws[i] / Volume(dets);
    DivideOfBalanced(ws, Volume(dets));
  }

  /** Rigid-body property of B: with dx the solved derivatives at the point
      and dx_avg their determinant-weighted average over the Gauss points, a
      uniform translation of the element produces no strain in any of the
      six rows. */
  lemma RigidTranslationIsStrainFree(inv: seq<seq<real>>, invs: seq<seq<seq<real>>>, dets: seq<real>, s: real,
                                     xi: real, eta: real, zeta: real, t: seq<real>, r: nat)
    requires Is3x3(inv) && |invs| == 8 && (forall g :: 0 <= g < 8 ==> Is3x3(invs[g]))
    requires |dets| == 8 && Volume(dets) != 0.0 && |t| == 3 && r < 6
    ensures Dot(OperatorRow(SolvedDerivatives(inv, DerivativeMatrix(xi, eta, zeta)), AveragedDerivatives(invs, dets, s), r),
                RigidTranslation(t)) == 0.0
  {
    var dx, dxAvg := SolvedDerivatives(inv, DerivativeMatrix(xi, eta, zeta)), AveragedDerivatives(invs, dets, s);
    DerivativeMatrixBalanced(xi, eta, zeta);
    forall k | 0 <= k < 3
      ensures NodeSum(dx, k) == 0.0 && NodeSum(dxAvg, k) == 0.0
    {
      SolvedDerivativesBalance(inv, DerivativeMatrix(xi, eta, zeta), k);
      AveragedDerivativesBalance(invs, dets, s, k);
    }
    BalancedOperatorIgnoresTranslation(dx, dxAvg, t, r);
  }

  // ---------------------------------------------------------------------------
  // The element object
  // ---------------------------------------------------------------------------

  /** A mesh node: its label (or reduced index) and coordinates. */
  datatype Node = Node(nodeLabel: int, coordinates: seq<real>)

  /** The exception assigning column c of xe raises, if any: the column is
      the list of the nodes' c-th coordinates, so a node without one raises
      IndexError, and a list of neither 8 entries nor 1 (which broadcasts)
      does not fit the 8 rows (ValueError). */
  function ColumnError(nodes: seq<Node>, c: nat): Option<Error> {
    if exists n :: 0 <= n < |nodes| && |nodes[n].coordinates| <= c then Some(IndexError)
    else if |nodes| != 8 && |nodes| != 1 then Some(ValueError)
    else None
  }

  /** The exception C3D8(nodes) raises: that of the first of the three
      column assignments that fails. It succeeds exactly for 8 nodes, or 1,
      with three coordinates each; a wrong count is a ValueError unless a
      node has no coordinate at all. */
  function ConstructionError(nodes: seq<Node>): (e: Option<Error>)
    ensures e == None <==>
      (|nodes| == 8 || |nodes| == 1) && forall n :: 0 <= n < |nodes| ==> |nodes[n].coordinates| >= 3
    ensures e == Some(ValueError) <==>
      |nodes| != 8 && |nodes| != 1 && forall n :: 0 <= n < |nodes| ==> |nodes[n].coordinates| >= 1
    ensures e.Some? ==> e.value == ValueError || e.value == IndexError
  {
    if ColumnError(nodes, 0).Some? then ColumnError(nodes, 0)
    else if ColumnError(nodes, 1).Some? then ColumnError(nodes, 1)
    else ColumnError(nodes, 2)
  }

  class C3D8 {
    const xe: array2<real>
    var nodeLabels: seq<int>

    /** Copies the coordinates column by column into the 8x3 matrix xe (a
        single node is broadcast to all 8 rows) and records the node labels
        in node order. */
    constructor (nodes: seq<Node>)
      requires ConstructionError(nodes) == None
      ensures fresh(xe) && xe.Length0 == 8 && xe.Length1 == 3
      ensures forall n, c :: 0 <= n < 8 && 0 <= c < 3 ==>
        xe[n, c] == nodes[if |nodes| == 1 then 0 else n].coordinates[c]
      ensures |nodeLabels| == |nodes| && forall n :: 0 <= n < |nodes| ==> nodeLabels[n] == nodes[n].nodeLabel
    {
      var a := new real[8, 3]((_, _) => 0.0);
      var labels: seq<int> := [];
      for i := 0 to 3
        invariant forall n, c :: 0 <= n < 8 && 0 <= c < i ==> a[n, c] == nodes[if |nodes| == 1 then 0 else n].coordinates[c]
        invariant i > 0 ==> |labels| == |nodes| && forall n :: 0 <= n < |nodes| ==> labels[n] == nodes[n].nodeLabel
      {
        forall n | 0 <= n < 8 {
          a[n, i] := nodes[if |nodes| == 1 then 0 else n].coordinates[i];
        }
        labels := seq(|nodes|, n requires 0 <= n < |nodes| => nodes[n].nodeLabel);
      }
      xe := a;
      nodeLabels := labels;
    }

    /** C3D8(nodes) with the exception it raises: the object for a node list
        that builds, the first failing column's error otherwise. */
    static method Build(nodes: seq<Node>) returns (r: Result<C3D8>)
      ensures r.Err? <==> ConstructionError(nodes).Some?
      ensures r.Err? ==> r.error == ConstructionError(nodes).value
      ensures r.Ok? ==> fresh(r.value) && fresh(r.value.xe) && r.value.xe.Length0 == 8 && r.value.xe.Length1 == 3
      ensures r.Ok? ==> forall n, c :: 0 <= n < 8 && 0 <= c < 3 ==>
        r.value.xe[n, c] == nodes[if |nodes| == 1 then 0 else n].coordinates[c]
      ensures r.Ok? ==> (|r.value.nodeLabels| == |nodes| &&
        forall n :: 0 <= n < |nodes| ==> r.value.nodeLabels[n] == nodes[n].nodeLabel)
    {
      var e := ConstructionError(nodes);
      if e.Some? {
        return Err(e.value);
      }
      var element := new C3D8(nodes);
      r := Ok(element);
    }

    /** The 3x8 derivative matrix d at (ξ, η, ζ). */
    method D(xi: real, eta: real, zeta: real) returns (dm: array2<real>)
      ensures dm.Length0 == 3 && dm.Length1 == 8
      ensures forall r, i :: 0 <= r < 3 && 0 <= i < 8 ==> dm[r, i] == DerivativeEntry(r, i, xi, eta, zeta)
    {
      dm := new real[3, 8]((_, _) => 0.0);
      for i := 0 to 8
        invariant forall r, n :: 0 <= r < 3 && 0 <= n < i ==> dm[r, n] == DerivativeEntry(r, n, xi, eta, zeta)
      {
        var p0, p1, p2 := LocalNodalPos[i][0] as real, LocalNodalPos[i][1] as real, LocalNodalPos[i][2] as real;
        var d0 := (1.0 + eta * p1) * (1.0 + zeta * p2) * p0 / 8.0;
        var d1 := (1.0 + xi * p0) * (1.0 + zeta * p2) * p1 / 8.0;
        var d2 := (1.0 + xi * p0) * (1.0 + eta * p1) * p2 / 8.0;
        assert d0 == DerivativeEntry(0, i, xi, eta, zeta) && d1 == DerivativeEntry(1, i, xi, eta, zeta) &&
               d2 == DerivativeEntry(2, i, xi, eta, zeta);
        dm[0, i], dm[1, i], dm[2, i] := d0, d1, d2;
      }
    }

    /** The nodal coordinate matrix as rows. */
    function Coordinates(): (rows: seq<seq<real>>)
      reads this, xe
      requires xe.Length0 == 8 && xe.Length1 == 3
      ensures |rows| == 8 && IsMatrix(rows, 3)
    {
      seq(8, n requires 0 <= n < 8 reads this, xe => [xe[n, 0], xe[n, 1], xe[n, 2]])
    }

    /** J(ξ, η, ζ) = d(ξ, η, ζ) · xe. */
    function J(xi: real, eta: real, zeta: real): seq<seq<real>>
      reads this, xe
      requires xe.Length0 == 8 && xe.Length1 == 3
    {
      JacobianOf(Coordinates(), xi, eta, zeta)
    }

    /** B at one point: for each node i the averaged derivative dxAvg[i] is
        added with weight 1/3 to the three normal rows, then the point value
        dx[i] with weight 2/3 on the diagonal and -1/3 off it, then the shear
        rows. */
    method B(dx: seq<seq<real>>, dxAvg: seq<seq<real>>) returns (b: array2<real>)
      requires IsNodeDerivatives(dx) && IsNodeDerivatives(dxAvg)
      ensures b.Length0 == 6 && b.Length1 == 24
      ensures forall r, c :: 0 <= r < 6 && 0 <= c < 24 ==> b[r, c] == OperatorEntry(dx, dxAvg, r, c)
    {
      b := new real[6, 24]((_, _) => 0.0);
      for i := 0 to 8
        invariant forall r, c :: 0 <= r < 6 && 0 <= c < 24 ==>
          b[r, c] == if c < 3 * i then OperatorEntry(dx, dxAvg, r, c) else 0.0
      {
        AddAveragedShare(b, dxAvg, i);
        AddPointShare(b, dx, i);
        assert (3 * i) / 3 == i && (3 * i) % 3 == 0;
        assert (3 * i + 1) / 3 == i && (3 * i + 1) % 3 == 1;
        assert (3 * i + 2) / 3 == i && (3 * i + 2) % 3 == 2;
      }
    }
  }

  /** B[j, 3i + k] += dx_avg[k] / 3 for the three normal rows j. */
  method AddAveragedShare(b: array2<real>, dxAvg: seq<seq<real>>, i: nat)
    requires IsNodeDerivatives(dxAvg) && i < 8 && b.Length0 == 6 && b.Length1 == 24
    modifies b
    ensures forall r, c :: 0 <= r < 6 && 0 <= c < 24 ==>
      b[r, c] == old(b[r, c]) + if r < 3 && 3 * i <= c < 3 * i + 3 then dxAvg[i][c - 3 * i] / 3.0 else 0.0
  {
    forall j, c | 0 <= j < 3 && 3 * i <= c < 3 * i + 3 {
      b[j, c] := b[j, c] + dxAvg[i][c - 3 * i] / 3.0;
    }
  }

  /** The contribution of node i's point derivative: 2/3 on the diagonal and
      -1/3 off it in the normal rows, then the shear rows. */
  method AddPointShare(b: array2<real>, dx: seq<seq<real>>, i: nat)
    requires IsNodeDerivatives(dx) && i < 8 && b.Length0 == 6 && b.Length1 == 24
    modifies b
    ensures forall r, c :: 0 <= r < 6 && 0 <= c < 24 ==>
      b[r, c] == old(b[r, c]) + if 3 * i <= c < 3 * i + 3 then PointShare(dx, r, i, c - 3 * i) else 0.0
  {
    forall j, c | 0 <= j < 3 && 3 * i <= c < 3 * i + 3 {
      b[j, c] := b[j, c] + (if j == c - 3 * i then 2.0 * dx[i][j] / 3.0 else -dx[i][c - 3 * i] / 3.0);
    }
    b[3, 3 * i] := b[3, 3 * i] + dx[i][1];
    b[3, 3 * i + 1] := b[3, 3 * i + 1] + dx[i][0];
    b[4, 3 * i] := b[4, 3 * i] + dx[i][2];
    b[4, 3 * i + 2] := b[4, 3 * i + 2] + dx[i][0];
    b[5, 3 * i + 1] := b[5, 3 * i + 1] + dx[i][2];
    b[5, 3 * i + 2] := b[5, 3 * i + 2] + dx[i][1];
  }

  /** Node i's point-derivative share of B[r, 3i + k]. */
  function PointShare(dx: seq<seq<real>>, r: nat, i: nat, k: nat): real
    requires IsNodeDerivatives(dx) && r < 6 && i < 8 && k < 3
  {
    if r < 3 then (if r == k then 2.0 * dx[i][k] / 3.0 else -dx[i][k] / 3.0)
    else if r == 3 then (if k == 0 then dx[i][1] else if k == 1 then dx[i][0] else 0.0)
    else if r == 4 then (if k == 0 then dx[i][2] else if k == 2 then dx[i][0] else 0.0)
    else (if k == 1 then dx[i][2] else if k == 2 then dx[i][1] else 0.0)
  }
}
