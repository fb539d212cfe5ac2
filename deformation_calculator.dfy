/**
  Reconstruction of nodal displacements from a permanent-strain field: the
  per-element strain-displacement triplets, their merge into the global
  operator, the prescribed/free column split, and the least-squares step with
  its scatter, residual and reshape.

  Elements are 8-node hexahedra with 24 displacement DOFs and 48 strain
  lines (8 Gauss points times 6 components). The least-squares solver and the
  column norms are floating-point kernels: the solver is a function parameter
  and the scale factors a parameter.
 */
module DeformationCalculation {
  import opened Common
  import opened SparseMatrix

  /** What calculate_element_data reads from an element: the reduced node
      indices, B at each Gauss point (6x24 each) and the weight of each
      Gauss point. */
  datatype ElementInput = ElementInput(nodeLabels: seq<int>, bAtGauss: seq<seq<seq<real>>>, gpVolumes: seq<real>)

  predicate WellShaped(e: ElementInput) {
    |e.nodeLabels| == 8 && |e.bAtGauss| == 8 && |e.gpVolumes| == 8 &&
    forall g :: 0 <= g < 8 ==> |e.bAtGauss[g]| == 6 && IsMatrix(e.bAtGauss[g], 24)
  }

  /** The four arrays calculate_element_data returns. */
  datatype ElementData = ElementData(col: seq<int>, row: seq<int>, values: seq<real>, gpVolume: seq<real>)

  /** 24 DOFs times 48 strain lines triplets, 48 weights. */
  predicate BlockShaped(d: ElementData) {
    |d.col| == |d.row| == |d.values| == 1152 && |d.gpVolume| == 48
  }

  /** The global column of local DOF slot q: 3 * label + component. */
  function DofSlot(labels: seq<int>, q: nat): int
    requires |labels| == 8 && q < 24
  {
    3 * labels[q / 3] + q % 3
  }

  lemma DofSlotLayout(labels: seq<int>, k: nat, c: nat)
    requires |labels| == 8 && k < 8 && c < 3
    ensures DofSlot(labels, 3 * k + c) == 3 * labels[k] + c
  {
    assert (3 * k + c) / 3 == k && (3 * k + c) % 3 == c;
  }

  /** Triplet t of element idx belongs to strain line t / 24 (Gauss point
      t / 144, component (t / 24) % 6) and local DOF slot t % 24. */
  function ElementTriplets(e: ElementInput, idx: int): (d: ElementData)
    requires WellShaped(e)
    ensures BlockShaped(d)
  {
    ElementData(
      seq(1152, t requires 0 <= t < 1152 => DofSlot(e.nodeLabels, t % 24)),
      seq(1152, t requires 0 <= t < 1152 => t / 24 + idx * 48),
      seq(1152, t requires 0 <= t < 1152 => e.bAtGauss[t / 144][(t / 24) % 6][t % 24]),
      seq(48, s requires 0 <= s < 48 => e.gpVolumes[s / 6]))
  }

  /** Gauss point g, component comp, slot q: the triplet at 24 * (6g + comp) + q
      has column 3 * label + c of the slot's node, row 6g + comp + 48 * idx and
      value B_g[comp][q]. */
  lemma ElementTripletLayout(e: ElementInput, idx: int, g: nat, comp: nat, k: nat, c: nat)
    requires WellShaped(e) && g < 8 && comp < 6 && k < 8 && c < 3
    ensures var t := 24 * (6 * g + comp) + 3 * k + c;
      t < 1152 &&
      ElementTriplets(e, idx).col[t] == 3 * e.nodeLabels[k] + c &&
      ElementTriplets(e, idx).row[t] == 6 * g + comp + 48 * idx &&
      ElementTriplets(e, idx).values[t] == e.bAtGauss[g][comp][3 * k + c]
  {
    var t := 24 * (6 * g + comp) + 3 * k + c;
    assert t / 24 == 6 * g + comp && t % 24 == 3 * k + c;
    assert t / 144 == g && (t / 24) % 6 == comp;
    DofSlotLayout(e.nodeLabels, k, c);
  }

  /** Element idx's triplets all lie in rows [48 * idx, 48 * idx + 48), so the
      row blocks of different elements are disjoint and in element order. */
  lemma ElementRowBlock(e: ElementInput, idx: int, t: nat)
    requires WellShaped(e) && t < 1152
    ensures 48 * idx <= ElementTriplets(e, idx).row[t] < 48 * idx + 48
  {
  }

  /** Each Gauss point's weight fills its six strain components. */
  lemma GaussPointVolumeLayout(e: ElementInput, idx: int, j: nat, m: nat)
    requires WellShaped(e) && j < 8 && m < 6
    ensures ElementTriplets(e, idx).gpVolume[6 * j + m] == e.gpVolumes[j]
  {
    assert (6 * j + m) / 6 == j;
  }

  /** Position t on strain line 6j + comp of an element. */
  lemma LinePosition(t: int, j: nat, comp: nat)
    requires j < 8 && comp < 6 && 24 * (6 * j + comp) <= t < 24 * (6 * j + comp) + 24
    ensures t / 24 == 6 * j + comp && t % 24 == t - 24 * (6 * j + comp)
    ensures t / 144 == j && (t / 24) % 6 == comp
  {
  }

  /** The first `lines` strain lines of the triplet arrays agree with spec. */
  predicate LinesFilled(col: array<int>, row: array<int>, values: array<real>, spec: ElementData, lines: nat)
    reads col, row, values
  {
    BlockShaped(spec) && col.Length == row.Length == values.Length == 1152 && lines <= 48 &&
    forall t :: 0 <= t < 24 * lines ==> col[t] == spec.col[t] && row[t] == spec.row[t] && values[t] == spec.values[t]
  }

  /** One strain line: the 24 DOFs, the row index and row comp of B_j. */
  method FillStrainLine(col: array<int>, row: array<int>, values: array<real>, e: ElementInput, idx: int,
                        dofs: seq<int>, j: nat, comp: nat)
    requires WellShaped(e) && j < 8 && comp < 6 && col != row
    requires dofs == seq(24, q requires 0 <= q < 24 => DofSlot(e.nodeLabels, q))
    requires LinesFilled(col, row, values, ElementTriplets(e, idx), 6 * j + comp)
    modifies col, row, values
    ensures LinesFilled(col, row, values, ElementTriplets(e, idx), 6 * j + comp + 1)
  {
    var spec := ElementTriplets(e, idx);
    var strainLine := 6 * j + comp;
    var start := 24 * strainLine;
    var b := e.bAtGauss[j];
    forall t | start <= t < start + 24 {
      col[t] := dofs[t - start];
    }
    forall t | start <= t < start + 24 {
      row[t] := strainLine + idx * 48;
    }
    forall t | start <= t < start + 24 {
      values[t] := b[comp][t - start];
    }
    forall t | start <= t < start + 24
      ensures col[t] == spec.col[t] && row[t] == spec.row[t] && values[t] == spec.values[t]
    {
      LinePosition(t, j, comp);
    }
  }

  /** displacement_comp: the three DOFs of each node in node order. */
  method DisplacementComponents(labels: seq<int>) returns (dofs: seq<int>)
    requires |labels| == 8
    ensures dofs == seq(24, q requires 0 <= q < 24 => DofSlot(labels, q))
  {
    var displacementComp := new int[24](_ => 0);
    for k := 0 to 8
      invariant forall q :: 0 <= q < 3 * k ==> displacementComp[q] == DofSlot(labels, q)
    {
      displacementComp[3 * k] := 3 * labels[k];
      displacementComp[3 * k + 1] := 3 * labels[k] + 1;
      displacementComp[3 * k + 2] := 3 * labels[k] + 2;
      assert (3 * k) / 3 == k && (3 * k + 1) / 3 == k && (3 * k + 2) / 3 == k;
    }
    dofs := displacementComp[..];
  }

  /** calculate_element_data: DOF list first, then per Gauss point and
      component one strain line of 24 triplets, then the six weights. */
  method CalculateElementData(e: ElementInput, idx: int) returns (d: ElementData)
    requires WellShaped(e)
    ensures d == ElementTriplets(e, idx)
  {
    var spec := ElementTriplets(e, idx);
    var dofs := DisplacementComponents(e.nodeLabels);
    var col := new int[1152](_ => 0);
    var row := new int[1152](_ => 0);
    var values := new real[1152](_ => 0.0);
    var gpVolume := new real[48](_ => 0.0);
    for j := 0 to 8
      invariant LinesFilled(col, row, values, spec, 6 * j)
      invariant forall s :: 0 <= s < 6 * j ==> gpVolume[s] == spec.gpVolume[s]
    {
      for comp := 0 to 6
        invariant LinesFilled(col, row, values, spec, 6 * j + comp)
        invariant forall s :: 0 <= s < 6 * j ==> gpVolume[s] == spec.gpVolume[s]
      {
        FillStrainLine(col, row, values, e, idx, dofs, j, comp);
      }
      forall s | 6 * j <= s < 6 * j + 6 {
        gpVolume[s] := e.gpVolumes[j];
      }
      forall s | 6 * j <= s < 6 * j + 6
        ensures gpVolume[s] == spec.gpVolume[s]
      {
        assert s / 6 == j;
      }
    }
    assert col[..] == spec.col && row[..] == spec.row && values[..] == spec.values;
    d := ElementData(col[..], row[..], values[..], gpVolume[..]);
  }

  // ---------------------------------------------------------------------------
  // Merging the element blocks
  // ---------------------------------------------------------------------------

  /** The global triplet lists and Gauss-point weights. */
  datatype Assembly = Assembly(col: seq<int>, row: seq<int>, values: seq<real>, gaussPointVolumes: seq<real>)

  /** Element i's triplets at [1152 i, 1152 (i + 1)) and its weights at
      [48 i, 48 (i + 1)); everything beyond stays 0 (and a block that does not
      fit is cut off). */
  function MergedBlocks(blocks: seq<ElementData>, bComponents: nat, strainComponents: nat): (a: Assembly)
    requires forall i :: 0 <= i < |blocks| ==> BlockShaped(blocks[i])
    ensures |a.col| == |a.row| == |a.values| == bComponents && |a.gaussPointVolumes| == strainComponents
  {
    var n := 1152 * |blocks|;
    Assembly(
      seq(bComponents, t requires 0 <= t < bComponents =>
        if t < n then InBlock(blocks, t); blocks[t / 1152].col[t % 1152] else 0),
      seq(bComponents, t requires 0 <= t < bComponents =>
        if t < n then InBlock(blocks, t); blocks[t / 1152].row[t % 1152] else 0),
      seq(bComponents, t requires 0 <= t < bComponents =>
        if t < n then InBlock(blocks, t); blocks[t / 1152].values[t % 1152] else 0.0),
      seq(strainComponents, s requires 0 <= s < strainComponents =>
        if s < 48 * |blocks| then InWeights(blocks, s); blocks[s / 48].gpVolume[s % 48] else 0.0))
  }

  lemma MergedBlockLayout(blocks: seq<ElementData>, bComponents: nat, strainComponents: nat, i: nat, t: nat, s: nat)
    requires forall i :: 0 <= i < |blocks| ==> BlockShaped(blocks[i])
    requires 1152 * |blocks| <= bComponents && 48 * |blocks| <= strainComponents
    requires i < |blocks| && t < 1152 && s < 48
    ensures var a := MergedBlocks(blocks, bComponents, strainComponents);
      1152 * i + t < bComponents && 48 * i + s < strainComponents &&
      a.col[1152 * i + t] == blocks[i].col[t] && a.row[1152 * i + t] == blocks[i].row[t] &&
      a.values[1152 * i + t] == blocks[i].values[t] && a.gaussPointVolumes[48 * i + s] == blocks[i].gpVolume[s]
  {
    assert (1152 * i + t) / 1152 == i && (1152 * i + t) % 1152 == t;
    assert (48 * i + s) / 48 == i && (48 * i + s) % 48 == s;
  }

  lemma BlockPosition(t: int, i: nat, size: nat)
    requires size == 1152 || size == 48
    requires size * i <= t < size * i + size
    ensures t / size == i && t % size == t - size * i
  {
  }

  lemma InBlock(blocks: seq<ElementData>, t: nat)
    requires forall i :: 0 <= i < |blocks| ==> BlockShaped(blocks[i])
    requires t < 1152 * |blocks|
    ensures t / 1152 < |blocks| && BlockShaped(blocks[t / 1152]) && t % 1152 < 1152
  {
  }

  lemma InWeights(blocks: seq<ElementData>, s: nat)
    requires forall i :: 0 <= i < |blocks| ==> BlockShaped(blocks[i])
    requires s < 48 * |blocks|
    ensures s / 48 < |blocks| && BlockShaped(blocks[s / 48]) && s % 48 < 48
  {
  }

  /** The first i blocks are in place in the merged arrays, the rest is 0. */
  predicate MergedUpTo(col: array<int>, row: array<int>, values: array<real>, gpv: array<real>,
                       blocks: seq<ElementData>, i: nat)
    reads col, row, values, gpv
  {
    (forall b :: 0 <= b < |blocks| ==> BlockShaped(blocks[b])) && i <= |blocks| &&
    col.Length == row.Length == values.Length && 1152 * i <= col.Length && 48 * i <= gpv.Length &&
    var a := MergedBlocks(blocks, col.Length, gpv.Length);
    (forall t :: 0 <= t < col.Length ==>
      col[t] == (if t < 1152 * i then a.col[t] else 0) &&
      row[t] == (if t < 1152 * i then a.row[t] else 0) &&
      values[t] == (if t < 1152 * i then a.values[t] else 0.0)) &&
    (forall s :: 0 <= s < gpv.Length ==> gpv[s] == if s < 48 * i then a.gaussPointVolumes[s] else 0.0)
  }

  /** One slice write: block i into [1152 i, 1152 (i + 1)) and its weights into
      [48 i, 48 (i + 1)). */
  method CopyBlock(col: array<int>, row: array<int>, values: array<real>, gpv: array<real>,
                   blocks: seq<ElementData>, i: nat)
    requires col != row && values != gpv && i < |blocks|
    requires MergedUpTo(col, row, values, gpv, blocks, i)
    requires 1152 * (i + 1) <= col.Length && 48 * (i + 1) <= gpv.Length
    modifies col, row, values, gpv
    ensures MergedUpTo(col, row, values, gpv, blocks, i + 1)
  {
    ghost var a := MergedBlocks(blocks, col.Length, gpv.Length);
    var start := 1152 * i;
    forall t | start <= t < start + 1152 {
      col[t] := blocks[i].col[t - start];
    }
    forall t | start <= t < start + 1152 {
      row[t] := blocks[i].row[t - start];
    }
    forall t | start <= t < start + 1152 {
      values[t] := blocks[i].values[t - start];
    }
    forall s | 48 * i <= s < 48 * i + 48 {
      gpv[s] := blocks[i].gpVolume[s - 48 * i];
    }
    forall t | start <= t < start + 1152
      ensures col[t] == a.col[t] && row[t] == a.row[t] && values[t] == a.values[t]
    {
      BlockPosition(t, i, 1152);
    }
    forall s | 48 * i <= s < 48 * i + 48
      ensures gpv[s] == a.gaussPointVolumes[s]
    {
      BlockPosition(s, i, 48);
    }
  }

  /** The merge loop of the constructor: a slice write per element into arrays
      of the given sizes. A slice that does not fit raises ValueError. */
  method MergeElementData(blocks: seq<ElementData>, bComponents: nat, strainComponents: nat) returns (r: Result<Assembly>)
    requires forall i :: 0 <= i < |blocks| ==> BlockShaped(blocks[i])
    ensures r.Err? <==> bComponents < 1152 * |blocks| || strainComponents < 48 * |blocks|
    ensures r.Err? ==> r.error == ValueError
    ensures r.Ok? ==> r.value == MergedBlocks(blocks, bComponents, strainComponents)
  {
    var col := new int[bComponents](_ => 0);
    var row := new int[bComponents](_ => 0);
    var values := new real[bComponents](_ => 0.0);
    var gpv := new real[strainComponents](_ => 0.0);
    for i := 0 to |blocks|
      invariant MergedUpTo(col, row, values, gpv, blocks, i)
    {
      if 1152 * (i + 1) > bComponents || 48 * (i + 1) > strainComponents {
        return Err(ValueError);
      }
      CopyBlock(col, row, values, gpv, blocks, i);
    }
    ghost var a := MergedBlocks(blocks, bComponents, strainComponents);
    assert col[..] == a.col && row[..] == a.row && values[..] == a.values && gpv[..] == a.gaussPointVolumes;
    r := Ok(Assembly(col[..], row[..], values[..], gpv[..]));
  }

  // ---------------------------------------------------------------------------
  // Prescribed values
  // ---------------------------------------------------------------------------

  /** dict.get(key, default). */
  function Get(m: map<int, real>, key: int, default: real): real {
    if key in m then m[key] else default
  }

  /** bc_vals[i] = bc_vals_dict.get(bc_dofs[i], 0.). */
  method BoundaryValues(bcDofs: seq<int>, bcValsDict: map<int, real>) returns (bcVals: seq<real>)
    ensures |bcVals| == |bcDofs|
    ensures forall i :: 0 <= i < |bcDofs| ==>
      bcVals[i] == (if bcDofs[i] in bcValsDict then bcValsDict[bcDofs[i]] else 0.0)
  {
    var a := new real[|bcDofs|](_ => 0.0);
    for i := 0 to |bcDofs|
      invariant forall k :: 0 <= k < i ==> a[k] == Get(bcValsDict, bcDofs[k], 0.0)
    {
      a[i] := Get(bcValsDict, bcDofs[i], 0.0);
    }
    bcVals := a[..];
  }

  /** The merged operator of elements whose node indices address the nodal
      vector is well formed: every row is below 48 * #elements and every
      column below the nodal length. */
  lemma AssembledOperatorWellFormed(elements: seq<ElementInput>, blocks: seq<ElementData>, nDofs: nat)
    requires |blocks| == |elements|
    requires forall i :: 0 <= i < |blocks| ==> BlockShaped(blocks[i])
    requires forall i :: 0 <= i < |elements| ==> WellShaped(elements[i]) && blocks[i] == ElementTriplets(elements[i], i)
    requires forall i :: 0 <= i < |elements| ==>
      |elements[i].nodeLabels| == 8 &&
      forall k :: 0 <= k < 8 ==> 0 <= elements[i].nodeLabels[k] && 3 * elements[i].nodeLabels[k] + 2 < nDofs
    ensures var a := MergedBlocks(blocks, 1152 * |blocks|, 48 * |blocks|);
      WellFormed(Coo(48 * |blocks|, nDofs, a.row, a.col, a.values))
  {
    var a := MergedBlocks(blocks, 1152 * |blocks|, 48 * |blocks|);
    forall t | 0 <= t < 1152 * |blocks|
      ensures 0 <= a.row[t] < 48 * |blocks| && 0 <= a.col[t] < nDofs
    {
      var i, u := t / 1152, t % 1152;
      ElementRowBlock(elements[i], i, u);
      assert 0 <= u % 24 / 3 < 8;
    }
  }

  predicate InRange(cols: seq<int>, n: nat) {
    forall k :: 0 <= k < |cols| ==> 0 <= cols[k] < n
  }

  lemma PartitionInRange(n: nat, dofs: seq<int>)
    ensures InRange(IndicesWhere(n, dofs, true), n) && InRange(IndicesWhere(n, dofs, false), n)
  {
    var bc, keep := IndicesWhere(n, dofs, true), IndicesWhere(n, dofs, false);
    assert forall k :: 0 <= k < |bc| ==> bc[k] in bc;
    assert forall k :: 0 <= k < |keep| ==> keep[k] in keep;
  }

  /** With the prescribed entries of x at their values and the free entries at
      y / s, the residual of the full system equals the residual of the
      reduced, column-scaled system at y. */
  lemma ReducedResidual(b: Coo, x: seq<real>, dofs: seq<int>, bcVals: seq<real>, s: seq<real>, y: seq<real>, w: seq<real>)
    requires WellFormed(b) && |x| == b.nCols && |w| == b.nRows
    requires |bcVals| == |IndicesWhere(|x|, dofs, true)|
    requires |s| == |y| == |IndicesWhere(|x|, dofs, false)| && NonZero(s)
    requires forall k :: 0 <= k < |bcVals| ==> 0 <= IndicesWhere(|x|, dofs, true)[k] < |x| && x[IndicesWhere(|x|, dofs, true)[k]] == bcVals[k]
    requires forall j :: 0 <= j < |y| ==> 0 <= IndicesWhere(|x|, dofs, false)[j] < |x| && x[IndicesWhere(|x|, dofs, false)[j]] == y[j] / s[j]
    ensures Subtract(w, MatVec(b, x))
      == Subtract(Subtract(w, MatVec(SelectColumns(b, IndicesWhere(|x|, dofs, true)), bcVals)),
                  MatVec(ScaleColumns(SelectColumns(b, IndicesWhere(|x|, dofs, false)), s), y))
  {
    var bc, keep := IndicesWhere(|x|, dofs, true), IndicesWhere(|x|, dofs, false);
    ColumnSplit(b, x, dofs);
    assert Gather(x, bc) == bcVals;
    assert Gather(x, keep) == Divide(y, s);
    MatVecScaleColumns(SelectColumns(b, keep), s, y);
    var p, q := MatVec(SelectColumns(b, bc), bcVals), MatVec(SelectColumns(b, keep), Divide(y, s));
    assert MatVec(b, x) == Add(p, q);
    var lhs, rhs := Subtract(w, Add(p, q)), Subtract(Subtract(w, p), q);
    assert forall i :: 0 <= i < |lhs| ==> lhs[i] == rhs[i];
  }

  // ---------------------------------------------------------------------------
  // The calculator object
  // ---------------------------------------------------------------------------

  class DeformationCalculator {
    const nodalDisplacements: array<real>
    const bcDofs: seq<int>
    const bcVals: seq<real>
    /** B after scaling row r by the weight of strain line r. */
    const bMatrix: Coo
    const gaussPointVolumes: seq<real>
    const bcCols: seq<int>
    const colsToKeep: seq<int>
    const scaleFactors: seq<real>
    /** B[:, colsToKeep] with column j divided by scaleFactors[j]. */
    const bRed: Coo

    /** The partition, the reduced operator and the prescribed nodal entries
        agree with the stored data. */
    predicate Valid()
      reads this, nodalDisplacements
    {
      WellFormed(bMatrix) && bMatrix.nCols == nodalDisplacements.Length &&
      |gaussPointVolumes| == bMatrix.nRows && NonZero(gaussPointVolumes) &&
      StrictlySorted(bcDofs) && (forall k :: 0 <= k < |bcDofs| ==> 0 <= bcDofs[k] < nodalDisplacements.Length) &&
      |bcVals| == |bcDofs| &&
      bcCols == IndicesWhere(nodalDisplacements.Length, bcDofs, true) &&
      colsToKeep == IndicesWhere(nodalDisplacements.Length, bcDofs, false) &&
      InRange(bcCols, nodalDisplacements.Length) && InRange(colsToKeep, nodalDisplacements.Length) &&
      |scaleFactors| == |colsToKeep| && NonZero(scaleFactors) &&
      bRed == ScaleColumns(SelectColumns(bMatrix, colsToKeep), scaleFactors) &&
      forall k :: 0 <= k < |bcDofs| ==> nodalDisplacements[bcDofs[k]] == bcVals[k]
    }

    /** Stores the data and writes the prescribed values into the nodal vector. */
    constructor (nodal: seq<real>, bcDofs: seq<int>, bcVals: seq<real>, bMatrix: Coo,
                 gaussPointVolumes: seq<real>, scaleFactors: seq<real>)
      requires WellFormed(bMatrix) && bMatrix.nCols == |nodal|
      requires |gaussPointVolumes| == bMatrix.nRows && NonZero(gaussPointVolumes)
      requires StrictlySorted(bcDofs) && forall k :: 0 <= k < |bcDofs| ==> 0 <= bcDofs[k] < |nodal|
      requires |bcVals| == |bcDofs|
      requires |scaleFactors| == |IndicesWhere(|nodal|, bcDofs, false)| && NonZero(scaleFactors)
      ensures Valid() && fresh(nodalDisplacements)
      ensures this.bcDofs == bcDofs && this.bcVals == bcVals && this.bMatrix == bMatrix
      ensures this.gaussPointVolumes == gaussPointVolumes && this.scaleFactors == scaleFactors
      ensures nodalDisplacements.Length == |nodal|
      ensures forall i :: 0 <= i < |nodal| && i !in bcDofs ==> nodalDisplacements[i] == nodal[i]
    {
      var a := new real[|nodal|](i requires 0 <= i < |nodal| => nodal[i]);
      forall k | 0 <= k < |bcDofs| {
        a[bcDofs[k]] := bcVals[k];
      }
      nodalDisplacements := a;
      this.bcDofs := bcDofs;
      this.bcVals := bcVals;
      this.bMatrix := bMatrix;
      this.gaussPointVolumes := gaussPointVolumes;
      bcCols := IndicesWhere(|nodal|, bcDofs, true);
      colsToKeep := IndicesWhere(|nodal|, bcDofs, false);
      this.scaleFactors := scaleFactors;
      bRed := ScaleColumns(SelectColumns(bMatrix, IndicesWhere(|nodal|, bcDofs, false)), scaleFactors);
      PartitionInRange(|nodal|, bcDofs);
    }

    /** The right-hand side of the reduced problem: weighted strain minus the
        prescribed columns applied to the prescribed values. */
    function ReducedRhs(weighted: seq<real>): (rhs: seq<real>)
      reads this, nodalDisplacements
      requires Valid() && |weighted| == |gaussPointVolumes|
      ensures |rhs| == |weighted|
    {
      PrescribedColumnsAreDofs(nodalDisplacements.Length, bcDofs);
      Subtract(weighted, MatVec(SelectColumns(bMatrix, bcCols), bcVals))
    }

    /** nodal_displacements[cols_to_keep] = the solved free entries; the
        prescribed entries keep their values. */
    method WriteFree(solved: seq<real>)
      requires Valid() && |solved| == |colsToKeep|
      modifies nodalDisplacements
      ensures Valid()
      ensures forall j :: 0 <= j < |colsToKeep| ==> nodalDisplacements[colsToKeep[j]] == solved[j]
      ensures forall k :: 0 <= k < |bcCols| ==> nodalDisplacements[bcCols[k]] == old(nodalDisplacements[bcCols[k]])
    {
      assert forall j :: 0 <= j < |colsToKeep| ==> colsToKeep[j] in colsToKeep;
      forall j | 0 <= j < |colsToKeep| {
        nodalDisplacements[colsToKeep[j]] := solved[j];
      }
      assert forall k :: 0 <= k < |bcDofs| ==> bcDofs[k] in bcDofs;
      assert forall k :: 0 <= k < |bcCols| ==> bcCols[k] in bcCols;
    }

    /** calculate_deformations: weight the flattened strain, solve the
        reduced problem, undo the column scaling, write the free entries,
        compute the residual per strain line and reshape both. It fails with
        ValueError exactly when the strain does not match the weights, the
        solver's answer does not match the free columns, or a reshape does
        not divide evenly. */
    method CalculateDeformations(strain: seq<seq<real>>, lsqr: (Coo, seq<real>) -> seq<real>)
      returns (r: Result<(seq<seq<real>>, seq<seq<real>>)>)
      requires Valid()
      modifies nodalDisplacements
      ensures Valid()
      ensures |Flatten(strain)| != |gaussPointVolumes| ==> r == Err(ValueError) && unchanged(nodalDisplacements)
      ensures r.Ok? <==> (|Flatten(strain)| == |gaussPointVolumes| &&
        |lsqr(bRed, ReducedRhs(Multiply(Flatten(strain), gaussPointVolumes)))| == |colsToKeep| &&
        nodalDisplacements.Length % 3 == 0 && |gaussPointVolumes| % 6 == 0)
      ensures r.Err? ==> r.error == ValueError
      ensures r.Ok? ==>
        var weighted := Multiply(Flatten(strain), gaussPointVolumes);
        var y := lsqr(bRed, ReducedRhs(weighted));
        var n := nodalDisplacements.Length;
        |y| == |colsToKeep| &&
        (forall j :: 0 <= j < |colsToKeep| ==> nodalDisplacements[colsToKeep[j]] == y[j] / scaleFactors[j]) &&
        n % 3 == 0 && |gaussPointVolumes| % 6 == 0 &&
        r.value.0 == Rows(nodalDisplacements[..], 3, n / 3) &&
        IsMatrix(r.value.1, 6) && 6 * |r.value.1| == |gaussPointVolumes| &&
        Flatten(r.value.1) == Divide(Subtract(weighted, MatVec(bMatrix, nodalDisplacements[..])), gaussPointVolumes) &&
        Flatten(r.value.1) == Divide(Subtract(ReducedRhs(weighted), MatVec(bRed, y)), gaussPointVolumes)
      ensures forall k :: 0 <= k < |bcCols| ==> nodalDisplacements[bcCols[k]] == old(nodalDisplacements[bcCols[k]])
    {
      var flat := Flatten(strain);
      if |flat| != |gaussPointVolumes| {
        return Err(ValueError);
      }
      var weighted := Multiply(flat, gaussPointVolumes);
      var rhs := ReducedRhs(weighted);
      var y := lsqr(bRed, rhs);
      if |y| != |colsToKeep| {
        return Err(ValueError);
      }
      WriteFree(Divide(y, scaleFactors));
      var n := nodalDisplacements.Length;
      var x := nodalDisplacements[..];
      var error := Divide(Subtract(weighted, MatVec(bMatrix, x)), gaussPointVolumes);
      PrescribedColumnsAreDofs(n, bcDofs);
      ReducedResidual(bMatrix, x, bcDofs, bcVals, scaleFactors, y, weighted);
      if n % 3 != 0 {
        return Err(ValueError);
      }
      if |error| % 6 != 0 {
        return Err(ValueError);
      }
      var rows := Rows(x, 3, n / 3);
      var errorRows := Rows(error, 6, |error| / 6);
      FlattenOfRows(error, 6, |error| / 6);
      r := Ok((rows, errorRows));
    }
  }

  /** The element triplets in job order. */
  function ElementBlocks(elements: seq<ElementInput>): (blocks: seq<ElementData>)
    requires forall i :: 0 <= i < |elements| ==> WellShaped(elements[i])
    ensures |blocks| == |elements|
    ensures forall i :: 0 <= i < |elements| ==> blocks[i] == ElementTriplets(elements[i], i) && BlockShaped(blocks[i])
  {
    seq(|elements|, i requires 0 <= i < |elements| => ElementTriplets(elements[i], i))
  }

  /** The unweighted operator the merged element triplets describe, of shape
      (48 * #elements, nDofs). */
  function AssembledCoo(elements: seq<ElementInput>, nDofs: nat): Coo
    requires forall i :: 0 <= i < |elements| ==> WellShaped(elements[i])
  {
    var a := MergedBlocks(ElementBlocks(elements), 1152 * |elements|, 48 * |elements|);
    Coo(48 * |elements|, nDofs, a.row, a.col, a.values)
  }

  /** The merged Gauss-point weights, one per strain line. */
  function AssembledVolumes(elements: seq<ElementInput>): seq<real>
    requires forall i :: 0 <= i < |elements| ==> WellShaped(elements[i])
  {
    MergedBlocks(ElementBlocks(elements), 1152 * |elements|, 48 * |elements|).gaussPointVolumes
  }

  /** Every node index of every element addresses the three DOFs of a node
      inside the nodal vector. */
  predicate NodesInRange(elements: seq<ElementInput>, nDofs: nat) {
    forall i :: 0 <= i < |elements| ==>
      |elements[i].nodeLabels| == 8 &&
      forall k :: 0 <= k < 8 ==> 0 <= elements[i].nodeLabels[k] && 3 * elements[i].nodeLabels[k] + 2 < nDofs
  }

  /** The constructor as a whole: element triplets in job order, prescribed
      values, the nodal write (IndexError for a DOF beyond the nodal vector),
      the merge, the operator (ValueError for an index outside its shape), the
      row weighting, the partition and the column scaling. The sizes the
      pickle does not carry are the element-derived ones: 1152 triplets and
      48 strain lines per element and one column per nodal entry. The
      calculator is built exactly when the prescribed DOFs address the nodal
      vector and the merged triplets fit the operator's shape, which holds
      whenever every element's nodes are in range. */
  method NewDeformationCalculator(nodal: seq<real>, bcDofs: seq<int>, bcValsDict: map<int, real>,
                                  elements: seq<ElementInput>, scaleFactors: seq<real>)
    returns (r: Result<DeformationCalculator>)
    requires StrictlySorted(bcDofs) && forall k :: 0 <= k < |bcDofs| ==> 0 <= bcDofs[k]
    requires forall i :: 0 <= i < |elements| ==> WellShaped(elements[i]) && NonZero(elements[i].gpVolumes)
    requires |scaleFactors| == |IndicesWhere(|nodal|, bcDofs, false)| && NonZero(scaleFactors)
    ensures r.Ok? <==> ((forall k :: 0 <= k < |bcDofs| ==> bcDofs[k] < |nodal|) && WellFormed(AssembledCoo(elements, |nodal|)))
    ensures (exists k :: 0 <= k < |bcDofs| && bcDofs[k] >= |nodal|) ==> r == Err(IndexError)
    ensures r.Err? ==> r.error == IndexError || r.error == ValueError
    ensures (forall k :: 0 <= k < |bcDofs| ==> bcDofs[k] < |nodal|) && NodesInRange(elements, |nodal|) ==> r.Ok?
    ensures r.Ok? ==> fresh(r.value.nodalDisplacements) && r.value.Valid()
    ensures r.Ok? ==> (r.value.bcDofs == bcDofs && r.value.scaleFactors == scaleFactors &&
      WellFormed(AssembledCoo(elements, |nodal|)) &&
      r.value.bMatrix == ScaleRows(AssembledCoo(elements, |nodal|), AssembledVolumes(elements)) &&
      r.value.gaussPointVolumes == AssembledVolumes(elements) &&
      r.value.bMatrix.nRows == 48 * |elements| && r.value.bMatrix.nCols == |nodal| &&
      forall i :: 0 <= i < |bcDofs| ==> r.value.bcVals[i] == Get(bcValsDict, bcDofs[i], 0.0))
    ensures r.Ok? ==> (r.value.nodalDisplacements.Length == |nodal| &&
      forall i :: 0 <= i < |nodal| && i !in bcDofs ==> r.value.nodalDisplacements[i] == nodal[i])
  {
    var bcVals := BoundaryValues(bcDofs, bcValsDict);
    if exists k :: 0 <= k < |bcDofs| && bcDofs[k] >= |nodal| {
      return Err(IndexError);
    }
    var blocks: seq<ElementData> := [];
    for i := 0 to |elements|
      invariant |blocks| == i
      invariant forall k :: 0 <= k < i ==> blocks[k] == ElementTriplets(elements[k], k)
    {
      var d := CalculateElementData(elements[i], i);
      blocks := blocks + [d];
    }
    assert blocks == ElementBlocks(elements);
    var merged := MergeElementData(blocks, 1152 * |blocks|, 48 * |blocks|);
    assert merged.Ok?;
    var a := merged.value;
    if NodesInRange(elements, |nodal|) {
      AssembledOperatorWellFormed(elements, blocks, |nodal|);
    }
    var coo := MakeCoo(48 * |blocks|, |nodal|, a.row, a.col, a.values);
    if coo.Err? {
      return Err(coo.error);
    }
    forall s | 0 <= s < 48 * |blocks|
      ensures a.gaussPointVolumes[s] != 0.0
    {
      assert a.gaussPointVolumes[s] == blocks[s / 48].gpVolume[s % 48];
      assert (s % 48) / 6 < 8;
    }
    var b := ScaleRows(coo.value, a.gaussPointVolumes);
    var calculator := new DeformationCalculator(nodal, bcDofs, bcVals, b, a.gaussPointVolumes, scaleFactors);
    r := Ok(calculator);
  }
}
