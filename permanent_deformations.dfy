/**
  calculate_nodal_displacements_from_strains: the label-based prescribed DOFs
  and values, the element map, the strain-line loop that flattens the strain
  field and lays out the strain-displacement triplets, the interleaved FEM
  displacement vector, the de-interleaved FEM strain and the column split.

  Strain points come in blocks of 8 per element (one per Gauss point); each
  strain line (element, Gauss point, component) emits 24 triplets whose
  columns are the element's DOFs 3 (L - 1) + c.
 */
module PermanentDeformations {
  import opened Common
  import opened Elements
  import opened SparseMatrix
  import opened BoundaryConditions
  import DC = DeformationCalculation

  /** What the strain loop reads from a C3D8 object: the node labels in
      element order and B at the 8 Gauss points. */
  datatype HexElement = HexElement(nodeLabels: seq<int>, bAtGauss: seq<seq<seq<real>>>)

  predicate OperatorShaped(b: seq<seq<seq<real>>>) {
    |b| == 8 && forall g :: 0 <= g < 8 ==> |b[g]| == 6 && IsMatrix(b[g], 24)
  }

  predicate Shaped(e: HexElement) {
    |e.nodeLabels| == 8 && OperatorShaped(e.bAtGauss)
  }

  /** Every strain point's element is in the map, and every element is a
      well-shaped hexahedron. */
  predicate Covers(elementLabels: seq<int>, elements: map<int, HexElement>) {
    (forall k :: 0 <= k < |elementLabels| ==> elementLabels[k] in elements) &&
    (forall eLabel :: eLabel in elements ==> Shaped(elements[eLabel]))
  }

  lemma ElementAt(elementLabels: seq<int>, elements: map<int, HexElement>, k: nat)
    requires Covers(elementLabels, elements) && k < |elementLabels|
    ensures elementLabels[k] in elements && Shaped(elements[elementLabels[k]])
  {
    var eLabel := elementLabels[k];
    assert eLabel in elements;
    assert Shaped(elements[eLabel]);
  }

  /** The arrays the strain loop fills: triplet rows, columns and values, and
      the flattened strain ep. */
  datatype StrainLines = StrainLines(row: seq<int>, col: seq<int>, values: seq<real>, ep: seq<real>)

  /** Triplet t (below 1152 per complete element) lies in element t / 1152,
      whose labels sit at strain point 8 (t / 1152). */
  lemma TripletElement(t: nat, points: nat)
    requires t < 1152 * (points / 8)
    ensures t / 1152 < points / 8 && 8 * (t / 1152) < points
    ensures (t / 144) % 8 < 8 && (t / 24) % 6 < 6 && (t % 24) / 3 < 8
  {
  }

  /** Entry s (below 48 per complete element) of ep is strain point s / 6. */
  lemma StrainEntry(s: nat, points: nat)
    requires s < 48 * (points / 8)
    ensures s / 6 < points
  {
  }

  /** The strain loop's result: strain line l = 48 i + 6 j + comp (element i,
      Gauss point j) is ep[l] = strain[8 i + j][comp] and owns triplets
      [24 l, 24 l + 24) with row l, column 3 (L_k - 1) + c for slot 3 k + c
      and value B_j[comp][3 k + c]; entries past the last complete element
      stay 0. */
  function StrainLinesSpec(strain: seq<seq<real>>, elementLabels: seq<int>, elements: map<int, HexElement>): (s: StrainLines)
    requires IsMatrix(strain, 6) && |elementLabels| == |strain| && Covers(elementLabels, elements)
    ensures |s.row| == |s.col| == |s.values| == 144 * |strain| && |s.ep| == 6 * |strain|
  {
    var points := |strain|;
    var n := 1152 * (points / 8);
    StrainLines(
      seq(144 * points, t requires 0 <= t < 144 * points => if t < n then t / 24 else 0),
      seq(144 * points, t requires 0 <= t < 144 * points =>
        if t < n then
          TripletElement(t, points);
          ElementAt(elementLabels, elements, 8 * (t / 1152));
          3 * (elements[elementLabels[8 * (t / 1152)]].nodeLabels[(t % 24) / 3] - 1) + t % 3
        else 0),
      seq(144 * points, t requires 0 <= t < 144 * points =>
        if t < n then
          TripletElement(t, points);
          ElementAt(elementLabels, elements, 8 * (t / 1152));
          elements[elementLabels[8 * (t / 1152)]].bAtGauss[(t / 144) % 8][(t / 24) % 6][t % 24]
        else 0.0),
      seq(6 * points, s requires 0 <= s < 6 * points =>
        if s < 48 * (points / 8) then StrainEntry(s, points); strain[s / 6][s % 6] else 0.0))
  }

  /** ep[48 i + 6 j + c] = strain[8 i + j][c]. */
  lemma FlattenedStrainLayout(strain: seq<seq<real>>, elementLabels: seq<int>, elements: map<int, HexElement>,
                              i: nat, j: nat, c: nat)
    requires IsMatrix(strain, 6) && |elementLabels| == |strain| && Covers(elementLabels, elements)
    requires i < |strain| / 8 && j < 8 && c < 6
    ensures 48 * i + 6 * j + c < 6 * |strain| && 8 * i + j < |strain|
    ensures StrainLinesSpec(strain, elementLabels, elements).ep[48 * i + 6 * j + c] == strain[8 * i + j][c]
  {
    var s := 48 * i + 6 * j + c;
    assert s / 6 == 8 * i + j && s % 6 == c;
  }

  /** Triplet 24 l + 3 k + c of strain line l = 48 i + 6 j + comp: row l,
      column 3 (L_k - 1) + c of node k of element i, value B_j[comp][3 k + c]. */
  lemma TripletLayout(strain: seq<seq<real>>, elementLabels: seq<int>, elements: map<int, HexElement>,
                      i: nat, j: nat, comp: nat, k: nat, c: nat)
    requires IsMatrix(strain, 6) && |elementLabels| == |strain| && Covers(elementLabels, elements)
    requires i < |strain| / 8 && j < 8 && comp < 6 && k < 8 && c < 3
    ensures var l := 48 * i + 6 * j + comp;
      var t := 24 * l + 3 * k + c;
      var s := StrainLinesSpec(strain, elementLabels, elements);
      8 * i < |strain| && t < 144 * |strain| && elementLabels[8 * i] in elements &&
      var e := elements[elementLabels[8 * i]];
      Shaped(e) &&
      s.row[t] == l && s.col[t] == 3 * (e.nodeLabels[k] - 1) + c && s.values[t] == e.bAtGauss[j][comp][3 * k + c]
  {
    var l := 48 * i + 6 * j + comp;
    var t := 24 * l + 3 * k + c;
    ElementAt(elementLabels, elements, 8 * i);
    LinePosition(t, i, j, comp);
    assert t % 24 == 3 * k + c;
    assert (t % 24) / 3 == k && t % 3 == c;
  }

  lemma LinePosition(t: int, i: nat, j: nat, comp: nat)
    requires j < 8 && comp < 6
    requires 24 * (48 * i + 6 * j + comp) <= t < 24 * (48 * i + 6 * j + comp) + 24
    ensures t / 1152 == i && t / 24 == 48 * i + 6 * j + comp
    ensures t % 24 == t - 24 * (48 * i + 6 * j + comp) && t % 3 == (t % 24) % 3
    ensures (t / 144) % 8 == j && (t / 24) % 6 == comp
  {
    var l := 48 * i + 6 * j + comp;
    TripletSlot(t, l);
    ElementGaussPoint(t, i, j, 24 * comp + (t - 24 * l));
    LineComponent(l, 8 * i + j, comp);
  }

  /** Triplet t lies on line t / 24, in slot t % 24. */
  lemma TripletSlot(t: int, l: int)
    requires 24 * l <= t < 24 * l + 24
    ensures t / 24 == l && t % 24 == t - 24 * l && t % 3 == (t % 24) % 3
  {
    var r := t - 24 * l;
    assert t == 3 * (8 * l) + r;
  }

  /** Triplet t = 144 (8 i + j) + q, q < 144, belongs to element i, Gauss point j. */
  lemma ElementGaussPoint(t: int, i: nat, j: nat, q: int)
    requires j < 8 && 0 <= q < 144 && t == 144 * (8 * i + j) + q
    ensures t / 1152 == i && (t / 144) % 8 == j
  {
    assert t / 144 == 8 * i + j;
    assert t == 1152 * i + (144 * j + q) && 0 <= 144 * j + q < 1152;
  }

  lemma LineComponent(l: int, g: nat, comp: nat)
    requires comp < 6 && l == 6 * g + comp
    ensures l % 6 == comp
  {
  }

  /** displacement_comp of an element: slot 3 k + c holds 3 (L_k - 1) + c. */
  function ElementDofs(e: HexElement): (dofs: seq<int>)
    requires Shaped(e)
    ensures |dofs| == 24
  {
    seq(24, q requires 0 <= q < 24 => 3 * (e.nodeLabels[q / 3] - 1) + q % 3)
  }

  /** Strain line l = 48 i + 6 j + comp of the specification: its 24 triplets
      carry row l, the element's DOFs in slot order and row comp of B_j. */
  lemma LineOfSpec(strain: seq<seq<real>>, elementLabels: seq<int>, elements: map<int, HexElement>,
                   i: nat, j: nat, comp: nat)
    requires IsMatrix(strain, 6) && |elementLabels| == |strain| && Covers(elementLabels, elements)
    requires i < |strain| / 8 && j < 8 && comp < 6
    ensures 8 * i < |strain| && elementLabels[8 * i] in elements && Shaped(elements[elementLabels[8 * i]])
    ensures var l := 48 * i + 6 * j + comp;
      var s := StrainLinesSpec(strain, elementLabels, elements);
      var e := elements[elementLabels[8 * i]];
      24 * l + 24 <= 144 * |strain| &&
      forall t :: 24 * l <= t < 24 * l + 24 ==>
        s.row[t] == l && s.col[t] == ElementDofs(e)[t - 24 * l] && s.values[t] == e.bAtGauss[j][comp][t - 24 * l]
  {
    ElementAt(elementLabels, elements, 8 * i);
    var l := 48 * i + 6 * j + comp;
    var s := StrainLinesSpec(strain, elementLabels, elements);
    var e := elements[elementLabels[8 * i]];
    forall t | 24 * l <= t < 24 * l + 24
      ensures s.row[t] == l && s.col[t] == ElementDofs(e)[t - 24 * l] && s.values[t] == e.bAtGauss[j][comp][t - 24 * l]
    {
      LinePosition(t, i, j, comp);
    }
  }

  /** ep agrees with the specification below upto and is still 0 from there on. */
  predicate EpFilled(ep: array<real>, spec: StrainLines, upto: nat)
    reads ep
  {
    ep.Length == |spec.ep| &&
    forall m :: 0 <= m < ep.Length ==> ep[m] == if m < upto then spec.ep[m] else 0.0
  }

  /** ep[l] = strain[8 i + j, comp] for the next strain line l. */
  method WriteStrain(ep: array<real>, spec: StrainLines, strainLine: nat, value: real)
    requires EpFilled(ep, spec, strainLine) && strainLine < ep.Length && spec.ep[strainLine] == value
    modifies ep
    ensures EpFilled(ep, spec, strainLine + 1)
  {
    ep[strainLine] := value;
  }

  /** The triplet arrays agree with the specification below 24 * upto and are
      still 0 from there on. */
  predicate Filled(row: array<int>, col: array<int>, values: array<real>, spec: StrainLines, upto: nat)
    reads row, col, values
  {
    row.Length == col.Length == values.Length == |spec.row| == |spec.col| == |spec.values| &&
    forall t :: 0 <= t < row.Length ==>
      if t < 24 * upto then row[t] == spec.row[t] && col[t] == spec.col[t] && values[t] == spec.values[t]
      else row[t] == 0 && col[t] == 0 && values[t] == 0.0
  }

  /** row, col, values[24 l : 24 l + 24] = l, displacement_comp, B[comp, :]:
      when the specification's line l holds exactly these, one more line of
      the arrays agrees with it. */
  method WriteLine(row: array<int>, col: array<int>, values: array<real>, spec: StrainLines, strainLine: nat,
                   dofs: seq<int>, line: seq<real>)
    requires row != col && Filled(row, col, values, spec, strainLine) && 24 * strainLine + 24 <= row.Length
    requires |dofs| == 24 && |line| == 24
    requires forall t :: 24 * strainLine <= t < 24 * strainLine + 24 ==>
      spec.row[t] == strainLine && spec.col[t] == dofs[t - 24 * strainLine] && spec.values[t] == line[t - 24 * strainLine]
    modifies row, col, values
    ensures Filled(row, col, values, spec, strainLine + 1)
  {
    var start := 24 * strainLine;
    forall t | start <= t < start + 24 {
      col[t] := dofs[t - start];
    }
    forall t | start <= t < start + 24 {
      row[t] := strainLine;
    }
    forall t | start <= t < start + 24 {
      values[t] := line[t - start];
    }
  }

  /** The strain loop over complete elements (strain.shape[0] / 8 in
      Python 2), Gauss points and components with the running strain_line. */
  method AssembleStrainLines(strain: seq<seq<real>>, elementLabels: seq<int>, elements: map<int, HexElement>)
    returns (s: StrainLines)
    requires IsMatrix(strain, 6) && |elementLabels| == |strain| && Covers(elementLabels, elements)
    ensures s == StrainLinesSpec(strain, elementLabels, elements)
  {
    var points := |strain|;
    var spec := StrainLinesSpec(strain, elementLabels, elements);
    var row := new int[144 * points](_ => 0);
    var col := new int[144 * points](_ => 0);
    var values := new real[144 * points](_ => 0.0);
    var strainLine := 0;
    var ep := new real[6 * points](_ => 0.0);
    for i := 0 to points / 8
      invariant strainLine == 48 * i
      invariant Filled(row, col, values, spec, strainLine)
      invariant EpFilled(ep, spec, strainLine)
    {
      ElementAt(elementLabels, elements, 8 * i);
      var dofs := DisplacementComponents(elements[elementLabels[8 * i]]);
      strainLine := EmitElement(row, col, values, ep, strain, elementLabels, elements, spec, i, dofs, strainLine);
    }
    assert strainLine == 48 * (points / 8);
    FilledToEnd(row, col, values, ep, strain, elementLabels, elements, strainLine);
    s := StrainLines(row[..], col[..], values[..], ep[..]);
  }

  /** displacement_comp of an element: the three DOFs of each node. */
  method DisplacementComponents(element: HexElement) returns (dofs: seq<int>)
    requires Shaped(element)
    ensures dofs == ElementDofs(element)
  {
    var displacementComp := new int[24](_ => 0);
    for k := 0 to 8
      invariant forall q :: 0 <= q < 3 * k ==> displacementComp[q] == ElementDofs(element)[q]
    {
      displacementComp[3 * k] := 3 * (element.nodeLabels[k] - 1);
      displacementComp[3 * k + 1] := 3 * (element.nodeLabels[k] - 1) + 1;
      displacementComp[3 * k + 2] := 3 * (element.nodeLabels[k] - 1) + 2;
      assert (3 * k) / 3 == k && (3 * k + 1) / 3 == k && (3 * k + 2) / 3 == k;
    }
    dofs := displacementComp[..];
  }

  /** The Gauss-point loop of element i: eight times six strain lines. */
  method EmitElement(row: array<int>, col: array<int>, values: array<real>, ep: array<real>,
                     strain: seq<seq<real>>, elementLabels: seq<int>, elements: map<int, HexElement>,
                     spec: StrainLines, i: nat, dofs: seq<int>, strainLine0: nat) returns (strainLine: nat)
    requires IsMatrix(strain, 6) && |elementLabels| == |strain| && Covers(elementLabels, elements)
    requires spec == StrainLinesSpec(strain, elementLabels, elements)
    requires i < |strain| / 8 && 8 * i < |strain| && strainLine0 == 48 * i && row != col && values != ep
    requires Shaped(elements[elementLabels[8 * i]]) && dofs == ElementDofs(elements[elementLabels[8 * i]])
    requires Filled(row, col, values, spec, strainLine0) && EpFilled(ep, spec, strainLine0)
    modifies row, col, values, ep
    ensures strainLine == strainLine0 + 48
    ensures Filled(row, col, values, spec, strainLine) && EpFilled(ep, spec, strainLine)
  {
    strainLine := strainLine0;
    for j := 0 to 8
      invariant strainLine == 48 * i + 6 * j
      invariant Filled(row, col, values, spec, strainLine)
      invariant EpFilled(ep, spec, strainLine)
    {
      strainLine := EmitGaussPoint(row, col, values, ep, strain, elementLabels, elements, spec, i, j, dofs, strainLine);
    }
  }

  /** The component loop of Gauss point j of element i: six strain lines,
      each writing one ep entry and 24 triplets. */
  method EmitGaussPoint(row: array<int>, col: array<int>, values: array<real>, ep: array<real>,
                        strain: seq<seq<real>>, elementLabels: seq<int>, elements: map<int, HexElement>,
                        spec: StrainLines, i: nat, j: nat, dofs: seq<int>, strainLine0: nat) returns (strainLine: nat)
    requires IsMatrix(strain, 6) && |elementLabels| == |strain| && Covers(elementLabels, elements)
    requires spec == StrainLinesSpec(strain, elementLabels, elements)
    requires i < |strain| / 8 && 8 * i < |strain| && j < 8 && strainLine0 == 48 * i + 6 * j && row != col && values != ep
    requires Shaped(elements[elementLabels[8 * i]]) && dofs == ElementDofs(elements[elementLabels[8 * i]])
    requires Filled(row, col, values, spec, strainLine0) && EpFilled(ep, spec, strainLine0)
    modifies row, col, values, ep
    ensures strainLine == strainLine0 + 6
    ensures Filled(row, col, values, spec, strainLine) && EpFilled(ep, spec, strainLine)
  {
    strainLine := strainLine0;
    for comp := 0 to 6
      invariant strainLine == 48 * i + 6 * j + comp
      invariant Filled(row, col, values, spec, strainLine)
      invariant EpFilled(ep, spec, strainLine)
    {
      EmitStrainLine(row, col, values, ep, strain, elementLabels, elements, spec, i, j, comp, dofs);
      strainLine := strainLine + 1;
    }
  }

  /** Strain line l = 48 i + 6 j + comp: ep[l] and its 24 triplets. */
  method EmitStrainLine(row: array<int>, col: array<int>, values: array<real>, ep: array<real>,
                        strain: seq<seq<real>>, elementLabels: seq<int>, elements: map<int, HexElement>,
                        spec: StrainLines, i: nat, j: nat, comp: nat, dofs: seq<int>)
    requires IsMatrix(strain, 6) && |elementLabels| == |strain| && Covers(elementLabels, elements)
    requires spec == StrainLinesSpec(strain, elementLabels, elements)
    requires i < |strain| / 8 && 8 * i < |strain| && j < 8 && comp < 6 && row != col && values != ep
    requires Shaped(elements[elementLabels[8 * i]]) && dofs == ElementDofs(elements[elementLabels[8 * i]])
    requires Filled(row, col, values, spec, 48 * i + 6 * j + comp) && EpFilled(ep, spec, 48 * i + 6 * j + comp)
    modifies row, col, values, ep
    ensures Filled(row, col, values, spec, 48 * i + 6 * j + comp + 1)
    ensures EpFilled(ep, spec, 48 * i + 6 * j + comp + 1)
  {
    var strainLine := 48 * i + 6 * j + comp;
    FlattenedStrainLayout(strain, elementLabels, elements, i, j, comp);
    assert i * 8 * 6 + j * 6 + comp == strainLine && i * 8 + j == 8 * i + j;
    WriteStrain(ep, spec, i * 8 * 6 + j * 6 + comp, strain[i * 8 + j][comp]);
    LineOfSpec(strain, elementLabels, elements, i, j, comp);
    WriteLine(row, col, values, spec, strainLine, dofs, elements[elementLabels[8 * i]].bAtGauss[j][comp]);
  }

  /** After the last complete element the arrays are the specification. */
  lemma FilledToEnd(row: array<int>, col: array<int>, values: array<real>, ep: array<real>,
                    strain: seq<seq<real>>, elementLabels: seq<int>, elements: map<int, HexElement>, upto: nat)
    requires IsMatrix(strain, 6) && |elementLabels| == |strain| && Covers(elementLabels, elements)
    requires upto == 48 * (|strain| / 8)
    requires Filled(row, col, values, StrainLinesSpec(strain, elementLabels, elements), upto)
    requires EpFilled(ep, StrainLinesSpec(strain, elementLabels, elements), upto)
    ensures StrainLines(row[..], col[..], values[..], ep[..]) == StrainLinesSpec(strain, elementLabels, elements)
  {
    var spec := StrainLinesSpec(strain, elementLabels, elements);
    assert row[..] == spec.row;
    assert col[..] == spec.col;
    assert values[..] == spec.values;
    assert ep[..] == spec.ep;
  }

  /** u_fem[::3], u_fem[1::3], u_fem[2::3] = u[:, 0], u[:, 1], u[:, 2]. */
  method Interleave(u: seq<seq<real>>) returns (uFem: seq<real>)
    requires IsMatrix(u, 3)
    ensures uFem == Flatten(u)
  {
    var a := new real[3 * |u|](_ => 0.0);
    forall t | 0 <= t < 3 * |u| && t % 3 == 0 {
      a[t] := u[t / 3][0];
    }
    forall t | 0 <= t < 3 * |u| && t % 3 == 1 {
      a[t] := u[t / 3][1];
    }
    forall t | 0 <= t < 3 * |u| && t % 3 == 2 {
      a[t] := u[t / 3][2];
    }
    FlattenLength(u, 3);
    forall t | 0 <= t < 3 * |u|
      ensures a[t] == Flatten(u)[t]
    {
      FlattenAt(u, 3, t / 3, t % 3);
    }
    uFem := a[..];
  }

  /** fem_strain[:, i] = fem_strain_vec[i::6] for the six components. */
  method Deinterleave(vec: seq<real>, points: nat) returns (femStrain: seq<seq<real>>)
    requires |vec| == 6 * points
    ensures femStrain == Rows(vec, 6, points)
  {
    var fem := new real[points, 6]((_, _) => 0.0);
    for i := 0 to 6
      invariant forall r, c :: 0 <= r < points && 0 <= c < 6 ==> fem[r, c] == if c < i then vec[6 * r + c] else 0.0
    {
      forall r | 0 <= r < points {
        fem[r, i] := vec[6 * r + i];
      }
    }
    femStrain := seq(points, r requires 0 <= r < points reads fem => seq(6, c requires 0 <= c < 6 reads fem => fem[r, c]));
    var rows := Rows(vec, 6, points);
    forall r, c | 0 <= r < points && 0 <= c < 6
      ensures femStrain[r][c] == rows[r][c]
    {
      RowsAt(vec, 6, points, r, c);
    }
    assert forall r | 0 <= r < points :: femStrain[r] == rows[r];
  }

  // ---------------------------------------------------------------------------
  // calculate_nodal_displacements_from_strains up to the least-squares solve
  // ---------------------------------------------------------------------------

  /** No element of the instance has a single node (C3D8 would broadcast it
      to all 8 rows, leaving a singular Jacobian for the solve in B). */
  predicate NoSingleNodeElements(instance: Instance) {
    forall e :: e in instance.elements ==> |e.connectivity| != 1
  }

  /** B at the 8 Gauss points of every 8-node element has the shape 8 x 6 x 24. */
  ghost predicate OperatorsShaped(operatorAt: seq<Node> -> seq<seq<seq<real>>>) {
    forall nodes: seq<Node> :: |nodes| == 8 ==> OperatorShaped(operatorAt(nodes))
  }

  function NodeLabels(nodes: seq<Node>): (labels: seq<int>)
    ensures |labels| == |nodes| && forall k :: 0 <= k < |nodes| ==> labels[k] == nodes[k].nodeLabel
  {
    seq(|nodes|, k requires 0 <= k < |nodes| => nodes[k].nodeLabel)
  }

  /** elements[e_label] = C3D8(element_nodes) for the labels whose element and
      nodes resolve and form a C3D8: its node labels and B at the Gauss points. */
  function HexElements(elementLabels: seq<int>, instance: Instance, operatorAt: seq<Node> -> seq<seq<seq<real>>>)
    : map<int, HexElement>
  {
    map eLabel | eLabel in elementLabels && BuiltElement(eLabel, instance.elements, instance.nodes).Ok? ::
      HexElement(NodeLabels(BuiltElement(eLabel, instance.elements, instance.nodes).value),
                 operatorAt(BuiltElement(eLabel, instance.elements, instance.nodes).value))
  }

  /** An element C3D8 accepts, in a mesh without single-node elements, has 8 nodes. */
  lemma ElementNodesOfHex(eLabel: int, instance: Instance)
    requires NoSingleNodeElements(instance) && BuiltElement(eLabel, instance.elements, instance.nodes).Ok?
    ensures |BuiltElement(eLabel, instance.elements, instance.nodes).value| == 8
  {
    var e := PyIndex(instance.elements, eLabel - 1).value;
    assert e in instance.elements;
  }

  predicate AllElementsResolve(elementLabels: seq<int>, instance: Instance) {
    forall eLabel :: eLabel in elementLabels ==> BuiltElement(eLabel, instance.elements, instance.nodes).Ok?
  }

  lemma HexElementsCover(elementLabels: seq<int>, instance: Instance, operatorAt: seq<Node> -> seq<seq<seq<real>>>)
    requires NoSingleNodeElements(instance) && OperatorsShaped(operatorAt) && AllElementsResolve(elementLabels, instance)
    ensures Covers(elementLabels, HexElements(elementLabels, instance, operatorAt))
  {
    var hex := HexElements(elementLabels, instance, operatorAt);
    forall eLabel | eLabel in hex
      ensures Shaped(hex[eLabel])
    {
      ElementNodesOfHex(eLabel, instance);
    }
  }

  /** What the function has built when it reaches the solve: the nodal
      vector with the prescribed values, the prescribed DOFs and values, the
      operator, the flattened strain, the interleaved FEM displacements, the
      FEM strain and the column split. */
  datatype StrainSystem = StrainSystem(nodalDisplacements: seq<real>, bcDofs: seq<int>, bcVals: seq<real>,
                                       operator: Coo, ep: seq<real>, uFem: seq<real>, femStrain: seq<seq<real>>,
                                       bcCols: seq<int>, colsToKeep: seq<int>)

  /** The explicit value of a DOF, or 0 without one. */
  function ValueOrZero(v: Option<real>): real {
    if v.Some? then v.value else 0.0
  }

  /** np.zeros(n). */
  function Zeros(n: nat): (z: seq<real>)
    ensures |z| == n && forall i :: 0 <= i < n ==> z[i] == 0.0
  {
    seq(n, _ => 0.0)
  }

  /** The values written at the prescribed DOFs: the last explicit value, or 0. */
  function PrescribedValues(bcs: seq<BoundaryCondition>, bcDofs: seq<int>): (v: seq<real>)
    ensures |v| == |bcDofs|
  {
    seq(|bcDofs|, i requires 0 <= i < |bcDofs| => ValueOrZero(ExplicitValue(bcs, ByLabel, bcDofs[i])))
  }

  /** calculate_nodal_displacements_from_strains until line 110: the instance
      (the first one without a name), the prescribed DOFs and values written
      into a zero vector of length 3 * #nodes, the element map, the strain
      loop, the sparse operator of shape (6 * #points, 3 * #nodes), u_fem, the
      FEM strain B u_fem and the column split. The strain field, its element
      labels and the FEM displacements u are what the result file gives. */
  method BuildStrainSystem(root: RootAssembly, instanceName: Option<string>, bcs: seq<BoundaryCondition>,
                           strain: seq<seq<real>>, elementLabels: seq<int>,
                           operatorAt: seq<Node> -> seq<seq<seq<real>>>, u: seq<seq<real>>)
    returns (r: Result<StrainSystem>)
    requires ConsistentKeys(root) && (forall name :: name in root.instances ==> NoSingleNodeElements(root.instances[name]))
    requires IsMatrix(strain, 6) && |elementLabels| == |strain| && IsMatrix(u, 3) && OperatorsShaped(operatorAt)
    ensures FirstOrNamed(root, instanceName).Err? ==> r == Err(FirstOrNamed(root, instanceName).error)
    ensures (FirstOrNamed(root, instanceName).Ok? &&
      CollectSpec(bcs, Registry(root, FirstOrNamed(root, instanceName).value), ByLabel, ByLabel).Err?) ==>
        r == Err(CollectSpec(bcs, Registry(root, FirstOrNamed(root, instanceName).value), ByLabel, ByLabel).error)
    ensures r.Err? ==> r.error == IndexError || r.error == KeyError || r.error == ValueError
    // after the lookup and the BC loop: the prescribed DOFs and values, then the rest of the assembly
    ensures (FirstOrNamed(root, instanceName).Ok? &&
      CollectSpec(bcs, Registry(root, FirstOrNamed(root, instanceName).value), ByLabel, ByLabel).Ok?) ==>
      var instance := FirstOrNamed(root, instanceName).value;
      var bcDofs := Unique(CollectSpec(bcs, Registry(root, instance), ByLabel, ByLabel).value.0);
      AssemblyOutcome(r, instance, bcDofs, PrescribedValues(bcs, bcDofs), strain, elementLabels, operatorAt, u)
    ensures r.Ok? ==>
      FirstOrNamed(root, instanceName).Ok? &&
      var instance := FirstOrNamed(root, instanceName).value;
      var sys := r.value;
      CollectSpec(bcs, Registry(root, instance), ByLabel, ByLabel).Ok? &&
      // prescribed DOFs: the sorted distinct DOFs of all set nodes, with the last explicit value or 0
      sys.bcDofs == Unique(CollectSpec(bcs, Registry(root, instance), ByLabel, ByLabel).value.0) &&
      sys.bcVals == PrescribedValues(bcs, sys.bcDofs) &&
      (forall i :: 0 <= i < |sys.bcDofs| ==> sys.bcVals[i] == ValueOrZero(ExplicitValue(bcs, ByLabel, sys.bcDofs[i]))) &&
      AssembledSystem(sys, instance, strain, elementLabels, operatorAt, u)
  {
    var chosen := FirstOrNamed(root, instanceName);
    if chosen.Err? {
      return Err(chosen.error);
    }
    var instance := chosen.value;
    assert instance in root.instances.Values;
    var reg := Registry(root, instance);
    var collected := CollectDofs(bcs, reg, ByLabel, ByLabel);
    if collected.Err? {
      CollectErrorKinds(bcs, reg, ByLabel, ByLabel);
      return Err(collected.error);
    }
    var bcDofs := Unique(collected.value.0);
    var bcVals := DC.BoundaryValues(bcDofs, collected.value.1);
    forall i | 0 <= i < |bcDofs|
      ensures bcVals[i] == ValueOrZero(ExplicitValue(bcs, ByLabel, bcDofs[i]))
    {
      ExplicitValuesLastWins(bcs, reg, ByLabel, ByLabel, bcDofs[i]);
    }
    assert bcVals == PrescribedValues(bcs, bcDofs);
    r := AssembleStrainSystem(instance, bcDofs, bcVals, strain, elementLabels, operatorAt, u);
  }

  /** What lines 65-110 yield from the prescribed DOFs and values: the
      IndexError of nodal[bc_dofs] = bc_vals, then the exception of the first
      element that does not build, then ValueError exactly when coo_matrix
      rejects the triplets or u_fem does not match the nodal vector. */
  predicate AssemblyOutcome(r: Result<StrainSystem>, instance: Instance, bcDofs: seq<int>, bcVals: seq<real>,
                            strain: seq<seq<real>>, elementLabels: seq<int>,
                            operatorAt: seq<Node> -> seq<seq<seq<real>>>, u: seq<seq<real>>)
    requires |bcVals| == |bcDofs| && IsMatrix(strain, 6) && |elementLabels| == |strain|
  {
    var nDofs := 3 * |instance.nodes|;
    var written := FancyAssign(Zeros(nDofs), bcDofs, bcVals);
    var built := FirstBuildError(Unique(elementLabels), instance.elements, instance.nodes);
    (written.Err? ==> r == Err(IndexError)) &&
    (written.Ok? && built.Some? ==> r == Err(built.value)) &&
    (written.Ok? && built.None? ==>
      AllElementsResolve(elementLabels, instance) &&
      Covers(elementLabels, HexElements(elementLabels, instance, operatorAt)) &&
      var lines := StrainLinesSpec(strain, elementLabels, HexElements(elementLabels, instance, operatorAt));
      (r.Ok? <==> WellFormed(Coo(6 * |strain|, nDofs, lines.row, lines.col, lines.values)) && 3 * |u| == nDofs) &&
      (r.Err? ==> r.error == ValueError))
  }

  /** The system built after the prescribed DOFs: the written nodal vector,
      the operator and flattened strain of the strain loop, u_fem, the FEM
      strain and the column split. */
  predicate AssembledSystem(sys: StrainSystem, instance: Instance, strain: seq<seq<real>>, elementLabels: seq<int>,
                            operatorAt: seq<Node> -> seq<seq<seq<real>>>, u: seq<seq<real>>)
    requires IsMatrix(strain, 6) && |elementLabels| == |strain| && IsMatrix(u, 3)
  {
    var nDofs := 3 * |instance.nodes|;
    |sys.bcVals| == |sys.bcDofs| &&
    FancyAssign(Zeros(nDofs), sys.bcDofs, sys.bcVals) == Ok(sys.nodalDisplacements) &&
    // the operator and the flattened strain from the strain loop
    AllElementsResolve(elementLabels, instance) &&
    Covers(elementLabels, HexElements(elementLabels, instance, operatorAt)) &&
    var lines := StrainLinesSpec(strain, elementLabels, HexElements(elementLabels, instance, operatorAt));
    sys.operator == Coo(6 * |strain|, nDofs, lines.row, lines.col, lines.values) && WellFormed(sys.operator) &&
    sys.ep == lines.ep &&
    // FEM displacements and strain
    sys.uFem == Flatten(u) && |sys.uFem| == nDofs &&
    sys.femStrain == Rows(MatVec(sys.operator, sys.uFem), 6, |strain|) &&
    // column split
    sys.bcCols == IndicesWhere(nDofs, sys.bcDofs, true) && sys.colsToKeep == IndicesWhere(nDofs, sys.bcDofs, false)
  }

  /** Lines 65-110, from the prescribed DOFs and values on: the nodal vector,
      the element map, the strain loop, the sparse operator, u_fem, the FEM
      strain and the column split. */
  method AssembleStrainSystem(instance: Instance, bcDofs: seq<int>, bcVals: seq<real>,
                              strain: seq<seq<real>>, elementLabels: seq<int>,
                              operatorAt: seq<Node> -> seq<seq<seq<real>>>, u: seq<seq<real>>)
    returns (r: Result<StrainSystem>)
    requires NoSingleNodeElements(instance) && |bcVals| == |bcDofs|
    requires IsMatrix(strain, 6) && |elementLabels| == |strain| && IsMatrix(u, 3) && OperatorsShaped(operatorAt)
    ensures AssemblyOutcome(r, instance, bcDofs, bcVals, strain, elementLabels, operatorAt, u)
    ensures r.Err? ==> r.error == IndexError || r.error == ValueError
    ensures r.Ok? ==> (r.value.bcDofs == bcDofs && r.value.bcVals == bcVals &&
      AssembledSystem(r.value, instance, strain, elementLabels, operatorAt, u))
  {
    var nodal := Zeros(3 * |instance.nodes|);
    var prescribedNodal := FancyAssign(nodal, bcDofs, bcVals);
    if prescribedNodal.Err? {
      return Err(IndexError);
    }
    var nodesMap := BuildElementMap(elementLabels, instance.elements, instance.nodes);
    if nodesMap.Err? {
      return Err(nodesMap.error);
    }
    assert AllElementsResolve(elementLabels, instance);
    HexElementsCover(elementLabels, instance, operatorAt);
    r := AssembleOperator(instance, prescribedNodal.value, bcDofs, bcVals, nodesMap.value, strain, elementLabels,
                          operatorAt, u);
  }

  /** Lines 70-110 once the nodal vector and the element map exist: the strain
      loop, coo_matrix (ValueError when an index lies outside the shape),
      u_fem (ValueError when B u_fem does not match), the FEM strain and the
      column split. */
  method AssembleOperator(instance: Instance, nodal: seq<real>, bcDofs: seq<int>, bcVals: seq<real>,
                          byLabel: map<int, seq<Node>>, strain: seq<seq<real>>, elementLabels: seq<int>,
                          operatorAt: seq<Node> -> seq<seq<seq<real>>>, u: seq<seq<real>>)
    returns (r: Result<StrainSystem>)
    requires |bcVals| == |bcDofs| && IsMatrix(strain, 6) && |elementLabels| == |strain| && IsMatrix(u, 3)
    requires FancyAssign(Zeros(3 * |instance.nodes|), bcDofs, bcVals) == Ok(nodal)
    requires AllElementsResolve(elementLabels, instance)
    requires forall eLabel :: eLabel in byLabel <==> eLabel in elementLabels
    requires forall eLabel :: eLabel in byLabel ==> byLabel[eLabel] == BuiltElement(eLabel, instance.elements, instance.nodes).value
    requires Covers(elementLabels, HexElements(elementLabels, instance, operatorAt))
    ensures var lines := StrainLinesSpec(strain, elementLabels, HexElements(elementLabels, instance, operatorAt));
      r.Ok? <==> (WellFormed(Coo(6 * |strain|, 3 * |instance.nodes|, lines.row, lines.col, lines.values)) &&
        3 * |u| == 3 * |instance.nodes|)
    ensures r.Err? ==> r.error == ValueError
    ensures r.Ok? ==> (r.value.bcDofs == bcDofs && r.value.bcVals == bcVals &&
      AssembledSystem(r.value, instance, strain, elementLabels, operatorAt, u))
  {
    var hex := HexElementMap(instance, byLabel, elementLabels, operatorAt);
    var lines := AssembleStrainLines(strain, elementLabels, hex);
    assert |nodal| == 3 * |instance.nodes|;
    r := FinishSystem(nodal, bcDofs, bcVals, |strain|, lines, u);
  }

  /** The HexElement of every entry of the element map (lines 70-80). */
  method HexElementMap(instance: Instance, byLabel: map<int, seq<Node>>, elementLabels: seq<int>,
                       operatorAt: seq<Node> -> seq<seq<seq<real>>>)
    returns (hex: map<int, HexElement>)
    requires AllElementsResolve(elementLabels, instance)
    requires forall eLabel :: eLabel in byLabel <==> eLabel in elementLabels
    requires forall eLabel :: eLabel in byLabel ==> byLabel[eLabel] == BuiltElement(eLabel, instance.elements, instance.nodes).value
    ensures hex == HexElements(elementLabels, instance, operatorAt)
  {
    hex := map eLabel | eLabel in byLabel :: HexElement(NodeLabels(byLabel[eLabel]), operatorAt(byLabel[eLabel]));
    var spec := HexElements(elementLabels, instance, operatorAt);
    forall eLabel
      ensures eLabel in hex <==> eLabel in spec
    {
      if eLabel in elementLabels {
        assert BuiltElement(eLabel, instance.elements, instance.nodes).Ok?;
      }
    }
    forall eLabel | eLabel in hex
      ensures hex[eLabel] == spec[eLabel]
    {
      assert byLabel[eLabel] == BuiltElement(eLabel, instance.elements, instance.nodes).value;
    }
  }

  /** Lines 98-110 once the strain loop has run: coo_matrix (ValueError when
      an index lies outside the shape), u_fem (ValueError when B u_fem does
      not match), the FEM strain and the column split. */
  method FinishSystem(nodal: seq<real>, bcDofs: seq<int>, bcVals: seq<real>, points: nat, lines: StrainLines,
                      u: seq<seq<real>>)
    returns (r: Result<StrainSystem>)
    requires IsMatrix(u, 3)
    ensures r.Ok? <==> (WellFormed(Coo(6 * points, |nodal|, lines.row, lines.col, lines.values)) && 3 * |u| == |nodal|)
    ensures r.Err? ==> r.error == ValueError
    ensures r.Ok? ==> (var sys := r.value;
      sys.nodalDisplacements == nodal && sys.bcDofs == bcDofs && sys.bcVals == bcVals &&
      sys.operator == Coo(6 * points, |nodal|, lines.row, lines.col, lines.values) && WellFormed(sys.operator) &&
      sys.ep == lines.ep && sys.uFem == Flatten(u) && |sys.uFem| == |nodal| &&
      sys.femStrain == Rows(MatVec(sys.operator, sys.uFem), 6, points) &&
      sys.bcCols == IndicesWhere(|nodal|, bcDofs, true) && sys.colsToKeep == IndicesWhere(|nodal|, bcDofs, false))
  {
    var operator := MakeCoo(6 * points, |nodal|, lines.row, lines.col, lines.values);
    if operator.Err? {
      return Err(ValueError);
    }
    var uFem := Interleave(u);
    FlattenLength(u, 3);
    assert |uFem| == 3 * |u|;
    if |uFem| != |nodal| {
      return Err(ValueError);
    }
    var femStrain := Deinterleave(MatVec(operator.value, uFem), points);
    var bcCols := IndicesWhere(|nodal|, bcDofs, true);
    var colsToKeep := IndicesWhere(|nodal|, bcDofs, false);
    r := Ok(StrainSystem(nodal, bcDofs, bcVals, operator.value, lines.ep, uFem, femStrain, bcCols, colsToKeep));
  }
}
