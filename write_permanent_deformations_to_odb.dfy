/**
  write_permanent_deformations_to_odb.py: the reduced solution vector up_red
  (free DOFs only) is scattered back into a full nodal vector whose prescribed
  DOFs stay 0, and the rows of the nodes of the last boundary set are written
  as the field UP of every result step and every ballast instance.

  The result database is replaced by its contents: the instance and step
  keys, the assembly's surfaces and node sets (each with its instance list and
  one node list per instance), and per instance its node count and the node
  labels of the displacement field read on the set BALLAST. The pickled
  up_red is a parameter, and the field writes are returned in order.
 */
module WritePermanentDeformationsToOdb {
  import opened Common
  import opened BoundaryConditions
  import opened SparseMatrix

  // ---------------------------------------------------------------------------
  // Step and instance selection
  // ---------------------------------------------------------------------------

  /** [name for name in instance_names if 'BALLAST' in name]. */
  function BallastInstances(names: seq<string>): (r: seq<string>)
    ensures forall x {:trigger x in r} :: x in r <==> x in names && Contains(x, "BALLAST")
    ensures SubsequenceOf(r, names)
    decreases |names|
  {
    if names == [] then []
    else
      var rest := BallastInstances(names[1..]);
      if Contains(names[0], "BALLAST") then [names[0]] + rest else rest
  }

  /** The steps whose lower-case name is neither 'gravity' nor 'train'. */
  function ResultSteps(names: seq<string>): (r: seq<string>)
    ensures forall x {:trigger x in r} :: x in r <==> x in names && Lower(x) != "gravity" && Lower(x) != "train"
    ensures SubsequenceOf(r, names)
    decreases |names|
  {
    if names == [] then []
    else
      var rest := ResultSteps(names[1..]);
      if Lower(names[0]) != "gravity" && Lower(names[0]) != "train" then [names[0]] + rest else rest
  }

  // ---------------------------------------------------------------------------
  // Boundary DOFs
  // ---------------------------------------------------------------------------

  /** A surface or node set of the root assembly: the instances it touches and
      one node-label list per instance. */
  datatype SetBase = SetBase(instances: seq<string>, nodes: seq<seq<int>>)

  /** The four conditions the script fixes. */
  const ScriptBoundaryConditions: seq<BoundaryCondition> := [
    BoundaryCondition("M_SURF_BALLAST2", "surface", 2, None),
    BoundaryCondition("SET-CENTER", "node_set", 1, None),
    BoundaryCondition("SET-FRONT", "node_set", 3, None),
    BoundaryCondition("SET-BACK", "node_set", 3, None)]

  /** `base` after one condition: the named surface or node set of the
      assembly (KeyError if missing). There is no else branch, so any other
      kind keeps the previous `base`, and raises NameError when there is none
      yet. */
  function NextBase(bc: BoundaryCondition, surfaces: map<string, SetBase>, nodeSets: map<string, SetBase>,
                    base: Option<SetBase>): (r: Result<SetBase>)
    ensures bc.bcType == "surface" ==> r == (if bc.setName in surfaces then Ok(surfaces[bc.setName]) else Err(KeyError))
    ensures bc.bcType == "node_set" ==> r == (if bc.setName in nodeSets then Ok(nodeSets[bc.setName]) else Err(KeyError))
    ensures !KnownType(bc) ==> r == (if base.Some? then Ok(base.value) else Err(NameError))
  {
    if bc.bcType == "surface" then
      (if bc.setName in surfaces then Ok(surfaces[bc.setName]) else Err(KeyError))
    else if bc.bcType == "node_set" then
      (if bc.setName in nodeSets then Ok(nodeSets[bc.setName]) else Err(KeyError))
    else if base.Some? then Ok(base.value)
    else Err(NameError)
  }

  /** list.index(x): the first position of x, ValueError when absent. */
  function ListIndex(xs: seq<string>, x: string): (r: Result<nat>)
    ensures r.Ok? <==> x in xs
    ensures r.Err? ==> r.error == ValueError
    ensures r.Ok? ==> r.value < |xs| && xs[r.value] == x && forall j :: 0 <= j < r.value ==> xs[j] != x
    decreases |xs|
  {
    if xs == [] then Err(ValueError)
    else if xs[0] == x then Ok(0)
    else
      match ListIndex(xs[1..], x)
      case Err(e) => Err(e)
      case Ok(k) => Ok(k + 1)
  }

  /** base.nodes[base.instances.index(instance)]. */
  function InstanceNodes(base: SetBase, instanceName: string): Result<seq<int>> {
    match ListIndex(base.instances, instanceName)
    case Err(e) => Err(e)
    case Ok(idx) => PyIndex(base.nodes, idx)
  }

  /** After the conditions so far: the DOFs appended, `base` and `nodes`
      (None while unbound). */
  datatype BcState = BcState(dofs: seq<int>, base: Option<SetBase>, nodes: Option<seq<int>>)

  /** The state after the first |bcs| conditions, starting from the `base`
      left by the previous pass of the outer loops, or the first exception. */
  function OdbBcSpec(bcs: seq<BoundaryCondition>, surfaces: map<string, SetBase>, nodeSets: map<string, SetBase>,
                     instanceName: string, base0: Option<SetBase>): Result<BcState>
    decreases |bcs|
  {
    if bcs == [] then Ok(BcState([], base0, None))
    else match OdbBcSpec(bcs[..|bcs| - 1], surfaces, nodeSets, instanceName, base0)
      case Err(e) => Err(e)
      case Ok(st) =>
        var bc := bcs[|bcs| - 1];
        match NextBase(bc, surfaces, nodeSets, st.base)
        case Err(e) => Err(e)
        case Ok(base) =>
          match InstanceNodes(base, instanceName)
          case Err(e) => Err(e)
          case Ok(nodes) =>
            Ok(BcState(st.dofs + seq(|nodes|, k requires 0 <= k < |nodes| => LabelDof(nodes[k], bc.component)),
                       Some(base), Some(nodes)))
  }

  /** The condition loop of the script. */
  method CollectOdbBcDofs(bcs: seq<BoundaryCondition>, surfaces: map<string, SetBase>, nodeSets: map<string, SetBase>,
                          instanceName: string, base0: Option<SetBase>) returns (r: Result<BcState>)
    ensures r == OdbBcSpec(bcs, surfaces, nodeSets, instanceName, base0)
  {
    var bcDofs: seq<int> := [];
    var base := base0;
    var nodes: Option<seq<int>> := None;
    for i := 0 to |bcs|
      invariant OdbBcSpec(bcs[..i], surfaces, nodeSets, instanceName, base0) == Ok(BcState(bcDofs, base, nodes))
    {
      var bc := bcs[i];
      assert bcs[..i + 1][..i] == bcs[..i];
      var next := NextBase(bc, surfaces, nodeSets, base);
      if next.Err? {
        OdbBcErrorPersists(bcs, surfaces, nodeSets, instanceName, base0, i + 1);
        return Err(next.error);
      }
      base := Some(next.value);
      var idx := ListIndex(next.value.instances, instanceName);
      if idx.Err? {
        OdbBcErrorPersists(bcs, surfaces, nodeSets, instanceName, base0, i + 1);
        return Err(idx.error);
      }
      var setNodes := PyIndex(next.value.nodes, idx.value);
      if setNodes.Err? {
        OdbBcErrorPersists(bcs, surfaces, nodeSets, instanceName, base0, i + 1);
        return Err(setNodes.error);
      }
      var ns := setNodes.value;
      bcDofs := AppendSetDofs(bcDofs, ns, bc.component);
      nodes := Some(ns);
    }
    assert bcs[..|bcs|] == bcs;
    r := Ok(BcState(bcDofs, base, nodes));
  }

  /** The inner loop: the DOF of every node of the set appended in order. */
  method AppendSetDofs(dofs: seq<int>, ns: seq<int>, component: int) returns (r: seq<int>)
    ensures r == dofs + seq(|ns|, m requires 0 <= m < |ns| => LabelDof(ns[m], component))
  {
    r := dofs;
    for k := 0 to |ns|
      invariant r == dofs + seq(k, m requires 0 <= m < k => LabelDof(ns[m], component))
    {
      r := r + [LabelDof(ns[k], component)];
    }
  }

  lemma {:induction false} OdbBcErrorPersists(bcs: seq<BoundaryCondition>, surfaces: map<string, SetBase>,
                                              nodeSets: map<string, SetBase>, instanceName: string,
                                              base0: Option<SetBase>, i: nat)
    requires i <= |bcs| && OdbBcSpec(bcs[..i], surfaces, nodeSets, instanceName, base0).Err?
    ensures OdbBcSpec(bcs, surfaces, nodeSets, instanceName, base0) == OdbBcSpec(bcs[..i], surfaces, nodeSets, instanceName, base0)
    decreases |bcs| - i
  {
    if i < |bcs| {
      assert bcs[..i + 1][..i] == bcs[..i];
      OdbBcErrorPersists(bcs, surfaces, nodeSets, instanceName, base0, i + 1);
    } else {
      assert bcs[..i] == bcs;
    }
  }

  /** The collection fails only with KeyError (no such set), NameError
      (no `base` yet), ValueError (instance not in the set) or IndexError
      (fewer node lists than instances). */
  lemma {:induction false} OdbBcErrors(bcs: seq<BoundaryCondition>, surfaces: map<string, SetBase>,
                                       nodeSets: map<string, SetBase>, instanceName: string, base0: Option<SetBase>)
    requires OdbBcSpec(bcs, surfaces, nodeSets, instanceName, base0).Err?
    ensures OdbBcSpec(bcs, surfaces, nodeSets, instanceName, base0).error in {KeyError, NameError, ValueError, IndexError}
    decreases |bcs|
  {
    var init := bcs[..|bcs| - 1];
    if OdbBcSpec(init, surfaces, nodeSets, instanceName, base0).Err? {
      OdbBcErrors(init, surfaces, nodeSets, instanceName, base0);
    }
  }

  /** The nodes of a condition whose kind is known, independent of what came
      before it. */
  function KnownSetNodes(bc: BoundaryCondition, surfaces: map<string, SetBase>, nodeSets: map<string, SetBase>,
                         instanceName: string): Result<seq<int>>
  {
    match NextBase(bc, surfaces, nodeSets, None)
    case Err(e) => Err(e)
    case Ok(base) => InstanceNodes(base, instanceName)
  }

  /** With only surfaces and node sets, the prescribed DOFs are the
      3 (L - 1) + c - 1 of the nodes the instance has in the sets, and `nodes`
      is the node list of the last condition. */
  lemma {:induction false} OdbBcDofsMembership(bcs: seq<BoundaryCondition>, surfaces: map<string, SetBase>,
                                               nodeSets: map<string, SetBase>, instanceName: string,
                                               base0: Option<SetBase>, d: int)
    requires forall k :: 0 <= k < |bcs| ==> KnownType(bcs[k])
    requires OdbBcSpec(bcs, surfaces, nodeSets, instanceName, base0).Ok?
    ensures var st := OdbBcSpec(bcs, surfaces, nodeSets, instanceName, base0).value;
      (d in st.dofs <==> exists k, n :: (0 <= k < |bcs| && KnownSetNodes(bcs[k], surfaces, nodeSets, instanceName).Ok? &&
        n in KnownSetNodes(bcs[k], surfaces, nodeSets, instanceName).value && d == LabelDof(n, bcs[k].component))) &&
      (bcs != [] ==> st.nodes == Some(KnownSetNodes(bcs[|bcs| - 1], surfaces, nodeSets, instanceName).value))
    decreases |bcs|
  {
    if bcs != [] {
      var init := bcs[..|bcs| - 1];
      var bc := bcs[|bcs| - 1];
      assert forall k :: 0 <= k < |init| ==> init[k] == bcs[k];
      OdbBcDofsMembership(init, surfaces, nodeSets, instanceName, base0, d);
      var st0 := OdbBcSpec(init, surfaces, nodeSets, instanceName, base0).value;
      assert NextBase(bc, surfaces, nodeSets, st0.base) == NextBase(bc, surfaces, nodeSets, None);
      var nodes := KnownSetNodes(bc, surfaces, nodeSets, instanceName).value;
      var added := seq(|nodes|, k requires 0 <= k < |nodes| => LabelDof(nodes[k], bc.component));
      assert d in added <==> exists n :: n in nodes && d == LabelDof(n, bc.component) by {
        if d in added {
          var k :| 0 <= k < |nodes| && added[k] == d;
          assert nodes[k] in nodes;
        }
        if exists n :: n in nodes && d == LabelDof(n, bc.component) {
          var n :| n in nodes && d == LabelDof(n, bc.component);
          var k :| 0 <= k < |nodes| && nodes[k] == n;
          assert added[k] == d;
        }
      }
    }
  }

  // ---------------------------------------------------------------------------
  // Scatter of the free solution
  // ---------------------------------------------------------------------------

  /** The number of free (non-prescribed) indices below c. */
  function FreeBelow(c: nat, dofs: seq<int>): nat {
    if c == 0 then 0 else FreeBelow(c - 1, dofs) + (if c - 1 in dofs then 0 else 1)
  }

  /** FreeBelow(c) for every c below i, in order. */
  function Ranks(i: nat, dofs: seq<int>): (r: seq<nat>)
    ensures |r| == i
  {
    if i == 0 then [] else Ranks(i - 1, dofs) + [FreeBelow(i - 1, dofs)]
  }

  lemma {:induction false} RanksAt(i: nat, dofs: seq<int>, c: nat)
    requires c < i
    ensures Ranks(i, dofs)[c] == FreeBelow(c, dofs)
  {
    if c < i - 1 {
      RanksAt(i - 1, dofs, c);
    }
  }

  lemma {:induction false} FreeBelowCounts(c: nat, dofs: seq<int>)
    ensures FreeBelow(c, dofs) == |IndicesWhere(c, dofs, false)|
  {
    if c > 0 {
      FreeBelowCounts(c - 1, dofs);
    }
  }

  /** The loop `if i not in bc_set: up[i] = up_red[j]; j += 1` over a zero
      vector of length n: raises IndexError when up_red has fewer entries than
      there are free DOFs; otherwise up is up_red spread over the free DOFs in
      order, and every prescribed DOF stays 0. */
  method ScatterFree(n: nat, bcDofs: seq<int>, upRed: seq<real>) returns (r: Result<seq<real>>)
    ensures r.Ok? <==> |IndicesWhere(n, bcDofs, false)| <= |upRed|
    ensures r.Err? ==> r.error == IndexError
    ensures r.Ok? ==> (|IndicesWhere(n, bcDofs, false)| <= |upRed| &&
      r.value == Spread(IndicesWhere(n, bcDofs, false), upRed[..|IndicesWhere(n, bcDofs, false)|], n))
  {
    var up := seq(n, _ => 0.0);
    var j := 0;
    ghost var rank: seq<nat> := [];
    for i := 0 to n
      invariant j == FreeBelow(i, bcDofs) && j <= |upRed| && |up| == n && rank == Ranks(i, bcDofs)
      invariant forall c :: 0 <= c < i && c !in bcDofs ==> rank[c] < j && up[c] == upRed[rank[c]]
      invariant forall c :: 0 <= c < n && (c >= i || c in bcDofs) ==> up[c] == 0.0
    {
      rank := rank + [j];
      if i !in bcDofs {
        if j >= |upRed| {
          ScatterOverflow(n, bcDofs, |upRed|, i);
          return Err(IndexError);
        }
        up := up[i := upRed[j]];
        j := j + 1;
      }
    }
    ScatterComplete(n, bcDofs, upRed, up, j);
    r := Ok(up);
  }

  /** Running out of up_red at free DOF i means there are more free DOFs
      than entries. */
  lemma ScatterOverflow(n: nat, dofs: seq<int>, available: nat, i: nat)
    requires i < n && i !in dofs && FreeBelow(i, dofs) >= available
    ensures |IndicesWhere(n, dofs, false)| > available
  {
    FreeBelowMonotone(i + 1, n, dofs);
    FreeBelowCounts(n, dofs);
  }

  /** The state the loop ends in is the spread vector. */
  lemma ScatterComplete(n: nat, dofs: seq<int>, upRed: seq<real>, up: seq<real>, j: nat)
    requires j == FreeBelow(n, dofs) && j <= |upRed| && |up| == n
    requires forall c :: 0 <= c < n && c !in dofs ==> Ranks(n, dofs)[c] < j && up[c] == upRed[Ranks(n, dofs)[c]]
    requires forall c :: 0 <= c < n && c in dofs ==> up[c] == 0.0
    ensures |IndicesWhere(n, dofs, false)| == j
    ensures up == Spread(IndicesWhere(n, dofs, false), upRed[..|IndicesWhere(n, dofs, false)|], n)
  {
    FreeBelowCounts(n, dofs);
    ScatterIsSpread(n, dofs, upRed[..j], up);
  }

  lemma {:induction false} FreeBelowMonotone(m: nat, n: nat, dofs: seq<int>)
    requires m <= n
    ensures FreeBelow(m, dofs) <= FreeBelow(n, dofs)
    decreases n - m
  {
    if m < n {
      FreeBelowMonotone(m, n - 1, dofs);
    }
  }

  lemma {:induction false} FreeRank(n: nat, dofs: seq<int>, c: nat)
    requires c < n && c !in dofs
    ensures FreeBelow(c, dofs) < |IndicesWhere(n, dofs, false)|
    ensures IndicesWhere(n, dofs, false)[FreeBelow(c, dofs)] == c
    decreases n
  {
    var prev := IndicesWhere(n - 1, dofs, false);
    FreeBelowCounts(n - 1, dofs);
    if c == n - 1 {
      assert IndicesWhere(n, dofs, false) == prev + [c];
    } else {
      FreeRank(n - 1, dofs, c);
    }
  }

  /** A vector holding v at the ranks of the free DOFs and 0 at the prescribed
      ones is Spread over the free list. */
  lemma ScatterIsSpread(n: nat, dofs: seq<int>, v: seq<real>, up: seq<real>)
    requires |v| == |IndicesWhere(n, dofs, false)| && |up| == n
    requires forall c :: 0 <= c < n && c !in dofs ==> Ranks(n, dofs)[c] < |v| && up[c] == v[Ranks(n, dofs)[c]]
    requires forall c :: 0 <= c < n && c in dofs ==> up[c] == 0.0
    ensures up == Spread(IndicesWhere(n, dofs, false), v, n)
  {
    var free := IndicesWhere(n, dofs, false);
    var s := Spread(free, v, n);
    forall c | 0 <= c < n
      ensures s[c] == up[c]
    {
      if c !in dofs {
        FreeRank(n, dofs, c);
        RanksAt(n, dofs, c);
        var k := FreeBelow(c, dofs);
        var p := IndexOf(free, c);
        SortedElementsDistinctIndices(free, p, k);
      }
    }
  }

  /** Reading the scattered vector back at the free DOFs gives up_red, and the
      prescribed DOFs hold 0: the scatter inverts the restriction to the free
      columns. */
  lemma ScatterRoundTrip(n: nat, dofs: seq<int>, v: seq<real>)
    requires |v| == |IndicesWhere(n, dofs, false)|
    ensures forall k :: 0 <= k < |v| ==> (0 <= IndicesWhere(n, dofs, false)[k] < n &&
      Spread(IndicesWhere(n, dofs, false), v, n)[IndicesWhere(n, dofs, false)[k]] == v[k])
    ensures forall c :: 0 <= c < n && c in dofs ==> Spread(IndicesWhere(n, dofs, false), v, n)[c] == 0.0
  {
    var free := IndicesWhere(n, dofs, false);
    forall k | 0 <= k < |v|
      ensures 0 <= free[k] < n && Spread(free, v, n)[free[k]] == v[k]
    {
      assert free[k] in free;
      var p := IndexOf(free, free[k]);
      SortedElementsDistinctIndices(free, p, k);
    }
    forall c | 0 <= c < n && c in dofs
      ensures Spread(free, v, n)[c] == 0.0
    {
      assert c !in free;
    }
  }

  // ---------------------------------------------------------------------------
  // Per-node rows
  // ---------------------------------------------------------------------------

  /** up[3 (L - 1):3 L] as numpy assigns it to a row of three: a slice of
      three entries as it is, a single entry broadcast, anything else
      ValueError. */
  function RowValue(up: seq<real>, nodeLabel: int): (r: Result<seq<real>>)
    ensures r.Ok? ==> |r.value| == 3
    ensures r.Err? ==> r.error == ValueError
  {
    var s := PySlice(up, 3 * (nodeLabel - 1), 3 * nodeLabel);
    if |s| == 3 then Ok(s) else if |s| == 1 then Ok([s[0], s[0], s[0]]) else Err(ValueError)
  }

  /** For a node of the vector the row is its three displacement components. */
  lemma RowIsNodeDisplacement(up: seq<real>, nNodes: nat, nodeLabel: int)
    requires |up| == 3 * nNodes && 1 <= nodeLabel <= nNodes
    ensures RowValue(up, nodeLabel) == Ok(Rows(up, 3, nNodes)[nodeLabel - 1])
  {
    var s := PySlice(up, 3 * (nodeLabel - 1), 3 * nodeLabel);
    assert s == up[3 * (nodeLabel - 1)..3 * nodeLabel];
    var row := Rows(up, 3, nNodes)[nodeLabel - 1];
    assert |row| == 3;
    forall c | 0 <= c < 3
      ensures s[c] == row[c]
    {
      RowsAt(up, 3, nNodes, nodeLabel - 1, c);
    }
    assert s == row;
  }

  /** permanent_deformation (m rows of zeros) with row i set from the i-th
      node of `nodes`: IndexError for a row beyond m, ValueError for a slice
      that does not fit, whichever the first failing node meets; rows past
      the node list stay 0. */
  method DeformationRows(m: nat, up: seq<real>, nodes: seq<int>) returns (r: Result<seq<seq<real>>>)
    ensures r.Ok? <==> |nodes| <= m && forall i :: 0 <= i < |nodes| ==> RowValue(up, nodes[i]).Ok?
    ensures r.Err? ==> exists i :: (0 <= i < |nodes| && i <= m && RowsOk(up, nodes, i) &&
      if i == m then r.error == IndexError else RowValue(up, nodes[i]) == Err(r.error))
    ensures r.Ok? ==> (|r.value| == m && forall i :: 0 <= i < m ==>
      r.value[i] == if i < |nodes| then RowValue(up, nodes[i]).value else [0.0, 0.0, 0.0])
    ensures r == FieldRows(m, up, nodes)
  {
    var rows := seq(m, _ => [0.0, 0.0, 0.0]);
    for i := 0 to |nodes|
      invariant i <= m && RowsOk(up, nodes, i) && rows == RowsUpTo(m, up, nodes, i)
      invariant FirstRowError(m, up, nodes, 0) == FirstRowError(m, up, nodes, i)
    {
      if i >= m {
        RowsFailAt(m, up, nodes, i, IndexError);
        return Err(IndexError);
      }
      var row := RowValue(up, nodes[i]);
      if row.Err? {
        RowsFailAt(m, up, nodes, i, row.error);
        return Err(row.error);
      }
      RowsUpToStep(m, up, nodes, i);
      rows := rows[i := row.value];
    }
    r := Ok(rows);
  }

  /** The error the first failing node from i on meets, if any: IndexError
      for a row beyond m, the slice's error otherwise. */
  function FirstRowError(m: nat, up: seq<real>, nodes: seq<int>, i: nat): Option<Error>
    decreases |nodes| - i
  {
    if i >= |nodes| then None
    else if i >= m then Some(IndexError)
    else if RowValue(up, nodes[i]).Err? then Some(RowValue(up, nodes[i]).error)
    else FirstRowError(m, up, nodes, i + 1)
  }

  /** Every node from i on has a row below m and a slice of the right shape. */
  predicate RowsFitFrom(m: nat, up: seq<real>, nodes: seq<int>, i: nat) {
    (i < |nodes| ==> |nodes| <= m) && forall q :: i <= q < |nodes| ==> RowValue(up, nodes[q]).Ok?
  }

  lemma RowsFitFromStep(m: nat, up: seq<real>, nodes: seq<int>, i: nat)
    requires i < |nodes|
    ensures RowsFitFrom(m, up, nodes, i) <==>
      RowValue(up, nodes[i]).Ok? && i < m && RowsFitFrom(m, up, nodes, i + 1)
  {
    if RowValue(up, nodes[i]).Ok? && i < m && RowsFitFrom(m, up, nodes, i + 1) {
      forall q | i <= q < |nodes|
        ensures RowValue(up, nodes[q]).Ok?
      {
        if q != i {
          assert i + 1 <= q;
        }
      }
    }
  }

  /** No node from i on fails iff each of them has a row below m and a slice
      of the right shape; a failure is IndexError or ValueError. */
  lemma {:induction false} FirstRowErrorNone(m: nat, up: seq<real>, nodes: seq<int>, i: nat)
    ensures FirstRowError(m, up, nodes, i) == None <==> RowsFitFrom(m, up, nodes, i)
    ensures FirstRowError(m, up, nodes, i).Some? ==> FirstRowError(m, up, nodes, i).value in {IndexError, ValueError}
    decreases |nodes| - i
  {
    if i < |nodes| {
      RowsFitFromStep(m, up, nodes, i);
      if i < m && RowValue(up, nodes[i]).Ok? {
        FirstRowErrorNone(m, up, nodes, i + 1);
      }
    }
  }

  /** The reference value of the row loop: the first failing node's error,
      or m rows with row i taken from the i-th node and zeros past the list. */
  function FieldRows(m: nat, up: seq<real>, nodes: seq<int>): (r: Result<seq<seq<real>>>)
    ensures r.Ok? <==> |nodes| <= m && forall i :: 0 <= i < |nodes| ==> RowValue(up, nodes[i]).Ok?
    ensures r.Err? ==> r.error in {IndexError, ValueError}
    ensures r.Ok? ==> (|r.value| == m && forall i :: 0 <= i < m ==>
      r.value[i] == if i < |nodes| then RowValue(up, nodes[i]).value else [0.0, 0.0, 0.0])
  {
    FirstRowErrorNone(m, up, nodes, 0);
    var e := FirstRowError(m, up, nodes, 0);
    if e.Some? then Err(e.value)
    else
      Ok(RowsUpTo(m, up, nodes, |nodes|))
  }

  /** The rows of the first i nodes can all be taken. */
  predicate RowsOk(up: seq<real>, nodes: seq<int>, i: nat) {
    i <= |nodes| && forall q :: 0 <= q < i ==> RowValue(up, nodes[q]).Ok?
  }

  /** The m rows after the first i nodes are written. */
  function RowsUpTo(m: nat, up: seq<real>, nodes: seq<int>, i: nat): (rows: seq<seq<real>>)
    requires i <= m && RowsOk(up, nodes, i)
    ensures |rows| == m
  {
    seq(m, q requires 0 <= q < m => if q < i then RowValue(up, nodes[q]).value else [0.0, 0.0, 0.0])
  }

  lemma RowsUpToStep(m: nat, up: seq<real>, nodes: seq<int>, i: nat)
    requires i < m && RowsOk(up, nodes, i) && i < |nodes| && RowValue(up, nodes[i]).Ok?
    ensures RowsOk(up, nodes, i + 1)
    ensures RowsUpTo(m, up, nodes, i + 1) == RowsUpTo(m, up, nodes, i)[i := RowValue(up, nodes[i]).value]
  {
  }

  /** Node i is the first whose row cannot be written. */
  lemma RowsFailAt(m: nat, up: seq<real>, nodes: seq<int>, i: nat, e: Error)
    requires i < |nodes| && i <= m && RowsOk(up, nodes, i)
    requires if i >= m then e == IndexError else RowValue(up, nodes[i]) == Err(e)
    ensures !(|nodes| <= m && forall q :: 0 <= q < |nodes| ==> RowValue(up, nodes[q]).Ok?)
    ensures exists k :: (0 <= k < |nodes| && k <= m && RowsOk(up, nodes, k) &&
      if k == m then e == IndexError else RowValue(up, nodes[k]) == Err(e))
  {
  }

  // ---------------------------------------------------------------------------
  // One step and instance, and the whole script
  // ---------------------------------------------------------------------------

  /** What the script reads per instance: len(instance.nodes) and the node
      labels of the displacement field on the set BALLAST (one row each). */
  datatype InstanceData = InstanceData(nodeCount: nat, fieldNodes: seq<int>)

  /** One pass over an instance: the full displacement vector up, the UP
      rows written for the instance, and the `base` the next pass starts
      from. */
  datatype InstancePass = InstancePass(up: seq<real>, rows: seq<seq<real>>, base: Option<SetBase>)

  /** The reference value of one pass: the first exception among the
      conditions, the scatter of up_red (IndexError when it is too short) and
      the rows; without any condition, AttributeError unless the field is
      empty. */
  function PassResult(data: InstanceData, instanceName: string, bcs: seq<BoundaryCondition>,
                      surfaces: map<string, SetBase>, nodeSets: map<string, SetBase>,
                      base0: Option<SetBase>, upRed: seq<real>): (r: Result<InstancePass>)
    ensures r.Err? ==> r.error in {KeyError, ValueError, NameError, IndexError, AttributeError}
    ensures r.Ok? ==> |r.value.rows| == |data.fieldNodes|
  {
    var st := OdbBcSpec(bcs, surfaces, nodeSets, instanceName, base0);
    if st.Err? then
      OdbBcErrors(bcs, surfaces, nodeSets, instanceName, base0);
      Err(st.error)
    else
      var n := 3 * data.nodeCount;
      var free := IndicesWhere(n, Unique(st.value.dofs), false);
      if |free| > |upRed| then Err(IndexError)
      else
        var up := Spread(free, upRed[..|free|], n);
        if st.value.nodes.None? then
          if |data.fieldNodes| > 0 then Err(AttributeError) else Ok(InstancePass(up, [], st.value.base))
        else
          var rows := FieldRows(|data.fieldNodes|, up, st.value.nodes.value);
          if rows.Err? then Err(rows.error) else Ok(InstancePass(up, rows.value, st.value.base))
  }

  /** What a pass computes: the conditions' error passes through; otherwise
      up is up_red spread over the DOFs the conditions leave free, the next
      `base` is the conditions' one, and the rows are the slices of up at
      the last set's nodes, zeros past them. */
  lemma PassResultSpec(data: InstanceData, instanceName: string, bcs: seq<BoundaryCondition>,
                       surfaces: map<string, SetBase>, nodeSets: map<string, SetBase>,
                       base0: Option<SetBase>, upRed: seq<real>)
    ensures OdbBcSpec(bcs, surfaces, nodeSets, instanceName, base0).Err? ==>
      PassResult(data, instanceName, bcs, surfaces, nodeSets, base0, upRed) == Err(OdbBcSpec(bcs, surfaces, nodeSets, instanceName, base0).error)
    ensures var r := PassResult(data, instanceName, bcs, surfaces, nodeSets, base0, upRed);
      r.Ok? ==> (OdbBcSpec(bcs, surfaces, nodeSets, instanceName, base0).Ok? &&
      var st := OdbBcSpec(bcs, surfaces, nodeSets, instanceName, base0).value;
      var n := 3 * data.nodeCount;
      var free := IndicesWhere(n, Unique(st.dofs), false);
      |free| <= |upRed| && r.value.up == Spread(free, upRed[..|free|], n) &&
      r.value.base == st.base && |r.value.rows| == |data.fieldNodes| &&
      (st.nodes.None? ==> data.fieldNodes == []) &&
      (st.nodes.Some? ==> (|st.nodes.value| <= |data.fieldNodes| &&
        (forall i :: 0 <= i < |st.nodes.value| ==> RowValue(r.value.up, st.nodes.value[i]).Ok?) &&
        forall i :: 0 <= i < |data.fieldNodes| ==> (r.value.rows[i] ==
          if i < |st.nodes.value| then RowValue(r.value.up, st.nodes.value[i]).value else [0.0, 0.0, 0.0]))))
  {
  }

  /** One pass of the inner loop. The conditions are collected as in
      CollectOdbBcDofs, up_red is spread over the DOFs they leave free, and
      row i is the slice of up at the i-th node of the last condition's set.
      Without any condition `nodes` is still the position list read from the
      field, whose entries have no `.label` (AttributeError unless empty). */
  method InstanceDeformation(data: InstanceData, instanceName: string, bcs: seq<BoundaryCondition>,
                             surfaces: map<string, SetBase>, nodeSets: map<string, SetBase>,
                             base0: Option<SetBase>, upRed: seq<real>)
    returns (r: Result<InstancePass>)
    ensures OdbBcSpec(bcs, surfaces, nodeSets, instanceName, base0).Err? ==>
      r == Err(OdbBcSpec(bcs, surfaces, nodeSets, instanceName, base0).error)
    ensures r == PassResult(data, instanceName, bcs, surfaces, nodeSets, base0, upRed)
    ensures r.Err? ==> r.error in {KeyError, ValueError, NameError, IndexError, AttributeError}
    ensures r.Ok? ==> (OdbBcSpec(bcs, surfaces, nodeSets, instanceName, base0).Ok? &&
      var st := OdbBcSpec(bcs, surfaces, nodeSets, instanceName, base0).value;
      var n := 3 * data.nodeCount;
      var free := IndicesWhere(n, Unique(st.dofs), false);
      |free| <= |upRed| && r.value.up == Spread(free, upRed[..|free|], n) &&
      r.value.base == st.base && |r.value.rows| == |data.fieldNodes| &&
      (st.nodes.None? ==> data.fieldNodes == []) &&
      (st.nodes.Some? ==> (|st.nodes.value| <= |data.fieldNodes| &&
        (forall i :: 0 <= i < |st.nodes.value| ==> RowValue(r.value.up, st.nodes.value[i]).Ok?) &&
        forall i :: 0 <= i < |data.fieldNodes| ==> (r.value.rows[i] ==
          if i < |st.nodes.value| then RowValue(r.value.up, st.nodes.value[i]).value else [0.0, 0.0, 0.0]))))
  {
    var st := CollectOdbBcDofs(bcs, surfaces, nodeSets, instanceName, base0);
    if st.Err? {
      OdbBcErrors(bcs, surfaces, nodeSets, instanceName, base0);
      return Err(st.error);
    }
    var bcDofs := Unique(st.value.dofs);
    var up := ScatterFree(3 * data.nodeCount, bcDofs, upRed);
    if up.Err? {
      return Err(up.error);
    }
    var m := |data.fieldNodes|;
    if st.value.nodes.None? {
      if m > 0 {
        return Err(AttributeError);
      }
      return Ok(InstancePass(up.value, [], st.value.base));
    }
    var rows := DeformationRows(m, up.value, st.value.nodes.value);
    if rows.Err? {
      return Err(rows.error);
    }
    r := Ok(InstancePass(up.value, rows.value, st.value.base));
  }

  /** One write_field_to_odb call: field UP of a step and an instance. */
  datatype FieldWrite = FieldWrite(stepName: string, instanceName: string, rows: seq<seq<real>>)

  /** The (step, instance) pairs of the two nested loops, in the order the
      passes run: every instance for the first step, then for the next. */
  function PassOrder(steps: seq<string>, names: seq<string>): (p: seq<(string, string)>)
    decreases |steps|
  {
    if steps == [] then []
    else PassOrder(steps[..|steps| - 1], names) + StepPasses(steps[|steps| - 1], names)
  }

  /** The passes of one step: the step with each instance in turn. */
  function StepPasses(step: string, names: seq<string>): seq<(string, string)> {
    seq(|names|, t requires 0 <= t < |names| => (step, names[t]))
  }

  /** Pass s * |names| + t is step s with instance t. */
  lemma {:induction false} PassOrderAt(steps: seq<string>, names: seq<string>, s: nat, t: nat)
    requires s < |steps| && t < |names|
    ensures |PassOrder(steps, names)| == |steps| * |names|
    ensures s * |names| + t < |PassOrder(steps, names)|
    ensures PassOrder(steps, names)[s * |names| + t] == (steps[s], names[t])
    decreases |steps|
  {
    var init := steps[..|steps| - 1];
    PassOrderLength(init, names);
    assert |PassOrder(steps, names)| == |init| * |names| + |names|;
    if s < |steps| - 1 {
      PassOrderAt(init, names, s, t);
      assert s * |names| + t < |init| * |names| by {
        MulStrict(s, |init|, |names|, t);
      }
    } else {
      assert s * |names| == |init| * |names|;
    }
  }

  lemma {:induction false} PassOrderLength(steps: seq<string>, names: seq<string>)
    ensures |PassOrder(steps, names)| == |steps| * |names|
    decreases |steps|
  {
    if steps != [] {
      var init := steps[..|steps| - 1];
      PassOrderLength(init, names);
      assert |steps| * |names| == |init| * |names| + |names| by {
        assert |steps| == |init| + 1;
      }
    }
  }

  /** s < k and t < n give s n + t < k n. */
  lemma MulStrict(s: nat, k: nat, n: nat, t: nat)
    requires s < k && t < n
    ensures s * n + t < k * n
  {
    assert (s + 1) * n <= k * n;
  }

  /** The (step, instance) of each write, in order. */
  function WriteLabels(writes: seq<FieldWrite>): seq<(string, string)> {
    seq(|writes|, k requires 0 <= k < |writes| => (writes[k].stepName, writes[k].instanceName))
  }

  /** Appending one write per instance for step s extends the labels of the
      first s steps to those of the first s + 1. */
  /** The passes of the first s + 1 steps. */
  lemma PassOrderStep(steps: seq<string>, names: seq<string>, s: nat)
    requires s < |steps|
    ensures PassOrder(steps[..s + 1], names) == PassOrder(steps[..s], names) + StepPasses(steps[s], names)
  {
    assert steps[..s + 1][..s] == steps[..s];
    assert steps[..s + 1][s] == steps[s];
  }

  /** One more instance in the step. */
  lemma StepPassesExtend(step: string, names: seq<string>, t: nat)
    requires t < |names|
    ensures StepPasses(step, names[..t + 1]) == StepPasses(step, names[..t]) + [(step, names[t])]
  {
  }

  lemma WriteLabelsAppend(a: seq<FieldWrite>, b: seq<FieldWrite>)
    ensures WriteLabels(a + b) == WriteLabels(a) + WriteLabels(b)
  {
    assert forall k :: 0 <= k < |a| ==> (a + b)[k] == a[k];
    assert forall k :: |a| <= k < |a| + |b| ==> (a + b)[k] == b[k - |a|];
  }

  /** The writes of a run of passes and the `base` the next pass starts from. */
  datatype Run = Run(writes: seq<FieldWrite>, base: Option<SetBase>)

  /** The reference value of running the given passes in order, starting
      with no `base`: each pass is PassResult on the instance's data and the
      `base` the previous pass left, and adds one write of its rows; the
      first failing pass (or an instance that is not in the assembly,
      KeyError) ends the run with its error. */
  function RunPasses(passes: seq<(string, string)>, instances: map<string, InstanceData>,
                     bcs: seq<BoundaryCondition>, surfaces: map<string, SetBase>,
                     nodeSets: map<string, SetBase>, upRed: seq<real>): Result<Run>
    decreases |passes|
  {
    if passes == [] then Ok(Run([], None))
    else
      var prev := RunPasses(passes[..|passes| - 1], instances, bcs, surfaces, nodeSets, upRed);
      var step := passes[|passes| - 1].0;
      var name := passes[|passes| - 1].1;
      if prev.Err? then prev
      else if name !in instances then Err(KeyError)
      else
        var pass := PassResult(instances[name], name, bcs, surfaces, nodeSets, prev.value.base, upRed);
        if pass.Err? then Err(pass.error)
        else Ok(Run(prev.value.writes + [FieldWrite(step, name, pass.value.rows)], pass.value.base))
  }

  /** A successful run writes once per pass, labelled with the pass's step
      and instance, with one row per node of that instance's field. */
  lemma {:induction false} RunPassesShape(passes: seq<(string, string)>, instances: map<string, InstanceData>,
                                          bcs: seq<BoundaryCondition>, surfaces: map<string, SetBase>,
                                          nodeSets: map<string, SetBase>, upRed: seq<real>)
    requires RunPasses(passes, instances, bcs, surfaces, nodeSets, upRed).Ok?
    ensures var writes := RunPasses(passes, instances, bcs, surfaces, nodeSets, upRed).value.writes;
      WriteLabels(writes) == passes &&
      forall k :: 0 <= k < |writes| ==> (writes[k].instanceName in instances &&
        |writes[k].rows| == |instances[writes[k].instanceName].fieldNodes|)
    decreases |passes|
  {
    if passes != [] {
      var init := passes[..|passes| - 1];
      var x := passes[|passes| - 1];
      assert passes == init + [x];
      assert RunPasses(init, instances, bcs, surfaces, nodeSets, upRed).Ok? && x.1 in instances;
      RunPassesShape(init, instances, bcs, surfaces, nodeSets, upRed);
      RunPassesSnoc(init, x, instances, bcs, surfaces, nodeSets, upRed);
      var prev := RunPasses(init, instances, bcs, surfaces, nodeSets, upRed).value;
      var pass := PassResult(instances[x.1], x.1, bcs, surfaces, nodeSets, prev.base, upRed).value;
      WriteLabelsAppend(prev.writes, [FieldWrite(x.0, x.1, pass.rows)]);
    }
  }

  /** A failed run stays failed with the same error whatever passes follow. */
  lemma {:induction false} RunPassesErrorPersists(done: seq<(string, string)>, passes: seq<(string, string)>,
                                                  instances: map<string, InstanceData>, bcs: seq<BoundaryCondition>,
                                                  surfaces: map<string, SetBase>, nodeSets: map<string, SetBase>,
                                                  upRed: seq<real>)
    requires |done| <= |passes| && passes[..|done|] == done
    requires RunPasses(done, instances, bcs, surfaces, nodeSets, upRed).Err?
    ensures RunPasses(passes, instances, bcs, surfaces, nodeSets, upRed) ==
      RunPasses(done, instances, bcs, surfaces, nodeSets, upRed)
    decreases |passes|
  {
    if |done| < |passes| {
      var init := passes[..|passes| - 1];
      assert init[..|done|] == done;
      RunPassesErrorPersists(done, init, instances, bcs, surfaces, nodeSets, upRed);
    } else {
      assert passes == done;
    }
  }

  /** One more pass after a successful run. */
  lemma RunPassesSnoc(passes: seq<(string, string)>, x: (string, string), instances: map<string, InstanceData>,
                      bcs: seq<BoundaryCondition>, surfaces: map<string, SetBase>,
                      nodeSets: map<string, SetBase>, upRed: seq<real>)
    requires x.1 in instances && RunPasses(passes, instances, bcs, surfaces, nodeSets, upRed).Ok?
    ensures var prev := RunPasses(passes, instances, bcs, surfaces, nodeSets, upRed).value;
      var pass := PassResult(instances[x.1], x.1, bcs, surfaces, nodeSets, prev.base, upRed);
      RunPasses(passes + [x], instances, bcs, surfaces, nodeSets, upRed) ==
        if pass.Err? then Err(pass.error) else Ok(Run(prev.writes + [FieldWrite(x.0, x.1, pass.value.rows)], pass.value.base))
  {
    assert (passes + [x])[..|passes|] == passes;
  }

  /** The passes up to instance t of a step come first among the step's. */
  lemma StepPrefix(done: seq<(string, string)>, step: string, names: seq<string>, t: nat)
    requires t < |names|
    ensures var next := done + StepPasses(step, names[..t + 1]);
      |next| <= |done + StepPasses(step, names)| && (done + StepPasses(step, names))[..|next|] == next
  {
    assert StepPasses(step, names[..t + 1]) == StepPasses(step, names)[..t + 1];
  }

  /** A run fails only with one of the errors a pass can raise. */
  lemma {:induction false} RunPassesErrors(passes: seq<(string, string)>, instances: map<string, InstanceData>,
                                           bcs: seq<BoundaryCondition>, surfaces: map<string, SetBase>,
                                           nodeSets: map<string, SetBase>, upRed: seq<real>)
    requires RunPasses(passes, instances, bcs, surfaces, nodeSets, upRed).Err?
    ensures RunPasses(passes, instances, bcs, surfaces, nodeSets, upRed).error in
      {KeyError, ValueError, NameError, IndexError, AttributeError}
    decreases |passes|
  {
    var init := passes[..|passes| - 1];
    if RunPasses(init, instances, bcs, surfaces, nodeSets, upRed).Err? {
      RunPassesErrors(init, instances, bcs, surfaces, nodeSets, upRed);
    }
  }

  /** The passes of the first s steps come first among all passes. */
  lemma {:induction false} PassOrderPrefix(steps: seq<string>, names: seq<string>, s: nat)
    requires s <= |steps|
    ensures |PassOrder(steps[..s], names)| <= |PassOrder(steps, names)|
    ensures PassOrder(steps, names)[..|PassOrder(steps[..s], names)|] == PassOrder(steps[..s], names)
    decreases |steps|
  {
    if s == |steps| {
      assert steps[..s] == steps;
    } else {
      var init := steps[..|steps| - 1];
      assert init[..s] == steps[..s];
      PassOrderPrefix(init, names, s);
    }
  }

  /** The inner loop for one step: a pass per instance, in order, carrying
      `base` from each to the next, after the passes `done` that produced
      writes0 and base0; the first failing pass ends it with its error. */
  method StepDeformations(step: string, names: seq<string>, instances: map<string, InstanceData>,
                          bcs: seq<BoundaryCondition>, surfaces: map<string, SetBase>,
                          nodeSets: map<string, SetBase>, upRed: seq<real>,
                          ghost done: seq<(string, string)>, writes0: seq<FieldWrite>, base0: Option<SetBase>)
    returns (r: Result<Run>)
    requires forall name :: name in names ==> name in instances
    requires RunPasses(done, instances, bcs, surfaces, nodeSets, upRed) == Ok(Run(writes0, base0))
    ensures r == RunPasses(done + StepPasses(step, names), instances, bcs, surfaces, nodeSets, upRed)
  {
    var writes := writes0;
    var base := base0;
    ghost var passes := done;
    assert done + StepPasses(step, names[..0]) == done;
    for t := 0 to |names|
      invariant passes == done + StepPasses(step, names[..t])
      invariant RunPasses(passes, instances, bcs, surfaces, nodeSets, upRed) == Ok(Run(writes, base))
    {
      assert names[t] in names;
      StepPassesExtend(step, names, t);
      RunPassesSnoc(passes, (step, names[t]), instances, bcs, surfaces, nodeSets, upRed);
      var result := InstanceDeformation(instances[names[t]], names[t], bcs, surfaces, nodeSets, base, upRed);
      passes := passes + [(step, names[t])];
      assert passes == done + StepPasses(step, names[..t + 1]);
      if result.Err? {
        assert RunPasses(passes, instances, bcs, surfaces, nodeSets, upRed) == Err(result.error);
        StepPrefix(done, step, names, t);
        RunPassesErrorPersists(passes, done + StepPasses(step, names), instances, bcs, surfaces, nodeSets, upRed);
        return Err(result.error);
      }
      base := result.value.base;
      writes := writes + [FieldWrite(step, names[t], result.value.rows)];
    }
    assert names[..|names|] == names;
    r := Ok(Run(writes, base));
  }

  /** The two loops over the result steps and the ballast instances: one
      field write per (step, instance) pair in PassOrder, each with one row
      per node of the instance's field; `base` carries over from one pass to
      the next, and the first failing pass ends the script with its error. */
  method WritePermanentDeformations(stepKeys: seq<string>, instanceKeys: seq<string>,
                                    instances: map<string, InstanceData>, bcs: seq<BoundaryCondition>,
                                    surfaces: map<string, SetBase>, nodeSets: map<string, SetBase>,
                                    upRed: seq<real>)
    returns (r: Result<seq<FieldWrite>>)
    requires forall name :: name in instanceKeys ==> name in instances
    ensures var run := RunPasses(PassOrder(ResultSteps(stepKeys), BallastInstances(instanceKeys)),
                                 instances, bcs, surfaces, nodeSets, upRed);
      (r.Ok? <==> run.Ok?) && (r.Ok? ==> r.value == run.value.writes) && (r.Err? ==> r.error == run.error)
    ensures r.Err? ==> r.error in {KeyError, ValueError, NameError, IndexError, AttributeError}
    ensures r.Ok? ==> (WriteLabels(r.value) == PassOrder(ResultSteps(stepKeys), BallastInstances(instanceKeys)) &&
      forall k :: 0 <= k < |r.value| ==> (r.value[k].instanceName in instances &&
        |r.value[k].rows| == |instances[r.value[k].instanceName].fieldNodes|))
  {
    var steps := ResultSteps(stepKeys);
    var names := BallastInstances(instanceKeys);
    ghost var all := PassOrder(steps, names);
    var writes: seq<FieldWrite> := [];
    var base: Option<SetBase> := None;
    for s := 0 to |steps|
      invariant RunPasses(PassOrder(steps[..s], names), instances, bcs, surfaces, nodeSets, upRed) == Ok(Run(writes, base))
    {
      var run := StepDeformations(steps[s], names, instances, bcs, surfaces, nodeSets, upRed,
                                  PassOrder(steps[..s], names), writes, base);
      PassOrderStep(steps, names, s);
      if run.Err? {
        PassOrderPrefix(steps, names, s + 1);
        RunPassesErrors(PassOrder(steps[..s + 1], names), instances, bcs, surfaces, nodeSets, upRed);
        RunPassesErrorPersists(PassOrder(steps[..s + 1], names), all, instances, bcs, surfaces, nodeSets, upRed);
        return Err(run.error);
      }
      writes := run.value.writes;
      base := run.value.base;
    }
    assert steps[..|steps|] == steps;
    RunPassesShape(all, instances, bcs, surfaces, nodeSets, upRed);
    r := Ok(writes);
  }
}
