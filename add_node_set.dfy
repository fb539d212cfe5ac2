/**
  finite_element_model/add_node_set.py: the node set of the nodes of one
  instance that lie strictly inside an axis-aligned box. Opening, saving and
  closing the result database and NodeSetFromNodeLabels are left out: the
  operation returns the labels the set is made of.
 */
module AddNodeSet {
  import opened Common
  import opened Elements
  import BC = BoundaryConditions

  /** The bounds x_min, x_max, y_min, y_max, z_min, z_max. */
  datatype Box = Box(xMin: real, xMax: real, yMin: real, yMax: real, zMin: real, zMax: real)

  /** The default bounds: +-1e99 on every axis. */
  const DefaultBound: real := 1.0e99
  const DefaultBox: Box := Box(-DefaultBound, DefaultBound, -DefaultBound, DefaultBound, -DefaultBound, DefaultBound)

  /** The six strict inequalities of line 15: a point on a bound is outside. */
  predicate StrictlyInside(box: Box, c: seq<real>)
    requires |c| == 3
  {
    box.xMin < c[0] < box.xMax && box.yMin < c[1] < box.yMax && box.zMin < c[2] < box.zMax
  }

  /** Every node has the three coordinates `x, y, z = node.coordinates` unpacks. */
  predicate ThreeDimensional(nodes: seq<Node>) {
    forall i :: 0 <= i < |nodes| ==> |nodes[i].coordinates| == 3
  }

  /** The loop of lines 12-16 over the first nodes: the labels appended in
      order, or the ValueError of the first node whose coordinates do not
      unpack into three. */
  function Collected(nodes: seq<Node>, box: Box): Result<seq<int>> {
    if nodes == [] then Ok([])
    else
      var before := Collected(nodes[..|nodes| - 1], box);
      var node := nodes[|nodes| - 1];
      if before.Err? then before
      else if |node.coordinates| != 3 then Err(ValueError)
      else if StrictlyInside(box, node.coordinates) then Ok(before.value + [node.nodeLabel])
      else before
  }

  /** The reference definition: the labels of the nodes inside the box, in
      node order. */
  function Inside(nodes: seq<Node>, box: Box): (r: seq<int>)
    requires ThreeDimensional(nodes)
  {
    if nodes == [] then []
    else (if StrictlyInside(box, nodes[0].coordinates) then [nodes[0].nodeLabel] else []) + Inside(nodes[1..], box)
  }

  /** Inside over a concatenation is the concatenation of the two. */
  lemma {:induction false} InsideConcat(a: seq<Node>, b: seq<Node>, box: Box)
    requires ThreeDimensional(a) && ThreeDimensional(b)
    ensures ThreeDimensional(a + b) && Inside(a + b, box) == Inside(a, box) + Inside(b, box)
  {
    assert ThreeDimensional(a + b) by {
      forall i | 0 <= i < |a + b| ensures |(a + b)[i].coordinates| == 3 {
        if i >= |a| { assert (a + b)[i] == b[i - |a|]; }
      }
    }
    if a != [] {
      assert (a + b)[0] == a[0] && (a + b)[1..] == a[1..] + b;
      InsideConcat(a[1..], b, box);
    } else {
      assert a + b == b;
    }
  }

  /** The loop computes the reference definition, and fails exactly when some
      node is not three-dimensional. */
  lemma {:induction false} CollectedIsInside(nodes: seq<Node>, box: Box)
    ensures Collected(nodes, box).Ok? <==> ThreeDimensional(nodes)
    ensures ThreeDimensional(nodes) ==> Collected(nodes, box).value == Inside(nodes, box)
    ensures !ThreeDimensional(nodes) ==> Collected(nodes, box).error == ValueError
  {
    if nodes != [] {
      var n := |nodes| - 1;
      var init := nodes[..n];
      CollectedIsInside(init, box);
      assert nodes == init + [nodes[n]];
      if ThreeDimensional(nodes) {
        assert ThreeDimensional(init) && ThreeDimensional([nodes[n]]);
        InsideConcat(init, [nodes[n]], box);
        assert Inside([nodes[n]], box) == (if StrictlyInside(box, nodes[n].coordinates) then [nodes[n].nodeLabel] else []) + Inside([], box);
      } else if ThreeDimensional(init) {
        assert |nodes[n].coordinates| != 3;
      } else {
        var i :| 0 <= i < n && |init[i].coordinates| != 3;
        assert nodes[i] == init[i];
      }
    }
  }

  /** A label is in the set iff some node with that label lies strictly
      inside the box. */
  lemma {:induction false} InsideMembership(nodes: seq<Node>, box: Box, x: int)
    requires ThreeDimensional(nodes)
    ensures x in Inside(nodes, box) <==>
      exists i :: 0 <= i < |nodes| && nodes[i].nodeLabel == x && StrictlyInside(box, nodes[i].coordinates)
  {
    if nodes != [] {
      InsideMembership(nodes[1..], box, x);
      if x in Inside(nodes[1..], box) {
        var i :| 0 <= i < |nodes[1..]| && nodes[1..][i].nodeLabel == x && StrictlyInside(box, nodes[1..][i].coordinates);
        assert nodes[i + 1] == nodes[1..][i];
      }
      if exists i :: 0 <= i < |nodes| && nodes[i].nodeLabel == x && StrictlyInside(box, nodes[i].coordinates) {
        var i :| 0 <= i < |nodes| && nodes[i].nodeLabel == x && StrictlyInside(box, nodes[i].coordinates);
        if i > 0 {
          assert nodes[1..][i - 1] == nodes[i];
        }
      }
    }
  }

  /** The default bounds keep every node whose coordinates lie within +-1e99,
      in node order. */
  lemma {:induction false} DefaultBoxKeepsAll(nodes: seq<Node>)
    requires ThreeDimensional(nodes)
    requires forall i, k :: 0 <= i < |nodes| && 0 <= k < 3 ==>
      -DefaultBound < nodes[i].coordinates[k] < DefaultBound
    ensures Inside(nodes, DefaultBox) == Labels(nodes)
  {
    if nodes != [] {
      assert StrictlyInside(DefaultBox, nodes[0].coordinates);
      assert forall i, k :: 0 <= i < |nodes[1..]| && 0 <= k < 3 ==> nodes[1..][i].coordinates[k] == nodes[i + 1].coordinates[k];
      DefaultBoxKeepsAll(nodes[1..]);
    }
  }

  /** The labels of the nodes, in order. */
  function Labels(nodes: seq<Node>): (r: seq<int>)
    ensures |r| == |nodes| && forall i :: 0 <= i < |nodes| ==> r[i] == nodes[i].nodeLabel
  {
    if nodes == [] then [] else [nodes[0].nodeLabel] + Labels(nodes[1..])
  }

  /** The instance the set is added to: instances.keys()[0] when no name is
      given (IndexError without instances), and KeyError for a name the
      assembly does not hold. */
  function InstanceOf(assembly: BC.RootAssembly, instanceName: Option<string>): (r: Result<BC.Instance>)
    ensures instanceName.None? && assembly.instanceKeys == [] ==> r == Err(IndexError)
    ensures instanceName.None? && assembly.instanceKeys != [] ==>
      r == (if assembly.instanceKeys[0] in assembly.instances then Ok(assembly.instances[assembly.instanceKeys[0]]) else Err(KeyError))
    ensures instanceName.Some? ==>
      r == (if instanceName.value in assembly.instances then Ok(assembly.instances[instanceName.value]) else Err(KeyError))
  {
    if instanceName.None? && assembly.instanceKeys == [] then Err(IndexError)
    else
      var name := if instanceName.Some? then instanceName.value else assembly.instanceKeys[0];
      if name in assembly.instances then Ok(assembly.instances[name]) else Err(KeyError)
  }

  /** add_node_set_to_odb: the labels of the nodes of the instance that lie
      strictly inside the box, in node order; the errors of the instance
      lookup and of a node without three coordinates. */
  method AddNodeSetToOdb(assembly: BC.RootAssembly, box: Box, instanceName: Option<string>)
    returns (r: Result<seq<int>>)
    ensures InstanceOf(assembly, instanceName).Err? ==> r == Err(InstanceOf(assembly, instanceName).error)
    ensures InstanceOf(assembly, instanceName).Ok? ==>
      var nodes := InstanceOf(assembly, instanceName).value.nodes;
      (r.Ok? <==> ThreeDimensional(nodes)) &&
      (r.Err? ==> r.error == ValueError) &&
      (r.Ok? ==> r.value == Inside(nodes, box))
  {
    var instance := InstanceOf(assembly, instanceName);
    if instance.Err? {
      return Err(instance.error);
    }
    var nodes := instance.value.nodes;
    var setNodeLabels: seq<int> := [];
    var i := 0;
    while i < |nodes|
      invariant i <= |nodes|
      invariant Collected(nodes[..i], box) == Ok(setNodeLabels)
    {
      var node := nodes[i];
      assert nodes[..i + 1][..i] == nodes[..i] && nodes[..i + 1][i] == node;
      if |node.coordinates| != 3 {
        CollectedStops(nodes, box, i + 1);
        CollectedIsInside(nodes, box);
        return Err(ValueError);
      }
      if StrictlyInside(box, node.coordinates) {
        setNodeLabels := setNodeLabels + [node.nodeLabel];
      }
      i := i + 1;
    }
    assert nodes[..i] == nodes;
    CollectedIsInside(nodes, box);
    r := Ok(setNodeLabels);
  }

  /** Once a node has failed to unpack, the nodes after it change nothing. */
  lemma {:induction false} CollectedStops(nodes: seq<Node>, box: Box, i: nat)
    requires i <= |nodes| && Collected(nodes[..i], box).Err?
    ensures Collected(nodes, box) == Collected(nodes[..i], box)
    decreases |nodes| - i
  {
    if i < |nodes| {
      assert nodes[..i + 1][..i] == nodes[..i];
      CollectedStops(nodes, box, i + 1);
    } else {
      assert nodes[..i] == nodes;
    }
  }
}
