/**
  write_data_for_def_calculation.py: the data the deformation calculator
  needs, in reduced indexing. The nodes are renumbered by their position in
  the sorted, duplicate-free list of element-nodal labels of the strain set;
  a boundary DOF is 3 k + c - 1 for the node at position k, nodes outside the
  list contribute none; the elements of the strain set are rebuilt in sorted
  label order with each node relabelled by its reduced index.

  The explicit-value loop of the script tests `if idx:` where the DOF loop
  tests `if len(idx)`; the model keeps the as-written rule
  (ByReducedIndexTruthiness) beside the intended one (ByReducedIndex), which
  is the one the preparation below uses.
 */
module WriteDataForDefCalculation {
  import opened Common
  import opened Elements
  import opened BoundaryConditions

  // ---------------------------------------------------------------------------
  // Reduced indices
  // ---------------------------------------------------------------------------

  /** In the sorted label list a label's reduced DOF is 3 k + c - 1 for its
      position k; a label not in the list has none. */
  lemma ReducedDofAtPosition(nodeLabels: seq<int>, nodeLabel: int, component: int)
    requires StrictlySorted(nodeLabels)
    ensures nodeLabel !in nodeLabels ==> ReducedDof(nodeLabels, nodeLabel, component) == None
    ensures forall k :: 0 <= k < |nodeLabels| && nodeLabels[k] == nodeLabel ==>
      ReducedDof(nodeLabels, nodeLabel, component) == Some(3 * k + component - 1)
  {
    WhereInSorted(nodeLabels, nodeLabel);
  }

  /** The reduced rule maps a label to d exactly when d is 3 p + c - 1 for
      the label's position p. */
  lemma ReducedRuleDof(nodeLabels: seq<int>, nodeLabel: int, component: int, d: int)
    requires StrictlySorted(nodeLabels)
    ensures RuleDof(ByReducedIndex(nodeLabels), nodeLabel, component) == Some(d) <==>
      exists p :: 0 <= p < |nodeLabels| && nodeLabels[p] == nodeLabel && d == 3 * p + component - 1
  {
    ReducedDofAtPosition(nodeLabels, nodeLabel, component);
  }

  /** The collected DOFs are 3 p + c - 1 for exactly the positions p whose
      label lies in the set of some condition; set nodes outside the list add
      nothing. */
  lemma ReducedDofsMembership(bcs: seq<BoundaryCondition>, reg: SetRegistry, nodeLabels: seq<int>,
                              valueRule: DofRule, d: int)
    requires StrictlySorted(nodeLabels)
    requires CollectSpec(bcs, reg, ByReducedIndex(nodeLabels), valueRule).Ok?
    ensures d in CollectSpec(bcs, reg, ByReducedIndex(nodeLabels), valueRule).value.0 <==>
      exists k, p :: 0 <= k < |bcs| && SetNodes(bcs[k], reg).Ok? && 0 <= p < |nodeLabels| &&
        nodeLabels[p] in SetNodes(bcs[k], reg).value && d == 3 * p + bcs[k].component - 1
  {
    var rule := ByReducedIndex(nodeLabels);
    CollectMembership(bcs, reg, rule, valueRule, d);
    forall k, n | 0 <= k < |bcs| {
      ReducedRuleDof(nodeLabels, n, bcs[k].component, d);
    }
  }

  // ---------------------------------------------------------------------------
  // Explicit values: as written and as intended
  // ---------------------------------------------------------------------------

  /** As written, `if idx:` is false for the label at reduced index 0, so with
      components 1..3 no item ever addresses a DOF below 3. */
  lemma {:induction false} TruthinessNeverBelowThree(items: seq<(int, real)>, component: int, nodeLabels: seq<int>, d: int)
    requires component >= 1 && d < 3
    ensures LastValue(items, component, ByReducedIndexTruthiness(nodeLabels), d) == None
    decreases |items|
  {
    if items != [] {
      var nodeLabel := items[|items| - 1].0;
      var idx := Where(nodeLabels, nodeLabel);
      if NumpyTruth(idx) == Ok(true) {
        assert idx[0] in idx;
      }
      TruthinessNeverBelowThree(items[..|items| - 1], component, nodeLabels, d);
    }
  }

  lemma {:induction false} TruthinessNoExplicitValueBelowThree(bcs: seq<BoundaryCondition>, nodeLabels: seq<int>, d: int)
    requires forall k :: 0 <= k < |bcs| ==> bcs[k].component >= 1
    requires d < 3
    ensures ExplicitValue(bcs, ByReducedIndexTruthiness(nodeLabels), d) == None
    decreases |bcs|
  {
    if bcs != [] {
      var bc := bcs[|bcs| - 1];
      if bc.values.Some? {
        TruthinessNeverBelowThree(bc.values.value, bc.component, nodeLabels, d);
      }
      TruthinessNoExplicitValueBelowThree(bcs[..|bcs| - 1], nodeLabels, d);
    }
  }

  /** The script as written: the value dictionary never holds DOFs 0, 1, 2,
      whatever values the conditions give for the first node of the list. */
  lemma AsWrittenDropsFirstNode(bcs: seq<BoundaryCondition>, reg: SetRegistry, nodeLabels: seq<int>)
    requires forall k :: 0 <= k < |bcs| ==> bcs[k].component >= 1
    requires CollectSpec(bcs, reg, ByReducedIndex(nodeLabels), ByReducedIndexTruthiness(nodeLabels)).Ok?
    ensures forall d :: d < 3 ==>
      d !in CollectSpec(bcs, reg, ByReducedIndex(nodeLabels), ByReducedIndexTruthiness(nodeLabels)).value.1
  {
    forall d | d < 3
      ensures d !in CollectSpec(bcs, reg, ByReducedIndex(nodeLabels), ByReducedIndexTruthiness(nodeLabels)).value.1
    {
      TruthinessNoExplicitValueBelowThree(bcs, nodeLabels, d);
      ExplicitValuesLastWins(bcs, reg, ByReducedIndex(nodeLabels), ByReducedIndexTruthiness(nodeLabels), d);
    }
  }

  /** Node labels [5, 7], one node set {5} fixed in component 1 with the value
      1.0 for node 5: DOF 0 is prescribed, but as written its value is lost,
      while the intended rule records it. */
  lemma AsWrittenCounterexample()
    ensures var bcs := [BoundaryCondition("base", "node_set", 1, Some([(5, 1.0)]))];
      var reg := SetRegistry(map[], map["base" := [5]]);
      CollectSpec(bcs, reg, ByReducedIndex([5, 7]), ByReducedIndexTruthiness([5, 7])) == Ok(([0], map[])) &&
      CollectSpec(bcs, reg, ByReducedIndex([5, 7]), ByReducedIndex([5, 7])) == Ok(([0], map[0 := 1.0]))
  {
    CounterexampleAsWritten();
    CounterexampleIntended();
  }

  /** The as-written half of the counterexample: the value of DOF 0 is lost. */
  lemma CounterexampleAsWritten()
    ensures var bcs := [BoundaryCondition("base", "node_set", 1, Some([(5, 1.0)]))];
      var reg := SetRegistry(map[], map["base" := [5]]);
      CollectSpec(bcs, reg, ByReducedIndex([5, 7]), ByReducedIndexTruthiness([5, 7])) == Ok(([0], map[]))
  {
    var bcs := [BoundaryCondition("base", "node_set", 1, Some([(5, 1.0)]))];
    var reg := SetRegistry(map[], map["base" := [5]]);
    var nodeLabels := [5, 7];
    CounterexampleDofs();
    assert ReducedDofByTruthiness(nodeLabels, 5, 1) == None;
    assert RecordValues(map[], [(5, 1.0)], 1, ByReducedIndexTruthiness(nodeLabels)) == map[] by {
      assert [(5, 1.0)][1..] == [];
    }
    assert bcs[..0] == [];
    assert CollectSpec(bcs[..0], reg, ByReducedIndex(nodeLabels), ByReducedIndexTruthiness(nodeLabels)) == Ok(([], map[]));
  }

  /** The intended half of the counterexample: DOF 0 keeps the value 1.0. */
  lemma CounterexampleIntended()
    ensures var bcs := [BoundaryCondition("base", "node_set", 1, Some([(5, 1.0)]))];
      var reg := SetRegistry(map[], map["base" := [5]]);
      CollectSpec(bcs, reg, ByReducedIndex([5, 7]), ByReducedIndex([5, 7])) == Ok(([0], map[0 := 1.0]))
  {
    var bcs := [BoundaryCondition("base", "node_set", 1, Some([(5, 1.0)]))];
    var reg := SetRegistry(map[], map["base" := [5]]);
    var nodeLabels := [5, 7];
    CounterexampleDofs();
    assert RecordValues(map[], [(5, 1.0)], 1, ByReducedIndex(nodeLabels)) == map[0 := 1.0] by {
      assert [(5, 1.0)][1..] == [];
    }
    assert bcs[..0] == [];
    assert CollectSpec(bcs[..0], reg, ByReducedIndex(nodeLabels), ByReducedIndex(nodeLabels)) == Ok(([], map[]));
  }

  /** The prescribed DOFs of the counterexample: node 5 in component 1 is DOF 0. */
  lemma CounterexampleDofs()
    ensures ReducedDof([5, 7], 5, 1) == Some(0)
    ensures SetNodes(BoundaryCondition("base", "node_set", 1, Some([(5, 1.0)])), SetRegistry(map[], map["base" := [5]])) == Ok([5])
    ensures RuleDofs([5], 1, ByReducedIndex([5, 7])) == [0]
  {
    CounterexampleWhere();
    CounterexampleRuleDofs();
  }

  /** np.where([5, 7] == 5) is [0]. */
  lemma CounterexampleWhere()
    ensures Where([5, 7], 5) == [0]
  {
    assert [5, 7][..1] == [5] && [5][..0] == [];
    assert Where([5], 5) == [0];
  }

  /** Node 5 of the node set gives the single reduced DOF 0. */
  lemma CounterexampleRuleDofs()
    ensures RuleDofs([5], 1, ByReducedIndex([5, 7])) == [0]
  {
    CounterexampleWhere();
    assert [5][..0] == [];
  }

  /** As intended (the `if len(idx)` rule): DOF d gets an explicit value
      exactly when some condition gives a value for the label at a position p
      of the list with d == 3 p + c - 1, position 0 included. */
  lemma IntendedRecordsEveryListedNode(bcs: seq<BoundaryCondition>, reg: SetRegistry, nodeLabels: seq<int>, d: int)
    requires StrictlySorted(nodeLabels)
    requires CollectSpec(bcs, reg, ByReducedIndex(nodeLabels), ByReducedIndex(nodeLabels)).Ok?
    ensures d in CollectSpec(bcs, reg, ByReducedIndex(nodeLabels), ByReducedIndex(nodeLabels)).value.1 <==>
      exists k, i, p :: 0 <= k < |bcs| && bcs[k].values.Some? && 0 <= i < |bcs[k].values.value| &&
        0 <= p < |nodeLabels| && bcs[k].values.value[i].0 == nodeLabels[p] && d == 3 * p + bcs[k].component - 1
  {
    var rule := ByReducedIndex(nodeLabels);
    ExplicitValuesLastWins(bcs, reg, rule, rule, d);
    ExplicitValueDefined(bcs, rule, d);
    forall k, i | 0 <= k < |bcs| && bcs[k].values.Some? && 0 <= i < |bcs[k].values.value| {
      ReducedRuleDof(nodeLabels, bcs[k].values.value[i].0, bcs[k].component, d);
    }
  }

  // ---------------------------------------------------------------------------
  // Element relabelling
  // ---------------------------------------------------------------------------

  function ElementLabelOf(e: InstanceElement): int { e.elementLabel }

  function NodeLabelOf(n: Node): int { n.nodeLabel }

  /** dict[key(item)] = item for the items in order. */
  function KeyedBy<T>(items: seq<T>, key: T -> int): map<int, T>
    decreases |items|
  {
    if items == [] then map[]
    else KeyedBy(items[..|items| - 1], key)[key(items[|items| - 1]) := items[|items| - 1]]
  }

  /** Every key of an item is present, each entry is an item with that key,
      and the last item with a key is the one kept. */
  lemma {:induction false} KeyedByLookup<T>(items: seq<T>, key: T -> int)
    ensures forall k :: k in KeyedBy(items, key) <==> exists i :: 0 <= i < |items| && key(items[i]) == k
    ensures forall k :: k in KeyedBy(items, key) ==> key(KeyedBy(items, key)[k]) == k && KeyedBy(items, key)[k] in items
    ensures forall i :: 0 <= i < |items| && (forall j :: i < j < |items| ==> key(items[j]) != key(items[i])) ==>
      KeyedBy(items, key)[key(items[i])] == items[i]
    decreases |items|
  {
    if items != [] {
      var init := items[..|items| - 1];
      var last := items[|items| - 1];
      KeyedByLookup(init, key);
      var m := KeyedBy(items, key);
      assert m == KeyedBy(init, key)[key(last) := last];
      forall k | k in m
        ensures key(m[k]) == k && m[k] in items
        ensures exists i :: 0 <= i < |items| && key(items[i]) == k
      {
        if k == key(last) {
          assert items[|items| - 1] == last;
        } else {
          var i :| 0 <= i < |init| && key(init[i]) == k;
          assert items[i] == init[i];
        }
      }
      forall i | 0 <= i < |items| && (forall j :: i < j < |items| ==> key(items[j]) != key(items[i]))
        ensures m[key(items[i])] == items[i]
      {
        if i < |init| {
          assert init[i] == items[i];
          assert forall j :: i < j < |init| ==> init[j] == items[j];
        }
      }
      forall k | exists i :: 0 <= i < |items| && key(items[i]) == k
        ensures k in m
      {
        var i :| 0 <= i < |items| && key(items[i]) == k;
        if i < |init| {
          assert init[i] == items[i];
        }
      }
    }
  }

  /** The loops `for e in instance.elements: instance_elements[e.label] = e`
      and the same for the nodes. */
  method IndexByLabel<T>(items: seq<T>, key: T -> int) returns (m: map<int, T>)
    ensures m == KeyedBy(items, key)
  {
    m := map[];
    for i := 0 to |items|
      invariant m == KeyedBy(items[..i], key)
    {
      assert items[..i + 1][..i] == items[..i];
      m := m[key(items[i]) := items[i]];
    }
    assert items[..|items|] == items;
  }

  /** Node(label=idx, coordinates) with idx = np.where(node_labels == label)[0][0]:
      IndexError when the label is not in the list. */
  function RelabelledNode(abaqusNode: Node, nodeLabels: seq<int>): (r: Result<Node>)
    ensures r.Ok? <==> abaqusNode.nodeLabel in nodeLabels
    ensures r.Err? ==> r.error == IndexError
    ensures r.Ok? ==> (0 <= r.value.nodeLabel < |nodeLabels| && nodeLabels[r.value.nodeLabel] == abaqusNode.nodeLabel &&
      r.value.coordinates == abaqusNode.coordinates)
  {
    var idx := Where(nodeLabels, abaqusNode.nodeLabel);
    if idx == [] then Err(IndexError)
    else
      assert idx[0] in idx;
      Ok(Node(idx[0], abaqusNode.coordinates))
  }

  /** The relabelled nodes of an element, in connectivity order, or the
      IndexError of the first node that is not in the list. */
  function RelabelNodes(abaqusNodes: seq<Node>, nodeLabels: seq<int>): Result<seq<Node>> {
    AllOk(seq(|abaqusNodes|, k requires 0 <= k < |abaqusNodes| => RelabelledNode(abaqusNodes[k], nodeLabels)))
  }

  /** Every node of the element must be in the list; the result is then the
      relabelled nodes in order, otherwise IndexError. */
  lemma RelabelNodesShape(abaqusNodes: seq<Node>, nodeLabels: seq<int>)
    ensures var r := RelabelNodes(abaqusNodes, nodeLabels);
      (r.Ok? <==> forall k :: 0 <= k < |abaqusNodes| ==> abaqusNodes[k].nodeLabel in nodeLabels) &&
      (r.Err? ==> r.error == IndexError) &&
      (r.Ok? ==> (|r.value| == |abaqusNodes| &&
        forall k :: 0 <= k < |abaqusNodes| ==> r.value[k] == RelabelledNode(abaqusNodes[k], nodeLabels).value))
  {
    var ns := seq(|abaqusNodes|, k requires 0 <= k < |abaqusNodes| => RelabelledNode(abaqusNodes[k], nodeLabels));
    assert RelabelNodes(abaqusNodes, nodeLabels) == AllOk(ns);
    assert forall k :: 0 <= k < |abaqusNodes| ==> ns[k] == RelabelledNode(abaqusNodes[k], nodeLabels);
    AllOkShape(ns);
    if AllOk(ns).Err? {
      var k :| 0 <= k < |ns| && (forall m :: 0 <= m < k ==> ns[m].Ok?) && ns[k] == Err(AllOk(ns).error);
    }
  }

  /** [instance_nodes[n] for n in element.connectivity]: KeyError for a label
      that is not a node of the instance. */
  function LookupNodes(connectivity: seq<int>, nodesByLabel: map<int, Node>): (r: Result<seq<Node>>)
    ensures r.Ok? <==> forall k :: 0 <= k < |connectivity| ==> connectivity[k] in nodesByLabel
    ensures r.Err? ==> r.error == KeyError
    ensures r.Ok? ==> (|r.value| == |connectivity| &&
      forall k :: 0 <= k < |connectivity| ==> r.value[k] == nodesByLabel[connectivity[k]])
  {
    if forall k :: 0 <= k < |connectivity| ==> connectivity[k] in nodesByLabel then
      Ok(seq(|connectivity|, k requires 0 <= k < |connectivity| => nodesByLabel[connectivity[k]]))
    else Err(KeyError)
  }

  /** The node list of the element with label L: KeyError for an unknown
      element or node label, then IndexError for a node outside the list,
      then the exception C3D8 raises for the relabelled nodes. */
  function RelabelledElement(eLabel: int, elementsByLabel: map<int, InstanceElement>, nodesByLabel: map<int, Node>,
                             nodeLabels: seq<int>): Result<seq<Node>>
  {
    if eLabel !in elementsByLabel then Err(KeyError)
    else
      match LookupNodes(elementsByLabel[eLabel].connectivity, nodesByLabel)
      case Err(e) => Err(e)
      case Ok(abaqusNodes) =>
        match RelabelNodes(abaqusNodes, nodeLabels)
        case Err(e) => Err(e)
        case Ok(ns) => if ConstructionError(ns).Some? then Err(ConstructionError(ns).value) else Ok(ns)
  }

  /** The element node lists for the labels in order, or the exception of the
      first element that fails. */
  function RelabelSpec(labels: seq<int>, elementsByLabel: map<int, InstanceElement>, nodesByLabel: map<int, Node>,
                       nodeLabels: seq<int>): Result<seq<seq<Node>>>
  {
    AllOk(seq(|labels|, k requires 0 <= k < |labels| => RelabelledElement(labels[k], elementsByLabel, nodesByLabel, nodeLabels)))
  }

  /** The relabelling succeeds exactly when every element does, yields one
      node list per label in order, and otherwise raises the KeyError,
      IndexError or ValueError of the first element that fails. */
  lemma RelabelSpecShape(labels: seq<int>, elementsByLabel: map<int, InstanceElement>,
                         nodesByLabel: map<int, Node>, nodeLabels: seq<int>)
    ensures var r := RelabelSpec(labels, elementsByLabel, nodesByLabel, nodeLabels);
      (r.Ok? <==> forall k :: 0 <= k < |labels| ==> RelabelledElement(labels[k], elementsByLabel, nodesByLabel, nodeLabels).Ok?) &&
      (r.Ok? ==> (|r.value| == |labels| && forall k :: 0 <= k < |labels| ==>
        r.value[k] == RelabelledElement(labels[k], elementsByLabel, nodesByLabel, nodeLabels).value)) &&
      (r.Err? ==> (r.error == KeyError || r.error == IndexError || r.error == ValueError) && exists k :: (0 <= k < |labels| &&
        (forall m :: 0 <= m < k ==> RelabelledElement(labels[m], elementsByLabel, nodesByLabel, nodeLabels).Ok?) &&
        RelabelledElement(labels[k], elementsByLabel, nodesByLabel, nodeLabels) == Err(r.error)))
  {
    var rs := seq(|labels|, k requires 0 <= k < |labels| => RelabelledElement(labels[k], elementsByLabel, nodesByLabel, nodeLabels));
    assert RelabelSpec(labels, elementsByLabel, nodesByLabel, nodeLabels) == AllOk(rs);
    assert forall k :: 0 <= k < |labels| ==> rs[k] == RelabelledElement(labels[k], elementsByLabel, nodesByLabel, nodeLabels);
    AllOkShape(rs);
    if AllOk(rs).Err? {
      var k :| 0 <= k < |rs| && (forall m :: 0 <= m < k ==> rs[m].Ok?) && rs[k] == Err(AllOk(rs).error);
      RelabelledElementErrors(labels[k], elementsByLabel, nodesByLabel, nodeLabels);
    }
  }

  lemma RelabelledElementErrors(eLabel: int, elementsByLabel: map<int, InstanceElement>,
                                nodesByLabel: map<int, Node>, nodeLabels: seq<int>)
    ensures var r := RelabelledElement(eLabel, elementsByLabel, nodesByLabel, nodeLabels);
      r.Err? ==> r.error == KeyError || r.error == IndexError || r.error == ValueError
  {
    if eLabel in elementsByLabel {
      var abaqusNodes := LookupNodes(elementsByLabel[eLabel].connectivity, nodesByLabel);
      if abaqusNodes.Ok? {
        RelabelNodesShape(abaqusNodes.value, nodeLabels);
      }
    }
  }

  /** A relabelled element keeps, node by node, the coordinates of the instance
      node its connectivity names, and its labels are the positions of those
      node labels in the list. */
  lemma RelabelledElementNodes(eLabel: int, instance: Instance, nodeLabels: seq<int>)
    requires RelabelledElement(eLabel, KeyedBy(instance.elements, ElementLabelOf), KeyedBy(instance.nodes, NodeLabelOf),
                               nodeLabels).Ok?
    ensures var byE := KeyedBy(instance.elements, ElementLabelOf);
      var ns := RelabelledElement(eLabel, byE, KeyedBy(instance.nodes, NodeLabelOf), nodeLabels).value;
      eLabel in byE && byE[eLabel] in instance.elements &&
      |ns| == |byE[eLabel].connectivity| &&
      forall k :: 0 <= k < |ns| ==>
        0 <= ns[k].nodeLabel < |nodeLabels| && nodeLabels[ns[k].nodeLabel] == byE[eLabel].connectivity[k] &&
        exists n :: n in instance.nodes && n.nodeLabel == byE[eLabel].connectivity[k] && ns[k].coordinates == n.coordinates
  {
    var byE := KeyedBy(instance.elements, ElementLabelOf);
    var byN := KeyedBy(instance.nodes, NodeLabelOf);
    KeyedByLookup(instance.elements, ElementLabelOf);
    KeyedByLookup(instance.nodes, NodeLabelOf);
    var conn := byE[eLabel].connectivity;
    var abaqusNodes := LookupNodes(conn, byN).value;
    RelabelNodesShape(abaqusNodes, nodeLabels);
    forall k | 0 <= k < |conn|
      ensures byN[conn[k]] in instance.nodes && byN[conn[k]].nodeLabel == conn[k]
    {
      assert NodeLabelOf(byN[conn[k]]) == conn[k];
    }
  }

  /** The loop over abaqus_element_nodes: each node is relabelled by its
      position in node_labels, and the first one missing raises IndexError. */
  method RelabelNodeList(nodes: seq<Node>, nodeLabels: seq<int>) returns (r: Result<seq<Node>>)
    ensures r == RelabelNodes(nodes, nodeLabels)
  {
    var elementNodes: seq<Node> := [];
    ghost var ns := seq(|nodes|, k requires 0 <= k < |nodes| => RelabelledNode(nodes[k], nodeLabels));
    assert RelabelNodes(nodes, nodeLabels) == AllOk(ns);
    for k := 0 to |nodes|
      invariant AllOk(ns[..k]) == Ok(elementNodes)
    {
      var node := RelabelledNode(nodes[k], nodeLabels);
      assert ns[k] == node;
      if node.Err? {
        AllOkFailsAt(ns, k);
        return Err(node.error);
      }
      AllOkStep(ns, k);
      elementNodes := elementNodes + [node.value];
    }
    assert ns[..|nodes|] == ns;
    r := Ok(elementNodes);
  }

  /** One pass of the element loop: elements[e_label], its nodes looked up
      and relabelled, then C3D8 built from them. */
  method RelabelElement(eLabel: int, instanceElements: map<int, InstanceElement>, instanceNodes: map<int, Node>,
                        nodeLabels: seq<int>)
    returns (r: Result<seq<Node>>)
    ensures r == RelabelledElement(eLabel, instanceElements, instanceNodes, nodeLabels)
  {
    if eLabel !in instanceElements {
      return Err(KeyError);
    }
    var abaqusNodes := LookupNodes(instanceElements[eLabel].connectivity, instanceNodes);
    if abaqusNodes.Err? {
      return Err(abaqusNodes.error);
    }
    var elementNodes := RelabelNodeList(abaqusNodes.value, nodeLabels);
    if elementNodes.Err? {
      return Err(elementNodes.error);
    }
    var raised := ConstructionError(elementNodes.value);
    if raised.Some? {
      return Err(raised.value);
    }
    r := elementNodes;
  }

  /** The element loop: instance_elements and instance_nodes are filled, then
      every distinct strain element label, in sorted order, yields the
      relabelled node list C3D8 is built from, or the first exception. */
  method RelabelElements(elementLabels: seq<int>, instance: Instance, nodeLabels: seq<int>)
    returns (r: Result<seq<seq<Node>>>)
    ensures r == RelabelSpec(Unique(elementLabels), KeyedBy(instance.elements, ElementLabelOf),
                             KeyedBy(instance.nodes, NodeLabelOf), nodeLabels)
  {
    var instanceElements := IndexByLabel(instance.elements, ElementLabelOf);
    var instanceNodes := IndexByLabel(instance.nodes, NodeLabelOf);
    var labels := Unique(elementLabels);
    ghost var rs := seq(|labels|, k requires 0 <= k < |labels| =>
      RelabelledElement(labels[k], instanceElements, instanceNodes, nodeLabels));
    var elements: seq<seq<Node>> := [];
    for i := 0 to |labels|
      invariant AllOk(rs[..i]) == Ok(elements)
    {
      var elementNodes := RelabelElement(labels[i], instanceElements, instanceNodes, nodeLabels);
      assert rs[i] == elementNodes;
      if elementNodes.Err? {
        AllOkFailsAt(rs, i);
        return Err(elementNodes.error);
      }
      AllOkStep(rs, i);
      elements := elements + [elementNodes.value];
    }
    assert rs[..|labels|] == rs;
    r := Ok(elements);
  }

  // ---------------------------------------------------------------------------
  // The whole script
  // ---------------------------------------------------------------------------

  /** The pickled result: elements (as node lists), bc_dofs, bc_vals_dict,
      nodal_displacements and node_labels. */
  datatype DefCalculationData = DefCalculationData(elements: seq<seq<Node>>, bcDofs: seq<int>,
                                                   bcValsDict: map<int, real>, nodalDisplacements: seq<real>,
                                                   nodeLabels: seq<int>)

  /** From the element labels and element-nodal labels of the strain field
      (read from the result file) and the boundary conditions: the instance
      (first one for an empty name), the reduced DOFs and values, and the
      relabelled elements. */
  method WriteDataForDefCalculation(root: RootAssembly, instanceName: string, bcs: seq<BoundaryCondition>,
                                    elementLabels: seq<int>, elementNodalLabels: seq<int>)
    returns (r: Result<DefCalculationData>)
    requires ConsistentKeys(root)
    ensures FirstOrNamed(root, NameUnlessEmpty(instanceName)).Err? ==>
      r == Err(FirstOrNamed(root, NameUnlessEmpty(instanceName)).error)
    ensures r.Err? ==> r.error in {IndexError, KeyError, ValueError}
    ensures FirstOrNamed(root, NameUnlessEmpty(instanceName)).Ok? ==>
      var instance := FirstOrNamed(root, NameUnlessEmpty(instanceName)).value;
      var nodeLabels := Unique(elementNodalLabels);
      var rule := ByReducedIndex(nodeLabels);
      var collected := CollectSpec(bcs, Registry(root, instance), rule, rule);
      var elements := RelabelSpec(Unique(elementLabels), KeyedBy(instance.elements, ElementLabelOf),
                                  KeyedBy(instance.nodes, NodeLabelOf), nodeLabels);
      (collected.Err? ==> r == Err(collected.error)) &&
      (collected.Ok? && elements.Err? ==> r == Err(elements.error)) &&
      (collected.Ok? && elements.Ok? ==>
        r == Ok(DefCalculationData(elements.value, Unique(collected.value.0), collected.value.1,
                                   seq(3 * |nodeLabels|, _ => 0.0), nodeLabels)))
  {
    var nodeLabels := Unique(elementNodalLabels);
    var instance := FirstOrNamed(root, NameUnlessEmpty(instanceName));
    if instance.Err? {
      return Err(instance.error);
    }
    var nodalDisplacements := seq(3 * |nodeLabels|, _ => 0.0);
    var reg := Registry(root, instance.value);
    var collected := CollectDofs(bcs, reg, ByReducedIndex(nodeLabels), ByReducedIndex(nodeLabels));
    if collected.Err? {
      CollectErrorKinds(bcs, reg, ByReducedIndex(nodeLabels), ByReducedIndex(nodeLabels));
      return Err(collected.error);
    }
    var bcDofs := Unique(collected.value.0);
    var elements := RelabelElements(elementLabels, instance.value, nodeLabels);
    if elements.Err? {
      RelabelSpecShape(Unique(elementLabels), KeyedBy(instance.value.elements, ElementLabelOf),
                       KeyedBy(instance.value.nodes, NodeLabelOf), nodeLabels);
      return Err(elements.error);
    }
    r := Ok(DefCalculationData(elements.value, bcDofs, collected.value.1, nodalDisplacements, nodeLabels));
  }
}
