/**
  Boundary conditions and the label-based bookkeeping that
  permanent_deformations.py and write_permanent_strain_pickle.py share: the
  prescribed DOFs 3 (L - 1) + c - 1 of the nodes of every set, the explicit
  values (last one wins) and the element map keyed by element label.

  The result database is replaced by its contents: the surfaces of the root
  assembly and the node sets of the instance as lists of node labels, and the
  instance's node and element lists.
 */
module BoundaryConditions {
  import opened Common
  import opened Elements

  /** A boundary condition: the set it applies to, its kind ("surface" or
      "node_set"), the displacement component 1..3 and optionally explicit
      values as the items of a dictionary node label -> value. */
  datatype BoundaryCondition = BoundaryCondition(setName: string, bcType: string, component: int,
                                                 values: Option<seq<(int, real)>>)

  /** The node labels of the surfaces of the root assembly and of the node
      sets of the instance. */
  datatype SetRegistry = SetRegistry(surfaces: map<string, seq<int>>, nodeSets: map<string, seq<int>>)

  /** An element of the instance: its label and its connectivity (node labels). */
  datatype InstanceElement = InstanceElement(elementLabel: int, connectivity: seq<int>)

  /** What the scripts read from an instance: its nodes and elements in file
      order and its node sets. */
  datatype Instance = Instance(nodes: seq<Node>, elements: seq<InstanceElement>, nodeSets: map<string, seq<int>>)

  /** The root assembly: instances.keys() in order, the instances, and the
      assembly-level surfaces and node sets. */
  datatype RootAssembly = RootAssembly(instanceKeys: seq<string>, instances: map<string, Instance>,
                                       surfaces: map<string, seq<int>>, nodeSets: map<string, seq<int>>)

  predicate ConsistentKeys(root: RootAssembly) {
    (forall name :: name in root.instanceKeys ==> name in root.instances) &&
    (forall name :: name in root.instances ==> name in root.instanceKeys)
  }

  /** instances[instance_name], or instances[instances.keys()[0]] when no
      name is given: IndexError without instances, KeyError for an unknown
      name. */
  function FirstOrNamed(root: RootAssembly, name: Option<string>): (r: Result<Instance>)
    requires ConsistentKeys(root)
    ensures r.Ok? <==> (if name.None? then root.instanceKeys != [] else name.value in root.instances)
    ensures r.Err? ==> r.error == (if name.None? then IndexError else KeyError)
    ensures r.Ok? ==> r.value == root.instances[if name.None? then root.instanceKeys[0] else name.value]
  {
    match name
    case None =>
      if root.instanceKeys == [] then Err(IndexError)
      else
        assert root.instanceKeys[0] in root.instanceKeys;
        Ok(root.instances[root.instanceKeys[0]])
    case Some(n) => if n in root.instances then Ok(root.instances[n]) else Err(KeyError)
  }

  /** `if not instance_name`: the empty name counts as no name. */
  function NameUnlessEmpty(name: string): Option<string> {
    if name == "" then None else Some(name)
  }

  /** The sets a script of the instance can name. */
  function Registry(root: RootAssembly, instance: Instance): SetRegistry {
    SetRegistry(root.surfaces, instance.nodeSets)
  }

  predicate KnownType(bc: BoundaryCondition) {
    bc.bcType == "surface" || bc.bcType == "node_set"
  }

  /** base.nodes of the set a condition names: a surface of the root assembly
      or a node set of the instance; any other kind raises ValueError before
      the lookup, and a missing name raises KeyError. */
  function SetNodes(bc: BoundaryCondition, reg: SetRegistry): Result<seq<int>> {
    if bc.bcType == "surface" then
      (if bc.setName in reg.surfaces then Ok(reg.surfaces[bc.setName]) else Err(KeyError))
    else if bc.bcType == "node_set" then
      (if bc.setName in reg.nodeSets then Ok(reg.nodeSets[bc.setName]) else Err(KeyError))
    else Err(ValueError)
  }

  // ---------------------------------------------------------------------------
  // Label-based DOFs
  // ---------------------------------------------------------------------------

  /** The DOF of component c (1-based) of the node with label L (1-based). */
  function LabelDof(nodeLabel: int, component: int): int {
    3 * (nodeLabel - 1) + component - 1
  }

  /** For components 1..3 the DOF determines the node label and the component. */
  lemma LabelDofDecodes(nodeLabel: int, component: int)
    requires 1 <= component <= 3
    ensures LabelDof(nodeLabel, component) / 3 == nodeLabel - 1
    ensures LabelDof(nodeLabel, component) % 3 == component - 1
  {
    var d := LabelDof(nodeLabel, component);
    assert d == 3 * (nodeLabel - 1) + (component - 1);
  }

  lemma LabelDofInjective(label1: int, c1: int, label2: int, c2: int)
    requires 1 <= c1 <= 3 && 1 <= c2 <= 3
    requires LabelDof(label1, c1) == LabelDof(label2, c2)
    ensures label1 == label2 && c1 == c2
  {
    LabelDofDecodes(label1, c1);
    LabelDofDecodes(label2, c2);
  }

  /** The rule a script uses to turn (node label, component) into a DOF:
      3 (L - 1) + c - 1 by label; 3 k + c - 1 for the position k of L in the
      sorted label list, no DOF when L is absent (`if len(idx)`); the same but
      decided by the truth value of np.where's result (`if idx`). */
  datatype DofRule = ByLabel | ByReducedIndex(nodeLabels: seq<int>) | ByReducedIndexTruthiness(nodeLabels: seq<int>)

  /** The reduced DOF 3 idx[0] + c - 1 of a label found in the list. */
  function ReducedDof(nodeLabels: seq<int>, nodeLabel: int, component: int): Option<int> {
    var idx := Where(nodeLabels, nodeLabel);
    if |idx| > 0 then Some(3 * idx[0] + component - 1) else None
  }

  /** `if idx:` on np.where's result: numpy's truth value of a one-element
      index array is that of its element, so position 0 counts as absent. */
  function ReducedDofByTruthiness(nodeLabels: seq<int>, nodeLabel: int, component: int): Option<int> {
    var idx := Where(nodeLabels, nodeLabel);
    if NumpyTruth(idx) == Ok(true) then Some(3 * idx[0] + component - 1) else None
  }

  function RuleDof(rule: DofRule, nodeLabel: int, component: int): Option<int> {
    match rule
    case ByLabel => Some(LabelDof(nodeLabel, component))
    case ByReducedIndex(nodeLabels) => ReducedDof(nodeLabels, nodeLabel, component)
    case ByReducedIndexTruthiness(nodeLabels) => ReducedDofByTruthiness(nodeLabels, nodeLabel, component)
  }

  /** The DOFs the nodes of one set contribute, in node order. */
  function RuleDofs(nodes: seq<int>, component: int, rule: DofRule): seq<int>
    decreases |nodes|
  {
    if nodes == [] then []
    else
      RuleDofs(nodes[..|nodes| - 1], component, rule) +
      match RuleDof(rule, nodes[|nodes| - 1], component)
      case Some(d) => [d]
      case None => []
  }

  lemma {:induction false} RuleDofsMembership(nodes: seq<int>, component: int, rule: DofRule, d: int)
    ensures d in RuleDofs(nodes, component, rule) <==> exists n :: n in nodes && RuleDof(rule, n, component) == Some(d)
    decreases |nodes|
  {
    if nodes != [] {
      var init := nodes[..|nodes| - 1];
      RuleDofsMembership(init, component, rule, d);
      assert nodes == init + [nodes[|nodes| - 1]];
      if exists n :: n in nodes && RuleDof(rule, n, component) == Some(d) {
        var n :| n in nodes && RuleDof(rule, n, component) == Some(d);
        if n != nodes[|nodes| - 1] {
          var j :| 0 <= j < |nodes| && nodes[j] == n;
          assert init[j] == n;
        }
      }
    }
  }

  /** bc_vals_dict[dof] = value for the items in order, for those items the
      rule gives a DOF. */
  function RecordValues(dict: map<int, real>, items: seq<(int, real)>, component: int, rule: DofRule): map<int, real>
    decreases |items|
  {
    if items == [] then dict
    else
      var dict' := match RuleDof(rule, items[0].0, component)
        case Some(d) => dict[d := items[0].1]
        case None => dict;
      RecordValues(dict', items[1..], component, rule)
  }

  /** Reference definition: the value of the last item that addresses DOF d. */
  function LastValue(items: seq<(int, real)>, component: int, rule: DofRule, d: int): Option<real>
    decreases |items|
  {
    if items == [] then None
    else if RuleDof(rule, items[|items| - 1].0, component) == Some(d) then Some(items[|items| - 1].1)
    else LastValue(items[..|items| - 1], component, rule, d)
  }

  /** Recording the items overlays the dictionary with the last value of each
      addressed DOF and leaves every other entry as it was. */
  lemma {:induction false} RecordValuesOverlay(dict: map<int, real>, items: seq<(int, real)>, component: int,
                                               rule: DofRule, d: int)
    ensures var r := RecordValues(dict, items, component, rule);
      match LastValue(items, component, rule, d)
      case Some(v) => d in r && r[d] == v
      case None => (d in r <==> d in dict) && (d in dict ==> r[d] == dict[d])
    decreases |items|
  {
    if items != [] {
      var dict' := match RuleDof(rule, items[0].0, component)
        case Some(e) => dict[e := items[0].1]
        case None => dict;
      RecordValuesOverlay(dict', items[1..], component, rule, d);
      LastValueFront(items, component, rule, d);
    }
  }

  /** LastValue seen from the front: the tail's last value, else the head's. */
  lemma {:induction false} LastValueFront(items: seq<(int, real)>, component: int, rule: DofRule, d: int)
    requires items != []
    ensures LastValue(items, component, rule, d) ==
      match LastValue(items[1..], component, rule, d)
      case Some(v) => Some(v)
      case None => if RuleDof(rule, items[0].0, component) == Some(d) then Some(items[0].1) else None
    decreases |items|
  {
    if |items| == 1 {
      assert items[1..] == [];
    } else {
      var init := items[..|items| - 1];
      LastValueFront(init, component, rule, d);
      assert init[0] == items[0];
      assert init[1..] == items[1..][..|items[1..]| - 1];
      assert items[1..][|items[1..]| - 1] == items[|items| - 1];
    }
  }

  /** The DOFs and the dictionary after the first |bcs| conditions, or the
      exception the first failing lookup raises. */
  function CollectSpec(bcs: seq<BoundaryCondition>, reg: SetRegistry, nodeRule: DofRule, valueRule: DofRule)
    : Result<(seq<int>, map<int, real>)>
    decreases |bcs|
  {
    if bcs == [] then Ok(([], map[]))
    else match CollectSpec(bcs[..|bcs| - 1], reg, nodeRule, valueRule)
      case Err(e) => Err(e)
      case Ok(acc) =>
        var bc := bcs[|bcs| - 1];
        match SetNodes(bc, reg)
        case Err(e) => Err(e)
        case Ok(nodes) =>
          Ok((acc.0 + RuleDofs(nodes, bc.component, nodeRule),
              match bc.values
              case None => acc.1
              case Some(items) => RecordValues(acc.1, items, bc.component, valueRule)))
  }

  /** The BC loop: for each condition the DOF of every node of its set is
      appended (when the rule gives one), then its explicit values are
      recorded. */
  method CollectDofs(bcs: seq<BoundaryCondition>, reg: SetRegistry, nodeRule: DofRule, valueRule: DofRule)
    returns (r: Result<(seq<int>, map<int, real>)>)
    ensures r == CollectSpec(bcs, reg, nodeRule, valueRule)
  {
    var bcDofs: seq<int> := [];
    var bcValsDict: map<int, real> := map[];
    for i := 0 to |bcs|
      invariant CollectSpec(bcs[..i], reg, nodeRule, valueRule) == Ok((bcDofs, bcValsDict))
    {
      var bc := bcs[i];
      assert bcs[..i + 1][..i] == bcs[..i];
      var base := SetNodes(bc, reg);
      if base.Err? {
        CollectErrorPersists(bcs, reg, nodeRule, valueRule, i + 1);
        return Err(base.error);
      }
      bcDofs := AppendRuleDofs(bcDofs, base.value, bc.component, nodeRule);
      if bc.values.Some? {
        bcValsDict := RecordItems(bcValsDict, bc.values.value, bc.component, valueRule);
      }
    }
    assert bcs[..|bcs|] == bcs;
    r := Ok((bcDofs, bcValsDict));
  }

  /** `for n in nodes: bc_dofs.append(dof)` for the nodes the rule gives a DOF. */
  method AppendRuleDofs(dofs: seq<int>, nodes: seq<int>, component: int, rule: DofRule) returns (r: seq<int>)
    ensures r == dofs + RuleDofs(nodes, component, rule)
  {
    r := dofs;
    for k := 0 to |nodes|
      invariant r == dofs + RuleDofs(nodes[..k], component, rule)
    {
      var dof := RuleDof(rule, nodes[k], component);
      RuleDofsStep(nodes, k, component, rule);
      if dof.Some? {
        r := r + [dof.value];
      }
    }
    assert nodes[..|nodes|] == nodes;
  }

  lemma RuleDofsStep(nodes: seq<int>, k: nat, component: int, rule: DofRule)
    requires k < |nodes|
    ensures RuleDofs(nodes[..k + 1], component, rule) == RuleDofs(nodes[..k], component, rule) +
      match RuleDof(rule, nodes[k], component)
      case Some(d) => [d]
      case None => []
  {
    assert nodes[..k + 1][..k] == nodes[..k];
  }

  /** `for label, value in items: bc_vals_dict[dof] = value` for the items the
      rule gives a DOF. */
  method RecordItems(dict: map<int, real>, items: seq<(int, real)>, component: int, rule: DofRule)
    returns (r: map<int, real>)
    ensures r == RecordValues(dict, items, component, rule)
  {
    r := dict;
    for k := 0 to |items|
      invariant RecordValues(r, items[k..], component, rule) == RecordValues(dict, items, component, rule)
    {
      assert items[k..][1..] == items[k + 1..];
      var dof := RuleDof(rule, items[k].0, component);
      if dof.Some? {
        r := r[dof.value := items[k].1];
      }
    }
    assert items[|items|..] == [];
  }

  /** Once a prefix fails, the whole collection fails with the same exception. */
  lemma {:induction false} CollectErrorPersists(bcs: seq<BoundaryCondition>, reg: SetRegistry, nodeRule: DofRule,
                                                valueRule: DofRule, i: nat)
    requires i <= |bcs| && CollectSpec(bcs[..i], reg, nodeRule, valueRule).Err?
    ensures CollectSpec(bcs, reg, nodeRule, valueRule) == CollectSpec(bcs[..i], reg, nodeRule, valueRule)
    decreases |bcs| - i
  {
    if i < |bcs| {
      assert bcs[..i + 1][..i] == bcs[..i];
      CollectErrorPersists(bcs, reg, nodeRule, valueRule, i + 1);
    } else {
      assert bcs[..i] == bcs;
    }
  }

  /** The collection succeeds exactly when every condition's set lookup does. */
  lemma {:induction false} CollectOkIff(bcs: seq<BoundaryCondition>, reg: SetRegistry, nodeRule: DofRule, valueRule: DofRule)
    ensures CollectSpec(bcs, reg, nodeRule, valueRule).Ok? <==> forall k :: 0 <= k < |bcs| ==> SetNodes(bcs[k], reg).Ok?
    decreases |bcs|
  {
    if bcs != [] {
      var init := bcs[..|bcs| - 1];
      CollectOkIff(init, reg, nodeRule, valueRule);
      assert forall k :: 0 <= k < |init| ==> init[k] == bcs[k];
    }
  }

  /** The exception is that of the first condition whose lookup fails. */
  lemma {:induction false} CollectFirstFailure(bcs: seq<BoundaryCondition>, reg: SetRegistry, nodeRule: DofRule,
                                               valueRule: DofRule, k: nat)
    requires k < |bcs| && SetNodes(bcs[k], reg).Err?
    requires forall m :: 0 <= m < k ==> SetNodes(bcs[m], reg).Ok?
    ensures CollectSpec(bcs, reg, nodeRule, valueRule) == Err(SetNodes(bcs[k], reg).error)
    decreases |bcs|
  {
    var init := bcs[..|bcs| - 1];
    if k < |init| {
      assert forall m :: 0 <= m <= k ==> init[m] == bcs[m];
      CollectFirstFailure(init, reg, nodeRule, valueRule, k);
    } else {
      CollectOkIff(init, reg, nodeRule, valueRule);
      assert forall m :: 0 <= m < |init| ==> init[m] == bcs[m];
    }
  }

  /** The collection can only fail with ValueError (unknown kind) or KeyError
      (missing set). */
  lemma {:induction false} CollectErrorKinds(bcs: seq<BoundaryCondition>, reg: SetRegistry, nodeRule: DofRule,
                                             valueRule: DofRule)
    requires CollectSpec(bcs, reg, nodeRule, valueRule).Err?
    ensures CollectSpec(bcs, reg, nodeRule, valueRule).error in {KeyError, ValueError}
    decreases |bcs|
  {
    var init := bcs[..|bcs| - 1];
    if CollectSpec(init, reg, nodeRule, valueRule).Err? {
      CollectErrorKinds(init, reg, nodeRule, valueRule);
    }
  }

  /** An unknown kind raises ValueError once every earlier lookup succeeded. */
  lemma UnknownTypeRaisesValueError(bcs: seq<BoundaryCondition>, reg: SetRegistry, nodeRule: DofRule,
                                    valueRule: DofRule, k: nat)
    requires k < |bcs| && !KnownType(bcs[k])
    requires forall m :: 0 <= m < k ==> SetNodes(bcs[m], reg).Ok?
    ensures CollectSpec(bcs, reg, nodeRule, valueRule) == Err(ValueError)
  {
    CollectFirstFailure(bcs, reg, nodeRule, valueRule, k);
  }

  /** The collected DOFs are exactly the DOFs the rule gives the nodes of the
      conditions' sets. */
  lemma {:induction false} CollectMembership(bcs: seq<BoundaryCondition>, reg: SetRegistry, nodeRule: DofRule,
                                             valueRule: DofRule, d: int)
    requires CollectSpec(bcs, reg, nodeRule, valueRule).Ok?
    ensures d in CollectSpec(bcs, reg, nodeRule, valueRule).value.0 <==>
      exists k, n :: 0 <= k < |bcs| && SetNodes(bcs[k], reg).Ok? && n in SetNodes(bcs[k], reg).value &&
        RuleDof(nodeRule, n, bcs[k].component) == Some(d)
    decreases |bcs|
  {
    if bcs != [] {
      var init := bcs[..|bcs| - 1];
      var bc := bcs[|bcs| - 1];
      CollectMembership(init, reg, nodeRule, valueRule, d);
      var nodes := SetNodes(bc, reg).value;
      RuleDofsMembership(nodes, bc.component, nodeRule, d);
      var before := CollectSpec(init, reg, nodeRule, valueRule).value.0;
      var after := CollectSpec(bcs, reg, nodeRule, valueRule).value.0;
      assert after == before + RuleDofs(nodes, bc.component, nodeRule);
      if d in after {
        if d in before {
          var k, n :| 0 <= k < |init| && SetNodes(init[k], reg).Ok? && n in SetNodes(init[k], reg).value &&
            RuleDof(nodeRule, n, init[k].component) == Some(d);
          assert init[k] == bcs[k];
        } else {
          var n :| n in nodes && RuleDof(nodeRule, n, bc.component) == Some(d);
          assert SetNodes(bcs[|bcs| - 1], reg).Ok? && n in SetNodes(bcs[|bcs| - 1], reg).value;
        }
      } else {
        forall k, n | 0 <= k < |bcs| && SetNodes(bcs[k], reg).Ok? && n in SetNodes(bcs[k], reg).value
          ensures RuleDof(nodeRule, n, bcs[k].component) != Some(d)
        {
          if k < |init| {
            assert init[k] == bcs[k];
          }
        }
      }
    }
  }

  /** By label every node of every set contributes 3 (L - 1) + c - 1, with no
      filtering against the analysed nodes. */
  lemma LabelDofsMembership(bcs: seq<BoundaryCondition>, reg: SetRegistry, d: int)
    requires CollectSpec(bcs, reg, ByLabel, ByLabel).Ok?
    ensures d in CollectSpec(bcs, reg, ByLabel, ByLabel).value.0 <==>
      exists k, n :: 0 <= k < |bcs| && SetNodes(bcs[k], reg).Ok? && n in SetNodes(bcs[k], reg).value &&
        d == LabelDof(n, bcs[k].component)
  {
    CollectMembership(bcs, reg, ByLabel, ByLabel, d);
  }

  /** Reference definition: the explicit value for DOF d given by the last
      condition whose values address d. */
  function ExplicitValue(bcs: seq<BoundaryCondition>, rule: DofRule, d: int): Option<real>
    decreases |bcs|
  {
    if bcs == [] then None
    else
      var bc := bcs[|bcs| - 1];
      var own := match bc.values
        case None => None
        case Some(items) => LastValue(items, bc.component, rule, d);
      if own.Some? then own else ExplicitValue(bcs[..|bcs| - 1], rule, d)
  }

  /** The dictionary holds exactly the DOFs that have an explicit value, each
      with the value of the last condition (and last item) that sets it. */
  lemma {:induction false} ExplicitValuesLastWins(bcs: seq<BoundaryCondition>, reg: SetRegistry, nodeRule: DofRule,
                                                  valueRule: DofRule, d: int)
    requires CollectSpec(bcs, reg, nodeRule, valueRule).Ok?
    ensures var dict := CollectSpec(bcs, reg, nodeRule, valueRule).value.1;
      match ExplicitValue(bcs, valueRule, d)
      case Some(v) => d in dict && dict[d] == v
      case None => d !in dict
    decreases |bcs|
  {
    if bcs != [] {
      var init := bcs[..|bcs| - 1];
      var bc := bcs[|bcs| - 1];
      ExplicitValuesLastWins(init, reg, nodeRule, valueRule, d);
      if bc.values.Some? {
        RecordValuesOverlay(CollectSpec(init, reg, nodeRule, valueRule).value.1, bc.values.value, bc.component, valueRule, d);
      }
    }
  }

  /** An item gives DOF d a value exactly when the rule maps its label to d. */
  lemma {:induction false} LastValueDefined(items: seq<(int, real)>, component: int, rule: DofRule, d: int)
    ensures LastValue(items, component, rule, d).Some? <==>
      exists i :: 0 <= i < |items| && RuleDof(rule, items[i].0, component) == Some(d)
    decreases |items|
  {
    if items != [] {
      var init := items[..|items| - 1];
      LastValueDefined(init, component, rule, d);
      if exists i :: 0 <= i < |items| && RuleDof(rule, items[i].0, component) == Some(d) {
        var i :| 0 <= i < |items| && RuleDof(rule, items[i].0, component) == Some(d);
        if i < |init| {
          assert init[i] == items[i];
        }
      }
      if exists i :: 0 <= i < |init| && RuleDof(rule, init[i].0, component) == Some(d) {
        var i :| 0 <= i < |init| && RuleDof(rule, init[i].0, component) == Some(d);
        assert items[i] == init[i];
      }
    }
  }

  /** DOF d has an explicit value exactly when some item of some condition
      addresses it. */
  lemma {:induction false} ExplicitValueDefined(bcs: seq<BoundaryCondition>, rule: DofRule, d: int)
    ensures ExplicitValue(bcs, rule, d).Some? <==>
      exists k, i :: 0 <= k < |bcs| && bcs[k].values.Some? && 0 <= i < |bcs[k].values.value| &&
        RuleDof(rule, bcs[k].values.value[i].0, bcs[k].component) == Some(d)
    decreases |bcs|
  {
    if bcs != [] {
      var init := bcs[..|bcs| - 1];
      var bc := bcs[|bcs| - 1];
      ExplicitValueDefined(init, rule, d);
      if bc.values.Some? {
        LastValueDefined(bc.values.value, bc.component, rule, d);
      }
      if exists k, i :: 0 <= k < |bcs| && bcs[k].values.Some? && 0 <= i < |bcs[k].values.value| &&
          RuleDof(rule, bcs[k].values.value[i].0, bcs[k].component) == Some(d) {
        var k, i :| 0 <= k < |bcs| && bcs[k].values.Some? && 0 <= i < |bcs[k].values.value| &&
          RuleDof(rule, bcs[k].values.value[i].0, bcs[k].component) == Some(d);
        if k < |init| {
          assert init[k] == bcs[k];
        }
      }
      if exists k, i :: 0 <= k < |init| && init[k].values.Some? && 0 <= i < |init[k].values.value| &&
          RuleDof(rule, init[k].values.value[i].0, init[k].component) == Some(d) {
        var k, i :| 0 <= k < |init| && init[k].values.Some? && 0 <= i < |init[k].values.value| &&
          RuleDof(rule, init[k].values.value[i].0, init[k].component) == Some(d);
        assert bcs[k] == init[k];
      }
    }
  }

  // ---------------------------------------------------------------------------
  // The element map keyed by element label
  // ---------------------------------------------------------------------------

  /** [instance.nodes[n - 1] for n in connectivity]. */
  function ConnectivityNodes(connectivity: seq<int>, nodes: seq<Node>): (r: Result<seq<Node>>)
    ensures r.Ok? <==> forall k :: 0 <= k < |connectivity| ==> PyIndex(nodes, connectivity[k] - 1).Ok?
    ensures r.Err? ==> r.error == IndexError
    ensures r.Ok? ==> (|r.value| == |connectivity| &&
      forall k :: 0 <= k < |connectivity| ==> r.value[k] == PyIndex(nodes, connectivity[k] - 1).value)
    decreases |connectivity|
  {
    if connectivity == [] then Ok([])
    else
      match PyIndex(nodes, connectivity[0] - 1)
      case Err(e) => Err(e)
      case Ok(n) =>
        match ConnectivityNodes(connectivity[1..], nodes)
        case Err(e) => Err(e)
        case Ok(rest) => Ok([n] + rest)
  }

  /** The nodes of the element with label L: instance.elements[L - 1]. */
  function ElementNodes(eLabel: int, elements: seq<InstanceElement>, nodes: seq<Node>): Result<seq<Node>> {
    match PyIndex(elements, eLabel - 1)
    case Err(e) => Err(e)
    case Ok(element) => ConnectivityNodes(element.connectivity, nodes)
  }

  /** elements[e_label] = C3D8(element_nodes): the element's nodes once
      C3D8 accepts them, the IndexError of a missing element or node, or the
      exception C3D8 raises. */
  function BuiltElement(eLabel: int, elements: seq<InstanceElement>, nodes: seq<Node>): Result<seq<Node>> {
    match ElementNodes(eLabel, elements, nodes)
    case Err(e) => Err(e)
    case Ok(ns) => if ConstructionError(ns).Some? then Err(ConstructionError(ns).value) else Ok(ns)
  }

  /** The exception of the first label whose element does not build, if any. */
  function FirstBuildError(labels: seq<int>, elements: seq<InstanceElement>, nodes: seq<Node>): (r: Option<Error>)
    ensures r.None? <==> forall eLabel :: eLabel in labels ==> BuiltElement(eLabel, elements, nodes).Ok?
    ensures r.Some? ==> r.value == IndexError || r.value == ValueError
    decreases |labels|
  {
    if labels == [] then None
    else if BuiltElement(labels[0], elements, nodes).Err? then Some(BuiltElement(labels[0], elements, nodes).error)
    else FirstBuildError(labels[1..], elements, nodes)
  }

  /** elements[e_label] for every distinct strain-point element label, in
      sorted order; the first label that fails raises its exception. */
  method BuildElementMap(elementLabels: seq<int>, elements: seq<InstanceElement>, nodes: seq<Node>)
    returns (r: Result<map<int, seq<Node>>>)
    ensures r.Ok? <==> forall eLabel :: eLabel in elementLabels ==> BuiltElement(eLabel, elements, nodes).Ok?
    ensures r.Err? ==> r.error == IndexError || r.error == ValueError
    ensures r.Err? ==> FirstBuildError(Unique(elementLabels), elements, nodes) == Some(r.error)
    ensures r.Ok? ==> ((forall eLabel :: eLabel in r.value <==> eLabel in elementLabels) &&
      forall eLabel :: eLabel in r.value ==> r.value[eLabel] == BuiltElement(eLabel, elements, nodes).value)
  {
    var labels := Unique(elementLabels);
    var m: map<int, seq<Node>> := map[];
    for i := 0 to |labels|
      invariant forall eLabel :: eLabel in m <==> eLabel in labels[..i]
      invariant forall eLabel :: eLabel in m ==> BuiltElement(eLabel, elements, nodes) == Ok(m[eLabel])
      invariant FirstBuildError(labels, elements, nodes) == FirstBuildError(labels[i..], elements, nodes)
    {
      var element := PyIndex(elements, labels[i] - 1);
      assert labels[i] in labels;
      assert labels[i] in elementLabels;
      assert labels[i..][0] == labels[i] && labels[i..][1..] == labels[i + 1..];
      if element.Err? {
        assert BuiltElement(labels[i], elements, nodes) == Err(element.error);
        return Err(element.error);
      }
      var elementNodes := ConnectivityNodes(element.value.connectivity, nodes);
      if elementNodes.Err? {
        assert BuiltElement(labels[i], elements, nodes) == Err(elementNodes.error);
        return Err(elementNodes.error);
      }
      var raised := ConstructionError(elementNodes.value);
      if raised.Some? {
        assert BuiltElement(labels[i], elements, nodes) == Err(raised.value);
        return Err(raised.value);
      }
      m := m[labels[i] := elementNodes.value];
    }
    assert labels[..|labels|] == labels;
    r := Ok(m);
  }
}
