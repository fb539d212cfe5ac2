/**
  write_permanent_strain_pickle.py: the data the permanent-deformation
  calculation reads, in label indexing. Every node of every boundary set
  contributes the DOF 3 (L - 1) + c - 1 (no filtering against the analysed
  nodes), explicit values are last-wins per DOF, and the elements of the
  strain field are looked up by label (element L is instance.elements[L - 1],
  node n is instance.nodes[n - 1]) and must form a C3D8.

  The strain field and its element and element-nodal labels are read from
  the result file; they are parameters here.
 */
module WritePermanentStrainPickle {
  import opened Common
  import opened Elements
  import opened BoundaryConditions

  /** The pickled result: strain, the element map (node lists C3D8 is built
      from, keyed by element label), bc_dofs, bc_vals_dict,
      nodal_displacements and element_labels. */
  datatype PermanentStrainData = PermanentStrainData(strain: seq<seq<real>>, elements: map<int, seq<Node>>,
                                                     bcDofs: seq<int>, bcValsDict: map<int, real>,
                                                     nodalDisplacements: seq<real>, elementLabels: seq<int>)

  method WritePermanentStrainPickle(root: RootAssembly, instanceName: string, bcs: seq<BoundaryCondition>,
                                    strain: seq<seq<real>>, elementLabels: seq<int>, elementNodalLabels: seq<int>)
    returns (r: Result<PermanentStrainData>)
    requires ConsistentKeys(root)
    ensures FirstOrNamed(root, NameUnlessEmpty(instanceName)).Err? ==>
      r == Err(FirstOrNamed(root, NameUnlessEmpty(instanceName)).error)
    ensures r.Err? ==> r.error in {IndexError, KeyError, ValueError}
    ensures FirstOrNamed(root, NameUnlessEmpty(instanceName)).Ok? ==>
      var instance := FirstOrNamed(root, NameUnlessEmpty(instanceName)).value;
      var collected := CollectSpec(bcs, Registry(root, instance), ByLabel, ByLabel);
      (collected.Err? ==> r == Err(collected.error)) &&
      (collected.Ok? ==>
        // the elements build exactly when every label and connectivity entry is in range and C3D8 accepts the nodes
        (r.Ok? <==> forall eLabel :: eLabel in elementLabels ==> BuiltElement(eLabel, instance.elements, instance.nodes).Ok?) &&
        (r.Ok? ==>
          var data := r.value;
          data.strain == strain && data.elementLabels == elementLabels &&
          (forall eLabel :: eLabel in data.elements <==> eLabel in elementLabels) &&
          (forall eLabel :: eLabel in data.elements ==>
            data.elements[eLabel] == BuiltElement(eLabel, instance.elements, instance.nodes).value) &&
          data.bcDofs == Unique(collected.value.0) && data.bcValsDict == collected.value.1 &&
          data.nodalDisplacements == seq(3 * |Unique(elementNodalLabels)|, _ => 0.0)))
  {
    var nodeLabels := Unique(elementNodalLabels);
    var instance := FirstOrNamed(root, NameUnlessEmpty(instanceName));
    if instance.Err? {
      return Err(instance.error);
    }
    var nodalDisplacements := seq(3 * |nodeLabels|, _ => 0.0);
    var reg := Registry(root, instance.value);
    var collected := CollectDofs(bcs, reg, ByLabel, ByLabel);
    if collected.Err? {
      CollectErrorKinds(bcs, reg, ByLabel, ByLabel);
      return Err(collected.error);
    }
    var bcDofs := Unique(collected.value.0);
    var elements := BuildElementMap(elementLabels, instance.value.elements, instance.value.nodes);
    if elements.Err? {
      return Err(elements.error);
    }
    r := Ok(PermanentStrainData(strain, elements.value, bcDofs, collected.value.1, nodalDisplacements, elementLabels));
  }
}
