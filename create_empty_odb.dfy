/**
  create_empty_odb.py: a new result file holding only the geometry of an old
  one. Nodes and elements of every part and instance are copied, elements
  grouped by type; each instance gets a part of its own name.

  The calls into the result-file library are outputs here: the node block
  and the element groups handed to addNodes / addElements, and the table of
  part types the new file ends up with.
 */
module CreateEmptyOdb {
  import opened Common

  datatype Node = Node(nodeLabel: int, coordinates: seq<real>)

  datatype Element = Element(elementLabel: int, kind: string, connectivity: seq<int>)

  /** The arguments of one addNodes call: parallel label and coordinate lists. */
  datatype NodeBlock = NodeBlock(labels: seq<int>, coordinates: seq<seq<real>>)

  /** The arguments of one addElements call: one element type with parallel
      label and connectivity lists. */
  datatype Group = Group(kind: string, labels: seq<int>, connectivity: seq<seq<int>>)

  // ---------------------------------------------------------------------------
  // Grouping by element type
  // ---------------------------------------------------------------------------

  /** The position of the group of the given type, if there is one. */
  function FindKind(groups: seq<Group>, kind: string): (r: Option<nat>)
    ensures r.Some? ==> r.value < |groups| && groups[r.value].kind == kind
    ensures r.None? ==> forall j :: 0 <= j < |groups| ==> groups[j].kind != kind
  {
    if groups == [] then None
    else if groups[0].kind == kind then Some(0)
    else match FindKind(groups[1..], kind)
      case None => None
      case Some(j) => Some(j + 1)
  }

  /** One pass of the grouping loop: a new group for an unseen type, else the
      element is appended to its type's lists. */
  function GroupStep(groups: seq<Group>, e: Element): seq<Group> {
    match FindKind(groups, e.kind)
    case None => groups + [Group(e.kind, [e.elementLabel], [e.connectivity])]
    case Some(j) => groups[j := Group(e.kind, groups[j].labels + [e.elementLabel], groups[j].connectivity + [e.connectivity])]
  }

  /** element_dict after the loop over the given elements. */
  function GroupsOf(es: seq<Element>): seq<Group> {
    if es == [] then [] else GroupStep(GroupsOf(es[..|es| - 1]), es[|es| - 1])
  }

  /** The labels of the elements of one type, in source order. */
  function LabelsOfKind(es: seq<Element>, kind: string): seq<int> {
    if es == [] then []
    else LabelsOfKind(es[..|es| - 1], kind) + if es[|es| - 1].kind == kind then [es[|es| - 1].elementLabel] else []
  }

  /** The connectivities of the elements of one type, in source order. */
  function ConnectivityOfKind(es: seq<Element>, kind: string): seq<seq<int>> {
    if es == [] then []
    else ConnectivityOfKind(es[..|es| - 1], kind) + if es[|es| - 1].kind == kind then [es[|es| - 1].connectivity] else []
  }

  predicate DistinctKinds(groups: seq<Group>) {
    forall i, j :: 0 <= i < j < |groups| ==> groups[i].kind != groups[j].kind
  }

  /** Every element's type has a group. */
  predicate Covers(groups: seq<Group>, es: seq<Element>) {
    forall i :: 0 <= i < |es| ==> FindKind(groups, es[i].kind).Some?
  }

  /** Each group holds exactly the elements of its type, in order. */
  predicate ListsMatch(groups: seq<Group>, es: seq<Element>) {
    forall j :: 0 <= j < |groups| ==>
      groups[j].labels == LabelsOfKind(es, groups[j].kind) && groups[j].labels != [] &&
      groups[j].connectivity == ConnectivityOfKind(es, groups[j].kind)
  }

  /** A group is the exact record of its type: every element of that type, in
      order, and nothing else; and there is one group per type. */
  predicate GroupsDescribe(groups: seq<Group>, es: seq<Element>) {
    DistinctKinds(groups) && Covers(groups, es) && ListsMatch(groups, es)
  }

  /** A type no element has collects nothing. */
  lemma {:induction false} AbsentKindIsEmpty(es: seq<Element>, kind: string)
    requires forall i :: 0 <= i < |es| ==> es[i].kind != kind
    ensures LabelsOfKind(es, kind) == [] && ConnectivityOfKind(es, kind) == []
  {
    if es != [] {
      AbsentKindIsEmpty(es[..|es| - 1], kind);
    }
  }

  /** Each element lands in exactly the group of its type, in source order,
      the groups have distinct types, and the types are exactly those of the
      elements: addElements is called once per distinct type. */
  lemma {:induction false} GroupsOfMeaning(es: seq<Element>)
    ensures GroupsDescribe(GroupsOf(es), es)
  {
    if es != [] {
      var init, e := es[..|es| - 1], es[|es| - 1];
      GroupsOfMeaning(init);
      assert es == init + [e];
      GroupStepDescribes(GroupsOf(init), init, e);
    }
  }

  /** Appending one element extends only the lists of its own type. */
  lemma OfKindSnoc(init: seq<Element>, e: Element, kind: string)
    ensures LabelsOfKind(init + [e], kind) == LabelsOfKind(init, kind) + if e.kind == kind then [e.elementLabel] else []
    ensures ConnectivityOfKind(init + [e], kind) == ConnectivityOfKind(init, kind) + if e.kind == kind then [e.connectivity] else []
  {
    assert (init + [e])[..|init|] == init;
  }

  /** Every element whose type has a group before a step still has one after:
      a step adds or extends a group and never drops a type. */
  lemma StepKeepsKinds(groups: seq<Group>, init: seq<Element>, e: Element)
    requires Covers(groups, init)
    ensures Covers(GroupStep(groups, e), init + [e])
  {
    var es, next := init + [e], GroupStep(groups, e);
    assert |next| >= |groups|;
    assert forall k :: 0 <= k < |groups| ==> next[k].kind == groups[k].kind;
    forall i | 0 <= i < |es|
      ensures FindKind(next, es[i].kind).Some?
    {
      if i < |init| {
        assert es[i] == init[i];
        FindKindComplete(next, es[i].kind, FindKind(groups, init[i].kind).value);
      } else {
        FindKindComplete(next, e.kind, if FindKind(groups, e.kind).Some? then FindKind(groups, e.kind).value else |groups|);
      }
    }
  }

  /** A type without a group has no element yet. */
  lemma UnseenKindIsEmpty(groups: seq<Group>, init: seq<Element>, kind: string)
    requires Covers(groups, init) && FindKind(groups, kind).None?
    ensures LabelsOfKind(init, kind) == [] && ConnectivityOfKind(init, kind) == []
  {
    forall i | 0 <= i < |init|
      ensures init[i].kind != kind
    {
      assert FindKind(groups, init[i].kind).Some?;
    }
    AbsentKindIsEmpty(init, kind);
  }

  /** A new group starts from nothing and the lists of the other types are
      kept. */
  lemma NewKindLists(groups: seq<Group>, init: seq<Element>, e: Element)
    requires ListsMatch(groups, init) && FindKind(groups, e.kind).None?
    requires LabelsOfKind(init, e.kind) == [] && ConnectivityOfKind(init, e.kind) == []
    ensures ListsMatch(GroupStep(groups, e), init + [e])
  {
    var next := groups + [Group(e.kind, [e.elementLabel], [e.connectivity])];
    assert GroupStep(groups, e) == next;
    forall j | 0 <= j < |next|
      ensures next[j].labels == LabelsOfKind(init + [e], next[j].kind) && next[j].labels != []
      ensures next[j].connectivity == ConnectivityOfKind(init + [e], next[j].kind)
    {
      if j < |groups| {
        assert next[j] == groups[j] && groups[j].kind != e.kind;
        OfKindSnoc(init, e, groups[j].kind);
      } else {
        OfKindSnoc(init, e, e.kind);
      }
    }
  }

  /** The element extends the lists of its own type's group and no other. */
  lemma KnownKindLists(groups: seq<Group>, init: seq<Element>, e: Element, j: nat)
    requires DistinctKinds(groups) && ListsMatch(groups, init)
    requires FindKind(groups, e.kind) == Some(j)
    ensures ListsMatch(GroupStep(groups, e), init + [e])
  {
    var next := groups[j := Group(e.kind, groups[j].labels + [e.elementLabel], groups[j].connectivity + [e.connectivity])];
    assert GroupStep(groups, e) == next;
    forall k | 0 <= k < |next|
      ensures next[k].labels == LabelsOfKind(init + [e], next[k].kind) && next[k].labels != []
      ensures next[k].connectivity == ConnectivityOfKind(init + [e], next[k].kind)
    {
      if k == j {
        OfKindSnoc(init, e, e.kind);
      } else {
        assert next[k] == groups[k] && groups[k].kind != e.kind;
        OfKindSnoc(init, e, groups[k].kind);
      }
    }
  }

  /** A step opens a group only for a type without one. */
  lemma StepKeepsDistinct(groups: seq<Group>, e: Element)
    requires DistinctKinds(groups)
    ensures DistinctKinds(GroupStep(groups, e))
  {
  }

  /** An element of an unseen type opens a new group at the end; one of a
      known type is appended to that type's group. */
  lemma GroupStepDescribes(groups: seq<Group>, init: seq<Element>, e: Element)
    requires GroupsDescribe(groups, init)
    ensures GroupsDescribe(GroupStep(groups, e), init + [e])
  {
    match FindKind(groups, e.kind) {
      case None =>
        UnseenKindIsEmpty(groups, init, e.kind);
        NewKindLists(groups, init, e);
      case Some(j) => KnownKindLists(groups, init, e, j);
    }
    StepKeepsKinds(groups, init, e);
    StepKeepsDistinct(groups, e);
  }

  /** A type that some group has is found. */
  lemma {:induction false} FindKindComplete(groups: seq<Group>, kind: string, j: nat)
    requires j < |groups| && groups[j].kind == kind
    ensures FindKind(groups, kind).Some?
  {
    if groups[0].kind != kind {
      FindKindComplete(groups[1..], kind, j - 1);
    }
  }

  // ---------------------------------------------------------------------------
  // _copy_node_and_elements
  // ---------------------------------------------------------------------------

  /** _copy_node_and_elements: the addNodes call, made only when there are
      nodes, with labels and coordinates parallel and in source order; and
      the addElements calls, one per element type. */
  method CopyNodesAndElements(nodes: seq<Node>, elements: seq<Element>)
    returns (nodeCall: Option<NodeBlock>, elementCalls: seq<Group>)
    ensures nodeCall.Some? <==> |nodes| > 0
    ensures nodeCall.Some? ==>
      |nodeCall.value.labels| == |nodes| && |nodeCall.value.coordinates| == |nodes| &&
      forall i :: 0 <= i < |nodes| ==>
        nodeCall.value.labels[i] == nodes[i].nodeLabel && nodeCall.value.coordinates[i] == nodes[i].coordinates
    ensures elementCalls == GroupsOf(elements)
    ensures GroupsDescribe(elementCalls, elements)
  {
    nodeCall := None;
    if |nodes| > 0 {
      var labels: seq<int> := [];
      var coordinates: seq<seq<real>> := [];
      for i := 0 to |nodes|
        invariant |labels| == i && |coordinates| == i
        invariant forall k :: 0 <= k < i ==> labels[k] == nodes[k].nodeLabel && coordinates[k] == nodes[k].coordinates
      {
        labels := labels + [nodes[i].nodeLabel];
        coordinates := coordinates + [nodes[i].coordinates];
      }
      nodeCall := Some(NodeBlock(labels, coordinates));
    }
    var groups: seq<Group> := [];
    for i := 0 to |elements|
      invariant groups == GroupsOf(elements[..i])
    {
      var e := elements[i];
      ghost var before := groups;
      assert elements[..i + 1][..i] == elements[..i] && elements[..i + 1][i] == e;
      var found := FindKind(groups, e.kind);
      var j;
      if found.None? {
        groups := groups + [Group(e.kind, [], [])];
        j := |groups| - 1;
      } else {
        j := found.value;
      }
      groups := groups[j := Group(e.kind, groups[j].labels + [e.elementLabel], groups[j].connectivity + [e.connectivity])];
      if found.None? {
        assert [] + [e.elementLabel] == [e.elementLabel] && [] + [e.connectivity] == [e.connectivity];
        assert groups == before + [Group(e.kind, [e.elementLabel], [e.connectivity])];
      }
      assert groups == GroupStep(before, e);
    }
    assert elements[..|elements|] == elements;
    elementCalls := groups;
    GroupsOfMeaning(elements);
  }

  // ---------------------------------------------------------------------------
  // Parts and instances
  // ---------------------------------------------------------------------------

  const DeformableBody: string := "DEFORMABLE_BODY"

  /** The part an instance is copied into. */
  datatype PartChoice = ExistingPart | PartOfOldType(partType: string) | DefaultPart

  /** The try/except chain: the new file's part of that name, else a new part
      of the old part's type, else a new DEFORMABLE_BODY part. */
  function InstancePart(newParts: map<string, string>, oldParts: map<string, string>, name: string): (r: PartChoice)
    ensures r.ExistingPart? <==> name in newParts
    ensures r.PartOfOldType? <==> name !in newParts && name in oldParts
    ensures r.PartOfOldType? ==> r.partType == oldParts[name]
  {
    if name in newParts then ExistingPart
    else if name in oldParts then PartOfOldType(oldParts[name])
    else DefaultPart
  }

  /** The old parts as a table of types. */
  function PartTable(parts: seq<(string, string)>): (m: map<string, string>)
    ensures forall n :: n in m <==> exists i :: 0 <= i < |parts| && parts[i].0 == n
  {
    if parts == [] then map[]
    else PartTable(parts[..|parts| - 1])[parts[|parts| - 1].0 := parts[|parts| - 1].1]
  }

  /** Dictionary keys: no name twice. */
  predicate DistinctNames(parts: seq<(string, string)>) {
    forall i, j :: 0 <= i < j < |parts| ==> parts[i].0 != parts[j].0
  }

  /** With distinct names each part keeps its own type in the table. */
  lemma {:induction false} PartTableAt(parts: seq<(string, string)>, i: nat)
    requires DistinctNames(parts) && i < |parts|
    ensures parts[i].0 in PartTable(parts) && PartTable(parts)[parts[i].0] == parts[i].1
  {
    if i < |parts| - 1 {
      PartTableAt(parts[..|parts| - 1], i);
    }
  }

  /** The loop over the old parts: each is copied under its name with its
      type. */
  method CopyParts(oldParts: seq<(string, string)>) returns (newParts: map<string, string>)
    requires DistinctNames(oldParts)
    ensures forall n :: n in newParts <==> exists i :: 0 <= i < |oldParts| && oldParts[i].0 == n
    ensures forall i :: 0 <= i < |oldParts| ==> newParts[oldParts[i].0] == oldParts[i].1
  {
    newParts := map[];
    for i := 0 to |oldParts|
      invariant newParts == PartTable(oldParts[..i])
    {
      assert oldParts[..i + 1][..i] == oldParts[..i] && oldParts[..i + 1][i] == oldParts[i];
      newParts := newParts[oldParts[i].0 := oldParts[i].1];
    }
    assert oldParts[..|oldParts|] == oldParts;
    forall i | 0 <= i < |oldParts|
      ensures newParts[oldParts[i].0] == oldParts[i].1
    {
      PartTableAt(oldParts, i);
    }
  }

  /** The loop over the instances: each takes the part of its name, a new
      one being created when missing. Started from the copied old parts, the
      middle fallback never fires, old names keep the old type, and every
      other instance gets a DEFORMABLE_BODY part. */
  method AddInstanceParts(oldTable: map<string, string>, instanceNames: seq<string>)
    returns (newParts: map<string, string>, choices: seq<PartChoice>)
    ensures |choices| == |instanceNames|
    ensures forall n :: n in newParts <==> n in oldTable || n in instanceNames
    ensures forall n :: n in oldTable ==> newParts[n] == oldTable[n]
    ensures forall i :: 0 <= i < |instanceNames| ==>
      (instanceNames[i] in oldTable ==> choices[i] == ExistingPart) &&
      (instanceNames[i] !in oldTable ==> newParts[instanceNames[i]] == DeformableBody)
    ensures forall i :: 0 <= i < |choices| ==> !choices[i].PartOfOldType?
  {
    newParts := oldTable;
    choices := [];
    for i := 0 to |instanceNames|
      invariant |choices| == i
      invariant forall n :: n in newParts <==> n in oldTable || n in instanceNames[..i]
      invariant forall n :: n in oldTable ==> newParts[n] == oldTable[n]
      invariant forall k :: 0 <= k < i ==>
        (instanceNames[k] in oldTable ==> choices[k] == ExistingPart) &&
        (instanceNames[k] !in oldTable ==> newParts[instanceNames[k]] == DeformableBody)
      invariant forall k :: 0 <= k < i ==> !choices[k].PartOfOldType?
    {
      var name := instanceNames[i];
      assert instanceNames[..i + 1] == instanceNames[..i] + [name];
      var choice := InstancePart(newParts, oldTable, name);
      match choice {
        case ExistingPart =>
        case PartOfOldType(t) => newParts := newParts[name := t];
        case DefaultPart => newParts := newParts[name := DeformableBody];
      }
      choices := choices + [choice];
    }
    assert instanceNames[..|instanceNames|] == instanceNames;
  }

  /** create_empty_odb on the part table: the new file holds every old part
      with its type and a part for every instance; an instance named like an
      old part reuses it, any other gets a DEFORMABLE_BODY part. Returns the
      part types of the new file and the choice made for each instance. */
  method CreateEmptyOdb(oldParts: seq<(string, string)>, instanceNames: seq<string>)
    returns (newParts: map<string, string>, choices: seq<PartChoice>)
    requires DistinctNames(oldParts)
    ensures |choices| == |instanceNames|
    ensures forall n :: n in newParts <==> n in PartTable(oldParts) || n in instanceNames
    ensures forall i :: 0 <= i < |oldParts| ==> newParts[oldParts[i].0] == oldParts[i].1
    ensures forall i :: 0 <= i < |instanceNames| ==>
      (instanceNames[i] in PartTable(oldParts) ==> choices[i] == ExistingPart) &&
      (instanceNames[i] !in PartTable(oldParts) ==> newParts[instanceNames[i]] == DeformableBody)
    ensures forall i :: 0 <= i < |choices| ==> !choices[i].PartOfOldType?
  {
    var copied := CopyParts(oldParts);
    assert copied == PartTable(oldParts) by {
      forall n | n in copied
        ensures copied[n] == PartTable(oldParts)[n]
      {
        var i :| 0 <= i < |oldParts| && oldParts[i].0 == n;
        PartTableAt(oldParts, i);
      }
    }
    newParts, choices := AddInstanceParts(copied, instanceNames);
  }

  // ---------------------------------------------------------------------------
  // Command line
  // ---------------------------------------------------------------------------

  /** The script's arguments: the new file is the second to last, the old
      file the last; fewer than two arguments raise IndexError. */
  function CommandLine(argv: seq<string>): (r: Result<(string, string)>)
    ensures r.Ok? <==> |argv| >= 2
    ensures r.Ok? ==> r.value == (argv[|argv| - 2], argv[|argv| - 1])
  {
    var oldFile := PyIndex(argv, -1);
    var newFile := PyIndex(argv, -2);
    if oldFile.Err? then Err(oldFile.error)
    else if newFile.Err? then Err(newFile.error)
    else Ok((newFile.value, oldFile.value))
  }

  /** Whatever comes before them, the last two arguments are the files. */
  lemma CommandLineTakesLastTwo(rest: seq<string>, newFile: string, oldFile: string)
    ensures CommandLine(rest + [newFile, oldFile]) == Ok((newFile, oldFile))
  {
  }
}
