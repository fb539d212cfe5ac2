/**
  odb_io_functions.py: the rules of the result-file reader and writer that do
  not depend on the result file itself, and the in-place node reordering for
  mirrored instances.

  The result file is a parameter: what a rule reads of it (instance keys in
  order, step keys in order, the frame count and the last frame's value, the
  set names) is passed in, and what the writer does to it is returned as a
  decision. Reading field values, transformations and saving are not
  modelled.
 */
module OdbIo {
  import opened Common

  // ---------------------------------------------------------------------------
  // flip_node_order
  // ---------------------------------------------------------------------------

  /** Where row k comes from after the flip: inside a complete block of 8 the
      halves swap, rows past the last complete block stay. */
  function FlipSource(k: nat, n: nat): (src: nat)
    requires k < n
    ensures src < n
  {
    if k < 8 * (n / 8) then 8 * (k / 8) + (k % 8 + 4) % 8 else k
  }

  /** The data after flip_node_order(data, 'z'). */
  function Flipped<T>(s: seq<T>): (r: seq<T>)
    ensures |r| == |s|
  {
    seq(|s|, k requires 0 <= k < |s| => s[FlipSource(k, |s|)])
  }

  /** Within block i rows 0-3 and 4-7 trade places. */
  lemma FlippedSwapsHalves<T>(s: seq<T>, i: nat, m: nat)
    requires 8 * i + 8 <= |s| && m < 4
    ensures Flipped(s)[8 * i + m] == s[8 * i + 4 + m]
    ensures Flipped(s)[8 * i + 4 + m] == s[8 * i + m]
  {
    assert 8 * i + 8 <= 8 * (|s| / 8);
    assert (8 * i + m) / 8 == i && (8 * i + m) % 8 == m;
    assert (8 * i + 4 + m) / 8 == i && (8 * i + 4 + m) % 8 == 4 + m;
  }

  /** Rows after the last complete block of 8 are never touched. */
  lemma FlippedKeepsTail<T>(s: seq<T>, k: nat)
    requires 8 * (|s| / 8) <= k < |s|
    ensures Flipped(s)[k] == s[k]
  {
  }

  /** The swap is its own inverse on every row index. */
  lemma FlipSourceInvolution(k: nat, n: nat)
    requires k < n
    ensures FlipSource(FlipSource(k, n), n) == k
  {
    if k < 8 * (n / 8) {
      var b, m := k / 8, k % 8;
      var src := 8 * b + (m + 4) % 8;
      assert src / 8 == b && src % 8 == (m + 4) % 8;
      assert src < 8 * (n / 8);
    }
  }

  /** Flipping twice restores the original data. */
  lemma FlipInvolution<T>(s: seq<T>)
    ensures Flipped(Flipped(s)) == s
  {
    forall k | 0 <= k < |s|
      ensures Flipped(Flipped(s))[k] == s[k]
    {
      FlipSourceInvolution(k, |s|);
    }
  }

  /** The first 8 i rows flipped, the rest as they were. */
  ghost predicate FlippedUpTo<T>(data: seq<T>, orig: seq<T>, i: nat) {
    |data| == |orig| && i <= |orig| / 8 &&
    forall k :: 0 <= k < |orig| ==> data[k] == if k < 8 * i then orig[FlipSource(k, |orig|)] else orig[k]
  }

  /** flip_node_order: for axis 'z' every complete block of 8 rows has its
      halves swapped in place; any other axis leaves the data alone. The
      array passed in is the one returned. */
  method FlipNodeOrder<T>(data: array<T>, axis: string) returns (r: array<T>)
    modifies data
    ensures r == data
    ensures data[..] == if axis == "z" then Flipped(old(data[..])) else old(data[..])
  {
    ghost var orig := data[..];
    if axis == "z" {
      var n := data.Length;
      for i := 0 to n / 8
        invariant FlippedUpTo(data[..], orig, i)
      {
        var temp := data[8 * i..8 * i + 8];
        forall k | 8 * i <= k < 8 * i + 4 {
          data[k] := temp[k - 8 * i + 4];
        }
        forall k | 8 * i + 4 <= k < 8 * i + 8 {
          data[k] := temp[k - 8 * i - 4];
        }
        BlockFlipped(data[..], orig, i);
      }
      assert data[..] == Flipped(orig);
    }
    r := data;
  }

  /** After block i is swapped, one more block is flipped. */
  lemma BlockFlipped<T>(data: seq<T>, orig: seq<T>, i: nat)
    requires i < |orig| / 8 && |data| == |orig|
    requires forall k :: 0 <= k < |orig| && !(8 * i <= k < 8 * i + 8) ==>
      data[k] == if k < 8 * i then orig[FlipSource(k, |orig|)] else orig[k]
    requires forall k :: 8 * i <= k < 8 * i + 4 ==> data[k] == orig[k + 4]
    requires forall k :: 8 * i + 4 <= k < 8 * i + 8 ==> data[k] == orig[k - 4]
    ensures FlippedUpTo(data, orig, i + 1)
  {
    forall k | 8 * i <= k < 8 * i + 8
      ensures data[k] == orig[FlipSource(k, |orig|)]
    {
      assert k / 8 == i;
    }
  }

  // ---------------------------------------------------------------------------
  // write_field_to_odb
  // ---------------------------------------------------------------------------

  datatype FieldType = Scalar | Tensor3dFull | Vector

  /** The number of components a field type carries. */
  function Components(t: FieldType): nat {
    match t
    case Scalar => 1
    case Tensor3dFull => 6
    case Vector => 3
  }

  /** The field type from the shape of field_data: a 1-D array is one column;
      otherwise shape[1] is looked up in {1: SCALAR, 6: TENSOR_3D_FULL,
      3: VECTOR}, any other width raising KeyError (and a 0-D array, which has
      no shape[1], IndexError). */
  function FieldTypeOf(shape: seq<nat>): (r: Result<FieldType>)
  {
    if |shape| == 1 then Ok(Scalar)
    else if |shape| == 0 then Err(IndexError)
    else if shape[1] == 1 then Ok(Scalar)
    else if shape[1] == 6 then Ok(Tensor3dFull)
    else if shape[1] == 3 then Ok(Vector)
    else Err(KeyError)
  }

  /** The field type always matches the column count of the data, and a width
      outside {1, 3, 6} is a KeyError. */
  lemma FieldTypeMatchesWidth(shape: seq<nat>)
    requires |shape| >= 1
    ensures var width := if |shape| == 1 then 1 else shape[1];
      (FieldTypeOf(shape).Ok? <==> width in {1, 3, 6}) &&
      (FieldTypeOf(shape).Ok? ==> Components(FieldTypeOf(shape).value) == width) &&
      (FieldTypeOf(shape).Err? ==> FieldTypeOf(shape).error == KeyError)
  {
  }

  /** A 1-D array is written as the single column it becomes. */
  lemma OneDimensionalIsOneColumn(n: nat)
    ensures FieldTypeOf([n]) == FieldTypeOf([n, 1]) == Ok(Scalar)
  {
  }

  /** frame_value when none is given: the last frame's value + 1.0, or 0.0 in
      a step without frames. */
  function DefaultFrameValue(frameValues: seq<real>, frameValue: Option<real>): (v: real)
    ensures frameValue.Some? ==> v == frameValue.value
    ensures frameValue.None? && frameValues == [] ==> v == 0.0
    ensures frameValue.None? && frameValues != [] ==> v == frameValues[|frameValues| - 1] + 1.0
  {
    match frameValue
    case Some(x) => x
    case None => if |frameValues| > 0 then frameValues[|frameValues| - 1] + 1.0 else 0.0
  }

  /** A defaulted frame value lies past the last frame of the step. */
  lemma DefaultFrameValueIsPast(frameValues: seq<real>)
    requires frameValues != []
    ensures DefaultFrameValue(frameValues, None) > frameValues[|frameValues| - 1]
  {
  }

  /** The frame written to: a new last frame with its increment number, or an
      existing frame at an index of the step's frame list. */
  datatype FrameTarget = NewFrame(incrementNumber: nat) | ExistingFrame(index: nat)

  /** A new frame (increment len + 1) when frame_number is None, the step has
      no frames or frame_number is not below the frame count; otherwise
      step.frames[frame_number], a negative number counting from the end
      and one below -len raising IndexError. */
  function FrameToWrite(frameCount: nat, frameNumber: Option<int>): (r: Result<FrameTarget>)
    ensures r.Err? ==> r.error == IndexError
  {
    if frameNumber.None? || frameCount == 0 || frameCount <= frameNumber.value then Ok(NewFrame(frameCount + 1))
    else
      var i := frameNumber.value;
      if i >= 0 then Ok(ExistingFrame(i))
      else if frameCount + i >= 0 then Ok(ExistingFrame(frameCount + i))
      else Err(IndexError)
  }

  /** A frame is created exactly under the condition of the writer, always as
      the next increment; a reused frame is one the step has, and it is the
      one frame_number names. */
  lemma FrameToWriteDecision(frameCount: nat, frameNumber: Option<int>)
    ensures (FrameToWrite(frameCount, frameNumber).Ok? && FrameToWrite(frameCount, frameNumber).value.NewFrame?) <==>
      (frameNumber.None? || frameCount == 0 || frameCount <= frameNumber.value)
    ensures FrameToWrite(frameCount, frameNumber).Ok? && FrameToWrite(frameCount, frameNumber).value.NewFrame? ==>
      FrameToWrite(frameCount, frameNumber).value.incrementNumber == frameCount + 1
    ensures FrameToWrite(frameCount, frameNumber).Ok? && FrameToWrite(frameCount, frameNumber).value.ExistingFrame? ==>
      var i := FrameToWrite(frameCount, frameNumber).value.index;
      i < frameCount && PyIndex(seq(frameCount, k => k), frameNumber.value) == Ok(i)
    ensures FrameToWrite(frameCount, frameNumber).Err? <==>
      (frameNumber.Some? && frameCount > 0 && frameCount + frameNumber.value < 0)
  {
  }

  /** Where the writer takes its objects from. */
  datatype Position = IntegrationPoint | Centroid | ElementNodal | ElementFace | Nodal | UniqueNodal

  predicate ElementPosition(p: Position) {
    p in {IntegrationPoint, Centroid, ElementNodal, ElementFace}
  }

  datatype ObjectSource = InstanceElements | ElementSet(name: string) | InstanceNodes | NodeSet(name: string)

  /** The labelled objects of write_field_to_odb: the elements (of the named
      element set, KeyError if missing) at an element position, the nodes (of
      the named node set) at NODAL, TypeError elsewhere. An empty or missing
      set name means the whole instance. */
  function WriteObjects(position: Position, setName: Option<string>, elementSets: set<string>, nodeSets: set<string>)
    : (r: Result<ObjectSource>)
    ensures r.Err? ==> r.error in {KeyError, TypeError}
    ensures r.Err? && r.error == TypeError <==> !ElementPosition(position) && position != Nodal
  {
    var named := setName.Some? && setName.value != "";
    if ElementPosition(position) then
      if !named then Ok(InstanceElements)
      else if setName.value in elementSets then Ok(ElementSet(setName.value))
      else Err(KeyError)
    else if position == Nodal then
      if !named then Ok(InstanceNodes)
      else if setName.value in nodeSets then Ok(NodeSet(setName.value))
      else Err(KeyError)
    else Err(TypeError)
  }

  /** Element positions write to elements and NODAL to nodes, never the other
      way round. */
  lemma WriteObjectsKind(position: Position, setName: Option<string>, elementSets: set<string>, nodeSets: set<string>)
    requires WriteObjects(position, setName, elementSets, nodeSets).Ok?
    ensures var src := WriteObjects(position, setName, elementSets, nodeSets).value;
      (src.InstanceElements? || src.ElementSet?) <==> ElementPosition(position)
    ensures var src := WriteObjects(position, setName, elementSets, nodeSets).value;
      (src.ElementSet? ==> src.name in elementSets) && (src.NodeSet? ==> src.name in nodeSets)
  {
  }

  /** The instance written to: instances[instance_name], the first instance
      for the empty name. The default None is no key of the instance
      repository (KeyError). */
  function WriteInstance(instanceKeys: seq<string>, instanceName: Option<string>): (r: Result<string>)
    ensures r.Ok? ==> r.value in instanceKeys
    ensures instanceName == Some("") ==> (r.Ok? <==> instanceKeys != []) && (r.Ok? ==> r.value == instanceKeys[0])
    ensures instanceName.None? ==> r == Err(KeyError)
    ensures instanceName.Some? && instanceName.value != "" ==>
      r == if instanceName.value in instanceKeys then Ok(instanceName.value) else Err(KeyError)
  {
    match instanceName
    case None => Err(KeyError)
    case Some(name) =>
      if name == "" then (if instanceKeys == [] then Err(IndexError) else Ok(instanceKeys[0]))
      else if name in instanceKeys then Ok(name)
      else Err(KeyError)
  }

  /** What write_field_to_odb does to the step: whether the step is created,
      which frame receives the data and with which value, the field type, and
      whether the field output is created. */
  datatype WritePlan = WritePlan(createStep: bool, instance: string, objects: ObjectSource, fieldType: FieldType,
                                 frame: FrameTarget, frameValue: real, createField: bool)

  /** The existing state of a step: the values of its frames in order, and the
      field names of each frame. */
  datatype StepState = StepState(frameValues: seq<real>, frameFields: seq<set<string>>)

  /** write_field_to_odb up to addData, in the order of its checks. */
  function WriteField(steps: map<string, StepState>, stepName: string, instanceKeys: seq<string>,
                      instanceName: Option<string>, setName: Option<string>, elementSets: set<string>,
                      nodeSets: set<string>, position: Position, shape: seq<nat>, fieldId: string,
                      frameNumber: Option<int>, frameValue: Option<real>): (r: Result<WritePlan>)
    requires forall s :: s in steps ==> |steps[s].frameFields| == |steps[s].frameValues|
  {
    var step := if stepName in steps then steps[stepName] else StepState([], []);
    var instance := WriteInstance(instanceKeys, instanceName);
    if instance.Err? then Err(instance.error)
    else
      var objects := WriteObjects(position, setName, elementSets, nodeSets);
      if objects.Err? then Err(objects.error)
      else
        var fieldType := FieldTypeOf(shape);
        if fieldType.Err? then Err(fieldType.error)
        else
          var value := DefaultFrameValue(step.frameValues, frameValue);
          var frame := FrameToWrite(|step.frameValues|, frameNumber);
          if frame.Err? then Err(frame.error)
          else
            var createField := match frame.value
              case NewFrame(_) => true
              case ExistingFrame(i) => fieldId !in step.frameFields[i];
            Ok(WritePlan(stepName !in steps, instance.value, objects.value, fieldType.value, frame.value, value,
                         createField))
  }

  /** The writer creates missing steps, always with a new first frame numbered
      1 and valued 0.0 unless a value is given; into an existing frame it adds
      the field only when missing; the field type matches the data width. */
  lemma WriteFieldPlan(steps: map<string, StepState>, stepName: string, instanceKeys: seq<string>,
                       instanceName: Option<string>, setName: Option<string>, elementSets: set<string>,
                       nodeSets: set<string>, position: Position, shape: seq<nat>, fieldId: string,
                       frameNumber: Option<int>, frameValue: Option<real>)
    requires forall s :: s in steps ==> |steps[s].frameFields| == |steps[s].frameValues|
    requires WriteField(steps, stepName, instanceKeys, instanceName, setName, elementSets, nodeSets, position,
                        shape, fieldId, frameNumber, frameValue).Ok?
    ensures var plan := WriteField(steps, stepName, instanceKeys, instanceName, setName, elementSets, nodeSets,
                                   position, shape, fieldId, frameNumber, frameValue).value;
      (plan.createStep <==> stepName !in steps) &&
      (plan.createStep ==> plan.frame == NewFrame(1) && plan.createField &&
                           plan.frameValue == (if frameValue.Some? then frameValue.value else 0.0)) &&
      Components(plan.fieldType) == (if |shape| == 1 then 1 else shape[1]) &&
      (plan.frame.ExistingFrame? ==> stepName in steps && plan.frame.index < |steps[stepName].frameValues| &&
                                     (plan.createField <==> fieldId !in steps[stepName].frameFields[plan.frame.index]))
  {
    FieldTypeMatchesWidth(shape);
  }

  // ---------------------------------------------------------------------------
  // read_field_from_odb
  // ---------------------------------------------------------------------------

  /** The instance read from: an empty or missing name needs exactly one
      instance (ValueError otherwise), a given name must be a key. */
  function ReadInstance(instanceKeys: seq<string>, instanceName: Option<string>): (r: Result<string>)
    ensures r.Ok? ==> r.value in instanceKeys
  {
    if instanceName.None? || instanceName.value == "" then
      if |instanceKeys| == 1 then Ok(instanceKeys[0]) else Err(ValueError)
    else if instanceName.value in instanceKeys then Ok(instanceName.value)
    else Err(KeyError)
  }

  /** Without a name, several instances (or none) are a ValueError and a
      single instance is taken; a name resolves to itself or KeyError. */
  lemma ReadInstanceRule(instanceKeys: seq<string>, instanceName: Option<string>)
    ensures (instanceName.None? || instanceName == Some("")) ==>
      (ReadInstance(instanceKeys, instanceName).Ok? <==> |instanceKeys| == 1) &&
      (|instanceKeys| != 1 ==> ReadInstance(instanceKeys, instanceName) == Err(ValueError))
    ensures instanceName.Some? && instanceName.value != "" ==>
      (ReadInstance(instanceKeys, instanceName).Ok? <==> instanceName.value in instanceKeys) &&
      (ReadInstance(instanceKeys, instanceName).Ok? ==> ReadInstance(instanceKeys, instanceName).value == instanceName.value)
  {
  }

  /** The step read from: the last step when none (or the empty name) is
      given, IndexError for a file without steps, KeyError for an unknown
      name. */
  function ReadStep(stepKeys: seq<string>, stepName: Option<string>): (r: Result<string>)
    ensures r.Ok? ==> r.value in stepKeys
    ensures (stepName.None? || stepName == Some("")) ==>
      r == if stepKeys == [] then Err(IndexError) else Ok(stepKeys[|stepKeys| - 1])
  {
    if stepName.None? || stepName.value == "" then
      if stepKeys == [] then Err(IndexError) else Ok(stepKeys[|stepKeys| - 1])
    else if stepName.value in stepKeys then Ok(stepName.value)
    else Err(KeyError)
  }

  /** The frame read from: -1 is the last frame of the step, any other
      number indexes the frame list as Python does. */
  function ReadFrame(frameCount: nat, frameNumber: int): (r: Result<nat>)
    ensures r.Ok? ==> r.value < frameCount
    ensures r.Err? ==> r.error == IndexError
  {
    var n := if frameNumber == -1 then frameCount - 1 else frameNumber;
    if 0 <= n < frameCount then Ok(n)
    else if n < 0 && frameCount + n >= 0 then Ok(frameCount + n)
    else Err(IndexError)
  }

  /** Frame -1 is the last frame, and it exists exactly when the step has a
      frame; a non-negative number is that frame when there are enough. */
  lemma ReadFrameRule(frameCount: nat, frameNumber: int)
    ensures ReadFrame(frameCount, -1) == if frameCount == 0 then Err(IndexError) else Ok(frameCount - 1)
    ensures 0 <= frameNumber ==> (ReadFrame(frameCount, frameNumber) ==
      if frameNumber < frameCount then Ok(frameNumber) else Err(IndexError))
  {
  }

  /** The set read from: the empty name is the whole instance's
      ALL_ELEMENTS / ALL_NODES set (created when missing), any other name
      must be a set of that kind; the default None is no set name (KeyError). */
  function ReadRegion(position: Position, setName: Option<string>, elementSets: set<string>, nodeSets: set<string>)
    : (r: Result<(string, bool)>)
  {
    var sets := if ElementPosition(position) then elementSets else nodeSets;
    var allName := if ElementPosition(position) then "ALL_ELEMENTS" else "ALL_NODES";
    if setName == Some("") then Ok((allName, allName !in sets))
    else if setName.Some? && setName.value in sets then Ok((setName.value, false))
    else Err(KeyError)
  }

  /** The whole-instance set is created only when missing, and the set read
      exists afterwards; element positions read element sets. */
  lemma ReadRegionRule(position: Position, setName: Option<string>, elementSets: set<string>, nodeSets: set<string>)
    ensures var r := ReadRegion(position, setName, elementSets, nodeSets);
      var sets := if ElementPosition(position) then elementSets else nodeSets;
      (r.Ok? <==> setName == Some("") || (setName.Some? && setName.value in sets)) &&
      (r.Ok? ==> (r.value.1 <==> r.value.0 !in sets) && (r.value.0 in sets || r.value.1)) &&
      (r.Ok? && r.value.1 ==> setName == Some("") &&
                              r.value.0 == if ElementPosition(position) then "ALL_ELEMENTS" else "ALL_NODES")
  {
  }

  /** Which labels the read collects per data point: node labels at NODAL
      and ELEMENT_NODAL, element labels at the other element positions (the
      second test is an elif, so ELEMENT_NODAL collects node labels only). */
  function CollectsNodeLabels(position: Position): bool {
    position == Nodal || position == ElementNodal
  }

  function CollectsElementLabels(position: Position): bool {
    !CollectsNodeLabels(position) && ElementPosition(position)
  }

  /** At most one kind of label is collected, and UNIQUE_NODAL collects
      none. */
  lemma LabelKinds(position: Position)
    ensures !(CollectsNodeLabels(position) && CollectsElementLabels(position))
    ensures CollectsElementLabels(position) <==> position in {IntegrationPoint, Centroid, ElementFace}
    ensures position == UniqueNodal ==> !CollectsNodeLabels(position) && !CollectsElementLabels(position)
  {
  }

  /** The four shapes of the reader's return value. */
  datatype ReadOutput<D> =
    | DataOnly(data: D)
    | WithFrameValue(data: D, frameValue: real)
    | WithLabels(data: D, nodeLabels: seq<int>, elementLabels: seq<int>)
    | WithAll(data: D, frameValue: real, nodeLabels: seq<int>, elementLabels: seq<int>)

  /** The return value as the two flags select it. */
  function PackageRead<D>(data: D, frameValue: real, nodeLabels: seq<int>, elementLabels: seq<int>,
                          getPositionNumbers: bool, getFrameValue: bool): (r: ReadOutput<D>)
    ensures r.data == data
    ensures (r.WithFrameValue? || r.WithAll?) <==> getFrameValue
    ensures (r.WithLabels? || r.WithAll?) <==> getPositionNumbers
    ensures (r.WithFrameValue? || r.WithAll?) ==> r.frameValue == frameValue
    ensures (r.WithLabels? || r.WithAll?) ==> r.nodeLabels == nodeLabels && r.elementLabels == elementLabels
  {
    if !getPositionNumbers && !getFrameValue then DataOnly(data)
    else if !getPositionNumbers then WithFrameValue(data, frameValue)
    else if !getFrameValue then WithLabels(data, nodeLabels, elementLabels)
    else WithAll(data, frameValue, nodeLabels, elementLabels)
  }

  /** Where read_field_from_odb reads from: instance, set (and whether it is
      created), step and frame index, in the order of its checks. */
  datatype ReadPlan = ReadPlan(instance: string, region: string, createRegion: bool, step: string, frame: nat)

  function ReadField(instanceKeys: seq<string>, instanceName: Option<string>, position: Position,
                     setName: Option<string>, elementSets: set<string>, nodeSets: set<string>,
                     stepKeys: seq<string>, frameCounts: map<string, nat>, stepName: Option<string>,
                     frameNumber: int): (r: Result<ReadPlan>)
    requires forall s :: s in stepKeys ==> s in frameCounts
  {
    var instance := ReadInstance(instanceKeys, instanceName);
    if instance.Err? then Err(instance.error)
    else
      var region := ReadRegion(position, setName, elementSets, nodeSets);
      if region.Err? then Err(region.error)
      else
        var step := ReadStep(stepKeys, stepName);
        if step.Err? then Err(step.error)
        else
          var frame := ReadFrame(frameCounts[step.value], frameNumber);
          if frame.Err? then Err(frame.error)
          else Ok(ReadPlan(instance.value, region.value.0, region.value.1, step.value, frame.value))
  }

  /** With the defaults (no step, frame -1) the reader reads the last frame of
      the last step; an ambiguous instance stops it before anything else. */
  lemma ReadFieldDefaults(instanceKeys: seq<string>, position: Position, setName: Option<string>,
                          elementSets: set<string>, nodeSets: set<string>, stepKeys: seq<string>,
                          frameCounts: map<string, nat>)
    requires forall s :: s in stepKeys ==> s in frameCounts
    ensures |instanceKeys| != 1 ==>
      ReadField(instanceKeys, None, position, setName, elementSets, nodeSets, stepKeys, frameCounts, None, -1)
        == Err(ValueError)
    ensures var r := ReadField(instanceKeys, None, position, setName, elementSets, nodeSets, stepKeys, frameCounts, None, -1);
      r.Ok? ==> stepKeys != [] && r.value.step == stepKeys[|stepKeys| - 1] &&
                r.value.frame == frameCounts[r.value.step] - 1 && r.value.instance == instanceKeys[0]
  {
  }
}
