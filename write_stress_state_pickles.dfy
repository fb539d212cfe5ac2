/**
  write_stress_state_pickles.py: picks the ballast element set of the first
  instance, reads the gravity and loading stresses of that set and stores the
  static stress and the cyclic stress (loading less static), each together
  with the instance and set names.

  The two stress reads are parameters (what read_field_from_odb returns for
  step 'gravity' and step 'loading'); the set-name check of the reader is
  taken from OdbIo.
 */
module WriteStressStatePickles {
  import opened Common
  import OdbIo

  /** A set name that marks the ballast: 'ballast_elements' in its lower-case
      form. */
  predicate IsBallastSet(name: string) {
    Contains(Lower(name), "ballast_elements")
  }

  /** The first ballast set, if any. */
  function FirstBallastSet(names: seq<string>): (r: Option<nat>)
    ensures r.Some? ==> r.value < |names| && IsBallastSet(names[r.value]) &&
                        forall i :: 0 <= i < r.value ==> !IsBallastSet(names[i])
    ensures r.None? ==> forall i :: 0 <= i < |names| ==> !IsBallastSet(names[i])
  {
    if names == [] then None
    else if IsBallastSet(names[0]) then Some(0)
    else match FirstBallastSet(names[1..])
      case None => None
      case Some(i) => Some(i + 1)
  }

  /** The set-search loop: the loop variable stops at the first ballast set;
      without one it is left at the last name, and with no sets at all it
      keeps its initial None. */
  method FindElementSet(names: seq<string>) returns (name: Option<string>)
    ensures names == [] ==> name == None
    ensures FirstBallastSet(names).Some? ==> name == Some(names[FirstBallastSet(names).value])
    ensures FirstBallastSet(names).None? && names != [] ==> name == Some(names[|names| - 1])
  {
    name := None;
    var i := 0;
    while i < |names|
      invariant 0 <= i <= |names|
      invariant forall k :: 0 <= k < i ==> !IsBallastSet(names[k])
      invariant i > 0 ==> name == Some(names[i - 1])
      invariant i == 0 ==> name == None
    {
      name := Some(names[i]);
      if IsBallastSet(names[i]) {
        FirstMatchAt(names, i);
        return;
      }
      i := i + 1;
    }
  }

  /** The first ballast set is found where the loop stops. */
  lemma FirstMatchAt(names: seq<string>, i: nat)
    requires i < |names| && IsBallastSet(names[i])
    requires forall k :: 0 <= k < i ==> !IsBallastSet(names[k])
    ensures FirstBallastSet(names) == Some(i)
  {
  }

  /** numpy subtraction of two stress arrays: elementwise for equal row
      counts, a single row broadcast against the other array, and ValueError
      otherwise. */
  function Difference(a: seq<Vec6>, b: seq<Vec6>): (r: Result<seq<Vec6>>)
    ensures r.Err? <==> |a| != |b| && |a| != 1 && |b| != 1
    ensures r.Err? ==> r.error == ValueError
  {
    if |a| == |b| || |a| == 1 || |b| == 1 then Ok(Broadcast(a, b)) else Err(ValueError)
  }

  /** The broadcast difference: a single row stands for every row. */
  function Broadcast(a: seq<Vec6>, b: seq<Vec6>): (r: seq<Vec6>)
    requires |a| == |b| || |a| == 1 || |b| == 1
    ensures |r| == if |a| == 1 then |b| else |a|
  {
    var n := if |a| == 1 then |b| else |a|;
    seq(n, i requires 0 <= i < n => BroadcastRow(a, b, i))
  }

  function BroadcastRow(a: seq<Vec6>, b: seq<Vec6>, i: nat): Vec6
    requires |a| == |b| || |a| == 1 || |b| == 1
    requires i < if |a| == 1 then |b| else |a|
  {
    Minus(a[if |a| == 1 then 0 else i], b[if |b| == 1 then 0 else i])
  }

  function Minus(x: Vec6, y: Vec6): (r: Vec6)
    ensures forall k :: 0 <= k < 6 ==> r[k] == x[k] - y[k]
  {
    [x[0] - y[0], x[1] - y[1], x[2] - y[2], x[3] - y[3], x[4] - y[4], x[5] - y[5]]
  }

  /** Cyclic stress is loading less static, component by component, so static
      plus cyclic gives back the loading stress. */
  lemma CyclicIsLoadingLessStatic(loading: seq<Vec6>, staticStress: seq<Vec6>)
    requires |loading| == |staticStress|
    ensures Difference(loading, staticStress).Ok?
    ensures var c := Difference(loading, staticStress).value;
      |c| == |loading| &&
      forall i, k :: 0 <= i < |c| && 0 <= k < 6 ==>
        (c[i][k] == loading[i][k] - staticStress[i][k] && staticStress[i][k] + c[i][k] == loading[i][k])
  {
  }

  /** The contents of one pickle file. */
  datatype StressPickle = StressPickle(data: seq<Vec6>, instance: string, elementSet: Option<string>)

  /** write_stress_pickles: the first instance, its ballast set, and the pair
      of pickles (static, cyclic). A file without instances raises
      IndexError; an instance without element sets leaves the set name None,
      which the reader rejects with KeyError. */
  method WriteStressPickles(instanceKeys: seq<string>, setNames: seq<string>, staticStress: seq<Vec6>, loading: seq<Vec6>)
    returns (r: Result<(StressPickle, StressPickle)>)
    ensures instanceKeys == [] ==> r == Err(IndexError)
    ensures instanceKeys != [] && setNames == [] ==> r == Err(KeyError)
    ensures instanceKeys != [] && setNames != [] && Difference(loading, staticStress).Err? ==> r == Err(ValueError)
    ensures r.Ok? <==> instanceKeys != [] && setNames != [] && Difference(loading, staticStress).Ok?
    ensures r.Ok? ==>
      var (s, c) := r.value;
      s.instance == c.instance == instanceKeys[0] && s.elementSet == c.elementSet &&
      // the first ballast set, or else the last set name the loop visited
      s.elementSet == Some(if FirstBallastSet(setNames).Some? then setNames[FirstBallastSet(setNames).value]
                           else setNames[|setNames| - 1]) &&
      s.data == staticStress && c.data == Difference(loading, staticStress).value
  {
    if instanceKeys == [] {
      return Err(IndexError);
    }
    var instance := instanceKeys[0];
    var setName := FindElementSet(setNames);
    var region := OdbIo.ReadRegion(OdbIo.IntegrationPoint, setName, set n | n in setNames, {});
    if region.Err? {
      return Err(region.error);
    }
    var cyclic := Difference(loading, staticStress);
    if cyclic.Err? {
      return Err(cyclic.error);
    }
    r := Ok((StressPickle(staticStress, instance, setName), StressPickle(cyclic.value, instance, setName)));
  }

  /** The script's arguments: the stress file, the static pickle and the
      cyclic pickle are the last three. */
  function CommandLine(argv: seq<string>): (r: Result<(string, string, string)>)
    ensures r.Ok? <==> |argv| >= 3
    ensures r.Ok? ==> r.value == (argv[|argv| - 3], argv[|argv| - 2], argv[|argv| - 1])
  {
    if |argv| < 3 then Err(IndexError) else Ok((argv[|argv| - 3], argv[|argv| - 2], argv[|argv| - 1]))
  }
}
