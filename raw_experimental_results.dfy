/**
  experimental_results/experimental_results.py: the older reader of the
  triaxial test files. The file names are searched for the same pattern as
  in ExperimentalResults; a matched file is loaded as rows of numbers, the
  rows are put in increasing order of cycles when the file holds them in
  decreasing order, and column 0 gives the cycle counts, column 1 the strain.
  get_data always builds a new list.

  Listing the directory and np.genfromtxt are parameters: the loader maps a
  file name to the rows it holds.
 */
module RawExperimentalResults {
  import opened Common
  import ER = ExperimentalResults

  /** np.genfromtxt(filename, delimiter=','): the rows of numbers of a file. */
  type Loader = string -> seq<seq<real>>

  /** A two-dimensional array with a first and a second column: at least two
      rows of at least two numbers. Anything else is a one-dimensional or an
      empty array, on which data[-1, 0] raises IndexError. */
  predicate IsTable(rows: seq<seq<real>>) {
    |rows| >= 2 && forall i :: 0 <= i < |rows| ==> |rows[i]| >= 2
  }

  /** np.flipud: the rows in reverse order. */
  function Reversed<T>(s: seq<T>): (r: seq<T>)
    ensures |r| == |s| && forall i :: 0 <= i < |s| ==> r[i] == s[|s| - 1 - i]
  {
    if s == [] then [] else [s[|s| - 1]] + Reversed(s[..|s| - 1])
  }

  /** Reversing twice gives the rows back. */
  lemma ReversedTwice<T>(s: seq<T>)
    ensures Reversed(Reversed(s)) == s
  {
  }

  /** One column of the rows. */
  function Column(rows: seq<seq<real>>, k: nat): (c: seq<real>)
    requires forall i :: 0 <= i < |rows| ==> k < |rows[i]|
    ensures |c| == |rows| && forall i :: 0 <= i < |rows| ==> c[i] == rows[i][k]
  {
    seq(|rows|, i requires 0 <= i < |rows| => rows[i][k])
  }

  /** The rows in the order the experiment keeps them: flipped iff the last
      cycle count is below the first. */
  function Oriented(rows: seq<seq<real>>): seq<seq<real>>
    requires IsTable(rows)
  {
    if rows[|rows| - 1][0] < rows[0][0] then Reversed(rows) else rows
  }

  /** An experiment: its test conditions and its two curves. */
  datatype RawExperiment = RawExperiment(conditions: ER.Conditions, cycles: seq<real>, strain: seq<real>)

  /** Experiment(p, q, f, filename) on the rows the file holds: IndexError
      unless they form a table; otherwise the cycles and the strain are
      columns 0 and 1 of the rows, read backwards iff the last cycle count
      is below the first. */
  function NewExperiment(c: ER.Conditions, rows: seq<seq<real>>): (r: Result<RawExperiment>)
    ensures r.Ok? <==> IsTable(rows)
    ensures r.Err? ==> r.error == IndexError
    ensures r.Ok? ==> var e := r.value; var n := |rows|;
      e.conditions == c && |e.cycles| == n && |e.strain| == n &&
      (rows[n - 1][0] < rows[0][0] ==>
        forall i :: 0 <= i < n ==> e.cycles[i] == rows[n - 1 - i][0] && e.strain[i] == rows[n - 1 - i][1]) &&
      (rows[0][0] <= rows[n - 1][0] ==>
        forall i :: 0 <= i < n ==> e.cycles[i] == rows[i][0] && e.strain[i] == rows[i][1])
  {
    if !IsTable(rows) then Err(IndexError)
    else
      var data := Oriented(rows);
      Ok(RawExperiment(c, Column(data, 0), Column(data, 1)))
  }

  /** After the flip the cycle counts do not end below where they start. */
  lemma CyclesEndNotBelowStart(c: ER.Conditions, rows: seq<seq<real>>)
    requires IsTable(rows)
    ensures var e := NewExperiment(c, rows).value;
      e.cycles[0] <= e.cycles[|e.cycles| - 1]
  {
  }

  /** The experiment of a matched file name: the conditions are the groups
      read as numbers, the file the matched text. */
  function FromMatch(m: ER.Match, load: Loader): Result<RawExperiment> {
    NewExperiment(ER.Conditions(ER.Float(m.p), ER.Float(m.q), ER.Float(m.f)), load(ER.Text(m)))
  }

  /** What one file name gives: nothing without a match, else the experiment
      of the match or the error that loading it raises. */
  function Candidate(filename: string, load: Loader): (r: Result<Option<RawExperiment>>)
    ensures ER.Search(filename).None? ==> r == Ok(None)
    ensures ER.Search(filename).Some? ==>
      (r.Ok? <==> FromMatch(ER.Search(filename).value, load).Ok?) &&
      (r.Ok? ==> r.value == Some(FromMatch(ER.Search(filename).value, load).value)) &&
      (r.Err? ==> r.error == FromMatch(ER.Search(filename).value, load).error)
  {
    match ER.Search(filename)
    case None => Ok(None)
    case Some(m) =>
      match FromMatch(m, load)
      case Err(e) => Err(e)
      case Ok(x) => Ok(Some(x))
  }

  /** What each file name gives, in order. */
  function Outcomes(filenames: seq<string>, load: Loader): (r: seq<Result<Option<RawExperiment>>>)
    ensures |r| == |filenames| && forall i :: 0 <= i < |r| ==> r[i] == Candidate(filenames[i], load)
  {
    seq(|filenames|, i requires 0 <= i < |filenames| => Candidate(filenames[i], load))
  }

  /** A loop that appends what each step gives and stops at the first
      error: the values appended and that error. */
  function Gather<T>(outs: seq<Result<Option<T>>>): (seq<T>, Option<Error>) {
    if outs == [] then ([], None)
    else
      var before := Gather(outs[..|outs| - 1]);
      var last := outs[|outs| - 1];
      if before.1.Some? then before
      else if last.Err? then (before.0, Some(last.error))
      else (before.0 + (if last.value.Some? then [last.value.value] else []), None)
  }

  /** The values of the steps, a failed step giving none. */
  function Values<T>(outs: seq<Result<Option<T>>>): (r: seq<Option<T>>)
    ensures |r| == |outs| && forall i :: 0 <= i < |r| ==> r[i] == if outs[i].Ok? then outs[i].value else None
  {
    seq(|outs|, i requires 0 <= i < |outs| => if outs[i].Ok? then outs[i].value else None)
  }

  /** With k the first failed step (or the number of steps), the loop appends
      the values before k, in order, and ends with the error of step k. */
  lemma {:induction false} GatherUpToFailure<T>(outs: seq<Result<Option<T>>>, k: nat)
    requires k <= |outs|
    requires forall i :: 0 <= i < k ==> outs[i].Ok?
    requires k == |outs| || outs[k].Err?
    ensures Gather(outs).0 == ER.Present(Values(outs)[..k])
    ensures k == |outs| ==> Gather(outs).1 == None
    ensures k < |outs| ==> Gather(outs).1 == Some(outs[k].error)
    decreases |outs|
  {
    if outs != [] {
      var n := |outs| - 1;
      if k <= n {
        GatherBeforeLast(outs, k);
      } else {
        var init := outs[..n];
        GatherUpToFailure(init, n);
        assert Values(init) == Values(outs)[..n];
        assert Values(init)[..n] == Values(init);
        ER.PresentStep(Values(outs), n);
        assert Values(outs)[..n + 1] == Values(outs)[..k];
      }
    }
  }

  /** The failure comes before the last step: the last step changes nothing. */
  lemma {:induction false} GatherBeforeLast<T>(outs: seq<Result<Option<T>>>, k: nat)
    requires k < |outs|
    requires forall i :: 0 <= i < k ==> outs[i].Ok?
    requires outs[k].Err?
    ensures Gather(outs).0 == ER.Present(Values(outs)[..k])
    ensures Gather(outs).1 == Some(outs[k].error)
    decreases |outs|, 0
  {
    var n := |outs| - 1;
    var init := outs[..n];
    if k < n {
      assert init[k] == outs[k];
      assert forall i :: 0 <= i < k ==> init[i] == outs[i];
      GatherUpToFailure(init, k);
      assert Gather(outs) == Gather(init);
      assert Values(init)[..k] == Values(outs)[..k];
    } else {
      assert forall i :: 0 <= i < n ==> init[i] == outs[i];
      GatherUpToFailure(init, n);
      assert Values(init)[..n] == Values(init) == Values(outs)[..n];
    }
  }

  /** One more step while nothing failed. */
  lemma GatherStep<T>(outs: seq<Result<Option<T>>>, i: nat)
    requires i < |outs| && Gather(outs[..i]).1 == None
    ensures outs[i].Err? ==> Gather(outs[..i + 1]) == (Gather(outs[..i]).0, Some(outs[i].error))
    ensures outs[i].Ok? && outs[i].value.None? ==> Gather(outs[..i + 1]) == Gather(outs[..i])
    ensures outs[i].Ok? && outs[i].value.Some? ==>
      Gather(outs[..i + 1]) == (Gather(outs[..i]).0 + [outs[i].value.value], None)
  {
    var prefix := outs[..i + 1];
    assert prefix[..i] == outs[..i] && prefix[i] == outs[i];
    var before := Gather(outs[..i]);
    assert before.0 + [] == before.0;
  }

  /** Once a step has failed, the steps after it change nothing. */
  lemma {:induction false} GatherStops<T>(outs: seq<Result<Option<T>>>, i: nat)
    requires i <= |outs| && Gather(outs[..i]).1.Some?
    ensures Gather(outs) == Gather(outs[..i])
    decreases |outs| - i
  {
    if i < |outs| {
      assert outs[..i + 1][..i] == outs[..i];
      GatherStops(outs, i + 1);
    } else {
      assert outs[..i] == outs;
    }
  }

  /** read: the experiments appended, in order, until a file fails to load,
      and the error that then ends the loop. */
  function ReadAll(filenames: seq<string>, load: Loader): (seq<RawExperiment>, Option<Error>) {
    Gather(Outcomes(filenames, load))
  }

  /** read in full: with k the first name whose file fails to load (or the
      number of names), the experiments read are those of the matched names
      before k, in order, and the error is that of name k. */
  lemma ReadAllUpToFailure(filenames: seq<string>, load: Loader, k: nat)
    requires k <= |filenames|
    requires forall i :: 0 <= i < k ==> Candidate(filenames[i], load).Ok?
    requires k == |filenames| || Candidate(filenames[k], load).Err?
    ensures ReadAll(filenames, load).0 == ER.Present(Values(Outcomes(filenames, load))[..k])
    ensures k == |filenames| ==> ReadAll(filenames, load).1 == None
    ensures k < |filenames| ==> ReadAll(filenames, load).1 == Some(Candidate(filenames[k], load).error)
  {
    GatherUpToFailure(Outcomes(filenames, load), k);
  }

  /** When every matched file loads, read appends the experiment of every
      matching name, in order, and passes no error on. */
  lemma ReadAllWithoutFailure(filenames: seq<string>, load: Loader)
    requires forall i :: 0 <= i < |filenames| ==> Candidate(filenames[i], load).Ok?
    ensures ReadAll(filenames, load) == (ER.Present(Values(Outcomes(filenames, load))), None)
  {
    var outs := Outcomes(filenames, load);
    GatherUpToFailure(outs, |filenames|);
    assert Values(outs)[..|filenames|] == Values(outs);
  }

  /** The names up to and including one more, while nothing failed: a match
      whose file loads appends its experiment, one whose file fails ends
      the loop. */
  lemma ReadStep(filenames: seq<string>, load: Loader, i: nat, m: Option<ER.Match>)
    requires i < |filenames| && m == ER.Search(filenames[i])
    requires ReadAll(filenames[..i], load).1 == None
    ensures var read := Gather(Outcomes(filenames, load)[..i]).0;
      var outs := Outcomes(filenames, load)[..i + 1];
      (m.None? ==> Gather(outs) == (read, None)) &&
      (m.Some? && FromMatch(m.value, load).Err? ==> Gather(outs) == (read, Some(FromMatch(m.value, load).error))) &&
      (m.Some? && FromMatch(m.value, load).Ok? ==> Gather(outs) == (read + [FromMatch(m.value, load).value], None))
  {
    var outs := Outcomes(filenames, load);
    assert Outcomes(filenames[..i], load) == outs[..i];
    assert outs[i] == Candidate(filenames[i], load);
    GatherStep(outs, i);
  }

  /** The filters of get_data as a test on experiments. */
  function Keeper(p: ER.Filter, q: ER.Filter, f: ER.Filter): RawExperiment -> bool {
    (e: RawExperiment) => ER.Keeps(e.conditions, p, q, f)
  }

  /** The experiments every filter admits, in their order. */
  function Select(data: seq<RawExperiment>, p: ER.Filter, q: ER.Filter, f: ER.Filter): seq<RawExperiment> {
    ER.Filtered(data, Keeper(p, q, f))
  }

  /** An experiment is selected iff it is in the data and the filters admit
      its conditions. */
  lemma SelectMembership(data: seq<RawExperiment>, p: ER.Filter, q: ER.Filter, f: ER.Filter, e: RawExperiment)
    ensures e in Select(data, p, q, f) <==> e in data && ER.Keeps(e.conditions, p, q, f)
  {
    ER.FilteredMembership(data, Keeper(p, q, f), e);
  }

  /** Without filters the new list holds every experiment, in order. */
  lemma SelectWithoutFilters(data: seq<RawExperiment>)
    ensures Select(data, ER.AnyValue, ER.AnyValue, ER.AnyValue) == data
  {
    ER.FilteredEverything(data, Keeper(ER.AnyValue, ER.AnyValue, ER.AnyValue));
  }

  /** ExperimentalResults: the list of experiments read so far. */
  class RawExperimentalResults {
    var data: seq<RawExperiment>

    constructor()
      ensures data == []
    {
      data := [];
    }

    /** read: every matching name appends its experiment, in order, until a
        file fails to load; that error ends the loop and is passed on, with
        the experiments appended so far kept. */
    method Read(filenames: seq<string>, load: Loader) returns (failure: Option<Error>)
      modifies this
      ensures data == old(data) + ReadAll(filenames, load).0
      ensures failure == ReadAll(filenames, load).1
    {
      ghost var outs := Outcomes(filenames, load);
      var i := 0;
      while i < |filenames|
        invariant i <= |filenames|
        invariant Gather(outs[..i]).1 == None
        invariant data == old(data) + Gather(outs[..i]).0
      {
        assert Outcomes(filenames[..i], load) == outs[..i];
        var m := ER.Search(filenames[i]);
        ReadStep(filenames, load, i, m);
        if m.Some? {
          var e := FromMatch(m.value, load);
          if e.Err? {
            GatherStops(outs, i + 1);
            return Some(e.error);
          }
          data := data + [e.value];
        }
        i := i + 1;
      }
      assert outs[..i] == outs;
      return None;
    }

    /** get_data: always a new list, of the experiments all filters admit,
        in order. */
    method GetData(p: ER.Filter, q: ER.Filter, f: ER.Filter) returns (r: ER.Selection<RawExperiment>)
      ensures r.NewList? && r.items == Select(data, p, q, f)
    {
      var subSet: seq<RawExperiment> := [];
      for i := 0 to |data|
        invariant subSet == Select(data[..i], p, q, f)
      {
        var dataset := data[i];
        ER.FilteredStep(data, i, Keeper(p, q, f));
        if ER.Admits(p, dataset.conditions.p) && ER.Admits(q, dataset.conditions.q) &&
           ER.Admits(f, dataset.conditions.f) {
          subSet := subSet + [dataset];
        }
      }
      assert data[..|data|] == data;
      return ER.NewList(subSet);
    }
  }
}
