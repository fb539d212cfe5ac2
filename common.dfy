/**
  Vocabulary shared by every module of the model: the Python exceptions the
  scripts can raise, numpy-style helpers over sequences (np.unique, np.where,
  np.in1d, reshape, flatten), Python's indexing rules, ASCII string helpers and
  decimal printing/parsing of natural numbers.
 */
module Common {

  datatype Option<T> = None | Some(value: T)

  /** The Python exceptions that the modelled code raises (or lets numpy raise). */
  datatype Error = ValueError | KeyError | IndexError | TypeError | NameError | AttributeError | StopIteration

  datatype Result<T> = Ok(value: T) | Err(error: Error)

  /** A stress or strain tensor in Abaqus order (11, 22, 33, 12, 13, 23). */
  type Vec6 = v: seq<real> | |v| == 6 witness [0.0, 0.0, 0.0, 0.0, 0.0, 0.0]

  const Zero6: Vec6 := [0.0, 0.0, 0.0, 0.0, 0.0, 0.0]

  // ---------------------------------------------------------------------------
  // Sorted, duplicate-free sequences and np.unique
  // ---------------------------------------------------------------------------

  predicate StrictlySorted(s: seq<int>) {
    forall i, j :: 0 <= i < j < |s| ==> s[i] < s[j]
  }

  /** Inserts x into a strictly sorted sequence, keeping it strictly sorted. */
  function InsertSorted(x: int, s: seq<int>): (r: seq<int>)
    requires StrictlySorted(s)
    ensures StrictlySorted(r)
    ensures forall y {:trigger y in r} :: y in r <==> y == x || y in s
  {
    if s == [] then [x]
    else if x < s[0] then
      assert forall y :: y in s ==> x < y by {
        forall y | y in s ensures x < y { MinOfSorted(s, y); }
      }
      ConsSorted(x, s);
      [x] + s
    else if x == s[0] then s
    else
      var rest := InsertSorted(x, s[1..]);
      assert forall y :: y in rest ==> s[0] < y by {
        forall y | y in rest ensures s[0] < y {
          if y != x {
            var k :| 1 <= k < |s| && s[k] == y;
          }
        }
      }
      ConsSorted(s[0], rest);
      [s[0]] + rest
  }

  /** A value below every element can be put in front. */
  lemma ConsSorted(a: int, s: seq<int>)
    requires StrictlySorted(s) && forall y :: y in s ==> a < y
    ensures StrictlySorted([a] + s)
  {
    var r := [a] + s;
    forall i, j | 0 <= i < j < |r|
      ensures r[i] < r[j]
    {
      assert r[j] == s[j - 1];
      if i == 0 {
        assert s[j - 1] in s;
      } else {
        assert r[i] == s[i - 1];
      }
    }
  }

  /** np.unique on an integer array: the sorted list of its distinct values. */
  function Unique(s: seq<int>): (r: seq<int>)
    ensures StrictlySorted(r)
    ensures forall y {:trigger y in r} :: y in r <==> y in s
  {
    if s == [] then [] else InsertSorted(s[|s| - 1], Unique(s[..|s| - 1]))
  }

  lemma MinOfSorted(s: seq<int>, x: int)
    requires StrictlySorted(s) && x in s
    ensures s[0] <= x
  {
    var k :| 0 <= k < |s| && s[k] == x;
    if k > 0 { assert s[0] < s[k]; }
  }

  /** A strictly sorted sequence is determined by its elements. */
  lemma {:induction false} SortedByElements(a: seq<int>, b: seq<int>)
    requires StrictlySorted(a) && StrictlySorted(b)
    requires forall y :: y in a <==> y in b
    ensures a == b
  {
    if a != [] { assert a[0] in a; }
    if b != [] { assert b[0] in b; }
    if a != [] && b != [] {
      MinOfSorted(b, a[0]);
      MinOfSorted(a, b[0]);
      assert a[0] == b[0];
      forall y
        ensures y in a[1..] <==> y in b[1..]
      {
        if y in a[1..] {
          var k :| 1 <= k < |a| && a[k] == y;
          assert a[0] < a[k];
          InTail(b, y);
        }
        if y in b[1..] {
          var k :| 1 <= k < |b| && b[k] == y;
          assert b[0] < b[k];
          InTail(a, y);
        }
      }
      SortedByElements(a[1..], b[1..]);
    }
  }

  lemma InTail(s: seq<int>, y: int)
    requires y in s && y != s[0]
    ensures y in s[1..]
  {
    var k :| 0 <= k < |s| && s[k] == y;
    assert s[1..][k - 1] == y;
  }

  /** np.unique returns exactly the sorted distinct values: any strictly
      sorted sequence with the same elements is equal to it. */
  lemma UniqueIsCanonical(s: seq<int>, t: seq<int>)
    requires StrictlySorted(t)
    requires forall y :: y in t <==> y in s
    ensures Unique(s) == t
  {
    SortedByElements(Unique(s), t);
  }

  lemma {:induction false} SortedElementsDistinctIndices(s: seq<int>, i: nat, j: nat)
    requires StrictlySorted(s) && i < |s| && j < |s| && s[i] == s[j]
    ensures i == j
  {
  }

  // ---------------------------------------------------------------------------
  // np.where(np.in1d(np.arange(n), dofs)): the column partition
  // ---------------------------------------------------------------------------

  /** The ascending indices i < n for which (i in dofs) equals `member`. */
  function IndicesWhere(n: nat, dofs: seq<int>, member: bool): (r: seq<int>)
    ensures StrictlySorted(r)
    ensures forall i {:trigger i in r} :: i in r <==> 0 <= i < n && ((i in dofs) == member)
  {
    if n == 0 then []
    else
      var p := IndicesWhere(n - 1, dofs, member);
      assert forall i :: 0 <= i < |p| ==> p[i] in p;
      p + (if ((n - 1) in dofs) == member then [n - 1] else [])
  }

  /** Prescribed and free columns partition 0..n-1: disjoint, covering, and
      their counts add up to n. */
  lemma {:induction false} PartitionCounts(n: nat, dofs: seq<int>)
    ensures |IndicesWhere(n, dofs, true)| + |IndicesWhere(n, dofs, false)| == n
  {
    if n > 0 {
      PartitionCounts(n - 1, dofs);
      assert IndicesWhere(n, dofs, true)
        == IndicesWhere(n - 1, dofs, true) + (if (n - 1) in dofs then [n - 1] else []);
      assert IndicesWhere(n, dofs, false)
        == IndicesWhere(n - 1, dofs, false) + (if (n - 1) in dofs then [] else [n - 1]);
    }
  }

  lemma ColumnPartition(n: nat, dofs: seq<int>)
    ensures forall i :: 0 <= i < n <==> i in IndicesWhere(n, dofs, true) || i in IndicesWhere(n, dofs, false)
    ensures forall i :: !(i in IndicesWhere(n, dofs, true) && i in IndicesWhere(n, dofs, false))
    ensures |IndicesWhere(n, dofs, true)| + |IndicesWhere(n, dofs, false)| == n
  {
    PartitionCounts(n, dofs);
  }

  /** When every prescribed DOF is in range and the list is sorted and unique,
      the prescribed columns are that list itself (so bc_vals line up with bc_cols). */
  lemma PrescribedColumnsAreDofs(n: nat, dofs: seq<int>)
    requires StrictlySorted(dofs)
    requires forall k :: 0 <= k < |dofs| ==> 0 <= dofs[k] < n
    ensures IndicesWhere(n, dofs, true) == dofs
  {
    SortedByElements(IndicesWhere(n, dofs, true), dofs);
  }

  // ---------------------------------------------------------------------------
  // np.where(a == x)[0] and the truth value of a numpy array
  // ---------------------------------------------------------------------------

  /** The ascending positions k with s[k] == x. */
  function Where(s: seq<int>, x: int): (r: seq<int>)
    ensures forall k :: k in r <==> 0 <= k < |s| && s[k] == x
    ensures StrictlySorted(r)
  {
    if s == [] then []
    else
      var p := Where(s[..|s| - 1], x);
      assert forall i :: 0 <= i < |p| ==> p[i] in p;
      p + (if s[|s| - 1] == x then [|s| - 1] else [])
  }

  /** In a strictly sorted array a value occurs at most once: np.where gives
      [k] when s[k] == x and [] when x does not occur. */
  lemma WhereInSorted(s: seq<int>, x: int)
    requires StrictlySorted(s)
    ensures x !in s ==> Where(s, x) == []
    ensures forall k :: 0 <= k < |s| && s[k] == x ==> Where(s, x) == [k]
  {
    if Where(s, x) != [] {
      var k := Where(s, x)[0];
      assert k in Where(s, x);
      assert s[k] == x;
    }
    forall k | 0 <= k < |s| && s[k] == x
      ensures Where(s, x) == [k]
    {
      forall y
        ensures y in Where(s, x) <==> y in [k]
      {
        if y in Where(s, x) { SortedElementsDistinctIndices(s, y, k); }
      }
      SortedByElements(Where(s, x), [k]);
    }
  }

  /** bool() of a numpy index array: False when empty, the element's truth
      value for one element, ValueError ("ambiguous") for more than one. */
  function NumpyTruth(idx: seq<int>): Result<bool> {
    if |idx| == 0 then Ok(false)
    else if |idx| == 1 then Ok(idx[0] != 0)
    else Err(ValueError)
  }

  /** The results in order, or the error of the first that failed. */
  function AllOk<T>(rs: seq<Result<T>>): Result<seq<T>>
    decreases |rs|
  {
    if rs == [] then Ok([])
    else
      match AllOk(rs[..|rs| - 1])
      case Err(e) => Err(e)
      case Ok(acc) =>
        match rs[|rs| - 1]
        case Err(e) => Err(e)
        case Ok(v) => Ok(acc + [v])
  }

  /** AllOk succeeds exactly when every result is Ok, and then holds their
      values in order; otherwise it is the error of the first failure. */
  lemma {:induction false} AllOkShape<T>(rs: seq<Result<T>>)
    ensures AllOk(rs).Ok? <==> forall k :: 0 <= k < |rs| ==> rs[k].Ok?
    ensures AllOk(rs).Ok? ==> (|AllOk(rs).value| == |rs| && forall k :: 0 <= k < |rs| ==> AllOk(rs).value[k] == rs[k].value)
    ensures AllOk(rs).Err? ==> exists k :: (0 <= k < |rs| && (forall m :: 0 <= m < k ==> rs[m].Ok?) &&
      rs[k] == Err(AllOk(rs).error))
    decreases |rs|
  {
    if rs != [] {
      var init := rs[..|rs| - 1];
      AllOkShape(init);
      assert forall k :: 0 <= k < |init| ==> init[k] == rs[k];
      if AllOk(init).Err? {
        var k :| 0 <= k < |init| && (forall m :: 0 <= m < k ==> init[m].Ok?) && init[k] == Err(AllOk(init).error);
        assert rs[k] == Err(AllOk(rs).error);
      }
    }
  }

  /** One more Ok result extends the collected values. */
  lemma AllOkStep<T>(rs: seq<Result<T>>, i: nat)
    requires i < |rs| && AllOk(rs[..i]).Ok? && rs[i].Ok?
    ensures AllOk(rs[..i + 1]) == Ok(AllOk(rs[..i]).value + [rs[i].value])
  {
    assert rs[..i + 1][..i] == rs[..i];
  }

  /** Once a prefix fails, the whole collection fails with the same error. */
  lemma {:induction false} AllOkErrorPersists<T>(rs: seq<Result<T>>, i: nat)
    requires i <= |rs| && AllOk(rs[..i]).Err?
    ensures AllOk(rs) == AllOk(rs[..i])
    decreases |rs| - i
  {
    if i < |rs| {
      assert rs[..i + 1][..i] == rs[..i];
      AllOkErrorPersists(rs, i + 1);
    } else {
      assert rs[..i] == rs;
    }
  }

  /** The first failure, after a prefix of successes, is the collection's error. */
  lemma AllOkFailsAt<T>(rs: seq<Result<T>>, i: nat)
    requires i < |rs| && AllOk(rs[..i]).Ok? && rs[i].Err?
    ensures AllOk(rs) == Err(rs[i].error)
  {
    assert rs[..i + 1][..i] == rs[..i];
    AllOkErrorPersists(rs, i + 1);
  }

  /** Python indexing a[i]: negative indices count from the end, anything else
      out of range raises IndexError. */
  function PyIndex<T>(s: seq<T>, i: int): Result<T> {
    if 0 <= i < |s| then Ok(s[i])
    else if -|s| <= i < 0 then Ok(s[|s| + i])
    else Err(IndexError)
  }

  /** A slice bound as Python resolves it for a sequence of length n:
      negative bounds count from the end, and both are clamped to [0, n]. */
  function SliceBound(i: int, n: nat): (b: nat)
    ensures b <= n
  {
    if i < 0 then (if i + n < 0 then 0 else i + n) else if i > n then n else i
  }

  /** s[lo:hi] with Python's slice semantics (step 1). */
  function PySlice<T>(s: seq<T>, lo: int, hi: int): (r: seq<T>)
    ensures 0 <= lo <= hi <= |s| ==> r == s[lo..hi]
    ensures |r| <= |s|
  {
    var a, b := SliceBound(lo, |s|), SliceBound(hi, |s|);
    if a <= b then s[a..b] else []
  }

  /** r keeps some of the elements of s, in their order in s. */
  predicate SubsequenceOf<T(==)>(r: seq<T>, s: seq<T>)
    decreases |s|
  {
    if r == [] then true
    else if s == [] then false
    else (r[0] == s[0] && SubsequenceOf(r[1..], s[1..])) || SubsequenceOf(r, s[1..])
  }

  /** The array position numpy addresses with index i in an array of length n. */
  function NumpyPosition(i: int, n: nat): (p: Option<nat>)
    ensures p.Some? <==> 0 - n <= i < n
    ensures p.Some? ==> p.value < n
  {
    if 0 <= i < n then Some(i) else if 0 - n <= i < 0 then Some(n + i) else None
  }

  /** a[idx] = v: IndexError unless every index is in range; otherwise each
      addressed position takes the value of the last index that addresses it
      and every other position keeps its value. */
  function FancyAssign(a: seq<real>, idx: seq<int>, v: seq<real>): (r: Result<seq<real>>)
    requires |idx| == |v|
    ensures r.Ok? <==> forall k :: 0 <= k < |idx| ==> NumpyPosition(idx[k], |a|).Some?
    ensures r.Err? ==> r.error == IndexError
    ensures r.Ok? ==> |r.value| == |a|
    ensures r.Ok? ==> forall p :: 0 <= p < |a| && (forall k :: 0 <= k < |idx| ==> NumpyPosition(idx[k], |a|) != Some(p)) ==>
      r.value[p] == a[p]
    ensures r.Ok? ==> forall k :: 0 <= k < |idx| && (forall m :: k < m < |idx| ==> NumpyPosition(idx[m], |a|) != NumpyPosition(idx[k], |a|)) ==>
      r.value[NumpyPosition(idx[k], |a|).value] == v[k]
    decreases |idx|
  {
    if idx == [] then Ok(a)
    else match NumpyPosition(idx[0], |a|)
      case None => Err(IndexError)
      case Some(p) =>
        var rest := FancyAssign(a[p := v[0]], idx[1..], v[1..]);
        assert forall k :: 1 <= k < |idx| ==> idx[1..][k - 1] == idx[k];
        rest
  }

  /** With sorted indices inside the array, a[idx] = v writes v[k] at idx[k]
      and nothing else. */
  lemma SortedFancyAssign(a: seq<real>, idx: seq<int>, v: seq<real>)
    requires |idx| == |v| && StrictlySorted(idx)
    requires forall k :: 0 <= k < |idx| ==> 0 <= idx[k] < |a|
    ensures FancyAssign(a, idx, v).Ok?
    ensures forall k :: 0 <= k < |idx| ==> FancyAssign(a, idx, v).value[idx[k]] == v[k]
    ensures forall p :: 0 <= p < |a| && p !in idx ==> FancyAssign(a, idx, v).value[p] == a[p]
  {
    var r := FancyAssign(a, idx, v).value;
    forall p | 0 <= p < |a| && p !in idx
      ensures r[p] == a[p]
    {
      assert forall k :: 0 <= k < |idx| ==> NumpyPosition(idx[k], |a|) == Some(idx[k]) != Some(p);
    }
  }

  // ---------------------------------------------------------------------------
  // Strings (ASCII only)
  // ---------------------------------------------------------------------------

  function LowerChar(c: char): char {
    if 'A' <= c <= 'Z' then (c as int + 32) as char else c
  }

  /** str.lower() restricted to ASCII letters. */
  function Lower(s: string): (r: string)
    ensures |r| == |s|
    ensures forall i :: 0 <= i < |s| ==> r[i] == LowerChar(s[i])
  {
    if s == [] then [] else [LowerChar(s[0])] + Lower(s[1..])
  }

  predicate StartsWith(s: string, prefix: string) {
    |prefix| <= |s| && s[..|prefix|] == prefix
  }

  predicate OccursAt(s: string, sub: string, i: int) {
    0 <= i && i + |sub| <= |s| && s[i..i + |sub|] == sub
  }

  /** Python's `sub in s` for strings. */
  predicate Contains(s: string, sub: string) {
    exists i | 0 <= i <= |s| - |sub| :: OccursAt(s, sub, i)
  }

  // ---------------------------------------------------------------------------
  // Decimal digits: str(n) for a natural number and its inverse
  // ---------------------------------------------------------------------------

  predicate IsDigit(c: char) { '0' <= c <= '9' }

  function DigitChar(d: nat): char
    requires d < 10
  {
    ('0' as int + d) as char
  }

  /** str(n) for a natural number n. */
  function NatToString(n: nat): (r: string)
    ensures |r| > 0
    ensures forall i :: 0 <= i < |r| ==> IsDigit(r[i])
    decreases n
  {
    if n < 10 then [DigitChar(n)] else NatToString(n / 10) + [DigitChar(n % 10)]
  }

  /** The value of a string of decimal digits (int(s) / float(s) for digits). */
  function DigitsValue(s: string): nat
    requires forall i :: 0 <= i < |s| ==> IsDigit(s[i])
  {
    if s == [] then 0
    else
      assert IsDigit(s[|s| - 1]);
      10 * DigitsValue(s[..|s| - 1]) + (s[|s| - 1] as int - '0' as int)
  }

  /** Parsing the printed form of n gives back n. */
  lemma {:induction false} DigitsOfNatToString(n: nat)
    ensures DigitsValue(NatToString(n)) == n
    decreases n
  {
    var r := NatToString(n);
    if n >= 10 {
      DigitsOfNatToString(n / 10);
      assert r[..|r| - 1] == NatToString(n / 10);
    }
  }

  /** Distinct numbers have distinct decimal texts. */
  lemma NatToStringInjective(a: nat, b: nat)
    requires NatToString(a) == NatToString(b)
    ensures a == b
  {
    DigitsOfNatToString(a);
    DigitsOfNatToString(b);
  }

  // ---------------------------------------------------------------------------
  // Flatten and reshape
  // ---------------------------------------------------------------------------

  predicate IsMatrix<T>(m: seq<seq<T>>, cols: nat) {
    forall r :: 0 <= r < |m| ==> |m[r]| == cols
  }

  /** ndarray.flatten() of a 2-D array given as its rows. */
  function Flatten<T>(m: seq<seq<T>>): seq<T> {
    if m == [] then [] else m[0] + Flatten(m[1..])
  }

  lemma {:induction false} FlattenLength<T>(m: seq<seq<T>>, k: nat)
    requires IsMatrix(m, k)
    ensures |Flatten(m)| == k * |m|
  {
    if m != [] {
      FlattenLength(m[1..], k);
    }
  }

  /** Element (i, j) of a matrix with rows of length k sits at k*i + j of its flattening. */
  lemma {:induction false} FlattenAt<T>(m: seq<seq<T>>, k: nat, i: nat, j: nat)
    requires IsMatrix(m, k)
    requires i < |m| && j < k
    ensures |Flatten(m)| == k * |m|
    ensures k * i + j < k * |m|
    ensures Flatten(m)[k * i + j] == m[i][j]
  {
    FlattenLength(m, k);
    if i > 0 {
      FlattenAt(m[1..], k, i - 1, j);
      FlattenLength(m[1..], k);
      assert k * i + j == k + (k * (i - 1) + j);
    }
  }

  /** reshape((n, k)) of a vector of length k*n: n consecutive rows of length k. */
  function Rows<T>(s: seq<T>, k: nat, n: nat): (r: seq<seq<T>>)
    requires |s| == k * n
    ensures |r| == n && IsMatrix(r, k)
  {
    if n == 0 then []
    else
      assert |s| == k + k * (n - 1);
      [s[..k]] + Rows(s[k..], k, n - 1)
  }

  lemma {:induction false} RowsAt<T>(s: seq<T>, k: nat, n: nat, i: nat, j: nat)
    requires |s| == k * n
    requires i < n && j < k
    ensures k * i + j < |s|
    ensures Rows(s, k, n)[i][j] == s[k * i + j]
  {
    assert |s| == k + k * (n - 1);
    var r := Rows(s, k, n);
    assert r == [s[..k]] + Rows(s[k..], k, n - 1);
    if i > 0 {
      RowsAt(s[k..], k, n - 1, i - 1, j);
      assert k * i == k + k * (i - 1);
      assert r[i] == Rows(s[k..], k, n - 1)[i - 1];
    } else {
      assert k * i == 0;
    }
  }

  /** Reshaping a flattened matrix gives the matrix back. */
  lemma {:induction false} RowsOfFlatten<T>(m: seq<seq<T>>, k: nat)
    requires IsMatrix(m, k)
    ensures |Flatten(m)| == k * |m|
    ensures Rows(Flatten(m), k, |m|) == m
  {
    FlattenLength(m, k);
    if m != [] {
      RowsOfFlatten(m[1..], k);
      assert Flatten(m)[..k] == m[0];
      assert Flatten(m)[k..] == Flatten(m[1..]);
    }
  }

  /** Flattening the rows of a vector gives the vector back. */
  lemma {:induction false} FlattenOfRows<T>(s: seq<T>, k: nat, n: nat)
    requires |s| == k * n
    ensures Flatten(Rows(s, k, n)) == s
  {
    if n > 0 {
      assert |s| == k + k * (n - 1);
      FlattenOfRows(s[k..], k, n - 1);
      assert s == s[..k] + s[k..];
    }
  }

  // ---------------------------------------------------------------------------
  // Sums
  // ---------------------------------------------------------------------------

  function Sum(s: seq<real>): real {
    if s == [] then 0.0 else s[0] + Sum(s[1..])
  }

  lemma {:induction false} SumAppend(a: seq<real>, b: seq<real>)
    ensures Sum(a + b) == Sum(a) + Sum(b)
  {
    if a != [] {
      assert (a + b)[0] == a[0];
      assert (a + b)[1..] == a[1..] + b;
      assert Sum(a + b) == (a + b)[0] + Sum((a + b)[1..]);
      SumAppend(a[1..], b);
    } else {
      assert a + b == b;
    }
  }
}
