/**
  Sparse matrices in coordinate (triplet) form, as assembled with
  coo_matrix((values, (row, col)), shape): duplicate entries add up. The
  column selection B[:, cols], the diagonal scalings diags(w) * B and
  B * diags(1/s), and the matrix-vector product are modelled exactly over the
  reals.
 */
module SparseMatrix {
  import opened Common

  datatype Coo = Coo(nRows: nat, nCols: nat, row: seq<int>, col: seq<int>, val: seq<real>)

  /** Parallel triplet lists, every index inside the shape. */
  predicate WellFormed(m: Coo) {
    |m.row| == |m.col| == |m.val| &&
    forall t :: 0 <= t < |m.row| ==> 0 <= m.row[t] < m.nRows && 0 <= m.col[t] < m.nCols
  }

  /** coo_matrix's constructor: ValueError when a row or column index lies
      outside the shape or the triplet lists differ in length. */
  function MakeCoo(nRows: nat, nCols: nat, row: seq<int>, col: seq<int>, val: seq<real>): (r: Result<Coo>)
    ensures r.Ok? <==> WellFormed(Coo(nRows, nCols, row, col, val))
    ensures r.Ok? ==> r.value == Coo(nRows, nCols, row, col, val)
    ensures r.Err? ==> r.error == ValueError
  {
    var m := Coo(nRows, nCols, row, col, val);
    if WellFormed(m) then Ok(m) else Err(ValueError)
  }

  /** The contribution of the first n triplets to row r of m * x. */
  function RowSum(m: Coo, x: seq<real>, r: int, n: nat): real
    requires WellFormed(m) && |x| == m.nCols && n <= |m.row|
  {
    if n == 0 then 0.0
    else RowSum(m, x, r, n - 1) + (if m.row[n - 1] == r then m.val[n - 1] * x[m.col[n - 1]] else 0.0)
  }

  /** m * x: entry r adds val * x[col] over the triplets of row r. */
  function MatVec(m: Coo, x: seq<real>): (y: seq<real>)
    requires WellFormed(m) && |x| == m.nCols
    ensures |y| == m.nRows
  {
    seq(m.nRows, r requires 0 <= r < m.nRows => RowSum(m, x, r, |m.row|))
  }

  function Add(x: seq<real>, z: seq<real>): (s: seq<real>)
    requires |x| == |z|
    ensures |s| == |x| && forall i :: 0 <= i < |x| ==> s[i] == x[i] + z[i]
  {
    seq(|x|, i requires 0 <= i < |x| => x[i] + z[i])
  }

  function Subtract(x: seq<real>, z: seq<real>): (s: seq<real>)
    requires |x| == |z|
    ensures |s| == |x| && forall i :: 0 <= i < |x| ==> s[i] == x[i] - z[i]
  {
    seq(|x|, i requires 0 <= i < |x| => x[i] - z[i])
  }

  function Multiply(x: seq<real>, z: seq<real>): (s: seq<real>)
    requires |x| == |z|
    ensures |s| == |x| && forall i :: 0 <= i < |x| ==> s[i] == x[i] * z[i]
  {
    seq(|x|, i requires 0 <= i < |x| => x[i] * z[i])
  }

  predicate NonZero(s: seq<real>) {
    forall i :: 0 <= i < |s| ==> s[i] != 0.0
  }

  function Divide(x: seq<real>, z: seq<real>): (s: seq<real>)
    requires |x| == |z| && NonZero(z)
    ensures |s| == |x| && forall i :: 0 <= i < |x| ==> s[i] == x[i] / z[i]
  {
    seq(|x|, i requires 0 <= i < |x| => x[i] / z[i])
  }

  lemma {:induction false} RowSumLinear(m: Coo, x: seq<real>, z: seq<real>, r: int, n: nat)
    requires WellFormed(m) && |x| == |z| == m.nCols && n <= |m.row|
    ensures RowSum(m, Add(x, z), r, n) == RowSum(m, x, r, n) + RowSum(m, z, r, n)
  {
    if n > 0 {
      RowSumLinear(m, x, z, r, n - 1);
    }
  }

  /** The product is linear in the vector. */
  lemma MatVecLinear(m: Coo, x: seq<real>, z: seq<real>)
    requires WellFormed(m) && |x| == |z| == m.nCols
    ensures MatVec(m, Add(x, z)) == Add(MatVec(m, x), MatVec(m, z))
  {
    forall r | 0 <= r < m.nRows
      ensures MatVec(m, Add(x, z))[r] == MatVec(m, x)[r] + MatVec(m, z)[r]
    {
      RowSumLinear(m, x, z, r, |m.row|);
    }
  }

  // ---------------------------------------------------------------------------
  // Diagonal scalings
  // ---------------------------------------------------------------------------

  /** diags(w) * m: every triplet of row r is multiplied by w[r]. */
  function ScaleRows(m: Coo, w: seq<real>): (s: Coo)
    requires WellFormed(m) && |w| == m.nRows
    ensures WellFormed(s) && s.nRows == m.nRows && s.nCols == m.nCols
  {
    Coo(m.nRows, m.nCols, m.row, m.col, seq(|m.val|, t requires 0 <= t < |m.val| => m.val[t] * w[m.row[t]]))
  }

  lemma {:induction false} RowSumScaleRows(m: Coo, w: seq<real>, x: seq<real>, r: int, n: nat)
    requires WellFormed(m) && |w| == m.nRows && |x| == m.nCols && n <= |m.row| && 0 <= r < m.nRows
    ensures RowSum(ScaleRows(m, w), x, r, n) == w[r] * RowSum(m, x, r, n)
  {
    if n > 0 {
      RowSumScaleRows(m, w, x, r, n - 1);
      if m.row[n - 1] == r {
        ScaledStep(m, w, x, r, n);
      } else {
        OtherRowStep(m, w, x, r, n);
      }
    }
  }

  /** The step of RowSumScaleRows for a triplet of row r. */
  lemma ScaledStep(m: Coo, w: seq<real>, x: seq<real>, r: int, n: nat)
    requires WellFormed(m) && |w| == m.nRows && |x| == m.nCols && 0 < n <= |m.row| && 0 <= r < m.nRows
    requires m.row[n - 1] == r
    requires RowSum(ScaleRows(m, w), x, r, n - 1) == w[r] * RowSum(m, x, r, n - 1)
    ensures RowSum(ScaleRows(m, w), x, r, n) == w[r] * RowSum(m, x, r, n)
  {
    var s := ScaleRows(m, w);
    var v, xc := m.val[n - 1], x[m.col[n - 1]];
    assert s.val[n - 1] == v * w[r];
    assert RowSum(s, x, r, n) == RowSum(s, x, r, n - 1) + v * w[r] * xc;
    ScaleStep(w[r], RowSum(m, x, r, n - 1), v, xc);
  }

  /** The step of RowSumScaleRows for a triplet of another row. */
  lemma OtherRowStep(m: Coo, w: seq<real>, x: seq<real>, r: int, n: nat)
    requires WellFormed(m) && |w| == m.nRows && |x| == m.nCols && 0 < n <= |m.row| && 0 <= r < m.nRows
    requires m.row[n - 1] != r
    requires RowSum(ScaleRows(m, w), x, r, n - 1) == w[r] * RowSum(m, x, r, n - 1)
    ensures RowSum(ScaleRows(m, w), x, r, n) == w[r] * RowSum(m, x, r, n)
  {
  }

  /** One triplet of row r, scaled by w[r]. */
  lemma ScaleStep(wr: real, a: real, v: real, xc: real)
    ensures wr * a + v * wr * xc == wr * (a + v * xc)
  {
    assert v * wr * xc == wr * (v * xc);
  }

  /** Scaling the rows scales the product row by row. */
  lemma MatVecScaleRows(m: Coo, w: seq<real>, x: seq<real>)
    requires WellFormed(m) && |w| == m.nRows && |x| == m.nCols
    ensures MatVec(ScaleRows(m, w), x) == Multiply(w, MatVec(m, x))
  {
    var lhs, rhs := MatVec(ScaleRows(m, w), x), Multiply(w, MatVec(m, x));
    forall r | 0 <= r < m.nRows
      ensures lhs[r] == rhs[r]
    {
      MatVecScaleRowsAt(m, w, x, r);
    }
    assert |lhs| == |rhs|;
  }

  /** Entry r of MatVecScaleRows. */
  lemma MatVecScaleRowsAt(m: Coo, w: seq<real>, x: seq<real>, r: nat)
    requires WellFormed(m) && |w| == m.nRows && |x| == m.nCols && r < m.nRows
    ensures MatVec(ScaleRows(m, w), x)[r] == Multiply(w, MatVec(m, x))[r]
  {
    RowSumScaleRows(m, w, x, r, |m.row|);
    var y := MatVec(m, x);
    assert y[r] == RowSum(m, x, r, |m.row|);
    assert Multiply(w, y)[r] == w[r] * y[r];
  }

  /** m * diags(1/s): every triplet of column c is divided by s[c]. */
  function ScaleColumns(m: Coo, s: seq<real>): (sc: Coo)
    requires WellFormed(m) && |s| == m.nCols && NonZero(s)
    ensures WellFormed(sc) && sc.nRows == m.nRows && sc.nCols == m.nCols
  {
    Coo(m.nRows, m.nCols, m.row, m.col, seq(|m.val|, t requires 0 <= t < |m.val| => m.val[t] / s[m.col[t]]))
  }

  lemma {:induction false} RowSumScaleColumns(m: Coo, s: seq<real>, y: seq<real>, r: int, n: nat)
    requires WellFormed(m) && |s| == |y| == m.nCols && NonZero(s) && n <= |m.row|
    ensures RowSum(ScaleColumns(m, s), y, r, n) == RowSum(m, Divide(y, s), r, n)
  {
    if n > 0 {
      RowSumScaleColumns(m, s, y, r, n - 1);
      var c := m.col[n - 1];
      assert m.val[n - 1] / s[c] * y[c] == m.val[n - 1] * (y[c] / s[c]);
    }
  }

  /** Solving against the column-scaled matrix and dividing by the scale
      factors afterwards gives the same product as the unscaled matrix. */
  lemma MatVecScaleColumns(m: Coo, s: seq<real>, y: seq<real>)
    requires WellFormed(m) && |s| == |y| == m.nCols && NonZero(s)
    ensures MatVec(ScaleColumns(m, s), y) == MatVec(m, Divide(y, s))
  {
    forall r | 0 <= r < m.nRows
      ensures MatVec(ScaleColumns(m, s), y)[r] == MatVec(m, Divide(y, s))[r]
    {
      RowSumScaleColumns(m, s, y, r, |m.row|);
    }
  }

  // ---------------------------------------------------------------------------
  // Column selection B[:, cols]
  // ---------------------------------------------------------------------------

  /** The position of x in a duplicate-free list. */
  function IndexOf(s: seq<int>, x: int): (k: nat)
    requires x in s
    ensures k < |s| && s[k] == x
    ensures forall j :: 0 <= j < k ==> s[j] != x
  {
    if s[0] == x then 0 else 1 + IndexOf(s[1..], x)
  }

  /** The triplets among the first n of m whose column is in cols, with the
      column renumbered to its position in cols. */
  function SelectPrefix(m: Coo, cols: seq<int>, n: nat): (sel: Coo)
    requires WellFormed(m) && n <= |m.row|
    ensures WellFormed(sel) && sel.nRows == m.nRows && sel.nCols == |cols|
  {
    if n == 0 then Coo(m.nRows, |cols|, [], [], [])
    else
      var p := SelectPrefix(m, cols, n - 1);
      if m.col[n - 1] in cols then
        Coo(m.nRows, |cols|, p.row + [m.row[n - 1]], p.col + [IndexOf(cols, m.col[n - 1])], p.val + [m.val[n - 1]])
      else p
  }

  /** B[:, cols]. */
  function SelectColumns(m: Coo, cols: seq<int>): (sel: Coo)
    requires WellFormed(m)
    ensures WellFormed(sel) && sel.nRows == m.nRows && sel.nCols == |cols|
  {
    SelectPrefix(m, cols, |m.row|)
  }

  /** The vector of length n holding v[k] at cols[k] and 0 elsewhere. */
  function Spread(cols: seq<int>, v: seq<real>, n: nat): (x: seq<real>)
    requires |cols| == |v|
    ensures |x| == n
  {
    seq(n, c requires 0 <= c < n => if c in cols then v[IndexOf(cols, c)] else 0.0)
  }

  /** x[cols]. */
  function Gather(x: seq<real>, cols: seq<int>): (g: seq<real>)
    requires forall k :: 0 <= k < |cols| ==> 0 <= cols[k] < |x|
    ensures |g| == |cols| && forall k :: 0 <= k < |cols| ==> g[k] == x[cols[k]]
  {
    seq(|cols|, k requires 0 <= k < |cols| => x[cols[k]])
  }

  lemma {:induction false} RowSumPrefixOnly(m: Coo, m': Coo, x: seq<real>, r: int, n: nat)
    requires WellFormed(m) && WellFormed(m') && m.nCols == m'.nCols && |x| == m.nCols
    requires n <= |m.row| && n <= |m'.row|
    requires m.row[..n] == m'.row[..n] && m.col[..n] == m'.col[..n] && m.val[..n] == m'.val[..n]
    ensures RowSum(m, x, r, n) == RowSum(m', x, r, n)
  {
    if n > 0 {
      assert m.row[..n - 1] == m.row[..n][..n - 1] && m'.row[..n - 1] == m'.row[..n][..n - 1];
      assert m.col[..n - 1] == m.col[..n][..n - 1] && m'.col[..n - 1] == m'.col[..n][..n - 1];
      assert m.val[..n - 1] == m.val[..n][..n - 1] && m'.val[..n - 1] == m'.val[..n][..n - 1];
      assert m.row[n - 1] == m.row[..n][n - 1] && m'.row[n - 1] == m'.row[..n][n - 1];
      assert m.col[n - 1] == m.col[..n][n - 1] && m'.col[n - 1] == m'.col[..n][n - 1];
      assert m.val[n - 1] == m.val[..n][n - 1] && m'.val[n - 1] == m'.val[..n][n - 1];
      RowSumPrefixOnly(m, m', x, r, n - 1);
    }
  }

  /** Appending one triplet adds its contribution to its row. */
  lemma RowSumSnoc(p: Coo, q: Coo, x: seq<real>, r: int, a: int, b: int, e: real)
    requires WellFormed(p) && WellFormed(q) && q.nCols == p.nCols && |x| == p.nCols
    requires q.row == p.row + [a] && q.col == p.col + [b] && q.val == p.val + [e] && 0 <= b < |x|
    ensures RowSum(q, x, r, |q.row|) == RowSum(p, x, r, |p.row|) + (if a == r then e * x[b] else 0.0)
  {
    var k := |p.row|;
    assert q.row[..k] == p.row[..k] && q.col[..k] == p.col[..k] && q.val[..k] == p.val[..k];
    RowSumPrefixOnly(q, p, x, r, k);
  }

  lemma {:induction false} RowSumSelectPrefix(m: Coo, cols: seq<int>, v: seq<real>, r: int, n: nat)
    requires WellFormed(m) && n <= |m.row| && |cols| == |v|
    ensures RowSum(SelectPrefix(m, cols, n), v, r, |SelectPrefix(m, cols, n).row|)
            == RowSum(m, Spread(cols, v, m.nCols), r, n)
  {
    if n > 0 {
      RowSumSelectPrefix(m, cols, v, r, n - 1);
      if m.col[n - 1] in cols {
        SelectedStep(m, cols, v, r, n);
      } else {
        assert SelectPrefix(m, cols, n) == SelectPrefix(m, cols, n - 1);
        assert Spread(cols, v, m.nCols)[m.col[n - 1]] == 0.0;
      }
    }
  }

  /** The step of RowSumSelectPrefix for a triplet whose column is selected. */
  lemma SelectedStep(m: Coo, cols: seq<int>, v: seq<real>, r: int, n: nat)
    requires WellFormed(m) && 0 < n <= |m.row| && |cols| == |v| && m.col[n - 1] in cols
    requires RowSum(SelectPrefix(m, cols, n - 1), v, r, |SelectPrefix(m, cols, n - 1).row|)
             == RowSum(m, Spread(cols, v, m.nCols), r, n - 1)
    ensures RowSum(SelectPrefix(m, cols, n), v, r, |SelectPrefix(m, cols, n).row|)
            == RowSum(m, Spread(cols, v, m.nCols), r, n)
  {
    SelectPrefixSnoc(m, cols, n);
    RowSumSnoc(SelectPrefix(m, cols, n - 1), SelectPrefix(m, cols, n), v, r,
               m.row[n - 1], IndexOf(cols, m.col[n - 1]), m.val[n - 1]);
    SpreadRowSumUnfold(m, cols, v, r, n);
  }

  /** One selected triplet more: the selection gains it, its column renumbered. */
  lemma SelectPrefixSnoc(m: Coo, cols: seq<int>, n: nat)
    requires WellFormed(m) && 0 < n <= |m.row| && m.col[n - 1] in cols
    ensures var p, q := SelectPrefix(m, cols, n - 1), SelectPrefix(m, cols, n);
      q.row == p.row + [m.row[n - 1]] && q.col == p.col + [IndexOf(cols, m.col[n - 1])] && q.val == p.val + [m.val[n - 1]]
  {
  }

  /** RowSum of the spread vector over n triplets, the last one's column
      being selected: its term takes the value of v at that column's position. */
  lemma SpreadRowSumUnfold(m: Coo, cols: seq<int>, v: seq<real>, r: int, n: nat)
    requires WellFormed(m) && |cols| == |v| && 0 < n <= |m.row| && m.col[n - 1] in cols
    ensures var x := Spread(cols, v, m.nCols);
      RowSum(m, x, r, n) == RowSum(m, x, r, n - 1) +
        (if m.row[n - 1] == r then m.val[n - 1] * v[IndexOf(cols, m.col[n - 1])] else 0.0)
  {
    var x := Spread(cols, v, m.nCols);
    assert x[m.col[n - 1]] == v[IndexOf(cols, m.col[n - 1])];
  }

  /** B[:, cols] * v is B applied to v spread into the selected columns. */
  lemma SelectColumnsTimes(m: Coo, cols: seq<int>, v: seq<real>)
    requires WellFormed(m) && |cols| == |v|
    ensures MatVec(SelectColumns(m, cols), v) == MatVec(m, Spread(cols, v, m.nCols))
  {
    forall r | 0 <= r < m.nRows
      ensures MatVec(SelectColumns(m, cols), v)[r] == MatVec(m, Spread(cols, v, m.nCols))[r]
    {
      RowSumSelectPrefix(m, cols, v, r, |m.row|);
    }
  }

  /** A vector is the sum of its prescribed and free parts, each spread back
      into place. */
  lemma SpreadPartition(x: seq<real>, dofs: seq<int>)
    ensures forall k :: 0 <= k < |IndicesWhere(|x|, dofs, true)| ==> 0 <= IndicesWhere(|x|, dofs, true)[k] < |x|
    ensures forall k :: 0 <= k < |IndicesWhere(|x|, dofs, false)| ==> 0 <= IndicesWhere(|x|, dofs, false)[k] < |x|
    ensures x == Add(Spread(IndicesWhere(|x|, dofs, true), Gather(x, IndicesWhere(|x|, dofs, true)), |x|),
                     Spread(IndicesWhere(|x|, dofs, false), Gather(x, IndicesWhere(|x|, dofs, false)), |x|))
  {
    var bc, keep := IndicesWhere(|x|, dofs, true), IndicesWhere(|x|, dofs, false);
    assert forall k :: 0 <= k < |bc| ==> bc[k] in bc;
    assert forall k :: 0 <= k < |keep| ==> keep[k] in keep;
    var s := Add(Spread(bc, Gather(x, bc), |x|), Spread(keep, Gather(x, keep), |x|));
    forall c | 0 <= c < |x|
      ensures s[c] == x[c]
    {
      if c in dofs {
        assert c in bc && c !in keep;
      } else {
        assert c in keep && c !in bc;
      }
    }
  }

  /** Column split of a product: B * x is the prescribed columns applied to
      x's prescribed entries plus the free columns applied to its free
      entries. */
  lemma ColumnSplit(m: Coo, x: seq<real>, dofs: seq<int>)
    requires WellFormed(m) && |x| == m.nCols
    ensures forall k :: 0 <= k < |IndicesWhere(|x|, dofs, true)| ==> 0 <= IndicesWhere(|x|, dofs, true)[k] < |x|
    ensures forall k :: 0 <= k < |IndicesWhere(|x|, dofs, false)| ==> 0 <= IndicesWhere(|x|, dofs, false)[k] < |x|
    ensures MatVec(m, x) == Add(MatVec(SelectColumns(m, IndicesWhere(|x|, dofs, true)), Gather(x, IndicesWhere(|x|, dofs, true))),
                                MatVec(SelectColumns(m, IndicesWhere(|x|, dofs, false)), Gather(x, IndicesWhere(|x|, dofs, false))))
  {
    var bc, keep := IndicesWhere(|x|, dofs, true), IndicesWhere(|x|, dofs, false);
    SpreadPartition(x, dofs);
    SelectColumnsTimes(m, bc, Gather(x, bc));
    SelectColumnsTimes(m, keep, Gather(x, keep));
    MatVecLinear(m, Spread(bc, Gather(x, bc), |x|), Spread(keep, Gather(x, keep), |x|));
  }
}
