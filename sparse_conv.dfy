/**
 * `CGNLayer` (models/graphLayer.py): the adjacency is stored as a sparse
 * matrix in coordinate (COO) form, `np.where(adj)` for the positions and the
 * nonzero values in the same row-major order, and node features are
 * multiplied by it through a sparse-dense product.
 */
module SparseConv {
  import opened Matrices
  import opened Pooling

  /**
   * Entry k of the COO form: `edges[0][k]`, `edges[1][k]` and `flat_adj[k]`.
   */
  datatype Entry = Entry(row: int, col: int, value: int)

  /** The entries of row `r`: its nonzero columns in ascending order, with their values. */
  function RowEntries(row: seq<int>, r: int): seq<Entry> {
    if |row| == 0 then []
    else
      var prev := RowEntries(row[..|row| - 1], r);
      if row[|row| - 1] != 0 then prev + [Entry(r, |row| - 1, row[|row| - 1])] else prev
  }

  /** The entries of the first `upto` rows, row after row. */
  function CooRows(adj: Matrix, upto: nat): seq<Entry>
    requires upto <= |adj|
  {
    if upto == 0 then [] else CooRows(adj, upto - 1) + RowEntries(adj[upto - 1], upto - 1)
  }

  /**
   * `CGNLayer.init_params`: the positions and values of the nonzero entries,
   * row-major. Every entry is a position of the N x N graph and carries the
   * nonzero adjacency value found there.
   */
  function Coo(adj: Matrix): (es: seq<Entry>)
    requires IsSquare(adj, |adj|)
    ensures forall k :: 0 <= k < |es| ==>
      0 <= es[k].row < |adj| && 0 <= es[k].col < |adj| &&
      es[k].value == adj[es[k].row][es[k].col] && es[k].value != 0
  {
    CooSound(adj, |adj|);
    CooRows(adj, |adj|)
  }

  /** Every entry of row r lies in row r and carries the nonzero value at its column. */
  lemma {:induction false} RowEntriesSound(row: seq<int>, r: int)
    ensures forall k :: 0 <= k < |RowEntries(row, r)| ==>
      var x := RowEntries(row, r)[k];
      x.row == r && 0 <= x.col < |row| && x.value == row[x.col] && x.value != 0
  {
    if |row| > 0 {
      var init := row[..|row| - 1];
      RowEntriesSound(init, r);
      assert forall j :: 0 <= j < |init| ==> init[j] == row[j];
    }
  }

  /** The columns of a row's entries strictly ascend. */
  lemma {:induction false} RowEntriesAscending(row: seq<int>, r: int)
    ensures forall k, l :: 0 <= k < l < |RowEntries(row, r)| ==>
      RowEntries(row, r)[k].col < RowEntries(row, r)[l].col
  {
    if |row| > 0 {
      var init := row[..|row| - 1];
      RowEntriesAscending(init, r);
      RowEntriesSound(init, r);
    }
  }

  /** Every nonzero entry of the row is listed. */
  lemma {:induction false} RowEntriesComplete(row: seq<int>, r: int)
    ensures forall j :: 0 <= j < |row| && row[j] != 0 ==> Entry(r, j, row[j]) in RowEntries(row, r)
  {
    if |row| > 0 {
      var init := row[..|row| - 1];
      RowEntriesComplete(init, r);
      assert forall j :: 0 <= j < |init| ==> init[j] == row[j];
    }
  }

  /**
   * Every COO entry is a position of the graph holding a nonzero value, and
   * the value stored beside it is the adjacency's value there.
   */
  lemma {:induction false} CooSound(adj: Matrix, upto: nat)
    requires IsSquare(adj, |adj|) && upto <= |adj|
    ensures forall k :: 0 <= k < |CooRows(adj, upto)| ==>
      var x := CooRows(adj, upto)[k];
      0 <= x.row < upto && 0 <= x.col < |adj| && x.value == adj[x.row][x.col] && x.value != 0
  {
    if upto > 0 {
      CooSound(adj, upto - 1);
      RowEntriesSound(adj[upto - 1], upto - 1);
      var prev := CooRows(adj, upto - 1);
      var last := RowEntries(adj[upto - 1], upto - 1);
      assert forall k :: |prev| <= k < |prev| + |last| ==> (prev + last)[k] == last[k - |prev|];
    }
  }

  /** Every nonzero position of the first `upto` rows has its COO entry. */
  lemma {:induction false} CooComplete(adj: Matrix, upto: nat)
    requires IsSquare(adj, |adj|) && upto <= |adj|
    ensures forall i, j :: 0 <= i < upto && 0 <= j < |adj| && adj[i][j] != 0 ==>
      Entry(i, j, adj[i][j]) in CooRows(adj, upto)
  {
    if upto > 0 {
      CooComplete(adj, upto - 1);
      RowEntriesComplete(adj[upto - 1], upto - 1);
    }
  }

  /** Entry k precedes entry l in row-major order. */
  predicate Before(x: Entry, y: Entry) {
    x.row < y.row || (x.row == y.row && x.col < y.col)
  }

  /** The COO entries are in strictly increasing row-major order, so no position is listed twice. */
  lemma {:induction false} CooRowMajor(adj: Matrix, upto: nat)
    requires IsSquare(adj, |adj|) && upto <= |adj|
    ensures forall k, l :: 0 <= k < l < |CooRows(adj, upto)| ==>
      Before(CooRows(adj, upto)[k], CooRows(adj, upto)[l])
  {
    if upto > 0 {
      CooRowMajor(adj, upto - 1);
      CooSound(adj, upto - 1);
      RowEntriesSound(adj[upto - 1], upto - 1);
      RowEntriesAscending(adj[upto - 1], upto - 1);
      var prev := CooRows(adj, upto - 1);
      var last := RowEntries(adj[upto - 1], upto - 1);
      assert forall k :: |prev| <= k < |prev| + |last| ==> (prev + last)[k] == last[k - |prev|];
    }
  }

  /** Every entry names a column of a vector of length n. */
  predicate ColumnsFit(es: seq<Entry>, n: nat) {
    forall k :: 0 <= k < |es| ==> 0 <= es[k].col < n
  }

  /** Row i of the sparse-dense product: the sum of `value * v[col]` over the entries of row i. */
  function SparseRow(es: seq<Entry>, v: seq<real>, i: int): real
    requires ColumnsFit(es, |v|)
  {
    if |es| == 0 then 0.0
    else
      var x := es[|es| - 1];
      SparseRow(es[..|es| - 1], v, i) + (if x.row == i then (x.value as real) * v[x.col] else 0.0)
  }

  /** `torch.mm(sparse, v)` for one vector v. */
  function SparseMul(es: seq<Entry>, v: seq<real>, n: nat): (out: seq<real>)
    requires ColumnsFit(es, |v|)
    ensures |out| == n
  {
    seq(n, i requires 0 <= i < n => SparseRow(es, v, i))
  }

  /** `sum_{j < |row|} row[j] * v[j]`: a row of the dense product. */
  function DenseRow(row: seq<int>, v: seq<real>): real
    requires |row| <= |v|
  {
    if |row| == 0 then 0.0
    else DenseRow(row[..|row| - 1], v) + (row[|row| - 1] as real) * v[|row| - 1]
  }

  /** The sparse row sum splits over a concatenation of entry lists. */
  lemma {:induction false} SparseRowAppend(a: seq<Entry>, b: seq<Entry>, v: seq<real>, i: int)
    requires ColumnsFit(a, |v|) && ColumnsFit(b, |v|)
    ensures ColumnsFit(a + b, |v|)
    ensures SparseRow(a + b, v, i) == SparseRow(a, v, i) + SparseRow(b, v, i)
  {
    assert forall k :: 0 <= k < |a + b| ==> (a + b)[k] == if k < |a| then a[k] else b[k - |a|];
    if |b| == 0 {
      assert a + b == a;
    } else {
      var init := b[..|b| - 1];
      assert (a + b)[..|a + b| - 1] == a + init;
      assert (a + b)[|a + b| - 1] == b[|b| - 1];
      SparseRowAppend(a, init, v, i);
    }
  }

  /** A single entry contributes `value * v[col]` to its own row and nothing elsewhere. */
  lemma SparseRowSingle(x: Entry, v: seq<real>, i: int)
    requires 0 <= x.col < |v|
    ensures ColumnsFit([x], |v|)
    ensures SparseRow([x], v, i) == if x.row == i then (x.value as real) * v[x.col] else 0.0
  {
    assert [x][..0] == [];
  }

  /** Row r's entries add up to the dense row in row r and to nothing elsewhere. */
  lemma {:induction false} RowEntriesProduct(row: seq<int>, r: int, v: seq<real>, i: int)
    requires |row| <= |v|
    ensures ColumnsFit(RowEntries(row, r), |v|)
    ensures SparseRow(RowEntries(row, r), v, i) == if r == i then DenseRow(row, v) else 0.0
  {
    if |row| > 0 {
      var n := |row| - 1;
      var init := row[..n];
      RowEntriesProduct(init, r, v, i);
      var prev := RowEntries(init, r);
      assert DenseRow(row, v) == DenseRow(init, v) + (row[n] as real) * v[n];
      if row[n] != 0 {
        var x := Entry(r, n, row[n]);
        assert RowEntries(row, r) == prev + [x];
        SparseRowSingle(x, v, i);
        SparseRowAppend(prev, [x], v, i);
      } else {
        assert RowEntries(row, r) == prev;
        assert (row[n] as real) * v[n] == 0.0;
      }
    }
  }

  /** Over the first `upto` rows, the sparse row sum is the dense row for those rows and 0 beyond. */
  lemma {:induction false} CooRowsProduct(adj: Matrix, upto: nat, v: seq<real>, i: nat)
    requires IsSquare(adj, |adj|) && upto <= |adj| && |v| == |adj|
    ensures ColumnsFit(CooRows(adj, upto), |v|)
    ensures SparseRow(CooRows(adj, upto), v, i) == if i < upto then DenseRow(adj[i], v) else 0.0
  {
    if upto > 0 {
      CooRowsProduct(adj, upto - 1, v, i);
      RowEntriesProduct(adj[upto - 1], upto - 1, v, i);
      SparseRowAppend(CooRows(adj, upto - 1), RowEntries(adj[upto - 1], upto - 1), v, i);
    }
  }

  /** The sparse-dense product over the COO form is the dense product `adj · v`. */
  lemma SparseIsDense(adj: Matrix, v: seq<real>)
    requires IsSquare(adj, |adj|) && |v| == |adj|
    ensures ColumnsFit(Coo(adj), |v|)
    ensures forall i :: 0 <= i < |adj| ==> SparseMul(Coo(adj), v, |adj|)[i] == DenseRow(adj[i], v)
  {
    CooRowsProduct(adj, |adj|, v, 0);
    forall i | 0 <= i < |adj|
      ensures SparseMul(Coo(adj), v, |adj|)[i] == DenseRow(adj[i], v)
    {
      CooRowsProduct(adj, |adj|, v, i);
    }
  }

  /**
   * `CGNLayer._adj_mul`: every (example, channel) vector over the nodes is
   * multiplied by the sparse adjacency.
   */
  function AdjMul(es: seq<Entry>, x: Tensor, n: nat): (y: Tensor)
    requires IsTensor(x, n, Channels(x)) && ColumnsFit(es, n)
    ensures |y| == |x| && IsTensor(y, n, Channels(x))
  {
    seq(|x|, e requires 0 <= e < |x| =>
      seq(n, i requires 0 <= i < n =>
        seq(Channels(x), c requires 0 <= c < Channels(x) => SparseRow(es, NodeVector(x, e, c, n), i))))
  }

  /** Through the COO form, node i of every (example, channel) receives `sum_j adj[i][j] * x[j]`. */
  lemma AdjMulIsDense(adj: Matrix, x: Tensor, e: nat, i: nat, c: nat)
    requires IsSquare(adj, |adj|) && IsTensor(x, |adj|, Channels(x))
    requires e < |x| && i < |adj| && c < Channels(x)
    ensures ColumnsFit(Coo(adj), |adj|)
    ensures AdjMul(Coo(adj), x, |adj|)[e][i][c] == DenseRow(adj[i], NodeVector(x, e, c, |adj|))
  {
    CooRowsProduct(adj, |adj|, NodeVector(x, e, c, |adj|), i);
  }
}
