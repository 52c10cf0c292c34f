/** Dense integer matrices and vectors, as the numpy arrays of the adjacency code. */
module Matrices {

  /** A matrix as its sequence of rows. */
  type Matrix = seq<seq<int>>

  predicate IsMatrix(m: Matrix, rows: nat, cols: nat) {
    |m| == rows && forall i :: 0 <= i < rows ==> |m[i]| == cols
  }

  predicate IsSquare(m: Matrix, n: nat) {
    IsMatrix(m, n, n)
  }

  /** Every entry is 0 or 1. */
  predicate IsBinary(m: Matrix) {
    forall i, j :: 0 <= i < |m| && 0 <= j < |m[i]| ==> m[i][j] == 0 || m[i][j] == 1
  }

  predicate NonNegative(m: Matrix) {
    forall i, j :: 0 <= i < |m| && 0 <= j < |m[i]| ==> m[i][j] >= 0
  }

  predicate Symmetric(m: Matrix)
    requires IsSquare(m, |m|)
  {
    forall i, j :: 0 <= i < |m| && 0 <= j < |m| ==> m[i][j] == m[j][i]
  }

  /** A vector whose entries are all 0 or 1 (a retention mask). */
  predicate IsMask(s: seq<int>) {
    forall i :: 0 <= i < |s| ==> s[i] == 0 || s[i] == 1
  }

  /** `(m > 0).astype(int)`: the 0/1 pattern of the positive entries. */
  function Binarize(m: Matrix): Matrix {
    seq(|m|, i requires 0 <= i < |m| =>
      seq(|m[i]|, j requires 0 <= j < |m[i]| => if m[i][j] > 0 then 1 else 0))
  }

  /** Binarising changes nothing exactly when the matrix is already 0/1. */
  lemma BinarizeFixedIff(m: Matrix)
    ensures Binarize(m) == m <==> IsBinary(m)
  {
    if Binarize(m) == m {
      forall i, j | 0 <= i < |m| && 0 <= j < |m[i]|
        ensures m[i][j] == 0 || m[i][j] == 1
      {
        assert m[i][j] == Binarize(m)[i][j];
      }
    }
    if IsBinary(m) {
      forall i | 0 <= i < |m| ensures Binarize(m)[i] == m[i] {
        assert forall j :: 0 <= j < |m[i]| ==> Binarize(m)[i][j] == m[i][j];
      }
    }
  }

  /** `sum(s)`. */
  function Sum(s: seq<int>): int {
    if |s| == 0 then 0 else Sum(s[..|s| - 1]) + s[|s| - 1]
  }

  /** A vector of `n` ones, `np.ones((n,))`. */
  function Ones(n: nat): (r: seq<int>)
    ensures |r| == n && IsMask(r)
    ensures forall i :: 0 <= i < n ==> r[i] == 1
  {
    seq(n, _ => 1)
  }

  /** A 0/1 mask sums to its length exactly when every entry is 1. */
  lemma {:induction false} MaskSumFullIff(s: seq<int>)
    requires IsMask(s)
    ensures 0 <= Sum(s) <= |s|
    ensures Sum(s) == |s| <==> forall i :: 0 <= i < |s| ==> s[i] == 1
  {
    if |s| > 0 {
      var p := s[..|s| - 1];
      MaskSumFullIff(p);
      if Sum(s) == |s| {
        assert s[|s| - 1] == 1 && Sum(p) == |p|;
        assert forall i :: 0 <= i < |p| ==> s[i] == p[i];
      }
    }
  }

  /** Sum is monotone under a pointwise smaller vector. */
  lemma {:induction false} SumMonotone(a: seq<int>, b: seq<int>)
    requires |a| == |b|
    requires forall i :: 0 <= i < |a| ==> a[i] <= b[i]
    ensures Sum(a) <= Sum(b)
  {
    if |a| > 0 {
      SumMonotone(a[..|a| - 1], b[..|b| - 1]);
    }
  }

  /** `a.dot(b)` for two vectors of the same length. */
  function Dot(a: seq<int>, b: seq<int>): int
    requires |a| == |b|
  {
    if |a| == 0 then 0 else Dot(a[..|a| - 1], b[..|b| - 1]) + a[|a| - 1] * b[|b| - 1]
  }

  /** Column `j` of a matrix. */
  function Column(m: Matrix, j: nat): (c: seq<int>)
    requires forall i :: 0 <= i < |m| ==> j < |m[i]|
  {
    seq(|m|, i requires 0 <= i < |m| => m[i][j])
  }
}
