/**
 * The adjacency transforms `SelfConnection` and `AugmentGraphConnectivity`
 * (models/graphLayer.py).
 */
module AdjacencyTransforms {
  import opened Matrices

  /** The contents of a 2-D array as a matrix. */
  function Elements(a: array2<int>): (m: Matrix)
    reads a
    ensures IsMatrix(m, a.Length0, a.Length1)
  {
    seq(a.Length0, i requires 0 <= i < a.Length0 reads a =>
      seq(a.Length1, j requires 0 <= j < a.Length1 reads a => a[i, j]))
  }

  /** `np.fill_diagonal(m, v)` as a value: the diagonal set to v, the rest unchanged. */
  function FillDiagonal(m: Matrix, v: int): (r: Matrix)
  {
    seq(|m|, i requires 0 <= i < |m| =>
      seq(|m[i]|, j requires 0 <= j < |m[i]| => if i == j then v else m[i][j]))
  }

  /** `SelfConnection`: adds (or removes) every self-loop. */
  datatype SelfConnection = SelfConnection(addSelfConnection: bool, pleaseIgnore: bool)
  {
    /** The value written on the diagonal. */
    function DiagonalValue(): int {
      if addSelfConnection then 1 else 0
    }

    /**
     * `__call__`: overwrites the diagonal of `adj` in place, leaves every other
     * entry as it was, and returns the same array.
     */
    method Call(adj: array2<int>) returns (r: array2<int>)
      modifies adj
      ensures r == adj
      ensures Elements(adj) == FillDiagonal(old(Elements(adj)), DiagonalValue())
      ensures forall i, j :: 0 <= i < adj.Length0 && 0 <= j < adj.Length1 ==>
        adj[i, j] == if i == j then DiagonalValue() else old(adj[i, j])
    {
      var v := DiagonalValue();
      var k := 0;
      while k < adj.Length0 && k < adj.Length1
        invariant 0 <= k <= adj.Length0 && k <= adj.Length1
        invariant forall i, j :: 0 <= i < adj.Length0 && 0 <= j < adj.Length1 ==>
          adj[i, j] == if i == j && i < k then v else old(adj[i, j])
      {
        adj[k, k] := v;
        k := k + 1;
      }
      assert Elements(adj) == FillDiagonal(old(Elements(adj)), v) by {
        var before := old(Elements(adj));
        forall i | 0 <= i < adj.Length0
          ensures Elements(adj)[i] == FillDiagonal(before, v)[i]
        {
          assert forall j :: 0 <= j < adj.Length1 ==> Elements(adj)[i][j] == FillDiagonal(before, v)[i][j];
        }
      }
      r := adj;
    }
  }

  /** Filling the diagonal twice with the same value is filling it once. */
  lemma SelfConnectionIdempotent(m: Matrix, v: int)
    ensures FillDiagonal(FillDiagonal(m, v), v) == FillDiagonal(m, v)
  {
    var once := FillDiagonal(m, v);
    forall i | 0 <= i < |m| ensures FillDiagonal(once, v)[i] == once[i] {
      assert forall j :: 0 <= j < |m[i]| ==> FillDiagonal(once, v)[i][j] == once[i][j];
    }
  }

  /** Filling the diagonal changes nothing exactly when it already holds v. */
  lemma FillDiagonalFixedIff(m: Matrix, v: int)
    requires IsSquare(m, |m|)
    ensures FillDiagonal(m, v) == m <==> forall i :: 0 <= i < |m| ==> m[i][i] == v
  {
    if forall i :: 0 <= i < |m| ==> m[i][i] == v {
      forall i | 0 <= i < |m| ensures FillDiagonal(m, v)[i] == m[i] {
        assert forall j :: 0 <= j < |m| ==> FillDiagonal(m, v)[i][j] == m[i][j];
      }
    }
    if FillDiagonal(m, v) == m {
      forall i | 0 <= i < |m| ensures m[i][i] == v {
        assert FillDiagonal(m, v)[i][i] == v;
      }
    }
  }

  /** `m.dot(m.T)`. */
  function Gram(m: Matrix): (r: Matrix)
    requires IsSquare(m, |m|)
    ensures IsSquare(r, |m|)
  {
    var n := |m|;
    seq(n, i requires 0 <= i < n => seq(n, j requires 0 <= j < n => Dot(m[i], m[j])))
  }

  /** `k` rounds of `A := A.dot(A.T)`. */
  function Hops(m: Matrix, k: nat): (r: Matrix)
    requires IsSquare(m, |m|)
    ensures IsSquare(r, |m|)
  {
    if k == 0 then m else Gram(Hops(m, k - 1))
  }

  /** `AugmentGraphConnectivity`: links the neighbours of neighbours, `kernelSize` times. */
  datatype AugmentGraphConnectivity = AugmentGraphConnectivity(kernelSize: int, pleaseIgnore: bool)
  {
    /** The rounds `range(kernel_size)` runs: none for a negative size. */
    function Rounds(): nat {
      if kernelSize < 0 then 0 else kernelSize
    }

    /**
     * `__call__`: the input itself when ignoring, otherwise the 0/1 pattern of
     * the input after `kernel_size` rounds of `A := A.dot(A.T)`.
     */
    method Call(adj: Matrix) returns (r: Matrix)
      requires IsSquare(adj, |adj|)
      ensures pleaseIgnore ==> r == adj
      ensures !pleaseIgnore ==> r == Binarize(Hops(adj, Rounds())) && IsBinary(r)
      ensures IsSquare(r, |adj|)
    {
      if pleaseIgnore {
        return adj;
      }
      var current := adj;
      var i := 0;
      while i < kernelSize
        invariant 0 <= i <= Rounds()
        invariant current == Hops(adj, i)
      {
        current := Gram(current);
        i := i + 1;
      }
      assert i == Rounds();
      r := Binarize(current);
    }
  }

  /** With no rounds, augmenting is the identity exactly on 0/1 input. */
  lemma AugmentZeroRoundsIdentityIff(adj: Matrix)
    requires IsSquare(adj, |adj|)
    ensures Binarize(Hops(adj, 0)) == adj <==> IsBinary(adj)
  {
    BinarizeFixedIff(adj);
  }

  lemma {:induction false} DotSymmetric(a: seq<int>, b: seq<int>)
    requires |a| == |b|
    ensures Dot(a, b) == Dot(b, a)
  {
    if |a| > 0 {
      DotSymmetric(a[..|a| - 1], b[..|b| - 1]);
    }
  }

  /** After at least one round the augmented adjacency is symmetric. */
  lemma AugmentSymmetric(adj: Matrix, k: nat)
    requires IsSquare(adj, |adj|) && k >= 1
    ensures Symmetric(Hops(adj, k))
    ensures Symmetric(Binarize(Hops(adj, k)))
  {
    var p := Hops(adj, k - 1);
    forall i, j | 0 <= i < |adj| && 0 <= j < |adj|
      ensures Hops(adj, k)[i][j] == Hops(adj, k)[j][i]
    {
      DotSymmetric(p[i], p[j]);
    }
  }

  /** On non-negative vectors the dot product is positive iff some position is positive in both. */
  lemma {:induction false} DotPositiveIff(a: seq<int>, b: seq<int>)
    requires |a| == |b|
    requires forall k :: 0 <= k < |a| ==> a[k] >= 0 && b[k] >= 0
    ensures Dot(a, b) >= 0
    ensures Dot(a, b) > 0 <==> exists k :: 0 <= k < |a| && a[k] > 0 && b[k] > 0
  {
    if |a| > 0 {
      var n := |a|;
      var a', b' := a[..n - 1], b[..n - 1];
      DotPositiveIff(a', b');
      assert a[n - 1] * b[n - 1] >= 0;
      assert a[n - 1] > 0 && b[n - 1] > 0 ==> a[n - 1] * b[n - 1] > 0;
      assert a[n - 1] * b[n - 1] > 0 ==> a[n - 1] != 0 && b[n - 1] != 0;
      if exists k :: 0 <= k < n - 1 && a'[k] > 0 && b'[k] > 0 {
        var k :| 0 <= k < n - 1 && a'[k] > 0 && b'[k] > 0;
        assert a[k] > 0 && b[k] > 0;
      }
      if k :| 0 <= k < n && a[k] > 0 && b[k] > 0 {
        if k < n - 1 {
          assert a'[k] > 0 && b'[k] > 0;
        }
      }
    }
  }

  /**
   * On non-negative weights, one round links i and j exactly when some node k
   * is a neighbour (by row) of both: the neighbours of the neighbours.
   */
  lemma GramLinksCommonNeighbours(m: Matrix, i: nat, j: nat)
    requires IsSquare(m, |m|) && NonNegative(m) && i < |m| && j < |m|
    ensures Gram(m)[i][j] > 0 <==> exists k :: 0 <= k < |m| && m[i][k] > 0 && m[j][k] > 0
  {
    DotPositiveIff(m[i], m[j]);
  }

  /** A round keeps weights non-negative. */
  lemma GramNonNegative(m: Matrix)
    requires IsSquare(m, |m|) && NonNegative(m)
    ensures NonNegative(Gram(m))
  {
    forall i, j | 0 <= i < |m| && 0 <= j < |m| ensures Gram(m)[i][j] >= 0 {
      DotPositiveIff(m[i], m[j]);
    }
  }

  /**
   * With self-loops on non-negative weights, a round never removes an edge, and
   * the self-loops survive it.
   */
  lemma GramKeepsEdges(m: Matrix)
    requires IsSquare(m, |m|) && NonNegative(m)
    requires forall i :: 0 <= i < |m| ==> m[i][i] > 0
    ensures forall i, j :: 0 <= i < |m| && 0 <= j < |m| && m[i][j] > 0 ==> Gram(m)[i][j] > 0
    ensures forall i :: 0 <= i < |m| ==> Gram(m)[i][i] > 0
  {
    forall i, j | 0 <= i < |m| && 0 <= j < |m| && m[i][j] > 0 ensures Gram(m)[i][j] > 0 {
      GramLinksCommonNeighbours(m, i, j);
    }
  }

  /**
   * With self-loops on non-negative weights, augmenting only adds edges: every
   * edge of the input is an edge of the result, after any number of rounds.
   */
  lemma {:induction false} AugmentKeepsEdges(adj: Matrix, k: nat)
    requires IsSquare(adj, |adj|) && NonNegative(adj)
    requires forall i :: 0 <= i < |adj| ==> adj[i][i] > 0
    ensures NonNegative(Hops(adj, k))
    ensures forall i :: 0 <= i < |adj| ==> Hops(adj, k)[i][i] > 0
    ensures forall i, j :: 0 <= i < |adj| && 0 <= j < |adj| && adj[i][j] > 0 ==>
      Binarize(Hops(adj, k))[i][j] == 1
  {
    if k > 0 {
      AugmentKeepsEdges(adj, k - 1);
      var p := Hops(adj, k - 1);
      GramNonNegative(p);
      GramKeepsEdges(p);
      forall i, j | 0 <= i < |adj| && 0 <= j < |adj| && adj[i][j] > 0
        ensures Hops(adj, k)[i][j] > 0
      {
        assert Binarize(p)[i][j] == 1;
      }
    }
  }
}
