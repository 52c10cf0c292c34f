/**
 * `SGCLayer` (models/graphLayer.py): the spectral layer works in the
 * eigenbasis of the graph Laplacian `L = D - A`, where D is the diagonal
 * matrix of the row sums of A.
 */
module Spectral {
  import opened Matrices

  /** `np.diag(adj.sum(axis=1)) - adj`. */
  function Laplacian(adj: Matrix): (l: Matrix)
    requires IsSquare(adj, |adj|)
    ensures IsSquare(l, |adj|)
  {
    seq(|adj|, i requires 0 <= i < |adj| =>
      seq(|adj|, j requires 0 <= j < |adj| => (if i == j then Sum(adj[i]) else 0) - adj[i][j]))
  }

  /** A vector that is `d` at index i and 0 elsewhere, minus `a`, sums to d - Sum(a). */
  lemma {:induction false} SumSpikeMinus(s: seq<int>, a: seq<int>, i: int, d: int)
    requires |s| == |a|
    requires forall k :: 0 <= k < |s| ==> s[k] == (if k == i then d else 0) - a[k]
    ensures Sum(s) == (if 0 <= i < |s| then d else 0) - Sum(a)
  {
    if |s| > 0 {
      SumSpikeMinus(s[..|s| - 1], a[..|a| - 1], i, d);
    }
  }

  /** Every row of the Laplacian sums to zero: `L · 1 = 0`. */
  lemma LaplacianRowsSumToZero(adj: Matrix, i: nat)
    requires IsSquare(adj, |adj|) && i < |adj|
    ensures Sum(Laplacian(adj)[i]) == 0
  {
    SumSpikeMinus(Laplacian(adj)[i], adj[i], i, Sum(adj[i]));
  }

  /** The Laplacian is symmetric exactly when the adjacency is. */
  lemma LaplacianSymmetricIff(adj: Matrix)
    requires IsSquare(adj, |adj|)
    ensures Symmetric(Laplacian(adj)) <==> Symmetric(adj)
  {
    var l := Laplacian(adj);
    if Symmetric(l) {
      forall i, j | 0 <= i < |adj| && 0 <= j < |adj|
        ensures adj[i][j] == adj[j][i]
      {
        if i != j {
          assert l[i][j] == -adj[i][j] && l[j][i] == -adj[j][i];
        }
      }
    }
  }

  /** A row of nonnegative entries sums to at least any one of them. */
  lemma {:induction false} SumAtLeastEntry(s: seq<int>, k: nat)
    requires k < |s| && forall j :: 0 <= j < |s| ==> s[j] >= 0
    ensures Sum(s) >= s[k]
  {
    var init := s[..|s| - 1];
    if k < |s| - 1 {
      SumAtLeastEntry(init, k);
    } else {
      SumMonotone(seq(|init|, _ => 0), init);
      ZeroSum(|init|);
    }
  }

  /** The sum of n zeros. */
  lemma {:induction false} ZeroSum(n: nat)
    ensures Sum(seq(n, _ => 0)) == 0
  {
    if n > 0 {
      ZeroSum(n - 1);
      assert seq(n, _ => 0)[..n - 1] == seq(n - 1, _ => 0);
    }
  }

  /**
   * On a nonnegative adjacency the Laplacian has a nonnegative diagonal (the
   * degree minus the self loop) and nonpositive entries off it.
   */
  lemma LaplacianSigns(adj: Matrix, i: nat, j: nat)
    requires IsSquare(adj, |adj|) && NonNegative(adj) && i < |adj| && j < |adj|
    ensures i == j ==> Laplacian(adj)[i][j] >= 0
    ensures i != j ==> Laplacian(adj)[i][j] <= 0
  {
    if i == j {
      SumAtLeastEntry(adj[i], i);
    }
  }
}
