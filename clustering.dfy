/**
 * Per-layer clustering of `AggregationGraph` (models/graphLayer.py):
 * the cluster-assignment policies of `get_nodes_cluster` and the
 * retention / coarsening loop of `cluster_specific_layer`.
 */
module Clustering {
  import opened Wrappers
  import opened Matrices

  /**
   * The agglomerative clustering library call: given the number of clusters
   * requested and the 0/1 connectivity of the current adjacency, one label per
   * node. It is fitted on the rows of the ORIGINAL adjacency, which the
   * function value closes over.
   */
  type Clusterer = (int, Matrix) -> seq<int>

  /** `int(np.sqrt(n))`: the integer square root. */
  function FloorSqrt(n: nat): (r: nat)
    ensures r * r <= n < (r + 1) * (r + 1)
  {
    if n == 0 then 0
    else
      var s := FloorSqrt(n - 1);
      assert (s + 2) * (s + 2) == (s + 1) * (s + 1) + 2 * s + 3;
      if (s + 1) * (s + 1) <= n then s + 1 else s
  }

  function Pow2(k: nat): (r: nat)
    ensures r >= 1
  {
    if k == 0 then 1 else 2 * Pow2(k - 1)
  }

  /** `range(n)`: the identity assignment, one cluster per node. */
  function Range(n: nat): (r: seq<int>)
    ensures |r| == n && forall i :: 0 <= i < n ==> r[i] == i
  {
    seq(n, i => i)
  }

  /**
   * The grid assignment: label 1 on every multiple of floor(sqrt n), else 0,
   * so there are at most two clusters and node 0 is always in cluster 1.
   */
  function GridLabels(n: nat): (r: seq<int>)
    ensures |r| == n && IsMask(r)
    ensures n > 0 ==> r[0] == 1
  {
    var g := FloorSqrt(n);
    assert n > 0 ==> g > 0 && 0 % g == 0;
    seq(n, i requires 0 <= i < n => if i % g == 0 then 1 else 0)
  }

  /** The cluster names `get_nodes_cluster` accepts (`None` is accepted too). */
  predicate KnownClusterType(clusterType: Option<string>) {
    clusterType == None || clusterType.value in {"hierarchy", "ignore", "grid"}
  }

  /** `get_nodes_cluster`: the cluster label of every node, or the `ValueError`. */
  function GetNodesCluster(clusterType: Option<string>, layerId: nat, adj: Matrix,
                           clusterer: Clusterer): (r: Result<seq<int>>)
    ensures r.Err? <==> !KnownClusterType(clusterType)
    ensures clusterType == None || clusterType == Some("ignore") ==> r == Ok(Range(|adj|))
    ensures clusterType == Some("grid") ==> r.Ok? && |r.value| == |adj|
  {
    var n := |adj|;
    if clusterType == Some("hierarchy") then
      // n_clusters = nb_nodes / 2 ** (layer_id + 1), connectivity (adj > 0)
      Ok(clusterer(n / Pow2(layerId + 1), Binarize(adj)))
    else if clusterType == None || clusterType == Some("ignore") then
      Ok(Range(n))
    else if clusterType == Some("grid") then
      Ok(GridLabels(n))
    else
      Err(UnknownClusterMessage(clusterType.value))
  }

  /** The message of the `ValueError` for an unknown cluster name. */
  function UnknownClusterMessage(name: string): string {
    "Cluster type " + name + " unknown."
  }

  /** `set(ids)`. */
  function LabelSet(ids: seq<int>): set<int> {
    set x | x in ids
  }

  /**
   * Every label indexes a row of `cluster_adj`, which has one row per
   * distinct label: labels are dense in [0, #distinct).
   */
  predicate DenseLabels(ids: seq<int>) {
    forall i :: 0 <= i < |ids| ==> 0 <= ids[i] < |LabelSet(ids)|
  }

  /** What `cluster_specific_layer` needs of the assignment to index in range. */
  predicate LabelsUsable(r: Result<seq<int>>, n: nat) {
    r.Ok? ==> |r.value| == n && DenseLabels(r.value)
  }

  /** The identity assignment is dense: `n` distinct labels 0..n-1. */
  lemma {:induction false} RangeDense(n: nat)
    ensures |LabelSet(Range(n))| == n
    ensures DenseLabels(Range(n))
  {
    if n > 0 {
      RangeDense(n - 1);
      assert LabelSet(Range(n)) == LabelSet(Range(n - 1)) + {n - 1} by {
        assert Range(n) == Range(n - 1) + [n - 1];
      }
      assert n - 1 !in LabelSet(Range(n - 1));
    }
  }

  /** The integer square root is 1 for n in 1..3 and at least 2 from n = 4 on. */
  lemma {:induction false} FloorSqrtSmall(n: nat)
    ensures 1 <= n <= 3 ==> FloorSqrt(n) == 1
    ensures n >= 4 ==> FloorSqrt(n) >= 2
  {
    if n == 4 {
      assert FloorSqrt(4) == 2;
    } else if n > 4 {
      FloorSqrtSmall(n - 1);
    } else {
      assert FloorSqrt(1) == 1 && FloorSqrt(2) == 1 && FloorSqrt(3) == 1;
    }
  }

  /**
   * The grid policy yields only the two labels 0 and 1 once n >= 4, and the
   * single label 1 for 1 <= n <= 3.
   */
  lemma GridLabelSet(n: nat)
    ensures n >= 4 ==> LabelSet(GridLabels(n)) == {0, 1}
    ensures 1 <= n <= 3 ==> LabelSet(GridLabels(n)) == {1}
  {
    var ids := GridLabels(n);
    FloorSqrtSmall(n);
    if n >= 4 {
      assert ids[1] == 0 && ids[0] == 1;
      assert 0 in LabelSet(ids) && 1 in LabelSet(ids);
      assert LabelSet(ids) <= {0, 1};
    }
    if 1 <= n <= 3 {
      forall i | 0 <= i < n
        ensures ids[i] == 1
      {
        assert i % 1 == 0;
      }
      assert 1 in LabelSet(ids);
      assert LabelSet(ids) <= {1};
    }
  }

  /** The grid labels index in range exactly when n == 0 or n >= 4. */
  lemma GridDenseIff(n: nat)
    ensures DenseLabels(GridLabels(n)) <==> n == 0 || n >= 4
  {
    GridLabelSet(n);
    var ids := GridLabels(n);
    if n >= 4 {
      assert |LabelSet(ids)| == 2 by {
        assert LabelSet(ids) == {0} + {1};
      }
      assert forall i :: 0 <= i < n ==> ids[i] == 0 || ids[i] == 1;
    } else if n >= 1 {
      assert |LabelSet(ids)| == 1;
      assert ids[0] == 1;
    }
  }

  /** Whether some node before `i` in cluster `c` was kept by the previous layer. */
  predicate ClusterSeen(last: seq<int>, ids: seq<int>, c: int, i: nat)
    requires |last| == |ids| && i <= |ids|
  {
    exists j :: 0 <= j < i && ids[j] == c && last[j] == 1
  }

  /**
   * The retention rule: node i is kept when the previous layer kept it and no
   * earlier node of its cluster was kept before it.
   */
  function KeepAt(last: seq<int>, ids: seq<int>, i: nat): int
    requires |last| == |ids| && i < |ids|
  {
    if last[i] == 1 && !ClusterSeen(last, ids, ids[i], i) then 1 else 0
  }

  function KeepMask(last: seq<int>, ids: seq<int>): (k: seq<int>)
    requires |last| == |ids|
    ensures |k| == |ids| && IsMask(k)
  {
    seq(|ids|, i requires 0 <= i < |ids| => KeepAt(last, ids, i))
  }

  /** `sum_{m < upto, ids[m] == c} adj[m][j]`: the merged row of cluster c. */
  function MemberSum(adj: Matrix, ids: seq<int>, c: int, j: nat, upto: nat): int
    requires IsSquare(adj, |ids|) && j < |ids| && upto <= |ids|
  {
    if upto == 0 then 0
    else MemberSum(adj, ids, c, j, upto - 1) + (if ids[upto - 1] == c then adj[upto - 1][j] else 0)
  }

  /**
   * The coarsened adjacency, still N x N: row i is the 0/1 pattern of the sum
   * of the rows of every node in i's cluster.
   */
  function CoarsenedAdj(adj: Matrix, ids: seq<int>): (r: Matrix)
    requires IsSquare(adj, |ids|)
    ensures IsSquare(r, |ids|) && IsBinary(r)
  {
    var n := |ids|;
    seq(n, i requires 0 <= i < n =>
      seq(n, j requires 0 <= j < n => if MemberSum(adj, ids, ids[i], j, n) > 0 then 1 else 0))
  }

  /** What `cluster_specific_layer` returns: `(to_keep, new_adj)`, or the `ValueError`. */
  function ClusterLayer(last: seq<int>, layerId: nat, adj: Matrix, clusterType: Option<string>,
                        clusterer: Clusterer): (r: Result<(seq<int>, Matrix)>)
    requires IsSquare(adj, |adj|) && |last| == |adj|
    requires LabelsUsable(GetNodesCluster(clusterType, layerId, adj, clusterer), |adj|)
    ensures r.Err? <==> !KnownClusterType(clusterType)
    ensures r.Ok? ==> |r.value.0| == |adj| && IsMask(r.value.0)
    ensures r.Ok? ==> IsSquare(r.value.1, |adj|) && IsBinary(r.value.1)
  {
    match GetNodesCluster(clusterType, layerId, adj, clusterer)
    case Err(e) => Err(e)
    case Ok(ids) => Ok((KeepMask(last, ids), CoarsenedAdj(adj, ids)))
  }

  /** The clusters that already have a kept node among the first `i` nodes. */
  function SeenSet(last: seq<int>, ids: seq<int>, i: nat): set<int>
    requires |last| == |ids| && i <= |ids|
  {
    set j | 0 <= j < i && last[j] == 1 :: ids[j]
  }

  lemma SeenSetStep(last: seq<int>, ids: seq<int>, i: nat)
    requires |last| == |ids| && i < |ids|
    ensures ids[i] in SeenSet(last, ids, i) <==> ClusterSeen(last, ids, ids[i], i)
    ensures SeenSet(last, ids, i + 1) == SeenSet(last, ids, i) + (if last[i] == 1 then {ids[i]} else {})
  {
  }

  /** `cluster_adj[c] += row`, in place. */
  method AccumulateRow(acc: array2<int>, c: nat, row: seq<int>)
    requires c < acc.Length0 && |row| == acc.Length1
    modifies acc
    ensures forall d, j :: 0 <= d < acc.Length0 && 0 <= j < acc.Length1 ==>
      acc[d, j] == old(acc[d, j]) + (if d == c then row[j] else 0)
  {
    var j := 0;
    while j < acc.Length1
      invariant 0 <= j <= acc.Length1
      invariant forall d, k :: 0 <= d < acc.Length0 && 0 <= k < acc.Length1 ==>
        acc[d, k] == old(acc[d, k]) + (if d == c && k < j then row[k] else 0)
    {
      acc[c, j] := acc[c, j] + row[j];
      j := j + 1;
    }
  }

  /**
   * The re-expansion loop of `cluster_specific_layer`: row i of the new
   * adjacency is the 0/1 pattern of the merged row of i's cluster.
   */
  method ExpandClusters(clusterAdj: array2<int>, adj: Matrix, ids: seq<int>) returns (newAdj: Matrix)
    requires IsSquare(adj, |ids|) && clusterAdj.Length1 == |ids|
    requires forall i :: 0 <= i < |ids| ==> 0 <= ids[i] < clusterAdj.Length0
    requires forall c, j :: 0 <= c < clusterAdj.Length0 && 0 <= j < |ids| ==>
      clusterAdj[c, j] == MemberSum(adj, ids, c, j, |ids|)
    ensures newAdj == CoarsenedAdj(adj, ids)
  {
    var n := |ids|;
    newAdj := [];
    var i := 0;
    while i < n
      invariant 0 <= i <= n && |newAdj| == i
      invariant forall k :: 0 <= k < i ==> newAdj[k] == CoarsenedAdj(adj, ids)[k]
    {
      var cluster := ids[i];
      var row := seq(n, j requires 0 <= j < n reads clusterAdj =>
        if clusterAdj[cluster, j] > 0 then 1 else 0);
      assert row == CoarsenedAdj(adj, ids)[i];
      newAdj := newAdj + [row];
      i := i + 1;
    }
  }

  /**
   * `cluster_specific_layer`: assign the clusters, then retain and merge
   * (`RetainAndCoarsen`); an unknown cluster name fails before any of it.
   */
  method ClusterSpecificLayer(lastToKeep: seq<int>, layerId: nat, adj: Matrix,
                              clusterType: Option<string>, clusterer: Clusterer)
    returns (r: Result<(seq<int>, Matrix)>)
    requires IsSquare(adj, |adj|) && |lastToKeep| == |adj|
    requires LabelsUsable(GetNodesCluster(clusterType, layerId, adj, clusterer), |adj|)
    ensures r == ClusterLayer(lastToKeep, layerId, adj, clusterType, clusterer)
  {
    var res := GetNodesCluster(clusterType, layerId, adj, clusterer);
    if res.Err? {
      return Err(res.msg);
    }
    var toKeep, newAdj := RetainAndCoarsen(lastToKeep, res.value, adj);
    return Ok((toKeep, newAdj));
  }

  /**
   * The loops of `cluster_specific_layer`: walk the nodes in ascending order,
   * keep a node when it was kept before and its cluster has no kept member
   * yet, merge the rows of each cluster, then re-expand the merged rows onto
   * all N nodes.
   */
  method RetainAndCoarsen(lastToKeep: seq<int>, ids: seq<int>, adj: Matrix)
    returns (toKeepOut: seq<int>, newAdj: Matrix)
    requires IsSquare(adj, |ids|) && |lastToKeep| == |ids| && DenseLabels(ids)
    ensures toKeepOut == KeepMask(lastToKeep, ids)
    ensures newAdj == CoarsenedAdj(adj, ids)
  {
    var n := |ids|;
    var nClusters := |LabelSet(ids)|;

    var clusters: set<int> := {};
    var toKeep := new int[n](_ => 0);
    var clusterAdj := new int[nClusters, n]((_, _) => 0);
    var i := 0;
    while i < n
      invariant 0 <= i <= n
      invariant clusters == SeenSet(lastToKeep, ids, i)
      invariant forall k :: 0 <= k < i ==> toKeep[k] == KeepAt(lastToKeep, ids, k)
      invariant forall k :: i <= k < n ==> toKeep[k] == 0
      invariant forall c, j :: 0 <= c < nClusters && 0 <= j < n ==>
        clusterAdj[c, j] == MemberSum(adj, ids, c, j, i)
    {
      var cluster := ids[i];
      SeenSetStep(lastToKeep, ids, i);
      if lastToKeep[i] == 1 {
        if cluster !in clusters {
          clusters := clusters + {cluster};
          toKeep[i] := 1;
        }
      }
      AccumulateRow(clusterAdj, cluster, adj[i]);
      i := i + 1;
    }

    newAdj := ExpandClusters(clusterAdj, adj, ids);
    toKeepOut := toKeep[..];
    assert toKeepOut == KeepMask(lastToKeep, ids);
  }

  /**
   * Retention is inherited: a node kept now was kept by the previous layer,
   * so the kept count never grows from one layer to the next.
   */
  lemma KeepInherited(last: seq<int>, ids: seq<int>)
    requires |last| == |ids|
    ensures forall i :: 0 <= i < |ids| && KeepMask(last, ids)[i] == 1 ==> last[i] == 1
    ensures IsMask(last) ==> Sum(KeepMask(last, ids)) <= Sum(last)
  {
    if IsMask(last) {
      SumMonotone(KeepMask(last, ids), last);
    }
  }

  /** Some node of cluster `c` at or before `m` is kept, when `m` was kept before. */
  lemma {:induction false} SomeMemberKept(last: seq<int>, ids: seq<int>, m: nat)
    requires |last| == |ids| && m < |ids| && last[m] == 1
    ensures exists i :: 0 <= i <= m && ids[i] == ids[m] && KeepMask(last, ids)[i] == 1
    decreases m
  {
    if ClusterSeen(last, ids, ids[m], m) {
      var j :| 0 <= j < m && ids[j] == ids[m] && last[j] == 1;
      SomeMemberKept(last, ids, j);
    } else {
      assert KeepMask(last, ids)[m] == 1;
    }
  }

  /**
   * First-kept-wins: a cluster has a kept node exactly when it had a node kept
   * by the previous layer; it has at most one; and that one is its
   * lowest-index previously kept member.
   */
  lemma FirstKeptWins(last: seq<int>, ids: seq<int>, c: int)
    requires |last| == |ids|
    ensures (exists m :: 0 <= m < |ids| && ids[m] == c && last[m] == 1) <==>
            (exists i :: 0 <= i < |ids| && ids[i] == c && KeepMask(last, ids)[i] == 1)
    ensures forall i, k ::
              (0 <= i < |ids| && 0 <= k < |ids| && ids[i] == c && ids[k] == c &&
               KeepMask(last, ids)[i] == 1 && KeepMask(last, ids)[k] == 1) ==> i == k
    ensures forall i, m ::
              (0 <= i < |ids| && 0 <= m < |ids| && ids[i] == c && ids[m] == c &&
               KeepMask(last, ids)[i] == 1 && last[m] == 1) ==> i <= m
  {
    var keep := KeepMask(last, ids);
    if m :| 0 <= m < |ids| && ids[m] == c && last[m] == 1 {
      SomeMemberKept(last, ids, m);
    }
    forall i, m | 0 <= i < |ids| && 0 <= m < |ids| && ids[i] == c && ids[m] == c &&
                  keep[i] == 1 && last[m] == 1
      ensures i <= m
    {
      if m < i {
        assert ClusterSeen(last, ids, ids[i], i);
      }
    }
  }

  /** With the identity assignment, merged rows are single rows. */
  lemma {:induction false} MemberSumRange(adj: Matrix, c: int, j: nat, upto: nat)
    requires IsSquare(adj, |adj|) && j < |adj| && upto <= |adj|
    ensures MemberSum(adj, Range(|adj|), c, j, upto) == if 0 <= c < upto then adj[c][j] else 0
  {
    if upto > 0 {
      MemberSumRange(adj, c, j, upto - 1);
    }
  }

  /**
   * The identity assignment coarsens nothing: the mask is passed on unchanged
   * and the adjacency is only binarised.
   */
  lemma IdentityClustering(last: seq<int>, adj: Matrix)
    requires IsSquare(adj, |adj|) && |last| == |adj| && IsMask(last)
    ensures KeepMask(last, Range(|adj|)) == last
    ensures CoarsenedAdj(adj, Range(|adj|)) == Binarize(adj)
  {
    var n := |adj|;
    var ids := Range(n);
    forall i | 0 <= i < n ensures KeepMask(last, ids)[i] == last[i] {
      assert !ClusterSeen(last, ids, ids[i], i);
    }
    forall i | 0 <= i < n ensures CoarsenedAdj(adj, ids)[i] == Binarize(adj)[i] {
      forall j | 0 <= j < n ensures CoarsenedAdj(adj, ids)[i][j] == Binarize(adj)[i][j] {
        MemberSumRange(adj, i, j, n);
      }
    }
  }

  /** On non-negative weights a merged entry is positive iff some member's is. */
  lemma {:induction false} MemberSumPositiveIff(adj: Matrix, ids: seq<int>, c: int, j: nat, upto: nat)
    requires IsSquare(adj, |ids|) && j < |ids| && upto <= |ids| && NonNegative(adj)
    ensures MemberSum(adj, ids, c, j, upto) >= 0
    ensures MemberSum(adj, ids, c, j, upto) > 0 <==>
            exists m :: 0 <= m < upto && ids[m] == c && adj[m][j] > 0
  {
    if upto > 0 {
      MemberSumPositiveIff(adj, ids, c, j, upto - 1);
      assert adj[upto - 1][j] >= 0;
    }
  }

  /**
   * The coarsened row of node i is the union (logical OR) of the rows of the
   * members of i's cluster, so nodes of one cluster share one row.
   */
  lemma CoarsenedIsUnion(adj: Matrix, ids: seq<int>, i: nat, j: nat)
    requires IsSquare(adj, |ids|) && NonNegative(adj) && i < |ids| && j < |ids|
    ensures CoarsenedAdj(adj, ids)[i][j] == 1 <==>
            exists m :: 0 <= m < |ids| && ids[m] == ids[i] && adj[m][j] > 0
  {
    MemberSumPositiveIff(adj, ids, ids[i], j, |ids|);
  }

  /** Nodes of one cluster get identical coarsened rows. */
  lemma SameClusterSameRow(adj: Matrix, ids: seq<int>, i: nat, k: nat)
    requires IsSquare(adj, |ids|) && i < |ids| && k < |ids| && ids[i] == ids[k]
    ensures CoarsenedAdj(adj, ids)[i] == CoarsenedAdj(adj, ids)[k]
  {
    var r := CoarsenedAdj(adj, ids);
    assert forall j :: 0 <= j < |ids| ==> r[i][j] == r[k][j];
  }

  /**
   * Self-loops survive coarsening: on non-negative weights with a positive
   * diagonal, every coarsened diagonal entry is 1.
   */
  lemma CoarsenedKeepsSelfLoops(adj: Matrix, ids: seq<int>)
    requires IsSquare(adj, |ids|) && NonNegative(adj)
    requires forall i :: 0 <= i < |ids| ==> adj[i][i] > 0
    ensures forall i :: 0 <= i < |ids| ==> CoarsenedAdj(adj, ids)[i][i] == 1
  {
    forall i | 0 <= i < |ids| ensures CoarsenedAdj(adj, ids)[i][i] == 1 {
      CoarsenedIsUnion(adj, ids, i, i);
    }
  }
}
