/**
 * `PoolGraph` (models/graphLayer.py): masks a feature tensor with a layer's
 * retention mask after reducing every node's cluster through the coarsened
 * adjacency. The node dimension is never shrunk.
 */
module Pooling {
  import opened Wrappers
  import opened Matrices

  /** A feature tensor indexed [example][node][channel]. */
  type Tensor = seq<seq<seq<real>>>

  predicate IsTensor(x: Tensor, nodes: nat, channels: nat) {
    forall e :: 0 <= e < |x| ==>
      |x[e]| == nodes && forall i :: 0 <= i < nodes ==> |x[e][i]| == channels
  }

  /** The channel count of a tensor (0 when it has no entry). */
  function Channels(x: Tensor): nat {
    if |x| == 0 || |x[0]| == 0 then 0 else |x[0][0]|
  }

  /** The vector over nodes of example `e`, channel `c`. */
  function NodeVector(x: Tensor, e: nat, c: nat, nodes: nat): (v: seq<real>)
    requires IsTensor(x, nodes, Channels(x)) && e < |x| && c < Channels(x)
  {
    seq(nodes, i requires 0 <= i < nodes => x[e][i][c])
  }

  /** The products `v[i] * col[i]`, the broadcast `x * adj` of one column. */
  function Products(v: seq<real>, col: seq<int>): (p: seq<real>)
    requires |v| == |col|
  {
    seq(|v|, i requires 0 <= i < |v| => v[i] * (col[i] as real))
  }

  /** The largest element of a non-empty sequence. */
  function MaxOf(s: seq<real>): (r: real)
    requires |s| > 0
    ensures forall i :: 0 <= i < |s| ==> s[i] <= r
    ensures exists i :: 0 <= i < |s| && r == s[i]
  {
    if |s| == 1 then s[0]
    else
      var m := MaxOf(s[..|s| - 1]);
      assert forall i :: 0 <= i < |s| - 1 ==> s[..|s| - 1][i] == s[i];
      if s[|s| - 1] > m then s[|s| - 1] else m
  }

  /** `sum_i v[i] * col[i]`. */
  function WeightedSum(v: seq<real>, col: seq<int>): real
    requires |v| == |col|
  {
    if |v| == 0 then 0.0
    else WeightedSum(v[..|v| - 1], col[..|col| - 1]) + v[|v| - 1] * (col[|col| - 1] as real)
  }

  /** The reduction policies `__call__` accepts. */
  predicate KnownPoolType(poolType: string) {
    poolType in {"max", "mean", "strip"}
  }

  datatype PoolGraph = PoolGraph(adj: Matrix, toKeep: seq<int>, pleaseIgnore: bool, poolType: string)
  {
    /** Shapes agree, and a pool that keeps every node skips the aggregation. */
    predicate Valid() {
      IsSquare(adj, |adj|) && |toKeep| == |adj| && (Sum(toKeep) == |adj| ==> pleaseIgnore)
    }
  }

  /** `PoolGraph.__init__`: keeping every node switches the aggregation off. */
  function NewPoolGraph(adj: Matrix, toKeep: seq<int>, pleaseIgnore: bool, poolType: string): (p: PoolGraph)
    requires IsSquare(adj, |adj|) && |toKeep| == |adj|
    ensures p.Valid() && p.adj == adj && p.toKeep == toKeep && p.poolType == poolType
    ensures p.pleaseIgnore <==> pleaseIgnore || Sum(toKeep) == |adj|
  {
    PoolGraph(adj, toKeep, pleaseIgnore || Sum(toKeep) == |adj|, poolType)
  }

  /** The reduced value at node `j` of one node vector, before masking. */
  function Reduce(poolType: string, v: seq<real>, adj: Matrix, j: nat): real
    requires KnownPoolType(poolType)
    requires IsSquare(adj, |v|) && j < |v|
  {
    if poolType == "max" then MaxOf(Products(v, Column(adj, j)))
    else if poolType == "mean" then WeightedSum(v, Column(adj, j)) / (|v| as real)
    else v[j]
  }

  /** `PoolGraph.__call__`. */
  function Apply(p: PoolGraph, x: Tensor): (r: Result<Tensor>)
    requires p.Valid() && IsTensor(x, |p.adj|, Channels(x))
    ensures p.pleaseIgnore ==> r == Ok(x)
    ensures !p.pleaseIgnore ==> (r.Err? <==> !KnownPoolType(p.poolType))
    ensures r.Ok? ==> |r.value| == |x| && IsTensor(r.value, |p.adj|, Channels(x))
  {
    var n := |p.adj|;
    var ch := Channels(x);
    if p.pleaseIgnore then Ok(x)
    else if !KnownPoolType(p.poolType) then Err("ValueError")
    else
      Ok(seq(|x|, e requires 0 <= e < |x| =>
        seq(n, j requires 0 <= j < n =>
          seq(ch, c requires 0 <= c < ch => PooledEntry(p, x, e, j, c)))))
  }

  /** Entry [e][j][c] of a pooled tensor: the mask times the reduced node vector. */
  function PooledEntry(p: PoolGraph, x: Tensor, e: nat, j: nat, c: nat): real
    requires p.Valid() && IsTensor(x, |p.adj|, Channels(x)) && KnownPoolType(p.poolType)
    requires e < |x| && j < |p.adj| && c < Channels(x)
  {
    (p.toKeep[j] as real) * Reduce(p.poolType, NodeVector(x, e, c, |p.adj|), p.adj, j)
  }

  /**
   * The no-op invariant: a pool built over a 0/1 mask that keeps every node
   * returns its input unchanged, whatever its reduction policy.
   */
  lemma AllKeptIsNoOp(adj: Matrix, toKeep: seq<int>, pleaseIgnore: bool, poolType: string, x: Tensor)
    requires IsSquare(adj, |adj|) && |toKeep| == |adj| && IsMask(toKeep)
    requires forall i :: 0 <= i < |toKeep| ==> toKeep[i] == 1
    requires IsTensor(x, |adj|, Channels(x))
    ensures Apply(NewPoolGraph(adj, toKeep, pleaseIgnore, poolType), x) == Ok(x)
  {
    MaskSumFullIff(toKeep);
  }

  /** One pooled entry is the mask times the reduced value. */
  lemma PoolAt(p: PoolGraph, x: Tensor, e: nat, j: nat, c: nat)
    requires p.Valid() && IsTensor(x, |p.adj|, Channels(x))
    requires !p.pleaseIgnore && KnownPoolType(p.poolType)
    requires e < |x| && j < |p.adj| && c < Channels(x)
    ensures Apply(p, x).Ok?
    ensures Apply(p, x).value[e][j][c] ==
      (p.toKeep[j] as real) * Reduce(p.poolType, NodeVector(x, e, c, |p.adj|), p.adj, j)
  {
    assert Apply(p, x).value[e][j][c] == PooledEntry(p, x, e, j, c);
  }

  /** Pooling zeroes every node the mask drops. */
  lemma PoolZeroesDropped(p: PoolGraph, x: Tensor, e: nat, j: nat, c: nat)
    requires p.Valid() && IsTensor(x, |p.adj|, Channels(x))
    requires !p.pleaseIgnore && KnownPoolType(p.poolType)
    requires e < |x| && j < |p.adj| && c < Channels(x) && p.toKeep[j] == 0
    ensures Apply(p, x).Ok? && Apply(p, x).value[e][j][c] == 0.0
  {
    PoolAt(p, x, e, j, c);
  }

  /**
   * `max` pooling gives a kept node j the largest broadcast product of its
   * column. This is the unfolding of `Apply`; what that maximum is, a bound on
   * every product `x[i] * adj[i][j]` that one of them attains, is `ColumnMax`,
   * from the two ensures of `MaxOf`.
   */
  lemma MaxPoolIsColumnMax(p: PoolGraph, x: Tensor, e: nat, j: nat, c: nat)
    requires p.Valid() && IsTensor(x, |p.adj|, Channels(x))
    requires !p.pleaseIgnore && p.poolType == "max"
    requires e < |x| && j < |p.adj| && c < Channels(x) && p.toKeep[j] == 1
    ensures Apply(p, x).Ok?
    ensures Apply(p, x).value[e][j][c] == MaxOf(Products(NodeVector(x, e, c, |p.adj|), Column(p.adj, j)))
  {
    PoolAt(p, x, e, j, c);
    assert (p.toKeep[j] as real) == 1.0;
  }

  /**
   * The largest broadcast product of column j, `max_i x[i] * adj[i][j]`, is at
   * least every product `x[i] * adj[i][j]` over ALL nodes i and equals one of them.
   */
  lemma ColumnMax(x: Tensor, adj: Matrix, e: nat, c: nat, j: nat)
    requires IsSquare(adj, |adj|) && |adj| > 0 && IsTensor(x, |adj|, Channels(x))
    requires e < |x| && c < Channels(x) && j < |adj|
    ensures forall i :: 0 <= i < |adj| ==>
      x[e][i][c] * (adj[i][j] as real) <= MaxOf(Products(NodeVector(x, e, c, |adj|), Column(adj, j)))
    ensures exists i :: 0 <= i < |adj| &&
                        MaxOf(Products(NodeVector(x, e, c, |adj|), Column(adj, j))) ==
                        x[e][i][c] * (adj[i][j] as real)
  {
    var prods := Products(NodeVector(x, e, c, |adj|), Column(adj, j));
    assert forall i :: 0 <= i < |adj| ==> prods[i] == x[e][i][c] * (adj[i][j] as real);
    var k :| 0 <= k < |prods| && MaxOf(prods) == prods[k];
  }

  /**
   * `mean` pooling divides the weighted column sum by N, not by the cluster
   * size. This is the unfolding of `Apply`; the sum runs over ALL nodes of the
   * column, so non-neighbours add a product of zero.
   */
  lemma MeanPoolDividesByN(p: PoolGraph, x: Tensor, e: nat, j: nat, c: nat)
    requires p.Valid() && IsTensor(x, |p.adj|, Channels(x))
    requires !p.pleaseIgnore && p.poolType == "mean"
    requires e < |x| && j < |p.adj| && c < Channels(x) && p.toKeep[j] == 1
    ensures Apply(p, x).Ok?
    ensures Apply(p, x).value[e][j][c] * (|p.adj| as real) ==
      WeightedSum(NodeVector(x, e, c, |p.adj|), Column(p.adj, j))
  {
    PoolAt(p, x, e, j, c);
  }

  /**
   * `strip` pooling only masks: a kept node keeps its own value. This is the
   * unfolding of `Apply`; with `PoolZeroesDropped` it says strip pooling is
   * the identity on kept nodes and 0 on dropped ones.
   */
  lemma StripPoolMasks(p: PoolGraph, x: Tensor, e: nat, j: nat, c: nat)
    requires p.Valid() && IsTensor(x, |p.adj|, Channels(x))
    requires !p.pleaseIgnore && p.poolType == "strip"
    requires e < |x| && j < |p.adj| && c < Channels(x)
    ensures Apply(p, x).Ok?
    ensures Apply(p, x).value[e][j][c] == (p.toKeep[j] as real) * x[e][j][c]
  {
    PoolAt(p, x, e, j, c);
  }
}
