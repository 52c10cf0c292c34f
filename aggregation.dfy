/**
 * `AggregationGraph` (models/graphLayer.py): the multi-scale hierarchy. For
 * every layer it transforms the current adjacency, clusters it, and feeds the
 * coarsened adjacency and the retention mask to the next layer; it then builds
 * one `PoolGraph` per layer and answers per-layer lookups.
 */
module Aggregation {
  import opened Wrappers
  import opened Matrices
  import opened Clustering
  import opened Pooling

  /** `adj_transform(no_layer)(adj)`: the per-layer adjacency transform. */
  type Transform = (nat, Matrix) -> Matrix

  /** `if self.adj_transform:` — no transform leaves the adjacency as it is. */
  function TransformAt(t: Option<Transform>, layer: nat, m: Matrix): Matrix {
    match t
    case None => m
    case Some(f) => f(layer, m)
  }

  /** The transform keeps an N x N adjacency N x N. */
  ghost predicate PreservesShape(t: Option<Transform>, n: nat) {
    forall layer: nat, m: Matrix {:trigger TransformAt(t, layer, m)} :: IsSquare(m, n) ==> IsSquare(TransformAt(t, layer, m), n)
  }

  /**
   * The cluster policy yields labels `cluster_specific_layer` can index with:
   * grid labels need N == 0 or N >= 4, and the clustering library must return
   * N dense labels.
   */
  ghost predicate ClusterTypeServes(clusterType: Option<string>, n: nat, clusterer: Clusterer) {
    if clusterType == Some("grid") then n == 0 || n >= 4
    else if clusterType == Some("hierarchy") then
      forall k: int, m: Matrix {:trigger clusterer(k, m)} :: IsSquare(m, n) ==>
        |clusterer(k, m)| == n && DenseLabels(clusterer(k, m))
    else true
  }

  lemma ServesUsable(clusterType: Option<string>, layer: nat, m: Matrix, clusterer: Clusterer)
    requires IsSquare(m, |m|) && ClusterTypeServes(clusterType, |m|, clusterer)
    ensures LabelsUsable(GetNodesCluster(clusterType, layer, m, clusterer), |m|)
  {
    if clusterType == Some("grid") {
      GridDenseIff(|m|);
    } else if clusterType == None || clusterType == Some("ignore") {
      RangeDense(|m|);
    } else if clusterType == Some("hierarchy") {
      assert IsSquare(Binarize(m), |m|);
    }
  }

  /** Everything the hierarchy needs of its inputs. */
  ghost predicate HierarchyInputs(adj: Matrix, t: Option<Transform>, clusterType: Option<string>, clusterer: Clusterer) {
    IsSquare(adj, |adj|) && PreservesShape(t, |adj|) && ClusterTypeServes(clusterType, |adj|, clusterer)
  }

  /** The adjacency and the mask fed into `layer`, before its transform. */
  function LayerInput(adj: Matrix, layer: nat, t: Option<Transform>, clusterType: Option<string>,
                      clusterer: Clusterer): (s: (Matrix, seq<int>))
    requires HierarchyInputs(adj, t, clusterType, clusterer) && KnownClusterType(clusterType)
    ensures IsSquare(s.0, |adj|) && |s.1| == |adj| && IsMask(s.1)
    decreases layer, 0
  {
    if layer == 0 then (adj, Ones(|adj|))
    else
      var out := LayerStep(adj, layer - 1, t, clusterType, clusterer).value;
      (out.1, out.0)
  }

  /** What `cluster_specific_layer` returns for `layer`, given that layer's input. */
  function LayerStep(adj: Matrix, layer: nat, t: Option<Transform>, clusterType: Option<string>,
                     clusterer: Clusterer): (r: Result<(seq<int>, Matrix)>)
    requires HierarchyInputs(adj, t, clusterType, clusterer) && KnownClusterType(clusterType)
    ensures r.Ok? && |r.value.0| == |adj| && IsMask(r.value.0) && IsSquare(r.value.1, |adj|)
    decreases layer, 1
  {
    var prev := LayerInput(adj, layer, t, clusterType, clusterer);
    var transformed := TransformAt(t, layer, prev.0);
    ServesUsable(clusterType, layer, transformed, clusterer);
    ClusterLayer(prev.1, layer, transformed, clusterType, clusterer)
  }

  /** The three per-layer lists `init_cluster` builds. */
  datatype Layers = Layers(toKeeps: seq<seq<int>>, aggregateAdjs: seq<Matrix>, adjs: seq<Matrix>)

  /** The lists after the first `k` layers. */
  function Built(adj: Matrix, k: nat, t: Option<Transform>, clusterType: Option<string>,
                 clusterer: Clusterer): (h: Layers)
    requires HierarchyInputs(adj, t, clusterType, clusterer) && KnownClusterType(clusterType)
    ensures |h.toKeeps| == k && |h.aggregateAdjs| == k && |h.adjs| == k
  {
    if k == 0 then Layers([], [], [])
    else
      var before := Built(adj, k - 1, t, clusterType, clusterer);
      var input := LayerInput(adj, k - 1, t, clusterType, clusterer);
      var output := LayerInput(adj, k, t, clusterType, clusterer);
      Layers(before.toKeeps + [output.1], before.aggregateAdjs + [output.0],
             before.adjs + [TransformAt(t, k - 1, input.0)])
  }

  /** The hierarchy `init_cluster` computes, or its `ValueError`. */
  function Hierarchy(adj: Matrix, nbLayer: nat, t: Option<Transform>, clusterType: Option<string>,
                     clusterer: Clusterer): (r: Result<Layers>)
    requires HierarchyInputs(adj, t, clusterType, clusterer)
    ensures r.Err? <==> nbLayer > 0 && !KnownClusterType(clusterType)
    ensures r.Ok? ==> |r.value.toKeeps| == nbLayer && |r.value.aggregateAdjs| == nbLayer &&
                      |r.value.adjs| == nbLayer
  {
    if nbLayer == 0 then Ok(Layers([], [], []))
    else if !KnownClusterType(clusterType) then Err(UnknownClusterMessage(clusterType.value))
    else Ok(Built(adj, nbLayer, t, clusterType, clusterer))
  }

  /** Entry l of the lists: layer l's mask and coarsened adjacency, and its transformed input. */
  lemma {:induction false} BuiltAt(adj: Matrix, k: nat, l: nat, t: Option<Transform>,
                                   clusterType: Option<string>, clusterer: Clusterer)
    requires HierarchyInputs(adj, t, clusterType, clusterer) && KnownClusterType(clusterType)
    requires l < k
    ensures Built(adj, k, t, clusterType, clusterer).toKeeps[l] ==
            LayerInput(adj, l + 1, t, clusterType, clusterer).1
    ensures Built(adj, k, t, clusterType, clusterer).aggregateAdjs[l] ==
            LayerInput(adj, l + 1, t, clusterType, clusterer).0
    ensures Built(adj, k, t, clusterType, clusterer).adjs[l] ==
            TransformAt(t, l, LayerInput(adj, l, t, clusterType, clusterer).0)
  {
    if l < k - 1 {
      BuiltAt(adj, k - 1, l, t, clusterType, clusterer);
    }
  }

  /** One pass of `init_cluster`'s loop extends the lists of the first k layers to k + 1. */
  lemma BuiltStep(adj: Matrix, k: nat, t: Option<Transform>, clusterType: Option<string>,
                  clusterer: Clusterer)
    requires HierarchyInputs(adj, t, clusterType, clusterer) && KnownClusterType(clusterType)
    ensures var step := LayerStep(adj, k, t, clusterType, clusterer);
            var before := Built(adj, k, t, clusterType, clusterer);
            LayerInput(adj, k + 1, t, clusterType, clusterer) == (step.value.1, step.value.0) &&
            Built(adj, k + 1, t, clusterType, clusterer) ==
              Layers(before.toKeeps + [step.value.0], before.aggregateAdjs + [step.value.1],
                     before.adjs + [TransformAt(t, k, LayerInput(adj, k, t, clusterType, clusterer).0)])
  {
  }

  /**
   * `init_cluster`: starting from an all-ones mask, transform, cluster, and
   * pass the produced adjacency and mask on to the next layer.
   */
  method InitCluster(adj: Matrix, nbLayer: nat, t: Option<Transform>, clusterType: Option<string>,
                     clusterer: Clusterer) returns (r: Result<Layers>)
    requires HierarchyInputs(adj, t, clusterType, clusterer)
    ensures r == Hierarchy(adj, nbLayer, t, clusterType, clusterer)
  {
    var n := |adj|;
    var toKeep := Ones(n);
    var allToKeep: seq<seq<int>> := [];
    var allAggregateAdjs: seq<Matrix> := [];
    var allTransformedAdj: seq<Matrix> := [];
    var currentAdj := adj;
    var noLayer := 0;
    while noLayer < nbLayer
      invariant 0 <= noLayer <= nbLayer
      invariant |allToKeep| == noLayer && |allAggregateAdjs| == noLayer && |allTransformedAdj| == noLayer
      invariant noLayer > 0 ==> KnownClusterType(clusterType)
      invariant KnownClusterType(clusterType) ==>
        currentAdj == LayerInput(adj, noLayer, t, clusterType, clusterer).0 &&
        toKeep == LayerInput(adj, noLayer, t, clusterType, clusterer).1
      invariant !KnownClusterType(clusterType) ==> currentAdj == adj && toKeep == Ones(n)
      invariant KnownClusterType(clusterType) ==>
        Layers(allToKeep, allAggregateAdjs, allTransformedAdj) == Built(adj, noLayer, t, clusterType, clusterer)
    {
      ghost var before := currentAdj;
      if t.Some? {
        currentAdj := t.value(noLayer, currentAdj);
      }
      assert currentAdj == TransformAt(t, noLayer, before);
      assert IsSquare(currentAdj, n) && LabelsUsable(GetNodesCluster(clusterType, noLayer, currentAdj, clusterer), n) by {
        ServesUsable(clusterType, noLayer, currentAdj, clusterer);
      }
      var res := ClusterSpecificLayer(toKeep, noLayer, currentAdj, clusterType, clusterer);
      if res.Err? {
        return Err(res.msg);
      }
      assert res == LayerStep(adj, noLayer, t, clusterType, clusterer);
      BuiltStep(adj, noLayer, t, clusterType, clusterer);
      allTransformedAdj := allTransformedAdj + [currentAdj];
      toKeep := res.value.0;
      allToKeep := allToKeep + [toKeep];
      allAggregateAdjs := allAggregateAdjs + [res.value.1];
      currentAdj := res.value.1;
      noLayer := noLayer + 1;
    }
    return Ok(Layers(allToKeep, allAggregateAdjs, allTransformedAdj));
  }

  /** The shapes of every layer in the lists: N x N adjacencies and N-long 0/1 masks. */
  lemma BuiltShapes(adj: Matrix, k: nat, t: Option<Transform>, clusterType: Option<string>,
                    clusterer: Clusterer)
    requires HierarchyInputs(adj, t, clusterType, clusterer) && KnownClusterType(clusterType)
    ensures var h := Built(adj, k, t, clusterType, clusterer);
            forall l :: 0 <= l < k ==>
              IsSquare(h.aggregateAdjs[l], |adj|) && IsSquare(h.adjs[l], |adj|) &&
              |h.toKeeps[l]| == |adj| && IsMask(h.toKeeps[l])
  {
    forall l | 0 <= l < k
      ensures var h := Built(adj, k, t, clusterType, clusterer);
              IsSquare(h.aggregateAdjs[l], |adj|) && IsSquare(h.adjs[l], |adj|) &&
              |h.toKeeps[l]| == |adj| && IsMask(h.toKeeps[l])
    {
      BuiltAt(adj, k, l, t, clusterType, clusterer);
    }
  }

  /** The shapes of every layer of a successful hierarchy. */
  lemma HierarchyShapes(adj: Matrix, nbLayer: nat, t: Option<Transform>, clusterType: Option<string>,
                        clusterer: Clusterer)
    requires HierarchyInputs(adj, t, clusterType, clusterer)
    requires Hierarchy(adj, nbLayer, t, clusterType, clusterer).Ok?
    ensures var h := Hierarchy(adj, nbLayer, t, clusterType, clusterer).value;
            forall k :: 0 <= k < nbLayer ==>
              IsSquare(h.aggregateAdjs[k], |adj|) && |h.toKeeps[k]| == |adj| && IsMask(h.toKeeps[k])
  {
    if nbLayer > 0 {
      assert Hierarchy(adj, nbLayer, t, clusterType, clusterer).value == Built(adj, nbLayer, t, clusterType, clusterer);
      BuiltShapes(adj, nbLayer, t, clusterType, clusterer);
    }
  }

  /** The aggregates `__init__` zips from the coarsened adjacencies and the masks. */
  datatype AggregationGraph = AggregationGraph(nbLayer: nat, adj: Matrix, layers: Layers,
                                               aggregates: seq<PoolGraph>)

  /**
   * `g` is what `AggregationGraph(adj, nb_layer, ...)` constructs: the
   * hierarchy's lists, and for each layer l a `max` pool over the coarsened
   * adjacency and the mask of layer l.
   */
  ghost predicate BuiltFrom(g: AggregationGraph, adj: Matrix, nbLayer: nat, t: Option<Transform>,
                            clusterType: Option<string>, clusterer: Clusterer)
    requires HierarchyInputs(adj, t, clusterType, clusterer)
  {
    var h := Hierarchy(adj, nbLayer, t, clusterType, clusterer);
    h.Ok? && g.nbLayer == nbLayer && g.adj == adj && g.layers == h.value &&
    |g.aggregates| == nbLayer &&
    forall l :: 0 <= l < nbLayer ==>
      IsSquare(h.value.aggregateAdjs[l], |adj|) && |h.value.toKeeps[l]| == |adj| &&
      g.aggregates[l] == NewPoolGraph(h.value.aggregateAdjs[l], h.value.toKeeps[l], false, "max")
  }

  /**
   * `AggregationGraph.__init__`: build the hierarchy, then one `PoolGraph` per
   * layer; the `ValueError` of an unknown cluster type propagates.
   */
  method NewAggregationGraph(adj: Matrix, nbLayer: nat, t: Option<Transform>, clusterType: Option<string>,
                             clusterer: Clusterer) returns (r: Result<AggregationGraph>)
    requires HierarchyInputs(adj, t, clusterType, clusterer)
    ensures r.Err? <==> Hierarchy(adj, nbLayer, t, clusterType, clusterer).Err?
    ensures r.Err? ==> r.msg == Hierarchy(adj, nbLayer, t, clusterType, clusterer).msg
    ensures r.Ok? ==> BuiltFrom(r.value, adj, nbLayer, t, clusterType, clusterer)
  {
    var h := InitCluster(adj, nbLayer, t, clusterType, clusterer);
    if h.Err? {
      return Err(h.msg);
    }
    var layers := h.value;
    HierarchyShapes(adj, nbLayer, t, clusterType, clusterer);
    var aggregates: seq<PoolGraph> := [];
    var l := 0;
    while l < nbLayer
      invariant 0 <= l <= nbLayer && |aggregates| == l
      invariant forall k :: 0 <= k < nbLayer ==>
        IsSquare(layers.aggregateAdjs[k], |adj|) && |layers.toKeeps[k]| == |adj|
      invariant forall k :: 0 <= k < l ==>
        aggregates[k] == NewPoolGraph(layers.aggregateAdjs[k], layers.toKeeps[k], false, "max")
    {
      aggregates := aggregates + [NewPoolGraph(layers.aggregateAdjs[l], layers.toKeeps[l], false, "max")];
      l := l + 1;
    }
    return Ok(AggregationGraph(nbLayer, adj, layers, aggregates));
  }

  /** `get_aggregate(layer_id)`; an index past the last layer raises `IndexError`. */
  function GetAggregate(g: AggregationGraph, layerId: nat): (r: Option<PoolGraph>)
    ensures r.Some? <==> layerId < |g.aggregates|
  {
    if layerId < |g.aggregates| then Some(g.aggregates[layerId]) else None
  }

  /** `get_adj(adj, layer_id)`: the transformed adjacency of the layer; its `adj` argument is unused. */
  function GetAdj(g: AggregationGraph, adj: Matrix, layerId: nat): (r: Option<Matrix>)
    ensures r.Some? <==> layerId < |g.layers.adjs|
  {
    if layerId < |g.layers.adjs| then Some(g.layers.adjs[layerId]) else None
  }

  /**
   * The lookups of a constructed graph: layer l's pool masks with layer l's
   * mask over layer l's coarsened adjacency, and `get_adj` returns the
   * transform of layer l's input (the original adjacency for layer 0, the
   * previous layer's coarsened adjacency after that), whatever adjacency the
   * caller passes.
   */
  lemma LookupsFollowHierarchy(g: AggregationGraph, adj: Matrix, nbLayer: nat, t: Option<Transform>,
                               clusterType: Option<string>, clusterer: Clusterer, other: Matrix, l: nat)
    requires HierarchyInputs(adj, t, clusterType, clusterer)
    requires BuiltFrom(g, adj, nbLayer, t, clusterType, clusterer) && l < nbLayer
    ensures KnownClusterType(clusterType)
    ensures GetAggregate(g, l) ==
      Some(NewPoolGraph(LayerInput(adj, l + 1, t, clusterType, clusterer).0,
                        LayerInput(adj, l + 1, t, clusterType, clusterer).1, false, "max"))
    ensures l == 0 ==> GetAdj(g, other, l) == Some(TransformAt(t, 0, adj))
    ensures l > 0 ==> (GetAdj(g, other, l) ==
                       Some(TransformAt(t, l, g.layers.aggregateAdjs[l - 1])))
  {
    BuiltAt(adj, nbLayer, l, t, clusterType, clusterer);
    if l > 0 {
      BuiltAt(adj, nbLayer, l - 1, t, clusterType, clusterer);
    }
  }

  /**
   * Retention only shrinks across layers: a node kept at layer l + 1 was kept
   * at layer l, so no layer keeps more nodes than the one before it.
   */
  lemma KeptShrinks(adj: Matrix, nbLayer: nat, t: Option<Transform>, clusterType: Option<string>,
                    clusterer: Clusterer, l: nat)
    requires HierarchyInputs(adj, t, clusterType, clusterer)
    requires Hierarchy(adj, nbLayer, t, clusterType, clusterer).Ok? && l + 1 < nbLayer
    ensures var h := Hierarchy(adj, nbLayer, t, clusterType, clusterer).value;
            |h.toKeeps[l]| == |adj| && |h.toKeeps[l + 1]| == |adj|
    ensures var h := Hierarchy(adj, nbLayer, t, clusterType, clusterer).value;
            (forall i :: 0 <= i < |adj| && h.toKeeps[l + 1][i] == 1 ==> h.toKeeps[l][i] == 1) &&
            Sum(h.toKeeps[l + 1]) <= Sum(h.toKeeps[l])
  {
    BuiltAt(adj, nbLayer, l, t, clusterType, clusterer);
    BuiltAt(adj, nbLayer, l + 1, t, clusterType, clusterer);
    var prev := LayerInput(adj, l + 1, t, clusterType, clusterer);
    var transformed := TransformAt(t, l + 1, prev.0);
    ServesUsable(clusterType, l + 1, transformed, clusterer);
    var ids := GetNodesCluster(clusterType, l + 1, transformed, clusterer).value;
    assert LayerStep(adj, l + 1, t, clusterType, clusterer).value.0 == KeepMask(prev.1, ids);
    KeepInherited(prev.1, ids);
  }

  /** Under the `ignore` policy every layer's input keeps every node. */
  lemma {:induction false} IgnoreInput(adj: Matrix, layer: nat, t: Option<Transform>, clusterType: Option<string>,
                                       clusterer: Clusterer)
    requires HierarchyInputs(adj, t, clusterType, clusterer)
    requires clusterType == None || clusterType == Some("ignore")
    ensures LayerInput(adj, layer, t, clusterType, clusterer).1 == Ones(|adj|)
    ensures LayerStep(adj, layer, t, clusterType, clusterer).value ==
      (Ones(|adj|), Binarize(TransformAt(t, layer, LayerInput(adj, layer, t, clusterType, clusterer).0)))
  {
    if layer > 0 {
      IgnoreInput(adj, layer - 1, t, clusterType, clusterer);
    }
    var prev := LayerInput(adj, layer, t, clusterType, clusterer);
    IdentityClustering(prev.1, TransformAt(t, layer, prev.0));
  }

  /**
   * The `ignore` policy keeps every node at every layer, each coarsened
   * adjacency is the 0/1 pattern of the layer's transformed adjacency, and so
   * every aggregate of the graph returns its input unchanged.
   */
  lemma IgnorePolicyPoolsNothing(g: AggregationGraph, adj: Matrix, nbLayer: nat, t: Option<Transform>,
                                 clusterType: Option<string>, clusterer: Clusterer, l: nat, x: Tensor)
    requires HierarchyInputs(adj, t, clusterType, clusterer)
    requires clusterType == None || clusterType == Some("ignore")
    requires BuiltFrom(g, adj, nbLayer, t, clusterType, clusterer) && l < nbLayer
    requires IsTensor(x, |adj|, Channels(x))
    ensures g.layers.toKeeps[l] == Ones(|adj|)
    ensures g.layers.aggregateAdjs[l] == Binarize(g.layers.adjs[l])
    ensures Apply(g.aggregates[l], x) == Ok(x)
  {
    BuiltAt(adj, nbLayer, l, t, clusterType, clusterer);
    IgnoreInput(adj, l, t, clusterType, clusterer);
    IgnoreInput(adj, l + 1, t, clusterType, clusterer);
    AllKeptIsNoOp(g.layers.aggregateAdjs[l], g.layers.toKeeps[l], false, "max", x);
  }
}
