/**
 * `LCGLayer` (models/graphLayer.py): a locally connected graph convolution
 * with a fixed fan-in. Every node gathers the features of a fixed number
 * `max_edges` of neighbours through an edge table; rows with fewer neighbours
 * are padded with the sentinel index N, which points at an appended all-zero
 * node, and rows with more are truncated.
 */
module LocalConv {
  import opened Wrappers
  import opened Matrices
  import opened Pooling

  /** `np.where(row > 0)`: the columns of the positive entries, in ascending order. */
  function Positives(row: seq<int>): (p: seq<int>)
    ensures |p| <= |row|
  {
    if |row| == 0 then []
    else
      var q := Positives(row[..|row| - 1]);
      if row[|row| - 1] > 0 then q + [|row| - 1] else q
  }

  /** Every listed column is a column of the row holding a positive entry. */
  lemma {:induction false} PositivesInRow(row: seq<int>)
    ensures forall k :: 0 <= k < |Positives(row)| ==> 0 <= Positives(row)[k] < |row| && row[Positives(row)[k]] > 0
  {
    if |row| > 0 {
      var init := row[..|row| - 1];
      PositivesInRow(init);
      assert forall j :: 0 <= j < |init| ==> init[j] == row[j];
    }
  }

  /** Every column holding a positive entry is listed. */
  lemma {:induction false} PositivesComplete(row: seq<int>)
    ensures forall j :: 0 <= j < |row| && row[j] > 0 ==> j in Positives(row)
  {
    if |row| > 0 {
      var init := row[..|row| - 1];
      PositivesComplete(init);
      assert forall j :: 0 <= j < |init| ==> init[j] == row[j];
    }
  }

  /** The listed columns are strictly ascending, so each is listed once. */
  lemma {:induction false} PositivesAscending(row: seq<int>)
    ensures forall k, l :: 0 <= k < l < |Positives(row)| ==> Positives(row)[k] < Positives(row)[l]
  {
    if |row| > 0 {
      var init := row[..|row| - 1];
      PositivesAscending(init);
      PositivesInRow(init);
    }
  }

  /** The number of positive entries of a row or column. */
  function Degree(v: seq<int>): nat {
    |Positives(v)|
  }

  /** The largest column degree among the first `upto` columns. */
  function MaxColumnDegree(adj: Matrix, upto: nat): (m: nat)
    requires IsSquare(adj, |adj|) && 0 < upto <= |adj|
    ensures forall j :: 0 <= j < upto ==> Degree(Column(adj, j)) <= m
    ensures exists j :: 0 <= j < upto && Degree(Column(adj, j)) == m
  {
    var d := Degree(Column(adj, upto - 1));
    if upto == 1 then d
    else
      var m := MaxColumnDegree(adj, upto - 1);
      if d > m then d else m
  }

  /**
   * `sorted((adj > 0.).sum(0))[-1]`: the largest column degree; taking the
   * last element of an empty list raises `IndexError` when N == 0.
   */
  function MaxEdges(adj: Matrix): (r: Option<nat>)
    requires IsSquare(adj, |adj|)
    ensures r.None? <==> |adj| == 0
  {
    if |adj| == 0 then None else Some(MaxColumnDegree(adj, |adj|))
  }

  /** `[x] * k`. */
  function Repeat(x: int, k: nat): (r: seq<int>)
    ensures |r| == k && forall i :: 0 <= i < k ==> r[i] == x
  {
    seq(k, _ => x)
  }

  /**
   * A row's block of the table: its positive columns, padded with the
   * sentinel `n` up to `m` slots, or cut to the first `m`.
   */
  function PadRow(row: seq<int>, m: nat, n: int): (b: seq<int>)
    ensures |b| == m
  {
    var p := Positives(row);
    if |p| < m then p + Repeat(n, m - |p|)
    else if |p| > m then p[..m]
    else p
  }

  /** One block per row: `edges_np` after the padding comprehension. */
  function Blocks(adj: Matrix, m: nat): (b: seq<seq<int>>)
    ensures |b| == |adj| && forall i :: 0 <= i < |b| ==> |b[i]| == m
  {
    seq(|adj|, i requires 0 <= i < |adj| => PadRow(adj[i], m, |adj|))
  }

  /** The blocks laid end to end. */
  function Flatten(blocks: seq<seq<int>>): seq<int> {
    if |blocks| == 0 then [] else Flatten(blocks[..|blocks| - 1]) + blocks[|blocks| - 1]
  }

  /** `np.array(edges_np).reshape(-1, 2)[:, 1:2]`: the flat table of column indices. */
  function Edges(adj: Matrix, m: nat): (e: seq<int>)
    ensures |e| == Stride(|adj|, m)
  {
    FlattenLength(Blocks(adj, m), m);
    Flatten(Blocks(adj, m))
  }

  /** The fan-in and the flat edge table `init_params` builds. */
  datatype EdgeTable = EdgeTable(maxEdges: nat, edges: seq<int>)

  /**
   * `LCGLayer.init_params`: compute the fan-in, then lay out the blocks of
   * the rows one after the other. The row-index column written by the loop at
   * lines 414-415 is dropped by the projection at line 418, so only the
   * column indices are kept.
   */
  method InitParams(adj: Matrix) returns (r: Result<EdgeTable>)
    requires IsSquare(adj, |adj|)
    ensures r.Err? <==> |adj| == 0
    ensures r.Ok? ==> MaxEdges(adj) == Some(r.value.maxEdges) &&
                      r.value.edges == Edges(adj, r.value.maxEdges)
  {
    var n := |adj|;
    if n == 0 {
      return Err("IndexError");
    }
    var m := MaxColumnDegree(adj, n);
    ghost var blocks := Blocks(adj, m);
    var edges: seq<int> := [];
    var i := 0;
    while i < n
      invariant 0 <= i <= n
      invariant edges == Flatten(blocks[..i])
    {
      assert blocks[..i + 1][..i] == blocks[..i];
      edges := edges + PadRow(adj[i], m, n);
      i := i + 1;
    }
    assert blocks[..n] == blocks;
    return Ok(EdgeTable(m, edges));
  }

  /**
   * A row's block has exactly `m` slots; slot k holds the k-th positive column
   * of the row while the row has one, and the sentinel n after that.
   */
  lemma PadRowShape(row: seq<int>, m: nat, n: int)
    ensures |PadRow(row, m, n)| == m
    ensures forall k :: 0 <= k < m && k < Degree(row) ==> PadRow(row, m, n)[k] == Positives(row)[k]
    ensures forall k :: 0 <= k < m && k >= Degree(row) ==> PadRow(row, m, n)[k] == n
    ensures n >= |row| ==> forall k :: 0 <= k < m ==> 0 <= PadRow(row, m, n)[k] <= n
  {
    PositivesInRow(row);
  }

  /**
   * `Stride(i, m)`: where block i starts when every block has m slots, i * m.
   * Flat indices are written with it so that they stay linear for the solver.
   */
  function Stride(i: nat, m: nat): nat {
    if i == 0 then 0 else Stride(i - 1, m) + m
  }

  lemma {:induction false} StrideIsProduct(i: nat, m: nat)
    ensures Stride(i, m) == i * m
  {
    if i > 0 {
      StrideIsProduct(i - 1, m);
      assert (i - 1) * m + m == i * m;
    }
  }

  /** Block i lies inside a table of n blocks. */
  lemma {:induction false} BlockInside(i: nat, n: nat, m: nat)
    requires i < n
    ensures Stride(i, m) + m <= Stride(n, m)
    decreases n
  {
    if i < n - 1 {
      BlockInside(i, n - 1, m);
    }
  }

  /** Blocks of m slots flatten to Stride(count, m) entries. */
  lemma {:induction false} FlattenLength(blocks: seq<seq<int>>, m: nat)
    requires forall i :: 0 <= i < |blocks| ==> |blocks[i]| == m
    ensures |Flatten(blocks)| == Stride(|blocks|, m)
  {
    if |blocks| > 0 {
      FlattenLength(blocks[..|blocks| - 1], m);
    }
  }

  /** Slot k of block i sits at index i * m + k of the flat table. */
  lemma {:induction false} FlattenAt(blocks: seq<seq<int>>, m: nat, i: nat, k: nat)
    requires forall j :: 0 <= j < |blocks| ==> |blocks[j]| == m
    requires i < |blocks| && k < m
    ensures Stride(i, m) + k < |Flatten(blocks)|
    ensures Flatten(blocks)[Stride(i, m) + k] == blocks[i][k]
  {
    var init := blocks[..|blocks| - 1];
    FlattenLength(init, m);
    BlockInside(i, |blocks|, m);
    if i < |blocks| - 1 {
      FlattenAt(init, m, i, k);
    }
  }

  /** Block i of blocks of m slots occupies entries i * m up to (i + 1) * m of the flat table. */
  lemma FlattenBlock(blocks: seq<seq<int>>, m: nat, i: nat)
    requires forall j :: 0 <= j < |blocks| ==> |blocks[j]| == m
    requires i < |blocks|
    ensures |Flatten(blocks)| == Stride(|blocks|, m) && Stride(i, m) + m <= Stride(|blocks|, m)
    ensures forall s :: 0 <= s < m ==> Flatten(blocks)[Stride(i, m) + s] == blocks[i][s]
  {
    FlattenLength(blocks, m);
    BlockInside(i, |blocks|, m);
    forall s | 0 <= s < m
      ensures Flatten(blocks)[Stride(i, m) + s] == blocks[i][s]
    {
      FlattenAt(blocks, m, i, s);
    }
  }

  /** Flattening keeps every entry inside [0, n] when every block does. */
  lemma {:induction false} FlattenFits(blocks: seq<seq<int>>, n: nat)
    requires forall i, k :: 0 <= i < |blocks| && 0 <= k < |blocks[i]| ==> 0 <= blocks[i][k] <= n
    ensures forall r :: 0 <= r < |Flatten(blocks)| ==> 0 <= Flatten(blocks)[r] <= n
  {
    if |blocks| > 0 {
      var init := blocks[..|blocks| - 1];
      var last := blocks[|blocks| - 1];
      FlattenFits(init, n);
      var prev := Flatten(init);
      assert forall r :: |prev| <= r < |prev| + |last| ==> (prev + last)[r] == last[r - |prev|];
    }
  }

  /** The table holds N * m entries, each a node or the sentinel N. */
  lemma TableShape(adj: Matrix, m: nat)
    requires IsSquare(adj, |adj|)
    ensures |Edges(adj, m)| == Stride(|adj|, m)
    ensures forall r :: 0 <= r < |Edges(adj, m)| ==> 0 <= Edges(adj, m)[r] <= |adj|
  {
    var blocks := Blocks(adj, m);
    FlattenLength(blocks, m);
    forall i, k | 0 <= i < |blocks| && 0 <= k < |blocks[i]|
      ensures 0 <= blocks[i][k] <= |adj|
    {
      PadRowShape(adj[i], m, |adj|);
    }
    FlattenFits(blocks, |adj|);
  }

  /**
   * Block i of the table: row i's positive columns in ascending order as far
   * as the block has room, then the sentinel N.
   */
  lemma BlockOfRow(adj: Matrix, m: nat, i: nat)
    requires IsSquare(adj, |adj|) && i < |adj|
    ensures |Edges(adj, m)| == Stride(|adj|, m) && Stride(i, m) + m <= Stride(|adj|, m)
    ensures forall s :: 0 <= s < m ==> Edges(adj, m)[Stride(i, m) + s] == PadRow(adj[i], m, |adj|)[s]
  {
    var blocks := Blocks(adj, m);
    assert Edges(adj, m) == Flatten(blocks);
    FlattenBlock(blocks, m, i);
    assert blocks[i] == PadRow(adj[i], m, |adj|);
    forall s | 0 <= s < m
      ensures Edges(adj, m)[Stride(i, m) + s] == PadRow(adj[i], m, |adj|)[s]
    {
      assert Flatten(blocks)[Stride(i, m) + s] == blocks[i][s];
    }
  }

  /**
   * On a symmetric adjacency every row degree is a column degree, so no row
   * is truncated: each block lists ALL of its row's neighbours, then sentinels.
   */
  lemma SymmetricNotTruncated(adj: Matrix, i: nat)
    requires IsSquare(adj, |adj|) && Symmetric(adj) && i < |adj|
    ensures Degree(adj[i]) <= MaxColumnDegree(adj, |adj|)
    ensures forall j :: 0 <= j < |adj| && adj[i][j] > 0 ==>
      j in PadRow(adj[i], MaxColumnDegree(adj, |adj|), |adj|)
  {
    assert adj[i] == Column(adj, i);
    var m := MaxColumnDegree(adj, |adj|);
    var p := Positives(adj[i]);
    var block := PadRow(adj[i], m, |adj|);
    PositivesComplete(adj[i]);
    PadRowShape(adj[i], m, |adj|);
    forall j | 0 <= j < |adj| && adj[i][j] > 0
      ensures j in block
    {
      var k :| 0 <= k < |p| && p[k] == j;
      assert block[k] == j;
    }
  }

  /** A rows x cols grid of reals (weights, gathered features, outputs). */
  type Grid = seq<seq<real>>

  predicate IsGrid(g: Grid, rows: nat, cols: nat) {
    |g| == rows && forall r :: 0 <= r < rows ==> |g[r]| == cols
  }

  /** Every index of a table is a node of an n-node graph or the sentinel n. */
  predicate EdgesFit(edges: seq<int>, n: nat) {
    forall r :: 0 <= r < |edges| ==> 0 <= edges[r] <= n
  }

  /** `torch.cat([x, useless_node], 1)`: the node features with the all-zero filler node appended. */
  function Padded(v: seq<real>): seq<real> {
    v + [0.0]
  }


  /** `torch.cat([edges] * channels)`: C copies of the table stacked along dimension 0. */
  function SuperEdges(edges: seq<int>, channels: nat): (s: seq<int>)
    ensures |s| == Stride(channels, |edges|)
  {
    if channels == 0 then [] else SuperEdges(edges, channels - 1) + edges
  }

  /** The stacked copies name the same nodes as the table. */
  lemma {:induction false} SuperEdgesFit(edges: seq<int>, channels: nat, n: nat)
    requires EdgesFit(edges, n)
    ensures EdgesFit(SuperEdges(edges, channels), n)
  {
    if channels > 0 {
      SuperEdgesFit(edges, channels - 1, n);
      var prev := SuperEdges(edges, channels - 1);
      assert forall k :: |prev| <= k < |prev| + |edges| ==> (prev + edges)[k] == edges[k - |prev|];
    }
  }

  /** Stride is symmetric in its two arguments, as i * m is. */
  lemma StrideCommutes(i: nat, m: nat)
    ensures Stride(i, m) == Stride(m, i)
  {
    StrideIsProduct(i, m);
    StrideIsProduct(m, i);
  }

  /**
   * `index_select(x, 1, super_edges).view(batch, -1, C)` as written: slot r,
   * output channel c reads entry r * C + c of the stacked table.
   */
  function GatherAsWritten(v: seq<real>, edges: seq<int>, channels: nat): (t: Grid)
    requires EdgesFit(edges, |v|)
    ensures IsGrid(t, |edges|, channels)
  {
    var sup := SuperEdges(edges, channels);
    StrideCommutes(channels, |edges|);
    SuperEdgesFit(edges, channels, |v|);
    seq(|edges|, r requires 0 <= r < |edges| =>
      seq(channels, c requires 0 <= c < channels =>
        BlockInside(r, |edges|, channels);
        Padded(v)[sup[Stride(r, channels) + c]]))
  }

  /** The intended gather: every output channel of slot r reads the node `edges[r]`. */
  function Gather(v: seq<real>, edges: seq<int>, channels: nat): (t: Grid)
    requires EdgesFit(edges, |v|)
    ensures IsGrid(t, |edges|, channels)
  {
    seq(|edges|, r requires 0 <= r < |edges| =>
      seq(channels, c requires 0 <= c < channels => Padded(v)[edges[r]]))
  }

  /** `sum_{s < upto} t[base + s][c] * w[base + s][c]`. */
  function SlotSum(t: Grid, w: Grid, base: nat, c: nat, upto: nat): real
    requires base + upto <= |t| && |t| == |w|
    requires forall r :: base <= r < base + upto ==> c < |t[r]| && c < |w[r]|
  {
    if upto == 0 then 0.0
    else SlotSum(t, w, base, c, upto - 1) + t[base + upto - 1][c] * w[base + upto - 1][c]
  }

  /** `(tocompute * weights).view(-1, N, max_edges, C).sum(2)`: node i sums its m slots. */
  function Conv(t: Grid, w: Grid, n: nat, m: nat, channels: nat): (out: Grid)
    requires IsGrid(t, Stride(n, m), channels) && IsGrid(w, Stride(n, m), channels)
    ensures IsGrid(out, n, channels)
  {
    seq(n, i requires 0 <= i < n =>
      seq(channels, c requires 0 <= c < channels =>
        BlockInside(i, n, m);
        SlotSum(t, w, Stride(i, m), c, m)))
  }

  /** `GraphConv` for one input channel, as written. */
  function GraphConvAsWritten(v: seq<real>, edges: seq<int>, w: Grid, m: nat, channels: nat): (out: Grid)
    requires |edges| == Stride(|v|, m) && EdgesFit(edges, |v|) && IsGrid(w, Stride(|v|, m), channels)
    ensures IsGrid(out, |v|, channels)
  {
    Conv(GatherAsWritten(v, edges, channels), w, |v|, m, channels)
  }

  /** `GraphConv` for one input channel, with the intended gather. */
  function GraphConv(v: seq<real>, edges: seq<int>, w: Grid, m: nat, channels: nat): (out: Grid)
    requires |edges| == Stride(|v|, m) && EdgesFit(edges, |v|) && IsGrid(w, Stride(|v|, m), channels)
    ensures IsGrid(out, |v|, channels)
  {
    Conv(Gather(v, edges, channels), w, |v|, m, channels)
  }

  /** `sum_{s < upto} v[nbrs[s]] * w[base + s][c]`: the weighted features of the first neighbours. */
  function NeighbourSum(v: seq<real>, nbrs: seq<int>, w: Grid, base: nat, c: nat, upto: nat): real
    requires upto <= |nbrs| && forall s :: 0 <= s < |nbrs| ==> 0 <= nbrs[s] < |v|
    requires base + upto <= |w| && forall r :: base <= r < base + upto ==> c < |w[r]|
  {
    if upto == 0 then 0.0
    else NeighbourSum(v, nbrs, w, base, c, upto - 1) + v[nbrs[upto - 1]] * w[base + upto - 1][c]
  }

  /**
   * The reference output of node i: the weighted features of its first
   * min(degree, max_edges) positive columns, in ascending order.
   */
  function NeighbourOutput(adj: Matrix, m: nat, v: seq<real>, w: Grid, i: nat, c: nat): real
    requires IsSquare(adj, |adj|) && |v| == |adj| && i < |adj|
    requires |w| == Stride(|adj|, m) && forall r :: 0 <= r < |w| ==> c < |w[r]|
  {
    PositivesInRow(adj[i]);
    BlockInside(i, |adj|, m);
    var kept := if Degree(adj[i]) < m then Degree(adj[i]) else m;
    NeighbourSum(v, Positives(adj[i]), w, Stride(i, m), c, kept)
  }

  /** Over slots that gather the listed neighbours, the slot sum is the neighbour sum. */
  lemma {:induction false} SlotSumIsNeighbourSum(t: Grid, w: Grid, v: seq<real>, nbrs: seq<int>,
                                                 base: nat, c: nat, upto: nat)
    requires upto <= |nbrs| && forall s :: 0 <= s < |nbrs| ==> 0 <= nbrs[s] < |v|
    requires base + upto <= |t| && |t| == |w|
    requires forall r :: base <= r < base + upto ==> c < |t[r]| && c < |w[r]|
    requires forall s :: 0 <= s < upto ==> t[base + s][c] == v[nbrs[s]]
    ensures SlotSum(t, w, base, c, upto) == NeighbourSum(v, nbrs, w, base, c, upto)
  {
    if upto > 0 {
      SlotSumIsNeighbourSum(t, w, v, nbrs, base, c, upto - 1);
    }
  }

  /** Slots that gather zero add nothing to the slot sum. */
  lemma {:induction false} ZeroSlotsAddNothing(t: Grid, w: Grid, base: nat, c: nat, from: nat, upto: nat)
    requires from <= upto && base + upto <= |t| && |t| == |w|
    requires forall r :: base <= r < base + upto ==> c < |t[r]| && c < |w[r]|
    requires forall r :: base + from <= r < base + upto ==> t[r][c] == 0.0
    ensures SlotSum(t, w, base, c, upto) == SlotSum(t, w, base, c, from)
  {
    if upto > from {
      ZeroSlotsAddNothing(t, w, base, c, from, upto - 1);
    }
  }

  /**
   * One node's block of the table lists the nodes `p` (as far as it has room)
   * and the sentinel after them: its slot sum is the neighbour sum of `p`.
   */
  lemma BlockConv(v: seq<real>, edges: seq<int>, w: Grid, channels: nat, base: nat, p: seq<int>, m: nat, c: nat)
    requires EdgesFit(edges, |v|) && base + m <= |edges| && c < channels && IsGrid(w, |edges|, channels)
    requires forall s :: 0 <= s < |p| ==> 0 <= p[s] < |v|
    requires forall s :: 0 <= s < m && s < |p| ==> edges[base + s] == p[s]
    requires forall r :: base + |p| <= r < base + m ==> edges[r] == |v|
    ensures SlotSum(Gather(v, edges, channels), w, base, c, m) ==
            NeighbourSum(v, p, w, base, c, if |p| < m then |p| else m)
  {
    var t := Gather(v, edges, channels);
    var kept := if |p| < m then |p| else m;
    forall s | 0 <= s < kept
      ensures t[base + s][c] == v[p[s]]
    {
      assert edges[base + s] == p[s];
      assert Padded(v)[p[s]] == v[p[s]];
    }
    forall r | base + kept <= r < base + m
      ensures t[r][c] == 0.0
    {
      assert edges[r] == |v|;
      assert Padded(v)[|v|] == 0.0;
    }
    SlotSumIsNeighbourSum(t, w, v, p, base, c, kept);
    ZeroSlotsAddNothing(t, w, base, c, kept, m);
  }

  /**
   * The sentinel slots contribute nothing: over the table of `adj`, node i's
   * output is the weighted sum of its first min(degree, max_edges) positive
   * columns, in ascending order.
   */
  lemma SentinelsContributeNothing(adj: Matrix, m: nat, v: seq<real>, w: Grid, channels: nat, i: nat, c: nat)
    requires IsSquare(adj, |adj|) && |v| == |adj| && IsGrid(w, Stride(|adj|, m), channels)
    requires i < |adj| && c < channels
    ensures |Edges(adj, m)| == Stride(|adj|, m) && EdgesFit(Edges(adj, m), |adj|)
    ensures GraphConv(v, Edges(adj, m), w, m, channels)[i][c] == NeighbourOutput(adj, m, v, w, i, c)
  {
    var n := |adj|;
    var edges := Edges(adj, m);
    var base := Stride(i, m);
    var p := Positives(adj[i]);
    TableShape(adj, m);
    BlockOfRow(adj, m, i);
    PositivesInRow(adj[i]);
    PadRowShape(adj[i], m, n);
    BlockLists(edges, base, PadRow(adj[i], m, n), p, m, n);
    BlockConv(v, edges, w, channels, base, p, m, c);
    assert GraphConv(v, edges, w, m, channels)[i][c] == SlotSum(Gather(v, edges, channels), w, base, c, m);
  }

  /**
   * Where the table holds a block that lists `p` and then the sentinel n, its
   * entries are those of `p`, then n.
   */
  lemma BlockLists(edges: seq<int>, base: nat, block: seq<int>, p: seq<int>, m: nat, n: int)
    requires |block| == m && base + m <= |edges|
    requires forall s :: 0 <= s < m ==> edges[base + s] == block[s]
    requires forall s :: 0 <= s < m && s < |p| ==> block[s] == p[s]
    requires forall s :: 0 <= s < m && s >= |p| ==> block[s] == n
    ensures forall s :: 0 <= s < m && s < |p| ==> edges[base + s] == p[s]
    ensures forall r :: base + |p| <= r < base + m ==> edges[r] == n
  {
    forall r | base + |p| <= r < base + m
      ensures edges[r] == n
    {
      assert edges[base + (r - base)] == block[r - base];
    }
  }

  /** A stride of 1 is the index itself. */
  lemma {:induction false} UnitStride(r: nat)
    ensures Stride(r, 1) == r
  {
    if r > 0 {
      UnitStride(r - 1);
    }
  }

  /** One stacked copy of the table is the table. */
  lemma SuperEdgesOne(edges: seq<int>)
    ensures SuperEdges(edges, 1) == edges
  {
    assert SuperEdges(edges, 0) == [];
    assert [] + edges == edges;
  }

  /** With one output channel, slot r of the as-written gather reads `edges[r]`. */
  lemma OneChannelRow(v: seq<real>, edges: seq<int>, r: nat)
    requires EdgesFit(edges, |v|) && r < |edges|
    ensures GatherAsWritten(v, edges, 1)[r] == Gather(v, edges, 1)[r]
  {
    UnitStride(r);
    SuperEdgesOne(edges);
    var a := GatherAsWritten(v, edges, 1)[r];
    var b := Gather(v, edges, 1)[r];
    assert a[0] == Padded(v)[SuperEdges(edges, 1)[Stride(r, 1) + 0]];
    assert a[0] == b[0];
  }

  /** With one output channel the stacked table is the table itself, and the two gathers agree. */
  lemma OneChannelAgrees(v: seq<real>, edges: seq<int>, w: Grid, m: nat)
    requires |edges| == Stride(|v|, m) && EdgesFit(edges, |v|) && IsGrid(w, Stride(|v|, m), 1)
    ensures GatherAsWritten(v, edges, 1) == Gather(v, edges, 1)
    ensures GraphConvAsWritten(v, edges, w, m, 1) == GraphConv(v, edges, w, m, 1)
  {
    var a := GatherAsWritten(v, edges, 1);
    var b := Gather(v, edges, 1);
    forall r | 0 <= r < |edges|
      ensures a[r] == b[r]
    {
      OneChannelRow(v, edges, r);
    }
    assert a == b;
  }

  /** A two-block table is its first block followed by its second. */
  lemma FlattenTwo(blocks: seq<seq<int>>)
    requires |blocks| == 2
    ensures Flatten(blocks) == blocks[0] + blocks[1]
  {
    var first := blocks[..1];
    assert first[..0] == [];
    assert Flatten(first) == [] + first[0];
    assert [] + first[0] == blocks[0];
  }

  /** Two isolated self-looped nodes: fan-in 1, table [0, 1]. */
  lemma TwoLoopsTable()
    ensures MaxEdges([[1, 0], [0, 1]]) == Some(1)
    ensures Edges([[1, 0], [0, 1]], 1) == [0, 1]
  {
    var adj: Matrix := [[1, 0], [0, 1]];
    assert Positives([1, 0]) == [0] by {
      assert [1, 0][..1] == [1];
      assert Positives([1]) == [0] by { assert [1][..0] == []; }
    }
    assert Positives([0, 1]) == [1] by {
      assert [0, 1][..1] == [0];
      assert Positives([0]) == [] by { assert [0][..0] == []; }
    }
    assert Column(adj, 0) == [1, 0];
    assert Column(adj, 1) == [0, 1];
    var blocks := Blocks(adj, 1);
    assert blocks[0] == PadRow([1, 0], 1, 2) == [0];
    assert blocks[1] == PadRow([0, 1], 1, 2) == [1];
    FlattenTwo(blocks);
  }

  /** On that table with two output channels, the as-written gather gives node 0 a 0 in channel 1. */
  lemma TwoChannelsAsWritten()
    ensures GraphConvAsWritten([1.0, 0.0], [0, 1], [[1.0, 1.0], [1.0, 1.0]], 1, 2)[0][1] == 0.0
  {
    var v := [1.0, 0.0];
    var edges := [0, 1];
    var w := [[1.0, 1.0], [1.0, 1.0]];
    assert Stride(0, 2) == 0 && Stride(1, 1) == 1 && Stride(2, 1) == 2;
    assert SuperEdges(edges, 1) == edges by { SuperEdgesOne(edges); }
    assert SuperEdges(edges, 2)[1] == 1;
    var ta := GatherAsWritten(v, edges, 2);
    assert ta[0][1] == Padded(v)[1] == 0.0;
    assert SlotSum(ta, w, 0, 1, 1) == 0.0;
  }

  /** The intended gather gives node 0 its own feature 1 in channel 1. */
  lemma TwoChannelsIntended()
    ensures GraphConv([1.0, 0.0], [0, 1], [[1.0, 1.0], [1.0, 1.0]], 1, 2)[0][1] == 1.0
  {
    var v := [1.0, 0.0];
    var edges := [0, 1];
    var w := [[1.0, 1.0], [1.0, 1.0]];
    assert Stride(0, 1) == 0 && Stride(2, 1) == 2;
    var tb := Gather(v, edges, 2);
    assert tb[0][1] == Padded(v)[0] == 1.0;
    assert SlotSum(tb, w, 0, 1, 1) == 1.0;
  }

  /** An all-zero rows x cols grid. */
  function Zeros(rows: nat, cols: nat): (g: Grid)
    ensures IsGrid(g, rows, cols)
  {
    seq(rows, _ => seq(cols, _ => 0.0))
  }

  /** The entrywise sum of two grids of the same shape. */
  function AddGrids(a: Grid, b: Grid, rows: nat, cols: nat): (g: Grid)
    requires IsGrid(a, rows, cols) && IsGrid(b, rows, cols)
    ensures IsGrid(g, rows, cols)
  {
    seq(rows, r requires 0 <= r < rows =>
      seq(cols, c requires 0 <= c < cols => a[r][c] + b[r][c]))
  }

  /** The requirements on one input channel's weights: a grid of one row per table slot. */
  predicate WeightsFit(weights: seq<Grid>, slots: nat, channels: nat) {
    forall k :: 0 <= k < |weights| ==> IsGrid(weights[k], slots, channels)
  }

  /**
   * `sum([GraphConv(x[:, :, k], ...) for k in range(in_dim)])` for one
   * example: the convolutions of the first `upto` input channels, added up.
   */
  function ChannelConv(x: Tensor, e: nat, edges: seq<int>, weights: seq<Grid>, n: nat, m: nat,
                       channels: nat, upto: nat): (g: Grid)
    requires e < |x| && n > 0 && IsTensor(x, n, |weights|) && upto <= |weights|
    requires |edges| == Stride(n, m) && EdgesFit(edges, n) && WeightsFit(weights, Stride(n, m), channels)
    ensures IsGrid(g, n, channels)
  {
    if upto == 0 then Zeros(n, channels)
    else
      var v := NodeVector(x, e, upto - 1, n);
      AddGrids(ChannelConv(x, e, edges, weights, n, m, channels, upto - 1),
               GraphConv(v, edges, weights[upto - 1], m, channels), n, channels)
  }

  /**
   * `LCGLayer.forward`: every example's input channels are convolved through
   * the table and added up, then pooled by the layer's `PoolGraph` when it
   * has one. Pooling fails on an unknown pool type.
   */
  function Forward(table: EdgeTable, n: nat, x: Tensor, weights: seq<Grid>, channels: nat,
                   pool: Option<PoolGraph>): (r: Result<Tensor>)
    requires n > 0 && |weights| > 0 && IsTensor(x, n, |weights|)
    requires |table.edges| == Stride(n, table.maxEdges) && EdgesFit(table.edges, n)
    requires WeightsFit(weights, Stride(n, table.maxEdges), channels)
    requires pool.Some? ==> pool.value.Valid() && |pool.value.adj| == n
    ensures pool.None? ==> r.Ok?
    ensures pool.Some? && !pool.value.pleaseIgnore ==> (r.Err? <==> !KnownPoolType(pool.value.poolType))
    ensures r.Ok? ==> |r.value| == |x| && IsTensor(r.value, n, channels)
  {
    var conv := seq(|x|, e requires 0 <= e < |x| =>
      ChannelConv(x, e, table.edges, weights, n, table.maxEdges, channels, |weights|));
    assert IsTensor(conv, n, channels);
    if pool.None? then Ok(conv)
    else
      assert |x| > 0 ==> Channels(conv) == channels;
      Apply(pool.value, conv)
  }

  /** `ChannelConv` with the gather as written: every input channel through `GraphConvAsWritten`. */
  function ChannelConvAsWritten(x: Tensor, e: nat, edges: seq<int>, weights: seq<Grid>, n: nat, m: nat,
                                channels: nat, upto: nat): (g: Grid)
    requires e < |x| && n > 0 && IsTensor(x, n, |weights|) && upto <= |weights|
    requires |edges| == Stride(n, m) && EdgesFit(edges, n) && WeightsFit(weights, Stride(n, m), channels)
    ensures IsGrid(g, n, channels)
  {
    if upto == 0 then Zeros(n, channels)
    else
      var v := NodeVector(x, e, upto - 1, n);
      AddGrids(ChannelConvAsWritten(x, e, edges, weights, n, m, channels, upto - 1),
               GraphConvAsWritten(v, edges, weights[upto - 1], m, channels), n, channels)
  }

  /** `LCGLayer.forward` as written: the as-written convolution, then the same pooling as `Forward`. */
  function ForwardAsWritten(table: EdgeTable, n: nat, x: Tensor, weights: seq<Grid>, channels: nat,
                            pool: Option<PoolGraph>): (r: Result<Tensor>)
    requires n > 0 && |weights| > 0 && IsTensor(x, n, |weights|)
    requires |table.edges| == Stride(n, table.maxEdges) && EdgesFit(table.edges, n)
    requires WeightsFit(weights, Stride(n, table.maxEdges), channels)
    requires pool.Some? ==> pool.value.Valid() && |pool.value.adj| == n
    ensures pool.None? ==> r.Ok?
    ensures pool.Some? && !pool.value.pleaseIgnore ==> (r.Err? <==> !KnownPoolType(pool.value.poolType))
    ensures r.Ok? ==> |r.value| == |x| && IsTensor(r.value, n, channels)
  {
    var conv := seq(|x|, e requires 0 <= e < |x| =>
      ChannelConvAsWritten(x, e, table.edges, weights, n, table.maxEdges, channels, |weights|));
    assert IsTensor(conv, n, channels);
    if pool.None? then Ok(conv)
    else
      assert |x| > 0 ==> Channels(conv) == channels;
      Apply(pool.value, conv)
  }

  /** With one output channel the as-written channel sum is the intended one. */
  lemma {:induction false} ChannelConvOneChannel(x: Tensor, e: nat, edges: seq<int>, weights: seq<Grid>,
                                                n: nat, m: nat, upto: nat)
    requires e < |x| && n > 0 && IsTensor(x, n, |weights|) && upto <= |weights|
    requires |edges| == Stride(n, m) && EdgesFit(edges, n) && WeightsFit(weights, Stride(n, m), 1)
    ensures ChannelConvAsWritten(x, e, edges, weights, n, m, 1, upto) ==
            ChannelConv(x, e, edges, weights, n, m, 1, upto)
  {
    if upto > 0 {
      ChannelConvOneChannel(x, e, edges, weights, n, m, upto - 1);
      OneChannelAgrees(NodeVector(x, e, upto - 1, n), edges, weights[upto - 1], m);
    }
  }

  /**
   * With one output channel the layer as written computes what `Forward`
   * computes, pooled or not; with more, `TwoChannelsAsWritten` shows it does not.
   */
  lemma ForwardOneChannelAgrees(table: EdgeTable, n: nat, x: Tensor, weights: seq<Grid>,
                                pool: Option<PoolGraph>)
    requires n > 0 && |weights| > 0 && IsTensor(x, n, |weights|)
    requires |table.edges| == Stride(n, table.maxEdges) && EdgesFit(table.edges, n)
    requires WeightsFit(weights, Stride(n, table.maxEdges), 1)
    requires pool.Some? ==> pool.value.Valid() && |pool.value.adj| == n
    ensures ForwardAsWritten(table, n, x, weights, 1, pool) == Forward(table, n, x, weights, 1, pool)
  {
    var m := table.maxEdges;
    var a := seq(|x|, e requires 0 <= e < |x| =>
      ChannelConvAsWritten(x, e, table.edges, weights, n, m, 1, |weights|));
    var b := seq(|x|, e requires 0 <= e < |x| =>
      ChannelConv(x, e, table.edges, weights, n, m, 1, |weights|));
    forall e | 0 <= e < |x|
      ensures a[e] == b[e]
    {
      ChannelConvOneChannel(x, e, table.edges, weights, n, m, |weights|);
    }
    assert a == b;
  }

  /** The reference output over the first `upto` input channels: their neighbour sums added up. */
  function ChannelNeighbours(adj: Matrix, m: nat, x: Tensor, e: nat, weights: seq<Grid>,
                             i: nat, c: nat, upto: nat): real
    requires IsSquare(adj, |adj|) && i < |adj| && e < |x| && IsTensor(x, |adj|, |weights|)
    requires upto <= |weights| && forall k :: 0 <= k < |weights| ==>
      |weights[k]| == Stride(|adj|, m) && forall r :: 0 <= r < |weights[k]| ==> c < |weights[k][r]|
  {
    if upto == 0 then 0.0
    else
      ChannelNeighbours(adj, m, x, e, weights, i, c, upto - 1) +
      NeighbourOutput(adj, m, NodeVector(x, e, upto - 1, |adj|), weights[upto - 1], i, c)
  }

  /** Channel by channel, the summed convolution is the summed neighbour output. */
  lemma {:induction false} ChannelConvIsNeighbours(adj: Matrix, x: Tensor, e: nat, weights: seq<Grid>,
                                                  channels: nat, i: nat, c: nat, upto: nat)
    requires IsSquare(adj, |adj|) && i < |adj| && c < channels && e < |x|
    requires IsTensor(x, |adj|, |weights|) && upto <= |weights|
    requires WeightsFit(weights, Stride(|adj|, MaxColumnDegree(adj, |adj|)), channels)
    ensures |Edges(adj, MaxColumnDegree(adj, |adj|))| == Stride(|adj|, MaxColumnDegree(adj, |adj|))
    ensures EdgesFit(Edges(adj, MaxColumnDegree(adj, |adj|)), |adj|)
    ensures ChannelConv(x, e, Edges(adj, MaxColumnDegree(adj, |adj|)), weights, |adj|,
                        MaxColumnDegree(adj, |adj|), channels, upto)[i][c] ==
            ChannelNeighbours(adj, MaxColumnDegree(adj, |adj|), x, e, weights, i, c, upto)
  {
    var m := MaxColumnDegree(adj, |adj|);
    TableShape(adj, m);
    if upto > 0 {
      ChannelConvIsNeighbours(adj, x, e, weights, channels, i, c, upto - 1);
      SentinelsContributeNothing(adj, m, NodeVector(x, e, upto - 1, |adj|), weights[upto - 1], channels, i, c);
    }
  }

  /**
   * Over the table `init_params` builds, with no pooling, output channel c of
   * node i sums, over the input channels, the weighted features of node i's
   * first max_edges neighbours in ascending order; the sentinel slots add nothing.
   */
  lemma ForwardIsNeighbourSum(adj: Matrix, table: EdgeTable, x: Tensor, weights: seq<Grid>,
                              channels: nat, e: nat, i: nat, c: nat)
    requires IsSquare(adj, |adj|) && MaxEdges(adj) == Some(table.maxEdges)
    requires table.edges == Edges(adj, table.maxEdges)
    requires |weights| > 0 && IsTensor(x, |adj|, |weights|)
    requires WeightsFit(weights, Stride(|adj|, table.maxEdges), channels)
    requires e < |x| && i < |adj| && c < channels
    ensures |table.edges| == Stride(|adj|, table.maxEdges) && EdgesFit(table.edges, |adj|)
    ensures Forward(table, |adj|, x, weights, channels, None).Ok?
    ensures Forward(table, |adj|, x, weights, channels, None).value[e][i][c] ==
            ChannelNeighbours(adj, table.maxEdges, x, e, weights, i, c, |weights|)
  {
    ChannelConvIsNeighbours(adj, x, e, weights, channels, i, c, |weights|);
  }
}
