# Graph coarsening and graph layers of transcriptomic-models, in Dafny

This project models the deterministic graph logic of `models/graphLayer.py`. That file belongs to a PyTorch library that runs graph neural networks over gene-interaction graphs. The model covers these parts:

- **Cluster hierarchy.** `AggregationGraph` builds a multi-scale hierarchy over an N×N adjacency. At every layer it:
  - applies an optional per-layer adjacency transform;
  - assigns every node a cluster, using the `ignore`, `grid` or `hierarchy` policy;
  - keeps the first previously kept node of each cluster;
  - replaces every row by the 0/1 pattern of the union of its cluster's rows.

  It then builds one `PoolGraph` per layer and answers per-layer lookups.
- **Pooling.** `PoolGraph` works on a feature tensor indexed [example][node][channel], with a layer's coarsened adjacency A' and retention mask.
  - `max`: node j takes the largest of `x[i]·A'[i][j]` over ALL nodes i, down column j of A'. Non-neighbours contribute a product of 0.
  - `mean`: node j takes the sum of those N products divided by N, not by the degree.
  - `strip`: node j keeps its own value.

  The result is then multiplied by node j's mask.
- **Adjacency transforms.** `SelfConnection` overwrites the diagonal in place. `AugmentGraphConnectivity` links neighbours of neighbours by repeated `A := A·Aᵀ`, then takes the 0/1 pattern.
- **`LCGLayer`** lays out a fixed fan-in edge table:
  - each row lists its positive columns in ascending order;
  - lists are truncated to the largest column degree, or padded with the sentinel N, which points at an appended all-zero node.

  The layer then gathers, weights and sums the features through that table.
- **`CGNLayer`** extracts the COO form of the adjacency and multiplies by it.
- **`SGCLayer`** builds the Laplacian `D − A`.

Modules:

- `Wrappers`: Option and Result.
- `Matrices`: dense integer matrices.
- `Clustering`: the cluster policies and `cluster_specific_layer`.
- `Pooling`: `PoolGraph`.
- `Aggregation`: `AggregationGraph`.
- `AdjacencyTransforms`: the two transforms.
- `LocalConv`: `LCGLayer`.
- `SparseConv`: `CGNLayer`.
- `Spectral`: `SGCLayer`.

Modelling choices:

- **State.**
  - `cluster_specific_layer` mutates its retention mask, its set of seen clusters and its per-cluster rows in place. It is a method over an `array2` and local sequences, proved equal to the functions `KeepMask` and `CoarsenedAdj`.
  - `init_cluster` is a method looping over layers and appending to three sequences, proved equal to the function `Hierarchy`.
  - `SelfConnection` writes the diagonal of an `array2` in place.
  - `AugmentGraphConnectivity` loops, reassigning the current adjacency.
- **Numbers.**
  - Adjacencies, masks and indices are integers.
  - Feature tensors and weights are exact reals. Float rounding is not modelled.
- **Left as parameters.**
  - The per-layer transform `adj_transform(no_layer)` is the parameter `Option<(nat, Matrix) -> Matrix>`.
  - The clustering library behind the `hierarchy` policy is the parameter `Clusterer = (n_clusters, connectivity) -> labels`.
- **Errors.**
  - Python exceptions are `Err` results: `ValueError` for an unknown cluster policy or pool type, and `IndexError` for the empty graph in `LCGLayer.init_params`.
  - A lookup past the last layer returns `None`.

Where the code and its documentation disagree, the model follows the code:

- The `grid` policy labels node i with 1 when `i % floor(sqrt N) == 0` and 0 otherwise. That gives two clusters, not one per grid seed.
  - For 1 ≤ N ≤ 3 every label is 1.
  - The label 1 then indexes past the single-row `cluster_adj`, so the model requires dense labels. `GridDenseIff` proves grid labels are dense exactly when N = 0 or N ≥ 4.
- An unknown pool type is accepted by `PoolGraph`'s constructor and raises only when the pool is applied.

## Model

| member | source | states |
|---|---|---|
| Matrices.BinarizeFixedIff | models/graphLayer.py:159 | taking the 0/1 pattern leaves a matrix unchanged exactly when it is already 0/1 |
| Matrices.MaskSumFullIff | models/graphLayer.py:33 | a 0/1 mask sums to between 0 and its length, and to its length exactly when every entry is 1 |
| Clustering.FloorSqrt | models/graphLayer.py:133 | `int(np.sqrt(N))` is the r with r² ≤ N < (r+1)² |
| Clustering.FloorSqrtSmall | models/graphLayer.py:133 | the grid size is 1 for N in 1..3 and at least 2 from N = 4 on |
| Clustering.GetNodesCluster | models/graphLayer.py:117-138 | an error exactly for a policy other than None, `ignore`, `grid` and `hierarchy`; None and `ignore` give `range(N)`; `grid` gives N labels |
| Clustering.RangeDense | models/graphLayer.py:121 | the identity labels are N distinct labels that fill [0, N) |
| Clustering.GridLabels | models/graphLayer.py:134 | the grid policy gives N labels, each 0 or 1, and node 0 is labelled 1 |
| Clustering.GridLabelSet | models/graphLayer.py:132-134 | grid labels are {0, 1} for N ≥ 4 and all 1 for 1 ≤ N ≤ 3 |
| Clustering.GridDenseIff | models/graphLayer.py:132-134 | grid labels fill [0, #labels) exactly when N = 0 or N ≥ 4 |
| Clustering.CoarsenedAdj | models/graphLayer.py:155-159 | the coarsened adjacency is N×N and 0/1 |
| Clustering.KeepMask | models/graphLayer.py:149-153 | the retention mask has one 0/1 entry per node |
| Clustering.ClusterLayer | models/graphLayer.py:140-161 | an error exactly for an unknown policy; otherwise a 0/1 mask of N nodes and an N×N 0/1 adjacency |
| Clustering.SeenSetStep | models/graphLayer.py:145-153 | the set of seen clusters grows by node i's cluster exactly when node i was kept before, and holds its cluster exactly when an earlier kept node shares it |
| Clustering.AccumulateRow | models/graphLayer.py:155 | `cluster_adj[c] += row` adds the row to cluster row c and changes no other row |
| Clustering.ExpandClusters | models/graphLayer.py:157-159 | row i of the result is the 0/1 pattern of the accumulated row of i's cluster, i.e. `CoarsenedAdj` |
| Clustering.RetainAndCoarsen | models/graphLayer.py:145-159 | the loop over the nodes yields exactly `KeepMask` and `CoarsenedAdj` |
| Clustering.ClusterSpecificLayer | models/graphLayer.py:140-161 | the method returns `ClusterLayer`: the policy's error, or the mask and adjacency of the loop |
| Clustering.KeepInherited | models/graphLayer.py:149-153 | a node kept now was kept in the previous layer, so the kept count does not grow |
| Clustering.SomeMemberKept | models/graphLayer.py:149-153 | a previously kept node has a kept member of its cluster at or before it |
| Clustering.FirstKeptWins | models/graphLayer.py:149-153 | a cluster has a kept node exactly when it has a previously kept member; at most one node per cluster is kept, and it is the lowest-index previously kept member |
| Clustering.MemberSumRange | models/graphLayer.py:155 | under the identity labels, cluster c's accumulated row is row c of the adjacency |
| Clustering.IdentityClustering | models/graphLayer.py:130-131 | under the identity labels the mask is unchanged and the adjacency becomes its 0/1 pattern |
| Clustering.MemberSumPositiveIff | models/graphLayer.py:155 | on a nonnegative adjacency, a cluster's accumulated entry is positive exactly when some member has a positive entry there |
| Clustering.CoarsenedIsUnion | models/graphLayer.py:155-159 | `new_adj[i][j] == 1` exactly when some node in i's cluster links to j |
| Clustering.SameClusterSameRow | models/graphLayer.py:158-159 | nodes of the same cluster get identical rows |
| Clustering.CoarsenedKeepsSelfLoops | models/graphLayer.py:155-159 | self-loops present before clustering survive it |
| Pooling.MaxOf | models/graphLayer.py:52 | the maximum is one of the values and bounds them all |
| Pooling.NewPoolGraph | models/graphLayer.py:23-35 | the fields are stored as given, and `please_ignore` is set when asked for or when every node is kept |
| Pooling.Apply | models/graphLayer.py:37-62 | the input itself when ignoring; otherwise an error exactly for an unknown pool type, and a tensor of the input's shape |
| Pooling.AllKeptIsNoOp | models/graphLayer.py:33-40 | a pool that keeps every node returns its input |
| Pooling.PoolZeroesDropped | models/graphLayer.py:60 | every dropped node is zeroed |
| Pooling.MaxPoolIsColumnMax | models/graphLayer.py:52 | `max` gives a kept node the maximum of `x[i] * adj[i][j]` over i |
| Pooling.ColumnMax | models/graphLayer.py:52 | that maximum bounds every `x[i] * adj[i][j]` and is attained |
| Pooling.MeanPoolDividesByN | models/graphLayer.py:54 | `mean` divides the column sum by N, not by the cluster size |
| Pooling.StripPoolMasks | models/graphLayer.py:56 | `strip` multiplies each node's features by its mask |
| AdjacencyTransforms.SelfConnection.Call | models/graphLayer.py:183-192 | the diagonal of the same array is overwritten with 1 (or 0) and every other entry is unchanged |
| AdjacencyTransforms.SelfConnectionIdempotent | models/graphLayer.py:187-190 | filling the diagonal twice is filling it once |
| AdjacencyTransforms.FillDiagonalFixedIff | models/graphLayer.py:187-190 | filling leaves a matrix unchanged exactly when its diagonal already holds the value |
| AdjacencyTransforms.Gram | models/graphLayer.py:287 | `A.dot(A.T)` is N×N |
| AdjacencyTransforms.Hops | models/graphLayer.py:286-287 | k rounds keep the matrix N×N |
| AdjacencyTransforms.AugmentGraphConnectivity.Call | models/graphLayer.py:260-293 | the input when ignoring; otherwise the 0/1 pattern after `kernel_size` rounds of `A := A·Aᵀ` |
| AdjacencyTransforms.AugmentZeroRoundsIdentityIff | models/graphLayer.py:284-291 | with `kernel_size = 0` the transform is the identity exactly on 0/1 input |
| AdjacencyTransforms.DotSymmetric | models/graphLayer.py:287 | the dot product is symmetric |
| AdjacencyTransforms.AugmentSymmetric | models/graphLayer.py:286-291 | after at least one round the result is symmetric |
| AdjacencyTransforms.DotPositiveIff | models/graphLayer.py:287 | a dot product of nonnegative vectors is positive exactly when they share a positive position |
| AdjacencyTransforms.GramLinksCommonNeighbours | models/graphLayer.py:287 | one round links i and j exactly when they share a neighbour |
| AdjacencyTransforms.GramNonNegative | models/graphLayer.py:287 | one round keeps a nonnegative matrix nonnegative |
| AdjacencyTransforms.GramKeepsEdges | models/graphLayer.py:287 | with self-loops, one round keeps every edge and every self-loop |
| AdjacencyTransforms.AugmentKeepsEdges | models/graphLayer.py:286-287 | with self-loops, any number of rounds keeps every edge, so augmenting only adds links |
| Aggregation.ServesUsable | models/graphLayer.py:117-138 | every policy that meets the inputs' assumptions yields labels `cluster_specific_layer` can index with |
| Aggregation.LayerInput | models/graphLayer.py:97-111 | the adjacency and mask fed into each layer are N×N and a 0/1 mask |
| Aggregation.LayerStep | models/graphLayer.py:102-109 | each layer's clustering succeeds on a known policy, with an N-node mask and an N×N adjacency |
| Aggregation.Built | models/graphLayer.py:93-111 | after k layers each of the three lists holds k entries |
| Aggregation.Hierarchy | models/graphLayer.py:88-115 | an error exactly when there is a layer and the policy is unknown; otherwise exactly `nb_layer` entries in each list |
| Aggregation.BuiltAt | models/graphLayer.py:100-111 | entry l of the lists is layer l's mask, coarsened adjacency and transformed adjacency |
| Aggregation.InitCluster | models/graphLayer.py:88-115 | the loop over the layers builds exactly `Hierarchy` |
| Aggregation.BuiltShapes | models/graphLayer.py:105-109 | every stored adjacency is N×N and every stored mask is a 0/1 mask of N nodes |
| Aggregation.NewAggregationGraph | models/graphLayer.py:71-86 | an error exactly when the hierarchy fails, else the graph of the hierarchy with one max pool per layer |
| Aggregation.GetAggregate | models/graphLayer.py:163-164 | a pool exactly for a layer in range |
| Aggregation.GetAdj | models/graphLayer.py:166-170 | an adjacency exactly for a layer in range, whatever adjacency is passed |
| Aggregation.LookupsFollowHierarchy | models/graphLayer.py:163-170 | layer l's pool uses layer l's mask and coarsened adjacency; layer l's adjacency is the transform of the original (l = 0) or of the previous coarsened adjacency |
| Aggregation.KeptShrinks | models/graphLayer.py:100-111 | a node kept at layer l + 1 was kept at layer l, and no layer keeps more nodes than the one before |
| Aggregation.IgnoreInput | models/graphLayer.py:130-131 | under `ignore` every layer keeps every node and coarsens to the 0/1 pattern of its transformed adjacency |
| Aggregation.IgnorePolicyPoolsNothing | models/graphLayer.py:84-86 | under `ignore` every pool of the graph returns its input unchanged |
| LocalConv.PositivesInRow | models/graphLayer.py:405 | each listed column is a column of the row with a positive entry |
| LocalConv.PositivesAscending | models/graphLayer.py:405 | the listed columns strictly ascend |
| LocalConv.PositivesComplete | models/graphLayer.py:405 | every positive column is listed |
| LocalConv.MaxColumnDegree | models/graphLayer.py:400 | the fan-in bounds every column degree and equals one of them |
| LocalConv.MaxEdges | models/graphLayer.py:400 | no fan-in (`IndexError`) exactly for the empty graph |
| LocalConv.InitParams | models/graphLayer.py:398-418 | an error exactly for the empty graph; otherwise the fan-in and the table of the rows' blocks laid end to end |
| LocalConv.PadRow | models/graphLayer.py:408-411 | every row's block, padded or truncated, has exactly `max_edges` slots |
| LocalConv.Edges | models/graphLayer.py:417-418 | the flat table has N × `max_edges` entries |
| LocalConv.PadRowShape | models/graphLayer.py:408-411 | a block has `max_edges` slots: the row's positive columns while they last, then the sentinel N, all within [0, N] |
| LocalConv.FlattenLength | models/graphLayer.py:417 | blocks of m slots flatten to count × m entries |
| LocalConv.FlattenAt | models/graphLayer.py:417 | slot k of block i lands at flat index i × m + k |
| LocalConv.TableShape | models/graphLayer.py:417-418 | the table has N × `max_edges` entries, each in [0, N] |
| LocalConv.BlockOfRow | models/graphLayer.py:405-418 | block i of the table is row i's padded or truncated list of positive columns |
| LocalConv.SymmetricNotTruncated | models/graphLayer.py:400-411 | on a symmetric adjacency no row is truncated: every neighbour is in its row's block |
| LocalConv.SuperEdges | models/graphLayer.py:421 | C stacked copies of the table have C × its length entries |
| LocalConv.GatherAsWritten | models/graphLayer.py:421-439 | the gather as written is a grid of one row per slot and one column per output channel |
| LocalConv.Gather | models/graphLayer.py:438-439 | the corrected gather has the same shape |
| LocalConv.GraphConvAsWritten | models/graphLayer.py:428-443 | one input channel's convolution, with the gather as written, has one row per node and one column per output channel |
| LocalConv.GraphConv | models/graphLayer.py:428-443 | the same convolution with the intended gather has the same shape |
| LocalConv.Conv | models/graphLayer.py:441-442 | summing each node's slots gives one row per node |
| LocalConv.SentinelsContributeNothing | models/graphLayer.py:438-442 | node i's output is the weighted sum of its first min(degree, `max_edges`) neighbours in ascending order; sentinel slots add nothing |
| LocalConv.OneChannelAgrees | models/graphLayer.py:421-439 | with one output channel the gather as written equals the corrected one |
| LocalConv.TwoChannelsAsWritten | models/graphLayer.py:421-439 | with two output channels the gather as written gives node 0 of a two-loop graph a 0 in channel 1 |
| LocalConv.TwoChannelsIntended | models/graphLayer.py:439 | the corrected gather gives that node its own feature 1 |
| LocalConv.TwoLoopsTable | models/graphLayer.py:398-418 | two isolated self-looped nodes have fan-in 1 and table [0, 1] |
| LocalConv.ChannelConv | models/graphLayer.py:454 | the sum over input channels has one row per node and one column per output channel |
| LocalConv.Forward | models/graphLayer.py:445-460 | tensor of N nodes and the output channels per example; the only error it returns is pooling's, for an unknown type (the library's shape errors at `max_edges = 0` or no output channel are not modelled) |
| LocalConv.ChannelConvIsNeighbours | models/graphLayer.py:454 | the summed convolution is the sum of the input channels' neighbour outputs |
| LocalConv.ForwardIsNeighbourSum | models/graphLayer.py:445-460 | over the table `init_params` builds, with no pooling, each output entry sums the weighted features of the node's first `max_edges` neighbours over the input channels |
| LocalConv.ChannelConvAsWritten | models/graphLayer.py:454 | the as-written sum over input channels has one row per node and one column per output channel |
| LocalConv.ForwardAsWritten | models/graphLayer.py:445-460 | the layer as written: a tensor of N nodes and the output channels per example; the only error it returns is pooling's, for an unknown type (the library's shape errors at `max_edges = 0` or no output channel are not modelled) |
| LocalConv.ChannelConvOneChannel | models/graphLayer.py:454 | with one output channel the as-written channel sum equals the intended one |
| LocalConv.ForwardOneChannelAgrees | models/graphLayer.py:445-460 | with one output channel the layer as written gives exactly `Forward`'s result, with or without pooling |
| SparseConv.RowEntriesSound | models/graphLayer.py:352-353 | each entry of a row lies in that row and carries the nonzero value at its column |
| SparseConv.RowEntriesAscending | models/graphLayer.py:352 | within a row the columns strictly ascend |
| SparseConv.RowEntriesComplete | models/graphLayer.py:352-353 | every nonzero of a row is listed |
| SparseConv.CooSound | models/graphLayer.py:352-353 | every COO position is a graph position holding a nonzero value, and the value beside it is the adjacency's value there |
| SparseConv.CooComplete | models/graphLayer.py:352-353 | every nonzero position has its COO entry |
| SparseConv.CooRowMajor | models/graphLayer.py:352-353 | the entries are in strictly increasing row-major order, so the positions and the values stay aligned and none repeats |
| SparseConv.Coo | models/graphLayer.py:353-354 | every COO entry is a position of the N×N graph and carries the nonzero adjacency value found there |
| SparseConv.SparseMul | models/graphLayer.py:340-341 | the sparse product has one entry per node |
| SparseConv.SparseRowAppend | models/graphLayer.py:340-341 | the sparse row sum splits over concatenated entries |
| SparseConv.RowEntriesProduct | models/graphLayer.py:340-341 | a row's entries contribute its dense row to that row and nothing to the others |
| SparseConv.CooRowsProduct | models/graphLayer.py:340-341 | over the first rows the sparse row sum is the dense row for those rows, 0 beyond |
| SparseConv.SparseIsDense | models/graphLayer.py:340-354 | the product through the COO form equals the dense product `adj · v` |
| SparseConv.AdjMul | models/graphLayer.py:364-372 | every (example, channel) vector is multiplied; the tensor keeps its shape |
| SparseConv.AdjMulIsDense | models/graphLayer.py:364-372 | node i of every (example, channel) receives `sum_j adj[i][j] * x[j]` |
| Spectral.Laplacian | models/graphLayer.py:473-474 | `D − A` is N×N |
| Spectral.LaplacianRowsSumToZero | models/graphLayer.py:473-474 | every row of the Laplacian sums to zero |
| Spectral.LaplacianSymmetricIff | models/graphLayer.py:473-474 | the Laplacian is symmetric exactly when the adjacency is |
| Spectral.LaplacianSigns | models/graphLayer.py:473-474 | on a nonnegative adjacency the diagonal is nonnegative and the off-diagonal entries are nonpositive |

## Left out

- The clustering library behind the `hierarchy` policy (models/graphLayer.py:126-129), which does Ward agglomerative clustering on floats.
  - It is the function parameter `clusterer`, assumed to return N labels that fill [0, #labels).
  - Its `n_clusters` is Python 2's integer division `N / 2**(layer+1)`.
  - As in the code, it is fitted on the original adjacency, not the layer's: the parameter closes over that adjacency and receives the layer's 0/1 connectivity.
- `ApprNormalizeLaplacian` (models/graphLayer.py:195-250): floating point `1/sqrt(D)`, Python `hash` and an on-disk cache.
- Torch plumbing:
  - the `SparseMM` custom backward (models/graphLayer.py:343-347);
  - randomly initialised `nn.Conv1d` and `nn.Parameter` layers (models/graphLayer.py:361-362, 424-426, 477);
  - `.cuda()` placement and `Variable` wrapping.

  The learned weights of `LCGLayer` are a parameter. The 1×1 convolutions of `CGNLayer.forward` and their concatenation are not modelled.
- `torch.eig` and the rest of `SGCLayer` (models/graphLayer.py:476-493): floating-point eigendecomposition.
- `get_transform` (models/graphLayer.py:496-533). The per-layer transform is a parameter instead.
- `GraphLayer`'s `NotImplementedError` stubs, logging and `print`.
- data/gene_datasets.py is not part of this model. It is file I/O and random shuffling.
- The dead code:
  - the degree ordering computed and never used at models/graphLayer.py:281-282;
  - the row-index column written at models/graphLayer.py:414-415 and then projected away at line 418;
  - `SelfConnection`'s unused `please_ignore`.
- Array aliasing between layers. In the code, a transform that mutates its argument in place (`SelfConnection`) also mutates the previous layer's stored coarsened adjacency, since the two are the same array. The hierarchy is modelled on values, so this is not captured. `CoarsenedKeepsSelfLoops` shows it changes nothing when self-loops were already present before clustering.
- `AggregationGraph` is modelled as an immutable datatype. Its fields are never reassigned after construction.
- Negative indices to `get_aggregate` and `get_adj`, which Python reads from the end: layer ids are natural numbers.
- `LCGLayer.forward` with `in_dim = 0`: Python's `sum` of an empty list is the scalar 0, not a tensor. `Forward` requires at least one input channel.
- Float rounding: features are exact reals and `mean` divides exactly.
- Aggregation.Hierarchy: assumes the clusterer returns N dense labels for every `n_clusters`, including 0. When N < 2^(layer+1), `N / 2**(layer+1)` is 0 and the clustering library raises instead. The model does not produce that error.
- LocalConv.Forward: does not model the shape errors torch raises when there is nothing to gather. On a graph with no positive entry, `max_edges` is 0 (models/graphLayer.py:399), and `view(batch, -1, C)` at line 439 and `view(-1, N, 0, C)` at line 442 cannot infer the `-1`. With `channels = 0`, `torch.cat` of an empty list at line 421 raises. In both cases `Forward` returns `Ok` with all-zero or empty rows.
- LocalConv.ForwardAsWritten: likewise returns `Ok` where torch raises, at `max_edges = 0` or `channels = 0`.
- LocalConv.GraphConv: likewise, at `m = 0` or `channels = 0`, gives zero or empty rows where torch raises.
- LocalConv.GraphConvAsWritten: likewise, at `m = 0` or `channels = 0`, gives zero or empty rows where torch raises.
- LocalConv.ChannelConv: follows the intended gather (see Findings). It agrees with the code only when there is one output channel (`ChannelConvOneChannel`). `ChannelConvAsWritten` follows the code.
- LocalConv.Forward: follows the intended gather. It agrees with the code only when there is one output channel (`ForwardOneChannelAgrees`). `ForwardAsWritten` follows the code.
- LocalConv.ChannelConvIsNeighbours: is stated about the intended gather. It holds of the code only when there is one output channel, through `ChannelConvOneChannel`.
- LocalConv.ForwardIsNeighbourSum: is stated about the intended gather. It holds of the code only when there is one output channel, through `ForwardOneChannelAgrees`.

## Findings

| source | as written | input that shows it | evidently intended | confidence | as-written member | corrected member |
|---|---|---|---|---|---|---|
| models/graphLayer.py:421-439 | `super_edges = torch.cat([edges] * channels)` stacks the table along dimension 0, and `index_select(...).view(batch, -1, channels)` then makes slot r, channel c read entry `r * channels + c` of the stack | two isolated self-looped nodes with features [1, 0], fan-in 1, unit weights and 2 output channels: node 0's channel 1 reads node 1 and gives 0 | every output channel of slot r reads node `edges[r]`, which is what a stack along dimension 1 gives, so node 0's channel 1 is 1 | not executed | LocalConv.GraphConvAsWritten, LocalConv.ForwardAsWritten, LocalConv.TwoChannelsAsWritten | LocalConv.GraphConv, LocalConv.Forward, LocalConv.TwoChannelsIntended, LocalConv.SentinelsContributeNothing, LocalConv.OneChannelAgrees |
