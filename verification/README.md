# Disk wiping with proof-of-erasure labels: a verified model

The library fills storage with the labels of a recursive depth-robust graph: every node is hashed over its
predecessors' labels, and the labels of `m` chosen nodes of a chunk are kept. The same labels are computed by an
emitter that keeps all of them in an id-indexed buffer, by one that keeps only the labels still needed, by four GPU
strategies over a pool of recycled slots or a full buffer, by region labelers with threads or a worker pool, and by
several GPUs that share disks. This project models those computations and proves that they agree, and that the
bounds their comments claim hold for every chunk size.

The node hash is an arbitrary function throughout, so every agreement holds for every hash, seed and descriptor.

- `Bits`, `Dag`, `Census`: node counts and the graph as the sequence of predecessor lists in emission order.
- `Labelling`, `IdEmitter`, `LabelEmitter`, `Arena`, `RowSources`: the labelling, and the two emitters as classes over
  arrays. Both are proved against the same graph functions, which is why they agree.
- `Chunk`: one chunk's graph and output set; full-scratch labelling, in-place labelling and the edge list.
- `GraphLaws`: the graph node by node, by positions alone, for a reader who wants it without the recursion's notation.
- `Levels`, `Reach`: dependency levels, ancestors and path counts; how deep a challenge sits.
- `Buckets`, `SlotPool`, `SlotMap`, `ChunkSlots`: counting sort and the slot-recycling allocator.
- `Columns`, `Timing`, `LiveCount`, `Stages`, `PeakExact`, `PoolBound`: when nodes are computed and read for the last
  time, and why the pool has exactly 4·half_w slots.
- `Kernel`, `Strategies`, `Launches`: lanes as a machine over single memory accesses, and many chunks of it in one flat
  memory.
- `Lanes`, `LaneWalk`, `GpuRun`: how lanes stride over the slices of the level-sorted order, a kernel that makes their
  accesses in any order, and the batch loop of all four strategies.
- `Offsets`, `Region`, `RegionLabelers`: regions as rows of chunks, and the CPU labelers.
- `WorkerPool`: the mutex and condition-variable protocol as a state machine over all interleavings.
- `SharedMemory`, `StraightCode`, `ArenaCode`, `ChunkProgram`: programs that share one memory, access by access, and
  both chunk labelers as such programs.
- `PooledWave`, `RegionWaves`, `Schedules`, `PooledSchedules`, `WaveSetting`, `ScratchRace`, `RegionRuns`: the jobs of a
  wave, and the waves of a region, on threads or on the worker pool; when scratch buffers may be shared.
- `DiskWrites`, `DiskWipe`, `DiskPlan`, `DiskVerify`: multi-GPU wiping and sampled verification.
- `Lpt`, `Planner`: the planning tool's schedule and throughput model, over `real`.
- `NodeHashing`: node messages, AES batching and the key cache, with the primitives as arbitrary functions.

Where prose and code differ the model follows the code. The right copy's challenge nodes come from the second half of
its base array (common/src/graph.c:638, common/src/graph.c:1090), while docs/labeling-explained.md:190 and the comment
at common/src/graph.c:1087 say the first. The comment at common/src/graph.c:1594-1599 says that the in-place labeler
writes all scaffold nodes to the region; the code writes the output labels only. The comment at
common/src/cuda/label_gpu_block.cu:14 equates 4·half_w with 2·cb; that is so exactly for powers of two from 2 on.

Concurrent parts: lanes, chunks of a launch, jobs of a region wave, workers and disk writers appear as steps in
arbitrary order; for lanes and region jobs a step is one memory access. Sizes that depend on free device memory are
arbitrary positive parameters.

common/include/graph.h:179-181 asks that a caller's scratch buffers do not overlap the region, and does not ask that
they differ from each other. That is not enough: RegionRuns.RegionCondition proves, for either labeler, on threads and
on the pool, that a region is labelled right under every hash, seed function and interleaving if and only if the first
min(4, number of chunks) buffers are pairwise different. The region labelers here require just that.

`dafny verify dfyconfig.toml` checks the whole project.

## Model

| member | source | states |
|---|---|---|
| Dag.Standalone | common/src/graph.c:475-495 | a standalone component adds exactly StandaloneCount nodes and 2^level base ids, and never changes older nodes |
| Dag.Connected | common/src/graph.c:497-520 | a connected component adds exactly ConnectedCount nodes and 2^level base ids, and never changes older nodes |
| Dag.Merged | common/src/graph.c:251-467 | two merged butterflies add exactly twice the butterfly count, whichever path emits them |
| Dag.Connector | common/src/graph.c:148-239 | a connector adds exactly the butterfly count |
| Census.ButterflyClosed | common/src/graph.c:33-37 | butterfly count is (dim+1)·2^dim |
| Census.ConnectedClosed | common/src/graph.c:42-46 | closed form of the connected count, 2·C(k) = 2^k(k²+k+2) |
| Census.StandaloneClosed | common/src/graph.c:48-54 | closed form of the standalone count, 2·S(k)+2 = 2^k(k²−k+4) |
| Census.GraphSize | common/src/graph.c:647-652 | closed form of the scaffold size of an m-block chunk |
| Census.GraphFits | common/src/graph.c:1113 | every accepted m numbers its nodes within 31 bits, so the 32-bit refusal never happens |
| Census.StandaloneSource | common/src/graph.c:475-480 | a standalone component has exactly one source, its first node |
| Census.GraphSources | common/src/graph.c:611-629 | the chunk graph has exactly two sources, the first node of each copy |
| Dag.StandaloneWellFormed | common/src/graph.c:475-495 | every predecessor id is below the node, and a pair lists the lower id first |
| Dag.ConnectedWellFormed | common/src/graph.c:497-520 | the same for connected components over any older inputs |
| Dag.StandaloneAscending | common/src/graph.c:475-495 | base ids are strictly ascending, hence distinct |
| GraphLaws.ConnectorNodes | common/src/graph.c:148-239 | a connector node by node: layer 0 reads the inputs; layer j reads, in column o, columns o and o xor 2^(dim − j) of the layer before, lower id first |
| GraphLaws.MergedNodes | common/src/graph.c:251-467 | merged butterflies node by node: a connector over the ingress ids, a row that pairs primary id o with ingress output o, primary first, and the layers crossing that row |
| GraphLaws.ConnectedParts | common/src/graph.c:497-520 | left half over the front inputs, merged butterflies of its base nodes and the back inputs, right half over the last row; base ids left then right |
| GraphLaws.StandaloneParts | common/src/graph.c:475-495 | smaller standalone component, connector over its base nodes, connected component over the last row; base ids left then right |
| Dag.StandaloneLeaf | common/src/graph.c:477-480 | level 0 is one source |
| Dag.ConnectedLeaf | common/src/graph.c:501-505 | level 0 is one node that reads its input |
| GraphLaws.FlipIs | common/src/graph.c:195-239 | flipping bit b of a column adds or takes away 2^b, as the binary digit says |
| GraphLaws.AgreeIs | common/src/graph.c:195-239 | agreeing on the lowest b bits, as Reach and Timing use it, is congruence modulo 2^b |
| GraphLaws.ChunkGraph | common/src/graph.c:607-642 | for 2^n < m <= 2^(n+1): two standalone copies of level n + 1; rank r is base node 2^n + r of the left copy, or base node r of the right one from 2^n on |
| Chunk.ParamNBounds | common/src/graph.c:562-570 | 2^n < m <= 2^(n+1) for m >= 2; the one-block chunk fills its half exactly |
| Chunk.ParameterN | common/src/graph.c:562-570 | the bit-counting loop returns that n |
| Chunk.OutputAt | common/src/graph.c:631-642 | rank r is left base node half_w + r, or right base node r from half_w on |
| Chunk.OutputIdsAscend | common/src/graph.c:1087-1091 | challenge ranks map one-to-one onto m distinct nodes |
| Chunk.ChunkLaw | common/src/graph.c:575-645 | whatever labels satisfy that hashing recurrence over the chunk graph, under the chunk's seed and the descriptor of (m, n), rank r's label is the one of its output node |
| Chunk.ChunkSolvable | common/src/graph.c:575-645 | there are such labels |
| Labelling.LabelAt | common/src/graph.c:99-144 | every label is the hash over the final labels of exactly the recorded predecessors |
| Labelling.LabelLaw | common/src/graph.c:99-144 | with the hash call written out: a source hashes no label, a node with one predecessor that one's, a node with two the lower id's label first and then the higher id's, all under the session's seed and descriptor |
| Labelling.LabelsUnique | common/src/graph.c:99-144 | the labelling is the only solution of that recurrence |
| Labelling.PickGrow | common/src/graph.c:99-144 | emitting more nodes never changes an older label |
| IdEmitter.Emitter.constructor | common/src/graph.c:594-605 | a new emitter starts with an empty graph and an empty arena |
| IdEmitter.Emitter.Resume | common/src/graph.c:624-628 | the right copy continues the numbering where the left one ended, on its own arena |
| IdEmitter.Emitter.Emit | common/src/graph.c:99-144 | one node: dense id, its label or its edge record, in either mode |
| IdEmitter.Emitter.EmitRowSequential | common/src/graph.c:223-239 | edge mode emits a row node by node, ids in column order |
| IdEmitter.Emitter.EmitRowBatched | common/src/graph.c:168-222 | label mode emits the same row in batches of at most 16, with the same ids and labels |
| IdEmitter.Emitter.EmitLayers | common/src/graph.c:195-239 | the buffer-swapping layer loop leaves the crossed layers, in order, and their ids in the buffer last written |
| IdEmitter.Emitter.EmitConnector | common/src/graph.c:162-239 | outputs are the ids of the last layer; the arena mark is restored |
| IdEmitter.Emitter.EmitMergedCenterIngress | common/src/graph.c:255-467 | ingress butterfly, then center butterfly joined to the primary inputs; the arena mark is restored |
| IdEmitter.Emitter.EmitConnected | common/src/graph.c:497-520 | the mutual recursion emits Connected and stores its base ids; the arena mark is restored |
| IdEmitter.Emitter.EmitStandalone | common/src/graph.c:475-495 | the recursion emits Standalone and stores its base ids; the arena mark is restored and never above its peak |
| LabelEmitter.CrossOrder | common/src/graph.c:742-760 | clearing and setting the layer bit puts the predecessors in the order of their ids |
| LabelEmitter.LEmitter.LcRow | common/src/graph.c:703-760 | labels addressed by position get the hashes that ids would have given |
| LabelEmitter.LEmitter.LcConnector | common/src/graph.c:722-774 | connector outputs are the labels of the id-indexed labelling; exact high-water mark |
| LabelEmitter.LEmitter.LcMergedCenterIngress | common/src/graph.c:776-893 | merged butterflies: primary before ingress is id order; exact high-water mark |
| LabelEmitter.LEmitter.LcConnected | common/src/graph.c:920-942 | connected component over labels only, through both recursive calls; exact high-water mark |
| LabelEmitter.LEmitter.LcStandalone | common/src/graph.c:898-918 | standalone component over labels only; arena restored; exact high-water mark |
| Arena.StandalonePeakBound | common/src/graph.c:60-65 | twice the high-water mark is at most 13·half_w, with equality from level 3 on |
| Arena.ArenaSuffices | common/src/graph.c:691-701 | so the capacity assertion of the arena cannot fail |
| Chunk.DoLabel | common/src/graph.c:575-645 | full-scratch labelling writes exactly the chunk labels in rank order, which are the output nodes' labels of any solution of the written-out recurrence, or refuses m = 0 and m > 2^20 |
| Chunk.DoLabelInplace | common/src/graph.c:958-1001 | in-place labelling writes the same labels, on the same independent statement, within 6.5·half_w arena slots |
| Chunk.GraphEdges | common/src/graph.c:1044-1100 | edge mode records exactly the graph the labels are computed over; the output node of rank r carries r, every other node −1 |
| RegionLabelers.Challenge | common/src/graph.c:1019-1042 | the verifier recomputes the label of one rank; out-of-range ranks are refused |
| Levels.LongestChain | common/src/graph.c:1115-1139 | a node of level L ends a chain of L + 1 hashes |
| Levels.ChainBound | common/src/graph.c:1115-1139 | and no chain ending there is longer |
| Reach.MixPaths | common/src/graph.c:195-239 | exactly one path from each butterfly input column to each output |
| Reach.MixLevels | common/src/graph.c:195-239 | whatever the input levels, all outputs of a butterfly sit at one level |
| Reach.ConnectorPaths | common/src/graph.c:162-239 | in an emitted connector exactly one path leads from each layer-0 node to each output, and all outputs sit at one level |
| Reach.MergedPaths | common/src/graph.c:255-467 | the same for the ingress butterfly and for the center butterfly of every merged pair |
| Reach.ConnectorReach | common/src/graph.c:162-239 | every connector output depends on every input |
| Reach.MergedReach | common/src/graph.c:255-467 | every merged output depends on every primary and every ingress input |
| Reach.InputReach | common/src/graph.c:497-520 | input i is an ancestor of base node i |
| Reach.ConnectedChain | common/src/graph.c:497-520 | each base node of a connected component is an ancestor of every later one |
| Reach.StandaloneChain | common/src/graph.c:475-495 | each base node of a standalone component is an ancestor of every later one |
| Reach.ChallengeDepth | README.md:37-39 | a left-copy challenge of rank r ends a chain of at least half_w + r + 1 hashes, a right-copy one of r + 1 |
| Buckets.CountingSort | common/src/graph.c:1166-1174 | count, prefix sums and scatter give the stable concatenation of the key buckets |
| Buckets.SortedSchedule | common/src/cuda/label_gpu_common.cu:151-160 | that order runs through all nodes once, by ascending level |
| SlotMap.ComputeLevels | common/src/graph.c:1126-1139 | the forward pass computes every dependency level and the highest one |
| SlotMap.HeightIs | common/src/graph.c:1126-1139 | the number of levels is one more than the highest level that a node is on |
| SlotMap.ComputeLastUses | common/src/graph.c:1140-1147 | the second pass computes every last use |
| SlotMap.LastUseBound | common/src/graph.c:1124-1125 | no reader comes after a node's last use |
| SlotMap.LastUseAttained | common/src/graph.c:1124-1125 | the last use is the node's own level or a reader's |
| SlotPool.AllocateKeeps | common/src/graph.c:1188-1191 | handing out a slot keeps live slots and free stack a partition of [0, next_new), and shares slots only between disjoint live ranges |
| SlotPool.ReclaimKeeps | common/src/graph.c:1192-1195 | taking a slot back keeps it too |
| SlotMap.AllocateLevel | common/src/graph.c:1188-1191 | a level's births, before its deaths; the pool grows only to the number of live nodes |
| SlotMap.ReclaimLevel | common/src/graph.c:1192-1195 | a level's deaths, after its births |
| SlotMap.RecycleSlots | common/src/graph.c:1186-1198 | nodes that share a slot are never live at one level, ends included, and the pool is the largest number of nodes live at a level |
| Columns.RowKeeps | common/src/graph.c:195-239 | appending a row keeps every column a chain in which no node outlives its successor's level |
| Columns.ConnectedColumns | common/src/graph.c:497-520 | a connected component needs one column per input, ending in its base nodes |
| Columns.StandaloneColumns | common/src/graph.c:475-495 | a standalone component needs 2^level columns, ending in its base nodes |
| Timing.LayerLower | common/src/graph.c:195-239 | butterfly layer j of column o comes at least j + 1 levels after every base node whose index agrees with o on the bits not yet mixed |
| Timing.LayerExact | common/src/graph.c:195-239 | and exactly j + 1 levels after one of them |
| Timing.ConnectedLast | common/src/graph.c:497-520 | over inputs of one level the last base node of a connected component comes a number of levels later that depends on its size only |
| Timing.StandaloneLast | common/src/graph.c:475-495 | the level of a standalone component's last base node depends on its size only, and is at most two above the one before it |
| Timing.OutputLevel | common/src/graph.c:475-495 | all outputs of a standalone component's connector come k + 1 levels after the last base node they mix |
| Stages.NewReader | common/src/graph.c:475-495 | when a standalone component is extended, a new node that reads an old one reads a base node, and comes one level after it |
| Stages.OldBelowLast | common/src/graph.c:475-495 | no node of a standalone component comes after its last base node |
| PeakExact.FreshLayerSize | common/src/graph.c:195-239 | butterfly layer j computes at most 2^j nodes at one level |
| PeakExact.NoneBeforeHalf | common/src/graph.c:195-239 | no crossing layer can be computed while only the first half of the base nodes is there |
| PeakExact.StandaloneLive | common/src/graph.c:475-495 | a standalone component of level L has at most 2^L live nodes at any level |
| PeakExact.PeakAttained | common/src/graph.c:475-495 | and 2^L of them when the outputs of its last connector are computed |
| PoolBound.LiveFourHalves | common/src/graph.c:1200-1207 | at no level of any chunk are more than 4·half_w nodes live, and at one level exactly so many are |
| PoolBound.PoolIsFourHalves | common/src/cuda/label_gpu_block.cu:12-15 | the pool has exactly 4·half_w slots, half of what the code asserts |
| PoolBound.PoolAgainstChunk | common/src/cuda/label_gpu_block.cu:12-15 | 4·half_w is 2·cb if and only if cb is a power of two of at least 2; otherwise the pool is larger |
| PoolBound.PoolOfThree | common/src/cuda/label_gpu_block.cu:12-15 | a chunk of 3 blocks needs 8 slots, not 6 |
| ChunkSlots.SlotMapOf | common/src/graph.c:1102-1213 | the public slot map: null outputs and sizes above 2^20 are refused and nothing is written; 0 means 4096; otherwise recycling, and a pool of exactly 4·half_w slots, the least possible at level granularity |
| Kernel.StepKeeps | common/src/cuda/label_gpu_warp.cu:101-120 | every memory access of every lane keeps: labels still needed are in their slots, finished ranks are persisted and counted once |
| Kernel.SlotFreeToStore | common/src/cuda/label_gpu_warp.cu:113-114 | a store never hits a slot whose label is still needed |
| Kernel.RunPersists | common/src/cuda/label_gpu_warp.cu:101-120 | after any interleaving each rank holds its label and was written exactly once |
| Kernel.NeverStuck | common/src/cuda/label_gpu_block.cu:69-86 | until the last level is over some lane or the barrier can proceed |
| Kernel.RunLength | common/src/cuda/label_gpu_block.cu:69-86 | every run is finite: its length is bounded by the work at its start |
| Strategies.RankMaps | common/src/cuda/label_gpu_common.cu:141-147 | the id-to-rank map and its inverse |
| Strategies.RecycledLabels | common/src/cuda/label_gpu_block.cu:69-86 | any run of the machine over the recycled pool persists the chunk's labels, each rank once (that lanes run the machine is LaneWalk.WalkLaunch) |
| Strategies.FullLabels | common/src/cuda/label_gpu_level.cu:79-113 | level strategy: after any run of the machine the work buffer is the whole labelling |
| Strategies.LabelChunkThread | common/src/cuda/label_gpu_thread.cu:48-79 | thread strategy: the sequential walk over recycled slots persists the expected label at every rank and touches nothing else |
| Strategies.RecycledOutput | common/src/cuda/label_gpu_common.cu:141-147 | the label expected at rank r is the chunk's label r |
| Launches.OwnAccess | common/src/cuda/label_gpu_warp.cu:97-99 | an access at a flat address is a step of the chunk's own machine |
| Launches.OthersAccess | common/src/cuda/label_gpu_warp.cu:97-99 | no access of one chunk is visible to another |
| Launches.ChunkRunsAlone | common/src/cuda/label_gpu_warp.cu:82-121 | in any interleaving of a launch each chunk runs as if it were alone |
| Lanes.SortedSliced | common/src/cuda/label_gpu_common.cu:151-160 | slice [start[lv], start[lv + 1]) of the counting-sorted order lists the nodes of level lv, each once |
| Lanes.StrideApart | common/src/cuda/label_gpu_warp.cu:104 | two different positions of one lane are at least a stride apart |
| Lanes.PositionOf | common/src/cuda/label_gpu_level.cu:97-98 | position t of a level of n nodes is node t mod n of chunk t div n, both in range |
| Lanes.NextPosition | common/src/cuda/label_gpu_warp.cu:104 | moving on finishes the lane's position and no other |
| Lanes.OwnSync | common/src/cuda/label_gpu_warp.cu:101-116 | an access of a lane is work on exactly one node of its chunk; the tasks stay what the lanes have done |
| Lanes.OtherSync | common/src/cuda/label_gpu_level.cu:96-110 | and no other chunk of the team is touched |
| Lanes.LaneEnabled | common/src/cuda/label_gpu_warp.cu:101-116 | whatever a lane does next, the chunk's machine may do |
| Lanes.BarrierEnabled | common/src/cuda/label_gpu_warp.cu:101-119 | when all lanes are past the last position, every node of the level is finished |
| Lanes.NextLevelSync | common/src/cuda/label_gpu_warp.cu:100-119 | behind the barrier every lane is at its first position of the next level |
| LaneWalk.MakeAccess | common/src/cuda/label_gpu_warp.cu:104-116 | one load, store or copy at flat addresses is one step of the launch's machine |
| LaneWalk.WalkLaunch | common/src/cuda/label_gpu_warp.cu:82-121 | strided lanes, any of which may go next, with a barrier per level: the kernel is a complete run of the launch's machine, for one team per chunk and for one team of the whole grid |
| GpuRun.LaunchLabels | common/src/cuda/label_gpu_warp.cu:194-217 | a finished launch leaves every chunk's labels in its row, each stored once, and changes no other row |
| GpuRun.TeamsDone | common/src/cuda/label_gpu_warp.cu:82-121 | a batch of warps or blocks that has run to its end leaves each chunk's labels in its row and all blocks outside the batch unchanged |
| GpuRun.WaveLabelled | common/src/cuda/label_gpu_level.cu:79-113 | after a wave every chunk's work row is its whole labelling, and nothing has been persisted |
| GpuRun.ExtractWave | common/src/cuda/label_gpu_level.cu:118-137 | threads tid of the extraction pass, in any order, copy rank tid mod cb of chunk tid div cb to row wave_base + tid div cb; the rows hold the chunks' labels, all else is unchanged |
| GpuRun.DeviceTopology.LabelChunk | common/src/cuda/label_gpu_thread.cu:48-79 | one thread, one chunk: the row of the persisted buffer becomes the chunk's labels |
| GpuRun.DeviceTopology.RunThreads | common/src/cuda/label_gpu_thread.cu:48-79 | thread strategy: threads of all chunks in any order of accesses leave each chunk's labels in its row and nothing else changed |
| GpuRun.DeviceTopology.RunTeams | common/src/cuda/label_gpu_block.cu:53-86 | warp and block strategy: the same, by lanes over recycled slots in any order |
| GpuRun.DeviceTopology.RunWaveOfLevels | common/src/cuda/label_gpu_level.cu:79-137 | level strategy: the same, by the whole grid over full scaffolds and the extraction pass |
| GpuRun.DeviceTopology.BatchSeeds | common/src/cuda/label_gpu_warp.cu:198-205 | the chunk index computed from the absolute block offset is the chunk's position on the disk |
| GpuRun.DeviceTopology.Run | common/src/cuda/label_gpu_warp.cu:194-217 | for each of the four strategies, batches of any positive size label a whole device buffer, with seeds from absolute block offsets, and leave the rest of it alone |
| GpuRun.BuildTopology | common/src/cuda/label_gpu_common.cu:71-187 | the uploaded topology, of 4096 blocks if 0 are asked for, satisfies everything the strategy relies on; only other algorithms than BLAKE3 and sizes above 2^20 are refused |
| Region.RegionAt | common/include/graph.h:113-119 | block r of chunk k is the label of rank r for seed index offset/cb + k |
| Region.RegionSplit | common/include/graph.h:113-119 | labelling in pieces cut at a chunk boundary is labelling whole |
| Region.ScratchMonotone | common/src/graph.c:1308-1320 | buffers sized for a full chunk are large enough for a short one |
| RegionLabelers.RunWave | common/src/graph.c:1455-1476 | the jobs of a wave, in any order and each on its own scratch, label their own blocks and no others |
| RegionLabelers.WaveWidth | common/src/graph.c:1437-1455 | no wave has more jobs than min(4, number of chunks) |
| RegionLabelers.BuffersAre | common/src/graph.c:1437-1455 | a region uses four buffers, or as many as it has chunks, a short last one included |
| RegionLabelers.BuildWave | common/src/graph.c:1437-1455 | a wave is the next four chunks, or all that are left, each with its seed index, size and place |
| StraightCode.CodeRuns | common/src/graph.c:99-144 | the accesses of a piece of labelling code, wherever it starts and whatever the cells hold, have the effect of its instructions |
| StraightCode.ExecStands | common/src/graph.c:99-144 | code that reads predecessors in order leaves labels of the graph where its node ids say |
| ArenaCode.MergedGoes | common/src/graph.c:776-893 | merged butterflies over four arena arrays, or one local label: outputs stand for the last row, nothing else below the arena mark changes |
| ArenaCode.ConnectedGoes | common/src/graph.c:920-942 | the same for the connected component through both recursive calls: its base array stands for its base ids |
| ArenaCode.StandaloneGoes | common/src/graph.c:898-918 | the same for the standalone component |
| ChunkProgram.HashCodeGoes | common/src/graph.c:575-642 | after hashing, full-scratch or in place, each rank's label is in the cell it is copied from, and cells that must hold labels do |
| ChunkProgram.ChunkCodeFills | common/src/graph.c:958-1001 | either chunk labeler as a program of single accesses: alone, it fills its blocks with the chunk's labels, whatever its cells held |
| SharedMemory.AccessAsAlone | common/src/graph.c:1281-1297 | an access of one job leaves every job where it would be had it run alone |
| SharedMemory.InterleavedAsAlone | common/src/graph.c:1281-1297 | so in every interleaving each job gets exactly as far as alone |
| SharedMemory.JoinedWave | common/src/graph.c:1281-1297 | once a job is over its blocks hold what it owes, and cells of no job are unchanged |
| RegionWaves.JoinedRegionWave | common/src/graph.c:1280-1297 | threads joined at the end: every interleaving of the jobs' accesses leaves each job's chunk labels in its blocks and all other blocks of the region unchanged |
| RegionWaves.PooledRegionWave | common/src/graph.c:1455-1473 | the same on the worker pool, over every interleaving of protocol steps and accesses, once the submitter is past the barrier; the pool is then fit for the next wave |
| RegionWaves.ProgramsWave | common/src/graph.c:1455-1476 | on private scratch of the documented size the programs of either labeler meet the hypotheses of both |
| PooledSchedules.OnPool | common/src/graph.c:1455-1473 | every interleaving of accesses that threads of their own can produce can be produced on the pool, in whatever state earlier waves left it |
| ScratchRace.SharedRaces | common/src/graph.c:1509-1538 | two jobs of a wave on one buffer, any chunk sizes, either labeler, on threads or on the pool: a course after which all have halted and the later job's first block holds the seed of the earlier one's chunk |
| ScratchRace.WrongBlock | common/src/graph.c:1509-1538 | which under a hash that returns the seed is not that block's label |
| ScratchRace.ScratchCondition | common/src/graph.c:1509-1538 | a wave of a region is labelled right under every hash, seed function, memory and interleaving if and only if its jobs' buffers are pairwise different |
| RegionRuns.WavesLabel | common/src/graph.c:1432-1480 | wave after wave, each in any interleaving, on threads or on one pool: the region holds RegionLabels, and the pool stays sound |
| RegionRuns.RestCanEnd | common/src/graph.c:1432-1480 | on any buffers the remaining waves can be brought to their ends, and no later wave touches an earlier block |
| RegionRuns.RegionCondition | common/src/graph.c:1414-1547 | the region is labelled right in every run if and only if the first min(4, chunks) scratch buffers are pairwise different |
| RegionLabelers.LabelRegion | common/src/graph.c:1226-1306 | labeler with its own scratch: region labels for an aligned offset, with chunks of 4096 blocks if 0 are asked for, exact error cases, nothing beyond the region |
| RegionLabelers.LabelRegionPooled | common/src/graph.c:1414-1547 | the ex and pooled labelers write the same bytes, 0 again meaning 4096, on scratch of which only the buffers in use must be large enough and differ |
| RegionLabelers.LabelRegionInplace | common/src/graph.c:1604-1689 | the in-place labeler, on the same condition, agrees on whole chunks and leaves a short tail unchanged |
| WorkerPool.StepKeeps | common/src/graph.c:1340-1364 | every step of workers and submitter keeps pending + running + n_done = n_expected and the one-place-per-job discipline, also across waves that leave the pool and its counters alone |
| WorkerPool.WaveComplete | common/src/graph.c:1455-1473 | when the barrier releases, every job ran exactly once and no worker touches its arguments |
| WorkerPool.NobodyRunsBetweenWaves | common/src/graph.c:1735-1752 | between waves no worker touches any job |
| WorkerPool.NeverStuck | common/src/graph.c:1340-1364 | no deadlock and no lost wakeup |
| WorkerPool.WaveBound | common/src/graph.c:1455-1473 | every wave, and shutdown, ends after a bounded number of steps in any order: the work posted, and three for each spurious wakeup |
| PooledWave.MoveKeeps | common/src/graph.c:1340-1364 | protocol steps and accesses together keep: a job reported as run has halted, and every job is where it would be alone |
| PooledWave.PooledJobs | common/src/graph.c:1455-1473 | past the barrier every job's blocks hold what it owes, and cells of no job are unchanged |
| PooledWave.WaveNeverStuck | common/src/graph.c:1340-1364 | until the barrier is passed some job has an access to make or the protocol a step to take |
| PooledWave.WaveLength | common/src/graph.c:1340-1364 | every wave is finite: protocol steps and accesses together are bounded |
| DiskWipe.WipeItem | tools/disk-wipe-bench/disk_wipe_bench.cu:640-686 | whatever the strategy, windows and staging slices write every block of a work item once, with its own label, no slice longer than asked, and leave a partial super-chunk alone |
| DiskWipe.Worker | tools/disk-wipe-bench/disk_wipe_bench.cu:552-696 | one GPU writes exactly the blocks of its items, in slices of the stage size; a dry run writes none |
| DiskWipe.WindowSize | tools/disk-wipe-bench/disk_wipe_bench.cu:616-622 | the window is the most whole super-chunks within the request and the largest item, but at least one |
| DiskWipe.StageSize | tools/disk-wipe-bench/disk_wipe_bench.cu:624-626 | a slice is the most whole super-chunks within the request and the window, but at least one |
| DiskPlan.SharesComplete | tools/disk-wipe-bench/disk_wipe_bench.cu:1016-1028 | the K shares of a disk make up the whole disk |
| DiskPlan.ShareIs | tools/disk-wipe-bench/disk_wipe_bench.cu:1016-1028 | GPU j's share of n super-chunks starts at j·(n div K) + min(j, n mod K) and ends where the next one starts |
| DiskPlan.TeamCovers | tools/disk-wipe-bench/disk_wipe_bench.cu:1014-1030 | a team covers each wiped block of its disks exactly once |
| DiskPlan.DealtOnce | tools/disk-wipe-bench/disk_wipe_bench.cu:985-992 | every disk goes to exactly one team |
| DiskPlan.DealtTo | tools/disk-wipe-bench/disk_wipe_bench.cu:991-992 | the disk at position pos goes to team pos mod T |
| DiskPlan.WorkerShare | tools/disk-wipe-bench/disk_wipe_bench.cu:1014-1030 | GPU j of team t writes its share of the disks at positions t, t + T, ... and nothing else of any disk |
| DiskPlan.SortDisks | tools/disk-wipe-bench/disk_wipe_bench.cu:985-989 | largest-first order lists every disk once |
| DiskPlan.WipeDisks | tools/disk-wipe-bench/disk_wipe_bench.cu:920-1032 | all workers together write every wiped block of every disk exactly once, with the right label; log t·K + j is that of GPU j of team t, with K clamped to 1..gpus, T = gpus div K, and the disks dealt largest first |
| DiskPlan.WipedImage | README.md:41-44 | in any interleaving of the writes the image is the label of chunk b/cb, rank b mod cb, and bytes past the last whole super-chunk are untouched, whatever K, teams, strategies, windows, slices and batches |
| DiskPlan.WipedBlocks | tools/disk-wipe-bench/disk_wipe_bench.cu:887-888 | the wiped length is the largest number of whole super-chunks within size and cap |
| DiskVerify.SamplesAscend | tools/disk-wipe-bench/disk_wipe_bench.cu:338-340 | samples read strictly increasing super-chunks |
| DiskVerify.SampleEnds | tools/disk-wipe-bench/disk_wipe_bench.cu:294-296 | the first and the last super-chunk are always sampled |
| DiskVerify.SampleSpread | tools/disk-wipe-bench/disk_wipe_bench.cu:333 | sample k reads super-chunk J if and only if (samples − 1)·J <= k·(n − 1) < (samples − 1)·(J + 1); a single sample reads the first |
| DiskVerify.IntactIs | tools/disk-wipe-bench/disk_wipe_bench.cu:338-345 | a super-chunk is intact if and only if every one of its blocks holds the label of its rank |
| DiskVerify.DamagedCounts | tools/disk-wipe-bench/disk_wipe_bench.cu:332-345 | the running count of mismatches is the cardinality of the set of damaged samples |
| DiskVerify.VerifyDisk | tools/disk-wipe-bench/disk_wipe_bench.cu:300-366 | the mismatch count is the number of samples k whose super-chunk J, (samples − 1)·J <= k·(n − 1) < (samples − 1)·(J + 1), is not intact |
| DiskVerify.WipedPasses | tools/disk-wipe-bench/disk_wipe_bench.cu:294-299 | a correctly wiped disk has no mismatch |
| DiskVerify.NoMismatch | tools/disk-wipe-bench/disk_wipe_bench.cu:294-299 | no mismatch means every sample is intact |
| Lpt.ScheduleConserves | tools/disk-calc/disk_calc.py:150-157 | busy times add up to the total work |
| Lpt.ScheduleBound | tools/disk-calc/disk_calc.py:150-157 | every team is done by total/T + (1 − 1/T)·longest |
| Lpt.LongestFirst | tools/disk-calc/disk_calc.py:150-157 | longest-first stays within 4/3 − 1/(3T) of any assignment (Graham) |
| Lpt.ListChoice | tools/disk-calc/disk_calc.py:150-157 | each job goes to the team with the least load from the jobs before it, the first of equally loaded ones |
| Planner.LptSchedule | tools/disk-calc/disk_calc.py:150-157 | the loop computes the list schedule of the disks in descending order and its makespan |
| Planner.LptConserves | tools/disk-calc/disk_calc.py:150-157 | the schedule distributes exactly total/rate |
| Planner.LptMakespan | tools/disk-calc/disk_calc.py:150-157 | T·makespan <= total/rate + (T − 1)·longest/rate |
| Planner.LptNearOptimal | tools/disk-calc/disk_calc.py:150-157 | no assignment of the disks beats the makespan by more than Graham's factor |
| Planner.TeamRate | tools/disk-calc/disk_calc.py:138-147 | the rate is the least of labelling at k·gpu rate·efficiency (k·gpu rate for one GPU), device-to-host copy and disk write, the last two if given, named as the first of equally slow stages |
| Planner.GpuRateIs | tools/disk-calc/disk_calc.py:138-147 | labelling runs at k times the GPU rate, times the pool efficiency for more than one GPU |
| Planner.HostCapped | tools/disk-calc/disk_calc.py:165-170 | teams together stay within the host's rate; the cap binds only if they would exceed it, and then exactly |
| Planner.AlignedSectors | tools/disk-calc/disk_calc.py:174-176 | a padded super-chunk is q whole sectors with (q − 1)·sector < superchunk <= q·sector |
| Planner.PaddedRate | tools/disk-calc/disk_calc.py:174-176 | the payload rate times the bytes written is the raw rate times the payload |
| Planner.EvaluateK | tools/disk-calc/disk_calc.py:160-189 | teams and idle GPUs add up, the host cap holds, the schedule runs at rate·superchunk/(q·sector) for the q with (q − 1)·sector < superchunk <= q·sector, and utilisation lies in (0, 1] |
| NodeHashing.BuildAesMsg | common/src/aes_prf.c:33-48 | whatever the buffer held, byte by byte: eight bytes of index, most significant first, eight zeros, both predecessors or zeros, the descriptor |
| NodeHashing.BuildNodeMsg | common/src/hash.c:68-108 | whatever the buffer held, byte by byte: eight bytes of index, most significant first, 56 zeros, both predecessors or zeros, seed, descriptor |
| NodeHashing.IndexBytes | common/src/hash.c:89-97 | the eight index bytes read as a big-endian number are the index modulo 2^64 |
| NodeHashing.NodeLayoutUnique | common/src/hash.c:68-108 | the 192-byte layout leaves no byte open |
| NodeHashing.AesLayoutUnique | common/src/aes_prf.c:33-48 | nor does the 112-byte layout |
| NodeHashing.KeyCache.GetRoundKeys | common/src/aes_prf.c:274-283 | hit or miss, the round keys are the fresh expansion of the seed asked for |
| NodeHashing.CbcMacSingle | common/src/aes_prf.c:290-311 | seven CBC blocks of ten cipher rounds |
| NodeHashing.MacLaw | common/src/aes_prf.c:290-311 | the MAC is the last of seven states, each the ten written-out rounds of the state before xor the next 16 message bytes, from zero |
| NodeHashing.CbcMac4x2 | common/src/aes_prf.c:318-356 | the eight interleaved chains are eight independent MACs |
| NodeHashing.AesPrfMany | common/src/aes_prf.c:358-388 | the four-wide and the scalar path give every element its own label: 16 bytes of MAC under the seed's first half, 16 under its second, over the laid-out message, whichever predecessors, or arrays of them, are missing |
| NodeHashing.LabelNode | common/src/hash.c:112-145 | the scalar label for all three algorithms is the hash of a message laid out byte by byte, with the key for sources or for internal nodes, or its two MACs |
| NodeHashing.LabelNodeMany | common/src/hash.c:147-194 | batch output i is that label of element i, for n <= 16, every algorithm, any missing predecessors and any cache history; other outputs are untouched |
| NodeHashing.NodeLabelIs | common/src/hash.c:112-145 | each algorithm is an instance of the arbitrary node hash the graph is labelled with, and gives graph nodes those labels |

## Left out

- The insides of BLAKE3, SHA-256 and the AES round and key schedule: every property holds for arbitrary functions in their place.
- Collision, uniqueness and seed-sensitivity of labels: cryptographic assumptions, not consequences of the code.
- CUDA allocation, occupancy, copies and launch errors; thread creation and allocation failures: devices, threads and memory are taken as available.
- Opening and sizing devices, partial reads and writes, the dashboard, argument parsing, prompts and timing: input, output and user interface.
- 64-bit wrap-around of block and byte offsets: counts and offsets are unbounded here; node ids are shown to fit 31 bits.
- Partial overlap of buffers passed by a caller: two scratch buffers are the same or apart, and apart from the region.
- `pose_graph_label_disk_wave`: one in-place wave whose jobs also call a sink; it adds no new argument to the in-place waves.
- SlotMap.RecycleSlots: does not say which of several free slots a node gets; the labels do not depend on it.
- Progress reporting and zeroing of device scratch after a run: no effect on the persisted labels.
- RegionLabelers.RunWave: the method executes its jobs one after another; all their interleavings are ScratchRace.ScratchCondition and, for whole regions, RegionRuns.RegionCondition.
- ChunkProgram.ChunkCodeFills: both programs hash node by node and keep ids out of memory, since they do not depend on labels; the batches of up to 16 hashes are in IdEmitter and LabelEmitter.
- GpuRun.DeviceTopology.RunWaveOfLevels: one launch per level is the case of a grid with a thread for every position, whose barriers are the ends of the launches.
- DiskWipe.WipeItem: block contents are labels of 32 bytes, and lengths are counted in such blocks.
