/** The batch loop of a GPU strategy: all super-chunks of a device buffer, a batch of them at a time. */
module GpuRun {
  import Bits
  import opened Offsets
  import opened Dag
  import opened Labelling
  import Buckets
  import opened SlotMap
  import opened IdEmitter
  import opened Chunk
  import Region
  import Kernel
  import opened Strategies
  import opened Launches
  import ChunkSlots
  import Census
  import Lanes
  import LaneWalk
  import NodeHashing
  import SlotPool

  /** The compiled-in labeling strategy; `threads` is the size of the grid that walks all chunks of a wave. */
  datatype Strategy = LevelWave(threads: nat) | BlockPerChunk | WarpPerChunk | ThreadPerChunk {
    /** Lanes that share the nodes of a level. */
    function Width(): nat {
      match this
      case LevelWave(threads) => threads
      case BlockPerChunk => 256
      case WarpPerChunk => 32
      case ThreadPerChunk => 1
    }
  }

  /** What the host uploads once per chunk size. */
  class DeviceTopology {
    const cb: nat
    const strategy: Strategy
    const nodes: array<NodeRecord>
    /** Level `lv` is order[start[lv]..start[lv + 1]]. */
    const order: array<nat>
    const start: array<nat>
    /** The challenge node of every rank. */
    const outId: array<nat>
    /** Recycled slots and the rank of every node; per-chunk strategies only. */
    const slot: array<nat>
    const rank: array<int>
    const pool: nat

    ghost predicate Valid()
      reads nodes, order, start, outId, slot, rank
    {
      && ChunkNodes(nodes[..], cb)
      && WellFormed(GraphOf(cb))
      && nodes.Length == |GraphOf(cb)|
      && strategy.Width() >= 1
      && Buckets.Schedule(LevelsOf(GraphOf(cb)), order[..])
      && Lanes.Sliced(GraphOf(cb), order[..], start[..])
      && outId[..] == OutputIds(cb)
      && (!strategy.LevelWave? ==> Recycles(GraphOf(cb), slot[..], pool) && rank[..] == RanksOf(nodes[..]))
    }

    constructor (cb: nat, strategy: Strategy, nodes: array<NodeRecord>, order: array<nat>, start: array<nat>,
                 outId: array<nat>, slot: array<nat>, rank: array<int>, pool: nat)
      requires ChunkNodes(nodes[..], cb) && WellFormed(GraphOf(cb)) && nodes.Length == |GraphOf(cb)|
      requires strategy.Width() >= 1
      requires Buckets.Schedule(LevelsOf(GraphOf(cb)), order[..]) && Lanes.Sliced(GraphOf(cb), order[..], start[..])
      requires outId[..] == OutputIds(cb)
      requires !strategy.LevelWave? ==> Recycles(GraphOf(cb), slot[..], pool) && rank[..] == RanksOf(nodes[..])
      ensures Valid() && this.cb == cb && this.strategy == strategy && this.pool == pool
      ensures this.nodes == nodes && this.order == order && this.start == start && this.outId == outId
      ensures this.slot == slot && this.rank == rank
    {
      this.cb, this.strategy, this.nodes, this.order, this.start := cb, strategy, nodes, order, start;
      this.outId, this.slot, this.rank, this.pool := outId, slot, rank, pool;
    }

    /** Labels of transient scratch per chunk: the whole scaffold, or the recycled pool. */
    function RowSize(): nat {
      if strategy.LevelWave? then nodes.Length else pool
    }

    /** The machine the lanes of one chunk run. */
    ghost function Machine(session: Session): Kernel.Topology
      requires Valid()
      reads nodes, order, start, outId, slot, rank
    {
      Recycled(session, nodes[..], cb, slot[..], pool)
    }

    /** One thread labels one chunk into its row of the persisted buffer, on its row of the scratch buffer. */
    method LabelChunk(p: Primitives, seed: Label, scratch: array<Label>, sbase: nat, persist: array<Label>, pbase: nat)
      requires Valid() && !strategy.LevelWave?
      requires scratch != persist && sbase + pool <= scratch.Length && pbase + cb <= persist.Length
      modifies scratch, persist
      ensures Valid()
      ensures cb >= 1 && persist[pbase..pbase + cb] == ChunkLabels(p, seed, cb)
      ensures forall k {:trigger persist[k]} :: 0 <= k < persist.Length && !(pbase <= k < pbase + cb) ==>
                persist[k] == old(persist[k])
    {
      hide ChunkNodes;
      hide Recycles;
      hide Buckets.Schedule;
      hide GraphOf;
      hide OutputIds;
      hide LevelsOf;
      hide LastUsesOf;
      hide Labels;
      hide ChunkLabels;
      hide Kernel.Topology.Valid;
      assert cb >= 1 by { ChunkPositive(nodes[..], cb); }
      ghost var session := SessionOf(p, seed, cb);
      ghost var t := Machine(session);
      RecycledValid(session, nodes[..], cb, slot[..], pool);
      NodesDescribe(nodes[..], cb);
      LabelChunkThread(SessionOf(p, seed, cb), nodes, order, slot, rank, scratch, sbase, persist, pbase, t);
      ghost var out := persist[pbase..pbase + cb];
      forall r | 0 <= r < cb
        ensures out[r] == ChunkLabels(p, seed, cb)[r]
      {
        RecycledOutput(p, seed, cb, nodes[..], slot[..], pool, r);
        assert out[r] == persist[pbase + r];
      }
    }

    /** Batch after batch of `batch` chunks; chunk j's seed comes from its absolute block offset. */
    method Run(p: Primitives, sessionSeed: Label, numSuper: nat, off: nat, batch: nat, scratch: array<Label>,
               persist: array<Label>, ghost c: nat)
      requires Valid() && cb >= 1 && off == Offset(c, cb) && batch >= 1
      requires scratch != persist && Offset(batch, RowSize()) <= scratch.Length
      requires Offset(numSuper, cb) <= persist.Length
      modifies scratch, persist
      ensures Valid()
      ensures persist[..Offset(numSuper, cb)] == Region.RegionLabels(p, sessionSeed, cb, c, Offset(numSuper, cb))
      ensures forall k {:trigger persist[k]} :: Offset(numSuper, cb) <= k < persist.Length ==>
                persist[k] == old(persist[k])
    {
      hide Valid;
      hide Offset;
      hide Region.RegionLabels;
      RunStart(p, sessionSeed, cb, c);
      var base := 0;
      while base < numSuper
        invariant 0 <= base <= numSuper && Valid()
        invariant Offset(base, cb) <= Offset(numSuper, cb)
        invariant persist[..Offset(base, cb)] == Region.RegionLabels(p, sessionSeed, cb, c, Offset(base, cb))
        invariant forall k {:trigger persist[k]} :: Offset(numSuper, cb) <= k < persist.Length ==>
                  persist[k] == old(persist[k])
      {
        var bc := if numSuper - base < batch then numSuper - base else batch;
        ghost var before := persist[..];
        BatchFits(base, bc, numSuper, batch, cb, RowSize());
        var seeds := BatchSeeds(p, sessionSeed, base, bc, off, c);
        RunBatch(p, seeds, base, scratch, persist);
        assert persist[..Offset(base, cb)] == before[..Offset(base, cb)];
        RowsGrow(p, sessionSeed, cb, c, base, seeds, persist[..], bc);
        base := base + bc;
      }
    }

    /** Seeds of `bc` chunks from chunk `base` on. */
    method BatchSeeds(p: Primitives, sessionSeed: Label, base: nat, bc: nat, off: nat, ghost c: nat)
      returns (seeds: seq<Label>)
      requires cb >= 1 && off == Offset(c, cb)
      ensures |seeds| == bc && SeedsFrom(p, sessionSeed, c + base, seeds)
    {
      hide Offset;
      seeds := [];
      for w := 0 to bc
        invariant |seeds| == w && SeedsFrom(p, sessionSeed, c + base, seeds)
      {
        var j := base + w;
        ChunkIndex(off, Offset(j, cb), cb, c, j);
        var chunkIndex := (off + Offset(j, cb)) / cb;
        seeds := seeds + [p.chunkSeed(sessionSeed, chunkIndex)];
      }
    }

    /** One batch: chunk w is hashed with seed w into row base + w, by the compiled-in strategy. */
    method RunBatch(p: Primitives, seeds: seq<Label>, base: nat, scratch: array<Label>, persist: array<Label>)
      requires Valid() && cb >= 1 && |seeds| >= 1
      requires scratch != persist && Offset(|seeds|, RowSize()) <= scratch.Length
      requires Offset(base + |seeds|, cb) <= persist.Length
      modifies scratch, persist
      ensures Valid()
      ensures RowsHold(p, cb, base, seeds, persist[..])
      ensures forall k {:trigger persist[k]} ::
                0 <= k < persist.Length && !(Offset(base, cb) <= k < Offset(base + |seeds|, cb)) ==>
                persist[k] == old(persist[k])
    {
      hide Valid;
      match strategy
      case ThreadPerChunk => RunThreads(p, seeds, base, scratch, persist);
      case WarpPerChunk => RunTeams(p, seeds, base, scratch, persist);
      case BlockPerChunk => RunTeams(p, seeds, base, scratch, persist);
      case LevelWave(_) => RunWaveOfLevels(p, seeds, base, scratch, persist);
    }

    /** One thread per chunk: a team of one lane, which waits for nobody at a barrier. */
    method RunThreads(p: Primitives, seeds: seq<Label>, base: nat, scratch: array<Label>, persist: array<Label>)
      requires Valid() && cb >= 1 && strategy.ThreadPerChunk? && |seeds| >= 1
      requires scratch != persist && Offset(|seeds|, pool) <= scratch.Length
      requires Offset(base + |seeds|, cb) <= persist.Length
      modifies scratch, persist
      ensures Valid()
      ensures RowsHold(p, cb, base, seeds, persist[..])
      ensures forall k {:trigger persist[k]} ::
                0 <= k < persist.Length && !(Offset(base, cb) <= k < Offset(base + |seeds|, cb)) ==>
                persist[k] == old(persist[k])
    {
      RunTeams(p, seeds, base, scratch, persist);
    }

    /** One warp or block per chunk: its lanes share the nodes of every level, over the chunk's recycled slots. */
    method RunTeams(p: Primitives, seeds: seq<Label>, base: nat, scratch: array<Label>, persist: array<Label>)
      requires Valid() && cb >= 1 && !strategy.LevelWave? && |seeds| >= 1
      requires scratch != persist && Offset(|seeds|, pool) <= scratch.Length
      requires Offset(base + |seeds|, cb) <= persist.Length
      modifies scratch, persist
      ensures Valid()
      ensures RowsHold(p, cb, base, seeds, persist[..])
      ensures forall k {:trigger persist[k]} ::
                0 <= k < persist.Length && !(Offset(base, cb) <= k < Offset(base + |seeds|, cb)) ==>
                persist[k] == old(persist[k])
    {
      hide Offset;
      hide GraphOf;
      hide OutputIds;
      hide ChunkNodes;
      hide Recycles;
      hide Buckets.Schedule;
      hide Lanes.Sliced;
      hide Fit;
      hide LaunchRuns;
      hide RowsHold;
      hide Height;
      hide Recycled;
      ghost var l := TeamLaunch(p, seeds, nodes[..], cb, slot[..], pool, base);
      var sessions := SessionsOf(p, seeds, cb);
      TeamLaunchOk(l, p, seeds, nodes[..], cb, slot[..], pool, base, order[..], start[..]);
      ghost var work, before := scratch[..], persist[..];
      LaneWalk.BeforeFits(l, work, before);
      ghost var schedule, last :=
        LaneWalk.WalkLaunch(sessions, nodes[..], order[..], start[..], slot[..], rank[..], pool, cb, base,
                            false, strategy.Width(), scratch, persist, l);
      TeamsDone(l, p, seeds, nodes[..], slot[..], work, schedule, last, before);
    }

    /** The whole grid walks the levels of all chunks in a full work buffer; then the outputs are extracted. */
    method RunWaveOfLevels(p: Primitives, seeds: seq<Label>, base: nat, scratch: array<Label>, persist: array<Label>)
      requires Valid() && cb >= 1 && strategy.LevelWave? && |seeds| >= 1
      requires scratch != persist && Offset(|seeds|, nodes.Length) <= scratch.Length
      requires Offset(base + |seeds|, cb) <= persist.Length
      modifies scratch, persist
      ensures Valid()
      ensures RowsHold(p, cb, base, seeds, persist[..])
      ensures forall k {:trigger persist[k]} ::
                0 <= k < persist.Length && !(Offset(base, cb) <= k < Offset(base + |seeds|, cb)) ==>
                persist[k] == old(persist[k])
    {
      hide Offset;
      hide GraphOf;
      hide OutputIds;
      hide ChunkNodes;
      hide Buckets.Schedule;
      hide Lanes.Sliced;
      hide Fit;
      hide LaunchRuns;
      hide RowsHold;
      hide Height;
      hide Full;
      ghost var l := WaveLaunch(p, seeds, cb);
      var sessions := SessionsOf(p, seeds, cb);
      var n := nodes.Length;
      WaveLaunchOk(l, p, seeds, nodes[..], cb, order[..], start[..]);
      ghost var work, before := scratch[..], persist[..];
      LaneWalk.BeforeFits(l, work, before);
      ghost var schedule, last :=
        LaneWalk.WalkLaunch(sessions, nodes[..], order[..], start[..], Ids(0, n), seq(n, _ => -1), n, 0, 0,
                            true, strategy.Width(), scratch, persist, l);
      WaveLabelled(l, p, seeds, cb, work, before, schedule, last);
      assert persist[..] == before;
      ExtractWave(p, seeds, cb, persist, base, scratch, n, outId);
    }
  }

  lemma RankedNodes(ns: seq<NodeRecord>, m: nat)
    requires m >= 1 && Ascending(OutputIds(m), 0, |GraphOf(m)|) && Ranked(ns, GraphOf(m), OutputIds(m), m)
    ensures ChunkNodes(ns, m)
  {
  }

  lemma ChunkPositive(ns: seq<NodeRecord>, m: nat)
    requires ChunkNodes(ns, m)
    ensures m >= 1
  {
  }

  lemma NodesDescribe(ns: seq<NodeRecord>, m: nat)
    requires ChunkNodes(ns, m)
    ensures Describes(ns, GraphOf(m))
  {
    hide GraphOf;
    hide OutputIds;
    AscendingWithin(OutputIds(m), 0, |GraphOf(m)|);
  }

  lemma RunStart(p: Primitives, sessionSeed: Label, cb: nat, c: nat)
    requires cb >= 1
    ensures Offset(0, cb) == 0 && Region.RegionLabels(p, sessionSeed, cb, c, 0) == []
  {
  }

  /** One more whole chunk. */
  lemma RegionGrows(p: Primitives, sessionSeed: Label, cb: nat, c: nat, j: nat, region: seq<Label>)
    requires cb >= 1 && Offset(j, cb) + cb <= |region|
    requires region[..Offset(j, cb)] == Region.RegionLabels(p, sessionSeed, cb, c, Offset(j, cb))
    requires region[Offset(j, cb)..Offset(j, cb) + cb] == ChunkLabels(p, p.chunkSeed(sessionSeed, c + j), cb)
    ensures Offset(j + 1, cb) == Offset(j, cb) + cb
    ensures region[..Offset(j + 1, cb)] == Region.RegionLabels(p, sessionSeed, cb, c, Offset(j + 1, cb))
  {
    hide Offset;
    hide Region.RegionLabels;
    hide ChunkLabels;
    OffsetNext(j, cb);
    Region.RegionSplit(p, sessionSeed, cb, c, j, cb);
    Region.RegionOne(p, sessionSeed, cb, c + j, cb);
    assert region[..Offset(j, cb) + cb] == region[..Offset(j, cb)] + region[Offset(j, cb)..Offset(j, cb) + cb];
  }

  // ---------- rows of a batch ----------

  /** Seeds of consecutive chunks from chunk index `c` on. */
  ghost predicate SeedsFrom(p: Primitives, sessionSeed: Label, c: nat, seeds: seq<Label>) {
    forall w {:trigger seeds[w]} :: 0 <= w < |seeds| ==> seeds[w] == p.chunkSeed(sessionSeed, c + w)
  }

  /** Row base + w of the persisted buffer holds the chunk with seed w. */
  ghost predicate RowHolds(p: Primitives, cb: nat, base: nat, seeds: seq<Label>, persist: seq<Label>, w: nat)
    requires cb >= 1 && w < |seeds|
  {
    Offset(base + w, cb) + cb <= |persist|
      && persist[Offset(base + w, cb)..Offset(base + w, cb) + cb] == ChunkLabels(p, seeds[w], cb)
  }

  ghost predicate RowsHold(p: Primitives, cb: nat, base: nat, seeds: seq<Label>, persist: seq<Label>)
    requires cb >= 1
  {
    forall w: nat {:trigger RowHolds(p, cb, base, seeds, persist, w)} :: w < |seeds| ==>
      RowHolds(p, cb, base, seeds, persist, w)
  }

  lemma RowInBatch(base: nat, w: nat, n: nat, size: nat)
    requires w < n
    ensures Offset(base, size) <= Offset(base + w, size) && Offset(base + w, size) + size <= Offset(base + n, size)
  {
    OffsetMonotone(base + w, base + n, size);
    OffsetSum(base, w, size);
  }

  lemma BatchFits(base: nat, bc: nat, numSuper: nat, batch: nat, cb: nat, row: nat)
    requires base + bc <= numSuper && bc <= batch
    ensures Offset(base, cb) <= Offset(base + bc, cb) <= Offset(numSuper, cb) && Offset(bc, row) <= Offset(batch, row)
  {
    OffsetSum(base, bc, cb);
    OffsetSum(base + bc, numSuper - base - bc, cb);
    OffsetSum(bc, batch - bc, row);
  }

  /** A batch of labelled rows extends the labelled region. */
  lemma {:induction false} RowsGrow(p: Primitives, sessionSeed: Label, cb: nat, c: nat, base: nat, seeds: seq<Label>,
                                    region: seq<Label>, n: nat)
    requires cb >= 1 && n <= |seeds| && SeedsFrom(p, sessionSeed, c + base, seeds)
    requires RowsHold(p, cb, base, seeds, region)
    requires Offset(base, cb) <= |region|
    requires region[..Offset(base, cb)] == Region.RegionLabels(p, sessionSeed, cb, c, Offset(base, cb))
    ensures Offset(base + n, cb) <= |region|
    ensures region[..Offset(base + n, cb)] == Region.RegionLabels(p, sessionSeed, cb, c, Offset(base + n, cb))
    decreases n
  {
    hide Offset;
    hide ChunkLabels;
    hide Region.RegionLabels;
    if n > 0 {
      RowsGrow(p, sessionSeed, cb, c, base, seeds, region, n - 1);
      assert RowHolds(p, cb, base, seeds, region, n - 1);
      assert seeds[n - 1] == p.chunkSeed(sessionSeed, c + base + (n - 1));
      RegionGrows(p, sessionSeed, cb, c, base + n - 1, region);
    }
  }

  // ---------- warp and block launches ----------

  /** Launch of a batch: chunk w is hashed with seed w. */
  ghost predicate BatchOf(l: Launch, p: Primitives, seeds: seq<Label>, nodes: seq<NodeRecord>, slot: seq<nat>) {
    && WellFormed(GraphOf(l.m)) && l.m >= 1 && |seeds| == |l.chunks|
    && forall w {:trigger l.chunks[w]} :: 0 <= w < |l.chunks| ==>
      l.chunks[w] == Recycled(SessionOf(p, seeds[w], l.m), nodes, l.m, slot, l.pool)
  }

  /** All lanes of all chunks interleaved at will: every chunk's row ends up with its labels, each rank
      counted one store, and no other row of the persisted buffer changes. */
  lemma LaunchLabels(l: Launch, p: Primitives, seeds: seq<Label>, nodes: seq<NodeRecord>, slot: seq<nat>,
                     f: Memory, schedule: seq<(nat, Kernel.Step)>, last: Memory, w: nat)
    requires BatchOf(l, p, seeds, nodes, slot) && ChunkNodes(nodes, l.m) && Recycles(GraphOf(l.m), slot, l.pool)
    requires Fit(l, f) && LaunchRuns(l, f, schedule, last) && w < |l.chunks|
    requires Kernel.Initial(l.chunks[w], View(l, f, w))
    requires Fit(l, last) ==> View(l, last, w).level == Height(GraphOf(l.m))
    ensures Fit(l, last) && SameOutside(l, f, last)
    ensures View(l, last, w).persist == ChunkLabels(p, seeds[w], l.m)
    ensures View(l, last, w).written == seq(l.m, _ => 1)
  {
    hide GraphOf;
    hide Fit;
    hide View;
    hide Kernel.Initial;
    hide Kernel.Runs;
    hide LaunchRuns;
    hide Recycles;
    hide ChunkNodes;
    hide ChunkLabels;
    hide SameOutside;
    hide Height;
    hide Recycled;
    ChunkRunsAlone(l, f, schedule, last, w);
    LaunchOutside(l, f, schedule, last);
    BatchAt(l, p, seeds, nodes, slot, w);
    RecycledGraph(SessionOf(p, seeds[w], l.m), nodes, l.m, slot, l.pool);
    RecycledLabels(p, seeds[w], l.m, nodes, slot, l.pool, View(l, f, w), Project(schedule, w), View(l, last, w));
  }

  lemma BatchSize(l: Launch, p: Primitives, seeds: seq<Label>, nodes: seq<NodeRecord>, slot: seq<nat>)
    requires BatchOf(l, p, seeds, nodes, slot)
    ensures |seeds| == |l.chunks| && WellFormed(GraphOf(l.m)) && l.m >= 1
  {
  }

  lemma BatchAt(l: Launch, p: Primitives, seeds: seq<Label>, nodes: seq<NodeRecord>, slot: seq<nat>, w: nat)
    requires BatchOf(l, p, seeds, nodes, slot) && w < |l.chunks|
    ensures l.chunks[w] == Recycled(SessionOf(p, seeds[w], l.m), nodes, l.m, slot, l.pool)
  {
  }

  lemma RecycledGraph(session: Session, nodes: seq<NodeRecord>, m: nat, slot: seq<nat>, pool: nat)
    requires WellFormed(GraphOf(m)) && m >= 1
    ensures Recycled(session, nodes, m, slot, pool).g == GraphOf(m)
  {
  }

  function SessionsOf(p: Primitives, seeds: seq<Label>, cb: nat): (sessions: seq<Session>)
    ensures |sessions| == |seeds|
    ensures forall w {:trigger sessions[w]} :: 0 <= w < |seeds| ==> sessions[w] == SessionOf(p, seeds[w], cb)
  {
    seq(|seeds|, w requires 0 <= w < |seeds| => SessionOf(p, seeds[w], cb))
  }

  /** A batch of warps or blocks: chunk w on scratch row w and persisted row base + w. */
  ghost function TeamLaunch(p: Primitives, seeds: seq<Label>, nodes: seq<NodeRecord>, cb: nat, slot: seq<nat>,
                            pool: nat, base: nat): (l: Launch)
    requires WellFormed(GraphOf(cb)) && cb >= 1
    ensures |l.chunks| == |seeds| && l.base == base && l.pool == pool && l.m == cb
    ensures BatchOf(l, p, seeds, nodes, slot)
  {
    hide GraphOf;
    hide Recycled;
    Launch(seq(|seeds|, w requires 0 <= w < |seeds| => Recycled(SessionOf(p, seeds[w], cb), nodes, cb, slot, pool)),
           base, pool, cb)
  }

  lemma RecycledFacts(session: Session, nodes: seq<NodeRecord>, m: nat, slot: seq<nat>, pool: nat)
    requires ChunkNodes(nodes, m) && WellFormed(GraphOf(m)) && Recycles(GraphOf(m), slot, pool)
    ensures var t := Recycled(session, nodes, m, slot, pool);
            && t.Valid() && t.g == GraphOf(m) && t.session == session && t.slot == slot && t.rank == RanksOf(nodes)
            && t.pool == pool && |t.outputs| == m && Describes(nodes, t.g)
  {
    RecycledValid(session, nodes, m, slot, pool);
    NodesDescribe(nodes, m);
  }

  lemma TeamLaunchOk(l: Launch, p: Primitives, seeds: seq<Label>, nodes: seq<NodeRecord>, cb: nat, slot: seq<nat>,
                     pool: nat, base: nat, order: seq<nat>, start: seq<nat>)
    requires ChunkNodes(nodes, cb) && WellFormed(GraphOf(cb)) && Recycles(GraphOf(cb), slot, pool) && cb >= 1
    requires l == TeamLaunch(p, seeds, nodes, cb, slot, pool, base) && Lanes.Sliced(GraphOf(cb), order, start)
    ensures l.Valid() && LaneWalk.Uploaded(l, SessionsOf(p, seeds, cb), nodes, slot, RanksOf(nodes))
    ensures LaneWalk.Rising(start, order)
    ensures forall w: nat {:trigger l.chunks[w]} :: w < |l.chunks| ==> Lanes.Sliced(l.chunks[w].g, order, start)
  {
    hide GraphOf;
    hide ChunkNodes;
    hide Recycles;
    hide Lanes.Sliced;
    hide Recycled;
    hide Kernel.Topology.Valid;
    hide TeamLaunch;
    hide Describes;
    LaneWalk.SlicedRising(GraphOf(cb), order, start);
    forall w {:trigger l.chunks[w]} | 0 <= w < |l.chunks|
      ensures l.chunks[w].Valid() && l.chunks[w].g == GraphOf(cb) && l.chunks[w].session == SessionOf(p, seeds[w], cb)
      ensures l.chunks[w].slot == slot && l.chunks[w].rank == RanksOf(nodes) && l.chunks[w].pool == pool
      ensures |l.chunks[w].outputs| == cb
      ensures Describes(nodes, l.chunks[w].g)
    {
      RecycledFacts(SessionOf(p, seeds[w], cb), nodes, cb, slot, pool);
    }
  }

  /** What a finished batch of warps or blocks leaves behind. */
  lemma TeamsDone(l: Launch, p: Primitives, seeds: seq<Label>, nodes: seq<NodeRecord>, slot: seq<nat>,
                  scratch: seq<Label>, schedule: seq<(nat, Kernel.Step)>, last: Memory, before: seq<Label>)
    requires BatchOf(l, p, seeds, nodes, slot) && ChunkNodes(nodes, l.m) && Recycles(GraphOf(l.m), slot, l.pool)
    requires Fit(l, LaneWalk.Before(l, scratch, before))
    requires LaunchRuns(l, LaneWalk.Before(l, scratch, before), schedule, last) && Fit(l, last)
    requires forall w: nat {:trigger LaneWalk.EndedAt(l, last, w)} :: w < |l.chunks| ==> LaneWalk.EndedAt(l, last, w)
    ensures |last.persist| == |before| && RowsHold(p, l.m, l.base, seeds, last.persist)
    ensures forall k {:trigger last.persist[k]} ::
              0 <= k < |before| && !(Offset(l.base, l.m) <= k < Offset(l.base + |seeds|, l.m)) ==>
              last.persist[k] == before[k]
  {
    hide Offset;
    hide GraphOf;
    hide ChunkNodes;
    hide Recycles;
    hide Fit;
    hide LaunchRuns;
    hide Height;
    hide ChunkLabels;
    hide View;
    hide LaneWalk.Before;
    hide RowHolds;
    hide LaneWalk.EndedAt;
    var f := LaneWalk.Before(l, scratch, before);
    LaunchOutside(l, f, schedule, last);
    LaneWalk.BeforePersist(l, scratch, before);
    forall w: nat | w < |seeds|
      ensures RowHolds(p, l.m, l.base, seeds, last.persist, w)
    {
      TeamRowDone(l, p, seeds, nodes, slot, scratch, schedule, last, before, w);
    }
  }

  lemma TeamRowDone(l: Launch, p: Primitives, seeds: seq<Label>, nodes: seq<NodeRecord>, slot: seq<nat>,
                    scratch: seq<Label>, schedule: seq<(nat, Kernel.Step)>, last: Memory, before: seq<Label>, w: nat)
    requires BatchOf(l, p, seeds, nodes, slot) && ChunkNodes(nodes, l.m) && Recycles(GraphOf(l.m), slot, l.pool)
    requires Fit(l, LaneWalk.Before(l, scratch, before))
    requires LaunchRuns(l, LaneWalk.Before(l, scratch, before), schedule, last) && Fit(l, last)
    requires LaneWalk.EndedAt(l, last, w)
    ensures w < |seeds| && RowHolds(p, l.m, l.base, seeds, last.persist, w)
  {
    hide Offset;
    hide GraphOf;
    hide ChunkNodes;
    hide Recycles;
    hide Fit;
    hide LaunchRuns;
    hide Height;
    hide ChunkLabels;
    hide View;
    hide LaneWalk.Before;
    hide SameOutside;
    hide WellFormed;
    hide Recycled;
    hide BatchOf;
    hide Kernel.Initial;
    BatchSize(l, p, seeds, nodes, slot);
    LaneWalk.BeforeInitial(l, scratch, before, w);
    LaneWalk.ViewFacts(l, last, w);
    BatchAt(l, p, seeds, nodes, slot, w);
    RecycledGraph(SessionOf(p, seeds[w], l.m), nodes, l.m, slot, l.pool);
    LaunchLabels(l, p, seeds, nodes, slot, LaneWalk.Before(l, scratch, before), schedule, last, w);
    PersistedRow(l, last, w);
  }

  lemma PersistedRow(l: Launch, f: Memory, w: nat)
    requires Fit(l, f) && w < |l.chunks|
    ensures Offset(l.base + w, l.m) + l.m <= |f.persist|
    ensures View(l, f, w).persist == f.persist[Offset(l.base + w, l.m)..Offset(l.base + w, l.m) + l.m]
  {
    Launches.RowFits(l, f, w);
  }

  // ---------- level waves ----------

  /** A wave of full scaffolds: chunk w in work row w, nothing persisted on the way. */
  ghost function WaveLaunch(p: Primitives, seeds: seq<Label>, cb: nat): (l: Launch)
    requires WellFormed(GraphOf(cb))
    ensures |l.chunks| == |seeds| && l.base == 0 && l.pool == |GraphOf(cb)| && l.m == 0
    ensures forall w {:trigger l.chunks[w]} :: 0 <= w < |seeds| ==> l.chunks[w] == Full(SessionOf(p, seeds[w], cb), cb)
  {
    hide GraphOf;
    hide Full;
    Launch(seq(|seeds|, w requires 0 <= w < |seeds| => Full(SessionOf(p, seeds[w], cb), cb)), 0, |GraphOf(cb)|, 0)
  }

  lemma FullFacts(session: Session, m: nat)
    requires WellFormed(GraphOf(m))
    ensures var t := Full(session, m);
            && t.Valid() && t.g == GraphOf(m) && t.session == session && t.slot == Ids(0, |GraphOf(m)|)
            && t.rank == seq(|GraphOf(m)|, _ => -1) && t.pool == |GraphOf(m)| && t.outputs == []
  {
    hide GraphOf;
    FullValid(session, m);
  }

  lemma WaveLaunchOk(l: Launch, p: Primitives, seeds: seq<Label>, nodes: seq<NodeRecord>, cb: nat, order: seq<nat>,
                     start: seq<nat>)
    requires ChunkNodes(nodes, cb) && WellFormed(GraphOf(cb)) && |nodes| == |GraphOf(cb)| && cb >= 1
    requires l == WaveLaunch(p, seeds, cb) && Lanes.Sliced(GraphOf(cb), order, start)
    ensures l.Valid() && LaneWalk.Rising(start, order)
    ensures LaneWalk.Uploaded(l, SessionsOf(p, seeds, cb), nodes, Ids(0, |nodes|), seq(|nodes|, _ => -1))
    ensures forall w: nat {:trigger l.chunks[w]} :: w < |l.chunks| ==> Lanes.Sliced(l.chunks[w].g, order, start)
    ensures Offset(|l.chunks|, 0) == 0
  {
    hide GraphOf;
    hide ChunkNodes;
    hide Lanes.Sliced;
    hide Full;
    hide Kernel.Topology.Valid;
    hide WaveLaunch;
    hide Describes;
    LaneWalk.SlicedRising(GraphOf(cb), order, start);
    NodesDescribe(nodes, cb);
    forall w {:trigger l.chunks[w]} | 0 <= w < |l.chunks|
      ensures l.chunks[w].Valid() && l.chunks[w].g == GraphOf(cb) && l.chunks[w].session == SessionOf(p, seeds[w], cb)
      ensures l.chunks[w].slot == Ids(0, |nodes|) && l.chunks[w].rank == seq(|nodes|, _ => -1)
      ensures l.chunks[w].pool == |nodes| && l.chunks[w].outputs == []
    {
      FullFacts(SessionOf(p, seeds[w], cb), cb);
    }
  }

  /** Work row w holds the whole labelling of the chunk with seed w. */
  ghost predicate WorkRow(p: Primitives, seeds: seq<Label>, cb: nat, work: seq<Label>, w: nat)
    requires WellFormed(GraphOf(cb)) && w < |seeds|
  {
    var n := |GraphOf(cb)|;
    Offset(w, n) + n <= |work|
      && work[Offset(w, n)..Offset(w, n) + n] == Labels(SessionOf(p, seeds[w], cb), GraphOf(cb))
  }

  /** After a finished wave every work row holds its chunk's whole labelling, and nothing has been persisted. */
  lemma WaveLabelled(l: Launch, p: Primitives, seeds: seq<Label>, cb: nat, scratch: seq<Label>, before: seq<Label>,
                     schedule: seq<(nat, Kernel.Step)>, last: Memory)
    requires WellFormed(GraphOf(cb)) && cb >= 1 && l == WaveLaunch(p, seeds, cb)
    requires Fit(l, LaneWalk.Before(l, scratch, before))
    requires LaunchRuns(l, LaneWalk.Before(l, scratch, before), schedule, last) && Fit(l, last)
    requires forall w: nat {:trigger LaneWalk.EndedAt(l, last, w)} :: w < |l.chunks| ==> LaneWalk.EndedAt(l, last, w)
    ensures last.persist == before
    ensures forall w: nat {:trigger WorkRow(p, seeds, cb, last.scratch, w)} :: w < |seeds| ==>
              WorkRow(p, seeds, cb, last.scratch, w)
  {
    hide GraphOf;
    hide Fit;
    hide LaunchRuns;
    hide Height;
    hide Labels;
    hide View;
    hide Full;
    hide WaveLaunch;
    var f := LaneWalk.Before(l, scratch, before);
    LaunchOutside(l, f, schedule, last);
    assert Offset(l.base, l.m) == Offset(l.base + |l.chunks|, l.m) == 0;
    hide Offset;
    forall w: nat | w < |seeds|
      ensures WorkRow(p, seeds, cb, last.scratch, w)
    {
      assert LaneWalk.EndedAt(l, last, w);
      FullFacts(SessionOf(p, seeds[w], cb), cb);
      LaneWalk.BeforeInitial(l, scratch, before, w);
      LaneWalk.ViewFacts(l, last, w);
      ChunkRunsAlone(l, f, schedule, last, w);
      FullLabels(p, seeds[w], cb, View(l, f, w), Project(schedule, w), View(l, last, w));
      ScratchRow(l, last, w);
    }
  }

  lemma ScratchRow(l: Launch, f: Memory, w: nat)
    requires Fit(l, f) && w < |l.chunks|
    ensures Offset(w, l.pool) + l.pool <= |f.scratch|
    ensures View(l, f, w).scratch == f.scratch[Offset(w, l.pool)..Offset(w, l.pool) + l.pool]
  {
    Launches.RowFits(l, f, w);
  }

  /** Block `tid` of the batch is rank tid mod cb of chunk tid div cb. */
  ghost predicate Extracted(p: Primitives, seeds: seq<Label>, cb: nat, base: nat, persist: seq<Label>, tid: nat)
    requires cb >= 1
  {
    tid / cb < |seeds| && Offset(base, cb) + tid < |persist|
    && persist[Offset(base, cb) + tid] == ChunkLabels(p, seeds[tid / cb], cb)[tid % cb]
  }

  lemma ThreadOf(tid: nat, cb: nat, n: nat, base: nat)
    requires cb >= 1 && tid < Offset(n, cb)
    ensures tid / cb < n && tid == Offset(tid / cb, cb) + tid % cb
    ensures Offset(base + tid / cb, cb) + tid % cb == Offset(base, cb) + tid
    ensures Offset(base, cb) + tid < Offset(base + n, cb)
  {
    var j, x := Lanes.PositionOf(tid, cb, n);
    OffsetSum(base, j, cb);
    OffsetSum(base, n, cb);
  }

  /** The label a thread of the extraction pass copies. */
  lemma CopiedLabel(p: Primitives, seeds: seq<Label>, cb: nat, work: seq<Label>, outId: seq<nat>, w: nat, r: nat)
    requires WellFormed(GraphOf(cb)) && cb >= 1 && w < |seeds| && r < cb && outId == OutputIds(cb)
    requires WorkRow(p, seeds, cb, work, w)
    ensures Offset(w, |GraphOf(cb)|) + outId[r] < |work|
    ensures work[Offset(w, |GraphOf(cb)|) + outId[r]] == ChunkLabels(p, seeds[w], cb)[r]
  {
    hide Offset;
    hide GraphOf;
    hide OutputIds;
    hide Labels;
    hide ChunkLabels;
    ChunkLabelAt(p, seeds[w], cb, r);
    var n, lo := |GraphOf(cb)|, Offset(w, |GraphOf(cb)|);
    assert work[lo..lo + n][outId[r]] == work[lo + outId[r]];
  }

  /** The extraction pass: one thread per output label, in any order. */
  method ExtractWave(p: Primitives, seeds: seq<Label>, cb: nat, persist: array<Label>, base: nat, work: array<Label>,
                     n: nat, outId: array<nat>)
    requires persist != work && cb >= 1 && WellFormed(GraphOf(cb)) && n == |GraphOf(cb)| && outId[..] == OutputIds(cb)
    requires Offset(base + |seeds|, cb) <= persist.Length
    requires forall w: nat {:trigger WorkRow(p, seeds, cb, work[..], w)} :: w < |seeds| ==>
              WorkRow(p, seeds, cb, work[..], w)
    modifies persist
    ensures RowsHold(p, cb, base, seeds, persist[..])
    ensures forall k {:trigger persist[k]} ::
              0 <= k < persist.Length && !(Offset(base, cb) <= k < Offset(base + |seeds|, cb)) ==>
              persist[k] == old(persist[k])
  {
    hide Offset;
    hide GraphOf;
    hide OutputIds;
    hide WorkRow;
    hide ChunkLabels;
    hide Extracted;
    hide WellFormed;
    hide RowsHold;
    var total := Offset(|seeds|, cb);
    var pending := SlotPool.Range(total);
    SlotPool.RangeSize(total);
    while pending != {}
      invariant forall tid :: tid in pending ==> tid < total
      invariant forall tid: nat {:trigger Extracted(p, seeds, cb, base, persist[..], tid)} ::
                tid < total && tid !in pending ==>
                  Extracted(p, seeds, cb, base, persist[..], tid)
      invariant forall k {:trigger persist[k]} ::
                0 <= k < persist.Length && !(Offset(base, cb) <= k < Offset(base + |seeds|, cb)) ==>
                  persist[k] == old(persist[k])
      decreases pending
    {
      var tid :| tid in pending;
      ThreadOf(tid, cb, |seeds|, base);
      var rank, w := tid % cb, tid / cb;
      ghost var before := persist[..];
      assert WorkRow(p, seeds, cb, work[..], w);
      CopiedLabel(p, seeds, cb, work[..], outId[..], w, rank);
      persist[Offset(base + w, cb) + rank] := work[Offset(w, n) + outId[rank]];
      ExtractedStep(p, seeds, cb, base, before, persist[..], tid);
      pending := pending - {tid};
    }
    AllExtracted(p, seeds, cb, base, persist[..]);
  }

  lemma ExtractedStep(p: Primitives, seeds: seq<Label>, cb: nat, base: nat, before: seq<Label>, after: seq<Label>,
                      tid: nat)
    requires cb >= 1 && Offset(base, cb) + tid < |before| && tid / cb < |seeds|
    requires after == before[Offset(base, cb) + tid := ChunkLabels(p, seeds[tid / cb], cb)[tid % cb]]
    ensures Extracted(p, seeds, cb, base, after, tid)
    ensures forall k: nat {:trigger Extracted(p, seeds, cb, base, after, k)} ::
              Extracted(p, seeds, cb, base, before, k) ==> Extracted(p, seeds, cb, base, after, k)
  {
    hide Offset;
    hide ChunkLabels;
  }

  lemma AllExtracted(p: Primitives, seeds: seq<Label>, cb: nat, base: nat, persist: seq<Label>)
    requires cb >= 1 && Offset(base + |seeds|, cb) <= |persist|
    requires forall tid: nat {:trigger Extracted(p, seeds, cb, base, persist, tid)} :: tid < Offset(|seeds|, cb) ==>
               Extracted(p, seeds, cb, base, persist, tid)
    ensures RowsHold(p, cb, base, seeds, persist)
  {
    hide Offset;
    hide ChunkLabels;
    forall w: nat | w < |seeds|
      ensures RowHolds(p, cb, base, seeds, persist, w)
    {
      RowInBatch(base, w, |seeds|, cb);
      var lo := Offset(base + w, cb);
      forall r | 0 <= r < cb
        ensures persist[lo..lo + cb][r] == ChunkLabels(p, seeds[w], cb)[r]
      {
        OffsetMonotone(w, |seeds|, cb);
        OffsetSum(base, w, cb);
        OffsetDivides(w, cb, r);
        assert Extracted(p, seeds, cb, base, persist, Offset(w, cb) + r);
      }
    }
  }

  // ---------- building the topology ----------

  /** The level-sorted order and where each level starts in it. */
  method LevelOrder(nodes: array<NodeRecord>, cb: nat) returns (start: array<nat>, order: array<nat>)
    requires ChunkNodes(nodes[..], cb) && WellFormed(GraphOf(cb))
    ensures fresh(start) && fresh(order)
    ensures Buckets.Schedule(LevelsOf(GraphOf(cb)), order[..]) && Lanes.Sliced(GraphOf(cb), order[..], start[..])
  {
    hide GraphOf;
    hide ChunkNodes;
    hide Buckets.Sorted;
    hide Buckets.Schedule;
    hide Describes;
    hide Lanes.Sliced;
    ghost var g := GraphOf(cb);
    NodesDescribe(nodes[..], cb);
    var level, maxLevel := ComputeLevels(nodes, g);
    var levels := maxLevel + 1;
    LevelsBelow(g);
    KeysBelow(level, levels);
    start, order := Buckets.CountingSort(level, levels);
    Buckets.SortedSchedule(level[..], levels, start[..], order[..]);
    Lanes.SortedSliced(g, order[..], start[..]);
  }

  /** The slot map of a per-chunk strategy. */
  method BuildSlots(cb: nat, count: nat) returns (slot: array<nat>, pool: nat)
    requires 1 <= cb <= MAX_M && WellFormed(GraphOf(cb)) && count == |GraphOf(cb)|
    ensures fresh(slot) && Recycles(GraphOf(cb), slot[..], pool) && pool == 4 * Bits.Pow2(ParamN(cb))
  {
    hide GraphOf;
    hide Recycles;
    hide SlotPool.IsPeak;
    hide WellFormed;
    slot := new nat[count];
    var poolSize := new nat[1];
    var rc := ChunkSlots.SlotMapOf(cb, slot, poolSize);
    pool := poolSize[0];
  }

  /** Edges, levels, level-sorted order and rank maps of one chunk size, and slots where the strategy recycles them. */
  method BuildTopology(chunkBlocks: nat, algo: NodeHashing.Algorithm, strategy: Strategy) returns (t: DeviceTopology?)
    requires strategy.Width() >= 1
    ensures var cb := if chunkBlocks == 0 then 4096 else chunkBlocks;
            && (t == null <==> !algo.Blake3? || cb > 0x10_0000)
            && (t != null ==>
                  fresh(t) && t.Valid() && t.cb == cb && t.strategy == strategy
                  && t.pool == if strategy.LevelWave? then 0 else 4 * Bits.Pow2(ParamN(cb)))
  {
    hide GraphOf;
    hide Ranked;
    hide Recycles;
    hide SlotPool.IsPeak;
    hide Ascending;
    hide Buckets.Sorted;
    hide Buckets.Schedule;
    hide OutputIds;
    hide Describes;
    hide Lanes.Sliced;
    t := null;
    if !algo.Blake3? {
      return;
    }
    var cb := ChunkSlots.ResolveChunkBlocks(chunkBlocks);
    GraphWellFormed(cb);
    if cb > 0xFFFF_FFFF {
      return;
    }
    var rc, nodes, count := GraphEdges(cb);
    if rc != 0 {
      return;
    }
    Census.GraphFits(cb);
    if count == 0 || count > 0xFFFF_FFFF {
      return;
    }
    t := UploadTopology(cb, strategy, nodes);
  }

  /** Levels, level-sorted order and rank maps of recorded nodes, and slots where the strategy recycles them. */
  method UploadTopology(cb: nat, strategy: Strategy, nodes: array<NodeRecord>) returns (t: DeviceTopology)
    requires strategy.Width() >= 1 && 1 <= cb <= MAX_M && WellFormed(GraphOf(cb))
    requires ChunkNodes(nodes[..], cb) && nodes.Length == |GraphOf(cb)|
    ensures fresh(t) && t.Valid() && t.cb == cb && t.strategy == strategy
    ensures t.pool == if strategy.LevelWave? then 0 else 4 * Bits.Pow2(ParamN(cb))
  {
    hide GraphOf;
    hide Ranked;
    hide Recycles;
    hide SlotPool.IsPeak;
    hide Ascending;
    hide Buckets.Sorted;
    hide Buckets.Schedule;
    hide OutputIds;
    hide Describes;
    hide Lanes.Sliced;
    RankedNodes(nodes[..], cb);
    hide ChunkNodes;
    hide WellFormed;
    hide Chunk.ScratchNodes;
    var start, order := LevelOrder(nodes, cb);
    var rank, outId := RankMaps(nodes, cb);
    if strategy.LevelWave? {
      var noSlots, noRanks := new nat[0], new int[0];
      t := new DeviceTopology(cb, strategy, nodes, order, start, outId, noSlots, noRanks, 0);
      return;
    }
    var slot, pool := BuildSlots(cb, nodes.Length);
    t := new DeviceTopology(cb, strategy, nodes, order, start, outId, slot, rank, pool);
  }

  lemma LevelsBelow(g: Graph)
    requires WellFormed(g)
    ensures forall id {:trigger LevelsOf(g)[id]} :: 0 <= id < |g| ==> LevelsOf(g)[id] < Height(g)
  {
    forall id | 0 <= id < |g|
      ensures LevelsOf(g)[id] < Height(g)
    {
      LevelBelowHeight(g, id);
    }
  }
}
