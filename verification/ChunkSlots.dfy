/** The slot map of one chunk. */
module ChunkSlots {
  import Bits
  import Dag
  import SlotPool
  import SlotMap
  import PoolBound
  import IdEmitter
  import Census
  import opened Chunk

  /** Chunk size used when the caller passes 0. */
  const CHUNK_BLOCKS: nat := 4096

  function ResolveChunkBlocks(chunkBlocks: nat): (cb: nat)
    ensures cb > 0
  {
    if chunkBlocks != 0 then chunkBlocks else CHUNK_BLOCKS
  }

  /** Recycled slots for the chunk's scaffold, as few as levels allow: four for every block of half the chunk. */
  ghost predicate IsSlotMap(cb: nat, slot: seq<nat>, pool: nat) {
    && Dag.WellFormed(GraphOf(cb)) && SlotMap.RangesOf(GraphOf(cb)).Valid()
    && SlotMap.Recycles(GraphOf(cb), slot, pool)
    && SlotPool.IsPeak(SlotMap.RangesOf(GraphOf(cb)), SlotMap.Height(GraphOf(cb)), pool)
    && pool == 4 * Bits.Pow2(ParamN(cb))
  }

  /** Slots for the scaffold of one chunk, and in `poolSize[0]` how many different ones there are. */
  method SlotMapOf(chunkBlocks: nat, slot: array?<nat>, poolSize: array?<nat>) returns (rc: int)
    requires var cb := if chunkBlocks == 0 then 4096 else chunkBlocks;
             slot != null && cb <= MAX_M ==> |GraphOf(cb)| <= slot.Length
    requires poolSize != null ==> poolSize.Length >= 1 && poolSize != slot
    modifies slot, poolSize
    ensures var cb := if chunkBlocks == 0 then 4096 else chunkBlocks;
            rc == (if slot != null && poolSize != null && cb <= 0x10_0000 then 0 else -1)
    ensures var cb := if chunkBlocks == 0 then 4096 else chunkBlocks;
            rc == 0 ==> IsSlotMap(cb, slot[..], poolSize[0])
    ensures rc != 0 && slot != null ==> slot[..] == old(slot[..])
    ensures rc != 0 && poolSize != null ==> poolSize[..] == old(poolSize[..])
  {
    rc := -1;
    var cb := ResolveChunkBlocks(chunkBlocks);
    if slot == null || poolSize == null {
      return;
    }
    if cb == 0 || cb > MAX_M {
      return;
    }
    rc := FillSlotMap(cb, slot, poolSize);
  }

  method FillSlotMap(cb: nat, slot: array<nat>, poolSize: array<nat>) returns (rc: int)
    requires 1 <= cb <= MAX_M && |GraphOf(cb)| <= slot.Length && poolSize.Length >= 1 && poolSize != slot
    modifies slot, poolSize
    ensures rc == 0 && IsSlotMap(cb, slot[..], poolSize[0])
  {
    hide GraphOf;
    hide Ranked;
    hide SlotMap.Recycles;
    hide SlotPool.IsPeak;
    hide Dag.WellFormed;
    hide Dag.Ascending;
    rc := -1;
    GraphWellFormed(cb);
    var status, nodes, count := GraphEdges(cb);
    if status != 0 {
      return;
    }
    Census.GraphFits(cb);
    if count == 0 || count > 0xFFFF_FFFF {
      return;
    }
    Dag.AscendingWithin(OutputIds(cb), 0, |GraphOf(cb)|);
    RankedDescribes(nodes[..], GraphOf(cb), OutputIds(cb), cb);
    var pool := SlotMap.FillSlots(nodes, GraphOf(cb), slot);
    PoolBound.PoolIsFourHalves(cb, pool);
    poolSize[0] := pool;
    rc := 0;
  }

  lemma RankedDescribes(nodes: seq<IdEmitter.NodeRecord>, g: Dag.Graph, ids: seq<nat>, done: nat)
    requires done <= |ids| && Dag.Within(ids, 0, |g|) && Ranked(nodes, g, ids, done)
    ensures SlotMap.Describes(nodes, g)
  {
  }
}
