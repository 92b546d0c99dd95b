/** A region of blocks as a row of chunks: what every labeler of it must write. */
module Region {
  import Bits
  import Offsets
  import Dag
  import Labelling
  import opened Chunk

  /** Blocks of a region of `total` blocks whose first chunk has index `c`. The last chunk may be short;
      a short chunk has a graph of its own. */
  function RegionLabels(p: Primitives, sessionSeed: Labelling.Label, cb: nat, c: nat,
                        total: nat): (ls: seq<Labelling.Label>)
    requires cb >= 1
    ensures |ls| == total
    decreases total
  {
    if total == 0 then []
    else
      var m := Bits.Min(cb, total);
      ChunkLabels(p, p.chunkSeed(sessionSeed, c), m) + RegionLabels(p, sessionSeed, cb, c + 1, total - m)
  }

  /** Labelling a region in two pieces cut at a chunk boundary is labelling it whole. */
  lemma {:induction false} RegionSplit(p: Primitives, sessionSeed: Labelling.Label, cb: nat, c: nat, k: nat, rest: nat)
    requires cb >= 1
    ensures RegionLabels(p, sessionSeed, cb, c, Offsets.Offset(k, cb) + rest)
         == RegionLabels(p, sessionSeed, cb, c, Offsets.Offset(k, cb)) + RegionLabels(p, sessionSeed, cb, c + k, rest)
    decreases k
  {
    hide ChunkLabels;
    hide Offsets.Offset;
    Offsets.OffsetNext(0, cb);
    if k > 0 {
      Offsets.OffsetNext(k - 1, cb);
      RegionSplit(p, sessionSeed, cb, c + 1, k - 1, rest);
    }
  }

  /** A region that fits one chunk. */
  lemma RegionOne(p: Primitives, sessionSeed: Labelling.Label, cb: nat, c: nat, m: nat)
    requires 1 <= m <= cb
    ensures RegionLabels(p, sessionSeed, cb, c, m) == ChunkLabels(p, p.chunkSeed(sessionSeed, c), m)
  {
    hide ChunkLabels;
    assert RegionLabels(p, sessionSeed, cb, c + 1, 0) == [];
  }

  /** Block `r` of chunk `k` is the label of rank `r` for seed index c + k; the chunk has `cb` blocks, or the rest. */
  lemma RegionAt(p: Primitives, sessionSeed: Labelling.Label, cb: nat, c: nat, total: nat, k: nat, r: nat)
    requires cb >= 1 && r < cb && Offsets.Offset(k, cb) + r < total
    ensures var m := Bits.Min(cb, total - Offsets.Offset(k, cb));
            RegionLabels(p, sessionSeed, cb, c, total)[Offsets.Offset(k, cb) + r]
              == ChunkLabels(p, p.chunkSeed(sessionSeed, c + k), m)[r]
  {
    hide ChunkLabels;
    hide Offsets.Offset;
    var rest := total - Offsets.Offset(k, cb);
    RegionSplit(p, sessionSeed, cb, c, k, rest);
    hide RegionLabels;
    FirstChunk(p, sessionSeed, cb, c + k, rest, r);
  }

  lemma FirstChunk(p: Primitives, sessionSeed: Labelling.Label, cb: nat, c: nat, total: nat, r: nat)
    requires cb >= 1 && r < cb && r < total
    ensures RegionLabels(p, sessionSeed, cb, c, total)[r]
              == ChunkLabels(p, p.chunkSeed(sessionSeed, c), Bits.Min(cb, total))[r]
  {
    hide ChunkLabels;
  }

  // ---------- buffer sizes ----------

  lemma {:induction false} BitLengthMonotone(a: nat, b: nat)
    requires a <= b
    ensures BitLength(a) <= BitLength(b)
    decreases b
  {
    if a > 0 {
      BitLengthMonotone(a / 2, b / 2);
    }
  }

  lemma ParamNMonotone(a: nat, b: nat)
    requires a <= b
    ensures ParamN(a) <= ParamN(b)
  {
    if a > 1 {
      BitLengthMonotone(a - 1, b - 1);
    }
  }

  lemma {:induction false} StandaloneCountMonotone(a: nat, b: nat)
    requires a <= b
    ensures Dag.StandaloneCount(a) <= Dag.StandaloneCount(b)
    decreases b
  {
    if a < b {
      StandaloneCountMonotone(a, b - 1);
    }
  }

  /** Buffers sized for a full chunk are large enough for any shorter one. */
  lemma ScratchMonotone(m: nat, cb: nat)
    requires m <= cb
    ensures ScratchNodes(m) <= ScratchNodes(cb) && ScratchWords(m) <= ScratchWords(cb)
    ensures ScratchSlots(m) <= ScratchSlots(cb)
  {
    ParamNMonotone(m, cb);
    StandaloneCountMonotone(ParamN(m) + 1, ParamN(cb) + 1);
    Bits.Pow2Monotone(ParamN(m), ParamN(cb));
  }
}
