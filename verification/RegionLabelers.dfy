/** The CPU labelers of a region: chunks in waves of up to four jobs. */
module RegionLabelers {
  import Bits
  import opened Offsets
  import opened Labelling
  import opened Chunk
  import ChunkSlots
  import opened Region

  /** Jobs per wave: the workers' and the caller's own. */
  const REGION_THREADS: nat := 4

  /** One job's private buffers. */
  datatype Scratch = Scratch(labels: array<Label>, mem: array<nat>)

  /** One chunk to label: its seed, size and place in the region. */
  datatype Job = Job(seed: Label, m: nat, dst: nat)

  /** Buffers that a region of `total` blocks uses: one per job of its longest wave. */
  function BuffersUsed(total: nat, cb: nat): nat
    requires cb >= 1
  {
    Bits.Min(REGION_THREADS, (total + cb - 1) / cb)
  }

  /** Four, or as many as there are chunks: the last chunk may be short but not empty. */
  lemma BuffersAre(total: nat, cb: nat, n: nat)
    requires cb >= 1
    ensures BuffersUsed(total, cb) == n
            <==> if total == 0 then n == 0 else 1 <= n <= 4 && (n - 1) * cb < total && (n == 4 || total <= n * cb)
  {
    hide Offset;
    var q := (total + cb - 1) / cb;
    Remainder(total + cb - 1, cb);
    OffsetNext(0, cb);
    if total >= 1 {
      DivideAtLeast(total + cb - 1, 1, cb);
      OffsetNext(q - 1, cb);
      if n >= 1 {
        ChunksUpTo(total, cb, q, n);
      }
    }
  }

  /** There are at least `n` chunks if and only if the last of them starts within the region. */
  lemma ChunksUpTo(total: nat, cb: nat, q: nat, n: nat)
    requires cb >= 1 && n >= 1 && q >= 1 && Offset(q - 1, cb) < total <= Offset(q, cb)
    ensures (n - 1) * cb < total <==> n <= q
    ensures total <= n * cb <==> q <= n
  {
    assert (n - 1) * cb == Offset(n - 1, cb) && n * cb == Offset(n, cb);
    hide Offset;
    if n < q {
      Increasing(n, q - 1, cb);
      Increasing(n - 1, q - 1, cb);
    } else if n > q {
      Increasing(q, n - 1, cb);
      Increasing(q, n, cb);
    }
  }

  lemma Increasing(a: nat, b: nat, cb: nat)
    requires a <= b
    ensures Offset(a, cb) <= Offset(b, cb)
  {
    if a < b {
      OffsetMonotone(a, b, cb);
    }
  }

  /** Each of `n` jobs has buffers of its own: large enough, apart from the region and from those of the others. */
  ghost predicate ScratchFor(scratch: seq<Scratch>, region: array<Label>, cb: nat, n: nat) {
    && |scratch| == REGION_THREADS
    && (forall i {:trigger scratch[i]} :: 0 <= i < |scratch| && i < n ==>
         scratch[i].labels.Length >= ScratchNodes(cb) && scratch[i].mem.Length >= ScratchWords(cb)
           && scratch[i].labels != region)
    && (forall i, j {:trigger scratch[i], scratch[j]} :: 0 <= i < j < |scratch| && j < n ==>
         scratch[i].labels != scratch[j].labels && scratch[i].mem != scratch[j].mem)
  }

  ghost function Buffers(scratch: seq<Scratch>): set<object> {
    (set s | s in scratch :: s.labels) + (set s | s in scratch :: s.mem)
  }

  /** Jobs follow each other in the region without overlap. */
  ghost predicate InOrder(jobs: seq<Job>, size: nat) {
    && (forall i {:trigger jobs[i]} :: 0 <= i < |jobs| ==> jobs[i].dst + jobs[i].m <= size)
    && (forall i, j {:trigger jobs[i], jobs[j]} :: 0 <= i < j < |jobs| ==> jobs[i].dst + jobs[i].m <= jobs[j].dst)
  }

  /** The job's blocks hold its chunk's labels, or its size was refused. */
  ghost predicate JobDone(p: Primitives, job: Job, rc: int, region: seq<Label>) {
    && rc == (if 1 <= job.m <= MAX_M then 0 else -1)
    && job.dst + job.m <= |region|
    && (rc == 0 ==> region[job.dst..job.dst + job.m] == ChunkLabels(p, job.seed, job.m))
  }

  ghost predicate InJob(jobs: seq<Job>, k: nat) {
    exists i {:trigger jobs[i]} :: 0 <= i < |jobs| && jobs[i].dst <= k < jobs[i].dst + jobs[i].m
  }

  /** Jobs of one wave, executed in any order. */
  method RunWave(p: Primitives, jobs: seq<Job>, region: array<Label>, scratch: seq<Scratch>, cb: nat)
    returns (rcs: seq<int>)
    requires |jobs| <= REGION_THREADS && ScratchFor(scratch, region, cb, |jobs|) && InOrder(jobs, region.Length)
    requires forall i {:trigger jobs[i]} :: 0 <= i < |jobs| ==> jobs[i].m <= cb
    modifies region, Buffers(scratch)
    ensures |rcs| == |jobs|
    ensures forall i {:trigger jobs[i]} :: 0 <= i < |jobs| ==> JobDone(p, jobs[i], rcs[i], region[..])
    ensures forall k: nat {:trigger region[k]} :: k < region.Length && !InJob(jobs, k) ==> region[k] == old(region[k])
  {
    hide ChunkLabels;
    hide ScratchNodes;
    hide ScratchWords;
    rcs := seq(|jobs|, _ => 0);
    var pending: set<nat> := set i: nat {:trigger jobs[i]} | i < |jobs|;
    while pending != {}
      invariant forall i :: i in pending ==> 0 <= i < |jobs|
      invariant |rcs| == |jobs|
      invariant forall i {:trigger jobs[i]} :: 0 <= i < |jobs| && i !in pending ==>
                JobDone(p, jobs[i], rcs[i], region[..])
      invariant forall k: nat {:trigger region[k]} :: k < region.Length && !InJob(jobs, k) ==>
                region[k] == old(region[k])
      decreases pending
    {
      var i :| i in pending;
      ghost var before := region[..];
      ScratchMonotone(jobs[i].m, cb);
      var rc := DoLabel(p, jobs[i].seed, jobs[i].m, region, jobs[i].dst, scratch[i].labels, scratch[i].mem);
      OthersDone(p, jobs, i, before, region[..], rcs);
      rcs := rcs[i := rc];
      pending := pending - {i};
    }
  }

  /** A job writes only its own blocks. */
  lemma OthersDone(p: Primitives, jobs: seq<Job>, i: nat, before: seq<Label>, after: seq<Label>, rcs: seq<int>)
    requires i < |jobs| && |rcs| == |jobs| && |before| == |after| && InOrder(jobs, |before|)
    requires forall k {:trigger after[k]} :: 0 <= k < |after| && !(jobs[i].dst <= k < jobs[i].dst + jobs[i].m) ==>
              after[k] == before[k]
    ensures forall j {:trigger jobs[j]} :: 0 <= j < |jobs| && j != i && JobDone(p, jobs[j], rcs[j], before) ==>
              JobDone(p, jobs[j], rcs[j], after)
  {
    hide ChunkLabels;
    forall j | 0 <= j < |jobs| && j != i && JobDone(p, jobs[j], rcs[j], before)
      ensures JobDone(p, jobs[j], rcs[j], after)
    {
      var lo, hi := jobs[j].dst, jobs[j].dst + jobs[j].m;
      assert hi <= jobs[i].dst || jobs[i].dst + jobs[i].m <= lo;
      assert after[lo..hi] == before[lo..hi];
    }
  }

  // ---------- waves ----------

  /** Job of chunk `k` of the region. */
  function ChunkJob(p: Primitives, sessionSeed: Label, cb: nat, c: nat, total: nat, k: nat): Job
    requires cb >= 1 && Offset(k, cb) <= total
  {
    Job(p.chunkSeed(sessionSeed, c + k), Bits.Min(cb, total - Offset(k, cb)), Offset(k, cb))
  }

  ghost predicate IsJob(p: Primitives, sessionSeed: Label, cb: nat, c: nat, total: nat, k: nat, job: Job)
    requires cb >= 1
  {
    Offset(k, cb) < total && job == ChunkJob(p, sessionSeed, cb, c, total, k)
  }

  /** The jobs are those of consecutive chunks from chunk `k` on, ending at block `block`. */
  ghost predicate IsWave(p: Primitives, sessionSeed: Label, cb: nat, c: nat, total: nat, k: nat, jobs: seq<Job>,
                         block: nat) {
    && cb >= 1
    && (forall i {:trigger jobs[i]} :: 0 <= i < |jobs| ==> IsJob(p, sessionSeed, cb, c, total, k + i, jobs[i]))
    && block == Bits.Min(total, Offset(k + |jobs|, cb))
  }

  method BuildWave(p: Primitives, sessionSeed: Label, off: nat, total: nat, cb: nat, block0: nat, ghost c: nat,
                   ghost k: nat)
    returns (jobs: seq<Job>, block: nat)
    requires cb >= 1 && off == Offset(c, cb) && block0 == Offset(k, cb) && block0 < total
    ensures 1 <= |jobs| <= REGION_THREADS && IsWave(p, sessionSeed, cb, c, total, k, jobs, block)
    ensures |jobs| == 4 || block == total
  {
    hide Offset;
    hide IsWave;
    jobs, block := [], block0;
    WaveStart(p, sessionSeed, cb, c, total, k);
    while |jobs| < REGION_THREADS && block < total
      invariant |jobs| <= REGION_THREADS && IsWave(p, sessionSeed, cb, c, total, k, jobs, block)
      invariant (block < total || |jobs| > 0) && block <= total
      decreases REGION_THREADS - |jobs|
    {
      var m := total - block;
      if m > cb {
        m := cb;
      }
      var chunkIndex := (off + block) / cb;
      WaveNext(p, sessionSeed, off, cb, c, total, k, jobs, block);
      jobs := jobs + [Job(p.chunkSeed(sessionSeed, chunkIndex), m, block)];
      block := block + m;
    }
  }

  lemma WaveStart(p: Primitives, sessionSeed: Label, cb: nat, c: nat, total: nat, k: nat)
    requires cb >= 1 && Offset(k, cb) < total
    ensures IsWave(p, sessionSeed, cb, c, total, k, [], Offset(k, cb))
  {
  }

  lemma WaveNext(p: Primitives, sessionSeed: Label, off: nat, cb: nat, c: nat, total: nat, k: nat, jobs: seq<Job>,
                 block: nat)
    requires IsWave(p, sessionSeed, cb, c, total, k, jobs, block) && block < total && off == Offset(c, cb)
    ensures var m := Bits.Min(cb, total - block);
            IsWave(p, sessionSeed, cb, c, total, k,
                   jobs + [Job(p.chunkSeed(sessionSeed, (off + block) / cb), m, block)], block + m)
  {
    hide Offset;
    var j := k + |jobs|;
    assert block == Offset(j, cb);
    ChunkIndex(off, block, cb, c, j);
    OffsetNext(j, cb);
    var m := Bits.Min(cb, total - block);
    var next := Job(p.chunkSeed(sessionSeed, (off + block) / cb), m, block);
    assert next == ChunkJob(p, sessionSeed, cb, c, total, j);
    assert k + |jobs + [next]| == j + 1;
  }

  lemma WaveInOrder(p: Primitives, sessionSeed: Label, cb: nat, c: nat, total: nat, k: nat, jobs: seq<Job>, block: nat)
    requires IsWave(p, sessionSeed, cb, c, total, k, jobs, block)
    ensures InOrder(jobs, total)
    ensures forall i {:trigger jobs[i]} :: 0 <= i < |jobs| ==>
              1 <= jobs[i].m <= cb && jobs[i].m <= Bits.Min(cb, total) && jobs[i].dst >= Offset(k, cb)
  {
    hide Offset;
    forall i, j | 0 <= i < j < |jobs|
      ensures jobs[i].dst + jobs[i].m <= jobs[j].dst
    {
      OffsetMonotone(k + i, k + j, cb);
    }
    forall i | 0 <= i < |jobs|
      ensures jobs[i].dst >= Offset(k, cb)
    {
      OffsetSum(k, i, cb);
    }
  }

  /** When all jobs of a wave are done, the region is labelled up to the wave's end. */
  lemma {:induction false} WaveDone(p: Primitives, sessionSeed: Label, cb: nat, c: nat, total: nat, k: nat,
                                    jobs: seq<Job>, block: nat, region: seq<Label>, n: nat)
    requires IsWave(p, sessionSeed, cb, c, total, k, jobs, block) && total <= |region| && n <= |jobs|
    requires Offset(k, cb) <= total
    requires region[..Offset(k, cb)] == RegionLabels(p, sessionSeed, cb, c, Offset(k, cb))
    requires forall i {:trigger jobs[i]} :: 0 <= i < |jobs| ==> JobDone(p, jobs[i], 0, region)
    ensures region[..Bits.Min(total, Offset(k + n, cb))]
              == RegionLabels(p, sessionSeed, cb, c, Bits.Min(total, Offset(k + n, cb)))
    decreases n
  {
    hide Offset;
    hide ChunkLabels;
    hide RegionLabels;
    if n > 0 {
      WaveDone(p, sessionSeed, cb, c, total, k, jobs, block, region, n - 1);
      var job := jobs[n - 1];
      var lo := Offset(k + n - 1, cb);
      OffsetNext(k + n - 1, cb);
      assert IsJob(p, sessionSeed, cb, c, total, k + (n - 1), job);
      assert region[..lo + job.m] == region[..lo] + region[lo..lo + job.m];
      RegionSplit(p, sessionSeed, cb, c, k + n - 1, job.m);
      RegionOne(p, sessionSeed, cb, c + (k + n - 1), job.m);
    }
  }

  lemma Untouched(jobs: seq<Job>, lo: nat, total: nat, k: nat)
    requires InOrder(jobs, total) && forall i {:trigger jobs[i]} :: 0 <= i < |jobs| ==> jobs[i].dst >= lo
    requires k < lo || k >= total
    ensures !InJob(jobs, k)
  {
  }

  /** One wave after another until the region is done or a job fails. */
  method LabelWaves(p: Primitives, sessionSeed: Label, region: array<Label>, total: nat, off: nat,
                    scratch: seq<Scratch>, cb: nat)
    returns (rc: int)
    requires cb >= 1 && off % cb == 0 && 1 <= total <= region.Length
    requires ScratchFor(scratch, region, cb, BuffersUsed(total, cb))
    modifies region, Buffers(scratch)
    ensures rc == (if Bits.Min(cb, total) <= MAX_M then 0 else -1)
    ensures rc == 0 ==> region[..total] == RegionLabels(p, sessionSeed, cb, off / cb, total)
    ensures forall k: nat {:trigger region[k]} :: total <= k < region.Length ==> region[k] == old(region[k])
  {
    hide Offset;
    hide RegionLabels;
    hide IsWave;
    hide InOrder;
    hide InJob;
    hide JobDone;
    ghost var c := off / cb;
    OffsetIs(off, cb);
    rc := 0;
    var block: nat := 0;
    ghost var k: nat := 0;
    OffsetNext(0, cb);
    EmptyRegion(p, sessionSeed, cb, c);
    while block < total && rc == 0
      invariant block <= total && (block < total ==> block == Offset(k, cb)) && (block == 0 ==> k == 0)
      invariant rc == 0 ==> region[..block] == RegionLabels(p, sessionSeed, cb, c, block)
      invariant rc == 0 && block > 0 ==> Bits.Min(cb, total) <= MAX_M
      invariant rc != 0 ==> rc == -1 && Bits.Min(cb, total) > MAX_M
      invariant forall i: nat {:trigger region[i]} :: total <= i < region.Length ==> region[i] == old(region[i])
      decreases total - block, if rc == 0 then 1 else 0
    {
      ghost var before, lo := region[..], block;
      var jobs;
      jobs, block := BuildWave(p, sessionSeed, off, total, cb, block, c, k);
      WaveInOrder(p, sessionSeed, cb, c, total, k, jobs, block);
      WaveEnds(p, sessionSeed, cb, c, total, k, jobs, block);
      InOrderLoosen(jobs, total, region.Length);
      WaveWidth(p, sessionSeed, cb, c, total, k, jobs, block);
      ScratchFewer(scratch, region, cb, BuffersUsed(total, cb), |jobs|);
      var rcs := RunWave(p, jobs, region, scratch, cb);
      forall i: nat | i < lo || total <= i < region.Length
        ensures region[i] == before[i]
      {
        Untouched(jobs, lo, total, i);
      }
      rc := FirstFailure(p, jobs, rcs, region[..]);
      if rc == 0 {
        assert region[..lo] == before[..lo];
        WaveDone(p, sessionSeed, cb, c, total, k, jobs, block, region[..], |jobs|);
      }
      k := k + |jobs|;
    }
  }

  /** No wave has more jobs than the region uses buffers. */
  lemma WaveWidth(p: Primitives, sessionSeed: Label, cb: nat, c: nat, total: nat, k: nat, jobs: seq<Job>, block: nat)
    requires IsWave(p, sessionSeed, cb, c, total, k, jobs, block) && 1 <= |jobs| <= REGION_THREADS
    ensures |jobs| <= BuffersUsed(total, cb)
  {
    hide Offset;
    var last := |jobs| - 1;
    assert IsJob(p, sessionSeed, cb, c, total, k + last, jobs[last]);
    OffsetSum(k, last, cb);
    OffsetNext(last, cb);
    DivideAtLeast(total + cb - 1, |jobs|, cb);
  }

  lemma DivideAtLeast(a: nat, n: nat, size: nat)
    requires size >= 1 && a >= Offset(n, size)
    ensures a / size >= n
  {
    Remainder(a, size);
    if a / size < n {
      hide Offset;
      OffsetMonotone(a / size, n, size);
    }
  }

  lemma ScratchFewer(scratch: seq<Scratch>, region: array<Label>, cb: nat, n: nat, n': nat)
    requires ScratchFor(scratch, region, cb, n) && n' <= n
    ensures ScratchFor(scratch, region, cb, n')
  {
  }

  lemma OffsetIs(off: nat, cb: nat)
    requires cb >= 1 && off % cb == 0
    ensures off == Offset(off / cb, cb)
  {
  }

  lemma EmptyRegion(p: Primitives, sessionSeed: Label, cb: nat, c: nat)
    requires cb >= 1
    ensures RegionLabels(p, sessionSeed, cb, c, 0) == []
  {
  }

  lemma InOrderLoosen(jobs: seq<Job>, size: nat, size': nat)
    requires InOrder(jobs, size) && size <= size'
    ensures InOrder(jobs, size')
  {
  }

  lemma WaveEnds(p: Primitives, sessionSeed: Label, cb: nat, c: nat, total: nat, k: nat, jobs: seq<Job>, block: nat)
    requires IsWave(p, sessionSeed, cb, c, total, k, jobs, block) && |jobs| >= 1 && Offset(k, cb) < total
    ensures Offset(k, cb) < block == Bits.Min(total, Offset(k + |jobs|, cb))
    ensures k == 0 ==> jobs[0].m == Bits.Min(cb, total)
  {
    hide Offset;
    OffsetMonotone(k, k + |jobs|, cb);
    OffsetNext(0, cb);
    assert IsJob(p, sessionSeed, cb, c, total, k + 0, jobs[0]);
  }

  /** The first job that failed decides the result. */
  method FirstFailure(p: Primitives, jobs: seq<Job>, rcs: seq<int>, ghost region: seq<Label>) returns (rc: int)
    requires |rcs| == |jobs| && forall i {:trigger jobs[i]} :: 0 <= i < |jobs| ==> JobDone(p, jobs[i], rcs[i], region)
    ensures rc == 0 ==> forall i {:trigger jobs[i]} :: 0 <= i < |jobs| ==>
              JobDone(p, jobs[i], 0, region) && 1 <= jobs[i].m <= MAX_M
    ensures rc != 0 ==> rc == -1 && exists i {:trigger jobs[i]} :: 0 <= i < |jobs| && !(1 <= jobs[i].m <= MAX_M)
  {
    hide ChunkLabels;
    rc := 0;
    for i := 0 to |rcs|
      invariant rc == 0 && forall j {:trigger rcs[j]} :: 0 <= j < i ==> rcs[j] == 0
    {
      assert JobDone(p, jobs[i], rcs[i], region);
      if rcs[i] != 0 {
        return rcs[i];
      }
    }
    forall i {:trigger jobs[i]} | 0 <= i < |jobs|
      ensures JobDone(p, jobs[i], 0, region) && 1 <= jobs[i].m <= MAX_M
    {
      assert JobDone(p, jobs[i], rcs[i], region);
    }
  }

  // ---------- public entry points ----------

  /** Scratch for the longest chunk, one per job of a wave. */
  method AllocateScratch(cb: nat, region: array<Label>) returns (scratch: seq<Scratch>)
    ensures ScratchFor(scratch, region, cb, REGION_THREADS)
    ensures forall i {:trigger scratch[i]} :: 0 <= i < |scratch| ==> fresh(scratch[i].labels) && fresh(scratch[i].mem)
  {
    scratch := [];
    for i := 0 to REGION_THREADS
      invariant |scratch| == i
      invariant forall j {:trigger scratch[j]} :: 0 <= j < i ==>
        scratch[j].labels.Length == ScratchNodes(cb) && scratch[j].mem.Length == ScratchWords(cb)
        && fresh(scratch[j].labels) && fresh(scratch[j].mem)
      invariant forall j, k {:trigger scratch[j], scratch[k]} :: 0 <= j < k < i ==>
        scratch[j].labels != scratch[k].labels && scratch[j].mem != scratch[k].mem
    {
      var labels := new Label[ScratchNodes(cb)](_ => Label([]));
      var mem := new nat[ScratchWords(cb)];
      scratch := scratch + [Scratch(labels, mem)];
    }
  }

  /** Labeler with its own scratch, one short-lived thread per job. */
  method LabelRegion(p: Primitives, sessionSeed: Label, region: array?<Label>, regionLen: nat, off: nat,
                     chunkBlocks: nat)
    returns (rc: int)
    requires region != null ==> regionLen / 32 <= region.Length
    requires off % (if chunkBlocks == 0 then 4096 else chunkBlocks) == 0
    modifies region
    ensures var cb, total := if chunkBlocks == 0 then 4096 else chunkBlocks, regionLen / 32;
            rc == (if region == null || regionLen == 0 || regionLen % 32 != 0 || (cb > 0x10_0000 && total > 0x10_0000)
                   then -1 else 0)
    ensures var cb, total := if chunkBlocks == 0 then 4096 else chunkBlocks, regionLen / 32;
            rc == 0 ==> region[..total] == RegionLabels(p, sessionSeed, cb, off / cb, total)
    ensures region != null ==> forall k: nat {:trigger region[k]} :: regionLen / 32 <= k < region.Length ==>
              region[k] == old(region[k])
  {
    hide RegionLabels;
    var cb := ChunkSlots.ResolveChunkBlocks(chunkBlocks);
    if region == null || regionLen == 0 || regionLen % HASH_BYTES != 0 {
      return -1;
    }
    var scratch := AllocateScratch(cb, region);
    ScratchFewer(scratch, region, cb, REGION_THREADS, BuffersUsed(regionLen / HASH_BYTES, cb));
    rc := LabelWaves(p, sessionSeed, region, regionLen / HASH_BYTES, off, scratch, cb);
  }

  /** Labeler on the caller's scratch; jobs go to threads or to the worker pool, which run each job once. */
  method LabelRegionPooled(p: Primitives, sessionSeed: Label, region: array?<Label>, regionLen: nat, off: nat,
                           scratch: seq<Scratch>, chunkBlocks: nat) returns (rc: int)
    requires region != null ==>
              var cb, total := if chunkBlocks == 0 then 4096 else chunkBlocks, regionLen / 32;
              total <= region.Length && ScratchFor(scratch, region, cb, BuffersUsed(total, cb))
    requires off % (if chunkBlocks == 0 then 4096 else chunkBlocks) == 0
    modifies region, Buffers(scratch)
    ensures var cb, total := if chunkBlocks == 0 then 4096 else chunkBlocks, regionLen / 32;
            rc == (if region == null || regionLen == 0 || regionLen % 32 != 0 || (cb > 0x10_0000 && total > 0x10_0000)
                   then -1 else 0)
    ensures var cb, total := if chunkBlocks == 0 then 4096 else chunkBlocks, regionLen / 32;
            rc == 0 ==> region[..total] == RegionLabels(p, sessionSeed, cb, off / cb, total)
    ensures region != null ==> forall k: nat {:trigger region[k]} :: regionLen / 32 <= k < region.Length ==>
              region[k] == old(region[k])
  {
    hide RegionLabels;
    var cb := ChunkSlots.ResolveChunkBlocks(chunkBlocks);
    if region == null || regionLen == 0 || regionLen % HASH_BYTES != 0 {
      return -1;
    }
    rc := LabelWaves(p, sessionSeed, region, regionLen / HASH_BYTES, off, scratch, cb);
  }

  /** Label of one rank, recomputed by labelling the chunk. */
  method Challenge(p: Primitives, seed: Label, m: nat, rank: nat) returns (rc: int, out: Label)
    ensures rc == (if rank < m <= 0x10_0000 then 0 else -1)
    ensures rc == 0 ==> out == ChunkLabels(p, seed, m)[rank]
  {
    hide ChunkLabels;
    out := Label([]);
    if rank >= m {
      return -1, out;
    }
    var all := new Label[m](_ => Label([]));
    var labels := new Label[ScratchNodes(m)](_ => Label([]));
    var mem := new nat[ScratchWords(m)];
    rc := DoLabel(p, seed, m, all, 0, labels, mem);
    if rc == 0 {
      out := all[rank];
      assert all[0..0 + m][rank] == out;
    }
  }

  // ---------- in place ----------

  /** Each of `n` jobs has a buffer of its own, apart from the region. */
  ghost predicate InplaceScratchFor(scratch: seq<array<Label>>, region: array<Label>, cb: nat, n: nat) {
    && |scratch| == REGION_THREADS
    && (forall i {:trigger scratch[i]} :: 0 <= i < |scratch| && i < n ==>
      scratch[i].Length >= ScratchSlots(cb) && scratch[i] != region)
    && (forall i, j {:trigger scratch[i], scratch[j]} :: 0 <= i < j < |scratch| && j < n ==> scratch[i] != scratch[j])
  }

  lemma InplaceScratchFewer(scratch: seq<array<Label>>, region: array<Label>, cb: nat, n: nat, n': nat)
    requires InplaceScratchFor(scratch, region, cb, n) && n' <= n
    ensures InplaceScratchFor(scratch, region, cb, n')
  {
  }

  ghost function InplaceBuffers(scratch: seq<array<Label>>): set<object> {
    set s | s in scratch
  }

  method RunWaveInplace(p: Primitives, jobs: seq<Job>, region: array<Label>, scratch: seq<array<Label>>, cb: nat)
    returns (rcs: seq<int>)
    requires |jobs| <= REGION_THREADS && InplaceScratchFor(scratch, region, cb, |jobs|)
    requires InOrder(jobs, region.Length)
    requires forall i {:trigger jobs[i]} :: 0 <= i < |jobs| ==> jobs[i].m <= cb
    modifies region, InplaceBuffers(scratch)
    ensures |rcs| == |jobs|
    ensures forall i {:trigger jobs[i]} :: 0 <= i < |jobs| ==> JobDone(p, jobs[i], rcs[i], region[..])
    ensures forall k: nat {:trigger region[k]} :: k < region.Length && !InJob(jobs, k) ==> region[k] == old(region[k])
  {
    hide ChunkLabels;
    hide ScratchSlots;
    rcs := seq(|jobs|, _ => 0);
    var pending: set<nat> := set i: nat {:trigger jobs[i]} | i < |jobs|;
    while pending != {}
      invariant forall i :: i in pending ==> 0 <= i < |jobs|
      invariant |rcs| == |jobs|
      invariant forall i {:trigger jobs[i]} :: 0 <= i < |jobs| && i !in pending ==>
                JobDone(p, jobs[i], rcs[i], region[..])
      invariant forall k: nat {:trigger region[k]} :: k < region.Length && !InJob(jobs, k) ==>
                region[k] == old(region[k])
      decreases pending
    {
      var i :| i in pending;
      ghost var before := region[..];
      ScratchMonotone(jobs[i].m, cb);
      var rc, hi := DoLabelInplace(p, jobs[i].seed, jobs[i].m, region, jobs[i].dst, scratch[i]);
      OthersDone(p, jobs, i, before, region[..], rcs);
      rcs := rcs[i := rc];
      pending := pending - {i};
    }
  }

  /** Blocks in whole chunks. */
  function Whole(total: nat, cb: nat): (blocks: nat)
    requires cb >= 1
    ensures blocks <= total
  {
    Offset(total / cb, cb)
  }

  /** Whole chunks only. */
  method BuildSuperWave(p: Primitives, sessionSeed: Label, off: nat, total: nat, cb: nat, block0: nat, ghost c: nat,
                        ghost k: nat)
    returns (jobs: seq<Job>, block: nat)
    requires cb >= 1 && off == Offset(c, cb) && block0 == Offset(k, cb) && block0 + cb <= total
    ensures 1 <= |jobs| <= REGION_THREADS && IsWave(p, sessionSeed, cb, c, Whole(total, cb), k, jobs, block)
    ensures |jobs| == 4 || total < block + cb
  {
    hide Offset;
    hide IsWave;
    jobs, block := [], block0;
    ghost var whole := Whole(total, cb);
    WholeChunks(total, cb, k);
    WaveStart(p, sessionSeed, cb, c, whole, k);
    while |jobs| < REGION_THREADS && block + cb <= total
      invariant |jobs| <= REGION_THREADS && IsWave(p, sessionSeed, cb, c, whole, k, jobs, block)
      invariant block == Offset(k + |jobs|, cb)
      invariant block + cb <= total || |jobs| > 0
      decreases REGION_THREADS - |jobs|
    {
      WholeChunks(total, cb, k + |jobs|);
      OffsetNext(k + |jobs|, cb);
      OffsetDivides(k + |jobs|, cb, 0);
      var j := block / cb;
      var chunkIndex := (off + Offset(j, cb)) / cb;
      WaveNext(p, sessionSeed, off, cb, c, whole, k, jobs, block);
      jobs := jobs + [Job(p.chunkSeed(sessionSeed, chunkIndex), cb, block)];
      block := block + cb;
    }
  }

  /** Chunk `k` is whole exactly when it starts before the last whole chunk ends. */
  lemma WholeChunks(total: nat, cb: nat, k: nat)
    requires cb >= 1
    ensures Whole(total, cb) <= total < Whole(total, cb) + cb
    ensures Offset(k, cb) + cb <= total <==> Offset(k, cb) < Whole(total, cb)
    ensures Offset(k, cb) + cb <= total ==> Offset(k, cb) + cb <= Whole(total, cb)
  {
    var q := total / cb;
    assert Offset(q, cb) + total % cb == total;
    if k < q {
      OffsetMonotone(k, q, cb);
    } else if q < k {
      OffsetMonotone(q, k, cb);
    }
  }

  method LabelSuperWaves(p: Primitives, sessionSeed: Label, region: array<Label>, total: nat, off: nat,
                         scratch: seq<array<Label>>, cb: nat)
    returns (rc: int)
    requires cb >= 1 && off % cb == 0 && total <= region.Length
    requires InplaceScratchFor(scratch, region, cb, BuffersUsed(Whole(total, cb), cb))
    modifies region, InplaceBuffers(scratch)
    ensures rc == (if MAX_M < cb <= total then -1 else 0)
    ensures rc == 0 ==> region[..Whole(total, cb)] == RegionLabels(p, sessionSeed, cb, off / cb, Whole(total, cb))
    ensures forall k: nat {:trigger region[k]} :: Whole(total, cb) <= k < region.Length ==> region[k] == old(region[k])
  {
    hide Offset;
    hide Whole;
    hide RegionLabels;
    hide IsWave;
    hide InOrder;
    hide InJob;
    hide JobDone;
    ghost var whole, c := Whole(total, cb), off / cb;
    WholeChunks(total, cb, 0);
    OffsetNext(0, cb);
    EmptyRegion(p, sessionSeed, cb, c);
    OffsetIs(off, cb);
    rc := 0;
    var block: nat := 0;
    ghost var k: nat := 0;
    while block + cb <= total && rc == 0
      invariant block == Offset(k, cb) && block <= whole && (block == 0 ==> k == 0)
      invariant rc == 0 ==> region[..block] == RegionLabels(p, sessionSeed, cb, c, block)
      invariant rc == 0 && block > 0 ==> cb <= MAX_M
      invariant rc != 0 ==> rc == -1 && cb > MAX_M && cb <= total
      invariant forall i: nat {:trigger region[i]} :: whole <= i < region.Length ==> region[i] == old(region[i])
      decreases total - block, if rc == 0 then 1 else 0
    {
      ghost var before, lo := region[..], block;
      WholeChunks(total, cb, k);
      var jobs;
      jobs, block := BuildSuperWave(p, sessionSeed, off, total, cb, block, c, k);
      WaveInOrder(p, sessionSeed, cb, c, whole, k, jobs, block);
      SuperWaveEnds(p, sessionSeed, cb, c, total, k, jobs, block);
      InOrderLoosen(jobs, whole, region.Length);
      WaveWidth(p, sessionSeed, cb, c, whole, k, jobs, block);
      InplaceScratchFewer(scratch, region, cb, BuffersUsed(whole, cb), |jobs|);
      var rcs := RunWaveInplace(p, jobs, region, scratch, cb);
      forall i: nat | i < lo || whole <= i < region.Length
        ensures region[i] == before[i]
      {
        Untouched(jobs, lo, whole, i);
      }
      rc := FirstFailure(p, jobs, rcs, region[..]);
      if rc == 0 {
        assert jobs[0].m == cb;
        assert region[..lo] == before[..lo];
        WaveDone(p, sessionSeed, cb, c, whole, k, jobs, block, region[..], |jobs|);
      }
      k := k + |jobs|;
    }
    WholeChunks(total, cb, k);
  }

  /** In-place labeler: whole chunks are labelled, a short tail is left alone. */
  method LabelRegionInplace(p: Primitives, sessionSeed: Label, region: array?<Label>, regionLen: nat, off: nat,
                            scratch: seq<array<Label>>, chunkBlocks: nat) returns (rc: int)
    requires region != null ==>
              var cb, total := if chunkBlocks == 0 then 4096 else chunkBlocks, regionLen / 32;
              total <= region.Length && InplaceScratchFor(scratch, region, cb, BuffersUsed(Whole(total, cb), cb))
    requires off % (if chunkBlocks == 0 then 4096 else chunkBlocks) == 0
    modifies region, InplaceBuffers(scratch)
    ensures var cb, total := if chunkBlocks == 0 then 4096 else chunkBlocks, regionLen / 32;
            rc == (if region == null || regionLen == 0 || regionLen % 32 != 0 || 0x10_0000 < cb <= total then -1 else 0)
    ensures var cb, total := if chunkBlocks == 0 then 4096 else chunkBlocks, regionLen / 32;
            rc == 0 ==> region[..Whole(total, cb)] == RegionLabels(p, sessionSeed, cb, off / cb, Whole(total, cb))
    ensures var cb, total := if chunkBlocks == 0 then 4096 else chunkBlocks, regionLen / 32;
            region != null ==> forall k: nat {:trigger region[k]} :: Whole(total, cb) <= k < region.Length ==>
              region[k] == old(region[k])
  {
    hide RegionLabels;
    hide Whole;
    hide Offset;
    var cb := ChunkSlots.ResolveChunkBlocks(chunkBlocks);
    if region == null || regionLen == 0 || regionLen % HASH_BYTES != 0 {
      return -1;
    }
    var total := regionLen / HASH_BYTES;
    if regionLen < cb * HASH_BYTES {
      NoWholeChunk(total, cb);
      EmptyRegion(p, sessionSeed, cb, off / cb);
      return 0;
    }
    rc := LabelSuperWaves(p, sessionSeed, region, total, off, scratch, cb);
  }

  lemma NoWholeChunk(total: nat, cb: nat)
    requires total < cb
    ensures Whole(total, cb) == 0
  {
  }

  lemma SuperWaveEnds(p: Primitives, sessionSeed: Label, cb: nat, c: nat, total: nat, k: nat, jobs: seq<Job>,
                      block: nat)
    requires cb >= 1 && IsWave(p, sessionSeed, cb, c, Whole(total, cb), k, jobs, block) && |jobs| >= 1
    requires Offset(k, cb) < Whole(total, cb)
    ensures Offset(k, cb) < block == Offset(k + |jobs|, cb) <= Whole(total, cb)
    ensures forall i {:trigger jobs[i]} :: 0 <= i < |jobs| ==> jobs[i].m == cb
  {
    hide Offset;
    var whole := Whole(total, cb);
    OffsetMonotone(k, k + |jobs|, cb);
    forall i {:trigger jobs[i]} | 0 <= i < |jobs|
      ensures jobs[i].m == cb && Offset(k + i, cb) + cb <= whole
    {
      assert IsJob(p, sessionSeed, cb, c, whole, k + i, jobs[i]);
      WholeChunks(total, cb, k + i);
    }
    var last := |jobs| - 1;
    assert IsJob(p, sessionSeed, cb, c, whole, k + last, jobs[last]);
    OffsetNext(k + last, cb);
  }
}
