/** Whole regions: one wave after another, each in any order of accesses, on threads or on one pool. */
module RegionRuns {
  import Bits
  import opened Offsets
  import opened Labelling
  import opened RegionLabelers
  import opened RegionWaves
  import opened WaveSetting
  import opened ScratchRace
  import Chunk
  import opened ChunkProgram
  import Region
  import WorkerPool

  /** A region is given by its first wave, which uses as many buffers as any. */
  ghost predicate WholeRegion(r: Setting) {
    r.k == 0 && r.cb >= 1 && r.n == BuffersUsed(r.total, r.cb) && r.Valid()
  }

  lemma ChunkSize(r: Setting)
    requires WholeRegion(r)
    ensures r.cb >= 1
  {
  }

  /** The wave that begins with chunk `k`: up to four chunks, as many as are left. */
  function WaveAt(r: Setting, k: nat): Setting
    requires r.cb >= 1 && Offset(k, r.cb) < r.total
  {
    r.(k := k, n := BuffersUsed(r.total - Offset(k, r.cb), r.cb))
  }

  lemma WaveAtValid(r: Setting, k: nat)
    requires WholeRegion(r) && Offset(k, r.cb) < r.total
    ensures WaveAt(r, k).Valid() && WaveAt(r, k).n <= r.n
    ensures Offset(k, r.cb) < Offset(k + WaveAt(r, k).n, r.cb)
    ensures r.Distinct() ==> WaveAt(r, k).Distinct()
  {
    hide Offset;
    hide BuffersUsed;
    hide Cells;
    var rest, n := r.total - Offset(k, r.cb), WaveAt(r, k).n;
    LastStarts(rest, r.cb);
    OffsetSum(k, n - 1, r.cb);
    OffsetMonotone(k, k + n, r.cb);
    Fewer(rest, r.total, r.cb);
  }

  /** The last job of a wave starts before the region ends. */
  lemma LastStarts(rest: nat, cb: nat)
    requires cb >= 1 && rest >= 1
    ensures 1 <= BuffersUsed(rest, cb) <= REGION_THREADS && Offset(BuffersUsed(rest, cb) - 1, cb) < rest
  {
    hide Offset;
    var q := (rest + cb - 1) / cb;
    Remainder(rest + cb - 1, cb);
    OffsetNext(0, cb);
    DivideAtLeast(rest + cb - 1, 1, cb);
    OffsetNext(q - 1, cb);
    if REGION_THREADS < q {
      OffsetMonotone(REGION_THREADS - 1, q - 1, cb);
    }
  }

  lemma Fewer(a: nat, b: nat, cb: nat)
    requires cb >= 1 && a <= b
    ensures BuffersUsed(a, cb) <= BuffersUsed(b, cb)
  {
    Remainder(a + cb - 1, cb);
    DivideAtLeast(b + cb - 1, (a + cb - 1) / cb, cb);
  }

  /** The waves from chunk `k` on can take these courses, the pool going from `quiet` to `quiet'`. */
  ghost predicate RegionEnds(r: Setting, p: Chunk.Primitives, sessionSeed: Label, pooled: bool, k: nat, mem: seq<Label>,
                             quiet: WorkerPool.PoolState, traces: seq<Trace>, mem': seq<Label>,
                             quiet': WorkerPool.PoolState)
    requires WholeRegion(r)
    decreases |traces|
  {
    if Offset(k, r.cb) >= r.total then |traces| == 0 && mem' == mem && quiet' == quiet
    else
      WaveAtValid(r, k);
      && |traces| > 0 && traces[0].OnPool? == pooled && Ends(WaveAt(r, k), p, sessionSeed, mem, quiet, traces[0])
      && RegionEnds(r, p, sessionSeed, pooled, k + WaveAt(r, k).n, traces[0].After(), traces[0].PoolAfter(quiet),
                    traces[1..], mem', quiet')
  }

  /** The region holds its labels up to block `n`. */
  ghost predicate LabelledTo(r: Setting, p: Chunk.Primitives, sessionSeed: Label, mem: seq<Label>, n: nat)
    requires r.cb >= 1
  {
    && |mem| == r.memory && r.base + r.total <= |mem| && n <= r.total
    && mem[r.base..r.base + r.total][..n] == Region.RegionLabels(p, sessionSeed, r.cb, r.c, n)
  }

  /** A wave that is right takes the labelled part of the region to its end. */
  lemma WaveExtends(r: Setting, p: Chunk.Primitives, sessionSeed: Label, k: nat, before: seq<Label>,
                    after: seq<Label>)
    requires WholeRegion(r) && Offset(k, r.cb) < r.total && LabelledTo(r, p, sessionSeed, before, Offset(k, r.cb))
    requires WaveAt(r, k).Valid() && Right(WaveAt(r, k), p, sessionSeed, before, after)
    ensures LabelledTo(r, p, sessionSeed, after, Bits.Min(r.total, Offset(k + WaveAt(r, k).n, r.cb)))
  {
    hide Offset;
    hide IsWave;
    hide InOrder;
    hide InJob;
    hide JobDone;
    hide JobsOf;
    hide Region.RegionLabels;
    var w := WaveAt(r, k);
    var jobs, block := JobsIn(w, p, sessionSeed), Bits.Min(r.total, Offset(k + w.n, r.cb));
    WaveInOrder(p, sessionSeed, r.cb, r.c, r.total, k, jobs, block);
    hide Setting.Valid;
    hide BuffersUsed;
    var earlier, later := before[r.base..r.base + r.total], after[r.base..r.base + r.total];
    EarlierKept(p, jobs, earlier, later, Offset(k, r.cb), r.total);
    WaveDone(p, sessionSeed, r.cb, r.c, r.total, k, jobs, block, later, |jobs|);
  }

  lemma EarlierKept(p: Chunk.Primitives, jobs: seq<Job>, earlier: seq<Label>, later: seq<Label>, lo: nat, total: nat)
    requires WaveDoneIn(p, jobs, earlier, later) && InOrder(jobs, total) && lo <= total == |earlier|
    requires forall i {:trigger jobs[i]} :: 0 <= i < |jobs| ==> jobs[i].dst >= lo
    ensures |later| == total && later[..lo] == earlier[..lo]
  {
    hide JobDone;
    hide InOrder;
    hide InJob;
    forall i | 0 <= i < lo
      ensures later[..lo][i] == earlier[..lo][i]
    {
      Untouched(jobs, lo, total, i);
      assert later[i] == earlier[i];
    }
  }

  /** On different buffers a wave extends the labelled part, whatever its course, and leaves the pool sound. */
  lemma WaveLabels(r: Setting, p: Chunk.Primitives, sessionSeed: Label, k: nat, mem: seq<Label>,
                   quiet: WorkerPool.PoolState, trace: Trace)
    requires WholeRegion(r) && r.Distinct() && Offset(k, r.cb) < r.total
    requires LabelledTo(r, p, sessionSeed, mem, Offset(k, r.cb))
    requires WaveAt(r, k).Valid() && Ends(WaveAt(r, k), p, sessionSeed, mem, quiet, trace)
    ensures LabelledTo(r, p, sessionSeed, trace.After(), Bits.Min(r.total, Offset(k + WaveAt(r, k).n, r.cb)))
    ensures WorkerPool.Inv(quiet) ==> WorkerPool.Inv(trace.PoolAfter(quiet))
  {
    hide LabelledTo;
    hide Ends;
    hide Right;
    hide WorkerPool.Inv;
    hide Offset;
    hide Setting.Distinct;
    WaveAtValid(r, k);
    DistinctRun(WaveAt(r, k), p, sessionSeed, mem, quiet, trace);
    WaveExtends(r, p, sessionSeed, k, mem, trace.After());
  }

  lemma NoneLeft(r: Setting, p: Chunk.Primitives, sessionSeed: Label, pooled: bool, k: nat, mem: seq<Label>,
                 quiet: WorkerPool.PoolState, traces: seq<Trace>, mem': seq<Label>, quiet': WorkerPool.PoolState)
    requires WholeRegion(r) && RegionEnds(r, p, sessionSeed, pooled, k, mem, quiet, traces, mem', quiet')
    requires Offset(k, r.cb) >= r.total
    ensures mem' == mem && quiet' == quiet
  {
  }

  lemma FirstOf(r: Setting, p: Chunk.Primitives, sessionSeed: Label, pooled: bool, k: nat, mem: seq<Label>,
                quiet: WorkerPool.PoolState, traces: seq<Trace>, mem': seq<Label>, quiet': WorkerPool.PoolState)
    requires WholeRegion(r) && RegionEnds(r, p, sessionSeed, pooled, k, mem, quiet, traces, mem', quiet')
    requires Offset(k, r.cb) < r.total
    ensures |traces| > 0 && WaveAt(r, k).Valid() && Ends(WaveAt(r, k), p, sessionSeed, mem, quiet, traces[0])
    ensures RegionEnds(r, p, sessionSeed, pooled, k + WaveAt(r, k).n, traces[0].After(), traces[0].PoolAfter(quiet),
                       traces[1..], mem', quiet')
  {
    hide Ends;
    hide Offset;
    WaveAtValid(r, k);
  }

  /** On different buffers the whole region is labelled, whatever the waves' courses, and the pool stays sound. */
  lemma {:induction false} WavesLabel(r: Setting, p: Chunk.Primitives, sessionSeed: Label, pooled: bool, k: nat,
                                      mem: seq<Label>, quiet: WorkerPool.PoolState, traces: seq<Trace>,
                                      mem': seq<Label>, quiet': WorkerPool.PoolState)
    requires WholeRegion(r) && r.Distinct()
    requires RegionEnds(r, p, sessionSeed, pooled, k, mem, quiet, traces, mem', quiet')
    requires LabelledTo(r, p, sessionSeed, mem, Bits.Min(r.total, Offset(k, r.cb)))
    ensures LabelledTo(r, p, sessionSeed, mem', r.total)
    ensures WorkerPool.Inv(quiet) ==> WorkerPool.Inv(quiet')
    decreases |traces|
  {
    hide WholeRegion;
    hide LabelledTo;
    hide Ends;
    hide WorkerPool.Inv;
    hide Setting.Valid;
    hide Setting.Distinct;
    hide Offset;
    hide WaveAt;
    hide RegionEnds;
    ChunkSize(r);
    if Offset(k, r.cb) >= r.total {
      NoneLeft(r, p, sessionSeed, pooled, k, mem, quiet, traces, mem', quiet');
    } else {
      FirstOf(r, p, sessionSeed, pooled, k, mem, quiet, traces, mem', quiet');
      WaveLabels(r, p, sessionSeed, k, mem, quiet, traces[0]);
      WavesLabel(r, p, sessionSeed, pooled, k + WaveAt(r, k).n, traces[0].After(), traces[0].PoolAfter(quiet),
                 traces[1..], mem', quiet');
    }
  }

  // ---------- shared buffers ----------

  /** Jobs of a later wave do not own an earlier block. */
  lemma EarlierSpared(w: Setting, p: Chunk.Primitives, sessionSeed: Label, x: nat)
    requires w.Valid() && w.base <= x < w.base + w.total && x - w.base < Offset(w.k, w.cb)
    ensures Spared(w, p, sessionSeed, w.n, w.n, x)
  {
    hide RunnersIn;
    hide Setting.Valid;
    hide Offset;
    Bounds(w);
    forall t: nat | t < w.n
      ensures !RunnersIn(w, p, sessionSeed)[t].place.Owns(x)
    {
      LaterOwns(w, p, sessionSeed, t, x);
    }
  }

  lemma Bounds(w: Setting)
    requires w.Valid()
    ensures w.base + w.total <= w.memory
  {
  }

  lemma LaterOwns(w: Setting, p: Chunk.Primitives, sessionSeed: Label, t: nat, x: nat)
    requires w.Valid() && w.base <= x < w.base + w.total && x - w.base < Offset(w.k, w.cb) && t < w.n
    ensures !RunnersIn(w, p, sessionSeed)[t].place.Owns(x)
  {
    hide Offset;
    hide RunnersIn;
    hide JobsIn;
    hide Cells;
    hide ChunkCode;
    RunnerIs(w, p, sessionSeed, t);
    hide Setting.Valid;
    OffsetSum(w.k, t, w.cb);
  }

  /** From any memory on, the remaining waves can be brought to their ends, and leave earlier blocks alone. */
  lemma {:induction false} RestCanEnd(r: Setting, p: Chunk.Primitives, sessionSeed: Label, pooled: bool, k: nat,
                                      mem: seq<Label>, quiet: WorkerPool.PoolState, x: nat)
    returns (traces: seq<Trace>, mem': seq<Label>, quiet': WorkerPool.PoolState)
    requires WholeRegion(r) && |mem| == r.memory && CanTake(r, quiet)
    requires r.base <= x < r.base + r.total <= r.memory && x - r.base < Offset(k, r.cb)
    ensures RegionEnds(r, p, sessionSeed, pooled, k, mem, quiet, traces, mem', quiet')
    ensures |mem'| == r.memory && mem'[x] == mem[x]
    decreases r.total - Offset(k, r.cb)
  {
    hide WholeRegion;
    hide Ends;
    hide CanTake;
    hide Setting.Valid;
    hide Spared;
    hide Offset;
    hide RegionEnds;
    ChunkSize(r);
    if Offset(k, r.cb) >= r.total {
      traces, mem', quiet' := [], mem, quiet;
      NoneIsLeft(r, p, sessionSeed, pooled, k, mem, quiet);
    } else {
      WaveAtValid(r, k);
      var w := WaveAt(r, k);
      EarlierSpared(w, p, sessionSeed, x);
      TakesAny(r, w, quiet);
      var first := WaveCanEnd(w, p, sessionSeed, mem, quiet, pooled, x);
      TakesAny(w, r, first.PoolAfter(quiet));
      var rest;
      rest, mem', quiet' :=
        RestCanEnd(r, p, sessionSeed, pooled, k + w.n, first.After(), first.PoolAfter(quiet), x);
      traces := [first] + rest;
      EndsThen(r, p, sessionSeed, pooled, k, mem, quiet, first, rest, mem', quiet');
    }
  }

  lemma TakesAny(w: Setting, w': Setting, quiet: WorkerPool.PoolState)
    requires CanTake(w, quiet)
    ensures CanTake(w', quiet)
  {
  }

  lemma NoneIsLeft(r: Setting, p: Chunk.Primitives, sessionSeed: Label, pooled: bool, k: nat, mem: seq<Label>,
                   quiet: WorkerPool.PoolState)
    requires WholeRegion(r) && Offset(k, r.cb) >= r.total
    ensures RegionEnds(r, p, sessionSeed, pooled, k, mem, quiet, [], mem, quiet)
  {
  }

  lemma EndsThen(r: Setting, p: Chunk.Primitives, sessionSeed: Label, pooled: bool, k: nat, mem: seq<Label>,
                 quiet: WorkerPool.PoolState, first: Trace, rest: seq<Trace>, mem': seq<Label>,
                 quiet': WorkerPool.PoolState)
    requires WholeRegion(r) && Offset(k, r.cb) < r.total && first.OnPool? == pooled
    requires WaveAt(r, k).Valid() && Ends(WaveAt(r, k), p, sessionSeed, mem, quiet, first)
    requires RegionEnds(r, p, sessionSeed, pooled, k + WaveAt(r, k).n, first.After(), first.PoolAfter(quiet), rest,
                        mem', quiet')
    ensures RegionEnds(r, p, sessionSeed, pooled, k, mem, quiet, [first] + rest, mem', quiet')
  {
    hide Ends;
    hide Offset;
    assert ([first] + rest)[1..] == rest;
  }

  /** The first wave goes wrong, and the block stays wrong to the end. */
  lemma RegionRaces(r: Setting, sessionSeed: Label, mem: seq<Label>, quiet: WorkerPool.PoolState, pooled: bool, i: nat,
                    j: nat)
    returns (traces: seq<Trace>, mem': seq<Label>, quiet': WorkerPool.PoolState)
    requires WholeRegion(r) && i < j < r.n && r.scratch[i] == r.scratch[j] && |mem| == r.memory && CanTake(r, quiet)
    ensures RegionEnds(r, SeedNames(), sessionSeed, pooled, 0, mem, quiet, traces, mem', quiet')
    ensures !LabelledTo(r, SeedNames(), sessionSeed, mem', r.total)
  {
    hide Ends;
    hide CanTake;
    hide SeedNames;
    hide JobsIn;
    hide RunnersIn;
    hide FirstBlock;
    hide Offset;
    hide RegionEnds;
    hide Cells;
    hide LabelledTo;
    var first := SharedRaces(r, sessionSeed, mem, quiet, pooled, i, j);
    OffsetNext(0, r.cb);
    OffsetMonotone(0, r.n, r.cb);
    BlockPlace(r, sessionSeed, j);
    var x := FirstBlock(r, SeedNames(), sessionSeed, j);
    var rest;
    rest, mem', quiet' :=
      RestCanEnd(r, SeedNames(), sessionSeed, pooled, r.n, first.After(), first.PoolAfter(quiet), x);
    assert WaveAt(r, 0) == r;
    EndsThen(r, SeedNames(), sessionSeed, pooled, 0, mem, quiet, first, rest, mem', quiet');
    traces := [first] + rest;
    StaysWrong(r, sessionSeed, mem', i, j);
  }

  /** Job `t` of the first wave labels chunk `t`. */
  lemma JobAt(r: Setting, sessionSeed: Label, t: nat)
    requires WholeRegion(r) && t < r.n
    ensures Offset(t, r.cb) < r.total && r.base + r.total <= r.memory
    ensures var job := JobsIn(r, SeedNames(), sessionSeed)[t];
            job.seed == Name(r.c + t) && job.dst == Offset(t, r.cb)
              && 1 <= job.m == Bits.Min(r.cb, r.total - Offset(t, r.cb))
  {
    hide Offset;
    hide JobsIn;
    hide RunnersIn;
    hide ProgramOf;
    hide Cells;
    hide Name;
    hide BuffersUsed;
    RunnerIs(r, SeedNames(), sessionSeed, t);
    hide Setting.Valid;
    assert r.k + t == t;
  }

  lemma BlockPlace(r: Setting, sessionSeed: Label, j: nat)
    requires WholeRegion(r) && j < r.n
    ensures FirstBlock(r, SeedNames(), sessionSeed, j) == r.base + Offset(j, r.cb)
    ensures Offset(j, r.cb) < r.total && r.base + r.total <= r.memory && Offset(j, r.cb) < Offset(r.n, r.cb)
  {
    hide Offset;
    hide JobsIn;
    hide SeedNames;
    hide Setting.Valid;
    JobAt(r, sessionSeed, j);
    ChunkSize(r);
    hide WholeRegion;
    OffsetMonotone(j, r.n, r.cb);
  }

  lemma StaysWrong(r: Setting, sessionSeed: Label, mem: seq<Label>, i: nat, j: nat)
    requires WholeRegion(r) && i < j < r.n && |mem| == r.memory
    requires FirstBlock(r, SeedNames(), sessionSeed, j) < r.memory
    requires mem[FirstBlock(r, SeedNames(), sessionSeed, j)] == JobsIn(r, SeedNames(), sessionSeed)[i].seed
    ensures !LabelledTo(r, SeedNames(), sessionSeed, mem, r.total)
  {
    hide Offset;
    hide JobsIn;
    hide Region.RegionLabels;
    hide Chunk.ChunkLabels;
    hide Name;
    hide FirstBlock;
    hide Setting.Valid;
    ChunkSize(r);
    JobAt(r, sessionSeed, i);
    JobAt(r, sessionSeed, j);
    BlockPlace(r, sessionSeed, j);
    LabelOfChunk(r, sessionSeed, j);
    FewJobs(r);
    hide WholeRegion;
    hide SeedNames;
    NamesDiffer(r.c + i, r.c + j);
    var region := mem[r.base..r.base + r.total];
    assert region[..r.total] == region;
    assert region[Offset(j, r.cb)] == mem[r.base + Offset(j, r.cb)];
  }

  lemma FewJobs(r: Setting)
    requires WholeRegion(r)
    ensures r.n <= REGION_THREADS
  {
  }

  lemma LabelOfChunk(r: Setting, sessionSeed: Label, j: nat)
    requires WholeRegion(r) && j < r.n
    ensures Offset(j, r.cb) < r.total
    ensures Region.RegionLabels(SeedNames(), sessionSeed, r.cb, r.c, r.total)[Offset(j, r.cb)] == Name(r.c + j)
  {
    hide Offset;
    hide JobsIn;
    hide Region.RegionLabels;
    hide Chunk.ChunkLabels;
    hide Name;
    hide Setting.Valid;
    ChunkSize(r);
    JobAt(r, sessionSeed, j);
    hide WholeRegion;
    var m := Bits.Min(r.cb, r.total - Offset(j, r.cb));
    Region.RegionAt(SeedNames(), sessionSeed, r.cb, r.c, r.total, j, 0);
    ChunkOfSeed(Name(r.c + j), m, 0);
  }

  /** For every hash, every way to seed chunks, every memory and every course of all waves. */
  ghost predicate AlwaysLabelled(r: Setting, pooled: bool)
    requires WholeRegion(r)
  {
    forall p: Chunk.Primitives, sessionSeed: Label {:trigger LabelledUnder(r, p, sessionSeed, pooled)} ::
      LabelledUnder(r, p, sessionSeed, pooled)
  }

  ghost predicate LabelledUnder(r: Setting, p: Chunk.Primitives, sessionSeed: Label, pooled: bool)
    requires WholeRegion(r)
  {
    forall mem: seq<Label>, quiet: WorkerPool.PoolState, traces: seq<Trace>, mem': seq<Label>,
      quiet': WorkerPool.PoolState
      {:trigger RegionEnds(r, p, sessionSeed, pooled, 0, mem, quiet, traces, mem', quiet')} ::
      |mem| == r.memory && RegionEnds(r, p, sessionSeed, pooled, 0, mem, quiet, traces, mem', quiet') ==>
        LabelledTo(r, p, sessionSeed, mem', r.total)
  }

  /** The exact condition on a caller's scratch buffers, for either labeler, on threads as on the pool: the region is
      labelled right in every run if and only if the buffers of its longest wave are pairwise different. */
  lemma RegionCondition(r: Setting, pooled: bool)
    requires WholeRegion(r)
    ensures AlwaysLabelled(r, pooled) <==> r.Distinct()
  {
    hide WholeRegion;
    hide LabelledUnder;
    if r.Distinct() {
      forall p: Chunk.Primitives, sessionSeed: Label
        ensures LabelledUnder(r, p, sessionSeed, pooled)
      {
        DistinctLabels(r, p, sessionSeed, pooled);
      }
    } else {
      NotAlwaysLabelled(r, pooled);
    }
  }

  lemma DistinctLabels(r: Setting, p: Chunk.Primitives, sessionSeed: Label, pooled: bool)
    requires WholeRegion(r) && r.Distinct()
    ensures LabelledUnder(r, p, sessionSeed, pooled)
  {
    hide RegionEnds;
    hide Setting.Distinct;
    hide Offset;
    forall mem: seq<Label>, quiet: WorkerPool.PoolState, traces: seq<Trace>, mem': seq<Label>,
      quiet': WorkerPool.PoolState
      | |mem| == r.memory && RegionEnds(r, p, sessionSeed, pooled, 0, mem, quiet, traces, mem', quiet')
      ensures LabelledTo(r, p, sessionSeed, mem', r.total)
    {
      NothingYet(r, p, sessionSeed, mem);
      WavesLabel(r, p, sessionSeed, pooled, 0, mem, quiet, traces, mem', quiet');
    }
  }

  lemma NothingYet(r: Setting, p: Chunk.Primitives, sessionSeed: Label, mem: seq<Label>)
    requires WholeRegion(r) && |mem| == r.memory
    ensures LabelledTo(r, p, sessionSeed, mem, Bits.Min(r.total, Offset(0, r.cb)))
  {
    OffsetNext(0, r.cb);
    EmptyRegion(p, sessionSeed, r.cb, r.c);
  }

  lemma NotAlwaysLabelled(r: Setting, pooled: bool)
    requires WholeRegion(r) && !r.Distinct()
    ensures !AlwaysLabelled(r, pooled)
  {
    hide RegionEnds;
    hide LabelledTo;
    hide SeedNames;
    hide CanTake;
    var i, j :| 0 <= i < j < |r.scratch| && j < r.n && r.scratch[i] == r.scratch[j];
    var mem := seq(r.memory, _ => Name(0));
    NewPoolReady(r);
    var traces, mem', quiet' := RegionRaces(r, Name(0), mem, NewPool(), pooled, i, j);
    assert !LabelledUnder(r, SeedNames(), Name(0), pooled);
  }
}
