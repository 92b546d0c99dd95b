/** When the scratch buffers of a region wave may be shared: never, as soon as two of its jobs use the same one. */
module ScratchRace {
  import opened Offsets
  import Dag
  import opened Labelling
  import opened SharedMemory
  import opened StraightCode
  import opened Schedules
  import opened RegionLabelers
  import opened RegionWaves
  import ArenaCode
  import opened ChunkProgram
  import opened WaveSetting
  import Chunk
  import WorkerPool

  /** For every hash, every way to seed chunks, every memory and every course on threads, or on the pool. */
  ghost predicate AlwaysRight(w: Setting, pooled: bool)
    requires w.Valid()
  {
    forall p: Chunk.Primitives, sessionSeed: Label {:trigger RightUnder(w, p, sessionSeed, pooled)} ::
      RightUnder(w, p, sessionSeed, pooled)
  }

  ghost predicate RightUnder(w: Setting, p: Chunk.Primitives, sessionSeed: Label, pooled: bool)
    requires w.Valid()
  {
    forall mem: seq<Label>, quiet: WorkerPool.PoolState, trace: Trace
      {:trigger Ends(w, p, sessionSeed, mem, quiet, trace)} ::
      Ends(w, p, sessionSeed, mem, quiet, trace) && trace.OnPool? == pooled ==>
        Right(w, p, sessionSeed, mem, trace.After())
  }

  // ---------- one buffer for two jobs ----------

  /** A hash whose value is the seed, and chunk seeds that name the chunk's index. */
  function SeedNames(): Chunk.Primitives {
    Chunk.Primitives((_, _, _, seed, _) => seed, (_, _) => Name(0), (_: Label, index: nat) => Name(index))
  }

  function Name(index: nat): (l: Label) {
    Label(seq(32, _ => (index % 256) as Byte))
  }

  lemma NamesDiffer(i: nat, j: nat)
    requires i < j < i + 256
    ensures Name(i) != Name(j)
  {
    assert Name(i).bytes[0] == (i % 256) as Byte && Name(j).bytes[0] == (j % 256) as Byte;
  }

  lemma SeedLabels(session: Session, g: Dag.Graph, id: nat)
    requires Dag.WellFormed(g) && id < |g| && session.hash == SeedNames().node
    ensures Labels(session, g)[id] == session.seed
  {
    LabelAt(session, g, id);
  }

  lemma ChunkOfSeed(seed: Label, m: nat, r: nat)
    requires r < m
    ensures Chunk.ChunkLabels(SeedNames(), seed, m)[r] == seed
  {
    hide Chunk.GraphOf;
    hide Chunk.OutputIds;
    hide Labels;
    Chunk.GraphWellFormed(m);
    Chunk.OutputIdsAscend(m);
    Dag.AscendingWithin(Chunk.OutputIds(m), 0, |Chunk.GraphOf(m)|);
    SeedLabels(Chunk.SessionOf(SeedNames(), seed, m), Chunk.GraphOf(m), Chunk.OutputIds(m)[r]);
  }

  /** A finished job leaves its seed in every solid cell. */
  lemma SeedStays(labeler: Labeler, seed: Label, m: nat, lo: nat, cells: seq<Label>, a: nat)
    requires m >= 1 && Cells(labeler, m) <= lo && |cells| == lo + m && a < Solid(labeler, m)
    ensures Below(CodeOf(labeler, m, lo), |cells|) && a < lo
    ensures Exec(Chunk.SessionOf(SeedNames(), seed, m), CodeOf(labeler, m, lo), cells)[a] == seed
  {
    hide Chunk.GraphOf;
    hide Chunk.ChunkLabels;
    hide HashCode;
    hide Found;
    hide ArenaCode.CopyCode;
    hide Exec;
    hide Labels;
    var session := Chunk.SessionOf(SeedNames(), seed, m);
    var ids := Hashed(labeler, SeedNames(), seed, m, cells);
    SolidFits(labeler, m);
    hide Solid;
    hide Cells;
    var after := Exec(session, HashCode(labeler, m), cells);
    assert ids[a] >= 0;
    SeedLabels(session, Chunk.GraphOf(m), ids[a]);
    CopyExec(session, Found(labeler, m), lo, after);
    ExecThen(session, HashCode(labeler, m), ArenaCode.CopyCode(Found(labeler, m), lo), cells);
  }

  /** The first block of job `j` in memory. */
  function FirstBlock(w: Setting, p: Chunk.Primitives, sessionSeed: Label, j: nat): nat
    requires w.Valid() && j < w.n
  {
    w.base + JobsIn(w, p, sessionSeed)[j].dst
  }

  lemma NobodyElses(w: Setting, p: Chunk.Primitives, sessionSeed: Label, j: nat, t: nat)
    requires w.Valid() && j < w.n && t < w.n && t != j
    ensures FirstBlock(w, p, sessionSeed, j) < w.memory
    ensures !RunnersIn(w, p, sessionSeed)[t].place.Owns(FirstBlock(w, p, sessionSeed, j))
  {
    hide Offset;
    hide Cells;
    hide JobsIn;
    hide RunnersIn;
    hide ChunkCode;
    JobFacts(w, p, sessionSeed);
    RunnerIs(w, p, sessionSeed, t);
    RunnerIs(w, p, sessionSeed, j);
    var jobs := JobsIn(w, p, sessionSeed);
    assert t < j ==> jobs[t].dst + jobs[t].m <= jobs[j].dst;
    assert j < t ==> jobs[j].dst + jobs[j].m <= jobs[t].dst;
  }

  lemma FirstBlockSpared(w: Setting, p: Chunk.Primitives, sessionSeed: Label, i: nat, j: nat)
    requires w.Valid() && j < w.n
    ensures Spared(w, p, sessionSeed, i, j, FirstBlock(w, p, sessionSeed, j))
  {
    hide RunnersIn;
    hide JobsIn;
    hide Offset;
    RunnerIs(w, p, sessionSeed, j);
    forall t: nat | t < w.n && t != i && t != j
      ensures !RunnersIn(w, p, sessionSeed)[t].place.Owns(FirstBlock(w, p, sessionSeed, j))
    {
      NobodyElses(w, p, sessionSeed, j, t);
    }
  }

  /** Jobs `i` and `j` have run, nobody else has, and the first block of job `j` holds the seed of job `i`. */
  ghost predicate Stolen(w: Setting, sessionSeed: Label, s: Shared, i: nat, j: nat)
    requires w.Valid() && i < w.n && j < w.n && Begins(w, SeedNames(), sessionSeed, s)
  {
    && OverBelow(w, SeedNames(), sessionSeed, s, i, j, 0)
    && FirstBlock(w, SeedNames(), sessionSeed, j) < w.memory
    && s.mem[FirstBlock(w, SeedNames(), sessionSeed, j)] == JobsIn(w, SeedNames(), sessionSeed)[i].seed
  }

  /** A later job of the wave is not larger. */
  lemma LaterSmaller(w: Setting, p: Chunk.Primitives, sessionSeed: Label, i: nat, j: nat)
    requires w.Valid() && i < j < w.n
    ensures JobsIn(w, p, sessionSeed)[j].m <= JobsIn(w, p, sessionSeed)[i].m
  {
    hide Offset;
    hide JobsIn;
    hide RunnersIn;
    hide ProgramOf;
    hide Cells;
    RunnerIs(w, p, sessionSeed, i);
    RunnerIs(w, p, sessionSeed, j);
    hide Setting.Valid;
    OffsetMonotone(w.k + i, w.k + j, w.cb);
  }

  /** What job `i` leaves behind is what job `j`, on the same buffer, finds. */
  lemma SeedFound(w: Setting, sessionSeed: Label, before: Shared, after: Shared, i: nat, j: nat)
    requires w.Valid() && i < j < w.n && w.scratch[i] == w.scratch[j]
    requires Begins(w, SeedNames(), sessionSeed, before) && Begins(w, SeedNames(), sessionSeed, after)
    requires var runners, job := RunnersIn(w, SeedNames(), sessionSeed), JobsIn(w, SeedNames(), sessionSeed)[i];
             && job.m >= 1 && Below(CodeOf(w.labeler, job.m, w.cells), |View(runners[i].place, before.mem)|)
             && View(runners[i].place, after.mem)
                  == Exec(Chunk.SessionOf(SeedNames(), job.seed, job.m), CodeOf(w.labeler, job.m, w.cells),
                          View(runners[i].place, before.mem))
    ensures var runners, jobs := RunnersIn(w, SeedNames(), sessionSeed), JobsIn(w, SeedNames(), sessionSeed);
            && jobs[j].m >= 1 && Found(w.labeler, jobs[j].m)[0] < |View(runners[j].place, after.mem)|
            && View(runners[j].place, after.mem)[Found(w.labeler, jobs[j].m)[0]] == jobs[i].seed
  {
    hide RunnersIn;
    hide JobsIn;
    hide Offset;
    hide Cells;
    hide Solid;
    hide CodeOf;
    hide HashCode;
    hide Exec;
    hide Found;
    hide SeedNames;
    hide View;
    var p := SeedNames();
    var runners, jobs := RunnersIn(w, p, sessionSeed), JobsIn(w, p, sessionSeed);
    RunnerIs(w, p, sessionSeed, i);
    RunnerIs(w, p, sessionSeed, j);
    LaterSmaller(w, p, sessionSeed, i, j);
    CellsMonotone(w.labeler, jobs[j].m, jobs[i].m);
    CopiesFound(w.labeler, p, jobs[j].seed, jobs[j].m, w.cells, View(runners[j].place, after.mem));
    var a := Found(w.labeler, jobs[j].m)[0];
    SeedStays(w.labeler, jobs[i].seed, jobs[i].m, w.cells, View(runners[i].place, before.mem), a);
    ViewAt(runners[i].place, after.mem, a);
    ViewAt(runners[j].place, after.mem, a);
  }

  /** Having hashed, job `j` copies what it finds to its first block. */
  lemma CopyRun(w: Setting, p: Chunk.Primitives, sessionSeed: Label, s: Shared, j: nat)
    returns (schedule: seq<nat>, last: Shared)
    requires w.Valid() && j < w.n && Begins(w, p, sessionSeed, s) && JobsIn(w, p, sessionSeed)[j].m >= 1
    requires |s.history[j]| == |Accesses(HashCode(w.labeler, JobsIn(w, p, sessionSeed)[j].m))|
    ensures var runners, jobs := RunnersIn(w, p, sessionSeed), JobsIn(w, p, sessionSeed);
            && Interleaved(runners, s, schedule, last) && Begins(w, p, sessionSeed, last)
            && OnlyJob(runners, s, last, j) && JobOver(runners, last, j)
            && FirstBlock(w, p, sessionSeed, j) < w.memory
            && Found(w.labeler, jobs[j].m)[0] < |View(runners[j].place, s.mem)|
            && last.mem[FirstBlock(w, p, sessionSeed, j)]
                 == View(runners[j].place, s.mem)[Found(w.labeler, jobs[j].m)[0]]
  {
    hide RunnersIn;
    hide JobsIn;
    hide Offset;
    hide Cells;
    hide Solid;
    hide CodeOf;
    hide HashCode;
    hide Accesses;
    hide Exec;
    hide Found;
    hide View;
    hide JobOver;
    hide Interleaved;
    hide ArenaCode.CopyCode;
    var runners, job := RunnersIn(w, p, sessionSeed), JobsIn(w, p, sessionSeed)[j];
    RunnerIs(w, p, sessionSeed, j);
    Phases(w.labeler, p, job.seed, job.m, w.cells);
    CopiesFound(w.labeler, p, job.seed, job.m, w.cells, View(runners[j].place, s.mem));
    schedule, last := PhaseRuns(w, p, sessionSeed, s, j, ArenaCode.CopyCode(Found(w.labeler, job.m), w.cells));
    OverNow(w, p, sessionSeed, last, j);
    ViewAt(runners[j].place, last.mem, w.cells);
  }

  /** Job `j` hashes, job `i` runs from beginning to end, job `j` goes on. */
  lemma Steal(w: Setting, sessionSeed: Label, mem: seq<Label>, i: nat, j: nat)
    returns (schedule: seq<nat>, last: Shared)
    requires w.Valid() && i < j < w.n && w.scratch[i] == w.scratch[j] && |mem| == w.memory
    ensures Interleaved(RunnersIn(w, SeedNames(), sessionSeed), Shared(mem, seq(w.n, _ => [])), schedule, last)
    ensures Begins(w, SeedNames(), sessionSeed, last) && Stolen(w, sessionSeed, last, i, j)
  {
    hide RunnersIn;
    hide JobsIn;
    hide Offset;
    hide Cells;
    hide CodeOf;
    hide HashCode;
    hide Accesses;
    hide Exec;
    hide Found;
    hide View;
    hide JobOver;
    hide Interleaved;
    hide SeedNames;
    var p := SeedNames();
    var runners, job, s0 := RunnersIn(w, p, sessionSeed), JobsIn(w, p, sessionSeed)[j], Shared(mem, seq(w.n, _ => []));
    AllFit(w, p, sessionSeed, s0);
    RunnerIs(w, p, sessionSeed, j);
    Phases(w.labeler, p, job.seed, job.m, w.cells);
    var first, s1 := PhaseRuns(w, p, sessionSeed, s0, j, HashCode(w.labeler, job.m));
    var second, s2 := WholeRun(w, p, sessionSeed, s1, i);
    SeedFound(w, sessionSeed, s1, s2, i, j);
    var third;
    third, last := CopyRun(w, p, sessionSeed, s2, j);
    BothOver(w, p, sessionSeed, s0, s1, s2, last, i, j);
    InterleavedThen(runners, s0, first, s1, second, s2);
    InterleavedThen(runners, s0, first + second, s2, third, last);
    schedule := first + second + third;
  }

  lemma BothOver(w: Setting, p: Chunk.Primitives, sessionSeed: Label, s0: Shared, s1: Shared, s2: Shared, s3: Shared,
                 i: nat, j: nat)
    requires w.Valid() && i < j < w.n && Begins(w, p, sessionSeed, s3) && s0.history == seq(w.n, _ => [])
    requires var runners := RunnersIn(w, p, sessionSeed);
             && OnlyJob(runners, s0, s1, j) && OnlyJob(runners, s1, s2, i) && OnlyJob(runners, s2, s3, j)
             && JobOver(runners, s2, i) && JobOver(runners, s3, j)
    ensures OverBelow(w, p, sessionSeed, s3, i, j, 0)
  {
    hide RunnersIn;
    var runners := RunnersIn(w, p, sessionSeed);
    assert s3.history[i] == s2.history[i];
    forall u: nat | u < w.n
      ensures if u < 0 || u == i || u == j then JobOver(runners, s3, u) else s3.history[u] == []
    {
      if u != i && u != j {
        assert s3.history[u] == s2.history[u] == s1.history[u] == s0.history[u];
      }
    }
  }

  /** Two jobs on one buffer: the wave can end with a wrong label at the start of the later one's blocks. */
  lemma SharedRaces(w: Setting, sessionSeed: Label, mem: seq<Label>, quiet: WorkerPool.PoolState, pooled: bool, i: nat,
                    j: nat)
    returns (trace: Trace)
    requires w.Valid() && i < j < w.n && w.scratch[i] == w.scratch[j] && |mem| == w.memory && CanTake(w, quiet)
    ensures Ends(w, SeedNames(), sessionSeed, mem, quiet, trace) && trace.OnPool? == pooled
    ensures CanTake(w, trace.PoolAfter(quiet))
    ensures |trace.After()| == w.memory && FirstBlock(w, SeedNames(), sessionSeed, j) < w.memory
    ensures trace.After()[FirstBlock(w, SeedNames(), sessionSeed, j)] == JobsIn(w, SeedNames(), sessionSeed)[i].seed
  {
    hide RunnersIn;
    hide JobsIn;
    hide Interleaved;
    hide SeedNames;
    hide FirstBlock;
    hide AllOver;
    hide OverBelow;
    hide CanTake;
    hide Ends;
    var p := SeedNames();
    var first, mid := Steal(w, sessionSeed, mem, i, j);
    FirstBlockSpared(w, p, sessionSeed, i, j);
    var rest, last := OthersRun(w, p, sessionSeed, mid, i, j, 0, FirstBlock(w, p, sessionSeed, j));
    InterleavedThen(RunnersIn(w, p, sessionSeed), Shared(mem, seq(w.n, _ => [])), first, mid, rest, last);
    trace := AsTrace(w, p, sessionSeed, mem, quiet, pooled, first + rest, last);
  }

  lemma WrongBlock(w: Setting, sessionSeed: Label, before: seq<Label>, after: seq<Label>, i: nat, j: nat)
    requires w.Valid() && i < j < w.n && |after| == w.memory && FirstBlock(w, SeedNames(), sessionSeed, j) < w.memory
    requires after[FirstBlock(w, SeedNames(), sessionSeed, j)] == JobsIn(w, SeedNames(), sessionSeed)[i].seed
    ensures !Right(w, SeedNames(), sessionSeed, before, after)
  {
    hide JobsIn;
    hide Offset;
    hide Chunk.ChunkLabels;
    hide Name;
    hide Cells;
    hide RunnersIn;
    hide ProgramOf;
    var p := SeedNames();
    var jobs, region := JobsIn(w, p, sessionSeed), after[w.base..w.base + w.total];
    RunnerIs(w, p, sessionSeed, i);
    RunnerIs(w, p, sessionSeed, j);
    assert jobs[i].seed == Name(w.c + (w.k + i)) && jobs[j].seed == Name(w.c + (w.k + j));
    hide SeedNames;
    NamesDiffer(w.c + (w.k + i), w.c + (w.k + j));
    ChunkOfSeed(jobs[j].seed, jobs[j].m, 0);
    assert region[jobs[j].dst..jobs[j].dst + jobs[j].m][0] == region[jobs[j].dst] == after[w.base + jobs[j].dst];
    assert !JobDone(p, jobs[j], 0, region);
  }

  /** The exact condition on the scratch buffers of a wave, for either labeler, every wave of a region, and both ways
      to run it: whatever the hash, the seeds, the memory and the interleaving, the wave is right if and only if its
      jobs' buffers are pairwise different. */
  lemma ScratchCondition(w: Setting, pooled: bool)
    requires w.Valid()
    ensures AlwaysRight(w, pooled) <==> w.Distinct()
  {
    hide Setting.Valid;
    hide RightUnder;
    if w.Distinct() {
      forall p: Chunk.Primitives, sessionSeed: Label
        ensures RightUnder(w, p, sessionSeed, pooled)
      {
        DistinctRight(w, p, sessionSeed, pooled);
      }
    } else {
      NotAlwaysRight(w, pooled);
    }
  }

  lemma DistinctRight(w: Setting, p: Chunk.Primitives, sessionSeed: Label, pooled: bool)
    requires w.Valid() && w.Distinct()
    ensures RightUnder(w, p, sessionSeed, pooled)
  {
    hide Ends;
    hide Right;
    hide Setting.Valid;
    hide Setting.Distinct;
    forall mem: seq<Label>, quiet: WorkerPool.PoolState, trace: Trace | Ends(w, p, sessionSeed, mem, quiet, trace)
      ensures Right(w, p, sessionSeed, mem, trace.After())
    {
      DistinctRun(w, p, sessionSeed, mem, quiet, trace);
    }
  }

  lemma NotAlwaysRight(w: Setting, pooled: bool)
    requires w.Valid() && !w.Distinct()
    ensures !AlwaysRight(w, pooled)
  {
    hide Ends;
    hide Right;
    hide SeedNames;
    hide CanTake;
    hide FirstBlock;
    hide JobsIn;
    var i, j :| 0 <= i < j < |w.scratch| && j < w.n && w.scratch[i] == w.scratch[j];
    var mem := seq(w.memory, _ => Name(0));
    NewPoolReady(w);
    var trace := SharedRaces(w, Name(0), mem, NewPool(), pooled, i, j);
    WrongBlock(w, Name(0), mem, trace.After(), i, j);
    assert !RightUnder(w, SeedNames(), Name(0), pooled);
  }
}
