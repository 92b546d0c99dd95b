/** One wave of a region labeler, for either labeler, on threads of their own or on the worker pool. */
module WaveSetting {
  import Bits
  import opened Offsets
  import opened Labelling
  import opened SharedMemory
  import opened StraightCode
  import opened Schedules
  import opened RegionLabelers
  import opened RegionWaves
  import ArenaCode
  import opened ChunkProgram
  import Chunk
  import Region
  import WorkerPool
  import PooledWave
  import PooledSchedules

  // ---------- a wave of a region ----------

  /** A wave of `n` jobs of a region of `total` blocks at address `base`: chunks `k` to `k + n - 1`, job i on the
      scratch buffer at address `scratch[i]`. The region starts with chunk `c` of the disk; for the in-place labeler,
      which leaves a short tail alone, it ends with the last whole chunk. */
  datatype Setting = Setting(labeler: Labeler, cb: nat, c: nat, total: nat, k: nat, n: nat, scratch: seq<nat>,
                             cells: nat, base: nat, memory: nat) {
    /** What the callers promise, except that buffers may be equal. */
    ghost predicate Valid() {
      && cb >= 1 && 1 <= n <= REGION_THREADS && n <= |scratch| && Offset(k + n - 1, cb) < total
      && Bits.Min(cb, total) <= Chunk.MAX_M
      && Cells(labeler, cb) <= cells && base + total <= memory
      && ScratchInMemory(scratch, cells, base, total, memory)
      && forall i, j {:trigger scratch[i], scratch[j]} :: 0 <= i < j < |scratch| ==>
           scratch[i] == scratch[j] || Separate(scratch[i], cells, scratch[j], cells)
    }

    /** The wave's jobs use different buffers. */
    predicate Distinct() {
      forall i, j {:trigger scratch[i], scratch[j]} :: 0 <= i < j < |scratch| && j < n ==> scratch[i] != scratch[j]
    }
  }

  /** The jobs of chunks `k` to `k + n - 1`. */
  function JobsOf(p: Chunk.Primitives, sessionSeed: Label, cb: nat, c: nat, total: nat, k: nat,
                  n: nat): (jobs: seq<Job>)
    requires cb >= 1 && n >= 1 && Offset(k + n - 1, cb) < total
    ensures |jobs| == n && IsWave(p, sessionSeed, cb, c, total, k, jobs, Bits.Min(total, Offset(k + n, cb)))
    decreases n
  {
    hide Offset;
    var last := ChunkJob(p, sessionSeed, cb, c, total, k + n - 1);
    if n == 1 then [last]
    else
      OffsetMonotone(k + n - 2, k + n - 1, cb);
      JobsOf(p, sessionSeed, cb, c, total, k, n - 1) + [last]
  }

  function JobsIn(w: Setting, p: Chunk.Primitives, sessionSeed: Label): (jobs: seq<Job>)
    requires w.Valid()
    ensures |jobs| == w.n
  {
    JobsOf(p, sessionSeed, w.cb, w.c, w.total, w.k, w.n)
  }

  /** What the labelers need of a wave's jobs. */
  lemma JobFacts(w: Setting, p: Chunk.Primitives, sessionSeed: Label)
    requires w.Valid()
    ensures var jobs := JobsIn(w, p, sessionSeed);
            InOrder(jobs, w.total) && Sized(w.labeler, jobs, w.cells)
  {
    hide Offset;
    hide Cells;
    hide IsWave;
    hide InOrder;
    var jobs := JobsIn(w, p, sessionSeed);
    WaveInOrder(p, sessionSeed, w.cb, w.c, w.total, w.k, jobs, Bits.Min(w.total, Offset(w.k + w.n, w.cb)));
    forall i {:trigger jobs[i]} | 0 <= i < |jobs|
      ensures 1 <= jobs[i].m <= Chunk.MAX_M && Cells(w.labeler, jobs[i].m) <= w.cells
    {
      CellsMonotone(w.labeler, jobs[i].m, w.cb);
    }
  }

  lemma CellsMonotone(labeler: Labeler, m: nat, m': nat)
    requires m <= m'
    ensures Cells(labeler, m) <= Cells(labeler, m') && Solid(labeler, m) <= Solid(labeler, m')
  {
    Region.ScratchMonotone(m, m');
    Region.ParamNMonotone(m, m');
    Bits.Pow2Monotone(Chunk.ParamN(m), Chunk.ParamN(m'));
  }

  function RunnersIn(w: Setting, p: Chunk.Primitives, sessionSeed: Label): (runners: seq<Runner>)
    requires w.Valid()
    ensures |runners| == w.n
  {
    JobFacts(w, p, sessionSeed);
    Programs(w.labeler, p, JobsIn(w, p, sessionSeed), w.scratch, w.cells, w.base)
  }

  // ---------- how a wave can end ----------

  /** A complete execution of a wave: the order of the accesses of threads that are joined at the end, or protocol
      steps and accesses on the worker pool. */
  datatype Trace =
    | OnThreads(schedule: seq<nat>, last: Shared)
    | OnPool(s: PooledWave.WaveState, moves: seq<PooledWave.Move>, end: PooledWave.WaveState)
  {
    /** The memory it leaves. */
    function After(): seq<Label> {
      match this
      case OnThreads(_, last) => last.mem
      case OnPool(_, _, end) => end.shared.mem
    }

    /** The pool it leaves, if it was `quiet` before. */
    function PoolAfter(quiet: WorkerPool.PoolState): WorkerPool.PoolState {
      match this
      case OnThreads(_, _) => quiet
      case OnPool(_, _, end) => end.pool
    }
  }

  /** The wave, begun on memory `mem`, can take this course. */
  ghost predicate Ends(w: Setting, p: Chunk.Primitives, sessionSeed: Label, mem: seq<Label>,
                       quiet: WorkerPool.PoolState, trace: Trace)
    requires w.Valid()
  {
    && |mem| == w.memory
    && match trace
       case OnThreads(schedule, last) =>
         Interleaved(RunnersIn(w, p, sessionSeed), Shared(mem, seq(w.n, _ => [])), schedule, last)
         && AllOver(RunnersIn(w, p, sessionSeed), last)
       case OnPool(s, moves, end) =>
         PooledWave.JustPosted(RunnersIn(w, p, sessionSeed), mem, quiet, s)
         && PooledWave.WaveRuns(RunnersIn(w, p, sessionSeed), s, moves, end) && end.pool.submitter.Idle?
  }

  /** The wave has labelled its blocks and left the rest of the region alone. */
  ghost predicate Right(w: Setting, p: Chunk.Primitives, sessionSeed: Label, before: seq<Label>, after: seq<Label>)
    requires w.Valid()
  {
    && |before| == |after| == w.memory
    && WaveDoneIn(p, JobsIn(w, p, sessionSeed), before[w.base..w.base + w.total], after[w.base..w.base + w.total])
  }

  lemma DistinctWave(w: Setting, p: Chunk.Primitives, sessionSeed: Label, mem: seq<Label>)
    requires w.Valid() && w.Distinct() && |mem| == w.memory
    ensures WaveOf(p, JobsIn(w, p, sessionSeed), RunnersIn(w, p, sessionSeed), mem, w.base, w.total)
  {
    hide Cells;
    hide WaveOf;
    hide Programs;
    JobFacts(w, p, sessionSeed);
    ProgramsWave(w.labeler, p, JobsIn(w, p, sessionSeed), w.scratch, w.cells, mem, w.base, w.total);
  }

  /** On different buffers the wave is right, whatever course it takes. */
  lemma DistinctRun(w: Setting, p: Chunk.Primitives, sessionSeed: Label, mem: seq<Label>,
                    quiet: WorkerPool.PoolState, trace: Trace)
    requires w.Valid() && w.Distinct() && Ends(w, p, sessionSeed, mem, quiet, trace)
    ensures Right(w, p, sessionSeed, mem, trace.After())
    ensures trace.OnPool? ==> WorkerPool.Inv(trace.PoolAfter(quiet))
  {
    hide WaveOf;
    hide Interleaved;
    hide WaveDoneIn;
    hide AllOver;
    hide PooledWave.JustPosted;
    hide PooledWave.WaveRuns;
    hide Setting.Distinct;
    hide JobsIn;
    hide RunnersIn;
    hide WorkerPool.Inv;
    DistinctWave(w, p, sessionSeed, mem);
    var jobs, runners := JobsIn(w, p, sessionSeed), RunnersIn(w, p, sessionSeed);
    WaveInMemory(p, jobs, runners, mem, w.base, w.total);
    hide Setting.Valid;
    match trace
    case OnThreads(schedule, last) =>
      JoinedRegionWave(p, jobs, runners, mem, w.base, w.total, Shared(mem, seq(w.n, _ => [])), schedule, last);
    case OnPool(s, moves, end) =>
      PooledRegionWave(p, jobs, runners, mem, w.base, w.total, quiet, s, moves, end);
  }

  lemma WaveInMemory(p: Chunk.Primitives, jobs: seq<Job>, runners: seq<Runner>, mem: seq<Label>, base: nat, size: nat)
    requires WaveOf(p, jobs, runners, mem, base, size)
    ensures InMemory(runners, |mem|)
  {
  }

  // ---------- a job that runs while the others wait ----------

  lemma RunnerIs(w: Setting, p: Chunk.Primitives, sessionSeed: Label, t: nat)
    requires w.Valid() && t < w.n
    ensures var jobs, runners := JobsIn(w, p, sessionSeed), RunnersIn(w, p, sessionSeed);
            && Offset(w.k + t, w.cb) < w.total && jobs[t] == ChunkJob(p, sessionSeed, w.cb, w.c, w.total, w.k + t)
            && jobs[t].m >= 1 && Cells(w.labeler, jobs[t].m) <= w.cells && jobs[t].dst + jobs[t].m <= w.total
            && runners[t] == ProgramOf(w.labeler, p, jobs[t], w.scratch[t], w.cells, w.base)
            && runners[t].place.Fits(w.memory) && Separate(w.scratch[t], w.cells, w.base, w.total)
  {
    hide Offset;
    hide Cells;
    hide ProgramOf;
    hide JobsOf;
    JobFacts(w, p, sessionSeed);
    var jobs, runners := JobsIn(w, p, sessionSeed), RunnersIn(w, p, sessionSeed);
    ProgramsFit(w.labeler, p, jobs, w.scratch, w.cells, w.memory, w.base, w.total);
    assert IsJob(p, sessionSeed, w.cb, w.c, w.total, w.k + t, jobs[t]);
    assert runners[t] == runners[t];
  }

  ghost predicate Begins(w: Setting, p: Chunk.Primitives, sessionSeed: Label, s: Shared)
    requires w.Valid()
  {
    |s.mem| == w.memory && Shape(RunnersIn(w, p, sessionSeed), s)
  }

  /** Job `t` at the beginning of one of its two phases, or of both, goes through it while the others wait. */
  lemma PhaseRuns(w: Setting, p: Chunk.Primitives, sessionSeed: Label, s: Shared, t: nat, code: Code)
    returns (schedule: seq<nat>, last: Shared)
    requires w.Valid() && t < w.n && Begins(w, p, sessionSeed, s)
    requires JobsIn(w, p, sessionSeed)[t].m >= 1
    requires Here(Accesses(CodeOf(w.labeler, JobsIn(w, p, sessionSeed)[t].m, w.cells)), |s.history[t]|, Accesses(code))
    requires Below(code, w.cells + JobsIn(w, p, sessionSeed)[t].m)
    ensures var runners, job := RunnersIn(w, p, sessionSeed), JobsIn(w, p, sessionSeed)[t];
            && Interleaved(runners, s, schedule, last) && Begins(w, p, sessionSeed, last)
            && OnlyJob(runners, s, last, t) && Below(code, |View(runners[t].place, s.mem)|)
            && View(runners[t].place, last.mem)
                 == Exec(Chunk.SessionOf(p, job.seed, job.m), code, View(runners[t].place, s.mem))
            && |last.history[t]| == |s.history[t]| + |Accesses(code)|
  {
    hide CodeOf;
    hide Accesses;
    hide Exec;
    hide View;
    hide Running;
    hide Interleaved;
    hide JobsIn;
    hide RunnersIn;
    hide Offset;
    RunnerIs(w, p, sessionSeed, t);
    var job := JobsIn(w, p, sessionSeed)[t];
    schedule, last := CodeInARow(RunnersIn(w, p, sessionSeed), s, t, Chunk.SessionOf(p, job.seed, job.m),
                                 Accesses(CodeOf(w.labeler, job.m, w.cells)), code);
  }

  /** The two phases, as parts of the job's accesses. */
  lemma Phases(labeler: Labeler, p: Chunk.Primitives, seed: Label, m: nat, lo: nat)
    requires m >= 1 && Cells(labeler, m) <= lo
    ensures Below(CodeOf(labeler, m, lo), lo + m) && Below(HashCode(labeler, m), lo + m)
    ensures Below(ArenaCode.CopyCode(Found(labeler, m), lo), lo + m)
    ensures var ops, hash, copy := Accesses(CodeOf(labeler, m, lo)), Accesses(HashCode(labeler, m)),
              Accesses(ArenaCode.CopyCode(Found(labeler, m), lo));
            ops == hash + copy && Here(ops, 0, ops) && Here(ops, 0, hash) && Here(ops, |hash|, copy)
  {
    hide Accesses;
    hide HashCode;
    hide Found;
    hide Cells;
    hide ArenaCode.CopyCode;
    hide Exec;
    var cells := seq(lo + m, _ => seed);
    ChunkExec(labeler, p, seed, m, lo, cells);
    CopiesFound(labeler, p, seed, m, lo, cells);
    AccessesThen(HashCode(labeler, m), ArenaCode.CopyCode(Found(labeler, m), lo));
    var ops := Accesses(CodeOf(labeler, m, lo));
    HereSelf(ops);
    HereParts(ops, 0, Accesses(HashCode(labeler, m)), Accesses(ArenaCode.CopyCode(Found(labeler, m), lo)));
  }

  lemma OverNow(w: Setting, p: Chunk.Primitives, sessionSeed: Label, s: Shared, t: nat)
    requires w.Valid() && t < w.n && Begins(w, p, sessionSeed, s) && JobsIn(w, p, sessionSeed)[t].m >= 1
    requires |s.history[t]| == |Accesses(CodeOf(w.labeler, JobsIn(w, p, sessionSeed)[t].m, w.cells))|
    ensures JobOver(RunnersIn(w, p, sessionSeed), s, t)
  {
    hide CodeOf;
    hide Accesses;
    hide JobsIn;
    hide RunnersIn;
    hide Offset;
    RunnerIs(w, p, sessionSeed, t);
  }

  /** Job `t` from beginning to end. */
  lemma WholeRun(w: Setting, p: Chunk.Primitives, sessionSeed: Label, s: Shared, t: nat)
    returns (schedule: seq<nat>, last: Shared)
    requires w.Valid() && t < w.n && Begins(w, p, sessionSeed, s) && s.history[t] == []
    ensures var runners, job := RunnersIn(w, p, sessionSeed), JobsIn(w, p, sessionSeed)[t];
            && job.m >= 1 && Interleaved(runners, s, schedule, last) && Begins(w, p, sessionSeed, last)
            && OnlyJob(runners, s, last, t) && JobOver(runners, last, t)
            && Below(CodeOf(w.labeler, job.m, w.cells), |View(runners[t].place, s.mem)|)
            && View(runners[t].place, last.mem)
                 == Exec(Chunk.SessionOf(p, job.seed, job.m), CodeOf(w.labeler, job.m, w.cells),
                         View(runners[t].place, s.mem))
  {
    hide CodeOf;
    hide Accesses;
    hide Exec;
    hide View;
    hide Interleaved;
    hide JobsIn;
    hide RunnersIn;
    hide JobOver;
    hide Offset;
    hide Cells;
    RunnerIs(w, p, sessionSeed, t);
    var job := JobsIn(w, p, sessionSeed)[t];
    Phases(w.labeler, p, job.seed, job.m, w.cells);
    schedule, last := PhaseRuns(w, p, sessionSeed, s, t, CodeOf(w.labeler, job.m, w.cells));
    OverNow(w, p, sessionSeed, last, t);
  }

  /** A job that has hashed copies what it finds. */
  lemma CopiesFound(labeler: Labeler, p: Chunk.Primitives, seed: Label, m: nat, lo: nat, cells: seq<Label>)
    requires m >= 1 && Cells(labeler, m) <= lo && |cells| == lo + m
    ensures Below(HashCode(labeler, m), |cells|) && Below(ArenaCode.CopyCode(Found(labeler, m), lo), |cells|)
    ensures Found(labeler, m)[0] < Solid(labeler, m) <= lo
    ensures Exec(Chunk.SessionOf(p, seed, m), ArenaCode.CopyCode(Found(labeler, m), lo), cells)[lo]
              == cells[Found(labeler, m)[0]]
  {
    hide Chunk.ChunkLabels;
    hide HashCode;
    hide Found;
    hide ArenaCode.CopyCode;
    hide Exec;
    hide Stands;
    var ids := Hashed(labeler, p, seed, m, cells);
    SolidFits(labeler, m);
    hide Solid;
    hide Cells;
    CopyExec(Chunk.SessionOf(p, seed, m), Found(labeler, m), lo, cells);
    assert Found(labeler, m)[0] < lo;
  }

  /** Address `x` belongs to no job but `i` and `j`. */
  ghost predicate Spared(w: Setting, p: Chunk.Primitives, sessionSeed: Label, i: nat, j: nat, x: nat)
    requires w.Valid()
  {
    x < w.memory
    && forall t: nat {:trigger RunnersIn(w, p, sessionSeed)[t]} :: t < w.n && t != i && t != j ==>
         !RunnersIn(w, p, sessionSeed)[t].place.Owns(x)
  }

  /** Jobs below `t`, `i` and `j` are over, all others have not begun. */
  ghost predicate OverBelow(w: Setting, p: Chunk.Primitives, sessionSeed: Label, s: Shared, i: nat, j: nat, t: nat)
    requires w.Valid() && Begins(w, p, sessionSeed, s)
  {
    forall u: nat {:trigger JobOver(RunnersIn(w, p, sessionSeed), s, u)} {:trigger s.history[u]} :: u < w.n ==>
      if u < t || u == i || u == j then JobOver(RunnersIn(w, p, sessionSeed), s, u) else s.history[u] == []
  }

  lemma OverNext(w: Setting, p: Chunk.Primitives, sessionSeed: Label, s: Shared, mid: Shared, i: nat, j: nat, t: nat)
    requires w.Valid() && Begins(w, p, sessionSeed, s) && Begins(w, p, sessionSeed, mid) && t < w.n
    requires OverBelow(w, p, sessionSeed, s, i, j, t) && OnlyJob(RunnersIn(w, p, sessionSeed), s, mid, t)
    requires JobOver(RunnersIn(w, p, sessionSeed), mid, t)
    ensures OverBelow(w, p, sessionSeed, mid, i, j, t + 1)
  {
    hide RunnersIn;
    var runners := RunnersIn(w, p, sessionSeed);
    forall u: nat | u < w.n
      ensures if u < t + 1 || u == i || u == j then JobOver(runners, mid, u) else mid.history[u] == []
    {
      if u != t {
        assert mid.history[u] == s.history[u];
        assert JobOver(runners, s, u) == JobOver(runners, mid, u);
      }
    }
  }

  /** The other jobs run to their ends, one after another, and leave what is none of theirs alone. */
  lemma {:induction false} OthersRun(w: Setting, p: Chunk.Primitives, sessionSeed: Label, s: Shared, i: nat, j: nat,
                                     t: nat, x: nat)
    returns (schedule: seq<nat>, last: Shared)
    requires w.Valid() && Begins(w, p, sessionSeed, s) && t <= w.n && Spared(w, p, sessionSeed, i, j, x)
    requires OverBelow(w, p, sessionSeed, s, i, j, t)
    ensures Interleaved(RunnersIn(w, p, sessionSeed), s, schedule, last) && Begins(w, p, sessionSeed, last)
    ensures AllOver(RunnersIn(w, p, sessionSeed), last) && last.mem[x] == s.mem[x]
    decreases w.n - t
  {
    hide RunnersIn;
    hide JobOver;
    hide CodeOf;
    hide Exec;
    hide View;
    hide JobsIn;
    hide Offset;
    var runners := RunnersIn(w, p, sessionSeed);
    if t == w.n {
      schedule, last := [], s;
    } else if t == i || t == j {
      assert OverBelow(w, p, sessionSeed, s, i, j, t + 1);
      schedule, last := OthersRun(w, p, sessionSeed, s, i, j, t + 1, x);
    } else {
      assert s.history[t] == [];
      var first, mid := WholeRun(w, p, sessionSeed, s, t);
      assert !runners[t].place.Owns(x);
      OverNext(w, p, sessionSeed, s, mid, i, j, t);
      var rest;
      rest, last := OthersRun(w, p, sessionSeed, mid, i, j, t + 1, x);
      InterleavedThen(runners, s, first, mid, rest, last);
      schedule := first + rest;
    }
  }

  // ---------- courses a wave can take ----------

  lemma AllFit(w: Setting, p: Chunk.Primitives, sessionSeed: Label, s: Shared)
    requires w.Valid() && |s.mem| == w.memory && |s.history| == w.n
    ensures Begins(w, p, sessionSeed, s)
  {
    hide RunnersIn;
    forall t | 0 <= t < w.n
      ensures RunnersIn(w, p, sessionSeed)[t].place.Fits(w.memory)
    {
      RunnerIs(w, p, sessionSeed, t);
    }
  }

  /** The pool can take the wave's jobs. */
  ghost predicate CanTake(w: Setting, quiet: WorkerPool.PoolState) {
    PooledSchedules.Ready(quiet) && |quiet.workers| >= REGION_THREADS - 1
  }

  /** What threads can do the pool can do. */
  lemma AsTrace(w: Setting, p: Chunk.Primitives, sessionSeed: Label, mem: seq<Label>, quiet: WorkerPool.PoolState,
                pooled: bool, schedule: seq<nat>, last: Shared)
    returns (trace: Trace)
    requires w.Valid() && |mem| == w.memory && CanTake(w, quiet)
    requires Interleaved(RunnersIn(w, p, sessionSeed), Shared(mem, seq(w.n, _ => [])), schedule, last)
    requires AllOver(RunnersIn(w, p, sessionSeed), last)
    ensures Ends(w, p, sessionSeed, mem, quiet, trace) && trace.OnPool? == pooled && trace.After() == last.mem
    ensures CanTake(w, trace.PoolAfter(quiet))
  {
    hide RunnersIn;
    hide WorkerPool.Inv;
    hide PooledWave.JustPosted;
    hide PooledWave.WaveRuns;
    hide Interleaved;
    hide AllOver;
    if pooled {
      AllFit(w, p, sessionSeed, Shared(mem, seq(w.n, _ => [])));
      PooledWave.InvShape(quiet);
      var s, moves, end := PooledSchedules.OnPool(RunnersIn(w, p, sessionSeed), mem, quiet, schedule, last);
      trace := OnPool(s, moves, end);
    } else {
      trace := OnThreads(schedule, last);
    }
  }

  /** A wave can always be brought to its end, on any buffers, without touching what is none of its jobs'. */
  lemma WaveCanEnd(w: Setting, p: Chunk.Primitives, sessionSeed: Label, mem: seq<Label>, quiet: WorkerPool.PoolState,
                   pooled: bool, x: nat)
    returns (trace: Trace)
    requires w.Valid() && |mem| == w.memory && CanTake(w, quiet) && Spared(w, p, sessionSeed, w.n, w.n, x)
    ensures Ends(w, p, sessionSeed, mem, quiet, trace) && trace.OnPool? == pooled
    ensures CanTake(w, trace.PoolAfter(quiet)) && |trace.After()| == w.memory && trace.After()[x] == mem[x]
  {
    hide RunnersIn;
    hide Interleaved;
    hide AllOver;
    hide CanTake;
    hide JobOver;
    var s0 := Shared(mem, seq(w.n, _ => []));
    AllFit(w, p, sessionSeed, s0);
    assert OverBelow(w, p, sessionSeed, s0, w.n, w.n, 0);
    var schedule, last := OthersRun(w, p, sessionSeed, s0, w.n, w.n, 0, x);
    trace := AsTrace(w, p, sessionSeed, mem, quiet, pooled, schedule, last);
  }

  /** A pool that has just been created. */
  function NewPool(): WorkerPool.PoolState {
    var workers := REGION_THREADS - 1;
    WorkerPool.PoolState(seq(workers, _ => WorkerPool.Wants), seq(workers, _ => WorkerPool.Empty), WorkerPool.Nobody,
                         0, 0, false, WorkerPool.Idle, 0, 0, seq(workers, _ => 0), 0)
  }

  lemma NewPoolReady(w: Setting)
    ensures CanTake(w, NewPool())
  {
    WorkerPool.InitialInv(NewPool());
  }
}
