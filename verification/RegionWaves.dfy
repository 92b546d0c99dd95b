/** The jobs of a region wave at the same time, on threads of their own or on the worker pool. */
module RegionWaves {
  import Labelling
  import opened SharedMemory
  import opened RegionLabelers
  import Chunk
  import ChunkProgram
  import PooledWave
  import WorkerPool

  /** Runner i is a program for job i: alone, it fills the job's blocks of the region with the chunk's labels.
      Its scratch cells lie outside the region, which starts at address `base`. */
  ghost predicate RunnerFor(p: Chunk.Primitives, job: Job, runners: seq<Runner>, mem: seq<Labelling.Label>, base: nat,
                            size: nat, i: nat)
    requires InMemory(runners, |mem|) && i < |runners|
  {
    var place := runners[i].place;
    && 1 <= job.m <= Chunk.MAX_M && place.blocks == base + job.dst && place.m == job.m
    && Separate(place.scratch, place.cells, base, size)
    && Owes(runners, mem, i, Chunk.ChunkLabels(p, job.seed, job.m))
  }

  ghost predicate WaveOf(p: Chunk.Primitives, jobs: seq<Job>, runners: seq<Runner>, mem: seq<Labelling.Label>,
                         base: nat, size: nat) {
    && |runners| == |jobs| && Laid(runners, |mem|) && base + size <= |mem| && InOrder(jobs, size)
    && forall i: nat {:trigger jobs[i]} :: i < |jobs| ==> RunnerFor(p, jobs[i], runners, mem, base, size, i)
  }

  /** The wave has done its work: all jobs are done, and blocks of no job are as they were. */
  ghost predicate WaveDoneIn(p: Chunk.Primitives, jobs: seq<Job>, before: seq<Labelling.Label>,
                             after: seq<Labelling.Label>) {
    && |after| == |before|
    && (forall i {:trigger jobs[i]} :: 0 <= i < |jobs| ==> JobDone(p, jobs[i], 0, after))
    && (forall k: nat {:trigger after[k]} :: k < |after| && !InJob(jobs, k) ==> after[k] == before[k])
  }

  lemma BlockOf(mem: seq<Labelling.Label>, base: nat, size: nat, job: Job)
    requires base + size <= |mem| && job.dst + job.m <= size
    ensures mem[base..base + size][job.dst..job.dst + job.m] == mem[base + job.dst..base + job.dst + job.m]
  {
    var region, block := mem[base..base + size], mem[base + job.dst..base + job.dst + job.m];
    forall k | 0 <= k < job.m
      ensures region[job.dst..job.dst + job.m][k] == block[k]
    {
      assert region[job.dst + k] == mem[base + job.dst + k];
    }
  }

  lemma OutsideJobs(p: Chunk.Primitives, jobs: seq<Job>, runners: seq<Runner>, mem: seq<Labelling.Label>, base: nat,
                    size: nat, k: nat)
    requires WaveOf(p, jobs, runners, mem, base, size) && k < size && !InJob(jobs, k)
    ensures Unowned(runners, base + k)
  {
    hide Owes;
    forall i | 0 <= i < |runners|
      ensures !runners[i].place.Owns(base + k)
    {
      assert RunnerFor(p, jobs[i], runners, mem, base, size, i);
    }
  }

  /** The job's blocks hold its chunk's labels. */
  ghost predicate Labelled(p: Chunk.Primitives, job: Job, base: nat, after: seq<Labelling.Label>) {
    && job.m >= 1 && base + job.dst + job.m <= |after|
    && after[base + job.dst..base + job.dst + job.m] == Chunk.ChunkLabels(p, job.seed, job.m)
  }

  lemma DoneInRegion(p: Chunk.Primitives, jobs: seq<Job>, runners: seq<Runner>, mem: seq<Labelling.Label>,
                     after: seq<Labelling.Label>, base: nat, size: nat)
    requires WaveOf(p, jobs, runners, mem, base, size) && |after| == |mem|
    requires forall i {:trigger jobs[i]} :: 0 <= i < |jobs| ==> Labelled(p, jobs[i], base, after)
    requires forall k: nat {:trigger Unowned(runners, k)} :: k < |mem| && Unowned(runners, k) ==> after[k] == mem[k]
    ensures WaveDoneIn(p, jobs, mem[base..base + size], after[base..base + size])
  {
    hide Chunk.ChunkLabels;
    hide Owes;
    forall i | 0 <= i < |jobs|
      ensures JobDone(p, jobs[i], 0, after[base..base + size])
    {
      assert RunnerFor(p, jobs[i], runners, mem, base, size, i);
      BlockOf(after, base, size, jobs[i]);
    }
    forall k: nat | k < size && !InJob(jobs, k)
      ensures after[base..base + size][k] == mem[base..base + size][k]
    {
      OutsideJobs(p, jobs, runners, mem, base, size, k);
    }
  }

  /** One thread per job, joined at the end: in any interleaving of their accesses the wave labels its blocks
      and leaves the rest of the region alone, exactly as the jobs run one after another do. */
  lemma JoinedRegionWave(p: Chunk.Primitives, jobs: seq<Job>, runners: seq<Runner>, mem: seq<Labelling.Label>,
                         base: nat, size: nat, s: Shared, schedule: seq<nat>, last: Shared)
    requires WaveOf(p, jobs, runners, mem, base, size) && Begun(runners, mem, s)
    requires Interleaved(runners, s, schedule, last) && AllOver(runners, last)
    ensures |last.mem| == |mem|
    ensures WaveDoneIn(p, jobs, mem[base..base + size], last.mem[base..base + size])
  {
    hide Chunk.ChunkLabels;
    hide Owes;
    hide JobOver;
    hide Laid;
    StartAsAlone(runners, mem, s);
    InterleavedAsAlone(runners, mem, s, schedule, last);
    LastShape(runners, mem, last);
    forall i | 0 <= i < |jobs|
      ensures Labelled(p, jobs[i], base, last.mem)
    {
      assert RunnerFor(p, jobs[i], runners, mem, base, size, i);
      assert JobOver(runners, last, i);
      JoinedWave(runners, mem, s, schedule, last, i, Chunk.ChunkLabels(p, jobs[i].seed, jobs[i].m));
    }
    DoneInRegion(p, jobs, runners, mem, last.mem, base, size);
  }

  lemma LastShape(runners: seq<Runner>, mem: seq<Labelling.Label>, last: Shared)
    requires AsAlone(runners, mem, last)
    ensures |last.history| == |runners| && |last.mem| == |mem| && Laid(runners, |mem|)
    ensures forall k: nat {:trigger Unowned(runners, k)} :: k < |mem| && Unowned(runners, k) ==> last.mem[k] == mem[k]
  {
  }

  /** The same on the worker pool: when the submitter is past the barrier, the wave has done its work, whatever
      the order of the protocol's steps and of the jobs' accesses. */
  lemma PooledRegionWave(p: Chunk.Primitives, jobs: seq<Job>, runners: seq<Runner>, mem: seq<Labelling.Label>,
                         base: nat, size: nat, quiet: WorkerPool.PoolState, s: PooledWave.WaveState,
                         moves: seq<PooledWave.Move>, last: PooledWave.WaveState)
    requires WaveOf(p, jobs, runners, mem, base, size)
    requires PooledWave.JustPosted(runners, mem, quiet, s) && PooledWave.WaveRuns(runners, s, moves, last)
    requires last.pool.submitter.Idle?
    ensures |last.shared.mem| == |mem| && WorkerPool.Inv(last.pool)
    ensures WaveDoneIn(p, jobs, mem[base..base + size], last.shared.mem[base..base + size])
  {
    hide Chunk.ChunkLabels;
    hide Owes;
    hide Laid;
    hide PooledWave.JustPosted;
    hide PooledWave.WaveRuns;
    PooledWave.PostedInv(runners, mem, quiet, s);
    PooledWave.RunKeeps(runners, mem, s, moves, last);
    LastShape(runners, mem, last.shared);
    forall i | 0 <= i < |jobs|
      ensures Labelled(p, jobs[i], base, last.shared.mem)
    {
      assert RunnerFor(p, jobs[i], runners, mem, base, size, i);
      PooledWave.PooledJobs(runners, mem, quiet, s, moves, last, i, Chunk.ChunkLabels(p, jobs[i].seed, jobs[i].m));
    }
    DoneInRegion(p, jobs, runners, mem, last.shared.mem, base, size);
  }

  // ---------- the library's labelers ----------

  /** The program of one job, on `cells` scratch cells from address `scratch` on. */
  function ProgramOf(labeler: ChunkProgram.Labeler, p: Chunk.Primitives, job: Job, scratch: nat, cells: nat,
                     base: nat): Runner
    requires job.m >= 1
  {
    Runner(ChunkProgram.ChunkCode(labeler, p, job.seed, job.m, cells),
           Place(scratch, cells, base + job.dst, job.m))
  }

  /** The jobs' programs, job i on the scratch cells from address `scratch[i]` on. */
  function Programs(labeler: ChunkProgram.Labeler, p: Chunk.Primitives, jobs: seq<Job>, scratch: seq<nat>, cells: nat,
                    base: nat): (runners: seq<Runner>)
    requires |jobs| <= |scratch| && forall i {:trigger jobs[i]} :: 0 <= i < |jobs| ==> jobs[i].m >= 1
    ensures |runners| == |jobs|
    ensures forall i {:trigger runners[i]} :: 0 <= i < |jobs| ==>
              runners[i] == ProgramOf(labeler, p, jobs[i], scratch[i], cells, base)
  {
    hide ProgramOf;
    seq(|jobs|, i requires 0 <= i < |jobs| => ProgramOf(labeler, p, jobs[i], scratch[i], cells, base))
  }

  /** Scratch ranges lie in memory, apart from the region. */
  ghost predicate ScratchInMemory(scratch: seq<nat>, cells: nat, base: nat, size: nat, all: nat) {
    forall i {:trigger scratch[i]} :: 0 <= i < |scratch| ==>
      scratch[i] + cells <= all && Separate(scratch[i], cells, base, size)
  }

  /** No two of the first `n` scratch ranges share a cell. */
  ghost predicate ScratchApart(scratch: seq<nat>, n: nat, cells: nat) {
    forall i, j {:trigger scratch[i], scratch[j]} :: 0 <= i < j < |scratch| && j < n ==>
      Separate(scratch[i], cells, scratch[j], cells)
  }

  /** Sizes the labelers accept, on scratch of the documented size. */
  ghost predicate Sized(labeler: ChunkProgram.Labeler, jobs: seq<Job>, cells: nat) {
    forall i {:trigger jobs[i]} :: 0 <= i < |jobs| ==>
      1 <= jobs[i].m <= Chunk.MAX_M && ChunkProgram.Cells(labeler, jobs[i].m) <= cells
  }

  lemma ProgramsFit(labeler: ChunkProgram.Labeler, p: Chunk.Primitives, jobs: seq<Job>, scratch: seq<nat>, cells: nat,
                    all: nat, base: nat, size: nat)
    requires |jobs| <= |scratch| && InOrder(jobs, size) && base + size <= all
    requires ScratchInMemory(scratch, cells, base, size, all) && Sized(labeler, jobs, cells)
    ensures InMemory(Programs(labeler, p, jobs, scratch, cells, base), all)
  {
    hide ChunkProgram.ChunkCode;
    hide ChunkProgram.Cells;
    var runners := Programs(labeler, p, jobs, scratch, cells, base);
    forall i | 0 <= i < |runners|
      ensures runners[i].place.Fits(all)
    {
      assert jobs[i].dst + jobs[i].m <= size && scratch[i] + cells <= all;
    }
  }

  /** With private scratch the programs of either labeler make a wave. */
  lemma ProgramsWave(labeler: ChunkProgram.Labeler, p: Chunk.Primitives, jobs: seq<Job>, scratch: seq<nat>, cells: nat,
                     mem: seq<Labelling.Label>, base: nat, size: nat)
    requires |jobs| <= |scratch| && InOrder(jobs, size) && base + size <= |mem| && Sized(labeler, jobs, cells)
    requires ScratchInMemory(scratch, cells, base, size, |mem|) && ScratchApart(scratch, |jobs|, cells)
    ensures WaveOf(p, jobs, Programs(labeler, p, jobs, scratch, cells, base), mem, base, size)
  {
    hide Chunk.ChunkLabels;
    hide ChunkProgram.ChunkCode;
    hide ChunkProgram.Cells;
    hide Fills;
    hide View;
    var runners := Programs(labeler, p, jobs, scratch, cells, base);
    ProgramsFit(labeler, p, jobs, scratch, cells, |mem|, base, size);
    forall i, j | 0 <= i < j < |runners|
      ensures Apart(runners[i].place, runners[j].place)
    {
      assert jobs[i].dst + jobs[i].m <= jobs[j].dst && jobs[j].dst + jobs[j].m <= size;
      assert Separate(scratch[i], cells, scratch[j], cells);
    }
    forall i: nat | i < |jobs|
      ensures RunnerFor(p, jobs[i], runners, mem, base, size, i)
    {
      assert scratch[i] + cells <= |mem| && runners[i] == runners[i];
      ChunkProgram.ChunkCodeFills(labeler, p, jobs[i].seed, jobs[i].m, cells, View(runners[i].place, mem));
    }
  }
}
