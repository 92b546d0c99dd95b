/** A wave on the worker pool, down to single accesses: a worker that runs its ticket, and the submitter in its own
    job, work on their labels while everybody else goes on.
 */
module PooledWave {
  import opened Labelling
  import opened SharedMemory
  import opened Pool = WorkerPool

  /** Worker i runs job i; the submitter runs the last job. */
  datatype WaveState = WaveState(pool: PoolState, shared: Shared)

  datatype Move = Protocol(step: Step) | Work(i: nat)

  ghost predicate Proper(jobs: seq<Runner>, s: WaveState) {
    |jobs| >= 1 && Pool.Shape(s.pool) && SharedMemory.Shape(jobs, s.shared)
  }

  /** A job can be worked on only by whoever runs it, and is reported only when its program is over. */
  ghost predicate Allowed(jobs: seq<Runner>, s: WaveState, move: Move)
    requires Proper(jobs, s)
  {
    var own := |jobs| - 1;
    match move
    case Protocol(step) =>
      && Enabled(s.pool, step) && !step.Submit? && !step.Shutdown?
      && (step.Run? ==> step.i < own && JobOver(jobs, s.shared, step.i))
      && (step.RunOwn? ==> JobOver(jobs, s.shared, own))
    case Work(i) =>
      && i <= own && CanAccess(jobs, s.shared, i)
      && if i == own then s.pool.submitter.OwnJob? else i < |s.pool.workers| && s.pool.workers[i].Runs?
  }

  ghost function Make(jobs: seq<Runner>, s: WaveState, move: Move): WaveState
    requires Proper(jobs, s) && Allowed(jobs, s, move)
  {
    match move
    case Protocol(step) => s.(pool := Do(s.pool, step))
    case Work(i) => s.(shared := AccessBy(jobs, s.shared, i))
  }

  /** The submitter has just posted the wave. */
  ghost predicate JustPosted(jobs: seq<Runner>, mem: seq<Label>, quiet: PoolState, s: WaveState) {
    && |jobs| >= 1 && Inv(quiet) && Enabled(quiet, Submit(|jobs| - 1)) && s.pool == Do(quiet, Submit(|jobs| - 1))
    && Begun(jobs, mem, s.shared)
  }

  /** Jobs that count as run are over. */
  ghost predicate WaveInv(jobs: seq<Runner>, mem: seq<Label>, s: WaveState) {
    && Proper(jobs, s) && Inv(s.pool) && s.pool.n == |jobs| - 1 && AsAlone(jobs, mem, s.shared)
    && (s.pool.submitter.OwnJob? || JobOver(jobs, s.shared, |jobs| - 1))
    && forall i: nat {:trigger JobOver(jobs, s.shared, i)} :: i < |jobs| - 1 && s.pool.runs[i] > 0 ==>
      JobOver(jobs, s.shared, i)
  }

  lemma PostedInv(jobs: seq<Runner>, mem: seq<Label>, quiet: PoolState, s: WaveState)
    requires JustPosted(jobs, mem, quiet, s) && Laid(jobs, |mem|)
    ensures WaveInv(jobs, mem, s)
  {
    hide Inv;
    StepKeeps(quiet, Submit(|jobs| - 1));
    StartAsAlone(jobs, mem, s.shared);
    InvShape(s.pool);
  }

  lemma InvShape(s: PoolState)
    requires Inv(s)
    ensures Pool.Shape(s) && s.n <= |s.workers|
  {
  }

  /** Accesses of one job do not end or revive another. */
  lemma OtherOver(jobs: seq<Runner>, s: Shared, i: nat, j: nat)
    requires SharedMemory.Shape(jobs, s) && i < |jobs| && CanAccess(jobs, s, i) && j < |jobs| && JobOver(jobs, s, j)
    ensures |AccessBy(jobs, s, i).history| == |jobs| && JobOver(jobs, AccessBy(jobs, s, i), j)
  {
  }

  lemma WorkKeeps(jobs: seq<Runner>, mem: seq<Label>, s: WaveState, i: nat)
    requires WaveInv(jobs, mem, s) && Allowed(jobs, s, Work(i))
    ensures WaveInv(jobs, mem, Make(jobs, s, Work(i)))
  {
    hide Inv;
    hide AsAlone;
    hide CanAccess;
    hide JobOver;
    hide AccessBy;
    InvShape(s.pool);
    AccessAsAlone(jobs, mem, s.shared, i);
    AsAloneShape(jobs, mem, AccessBy(jobs, s.shared, i));
    var own := |jobs| - 1;
    if JobOver(jobs, s.shared, own) {
      OtherOver(jobs, s.shared, i, own);
    }
    forall j: nat | j < own && s.pool.runs[j] > 0
      ensures JobOver(jobs, AccessBy(jobs, s.shared, i), j)
    {
      OtherOver(jobs, s.shared, i, j);
    }
  }

  lemma AsAloneShape(jobs: seq<Runner>, mem: seq<Label>, s: Shared)
    requires AsAlone(jobs, mem, s)
    ensures SharedMemory.Shape(jobs, s) && |s.mem| == |mem|
  {
  }

  /** What a protocol step does to the run counts. */
  lemma RunCounts(s: PoolState, step: Step)
    requires Inv(s) && Enabled(s, step) && !step.Submit?
    ensures Pool.Shape(Do(s, step)) && |Do(s, step).runs| == |s.runs| && Do(s, step).n == s.n
    ensures forall i {:trigger Do(s, step).runs[i]} :: 0 <= i < |s.runs| && step != Run(i) ==>
              Do(s, step).runs[i] == s.runs[i]
    ensures Do(s, step).submitter.OwnJob? ==> s.submitter.OwnJob?
    ensures s.submitter.OwnJob? && !Do(s, step).submitter.OwnJob? ==> step.RunOwn?
  {
    StepKeeps(s, step);
    hide Inv;
    InvShape(s);
  }

  lemma ProtocolKeeps(jobs: seq<Runner>, mem: seq<Label>, s: WaveState, step: Step)
    requires WaveInv(jobs, mem, s) && Allowed(jobs, s, Protocol(step))
    ensures WaveInv(jobs, mem, Make(jobs, s, Protocol(step)))
  {
    hide Inv;
    hide AsAlone;
    hide JobOver;
    hide Do;
    hide Enabled;
    InvShape(s.pool);
    StepKeeps(s.pool, step);
    RunCounts(s.pool, step);
    forall j: nat | j < |jobs| - 1 && Do(s.pool, step).runs[j] > 0
      ensures JobOver(jobs, s.shared, j)
    {
    }
  }

  lemma MoveKeeps(jobs: seq<Runner>, mem: seq<Label>, s: WaveState, move: Move)
    requires WaveInv(jobs, mem, s) && Allowed(jobs, s, move)
    ensures WaveInv(jobs, mem, Make(jobs, s, move))
  {
    match move
    case Protocol(step) => ProtocolKeeps(jobs, mem, s, step);
    case Work(i) => WorkKeeps(jobs, mem, s, i);
  }

  /** `moves` is a legal interleaving of protocol steps and accesses. */
  ghost predicate WaveRuns(jobs: seq<Runner>, s: WaveState, moves: seq<Move>, last: WaveState)
    decreases |moves|
  {
    if |moves| == 0 then s == last
    else Proper(jobs, s) && Allowed(jobs, s, moves[0]) && WaveRuns(jobs, Make(jobs, s, moves[0]), moves[1..], last)
  }

  lemma {:induction false} RunKeeps(jobs: seq<Runner>, mem: seq<Label>, s: WaveState, moves: seq<Move>, last: WaveState)
    requires WaveInv(jobs, mem, s) && WaveRuns(jobs, s, moves, last)
    ensures WaveInv(jobs, mem, last)
    decreases |moves|
  {
    hide WaveInv;
    hide Allowed;
    hide Make;
    if |moves| > 0 {
      MoveKeeps(jobs, mem, s, moves[0]);
      RunKeeps(jobs, mem, Make(jobs, s, moves[0]), moves[1..], last);
    }
  }

  /** Outside a wave every ticket of the last one has been run. */
  lemma AllRun(s: PoolState)
    requires Inv(s) && !WaveOpen(s)
    ensures forall i {:trigger s.runs[i]} :: 0 <= i < s.n ==> s.runs[i] == 1
  {
    Quiet(s);
    forall i: nat | i < s.n
      ensures s.runs[i] == 1
    {
      InvAt(s, i);
      assert !Pending(s, i) && !Busy(s, i);
    }
  }

  /** When the submitter is past the barrier, every program of the wave is over. */
  lemma WaveOver(jobs: seq<Runner>, mem: seq<Label>, s: WaveState, i: nat)
    requires WaveInv(jobs, mem, s) && s.pool.submitter.Idle? && i < |jobs|
    ensures JobOver(jobs, s.shared, i)
  {
    hide AsAlone;
    AllRun(s.pool);
    hide Inv;
    if i < |jobs| - 1 {
      assert s.pool.runs[i] == 1;
      assert jobs[i] == jobs[i];
    }
  }

  /** Pooled labelling of a wave: however protocol and accesses interleave, when the submitter is past the barrier
      every job's blocks hold what its program leaves there alone, and no cell outside the jobs' own has changed. */
  lemma PooledJobs(jobs: seq<Runner>, mem: seq<Label>, quiet: PoolState, s: WaveState, moves: seq<Move>,
                   last: WaveState, i: nat, out: seq<Label>)
    requires JustPosted(jobs, mem, quiet, s) && WaveRuns(jobs, s, moves, last) && last.pool.submitter.Idle?
    requires Laid(jobs, |mem|) && i < |jobs| && Owes(jobs, mem, i, out)
    ensures |last.shared.mem| == |mem| && jobs[i].place.Fits(|mem|)
    ensures last.shared.mem[jobs[i].place.blocks..jobs[i].place.blocks + jobs[i].place.m] == out
    ensures forall k: nat {:trigger Unowned(jobs, k)} :: k < |mem| && Unowned(jobs, k) ==> last.shared.mem[k] == mem[k]
  {
    hide Owes;
    PostedInv(jobs, mem, quiet, s);
    RunKeeps(jobs, mem, s, moves, last);
    WaveOver(jobs, mem, last, i);
    OverFills(jobs, mem, last.shared, i, out);
  }

  // ---------- progress ----------

  lemma {:induction false} StuckForever(prog: Program, cells: seq<Label>, k: nat, n: nat)
    requires k <= n && Next(prog, RunAlone(prog, cells, k)) == RunAlone(prog, cells, k)
    ensures RunAlone(prog, cells, n) == RunAlone(prog, cells, k)
    decreases n
  {
    if k < n {
      StuckForever(prog, cells, k, n - 1);
    }
  }

  /** A job that fills its blocks when alone is never stuck: it is over, or has an access to make. */
  lemma OverOrAble(jobs: seq<Runner>, mem: seq<Label>, s: Shared, i: nat, out: seq<Label>)
    requires AsAlone(jobs, mem, s) && i < |jobs| && Owes(jobs, mem, i, out)
    ensures JobOver(jobs, s, i) || CanAccess(jobs, s, i)
  {
    var prog, cells, k := jobs[i].prog, View(jobs[i].place, mem), |s.history[i]|;
    assert Seen(jobs, s, i) == RunAlone(prog, cells, k);
    if !JobOver(jobs, s, i) && !CanAccess(jobs, s, i) {
      var n: nat :| Halted(prog, RunAlone(prog, cells, n))
        && RunAlone(prog, cells, n).cells[jobs[i].place.cells..] == out;
      if k <= n {
        StuckForever(prog, cells, k, n);
      } else {
        HaltedStays(prog, cells, n, k);
      }
    }
  }

  /** While a wave is open somebody can move of their own accord. */
  lemma WaveNeverStuck(jobs: seq<Runner>, mem: seq<Label>, s: WaveState, outs: seq<seq<Label>>) returns (move: Move)
    requires WaveInv(jobs, mem, s) && WaveOpen(s.pool)
    requires |outs| == |jobs| && forall i: nat {:trigger outs[i]} :: i < |jobs| ==> Owes(jobs, mem, i, outs[i])
    ensures Allowed(jobs, s, move) && (move.Protocol? ==> !Spurious(move.step))
  {
    var step := NeverStuck(s.pool);
    move := Protocol(step);
    var own := |jobs| - 1;
    if step.RunOwn? && !JobOver(jobs, s.shared, own) {
      assert Owes(jobs, mem, own, outs[own]);
      OverOrAble(jobs, mem, s.shared, own, outs[own]);
      move := Work(own);
    } else if step.Run? {
      TicketPosted(s.pool, step.i);
      if !JobOver(jobs, s.shared, step.i) {
        assert Owes(jobs, mem, step.i, outs[step.i]);
        OverOrAble(jobs, mem, s.shared, step.i, outs[step.i]);
        move := Work(step.i);
      }
    }
  }

  lemma TicketPosted(s: PoolState, i: nat)
    requires Inv(s) && i < |s.workers| && s.workers[i].Runs?
    ensures i < s.n
  {
    InvAt(s, i);
    assert Busy(s, i);
  }

  /** Every program of the wave, alone, has halted after `halts[i]` accesses at the latest. */
  ghost predicate HaltsBy(jobs: seq<Runner>, mem: seq<Label>, halts: seq<nat>) {
    && Laid(jobs, |mem|) && |halts| == |jobs|
    && forall i: nat {:trigger halts[i]} :: i < |jobs| ==>
         Halted(jobs[i].prog, RunAlone(jobs[i].prog, View(jobs[i].place, mem), halts[i]))
  }

  lemma AccessesLeft(jobs: seq<Runner>, mem: seq<Label>, s: Shared, halts: seq<nat>, i: nat)
    requires AsAlone(jobs, mem, s) && HaltsBy(jobs, mem, halts) && i < |jobs| && CanAccess(jobs, s, i)
    ensures |s.history[i]| < halts[i]
  {
    var prog, cells, k := jobs[i].prog, View(jobs[i].place, mem), |s.history[i]|;
    assert Seen(jobs, s, i) == RunAlone(prog, cells, k);
    if halts[i] <= k {
      HaltedStays(prog, cells, halts[i], k);
    }
  }

  /** Accesses the jobs still have to make. */
  function Left(halts: seq<nat>, history: seq<seq<Label>>): nat
    requires |halts| == |history|
  {
    if |halts| == 0 then 0
    else
      var k := |halts| - 1;
      Left(halts[..k], history[..k]) + (if |history[k]| <= halts[k] then halts[k] - |history[k]| else 0)
  }

  lemma {:induction false} LeftLess(halts: seq<nat>, history: seq<seq<Label>>, i: nat, h: seq<Label>)
    requires |halts| == |history| && i < |halts| && |h| == |history[i]| + 1 && |history[i]| < halts[i]
    ensures Left(halts, history[i := h]) + 1 == Left(halts, history)
    decreases |halts|
  {
    var k := |halts| - 1;
    if i == k {
      assert history[i := h][..k] == history[..k];
    } else {
      LeftLess(halts[..k], history[..k], i, h);
      assert history[i := h][..k] == history[..k][i := h];
    }
  }

  ghost function Ahead(halts: seq<nat>, s: WaveState): nat
    requires Pool.Shape(s.pool) && |halts| == |s.shared.history|
  {
    Weight(s.pool) + Left(halts, s.shared.history)
  }

  predicate SpuriousMove(move: Move) {
    move.Protocol? && Spurious(move.step)
  }

  function CountSpuriousMoves(moves: seq<Move>): nat {
    if |moves| == 0 then 0 else (if SpuriousMove(moves[0]) then 1 else 0) + CountSpuriousMoves(moves[1..])
  }

  lemma MoveProgress(jobs: seq<Runner>, mem: seq<Label>, s: WaveState, halts: seq<nat>, move: Move)
    requires WaveInv(jobs, mem, s) && HaltsBy(jobs, mem, halts) && Allowed(jobs, s, move)
    ensures var s' := Make(jobs, s, move);
            && Pool.Shape(s'.pool) && |s'.shared.history| == |halts|
            && Ahead(halts, s') + 1 <= Ahead(halts, s) + (if SpuriousMove(move) then 3 else 0)
  {
    match move
    case Protocol(step) =>
      if Spurious(step) {
        SpuriousCost(s.pool, step);
      } else {
        WaveProgress(s.pool, step);
      }
    case Work(i) =>
      AccessesLeft(jobs, mem, s.shared, halts, i);
      LeftLess(halts, s.shared.history, i, AccessBy(jobs, s.shared, i).history[i]);
      assert AccessBy(jobs, s.shared, i).history == s.shared.history[i := AccessBy(jobs, s.shared, i).history[i]];
  }

  /** So every wave ends, whatever the order of protocol steps and accesses; only spurious wakeups prolong it. */
  lemma {:induction false} WaveLength(jobs: seq<Runner>, mem: seq<Label>, s: WaveState, halts: seq<nat>,
                                      moves: seq<Move>, last: WaveState)
    requires WaveInv(jobs, mem, s) && HaltsBy(jobs, mem, halts) && WaveRuns(jobs, s, moves, last)
    ensures WaveInv(jobs, mem, last)
    ensures |moves| + Ahead(halts, last) <= Ahead(halts, s) + 3 * CountSpuriousMoves(moves)
    decreases |moves|
  {
    hide HaltsBy;
    hide Allowed;
    hide Make;
    hide Ahead;
    hide SpuriousMove;
    hide Inv;
    hide AsAlone;
    if |moves| > 0 {
      MoveProgress(jobs, mem, s, halts, moves[0]);
      MoveKeeps(jobs, mem, s, moves[0]);
      WaveLength(jobs, mem, Make(jobs, s, moves[0]), halts, moves[1..], last);
    }
  }
}
