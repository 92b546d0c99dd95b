/** The worker pool restricts nothing: every interleaving that threads of their own can produce can also be produced
    on a pool with enough workers, whatever state earlier waves have left it in.
 */
module PooledSchedules {
  import opened Labelling
  import opened SharedMemory
  import opened Pool = WorkerPool
  import opened PooledWave

  lemma {:induction false} RunsThen(jobs: seq<Runner>, s: WaveState, a: seq<Move>, mid: WaveState, b: seq<Move>,
                                    last: WaveState)
    requires WaveRuns(jobs, s, a, mid) && WaveRuns(jobs, mid, b, last)
    ensures WaveRuns(jobs, s, a + b, last)
    decreases |a|
  {
    hide Proper;
    hide Allowed;
    hide Make;
    if |a| == 0 {
      assert a + b == b;
    } else {
      RunsThen(jobs, Make(jobs, s, a[0]), a[1..], mid, b, last);
      assert (a + b)[1..] == a[1..] + b;
    }
  }

  lemma OneMove(jobs: seq<Runner>, s: WaveState, move: Move)
    requires Proper(jobs, s) && Allowed(jobs, s, move)
    ensures WaveRuns(jobs, s, [move], Make(jobs, s, move))
  {
    assert [move][1..] == [];
  }

  // ---------- everybody takes a ticket ----------

  /** The wave is open, and no ticket has been run yet. */
  ghost predicate Untouched(jobs: seq<Runner>, s: WaveState) {
    && Proper(jobs, s) && Inv(s.pool) && s.pool.submitter.OwnJob? && s.pool.n == |jobs| - 1
    && forall i: nat {:trigger s.pool.runs[i]} :: i < s.pool.n ==> s.pool.runs[i] == 0
  }

  lemma PostedUntouched(jobs: seq<Runner>, mem: seq<Label>, quiet: PoolState, s: WaveState)
    requires JustPosted(jobs, mem, quiet, s)
    ensures Untouched(jobs, s)
  {
    hide Inv;
    StepKeeps(quiet, Submit(|jobs| - 1));
    InvShape(s.pool);
  }

  /** While a ticket is posted its worker, or whoever holds the mutex, can move towards taking it. */
  lemma TakingStep(s: PoolState, i: nat) returns (step: Step)
    requires Inv(s) && s.submitter.OwnJob? && i < |s.workers| && Pending(s, i)
    ensures Enabled(s, step) && (step.Acquire? || step.Look?)
  {
    if s.holder.WorkerHolds? {
      InvAt(s, s.holder.i);
      step := Look(s.holder.i);
    } else {
      InvAt(s, i);
      step := Acquire(i);
    }
  }

  lemma TakingKeeps(jobs: seq<Runner>, s: WaveState, step: Step)
    requires Untouched(jobs, s) && Enabled(s.pool, step) && (step.Acquire? || step.Look?)
    ensures Allowed(jobs, s, Protocol(step)) && Untouched(jobs, Make(jobs, s, Protocol(step)))
    ensures Make(jobs, s, Protocol(step)).shared == s.shared
    ensures |Make(jobs, s, Protocol(step)).pool.workers| == |s.pool.workers|
  {
    StepKeeps(s.pool, step);
    hide Inv;
  }

  /** So all workers that have a ticket can come to run it at the same time, with the submitter in its own job. */
  lemma {:induction false} AllTake(jobs: seq<Runner>, s: WaveState) returns (moves: seq<Move>, last: WaveState)
    requires Untouched(jobs, s)
    ensures WaveRuns(jobs, s, moves, last) && Untouched(jobs, last) && last.shared == s.shared
    ensures |last.pool.workers| == |s.pool.workers|
    ensures forall i: nat {:trigger last.pool.workers[i]} :: i < last.pool.n ==> last.pool.workers[i].Runs?
    decreases Weight(s.pool)
  {
    if i: nat :| i < |s.pool.workers| && Pending(s.pool, i) {
      var step := TakingStep(s.pool, i);
      TakingKeeps(jobs, s, step);
      WaveProgress(s.pool, step);
      var next := Make(jobs, s, Protocol(step));
      OneMove(jobs, s, Protocol(step));
      var rest;
      rest, last := AllTake(jobs, next);
      RunsThen(jobs, s, [Protocol(step)], next, rest, last);
      moves := [Protocol(step)] + rest;
    } else {
      moves, last := [], s;
      forall i: nat | i < s.pool.n
        ensures s.pool.workers[i].Runs?
      {
        InvAt(s.pool, i);
        assert s.pool.runs[i] == 0;
      }
    }
  }

  // ---------- the accesses ----------

  /** Everybody is in the middle of a job. */
  ghost predicate AllBusy(jobs: seq<Runner>, s: PoolState) {
    && |jobs| >= 1 && Pool.Shape(s) && s.submitter.OwnJob? && s.n == |jobs| - 1 && s.n <= |s.workers|
    && forall i: nat {:trigger s.workers[i]} :: i < s.n ==> s.workers[i].Runs?
  }

  lemma {:induction false} AccessesAsMoves(jobs: seq<Runner>, pool: PoolState, s: Shared, schedule: seq<nat>,
                                           last: Shared)
    returns (moves: seq<Move>)
    requires AllBusy(jobs, pool) && SharedMemory.Shape(jobs, s) && Interleaved(jobs, s, schedule, last)
    ensures WaveRuns(jobs, WaveState(pool, s), moves, WaveState(pool, last)) && SharedMemory.Shape(jobs, last)
    decreases |schedule|
  {
    if |schedule| == 0 {
      moves := [];
    } else {
      var i, here := schedule[0], WaveState(pool, s);
      assert i < |jobs| - 1 ==> pool.workers[i].Runs?;
      AccessSeen(jobs, s, i, i);
      OneMove(jobs, here, Work(i));
      var rest := AccessesAsMoves(jobs, pool, AccessBy(jobs, s, i), schedule[1..], last);
      RunsThen(jobs, here, [Work(i)], WaveState(pool, AccessBy(jobs, s, i)), rest, WaveState(pool, last));
      moves := [Work(i)] + rest;
    }
  }

  // ---------- everybody reports ----------

  /** The pool is between waves, and the next one can be posted. */
  ghost predicate Ready(s: PoolState) {
    Inv(s) && s.submitter.Idle? && s.holder.Nobody?
  }

  lemma StaysOpen(s: PoolState, step: Step)
    requires Inv(s) && (WaveOpen(s) || s.submitter.Idle?)
    requires Enabled(s, step) && !step.Submit? && !step.Shutdown?
    ensures Inv(Do(s, step)) && (WaveOpen(Do(s, step)) || Do(s, step).submitter.Idle?)
    ensures Do(s, step).n == s.n && |Do(s, step).workers| == |s.workers|
  {
    StepKeeps(s, step);
    hide Inv;
  }

  /** A step towards the end of the wave, and then towards a free mutex. */
  lemma ReportingStep(jobs: seq<Runner>, s: WaveState) returns (step: Step)
    requires Proper(jobs, s) && Inv(s.pool) && s.pool.n == |jobs| - 1 && AllOver(jobs, s.shared)
    requires WaveOpen(s.pool) || (s.pool.submitter.Idle? && !s.pool.holder.Nobody?)
    ensures Allowed(jobs, s, Protocol(step)) && !Spurious(step)
  {
    if s.pool.submitter.Idle? {
      InvAt(s.pool, s.pool.holder.i);
      step := Look(s.pool.holder.i);
    } else {
      step := NeverStuck(s.pool);
      if step.Run? {
        TicketPosted(s.pool, step.i);
      }
      assert step.Run? ==> JobOver(jobs, s.shared, step.i);
      assert step.RunOwn? ==> JobOver(jobs, s.shared, |jobs| - 1);
    }
  }

  /** Once all jobs have halted the submitter can come past the barrier. */
  lemma {:induction false} AllReport(jobs: seq<Runner>, s: WaveState) returns (moves: seq<Move>, last: WaveState)
    requires Proper(jobs, s) && Inv(s.pool) && s.pool.n == |jobs| - 1 && AllOver(jobs, s.shared)
    requires WaveOpen(s.pool) || s.pool.submitter.Idle?
    ensures WaveRuns(jobs, s, moves, last) && last.shared == s.shared
    ensures Ready(last.pool) && |last.pool.workers| == |s.pool.workers|
    decreases Weight(s.pool)
  {
    hide Inv;
    hide AllOver;
    hide Allowed;
    if s.pool.submitter.Idle? && s.pool.holder.Nobody? {
      moves, last := [], s;
    } else {
      var step := ReportingStep(jobs, s);
      AllowedStep(jobs, s, step);
      WaveProgress(s.pool, step);
      StaysOpen(s.pool, step);
      var next := Make(jobs, s, Protocol(step));
      InvShape(next.pool);
      OneMove(jobs, s, Protocol(step));
      var rest;
      rest, last := AllReport(jobs, next);
      RunsThen(jobs, s, [Protocol(step)], next, rest, last);
      moves := [Protocol(step)] + rest;
    }
  }

  lemma AllowedStep(jobs: seq<Runner>, s: WaveState, step: Step)
    requires Proper(jobs, s) && Allowed(jobs, s, Protocol(step))
    ensures Enabled(s.pool, step) && !step.Submit? && !step.Shutdown?
  {
  }

  /** Every way in which threads of their own can run the jobs is a way in which the pool can. */
  lemma OnPool(jobs: seq<Runner>, mem: seq<Label>, quiet: PoolState, schedule: seq<nat>, last: Shared)
    returns (s: WaveState, moves: seq<Move>, end: WaveState)
    requires |jobs| >= 1 && InMemory(jobs, |mem|) && Inv(quiet) && Enabled(quiet, Submit(|jobs| - 1))
    requires Interleaved(jobs, Shared(mem, seq(|jobs|, _ => [])), schedule, last) && AllOver(jobs, last)
    ensures JustPosted(jobs, mem, quiet, s) && WaveRuns(jobs, s, moves, end)
    ensures end.shared == last && Ready(end.pool) && |end.pool.workers| == |quiet.workers|
  {
    hide Inv;
    hide Enabled;
    hide Interleaved;
    hide AllOver;
    hide WaveRuns;
    InvShape(quiet);
    s := WaveState(Do(quiet, Submit(|jobs| - 1)), Shared(mem, seq(|jobs|, _ => [])));
    assert |s.pool.workers| == |quiet.workers|;
    hide Do;
    PostedUntouched(jobs, mem, quiet, s);
    var a, x := AllTake(jobs, s);
    InvShape(x.pool);
    var b := AccessesAsMoves(jobs, x.pool, x.shared, schedule, last);
    var c;
    c, end := AllReport(jobs, WaveState(x.pool, last));
    RunsThen(jobs, s, a, x, b, WaveState(x.pool, last));
    RunsThen(jobs, s, a + b, WaveState(x.pool, last), c, end);
    moves := a + b + c;
  }
}
