/** The worker pool's mutex and condition-variable protocol, one step at a time, over all interleavings.

    Worker i serves slot i. Between acquiring and giving up the mutex an actor takes no other
    step; a condition-variable wait gives the mutex up and needs it again to go on, and may wake up
    for no reason.
 */
module WorkerPool {

  /** A job; `wave` names the submission it belongs to. */
  datatype Ticket = Ticket(wave: nat)

  datatype Slot = Empty | Posted(job: Ticket)

  datatype Worker =
    | Wants               // about to acquire the mutex at the top of the loop
    | Looks               // holds the mutex and is about to inspect its slot
    | Sleeps              // waits on work_cond
    | Runs(job: Ticket)      // runs a job, without the mutex
    | Reports             // has run the job and is about to acquire the mutex
    | Exited

  datatype Submitter =
    | Idle                // between waves
    | OwnJob              // wave posted, runs the last job itself
    | AtBarrier           // about to acquire the mutex and look at n_done
    | SleepsDone          // waits on done_cond
    | Joining             // shutdown posted, joins the workers
    | Closed

  datatype Holder = Nobody | WorkerHolds(i: nat)

  /** The current wave has handed `n` jobs to the pool; `runs[i]` counts how often its job i was run, `ownRuns` the
      submitter's own. The pool's counters keep their old values during a wave that hands it nothing. */
  datatype PoolState = PoolState(workers: seq<Worker>, slots: seq<Slot>, holder: Holder, nDone: nat, nExpected: nat,
                                 shutdown: bool, submitter: Submitter, wave: nat, n: nat, runs: seq<nat>, ownRuns: nat)

  datatype Step =
    | Submit(n: nat)      // post n jobs and wake everybody; with n == 0 the mutex is not even taken
    | RunOwn
    | Barrier
    | Shutdown
    | Join
    | Acquire(i: nat)
    | Look(i: nat)
    | Run(i: nat)
    | Report(i: nat)
    | SpuriousWork(i: nat)
    | SpuriousDone

  predicate Shape(s: PoolState) {
    |s.workers| == |s.slots| == |s.runs| && (s.holder.WorkerHolds? ==> s.holder.i < |s.workers|)
  }

  predicate Enabled(s: PoolState, step: Step)
    requires Shape(s)
  {
    match step
    case Submit(n) => s.submitter.Idle? && n <= |s.workers| && (n > 0 ==> s.holder.Nobody?)
    case RunOwn => s.submitter.OwnJob?
    case Barrier => s.submitter.AtBarrier? && s.holder.Nobody?
    case Shutdown => s.submitter.Idle? && s.holder.Nobody?
    case Join => s.submitter.Joining? && forall i :: 0 <= i < |s.workers| ==> s.workers[i].Exited?
    case Acquire(i) => i < |s.workers| && s.workers[i].Wants? && s.holder.Nobody?
    case Look(i) => i < |s.workers| && s.workers[i].Looks? && s.holder == WorkerHolds(i)
    case Run(i) => i < |s.workers| && s.workers[i].Runs?
    case Report(i) => i < |s.workers| && s.workers[i].Reports? && s.holder.Nobody?
    case SpuriousWork(i) => i < |s.workers| && s.workers[i].Sleeps?
    case SpuriousDone => s.submitter.SleepsDone?
  }

  function WakeAll(ws: seq<Worker>): (r: seq<Worker>)
    ensures |r| == |ws|
    ensures forall i {:trigger r[i]} :: 0 <= i < |ws| ==> r[i] == if ws[i].Sleeps? then Wants else ws[i]
  {
    seq(|ws|, i requires 0 <= i < |ws| => if ws[i].Sleeps? then Wants else ws[i])
  }

  function Post(slots: seq<Slot>, n: nat, job: Ticket): (r: seq<Slot>)
    requires n <= |slots|
    ensures |r| == |slots|
    ensures forall i {:trigger r[i]} :: 0 <= i < |slots| ==> r[i] == if i < n then Posted(job) else slots[i]
  {
    seq(|slots|, i requires 0 <= i < |slots| => if i < n then Posted(job) else slots[i])
  }

  function Do(s: PoolState, step: Step): PoolState
    requires Shape(s) && Enabled(s, step)
  {
    match step
    case Submit(n) =>
      var t := s.(wave := s.wave + 1, submitter := OwnJob, n := n, runs := seq(|s.runs|, _ => 0), ownRuns := 0);
      if n == 0 then t
      else
        t.(nDone := 0, nExpected := n, slots := Post(s.slots, n, Ticket(s.wave + 1)), workers := WakeAll(s.workers))
    case RunOwn =>
      s.(ownRuns := s.ownRuns + 1, submitter := if s.n > 0 then AtBarrier else Idle)
    case Barrier =>
      s.(submitter := if s.nDone < s.nExpected then SleepsDone else Idle)
    case Shutdown =>
      s.(shutdown := true, submitter := Joining, workers := WakeAll(s.workers))
    case Join =>
      s.(submitter := Closed)
    case Acquire(i) =>
      s.(holder := WorkerHolds(i), workers := s.workers[i := Looks])
    case Look(i) =>
      if s.shutdown then s.(holder := Nobody, workers := s.workers[i := Exited])
      else if s.slots[i].Empty? then s.(holder := Nobody, workers := s.workers[i := Sleeps])
      else s.(holder := Nobody, workers := s.workers[i := Runs(s.slots[i].job)], slots := s.slots[i := Empty])
    case Run(i) =>
      s.(workers := s.workers[i := Reports],
         runs := if s.workers[i].job.wave == s.wave then s.runs[i := s.runs[i] + 1] else s.runs)
    case Report(i) =>
      s.(holder := WorkerHolds(i), workers := s.workers[i := Looks], nDone := s.nDone + 1,
         submitter := if s.nDone + 1 >= s.nExpected && s.submitter.SleepsDone? then AtBarrier else s.submitter)
    case SpuriousWork(i) => s.(workers := s.workers[i := Wants])
    case SpuriousDone => s.(submitter := AtBarrier)
  }

  /** A fresh pool: every worker is on its way to its loop. */
  ghost predicate Initial(s: PoolState) {
    && Shape(s) && s.holder.Nobody? && !s.shutdown && s.submitter.Idle? && s.nDone == s.nExpected == s.n == 0
    && (forall i {:trigger s.workers[i]} :: 0 <= i < |s.workers| ==> s.workers[i].Wants?)
    && (forall i {:trigger s.slots[i]} :: 0 <= i < |s.slots| ==> s.slots[i].Empty?)
  }

  // ---------- invariant ----------

  /** The wave's jobs are still out: the submitter has not passed the barrier. */
  predicate WaveOpen(s: PoolState) {
    s.submitter.OwnJob? || s.submitter.AtBarrier? || s.submitter.SleepsDone?
  }

  predicate Pending(s: PoolState, i: nat)
    requires Shape(s) && i < |s.workers|
  {
    s.slots[i].Posted?
  }

  predicate Busy(s: PoolState, i: nat)
    requires Shape(s) && i < |s.workers|
  {
    s.workers[i].Runs? || s.workers[i].Reports?
  }

  /** Slots below `n` whose job is posted. */
  function CountPending(s: PoolState, n: nat): nat
    requires Shape(s) && n <= |s.workers|
  {
    if n == 0 then 0 else CountPending(s, n - 1) + (if Pending(s, n - 1) then 1 else 0)
  }

  /** Workers below `n` that run a job or have yet to report it. */
  function CountBusy(s: PoolState, n: nat): nat
    requires Shape(s) && n <= |s.workers|
  {
    if n == 0 then 0 else CountBusy(s, n - 1) + (if Busy(s, n - 1) then 1 else 0)
  }

  /** What is true of one slot and its worker. */
  ghost predicate SlotOk(s: PoolState, i: nat)
    requires Shape(s) && i < |s.workers|
  {
    && (s.holder == WorkerHolds(i) <==> s.workers[i].Looks?)
    // a job is with the pool only while its wave is open, in one place
    && (Pending(s, i) || Busy(s, i) ==> WaveOpen(s) && i < s.n)
    && (Pending(s, i) ==> !Busy(s, i) && s.slots[i].job.wave == s.wave && s.runs[i] == 0)
    && (s.workers[i].Runs? ==> s.workers[i].job.wave == s.wave && s.runs[i] == 0)
    && (i < s.n && !Pending(s, i) && !s.workers[i].Runs? ==> s.runs[i] == 1)
    // no wakeup is lost
    && (s.workers[i].Sleeps? ==> s.slots[i].Empty? && !s.shutdown)
    && (s.workers[i].Exited? ==> s.shutdown)
  }

  ghost predicate Inv(s: PoolState) {
    && Shape(s) && s.n <= |s.workers| && (s.n > 0 ==> s.nExpected == s.n)
    && (forall i: nat {:trigger SlotOk(s, i)} :: i < |s.workers| ==> SlotOk(s, i))
    && CountPending(s, |s.workers|) + CountBusy(s, |s.workers|) + s.nDone == s.nExpected
    && (s.submitter.SleepsDone? ==> s.nDone < s.nExpected)
    && (s.shutdown <==> s.submitter.Joining? || s.submitter.Closed?)
    && ((s.submitter.AtBarrier? || s.submitter.SleepsDone?) ==> s.ownRuns == 1 && s.n > 0)
    && (s.submitter.OwnJob? ==> s.ownRuns == 0)
  }

  lemma InvAt(s: PoolState, i: nat)
    requires Inv(s) && i < |s.workers|
    ensures SlotOk(s, i)
  {
  }

  lemma {:induction false} CountsSame(s: PoolState, t: PoolState, n: nat)
    requires Shape(s) && Shape(t) && |t.workers| == |s.workers| && n <= |s.workers|
    requires forall i: nat {:trigger Pending(t, i)} {:trigger Busy(t, i)} :: i < n ==>
              Pending(t, i) == Pending(s, i) && Busy(t, i) == Busy(s, i)
    ensures CountPending(t, n) == CountPending(s, n) && CountBusy(t, n) == CountBusy(s, n)
    decreases n
  {
    if n > 0 {
      CountsSame(s, t, n - 1);
      assert Pending(t, n - 1) == Pending(s, n - 1) && Busy(t, n - 1) == Busy(s, n - 1);
    }
  }

  /** Counting when one slot changed. */
  lemma {:induction false} CountsChange(s: PoolState, t: PoolState, i: nat, n: nat)
    requires Shape(s) && Shape(t) && |t.workers| == |s.workers| && i < n <= |s.workers|
    requires forall j: nat {:trigger Pending(t, j)} {:trigger Busy(t, j)} ::
               j < n && j != i ==> Pending(t, j) == Pending(s, j) && Busy(t, j) == Busy(s, j)
    ensures CountPending(t, n)
              == CountPending(s, n) - (if Pending(s, i) then 1 else 0) + (if Pending(t, i) then 1 else 0)
    ensures CountBusy(t, n) == CountBusy(s, n) - (if Busy(s, i) then 1 else 0) + (if Busy(t, i) then 1 else 0)
    decreases n
  {
    if i < n - 1 {
      CountsChange(s, t, i, n - 1);
      assert Pending(t, n - 1) == Pending(s, n - 1) && Busy(t, n - 1) == Busy(s, n - 1);
    } else {
      CountsSame(s, t, n - 1);
    }
  }

  lemma {:induction false} CountsZero(s: PoolState, n: nat)
    requires Shape(s) && n <= |s.workers| && CountPending(s, n) + CountBusy(s, n) == 0
    ensures forall i: nat {:trigger Pending(s, i)} {:trigger Busy(s, i)} :: i < n ==> !Pending(s, i) && !Busy(s, i)
    decreases n
  {
    if n > 0 {
      CountsZero(s, n - 1);
    }
  }

  lemma {:induction false} CountsNone(s: PoolState, n: nat)
    requires Shape(s) && n <= |s.workers|
    requires forall i: nat {:trigger Pending(s, i)} {:trigger Busy(s, i)} :: i < n ==> !Pending(s, i) && !Busy(s, i)
    ensures CountPending(s, n) == 0 && CountBusy(s, n) == 0
    decreases n
  {
    if n > 0 {
      CountsNone(s, n - 1);
      assert !Pending(s, n - 1) && !Busy(s, n - 1);
    }
  }

  lemma {:induction false} CountsPosted(s: PoolState, n: nat, k: nat)
    requires Shape(s) && n <= |s.workers|
    requires forall i: nat {:trigger Pending(s, i)} {:trigger Busy(s, i)} :: i < n ==>
              Pending(s, i) == (i < k) && !Busy(s, i)
    ensures CountPending(s, n) == (if n <= k then n else k) && CountBusy(s, n) == 0
    decreases n
  {
    if n > 0 {
      CountsPosted(s, n - 1, k);
      assert Pending(s, n - 1) == (n - 1 < k) && !Busy(s, n - 1);
    }
  }

  lemma InitialInv(s: PoolState)
    requires Initial(s)
    ensures Inv(s)
  {
    forall i: nat | i < |s.workers|
      ensures !Pending(s, i) && !Busy(s, i)
    {
      assert s.slots[i].Empty? && s.workers[i].Wants?;
    }
    CountsNone(s, |s.workers|);
    forall i: nat | i < |s.workers|
      ensures SlotOk(s, i)
    {
      assert s.workers[i].Wants?;
    }
  }

  /** Outside a wave nothing is posted and nobody is busy. */
  lemma Quiet(s: PoolState)
    requires Inv(s) && !WaveOpen(s)
    ensures forall i: nat {:trigger Pending(s, i)} {:trigger Busy(s, i)} :: i < |s.workers| ==>
              !Pending(s, i) && !Busy(s, i)
  {
    forall i: nat | i < |s.workers|
      ensures !Pending(s, i) && !Busy(s, i)
    {
      InvAt(s, i);
    }
  }

  lemma SubmitKeeps(s: PoolState, n: nat)
    requires Inv(s) && Enabled(s, Submit(n))
    ensures Inv(Do(s, Submit(n)))
  {
    var t := Do(s, Submit(n));
    Quiet(s);
    forall i: nat | i < |s.workers|
      ensures SlotOk(t, i) && Pending(t, i) == (i < n) && !Busy(t, i)
    {
      InvAt(s, i);
      assert !Pending(s, i) && !Busy(s, i);
    }
    CountsNone(s, |s.workers|);
    CountsPosted(t, |t.workers|, n);
  }

  lemma ShutdownKeeps(s: PoolState)
    requires Inv(s) && Enabled(s, Shutdown)
    ensures Inv(Do(s, Shutdown))
  {
    var t := Do(s, Shutdown);
    Quiet(s);
    forall i: nat | i < |s.workers|
      ensures SlotOk(t, i) && Pending(t, i) == Pending(s, i) && Busy(t, i) == Busy(s, i)
    {
      InvAt(s, i);
      assert !Pending(s, i) && !Busy(s, i);
    }
    CountsSame(s, t, |s.workers|);
  }

  /** A wave that hands the pool nothing leaves it quiet. */
  lemma NothingPosted(s: PoolState)
    requires Inv(s) && s.n == 0
    ensures forall i: nat {:trigger Pending(s, i)} {:trigger Busy(s, i)} :: i < |s.workers| ==>
              !Pending(s, i) && !Busy(s, i)
  {
    forall i: nat | i < |s.workers|
      ensures !Pending(s, i) && !Busy(s, i)
    {
      InvAt(s, i);
    }
  }

  /** Steps of the submitter that touch no slot and no worker. */
  lemma SubmitterKeeps(s: PoolState, step: Step)
    requires Inv(s) && Enabled(s, step) && (step.RunOwn? || step.Barrier? || step.Join? || step.SpuriousDone?)
    ensures Inv(Do(s, step))
  {
    var t := Do(s, step);
    if !WaveOpen(s) {
      Quiet(s);
    } else if s.n == 0 {
      NothingPosted(s);
    } else if !WaveOpen(t) {
      CountsZero(s, |s.workers|);
    }
    hide CountPending;
    hide CountBusy;
    forall i: nat | i < |s.workers|
      ensures SlotOk(t, i) && Pending(t, i) == Pending(s, i) && Busy(t, i) == Busy(s, i)
    {
      InvAt(s, i);
      if !WaveOpen(t) {
        assert !Pending(s, i) && !Busy(s, i);
      }
    }
    CountsSame(s, t, |s.workers|);
  }

  lemma WorkerKeeps(s: PoolState, step: Step, i: nat)
    requires Inv(s) && Enabled(s, step) && i < |s.workers|
    requires step == Acquire(i) || step == Look(i) || step == Run(i) || step == Report(i) || step == SpuriousWork(i)
    ensures Inv(Do(s, step))
  {
    hide CountPending;
    hide CountBusy;
    hide WakeAll;
    hide Post;
    var t := Do(s, step);
    InvAt(s, i);
    forall j: nat | j < |s.workers|
      ensures j != i ==> Pending(t, j) == Pending(s, j) && Busy(t, j) == Busy(s, j)
    {
    }
    CountsChange(s, t, i, |s.workers|);
    forall j: nat | j < |s.workers|
      ensures SlotOk(t, j)
    {
      InvAt(s, j);
    }
  }

  /** Every step keeps the invariant; in particular
      pending + running + n_done == n_expected holds throughout, wave after wave. */
  lemma StepKeeps(s: PoolState, step: Step)
    requires Inv(s) && Enabled(s, step)
    ensures Inv(Do(s, step))
  {
    match step
    case Submit(n) => SubmitKeeps(s, n);
    case Shutdown => ShutdownKeeps(s);
    case Acquire(i) => WorkerKeeps(s, step, i);
    case Look(i) => WorkerKeeps(s, step, i);
    case Run(i) => WorkerKeeps(s, step, i);
    case Report(i) => WorkerKeeps(s, step, i);
    case SpuriousWork(i) => WorkerKeeps(s, step, i);
    case RunOwn => SubmitterKeeps(s, step);
    case Barrier => SubmitterKeeps(s, step);
    case Join => SubmitterKeeps(s, step);
    case SpuriousDone => SubmitterKeeps(s, step);
  }

  ghost predicate Execution(s: PoolState, steps: seq<Step>, last: PoolState)
    decreases |steps|
  {
    if |steps| == 0 then s == last
    else Shape(s) && Enabled(s, steps[0]) && Execution(Do(s, steps[0]), steps[1..], last)
  }

  lemma {:induction false} ExecutionKeeps(s: PoolState, steps: seq<Step>, last: PoolState)
    requires Inv(s) && Execution(s, steps, last)
    ensures Inv(last)
    decreases |steps|
  {
    hide Inv;
    hide Do;
    hide Enabled;
    if |steps| > 0 {
      StepKeeps(s, steps[0]);
      ExecutionKeeps(Do(s, steps[0]), steps[1..], last);
    }
  }

  // ---------- what a wave guarantees ----------

  /** When the submitter passes the barrier, every job of the wave has been run exactly once,
      and no worker is still using its arguments. */
  lemma WaveComplete(s: PoolState)
    requires Inv(s) && s.submitter.AtBarrier? && Enabled(s, Barrier) && Do(s, Barrier).submitter.Idle?
    ensures s.ownRuns == 1
    ensures s.n == s.nExpected > 0
    ensures forall i {:trigger s.runs[i]} :: 0 <= i < s.n ==> s.runs[i] == 1
    ensures forall i {:trigger s.workers[i]} :: 0 <= i < |s.workers| ==>
              !s.workers[i].Runs? && !s.workers[i].Reports? && s.slots[i].Empty?
  {
    CountsZero(s, |s.workers|);
    forall i: nat | i < |s.workers|
      ensures i < s.n ==> s.runs[i] == 1
      ensures !s.workers[i].Runs? && !s.workers[i].Reports? && s.slots[i].Empty?
    {
      InvAt(s, i);
      assert !Pending(s, i) && !Busy(s, i);
    }
  }

  /** Between waves nobody touches any job, however long the pool is kept. */
  lemma NobodyRunsBetweenWaves(s: PoolState, i: nat)
    requires Inv(s) && !WaveOpen(s) && i < |s.workers|
    ensures !s.workers[i].Runs? && !s.workers[i].Reports? && s.slots[i].Empty?
  {
    Quiet(s);
    assert !Pending(s, i) && !Busy(s, i);
  }

  predicate Spurious(step: Step) {
    step.SpuriousWork? || step.SpuriousDone?
  }

  /** A busy or pending worker can always move, whoever holds the mutex. */
  lemma Outstanding(s: PoolState, n: nat) returns (i: nat)
    requires Shape(s) && n <= |s.workers| && CountPending(s, n) + CountBusy(s, n) > 0
    ensures i < n && (Pending(s, i) || Busy(s, i))
    decreases n
  {
    if Pending(s, n - 1) || Busy(s, n - 1) {
      i := n - 1;
    } else {
      i := Outstanding(s, n - 1);
    }
  }

  lemma WorkerMoves(s: PoolState, i: nat) returns (step: Step)
    requires Inv(s) && i < |s.workers| && s.holder.Nobody?
    requires !s.workers[i].Sleeps? && !s.workers[i].Exited?
    ensures Enabled(s, step) && !Spurious(step) && !step.Submit? && !step.Shutdown?
  {
    InvAt(s, i);
    match s.workers[i]
    case Wants => step := Acquire(i);
    case Runs(_) => step := Run(i);
    case Reports => step := Report(i);
  }

  /** No deadlock and no lost wakeup: until the pool is closed some actor can move of its own accord,
      and while a wave is open this is not a new submission. */
  lemma NeverStuck(s: PoolState) returns (step: Step)
    requires Inv(s) && !s.submitter.Closed?
    ensures Enabled(s, step) && !Spurious(step)
    ensures !s.submitter.Idle? ==> !step.Submit? && !step.Shutdown?
  {
    if s.holder.WorkerHolds? {
      InvAt(s, s.holder.i);
      step := Look(s.holder.i);
    } else {
      match s.submitter
      case Idle => step := Shutdown;
      case OwnJob => step := RunOwn;
      case AtBarrier => step := Barrier;
      case SleepsDone =>
        var i := Outstanding(s, |s.workers|);
        InvAt(s, i);
        step := WorkerMoves(s, i);
      case Joining =>
        if i: nat :| i < |s.workers| && !s.workers[i].Exited? {
          InvAt(s, i);
          step := WorkerMoves(s, i);
        } else {
          step := Join;
        }
    }
  }

  // ---------- termination ----------

  function WorkerWeight(w: Worker, slot: Slot): nat {
    (match w case Wants => 2 case Looks => 1 case Sleeps => 0 case Runs(_) => 4 case Reports => 3 case Exited => 0)
    + (if slot.Posted? then 4 else 0)
  }

  function SubmitterWeight(m: Submitter): nat {
    match m
    case Idle => 0
    case OwnJob => 4
    case AtBarrier => 2
    case SleepsDone => 1
    case Joining => 1
    case Closed => 0
  }

  function TotalWeight(ws: seq<Worker>, slots: seq<Slot>): nat
    requires |ws| == |slots|
  {
    if |ws| == 0 then 0
    else TotalWeight(ws[..|ws| - 1], slots[..|ws| - 1]) + WorkerWeight(ws[|ws| - 1], slots[|ws| - 1])
  }

  lemma {:induction false} WeightUpdate(ws: seq<Worker>, slots: seq<Slot>, i: nat, w: Worker, slot: Slot)
    requires |ws| == |slots| && i < |ws|
    ensures TotalWeight(ws[i := w], slots[i := slot])
              == TotalWeight(ws, slots) - WorkerWeight(ws[i], slots[i]) + WorkerWeight(w, slot)
  {
    var n := |ws| - 1;
    if i == n {
      assert ws[i := w][..n] == ws[..n] && slots[i := slot][..n] == slots[..n];
    } else {
      WeightUpdate(ws[..n], slots[..n], i, w, slot);
      assert ws[i := w][..n] == ws[..n][i := w] && slots[i := slot][..n] == slots[..n][i := slot];
    }
  }

  /** Steps left before the open wave, or the shutdown, is over. */
  function Weight(s: PoolState): nat
    requires Shape(s)
  {
    TotalWeight(s.workers, s.slots) + SubmitterWeight(s.submitter)
  }

  /** Every step but a submission, a shutdown and a spurious wakeup brings the wave closer to its end. */
  lemma WaveProgress(s: PoolState, step: Step)
    requires Inv(s) && Enabled(s, step) && !Spurious(step) && !step.Submit? && !step.Shutdown?
    ensures Shape(Do(s, step)) && Weight(Do(s, step)) < Weight(s)
  {
    StepKeeps(s, step);
    if step.Acquire? || step.Look? || step.Run? || step.Report? {
      WorkerProgress(s, step);
    }
  }

  lemma WorkerProgress(s: PoolState, step: Step)
    requires Inv(s) && Enabled(s, step) && (step.Acquire? || step.Look? || step.Run? || step.Report?)
    ensures Shape(Do(s, step)) && Weight(Do(s, step)) < Weight(s)
  {
    hide TotalWeight;
    hide CountPending;
    hide CountBusy;
    var i, t := step.i, Do(s, step);
    InvAt(s, i);
    hide Inv;
    assert t.workers == s.workers[i := t.workers[i]] && t.slots == s.slots[i := t.slots[i]];
    WeightUpdate(s.workers, s.slots, i, t.workers[i], t.slots[i]);
  }

  /** A spurious wakeup costs at most two steps more. */
  lemma SpuriousCost(s: PoolState, step: Step)
    requires Inv(s) && Enabled(s, step) && Spurious(step)
    ensures Shape(Do(s, step)) && Weight(Do(s, step)) <= Weight(s) + 2
  {
    StepKeeps(s, step);
    if step.SpuriousWork? {
      var i, t := step.i, Do(s, step);
      WeightUpdate(s.workers, s.slots, i, Wants, s.slots[i]);
      assert t.slots == s.slots[i := s.slots[i]];
    }
  }

  /** No step of the run starts a new wave or a shutdown. */
  ghost predicate WithinWave(steps: seq<Step>) {
    forall k {:trigger steps[k]} :: 0 <= k < |steps| ==> !steps[k].Submit? && !steps[k].Shutdown?
  }

  function CountSpurious(steps: seq<Step>): nat {
    if |steps| == 0 then 0 else (if Spurious(steps[0]) then 1 else 0) + CountSpurious(steps[1..])
  }

  /** A wave ends, in whatever order its steps are taken: their number is bounded by the work posted
      and by the number of spurious wakeups, each of which costs three steps at most. */
  lemma {:induction false} WaveBound(s: PoolState, steps: seq<Step>, last: PoolState)
    requires Inv(s) && Execution(s, steps, last) && WithinWave(steps)
    ensures Inv(last) && |steps| + Weight(last) <= Weight(s) + 3 * CountSpurious(steps)
    decreases |steps|
  {
    hide Inv;
    hide Do;
    hide Enabled;
    hide Weight;
    hide Spurious;
    if |steps| > 0 {
      assert !steps[0].Submit? && !steps[0].Shutdown?;
      if Spurious(steps[0]) {
        SpuriousCost(s, steps[0]);
      } else {
        WaveProgress(s, steps[0]);
      }
      StepKeeps(s, steps[0]);
      assert WithinWave(steps[1..]);
      WaveBound(Do(s, steps[0]), steps[1..], last);
    }
  }
}
