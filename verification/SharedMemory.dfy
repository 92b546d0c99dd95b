/** Sequential programs that run at the same time in one flat memory of labels.

    A job owns a range of scratch cells and the blocks it has to fill. Its program decides on the next access
    from the labels it has read and written so far, so every deterministic labeler is such a program.
 */
module SharedMemory {
  import opened Labelling

  /** One access to the job's own cells; scratch cells come first, then the blocks. */
  datatype Action = Read(at: nat) | Write(at: nat, x: Label) | Halt

  /** The next access after a history of labels read and written. */
  type Program = seq<Label> -> Action

  // ---------- a program alone ----------

  /** A program's own cells and its history. */
  datatype Alone = Alone(cells: seq<Label>, history: seq<Label>)

  /** One access; a program that halts, or leaves its cells, stays where it is. */
  function Next(prog: Program, s: Alone): (s': Alone)
    ensures |s'.cells| == |s.cells|
  {
    match prog(s.history)
    case Read(at) => if at < |s.cells| then Alone(s.cells, s.history + [s.cells[at]]) else s
    case Write(at, x) => if at < |s.cells| then Alone(s.cells[at := x], s.history + [x]) else s
    case Halt => s
  }

  /** The state after `n` accesses in a row. */
  function RunFrom(prog: Program, s: Alone, n: nat): (s': Alone)
    ensures |s'.cells| == |s.cells| && |s'.history| <= |s.history| + n
  {
    if n == 0 then s else Next(prog, RunFrom(prog, s, n - 1))
  }

  function RunAlone(prog: Program, cells: seq<Label>, n: nat): (s: Alone)
    ensures |s.cells| == |cells|
  {
    RunFrom(prog, Alone(cells, []), n)
  }

  predicate Halted(prog: Program, s: Alone) {
    prog(s.history).Halt?
  }

  /** Run alone, the program halts and has filled its blocks, which start at cell `lo`, with `out`. */
  ghost predicate Fills(prog: Program, cells: seq<Label>, lo: nat, out: seq<Label>) {
    lo <= |cells| && exists n: nat {:trigger RunAlone(prog, cells, n)} ::
      Halted(prog, RunAlone(prog, cells, n)) && RunAlone(prog, cells, n).cells[lo..] == out
  }

  lemma {:induction false} HaltedStays(prog: Program, cells: seq<Label>, n: nat, k: nat)
    requires n <= k && Halted(prog, RunAlone(prog, cells, n))
    ensures RunAlone(prog, cells, k) == RunAlone(prog, cells, n)
    decreases k
  {
    if n < k {
      HaltedStays(prog, cells, n, k - 1);
    }
  }

  /** Wherever a program is found halted, it has filled its blocks. */
  lemma FilledWhenHalted(prog: Program, cells: seq<Label>, lo: nat, out: seq<Label>, k: nat)
    requires Fills(prog, cells, lo, out) && Halted(prog, RunAlone(prog, cells, k))
    ensures RunAlone(prog, cells, k).cells[lo..] == out
  {
    var n: nat :| Halted(prog, RunAlone(prog, cells, n)) && RunAlone(prog, cells, n).cells[lo..] == out;
    if n <= k {
      HaltedStays(prog, cells, n, k);
    } else {
      HaltedStays(prog, cells, k, n);
    }
  }

  // ---------- places in memory ----------

  /** Where a job's cells are: `cells` scratch cells from one address on, `m` blocks from another. */
  datatype Place = Place(scratch: nat, cells: nat, blocks: nat, m: nat) {
    predicate Owns(k: nat) {
      scratch <= k < scratch + cells || blocks <= k < blocks + m
    }

    predicate Fits(size: nat) {
      scratch + cells <= size && blocks + m <= size && Separate(scratch, cells, blocks, m)
    }

    function Address(cell: nat): nat {
      if cell < cells then scratch + cell else blocks + (cell - cells)
    }
  }

  predicate Separate(a: nat, n: nat, b: nat, m: nat) {
    a + n <= b || b + m <= a
  }

  /** No cell belongs to both. */
  predicate Apart(p: Place, q: Place) {
    && Separate(p.scratch, p.cells, q.scratch, q.cells) && Separate(p.scratch, p.cells, q.blocks, q.m)
    && Separate(p.blocks, p.m, q.scratch, q.cells) && Separate(p.blocks, p.m, q.blocks, q.m)
  }

  function View(place: Place, mem: seq<Label>): (cells: seq<Label>)
    requires place.Fits(|mem|)
    ensures |cells| == place.cells + place.m
    ensures cells[place.cells..] == mem[place.blocks..place.blocks + place.m]
  {
    mem[place.scratch..place.scratch + place.cells] + mem[place.blocks..place.blocks + place.m]
  }

  lemma ViewAt(place: Place, mem: seq<Label>, cell: nat)
    requires place.Fits(|mem|) && cell < place.cells + place.m
    ensures place.Owns(place.Address(cell)) && place.Address(cell) < |mem|
    ensures View(place, mem)[cell] == mem[place.Address(cell)]
  {
  }

  lemma ViewWrite(place: Place, mem: seq<Label>, cell: nat, x: Label)
    requires place.Fits(|mem|) && cell < place.cells + place.m
    ensures place.Address(cell) < |mem|
    ensures View(place, mem[place.Address(cell) := x]) == View(place, mem)[cell := x]
  {
    ViewAt(place, mem, cell);
  }

  lemma ViewElsewhere(place: Place, mem: seq<Label>, at: nat, x: Label)
    requires place.Fits(|mem|) && at < |mem| && !place.Owns(at)
    ensures View(place, mem[at := x]) == View(place, mem)
  {
  }

  // ---------- jobs at the same time ----------

  datatype Runner = Runner(prog: Program, place: Place)

  ghost predicate InMemory(jobs: seq<Runner>, size: nat) {
    forall i {:trigger jobs[i]} :: 0 <= i < |jobs| ==> jobs[i].place.Fits(size)
  }

  /** Every job's cells are in memory, and no two jobs share one. */
  ghost predicate Laid(jobs: seq<Runner>, size: nat) {
    && InMemory(jobs, size)
    && (forall i, j {:trigger jobs[i], jobs[j]} :: 0 <= i < j < |jobs| ==> Apart(jobs[i].place, jobs[j].place))
  }

  datatype Shared = Shared(mem: seq<Label>, history: seq<seq<Label>>)

  ghost predicate Shape(jobs: seq<Runner>, s: Shared) {
    InMemory(jobs, |s.mem|) && |s.history| == |jobs|
  }

  /** Job `i` has an access left. */
  predicate CanAccess(jobs: seq<Runner>, s: Shared, i: nat)
    requires i < |jobs| == |s.history|
  {
    match jobs[i].prog(s.history[i])
    case Read(at) => at < jobs[i].place.cells + jobs[i].place.m
    case Write(at, _) => at < jobs[i].place.cells + jobs[i].place.m
    case Halt => false
  }

  /** One access of job `i`, at its address in the shared memory. */
  ghost function AccessBy(jobs: seq<Runner>, s: Shared, i: nat): Shared
    requires Shape(jobs, s) && i < |jobs| && CanAccess(jobs, s, i)
  {
    var place := jobs[i].place;
    match jobs[i].prog(s.history[i])
    case Read(at) =>
      ViewAt(place, s.mem, at);
      s.(history := s.history[i := s.history[i] + [s.mem[place.Address(at)]]])
    case Write(at, x) =>
      ViewAt(place, s.mem, at);
      Shared(s.mem[place.Address(at) := x], s.history[i := s.history[i] + [x]])
  }

  /** What job `i` sees of the memory. */
  ghost function Seen(jobs: seq<Runner>, s: Shared, i: nat): Alone
    requires Shape(jobs, s) && i < |jobs|
  {
    Alone(View(jobs[i].place, s.mem), s.history[i])
  }

  lemma NotOwned(jobs: seq<Runner>, size: nat, i: nat, j: nat, k: nat)
    requires Laid(jobs, size) && i < |jobs| && j < |jobs| && i != j && jobs[i].place.Owns(k)
    ensures !jobs[j].place.Owns(k)
  {
    if i < j {
      assert Apart(jobs[i].place, jobs[j].place);
    } else {
      assert Apart(jobs[j].place, jobs[i].place);
    }
  }

  /** An access is a step of the job that makes it, and nobody else sees it. */
  lemma AccessSeen(jobs: seq<Runner>, s: Shared, i: nat, j: nat)
    requires Shape(jobs, s) && (j == i || Laid(jobs, |s.mem|)) && i < |jobs| && CanAccess(jobs, s, i) && j < |jobs|
    ensures Shape(jobs, AccessBy(jobs, s, i))
    ensures Seen(jobs, AccessBy(jobs, s, i), j) == if j == i then Next(jobs[i].prog, Seen(jobs, s, i))
              else Seen(jobs, s, j)
  {
    hide View;
    match jobs[i].prog(s.history[i])
    case Read(at) =>
      ViewAt(jobs[i].place, s.mem, at);
    case Write(at, x) =>
      ViewAt(jobs[i].place, s.mem, at);
      if j == i {
        ViewWrite(jobs[i].place, s.mem, at, x);
      } else {
        NotOwned(jobs, |s.mem|, i, j, jobs[i].place.Address(at));
        ViewElsewhere(jobs[j].place, s.mem, jobs[i].place.Address(at), x);
      }
  }

  // ---------- any interleaving ----------

  ghost predicate Unowned(jobs: seq<Runner>, k: nat) {
    forall i {:trigger jobs[i]} :: 0 <= i < |jobs| ==> !jobs[i].place.Owns(k)
  }

  /** Every job is where it would be had it run alone, and cells of no job are as they were. */
  ghost predicate AsAlone(jobs: seq<Runner>, mem: seq<Label>, s: Shared) {
    && Shape(jobs, s) && |s.mem| == |mem| && Laid(jobs, |mem|)
    && (forall i: nat {:trigger Seen(jobs, s, i)} :: i < |jobs| ==>
          Seen(jobs, s, i) == RunAlone(jobs[i].prog, View(jobs[i].place, mem), |s.history[i]|))
    && (forall k: nat {:trigger Unowned(jobs, k)} :: k < |mem| && Unowned(jobs, k) ==> s.mem[k] == mem[k])
  }

  ghost predicate Begun(jobs: seq<Runner>, mem: seq<Label>, s: Shared) {
    s.mem == mem && InMemory(jobs, |mem|) && s.history == seq(|jobs|, _ => [])
  }

  lemma StartAsAlone(jobs: seq<Runner>, mem: seq<Label>, s: Shared)
    requires Begun(jobs, mem, s) && Laid(jobs, |mem|)
    ensures AsAlone(jobs, mem, s)
  {
  }

  lemma AccessAsAlone(jobs: seq<Runner>, mem: seq<Label>, s: Shared, i: nat)
    requires AsAlone(jobs, mem, s) && i < |jobs| && CanAccess(jobs, s, i)
    ensures AsAlone(jobs, mem, AccessBy(jobs, s, i))
  {
    hide View;
    var s' := AccessBy(jobs, s, i);
    AccessSeen(jobs, s, i, i);
    assert Seen(jobs, s, i) == RunAlone(jobs[i].prog, View(jobs[i].place, mem), |s.history[i]|);
    forall j: nat | j < |jobs|
      ensures Seen(jobs, s', j) == RunAlone(jobs[j].prog, View(jobs[j].place, mem), |s'.history[j]|)
    {
      AccessSeen(jobs, s, i, j);
    }
    forall k: nat | k < |mem| && Unowned(jobs, k)
      ensures s'.mem[k] == mem[k]
    {
      assert !jobs[i].place.Owns(k);
      match jobs[i].prog(s.history[i])
      case Read(at) =>
      case Write(at, x) => ViewAt(jobs[i].place, s.mem, at);
    }
  }

  /** `schedule` names the job that makes the next access. */
  ghost predicate Interleaved(jobs: seq<Runner>, s: Shared, schedule: seq<nat>, last: Shared)
    decreases |schedule|
  {
    if |schedule| == 0 then s == last
    else
      && Shape(jobs, s) && schedule[0] < |jobs| && CanAccess(jobs, s, schedule[0])
      && Interleaved(jobs, AccessBy(jobs, s, schedule[0]), schedule[1..], last)
  }

  /** However the accesses interleave, every job gets exactly as far as it would get alone. */
  lemma {:induction false} InterleavedAsAlone(jobs: seq<Runner>, mem: seq<Label>, s: Shared, schedule: seq<nat>,
                                              last: Shared)
    requires AsAlone(jobs, mem, s) && Interleaved(jobs, s, schedule, last)
    ensures AsAlone(jobs, mem, last)
    decreases |schedule|
  {
    hide AsAlone;
    hide AccessBy;
    hide CanAccess;
    if |schedule| > 0 {
      AccessAsAlone(jobs, mem, s, schedule[0]);
      InterleavedAsAlone(jobs, mem, AccessBy(jobs, s, schedule[0]), schedule[1..], last);
    }
  }

  /** Job `i` has halted. */
  predicate JobOver(jobs: seq<Runner>, s: Shared, i: nat)
    requires i < |jobs| == |s.history|
  {
    jobs[i].prog(s.history[i]).Halt?
  }

  /** All jobs have halted. */
  ghost predicate AllOver(jobs: seq<Runner>, s: Shared) {
    |s.history| == |jobs| && forall i: nat {:trigger JobOver(jobs, s, i)} :: i < |jobs| ==> JobOver(jobs, s, i)
  }

  /** What job `i` must leave in its blocks. */
  ghost predicate Owes(jobs: seq<Runner>, mem: seq<Label>, i: nat, out: seq<Label>)
    requires InMemory(jobs, |mem|) && i < |jobs|
  {
    Fills(jobs[i].prog, View(jobs[i].place, mem), jobs[i].place.cells, out)
  }

  /** A job that is over has left in its blocks what it leaves there alone. */
  lemma OverFills(jobs: seq<Runner>, mem: seq<Label>, s: Shared, i: nat, out: seq<Label>)
    requires AsAlone(jobs, mem, s) && i < |jobs| && JobOver(jobs, s, i)
    requires Owes(jobs, mem, i, out)
    ensures jobs[i].place.Fits(|s.mem|)
    ensures s.mem[jobs[i].place.blocks..jobs[i].place.blocks + jobs[i].place.m] == out
  {
    var cells := View(jobs[i].place, mem);
    assert Seen(jobs, s, i) == RunAlone(jobs[i].prog, cells, |s.history[i]|);
    FilledWhenHalted(jobs[i].prog, cells, jobs[i].place.cells, out, |s.history[i]|);
  }

  /** Short-lived threads: when all jobs of a wave have been joined, in whatever order their accesses came,
      every job's blocks hold what it owes, and no other cell has changed. */
  lemma JoinedWave(jobs: seq<Runner>, mem: seq<Label>, s: Shared, schedule: seq<nat>, last: Shared, i: nat,
                   out: seq<Label>)
    requires Begun(jobs, mem, s) && Laid(jobs, |mem|) && Interleaved(jobs, s, schedule, last) && i < |jobs|
    requires Owes(jobs, mem, i, out)
    requires |last.history| == |jobs| ==> JobOver(jobs, last, i)
    ensures |last.mem| == |mem| && jobs[i].place.Fits(|mem|)
    ensures last.mem[jobs[i].place.blocks..jobs[i].place.blocks + jobs[i].place.m] == out
    ensures forall k: nat {:trigger Unowned(jobs, k)} :: k < |mem| && Unowned(jobs, k) ==> last.mem[k] == mem[k]
  {
    StartAsAlone(jobs, mem, s);
    InterleavedAsAlone(jobs, mem, s, schedule, last);
    OverFills(jobs, mem, last, i, out);
  }
}
