/** One chunk labelled by many lanes over a scratch buffer, as a machine over single memory accesses.

    Any lane may advance any node of the current level at any time, so every split of a level
    over warps, blocks or threads is a run of this machine. Nothing but the barrier between levels
    orders the accesses.
 */
module Kernel {
  import Dag
  import Labelling
  import opened Levels
  import opened SlotMap

  /** The uploaded topology of a chunk and the session it is hashed with. Node `id` keeps its
      scratch slot through level `hold[id]`. */
  datatype Topology = Topology(session: Labelling.Session, g: Dag.Graph, slot: seq<nat>, pool: nat, hold: seq<nat>,
                               rank: seq<int>, outputs: seq<nat>) {
    ghost predicate Valid() {
      && Dag.WellFormed(g) && |slot| >= |g| == |rank| == |hold| && Keeps()
      && (forall r {:trigger outputs[r]} :: 0 <= r < |outputs| ==> outputs[r] < |g| && rank[outputs[r]] == r)
      && (forall id {:trigger rank[id]} :: 0 <= id < |g| ==>
        rank[id] < |outputs| && (rank[id] >= 0 ==> outputs[rank[id]] == id))
    }

    /** No slot is given away while its label can still be read. */
    ghost predicate Keeps()
      requires Dag.WellFormed(g) && |slot| >= |g| == |hold|
    {
      && (forall id {:trigger slot[id]} :: 0 <= id < |g| ==> slot[id] < pool && LastUse(g, id) <= hold[id])
      && (forall a, b {:trigger slot[a], slot[b]} :: 0 <= a < |g| && 0 <= b < |g| && a != b && slot[a] == slot[b] ==>
            hold[a] < Level(g, b) || hold[b] < Level(g, a))
    }

    /** Predecessors in hashing order. */
    function Preds(id: nat): (ps: seq<nat>)
      requires id < |g|
      ensures |ps| <= 2
    {
      match g[id]
      case Source => []
      case One(p) => [p]
      case Two(p, q) => [p, q]
    }

    /** The label node `id` must get. */
    ghost function Expected(id: nat): Labelling.Label
      requires Dag.WellFormed(g) && id < |g|
    {
      Labelling.Labels(session, g)[id]
    }
  }

  /** How far a node's lane has come: predecessor labels loaded so far, label stored, or output copied. */
  datatype Task = Fetching(got: seq<Labelling.Label>) | Stored | Finished

  /** `written[r]` counts the stores to rank r. */
  datatype ChunkState = ChunkState(level: nat, task: seq<Task>, scratch: seq<Labelling.Label>,
                                   persist: seq<Labelling.Label>, written: seq<nat>)

  datatype Step = Load(id: nat) | Store(id: nat) | Copy(id: nat) | Barrier

  ghost predicate Shape(t: Topology, s: ChunkState) {
    && t.Valid()
    && |s.task| == |t.g| && |s.scratch| == t.pool && |s.persist| == |s.written| == |t.outputs|
  }

  ghost predicate LevelDone(t: Topology, s: ChunkState)
    requires Shape(t, s)
  {
    forall id {:trigger s.task[id]} :: 0 <= id < |t.g| && Level(t.g, id) == s.level ==> s.task[id].Finished?
  }

  ghost predicate Enabled(t: Topology, s: ChunkState, step: Step)
    requires Shape(t, s)
  {
    match step
    case Load(id) =>
      id < |t.g| && Level(t.g, id) == s.level && s.task[id].Fetching? && |s.task[id].got| < |t.Preds(id)|
      && t.Preds(id)[|s.task[id].got|] < |t.g|
    case Store(id) =>
      id < |t.g| && Level(t.g, id) == s.level && s.task[id].Fetching? && |s.task[id].got| == |t.Preds(id)|
    case Copy(id) =>
      id < |t.g| && Level(t.g, id) == s.level && s.task[id].Stored?
    case Barrier =>
      s.level < Height(t.g) && LevelDone(t, s)
  }

  /** One memory access of one lane, or the barrier that ends a level. */
  ghost function Do(t: Topology, s: ChunkState, step: Step): (s': ChunkState)
    requires Shape(t, s) && Enabled(t, s, step)
  {
    SlotsFit(t);
    match step
    case Load(id) =>
      var got := s.task[id].got;
      s.(task := s.task[id := Fetching(got + [s.scratch[t.slot[t.Preds(id)[|got|]]]])])
    case Store(id) =>
      s.(task := s.task[id := Stored],
         scratch := s.scratch[t.slot[id] := Labelling.NodeLabel(t.session, id, s.task[id].got)])
    case Copy(id) =>
      if t.rank[id] >= 0 then
        s.(task := s.task[id := Finished],
           persist := s.persist[t.rank[id] := s.scratch[t.slot[id]]],
           written := s.written[t.rank[id] := s.written[t.rank[id]] + 1])
      else
        s.(task := s.task[id := Finished])
    case Barrier =>
      s.(level := s.level + 1)
  }

  lemma SlotsFit(t: Topology)
    requires t.Valid()
    ensures forall id: nat {:trigger t.slot[id]} :: id < |t.g| ==> t.slot[id] < t.pool && Level(t.g, id) <= t.hold[id]
  {
    forall id: nat | id < |t.g|
      ensures t.slot[id] < t.pool && Level(t.g, id) <= t.hold[id]
    {
      LastUseBelowHeight(t.g, id);
    }
  }

  /** Before the first step: scratch and persisted region hold anything. */
  ghost predicate Initial(t: Topology, s: ChunkState) {
    && Shape(t, s) && s.level == 0
    && (forall id {:trigger s.task[id]} :: 0 <= id < |t.g| ==> s.task[id] == Fetching([]))
    && (forall r {:trigger s.written[r]} :: 0 <= r < |t.outputs| ==> s.written[r] == 0)
  }

  // ---------- invariant ----------

  /** The predecessors' labels, as far as loaded. */
  ghost predicate Loaded(t: Topology, id: nat, got: seq<Labelling.Label>)
    requires Dag.WellFormed(t.g) && id < |t.g|
  {
    && |got| <= |t.Preds(id)|
    && forall i {:trigger got[i]} :: 0 <= i < |got| ==> t.Preds(id)[i] < |t.g| && got[i] == t.Expected(t.Preds(id)[i])
  }

  ghost predicate TaskOk(t: Topology, s: ChunkState, id: nat)
    requires Shape(t, s) && id < |t.g|
  {
    if Level(t.g, id) < s.level then s.task[id].Finished?
    else if Level(t.g, id) > s.level then s.task[id] == Fetching([])
    else s.task[id].Fetching? ==> Loaded(t, id, s.task[id].got)
  }

  /** A stored label stays in its slot as long as anybody may still read it. */
  ghost predicate SlotOk(t: Topology, s: ChunkState, id: nat)
    requires Shape(t, s) && id < |t.g|
  {
    t.slot[id] < |s.scratch|
    && (!s.task[id].Fetching? && t.hold[id] >= s.level ==> s.scratch[t.slot[id]] == t.Expected(id))
  }

  ghost predicate RankOk(t: Topology, s: ChunkState, r: nat)
    requires Shape(t, s) && r < |t.outputs|
  {
    var id := t.outputs[r];
    id < |t.g| && s.written[r] == (if s.task[id].Finished? then 1 else 0)
    && (s.task[id].Finished? ==> s.persist[r] == t.Expected(id))
  }

  ghost predicate Inv(t: Topology, s: ChunkState) {
    && Shape(t, s) && s.level <= Height(t.g)
    && (forall id: nat {:trigger TaskOk(t, s, id)} :: id < |t.g| ==> TaskOk(t, s, id))
    && (forall id: nat {:trigger SlotOk(t, s, id)} :: id < |t.g| ==> SlotOk(t, s, id))
    && (forall r: nat {:trigger RankOk(t, s, r)} :: r < |t.outputs| ==> RankOk(t, s, r))
  }

  lemma InvAt(t: Topology, s: ChunkState, id: nat)
    requires Inv(t, s) && id < |t.g|
    ensures TaskOk(t, s, id) && SlotOk(t, s, id)
  {
  }

  lemma InvRank(t: Topology, s: ChunkState, r: nat)
    requires Inv(t, s) && r < |t.outputs|
    ensures RankOk(t, s, r)
  {
  }

  lemma InitialInv(t: Topology, s: ChunkState)
    requires Initial(t, s)
    ensures Inv(t, s)
  {
    SlotsFit(t);
  }

  lemma PredFacts(t: Topology, id: nat, i: nat)
    requires t.Valid() && id < |t.g| && i < |t.Preds(id)|
    ensures t.Preds(id)[i] < id
    ensures Level(t.g, t.Preds(id)[i]) < Level(t.g, id) <= t.hold[t.Preds(id)[i]]
  {
    assert Dag.Fits(t.g[id], id);
    LastUseBound(t.g, t.Preds(id)[i], id);
    assert t.slot[t.Preds(id)[i]] < t.pool;
  }

  /** Fully loaded predecessor labels hash to the expected label. */
  lemma LoadedHash(t: Topology, id: nat, got: seq<Labelling.Label>)
    requires t.Valid() && id < |t.g| && Loaded(t, id, got) && |got| == |t.Preds(id)|
    ensures Labelling.NodeLabel(t.session, id, got) == t.Expected(id)
  {
    Labelling.LabelAt(t.session, t.g, id);
    assert Dag.Fits(t.g[id], id);
    var ls := Labelling.Labels(t.session, t.g);
    assert got == Labelling.PredLabels(ls, t.g[id]) by {
      match t.g[id]
      case Source =>
      case One(p) => assert got[0] == ls[p];
      case Two(p, q) => assert got[0] == ls[p] && got[1] == ls[q];
    }
  }

  /** Nobody else who is still needed lives in the slot a node of the current level stores to. */
  lemma SlotFreeToStore(t: Topology, s: ChunkState, id: nat, other: nat)
    requires Inv(t, s) && id < |t.g| && other < |t.g| && other != id && Level(t.g, id) == s.level
    requires !s.task[other].Fetching? && t.hold[other] >= s.level
    ensures t.slot[other] != t.slot[id]
  {
    InvAt(t, s, other);
    SlotsFit(t);
  }

  lemma LoadedNext(t: Topology, id: nat, got: seq<Labelling.Label>, next: Labelling.Label)
    requires Dag.WellFormed(t.g) && id < |t.g| && Loaded(t, id, got) && |got| < |t.Preds(id)|
    requires t.Preds(id)[|got|] < |t.g| && next == t.Expected(t.Preds(id)[|got|])
    ensures Loaded(t, id, got + [next])
  {
  }

  lemma LoadKeeps(t: Topology, s: ChunkState, id: nat)
    requires Inv(t, s) && Enabled(t, s, Load(id))
    ensures Inv(t, Do(t, s, Load(id)))
  {
    hide Level;
    hide LastUse;
    hide Height;
    hide Dag.WellFormed;
    SlotsFit(t);
    var s' := Do(t, s, Load(id));
    var got := s.task[id].got;
    var p := t.Preds(id)[|got|];
    PredFacts(t, id, |got|);
    InvAt(t, s, id);
    InvAt(t, s, p);
    LoadedNext(t, id, got, s.scratch[t.slot[p]]);
    hide Loaded;
    forall x: nat | x < |t.g|
      ensures TaskOk(t, s', x) && SlotOk(t, s', x)
    {
      InvAt(t, s, x);
    }
    forall r: nat | r < |t.outputs|
      ensures RankOk(t, s', r)
    {
      InvRank(t, s, r);
    }
  }

  lemma StoreKeeps(t: Topology, s: ChunkState, id: nat)
    requires Inv(t, s) && Enabled(t, s, Store(id))
    ensures Inv(t, Do(t, s, Store(id)))
  {
    hide Level;
    hide LastUse;
    hide Height;
    hide Dag.WellFormed;
    SlotsFit(t);
    var s' := Do(t, s, Store(id));
    InvAt(t, s, id);
    LoadedHash(t, id, s.task[id].got);
    forall x: nat | x < |t.g|
      ensures TaskOk(t, s', x) && SlotOk(t, s', x)
    {
      InvAt(t, s, x);
      if x != id && !s.task[x].Fetching? && t.hold[x] >= s.level {
        SlotFreeToStore(t, s, id, x);
      }
    }
    forall r: nat | r < |t.outputs|
      ensures RankOk(t, s', r)
    {
      InvRank(t, s, r);
    }
  }

  lemma CopyKeeps(t: Topology, s: ChunkState, id: nat)
    requires Inv(t, s) && Enabled(t, s, Copy(id))
    ensures Inv(t, Do(t, s, Copy(id)))
  {
    hide Level;
    hide LastUse;
    hide Height;
    hide Dag.WellFormed;
    SlotsFit(t);
    var s' := Do(t, s, Copy(id));
    InvAt(t, s, id);
    LastUseBelowHeight(t.g, id);
    forall x: nat | x < |t.g|
      ensures TaskOk(t, s', x) && SlotOk(t, s', x)
    {
      InvAt(t, s, x);
    }
    forall r: nat | r < |t.outputs|
      ensures RankOk(t, s', r)
    {
      InvRank(t, s, r);
      assert t.rank[t.outputs[r]] == r;
    }
  }

  lemma BarrierKeeps(t: Topology, s: ChunkState)
    requires Inv(t, s) && Enabled(t, s, Barrier)
    ensures Inv(t, Do(t, s, Barrier))
  {
    hide Level;
    hide LastUse;
    hide Height;
    hide Dag.WellFormed;
    SlotsFit(t);
    var s' := Do(t, s, Barrier);
    forall x: nat | x < |t.g|
      ensures TaskOk(t, s', x) && SlotOk(t, s', x)
    {
      InvAt(t, s, x);
      assert Level(t.g, x) == s.level ==> s.task[x].Finished?;
    }
    forall r: nat | r < |t.outputs|
      ensures RankOk(t, s', r)
    {
      InvRank(t, s, r);
    }
  }

  /** Every step of every lane keeps the invariant. */
  lemma StepKeeps(t: Topology, s: ChunkState, step: Step)
    requires Inv(t, s) && Enabled(t, s, step)
    ensures Inv(t, Do(t, s, step))
  {
    match step
    case Load(id) => LoadKeeps(t, s, id);
    case Store(id) => StoreKeeps(t, s, id);
    case Copy(id) => CopyKeeps(t, s, id);
    case Barrier => BarrierKeeps(t, s);
  }

  // ---------- runs ----------

  /** `schedule` is a legal interleaving from `s` to `last`. */
  ghost predicate Runs(t: Topology, s: ChunkState, schedule: seq<Step>, last: ChunkState)
    decreases |schedule|
  {
    if |schedule| == 0 then s == last
    else Shape(t, s) && Enabled(t, s, schedule[0]) && Runs(t, Do(t, s, schedule[0]), schedule[1..], last)
  }

  lemma {:induction false} RunKeeps(t: Topology, s: ChunkState, schedule: seq<Step>, last: ChunkState)
    requires Inv(t, s) && Runs(t, s, schedule, last)
    ensures Inv(t, last)
    decreases |schedule|
  {
    hide Inv;
    hide Enabled;
    hide Do;
    if |schedule| > 0 {
      StepKeeps(t, s, schedule[0]);
      RunKeeps(t, Do(t, s, schedule[0]), schedule[1..], last);
    }
  }

  /** Whatever the interleaving, when the last level is over every rank holds its label, written exactly once. */
  lemma RunPersists(t: Topology, s: ChunkState, schedule: seq<Step>, last: ChunkState)
    requires Initial(t, s) && Runs(t, s, schedule, last) && last.level == Height(t.g)
    ensures |last.persist| == |last.written| == |t.outputs|
    ensures forall r {:trigger last.persist[r]} :: 0 <= r < |t.outputs| ==>
              t.outputs[r] < |t.g| && last.persist[r] == t.Expected(t.outputs[r]) && last.written[r] == 1
  {
    hide Runs;
    hide Level;
    hide LastUse;
    hide Height;
    InitialInv(t, s);
    RunKeeps(t, s, schedule, last);
    forall r: nat | r < |t.outputs|
      ensures t.outputs[r] < |t.g| && last.persist[r] == t.Expected(t.outputs[r]) && last.written[r] == 1
    {
      InvRank(t, last, r);
      InvAt(t, last, t.outputs[r]);
      LevelBelowHeight(t.g, t.outputs[r]);
    }
  }

  /** Labels held past the last level are all still in scratch. */
  lemma RunHolds(t: Topology, s: ChunkState, schedule: seq<Step>, last: ChunkState, id: nat)
    requires Initial(t, s) && Runs(t, s, schedule, last) && last.level == Height(t.g)
    requires id < |t.g| && t.hold[id] >= Height(t.g)
    ensures t.slot[id] < |last.scratch| && last.scratch[t.slot[id]] == t.Expected(id)
  {
    hide Runs;
    hide Level;
    hide LastUse;
    hide Height;
    InitialInv(t, s);
    RunKeeps(t, s, schedule, last);
    InvAt(t, last, id);
    LevelBelowHeight(t.g, id);
  }

  /** The machine never gets stuck before the last level is over. */
  lemma NeverStuck(t: Topology, s: ChunkState) returns (step: Step)
    requires Inv(t, s) && s.level < Height(t.g)
    ensures Enabled(t, s, step)
  {
    hide Level;
    hide Height;
    hide LastUse;
    if LevelDone(t, s) {
      step := Barrier;
    } else {
      var id: nat :| id < |t.g| && Level(t.g, id) == s.level && !s.task[id].Finished?;
      InvAt(t, s, id);
      if s.task[id].Stored? {
        step := Copy(id);
      } else if |s.task[id].got| == |t.Preds(id)| {
        step := Store(id);
      } else {
        PredFacts(t, id, |s.task[id].got|);
        step := Load(id);
      }
    }
  }

  // ---------- termination ----------

  /** Accesses a node's lane still has to make. */
  function Remaining(task: Task): nat {
    match task
    case Fetching(got) => if |got| <= 2 then 4 - |got| else 2
    case Stored => 1
    case Finished => 0
  }

  function TotalRemaining(tasks: seq<Task>): nat {
    if |tasks| == 0 then 0 else TotalRemaining(tasks[..|tasks| - 1]) + Remaining(tasks[|tasks| - 1])
  }

  lemma {:induction false} TotalUpdate(tasks: seq<Task>, id: nat, task: Task)
    requires id < |tasks|
    ensures TotalRemaining(tasks[id := task]) == TotalRemaining(tasks) - Remaining(tasks[id]) + Remaining(task)
  {
    var last := |tasks| - 1;
    if id == last {
      assert tasks[id := task][..last] == tasks[..last];
    } else {
      TotalUpdate(tasks[..last], id, task);
      assert tasks[id := task][..last] == tasks[..last][id := task];
    }
  }

  ghost function Work(t: Topology, s: ChunkState): nat
    requires Inv(t, s)
  {
    TotalRemaining(s.task) + (Height(t.g) - s.level)
  }

  /** Every step uses up work, so every run ends, and by NeverStuck it ends after the last level. */
  lemma StepWorks(t: Topology, s: ChunkState, step: Step)
    requires Inv(t, s) && Enabled(t, s, step)
    ensures Inv(t, Do(t, s, step)) && Work(t, Do(t, s, step)) < Work(t, s)
  {
    hide Level;
    hide Height;
    hide LastUse;
    StepKeeps(t, s, step);
    if !step.Barrier? {
      InvAt(t, s, step.id);
      TotalUpdate(s.task, step.id, Do(t, s, step).task[step.id]);
      assert Do(t, s, step).task == s.task[step.id := Do(t, s, step).task[step.id]];
    }
  }

  /** No schedule is longer than the work there is. */
  lemma {:induction false} RunLength(t: Topology, s: ChunkState, schedule: seq<Step>, last: ChunkState)
    requires Inv(t, s) && Runs(t, s, schedule, last)
    ensures Inv(t, last) && |schedule| + Work(t, last) <= Work(t, s)
    decreases |schedule|
  {
    hide Inv;
    hide Enabled;
    hide Do;
    hide Work;
    if |schedule| > 0 {
      StepWorks(t, s, schedule[0]);
      RunLength(t, Do(t, s, schedule[0]), schedule[1..], last);
    }
  }
}
