/** How the lanes of a kernel walk a level: positions dealt out with a fixed stride, then a barrier.

    A team of lanes serves one chunk (a warp, a block) or all chunks of a wave (the whole grid). Position `at`
    of a level with `n` nodes stands for node `order[start + at % n]` of the team's chunk `at / n`; lane ℓ takes
    the positions ℓ, ℓ + width, ℓ + 2 width and so on. That every node of the level is computed exactly once is
    a consequence.
 */
module Lanes {
  import opened Offsets
  import Dag
  import Labelling
  import opened Levels
  import Buckets
  import opened SlotMap
  import opened Kernel

  // ---------- slices of the level-sorted order ----------

  /** Level `lv` is slice [start[lv], start[lv + 1]) of `order`. */
  ghost predicate Sliced(g: Dag.Graph, order: seq<nat>, start: seq<nat>) {
    && Dag.WellFormed(g) && |start| == Height(g) + 1
    && (forall lv: nat {:trigger start[lv]} :: lv < Height(g) ==> SliceOk(g, order, start, lv))
  }

  ghost predicate SliceOk(g: Dag.Graph, order: seq<nat>, start: seq<nat>, lv: nat)
    requires Dag.WellFormed(g) && lv + 1 < |start|
  {
    && start[lv] <= start[lv + 1] <= |order|
    && (forall i {:trigger order[i]} :: start[lv] <= i < start[lv + 1] ==> order[i] < |g| && Level(g, order[i]) == lv)
    && (forall i, k {:trigger order[i], order[k]} :: start[lv] <= i < k < start[lv + 1] ==> order[i] != order[k])
    && (forall id: nat {:trigger g[id]} :: id < |g| && Level(g, id) == lv ==> id in order[start[lv]..start[lv + 1]])
  }

  /** The counting sort leaves such slices. */
  lemma SortedSliced(g: Dag.Graph, order: seq<nat>, start: seq<nat>)
    requires Dag.WellFormed(g) && Buckets.Sorted(LevelsOf(g), Height(g), start, order)
    ensures Sliced(g, order, start)
  {
    hide Level;
    hide Height;
    hide Buckets.Start;
    hide Buckets.Bucket;
    var key := LevelsOf(g);
    forall lv: nat | lv < Height(g)
      ensures SliceOk(g, order, start, lv)
    {
      SortedSlice(g, order, start, lv);
    }
  }

  lemma SortedSlice(g: Dag.Graph, order: seq<nat>, start: seq<nat>, lv: nat)
    requires Dag.WellFormed(g) && Buckets.Sorted(LevelsOf(g), Height(g), start, order) && lv < Height(g)
    ensures |start| == Height(g) + 1 && SliceOk(g, order, start, lv)
  {
    hide Level;
    hide Height;
    hide Buckets.Start;
    hide Buckets.Bucket;
    var key := LevelsOf(g);
    var b := Buckets.Bucket(key, lv);
    assert start[lv] <= start[lv + 1] <= |order| && order[start[lv]..start[lv + 1]] == b;
    Buckets.BucketAscends(key, lv);
    forall i {:trigger order[i]} | start[lv] <= i < start[lv + 1]
      ensures order[i] == b[i - start[lv]] && order[i] < |g| && Level(g, order[i]) == lv
    {
      assert order[start[lv]..start[lv + 1]][i - start[lv]] == order[i];
      Buckets.BucketMember(key, lv, order[i]);
    }
    forall id: nat | id < |g| && Level(g, id) == lv
      ensures id in b
    {
      assert key[id] == lv;
      Buckets.BucketMember(key, lv, id);
    }
  }

  function Size(start: seq<nat>, lv: nat): nat
    requires lv + 1 < |start| && start[lv] <= start[lv + 1]
  {
    start[lv + 1] - start[lv]
  }

  // ---------- lanes ----------

  /** A lane: its position in the level, and how far it has come with that node. */
  datatype Lane = Lane(at: nat, got: seq<Labelling.Label>, stored: bool)

  /** Lanes that meet at a barrier after every level. */
  datatype Team = Team(level: nat, lanes: seq<Lane>) {
    /** Lane ℓ is at one of its own positions, and idle once past the last one of `total`. */
    ghost predicate Valid(total: nat) {
      && |lanes| >= 1
      && forall l {:trigger lanes[l]} :: 0 <= l < |lanes| ==>
           lanes[l].at % |lanes| == l && (lanes[l].at >= total ==> lanes[l].got == [] && !lanes[l].stored)
    }

    /** What the lanes have done at position `at` so far. */
    function TaskAt(at: nat): Task
      requires |lanes| >= 1
    {
      var lane := lanes[at % |lanes|];
      if at < lane.at then Finished
      else if at > lane.at then Fetching([])
      else if lane.stored then Stored
      else Fetching(lane.got)
    }

    predicate Idle(total: nat) {
      forall l {:trigger lanes[l]} :: 0 <= l < |lanes| ==> lanes[l].at >= total
    }
  }

  /** All lanes at their first position of a level. */
  function Fresh(level: nat, width: nat): (team: Team)
    requires width >= 1
    ensures team.level == level && |team.lanes| == width
    ensures forall l {:trigger team.lanes[l]} :: 0 <= l < width ==> team.lanes[l] == Lane(l, [], false)
  {
    Team(level, seq(width, l requires 0 <= l < width => Lane(l, [], false)))
  }

  lemma FreshValid(level: nat, width: nat, total: nat)
    requires width >= 1
    ensures Fresh(level, width).Valid(total)
    ensures forall at: nat {:trigger Fresh(level, width).TaskAt(at)} :: Fresh(level, width).TaskAt(at) == Fetching([])
  {
    forall at: nat
      ensures Fresh(level, width).TaskAt(at) == Fetching([])
    {
      Remainder(at, width);
    }
    forall l | 0 <= l < width
      ensures l % width == l
    {
    }
  }

  /** Two positions of one lane are at least a stride apart. */
  lemma StrideApart(a: nat, b: nat, width: nat)
    requires width >= 1 && a % width == b % width && a < b
    ensures a + width <= b
  {
    Remainder(a, width);
    Remainder(b, width);
    if a / width < b / width {
      OffsetMonotone(a / width, b / width, width);
    } else if b / width < a / width {
      OffsetMonotone(b / width, a / width, width);
    }
  }

  lemma StrideKeeps(a: nat, width: nat)
    requires width >= 1
    ensures (a + width) % width == a % width
  {
    Remainder(a, width);
    OffsetNext(a / width, width);
    OffsetDivides(a / width + 1, width, a % width);
  }

  /** Lane `l` at a new state of its node, or at its next position. */
  function WithLane(team: Team, l: nat, lane: Lane): Team
    requires l < |team.lanes|
  {
    team.(lanes := team.lanes[l := lane])
  }

  /** Working on one position leaves all other positions as they are. */
  lemma SamePosition(team: Team, l: nat, got: seq<Labelling.Label>, stored: bool, total: nat, at: nat)
    requires team.Valid(total) && l < |team.lanes| && team.lanes[l].at < total
    ensures var team' := WithLane(team, l, team.lanes[l].(got := got, stored := stored));
            && team'.Valid(total)
            && team'.TaskAt(at) == if at == team.lanes[l].at then (if stored then Stored else Fetching(got))
              else team.TaskAt(at)
  {
  }

  /** Moving on finishes one position and leaves all others as they are. */
  lemma NextPosition(team: Team, l: nat, total: nat, at: nat)
    requires team.Valid(total) && l < |team.lanes| && team.lanes[l].at < total
    ensures var team' := WithLane(team, l, Lane(team.lanes[l].at + |team.lanes|, [], false));
            && team'.Valid(total)
            && team'.TaskAt(at) == if at == team.lanes[l].at then Finished else team.TaskAt(at)
  {
    var width, here := |team.lanes|, team.lanes[l].at;
    StrideKeeps(here, width);
    if at % width == l {
      if here < at { StrideApart(here, at, width); }
    }
  }

  // ---------- lanes and the nodes of a chunk ----------

  predicate Fed(t: Topology, id: nat, task: Task)
    requires id < |t.g|
  {
    task.Fetching? ==> |task.got| <= |t.Preds(id)|
  }

  /** The tasks of the team's chunk number `j` are what its lanes have done. */
  ghost predicate ChunkSync(t: Topology, order: seq<nat>, start: seq<nat>, team: Team, j: nat, task: seq<Task>) {
    && Sliced(t.g, order, start) && |task| == |t.g| && team.level <= Height(t.g) && |team.lanes| >= 1
    && (forall id: nat {:trigger task[id]} :: id < |t.g| ==>
          Fed(t, id, task[id])
          && (Level(t.g, id) < team.level ==> task[id].Finished?)
            && (Level(t.g, id) > team.level ==> task[id] == Fetching([])))
    && (team.level < Height(t.g) ==> LevelSync(t, order, start, team, j, task))
  }

  ghost predicate LevelSync(t: Topology, order: seq<nat>, start: seq<nat>, team: Team, j: nat, task: seq<Task>)
    requires Sliced(t.g, order, start) && |task| == |t.g| && team.level < Height(t.g) && |team.lanes| >= 1
  {
    var lv := team.level;
    assert SliceOk(t.g, order, start, lv);
    forall i: nat {:trigger order[i]} :: start[lv] <= i < start[lv + 1] ==>
      task[order[i]] == team.TaskAt(Offset(j, Size(start, lv)) + (i - start[lv]))
  }

  lemma LevelSlice(g: Dag.Graph, order: seq<nat>, start: seq<nat>, lv: nat)
    requires Sliced(g, order, start) && lv < Height(g)
    ensures SliceOk(g, order, start, lv)
  {
    assert start[lv] == start[lv];
  }

  /** The team's chunk and the node that position `at` stands for. */
  lemma PositionOf(at: nat, n: nat, K: nat) returns (j: nat, x: nat)
    requires at < Offset(K, n)
    ensures n > 0 && j == at / n && x == at % n && j < K && x < n && at == Offset(j, n) + x
  {
    if n == 0 {
      NoRows(K);
    }
    j, x := at / n, at % n;
    Remainder(at, n);
    if j >= K {
      if j > K { OffsetMonotone(K, j, n); }
    }
  }

  lemma NoRows(K: nat)
    ensures Offset(K, 0) == 0
  {
  }

  lemma OtherRow(j: nat, x: nat, jj: nat, y: nat, n: nat)
    requires x < n && y < n && j != jj
    ensures Offset(j, n) + x != Offset(jj, n) + y
  {
    if j < jj { OffsetMonotone(j, jj, n); } else { OffsetMonotone(jj, j, n); }
  }

  /** Work on one node, seen by the chunk it belongs to. */
  lemma OwnSync(t: Topology, order: seq<nat>, start: seq<nat>, team: Team, team': Team, j: nat, x: nat,
                task: seq<Task>, done: Task)
    requires ChunkSync(t, order, start, team, j, task) && team.level < Height(t.g) && team'.level == team.level
    requires |team'.lanes| >= 1
    requires SliceOk(t.g, order, start, team.level) && x < Size(start, team.level)
    requires var at := Offset(j, Size(start, team.level)) + x;
             forall k: nat {:trigger team'.TaskAt(k)} :: team'.TaskAt(k) == if k == at then done else team.TaskAt(k)
    ensures order[start[team.level] + x] < |t.g|
    ensures Fed(t, order[start[team.level] + x], done) ==>
              ChunkSync(t, order, start, team', j, task[order[start[team.level] + x] := done])
  {
    hide Level;
    hide Height;
    hide Offset;
    hide Team.TaskAt;
    OwnLevelSync(t, order, start, team, team', j, x, task, done);
    hide SliceOk;
    hide LevelSync;
  }

  lemma OwnLevelSync(t: Topology, order: seq<nat>, start: seq<nat>, team: Team, team': Team, j: nat, x: nat,
                     task: seq<Task>, done: Task)
    requires Sliced(t.g, order, start) && |task| == |t.g| && team.level < Height(t.g) && team'.level == team.level
    requires |team.lanes| >= 1 && |team'.lanes| >= 1 && LevelSync(t, order, start, team, j, task)
    requires SliceOk(t.g, order, start, team.level) && x < Size(start, team.level)
    requires var at := Offset(j, Size(start, team.level)) + x;
             forall k: nat {:trigger team'.TaskAt(k)} :: team'.TaskAt(k) == if k == at then done else team.TaskAt(k)
    ensures order[start[team.level] + x] < |t.g| && Level(t.g, order[start[team.level] + x]) == team.level
    ensures LevelSync(t, order, start, team', j, task[order[start[team.level] + x] := done])
  {
    hide Level;
    hide Height;
    hide Offset;
    hide Team.TaskAt;
    var lv := team.level;
    var at, n := start[lv] + x, Size(start, lv);
    var id := order[at];
    var task' := task[id := done];
    forall i: nat {:trigger order[i]} | start[lv] <= i < start[lv + 1]
      ensures task'[order[i]] == team'.TaskAt(Offset(j, n) + (i - start[lv]))
    {
      assert order[i] == id ==> i == at;
    }
  }

  /** Work on one node, seen by another chunk of the team. */
  lemma OtherSync(t: Topology, order: seq<nat>, start: seq<nat>, team: Team, team': Team, j: nat, x: nat, jj: nat,
                  task: seq<Task>, done: Task)
    requires ChunkSync(t, order, start, team, jj, task) && team.level < Height(t.g) && team'.level == team.level
    requires |team'.lanes| >= 1
    requires SliceOk(t.g, order, start, team.level) && x < Size(start, team.level) && j != jj
    requires var at := Offset(j, Size(start, team.level)) + x;
             forall k: nat {:trigger team'.TaskAt(k)} :: team'.TaskAt(k) == if k == at then done else team.TaskAt(k)
    ensures ChunkSync(t, order, start, team', jj, task)
  {
    hide Level;
    hide Height;
    hide Offset;
    hide Team.TaskAt;
    var lv := team.level;
    var n := Size(start, lv);
    forall i: nat {:trigger order[i]} | start[lv] <= i < start[lv + 1]
      ensures task[order[i]] == team'.TaskAt(Offset(jj, n) + (i - start[lv]))
    {
      OtherRow(j, x, jj, i - start[lv], n);
    }
  }

  /** The accesses of a lane are steps of the chunk's machine: its position tells which node, the lane how far. */
  lemma LaneEnabled(t: Topology, s: ChunkState, order: seq<nat>, start: seq<nat>, team: Team, j: nat, x: nat)
    requires Shape(t, s) && ChunkSync(t, order, start, team, j, s.task) && s.level == team.level < Height(t.g)
    requires SliceOk(t.g, order, start, team.level) && x < Size(start, team.level)
    ensures var id, task := order[start[team.level] + x], team.TaskAt(Offset(j, Size(start, team.level)) + x);
            && id < |t.g| && s.task[id] == task && Fed(t, id, task)
            && (task.Stored? ==> Enabled(t, s, Copy(id)))
            && (task.Fetching? && |task.got| == |t.Preds(id)| ==> Enabled(t, s, Store(id)))
            && (task.Fetching? && |task.got| < |t.Preds(id)| ==> Enabled(t, s, Load(id)))
  {
    hide Level;
    hide Height;
    hide LastUse;
    hide Offset;
    hide Team.TaskAt;
    var lv := team.level;
    var id := order[start[lv] + x];
    assert s.task[id] == team.TaskAt(Offset(j, Size(start, lv)) + ((start[lv] + x) - start[lv]));
    assert Fed(t, id, s.task[id]);
    if s.task[id].Fetching? && |s.task[id].got| < |t.Preds(id)| {
      PredFacts(t, id, |s.task[id].got|);
    }
  }

  /** When all lanes of a team are past the last position, all its chunks' nodes of the level are finished. */
  lemma BarrierEnabled(t: Topology, s: ChunkState, order: seq<nat>, start: seq<nat>, team: Team, j: nat, K: nat)
    requires Shape(t, s) && ChunkSync(t, order, start, team, j, s.task) && s.level == team.level < Height(t.g) && j < K
    requires SliceOk(t.g, order, start, team.level) && team.Idle(Offset(K, Size(start, team.level)))
    ensures Enabled(t, s, Barrier)
  {
    hide Level;
    hide Height;
    hide LastUse;
    hide Offset;
    var lv, n := team.level, Size(start, team.level);
    forall id {:trigger s.task[id]} | 0 <= id < |t.g| && Level(t.g, id) == s.level
      ensures s.task[id].Finished?
    {
      assert t.g[id] == t.g[id];
      var x :| 0 <= x < n && order[start[lv]..start[lv + 1]][x] == id;
      assert order[start[lv] + x] == id;
      OffsetMonotone(j, K, n);
      assert s.task[order[start[lv] + x]] == team.TaskAt(Offset(j, n) + ((start[lv] + x) - start[lv]));
      assert team.lanes[(Offset(j, n) + x) % |team.lanes|].at >= Offset(K, n);
    }
  }

  lemma FreshSync(t: Topology, order: seq<nat>, start: seq<nat>, lv: nat, j: nat, task: seq<Task>, width: nat)
    requires Sliced(t.g, order, start) && |task| == |t.g| && lv < Height(t.g) && width >= 1
    requires forall id {:trigger task[id]} :: 0 <= id < |t.g| && Level(t.g, id) == lv ==> task[id] == Fetching([])
    ensures LevelSync(t, order, start, Fresh(lv, width), j, task)
  {
    hide Level;
    hide Height;
    hide Offset;
    hide Sliced;
    FreshValid(lv, width, 0);
    LevelSlice(t.g, order, start, lv);
  }

  /** After the barrier every lane is at its first position of the next level. */
  lemma NextLevelSync(t: Topology, order: seq<nat>, start: seq<nat>, team: Team, j: nat, K: nat, task: seq<Task>,
                      width: nat)
    requires ChunkSync(t, order, start, team, j, task) && team.level < Height(t.g) && width >= 1
    requires forall id {:trigger task[id]} :: 0 <= id < |t.g| && Level(t.g, id) == team.level ==> task[id].Finished?
    ensures ChunkSync(t, order, start, Fresh(team.level + 1, width), j, task)
  {
    hide Level;
    hide Height;
    hide Offset;
    hide LevelSync;
    if team.level + 1 < Height(t.g) {
      FreshSync(t, order, start, team.level + 1, j, task, width);
    }
  }

  /** Before the first level nothing has been done. */
  lemma FirstSync(t: Topology, order: seq<nat>, start: seq<nat>, j: nat, width: nat)
    requires Sliced(t.g, order, start) && width >= 1
    ensures ChunkSync(t, order, start, Fresh(0, width), j, seq(|t.g|, _ => Fetching([])))
  {
    hide Level;
    hide Height;
    hide Offset;
    hide LevelSync;
    if 0 < Height(t.g) {
      FreshSync(t, order, start, 0, j, seq(|t.g|, _ => Fetching([])), width);
    }
  }
}
