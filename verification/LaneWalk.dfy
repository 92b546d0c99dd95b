/** Running a launch: any lane that is not at its barrier may make the next access, in the device's memory. */
module LaneWalk {
  import opened Offsets
  import Dag
  import opened Labelling
  import SlotMap
  import opened Kernel
  import opened Launches
  import opened Lanes
  import IdEmitter
  import Levels

  // ---------- teams of a launch ----------

  /** One team for the whole grid, or one for every chunk. */
  function TeamOf(grid: bool, w: nat): nat {
    if grid then 0 else w
  }

  /** The number of chunk `w` within its team. */
  function RowOf(grid: bool, w: nat): nat {
    if grid then w else 0
  }

  function TeamRows(grid: bool, chunks: nat): nat {
    if grid then chunks else 1
  }

  function Total(start: seq<nat>, level: nat, grid: bool, chunks: nat): nat
    requires level + 1 < |start| && start[level] <= start[level + 1]
  {
    Offset(TeamRows(grid, chunks), Size(start, level))
  }

  /** Levels are in order in the uploaded index. */
  predicate Rising(start: seq<nat>, order: seq<nat>) {
    |start| >= 1 && forall lv {:trigger start[lv]} :: 0 <= lv < |start| - 1 ==> start[lv] <= start[lv + 1] <= |order|
  }

  ghost predicate TeamOk(start: seq<nat>, order: seq<nat>, team: Team, grid: bool, chunks: nat, width: nat)
    requires Rising(start, order)
  {
    && |team.lanes| == width >= 1 && team.level < |start|
    && (team.level < |start| - 1 ==>
          assert start[team.level] <= start[team.level + 1];
          team.Valid(Total(start, team.level, grid, chunks)))
  }

  /** The tasks of chunk `w` are what its team's lanes have done. */
  ghost predicate InStep(l: Launch, f: Memory, order: seq<nat>, start: seq<nat>, teams: seq<Team>, grid: bool, w: nat)
    requires w < |l.chunks| && |f.level| == |f.task| == |l.chunks| && TeamOf(grid, w) < |teams|
  {
    var team := teams[TeamOf(grid, w)];
    && Dag.WellFormed(l.chunks[w].g) && |start| == SlotMap.Height(l.chunks[w].g) + 1 && f.level[w] == team.level
    && ChunkSync(l.chunks[w], order, start, team, RowOf(grid, w), f.task[w])
  }

  ghost predicate Synced(l: Launch, f: Memory, order: seq<nat>, start: seq<nat>, teams: seq<Team>, grid: bool,
                         width: nat) {
    && Fit(l, f) && Rising(start, order) && |teams| == (if grid then 1 else |l.chunks|)
    && (forall v {:trigger teams[v]} :: 0 <= v < |teams| ==> TeamOk(start, order, teams[v], grid, |l.chunks|, width))
    && (forall w: nat {:trigger InStep(l, f, order, start, teams, grid, w)} :: w < |l.chunks| ==>
      InStep(l, f, order, start, teams, grid, w))
  }

  lemma SlicedRising(g: Dag.Graph, order: seq<nat>, start: seq<nat>)
    requires Sliced(g, order, start)
    ensures Rising(start, order)
  {
    forall lv {:trigger start[lv]} | 0 <= lv < |start| - 1
      ensures start[lv] <= start[lv + 1] <= |order|
    {
      LevelSlice(g, order, start, lv);
    }
  }

  // ---------- one access ----------

  /** Lane `k` of team `v` is at work on node `id`, which is node `x` of the level and belongs to chunk `w`. */
  ghost predicate AtWork(l: Launch, order: seq<nat>, start: seq<nat>, teams: seq<Team>, grid: bool, v: nat, k: nat,
                         w: nat, x: nat, id: nat) {
    && v < |teams| && k < |teams[v].lanes| && w < |l.chunks| && v == TeamOf(grid, w)
    && teams[v].level + 1 < |start| && start[teams[v].level] + x < start[teams[v].level + 1] <= |order|
    && teams[v].lanes[k].at == Offset(RowOf(grid, w), Size(start, teams[v].level)) + x
    && id == order[start[teams[v].level] + x]
  }

  /** Which chunk and node an active lane is at. */
  lemma LaneAt(l: Launch, f: Memory, order: seq<nat>, start: seq<nat>, teams: seq<Team>, grid: bool, width: nat,
               v: nat, k: nat)
    returns (j: nat, x: nat)
    requires Synced(l, f, order, start, teams, grid, width) && v < |teams| && teams[v].level < |start| - 1
    requires k < |teams[v].lanes|
    requires start[teams[v].level] <= start[teams[v].level + 1]
    requires teams[v].lanes[k].at < Total(start, teams[v].level, grid, |l.chunks|)
    ensures var n := Size(start, teams[v].level);
            && n > 0 && j == teams[v].lanes[k].at / n && x == teams[v].lanes[k].at % n
            && start[teams[v].level] + x < |order|
            && AtWork(l, order, start, teams, grid, v, k, if grid then j else v, x, order[start[teams[v].level] + x])
  {
    hide InStep;
    hide TeamOk;
    hide Fit;
    hide Offset;
    j, x := PositionOf(teams[v].lanes[k].at, Size(start, teams[v].level), TeamRows(grid, |l.chunks|));
  }

  /** What the lane may do next is what the chunk's machine may do next. */
  lemma WorkEnabled(l: Launch, f: Memory, order: seq<nat>, start: seq<nat>, teams: seq<Team>, grid: bool, width: nat,
                    v: nat, k: nat, w: nat, x: nat, id: nat)
    requires Synced(l, f, order, start, teams, grid, width) && AtWork(l, order, start, teams, grid, v, k, w, x, id)
    ensures l.chunks[w].Valid() && id < |l.chunks[w].g| && id < |f.task[w]|
    ensures var t, lane, s := l.chunks[w], teams[v].lanes[k], View(l, f, w);
            && f.task[w][id] == (if lane.stored then Stored else Fetching(lane.got)) && s.task == f.task[w]
            && (lane.stored ==> Enabled(t, s, Copy(id)))
            && (!lane.stored ==> |lane.got| <= |t.Preds(id)|)
            && (!lane.stored && |lane.got| == |t.Preds(id)| ==> Enabled(t, s, Store(id)))
            && (!lane.stored && |lane.got| < |t.Preds(id)| ==> Enabled(t, s, Load(id)))
  {
    hide Offset;
    hide SlotMap.Height;
    hide Levels.Level;
    hide Enabled;
    hide View;
    hide Topology.Keeps;
    var t := l.chunks[w];
    ViewFacts(l, f, w);
    assert InStep(l, f, order, start, teams, grid, w);
    LevelSlice(t.g, order, start, teams[v].level);
    LaneEnabled(t, View(l, f, w), order, start, teams[v], RowOf(grid, w), x);
    assert teams[v].lanes[k].at % |teams[v].lanes| == k;
  }

  lemma ViewFacts(l: Launch, f: Memory, w: nat)
    requires Fit(l, f) && w < |l.chunks|
    ensures l.chunks[w].Valid() && Shape(l.chunks[w], View(l, f, w))
    ensures View(l, f, w).level == f.level[w] && View(l, f, w).task == f.task[w]
  {
    Launches.RowFits(l, f, w);
  }

  /** The lane of team `v` after one more access: its node's task is `done`. */
  ghost predicate Worked(team: Team, k: nat, lane: Lane, done: Task) {
    && k < |team.lanes|
    && match done
       case Fetching(got) => lane == team.lanes[k].(got := got) && !lane.stored
       case Stored => lane == team.lanes[k].(stored := true)
       case Finished => lane == Lane(team.lanes[k].at + |team.lanes|, [], false)
  }

  lemma WorkedTasks(team: Team, k: nat, lane: Lane, done: Task, total: nat)
    requires team.Valid(total) && Worked(team, k, lane, done) && team.lanes[k].at < total
    ensures WithLane(team, k, lane).Valid(total)
    ensures forall at: nat {:trigger WithLane(team, k, lane).TaskAt(at)} ::
              WithLane(team, k, lane).TaskAt(at) == if at == team.lanes[k].at then done else team.TaskAt(at)
  {
    hide Team.Valid;
    hide Team.TaskAt;
    WorkedAt(team, k, lane, done, total, 0);
    forall at: nat
      ensures WithLane(team, k, lane).TaskAt(at) == if at == team.lanes[k].at then done else team.TaskAt(at)
    {
      WorkedAt(team, k, lane, done, total, at);
    }
  }

  lemma WorkedAt(team: Team, k: nat, lane: Lane, done: Task, total: nat, at: nat)
    requires team.Valid(total) && Worked(team, k, lane, done) && team.lanes[k].at < total
    ensures WithLane(team, k, lane).Valid(total)
    ensures WithLane(team, k, lane).TaskAt(at) == if at == team.lanes[k].at then done else team.TaskAt(at)
  {
    hide Team.Valid;
    hide Team.TaskAt;
    hide WithLane;
    match done
    case Fetching(got) =>
      assert lane == team.lanes[k].(got := got, stored := false);
      SamePosition(team, k, got, false, total, at);
    case Stored =>
      assert lane == team.lanes[k].(got := team.lanes[k].got, stored := true);
      SamePosition(team, k, team.lanes[k].got, true, total, at);
    case Finished => NextPosition(team, k, total, at);
  }

  /** Team `v` with one lane moved on: all chunks stay in step. */
  lemma WorkInStep(l: Launch, f: Memory, f': Memory, order: seq<nat>, start: seq<nat>, teams: seq<Team>, grid: bool,
                   width: nat, v: nat, k: nat, w: nat, x: nat, id: nat, lane: Lane, done: Task)
    requires Synced(l, f, order, start, teams, grid, width) && AtWork(l, order, start, teams, grid, v, k, w, x, id)
    requires Worked(teams[v], k, lane, done) && id < |l.chunks[w].g| && Fed(l.chunks[w], id, done)
    requires start[teams[v].level] <= start[teams[v].level + 1]
    requires teams[v].lanes[k].at < Total(start, teams[v].level, grid, |l.chunks|)
    requires Fit(l, f') && f'.level == f.level && id < |f.task[w]| && f'.task == f.task[w := f.task[w][id := done]]
    ensures Synced(l, f', order, start, teams[v := WithLane(teams[v], k, lane)], grid, width)
  {
    hide Offset;
    hide SlotMap.Height;
    hide Levels.Level;
    hide ChunkSync;
    hide Fit;
    hide Team.TaskAt;
    hide Team.Valid;
    hide Worked;
    var team, total := teams[v], Total(start, teams[v].level, grid, |l.chunks|);
    var team' := WithLane(team, k, lane);
    var teams' := teams[v := team'];
    assert TeamOk(start, order, team, grid, |l.chunks|, width);
    WorkedTasks(team, k, lane, done, total);
    FitShape(l, f);
    forall u {:trigger teams'[u]} | 0 <= u < |teams'|
      ensures TeamOk(start, order, teams'[u], grid, |l.chunks|, width)
    {
      assert TeamOk(start, order, teams[u], grid, |l.chunks|, width);
    }
    forall u: nat | u < |l.chunks|
      ensures InStep(l, f', order, start, teams', grid, u)
    {
      assert InStep(l, f, order, start, teams, grid, u);
      if TeamOf(grid, u) == v {
        SyncSlice(l.chunks[u], order, start, team, RowOf(grid, u), f.task[u]);
        if u == w {
          OwnSync(l.chunks[u], order, start, team, team', RowOf(grid, u), x, f.task[u], done);
        } else {
          OtherSync(l.chunks[u], order, start, team, team', RowOf(grid, w), x, RowOf(grid, u), f.task[u], done);
        }
      }
    }
  }

  lemma SyncSlice(t: Topology, order: seq<nat>, start: seq<nat>, team: Team, j: nat, task: seq<Task>)
    requires ChunkSync(t, order, start, team, j, task) && team.level < SlotMap.Height(t.g)
    ensures SliceOk(t.g, order, start, team.level)
  {
    LevelSlice(t.g, order, start, team.level);
  }

  lemma FitShape(l: Launch, f: Memory)
    requires Fit(l, f)
    ensures |f.level| == |f.task| == |l.chunks|
  {
  }

  // ---------- barriers ----------

  lemma LaunchSnoc(l: Launch, f: Memory, schedule: seq<(nat, Step)>, mid: Memory, w: nat, step: Step)
    requires LaunchRuns(l, f, schedule, mid)
    requires Fit(l, mid) && w < |l.chunks| && Enabled(l.chunks[w], View(l, mid, w), step)
    ensures LaunchRuns(l, f, schedule + [(w, step)], Access(l, mid, w, step))
    decreases |schedule|
  {
    hide Enabled;
    hide Access;
    hide Fit;
    hide View;
    if |schedule| == 0 {
      assert ([(w, step)])[1..] == [];
      assert schedule + [(w, step)] == [(w, step)];
    } else {
      LaunchSnoc(l, Access(l, f, schedule[0].0, schedule[0].1), schedule[1..], mid, w, step);
      assert (schedule + [(w, step)])[1..] == schedule[1..] + [(w, step)];
    }
  }

  lemma BarrierAccess(l: Launch, f: Memory, w: nat)
    requires Fit(l, f) && w < |l.chunks| && Enabled(l.chunks[w], View(l, f, w), Barrier)
    ensures Access(l, f, w, Barrier) == f.(level := f.level[w := f.level[w] + 1]) && Fit(l, Access(l, f, w, Barrier))
  {
    AccessFit(l, f, w, Barrier);
  }

  /** Chunks [lo, hi) pass their barrier, one after another. */
  lemma {:induction false} PassBarriers(l: Launch, f0: Memory, schedule0: seq<(nat, Step)>, f: Memory, lo: nat, hi: nat)
    returns (schedule: seq<(nat, Step)>, f': Memory)
    requires LaunchRuns(l, f0, schedule0, f) && Fit(l, f) && lo <= hi <= |l.chunks|
    requires forall w: nat {:trigger l.chunks[w]} :: lo <= w < hi ==> Enabled(l.chunks[w], View(l, f, w), Barrier)
    ensures LaunchRuns(l, f0, schedule, f') && Fit(l, f')
    ensures |f'.level| == |f.level| && f' == f.(level := f'.level)
    ensures forall w {:trigger f'.level[w]} :: 0 <= w < |f.level| ==>
              f'.level[w] == f.level[w] + (if lo <= w < hi then 1 else 0)
    decreases hi
  {
    hide Enabled;
    hide Access;
    hide Fit;
    hide View;
    if lo == hi {
      schedule, f' := schedule0, f;
    } else {
      var w := hi - 1;
      schedule, f' := PassBarriers(l, f0, schedule0, f, lo, w);
      FitShape(l, f);
      assert l.chunks[w] == l.chunks[w] && f'.level[w] == f.level[w];
      SameEnabled(l, f, f', w);
      BarrierAccess(l, f', w);
      LaunchSnoc(l, f0, schedule, f', w, Barrier);
      FitShape(l, f');
      schedule, f' := schedule + [(w, Barrier)], Access(l, f', w, Barrier);
    }
  }

  lemma SameEnabled(l: Launch, f: Memory, f': Memory, w: nat)
    requires Fit(l, f) && Fit(l, f') && w < |l.chunks| && |f'.level| == |f.level| && f' == f.(level := f'.level)
    requires f'.level[w] == f.level[w] && Enabled(l.chunks[w], View(l, f, w), Barrier)
    ensures Enabled(l.chunks[w], View(l, f', w), Barrier)
  {
    assert View(l, f', w) == View(l, f, w);
  }

  /** A team whose lanes are all past the last position moves on to the next level, with all its chunks. */
  lemma BarrierInStep(l: Launch, f0: Memory, schedule0: seq<(nat, Step)>, f: Memory, order: seq<nat>, start: seq<nat>,
                      teams: seq<Team>, grid: bool, width: nat, v: nat)
    returns (schedule: seq<(nat, Step)>, f': Memory)
    requires LaunchRuns(l, f0, schedule0, f) && Synced(l, f, order, start, teams, grid, width)
    requires v < |teams| && teams[v].level < |start| - 1 && start[teams[v].level] <= start[teams[v].level + 1]
    requires teams[v].Idle(Total(start, teams[v].level, grid, |l.chunks|))
    ensures LaunchRuns(l, f0, schedule, f') && width >= 1
    ensures Synced(l, f', order, start, teams[v := Fresh(teams[v].level + 1, width)], grid, width)
    ensures f' == f.(level := f'.level) && |f'.level| == |f.level| == |l.chunks|
    ensures forall w {:trigger f'.level[w]} :: 0 <= w < |f.level| ==>
              f'.level[w] == f.level[w] + (if TeamOf(grid, w) == v then 1 else 0)
    ensures forall w {:trigger f.level[w]} :: 0 <= w < |f.level| && TeamOf(grid, w) == v ==>
              f.level[w] == teams[v].level
  {
    hide Offset;
    hide SlotMap.Height;
    hide Levels.Level;
    hide ChunkSync;
    hide Enabled;
    hide Fit;
    hide View;
    hide LaunchRuns;
    hide Team.Idle;
    var lo, hi := if grid then 0 else v, if grid then |l.chunks| else v + 1;
    var team, total := teams[v], Total(start, teams[v].level, grid, |l.chunks|);
    assert TeamOk(start, order, team, grid, |l.chunks|, width);
    FitShape(l, f);
    forall w: nat {:trigger l.chunks[w]} | w < |l.chunks| && TeamOf(grid, w) == v
      ensures Enabled(l.chunks[w], View(l, f, w), Barrier)
      ensures ChunkSync(l.chunks[w], order, start, Fresh(team.level + 1, width), RowOf(grid, w), f.task[w])
      ensures f.level[w] == team.level
    {
      assert InStep(l, f, order, start, teams, grid, w);
      ViewFacts(l, f, w);
      SyncSlice(l.chunks[w], order, start, team, RowOf(grid, w), f.task[w]);
      BarrierEnabled(l.chunks[w], View(l, f, w), order, start, team, RowOf(grid, w), TeamRows(grid, |l.chunks|));
      FinishedLevel(l.chunks[w], View(l, f, w));
      NextLevelSync(l.chunks[w], order, start, team, RowOf(grid, w), TeamRows(grid, |l.chunks|), f.task[w], width);
    }
    forall w {:trigger f.level[w]} | 0 <= w < |f.level| && TeamOf(grid, w) == v
      ensures f.level[w] == team.level
    {
      assert l.chunks[w] == l.chunks[w];
    }
    schedule, f' := PassBarriers(l, f0, schedule0, f, lo, hi);
    NextTeams(l, f, f', order, start, teams, grid, width, v);
  }

  lemma FinishedLevel(t: Topology, s: ChunkState)
    requires Shape(t, s) && Enabled(t, s, Barrier)
    ensures forall id {:trigger s.task[id]} :: 0 <= id < |t.g| && Levels.Level(t.g, id) == s.level ==>
              s.task[id].Finished?
  {
  }

  lemma NextOk(start: seq<nat>, order: seq<nat>, next: Team, grid: bool, chunks: nat, width: nat)
    requires Rising(start, order) && width >= 1 && next.level < |start| && next == Fresh(next.level, width)
    ensures TeamOk(start, order, next, grid, chunks, width)
  {
    if next.level < |start| - 1 {
      assert start[next.level] <= start[next.level + 1];
      FreshValid(next.level, width, Total(start, next.level, grid, chunks));
    }
  }

  lemma NextTeams(l: Launch, f: Memory, f': Memory, order: seq<nat>, start: seq<nat>, teams: seq<Team>, grid: bool,
                  width: nat, v: nat)
    requires Synced(l, f, order, start, teams, grid, width) && v < |teams| && teams[v].level < |start| - 1 && width >= 1
    requires Fit(l, f') && f' == f.(level := f'.level) && |f'.level| == |f.level| == |f.task| == |l.chunks|
    requires forall w {:trigger f'.level[w]} :: 0 <= w < |f.level| ==>
               f'.level[w] == f.level[w] + (if TeamOf(grid, w) == v then 1 else 0)
    requires forall w: nat {:trigger l.chunks[w]} :: w < |l.chunks| && TeamOf(grid, w) == v ==>
               ChunkSync(l.chunks[w], order, start, Fresh(teams[v].level + 1, width), RowOf(grid, w), f.task[w])
    ensures Synced(l, f', order, start, teams[v := Fresh(teams[v].level + 1, width)], grid, width)
  {
    hide Offset;
    hide SlotMap.Height;
    hide ChunkSync;
    hide Fit;
    hide Team.Valid;
    var next := Fresh(teams[v].level + 1, width);
    var teams' := teams[v := next];
    NextOk(start, order, next, grid, |l.chunks|, width);
    hide Fresh;
    forall u {:trigger teams'[u]} | 0 <= u < |teams'|
      ensures TeamOk(start, order, teams'[u], grid, |l.chunks|, width)
    {
      assert TeamOk(start, order, teams[u], grid, |l.chunks|, width);
    }
    hide TeamOk;
    forall w: nat | w < |l.chunks|
      ensures InStep(l, f', order, start, teams', grid, w)
    {
      assert InStep(l, f, order, start, teams, grid, w);
      assert f'.level[w] == f.level[w] + (if TeamOf(grid, w) == v then 1 else 0);
    }
  }

  // ---------- one access in the device's memory ----------

  /** The launch's chunks are hashed with these sessions, over the uploaded topology. */
  ghost predicate Uploaded(l: Launch, sessions: seq<Session>, nodes: seq<IdEmitter.NodeRecord>, slot: seq<nat>,
                           rank: seq<int>) {
    && |sessions| == |l.chunks|
    && forall w {:trigger l.chunks[w]} {:trigger sessions[w]} :: 0 <= w < |l.chunks| ==>
         && l.chunks[w].session == sessions[w] && SlotMap.Describes(nodes, l.chunks[w].g)
         && l.chunks[w].slot == slot && l.chunks[w].rank == rank
  }

  lemma LoadEffect(l: Launch, f: Memory, w: nat, id: nat)
    requires Fit(l, f) && w < |l.chunks| && Enabled(l.chunks[w], View(l, f, w), Load(id))
    ensures id < |f.task[w]| && id < |l.chunks[w].g| && f.task[w][id].Fetching?
    ensures var t, got := l.chunks[w], f.task[w][id].got;
            && |got| < |t.Preds(id)| && t.Preds(id)[|got|] < |t.slot|
            && Offset(w, l.pool) + t.slot[t.Preds(id)[|got|]] < |f.scratch|
            && Access(l, f, w, Load(id))
               == f.(task := f.task[w := f.task[w][id :=
                       Fetching(got + [f.scratch[Offset(w, l.pool) + t.slot[t.Preds(id)[|got|]]]])]])
  {
    hide Offset;
    Launches.RowFits(l, f, w);
    SlotsFit(l.chunks[w]);
  }

  lemma StoreEffect(l: Launch, f: Memory, w: nat, id: nat)
    requires Fit(l, f) && w < |l.chunks| && Enabled(l.chunks[w], View(l, f, w), Store(id))
    ensures id < |f.task[w]| && id < |l.chunks[w].slot| && f.task[w][id].Fetching?
    ensures var t := l.chunks[w];
            && Offset(w, l.pool) + t.slot[id] < |f.scratch|
            && Access(l, f, w, Store(id))
               == f.(task := f.task[w := f.task[w][id := Stored]],
                     scratch := f.scratch[Offset(w, l.pool) + t.slot[id] :=
                       NodeLabel(t.session, id, f.task[w][id].got)])
  {
    hide Offset;
    Launches.RowFits(l, f, w);
    SlotsFit(l.chunks[w]);
  }

  /** The next lane state after an access that leaves the node's task at `done`. */
  function Onwards(lane: Lane, done: Task, width: nat): Lane {
    match done
    case Fetching(got) => lane.(got := got)
    case Stored => lane.(stored := true)
    case Finished => Lane(lane.at + width, [], false)
  }

  /** One access of the lane that works on node `id` of chunk `w`: load a predecessor's label, store the node's own,
      or copy it to its rank in the persisted row. */
  method MakeAccess(sessions: seq<Session>, nodes: seq<IdEmitter.NodeRecord>, slot: seq<nat>, rank: seq<int>,
                    pool: nat, m: nat, base: nat, w: nat, id: nat, lane: Lane, scratch: array<Label>,
                    persist: array<Label>, ghost l: Launch, ghost f: Memory)
    returns (done: Task, ghost step: Step, ghost f': Memory)
    requires scratch != persist && Fit(l, f) && f.scratch == scratch[..] && f.persist == persist[..]
    requires l.pool == pool && l.m == m && l.base == base && Uploaded(l, sessions, nodes, slot, rank)
    requires w < |l.chunks| && id < |l.chunks[w].g| && id < |f.task[w]|
    requires f.task[w][id] == (if lane.stored then Stored else Fetching(lane.got))
    requires lane.stored ==> Enabled(l.chunks[w], View(l, f, w), Copy(id))
    requires !lane.stored ==> |lane.got| <= |l.chunks[w].Preds(id)|
    requires !lane.stored && |lane.got| == |l.chunks[w].Preds(id)| ==> Enabled(l.chunks[w], View(l, f, w), Store(id))
    requires !lane.stored && |lane.got| < |l.chunks[w].Preds(id)| ==> Enabled(l.chunks[w], View(l, f, w), Load(id))
    modifies scratch, persist
    ensures Enabled(l.chunks[w], View(l, f, w), step) && f' == Access(l, f, w, step) && Fit(l, f')
    ensures f'.scratch == scratch[..] && f'.persist == persist[..]
    ensures f'.level == f.level && f'.task == f.task[w := f.task[w][id := done]]
    ensures Fed(l.chunks[w], id, done)
    ensures done.Fetching? ==> !lane.stored
    ensures Remaining(done) < Remaining(f.task[w][id])
  {
    hide Offset;
    hide Enabled;
    hide View;
    hide Access;
    hide Fit;
    ghost var t := l.chunks[w];
    assert t.session == sessions[w];
    assert nodes[id].node == t.g[id];
    if lane.stored {
      step, done := Copy(id), Finished;
      f' := Access(l, f, w, step);
      AccessFit(l, f, w, step);
      ghost var at, x := CopyEffect(l, f, w, id);
      SlotInRow(l, f, w, id);
      if rank[id] >= 0 {
        persist[Offset(base + w, m) + rank[id]] := scratch[Offset(w, pool) + slot[id]];
      }
    } else {
      var preds := PredIds(nodes[id].node);
      if |lane.got| < |preds| {
        step := Load(id);
        f' := Access(l, f, w, step);
        AccessFit(l, f, w, step);
        LoadEffect(l, f, w, id);
        var x := scratch[Offset(w, pool) + slot[preds[|lane.got|]]];
        done := Fetching(lane.got + [x]);
      } else {
        step, done := Store(id), Stored;
        f' := Access(l, f, w, step);
        AccessFit(l, f, w, step);
        StoreEffect(l, f, w, id);
        scratch[Offset(w, pool) + slot[id]] := NodeLabel(sessions[w], id, lane.got);
      }
    }
  }

  /** Predecessor ids as the uploaded counts and columns give them. */
  function PredIds(node: Dag.Node): seq<nat> {
    match node
    case Source => []
    case One(p) => [p]
    case Two(p, q) => [p, q]
  }

  lemma SlotInRow(l: Launch, f: Memory, w: nat, id: nat)
    requires Fit(l, f) && w < |l.chunks| && id < |l.chunks[w].g|
    ensures l.chunks[w].Valid() && id < |l.chunks[w].slot| && Offset(w, l.pool) + l.chunks[w].slot[id] < |f.scratch|
    ensures |View(l, f, w).scratch| == l.pool && l.chunks[w].slot[id] < l.pool
    ensures View(l, f, w).scratch[l.chunks[w].slot[id]] == f.scratch[Offset(w, l.pool) + l.chunks[w].slot[id]]
  {
    hide Offset;
    Launches.RowFits(l, f, w);
    SlotsFit(l.chunks[w]);
  }

  // ---------- the whole launch ----------

  /** Accesses and barriers the chunks still have to make. */
  function LaunchWork(tasks: seq<seq<Task>>, levels: seq<nat>, height: nat): nat
    requires |tasks| == |levels|
  {
    if |tasks| == 0 then 0
    else
      var k := |tasks| - 1;
      LaunchWork(tasks[..k], levels[..k], height) + TotalRemaining(tasks[k])
        + (if levels[k] <= height then height - levels[k] else 0)
  }

  lemma {:induction false} WorkLess(tasks: seq<seq<Task>>, levels: seq<nat>, height: nat, w: nat, id: nat, done: Task)
    requires |tasks| == |levels| && w < |tasks| && id < |tasks[w]| && Remaining(done) < Remaining(tasks[w][id])
    ensures LaunchWork(tasks[w := tasks[w][id := done]], levels, height) < LaunchWork(tasks, levels, height)
    decreases |tasks|
  {
    var k := |tasks| - 1;
    var tasks' := tasks[w := tasks[w][id := done]];
    if w == k {
      TotalUpdate(tasks[w], id, done);
      assert tasks'[..k] == tasks[..k];
    } else {
      WorkLess(tasks[..k], levels[..k], height, w, id, done);
      assert tasks'[..k] == tasks[..k][w := tasks[w][id := done]];
    }
  }

  lemma {:induction false} BarrierLess(tasks: seq<seq<Task>>, levels: seq<nat>, levels': seq<nat>, height: nat)
    requires |tasks| == |levels| == |levels'|
    requires forall w {:trigger levels'[w]} :: 0 <= w < |levels| ==>
              levels'[w] == levels[w] || levels'[w] == levels[w] + 1
    ensures LaunchWork(tasks, levels', height) <= LaunchWork(tasks, levels, height)
    ensures (exists w {:trigger levels'[w]} :: 0 <= w < |levels| && levels'[w] == levels[w] + 1 <= height) ==>
              LaunchWork(tasks, levels', height) < LaunchWork(tasks, levels, height)
    decreases |tasks|
  {
    if |tasks| > 0 {
      var k := |tasks| - 1;
      forall w {:trigger levels'[..k][w]} | 0 <= w < k
        ensures levels'[..k][w] == levels[..k][w] || levels'[..k][w] == levels[..k][w] + 1
      {
        assert levels'[w] == levels'[..k][w];
      }
      BarrierLess(tasks[..k], levels[..k], levels'[..k], height);
      if w :| 0 <= w < k && levels'[w] == levels[w] + 1 <= height {
        assert levels'[..k][w] == levels[..k][w] + 1;
      }
    }
  }

  /** Nothing has been done yet. */
  function NoTasks(graphs: seq<Dag.Graph>): (tasks: seq<seq<Task>>)
    ensures |tasks| == |graphs|
    ensures forall w {:trigger tasks[w]} :: 0 <= w < |graphs| ==> tasks[w] == seq(|graphs[w]|, _ => Fetching([]))
  {
    seq(|graphs|, w requires 0 <= w < |graphs| => seq(|graphs[w]|, _ => Fetching([])))
  }

  ghost function GraphsOf(l: Launch): (graphs: seq<Dag.Graph>)
    ensures |graphs| == |l.chunks| && forall w {:trigger graphs[w]} :: 0 <= w < |graphs| ==> graphs[w] == l.chunks[w].g
  {
    seq(|l.chunks|, w requires 0 <= w < |l.chunks| => l.chunks[w].g)
  }

  /** The memory as a launch finds it. */
  ghost function Before(l: Launch, scratch: seq<Label>, persist: seq<Label>): Memory {
    Memory(seq(|l.chunks|, _ => 0), NoTasks(GraphsOf(l)), scratch, persist, seq(|persist|, _ => 0))
  }

  lemma BeforeSynced(l: Launch, scratch: seq<Label>, persist: seq<Label>, order: seq<nat>, start: seq<nat>,
                     grid: bool, width: nat)
    requires l.Valid() && Offset(|l.chunks|, l.pool) <= |scratch| && Offset(l.base + |l.chunks|, l.m) <= |persist|
    requires width >= 1
    requires Rising(start, order)
    requires forall w: nat {:trigger l.chunks[w]} :: w < |l.chunks| ==> Sliced(l.chunks[w].g, order, start)
    ensures Synced(l, Before(l, scratch, persist), order, start,
                   seq(if grid then 1 else |l.chunks|, _ => Fresh(0, width)), grid, width)
  {
    hide Offset;
    hide SlotMap.Height;
    hide ChunkSync;
    hide Fresh;
    hide Launch.Valid;
    var f := Before(l, scratch, persist);
    var teams := seq(if grid then 1 else |l.chunks|, _ => Fresh(0, width));
    NextOk(start, order, Fresh(0, width), grid, |l.chunks|, width);
    hide TeamOk;
    forall w: nat | w < |l.chunks|
      ensures InStep(l, f, order, start, teams, grid, w)
    {
      assert Sliced(l.chunks[w].g, order, start);
      FirstSync(l.chunks[w], order, start, RowOf(grid, w), width);
      assert f.task[w] == seq(|GraphsOf(l)[w]|, _ => Fetching([]));
    }
    BeforeFits(l, scratch, persist);
  }

  lemma BeforeFits(l: Launch, scratch: seq<Label>, persist: seq<Label>)
    requires l.Valid() && Offset(|l.chunks|, l.pool) <= |scratch| && Offset(l.base + |l.chunks|, l.m) <= |persist|
    ensures Fit(l, Before(l, scratch, persist))
  {
    hide Offset;
    hide Launch.Valid;
    var f := Before(l, scratch, persist);
    forall w {:trigger f.task[w]} | 0 <= w < |f.task|
      ensures |f.task[w]| == |l.chunks[w].g|
    {
      assert |GraphsOf(l)[w]| == |l.chunks[w].g|;
    }
  }

  lemma BeforePersist(l: Launch, scratch: seq<Label>, persist: seq<Label>)
    ensures Before(l, scratch, persist).persist == persist && |Before(l, scratch, persist).written| == |persist|
  {
  }

  lemma BeforeInitial(l: Launch, scratch: seq<Label>, persist: seq<Label>, w: nat)
    requires Fit(l, Before(l, scratch, persist)) && w < |l.chunks|
    ensures Initial(l.chunks[w], View(l, Before(l, scratch, persist), w))
  {
    hide Offset;
    hide Launch.Valid;
    Launches.RowFits(l, Before(l, scratch, persist), w);
    assert |GraphsOf(l)[w]| == |l.chunks[w].g|;
  }

  /** Chunk `w` is past its last level. */
  ghost predicate EndedAt(l: Launch, f: Memory, w: nat) {
    && w < |l.chunks| && w < |f.level| && Dag.WellFormed(l.chunks[w].g)
    && f.level[w] == SlotMap.Height(l.chunks[w].g)
  }

  /** The next access of lane `k` of team `v`. */
  method LaneTurn(sessions: seq<Session>, nodes: seq<IdEmitter.NodeRecord>, order: seq<nat>, start: seq<nat>,
                  slot: seq<nat>, rank: seq<int>, pool: nat, m: nat, base: nat, grid: bool, width: nat,
                  scratch: array<Label>, persist: array<Label>, teams: seq<Team>, v: nat, k: nat, ghost l: Launch,
                  ghost f0: Memory, ghost schedule0: seq<(nat, Step)>, ghost f: Memory)
    returns (lane': Lane, ghost schedule: seq<(nat, Step)>, ghost f': Memory)
    requires scratch != persist && f.scratch == scratch[..] && f.persist == persist[..]
    requires l.pool == pool && l.m == m && l.base == base && Uploaded(l, sessions, nodes, slot, rank)
    requires LaunchRuns(l, f0, schedule0, f) && Synced(l, f, order, start, teams, grid, width)
    requires v < |teams| && teams[v].level < |start| - 1 && k < |teams[v].lanes|
    requires start[teams[v].level] <= start[teams[v].level + 1]
    requires teams[v].lanes[k].at < Total(start, teams[v].level, grid, |l.chunks|)
    modifies scratch, persist
    ensures LaunchRuns(l, f0, schedule, f') && f'.scratch == scratch[..] && f'.persist == persist[..]
    ensures Synced(l, f', order, start, teams[v := WithLane(teams[v], k, lane')], grid, width)
    ensures |f.task| == |f.level| == |f'.task| == |f'.level|
    ensures LaunchWork(f'.task, f'.level, |start| - 1) < LaunchWork(f.task, f.level, |start| - 1)
  {
    hide Offset;
    hide SlotMap.Height;
    hide Sliced;
    hide Synced;
    hide LaunchRuns;
    hide Uploaded;
    hide Access;
    hide Enabled;
    hide View;
    hide LaunchWork;
    hide Launch.Valid;
    SyncedShape(l, f, order, start, teams, grid, width);
    hide Fit;
    var lane, lv := teams[v].lanes[k], teams[v].level;
    var n := start[lv + 1] - start[lv];
    ghost var j, x := LaneAt(l, f, order, start, teams, grid, width, v, k);
    var w := if grid then lane.at / n else v;
    var id := order[start[lv] + lane.at % n];
    WorkEnabled(l, f, order, start, teams, grid, width, v, k, w, x, id);
    var done;
    ghost var step;
    done, step, f' := MakeAccess(sessions, nodes, slot, rank, pool, m, base, w, id, lane, scratch, persist, l, f);
    lane' := Onwards(lane, done, |teams[v].lanes|);
    WorkInStep(l, f, f', order, start, teams, grid, width, v, k, w, x, id, lane', done);
    LaunchSnoc(l, f0, schedule0, f, w, step);
    WorkLess(f.task, f.level, |start| - 1, w, id, done);
    schedule := schedule0 + [(w, step)];
  }

  /** Team `v` passes its barrier. */
  lemma BarrierTurn(order: seq<nat>, start: seq<nat>, grid: bool, width: nat, teams: seq<Team>, v: nat,
                    l: Launch, f0: Memory, schedule0: seq<(nat, Step)>, f: Memory)
    returns (schedule: seq<(nat, Step)>, f': Memory)
    requires LaunchRuns(l, f0, schedule0, f) && Synced(l, f, order, start, teams, grid, width) && |l.chunks| >= 1
    requires v < |teams| && teams[v].level < |start| - 1 && start[teams[v].level] <= start[teams[v].level + 1]
    requires teams[v].Idle(Total(start, teams[v].level, grid, |l.chunks|))
    ensures LaunchRuns(l, f0, schedule, f') && f'.scratch == f.scratch && f'.persist == f.persist && width >= 1
    ensures Synced(l, f', order, start, teams[v := Fresh(teams[v].level + 1, width)], grid, width)
    ensures |f.task| == |f.level| == |f'.task| == |f'.level|
    ensures LaunchWork(f'.task, f'.level, |start| - 1) < LaunchWork(f.task, f.level, |start| - 1)
  {
    hide Offset;
    hide Synced;
    hide LaunchRuns;
    hide LaunchWork;
    SyncedShape(l, f, order, start, teams, grid, width);
    hide Fit;
    schedule, f' := BarrierInStep(l, f0, schedule0, f, order, start, teams, grid, width, v);
    var first := if grid then 0 else v;
    assert f.level[first] == teams[v].level && f'.level[first] == f.level[first] + 1;
    BarrierLess(f.task, f.level, f'.level, |start| - 1);
  }

  /** A launch, run to its end: while some team has levels left, any of its lanes that is not at the barrier makes its
      next access, or the team passes the barrier. Returns the run that took place. */
  method WalkLaunch(sessions: seq<Session>, nodes: seq<IdEmitter.NodeRecord>, order: seq<nat>, start: seq<nat>,
                    slot: seq<nat>, rank: seq<int>, pool: nat, m: nat, base: nat, grid: bool, width: nat,
                    scratch: array<Label>, persist: array<Label>, ghost l: Launch)
    returns (ghost schedule: seq<(nat, Step)>, ghost last: Memory)
    requires l.Valid() && l.pool == pool && l.m == m && l.base == base && Uploaded(l, sessions, nodes, slot, rank)
    requires forall w: nat {:trigger l.chunks[w]} :: w < |l.chunks| ==> Sliced(l.chunks[w].g, order, start)
    requires Rising(start, order) && width >= 1 && |l.chunks| >= 1
    requires scratch != persist && Offset(|l.chunks|, pool) <= scratch.Length
    requires Offset(base + |l.chunks|, m) <= persist.Length
    modifies scratch, persist
    ensures LaunchRuns(l, Before(l, old(scratch[..]), old(persist[..])), schedule, last) && Fit(l, last)
    ensures last.scratch == scratch[..] && last.persist == persist[..]
    ensures forall w: nat {:trigger EndedAt(l, last, w)} :: w < |l.chunks| ==> EndedAt(l, last, w)
  {
    hide Offset;
    hide SlotMap.Height;
    hide Sliced;
    hide Fit;
    hide Synced;
    hide LaunchRuns;
    hide Uploaded;
    hide Access;
    hide Enabled;
    hide View;
    hide LaunchWork;
    hide Launch.Valid;
    ghost var f0 := Before(l, scratch[..], persist[..]);
    var chunks := |sessions|;
    var levels := |start| - 1;
    var teams := seq(if grid then 1 else chunks, _ => Fresh(0, width));
    UploadedCount(l, sessions, nodes, slot, rank);
    BeforeSynced(l, scratch[..], persist[..], order, start, grid, width);
    last, schedule := f0, [];
    NoRunYet(l, f0);
    while exists v :: 0 <= v < |teams| && teams[v].level < levels
      invariant Synced(l, last, order, start, teams, grid, width)
      invariant |last.task| == |last.level|
      invariant LaunchRuns(l, f0, schedule, last)
      invariant last.scratch == scratch[..] && last.persist == persist[..]
      decreases LaunchWork(last.task, last.level, levels)
    {
      SyncedShape(l, last, order, start, teams, grid, width);
      var v :| 0 <= v < |teams| && teams[v].level < levels;
      var lv := teams[v].level;
      assert start[lv] <= start[lv + 1];
      var n := start[lv + 1] - start[lv];
      var total := Offset(TeamRows(grid, chunks), n);
      if k :| 0 <= k < |teams[v].lanes| && teams[v].lanes[k].at < total {
        var lane;
        lane, schedule, last := LaneTurn(sessions, nodes, order, start, slot, rank, pool, m, base, grid, width,
                                         scratch, persist, teams, v, k, l, f0, schedule, last);
        teams := teams[v := WithLane(teams[v], k, lane)];
      } else {
        schedule, last := BarrierTurn(order, start, grid, width, teams, v, l, f0, schedule, last);
        teams := teams[v := Fresh(lv + 1, width)];
      }
    }
    AllLevels(l, last, order, start, teams, grid, width);
  }

  lemma UploadedCount(l: Launch, sessions: seq<Session>, nodes: seq<IdEmitter.NodeRecord>, slot: seq<nat>,
                      rank: seq<int>)
    requires Uploaded(l, sessions, nodes, slot, rank)
    ensures |sessions| == |l.chunks|
  {
  }

  lemma NoRunYet(l: Launch, f: Memory)
    ensures LaunchRuns(l, f, [], f)
  {
  }

  lemma SyncedShape(l: Launch, f: Memory, order: seq<nat>, start: seq<nat>, teams: seq<Team>, grid: bool, width: nat)
    requires Synced(l, f, order, start, teams, grid, width)
    ensures Fit(l, f) && |teams| == (if grid then 1 else |l.chunks|) && |f.task| == |f.level| == |l.chunks|
    ensures Rising(start, order)
    ensures forall v {:trigger teams[v]} :: 0 <= v < |teams| ==> |teams[v].lanes| == width && teams[v].level < |start|
    ensures forall w {:trigger f.level[w]} :: 0 <= w < |f.level| ==> f.level[w] == teams[TeamOf(grid, w)].level
  {
    hide ChunkSync;
    hide SlotMap.Height;
    forall v {:trigger teams[v]} | 0 <= v < |teams|
      ensures |teams[v].lanes| == width && teams[v].level < |start|
    {
      assert TeamOk(start, order, teams[v], grid, |l.chunks|, width);
    }
    forall w {:trigger f.level[w]} | 0 <= w < |f.level|
      ensures f.level[w] == teams[TeamOf(grid, w)].level
    {
      assert InStep(l, f, order, start, teams, grid, w);
    }
  }

  lemma AllLevels(l: Launch, f: Memory, order: seq<nat>, start: seq<nat>, teams: seq<Team>, grid: bool, width: nat)
    requires Synced(l, f, order, start, teams, grid, width)
    requires !exists v :: 0 <= v < |teams| && teams[v].level < |start| - 1
    ensures Fit(l, f) && |f.level| == |l.chunks|
    ensures forall w: nat {:trigger EndedAt(l, f, w)} :: w < |l.chunks| ==> EndedAt(l, f, w)
  {
    hide ChunkSync;
    hide SlotMap.Height;
    FitShape(l, f);
    forall w: nat | w < |l.chunks|
      ensures EndedAt(l, f, w)
    {
      assert InStep(l, f, order, start, teams, grid, w);
      assert TeamOk(start, order, teams[TeamOf(grid, w)], grid, |l.chunks|, width);
    }
  }
}
