/** Many chunks in one launch: private scratch regions and private rows of the persisted region in one flat memory. */
module Launches {
  import opened Offsets
  import Labelling
  import opened Kernel

  /** A launch over `chunks`, whose persisted rows start at row `base`. */
  datatype Launch = Launch(chunks: seq<Topology>, base: nat, pool: nat, m: nat) {
    ghost predicate Valid() {
      forall w {:trigger chunks[w]} :: 0 <= w < |chunks| ==>
        chunks[w].Valid() && chunks[w].pool == pool && |chunks[w].outputs| == m
    }
  }

  datatype Memory = Memory(level: seq<nat>, task: seq<seq<Task>>, scratch: seq<Labelling.Label>,
                           persist: seq<Labelling.Label>, written: seq<nat>)

  ghost predicate Fit(l: Launch, f: Memory) {
    && l.Valid()
    && |f.level| == |f.task| == |l.chunks|
    && Offset(|l.chunks|, l.pool) <= |f.scratch|
    && Offset(l.base + |l.chunks|, l.m) <= |f.persist| == |f.written|
    && forall w {:trigger f.task[w]} :: 0 <= w < |f.task| ==> |f.task[w]| == |l.chunks[w].g|
  }

  lemma RowFits(l: Launch, f: Memory, w: nat)
    requires Fit(l, f) && w < |l.chunks|
    ensures Offset(w, l.pool) + l.pool <= |f.scratch|
    ensures Offset(l.base + w, l.m) + l.m <= |f.persist|
  {
    OffsetMonotone(w, |l.chunks|, l.pool);
    OffsetMonotone(l.base + w, l.base + |l.chunks|, l.m);
  }

  /** What chunk `w` sees of the memory. */
  ghost function View(l: Launch, f: Memory, w: nat): (s: ChunkState)
    requires Fit(l, f) && w < |l.chunks|
    ensures Shape(l.chunks[w], s)
  {
    hide Offset;
    RowFits(l, f, w);
    var a, b := Offset(w, l.pool), Offset(l.base + w, l.m);
    assert |f.task[w]| == |l.chunks[w].g|;
    ChunkState(f.level[w], f.task[w], f.scratch[a..a + l.pool], f.persist[b..b + l.m], f.written[b..b + l.m])
  }

  /** One memory access by a lane of chunk `w`, at its flat address. */
  ghost function Access(l: Launch, f: Memory, w: nat, step: Step): (f': Memory)
    requires Fit(l, f) && w < |l.chunks| && Enabled(l.chunks[w], View(l, f, w), step)
  {
    hide Offset;
    RowFits(l, f, w);
    var t := l.chunks[w];
    SlotsFit(t);
    var a, b := Offset(w, l.pool), Offset(l.base + w, l.m);
    match step
    case Load(id) =>
      var got := f.task[w][id].got;
      f.(task := f.task[w := f.task[w][id := Fetching(got + [f.scratch[a + t.slot[t.Preds(id)[|got|]]]])]])
    case Store(id) =>
      f.(task := f.task[w := f.task[w][id := Stored]],
         scratch := f.scratch[a + t.slot[id] := Labelling.NodeLabel(t.session, id, f.task[w][id].got)])
    case Copy(id) =>
      var g := f.(task := f.task[w := f.task[w][id := Finished]]);
      if t.rank[id] < 0 then g
      else
        assert t.rank[id] < |t.outputs|;
        var at := b + t.rank[id];
        g.(persist := f.persist[at := f.scratch[a + t.slot[id]]], written := f.written[at := f.written[at] + 1])
    case Barrier =>
      f.(level := f.level[w := f.level[w] + 1])
  }

  lemma UpdateSlice<T>(s: seq<T>, lo: nat, n: nat, at: nat, x: T)
    requires lo + n <= |s| && at < |s|
    ensures lo <= at < lo + n ==> s[at := x][lo..lo + n] == s[lo..lo + n][at - lo := x]
    ensures !(lo <= at < lo + n) ==> s[at := x][lo..lo + n] == s[lo..lo + n]
  {
  }

  lemma AccessFit(l: Launch, f: Memory, w: nat, step: Step)
    requires Fit(l, f) && w < |l.chunks| && Enabled(l.chunks[w], View(l, f, w), step)
    ensures Fit(l, Access(l, f, w, step))
  {
    hide Offset;
    hide Enabled;
    if !step.Barrier? { EnabledId(l.chunks[w], View(l, f, w), step); }
    RowFits(l, f, w);
    var f' := Access(l, f, w, step);
    forall v | 0 <= v < |f'.task|
      ensures |f'.task[v]| == |l.chunks[v].g|
    {
      assert |f.task[v]| == |l.chunks[v].g|;
    }
  }

  /** What a copy does to the memory. */
  lemma CopyEffect(l: Launch, f: Memory, w: nat, id: nat) returns (at: nat, x: Labelling.Label)
    requires Fit(l, f) && w < |l.chunks| && Enabled(l.chunks[w], View(l, f, w), Copy(id))
    ensures id < |f.task[w]| && id < |l.chunks[w].g| && l.chunks[w].Valid()
    ensures var t, f' := l.chunks[w], Access(l, f, w, Copy(id));
            && f'.level == f.level && f'.scratch == f.scratch && f'.task == f.task[w := f.task[w][id := Finished]]
            && (t.rank[id] < 0 ==> f'.persist == f.persist && f'.written == f.written)
            && (t.rank[id] >= 0 ==>
                  && at == Offset(l.base + w, l.m) + t.rank[id] < |f.persist| && t.rank[id] < l.m
                  && x == View(l, f, w).scratch[t.slot[id]]
                  && f'.persist == f.persist[at := x] && f'.written == f.written[at := f.written[at] + 1])
  {
    hide Offset;
    hide Enabled;
    RowFits(l, f, w);
    var t := l.chunks[w];
    SlotsFit(t);
    EnabledId(t, View(l, f, w), Copy(id));
    at, x := 0, f.scratch[Offset(w, l.pool) + t.slot[id]];
    if t.rank[id] >= 0 {
      at := Offset(l.base + w, l.m) + t.rank[id];
    }
  }

  lemma OwnStore(l: Launch, f: Memory, w: nat, id: nat)
    requires Fit(l, f) && w < |l.chunks| && Enabled(l.chunks[w], View(l, f, w), Store(id))
    ensures Fit(l, Access(l, f, w, Store(id)))
    ensures View(l, Access(l, f, w, Store(id)), w) == Do(l.chunks[w], View(l, f, w), Store(id))
  {
    hide Offset;
    hide Enabled;
    AccessFit(l, f, w, Store(id));
    RowFits(l, f, w);
    var t := l.chunks[w];
    SlotsFit(t);
    EnabledId(t, View(l, f, w), Store(id));
    var a := Offset(w, l.pool);
    UpdateSlice(f.scratch, a, l.pool, a + t.slot[id], Labelling.NodeLabel(t.session, id, f.task[w][id].got));
  }

  lemma OwnCopy(l: Launch, f: Memory, w: nat, id: nat)
    requires Fit(l, f) && w < |l.chunks| && Enabled(l.chunks[w], View(l, f, w), Copy(id))
    ensures Fit(l, Access(l, f, w, Copy(id)))
    ensures View(l, Access(l, f, w, Copy(id)), w) == Do(l.chunks[w], View(l, f, w), Copy(id))
  {
    AccessFit(l, f, w, Copy(id));
    RowFits(l, f, w);
    var at, x := CopyEffect(l, f, w, id);
    hide Offset;
    hide Enabled;
    hide Access;
    hide Topology.Valid;
    hide Launch.Valid;
    var t := l.chunks[w];
    if t.rank[id] >= 0 {
      var b := Offset(l.base + w, l.m);
      UpdateSlice(f.persist, b, l.m, at, x);
      UpdateSlice(f.written, b, l.m, at, f.written[at] + 1);
    }
  }

  /** A chunk's access is a step of its own machine. */
  lemma OwnAccess(l: Launch, f: Memory, w: nat, step: Step)
    requires Fit(l, f) && w < |l.chunks| && Enabled(l.chunks[w], View(l, f, w), step)
    ensures Fit(l, Access(l, f, w, step))
    ensures View(l, Access(l, f, w, step), w) == Do(l.chunks[w], View(l, f, w), step)
  {
    hide Offset;
    AccessFit(l, f, w, step);
    match step
    case Load(id) =>
      EnabledLoad(l.chunks[w], View(l, f, w), id);
      SlotsFit(l.chunks[w]);
      RowFits(l, f, w);
    case Store(id) => OwnStore(l, f, w, id);
    case Copy(id) => OwnCopy(l, f, w, id);
    case Barrier =>
  }

  lemma EnabledLoad(t: Topology, s: ChunkState, id: nat)
    requires Shape(t, s) && Enabled(t, s, Load(id))
    ensures id < |t.g| && s.task[id].Fetching? && |s.task[id].got| < |t.Preds(id)|
    ensures t.Preds(id)[|s.task[id].got|] < |t.g|
  {
  }

  lemma EnabledId(t: Topology, s: ChunkState, step: Step)
    requires Shape(t, s) && Enabled(t, s, step) && !step.Barrier?
    ensures step.id < |t.g| && t.rank[step.id] < |t.outputs|
    ensures step.Store? ==> s.task[step.id].Fetching?
  {
  }

  /** The rows of two chunks do not overlap. */
  lemma Disjoint(l: Launch, w: nat, v: nat)
    requires w != v
    ensures Offset(v, l.pool) + l.pool <= Offset(w, l.pool) || Offset(w, l.pool) + l.pool <= Offset(v, l.pool)
    ensures Offset(l.base + v, l.m) + l.m <= Offset(l.base + w, l.m)
              || Offset(l.base + w, l.m) + l.m <= Offset(l.base + v, l.m)
  {
    hide Offset;
    if v < w {
      OffsetMonotone(v, w, l.pool);
      OffsetMonotone(l.base + v, l.base + w, l.m);
    } else {
      OffsetMonotone(w, v, l.pool);
      OffsetMonotone(l.base + w, l.base + v, l.m);
    }
  }

  lemma OthersStore(l: Launch, f: Memory, w: nat, id: nat, v: nat)
    requires Fit(l, f) && w < |l.chunks| && Enabled(l.chunks[w], View(l, f, w), Store(id)) && v < |l.chunks| && v != w
    ensures Fit(l, Access(l, f, w, Store(id)))
    ensures View(l, Access(l, f, w, Store(id)), v) == View(l, f, v)
  {
    hide Offset;
    hide Enabled;
    AccessFit(l, f, w, Store(id));
    RowFits(l, f, w);
    RowFits(l, f, v);
    Disjoint(l, w, v);
    var t := l.chunks[w];
    SlotsFit(t);
    EnabledId(t, View(l, f, w), Store(id));
    UpdateSlice(f.scratch, Offset(v, l.pool), l.pool, Offset(w, l.pool) + t.slot[id],
                Labelling.NodeLabel(t.session, id, f.task[w][id].got));
  }

  lemma OthersCopy(l: Launch, f: Memory, w: nat, id: nat, v: nat)
    requires Fit(l, f) && w < |l.chunks| && Enabled(l.chunks[w], View(l, f, w), Copy(id)) && v < |l.chunks| && v != w
    ensures Fit(l, Access(l, f, w, Copy(id)))
    ensures View(l, Access(l, f, w, Copy(id)), v) == View(l, f, v)
  {
    AccessFit(l, f, w, Copy(id));
    RowFits(l, f, w);
    RowFits(l, f, v);
    Disjoint(l, w, v);
    var at, x := CopyEffect(l, f, w, id);
    hide Offset;
    hide Enabled;
    hide Access;
    hide Topology.Valid;
    hide Launch.Valid;
    var t := l.chunks[w];
    if t.rank[id] >= 0 {
      var d := Offset(l.base + v, l.m);
      UpdateSlice(f.persist, d, l.m, at, x);
      UpdateSlice(f.written, d, l.m, at, f.written[at] + 1);
    }
  }

  /** No chunk's access is visible to another chunk. */
  lemma OthersAccess(l: Launch, f: Memory, w: nat, step: Step, v: nat)
    requires Fit(l, f) && w < |l.chunks| && Enabled(l.chunks[w], View(l, f, w), step) && v < |l.chunks| && v != w
    ensures Fit(l, Access(l, f, w, step))
    ensures View(l, Access(l, f, w, step), v) == View(l, f, v)
  {
    hide Offset;
    hide Enabled;
    AccessFit(l, f, w, step);
    match step
    case Load(id) =>
    case Store(id) => OthersStore(l, f, w, id, v);
    case Copy(id) => OthersCopy(l, f, w, id, v);
    case Barrier =>
  }

  // ---------- runs of a whole launch ----------

  ghost predicate LaunchRuns(l: Launch, f: Memory, schedule: seq<(nat, Step)>, last: Memory)
    decreases |schedule|
  {
    if |schedule| == 0 then f == last
    else
      var w, step := schedule[0].0, schedule[0].1;
      && Fit(l, f) && w < |l.chunks| && Enabled(l.chunks[w], View(l, f, w), step)
      && LaunchRuns(l, Access(l, f, w, step), schedule[1..], last)
  }

  /** The steps of chunk `w`. */
  function Project(schedule: seq<(nat, Step)>, w: nat): seq<Step> {
    if |schedule| == 0 then []
    else if schedule[0].0 == w then [schedule[0].1] + Project(schedule[1..], w)
    else Project(schedule[1..], w)
  }

  /** However the chunks of a launch interleave, each one runs as if it were alone. */
  lemma {:induction false} ChunkRunsAlone(l: Launch, f: Memory, schedule: seq<(nat, Step)>, last: Memory, w: nat)
    requires Fit(l, f) && LaunchRuns(l, f, schedule, last) && w < |l.chunks|
    ensures Fit(l, last)
    ensures Runs(l.chunks[w], View(l, f, w), Project(schedule, w), View(l, last, w))
    decreases |schedule|
  {
    hide Fit;
    hide View;
    hide Access;
    hide Enabled;
    hide Do;
    if |schedule| > 0 {
      var v, step := schedule[0].0, schedule[0].1;
      var f' := Access(l, f, v, step);
      AccessFit(l, f, v, step);
      ChunkRunsAlone(l, f', schedule[1..], last, w);
      if v == w {
        OwnAccess(l, f, w, step);
        RunsCons(l.chunks[w], View(l, f, w), step, Project(schedule[1..], w), View(l, last, w));
      } else {
        OthersAccess(l, f, v, step, w);
      }
    }
  }

  lemma RunsCons(t: Topology, s: ChunkState, step: Step, rest: seq<Step>, last: ChunkState)
    requires Shape(t, s) && Enabled(t, s, step) && Runs(t, Do(t, s, step), rest, last)
    ensures Runs(t, s, [step] + rest, last)
  {
    assert ([step] + rest)[1..] == rest;
  }

  /** Outside its own rows a launch leaves the persisted region alone. */
  ghost predicate SameOutside(l: Launch, f: Memory, last: Memory) {
    && |last.persist| == |f.persist| && |last.written| == |f.written|
    && forall k {:trigger last.persist[k]} {:trigger last.written[k]} ::
         0 <= k < |f.persist| && k < |f.written| && !(Offset(l.base, l.m) <= k < Offset(l.base + |l.chunks|, l.m)) ==>
           last.persist[k] == f.persist[k] && last.written[k] == f.written[k]
  }

  lemma AccessOutside(l: Launch, f: Memory, w: nat, step: Step)
    requires Fit(l, f) && w < |l.chunks| && Enabled(l.chunks[w], View(l, f, w), step)
    ensures SameOutside(l, f, Access(l, f, w, step))
  {
    hide Offset;
    hide Enabled;
    RowFits(l, f, w);
    OffsetMonotone(l.base + w, l.base + |l.chunks|, l.m);
    if w > 0 { OffsetMonotone(l.base, l.base + w, l.m); }
    if !step.Barrier? {
      EnabledId(l.chunks[w], View(l, f, w), step);
    }
  }

  lemma {:induction false} LaunchOutside(l: Launch, f: Memory, schedule: seq<(nat, Step)>, last: Memory)
    requires Fit(l, f) && LaunchRuns(l, f, schedule, last)
    ensures SameOutside(l, f, last)
    decreases |schedule|
  {
    hide Offset;
    hide Fit;
    hide View;
    hide Access;
    hide Enabled;
    if |schedule| > 0 {
      var w, step := schedule[0].0, schedule[0].1;
      AccessFit(l, f, w, step);
      AccessOutside(l, f, w, step);
      LaunchOutside(l, Access(l, f, w, step), schedule[1..], last);
    }
  }
}
