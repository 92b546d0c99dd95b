/** The four GPU strategies label a chunk alike. */
module Strategies {
  import opened Dag
  import opened Labelling
  import opened Levels
  import Buckets
  import opened SlotMap
  import IdEmitter
  import opened Chunk
  import opened Kernel

  // ---------- topology upload ----------

  /** The edge list as the enumerator leaves it for a chunk. */
  ghost predicate ChunkNodes(nodes: seq<IdEmitter.NodeRecord>, m: nat) {
    && m >= 1 && Ascending(OutputIds(m), 0, |GraphOf(m)|)
    && Ranked(nodes, GraphOf(m), OutputIds(m), m)
  }

  function RanksOf(nodes: seq<IdEmitter.NodeRecord>): (rank: seq<int>)
    ensures |rank| == |nodes|
    ensures forall id {:trigger rank[id]} :: 0 <= id < |nodes| ==> rank[id] == nodes[id].rank
  {
    seq(|nodes|, id requires 0 <= id < |nodes| => nodes[id].rank)
  }

  /** The id -> rank map and its inverse. */
  method RankMaps(nodes: array<IdEmitter.NodeRecord>, m: nat) returns (rank: array<int>, outId: array<nat>)
    requires ChunkNodes(nodes[..], m)
    ensures fresh(rank) && fresh(outId) && rank[..] == RanksOf(nodes[..]) && outId[..] == OutputIds(m)
  {
    hide GraphOf;
    hide OutputIds;
    ghost var ns := nodes[..];
    rank := new int[nodes.Length];
    outId := new nat[m];
    for id := 0 to nodes.Length
      invariant forall k {:trigger rank[k]} :: 0 <= k < id ==> rank[k] == ns[k].rank
      invariant forall k {:trigger ns[k]} :: 0 <= k < id && ns[k].rank >= 0 ==> ns[k].rank < m && outId[ns[k].rank] == k
    {
      assert ns[id] == nodes[id];
      RankFacts(ns, m, id);
      rank[id] := nodes[id].rank;
      if nodes[id].rank >= 0 {
        RankInjective(ns, m, id);
        outId[nodes[id].rank] := id;
      }
    }
    forall r | 0 <= r < m
      ensures outId[r] == OutputIds(m)[r]
    {
      RankAt(ns, m, r);
      assert ns[OutputIds(m)[r]].rank == r;
    }
    assert outId[..] == OutputIds(m);
  }

  lemma RankAt(ns: seq<IdEmitter.NodeRecord>, m: nat, r: nat)
    requires ChunkNodes(ns, m) && r < m
    ensures OutputIds(m)[r] < |ns| == |GraphOf(m)| && ns[OutputIds(m)[r]].rank == r
  {
    hide GraphOf;
    hide OutputIds;
    var ids := OutputIds(m);
    assert ids[r] == OutputIds(m)[r];
  }

  lemma RankFacts(ns: seq<IdEmitter.NodeRecord>, m: nat, id: nat)
    requires ChunkNodes(ns, m) && id < |ns|
    ensures |ns| == |GraphOf(m)| && ns[id].node == GraphOf(m)[id] && -1 <= ns[id].rank < m
    ensures ns[id].rank >= 0 ==> OutputIds(m)[ns[id].rank] == id
  {
    hide GraphOf;
    hide OutputIds;
    var ids := OutputIds(m);
    assert ids[..m] == ids;
    if id in ids {
      var r :| 0 <= r < |ids| && ids[r] == id;
      RankAt(ns, m, r);
    }
  }

  lemma RankInjective(ns: seq<IdEmitter.NodeRecord>, m: nat, id: nat)
    requires ChunkNodes(ns, m) && id < |ns| && ns[id].rank >= 0
    ensures forall k {:trigger ns[k]} :: 0 <= k < |ns| && k != id ==> ns[k].rank != ns[id].rank
  {
    hide GraphOf;
    hide OutputIds;
    RankFacts(ns, m, id);
    forall k | 0 <= k < |ns| && k != id
      ensures ns[k].rank != ns[id].rank
    {
      RankFacts(ns, m, k);
    }
  }

  /** Per-chunk strategies: recycled slots, outputs copied out as they are computed. */
  ghost function Recycled(session: Session, nodes: seq<IdEmitter.NodeRecord>, m: nat, slot: seq<nat>,
                          pool: nat): Topology
    requires WellFormed(GraphOf(m)) && m >= 1
  {
    Topology(session, GraphOf(m), slot, pool, LastUsesOf(GraphOf(m)), RanksOf(nodes), OutputIds(m))
  }

  lemma RecycledValid(session: Session, nodes: seq<IdEmitter.NodeRecord>, m: nat, slot: seq<nat>, pool: nat)
    requires ChunkNodes(nodes, m) && WellFormed(GraphOf(m)) && Recycles(GraphOf(m), slot, pool)
    ensures Recycled(session, nodes, m, slot, pool).Valid()
  {
    hide GraphOf;
    hide OutputIds;
    hide Level;
    hide LastUse;
    var t := Recycled(session, nodes, m, slot, pool);
    RankFacts(nodes, m, 0);
    forall r | 0 <= r < |t.outputs|
      ensures t.outputs[r] < |t.g| && t.rank[t.outputs[r]] == r
    {
      RankAt(nodes, m, r);
    }
    forall id | 0 <= id < |t.g|
      ensures t.rank[id] < |t.outputs| && (t.rank[id] >= 0 ==> t.outputs[t.rank[id]] == id)
    {
      RankFacts(nodes, m, id);
    }
  }

  // ---------- warp and block ----------

  /** Warp and block strategy: whatever the interleaving of a level's nodes, the persisted region
      ends up with the chunk's labels, every rank written exactly once. */
  lemma RecycledLabels(p: Primitives, seed: Label, m: nat, nodes: seq<IdEmitter.NodeRecord>, slot: seq<nat>, pool: nat,
                       s: ChunkState, schedule: seq<Step>, last: ChunkState)
    requires ChunkNodes(nodes, m) && WellFormed(GraphOf(m)) && Recycles(GraphOf(m), slot, pool)
    requires var t := Recycled(SessionOf(p, seed, m), nodes, m, slot, pool);
             Initial(t, s) && Runs(t, s, schedule, last) && last.level == Height(t.g)
    ensures last.persist == ChunkLabels(p, seed, m)
    ensures last.written == seq(m, _ => 1)
  {
    hide GraphOf;
    hide OutputIds;
    hide Runs;
    hide Initial;
    hide Height;
    hide Labels;
    var t := Recycled(SessionOf(p, seed, m), nodes, m, slot, pool);
    RunPersists(t, s, schedule, last);
    var ls := ChunkLabels(p, seed, m);
    forall r | 0 <= r < m
      ensures last.persist[r] == ls[r] && last.written[r] == 1
    {
      assert t.outputs[r] == OutputIds(m)[r];
      ChunkLabelAt(p, seed, m, r);
    }
  }

  lemma ChunkLabelAt(p: Primitives, seed: Label, m: nat, r: nat)
    requires m >= 1 && r < m && WellFormed(GraphOf(m))
    ensures OutputIds(m)[r] < |GraphOf(m)|
    ensures ChunkLabels(p, seed, m)[r] == Labels(SessionOf(p, seed, m), GraphOf(m))[OutputIds(m)[r]]
  {
    hide GraphOf;
    hide OutputIds;
    hide Labels;
    OutputIdsAscend(m);
    var ids := OutputIds(m);
    var all := Pick(SessionOf(p, seed, m), GraphOf(m), ids);
    assert all[r] == Labels(SessionOf(p, seed, m), GraphOf(m))[ids[r]];
  }

  /** What the per-chunk strategies owe at rank r is the chunk's label r. */
  lemma RecycledOutput(p: Primitives, seed: Label, m: nat, nodes: seq<IdEmitter.NodeRecord>, slot: seq<nat>,
                       pool: nat, r: nat)
    requires m >= 1 && WellFormed(GraphOf(m)) && r < m
    ensures var t := Recycled(SessionOf(p, seed, m), nodes, m, slot, pool);
            t.outputs[r] < |t.g| && t.Expected(t.outputs[r]) == ChunkLabels(p, seed, m)[r]
  {
    hide GraphOf;
    hide OutputIds;
    hide Labels;
    ChunkLabelAt(p, seed, m, r);
  }

  // ---------- level ----------

  /** Level strategy: a slot of its own for every node, kept to the end, and nothing persisted on the way. */
  ghost function Full(session: Session, m: nat): Topology
    requires WellFormed(GraphOf(m))
  {
    hide GraphOf;
    hide Labels;
    hide StandaloneCount;
    var n := |GraphOf(m)|;
    Topology(session, GraphOf(m), Ids(0, n), n, seq(n, _ => Height(GraphOf(m))), seq(n, _ => -1), [])
  }

  lemma FullValid(session: Session, m: nat)
    requires WellFormed(GraphOf(m))
    ensures Full(session, m).Valid()
  {
    hide GraphOf;
    hide Level;
    hide LastUse;
    hide Height;
    var t := Full(session, m);
    forall id | 0 <= id < |t.g|
      ensures t.slot[id] < t.pool && LastUse(t.g, id) <= t.hold[id]
    {
      LastUseBelowHeight(t.g, id);
    }
  }

  /** After any run the work buffer holds the whole labelling, which is what the extraction pass starts from. */
  lemma FullLabels(p: Primitives, seed: Label, m: nat, s: ChunkState, schedule: seq<Step>, last: ChunkState)
    requires m >= 1 && WellFormed(GraphOf(m))
    requires var t := Full(SessionOf(p, seed, m), m);
             Initial(t, s) && Runs(t, s, schedule, last) && last.level == Height(t.g)
    ensures last.scratch == Labels(SessionOf(p, seed, m), GraphOf(m))
  {
    hide GraphOf;
    hide OutputIds;
    hide Runs;
    hide Height;
    hide Labels;
    hide ChunkLabels;
    var t := Full(SessionOf(p, seed, m), m);
    FullValid(SessionOf(p, seed, m), m);
    FullSize(t, s, schedule, last);
    forall id: nat | id < |t.g|
      ensures last.scratch[id] == t.Expected(id)
    {
      RunHolds(t, s, schedule, last, id);
      assert t.slot[id] == id;
    }
  }

  lemma FullSize(t: Topology, s: ChunkState, schedule: seq<Step>, last: ChunkState)
    requires Initial(t, s) && Runs(t, s, schedule, last)
    ensures |last.scratch| == t.pool
  {
    hide Runs;
    InitialInv(t, s);
    RunKeeps(t, s, schedule, last);
  }

  // ---------- thread ----------

  /** Labels of the first `i` scheduled nodes that may still be read at level `l` are in their slots. */
  ghost predicate ScratchHolds(t: Topology, order: seq<nat>, i: nat, l: nat, scratch: seq<Label>)
    requires t.Valid() && i <= |order| && Buckets.Schedule(LevelsOf(t.g), order)
  {
    forall j {:trigger order[j]} :: 0 <= j < i ==>
      t.slot[order[j]] < |scratch| && (t.hold[order[j]] >= l ==> scratch[t.slot[order[j]]] == t.Expected(order[j]))
  }

  /** Ranks of the first `i` scheduled nodes are persisted. */
  ghost predicate RanksHold(t: Topology, order: seq<nat>, i: nat, persist: seq<Label>)
    requires t.Valid() && i <= |order| && |persist| == |t.outputs| && Buckets.Schedule(LevelsOf(t.g), order)
  {
    forall j {:trigger order[j]} :: 0 <= j < i && t.rank[order[j]] >= 0 ==>
      persist[t.rank[order[j]]] == t.Expected(order[j])
  }

  /** A predecessor is scheduled before its reader and still in its slot. */
  lemma PredScheduled(t: Topology, order: seq<nat>, i: nat, scratch: seq<Label>, pred: nat)
    requires t.Valid() && i < |order| && Buckets.Schedule(LevelsOf(t.g), order)
    requires ScratchHolds(t, order, i, Level(t.g, order[i]), scratch) && t.g[order[i]].Reads(pred)
    ensures pred < order[i] && t.slot[pred] < |scratch| && scratch[t.slot[pred]] == t.Expected(pred)
  {
    hide Level;
    hide LastUse;
    var id, ls := order[i], LevelsOf(t.g);
    assert Fits(t.g[id], id);
    ReadsLower(t.g, id, pred);
    LastUseBound(t.g, pred, id);
    assert ls[pred] < ls[id];
    var j :| 0 <= j < |order| && order[j] == pred;
    assert t.slot[pred] < t.pool && LastUse(t.g, pred) <= t.hold[pred];
  }

  lemma ReadsLower(g: Graph, id: nat, pred: nat)
    requires WellFormed(g) && id < |g| && g[id].Reads(pred)
    ensures pred < id && Level(g, pred) < Level(g, id)
  {
    assert Fits(g[id], id);
  }

  lemma ThreadStep(t: Topology, order: seq<nat>, i: nat, scratch: seq<Label>)
    requires t.Valid() && i < |order| && Buckets.Schedule(LevelsOf(t.g), order) && |scratch| == t.pool
    requires ScratchHolds(t, order, i, Level(t.g, order[i]), scratch)
    ensures t.slot[order[i]] < |scratch|
    ensures ScratchHolds(t, order, i + 1, Level(t.g, order[i]), scratch[t.slot[order[i]] := t.Expected(order[i])])
  {
    hide Level;
    hide LastUse;
    var id, ls := order[i], LevelsOf(t.g);
    SlotsFit(t);
    assert t.slot[id] < t.pool;
    forall j {:trigger order[j]} | 0 <= j < i && t.slot[order[j]] == t.slot[id]
      ensures t.hold[order[j]] < Level(t.g, id)
    {
      assert ls[order[j]] <= ls[id] <= t.hold[id];
    }
  }

  lemma HoldsLater(t: Topology, order: seq<nat>, i: nat, l: nat, l': nat, scratch: seq<Label>)
    requires t.Valid() && i <= |order| && Buckets.Schedule(LevelsOf(t.g), order) && l <= l'
    requires ScratchHolds(t, order, i, l, scratch)
    ensures ScratchHolds(t, order, i, l', scratch)
  {
  }

  /** Thread strategy: one thread walks the level-sorted order over its own slots. */
  method LabelChunkThread(session: Session, nodes: array<IdEmitter.NodeRecord>, order: array<nat>, slot: array<nat>,
                          rank: array<int>, scratch: array<Label>, sbase: nat, persist: array<Label>, pbase: nat,
                          ghost t: Topology)
    requires t.Valid() && t.session == session && Describes(nodes[..], t.g) && t.slot == slot[..] && t.rank == rank[..]
    requires Buckets.Schedule(LevelsOf(t.g), order[..])
    requires scratch != persist && sbase + t.pool <= scratch.Length && pbase + |t.outputs| <= persist.Length
    modifies scratch, persist
    ensures forall k {:trigger persist[k]} :: pbase <= k < pbase + |t.outputs| ==>
              t.outputs[k - pbase] < |t.g| && persist[k] == t.Expected(t.outputs[k - pbase])
    ensures forall k {:trigger persist[k]} :: 0 <= k < persist.Length && !(pbase <= k < pbase + |t.outputs|) ==>
              persist[k] == old(persist[k])
    ensures forall k {:trigger scratch[k]} :: 0 <= k < scratch.Length && !(sbase <= k < sbase + t.pool) ==>
              scratch[k] == old(scratch[k])
  {
    hide ScratchHolds;
    hide RanksHold;
    hide Level;
    hide LastUse;
    hide Labels;
    hide Buckets.Schedule;
    hide Describes;
    hide Topology.Keeps;
    hide Topology.Expected;
    ghost var os, m := order[..], |t.outputs|;
    ghost var now: nat := 0;
    NextLevelUp(t, os, 0);
    NothingScheduled(t, os, scratch[sbase..sbase + t.pool], persist[pbase..pbase + m]);
    for i := 0 to order.Length
      invariant ScratchHolds(t, os, i, now, scratch[sbase..sbase + t.pool])
      invariant RanksHold(t, os, i, persist[pbase..pbase + m])
      invariant i < order.Length ==> os[i] < |t.g| && now <= Level(t.g, os[i])
      invariant forall k {:trigger persist[k]} :: 0 <= k < persist.Length && !(pbase <= k < pbase + m) ==>
                persist[k] == old(persist[k])
      invariant forall k {:trigger scratch[k]} :: 0 <= k < scratch.Length && !(sbase <= k < sbase + t.pool) ==>
                scratch[k] == old(scratch[k])
    {
      var id := order[i];
      assert id == os[i];
      ThreadFacts(t, os, i);
      ghost var before, ranks := scratch[sbase..sbase + t.pool], persist[pbase..pbase + m];
      HoldsLater(t, os, i, now, Level(t.g, id), before);
      now := Level(t.g, id);
      var out := HashNode(session, nodes, slot, scratch, sbase, t, os, i, id);
      ThreadStep(t, os, i, before);
      scratch[sbase + slot[id]] := out;
      assert scratch[sbase..sbase + t.pool] == before[t.slot[id] := t.Expected(id)];
      RankStep(t, os, i, ranks);
      if rank[id] >= 0 {
        persist[pbase + rank[id]] := scratch[sbase + slot[id]];
        assert persist[pbase..pbase + m] == ranks[t.rank[id] := t.Expected(id)];
      }
      NextLevelUp(t, os, i);
    }
    AllRanks(t, os, persist[pbase..pbase + m]);
    forall k | pbase <= k < pbase + m
      ensures t.outputs[k - pbase] < |t.g| && persist[k] == t.Expected(t.outputs[k - pbase])
    {
      assert persist[pbase..pbase + m][k - pbase] == persist[k];
    }
  }

  lemma ThreadFacts(t: Topology, order: seq<nat>, i: nat)
    requires t.Valid() && Buckets.Schedule(LevelsOf(t.g), order) && i < |order|
    ensures order[i] < |t.g| && t.slot[order[i]] < t.pool && t.rank[order[i]] < |t.outputs|
  {
    assert t.slot[order[i]] < t.pool && t.rank[order[i]] < |t.outputs|;
  }

  lemma NothingScheduled(t: Topology, order: seq<nat>, scratch: seq<Label>, persist: seq<Label>)
    requires t.Valid() && Buckets.Schedule(LevelsOf(t.g), order) && |persist| == |t.outputs|
    ensures ScratchHolds(t, order, 0, 0, scratch) && RanksHold(t, order, 0, persist)
  {
  }

  lemma NextLevelUp(t: Topology, order: seq<nat>, i: nat)
    requires t.Valid() && Buckets.Schedule(LevelsOf(t.g), order) && i <= |order|
    ensures i < |order| ==> order[i] < |t.g|
    ensures i + 1 < |order| ==> order[i + 1] < |t.g| && Level(t.g, order[i]) <= Level(t.g, order[i + 1])
  {
    var ls := LevelsOf(t.g);
    if i + 1 < |order| {
      assert ls[order[i]] <= ls[order[i + 1]];
    }
  }

  lemma RankStep(t: Topology, order: seq<nat>, i: nat, persist: seq<Label>)
    requires t.Valid() && Buckets.Schedule(LevelsOf(t.g), order) && i < |order| && |persist| == |t.outputs|
    requires RanksHold(t, order, i, persist)
    ensures order[i] < |t.g| && t.rank[order[i]] < |t.outputs|
    ensures RanksHold(t, order, i + 1, if t.rank[order[i]] >= 0
              then persist[t.rank[order[i]] := t.Expected(order[i])] else persist)
  {
    hide Labels;
    var id := order[i];
    assert t.rank[id] < |t.outputs|;
    forall j {:trigger order[j]} | 0 <= j < i && t.rank[order[j]] >= 0
      ensures t.rank[order[j]] != t.rank[id]
    {
      assert t.outputs[t.rank[order[j]]] == order[j];
    }
  }

  lemma AllRanks(t: Topology, order: seq<nat>, persist: seq<Label>)
    requires t.Valid() && Buckets.Schedule(LevelsOf(t.g), order) && |persist| == |t.outputs|
    requires RanksHold(t, order, |order|, persist)
    ensures forall r {:trigger t.outputs[r]} :: 0 <= r < |t.outputs| ==>
              t.outputs[r] < |t.g| && persist[r] == t.Expected(t.outputs[r])
  {
    hide Labels;
    var ls := LevelsOf(t.g);
    forall r | 0 <= r < |t.outputs|
      ensures t.outputs[r] < |t.g| && persist[r] == t.Expected(t.outputs[r])
    {
      var id := t.outputs[r];
      assert ls[id] == Level(t.g, id);
      var j :| 0 <= j < |order| && order[j] == id;
      assert t.rank[order[j]] == r;
    }
  }

  /** Hash one node over the labels found in its predecessors' slots. */
  method HashNode(session: Session, nodes: array<IdEmitter.NodeRecord>, slot: array<nat>, scratch: array<Label>,
                  sbase: nat, ghost t: Topology, ghost order: seq<nat>, ghost i: nat, id: nat)
    returns (out: Label)
    requires t.Valid() && t.session == session && Describes(nodes[..], t.g) && t.slot == slot[..]
    requires Buckets.Schedule(LevelsOf(t.g), order) && i < |order| && id == order[i] && sbase + t.pool <= scratch.Length
    requires ScratchHolds(t, order, i, Level(t.g, id), scratch[sbase..sbase + t.pool])
    ensures id < |t.g| && out == t.Expected(id)
  {
    hide ScratchHolds;
    hide Level;
    hide LastUse;
    hide Labels;
    ghost var view := scratch[sbase..sbase + t.pool];
    assert nodes[..][id].node == t.g[id] && Fits(t.g[id], id);
    LabelAt(session, t.g, id);
    match nodes[id].node {
      case Source =>
        out := NodeLabel(session, id, []);
      case One(p) =>
        PredScheduled(t, order, i, view, p);
        assert view[t.slot[p]] == scratch[sbase + slot[p]];
        out := NodeLabel(session, id, [scratch[sbase + slot[p]]]);
      case Two(p, q) =>
        PredScheduled(t, order, i, view, p);
        PredScheduled(t, order, i, view, q);
        assert view[t.slot[p]] == scratch[sbase + slot[p]] && view[t.slot[q]] == scratch[sbase + slot[q]];
        out := NodeLabel(session, id, [scratch[sbase + slot[p]], scratch[sbase + slot[q]]]);
    }
  }
}
