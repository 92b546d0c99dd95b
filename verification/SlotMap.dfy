/** The slot map: which scratch slot each node of the scaffold uses when slots are recycled level by level. */
module SlotMap {
  import Bits
  import opened Dag
  import opened Levels
  import Buckets
  import opened SlotPool
  import IdEmitter

  // ---------- live ranges ----------

  /** Highest level among the node itself and its readers below id `n`. */
  function LastUseUpTo(g: Graph, id: nat, n: nat): nat
    requires WellFormed(g) && id < |g| && n <= |g|
    decreases n
  {
    if n == 0 then Level(g, id)
    else if g[n - 1].Reads(id) then Bits.Max(LastUseUpTo(g, id, n - 1), Level(g, n - 1))
    else LastUseUpTo(g, id, n - 1)
  }

  function LastUse(g: Graph, id: nat): nat
    requires WellFormed(g) && id < |g|
  {
    LastUseUpTo(g, id, |g|)
  }

  /** No reader comes after the last use. */
  lemma {:induction false} LastUseUpToBound(g: Graph, id: nat, n: nat, reader: nat)
    requires WellFormed(g) && id < |g| && n <= |g|
    ensures Level(g, id) <= LastUseUpTo(g, id, n)
    ensures reader < n && g[reader].Reads(id) ==> Level(g, reader) <= LastUseUpTo(g, id, n)
    decreases n
  {
    if n > 0 {
      LastUseUpToBound(g, id, n - 1, reader);
    }
  }

  lemma LastUseBound(g: Graph, id: nat, reader: nat)
    requires WellFormed(g) && id < |g| && reader < |g| && g[reader].Reads(id)
    ensures Level(g, reader) <= LastUse(g, id)
  {
    LastUseUpToBound(g, id, |g|, reader);
  }

  /** The last use is the node's own level or that of one of its readers. */
  lemma {:induction false} LastUseAttained(g: Graph, id: nat, n: nat) returns (reader: nat)
    requires WellFormed(g) && id < |g| && n <= |g|
    ensures LastUseUpTo(g, id, n) == Level(g, id)
            || (reader < n && g[reader].Reads(id) && LastUseUpTo(g, id, n) == Level(g, reader))
    decreases n
  {
    reader := 0;
    if n > 0 {
      reader := LastUseAttained(g, id, n - 1);
      if g[n - 1].Reads(id) && Level(g, n - 1) >= LastUseUpTo(g, id, n - 1) {
        reader := n - 1;
      }
    }
  }

  function MaxLevel(g: Graph, n: nat): nat
    requires WellFormed(g) && n <= |g|
    decreases n
  {
    if n == 0 then 0 else Bits.Max(MaxLevel(g, n - 1), Level(g, n - 1))
  }

  /** Number of levels. */
  function Height(g: Graph): nat
    requires WellFormed(g)
  {
    MaxLevel(g, |g|) + 1
  }

  lemma {:induction false} MaxLevelBound(g: Graph, n: nat, id: nat)
    requires WellFormed(g) && id < n <= |g|
    ensures Level(g, id) <= MaxLevel(g, n)
    decreases n
  {
    if id < n - 1 {
      MaxLevelBound(g, n - 1, id);
    }
  }

  lemma LevelBelowHeight(g: Graph, id: nat)
    requires WellFormed(g) && id < |g|
    ensures Level(g, id) < Height(g)
  {
    MaxLevelBound(g, |g|, id);
  }

  lemma {:induction false} MaxLevelAttained(g: Graph, n: nat) returns (id: nat)
    requires WellFormed(g) && 1 <= n <= |g|
    ensures id < n && Level(g, id) == MaxLevel(g, n)
    decreases n
  {
    id := n - 1;
    if n > 1 && Level(g, id) < MaxLevel(g, n - 1) {
      id := MaxLevelAttained(g, n - 1);
    }
  }

  /** Levels are counted up to the highest one that a node is on. */
  lemma HeightIs(g: Graph, h: nat)
    requires WellFormed(g) && |g| > 0
    ensures Height(g) == h + 1 <==>
            (forall id: nat {:trigger Level(g, id)} :: id < |g| ==> Level(g, id) <= h)
            && exists id: nat {:trigger Level(g, id)} :: id < |g| && Level(g, id) == h
  {
    hide Level;
    var top := MaxLevelAttained(g, |g|);
    forall id: nat | id < |g|
      ensures Level(g, id) <= MaxLevel(g, |g|)
    {
      MaxLevelBound(g, |g|, id);
    }
    hide MaxLevel;
  }

  lemma LastUseBelowHeight(g: Graph, id: nat)
    requires WellFormed(g) && id < |g|
    ensures Level(g, id) <= LastUse(g, id) < Height(g)
  {
    LastUseUpToBound(g, id, |g|, 0);
    LevelBelowHeight(g, id);
    var reader := LastUseAttained(g, id, |g|);
    if LastUse(g, id) != Level(g, id) {
      LevelBelowHeight(g, reader);
    }
  }

  function LevelsOf(g: Graph): (s: seq<nat>)
    requires WellFormed(g)
    ensures |s| == |g|
    ensures forall id {:trigger s[id]} :: 0 <= id < |g| ==> s[id] == Level(g, id)
  {
    seq(|g|, id requires 0 <= id < |g| => Level(g, id))
  }

  function LastUsesOf(g: Graph): (s: seq<nat>)
    requires WellFormed(g)
    ensures |s| == |g|
    ensures forall id {:trigger s[id]} :: 0 <= id < |g| ==> s[id] == LastUse(g, id)
  {
    seq(|g|, id requires 0 <= id < |g| => LastUse(g, id))
  }

  /** Every node is live from its own level to its last use. */
  function RangesOf(g: Graph): (r: Ranges)
    requires WellFormed(g)
    ensures |r.birth| == |r.death| == |g|
  {
    Ranges(LevelsOf(g), LastUsesOf(g))
  }

  lemma RangesValid(g: Graph)
    requires WellFormed(g)
    ensures RangesOf(g).Valid()
  {
    forall id | 0 <= id < |g|
      ensures LevelsOf(g)[id] <= LastUsesOf(g)[id]
    {
      LastUseBelowHeight(g, id);
    }
  }

  // ---------- the property the executors rely on ----------

  /** Nodes that share a slot are never live at the same level, ends included. */
  ghost predicate Recycles(g: Graph, slot: seq<nat>, pool: nat)
    requires WellFormed(g)
  {
    && |g| <= |slot|
    && (forall id {:trigger slot[id]} :: 0 <= id < |g| ==> slot[id] < pool)
    && (forall a, b {:trigger slot[a], slot[b]} :: 0 <= a < |g| && 0 <= b < |g| && a != b && slot[a] == slot[b] ==>
          LastUse(g, a) < Level(g, b) || LastUse(g, b) < Level(g, a))
  }

  // ---------- the passes ----------

  /** The edge list is that of `g`. */
  ghost predicate Describes(nodes: seq<IdEmitter.NodeRecord>, g: Graph) {
    && |nodes| == |g|
    && forall id {:trigger nodes[id]} :: 0 <= id < |g| ==> nodes[id].node == g[id]
  }

  /** Forward pass: the level of every node. */
  method ComputeLevels(nodes: array<IdEmitter.NodeRecord>, ghost g: Graph) returns (level: array<nat>, maxLevel: nat)
    requires WellFormed(g) && Describes(nodes[..], g)
    ensures fresh(level) && level[..] == LevelsOf(g) && maxLevel == MaxLevel(g, |g|)
  {
    level := new nat[nodes.Length];
    maxLevel := 0;
    for id := 0 to nodes.Length
      invariant forall k {:trigger level[k]} :: 0 <= k < id ==> level[k] == Level(g, k)
      invariant maxLevel == MaxLevel(g, id)
    {
      assert nodes[..][id].node == g[id] && Fits(g[id], id);
      var lv: nat;
      match nodes[id].node {
        case Source => lv := 0;
        case One(p) => lv := level[p] + 1;
        case Two(p, q) => lv := (if level[p] > level[q] then level[p] else level[q]) + 1;
      }
      level[id] := lv;
      if lv > maxLevel {
        maxLevel := lv;
      }
    }
  }

  /** Raise every node's last use to the level of its highest reader. */
  method ComputeLastUses(nodes: array<IdEmitter.NodeRecord>, level: array<nat>, ghost g: Graph)
    returns (lastUse: array<nat>)
    requires WellFormed(g) && Describes(nodes[..], g) && level[..] == LevelsOf(g)
    ensures fresh(lastUse) && lastUse[..] == LastUsesOf(g)
  {
    lastUse := new nat[nodes.Length];
    for id := 0 to nodes.Length
      invariant forall k {:trigger lastUse[k]} :: 0 <= k < id ==> lastUse[k] == Level(g, k)
    {
      assert level[id] == level[..][id];
      lastUse[id] := level[id];
    }
    for id := 0 to nodes.Length
      invariant forall k {:trigger lastUse[k]} :: 0 <= k < nodes.Length ==> lastUse[k] == LastUseUpTo(g, k, id)
    {
      assert nodes[..][id].node == g[id] && Fits(g[id], id);
      var lv := level[id];
      assert lv == level[..][id];
      match nodes[id].node {
        case Source =>
        case One(p) =>
          if lastUse[p] < lv { lastUse[p] := lv; }
        case Two(p, q) =>
          if lastUse[p] < lv { lastUse[p] := lv; }
          if lastUse[q] < lv { lastUse[q] := lv; }
      }
    }
  }

  /** Give a slot to every node born at level `now`. */
  method AllocateLevel(ghost r: Ranges, now: nat, order: array<nat>, lo: nat, hi: nat, slot: array<nat>,
                       free: array<nat>, nextNew0: nat, freeTop0: nat)
    returns (nextNew: nat, freeTop: nat)
    requires slot != free && order != slot && order != free
    requires lo <= hi <= order.Length && freeTop0 <= free.Length
    requires r.Valid() && IsBucket(r.birth, now, order[lo..hi]) && Distinct(order[lo..hi])
    requires Inv(r, Pool(slot[..], free[..freeTop0], nextNew0), Born(r, now), Carried(r, now), now)
    modifies slot, free
    ensures freeTop <= free.Length
    ensures Inv(r, Pool(slot[..], free[..freeTop], nextNew), Born(r, now + 1), LiveAt(r, now), now)
    ensures nextNew0 <= nextNew <= Bits.Max(nextNew0, |LiveAt(r, now)|)
  {
    hide Inv;
    hide IsBucket;
    hide LiveAt;
    hide Born;
    hide Carried;
    hide Elems;
    ghost var b := order[lo..hi];
    nextNew, freeTop := nextNew0, freeTop0;
    hide Allocated;
    Unallocated(r, now, b, Pool(slot[..], free[..freeTop], nextNew));
    for i := lo to hi
      invariant order[lo..hi] == b && freeTop <= free.Length
      invariant Allocated(r, now, b, i - lo, Pool(slot[..], free[..freeTop], nextNew))
      invariant nextNew0 <= nextNew <= Bits.Max(nextNew0, |LiveAt(r, now)|)
    {
      var id := order[i];
      assert id == b[i - lo];
      ghost var p := Pool(slot[..], free[..freeTop], nextNew);
      AllocateNext(r, now, b, i - lo, p);
      if freeTop > 0 {
        freeTop := freeTop - 1;
        slot[id] := free[freeTop];
        assert free[..freeTop] == p.free[..|p.free| - 1];
      } else {
        slot[id] := nextNew;
        nextNew := nextNew + 1;
      }
      assert Pool(slot[..], free[..freeTop], nextNew) == Allocate(p, id);
    }
    AllAllocated(r, now, b, Pool(slot[..], free[..freeTop], nextNew));
  }

  /** The first `j` of the births `b` of level `l` have their slots. */
  ghost predicate Allocated(r: Ranges, l: nat, b: seq<nat>, j: nat, p: Pool)
    requires r.Valid() && j <= |b|
  {
    Inv(r, p, Born(r, l) + Elems(b[..j]), Carried(r, l) + Elems(b[..j]), l)
  }

  lemma Unallocated(r: Ranges, l: nat, b: seq<nat>, p: Pool)
    requires r.Valid() && Inv(r, p, Born(r, l), Carried(r, l), l)
    ensures Allocated(r, l, b, 0, p)
  {
    hide Inv;
    assert Elems(b[..0]) == {};
    assert Born(r, l) + {} == Born(r, l) && Carried(r, l) + {} == Carried(r, l);
  }

  lemma AllAllocated(r: Ranges, l: nat, b: seq<nat>, p: Pool)
    requires r.Valid() && IsBucket(r.birth, l, b) && Allocated(r, l, b, |b|, p)
    ensures Inv(r, p, Born(r, l + 1), LiveAt(r, l), l)
  {
    hide Inv;
    assert b[..|b|] == b;
    BirthsDone(r, l, b);
  }

  lemma AllocateNext(r: Ranges, l: nat, b: seq<nat>, j: nat, p: Pool)
    requires r.Valid() && IsBucket(r.birth, l, b) && Distinct(b) && j < |b| && Allocated(r, l, b, j, p)
    ensures b[j] < |p.slot| && p.nextNew <= Allocate(p, b[j]).nextNew
    ensures Allocate(p, b[j]).nextNew <= Bits.Max(p.nextNew, |LiveAt(r, l)|)
    ensures Allocated(r, l, b, j + 1, Allocate(p, b[j]))
  {
    hide Inv;
    hide IsBucket;
    hide LiveAt;
    hide Born;
    hide Carried;
    hide Elems;
    var done, live := Born(r, l) + Elems(b[..j]), Carried(r, l) + Elems(b[..j]);
    BornHere(r, l, b, j);
    InvShape(r, p, done, live, l);
    ElemsNext(b, j);
    AllocateKeeps(r, p, done, live, l, b[j]);
    LiveSoFar(r, l, b, j);
    assert done + {b[j]} == Born(r, l) + Elems(b[..j + 1]);
    assert live + {b[j]} == Carried(r, l) + Elems(b[..j + 1]);
  }

  /** Take back the slots of every node whose last use is level `now`. */
  method ReclaimLevel(ghost r: Ranges, now: nat, order: array<nat>, lo: nat, hi: nat, slot: array<nat>,
                      free: array<nat>, nextNew: nat, freeTop0: nat)
    returns (freeTop: nat)
    requires slot != free && order != slot && order != free
    requires lo <= hi <= order.Length && freeTop0 <= free.Length && nextNew <= free.Length
    requires r.Valid() && IsBucket(r.death, now, order[lo..hi]) && Distinct(order[lo..hi])
    requires Inv(r, Pool(slot[..], free[..freeTop0], nextNew), Born(r, now + 1), LiveAt(r, now), now)
    modifies free
    ensures freeTop <= free.Length
    ensures Inv(r, Pool(slot[..], free[..freeTop], nextNew), Born(r, now + 1), Carried(r, now + 1), now + 1)
  {
    hide Inv;
    hide IsBucket;
    hide LiveAt;
    hide Born;
    hide Carried;
    hide Elems;
    ghost var b := order[lo..hi];
    freeTop := freeTop0;
    ghost var done, live := Born(r, now + 1), LiveAt(r, now);
    EmptyElems();
    assert b[..0] == [];
    InvLater(r, Pool(slot[..], free[..freeTop], nextNew), done, live, now, now + 1);
    for i := lo to hi
      invariant order[lo..hi] == b && freeTop <= free.Length
      invariant live == LiveAt(r, now) - Elems(b[..i - lo])
      invariant Inv(r, Pool(slot[..], free[..freeTop], nextNew), done, live, now + 1)
    {
      var id := order[i];
      assert id == b[i - lo];
      ghost var p := Pool(slot[..], free[..freeTop], nextNew);
      DiesHere(r, now, b, i - lo);
      ElemsNext(b, i - lo);
      ReclaimKeeps(r, p, done, live, now + 1, id);
      InvRoom(r, p, done, live, now + 1, id);
      free[freeTop] := slot[id];
      freeTop := freeTop + 1;
      assert free[..freeTop] == p.free + [slot[id]];
      live := live - {id};
    }
    assert b[..hi - lo] == b;
    DeathsDone(r, now, b);
  }

  lemma EmptyElems()
    ensures Elems([]) == {}
  {
  }

  lemma InvShape(r: Ranges, p: Pool, done: set<nat>, live: set<nat>, now: nat)
    requires Inv(r, p, done, live, now)
    ensures r.Valid() && |r.birth| <= |p.slot|
  {
  }

  lemma InvRoom(r: Ranges, p: Pool, done: set<nat>, live: set<nat>, now: nat, id: nat)
    requires Inv(r, p, done, live, now) && id in live
    ensures |p.free| < p.nextNew
  {
    assert |live| > 0 by {
      assert live != {};
    }
  }

  lemma BornHere(r: Ranges, l: nat, b: seq<nat>, j: nat)
    requires r.Valid() && IsBucket(r.birth, l, b) && j < |b| && Distinct(b)
    ensures b[j] < |r.birth| && r.birth[b[j]] == l
    ensures b[j] !in Born(r, l) && b[j] !in Carried(r, l) && b[j] !in Elems(b[..j])
  {
    assert b[j] in b;
    ElemsNext(b, j);
  }

  lemma DiesHere(r: Ranges, l: nat, b: seq<nat>, j: nat)
    requires r.Valid() && IsBucket(r.death, l, b) && j < |b| && Distinct(b)
    ensures b[j] < |r.death| && r.death[b[j]] == l
    ensures b[j] in LiveAt(r, l) && b[j] !in Elems(b[..j])
  {
    assert b[j] in b;
    ElemsNext(b, j);
    assert r.birth[b[j]] <= r.death[b[j]];
  }

  lemma LiveSoFar(r: Ranges, l: nat, b: seq<nat>, j: nat)
    requires r.Valid() && IsBucket(r.birth, l, b) && j < |b|
    ensures |Carried(r, l) + Elems(b[..j]) + {b[j]}| <= |LiveAt(r, l)|
  {
    BirthsDone(r, l, b);
    assert b[j] in b;
    assert Elems(b[..j]) <= Elems(b);
    Subset(Carried(r, l) + Elems(b[..j]) + {b[j]}, LiveAt(r, l));
  }

  /** Births before deaths, level by level, over the two counting-sorted schedules. */
  method RecycleSlots(ghost g: Graph, levels: nat, lvlStart: array<nat>, lvlOrder: array<nat>,
                      freStart: array<nat>, freOrder: array<nat>, slot: array<nat>)
    returns (pool: nat)
    requires WellFormed(g) && levels == Height(g) && |g| <= slot.Length
    requires slot != lvlStart && slot != lvlOrder && slot != freStart && slot != freOrder
    requires Buckets.Sorted(LevelsOf(g), levels, lvlStart[..], lvlOrder[..])
    requires Buckets.Sorted(LastUsesOf(g), levels, freStart[..], freOrder[..])
    modifies slot
    ensures Recycles(g, slot[..], pool)
    ensures RangesOf(g).Valid() && IsPeak(RangesOf(g), Height(g), pool)
  {
    hide Inv;
    hide Buckets.Sorted;
    hide LiveAt;
    hide Born;
    hide Carried;
    hide IsBucket;
    hide LevelsOf;
    hide LastUsesOf;
    hide Recycles;
    ghost var r := RangesOf(g);
    RangesValid(g);
    ghost var ls, lo, fs, fo := lvlStart[..], lvlOrder[..], freStart[..], freOrder[..];
    var free := new nat[lvlOrder.Length];
    var nextNew: nat, freeTop: nat := 0, 0;
    ghost var top: nat := 0;
    SortedShape(r.birth, levels, ls, lo);
    SortedShape(r.death, levels, fs, fo);
    NothingBeforeLevelZero(r);
    InvStart(r, slot[..]);
    assert free[..freeTop] == [];
    for lv := 0 to levels
      invariant lvlStart[..] == ls && lvlOrder[..] == lo && freStart[..] == fs && freOrder[..] == fo
      invariant freeTop <= free.Length && top < levels && nextNew <= |LiveAt(r, top)|
      invariant Inv(r, Pool(slot[..], free[..freeTop], nextNew), Born(r, lv), Carried(r, lv), lv)
      invariant forall l {:trigger LiveAt(r, l)} :: 0 <= l < lv ==> |LiveAt(r, l)| <= nextNew
    {
      ghost var before := nextNew;
      BucketAt(r.birth, levels, ls, lo, lv);
      assert lvlStart[lv] == ls[lv] && lvlStart[lv + 1] == ls[lv + 1];
      assert lvlOrder[ls[lv]..ls[lv + 1]] == lo[ls[lv]..ls[lv + 1]];
      nextNew, freeTop := AllocateLevel(r, lv, lvlOrder, lvlStart[lv], lvlStart[lv + 1], slot, free, nextNew, freeTop);
      if nextNew > before {
        top := lv;
      }
      LiveAtMost(r, top);
      InvLive(r, Pool(slot[..], free[..freeTop], nextNew), Born(r, lv + 1), LiveAt(r, lv), lv);
      BucketAt(r.death, levels, fs, fo, lv);
      assert freStart[lv] == fs[lv] && freStart[lv + 1] == fs[lv + 1];
      assert freOrder[fs[lv]..fs[lv + 1]] == fo[fs[lv]..fs[lv + 1]];
      freeTop := ReclaimLevel(r, lv, freOrder, freStart[lv], freStart[lv + 1], slot, free, nextNew, freeTop);
    }
    pool := nextNew;
    InvRecycles(g, Pool(slot[..], free[..freeTop], nextNew), Carried(r, levels), levels);
  }

  lemma SortedShape(key: seq<nat>, n: nat, start: seq<nat>, order: seq<nat>)
    requires Buckets.Sorted(key, n, start, order)
    ensures |start| == n + 1 && |order| == |key|
  {
  }

  /** One level's slice of a counting-sorted schedule. */
  lemma BucketAt(key: seq<nat>, n: nat, start: seq<nat>, order: seq<nat>, l: nat)
    requires Buckets.Sorted(key, n, start, order) && l < n
    ensures |start| == n + 1 && start[l] <= start[l + 1] <= |order|
    ensures IsBucket(key, l, order[start[l]..start[l + 1]]) && Distinct(order[start[l]..start[l + 1]])
  {
    assert order[start[l]..start[l + 1]] == Buckets.Bucket(key, l);
    Buckets.BucketAscends(key, l);
    forall id: nat
      ensures id in Buckets.Bucket(key, l) <==> id < |key| && key[id] == l
    {
      Buckets.BucketMember(key, l, id);
    }
  }

  lemma InvLive(r: Ranges, p: Pool, done: set<nat>, live: set<nat>, now: nat)
    requires Inv(r, p, done, live, now)
    ensures |live| <= p.nextNew
  {
  }

  lemma InvRecycles(g: Graph, p: Pool, live: set<nat>, levels: nat)
    requires WellFormed(g) && levels == Height(g) && RangesOf(g).Valid()
    requires Inv(RangesOf(g), p, Born(RangesOf(g), levels), live, levels)
    ensures Recycles(g, p.slot, p.nextNew)
  {
    var r := RangesOf(g);
    forall id: nat | id < |g|
      ensures id in Born(r, levels)
    {
      LevelBelowHeight(g, id);
      assert r.birth[id] < levels;
    }
  }

  method FillSlots(nodes: array<IdEmitter.NodeRecord>, ghost g: Graph, slot: array<nat>) returns (pool: nat)
    requires WellFormed(g) && Describes(nodes[..], g) && |g| <= slot.Length
    modifies slot
    ensures Recycles(g, slot[..], pool)
    ensures RangesOf(g).Valid() && IsPeak(RangesOf(g), Height(g), pool)
  {
    hide Buckets.Sorted;
    hide Recycles;
    hide IsPeak;
    var level, maxLevel := ComputeLevels(nodes, g);
    var lastUse := ComputeLastUses(nodes, level, g);
    var levels := maxLevel + 1;
    forall id | 0 <= id < |g|
      ensures level[..][id] < levels && lastUse[..][id] < levels
    {
      LastUseBelowHeight(g, id);
    }
    KeysBelow(level, levels);
    KeysBelow(lastUse, levels);
    var lvlStart, lvlOrder := Buckets.CountingSort(level, levels);
    var freStart, freOrder := Buckets.CountingSort(lastUse, levels);
    pool := RecycleSlots(g, levels, lvlStart, lvlOrder, freStart, freOrder, slot);
  }

  lemma KeysBelow(key: array<nat>, n: nat)
    requires forall id {:trigger key[..][id]} :: 0 <= id < key.Length ==> key[..][id] < n
    ensures forall id {:trigger key[id]} :: 0 <= id < key.Length ==> key[id] < n
  {
    forall id | 0 <= id < key.Length
      ensures key[id] < n
    {
      assert key[..][id] < n;
    }
  }
}
