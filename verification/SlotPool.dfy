/** Slot recycling over live ranges: one step of the free-stack allocator at a time.

    Node `id` is live from level `birth[id]` to level `death[id]`, both included.
 */
module SlotPool {

  /** What the allocator keeps: the slot handed to each id so far, the stack of free slots, and the pool size. */
  datatype Pool = Pool(slot: seq<nat>, free: seq<nat>, nextNew: nat)

  datatype Ranges = Ranges(birth: seq<nat>, death: seq<nat>) {
    ghost predicate Valid() {
      |birth| == |death| && forall id {:trigger birth[id]} :: 0 <= id < |birth| ==> birth[id] <= death[id]
    }

    predicate Disjoint(a: nat, b: nat)
      requires a < |birth| == |death| && b < |birth|
    {
      death[a] < birth[b] || death[b] < birth[a]
    }
  }

  /** Ids live at a level. */
  ghost function LiveAt(r: Ranges, l: nat): (s: set<nat>)
    requires r.Valid()
  {
    set id: nat {:trigger r.birth[id]} | id < |r.birth| && r.birth[id] <= l <= r.death[id]
  }

  /** Ids whose slot is taken when level `l` begins. */
  ghost function Carried(r: Ranges, l: nat): (s: set<nat>)
    requires r.Valid()
  {
    set id: nat {:trigger r.birth[id]} | id < |r.birth| && r.birth[id] < l <= r.death[id]
  }

  /** Ids born before level `l`. */
  ghost function Born(r: Ranges, l: nat): (s: set<nat>)
    requires r.Valid()
  {
    set id: nat {:trigger r.birth[id]} | id < |r.birth| && r.birth[id] < l
  }

  function Elems(s: seq<nat>): set<nat> {
    set x | x in s
  }

  /** Pop the free stack, or grow the pool when it is empty. */
  function Allocate(p: Pool, id: nat): Pool
    requires id < |p.slot|
  {
    if |p.free| > 0
    then Pool(p.slot[id := p.free[|p.free| - 1]], p.free[..|p.free| - 1], p.nextNew)
    else Pool(p.slot[id := p.nextNew], p.free, p.nextNew + 1)
  }

  function Reclaim(p: Pool, id: nat): Pool
    requires id < |p.slot|
  {
    p.(free := p.free + [p.slot[id]])
  }

  // ---------- invariant ----------

  ghost predicate Distinct(s: seq<nat>) {
    forall i, j :: 0 <= i < j < |s| ==> s[i] != s[j]
  }

  /** Live slots and free slots together are exactly the slots below nextNew, each once. */
  ghost predicate Partition(p: Pool, live: set<nat>) {
    && (forall id: nat :: id in live ==> id < |p.slot| && p.slot[id] < p.nextNew && p.slot[id] !in p.free)
    && (forall a: nat, b: nat :: a in live && b in live && a != b ==> p.slot[a] != p.slot[b])
    && Distinct(p.free)
    && (forall i :: 0 <= i < |p.free| ==> p.free[i] < p.nextNew)
    && |live| + |p.free| == p.nextNew
  }

  /** Ids that got the same slot have disjoint live ranges. */
  ghost predicate NoClash(r: Ranges, slot: seq<nat>, ids: set<nat>)
    requires |r.birth| == |r.death| <= |slot|
  {
    forall a: nat, b: nat ::
      a in ids && b in ids && a != b && a < |r.birth| && b < |r.birth| && slot[a] == slot[b] ==> r.Disjoint(a, b)
  }

  /** `done` have been given a slot, `live` still hold it; the others died before level `now`. */
  ghost predicate Inv(r: Ranges, p: Pool, done: set<nat>, live: set<nat>, now: nat) {
    && r.Valid() && |r.birth| <= |p.slot|
    && live <= done
    && (forall id: nat :: id in done ==> id < |r.birth| && p.slot[id] < p.nextNew)
    && (forall id: nat :: id in done && id !in live ==> r.death[id] < now)
    && Partition(p, live)
    && NoClash(r, p.slot, done)
  }

  lemma InvStart(r: Ranges, slot: seq<nat>)
    requires r.Valid() && |r.birth| <= |slot|
    ensures Inv(r, Pool(slot, [], 0), {}, {}, 0)
  {
  }

  /** The slot handed out is not in use, and whoever had it before died before this level. */
  lemma AllocateSlot(r: Ranges, p: Pool, done: set<nat>, live: set<nat>, now: nat, id: nat)
    requires Inv(r, p, done, live, now) && id < |r.birth| && id !in done
    ensures var s := Allocate(p, id).slot[id];
            && s < Allocate(p, id).nextNew && s !in Allocate(p, id).free
            && (forall c: nat :: c in live ==> c < |r.birth| && p.slot[c] != s)
            && (forall c: nat :: c in done ==> c < |r.birth| && (p.slot[c] == s ==> r.death[c] < now))
  {
    if |p.free| > 0 {
      assert p.free[|p.free| - 1] in p.free;
    }
  }

  lemma AllocatePartition(r: Ranges, p: Pool, done: set<nat>, live: set<nat>, now: nat, id: nat)
    requires Inv(r, p, done, live, now) && id < |r.birth| && id !in done
    ensures Partition(Allocate(p, id), live + {id})
  {
    AllocateSlot(r, p, done, live, now, id);
    var q := Allocate(p, id);
    assert |live + {id}| == |live| + 1;
    assert forall s :: s in q.free ==> s in p.free;
  }

  /** Allocating keeps the invariant. */
  lemma AllocateKeeps(r: Ranges, p: Pool, done: set<nat>, live: set<nat>, now: nat, id: nat)
    requires Inv(r, p, done, live, now) && id < |r.birth| && id !in done && r.birth[id] == now
    ensures Inv(r, Allocate(p, id), done + {id}, live + {id}, now)
    ensures p.nextNew <= Allocate(p, id).nextNew
    ensures Allocate(p, id).nextNew <= p.nextNew || Allocate(p, id).nextNew == |live + {id}|
  {
    AllocateSlot(r, p, done, live, now, id);
    AllocatePartition(r, p, done, live, now, id);
  }

  /** Reclaiming keeps the invariant. */
  lemma ReclaimKeeps(r: Ranges, p: Pool, done: set<nat>, live: set<nat>, now: nat, id: nat)
    requires Inv(r, p, done, live, now) && id in live && id < |r.birth| && r.death[id] < now
    ensures id < |p.slot|
    ensures Inv(r, Reclaim(p, id), done, live - {id}, now)
  {
    var q := Reclaim(p, id);
    assert |live - {id}| == |live| - 1;
    assert forall s :: s in q.free ==> s in p.free || s == p.slot[id];
    forall a: nat | a in live && a != id
      ensures a < |p.slot| && p.slot[a] !in q.free
    {
      assert p.slot[a] != p.slot[id];
    }
  }

  lemma InvLater(r: Ranges, p: Pool, done: set<nat>, live: set<nat>, now: nat, later: nat)
    requires Inv(r, p, done, live, now) && now <= later
    ensures Inv(r, p, done, live, later)
  {
  }

  // ---------- level boundaries ----------

  ghost predicate IsBucket(key: seq<nat>, l: nat, b: seq<nat>) {
    forall id: nat :: id in b <==> id < |key| && key[id] == l
  }

  lemma ElemsNext(b: seq<nat>, j: nat)
    requires j < |b| && Distinct(b)
    ensures Elems(b[..j + 1]) == Elems(b[..j]) + {b[j]} && b[j] !in Elems(b[..j])
  {
    assert b[..j + 1] == b[..j] + [b[j]];
  }

  /** After its births, a level's live ids are exactly those in use. */
  lemma BirthsDone(r: Ranges, l: nat, b: seq<nat>)
    requires r.Valid() && IsBucket(r.birth, l, b)
    ensures Born(r, l) + Elems(b) == Born(r, l + 1)
    ensures Carried(r, l) + Elems(b) == LiveAt(r, l)
  {
  }

  lemma DeathsDone(r: Ranges, l: nat, b: seq<nat>)
    requires r.Valid() && IsBucket(r.death, l, b)
    ensures LiveAt(r, l) - Elems(b) == Carried(r, l + 1)
    ensures Elems(b) <= LiveAt(r, l)
  {
    forall id | id in b
      ensures id in LiveAt(r, l)
    {
      assert r.birth[id] <= r.death[id];
    }
  }

  lemma NothingBeforeLevelZero(r: Ranges)
    requires r.Valid()
    ensures Born(r, 0) == {} && Carried(r, 0) == {}
  {
  }

  /** No more ids can be live than there are. */
  lemma LiveAtMost(r: Ranges, l: nat)
    requires r.Valid()
    ensures |LiveAt(r, l)| <= |r.birth|
  {
    RangeSize(|r.birth|);
    Subset(LiveAt(r, l), Range(|r.birth|));
  }

  function Range(n: nat): set<nat> {
    if n == 0 then {} else Range(n - 1) + {n - 1}
  }

  lemma {:induction false} RangeSize(n: nat)
    ensures |Range(n)| == n
    ensures forall x: nat :: x in Range(n) <==> x < n
  {
    if n > 0 {
      RangeSize(n - 1);
    }
  }

  lemma {:induction false} Subset(a: set<nat>, b: set<nat>)
    requires a <= b
    ensures |a| <= |b|
    decreases a
  {
    if a != {} {
      var x :| x in a;
      Subset(a - {x}, b - {x});
    }
  }

  /** `pool` slots are necessary and sufficient: the largest number of ids live at one of `levels` levels. */
  ghost predicate IsPeak(r: Ranges, levels: nat, pool: nat)
    requires r.Valid()
  {
    && (forall l {:trigger LiveAt(r, l)} :: 0 <= l < levels ==> |LiveAt(r, l)| <= pool)
    && (exists l {:trigger LiveAt(r, l)} :: 0 <= l < levels && pool == |LiveAt(r, l)|)
  }
}
