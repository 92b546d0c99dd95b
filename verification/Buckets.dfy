/** Stable counting sort of node ids by a per-node key, as both schedules use it. */
module Buckets {

  /** Ids whose key is `k`, in ascending order. */
  function Bucket(key: seq<nat>, k: nat): (b: seq<nat>)
    ensures |b| <= |key|
  {
    if |key| == 0 then []
    else
      var front := Bucket(key[..|key| - 1], k);
      if key[|key| - 1] == k then front + [|key| - 1] else front
  }

  /** Number of ids whose key is below `k`. */
  function Start(key: seq<nat>, k: nat): nat {
    if k == 0 then 0 else Start(key, k - 1) + |Bucket(key, k - 1)|
  }

  lemma {:induction false} BucketMember(key: seq<nat>, k: nat, id: nat)
    ensures id in Bucket(key, k) <==> id < |key| && key[id] == k
  {
    if |key| > 0 {
      BucketMember(key[..|key| - 1], k, id);
    }
  }

  /** A bucket lists its ids in strictly ascending order, so none twice. */
  lemma {:induction false} BucketAscends(key: seq<nat>, k: nat)
    ensures forall i, j :: 0 <= i < j < |Bucket(key, k)| ==> Bucket(key, k)[i] < Bucket(key, k)[j]
    ensures forall i :: 0 <= i < |Bucket(key, k)| ==> Bucket(key, k)[i] < |key|
  {
    if |key| > 0 {
      BucketAscends(key[..|key| - 1], k);
    }
  }

  lemma BucketNext(key: seq<nat>, n: nat, k: nat)
    requires n < |key|
    ensures Bucket(key[..n + 1], k) == if key[n] == k then Bucket(key[..n], k) + [n] else Bucket(key[..n], k)
  {
    assert key[..n + 1][..n] == key[..n];
  }

  lemma {:induction false} BucketGrows(key: seq<nat>, n: nat, k: nat)
    requires n <= |key|
    ensures |Bucket(key[..n], k)| <= |Bucket(key, k)|
    decreases |key| - n
  {
    if n == |key| {
      assert key[..n] == key;
    } else {
      BucketNext(key, n, k);
      BucketGrows(key, n + 1, k);
    }
  }

  lemma {:induction false} StartMonotone(key: seq<nat>, a: nat, b: nat)
    requires a <= b
    ensures Start(key, a) <= Start(key, b)
    decreases b
  {
    if a < b {
      StartMonotone(key, a, b - 1);
    }
  }

  /** When every key is below `n`, the buckets together hold every id. */
  lemma {:induction false} StartTotal(key: seq<nat>, n: nat)
    requires forall id {:trigger key[id]} :: 0 <= id < |key| ==> key[id] < n
    ensures Start(key, n) == |key|
    decreases |key|
  {
    if |key| == 0 {
      StartEmpty(n);
    } else {
      var last := |key| - 1;
      StartTotal(key[..last], n);
      StartStep(key, n);
    }
  }

  lemma {:induction false} StartEmpty(n: nat)
    ensures Start([], n) == 0
  {
    if n > 0 {
      StartEmpty(n - 1);
    }
  }

  lemma {:induction false} StartStep(key: seq<nat>, n: nat)
    requires |key| > 0
    ensures Start(key, n) == Start(key[..|key| - 1], n) + (if key[|key| - 1] < n then 1 else 0)
    decreases n
  {
    if n > 0 {
      StartStep(key, n - 1);
    }
  }

  /** start[k] is where bucket k begins in `order`; `order` is the concatenation of the buckets. */
  ghost predicate Sorted(key: seq<nat>, n: nat, start: seq<nat>, order: seq<nat>) {
    && |start| == n + 1 && |order| == |key|
    && (forall k {:trigger start[k]} :: 0 <= k <= n ==> start[k] == Start(key, k) && start[k] <= |order|)
    && (forall k {:trigger Bucket(key, k)} :: 0 <= k < n ==>
         start[k] <= start[k + 1] <= |order| && order[start[k]..start[k + 1]] == Bucket(key, k))
  }

  method CountKeys(key: array<nat>, n: nat) returns (start: array<nat>)
    requires forall id {:trigger key[id]} :: 0 <= id < key.Length ==> key[id] < n
    ensures fresh(start) && start.Length == n + 1
    ensures forall k {:trigger start[k]} :: 0 <= k <= n ==> start[k] == Start(key[..], k)
  {
    start := new nat[n + 1](_ => 0);
    for id := 0 to key.Length
      invariant start[0] == 0
      invariant forall k {:trigger start[k]} :: 1 <= k <= n ==> start[k] == |Bucket(key[..id], k - 1)|
    {
      assert key[..][..id + 1] == key[..id + 1] && key[..][..id] == key[..id];
      forall k: nat
        ensures Bucket(key[..id + 1], k) == if key[id] == k then Bucket(key[..id], k) + [id] else Bucket(key[..id], k)
      {
        BucketNext(key[..], id, k);
      }
      start[key[id] + 1] := start[key[id] + 1] + 1;
    }
    assert key[..key.Length] == key[..];
    for i := 0 to n
      invariant forall k {:trigger start[k]} :: 0 <= k <= i ==> start[k] == Start(key[..], k)
      invariant forall k {:trigger start[k]} :: i < k <= n ==> start[k] == |Bucket(key[..], k - 1)|
    {
      start[i + 1] := start[i + 1] + start[i];
    }
  }

  method CountingSort(key: array<nat>, n: nat) returns (start: array<nat>, order: array<nat>)
    requires forall id {:trigger key[id]} :: 0 <= id < key.Length ==> key[id] < n
    ensures fresh(start) && fresh(order)
    ensures Sorted(key[..], n, start[..], order[..])
  {
    hide Progress;
    hide Sorted;
    start := CountKeys(key, n);
    ghost var ks, st := key[..], start[..];
    StartTotal(ks, n);
    var cur := new nat[n];
    for i := 0 to n
      invariant start[..] == st
      invariant forall k {:trigger cur[k]} :: 0 <= k < i ==> cur[k] == Start(ks, k)
    {
      assert start[i] == st[i];
      cur[i] := start[i];
    }
    order := new nat[key.Length];
    ProgressBegin(ks, n, cur[..], order[..]);
    for id := 0 to key.Length
      invariant start[..] == st
      invariant Progress(ks, n, cur[..], order[..], id)
    {
      ghost var cur0, order0 := cur[..], order[..];
      ProgressStep(ks, n, cur0, order0, id);
      order[cur[key[id]]] := id;
      cur[key[id]] := cur[key[id]] + 1;
      assert order[..] == order0[cur0[ks[id]] := id];
      assert cur[..] == cur0[ks[id] := cur0[ks[id]] + 1];
    }
    ProgressShape(ks, n, cur[..], order[..]);
    ProgressEnd(ks, n, cur[..], order[..], start[..]);
  }

  /** The part of bucket `k` placed so far sits at its start. */
  ghost predicate Placed(key: seq<nat>, k: nat, order: seq<nat>, part: seq<nat>) {
    Start(key, k) + |part| <= |order| && order[Start(key, k)..Start(key, k) + |part|] == part
  }

  /** The cursor `at` points behind the placed part of bucket `k`. */
  ghost predicate Behind(key: seq<nat>, k: nat, order: seq<nat>, part: seq<nat>, at: nat) {
    at == Start(key, k) + |part| && Placed(key, k, order, part)
  }

  /** Ids below `id` are placed, and every cursor points behind its bucket's placed part. */
  ghost predicate Progress(key: seq<nat>, n: nat, cur: seq<nat>, order: seq<nat>, id: nat) {
    && |cur| == n && |order| == |key| && id <= |key|
    && forall k {:trigger cur[k]} :: 0 <= k < n ==> Behind(key, k, order, Bucket(key[..id], k), cur[k])
  }

  lemma ProgressBegin(key: seq<nat>, n: nat, cur: seq<nat>, order: seq<nat>)
    requires |cur| == n && |order| == |key| == Start(key, n)
    requires forall k {:trigger cur[k]} :: 0 <= k < n ==> cur[k] == Start(key, k)
    ensures Progress(key, n, cur, order, 0)
  {
    forall k | 0 <= k < n
      ensures Placed(key, k, order, Bucket(key[..0], k)) && Bucket(key[..0], k) == []
    {
      StartMonotone(key, k, n);
    }
  }

  lemma ProgressAt(key: seq<nat>, n: nat, cur: seq<nat>, order: seq<nat>, id: nat, k: nat)
    requires Progress(key, n, cur, order, id) && k < n
    ensures cur[k] == Start(key, k) + |Bucket(key[..id], k)| && Placed(key, k, order, Bucket(key[..id], k))
  {
  }

  lemma ProgressShape(key: seq<nat>, n: nat, cur: seq<nat>, order: seq<nat>)
    requires Progress(key, n, cur, order, |key|)
    ensures |cur| == n && |order| == |key|
  {
  }

  /** Placing `id` moves its own bucket on by one and leaves bucket `k` otherwise alone. */
  lemma PlaceInBucket(key: seq<nat>, n: nat, cur: seq<nat>, order: seq<nat>, id: nat, k: nat)
    requires Progress(key, n, cur, order, id) && id < |key| && key[id] < n && k < n
    requires cur[key[id]] < |order|
    ensures Placed(key, k, order[cur[key[id]] := id], Bucket(key[..id + 1], k))
    ensures |Bucket(key[..id + 1], k)| == |Bucket(key[..id], k)| + (if k == key[id] then 1 else 0)
  {
    var c := key[id];
    ProgressAt(key, n, cur, order, id, k);
    ProgressAt(key, n, cur, order, id, c);
    BucketNext(key, id, k);
    BucketGrows(key, id, k);
    BucketNext(key, id, c);
    BucketGrows(key, id + 1, c);
    if k < c {
      StartMonotone(key, k + 1, c);
    } else if k > c {
      StartMonotone(key, c + 1, k);
    }
    PlaceOne(key, k, order, Bucket(key[..id], k), cur[c], id, k == c);
  }

  lemma ProgressStep(key: seq<nat>, n: nat, cur: seq<nat>, order: seq<nat>, id: nat)
    requires Progress(key, n, cur, order, id) && id < |key| && key[id] < n && Start(key, n) == |key|
    ensures |cur| == n && |order| == |key| && cur[key[id]] < |order|
    ensures Progress(key, n, cur[key[id] := cur[key[id]] + 1], order[cur[key[id]] := id], id + 1)
  {
    var c := key[id];
    ProgressAt(key, n, cur, order, id, c);
    BucketNext(key, id, c);
    BucketGrows(key, id + 1, c);
    StartMonotone(key, c + 1, n);
    assert cur[c] < Start(key, c + 1) <= |order|;
    var cur', order' := cur[c := cur[c] + 1], order[cur[c] := id];
    forall k {:trigger cur'[k]} | 0 <= k < n
      ensures Behind(key, k, order', Bucket(key[..id + 1], k), cur'[k])
    {
      ProgressAt(key, n, cur, order, id, k);
      PlaceInBucket(key, n, cur, order, id, k);
    }
    assert Progress(key, n, cur', order', id + 1);
  }

  lemma ProgressEnd(key: seq<nat>, n: nat, cur: seq<nat>, order: seq<nat>, start: seq<nat>)
    requires Progress(key, n, cur, order, |key|) && |start| == n + 1 && Start(key, n) == |key|
    requires forall k {:trigger start[k]} :: 0 <= k <= n ==> start[k] == Start(key, k)
    ensures Sorted(key, n, start, order)
  {
    assert key[..|key|] == key;
    forall k | 0 <= k <= n
      ensures start[k] <= |order|
    {
      StartMonotone(key, k, n);
    }
    forall k {:trigger Bucket(key, k)} | 0 <= k < n
      ensures start[k] <= start[k + 1] <= |order| && order[start[k]..start[k + 1]] == Bucket(key, k)
    {
      ProgressAt(key, n, cur, order, |key|, k);
      StartMonotone(key, k + 1, n);
      assert start[k + 1] == Start(key, k + 1);
    }
  }

  lemma PlaceOne(key: seq<nat>, k: nat, order: seq<nat>, part: seq<nat>, at: nat, id: nat, here: bool)
    requires Placed(key, k, order, part) && at < |order|
    requires if here then at == Start(key, k) + |part| else at < Start(key, k) || at >= Start(key, k) + |part|
    ensures Placed(key, k, order[at := id], if here then part + [id] else part)
  {
    var s := Start(key, k);
    var order' := order[at := id];
    assert order'[s..s + |part|] == order[s..s + |part|];
    if here {
      assert order'[s..s + |part| + 1] == order'[s..s + |part|] + [id];
    }
  }

  // ---------- what the concatenated buckets are good for ----------

  /** Every id once, keys never decreasing. */
  ghost predicate Schedule(key: seq<nat>, order: seq<nat>) {
    && |order| == |key|
    && (forall i {:trigger order[i]} :: 0 <= i < |order| ==> order[i] < |key|)
    && (forall i, j {:trigger order[i], order[j]} :: 0 <= i < j < |order| ==>
      key[order[i]] <= key[order[j]] && order[i] != order[j])
    && (forall id: nat {:trigger key[id]} :: id < |key| ==> id in order)
  }

  /** The bucket position `i` falls into. */
  lemma {:induction false} BucketOf(key: seq<nat>, i: nat, hi: nat) returns (k: nat)
    requires i < Start(key, hi)
    ensures k < hi && Start(key, k) <= i < Start(key, k + 1)
    decreases hi
  {
    k := hi - 1;
    if i < Start(key, hi - 1) {
      k := BucketOf(key, i, hi - 1);
    }
  }

  lemma SortedAt(key: seq<nat>, n: nat, start: seq<nat>, order: seq<nat>, k: nat)
    requires Sorted(key, n, start, order) && k < n
    ensures Start(key, k + 1) == Start(key, k) + |Bucket(key, k)| && Start(key, k + 1) <= |order|
    ensures order[Start(key, k)..Start(key, k + 1)] == Bucket(key, k)
  {
    assert start[k] == Start(key, k) && start[k + 1] == Start(key, k + 1);
  }

  lemma SortedSize(key: seq<nat>, n: nat, start: seq<nat>, order: seq<nat>, i: nat) returns (k: nat)
    requires Sorted(key, n, start, order) && Start(key, n) == |key| && i < |order|
    ensures k < n && Start(key, k) <= i < Start(key, k + 1)
  {
    assert |order| == |key|;
    k := BucketOf(key, i, n);
  }

  lemma SliceAt(s: seq<nat>, lo: nat, part: seq<nat>, i: nat)
    requires lo + |part| <= |s| && s[lo..lo + |part|] == part && lo <= i < lo + |part|
    ensures s[i] == part[i - lo] && s[i] in part
  {
    assert s[lo..lo + |part|][i - lo] == s[i];
  }

  lemma PositionInBucket(key: seq<nat>, n: nat, start: seq<nat>, order: seq<nat>, i: nat) returns (k: nat)
    requires Sorted(key, n, start, order) && Start(key, n) == |key| && i < |order|
    ensures k < n && Start(key, k) <= i < Start(key, k + 1) <= |order| && i - Start(key, k) < |Bucket(key, k)|
    ensures order[i] == Bucket(key, k)[i - Start(key, k)] && order[i] < |key| && key[order[i]] == k
  {
    hide Sorted;
    hide Start;
    hide Bucket;
    k := SortedSize(key, n, start, order, i);
    SortedAt(key, n, start, order, k);
    SliceAt(order, Start(key, k), Bucket(key, k), i);
    BucketMember(key, k, order[i]);
  }

  lemma TwoPositions(key: seq<nat>, n: nat, start: seq<nat>, order: seq<nat>, i: nat, j: nat)
    requires Sorted(key, n, start, order) && Start(key, n) == |key| && i < j < |order|
    ensures order[i] < |key| && order[j] < |key| && key[order[i]] <= key[order[j]] && order[i] != order[j]
  {
    var k := PositionInBucket(key, n, start, order, i);
    var l := PositionInBucket(key, n, start, order, j);
    if l < k {
      StartMonotone(key, l + 1, k);
    }
    BucketAscends(key, k);
  }

  lemma IdInOrder(key: seq<nat>, n: nat, start: seq<nat>, order: seq<nat>, id: nat)
    requires Sorted(key, n, start, order) && id < |key| && key[id] < n
    ensures id in order
  {
    var k := key[id];
    BucketMember(key, k, id);
    var b := Bucket(key, k);
    assert order[start[k]..start[k + 1]] == b;
    var i :| 0 <= i < |b| && b[i] == id;
    assert order[start[k] + i] == id;
  }

  /** The counting-sorted order runs through all ids by ascending key. */
  lemma SortedSchedule(key: seq<nat>, n: nat, start: seq<nat>, order: seq<nat>)
    requires Sorted(key, n, start, order) && forall id {:trigger key[id]} :: 0 <= id < |key| ==> key[id] < n
    ensures Schedule(key, order)
  {
    StartTotal(key, n);
    forall i | 0 <= i < |order|
      ensures order[i] < |key|
    {
      var k := PositionInBucket(key, n, start, order, i);
    }
    forall i, j | 0 <= i < j < |order|
      ensures key[order[i]] <= key[order[j]] && order[i] != order[j]
    {
      TwoPositions(key, n, start, order, i, j);
    }
    forall id: nat | id < |key|
      ensures id in order
    {
      IdInOrder(key, n, start, order, id);
    }
  }
}
