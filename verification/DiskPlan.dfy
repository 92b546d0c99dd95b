/** The schedule of a multi-disk wipe: which GPU writes which part of which disk. */
module DiskPlan {
  import Bits
  import opened Offsets
  import Labelling
  import Chunk
  import GpuRun
  import opened DiskWrites
  import opened DiskWipe
  import NodeHashing

  /** Occurrences of disk `d`. */
  function Occurrences(ds: seq<nat>, d: nat): nat {
    if |ds| == 0 then 0 else Occurrences(ds[..|ds| - 1], d) + (if ds[|ds| - 1] == d then 1 else 0)
  }

  // ---------- sub-ranges of a disk ----------

  /** Super-chunks of GPU j when `n` are split over K GPUs: as even as possible, longer shares first. */
  function Share(n: nat, K: nat, j: nat): nat
    requires K >= 1
  {
    n / K + (if j < n % K then 1 else 0)
  }

  function ShareStart(n: nat, K: nat, j: nat): nat
    requires K >= 1
  {
    if j == 0 then 0 else ShareStart(n, K, j - 1) + Share(n, K, j - 1)
  }

  lemma {:induction false} ShareStartClosed(n: nat, K: nat, j: nat)
    requires K >= 1
    ensures ShareStart(n, K, j) == Offset(j, n / K) + Bits.Min(j, n % K)
  {
    if j == 0 {
      OffsetNext(0, n / K);
    } else {
      ShareStartClosed(n, K, j - 1);
      OffsetNext(j - 1, n / K);
    }
  }

  /** The shares make up the whole disk. */
  lemma SharesComplete(n: nat, K: nat)
    requires K >= 1
    ensures ShareStart(n, K, K) == n
  {
    ShareStartClosed(n, K, K);
    assert n == n / K * K + n % K;
  }

  /** GPU j's part of a disk of `n` super-chunks. */
  function SubRange(disk: nat, n: nat, K: nat, j: nat, cb: nat): WorkItem
    requires K >= 1
  {
    WorkItem(disk, Offset(ShareStart(n, K, j), cb), Offset(Share(n, K, j), cb))
  }

  /** What GPU j of a team gets of the team's disks; empty parts are dropped. */
  function ItemsOf(ds: seq<nat>, wipe: seq<nat>, K: nat, j: nat, cb: nat): seq<WorkItem>
    requires K >= 1 && cb >= 1 && forall i :: 0 <= i < |ds| ==> ds[i] < |wipe|
  {
    if |ds| == 0 then []
    else
      var d := ds[|ds| - 1];
      var item := SubRange(d, wipe[d] / cb, K, j, cb);
      ItemsOf(ds[..|ds| - 1], wipe, K, j, cb) + (if item.len != 0 then [item] else [])
  }

  predicate Known(ds: seq<nat>, wipe: seq<nat>) {
    forall i :: 0 <= i < |ds| ==> ds[i] < |wipe|
  }

  lemma CountItemsAppend(items: seq<WorkItem>, item: WorkItem, d: nat, b: nat)
    ensures CountItems(items + [item], d, b) == CountItems(items, d, b) + (if item.Covers(d, b) then 1 else 0)
  {
    assert (items + [item])[..|items|] == items;
  }

  /** A team GPU covers a block once for every time its team has the disk, if the block is in its part. */
  lemma {:induction false} ItemsCount(ds: seq<nat>, wipe: seq<nat>, K: nat, j: nat, cb: nat, d: nat, b: nat)
    requires K >= 1 && cb >= 1 && Known(ds, wipe) && d < |wipe|
    ensures CountItems(ItemsOf(ds, wipe, K, j, cb), d, b)
         == if SubRange(d, wipe[d] / cb, K, j, cb).Covers(d, b) then Occurrences(ds, d) else 0
    decreases |ds|
  {
    hide Offset;
    hide ShareStart;
    hide Share;
    if |ds| > 0 {
      var n := |ds| - 1;
      ItemsCount(ds[..n], wipe, K, j, cb, d, b);
      var e := ds[n];
      var item := SubRange(e, wipe[e] / cb, K, j, cb);
      var front := ItemsOf(ds[..n], wipe, K, j, cb);
      if item.len != 0 {
        CountItemsAppend(front, item, d, b);
      } else {
        assert front + [] == front;
      }
    }
  }

  /** Disks the schedule does not know are never touched. */
  lemma {:induction false} ItemsKnown(ds: seq<nat>, wipe: seq<nat>, K: nat, j: nat, cb: nat, d: nat, b: nat)
    requires K >= 1 && cb >= 1 && Known(ds, wipe) && d >= |wipe|
    ensures CountItems(ItemsOf(ds, wipe, K, j, cb), d, b) == 0
    decreases |ds|
  {
    hide Offset;
    hide ShareStart;
    hide Share;
    if |ds| > 0 {
      var n := |ds| - 1;
      ItemsKnown(ds[..n], wipe, K, j, cb, d, b);
      var e := ds[n];
      var item := SubRange(e, wipe[e] / cb, K, j, cb);
      var front := ItemsOf(ds[..n], wipe, K, j, cb);
      if item.len != 0 {
        CountItemsAppend(front, item, d, b);
      } else {
        assert front + [] == front;
      }
    }
  }

  lemma {:induction false} ItemsAligned(ds: seq<nat>, wipe: seq<nat>, K: nat, j: nat, cb: nat)
    requires K >= 1 && cb >= 1 && Known(ds, wipe)
    ensures Aligned(ItemsOf(ds, wipe, K, j, cb), cb)
    decreases |ds|
  {
    hide ShareStart;
    hide Share;
    hide Offset;
    if |ds| > 0 {
      var d := ds[|ds| - 1];
      var n := wipe[d] / cb;
      ItemsAligned(ds[..|ds| - 1], wipe, K, j, cb);
      OffsetDivides(ShareStart(n, K, j), cb, 0);
      OffsetDivides(Share(n, K, j), cb, 0);
    }
  }

  /** Block count of a disk that is wiped; unknown disks have none. */
  function WipeLen(wipe: seq<nat>, d: nat): nat {
    if d < |wipe| then wipe[d] else 0
  }

  /** Blocks covered by the first k GPUs of a team. */
  function TeamCount(ds: seq<nat>, wipe: seq<nat>, K: nat, k: nat, cb: nat, d: nat, b: nat): nat
    requires K >= 1 && cb >= 1 && Known(ds, wipe)
  {
    if k == 0 then 0 else TeamCount(ds, wipe, K, k - 1, cb, d, b) + CountItems(ItemsOf(ds, wipe, K, k - 1, cb), d, b)
  }

  lemma {:induction false} TeamPrefix(ds: seq<nat>, wipe: seq<nat>, K: nat, k: nat, cb: nat, d: nat, b: nat)
    requires K >= 1 && cb >= 1 && Known(ds, wipe) && d < |wipe|
    ensures TeamCount(ds, wipe, K, k, cb, d, b) == if b < Offset(ShareStart(wipe[d] / cb, K, k), cb)
              then Occurrences(ds, d) else 0
    decreases k
  {
    hide Offset;
    hide Share;
    hide CountItems;
    hide ItemsOf;
    hide Occurrences;
    var n := wipe[d] / cb;
    if k == 0 {
      OffsetNext(0, cb);
    } else {
      TeamPrefix(ds, wipe, K, k - 1, cb, d, b);
      ItemsCount(ds, wipe, K, k - 1, cb, d, b);
      OffsetSum(ShareStart(n, K, k - 1), Share(n, K, k - 1), cb);
    }
  }

  lemma {:induction false} TeamUnknown(ds: seq<nat>, wipe: seq<nat>, K: nat, k: nat, cb: nat, d: nat, b: nat)
    requires K >= 1 && cb >= 1 && Known(ds, wipe) && d >= |wipe|
    ensures TeamCount(ds, wipe, K, k, cb, d, b) == 0
    decreases k
  {
    if k > 0 {
      TeamUnknown(ds, wipe, K, k - 1, cb, d, b);
      ItemsKnown(ds, wipe, K, k - 1, cb, d, b);
    }
  }

  /** A team covers each of its disks' wiped blocks exactly once. */
  lemma TeamCovers(ds: seq<nat>, wipe: seq<nat>, K: nat, cb: nat, d: nat, b: nat)
    requires K >= 1 && cb >= 1 && Known(ds, wipe) && WipeLen(wipe, d) % cb == 0
    ensures TeamCount(ds, wipe, K, K, cb, d, b) == if b < WipeLen(wipe, d) then Occurrences(ds, d) else 0
  {
    if d < |wipe| {
      TeamPrefix(ds, wipe, K, K, cb, d, b);
      SharesComplete(wipe[d] / cb, K);
      AlignedItem(WorkItem(d, 0, wipe[d]), cb);
      FloorIs(wipe[d], cb);
    } else {
      TeamUnknown(ds, wipe, K, K, cb, d, b);
    }
  }

  /** Give every GPU its sub-range of one more disk. */
  method SplitDisk(d: nat, n: nat, K: nat, cb: nat, perGpu0: seq<seq<WorkItem>>) returns (perGpu: seq<seq<WorkItem>>)
    requires K >= 1 && cb >= 1 && |perGpu0| == K
    ensures |perGpu| == K
    ensures forall j: nat {:trigger perGpu[j]} :: j < K ==>
              perGpu[j] == WithItem(perGpu0[j], SubRange(d, n, K, j, cb))
  {
    hide Offset;
    hide ShareStart;
    perGpu := perGpu0;
    var base, extra := n / K, n % K;
    var off := 0;
    ShareSteps(n, K, cb, 0);
    for j := 0 to K
      invariant |perGpu| == K && off == Offset(ShareStart(n, K, j), cb)
      invariant forall k: nat {:trigger perGpu[k]} :: k < j ==>
                perGpu[k] == WithItem(perGpu0[k], SubRange(d, n, K, k, cb))
      invariant forall k: nat {:trigger perGpu[k]} :: j <= k < K ==> perGpu[k] == perGpu0[k]
    {
      var ns := base + (if j < extra then 1 else 0);
      var len := Offset(ns, cb);
      ShareSteps(n, K, cb, j);
      if len != 0 {
        perGpu := perGpu[j := perGpu[j] + [WorkItem(d, off, len)]];
      }
      off := off + len;
    }
  }

  function WithItem(items: seq<WorkItem>, item: WorkItem): seq<WorkItem> {
    if item.len != 0 then items + [item] else items
  }

  lemma ShareSteps(n: nat, K: nat, cb: nat, j: nat)
    requires K >= 1
    ensures Offset(ShareStart(n, K, 0), cb) == 0
    ensures Offset(ShareStart(n, K, j + 1), cb) == Offset(ShareStart(n, K, j), cb) + Offset(Share(n, K, j), cb)
  {
    hide Share;
    OffsetNext(0, cb);
    OffsetSum(ShareStart(n, K, j), Share(n, K, j), cb);
  }

  lemma ItemsNext(ds: seq<nat>, wipe: seq<nat>, K: nat, j: nat, cb: nat, i: nat)
    requires K >= 1 && cb >= 1 && Known(ds, wipe) && i < |ds|
    ensures ItemsOf(ds[..i + 1], wipe, K, j, cb)
         == WithItem(ItemsOf(ds[..i], wipe, K, j, cb), SubRange(ds[i], wipe[ds[i]] / cb, K, j, cb))
  {
    assert ds[..i + 1][..i] == ds[..i];
    var front := ItemsOf(ds[..i], wipe, K, j, cb);
    assert front + [] == front;
  }

  /** Sub-ranges of all the team's disks, one list per GPU. */
  method PlanTeam(ds: seq<nat>, wipe: seq<nat>, K: nat, cb: nat) returns (perGpu: seq<seq<WorkItem>>)
    requires K >= 1 && cb >= 1 && Known(ds, wipe)
    ensures |perGpu| == K
    ensures forall j: nat {:trigger perGpu[j]} :: j < K ==> perGpu[j] == ItemsOf(ds, wipe, K, j, cb)
  {
    hide ItemsOf;
    hide SubRange;
    hide WithItem;
    perGpu := seq(K, _ => []);
    NoItems(wipe, K, cb);
    assert ds[..0] == [];
    for i := 0 to |ds|
      invariant |perGpu| == K
      invariant forall j: nat {:trigger perGpu[j]} :: j < K ==> perGpu[j] == ItemsOf(ds[..i], wipe, K, j, cb)
    {
      var before := perGpu;
      perGpu := SplitDisk(ds[i], wipe[ds[i]] / cb, K, cb, before);
      forall j: nat | j < K
        ensures perGpu[j] == ItemsOf(ds[..i + 1], wipe, K, j, cb)
      {
        ItemsNext(ds, wipe, K, j, cb, i);
        assert before[j] == ItemsOf(ds[..i], wipe, K, j, cb);
      }
    }
    assert ds[..|ds|] == ds;
  }

  lemma NoItems(wipe: seq<nat>, K: nat, cb: nat)
    requires K >= 1 && cb >= 1
    ensures forall j: nat {:trigger ItemsOf([], wipe, K, j, cb)} :: ItemsOf([], wipe, K, j, cb) == []
  {
  }

  // ---------- teams ----------

  /** Disks dealt to team `t`, round-robin. */
  function Dealt(order: seq<nat>, T: nat, t: nat): seq<nat>
    requires T >= 1
  {
    if |order| == 0 then []
    else
      var k := |order| - 1;
      Dealt(order[..k], T, t) + (if k % T == t then [order[k]] else [])
  }

  method DealDisks(order: seq<nat>, T: nat) returns (teams: seq<seq<nat>>)
    requires T >= 1
    ensures |teams| == T && forall t: nat {:trigger teams[t]} :: t < T ==> teams[t] == Dealt(order, T, t)
  {
    teams := seq(T, _ => []);
    for k := 0 to |order|
      invariant |teams| == T && forall t: nat {:trigger teams[t]} :: t < T ==> teams[t] == Dealt(order[..k], T, t)
    {
      assert order[..k + 1][..k] == order[..k];
      teams := teams[k % T := teams[k % T] + [order[k]]];
    }
    assert order[..|order|] == order;
  }

  lemma OccurrencesAppend(ds: seq<nat>, e: nat, d: nat)
    ensures Occurrences(ds + [e], d) == Occurrences(ds, d) + (if e == d then 1 else 0)
  {
    assert (ds + [e])[..|ds|] == ds;
  }

  function DealtBelow(order: seq<nat>, T: nat, n: nat, d: nat): nat
    requires T >= 1
  {
    if n == 0 then 0 else DealtBelow(order, T, n - 1, d) + Occurrences(Dealt(order, T, n - 1), d)
  }

  lemma {:induction false} DealtStep(order: seq<nat>, T: nat, n: nat, d: nat)
    requires T >= 1 && |order| > 0
    ensures var k := |order| - 1;
            DealtBelow(order, T, n, d)
              == DealtBelow(order[..k], T, n, d) + (if k % T < n && order[k] == d then 1 else 0)
    decreases n
  {
    if n > 0 {
      var k := |order| - 1;
      DealtStep(order, T, n - 1, d);
      var front := Dealt(order[..k], T, n - 1);
      if k % T == n - 1 {
        OccurrencesAppend(front, order[k], d);
      } else {
        assert front + [] == front;
      }
    }
  }

  lemma {:induction false} DealtNone(T: nat, n: nat, d: nat)
    requires T >= 1
    ensures DealtBelow([], T, n, d) == 0
  {
    if n > 0 {
      DealtNone(T, n - 1, d);
    }
  }

  /** Every disk goes to exactly one team. */
  lemma {:induction false} DealtOnce(order: seq<nat>, T: nat, d: nat)
    requires T >= 1
    ensures DealtBelow(order, T, T, d) == Occurrences(order, d)
    decreases |order|
  {
    if |order| == 0 {
      DealtNone(T, T, d);
    } else {
      DealtStep(order, T, T, d);
      DealtOnce(order[..|order| - 1], T, d);
    }
  }

  // ---------- largest first ----------

  predicate LargestFirst(order: seq<nat>, wipe: seq<nat>) {
    && Known(order, wipe)
    && forall i, j :: 0 <= i < j < |order| ==> wipe[order[i]] >= wipe[order[j]]
  }

  method InsertDisk(order: seq<nat>, wipe: seq<nat>, e: nat) returns (r: seq<nat>)
    requires LargestFirst(order, wipe) && e < |wipe|
    ensures LargestFirst(r, wipe)
    ensures forall d: nat {:trigger Occurrences(r, d)} ::
              Occurrences(r, d) == Occurrences(order, d) + (if d == e then 1 else 0)
  {
    hide Occurrences;
    var i := |order|;
    while i > 0 && wipe[order[i - 1]] < wipe[e]
      invariant 0 <= i <= |order|
      invariant forall k :: i <= k < |order| ==> wipe[order[k]] < wipe[e]
    {
      i := i - 1;
    }
    r := order[..i] + [e] + order[i..];
    InsertOrdered(order, wipe, e, i);
    forall d: nat
      ensures Occurrences(r, d) == Occurrences(order, d) + (if d == e then 1 else 0)
    {
      InsertCount(order, e, i, d);
    }
  }

  lemma InsertOrdered(order: seq<nat>, wipe: seq<nat>, e: nat, i: nat)
    requires LargestFirst(order, wipe) && e < |wipe| && i <= |order|
    requires forall k :: i <= k < |order| ==> wipe[order[k]] < wipe[e]
    requires i > 0 ==> wipe[order[i - 1]] >= wipe[e]
    ensures LargestFirst(order[..i] + [e] + order[i..], wipe)
  {
    var r := order[..i] + [e] + order[i..];
    forall k | 0 <= k < |r|
      ensures r[k] == if k < i then order[k] else if k == i then e else order[k - 1]
    {
    }
  }

  lemma InsertCount(order: seq<nat>, e: nat, i: nat, d: nat)
    requires i <= |order|
    ensures Occurrences(order[..i] + [e] + order[i..], d) == Occurrences(order, d) + (if d == e then 1 else 0)
  {
    OccurrencesConcat(order[..i] + [e], order[i..], d);
    OccurrencesAppend(order[..i], e, d);
    OccurrencesConcat(order[..i], order[i..], d);
    assert order[..i] + order[i..] == order;
  }

  lemma {:induction false} OccurrencesConcat(a: seq<nat>, c: seq<nat>, d: nat)
    ensures Occurrences(a + c, d) == Occurrences(a, d) + Occurrences(c, d)
    decreases |c|
  {
    if |c| == 0 {
      assert a + c == a;
    } else {
      OccurrencesConcat(a, c[..|c| - 1], d);
      assert (a + c)[..|a| + |c| - 1] == a + c[..|c| - 1];
    }
  }

  method SortDisks(wipe: seq<nat>) returns (order: seq<nat>)
    ensures LargestFirst(order, wipe)
    ensures forall d: nat {:trigger Occurrences(order, d)} :: Occurrences(order, d) == if d < |wipe| then 1 else 0
  {
    order := [];
    for e := 0 to |wipe|
      invariant LargestFirst(order, wipe)
      invariant forall d: nat {:trigger Occurrences(order, d)} :: Occurrences(order, d) == if d < e then 1 else 0
    {
      order := InsertDisk(order, wipe, e);
    }
  }

  // ---------- the whole run ----------

  /** GPUs per disk: at least one, at most all. */
  function GpusPerDisk(requested: int, gpus: nat): (K: nat)
    requires gpus >= 1
    ensures 1 <= K <= gpus
    ensures K == requested || (requested < 1 && K == 1) || (requested > gpus && K == gpus)
  {
    if requested < 1 then 1 else if requested > gpus then gpus else requested
  }

  /** What one GPU's memory and settings allow, and how it labels. */
  datatype Tuning = Tuning(window: nat, stage: nat, batch: nat, strategy: GpuRun.Strategy) {
    predicate Usable() {
      batch >= 1 && strategy.Width() >= 1
    }
  }

  /** The blocks covered by the first `t` teams. */
  function PlanCount(teams: seq<seq<nat>>, wipe: seq<nat>, K: nat, t: nat, cb: nat, d: nat, b: nat): nat
    requires K >= 1 && cb >= 1 && t <= |teams| && forall i :: 0 <= i < |teams| ==> Known(teams[i], wipe)
  {
    if t == 0 then 0 else PlanCount(teams, wipe, K, t - 1, cb, d, b) + TeamCount(teams[t - 1], wipe, K, K, cb, d, b)
  }

  lemma {:induction false} DealtKnown(order: seq<nat>, T: nat, t: nat, wipe: seq<nat>)
    requires T >= 1 && Known(order, wipe)
    ensures Known(Dealt(order, T, t), wipe)
    decreases |order|
  {
    if |order| > 0 {
      DealtKnown(order[..|order| - 1], T, t, wipe);
    }
  }

  lemma {:induction false} PlanPrefix(order: seq<nat>, teams: seq<seq<nat>>, wipe: seq<nat>, K: nat, t: nat, cb: nat,
                                      d: nat, b: nat)
    requires K >= 1 && cb >= 1 && t <= |teams| && (forall i :: 0 <= i < |teams| ==> Known(teams[i], wipe))
    requires |teams| >= 1 && forall i: nat {:trigger teams[i]} :: i < |teams| ==> teams[i] == Dealt(order, |teams|, i)
    requires WipeLen(wipe, d) % cb == 0
    ensures PlanCount(teams, wipe, K, t, cb, d, b) == if b < WipeLen(wipe, d) then DealtBelow(order, |teams|, t, d)
              else 0
    decreases t
  {
    hide TeamCount;
    hide Dealt;
    hide Occurrences;
    if t > 0 {
      PlanPrefix(order, teams, wipe, K, t - 1, cb, d, b);
      TeamCovers(teams[t - 1], wipe, K, cb, d, b);
      assert teams[t - 1] == Dealt(order, |teams|, t - 1);
    }
  }

  /** The plan covers every wiped block of every disk exactly once and nothing else. */
  lemma PlanCovers(order: seq<nat>, teams: seq<seq<nat>>, wipe: seq<nat>, K: nat, cb: nat, d: nat, b: nat)
    requires K >= 1 && cb >= 1 && (forall i :: 0 <= i < |teams| ==> Known(teams[i], wipe))
    requires |teams| >= 1 && forall i: nat {:trigger teams[i]} :: i < |teams| ==> teams[i] == Dealt(order, |teams|, i)
    requires WipeLen(wipe, d) % cb == 0 && Occurrences(order, d) == (if d < |wipe| then 1 else 0)
    ensures PlanCount(teams, wipe, K, |teams|, cb, d, b) == if b < WipeLen(wipe, d) then 1 else 0
  {
    PlanPrefix(order, teams, wipe, K, |teams|, cb, d, b);
    DealtOnce(order, |teams|, d);
  }

  ghost predicate LogsRight(p: Chunk.Primitives, sessionSeed: Labelling.Label, cb: nat, logs: seq<seq<Write>>)
    requires cb >= 1
  {
    forall i {:trigger logs[i]} :: 0 <= i < |logs| ==> AllRight(p, sessionSeed, cb, logs[i])
  }

  lemma CountAllAppend(logs: seq<seq<Write>>, log: seq<Write>, d: nat, b: nat)
    ensures CountAll(logs + [log], d, b) == CountAll(logs, d, b) + Count(log, d, b)
  {
    assert (logs + [log])[..|logs|] == logs;
  }

  /** The worker's log has what GPU j of the team owes. */
  ghost predicate Owed(log: seq<Write>, ds: seq<nat>, wipe: seq<nat>, K: nat, j: nat, cb: nat, dryRun: bool)
    requires K >= 1 && cb >= 1 && Known(ds, wipe)
  {
    forall d: nat, b: nat {:trigger Count(log, d, b)} ::
      Count(log, d, b) == if dryRun then 0 else CountItems(ItemsOf(ds, wipe, K, j, cb), d, b)
  }

  lemma WorkerOwes(log: seq<Write>, items: seq<WorkItem>, ds: seq<nat>, wipe: seq<nat>, K: nat, j: nat, cb: nat,
                   dryRun: bool)
    requires K >= 1 && cb >= 1 && Known(ds, wipe) && items == ItemsOf(ds, wipe, K, j, cb)
    requires if dryRun then log == []
             else forall d: nat, b: nat {:trigger Count(log, d, b)} :: Count(log, d, b) == CountItems(items, d, b)
    ensures Owed(log, ds, wipe, K, j, cb, dryRun)
  {
  }

  /** All workers of one team. */
  method RunTeam(p: Chunk.Primitives, sessionSeed: Labelling.Label, cb: nat, ds: seq<nat>, wipe: seq<nat>, K: nat,
                 tuning: nat -> Tuning, dryRun: bool)
    returns (logs: seq<seq<Write>>)
    requires 1 <= cb <= Chunk.MAX_M && K >= 1 && Known(ds, wipe) && forall j: nat :: tuning(j).Usable()
    ensures LogsRight(p, sessionSeed, cb, logs)
    ensures |logs| == K
    ensures forall j: nat {:trigger logs[j]} :: j < K ==> Owed(logs[j], ds, wipe, K, j, cb, dryRun)
    ensures forall d: nat, b: nat {:trigger CountAll(logs, d, b)} ::
              CountAll(logs, d, b) == if dryRun then 0 else TeamCount(ds, wipe, K, K, cb, d, b)
  {
    hide AllRight;
    hide GpuRun.DeviceTopology.Valid;
    hide ItemsOf;
    hide Known;
    hide Count;
    hide CountItems;
    hide Aligned;
    var perGpu := PlanTeam(ds, wipe, K, cb);
    logs := [];
    for j := 0 to K
      invariant LogsRight(p, sessionSeed, cb, logs) && |logs| == j
      invariant forall i: nat {:trigger logs[i]} :: i < j ==> Owed(logs[i], ds, wipe, K, i, cb, dryRun)
      invariant forall d: nat, b: nat {:trigger CountAll(logs, d, b)} ::
                CountAll(logs, d, b) == if dryRun then 0 else TeamCount(ds, wipe, K, j, cb, d, b)
    {
      var topo := GpuRun.BuildTopology(cb, NodeHashing.Blake3, tuning(j).strategy);
      ItemsAligned(ds, wipe, K, j, cb);
      var log := Worker(topo, p, sessionSeed, perGpu[j], tuning(j).window, tuning(j).stage, dryRun, tuning(j).batch);
      var more := logs + [log];
      forall d, b
        ensures CountAll(more, d, b) == if dryRun then 0 else TeamCount(ds, wipe, K, j + 1, cb, d, b)
      {
        CountAllAppend(logs, log, d, b);
        if dryRun { NoWrites(d, b); } else { assert Count(log, d, b) == CountItems(perGpu[j], d, b); }
      }
      WorkerOwes(log, perGpu[j], ds, wipe, K, j, cb, dryRun);
      logs := more;
    }
  }

  lemma NoWrites(d: nat, b: nat)
    ensures Count([], d, b) == 0
  {
  }

  // ---------- who writes what ----------

  /** GPU j's share of a disk of `n` super-chunks: n div K each, and one more for the first n mod K of them. */
  ghost predicate InShare(n: nat, K: nat, j: nat, cb: nat, b: nat)
    requires K >= 1
  {
    Offset(Offset(j, n / K) + (if j < n % K then j else n % K), cb) <= b
      < Offset(Offset(j + 1, n / K) + (if j + 1 < n % K then j + 1 else n % K), cb)
  }

  lemma ShareIs(d: nat, n: nat, K: nat, j: nat, cb: nat, b: nat)
    requires K >= 1
    ensures SubRange(d, n, K, j, cb).Covers(d, b) <==> InShare(n, K, j, cb, b)
  {
    ShareStartClosed(n, K, j);
    ShareStartClosed(n, K, j + 1);
    OffsetSum(ShareStart(n, K, j), Share(n, K, j), cb);
  }

  lemma {:induction false} OccursNot(order: seq<nat>, T: nat, t: nat, d: nat)
    requires T >= 1 && Occurrences(order, d) == 0
    ensures Occurrences(Dealt(order, T, t), d) == 0
    decreases |order|
  {
    if |order| > 0 {
      var k := |order| - 1;
      OccursNot(order[..k], T, t, d);
      if k % T == t {
        OccurrencesAppend(Dealt(order[..k], T, t), order[k], d);
      } else {
        assert Dealt(order[..k], T, t) + [] == Dealt(order[..k], T, t);
      }
    }
  }

  /** The disk at position `pos` is dealt to team pos mod T. */
  lemma {:induction false} DealtTo(order: seq<nat>, T: nat, t: nat, pos: nat)
    requires T >= 1 && pos < |order| && Occurrences(order, order[pos]) == 1
    ensures Occurrences(Dealt(order, T, t), order[pos]) == if pos % T == t then 1 else 0
    decreases |order|
  {
    var k := |order| - 1;
    var d := order[pos];
    var front := Dealt(order[..k], T, t);
    if k % T == t {
      OccurrencesAppend(front, order[k], d);
    } else {
      assert front + [] == front;
    }
    if pos == k {
      OccursNot(order[..k], T, t, d);
    } else {
      OccursIn(order[..k], pos);
      DealtTo(order[..k], T, t, pos);
    }
  }

  lemma {:induction false} OccursIn(order: seq<nat>, pos: nat)
    requires pos < |order|
    ensures Occurrences(order, order[pos]) >= 1
    decreases |order|
  {
    if pos < |order| - 1 {
      OccursIn(order[..|order| - 1], pos);
    }
  }

  /** GPU j of team t writes its share of the disks at positions t, t + T, t + 2T, ..., and nothing else. */
  lemma WorkerShare(log: seq<Write>, order: seq<nat>, wipe: seq<nat>, T: nat, t: nat, K: nat, j: nat, cb: nat,
                    dryRun: bool, pos: nat, b: nat)
    requires T >= 1 && K >= 1 && cb >= 1 && Known(order, wipe) && pos < |order|
    requires Known(Dealt(order, T, t), wipe) && Owed(log, Dealt(order, T, t), wipe, K, j, cb, dryRun)
    requires Occurrences(order, order[pos]) == 1
    ensures Count(log, order[pos], b) == if !dryRun && pos % T == t && InShare(wipe[order[pos]] / cb, K, j, cb, b)
              then 1 else 0
  {
    hide InShare;
    hide SubRange;
    hide Occurrences;
    hide Dealt;
    var d := order[pos];
    ItemsCount(Dealt(order, T, t), wipe, K, j, cb, d, b);
    ShareIs(d, wipe[d] / cb, K, j, cb, b);
    DealtTo(order, T, t, pos);
  }

  /** All logs of the first `t` teams, team by team. */
  ghost predicate TeamsOwed(logs: seq<seq<Write>>, teams: seq<seq<nat>>, wipe: seq<nat>, K: nat, t: nat, cb: nat,
                            dryRun: bool)
    requires K >= 1 && cb >= 1 && t <= |teams| && forall i :: 0 <= i < |teams| ==> Known(teams[i], wipe)
  {
    |logs| == Offset(t, K)
    && forall i: nat, j: nat {:trigger LogAt(i, K, j)} :: i < t && j < K ==>
         LogAt(i, K, j) < |logs| && Owed(logs[LogAt(i, K, j)], teams[i], wipe, K, j, cb, dryRun)
  }

  /** Position of the log of GPU `j` of team `t`. */
  function LogAt(t: nat, K: nat, j: nat): nat {
    Offset(t, K) + j
  }

  lemma NoTeams(teams: seq<seq<nat>>, wipe: seq<nat>, K: nat, cb: nat, dryRun: bool)
    requires K >= 1 && cb >= 1 && forall i :: 0 <= i < |teams| ==> Known(teams[i], wipe)
    ensures TeamsOwed([], teams, wipe, K, 0, cb, dryRun)
  {
    OffsetNext(0, K);
  }

  lemma TeamsOwedNext(logs: seq<seq<Write>>, part: seq<seq<Write>>, teams: seq<seq<nat>>, wipe: seq<nat>, K: nat,
                      t: nat, cb: nat, dryRun: bool)
    requires K >= 1 && cb >= 1 && t < |teams| && forall i :: 0 <= i < |teams| ==> Known(teams[i], wipe)
    requires TeamsOwed(logs, teams, wipe, K, t, cb, dryRun) && |part| == K
    requires forall j: nat {:trigger part[j]} :: j < K ==> Owed(part[j], teams[t], wipe, K, j, cb, dryRun)
    ensures TeamsOwed(logs + part, teams, wipe, K, t + 1, cb, dryRun)
  {
    hide Owed;
    hide Known;
    hide Offset;
    OffsetNext(t, K);
    forall i: nat, j: nat {:trigger LogAt(i, K, j)} | i < t + 1 && j < K
      ensures LogAt(i, K, j) < |logs + part|
      ensures Owed((logs + part)[LogAt(i, K, j)], teams[i], wipe, K, j, cb, dryRun)
    {
      if i == t {
        assert (logs + part)[LogAt(i, K, j)] == part[j];
      } else {
        assert (logs + part)[LogAt(i, K, j)] == logs[LogAt(i, K, j)];
      }
    }
  }

  /** Every worker's share, with the disks dealt round-robin in that order. */
  ghost predicate Shared(logs: seq<seq<Write>>, order: seq<nat>, wipe: seq<nat>, T: nat, K: nat, cb: nat, dryRun: bool)
    requires T >= 1 && K >= 1 && cb >= 1 && Known(order, wipe)
  {
    |logs| == Offset(T, K)
    && forall t: nat, j: nat, pos: nat, b: nat {:trigger LogAt(t, K, j), InShare(wipe[order[pos]] / cb, K, j, cb, b)} ::
         t < T && j < K && pos < |order| ==>
           LogAt(t, K, j) < |logs|
           && Count(logs[LogAt(t, K, j)], order[pos], b)
              == if !dryRun && pos % T == t && InShare(wipe[order[pos]] / cb, K, j, cb, b) then 1 else 0
  }

  lemma WorkersShare(logs: seq<seq<Write>>, order: seq<nat>, teams: seq<seq<nat>>, wipe: seq<nat>, T: nat, K: nat,
                     cb: nat, dryRun: bool)
    requires T >= 1 && K >= 1 && cb >= 1 && LargestFirst(order, wipe) && |teams| == T
    requires forall t: nat {:trigger teams[t]} :: t < T ==> teams[t] == Dealt(order, T, t) && Known(teams[t], wipe)
    requires forall d: nat {:trigger Occurrences(order, d)} :: Occurrences(order, d) == if d < |wipe| then 1 else 0
    requires TeamsOwed(logs, teams, wipe, K, T, cb, dryRun)
    ensures Shared(logs, order, wipe, T, K, cb, dryRun)
  {
    hide Owed;
    hide InShare;
    hide Dealt;
    hide Occurrences;
    hide Offset;
    forall t: nat, j: nat, pos: nat, b: nat | t < T && j < K && pos < |order|
      ensures LogAt(t, K, j) < |logs|
      ensures Count(logs[LogAt(t, K, j)], order[pos], b)
           == if !dryRun && pos % T == t && InShare(wipe[order[pos]] / cb, K, j, cb, b) then 1 else 0
    {
      assert teams[t] == Dealt(order, T, t);
      WorkerShare(logs[LogAt(t, K, j)], order, wipe, T, t, K, j, cb, dryRun, pos, b);
    }
  }

  /** All teams, each with its own workers; `tuning(t, j)` is whatever GPU j of team t can afford. */
  method WipeDisks(p: Chunk.Primitives, sessionSeed: Labelling.Label, cb: nat, wipe: seq<nat>, gpus: nat,
                   gpusPerDisk: int, tuning: (nat, nat) -> Tuning, dryRun: bool)
    returns (logs: seq<seq<Write>>, order: seq<nat>)
    requires 1 <= cb <= Chunk.MAX_M && gpus >= 1 && forall t: nat, j: nat :: tuning(t, j).Usable()
    requires forall d {:trigger wipe[d]} :: 0 <= d < |wipe| ==> wipe[d] % cb == 0
    ensures LogsRight(p, sessionSeed, cb, logs)
    ensures forall d: nat, b: nat {:trigger CountAll(logs, d, b)} ::
              CountAll(logs, d, b) == if !dryRun && d < |wipe| && b < wipe[d] then 1 else 0
    ensures LargestFirst(order, wipe)
    ensures forall d: nat {:trigger Occurrences(order, d)} :: Occurrences(order, d) == if d < |wipe| then 1 else 0
    ensures var K := if gpusPerDisk < 1 then 1 else if gpusPerDisk > gpus then gpus else gpusPerDisk;
            gpus / K >= 1 && Shared(logs, order, wipe, gpus / K, K, cb, dryRun)
  {
    hide AllRight;
    hide Owed;
    hide TeamsOwed;
    hide Shared;
    hide LargestFirst;
    hide Occurrences;
    hide Known;
    hide Dealt;
    var K := GpusPerDisk(gpusPerDisk, gpus);
    var T := gpus / K;
    TeamsExist(gpus, K);
    order := SortDisks(wipe);
    var teams := DealDisks(order, T);
    OrderKnown(order, wipe);
    forall t: nat | t < |teams|
      ensures Known(teams[t], wipe)
    {
      DealtKnown(order, T, t, wipe);
    }
    logs := [];
    NoTeams(teams, wipe, K, cb, dryRun);
    for t: nat := 0 to T
      invariant LogsRight(p, sessionSeed, cb, logs) && TeamsOwed(logs, teams, wipe, K, t, cb, dryRun)
      invariant forall d: nat, b: nat {:trigger CountAll(logs, d, b)} ::
                CountAll(logs, d, b) == if dryRun then 0 else PlanCount(teams, wipe, K, t, cb, d, b)
    {
      var part := RunTeam(p, sessionSeed, cb, teams[t], wipe, K, (j: nat) => tuning(t, j), dryRun);
      forall d: nat, b: nat
        ensures CountAll(logs + part, d, b) == if dryRun then 0 else PlanCount(teams, wipe, K, t + 1, cb, d, b)
      {
        CountAllConcat(logs, part, d, b);
      }
      TeamsOwedNext(logs, part, teams, wipe, K, t, cb, dryRun);
      logs := logs + part;
    }
    WorkersShare(logs, order, teams, wipe, T, K, cb, dryRun);
    forall d: nat, b: nat
      ensures CountAll(logs, d, b) == if !dryRun && b < WipeLen(wipe, d) then 1 else 0
    {
      WipeAligned(wipe, cb, d);
      PlanCovers(order, teams, wipe, K, cb, d, b);
    }
  }

  lemma TeamsExist(gpus: nat, K: nat)
    requires 1 <= K <= gpus
    ensures gpus / K >= 1
  {
  }

  lemma WipeAligned(wipe: seq<nat>, cb: nat, d: nat)
    requires cb >= 1 && forall d {:trigger wipe[d]} :: 0 <= d < |wipe| ==> wipe[d] % cb == 0
    ensures WipeLen(wipe, d) % cb == 0
  {
  }

  lemma OrderKnown(order: seq<nat>, wipe: seq<nat>)
    requires LargestFirst(order, wipe)
    ensures Known(order, wipe)
  {
  }

  lemma {:induction false} CountAllConcat(a: seq<seq<Write>>, c: seq<seq<Write>>, d: nat, b: nat)
    ensures CountAll(a + c, d, b) == CountAll(a, d, b) + CountAll(c, d, b)
    decreases |c|
  {
    if |c| == 0 {
      assert a + c == a;
    } else {
      CountAllConcat(a, c[..|c| - 1], d, b);
      assert (a + c)[..|a| + |c| - 1] == a + c[..|c| - 1];
    }
  }

  /** The wiped disk. However the writes of all GPUs interleave, block b of disk d ends up with the label of
      rank b mod cb of chunk b div cb when b is in the wiped range, and unchanged otherwise; every wiped block
      is written once. Nothing on the right-hand side depends on the number of GPUs or teams, on windows,
      slices or batches. */
  lemma WipedImage(p: Chunk.Primitives, sessionSeed: Labelling.Label, cb: nat, wipe: seq<nat>, logs: seq<seq<Write>>,
                   schedule: seq<Write>, before: Labelling.Label, d: nat, b: nat)
    requires cb >= 1 && LogsRight(p, sessionSeed, cb, logs)
    requires CountAll(logs, d, b) == if d < |wipe| && b < wipe[d] then 1 else 0
    requires multiset(schedule) == multiset(Flatten(logs))
    ensures Content(before, schedule, d, b) == if d < |wipe| && b < wipe[d]
              then Chunk.ChunkLabels(p, p.chunkSeed(sessionSeed, b / cb), cb)[b % cb] else before
    ensures Count(schedule, d, b) == if d < |wipe| && b < wipe[d] then 1 else 0
  {
    hide AllRight;
    hide Chunk.ChunkLabels;
    RightFlatten(p, sessionSeed, cb, logs);
    RightPermuted(p, sessionSeed, cb, Flatten(logs), schedule);
    CountFlatten(logs, d, b);
    CountPermuted(Flatten(logs), schedule, d, b);
    ContentDecided(p, sessionSeed, cb, before, schedule, d, b);
  }

  /** Blocks of a device that are wiped: as many whole super-chunks as its size and the cap allow. */
  function WipedBlocks(size: nat, cap: nat, cb: nat): (len: nat)
    requires cb >= 1
    ensures len % cb == 0 && len <= size && (cap != 0 ==> len <= cap)
    ensures size < len + cb || (cap != 0 && cap < len + cb)
  {
    var want := if cap != 0 then Bits.Min(cap, size) else size;
    FloorFacts(want, cb);
    OffsetDivides(want / cb, cb, 0);
    FloorTo(want, cb)
  }
}
