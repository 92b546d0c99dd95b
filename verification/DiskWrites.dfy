/** What a set of concurrent writers leaves on a disk, whatever the order of their writes. */
module DiskWrites {
  import Offsets
  import Labelling
  import Chunk
  import Region

  /** One positioned write of whole blocks. */
  datatype Write = Write(disk: nat, at: nat, data: seq<Labelling.Label>) {
    predicate Covers(d: nat, b: nat) {
      disk == d && at <= b < at + |data|
    }
  }

  /** What block `b` of a wiped disk must hold: the label of rank b mod cb of chunk b div cb. */
  function BlockLabel(p: Chunk.Primitives, sessionSeed: Labelling.Label, cb: nat, b: nat): Labelling.Label
    requires cb >= 1
  {
    Chunk.ChunkLabels(p, p.chunkSeed(sessionSeed, b / cb), cb)[b % cb]
  }

  /** The write puts every block's own label there. */
  ghost predicate Right(p: Chunk.Primitives, sessionSeed: Labelling.Label, cb: nat, w: Write)
    requires cb >= 1
  {
    forall k: nat {:trigger w.data[k]} :: k < |w.data| ==> w.data[k] == BlockLabel(p, sessionSeed, cb, w.at + k)
  }

  ghost predicate AllRight(p: Chunk.Primitives, sessionSeed: Labelling.Label, cb: nat, log: seq<Write>)
    requires cb >= 1
  {
    forall i {:trigger log[i]} :: 0 <= i < |log| ==> Right(p, sessionSeed, cb, log[i])
  }

  /** A region labelled for chunks c, c + 1, ... holds the labels of the blocks from chunk c on. */
  lemma RegionIsRight(p: Chunk.Primitives, sessionSeed: Labelling.Label, cb: nat, c: nat, n: nat, k: nat)
    requires cb >= 1 && k < Offsets.Offset(n, cb)
    ensures Region.RegionLabels(p, sessionSeed, cb, c, Offsets.Offset(n, cb))[k]
              == BlockLabel(p, sessionSeed, cb, Offsets.Offset(c, cb) + k)
  {
    hide Chunk.ChunkLabels;
    hide Region.RegionLabels;
    var j, r := k / cb, k % cb;
    assert k == Offsets.Offset(j, cb) + r;
    Offsets.OffsetSum(c, j, cb);
    Offsets.OffsetDivides(c + j, cb, r);
    if j < n { Offsets.OffsetMonotone(j, n, cb); }
    if j > n { Offsets.OffsetMonotone(n, j, cb); }
    hide Offsets.Offset;
    Region.RegionAt(p, sessionSeed, cb, c, Offsets.Offset(n, cb), j, r);
  }

  // ---------- counting ----------

  /** How often block `b` of disk `d` is written. */
  function Count(log: seq<Write>, d: nat, b: nat): nat {
    if |log| == 0 then 0 else Count(log[..|log| - 1], d, b) + (if log[|log| - 1].Covers(d, b) then 1 else 0)
  }

  lemma {:induction false} CountConcat(a: seq<Write>, c: seq<Write>, d: nat, b: nat)
    ensures Count(a + c, d, b) == Count(a, d, b) + Count(c, d, b)
    decreases |c|
  {
    if |c| == 0 {
      assert a + c == a;
    } else {
      var n := |c| - 1;
      CountConcat(a, c[..n], d, b);
      assert (a + c)[..|a| + n] == a + c[..n];
    }
  }

  lemma CountOne(w: Write, d: nat, b: nat)
    ensures Count([w], d, b) == if w.Covers(d, b) then 1 else 0
  {
    assert [w][..0] == [];
  }

  /** The order of the writes does not matter for the count. */
  lemma {:induction false} CountPermuted(a: seq<Write>, c: seq<Write>, d: nat, b: nat)
    requires multiset(a) == multiset(c)
    ensures Count(a, d, b) == Count(c, d, b)
    decreases |a|
  {
    if |a| == 0 {
      assert |multiset(c)| == 0;
    } else {
      var n := |a| - 1;
      var w := a[n];
      assert w in multiset(c);
      var i :| 0 <= i < |c| && c[i] == w;
      var front, back := c[..i], c[i + 1..];
      assert c == front + [w] + back;
      assert a == a[..n] + [w];
      assert multiset(front + back) == multiset(c) - multiset{w};
      CountPermuted(a[..n], front + back, d, b);
      CountConcat(front, back, d, b);
      CountConcat(front + [w], back, d, b);
      CountConcat(front, [w], d, b);
      CountOne(w, d, b);
    }
  }

  /** The writes follow each other without gap or overlap over blocks [lo, hi) of one disk. */
  ghost predicate Tiles(log: seq<Write>, disk: nat, lo: nat, hi: nat) {
    if |log| == 0 then lo == hi
    else
      var w := log[|log| - 1];
      w.disk == disk && w.at + |w.data| == hi && Tiles(log[..|log| - 1], disk, lo, w.at)
  }

  lemma TilesAppend(log: seq<Write>, disk: nat, lo: nat, hi: nat, w: Write)
    requires Tiles(log, disk, lo, hi) && w.disk == disk && w.at == hi
    ensures Tiles(log + [w], disk, lo, hi + |w.data|)
  {
    assert (log + [w])[..|log|] == log;
  }

  lemma {:induction false} TilesOrdered(log: seq<Write>, disk: nat, lo: nat, hi: nat)
    requires Tiles(log, disk, lo, hi)
    ensures lo <= hi
    decreases |log|
  {
    if |log| > 0 {
      TilesOrdered(log[..|log| - 1], disk, lo, log[|log| - 1].at);
    }
  }

  /** Tiling means every block of the range exactly once and no other block. */
  lemma {:induction false} TilesOnce(log: seq<Write>, disk: nat, lo: nat, hi: nat, d: nat, b: nat)
    requires Tiles(log, disk, lo, hi)
    ensures Count(log, d, b) == if d == disk && lo <= b < hi then 1 else 0
    decreases |log|
  {
    if |log| > 0 {
      var w := log[|log| - 1];
      TilesOnce(log[..|log| - 1], disk, lo, w.at, d, b);
      TilesOrdered(log[..|log| - 1], disk, lo, w.at);
    }
  }

  // ---------- any order ----------

  /** Block `b` of disk `d` after the writes of `schedule`, in that order. */
  function Content(before: Labelling.Label, schedule: seq<Write>, d: nat, b: nat): Labelling.Label {
    if |schedule| == 0 then before
    else
      var w := schedule[|schedule| - 1];
      if w.Covers(d, b) then w.data[b - w.at] else Content(before, schedule[..|schedule| - 1], d, b)
  }

  /** When all writers write the right labels, only whether a block is written matters, not when or by whom. */
  lemma {:induction false} ContentDecided(p: Chunk.Primitives, sessionSeed: Labelling.Label, cb: nat,
                                          before: Labelling.Label, schedule: seq<Write>, d: nat, b: nat)
    requires cb >= 1 && AllRight(p, sessionSeed, cb, schedule)
    ensures Content(before, schedule, d, b) == if Count(schedule, d, b) > 0 then BlockLabel(p, sessionSeed, cb, b)
              else before
    decreases |schedule|
  {
    hide BlockLabel;
    if |schedule| > 0 {
      var n := |schedule| - 1;
      var w := schedule[n];
      ContentDecided(p, sessionSeed, cb, before, schedule[..n], d, b);
      assert Right(p, sessionSeed, cb, w);
    }
  }

  lemma RightPermuted(p: Chunk.Primitives, sessionSeed: Labelling.Label, cb: nat, a: seq<Write>, c: seq<Write>)
    requires cb >= 1 && AllRight(p, sessionSeed, cb, a) && multiset(a) == multiset(c)
    ensures AllRight(p, sessionSeed, cb, c)
  {
    hide Right;
    forall i | 0 <= i < |c|
      ensures Right(p, sessionSeed, cb, c[i])
    {
      assert c[i] in multiset(c);
      assert c[i] in multiset(a);
      var j :| 0 <= j < |a| && a[j] == c[i];
    }
  }

  lemma RightConcat(p: Chunk.Primitives, sessionSeed: Labelling.Label, cb: nat, a: seq<Write>, c: seq<Write>)
    requires cb >= 1 && AllRight(p, sessionSeed, cb, a) && AllRight(p, sessionSeed, cb, c)
    ensures AllRight(p, sessionSeed, cb, a + c)
  {
    hide Right;
  }

  // ---------- one log per writer ----------

  function Flatten(logs: seq<seq<Write>>): seq<Write> {
    if |logs| == 0 then [] else Flatten(logs[..|logs| - 1]) + logs[|logs| - 1]
  }

  function CountAll(logs: seq<seq<Write>>, d: nat, b: nat): nat {
    if |logs| == 0 then 0 else CountAll(logs[..|logs| - 1], d, b) + Count(logs[|logs| - 1], d, b)
  }

  lemma {:induction false} CountFlatten(logs: seq<seq<Write>>, d: nat, b: nat)
    ensures Count(Flatten(logs), d, b) == CountAll(logs, d, b)
    decreases |logs|
  {
    if |logs| > 0 {
      CountFlatten(logs[..|logs| - 1], d, b);
      CountConcat(Flatten(logs[..|logs| - 1]), logs[|logs| - 1], d, b);
    }
  }

  lemma {:induction false} RightFlatten(p: Chunk.Primitives, sessionSeed: Labelling.Label, cb: nat,
                                        logs: seq<seq<Write>>)
    requires cb >= 1 && forall i {:trigger logs[i]} :: 0 <= i < |logs| ==> AllRight(p, sessionSeed, cb, logs[i])
    ensures AllRight(p, sessionSeed, cb, Flatten(logs))
    decreases |logs|
  {
    hide AllRight;
    if |logs| == 0 {
      RightNone(p, sessionSeed, cb);
    } else {
      RightFlatten(p, sessionSeed, cb, logs[..|logs| - 1]);
      RightConcat(p, sessionSeed, cb, Flatten(logs[..|logs| - 1]), logs[|logs| - 1]);
    }
  }

  lemma RightNone(p: Chunk.Primitives, sessionSeed: Labelling.Label, cb: nat)
    requires cb >= 1
    ensures AllRight(p, sessionSeed, cb, [])
  {
  }
}
