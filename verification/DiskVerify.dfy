/** Sampled read-back of a wiped disk. */
module DiskVerify {
  import Bits
  import opened Offsets
  import opened Labelling
  import opened Chunk
  import Region
  import RegionLabelers
  import DiskWrites

  /** Super-chunk read as sample k. */
  function Sample(k: nat, samples: nat, n: nat): nat
    requires 1 <= samples && 1 <= n
  {
    if samples == 1 then 0 else Offset(k, n - 1) / (samples - 1)
  }

  lemma QuotientAtLeast(x: nat, m: nat, q: nat)
    requires m >= 1 && x >= Offset(q, m)
    ensures x / m >= q
  {
    assert x == Offset(x / m, m) + x % m;
    if x / m < q { OffsetMonotone(x / m, q, m); }
  }

  lemma QuotientSteps(x: nat, y: nat, m: nat)
    requires m >= 1 && y >= x + m
    ensures y / m > x / m
  {
    assert x == Offset(x / m, m) + x % m;
    OffsetNext(x / m, m);
    QuotientAtLeast(y, m, x / m + 1);
  }

  /** Where sample k lies: k/(samples - 1) of the way from the first super-chunk to the last, rounded down. */
  lemma SampleSpread(k: nat, samples: nat, n: nat, j: nat)
    requires 1 <= samples && 1 <= n
    ensures Sample(k, samples, n) == j
            <==> (if samples == 1 then j == 0 else (samples - 1) * j <= k * (n - 1) < (samples - 1) * (j + 1))
  {
    if samples > 1 {
      var x, m, q := Offset(k, n - 1), samples - 1, Sample(k, samples, n);
      Remainder(x, m);
      Swap(q, m);
      Swap(q + 1, m);
      OffsetNext(q, m);
      if j < q {
        OffsetMonotone(j, q, m);
        Swap(j + 1, m);
        OffsetNext(j, m);
      } else if q < j {
        OffsetMonotone(q, j, m);
        Swap(j, m);
      }
    }
  }

  /** Sample k is damaged: the super-chunk that lies where the sample must read is not intact. */
  ghost predicate Missed(p: Primitives, sessionSeed: Label, cb: nat, disk: seq<Label>, samples: nat, n: nat, k: nat)
    requires cb >= 1
  {
    exists j: nat {:trigger ChunkIntact(p, sessionSeed, cb, disk, j)} ::
      (if samples == 1 then j == 0 else (samples - 1) * j <= k * (n - 1) < (samples - 1) * (j + 1))
      && !ChunkIntact(p, sessionSeed, cb, disk, j)
  }

  lemma MissedIs(p: Primitives, sessionSeed: Label, cb: nat, disk: seq<Label>, samples: nat, n: nat, k: nat)
    requires cb >= 1 && 1 <= samples && 1 <= n
    ensures Missed(p, sessionSeed, cb, disk, samples, n, k)
            <==> !ChunkIntact(p, sessionSeed, cb, disk, Sample(k, samples, n))
  {
    hide ChunkIntact;
    hide Sample;
    var q := Sample(k, samples, n);
    SampleSpread(k, samples, n, q);
    if Missed(p, sessionSeed, cb, disk, samples, n, k) {
      var j: nat :| (if samples == 1 then j == 0 else (samples - 1) * j <= k * (n - 1) < (samples - 1) * (j + 1))
        && !ChunkIntact(p, sessionSeed, cb, disk, j);
      SampleSpread(k, samples, n, j);
    }
  }

  /** The samples below `k` that are damaged. */
  ghost function Misses(p: Primitives, sessionSeed: Label, cb: nat, disk: seq<Label>, samples: nat, n: nat,
                        k: nat): set<nat>
    requires cb >= 1
  {
    set i: nat {:trigger Missed(p, sessionSeed, cb, disk, samples, n, i)} |
      i < k && Missed(p, sessionSeed, cb, disk, samples, n, i)
  }

  lemma {:induction false} DamagedCounts(p: Primitives, sessionSeed: Label, cb: nat, disk: seq<Label>, samples: nat,
                                         n: nat, k: nat)
    requires cb >= 1 && 1 <= samples && 1 <= n
    ensures Damaged(p, sessionSeed, cb, disk, samples, n, k)
              == |set i: nat {:trigger Missed(p, sessionSeed, cb, disk, samples, n, i)} |
                    i < k && Missed(p, sessionSeed, cb, disk, samples, n, i)|
    decreases k
  {
    hide Missed;
    hide ChunkIntact;
    hide Sample;
    var all := Misses(p, sessionSeed, cb, disk, samples, n, k);
    if k == 0 {
      assert all == {};
    } else {
      DamagedCounts(p, sessionSeed, cb, disk, samples, n, k - 1);
      MissedIs(p, sessionSeed, cb, disk, samples, n, k - 1);
      MissesNext(p, sessionSeed, cb, disk, samples, n, k - 1);
    }
  }

  lemma MissesNext(p: Primitives, sessionSeed: Label, cb: nat, disk: seq<Label>, samples: nat, n: nat, k: nat)
    requires cb >= 1
    ensures |Misses(p, sessionSeed, cb, disk, samples, n, k + 1)| == |Misses(p, sessionSeed, cb, disk, samples, n, k)|
              + (if Missed(p, sessionSeed, cb, disk, samples, n, k) then 1 else 0)
  {
    hide Missed;
    var all := Misses(p, sessionSeed, cb, disk, samples, n, k + 1);
    var front := Misses(p, sessionSeed, cb, disk, samples, n, k);
    if Missed(p, sessionSeed, cb, disk, samples, n, k) {
      assert all == front + {k};
    } else {
      assert all == front;
    }
  }

  /** Later samples read later super-chunks. */
  lemma {:induction false} SamplesAscend(j: nat, k: nat, samples: nat, n: nat)
    requires j < k < samples <= n
    ensures Sample(j, samples, n) < Sample(k, samples, n)
    decreases k
  {
    OffsetNext(k - 1, n - 1);
    QuotientSteps(Offset(k - 1, n - 1), Offset(k, n - 1), samples - 1);
    if j < k - 1 {
      SamplesAscend(j, k - 1, samples, n);
    }
  }

  /** The first and the last super-chunk are always sampled, and no sample lies beyond. */
  lemma SampleEnds(samples: nat, n: nat)
    requires 1 <= samples <= n
    ensures Sample(0, samples, n) == 0
    ensures samples > 1 ==> Sample(samples - 1, samples, n) == n - 1
  {
    OffsetNext(0, n - 1);
    if samples > 1 {
      Swap(samples - 1, n - 1);
      OffsetDivides(n - 1, samples - 1, 0);
    }
  }

  lemma Swap(a: nat, b: nat)
    ensures Offset(a, b) == Offset(b, a)
  {
  }

  lemma SampleInRange(k: nat, samples: nat, n: nat)
    requires k < samples <= n
    ensures Sample(k, samples, n) < n
  {
    SampleEnds(samples, n);
    if k < samples - 1 {
      SamplesAscend(k, samples - 1, samples, n);
    }
  }

  /** Super-chunk `j` of the disk holds its labels. */
  ghost predicate ChunkIntact(p: Primitives, sessionSeed: Label, cb: nat, disk: seq<Label>, j: nat)
    requires cb >= 1
  {
    Offset(j, cb) + cb <= |disk|
      && disk[Offset(j, cb)..Offset(j, cb) + cb] == ChunkLabels(p, p.chunkSeed(sessionSeed, j), cb)
  }

  /** Intact means block by block, to the last one. */
  lemma IntactIs(p: Primitives, sessionSeed: Label, cb: nat, disk: seq<Label>, j: nat)
    requires cb >= 1 && Offset(j, cb) + cb <= |disk|
    ensures ChunkIntact(p, sessionSeed, cb, disk, j) <==>
            forall r: nat {:trigger ChunkLabels(p, p.chunkSeed(sessionSeed, j), cb)[r]} :: r < cb ==>
              disk[Offset(j, cb) + r] == ChunkLabels(p, p.chunkSeed(sessionSeed, j), cb)[r]
  {
    hide Offset;
    hide ChunkLabels;
    var lo := Offset(j, cb);
    var ls := ChunkLabels(p, p.chunkSeed(sessionSeed, j), cb);
    assert forall r: nat {:trigger ls[r]} :: r < cb ==> disk[lo + r] == disk[lo..lo + cb][r];
    if forall r: nat {:trigger ls[r]} :: r < cb ==> disk[lo + r] == ls[r] {
      forall r | 0 <= r < cb
        ensures disk[lo..lo + cb][r] == ls[r]
      {
        assert disk[lo + r] == ls[r];
      }
    }
  }

  /** Damaged super-chunks among the first k samples. */
  ghost function Damaged(p: Primitives, sessionSeed: Label, cb: nat, disk: seq<Label>, samples: nat, n: nat,
                         k: nat): nat
    requires cb >= 1 && samples >= 1 && n >= 1
  {
    if k == 0 then 0
    else Damaged(p, sessionSeed, cb, disk, samples, n, k - 1)
         + (if ChunkIntact(p, sessionSeed, cb, disk, Sample(k - 1, samples, n)) then 0 else 1)
  }

  /** Recompute one super-chunk with the in-place labeler and compare. */
  method CheckChunk(p: Primitives, sessionSeed: Label, cb: nat, disk: seq<Label>, j: nat, reference: array<Label>,
                    scratch: seq<array<Label>>)
    returns (same: bool)
    requires 1 <= cb <= MAX_M && Offset(j, cb) + cb <= |disk|
    requires reference.Length == cb && RegionLabelers.InplaceScratchFor(scratch, reference, cb, 1)
    modifies reference, RegionLabelers.InplaceBuffers(scratch)
    ensures same <==> ChunkIntact(p, sessionSeed, cb, disk, j)
  {
    hide Region.RegionLabels;
    hide ChunkLabels;
    hide Offset;
    hide ScratchSlots;
    OffsetDivides(j, cb, 0);
    BytesBack(cb);
    OneChunk(p, sessionSeed, cb, j);
    var rc := RegionLabelers.LabelRegionInplace(p, sessionSeed, reference, cb * HASH_BYTES, Offset(j, cb), scratch, cb);
    assert reference[..cb] == reference[..];
    same := reference[..] == disk[Offset(j, cb)..Offset(j, cb) + cb];
  }

  lemma BytesBack(cb: nat)
    requires cb >= 1
    ensures (cb * HASH_BYTES) / 32 == cb && cb * HASH_BYTES > 0 && cb * HASH_BYTES % 32 == 0
  {
  }

  lemma OneChunk(p: Primitives, sessionSeed: Label, cb: nat, j: nat)
    requires cb >= 1
    ensures RegionLabelers.Whole(cb, cb) == cb && RegionLabelers.BuffersUsed(cb, cb) == 1
    ensures Region.RegionLabels(p, sessionSeed, cb, j, cb) == ChunkLabels(p, p.chunkSeed(sessionSeed, j), cb)
  {
    hide ChunkLabels;
    OffsetNext(0, cb);
    OffsetDivides(1, cb, 0);
    OffsetDivides(1, cb, cb - 1);
    Region.RegionOne(p, sessionSeed, cb, j, cb);
  }

  /** Samples spread over the wiped range; the number of mismatches is exact. */
  method VerifyDisk(p: Primitives, sessionSeed: Label, cb: nat, disk: seq<Label>, wipeLen: nat, requested: nat)
    returns (rc: int, checked: nat, mism: nat)
    requires 1 <= cb <= MAX_M && wipeLen <= |disk|
    ensures rc == (if wipeLen / cb == 0 then -1 else 0)
    ensures rc == 0 ==> checked == Bits.Min(Bits.Max(requested, 1), wipeLen / cb)
    ensures rc == 0 ==>
              mism == |set k: nat {:trigger Missed(p, sessionSeed, cb, disk, checked, wipeLen / cb, k)} |
                         k < checked && Missed(p, sessionSeed, cb, disk, checked, wipeLen / cb, k)|
    ensures rc == 0 ==> mism == Damaged(p, sessionSeed, cb, disk, checked, wipeLen / cb, checked)
  {
    hide Offset;
    hide Sample;
    hide ChunkIntact;
    hide ScratchSlots;
    checked, mism := 0, 0;
    var n := wipeLen / cb;
    if n == 0 {
      return -1, 0, 0;
    }
    var samples := if requested == 0 then 1 else requested;
    if samples > n {
      samples := n;
    }
    var reference := new Label[cb](_ => Label([]));
    var scratch: seq<array<Label>> := [];
    for i := 0 to RegionLabelers.REGION_THREADS
      invariant |scratch| == i
      invariant forall j {:trigger scratch[j]} :: 0 <= j < i ==>
                scratch[j].Length == ScratchSlots(cb) && scratch[j] != reference && fresh(scratch[j])
      invariant forall j, k {:trigger scratch[j], scratch[k]} :: 0 <= j < k < i ==> scratch[j] != scratch[k]
    {
      var buffer := new Label[ScratchSlots(cb)](_ => Label([]));
      scratch := scratch + [buffer];
    }
    for k := 0 to samples
      invariant checked == k && mism == Damaged(p, sessionSeed, cb, disk, samples, n, k)
      invariant RegionLabelers.InplaceScratchFor(scratch, reference, cb, 1)
      invariant forall j {:trigger scratch[j]} :: 0 <= j < |scratch| ==> fresh(scratch[j])
    {
      var j := Sample(k, samples, n);
      SampleInRange(k, samples, n);
      RegionLabelers.WholeChunks(wipeLen, cb, j);
      WithinWhole(wipeLen, cb, j);
      var same := CheckChunk(p, sessionSeed, cb, disk, j, reference, scratch);
      checked := checked + 1;
      if !same {
        mism := mism + 1;
      }
    }
    DamagedCounts(p, sessionSeed, cb, disk, checked, n, checked);
    rc := 0;
  }

  lemma WithinWhole(total: nat, cb: nat, j: nat)
    requires cb >= 1 && j < total / cb
    ensures Offset(j, cb) + cb <= total
  {
    OffsetMonotone(j, total / cb, cb);
    assert total == Offset(total / cb, cb) + total % cb;
  }

  /** A correctly wiped disk passes, whatever the number of samples. */
  lemma {:induction false} WipedPasses(p: Primitives, sessionSeed: Label, cb: nat, disk: seq<Label>, wipeLen: nat,
                                       samples: nat, k: nat)
    requires cb >= 1 && wipeLen <= |disk| && k <= samples && 1 <= samples <= wipeLen / cb
    requires forall b: nat {:trigger disk[b]} :: b < wipeLen ==> disk[b] == DiskWrites.BlockLabel(p, sessionSeed, cb, b)
    ensures Damaged(p, sessionSeed, cb, disk, samples, wipeLen / cb, k) == 0
    decreases k
  {
    hide Offset;
    hide Sample;
    hide ChunkIntact;
    hide DiskWrites.BlockLabel;
    if k > 0 {
      var j := Sample(k - 1, samples, wipeLen / cb);
      WipedPasses(p, sessionSeed, cb, disk, wipeLen, samples, k - 1);
      SampleInRange(k - 1, samples, wipeLen / cb);
      WithinWhole(wipeLen, cb, j);
      IntactByBlocks(p, sessionSeed, cb, disk, j);
    }
  }

  lemma IntactByBlocks(p: Primitives, sessionSeed: Label, cb: nat, disk: seq<Label>, j: nat)
    requires cb >= 1 && Offset(j, cb) + cb <= |disk|
    requires forall b: nat {:trigger disk[b]} :: Offset(j, cb) <= b < Offset(j, cb) + cb ==>
              disk[b] == DiskWrites.BlockLabel(p, sessionSeed, cb, b)
    ensures ChunkIntact(p, sessionSeed, cb, disk, j)
  {
    hide Offset;
    hide ChunkLabels;
    var lo := Offset(j, cb);
    forall r | 0 <= r < cb
      ensures disk[lo..lo + cb][r] == ChunkLabels(p, p.chunkSeed(sessionSeed, j), cb)[r]
    {
      OffsetDivides(j, cb, r);
      assert disk[lo + r] == DiskWrites.BlockLabel(p, sessionSeed, cb, lo + r);
    }
  }

  /** No mismatch means that every sampled super-chunk is intact. */
  lemma {:induction false} NoMismatch(p: Primitives, sessionSeed: Label, cb: nat, disk: seq<Label>, samples: nat,
                                      n: nat, k: nat, i: nat)
    requires cb >= 1 && samples >= 1 && n >= 1 && i < k
    requires Damaged(p, sessionSeed, cb, disk, samples, n, k) == 0
    ensures ChunkIntact(p, sessionSeed, cb, disk, Sample(i, samples, n))
    decreases k
  {
    hide ChunkIntact;
    hide Sample;
    if i < k - 1 {
      NoMismatch(p, sessionSeed, cb, disk, samples, n, k - 1, i);
    }
  }
}
