/** Wiping disks with several GPUs: teams, sub-ranges, device windows and staging slices.

    Byte counts of the source appear in blocks of 32 bytes; super-chunks are `cb` blocks.
 */
module DiskWipe {
  import Bits
  import opened Offsets
  import Labelling
  import Chunk
  import Region
  import GpuRun
  import opened DiskWrites

  /** A contiguous part of a disk, assigned to one GPU. */
  datatype WorkItem = WorkItem(disk: nat, off: nat, len: nat) {
    predicate Covers(d: nat, b: nat) {
      disk == d && off <= b < off + len
    }
  }

  function FloorTo(v: nat, m: nat): nat {
    if m != 0 then Offset(v / m, m) else 0
  }

  lemma FloorFacts(v: nat, m: nat)
    requires m >= 1
    ensures FloorTo(v, m) <= v < FloorTo(v, m) + m
    ensures v >= m ==> FloorTo(v, m) >= m
    ensures FloorTo(v, m) == 0 <==> v < m
  {
    assert v == Offset(v / m, m) + v % m;
    if v >= m {
      OffsetPositive(v / m, m);
    }
  }

  lemma OffsetPositive(q: nat, m: nat)
    requires q >= 1
    ensures Offset(q, m) >= m
  {
    OffsetNext(q - 1, m);
  }

  /** A multiple of the super-chunk is kept, whatever lies beyond is cut. */
  lemma FloorUnique(v: nat, m: nat, k: nat)
    requires m >= 1 && Offset(k, m) <= v < Offset(k, m) + m
    ensures FloorTo(v, m) == Offset(k, m)
  {
    OffsetDivides(k, m, v - Offset(k, m));
  }

  /** Blocks of the label window: the whole super-chunks of the request, or of the largest item if that is less, and at
      least one. */
  function WindowSize(request: nat, maxItem: nat, cb: nat): (w: nat)
    requires cb >= 1
    ensures w % cb == 0 && w >= cb
    ensures w == cb || (w <= request && (maxItem != 0 ==> w <= maxItem))
    ensures request < w + cb || (maxItem != 0 && maxItem < w + cb)
  {
    var want := if maxItem != 0 && request > maxItem then maxItem else request;
    FloorFacts(want, cb);
    FloorWhole(want, cb);
    FloorWhole(cb, cb);
    if FloorTo(want, cb) < cb then cb else FloorTo(want, cb)
  }

  /** Blocks of a staging slice: the whole super-chunks of the request, at least one and at most the window. */
  function StageSize(request: nat, window: nat, cb: nat): (s: nat)
    requires cb >= 1 && window >= cb && window % cb == 0
    ensures s % cb == 0 && cb <= s <= window
    ensures (s == cb || s <= request) && (s == window || request < s + cb)
  {
    FloorFacts(request, cb);
    FloorWhole(request, cb);
    FloorWhole(cb, cb);
    var s := if FloorTo(request, cb) < cb then cb else FloorTo(request, cb);
    if s > window then window else s
  }

  lemma FloorWhole(v: nat, m: nat)
    requires m >= 1
    ensures FloorTo(v, m) % m == 0 && m % m == 0
  {
    OffsetDivides(v / m, m, 0);
    OffsetDivides(1, m, 0);
  }

  /** No write is empty or longer than a slice. */
  ghost predicate Sliced(log: seq<Write>, stage: nat) {
    forall i {:trigger log[i]} :: 0 <= i < |log| ==> 1 <= |log[i].data| <= stage
  }

  /** Staging: the window leaves the device slice by slice and goes to its place on the disk. */
  method WriteSlices(p: Chunk.Primitives, sessionSeed: Labelling.Label, cb: nat, disk: nat, at: nat,
                     device: array<Labelling.Label>, win: nat, stage: nat, dryRun: bool, log0: seq<Write>,
                     ghost lo: nat)
    returns (log: seq<Write>)
    requires cb >= 1 && stage >= 1 && win <= device.Length
    requires forall k: nat {:trigger device[k]} :: k < win ==> device[k] == BlockLabel(p, sessionSeed, cb, at + k)
    requires AllRight(p, sessionSeed, cb, log0) && (!dryRun ==> Tiles(log0, disk, lo, at))
    ensures AllRight(p, sessionSeed, cb, log) && (Sliced(log0, stage) ==> Sliced(log, stage))
    ensures if dryRun then log == log0 else Tiles(log, disk, lo, at + win)
  {
    hide BlockLabel;
    hide Tiles;
    log := log0;
    var s := 0;
    while s < win
      invariant 0 <= s <= win && AllRight(p, sessionSeed, cb, log) && (Sliced(log0, stage) ==> Sliced(log, stage))
      invariant if dryRun then log == log0 else Tiles(log, disk, lo, at + s)
    {
      var slice := if stage < win - s then stage else win - s;
      var staged := device[s..s + slice];
      if !dryRun {
        var w := Write(disk, at + s, staged);
        forall k: nat | k < slice
          ensures w.data[k] == BlockLabel(p, sessionSeed, cb, w.at + k)
        {
          assert w.data[k] == device[s + k];
        }
        TilesAppend(log, disk, lo, at + s, w);
        log := log + [w];
      }
      s := s + slice;
    }
  }

  /** One work item, window by window. A trailing part shorter than a super-chunk is left as it is. */
  method WipeItem(topo: GpuRun.DeviceTopology, p: Chunk.Primitives, sessionSeed: Labelling.Label, item: WorkItem,
                  window: nat, stage: nat, dryRun: bool, batch: nat, scratch: array<Labelling.Label>,
                  device: array<Labelling.Label>, ghost c: nat)
    returns (log: seq<Write>)
    requires topo.Valid() && topo.cb >= 1 && item.off == Offset(c, topo.cb)
    requires window >= topo.cb && stage >= 1 && batch >= 1
    requires device != scratch && window <= device.Length && Offset(batch, topo.RowSize()) <= scratch.Length
    modifies scratch, device
    ensures topo.Valid()
    ensures AllRight(p, sessionSeed, topo.cb, log) && Sliced(log, stage)
    ensures if dryRun then log == [] else Tiles(log, item.disk, item.off, item.off + FloorTo(item.len, topo.cb))
  {
    hide GpuRun.DeviceTopology.Valid;
    hide BlockLabel;
    hide Tiles;
    hide Offset;
    hide FloorTo;
    hide Region.RegionLabels;
    var cb := topo.cb;
    log := [];
    NothingWritten(p, sessionSeed, cb, item.disk, item.off);
    var pos: nat := 0;
    ghost var k: nat := 0;
    OffsetNext(0, cb);
    FloorFacts(item.len, cb);
    while pos < item.len
      invariant pos == Offset(k, cb) && pos <= item.len && topo.Valid()
      invariant AllRight(p, sessionSeed, cb, log) && Sliced(log, stage)
      invariant if dryRun then log == [] else Tiles(log, item.disk, item.off, item.off + pos)
    {
      var win := FloorTo(if window < item.len - pos then window else item.len - pos, cb);
      FloorFacts(if window < item.len - pos then window else item.len - pos, cb);
      if win == 0 {
        break;
      }
      var n := (if window < item.len - pos then window else item.len - pos) / cb;
      FloorIs(if window < item.len - pos then window else item.len - pos, cb);
      OffsetSum(c, k, cb);
      OffsetSum(k, n, cb);
      topo.Run(p, sessionSeed, n, item.off + pos, batch, scratch, device, c + k);
      DeviceIsRight(p, sessionSeed, cb, c + k, n, device[..]);
      log := WriteSlices(p, sessionSeed, cb, item.disk, item.off + pos, device, win, stage, dryRun, log, item.off);
      pos := pos + win;
      k := k + n;
    }
    FloorUnique(item.len, cb, k);
  }

  lemma FloorIs(v: nat, m: nat)
    requires m >= 1
    ensures FloorTo(v, m) == Offset(v / m, m)
  {
  }

  lemma NothingWritten(p: Chunk.Primitives, sessionSeed: Labelling.Label, cb: nat, disk: nat, at: nat)
    requires cb >= 1
    ensures AllRight(p, sessionSeed, cb, []) && Tiles([], disk, at, at)
  {
  }

  lemma DeviceIsRight(p: Chunk.Primitives, sessionSeed: Labelling.Label, cb: nat, c: nat, n: nat,
                      device: seq<Labelling.Label>)
    requires cb >= 1 && Offset(n, cb) <= |device|
    requires device[..Offset(n, cb)] == Region.RegionLabels(p, sessionSeed, cb, c, Offset(n, cb))
    ensures forall k: nat {:trigger device[k]} :: k < Offset(n, cb) ==>
              device[k] == BlockLabel(p, sessionSeed, cb, Offset(c, cb) + k)
  {
    hide BlockLabel;
    hide Region.RegionLabels;
    hide Offset;
    forall k: nat | k < Offset(n, cb)
      ensures device[k] == BlockLabel(p, sessionSeed, cb, Offset(c, cb) + k)
    {
      assert device[..Offset(n, cb)][k] == device[k];
      RegionIsRight(p, sessionSeed, cb, c, n, k);
    }
  }

  // ---------- a worker's items ----------

  function CountItems(items: seq<WorkItem>, d: nat, b: nat): nat {
    if |items| == 0 then 0
      else CountItems(items[..|items| - 1], d, b) + (if items[|items| - 1].Covers(d, b) then 1 else 0)
  }

  /** Items start and end at super-chunk boundaries. */
  predicate Aligned(items: seq<WorkItem>, cb: nat)
    requires cb >= 1
  {
    forall i {:trigger items[i]} :: 0 <= i < |items| ==> items[i].off % cb == 0 && items[i].len % cb == 0
  }

  lemma AlignedItem(item: WorkItem, cb: nat)
    requires cb >= 1 && item.off % cb == 0 && item.len % cb == 0
    ensures item.off == Offset(item.off / cb, cb) && FloorTo(item.len, cb) == item.len
  {
  }

  function MaxItem(items: seq<WorkItem>): (most: nat)
    ensures forall i :: 0 <= i < |items| ==> items[i].len <= most
    ensures most == 0 || exists i :: 0 <= i < |items| && items[i].len == most
  {
    if |items| == 0 then 0 else Bits.Max(MaxItem(items[..|items| - 1]), items[|items| - 1].len)
  }

  /** One GPU: topology and window once, then all its items. Every block of its items is written once, nothing else. */
  method Worker(topo: GpuRun.DeviceTopology, p: Chunk.Primitives, sessionSeed: Labelling.Label, items: seq<WorkItem>,
                windowRequest: nat, stageRequest: nat, dryRun: bool, batch: nat)
    returns (log: seq<Write>)
    requires topo.Valid() && topo.cb >= 1 && batch >= 1 && Aligned(items, topo.cb)
    ensures topo.Valid()
    ensures AllRight(p, sessionSeed, topo.cb, log)
    ensures Sliced(log, StageSize(stageRequest, WindowSize(windowRequest, MaxItem(items), topo.cb), topo.cb))
    ensures dryRun ==> log == []
    ensures !dryRun ==> forall d: nat, b: nat {:trigger Count(log, d, b)} :: Count(log, d, b) == CountItems(items, d, b)
  {
    hide GpuRun.DeviceTopology.Valid;
    hide Tiles;
    hide AllRight;
    hide Offset;
    hide FloorTo;
    hide BlockLabel;
    var cb := topo.cb;
    var window := WindowSize(windowRequest, MaxItem(items), cb);
    var stage := StageSize(stageRequest, window, cb);
    var device := new Labelling.Label[window](_ => Labelling.Label([]));
    var scratch := new Labelling.Label[Offset(batch, topo.RowSize())](_ => Labelling.Label([]));
    log := [];
    NothingWritten(p, sessionSeed, cb, 0, 0);
    assert items[..0] == [];
    for i := 0 to |items|
      invariant topo.Valid() && AllRight(p, sessionSeed, cb, log) && Sliced(log, stage)
      invariant dryRun ==> log == []
      invariant !dryRun ==>
                forall d: nat, b: nat {:trigger Count(log, d, b)} :: Count(log, d, b) == CountItems(items[..i], d, b)
    {
      var item := items[i];
      AlignedItem(item, cb);
      var part := WipeItem(topo, p, sessionSeed, item, window, stage, dryRun, batch, scratch, device, item.off / cb);
      RightConcat(p, sessionSeed, cb, log, part);
      if !dryRun {
        assert items[..i + 1][..i] == items[..i];
        forall d: nat, b: nat
          ensures Count(log + part, d, b) == CountItems(items[..i + 1], d, b)
        {
          CountConcat(log, part, d, b);
          TilesOnce(part, item.disk, item.off, item.off + item.len, d, b);
        }
      }
      log := log + part;
    }
    assert items[..|items|] == items;
  }
}
