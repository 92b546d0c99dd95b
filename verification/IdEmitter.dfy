/** The id-carrying emitter: labels live in an id-indexed buffer, the arena holds node ids. */
module IdEmitter {
  import opened Bits
  import opened Dag
  import opened Labelling
  import opened Arena
  import opened RowSources

  /** What the edge recorder stores per node; rank -1 marks an internal node. */
  datatype NodeRecord = NodeRecord(node: Node, rank: int)

  /** The row in terms of the ids stored in memory. */
  function Row(src: RowSource, mem: seq<nat>, dim: nat): (row: Graph)
    requires src.Below(dim, |mem|)
    ensures |row| == Pow2(dim)
  {
    match src
    case Unary(p) => UnaryRow(mem[p..p + Pow2(dim)])
    case Cross(p, b) => CrossRow(mem[p..p + Pow2(dim)], dim, b)
    case Join(p, q) => JoinRow(mem[p..p + Pow2(dim)], mem[q..q + Pow2(dim)])
  }

  /** The node of column `i`, read off memory. */
  function NodeOf(src: RowSource, mem: seq<nat>, dim: nat, i: nat): Node
    requires src.Below(dim, |mem|) && i < Pow2(dim)
  {
    match src
    case Unary(p) => One(mem[p + i])
    case Cross(p, b) => FlipInLayer(i, b, dim); Pair(mem[p + i], mem[p + Flip(i, b)])
    case Join(p, q) => Pair(mem[p + i], mem[q + i])
  }

  class Emitter {
    const session: Session
    const labels: array?<Label>
    const nodes: array?<NodeRecord>
    /** Base-output arrays followed by the arenas; a pointer is an index. */
    const mem: array<nat>
    const arena: nat
    const arenaCap: nat
    var arenaOff: nat
    var nextId: nat
    /** The graph emitted so far. */
    ghost var g: Graph

    ghost predicate Valid()
      reads `nextId, `g, labels, nodes
    {
      && WellFormed(g)
      && nextId == |g|
      && (labels == null || nodes == null)
      && arena + arenaCap <= mem.Length
      && (labels != null ==> nextId <= labels.Length && labels[..nextId] == Labels(session, g))
      && (nodes != null ==> nextId <= nodes.Length && Recorded(nodes[..nextId], g))
    }

    /** Both buffers can take `k` more nodes. */
    ghost predicate Room(k: int)
      reads `nextId
    {
      && (labels != null ==> nextId + k <= labels.Length)
      && (nodes != null ==> nextId + k <= nodes.Length)
    }

    /** First address not in use. */
    function Top(): nat
      reads `arenaOff
    {
      arena + arenaOff
    }

    lemma ValidFacts()
      requires Valid()
      ensures nextId == |g| && arena + arenaCap <= mem.Length
    {
    }

    constructor (session: Session, labels: array?<Label>, nodes: array?<NodeRecord>, mem: array<nat>, arena: nat,
                 arenaCap: nat)
      requires arena + arenaCap <= mem.Length
      requires labels == null || nodes == null
      ensures Valid() && g == [] && arenaOff == 0
      ensures this.session == session && this.labels == labels && this.nodes == nodes && this.mem == mem
      ensures this.arena == arena && this.arenaCap == arenaCap
    {
      this.session, this.labels, this.nodes, this.mem := session, labels, nodes, mem;
      this.arena, this.arenaCap, this.arenaOff, this.nextId := arena, arenaCap, 0, 0;
      g := [];
    }

    /** The emitter state after the source resets next_id and moves on to a fresh arena. */
    constructor Resume(session: Session, labels: array?<Label>, nodes: array?<NodeRecord>, mem: array<nat>,
                       arena: nat, arenaCap: nat, nextId: nat, ghost g: Graph)
      requires arena + arenaCap <= mem.Length
      requires labels == null || nodes == null
      requires WellFormed(g) && nextId == |g|
      requires labels != null ==> nextId <= labels.Length && labels[..nextId] == Labels(session, g)
      requires nodes != null ==> nextId <= nodes.Length && Recorded(nodes[..nextId], g)
      ensures Valid() && this.g == g && this.nextId == nextId && arenaOff == 0
      ensures this.session == session && this.labels == labels && this.nodes == nodes && this.mem == mem
      ensures this.arena == arena && this.arenaCap == arenaCap
    {
      this.session, this.labels, this.nodes, this.mem := session, labels, nodes, mem;
      this.arena, this.arenaCap, this.arenaOff, this.nextId := arena, arenaCap, 0, nextId;
      this.g := g;
    }

    method Alloc(n: nat) returns (p: nat)
      requires arenaOff + n <= arenaCap
      modifies this`arenaOff
      ensures p == old(Top()) && Top() == p + n && arenaOff <= arenaCap
    {
      p := arena + arenaOff;
      arenaOff := arenaOff + n;
    }

    /** Left base, center outputs and right base, one behind the other. */
    method AllocThree(n: nat) returns (left: nat, center: nat, right: nat)
      requires arenaOff + 3 * n <= arenaCap
      modifies this`arenaOff
      ensures left == old(Top()) && center == left + n && right == center + n && Top() == right + n
      ensures arenaOff <= arenaCap
    {
      left := Alloc(n);
      center := Alloc(n);
      right := Alloc(n);
    }

    /** Hand out the next id, label the node and record its edges. */
    method Emit(node: Node) returns (id: nat)
      requires Valid() && Room(1) && Fits(node, nextId)
      modifies this`nextId, this`g, labels, nodes
      ensures Valid()
      ensures id == old(nextId) && g == old(g) + [node]
      ensures unchanged(mem)
    {
      hide Labels;
      hide NodeLabel;
      hide PredLabels;
      hide Fits;
      id := nextId;
      nextId := nextId + 1;
      LabelsAppendOne(session, g, node);
      if labels != null {
        labels[id] := NodeLabel(session, id, PredLabels(labels[..id], node));
        assert labels[..id + 1] == labels[..id] + [labels[id]];
      }
      if nodes != null {
        nodes[id] := NodeRecord(node, -1);
      }
      g := g + [node];
    }

    /** Outside [dst, dst + w), nothing below `top` has changed. */
    twostate predicate OnlyWrote(dst: nat, w: nat, top: nat)
      requires top <= mem.Length
      reads mem
    {
      forall k {:trigger mem[k]} :: 0 <= k < top && !(dst <= k < dst + w) ==> mem[k] == old(mem[k])
    }

    /** Memory holds `ids` from address `p` on. */
    ghost predicate Holds(p: nat, ids: seq<nat>)
      reads mem
    {
      p + |ids| <= mem.Length && mem[p..p + |ids|] == ids
    }

    /** What memory holds now, to be compared with what it holds later. */
    lemma Remember(p: nat, ids: seq<nat>) returns (before: seq<nat>)
      requires Holds(p, ids)
      ensures before == mem[..] && p + |ids| <= |before| && before[p..p + |ids|] == ids
    {
      before := mem[..];
    }

    lemma HoldsParts(p: nat, ids: seq<nat>, k: nat)
      requires Holds(p, ids) && k <= |ids|
      ensures Holds(p, ids[..k]) && Holds(p + k, ids[k..])
    {
    }

    lemma HoldsConcat(p: nat, front: seq<nat>, back: seq<nat>)
      requires Holds(p, front) && Holds(p + |front|, back)
      ensures Holds(p, front + back)
    {
      assert mem[p..p + |front| + |back|] == mem[p..p + |front|] + mem[p + |front|..p + |front| + |back|];
    }

    lemma HoldsKept(p: nat, ids: seq<nat>, before: seq<nat>)
      requires p + |ids| <= |before| <= mem.Length && before[p..p + |ids|] == ids
      requires forall k {:trigger mem[k]} :: p <= k < p + |ids| ==> mem[k] == before[k]
      ensures Holds(p, ids)
    {
      assert mem[p..p + |ids|] == before[p..p + |ids|];
    }

    /** Edge recording: one node at a time. */
    method EmitRowSequential(src: RowSource, dim: nat, dst: nat)
      requires Valid() && Room(Pow2(dim))
      requires src.Below(dim, mem.Length) && dst + Pow2(dim) <= mem.Length && src.Apart(dim, dst)
      requires RowFits(Row(src, mem[..], dim), nextId)
      modifies this`nextId, this`g, mem, labels, nodes
      ensures Valid()
      ensures g == old(g) + old(Row(src, mem[..], dim))
      ensures mem[dst..dst + Pow2(dim)] == Ids(old(nextId), Pow2(dim))
      ensures OnlyWrote(dst, Pow2(dim), mem.Length)
    {
      hide Labels;
      hide Row;
      hide NodeOf;
      hide RowSource.Below;
      hide RowSource.Apart;
      hide Recorded;
      hide WellFormed;
      hide Pow2;
      var w := Pow2(dim);
      ghost var row := Row(src, mem[..], dim);
      for i := 0 to w
        invariant Valid() && Room(w - i)
        invariant nextId == old(nextId) + i
        invariant g == old(g) + row[..i]
        invariant forall k {:trigger mem[k]} :: dst <= k < dst + i ==> mem[k] == old(nextId) + k - dst
        invariant OnlyWrote(dst, w, mem.Length)
      {
        var node := NodeOf(src, mem[..], dim, i);
        NodeInRow(src, mem[..], dim, i);
        SameRow(src, dim, dst, old(mem[..]), mem[..]);
        assert node == row[i];
        var id := Emit(node);
        mem[dst + i] := id;
        assert row[..i + 1] == row[..i] + [row[i]];
      }
      assert row[..w] == row;
    }

    /** Hand out ids for columns [i, i + n) of a row and collect their predecessors' labels. */
    method GatherBatch(src: RowSource, dim: nat, dst: nat, i: nat, n: nat, ghost ls: seq<Label>)
      returns (ids: seq<nat>, preds: seq<seq<Label>>)
      requires labels != null && nextId <= labels.Length && labels[..nextId] == ls
      requires i + n <= Pow2(dim)
      requires src.Below(dim, mem.Length) && dst + Pow2(dim) <= mem.Length && src.Apart(dim, dst)
      requires RowFits(Row(src, mem[..], dim)[i..i + n], |ls|)
      modifies this`nextId, mem
      ensures nextId == old(nextId) + n
      ensures ids == Ids(old(nextId), n) && |preds| == n
      ensures forall k {:trigger preds[k]} :: 0 <= k < n ==>
                preds[k] == PredLabels(ls, old(Row(src, mem[..], dim))[i..i + n][k])
      ensures forall k {:trigger mem[k]} :: dst + i <= k < dst + i + n ==> mem[k] == old(nextId) + k - (dst + i)
      ensures OnlyWrote(dst + i, n, mem.Length)
    {
      hide PredLabels;
      hide Row;
      hide NodeOf;
      hide RowSource.Below;
      hide RowSource.Apart;
      hide Pow2;
      hide Fits;
      ghost var row := Row(src, mem[..], dim)[i..i + n];
      var first := nextId;
      ids, preds := [], [];
      for j := 0 to n
        invariant nextId == first + j
        invariant labels[..first] == ls
        invariant |ids| == |preds| == j
        invariant forall k {:trigger ids[k]} :: 0 <= k < j ==> ids[k] == first + k
        invariant forall k {:trigger preds[k]} :: 0 <= k < j ==> preds[k] == PredLabels(ls, row[k])
        invariant forall k {:trigger mem[k]} :: dst + i <= k < dst + i + j ==> mem[k] == first + k - (dst + i)
        invariant OnlyWrote(dst + i, j, mem.Length)
      {
        var node := NodeOf(src, mem[..], dim, i + j);
        NodeInRow(src, mem[..], dim, i + j);
        SameRow(src, dim, dst, old(mem[..]), mem[..]);
        assert node == row[j];
        ids := ids + [nextId];
        preds := preds + [PredLabels(labels[..first], node)];
        mem[dst + i + j] := nextId;
        nextId := nextId + 1;
      }
    }

    /** Store a batch of labels behind the labels already there. */
    method StoreBatch(first: nat, outs: seq<Label>)
      requires labels != null && first + |outs| <= labels.Length
      modifies labels
      ensures labels[..first + |outs|] == old(labels[..first]) + outs
    {
      for j := 0 to |outs|
        invariant labels[..first + j] == old(labels[..first]) + outs[..j]
      {
        labels[first + j] := outs[j];
        assert labels[..first + j + 1] == labels[..first + j] + [outs[j]];
      }
    }

    /** Label mode: one batch call for columns [i, i + n) of a row. */
    method EmitBatch(src: RowSource, dim: nat, dst: nat, i: nat, n: nat)
      requires Valid() && Room(n) && labels != null
      requires n <= LABEL_BATCH && i + n <= Pow2(dim)
      requires src.Below(dim, mem.Length) && dst + Pow2(dim) <= mem.Length && src.Apart(dim, dst)
      requires RowFits(Row(src, mem[..], dim)[i..i + n], nextId)
      modifies this`nextId, this`g, mem, labels
      ensures Valid()
      ensures g == old(g) + old(Row(src, mem[..], dim))[i..i + n]
      ensures forall k {:trigger mem[k]} :: dst + i <= k < dst + i + n ==> mem[k] == old(nextId) + k - (dst + i)
      ensures OnlyWrote(dst + i, n, mem.Length)
    {
      hide Labels;
      hide NodeLabel;
      hide PredLabels;
      hide Row;
      hide NodeOf;
      hide RowSource.Below;
      hide RowSource.Apart;
      hide WellFormed;
      hide Fits;
      ghost var row := Row(src, mem[..], dim)[i..i + n];
      ghost var ls := Labels(session, g);
      var first := nextId;
      var ids, preds := GatherBatch(src, dim, dst, i, n, ls);
      var outs := HashBatch(session, ids, preds);
      StoreBatch(first, outs);
      LabelsAppendRow(session, g, row);
      assert outs == RowLabels(session, |g|, ls, row);
      g := g + row;
    }

    /** Label mode: the row in batches of at most LABEL_BATCH columns. */
    method EmitRowBatched(src: RowSource, dim: nat, dst: nat)
      requires Valid() && Room(Pow2(dim)) && labels != null
      requires src.Below(dim, mem.Length) && dst + Pow2(dim) <= mem.Length && src.Apart(dim, dst)
      requires RowFits(Row(src, mem[..], dim), nextId)
      modifies this`nextId, this`g, mem, labels
      ensures Valid()
      ensures g == old(g) + old(Row(src, mem[..], dim))
      ensures mem[dst..dst + Pow2(dim)] == Ids(old(nextId), Pow2(dim))
      ensures OnlyWrote(dst, Pow2(dim), mem.Length)
    {
      hide Labels;
      hide Row;
      hide NodeOf;
      hide RowSource.Below;
      hide RowSource.Apart;
      hide Recorded;
      hide WellFormed;
      hide Pow2;
      var w := Pow2(dim);
      ghost var row := Row(src, mem[..], dim);
      var i := 0;
      while i < w
        invariant i <= w
        invariant Valid() && Room(w - i)
        invariant nextId == old(nextId) + i
        invariant g == old(g) + row[..i]
        invariant forall k {:trigger mem[k]} :: dst <= k < dst + i ==> mem[k] == old(nextId) + k - dst
        invariant OnlyWrote(dst, w, mem.Length)
      {
        var n := if w - i < LABEL_BATCH then w - i else LABEL_BATCH;
        SameRow(src, dim, dst, old(mem[..]), mem[..]);
        RowFitsLater(row, i, n, old(nextId), nextId);
        EmitBatch(src, dim, dst, i, n);
        assert row[..i + n] == row[..i] + row[i..i + n];
        i := i + n;
      }
      assert row[..w] == row;
    }

    /** One layer: batched when labelling, node by node when recording edges. */
    method EmitRow(src: RowSource, dim: nat, dst: nat)
      requires Valid() && Room(Pow2(dim))
      requires src.Below(dim, mem.Length) && dst + Pow2(dim) <= mem.Length && src.Apart(dim, dst)
      requires RowFits(Row(src, mem[..], dim), nextId)
      modifies this`nextId, this`g, mem, labels, nodes
      ensures Valid()
      ensures g == old(g) + old(Row(src, mem[..], dim))
      ensures mem[dst..dst + Pow2(dim)] == Ids(old(nextId), Pow2(dim))
      ensures OnlyWrote(dst, Pow2(dim), mem.Length)
    {
      if labels != null {
        EmitRowBatched(src, dim, dst);
      } else {
        EmitRowSequential(src, dim, dst);
      }
    }

    method Copy(dst: nat, src: nat, n: nat, ghost ids: seq<nat>)
      requires |ids| == n && Holds(src, ids) && dst + n <= mem.Length
      requires dst + n <= src || src + n <= dst
      modifies mem
      ensures Holds(dst, ids)
      ensures OnlyWrote(dst, n, mem.Length)
    {
      for i := 0 to n
        invariant OnlyWrote(dst, n, mem.Length)
        invariant forall k {:trigger mem[k]} :: dst <= k < dst + i ==> mem[k] == ids[k - dst]
      {
        assert mem[src + i] == old(mem[src..src + n])[i];
        mem[dst + i] := mem[src + i];
      }
    }

    /** One crossing layer on bit `b`. */
    method EmitLayer(dim: nat, b: nat, prev: nat, curr: nat)
      requires Valid() && b < dim && Room(Pow2(dim))
      requires Pow2(dim) <= |g| && Holds(prev, LastRow(g, dim))
      requires curr + Pow2(dim) <= mem.Length
      requires prev + Pow2(dim) <= curr || curr + Pow2(dim) <= prev
      modifies this`nextId, this`g, mem, labels, nodes
      ensures Valid() && g == old(g) + CrossRow(LastRow(old(g), dim), dim, b)
      ensures nextId == old(nextId) + Pow2(dim)
      ensures Holds(curr, LastRow(g, dim))
      ensures OnlyWrote(curr, Pow2(dim), mem.Length)
    {
      hide Labels;
      hide WellFormed;
      hide Fits;
      hide Recorded;
      hide CrossRow;
      CrossFits(g, dim, b);
      EmitRow(Cross(prev, b), dim, curr);
    }

    /** `k` crossing layers over two arrays that swap roles; `prev` is the one written last. */
    method EmitLayers(dim: nat, k: nat, a: nat, b: nat) returns (prev: nat, curr: nat)
      requires Valid() && k <= dim && Room(Layers(Pow2(dim), k))
      requires Pow2(dim) <= |g| && Holds(a, LastRow(g, dim))
      requires a + Pow2(dim) <= mem.Length && b + Pow2(dim) <= mem.Length
      requires a + Pow2(dim) <= b || b + Pow2(dim) <= a
      modifies this`nextId, this`g, mem, labels, nodes
      ensures Valid() && g == Mix(old(g), dim, k)
      ensures nextId == old(nextId) + Layers(Pow2(dim), k)
      ensures (prev == a && curr == b) || (prev == b && curr == a)
      ensures Holds(prev, LastRow(g, dim))
      ensures OnlyWrote(0, 0, Min(a, b))
    {
      hide Emitter.Valid;
      hide Emitter.Holds;
      hide CrossRow;
      hide LastRow;
      hide Pow2;
      prev, curr := a, b;
      for layer := 0 to k
        invariant Valid() && Room(Layers(Pow2(dim), k) - Layers(Pow2(dim), layer))
        invariant nextId == old(nextId) + Layers(Pow2(dim), layer)
        invariant g == Mix(old(g), dim, layer)
        invariant (prev == a && curr == b) || (prev == b && curr == a)
        invariant Holds(prev, LastRow(g, dim))
        invariant OnlyWrote(0, 0, Min(a, b))
      {
        LayersOrder(Pow2(dim), layer + 1, k);
        EmitLayer(dim, dim - 1 - layer, prev, curr);
        prev, curr := curr, prev;
      }
    }

    /** A whole butterfly over two arena arrays; `prev` holds its last layer. */
    method EmitButterfly(dim: nat, inputs: nat, a: nat, b: nat, ghost inIds: seq<nat>) returns (prev: nat, curr: nat)
      requires Valid() && Room(ButterflyCount(dim))
      requires |inIds| == Pow2(dim) && Holds(inputs, inIds) && Within(inIds, 0, nextId)
      requires inputs + Pow2(dim) <= a && a + Pow2(dim) <= b && b + Pow2(dim) <= mem.Length
      modifies this`nextId, this`g, mem, labels, nodes
      ensures Valid() && g == Connector(old(g), dim, inIds)
      ensures nextId == old(nextId) + ButterflyCount(dim)
      ensures (prev == a && curr == b) || (prev == b && curr == a)
      ensures Holds(prev, LastRow(g, dim))
      ensures OnlyWrote(0, 0, a)
    {
      hide Emitter.Valid;
      hide Emitter.Holds;
      hide LastRow;
      hide Pow2;
      hide UnaryRow;
      hide Within;
      ValidFacts();
      EmitFirst(dim, inputs, a, inIds);
      prev, curr := EmitLayers(dim, dim, a, b);
    }

    method EmitConnector(dim: nat, inputs: nat, outputs: nat, ghost inIds: seq<nat>)
      requires Valid() && Room(ButterflyCount(dim))
      requires |inIds| == Pow2(dim) && Holds(inputs, inIds) && Within(inIds, 0, nextId)
      requires inputs + Pow2(dim) <= Top() && outputs + Pow2(dim) <= Top()
      requires arenaOff + ConnectorPeak(dim) <= arenaCap
      modifies this`nextId, this`g, this`arenaOff, mem, labels, nodes
      ensures Valid() && arenaOff == old(arenaOff)
      ensures g == Connector(old(g), dim, inIds)
      ensures Holds(outputs, LastRow(g, dim))
      ensures OnlyWrote(outputs, Pow2(dim), old(Top()))
    {
      hide Emitter.Valid;
      hide Emitter.Holds;
      hide LastRow;
      hide Pow2;
      hide Connector;
      hide Within;
      ValidFacts();
      var width := Pow2(dim);
      var saved := arenaOff;
      var prev := Alloc(width);
      var curr := Alloc(width);
      prev, curr := EmitButterfly(dim, inputs, prev, curr, inIds);
      Copy(outputs, prev, width, LastRow(g, dim));
      arenaOff := saved;
    }

    /** First layer of a butterfly: one node per input. */
    method EmitFirst(dim: nat, inputs: nat, prev: nat, ghost inIds: seq<nat>)
      requires Valid() && Room(Pow2(dim))
      requires |inIds| == Pow2(dim) && Holds(inputs, inIds) && Within(inIds, 0, nextId)
      requires prev + Pow2(dim) <= mem.Length && inputs + Pow2(dim) <= prev
      modifies this`nextId, this`g, mem, labels, nodes
      ensures Valid() && g == old(g) + UnaryRow(inIds)
      ensures nextId == old(nextId) + Pow2(dim)
      ensures Holds(prev, LastRow(g, dim))
      ensures OnlyWrote(prev, Pow2(dim), mem.Length)
    {
      hide Labels;
      hide WellFormed;
      hide Fits;
      UnaryFits(inIds, nextId);
      EmitRow(Unary(inputs), dim, prev);
    }

    /** First layer of the center butterfly: primary input i joined to ingress output i. */
    method EmitJoin(dim: nat, primary: nat, ingress: nat, dst: nat, ghost mid: nat, ghost pIds: seq<nat>,
                    ghost iIds: seq<nat>)
      requires Valid() && Room(Pow2(dim))
      requires |pIds| == |iIds| == Pow2(dim)
      requires Holds(primary, pIds) && Within(pIds, 0, mid)
      requires Holds(ingress, iIds) && Within(iIds, mid, nextId)
      requires dst + Pow2(dim) <= mem.Length
      requires primary + Pow2(dim) <= dst && ingress + Pow2(dim) <= dst
      modifies this`nextId, this`g, mem, labels, nodes
      ensures Valid() && g == old(g) + JoinRow(pIds, iIds)
      ensures nextId == old(nextId) + Pow2(dim)
      ensures Holds(dst, LastRow(g, dim))
      ensures OnlyWrote(dst, Pow2(dim), mem.Length)
    {
      hide Labels;
      hide WellFormed;
      hide Fits;
      JoinFits(pIds, iIds, mid, nextId);
      EmitRow(Join(primary, ingress), dim, dst);
    }

    method EmitMergedCenterIngress(dim: nat, primary: nat, ingress: nat, outputs: nat, ghost pIds: seq<nat>,
                                   ghost iIds: seq<nat>)
      requires Valid() && Room(2 * ButterflyCount(dim))
      requires |pIds| == |iIds| == Pow2(dim)
      requires Holds(primary, pIds) && Within(pIds, 0, nextId)
      requires Holds(ingress, iIds) && Within(iIds, 0, nextId)
      requires primary + Pow2(dim) <= Top() && ingress + Pow2(dim) <= Top() && outputs + Pow2(dim) <= Top()
      requires arenaOff + MergedPeak(dim) <= arenaCap
      modifies this`nextId, this`g, this`arenaOff, mem, labels, nodes
      ensures Valid() && arenaOff == old(arenaOff)
      ensures g == Merged(old(g), dim, pIds, iIds)
      ensures Holds(outputs, LastRow(g, dim))
      ensures OnlyWrote(outputs, Pow2(dim), old(Top()))
    {
      if dim == 0 {
        EmitMergedPair(primary, ingress, outputs, pIds, iIds);
      } else {
        EmitMergedLayers(dim, primary, ingress, outputs, pIds, iIds);
      }
    }

    /** Dimension >= 1: all ingress layers, then all center layers, the last one straight into `outputs`. */
    method EmitMergedLayers(dim: nat, primary: nat, ingress: nat, outputs: nat, ghost pIds: seq<nat>,
                            ghost iIds: seq<nat>)
      requires Valid() && dim > 0 && Room(2 * ButterflyCount(dim))
      requires |pIds| == |iIds| == Pow2(dim)
      requires Holds(primary, pIds) && Within(pIds, 0, nextId)
      requires Holds(ingress, iIds) && Within(iIds, 0, nextId)
      requires primary + Pow2(dim) <= Top() && ingress + Pow2(dim) <= Top() && outputs + Pow2(dim) <= Top()
      requires arenaOff + MergedPeak(dim) <= arenaCap
      modifies this`nextId, this`g, this`arenaOff, mem, labels, nodes
      ensures Valid() && arenaOff == old(arenaOff)
      ensures g == Merged(old(g), dim, pIds, iIds)
      ensures Holds(outputs, LastRow(g, dim))
      ensures OnlyWrote(outputs, Pow2(dim), old(Top()))
    {
      hide Emitter.Valid;
      hide Emitter.Holds;
      hide Pow2;
      hide LastRow;
      hide Connector;
      hide Within;
      ValidFacts();
      ghost var before := Remember(primary, pIds);
      var width := Pow2(dim);
      var saved := arenaOff;
      var ingPrev := Alloc(width);
      var ingCurr := Alloc(width);
      var ctrPrev := Alloc(width);
      var ctrCurr := Alloc(width);
      ingPrev, ingCurr := EmitButterfly(dim, ingress, ingPrev, ingCurr, iIds);
      HoldsKept(primary, pIds, before);
      EmitCenter(dim, primary, ingPrev, ctrPrev, ctrCurr, outputs, old(g), pIds);
      arenaOff := saved;
    }

    /** The center butterfly: layer 0 joins, then dim crossing layers, the last one straight into `outputs`. */
    method EmitCenter(dim: nat, primary: nat, ingress: nat, a: nat, b: nat, outputs: nat, ghost older: Graph,
                      ghost pIds: seq<nat>)
      requires Valid() && dim > 0 && Room(ButterflyCount(dim))
      requires |older| + Pow2(dim) <= |g|
      requires |pIds| == Pow2(dim) && Holds(primary, pIds) && Within(pIds, 0, |older|)
      requires Holds(ingress, LastRow(g, dim))
      requires primary + Pow2(dim) <= a && ingress + Pow2(dim) <= a && outputs + Pow2(dim) <= a
      requires a + Pow2(dim) <= b && b + Pow2(dim) <= mem.Length
      modifies this`nextId, this`g, mem, labels, nodes
      ensures Valid()
      ensures g == Mix(old(g) + JoinRow(pIds, LastRow(old(g), dim)), dim, dim)
      ensures nextId == old(nextId) + ButterflyCount(dim)
      ensures Holds(outputs, LastRow(g, dim))
      ensures OnlyWrote(outputs, Pow2(dim), a)
    {
      hide Emitter.Valid;
      hide Emitter.Holds;
      hide Pow2;
      hide LastRow;
      hide JoinRow;
      hide CrossRow;
      hide Within;
      ValidFacts();
      LastRowNew(older, g, dim);
      assert Layers(Pow2(dim), dim) == Layers(Pow2(dim), dim - 1) + Pow2(dim);
      EmitJoin(dim, primary, ingress, a, |older|, pIds, LastRow(g, dim));
      var prev, curr := EmitLayers(dim, dim - 1, a, b);
      EmitLayer(dim, 0, prev, outputs);
    }

    /** Dimension 0: one ingress node and one center node. */
    method EmitMergedPair(primary: nat, ingress: nat, outputs: nat, ghost pIds: seq<nat>, ghost iIds: seq<nat>)
      requires Valid() && Room(2 * ButterflyCount(0))
      requires |pIds| == |iIds| == 1
      requires Holds(primary, pIds) && Within(pIds, 0, nextId)
      requires Holds(ingress, iIds) && Within(iIds, 0, nextId)
      requires outputs < mem.Length
      modifies this`nextId, this`g, mem, labels, nodes
      ensures Valid()
      ensures g == Merged(old(g), 0, pIds, iIds)
      ensures Holds(outputs, LastRow(g, 0))
      ensures OnlyWrote(outputs, 1, mem.Length)
    {
      hide Labels;
      hide WellFormed;
      assert iIds[0] == mem[ingress..ingress + 1][0] && pIds[0] == mem[primary..primary + 1][0];
      var ig := Emit(One(mem[ingress]));
      var out := Emit(Pair(mem[primary], ig));
      mem[outputs] := out;
      assert UnaryRow(iIds) == [One(iIds[0])];
      assert JoinRow(pIds, [ig]) == [Pair(pIds[0], ig)];
      assert LastRow(old(g) + UnaryRow(iIds), 0) == [ig];
    }

    /** The component's base output: the left base followed by the right base. */
    method CopyHalves(baseOut: nat, left: nat, right: nat, half: nat, ghost leftIds: seq<nat>, ghost rightIds: seq<nat>)
      requires |leftIds| == |rightIds| == half && Holds(left, leftIds) && Holds(right, rightIds)
      requires baseOut + 2 * half <= left && left + half <= right
      modifies mem
      ensures Holds(baseOut, leftIds + rightIds)
      ensures OnlyWrote(baseOut, 2 * half, mem.Length)
    {
      ghost var before := Remember(right, rightIds);
      Copy(baseOut, left, half, leftIds);
      HoldsKept(right, rightIds, before);
      before := Remember(baseOut, leftIds);
      Copy(baseOut + half, right, half, rightIds);
      HoldsKept(baseOut, leftIds, before);
      HoldsConcat(baseOut, leftIds, rightIds);
    }

    method EmitConnected(level: nat, width: nat, inputs: nat, baseOut: nat, ghost inIds: seq<nat>)
      requires Valid() && width == Pow2(level) && Room(ConnectedCount(level))
      requires |inIds| == width && Holds(inputs, inIds) && Within(inIds, 0, nextId)
      requires inputs + width <= Top() && baseOut + width <= Top()
      requires arenaOff + ConnectedPeak(level) <= arenaCap
      modifies this`nextId, this`g, this`arenaOff, mem, labels, nodes
      ensures Valid() && arenaOff == old(arenaOff)
      ensures g == Connected(old(g), level, inIds).g
      ensures Holds(baseOut, Connected(old(g), level, inIds).base)
      ensures OnlyWrote(baseOut, width, old(Top()))
      decreases level, 1
    {
      if level == 0 {
        assert inIds[0] == mem[inputs..inputs + 1][0];
        var id := Emit(One(mem[inputs]));
        mem[baseOut] := id;
      } else {
        EmitConnectedHalves(level - 1, width, inputs, baseOut, inIds);
      }
    }

    method EmitConnectedHalves(k: nat, width: nat, inputs: nat, baseOut: nat, ghost inIds: seq<nat>)
      requires Valid() && width == Pow2(k + 1) && Room(ConnectedCount(k + 1))
      requires |inIds| == width && Holds(inputs, inIds) && Within(inIds, 0, nextId)
      requires inputs + width <= Top() && baseOut + width <= Top()
      requires arenaOff + ConnectedPeak(k + 1) <= arenaCap
      modifies this`nextId, this`g, this`arenaOff, mem, labels, nodes
      ensures Valid() && arenaOff == old(arenaOff)
      ensures g == Connected(old(g), k + 1, inIds).g
      ensures Holds(baseOut, Connected(old(g), k + 1, inIds).base)
      ensures OnlyWrote(baseOut, width, old(Top()))
      decreases k, 4
    {
      hide Emitter.Valid;
      hide Emitter.Holds;
      hide Within;
      hide LastRow;
      hide Merged;
      hide ButterflyCount;
      hide MergedPeak;
      hide Connected;
      hide ConnectedCount;
      hide ConnectedPeak;
      ValidFacts();
      ConnectedUnfold(g, k, inIds);
      ConnectedRoom(k);
      var half := width / 2;
      var saved := arenaOff;
      var leftBase, centerOut, rightBase := AllocThree(half);
      ghost var left := Connected(g, k, inIds[..half]);
      EmitLeftAndCenter(k, half, inputs, leftBase, centerOut, inIds);
      ValidFacts();
      EmitRight(k, half, leftBase, centerOut, rightBase, baseOut, left.base);
      arenaOff := saved;
    }

    /** The left component on the first half of the inputs, then the merged butterflies over the second half. */
    method EmitLeftAndCenter(k: nat, half: nat, inputs: nat, leftBase: nat, centerOut: nat, ghost inIds: seq<nat>)
      requires Valid() && half == Pow2(k) && Room(ConnectedCount(k) + 2 * ButterflyCount(k))
      requires |inIds| == 2 * half && Holds(inputs, inIds) && Within(inIds, 0, nextId)
      requires inputs + 2 * half <= leftBase && centerOut == leftBase + half && centerOut + half <= Top()
      requires arenaOff + ConnectedPeak(k) <= arenaCap && arenaOff + MergedPeak(k) <= arenaCap
      modifies this`nextId, this`g, this`arenaOff, mem, labels, nodes
      ensures Valid() && arenaOff == old(arenaOff)
      ensures var left := Connected(old(g), k, inIds[..half]);
              g == Merged(left.g, k, left.base, inIds[half..]) && Holds(leftBase, left.base)
      ensures Holds(centerOut, LastRow(g, k))
      ensures OnlyWrote(leftBase, 2 * half, old(Top()))
      decreases k, 3
    {
      hide Emitter.Valid;
      hide Emitter.Holds;
      hide Within;
      hide LastRow;
      hide Merged;
      hide ButterflyCount;
      hide MergedPeak;
      hide Connected;
      hide ConnectedCount;
      hide ConnectedPeak;
      hide Pow2;
      ValidFacts();
      ghost var back := inIds[half..];
      ghost var left := Connected(g, k, inIds[..half]);
      EmitLeft(k, half, inputs, leftBase, inIds);
      ghost var before := Remember(leftBase, left.base);
      EmitMergedCenterIngress(k, leftBase, inputs + half, centerOut, left.base, back);
      HoldsKept(leftBase, left.base, before);
    }

    /** The left component; the second half of the inputs stays where it is. */
    method EmitLeft(k: nat, half: nat, inputs: nat, leftBase: nat, ghost inIds: seq<nat>)
      requires Valid() && half == Pow2(k) && Room(ConnectedCount(k))
      requires |inIds| == 2 * half && Holds(inputs, inIds) && Within(inIds, 0, nextId)
      requires inputs + 2 * half <= leftBase && leftBase + half <= Top()
      requires arenaOff + ConnectedPeak(k) <= arenaCap
      modifies this`nextId, this`g, this`arenaOff, mem, labels, nodes
      ensures Valid() && arenaOff == old(arenaOff) && nextId == old(nextId) + ConnectedCount(k)
      ensures var left := Connected(old(g), k, inIds[..half]);
              g == left.g && Holds(leftBase, left.base) && Within(left.base, 0, nextId)
      ensures Holds(inputs + half, inIds[half..]) && Within(inIds[half..], 0, nextId)
      ensures OnlyWrote(leftBase, half, old(Top()))
      decreases k, 2
    {
      hide Emitter.Valid;
      hide Emitter.Holds;
      hide Within;
      hide LastRow;
      hide Connected;
      hide ConnectedCount;
      hide ConnectedPeak;
      hide Pow2;
      ValidFacts();
      HoldsParts(inputs, inIds, half);
      WithinSlices(inIds, half, 0, nextId, nextId);
      ghost var front, back := inIds[..half], inIds[half..];
      ghost var before := Remember(inputs + half, back);
      ConnectedBase(g, k, front);
      EmitConnected(k, half, inputs, leftBase, front);
      HoldsKept(inputs + half, back, before);
      ValidFacts();
      WithinLoosen(back, 0, |old(g)|, 0, nextId);
      WithinLoosen(Connected(old(g), k, front).base, |old(g)|, |g|, 0, nextId);
    }

    /** The right component over the center outputs, then both bases side by side into `baseOut`. */
    method EmitRight(k: nat, half: nat, leftBase: nat, centerOut: nat, rightBase: nat, baseOut: nat,
                     ghost leftIds: seq<nat>)
      requires Valid() && half == Pow2(k) && Room(ConnectedCount(k)) && half <= |g|
      requires |leftIds| == half && Holds(leftBase, leftIds) && Holds(centerOut, LastRow(g, k))
      requires baseOut + 2 * half <= leftBase && leftBase + half <= centerOut && centerOut + half <= rightBase
      requires rightBase + half <= Top()
      requires arenaOff + ConnectedPeak(k) <= arenaCap
      modifies this`nextId, this`g, this`arenaOff, mem, labels, nodes
      ensures Valid() && arenaOff == old(arenaOff)
      ensures g == Connected(old(g), k, LastRow(old(g), k)).g
      ensures Holds(baseOut, leftIds + Connected(old(g), k, LastRow(old(g), k)).base)
      ensures OnlyWrote(baseOut, 2 * half, leftBase)
      decreases k, 2
    {
      hide Emitter.Valid;
      hide Emitter.Holds;
      hide Within;
      hide LastRow;
      hide Connected;
      hide ConnectedCount;
      hide ConnectedPeak;
      hide Pow2;
      ValidFacts();
      LastRowWithin(g, k);
      ghost var before := Remember(leftBase, leftIds);
      ghost var right := Connected(g, k, LastRow(g, k));
      EmitConnected(k, half, centerOut, rightBase, LastRow(g, k));
      HoldsKept(leftBase, leftIds, before);
      CopyHalves(baseOut, leftBase, rightBase, half, leftIds, right.base);
    }

    method EmitStandalone(level: nat, baseOut: nat)
      requires Valid() && Room(StandaloneCount(level))
      requires baseOut + Pow2(level) <= Top()
      requires arenaOff + StandalonePeak(level) <= arenaCap
      modifies this`nextId, this`g, this`arenaOff, mem, labels, nodes
      ensures Valid() && arenaOff == old(arenaOff)
      ensures g == Standalone(old(g), level).g
      ensures Holds(baseOut, Standalone(old(g), level).base)
      ensures OnlyWrote(baseOut, Pow2(level), old(Top()))
      decreases level, 1
    {
      if level == 0 {
        var id := Emit(Source);
        mem[baseOut] := id;
      } else {
        EmitStandaloneHalves(level - 1, baseOut);
      }
    }

    method EmitStandaloneHalves(k: nat, baseOut: nat)
      requires Valid() && Room(StandaloneCount(k + 1))
      requires baseOut + Pow2(k + 1) <= Top()
      requires arenaOff + StandalonePeak(k + 1) <= arenaCap
      modifies this`nextId, this`g, this`arenaOff, mem, labels, nodes
      ensures Valid() && arenaOff == old(arenaOff)
      ensures g == Standalone(old(g), k + 1).g
      ensures Holds(baseOut, Standalone(old(g), k + 1).base)
      ensures OnlyWrote(baseOut, Pow2(k + 1), old(Top()))
      decreases k, 3
    {
      hide Emitter.Valid;
      hide Emitter.Holds;
      hide Within;
      hide LastRow;
      hide Connector;
      hide ButterflyCount;
      hide Connected;
      hide ConnectedCount;
      hide ConnectedPeak;
      hide Standalone;
      hide Extend;
      hide StandaloneCount;
      hide StandalonePeak;
      ValidFacts();
      StandaloneUnfold(g, k);
      ExtendUnfold(Standalone(g, k), k);
      StandaloneRoom(k);
      var half := Pow2(k);
      var saved := arenaOff;
      var leftBase, centerOut, rightBase := AllocThree(half);
      ghost var left := Standalone(g, k);
      EmitStandaloneLeft(k, half, leftBase, centerOut);
      ValidFacts();
      EmitRight(k, half, leftBase, centerOut, rightBase, baseOut, left.base);
      arenaOff := saved;
    }

    /** The smaller standalone, then the connector over its base. */
    method EmitStandaloneLeft(k: nat, half: nat, leftBase: nat, centerOut: nat)
      requires Valid() && half == Pow2(k) && Room(StandaloneCount(k) + ButterflyCount(k))
      requires centerOut == leftBase + half && centerOut + half <= Top()
      requires arenaOff + StandalonePeak(k) <= arenaCap && arenaOff + ConnectorPeak(k) <= arenaCap
      modifies this`nextId, this`g, this`arenaOff, mem, labels, nodes
      ensures Valid() && arenaOff == old(arenaOff)
      ensures var left := Standalone(old(g), k);
              g == Connector(left.g, k, left.base) && Holds(leftBase, left.base)
      ensures Holds(centerOut, LastRow(g, k))
      ensures OnlyWrote(leftBase, 2 * half, old(Top()))
      decreases k, 2
    {
      hide Emitter.Valid;
      hide Emitter.Holds;
      hide Within;
      hide LastRow;
      hide Connector;
      hide ButterflyCount;
      hide Standalone;
      hide StandaloneCount;
      hide StandalonePeak;
      hide Pow2;
      ValidFacts();
      ghost var left := Standalone(g, k);
      StandaloneBase(g, k);
      EmitStandalone(k, leftBase);
      ValidFacts();
      WithinLoosen(left.base, |old(g)|, |left.g|, 0, nextId);
      ghost var before := Remember(leftBase, left.base);
      EmitConnector(k, leftBase, centerOut, left.base);
      HoldsKept(leftBase, left.base, before);
    }
  }

  lemma RowFitsLater(row: Graph, i: nat, n: nat, id: nat, id': nat)
    requires RowFits(row, id) && i + n <= |row| && id <= id'
    ensures RowFits(row[i..i + n], id')
  {
  }

  lemma SliceAt(s: seq<nat>, p: nat, n: nat, i: nat)
    requires p + n <= |s| && i < n
    ensures s[p..p + n][i] == s[p + i]
  {
  }

  lemma UnaryInRow(p: nat, mem: seq<nat>, dim: nat, i: nat)
    requires p + Pow2(dim) <= |mem| && i < Pow2(dim)
    ensures NodeOf(Unary(p), mem, dim, i) == Row(Unary(p), mem, dim)[i]
  {
    SliceAt(mem, p, Pow2(dim), i);
  }

  lemma CrossInRow(p: nat, b: nat, mem: seq<nat>, dim: nat, i: nat)
    requires b < dim && p + Pow2(dim) <= |mem| && i < Pow2(dim)
    ensures NodeOf(Cross(p, b), mem, dim, i) == Row(Cross(p, b), mem, dim)[i]
  {
    hide Flip;
    hide Pow2;
    hide Pair;
    var prev := mem[p..p + Pow2(dim)];
    FlipInLayer(i, b, dim);
    SliceAt(mem, p, Pow2(dim), i);
    SliceAt(mem, p, Pow2(dim), Flip(i, b));
    assert CrossRow(prev, dim, b)[i] == Pair(prev[i], prev[Flip(i, b)]) by {
      hide CrossRow;
    }
  }

  lemma JoinInRow(p: nat, q: nat, mem: seq<nat>, dim: nat, i: nat)
    requires p + Pow2(dim) <= |mem| && q + Pow2(dim) <= |mem| && i < Pow2(dim)
    ensures NodeOf(Join(p, q), mem, dim, i) == Row(Join(p, q), mem, dim)[i]
  {
    SliceAt(mem, p, Pow2(dim), i);
    SliceAt(mem, q, Pow2(dim), i);
  }

  lemma NodeInRow(src: RowSource, mem: seq<nat>, dim: nat, i: nat)
    requires src.Below(dim, |mem|) && i < Pow2(dim)
    ensures NodeOf(src, mem, dim, i) == Row(src, mem, dim)[i]
  {
    hide NodeOf;
    hide Row;
    match src
    case Unary(p) => UnaryInRow(p, mem, dim, i);
    case Cross(p, b) => CrossInRow(p, b, mem, dim, i);
    case Join(p, q) => JoinInRow(p, q, mem, dim, i);
  }

  lemma SameNode(src: RowSource, dim: nat, dst: nat, before: seq<nat>, after: seq<nat>, i: nat)
    requires |before| == |after| && src.Below(dim, |before|) && src.Apart(dim, dst) && i < Pow2(dim)
    requires forall k {:trigger after[k]} :: 0 <= k < |after| && !(dst <= k < dst + Pow2(dim)) ==> after[k] == before[k]
    ensures NodeOf(src, before, dim, i) == NodeOf(src, after, dim, i)
  {
    hide Flip;
    match src
    case Unary(_) =>
    case Cross(_, b) => FlipInLayer(i, b, dim);
    case Join(_, _) =>
  }

  /** A row does not depend on what is stored in its destination. */
  lemma SameRow(src: RowSource, dim: nat, dst: nat, before: seq<nat>, after: seq<nat>)
    requires |before| == |after| && src.Below(dim, |before|) && src.Apart(dim, dst)
    requires forall k {:trigger after[k]} :: 0 <= k < |after| && !(dst <= k < dst + Pow2(dim)) ==> after[k] == before[k]
    ensures Row(src, before, dim) == Row(src, after, dim)
  {
    hide NodeOf;
    hide Row;
    forall i | 0 <= i < Pow2(dim)
      ensures Row(src, before, dim)[i] == Row(src, after, dim)[i]
    {
      SameNode(src, dim, dst, before, after, i);
      NodeInRow(src, before, dim, i);
      NodeInRow(src, after, dim, i);
    }
  }

  /** The recorder holds exactly the graph's edges. */
  ghost predicate Recorded(records: seq<NodeRecord>, g: Graph) {
    && |records| == |g|
    && forall id {:trigger records[id]} :: 0 <= id < |g| ==> records[id] == NodeRecord(g[id], -1)
  }
}
