/** The label-carrying emitter: the arena holds the labels themselves, addressed by position.
    No id is ever stored or compared; ghost ids say which node a position stands for. */
module LabelEmitter {
  import opened Bits
  import opened Dag
  import opened Labelling
  import opened Arena
  import opened RowSources

  /** Predecessor labels of column i: for a butterfly pair the index with the bit cleared comes first. */
  function PredsOf(src: RowSource, mem: seq<Label>, dim: nat, i: nat): seq<Label>
    requires src.Below(dim, |mem|) && i < Pow2(dim)
  {
    match src
    case Unary(p) => [mem[p + i]]
    case Cross(p, b) =>
      FlipInLayer(i, b, dim);
      FlipLaws(i, b);
      [mem[p + Clear(i, b)], mem[p + Set(i, b)]]
    case Join(p, q) => [mem[p + i], mem[q + i]]
  }

  /** Column by column, the row source delivers the labels of the row's predecessors. */
  ghost predicate Feeds(src: RowSource, mem: seq<Label>, dim: nat, ls: seq<Label>, row: Graph)
    requires src.Below(dim, |mem|) && |row| == Pow2(dim) && RowFits(row, |ls|)
  {
    forall i {:trigger row[i]} :: 0 <= i < |row| ==> PredsOf(src, mem, dim, i) == PredLabels(ls, row[i])
  }

  lemma FeedsUnary(p: nat, mem: seq<Label>, dim: nat, s: Session, g: Graph, ids: seq<nat>)
    requires WellFormed(g) && Within(ids, 0, |g|) && |ids| == Pow2(dim)
    requires p + Pow2(dim) <= |mem| && mem[p..p + Pow2(dim)] == Pick(s, g, ids)
    ensures RowFits(UnaryRow(ids), |g|)
    ensures Feeds(Unary(p), mem, dim, Labels(s, g), UnaryRow(ids))
  {
    hide Labels;
    UnaryFits(ids, |g|);
    forall i | 0 <= i < Pow2(dim)
      ensures PredsOf(Unary(p), mem, dim, i) == PredLabels(Labels(s, g), UnaryRow(ids)[i])
    {
      assert mem[p + i] == mem[p..p + Pow2(dim)][i];
    }
  }

  /** The canonical order of a crossing pair needs no id comparison: ids ascend with the column. */
  lemma CrossOrder(g: Graph, dim: nat, b: nat, i: nat)
    requires b < dim && Pow2(dim) <= |g| && i < Pow2(dim)
    ensures Clear(i, b) < Set(i, b) < Pow2(dim)
    ensures CrossRow(LastRow(g, dim), dim, b)[i] == Two(LastRow(g, dim)[Clear(i, b)], LastRow(g, dim)[Set(i, b)])
  {
    hide Flip;
    hide Clear;
    hide Set;
    hide IsSet;
    FlipInLayer(i, b, dim);
    FlipLaws(i, b);
  }

  lemma FeedsCross(p: nat, b: nat, mem: seq<Label>, dim: nat, s: Session, g: Graph)
    requires WellFormed(g) && b < dim && Pow2(dim) <= |g| && Within(LastRow(g, dim), 0, |g|)
    requires p + Pow2(dim) <= |mem| && mem[p..p + Pow2(dim)] == Pick(s, g, LastRow(g, dim))
    ensures RowFits(CrossRow(LastRow(g, dim), dim, b), |g|)
    ensures Feeds(Cross(p, b), mem, dim, Labels(s, g), CrossRow(LastRow(g, dim), dim, b))
  {
    hide Labels;
    hide CrossRow;
    hide LastRow;
    hide Clear;
    hide Set;
    hide Flip;
    CrossFits(g, dim, b);
    var w := Pow2(dim);
    var row := CrossRow(LastRow(g, dim), dim, b);
    forall i | 0 <= i < |row|
      ensures PredsOf(Cross(p, b), mem, dim, i) == PredLabels(Labels(s, g), row[i])
    {
      CrossOrder(g, dim, b, i);
      assert mem[p + Clear(i, b)] == mem[p..p + w][Clear(i, b)] && mem[p + Set(i, b)] == mem[p..p + w][Set(i, b)];
    }
  }

  /** Primary inputs are older than every ingress output, so primary comes first. */
  lemma FeedsJoin(p: nat, q: nat, mem: seq<Label>, dim: nat, s: Session, g: Graph, mid: nat, pIds: seq<nat>,
                  iIds: seq<nat>)
    requires WellFormed(g) && |pIds| == |iIds| == Pow2(dim) && mid <= |g|
    requires Within(pIds, 0, mid) && Within(iIds, mid, |g|) && Within(pIds, 0, |g|) && Within(iIds, 0, |g|)
    requires p + Pow2(dim) <= |mem| && mem[p..p + Pow2(dim)] == Pick(s, g, pIds)
    requires q + Pow2(dim) <= |mem| && mem[q..q + Pow2(dim)] == Pick(s, g, iIds)
    ensures RowFits(JoinRow(pIds, iIds), |g|)
    ensures Feeds(Join(p, q), mem, dim, Labels(s, g), JoinRow(pIds, iIds))
  {
    hide Labels;
    hide Pow2;
    JoinFits(pIds, iIds, mid, |g|);
    var row := JoinRow(pIds, iIds);
    forall i | 0 <= i < |row|
      ensures PredsOf(Join(p, q), mem, dim, i) == PredLabels(Labels(s, g), row[i])
    {
      assert pIds[i] < mid <= iIds[i];
      assert row[i] == Two(pIds[i], iIds[i]);
      assert mem[p + i] == mem[p..p + Pow2(dim)][i] && mem[q + i] == mem[q..q + Pow2(dim)][i];
    }
  }

  lemma SamePreds(src: RowSource, dim: nat, dst: nat, before: seq<Label>, after: seq<Label>, i: nat)
    requires |before| == |after| && src.Below(dim, |before|) && src.Apart(dim, dst) && i < Pow2(dim)
    requires forall k {:trigger after[k]} :: 0 <= k < |after| && !(dst <= k < dst + Pow2(dim)) ==> after[k] == before[k]
    ensures PredsOf(src, before, dim, i) == PredsOf(src, after, dim, i)
  {
    match src
    case Unary(_) =>
    case Cross(p, b) => FlipInLayer(i, b, dim); FlipLaws(i, b);
    case Join(_, _) =>
  }

  class LEmitter {
    const session: Session
    /** Base-output arrays followed by the label arena; a pointer is an index. */
    const mem: array<Label>
    const arena: nat
    const arenaCap: nat
    var arenaOff: nat
    var arenaHi: nat
    var nextId: nat
    ghost var g: Graph

    ghost predicate Valid()
      reads `nextId, `g
    {
      WellFormed(g) && nextId == |g| && arena + arenaCap <= mem.Length
    }

    function Top(): nat
      reads `arenaOff
    {
      arena + arenaOff
    }

    constructor (session: Session, mem: array<Label>, arena: nat, arenaCap: nat)
      requires arena + arenaCap <= mem.Length
      ensures Valid() && g == [] && arenaOff == 0 && arenaHi == 0
      ensures this.session == session && this.mem == mem && this.arena == arena && this.arenaCap == arenaCap
    {
      this.session, this.mem, this.arena, this.arenaCap := session, mem, arena, arenaCap;
      arenaOff, arenaHi, nextId := 0, 0, 0;
      g := [];
    }

    method Alloc(n: nat) returns (p: nat)
      requires arenaOff + n <= arenaCap
      modifies `arenaOff, `arenaHi
      ensures p == old(Top()) && Top() == p + n
      ensures arenaHi == Max(old(arenaHi), arenaOff)
    {
      p := arena + arenaOff;
      arenaOff := arenaOff + n;
      if arenaOff > arenaHi {
        arenaHi := arenaOff;
      }
      assert arenaOff <= arenaCap;
    }

    /** Left base, center outputs and right base, one behind the other. */
    method AllocThree(n: nat) returns (left: nat, center: nat, right: nat)
      requires arenaOff + 3 * n <= arenaCap
      modifies `arenaOff, `arenaHi
      ensures left == old(Top()) && center == left + n && right == center + n && Top() == right + n
      ensures arenaHi == Max(old(arenaHi), arenaOff)
    {
      left := Alloc(n);
      center := Alloc(n);
      right := Alloc(n);
    }

    twostate predicate OnlyWrote(dst: nat, w: nat, top: nat)
      requires top <= mem.Length
      reads mem
    {
      forall k {:trigger mem[k]} :: 0 <= k < top && !(dst <= k < dst + w) ==> mem[k] == old(mem[k])
    }

    /** Memory holds the labels of the nodes `ids` from address `p` on. */
    ghost predicate Holds(p: nat, ids: seq<nat>)
      reads mem, `g
    {
      && WellFormed(g) && Within(ids, 0, |g|)
      && p + |ids| <= mem.Length
      && mem[p..p + |ids|] == Pick(session, g, ids)
    }

    lemma ValidFacts()
      requires Valid()
      ensures WellFormed(g) && nextId == |g| && arena + arenaCap <= mem.Length
    {
    }

    lemma Remember(p: nat, ids: seq<nat>) returns (before: seq<Label>, older: Graph)
      requires Holds(p, ids)
      ensures before == mem[..] && older == g
      ensures WellFormed(g) && Within(ids, 0, |g|)
      ensures p + |ids| <= |before| && before[p..p + |ids|] == Pick(session, g, ids)
    {
      before, older := mem[..], g;
    }

    /** Labels that stay in place keep standing for the same nodes while the graph grows. */
    lemma HoldsKept(p: nat, ids: seq<nat>, before: seq<Label>, older: Graph)
      requires WellFormed(older) && WellFormed(g) && older <= g && Within(ids, 0, |older|)
      requires p + |ids| <= |before| <= mem.Length && before[p..p + |ids|] == Pick(session, older, ids)
      requires forall k {:trigger mem[k]} :: p <= k < p + |ids| ==> mem[k] == before[k]
      ensures Holds(p, ids)
    {
      hide Labels;
      PickGrow(session, older, g, ids);
      assert mem[p..p + |ids|] == before[p..p + |ids|];
    }

    lemma HoldsParts(p: nat, ids: seq<nat>, k: nat)
      requires Holds(p, ids) && k <= |ids|
      ensures Holds(p, ids[..k]) && Holds(p + k, ids[k..])
    {
      hide Labels;
      PickSlices(session, g, ids, k);
    }

    lemma HoldsConcat(p: nat, front: seq<nat>, back: seq<nat>)
      requires Holds(p, front) && Holds(p + |front|, back)
      ensures Holds(p, front + back)
    {
      hide Labels;
      PickConcat(session, g, front, back);
      assert mem[p..p + |front| + |back|] == mem[p..p + |front|] + mem[p + |front|..p + |front| + |back|];
    }

    method Copy(dst: nat, src: nat, n: nat, ghost ids: seq<nat>)
      requires |ids| == n && Holds(src, ids) && dst + n <= mem.Length
      requires dst + n <= src || src + n <= dst
      modifies mem
      ensures Holds(dst, ids)
      ensures OnlyWrote(dst, n, mem.Length)
    {
      hide Labels;
      ghost var ls := Pick(session, g, ids);
      for i := 0 to n
        invariant OnlyWrote(dst, n, mem.Length)
        invariant forall k {:trigger mem[k]} :: dst <= k < dst + i ==> mem[k] == ls[k - dst]
      {
        assert mem[src + i] == old(mem[src..src + n])[i];
        mem[dst + i] := mem[src + i];
      }
      assert mem[dst..dst + n] == ls;
    }

    /** Label one node from its predecessors' labels, handed over in canonical order. */
    method LcNode(preds: seq<Label>, ghost node: Node) returns (out: Label)
      requires Valid() && Fits(node, nextId) && preds == PredLabels(Labels(session, g), node)
      modifies `nextId, `g
      ensures Valid() && g == old(g) + [node] && nextId == old(nextId) + 1
      ensures out == Labels(session, g)[old(nextId)]
    {
      hide Labels;
      out := NodeLabel(session, nextId, preds);
      nextId := nextId + 1;
      LabelsAppendOne(session, g, node);
      g := g + [node];
    }

    /** One layer of 2^dim nodes in batches; `row` is the ghost layer being labelled. */
    method LcRow(src: RowSource, dim: nat, dst: nat, ghost row: Graph)
      requires Valid() && |row| == Pow2(dim) && RowFits(row, nextId)
      requires src.Below(dim, mem.Length) && dst + Pow2(dim) <= mem.Length && src.Apart(dim, dst)
      requires Feeds(src, mem[..], dim, Labels(session, g), row)
      modifies `nextId, `g, mem
      ensures Valid() && g == old(g) + row && nextId == old(nextId) + Pow2(dim)
      ensures Holds(dst, LastRow(g, dim))
      ensures OnlyWrote(dst, Pow2(dim), mem.Length)
    {
      hide Labels;
      hide NodeLabel;
      hide PredLabels;
      hide PredsOf;
      hide RowSource.Below;
      hide RowSource.Apart;
      hide WellFormed;
      hide Fits;
      hide Feeds;
      hide RowFits;
      hide Pow2;
      var w := Pow2(dim);
      var first := nextId;
      ghost var ls := Labels(session, g);
      ghost var out := RowLabels(session, first, ls, row);
      var i := 0;
      while i < w
        invariant i <= w && nextId == first + i && g == old(g)
        invariant forall k {:trigger mem[k]} :: dst <= k < dst + i ==> mem[k] == out[k - dst]
        invariant OnlyWrote(dst, w, mem.Length)
      {
        var n := if w - i < LABEL_BATCH then w - i else LABEL_BATCH;
        LcBatch(src, dim, dst, i, n, first, row, ls, old(mem[..]));
        i := i + n;
      }
      assert mem[dst..dst + w] == out;
      RowLanded(dim, dst, row);
      g := g + row;
    }

    /** A stored row stands for the graph's new last row. */
    lemma RowLanded(dim: nat, dst: nat, row: Graph)
      requires WellFormed(g) && RowFits(row, |g|) && |row| == Pow2(dim) && dst + Pow2(dim) <= mem.Length
      requires mem[dst..dst + Pow2(dim)] == RowLabels(session, |g|, Labels(session, g), row)
      ensures WellFormed(g + row) && Within(LastRow(g + row, dim), 0, |g + row|)
      ensures mem[dst..dst + Pow2(dim)] == Pick(session, g + row, LastRow(g + row, dim))
    {
      hide Labels;
      hide RowLabels;
      PickLastRow(session, g, row, dim);
      LabelsAppendRow(session, g, row);
    }

    /** Columns [i, i + n) of a row: gather, hash, store. */
    method LcBatch(src: RowSource, dim: nat, dst: nat, i: nat, n: nat, ghost first: nat, ghost row: Graph,
                   ghost ls: seq<Label>, ghost before: seq<Label>)
      requires i + n <= Pow2(dim) == |row| && n <= LABEL_BATCH && |ls| == first && RowFits(row, first)
      requires nextId == first + i
      requires |before| == mem.Length && src.Below(dim, |before|) && src.Apart(dim, dst)
      requires dst + Pow2(dim) <= mem.Length
      requires forall k {:trigger mem[k]} :: 0 <= k < mem.Length && !(dst <= k < dst + Pow2(dim)) ==>
                mem[k] == before[k]
      requires Feeds(src, before, dim, ls, row)
      modifies `nextId, mem
      ensures nextId == old(nextId) + n
      ensures forall k {:trigger mem[k]} :: dst + i <= k < dst + i + n ==>
                mem[k] == RowLabels(session, first, ls, row)[k - dst]
      ensures OnlyWrote(dst + i, n, mem.Length)
    {
      hide NodeLabel;
      hide PredLabels;
      hide RowSource.Below;
      hide RowSource.Apart;
      hide Feeds;
      hide Pow2;
      ghost var out := RowLabels(session, first, ls, row);
      hide RowFits;
      var ids, preds := GatherPreds(src, dim, dst, i, n, row, ls, before);
      var outs := HashBatch(session, ids, preds);
      assert forall j {:trigger outs[j]} :: 0 <= j < n ==> outs[j] == out[i + j];
      StoreRow(dst + i, outs);
    }

    /** Ids and predecessor labels of columns [i, i + n). */
    method GatherPreds(src: RowSource, dim: nat, dst: nat, i: nat, n: nat, ghost row: Graph, ghost ls: seq<Label>,
                       ghost before: seq<Label>)
      returns (ids: seq<nat>, preds: seq<seq<Label>>)
      requires i + n <= Pow2(dim) == |row| && RowFits(row, |ls|)
      requires |before| == mem.Length && src.Below(dim, |before|) && src.Apart(dim, dst)
      requires forall k {:trigger mem[k]} :: 0 <= k < mem.Length && !(dst <= k < dst + Pow2(dim)) ==>
                mem[k] == before[k]
      requires Feeds(src, before, dim, ls, row)
      modifies `nextId
      ensures nextId == old(nextId) + n && ids == Ids(old(nextId), n) && |preds| == n
      ensures forall j {:trigger preds[j]} :: 0 <= j < n ==> preds[j] == PredLabels(ls, row[i + j])
    {
      hide PredLabels;
      hide PredsOf;
      hide RowSource.Below;
      hide RowSource.Apart;
      hide Fits;
      hide Pow2;
      ids, preds := [], [];
      for j := 0 to n
        invariant nextId == old(nextId) + j && |ids| == |preds| == j
        invariant forall k {:trigger ids[k]} :: 0 <= k < j ==> ids[k] == old(nextId) + k
        invariant forall k {:trigger preds[k]} :: 0 <= k < j ==> preds[k] == PredLabels(ls, row[i + k])
      {
        SamePreds(src, dim, dst, before, mem[..], i + j);
        assert row[i + j] == row[i + j];
        ids := ids + [nextId];
        preds := preds + [PredsOf(src, mem[..], dim, i + j)];
        nextId := nextId + 1;
      }
    }

    method StoreRow(p: nat, outs: seq<Label>)
      requires p + |outs| <= mem.Length
      modifies mem
      ensures forall k {:trigger mem[k]} :: p <= k < p + |outs| ==> mem[k] == outs[k - p]
      ensures OnlyWrote(p, |outs|, mem.Length)
    {
      for j := 0 to |outs|
        invariant forall k {:trigger mem[k]} :: p <= k < p + j ==> mem[k] == outs[k - p]
        invariant OnlyWrote(p, |outs|, mem.Length)
      {
        mem[p + j] := outs[j];
      }
    }

    /** One crossing layer on bit `b`. */
    method LcLayer(dim: nat, b: nat, prev: nat, curr: nat)
      requires Valid() && b < dim
      requires Pow2(dim) <= |g| && Holds(prev, LastRow(g, dim))
      requires curr + Pow2(dim) <= mem.Length
      requires prev + Pow2(dim) <= curr || curr + Pow2(dim) <= prev
      modifies `nextId, `g, mem
      ensures Valid() && g == old(g) + CrossRow(LastRow(old(g), dim), dim, b)
      ensures nextId == old(nextId) + Pow2(dim)
      ensures Holds(curr, LastRow(g, dim))
      ensures OnlyWrote(curr, Pow2(dim), mem.Length)
    {
      hide Labels;
      hide WellFormed;
      hide Fits;
      hide Feeds;
      hide Within;
      ghost var row := CrossRow(LastRow(g, dim), dim, b);
      FeedsCross(prev, b, mem[..], dim, session, g);
      LcRow(Cross(prev, b), dim, curr, row);
    }

    /** `k` crossing layers over two arrays that swap roles; `prev` is the one written last. */
    method LcLayers(dim: nat, k: nat, a: nat, b: nat) returns (prev: nat, curr: nat)
      requires Valid() && k <= dim
      requires Pow2(dim) <= |g| && Holds(a, LastRow(g, dim))
      requires a + Pow2(dim) <= mem.Length && b + Pow2(dim) <= mem.Length
      requires a + Pow2(dim) <= b || b + Pow2(dim) <= a
      modifies `nextId, `g, mem
      ensures Valid() && g == Mix(old(g), dim, k)
      ensures nextId == old(nextId) + Layers(Pow2(dim), k)
      ensures (prev == a && curr == b) || (prev == b && curr == a)
      ensures Holds(prev, LastRow(g, dim))
      ensures OnlyWrote(0, 0, Min(a, b))
    {
      hide LEmitter.Valid;
      hide LEmitter.Holds;
      hide CrossRow;
      hide LastRow;
      hide Pow2;
      prev, curr := a, b;
      for layer := 0 to k
        invariant Valid()
        invariant nextId == old(nextId) + Layers(Pow2(dim), layer)
        invariant g == Mix(old(g), dim, layer)
        invariant (prev == a && curr == b) || (prev == b && curr == a)
        invariant Holds(prev, LastRow(g, dim))
        invariant OnlyWrote(0, 0, Min(a, b))
      {
        LcLayer(dim, dim - 1 - layer, prev, curr);
        prev, curr := curr, prev;
      }
    }

    /** A whole butterfly over two arena arrays; `prev` holds its last layer. */
    method LcButterfly(dim: nat, inputs: nat, a: nat, b: nat, ghost inIds: seq<nat>) returns (prev: nat, curr: nat)
      requires Valid()
      requires |inIds| == Pow2(dim) && Holds(inputs, inIds) && Within(inIds, 0, nextId)
      requires inputs + Pow2(dim) <= a && a + Pow2(dim) <= b && b + Pow2(dim) <= mem.Length
      modifies `nextId, `g, mem
      ensures Valid() && g == Connector(old(g), dim, inIds)
      ensures nextId == old(nextId) + ButterflyCount(dim)
      ensures (prev == a && curr == b) || (prev == b && curr == a)
      ensures Holds(prev, LastRow(g, dim))
      ensures OnlyWrote(0, 0, a)
    {
      hide LEmitter.Valid;
      hide LEmitter.Holds;
      hide LastRow;
      hide Pow2;
      hide UnaryRow;
      hide Within;
      ValidFacts();
      LcFirst(dim, inputs, a, inIds);
      prev, curr := LcLayers(dim, dim, a, b);
    }

    method LcConnector(dim: nat, inputs: nat, outputs: nat, ghost inIds: seq<nat>)
      requires Valid() && arenaOff <= arenaHi
      requires |inIds| == Pow2(dim) && Holds(inputs, inIds) && Within(inIds, 0, nextId)
      requires inputs + Pow2(dim) <= Top() && outputs + Pow2(dim) <= Top()
      requires arenaOff + ConnectorPeak(dim) <= arenaCap
      modifies `nextId, `g, `arenaOff, `arenaHi, mem
      ensures Valid() && arenaOff == old(arenaOff)
      ensures arenaHi == Max(old(arenaHi), old(arenaOff) + ConnectorPeak(dim))
      ensures g == Connector(old(g), dim, inIds)
      ensures Holds(outputs, LastRow(g, dim))
      ensures OnlyWrote(outputs, Pow2(dim), old(Top()))
    {
      hide LEmitter.Valid;
      hide LEmitter.Holds;
      hide LastRow;
      hide Pow2;
      hide Connector;
      hide Within;
      ValidFacts();
      var width := Pow2(dim);
      var saved := arenaOff;
      var prev := Alloc(width);
      var curr := Alloc(width);
      prev, curr := LcButterfly(dim, inputs, prev, curr, inIds);
      Copy(outputs, prev, width, LastRow(g, dim));
      arenaOff := saved;
    }

    /** First layer of a butterfly: one node per input. */
    method LcFirst(dim: nat, inputs: nat, prev: nat, ghost inIds: seq<nat>)
      requires Valid()
      requires |inIds| == Pow2(dim) && Holds(inputs, inIds) && Within(inIds, 0, nextId)
      requires prev + Pow2(dim) <= mem.Length && inputs + Pow2(dim) <= prev
      modifies `nextId, `g, mem
      ensures Valid() && g == old(g) + UnaryRow(inIds)
      ensures nextId == old(nextId) + Pow2(dim)
      ensures Holds(prev, LastRow(g, dim))
      ensures OnlyWrote(prev, Pow2(dim), mem.Length)
    {
      hide Labels;
      hide WellFormed;
      hide Fits;
      hide Feeds;
      hide Within;
      FeedsUnary(inputs, mem[..], dim, session, g, inIds);
      LcRow(Unary(inputs), dim, prev, UnaryRow(inIds));
    }

    /** First layer of the center butterfly: primary input i joined to ingress output i. */
    method LcJoin(dim: nat, primary: nat, ingress: nat, dst: nat, ghost mid: nat, ghost pIds: seq<nat>,
                  ghost iIds: seq<nat>)
      requires Valid()
      requires |pIds| == |iIds| == Pow2(dim)
      requires Holds(primary, pIds) && Within(pIds, 0, mid) && mid <= nextId
      requires Holds(ingress, iIds) && Within(iIds, mid, nextId)
      requires dst + Pow2(dim) <= mem.Length
      requires primary + Pow2(dim) <= dst && ingress + Pow2(dim) <= dst
      modifies `nextId, `g, mem
      ensures Valid() && g == old(g) + JoinRow(pIds, iIds)
      ensures nextId == old(nextId) + Pow2(dim)
      ensures Holds(dst, LastRow(g, dim))
      ensures OnlyWrote(dst, Pow2(dim), mem.Length)
    {
      hide Labels;
      hide WellFormed;
      hide Fits;
      hide Feeds;
      hide Within;
      FeedsJoin(primary, ingress, mem[..], dim, session, g, mid, pIds, iIds);
      LcRow(Join(primary, ingress), dim, dst, JoinRow(pIds, iIds));
    }

    method LcMergedCenterIngress(dim: nat, primary: nat, ingress: nat, outputs: nat, ghost pIds: seq<nat>,
                                 ghost iIds: seq<nat>)
      requires Valid() && arenaOff <= arenaHi
      requires |pIds| == |iIds| == Pow2(dim)
      requires Holds(primary, pIds) && Within(pIds, 0, nextId)
      requires Holds(ingress, iIds) && Within(iIds, 0, nextId)
      requires primary + Pow2(dim) <= Top() && ingress + Pow2(dim) <= Top() && outputs + Pow2(dim) <= Top()
      requires arenaOff + MergedPeak(dim) <= arenaCap
      modifies `nextId, `g, `arenaOff, `arenaHi, mem
      ensures Valid() && arenaOff == old(arenaOff)
      ensures arenaHi == Max(old(arenaHi), old(arenaOff) + MergedPeak(dim))
      ensures g == Merged(old(g), dim, pIds, iIds)
      ensures Holds(outputs, LastRow(g, dim))
      ensures OnlyWrote(outputs, Pow2(dim), old(Top()))
    {
      if dim == 0 {
        LcMergedPair(primary, ingress, outputs, pIds, iIds);
      } else {
        LcMergedLayers(dim, primary, ingress, outputs, pIds, iIds);
      }
    }

    /** Dimension >= 1: all ingress layers, then all center layers, the last one straight into `outputs`. */
    method LcMergedLayers(dim: nat, primary: nat, ingress: nat, outputs: nat, ghost pIds: seq<nat>,
                          ghost iIds: seq<nat>)
      requires Valid() && arenaOff <= arenaHi && dim > 0
      requires |pIds| == |iIds| == Pow2(dim)
      requires Holds(primary, pIds) && Within(pIds, 0, nextId)
      requires Holds(ingress, iIds) && Within(iIds, 0, nextId)
      requires primary + Pow2(dim) <= Top() && ingress + Pow2(dim) <= Top() && outputs + Pow2(dim) <= Top()
      requires arenaOff + MergedPeak(dim) <= arenaCap
      modifies `nextId, `g, `arenaOff, `arenaHi, mem
      ensures Valid() && arenaOff == old(arenaOff)
      ensures arenaHi == Max(old(arenaHi), old(arenaOff) + MergedPeak(dim))
      ensures g == Merged(old(g), dim, pIds, iIds)
      ensures Holds(outputs, LastRow(g, dim))
      ensures OnlyWrote(outputs, Pow2(dim), old(Top()))
    {
      hide LEmitter.Valid;
      hide LEmitter.Holds;
      hide Pow2;
      hide LastRow;
      hide Connector;
      hide Within;
      ValidFacts();
      ghost var before, older := Remember(primary, pIds);
      var width := Pow2(dim);
      var saved := arenaOff;
      var ingPrev := Alloc(width);
      var ingCurr := Alloc(width);
      var ctrPrev := Alloc(width);
      var ctrCurr := Alloc(width);
      ingPrev, ingCurr := LcButterfly(dim, ingress, ingPrev, ingCurr, iIds);
      ValidFacts();
      HoldsKept(primary, pIds, before, older);
      LcCenter(dim, primary, ingPrev, ctrPrev, ctrCurr, outputs, old(g), pIds);
      arenaOff := saved;
    }

    /** The center butterfly: layer 0 joins, then dim crossing layers, the last one straight into `outputs`. */
    method LcCenter(dim: nat, primary: nat, ingress: nat, a: nat, b: nat, outputs: nat, ghost base: Graph,
                    ghost pIds: seq<nat>)
      requires Valid() && dim > 0
      requires |base| + Pow2(dim) <= |g|
      requires |pIds| == Pow2(dim) && Holds(primary, pIds) && Within(pIds, 0, |base|)
      requires Holds(ingress, LastRow(g, dim))
      requires primary + Pow2(dim) <= a && ingress + Pow2(dim) <= a && outputs + Pow2(dim) <= a
      requires a + Pow2(dim) <= b && b + Pow2(dim) <= mem.Length
      modifies `nextId, `g, mem
      ensures Valid()
      ensures g == Mix(old(g) + JoinRow(pIds, LastRow(old(g), dim)), dim, dim)
      ensures nextId == old(nextId) + ButterflyCount(dim)
      ensures Holds(outputs, LastRow(g, dim))
      ensures OnlyWrote(outputs, Pow2(dim), a)
    {
      hide LEmitter.Valid;
      hide LEmitter.Holds;
      hide Pow2;
      hide LastRow;
      hide JoinRow;
      hide CrossRow;
      hide Within;
      ValidFacts();
      LastRowNew(base, g, dim);
      LcJoin(dim, primary, ingress, a, |base|, pIds, LastRow(g, dim));
      var prev, curr := LcLayers(dim, dim - 1, a, b);
      LcLayer(dim, 0, prev, outputs);
    }

    /** Dimension 0: one ingress node and one center node. */
    method LcMergedPair(primary: nat, ingress: nat, outputs: nat, ghost pIds: seq<nat>, ghost iIds: seq<nat>)
      requires Valid()
      requires |pIds| == |iIds| == 1
      requires Holds(primary, pIds) && Within(pIds, 0, nextId)
      requires Holds(ingress, iIds) && Within(iIds, 0, nextId)
      requires outputs < mem.Length
      modifies `nextId, `g, mem
      ensures Valid()
      ensures g == Merged(old(g), 0, pIds, iIds)
      ensures Holds(outputs, LastRow(g, 0))
      ensures OnlyWrote(outputs, 1, mem.Length)
    {
      hide Labels;
      ghost var g0 := g;
      assert mem[ingress..ingress + 1][0] == mem[ingress] && mem[primary..primary + 1][0] == mem[primary];
      var ig := LcNode([mem[ingress]], One(iIds[0]));
      PickGrow(session, g0, g, pIds);
      ghost var g1 := g;
      var out := LcNode([mem[primary], ig], Pair(pIds[0], nextId - 1));
      mem[outputs] := out;
      assert UnaryRow(iIds) == [One(iIds[0])];
      assert LastRow(g1, 0) == [|g0|];
      assert JoinRow(pIds, [|g0|]) == [Pair(pIds[0], |g0|)];
      assert LastRow(g, 0) == [|g1|];
    }

    /** The component's base output: the left base followed by the right base. */
    method CopyHalves(baseOut: nat, left: nat, right: nat, half: nat, ghost leftIds: seq<nat>, ghost rightIds: seq<nat>)
      requires |leftIds| == |rightIds| == half && Holds(left, leftIds) && Holds(right, rightIds)
      requires baseOut + 2 * half <= left && left + half <= right
      modifies mem
      ensures Holds(baseOut, leftIds + rightIds)
      ensures OnlyWrote(baseOut, 2 * half, mem.Length)
    {
      hide LEmitter.Holds;
      hide WellFormed;
      hide Within;
      hide Pick;
      ghost var before, older := Remember(right, rightIds);
      Copy(baseOut, left, half, leftIds);
      HoldsKept(right, rightIds, before, older);
      before, older := Remember(baseOut, leftIds);
      Copy(baseOut + half, right, half, rightIds);
      HoldsKept(baseOut, leftIds, before, older);
      HoldsConcat(baseOut, leftIds, rightIds);
    }

    method LcConnected(level: nat, width: nat, inputs: nat, baseOut: nat, ghost inIds: seq<nat>)
      requires Valid() && arenaOff <= arenaHi && width == Pow2(level)
      requires |inIds| == width && Holds(inputs, inIds) && Within(inIds, 0, nextId)
      requires inputs + width <= Top() && baseOut + width <= Top()
      requires arenaOff + ConnectedPeak(level) <= arenaCap
      modifies `nextId, `g, `arenaOff, `arenaHi, mem
      ensures Valid() && arenaOff == old(arenaOff)
      ensures arenaHi == Max(old(arenaHi), old(arenaOff) + ConnectedPeak(level))
      ensures g == Connected(old(g), level, inIds).g
      ensures Holds(baseOut, Connected(old(g), level, inIds).base)
      ensures OnlyWrote(baseOut, width, old(Top()))
      decreases level, 1
    {
      hide LEmitter.Valid;
      hide LEmitter.Holds;
      hide Connected;
      hide ConnectedCount;
      hide ConnectedPeak;
      hide Within;
      ValidFacts();
      if level == 0 {
        LcConnectedLeaf(inputs, baseOut, inIds);
      } else {
        LcConnectedHalves(level - 1, width, inputs, baseOut, inIds);
      }
    }

    /** Level 0: a single node over its one input. */
    method LcConnectedLeaf(inputs: nat, baseOut: nat, ghost inIds: seq<nat>)
      requires Valid() && |inIds| == 1 && Holds(inputs, inIds)
      requires inputs < mem.Length && baseOut < mem.Length
      modifies `nextId, `g, mem
      ensures Valid() && g == Connected(old(g), 0, inIds).g
      ensures Holds(baseOut, Connected(old(g), 0, inIds).base)
      ensures OnlyWrote(baseOut, 1, mem.Length)
      ensures ConnectedPeak(0) == 0
    {
      hide Labels;
      assert mem[inputs..inputs + 1][0] == mem[inputs];
      var out := LcNode([mem[inputs]], One(inIds[0]));
      mem[baseOut] := out;
    }

    method LcConnectedHalves(k: nat, width: nat, inputs: nat, baseOut: nat, ghost inIds: seq<nat>)
      requires Valid() && arenaOff <= arenaHi && width == Pow2(k + 1)
      requires |inIds| == width && Holds(inputs, inIds) && Within(inIds, 0, nextId)
      requires inputs + width <= Top() && baseOut + width <= Top()
      requires arenaOff + ConnectedPeak(k + 1) <= arenaCap
      modifies `nextId, `g, `arenaOff, `arenaHi, mem
      ensures Valid() && arenaOff == old(arenaOff)
      ensures arenaHi == Max(old(arenaHi), old(arenaOff) + ConnectedPeak(k + 1))
      ensures g == Connected(old(g), k + 1, inIds).g
      ensures Holds(baseOut, Connected(old(g), k + 1, inIds).base)
      ensures OnlyWrote(baseOut, width, old(Top()))
      decreases k, 4
    {
      hide LEmitter.Valid;
      hide LEmitter.Holds;
      hide Within;
      hide LastRow;
      hide Merged;
      hide ButterflyCount;
      hide MergedPeak;
      hide Connected;
      hide ConnectedCount;
      hide ConnectedPeak;
      ValidFacts();
      ConnectedUnfold(g, k, inIds);
      ConnectedRoom(k);
      var half := width / 2;
      var saved := arenaOff;
      var leftBase, centerOut, rightBase := AllocThree(half);
      ghost var left := Connected(g, k, inIds[..half]);
      LcLeftAndCenter(k, half, inputs, leftBase, centerOut, inIds);
      ValidFacts();
      LcRight(k, half, leftBase, centerOut, rightBase, baseOut, left.base);
      arenaOff := saved;
    }

    /** The left component on the first half of the inputs, then the merged butterflies over the second half. */
    method LcLeftAndCenter(k: nat, half: nat, inputs: nat, leftBase: nat, centerOut: nat, ghost inIds: seq<nat>)
      requires Valid() && arenaOff <= arenaHi && half == Pow2(k)
      requires |inIds| == 2 * half && Holds(inputs, inIds) && Within(inIds, 0, nextId)
      requires inputs + 2 * half <= leftBase && centerOut == leftBase + half && centerOut + half <= Top()
      requires arenaOff + ConnectedPeak(k) <= arenaCap && arenaOff + MergedPeak(k) <= arenaCap
      modifies `nextId, `g, `arenaOff, `arenaHi, mem
      ensures Valid() && arenaOff == old(arenaOff)
      ensures arenaHi == Max(old(arenaHi), old(arenaOff) + Max(ConnectedPeak(k), MergedPeak(k)))
      ensures var left := Connected(old(g), k, inIds[..half]);
              g == Merged(left.g, k, left.base, inIds[half..]) && Holds(leftBase, left.base)
      ensures Holds(centerOut, LastRow(g, k))
      ensures OnlyWrote(leftBase, 2 * half, old(Top()))
      decreases k, 3
    {
      hide LEmitter.Valid;
      hide LEmitter.Holds;
      hide Within;
      hide LastRow;
      hide Merged;
      hide ButterflyCount;
      hide MergedPeak;
      hide Connected;
      hide ConnectedCount;
      hide ConnectedPeak;
      hide Pow2;
      ValidFacts();
      hide WellFormed;
      ghost var back := inIds[half..];
      ghost var left := Connected(g, k, inIds[..half]);
      LcLeft(k, half, inputs, leftBase, inIds);
      ghost var before, older := Remember(leftBase, left.base);
      LcMergedCenterIngress(k, leftBase, inputs + half, centerOut, left.base, back);
      ValidFacts();
      HoldsKept(leftBase, left.base, before, older);
    }

    /** The left component; the second half of the inputs stays where it is. */
    method LcLeft(k: nat, half: nat, inputs: nat, leftBase: nat, ghost inIds: seq<nat>)
      requires Valid() && arenaOff <= arenaHi && half == Pow2(k)
      requires |inIds| == 2 * half && Holds(inputs, inIds) && Within(inIds, 0, nextId)
      requires inputs + 2 * half <= leftBase && leftBase + half <= Top()
      requires arenaOff + ConnectedPeak(k) <= arenaCap
      modifies `nextId, `g, `arenaOff, `arenaHi, mem
      ensures Valid() && arenaOff == old(arenaOff)
      ensures arenaHi == Max(old(arenaHi), old(arenaOff) + ConnectedPeak(k))
      ensures var left := Connected(old(g), k, inIds[..half]);
              g == left.g && Holds(leftBase, left.base) && Within(left.base, 0, nextId)
      ensures Holds(inputs + half, inIds[half..]) && Within(inIds[half..], 0, nextId)
      ensures OnlyWrote(leftBase, half, old(Top()))
      decreases k, 2
    {
      hide LEmitter.Valid;
      hide LEmitter.Holds;
      hide Within;
      hide LastRow;
      hide Connected;
      hide ConnectedPeak;
      hide Pow2;
      ValidFacts();
      hide WellFormed;
      HoldsParts(inputs, inIds, half);
      WithinSlices(inIds, half, 0, nextId, nextId);
      ghost var front, back := inIds[..half], inIds[half..];
      ghost var before, older := Remember(inputs + half, back);
      ConnectedBase(g, k, front);
      LcConnected(k, half, inputs, leftBase, front);
      ValidFacts();
      HoldsKept(inputs + half, back, before, older);
      WithinLoosen(back, 0, |old(g)|, 0, nextId);
      WithinLoosen(Connected(old(g), k, front).base, |old(g)|, |g|, 0, nextId);
    }

    /** The right component over the center outputs, then both bases side by side into `baseOut`. */
    method LcRight(k: nat, half: nat, leftBase: nat, centerOut: nat, rightBase: nat, baseOut: nat,
                   ghost leftIds: seq<nat>)
      requires Valid() && arenaOff <= arenaHi && half == Pow2(k) && half <= |g|
      requires |leftIds| == half && Holds(leftBase, leftIds) && Holds(centerOut, LastRow(g, k))
      requires baseOut + 2 * half <= leftBase && leftBase + half <= centerOut && centerOut + half <= rightBase
      requires rightBase + half <= Top()
      requires arenaOff + ConnectedPeak(k) <= arenaCap
      modifies `nextId, `g, `arenaOff, `arenaHi, mem
      ensures Valid() && arenaOff == old(arenaOff)
      ensures arenaHi == Max(old(arenaHi), old(arenaOff) + ConnectedPeak(k))
      ensures g == Connected(old(g), k, LastRow(old(g), k)).g
      ensures Holds(baseOut, leftIds + Connected(old(g), k, LastRow(old(g), k)).base)
      ensures OnlyWrote(baseOut, 2 * half, leftBase)
      decreases k, 2
    {
      hide LEmitter.Valid;
      hide LEmitter.Holds;
      hide Within;
      hide LastRow;
      hide Connected;
      hide ConnectedCount;
      hide ConnectedPeak;
      hide Pow2;
      ValidFacts();
      LastRowWithin(g, k);
      ghost var before, older := Remember(leftBase, leftIds);
      ghost var right := Connected(g, k, LastRow(g, k));
      LcConnected(k, half, centerOut, rightBase, LastRow(g, k));
      ValidFacts();
      HoldsKept(leftBase, leftIds, before, older);
      CopyHalves(baseOut, leftBase, rightBase, half, leftIds, right.base);
    }

    method LcStandalone(level: nat, baseOut: nat)
      requires Valid() && arenaOff <= arenaHi
      requires baseOut + Pow2(level) <= Top()
      requires arenaOff + StandalonePeak(level) <= arenaCap
      modifies `nextId, `g, `arenaOff, `arenaHi, mem
      ensures Valid() && arenaOff == old(arenaOff)
      ensures arenaHi == Max(old(arenaHi), old(arenaOff) + StandalonePeak(level))
      ensures g == Standalone(old(g), level).g
      ensures Holds(baseOut, Standalone(old(g), level).base)
      ensures OnlyWrote(baseOut, Pow2(level), old(Top()))
      decreases level, 1
    {
      hide LEmitter.Valid;
      hide LEmitter.Holds;
      hide Standalone;
      hide StandaloneCount;
      hide StandalonePeak;
      ValidFacts();
      if level == 0 {
        LcStandaloneLeaf(baseOut);
      } else {
        LcStandaloneHalves(level - 1, baseOut);
      }
    }

    /** Level 0: the source node. */
    method LcStandaloneLeaf(baseOut: nat)
      requires Valid() && baseOut < mem.Length
      modifies `nextId, `g, mem
      ensures Valid() && g == Standalone(old(g), 0).g
      ensures Holds(baseOut, Standalone(old(g), 0).base)
      ensures OnlyWrote(baseOut, 1, mem.Length)
      ensures StandalonePeak(0) == 0
    {
      hide Labels;
      var out := LcNode([], Source);
      mem[baseOut] := out;
    }

    method LcStandaloneHalves(k: nat, baseOut: nat)
      requires Valid() && arenaOff <= arenaHi
      requires baseOut + Pow2(k + 1) <= Top()
      requires arenaOff + StandalonePeak(k + 1) <= arenaCap
      modifies `nextId, `g, `arenaOff, `arenaHi, mem
      ensures Valid() && arenaOff == old(arenaOff)
      ensures arenaHi == Max(old(arenaHi), old(arenaOff) + StandalonePeak(k + 1))
      ensures g == Standalone(old(g), k + 1).g
      ensures Holds(baseOut, Standalone(old(g), k + 1).base)
      ensures OnlyWrote(baseOut, Pow2(k + 1), old(Top()))
      decreases k, 3
    {
      hide LEmitter.Valid;
      hide LEmitter.Holds;
      hide Within;
      hide LastRow;
      hide Connector;
      hide ButterflyCount;
      hide Connected;
      hide ConnectedCount;
      hide ConnectedPeak;
      hide Standalone;
      hide Extend;
      hide StandaloneCount;
      hide StandalonePeak;
      hide ConnectorPeak;
      hide WellFormed;
      hide Pow2;
      ValidFacts();
      StandaloneUnfold(g, k);
      ExtendUnfold(Standalone(g, k), k);
      StandaloneRoom(k);
      var half := Pow2(k);
      var saved := arenaOff;
      var leftBase, centerOut, rightBase := AllocThree(half);
      ghost var left := Standalone(g, k);
      LcStandaloneLeft(k, half, leftBase, centerOut);
      ValidFacts();
      LcRight(k, half, leftBase, centerOut, rightBase, baseOut, left.base);
      arenaOff := saved;
    }

    /** The smaller standalone, then the connector over its base. */
    method LcStandaloneLeft(k: nat, half: nat, leftBase: nat, centerOut: nat)
      requires Valid() && arenaOff <= arenaHi && half == Pow2(k)
      requires centerOut == leftBase + half && centerOut + half <= Top()
      requires arenaOff + StandalonePeak(k) <= arenaCap && arenaOff + ConnectorPeak(k) <= arenaCap
      modifies `nextId, `g, `arenaOff, `arenaHi, mem
      ensures Valid() && arenaOff == old(arenaOff)
      ensures arenaHi == Max(old(arenaHi), old(arenaOff) + Max(StandalonePeak(k), ConnectorPeak(k)))
      ensures var left := Standalone(old(g), k);
              g == Connector(left.g, k, left.base) && Holds(leftBase, left.base)
      ensures Holds(centerOut, LastRow(g, k))
      ensures OnlyWrote(leftBase, 2 * half, old(Top()))
      decreases k, 2
    {
      hide LEmitter.Valid;
      hide LEmitter.Holds;
      hide Within;
      hide LastRow;
      hide Connector;
      hide ButterflyCount;
      hide Standalone;
      hide StandaloneCount;
      hide StandalonePeak;
      hide Pow2;
      ValidFacts();
      ghost var left := Standalone(g, k);
      StandaloneBase(g, k);
      LcStandalone(k, leftBase);
      ValidFacts();
      WithinLoosen(left.base, |old(g)|, |left.g|, 0, nextId);
      ghost var before, older := Remember(leftBase, left.base);
      LcConnector(k, leftBase, centerOut, left.base);
      ValidFacts();
      HoldsKept(leftBase, left.base, before, older);
    }
  }
}
