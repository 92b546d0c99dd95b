/** In-place labelling as code: labels of whole layers in arena arrays, addressed by position.

    The code follows the label-carrying emitter. That every cell holds the label it should is shown over node ids:
    cells hold the node ids that the graph's construction names.
 */
module ArenaCode {
  import opened Bits
  import opened Dag
  import Arena
  import LabelEmitter
  import opened RowSources
  import opened StraightCode

  /** Cells from `p` on stand for the nodes `ns`. */
  ghost predicate Holds(ids: seq<int>, p: nat, ns: seq<nat>) {
    p + |ns| <= |ids| && forall i {:trigger ns[i]} :: 0 <= i < |ns| ==> ids[p + i] == ns[i]
  }

  /** Below `top` only the `w` cells from `dst` on have changed. */
  ghost predicate Kept(ids: seq<int>, ids': seq<int>, dst: nat, w: nat, top: nat) {
    |ids'| == |ids| && top <= |ids|
    && forall k {:trigger ids'[k]} :: 0 <= k < top && !(dst <= k < dst + w) ==> ids'[k] == ids[k]
  }

  lemma HoldsKept(ids: seq<int>, ids': seq<int>, p: nat, ns: seq<nat>, dst: nat, w: nat, top: nat)
    requires Holds(ids, p, ns) && Kept(ids, ids', dst, w, top)
    requires p + |ns| <= top && (p + |ns| <= dst || dst + w <= p)
    ensures Holds(ids', p, ns)
  {
    forall i {:trigger ns[i]} | 0 <= i < |ns|
      ensures ids'[p + i] == ns[i]
    {
      assert ids'[p + i] == ids[p + i];
    }
  }

  /** What changes only above `top` is kept below it. */
  lemma KeptBelow(ids: seq<int>, ids': seq<int>, dst: nat, w: nat, t: nat, top: nat)
    requires Kept(ids, ids', dst, w, t) && top <= dst && top <= t
    ensures Kept(ids, ids', 0, 0, top)
  {
  }

  lemma KeptThen(a: seq<int>, b: seq<int>, c: seq<int>, dst: nat, w: nat, top: nat)
    requires Kept(a, b, 0, 0, top) && Kept(b, c, dst, w, top)
    ensures Kept(a, c, dst, w, top)
  {
  }

  lemma KeptSize(a: seq<int>, b: seq<int>, dst: nat, w: nat, top: nat)
    requires Kept(a, b, dst, w, top)
    ensures |a| == |b|
  {
  }

  // ---------- copies ----------

  /** Copies of the cells `from` to the cells from `lo` on. */
  function CopyCode(from: seq<nat>, lo: nat): Code {
    if |from| == 0 then [] else CopyCode(from[..|from| - 1], lo) + [Move(lo + |from| - 1, from[|from| - 1])]
  }

  lemma {:induction false} CopyGoes(h: Graph, from: nat, n: nat, lo: nat, ids: seq<int>, ns: seq<nat>)
    returns (ids': seq<int>)
    requires |ns| >= n && Holds(ids, from, ns) && lo + n <= |ids|
    requires from + |ns| <= lo || lo + n <= from
    ensures Goes(h, CopyCode(Ids(from, n), lo), ids, ids') && Kept(ids, ids', lo, n, |ids|)
    ensures Holds(ids', lo, ns[..n])
    decreases n
  {
    if n == 0 {
      ids' := ids;
    } else {
      var k := n - 1;
      assert Ids(from, n)[..k] == Ids(from, k);
      var mid := CopyGoes(h, from, k, lo, ids, ns);
      var last := Move(lo + k, from + k);
      GoesOne(h, last, mid);
      ids' := StepOne(last, mid);
      GoesThen(h, CopyCode(Ids(from, k), lo), [last], ids, mid, ids');
      assert ids'[lo + k] == mid[from + k] == ids[from + k] == ns[k];
      assert forall i {:trigger ns[..n][i]} :: 0 <= i < k ==> ns[..n][i] == ns[..k][i];
    }
  }

  // ---------- layers ----------

  /** Where column `i` of a row finds its predecessors. */
  function ColumnSources(src: RowSource, i: nat): seq<nat> {
    match src
    case Unary(p) => [p + i]
    case Cross(p, b) => [p + Clear(i, b), p + Set(i, b)]
    case Join(p, q) => [p + i, q + i]
  }

  /** The first `n` columns of a row whose nodes are numbered from `first` on. */
  function RowCode(src: RowSource, dst: nat, first: nat, n: nat): Code {
    if n == 0 then []
    else RowCode(src, dst, first, n - 1) + [Hash(dst + n - 1, first + n - 1, ColumnSources(src, n - 1))]
  }

  /** The row source delivers the row's predecessors, in order. */
  ghost predicate Feeds(src: RowSource, dim: nat, ids: seq<int>, row: Graph) {
    forall i: nat {:trigger row[i]} :: i < |row| ==> Column(src, dim, ids, i, row[i])
  }

  ghost predicate Column(src: RowSource, dim: nat, ids: seq<int>, i: nat, node: Node) {
    && (forall j {:trigger ColumnSources(src, i)[j]} :: 0 <= j < |ColumnSources(src, i)| ==>
          ColumnSources(src, i)[j] < |ids|)
    && Reads(node, At(ids, ColumnSources(src, i)))
  }

  /** No source lies in the destination. */
  lemma SourceApart(src: RowSource, dim: nat, dst: nat, i: nat, j: nat)
    requires i < Pow2(dim) && j < |ColumnSources(src, i)| && src.Apart(dim, dst) && (src.Cross? ==> src.bit < dim)
    ensures var a := ColumnSources(src, i)[j]; a < dst || dst + Pow2(dim) <= a
  {
    match src
    case Unary(_) =>
    case Cross(_, b) => FlipInLayer(i, b, dim); FlipLaws(i, b);
    case Join(_, _) =>
  }

  lemma {:induction false} RowGoes(h: Graph, g: Graph, row: Graph, src: RowSource, dim: nat, dst: nat, ids: seq<int>,
                                   n: nat)
    returns (ids': seq<int>)
    requires g + row <= h && n <= |row| == Pow2(dim) && Feeds(src, dim, ids, row)
    requires src.Below(dim, |ids|) && src.Apart(dim, dst) && dst + Pow2(dim) <= |ids|
    ensures Goes(h, RowCode(src, dst, |g|, n), ids, ids') && Kept(ids, ids', dst, n, |ids|)
    ensures Holds(ids', dst, Ids(|g|, n))
    decreases n
  {
    if n == 0 {
      ids' := ids;
    } else {
      var mid := RowGoes(h, g, row, src, dim, dst, ids, n - 1);
      ids' := ColumnGoes(h, g, row, src, dim, dst, ids, mid, n - 1);
    }
  }

  /** One more column of a row. */
  lemma ColumnGoes(h: Graph, g: Graph, row: Graph, src: RowSource, dim: nat, dst: nat, ids: seq<int>, mid: seq<int>,
                   k: nat)
    returns (ids': seq<int>)
    requires g + row <= h && k < |row| == Pow2(dim) && Feeds(src, dim, ids, row)
    requires src.Below(dim, |ids|) && src.Apart(dim, dst) && dst + Pow2(dim) <= |ids|
    requires Goes(h, RowCode(src, dst, |g|, k), ids, mid) && Kept(ids, mid, dst, k, |ids|)
    requires Holds(mid, dst, Ids(|g|, k))
    ensures Goes(h, RowCode(src, dst, |g|, k + 1), ids, ids') && Kept(ids, ids', dst, k + 1, |ids|)
    ensures Holds(ids', dst, Ids(|g|, k + 1))
  {
    hide Goes;
    hide Holds;
    hide Feeds;
    hide Pow2;
    hide Fitting;
    hide RowSource.Below;
    hide RowSource.Apart;
    hide ColumnSources;
    var last := Hash(dst + k, |g| + k, ColumnSources(src, k));
    ColumnFits(h, g, row, src, dim, dst, ids, mid, k);
    GoesOne(h, last, mid);
    ids' := mid[dst + k := |g| + k];
    assert ids' == StepOne(last, mid) by { FittingBelow(h, last, mid); }
    HoldsNext(mid, dst, |g|, k);
    GoesThen(h, RowCode(src, dst, |g|, k), [last], ids, mid, ids');
  }

  lemma HoldsNext(ids: seq<int>, dst: nat, first: nat, k: nat)
    requires Holds(ids, dst, Ids(first, k)) && dst + k < |ids|
    ensures Holds(ids[dst + k := first + k], dst, Ids(first, k + 1))
  {
    forall i {:trigger Ids(first, k + 1)[i]} | 0 <= i < k
      ensures ids[dst + i] == Ids(first, k + 1)[i]
    {
      assert ids[dst + i] == Ids(first, k)[i];
    }
  }

  lemma FittingBelow(h: Graph, instr: Instr, ids: seq<int>)
    requires Fitting(h, instr, ids)
    ensures instr.Below(|ids|)
  {
  }

  /** Column `k` can be hashed: its sources are as they were before the row. */
  lemma ColumnFits(h: Graph, g: Graph, row: Graph, src: RowSource, dim: nat, dst: nat, ids: seq<int>, mid: seq<int>,
                   k: nat)
    requires g + row <= h && k < |row| == Pow2(dim) && Feeds(src, dim, ids, row)
    requires src.Below(dim, |ids|) && src.Apart(dim, dst) && dst + Pow2(dim) <= |ids|
    requires Kept(ids, mid, dst, k, |ids|)
    ensures Fitting(h, Hash(dst + k, |g| + k, ColumnSources(src, k)), mid)
  {
    hide ColumnSources;
    hide Reads;
    var sources := ColumnSources(src, k);
    assert Column(src, dim, ids, k, row[k]);
    forall j {:trigger sources[j]} | 0 <= j < |sources|
      ensures sources[j] < |ids| && mid[sources[j]] == ids[sources[j]]
    {
      SourceApart(src, dim, dst, k, j);
    }
    assert At(mid, sources) == At(ids, sources);
    assert h[|g| + k] == row[k] by { assert h[|g| + k] == (g + row)[|g| + k]; }
  }

  lemma FeedsUnary(p: nat, dim: nat, ids: seq<int>, ns: seq<nat>)
    requires |ns| == Pow2(dim) && Holds(ids, p, ns)
    ensures Feeds(Unary(p), dim, ids, UnaryRow(ns))
  {
    var row := UnaryRow(ns);
    forall i: nat {:trigger row[i]} | i < |row|
      ensures Column(Unary(p), dim, ids, i, row[i])
    {
      assert ids[p + i] == ns[i];
    }
  }

  lemma FeedsCross(p: nat, b: nat, dim: nat, ids: seq<int>, g: Graph)
    requires b < dim && Pow2(dim) <= |g| && Holds(ids, p, LastRow(g, dim))
    ensures Feeds(Cross(p, b), dim, ids, CrossRow(LastRow(g, dim), dim, b))
  {
    hide LastRow;
    hide Clear;
    hide Set;
    hide Flip;
    hide Column;
    hide Holds;
    var row := CrossRow(LastRow(g, dim), dim, b);
    hide CrossRow;
    forall i: nat {:trigger row[i]} | i < |row|
      ensures Column(Cross(p, b), dim, ids, i, row[i])
    {
      CrossColumn(p, b, dim, ids, g, i);
    }
  }

  lemma CrossColumn(p: nat, b: nat, dim: nat, ids: seq<int>, g: Graph, i: nat)
    requires b < dim && Pow2(dim) <= |g| && Holds(ids, p, LastRow(g, dim)) && i < Pow2(dim)
    ensures Column(Cross(p, b), dim, ids, i, CrossRow(LastRow(g, dim), dim, b)[i])
  {
    hide LastRow;
    hide Clear;
    hide Set;
    hide Flip;
    hide Pow2;
    var prev := LastRow(g, dim);
    LabelEmitter.CrossOrder(g, dim, b, i);
    hide CrossRow;
    assert ids[p + Clear(i, b)] == prev[Clear(i, b)] && ids[p + Set(i, b)] == prev[Set(i, b)];
  }

  /** Primary inputs are older than the ingress outputs. */
  lemma FeedsJoin(p: nat, q: nat, dim: nat, ids: seq<int>, mid: nat, ps: seq<nat>, qs: seq<nat>)
    requires |ps| == |qs| == Pow2(dim) && Holds(ids, p, ps) && Holds(ids, q, qs)
    requires forall i {:trigger ps[i]} :: 0 <= i < |ps| ==> ps[i] < mid
    requires forall i {:trigger qs[i]} :: 0 <= i < |qs| ==> mid <= qs[i]
    ensures Feeds(Join(p, q), dim, ids, JoinRow(ps, qs))
  {
    var row := JoinRow(ps, qs);
    forall i: nat {:trigger row[i]} | i < |row|
      ensures Column(Join(p, q), dim, ids, i, row[i])
    {
      assert ps[i] < mid <= qs[i];
      assert ids[p + i] == ps[i] && ids[q + i] == qs[i];
    }
  }

  /** Of two arrays that swap roles, the one written last after `k` layers. */
  function Front(a: nat, b: nat, k: nat): nat {
    if k % 2 == 0 then a else b
  }

  /** `k` crossing layers over two arrays that swap roles, the first one reading `a`. */
  function LayersCode(dim: nat, k: nat, a: nat, b: nat, first: nat): Code
    requires k <= dim
  {
    if k == 0 then []
    else
      LayersCode(dim, k - 1, a, b, first)
      + RowCode(Cross(Front(a, b, k - 1), dim - k), Front(a, b, k), first + Layers(Pow2(dim), k - 1), Pow2(dim))
  }

  lemma GoesNothing(h: Graph, ids: seq<int>)
    ensures Goes(h, [], ids, ids)
  {
  }

  lemma LayerGoes(h: Graph, g: Graph, dim: nat, b: nat, prev: nat, curr: nat, ids: seq<int>) returns (ids': seq<int>)
    requires b < dim && Pow2(dim) <= |g| && g + CrossRow(LastRow(g, dim), dim, b) <= h
    requires Holds(ids, prev, LastRow(g, dim)) && curr + Pow2(dim) <= |ids|
    requires prev + Pow2(dim) <= curr || curr + Pow2(dim) <= prev
    ensures Goes(h, RowCode(Cross(prev, b), curr, |g|, Pow2(dim)), ids, ids')
    ensures Kept(ids, ids', curr, Pow2(dim), |ids|)
    ensures Holds(ids', curr, LastRow(g + CrossRow(LastRow(g, dim), dim, b), dim))
  {
    FeedsCross(prev, b, dim, ids, g);
    ids' := RowGoes(h, g, CrossRow(LastRow(g, dim), dim, b), Cross(prev, b), dim, curr, ids, Pow2(dim));
  }

  lemma {:induction false} LayersGo(h: Graph, g: Graph, dim: nat, k: nat, a: nat, b: nat, ids: seq<int>)
    returns (ids': seq<int>)
    requires k <= dim && Pow2(dim) <= |g| && Mix(g, dim, k) <= h && Holds(ids, a, LastRow(g, dim))
    requires a + Pow2(dim) <= b && b + Pow2(dim) <= |ids|
    ensures Goes(h, LayersCode(dim, k, a, b, |g|), ids, ids') && Kept(ids, ids', 0, 0, a)
    ensures Holds(ids', Front(a, b, k), LastRow(Mix(g, dim, k), dim))
    decreases k
  {
    hide Holds;
    hide CrossRow;
    hide LastRow;
    hide RowCode;
    hide Pow2;
    hide Goes;
    if k == 0 {
      GoesNothing(h, ids);
      ids' := ids;
    } else {
      var m := Mix(g, dim, k - 1);
      PrefixTrans(m, Mix(g, dim, k), h);
      var mid := LayersGo(h, g, dim, k - 1, a, b, ids);
      ids' := LayerGoes(h, m, dim, dim - k, Front(a, b, k - 1), Front(a, b, k), mid);
      GoesThen(h, LayersCode(dim, k - 1, a, b, |g|),
               RowCode(Cross(Front(a, b, k - 1), dim - k), Front(a, b, k), |m|, Pow2(dim)), ids, mid, ids');
    }
  }

  // ---------- butterflies ----------

  /** A butterfly over `inputs`; its last layer is in `Front(a, b, dim)`. */
  function ButterflyCode(dim: nat, inputs: nat, a: nat, b: nat, first: nat): Code {
    RowCode(Unary(inputs), a, first, Pow2(dim)) + LayersCode(dim, dim, a, b, first + Pow2(dim))
  }

  lemma ButterflyGoes(h: Graph, g: Graph, dim: nat, inputs: nat, a: nat, b: nat, ids: seq<int>, ns: seq<nat>)
    returns (ids': seq<int>)
    requires |ns| == Pow2(dim) && Connector(g, dim, ns) <= h && Holds(ids, inputs, ns)
    requires inputs + Pow2(dim) <= a && a + Pow2(dim) <= b && b + Pow2(dim) <= |ids|
    ensures Goes(h, ButterflyCode(dim, inputs, a, b, |g|), ids, ids') && Kept(ids, ids', 0, 0, a)
    ensures Holds(ids', Front(a, b, dim), LastRow(Connector(g, dim, ns), dim))
  {
    hide Holds;
    hide Pow2;
    hide RowCode;
    hide LayersCode;
    hide Goes;
    var row := UnaryRow(ns);
    PrefixTrans(g + row, Connector(g, dim, ns), h);
    FeedsUnary(inputs, dim, ids, ns);
    var mid := RowGoes(h, g, row, Unary(inputs), dim, a, ids, Pow2(dim));
    assert Ids(|g|, Pow2(dim)) == LastRow(g + row, dim);
    ids' := LayersGo(h, g + row, dim, dim, a, b, mid);
    GoesThen(h, RowCode(Unary(inputs), a, |g|, Pow2(dim)), LayersCode(dim, dim, a, b, |g + row|), ids, mid, ids');
  }

  /** A connector over two arena arrays from `top` on, its last layer copied to `outputs`. */
  function ConnectorCode(dim: nat, inputs: nat, outputs: nat, top: nat, first: nat): Code {
    ButterflyCode(dim, inputs, top, top + Pow2(dim), first)
    + CopyCode(Ids(Front(top, top + Pow2(dim), dim), Pow2(dim)), outputs)
  }

  lemma ConnectorGoes(h: Graph, g: Graph, dim: nat, inputs: nat, outputs: nat, top: nat, ids: seq<int>, ns: seq<nat>)
    returns (ids': seq<int>)
    requires |ns| == Pow2(dim) && Connector(g, dim, ns) <= h && Holds(ids, inputs, ns)
    requires inputs + Pow2(dim) <= top && outputs + Pow2(dim) <= top && top + Arena.ConnectorPeak(dim) <= |ids|
    ensures Goes(h, ConnectorCode(dim, inputs, outputs, top, |g|), ids, ids')
    ensures Kept(ids, ids', outputs, Pow2(dim), top)
    ensures Holds(ids', outputs, LastRow(Connector(g, dim, ns), dim))
  {
    hide Holds;
    hide Pow2;
    hide ButterflyCode;
    hide CopyCode;
    hide Connector;
    hide Goes;
    hide LastRow;
    var w := Pow2(dim);
    var mid := ButterflyGoes(h, g, dim, inputs, top, top + w, ids, ns);
    var out := LastRow(Connector(g, dim, ns), dim);
    ids' := CopyGoes(h, Front(top, top + w, dim), w, outputs, mid, out);
    assert out[..w] == out;
    GoesThen(h, ButterflyCode(dim, inputs, top, top + w, |g|), CopyCode(Ids(Front(top, top + w, dim), w), outputs),
             ids, mid, ids');
  }

  /** The center butterfly over two arrays, its last layer written straight to `outputs`. */
  function CenterCode(dim: nat, primary: nat, ingress: nat, outputs: nat, a: nat, b: nat, first: nat): Code
    requires dim > 0
  {
    RowCode(Join(primary, ingress), a, first, Pow2(dim))
    + LayersCode(dim, dim - 1, a, b, first + Pow2(dim))
    + RowCode(Cross(Front(a, b, dim - 1), 0), outputs, first + Pow2(dim) + Layers(Pow2(dim), dim - 1), Pow2(dim))
  }

  lemma CenterGoes(h: Graph, g: Graph, dim: nat, primary: nat, ingress: nat, outputs: nat, a: nat, b: nat,
                   ids: seq<int>, mid: nat, ps: seq<nat>, qs: seq<nat>)
    returns (ids': seq<int>)
    requires dim > 0 && |ps| == |qs| == Pow2(dim) && Mix(g + JoinRow(ps, qs), dim, dim) <= h
    requires Holds(ids, primary, ps) && Holds(ids, ingress, qs) && Within(ps, 0, mid) && Within(qs, mid, |g|)
    requires primary + Pow2(dim) <= a && ingress + Pow2(dim) <= a && outputs + Pow2(dim) <= a
    requires a + Pow2(dim) <= b && b + Pow2(dim) <= |ids|
    ensures Goes(h, CenterCode(dim, primary, ingress, outputs, a, b, |g|), ids, ids')
    ensures Kept(ids, ids', outputs, Pow2(dim), a)
    ensures Holds(ids', outputs, LastRow(Mix(g + JoinRow(ps, qs), dim, dim), dim))
  {
    hide Holds;
    hide Pow2;
    hide RowCode;
    hide LayersCode;
    hide Goes;
    hide CrossRow;
    var w, row := Pow2(dim), JoinRow(ps, qs);
    var joined := g + row;
    var mixed := Mix(joined, dim, dim - 1);
    PrefixTrans(mixed, Mix(joined, dim, dim), h);
    PrefixTrans(joined, mixed, h);
    FeedsJoin(primary, ingress, dim, ids, mid, ps, qs);
    var x := RowGoes(h, g, row, Join(primary, ingress), dim, a, ids, w);
    assert Ids(|g|, w) == LastRow(joined, dim);
    var y := LayersGo(h, joined, dim, dim - 1, a, b, x);
    GoesThen(h, RowCode(Join(primary, ingress), a, |g|, w), LayersCode(dim, dim - 1, a, b, |joined|), ids, x, y);
    ids' := LayerGoes(h, mixed, dim, 0, Front(a, b, dim - 1), outputs, y);
    GoesThen(h, RowCode(Join(primary, ingress), a, |g|, w) + LayersCode(dim, dim - 1, a, b, |joined|),
             RowCode(Cross(Front(a, b, dim - 1), 0), outputs, |mixed|, w), ids, y, ids');
  }

  /** Ingress butterfly, then center butterfly, over four arena arrays; dimension 0 keeps the ingress node local. */
  function MergedCode(dim: nat, primary: nat, ingress: nat, outputs: nat, top: nat, first: nat): Code {
    if dim == 0 then [HashTwice(outputs, first, ingress, primary)]
    else
      var w := Pow2(dim);
      ButterflyCode(dim, ingress, top, top + w, first)
      + CenterCode(dim, primary, Front(top, top + w, dim), outputs, top + 2 * w, top + 3 * w,
                   first + ButterflyCount(dim))
  }

  lemma MergedGoes(h: Graph, g: Graph, dim: nat, primary: nat, ingress: nat, outputs: nat, top: nat, ids: seq<int>,
                   ps: seq<nat>, qs: seq<nat>)
    returns (ids': seq<int>)
    requires |ps| == |qs| == Pow2(dim) && Merged(g, dim, ps, qs) <= h && Within(ps, 0, |g|)
    requires Holds(ids, primary, ps) && Holds(ids, ingress, qs)
    requires primary + Pow2(dim) <= top && ingress + Pow2(dim) <= top && outputs + Pow2(dim) <= top
    requires top + Arena.MergedPeak(dim) <= |ids|
    ensures Goes(h, MergedCode(dim, primary, ingress, outputs, top, |g|), ids, ids')
    ensures Kept(ids, ids', outputs, Pow2(dim), top)
    ensures Holds(ids', outputs, LastRow(Merged(g, dim, ps, qs), dim))
  {
    if dim == 0 {
      ids' := MergedPairGoes(h, g, primary, ingress, outputs, ids, ps, qs);
    } else {
      ids' := MergedLayersGo(h, g, dim, primary, ingress, outputs, top, ids, ps, qs);
    }
  }

  lemma MergedPairGoes(h: Graph, g: Graph, primary: nat, ingress: nat, outputs: nat, ids: seq<int>, ps: seq<nat>,
                       qs: seq<nat>)
    returns (ids': seq<int>)
    requires |ps| == |qs| == Pow2(0) && Merged(g, 0, ps, qs) <= h && Within(ps, 0, |g|)
    requires Holds(ids, primary, ps) && Holds(ids, ingress, qs) && outputs < |ids|
    ensures Goes(h, [HashTwice(outputs, |g|, ingress, primary)], ids, ids') && Kept(ids, ids', outputs, 1, |ids|)
    ensures Holds(ids', outputs, LastRow(Merged(g, 0, ps, qs), 0))
  {
    var n := |g|;
    var a := g + UnaryRow(qs);
    assert LastRow(a, 0) == [n];
    var r := a + JoinRow(ps, [n]);
    assert Merged(g, 0, ps, qs) == r;
    assert h[n] == r[n] == One(qs[0]) && h[n + 1] == r[n + 1] == Two(ps[0], n);
    assert ids[ingress + 0] == qs[0] && ids[primary + 0] == ps[0];
    var instr := HashTwice(outputs, n, ingress, primary);
    assert Fitting(h, instr, ids);
    GoesOne(h, instr, ids);
    ids' := StepOne(instr, ids);
    assert LastRow(r, 0) == [n + 1];
  }

  lemma MergedLayersGo(h: Graph, g: Graph, dim: nat, primary: nat, ingress: nat, outputs: nat, top: nat,
                       ids: seq<int>, ps: seq<nat>, qs: seq<nat>)
    returns (ids': seq<int>)
    requires dim > 0 && |ps| == |qs| == Pow2(dim) && Merged(g, dim, ps, qs) <= h && Within(ps, 0, |g|)
    requires Holds(ids, primary, ps) && Holds(ids, ingress, qs)
    requires primary + Pow2(dim) <= top && ingress + Pow2(dim) <= top && outputs + Pow2(dim) <= top
    requires top + Arena.MergedPeak(dim) <= |ids|
    ensures Goes(h, MergedCode(dim, primary, ingress, outputs, top, |g|), ids, ids')
    ensures Kept(ids, ids', outputs, Pow2(dim), top)
    ensures Holds(ids', outputs, LastRow(Merged(g, dim, ps, qs), dim))
  {
    hide Holds;
    hide Pow2;
    hide ButterflyCode;
    hide CenterCode;
    hide Goes;
    hide Mix;
    hide Connector;
    hide JoinRow;
    var w, a := Pow2(dim), Connector(g, dim, qs);
    var last := LastRow(a, dim);
    PrefixTrans(a, Merged(g, dim, ps, qs), h);
    var mid := ButterflyGoes(h, g, dim, ingress, top, top + w, ids, qs);
    HoldsBelow(ids, mid, primary, ps, top);
    LastRowNew(g, a, dim);
    ids' := CenterGoes(h, a, dim, primary, Front(top, top + w, dim), outputs, top + 2 * w, top + 3 * w, mid, |g|, ps,
                       last);
    GoesThen(h, ButterflyCode(dim, ingress, top, top + w, |g|),
             CenterCode(dim, primary, Front(top, top + w, dim), outputs, top + 2 * w, top + 3 * w, |a|),
             ids, mid, ids');
  }

  lemma HoldsBelow(ids: seq<int>, ids': seq<int>, p: nat, ns: seq<nat>, top: nat)
    requires Holds(ids, p, ns) && Kept(ids, ids', 0, 0, top) && p + |ns| <= top
    ensures Holds(ids', p, ns)
  {
    HoldsKept(ids, ids', p, ns, p + |ns|, 0, top);
  }

  // ---------- components ----------

  /** Left base, center outputs and right base take three arrays from `top` on. */
  function ConnectedCode(level: nat, inputs: nat, baseOut: nat, top: nat, first: nat): Code
    decreases level, 0
  {
    if level == 0 then [Hash(baseOut, first, [inputs])]
    else ConnectedHalves(level - 1, inputs, baseOut, top, first)
  }

  function ConnectedHalves(k: nat, inputs: nat, baseOut: nat, top: nat, first: nat): Code
    decreases k, 2
  {
    var half := Pow2(k);
    ConnectedCode(k, inputs, top, top + 3 * half, first)
    + MergedCode(k, top, inputs + half, top + half, top + 3 * half, first + ConnectedCount(k))
    + RightCode(k, baseOut, top, first + ConnectedCount(k) + 2 * ButterflyCount(k))
  }

  /** The right component over the center outputs, then both bases side by side. */
  function RightCode(k: nat, baseOut: nat, top: nat, first: nat): Code
    decreases k, 1
  {
    var half := Pow2(k);
    ConnectedCode(k, top + half, top + 2 * half, top + 3 * half, first)
    + (CopyCode(Ids(top, half), baseOut) + CopyCode(Ids(top + 2 * half, half), baseOut + half))
  }

  lemma HalvesGo(h: Graph, half: nat, baseOut: nat, top: nat, ids: seq<int>, left: seq<nat>, right: seq<nat>)
    returns (ids': seq<int>)
    requires |left| == |right| == half && Holds(ids, top, left) && Holds(ids, top + 2 * half, right)
    requires baseOut + 2 * half <= top
    ensures Goes(h, CopyCode(Ids(top, half), baseOut) + CopyCode(Ids(top + 2 * half, half), baseOut + half), ids, ids')
    ensures Kept(ids, ids', baseOut, 2 * half, top) && Holds(ids', baseOut, left + right)
  {
    hide Goes;
    hide CopyCode;
    var mid := CopyGoes(h, top, half, baseOut, ids, left);
    HoldsKept(ids, mid, top + 2 * half, right, baseOut, half, |ids|);
    ids' := CopyGoes(h, top + 2 * half, half, baseOut + half, mid, right);
    assert left[..half] == left && right[..half] == right;
    HoldsKept(mid, ids', baseOut, left, baseOut + half, half, |ids|);
    HoldsBoth(ids', baseOut, left, right);
    GoesThen(h, CopyCode(Ids(top, half), baseOut), CopyCode(Ids(top + 2 * half, half), baseOut + half), ids, mid, ids');
  }

  lemma HoldsBoth(ids: seq<int>, p: nat, left: seq<nat>, right: seq<nat>)
    requires Holds(ids, p, left) && Holds(ids, p + |left|, right)
    ensures Holds(ids, p, left + right)
  {
    forall i {:trigger (left + right)[i]} | 0 <= i < |left| + |right|
      ensures ids[p + i] == (left + right)[i]
    {
      if i >= |left| {
        assert ids[p + |left| + (i - |left|)] == right[i - |left|];
      } else {
        assert ids[p + i] == left[i];
      }
    }
  }

  lemma HoldsParts(ids: seq<int>, p: nat, ns: seq<nat>, k: nat)
    requires Holds(ids, p, ns) && k <= |ns|
    ensures Holds(ids, p, ns[..k]) && Holds(ids, p + k, ns[k..])
  {
    forall i {:trigger ns[k..][i]} | 0 <= i < |ns| - k
      ensures ids[p + k + i] == ns[k..][i]
    {
      assert ids[p + (k + i)] == ns[k + i];
    }
  }

  lemma {:induction false} ConnectedGoes(h: Graph, g: Graph, level: nat, inputs: nat, baseOut: nat, top: nat,
                                         ids: seq<int>, ns: seq<nat>)
    returns (ids': seq<int>)
    requires |ns| == Pow2(level) && Connected(g, level, ns).g <= h && Holds(ids, inputs, ns)
    requires inputs + Pow2(level) <= top && baseOut + Pow2(level) <= top
    requires top + Arena.ConnectedPeak(level) <= |ids|
    ensures Goes(h, ConnectedCode(level, inputs, baseOut, top, |g|), ids, ids')
    ensures Kept(ids, ids', baseOut, Pow2(level), top)
    ensures Holds(ids', baseOut, Connected(g, level, ns).base)
    decreases level, 1
  {
    hide Goes;
    hide Holds;
    hide Connected;
    hide ConnectedHalves;
    hide Arena.ConnectedPeak;
    if level == 0 {
      ids' := ConnectedLeafGoes(h, g, inputs, baseOut, top, ids, ns);
    } else {
      ids' := ConnectedHalvesGo(h, g, level - 1, inputs, baseOut, top, ids, ns);
    }
  }

  lemma ConnectedLeafGoes(h: Graph, g: Graph, inputs: nat, baseOut: nat, top: nat, ids: seq<int>, ns: seq<nat>)
    returns (ids': seq<int>)
    requires |ns| == 1 && Connected(g, 0, ns).g <= h && Holds(ids, inputs, ns) && baseOut < |ids|
    ensures Goes(h, ConnectedCode(0, inputs, baseOut, top, |g|), ids, ids') && Kept(ids, ids', baseOut, 1, |ids|)
    ensures Holds(ids', baseOut, Connected(g, 0, ns).base)
  {
    var instr := Hash(baseOut, |g|, [inputs]);
    assert Connected(g, 0, ns).g == g + [One(ns[0])] && h[|g|] == (g + [One(ns[0])])[|g|];
    assert ids[inputs + 0] == ns[0];
    assert Fitting(h, instr, ids);
    GoesOne(h, instr, ids);
    ids' := StepOne(instr, ids);
  }

  lemma {:induction false} ConnectedHalvesGo(h: Graph, g: Graph, k: nat, inputs: nat, baseOut: nat, top: nat,
                                             ids: seq<int>, ns: seq<nat>)
    returns (ids': seq<int>)
    requires |ns| == Pow2(k + 1) && Connected(g, k + 1, ns).g <= h && Holds(ids, inputs, ns)
    requires inputs + Pow2(k + 1) <= top && baseOut + Pow2(k + 1) <= top
    requires top + Arena.ConnectedPeak(k + 1) <= |ids|
    ensures Goes(h, ConnectedHalves(k, inputs, baseOut, top, |g|), ids, ids')
    ensures Kept(ids, ids', baseOut, Pow2(k + 1), top)
    ensures Holds(ids', baseOut, Connected(g, k + 1, ns).base)
    decreases k, 3
  {
    hide ConnectedCode;
    hide ConnectedCount;
    hide ButterflyCount;
    hide Pow2;
    hide Goes;
    hide Holds;
    hide Kept;
    hide Merged;
    hide MergedCode;
    hide RightCode;
    hide Connected;
    hide LastRow;
    hide Arena.ConnectedPeak;
    hide Arena.MergedPeak;
    Arena.ConnectedRoom(k);
    ConnectedUnfold(g, k, ns);
    var half := Pow2(k);
    var t := top + 3 * half;
    var left := Connected(g, k, ns[..half]);
    var center := Merged(left.g, k, left.base, ns[half..]);
    var right := Connected(center, k, LastRow(center, k));
    PrefixTrans(center, right.g, h);
    PrefixTrans(left.g, center, h);
    HoldsParts(ids, inputs, ns, half);
    var x := ConnectedGoes(h, g, k, inputs, top, t, ids, ns[..half]);
    KeptSize(ids, x, top, half, t);
    HoldsKept(ids, x, inputs + half, ns[half..], top, half, t);
    ConnectedBase(g, k, ns[..half]);
    WithinLoosen(left.base, |g|, |left.g|, 0, |left.g|);
    var y := MergedGoes(h, left.g, k, top, inputs + half, top + half, t, x, left.base, ns[half..]);
    KeptSize(x, y, top + half, half, t);
    HoldsKept(x, y, top, left.base, top + half, half, t);
    GoesThen(h, ConnectedCode(k, inputs, top, t, |g|), MergedCode(k, top, inputs + half, top + half, t, |left.g|),
             ids, x, y);
    ids' := RightGoes(h, center, k, baseOut, top, y, left.base);
    GoesThen(h, ConnectedCode(k, inputs, top, t, |g|) + MergedCode(k, top, inputs + half, top + half, t, |left.g|),
             RightCode(k, baseOut, top, |center|), ids, y, ids');
    KeptBelow(ids, x, top, half, t, top);
    KeptBelow(x, y, top + half, half, t, top);
    KeptThen(ids, x, y, 0, 0, top);
    KeptThen(ids, y, ids', baseOut, 2 * half, top);
  }

  lemma {:induction false} RightGoes(h: Graph, g: Graph, k: nat, baseOut: nat, top: nat, ids: seq<int>,
                                     left: seq<nat>)
    returns (ids': seq<int>)
    requires |left| == Pow2(k) <= |g| && Connected(g, k, LastRow(g, k)).g <= h
    requires Holds(ids, top, left) && Holds(ids, top + Pow2(k), LastRow(g, k))
    requires baseOut + 2 * Pow2(k) <= top && top + 3 * Pow2(k) + Arena.ConnectedPeak(k) <= |ids|
    ensures Goes(h, RightCode(k, baseOut, top, |g|), ids, ids') && Kept(ids, ids', baseOut, 2 * Pow2(k), top)
    ensures Holds(ids', baseOut, left + Connected(g, k, LastRow(g, k)).base)
    decreases k, 2
  {
    hide Goes;
    hide Holds;
    hide Connected;
    hide ConnectedCode;
    hide CopyCode;
    hide LastRow;
    hide Arena.ConnectedPeak;
    var half, t := Pow2(k), top + 3 * Pow2(k);
    var right := Connected(g, k, LastRow(g, k));
    var mid := ConnectedGoes(h, g, k, top + half, top + 2 * half, t, ids, LastRow(g, k));
    HoldsKept(ids, mid, top, left, top + 2 * half, half, t);
    ids' := HalvesGo(h, half, baseOut, top, mid, left, right.base);
    GoesThen(h, ConnectedCode(k, top + half, top + 2 * half, t, |g|),
             CopyCode(Ids(top, half), baseOut) + CopyCode(Ids(top + 2 * half, half), baseOut + half), ids, mid, ids');
  }

  function StandaloneCode(level: nat, baseOut: nat, top: nat, first: nat): Code
    decreases level, 0
  {
    if level == 0 then [Hash(baseOut, first, [])] else StandaloneHalves(level - 1, baseOut, top, first)
  }

  function StandaloneHalves(k: nat, baseOut: nat, top: nat, first: nat): Code
    decreases k, 1
  {
    var half := Pow2(k);
    StandaloneCode(k, top, top + 3 * half, first)
    + ConnectorCode(k, top, top + half, top + 3 * half, first + StandaloneCount(k))
    + RightCode(k, baseOut, top, first + StandaloneCount(k) + ButterflyCount(k))
  }

  lemma {:induction false} StandaloneGoes(h: Graph, g: Graph, level: nat, baseOut: nat, top: nat, ids: seq<int>)
    returns (ids': seq<int>)
    requires Standalone(g, level).g <= h && baseOut + Pow2(level) <= top
    requires top + Arena.StandalonePeak(level) <= |ids|
    ensures Goes(h, StandaloneCode(level, baseOut, top, |g|), ids, ids')
    ensures Kept(ids, ids', baseOut, Pow2(level), top)
    ensures Holds(ids', baseOut, Standalone(g, level).base)
    decreases level, 1
  {
    hide Goes;
    hide Holds;
    hide Standalone;
    hide StandaloneHalves;
    hide Arena.StandalonePeak;
    if level == 0 {
      ids' := StandaloneLeafGoes(h, g, baseOut, top, ids);
    } else {
      ids' := StandaloneHalvesGo(h, g, level - 1, baseOut, top, ids);
    }
  }

  lemma StandaloneLeafGoes(h: Graph, g: Graph, baseOut: nat, top: nat, ids: seq<int>) returns (ids': seq<int>)
    requires Standalone(g, 0).g <= h && baseOut < |ids|
    ensures Goes(h, StandaloneCode(0, baseOut, top, |g|), ids, ids') && Kept(ids, ids', baseOut, 1, |ids|)
    ensures Holds(ids', baseOut, Standalone(g, 0).base)
  {
    var instr := Hash(baseOut, |g|, []);
    assert Standalone(g, 0).g == g + [Source] && h[|g|] == (g + [Source])[|g|];
    assert Fitting(h, instr, ids);
    GoesOne(h, instr, ids);
    ids' := StepOne(instr, ids);
  }

  lemma {:induction false} StandaloneHalvesGo(h: Graph, g: Graph, k: nat, baseOut: nat, top: nat, ids: seq<int>)
    returns (ids': seq<int>)
    requires Standalone(g, k + 1).g <= h && baseOut + Pow2(k + 1) <= top
    requires top + Arena.StandalonePeak(k + 1) <= |ids|
    ensures Goes(h, StandaloneHalves(k, baseOut, top, |g|), ids, ids')
    ensures Kept(ids, ids', baseOut, Pow2(k + 1), top)
    ensures Holds(ids', baseOut, Standalone(g, k + 1).base)
    decreases k, 2
  {
    hide StandaloneCode;
    hide StandaloneCount;
    hide ButterflyCount;
    hide Pow2;
    hide Goes;
    hide Holds;
    hide Kept;
    hide Connector;
    hide ConnectorCode;
    hide RightCode;
    hide Connected;
    hide Standalone;
    hide Extend;
    hide LastRow;
    hide Arena.ConnectedPeak;
    hide Arena.StandalonePeak;
    hide Arena.ConnectorPeak;
    Arena.StandaloneRoom(k);
    StandaloneUnfold(g, k);
    ExtendUnfold(Standalone(g, k), k);
    var half := Pow2(k);
    var t := top + 3 * half;
    var left := Standalone(g, k);
    var center := Connector(left.g, k, left.base);
    var right := Connected(center, k, LastRow(center, k));
    PrefixTrans(center, right.g, h);
    PrefixTrans(left.g, center, h);
    var x := StandaloneGoes(h, g, k, top, t, ids);
    KeptSize(ids, x, top, half, t);
    var y := ConnectorGoes(h, left.g, k, top, top + half, t, x, left.base);
    KeptSize(x, y, top + half, half, t);
    HoldsKept(x, y, top, left.base, top + half, half, t);
    GoesThen(h, StandaloneCode(k, top, t, |g|), ConnectorCode(k, top, top + half, t, |left.g|), ids, x, y);
    ids' := RightGoes(h, center, k, baseOut, top, y, left.base);
    GoesThen(h, StandaloneCode(k, top, t, |g|) + ConnectorCode(k, top, top + half, t, |left.g|),
             RightCode(k, baseOut, top, |center|), ids, y, ids');
    KeptBelow(ids, x, top, half, t, top);
    KeptBelow(x, y, top + half, half, t, top);
    KeptThen(ids, x, y, 0, 0, top);
    KeptThen(ids, y, ids', baseOut, 2 * half, top);
  }
}
