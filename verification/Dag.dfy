/** The scaffold graph: node counts, and the emission order of the recursive construction.

    A graph is the sequence of its nodes' predecessor lists, so a node's id is its
    position. Every component is a function that appends its nodes to the graph built
    so far, in exactly the order in which ids are handed out.
 */
module Dag {
  import opened Bits

  /** A node's predecessor list; a pair lists the lower id first. */
  datatype Node = Source | One(pred: nat) | Two(low: nat, high: nat) {
    predicate Reads(id: nat) {
      match this
      case Source => false
      case One(p) => id == p
      case Two(p, q) => id == p || id == q
    }
  }

  type Graph = seq<Node>

  /** A grown graph together with the ids of the component's base nodes. */
  datatype Emission = Emission(g: Graph, base: seq<nat>)

  // ---------- node counts ----------

  /** `k` layers of width `w`. */
  function Layers(w: nat, k: nat): (c: nat)
    ensures k > 0 ==> c >= w
  {
    if k == 0 then 0 else Layers(w, k - 1) + w
  }

  function ButterflyCount(dim: nat): (c: nat)
    ensures c >= Pow2(dim)
  {
    Layers(Pow2(dim), dim + 1)
  }

  function ConnectedCount(level: nat): (c: nat)
    ensures c >= 1
  {
    if level == 0 then 1 else 2 * ConnectedCount(level - 1) + 2 * ButterflyCount(level - 1)
  }

  function StandaloneCount(level: nat): (c: nat)
    ensures c >= 1
  {
    if level == 0 then 1
    else StandaloneCount(level - 1) + ButterflyCount(level - 1) + ConnectedCount(level - 1)
  }

  // ---------- well-formed graphs ----------

  /** Predecessor ids are below the node's own, and a pair is in strictly ascending order. */
  predicate Fits(node: Node, id: nat) {
    match node
    case Source => true
    case One(p) => p < id
    case Two(p, q) => p < q < id
  }

  predicate WellFormed(g: Graph) {
    forall id {:trigger g[id]} :: 0 <= id < |g| ==> Fits(g[id], id)
  }

  /** Every node of the row could come next at id `n`. */
  predicate RowFits(row: Graph, n: nat) {
    forall i {:trigger row[i]} :: 0 <= i < |row| ==> Fits(row[i], n)
  }

  lemma AppendRow(g: Graph, row: Graph)
    requires WellFormed(g) && RowFits(row, |g|)
    ensures WellFormed(g + row)
  {
  }

  predicate Within(ids: seq<nat>, lo: nat, hi: nat) {
    forall i :: 0 <= i < |ids| ==> lo <= ids[i] < hi
  }

  // ---------- rows ----------

  /** The two predecessors in canonical order, whichever order they are given in. */
  function Pair(a: nat, b: nat): Node {
    if a > b then Two(b, a) else Two(a, b)
  }

  function Ids(base: nat, w: nat): (s: seq<nat>)
    ensures |s| == w
    ensures forall i :: 0 <= i < w ==> s[i] == base + i
  {
    seq(w, i => base + i)
  }

  /** The ids of the last layer of width 2^dim. */
  function LastRow(g: Graph, dim: nat): (s: seq<nat>)
    requires Pow2(dim) <= |g|
    ensures |s| == Pow2(dim)
  {
    Ids(|g| - Pow2(dim), Pow2(dim))
  }

  /** One node per input, reading that input. */
  function UnaryRow(inputs: seq<nat>): (row: Graph)
    ensures |row| == |inputs|
    ensures forall i {:trigger row[i]} :: 0 <= i < |row| ==> row[i] == One(inputs[i])
  {
    seq(|inputs|, i requires 0 <= i < |inputs| => One(inputs[i]))
  }

  /** A butterfly layer: node i reads columns i and i ^ 2^b of the previous layer. */
  function CrossRow(prev: seq<nat>, dim: nat, b: nat): (row: Graph)
    requires |prev| == Pow2(dim) && b < dim
    ensures |row| == |prev|
    ensures forall i {:trigger row[i]} :: 0 <= i < |row| ==>
              Flip(i, b) < |prev| && row[i] == Pair(prev[i], prev[Flip(i, b)])
  {
    LayerClosed(b, dim);
    seq(|prev|, i requires 0 <= i < |prev| => Pair(prev[i], prev[Flip(i, b)]))
  }

  lemma LayerClosed(b: nat, dim: nat)
    requires b < dim
    ensures forall i :: 0 <= i < Pow2(dim) ==> Flip(i, b) < Pow2(dim)
  {
    forall i | 0 <= i < Pow2(dim)
      ensures Flip(i, b) < Pow2(dim)
    {
      FlipInLayer(i, b, dim);
    }
  }

  /** Node i reads position i of both rows. */
  function JoinRow(primary: seq<nat>, ingress: seq<nat>): (row: Graph)
    requires |primary| == |ingress|
    ensures |row| == |primary|
    ensures forall i {:trigger row[i]} :: 0 <= i < |row| ==> row[i] == Pair(primary[i], ingress[i])
  {
    seq(|primary|, i requires 0 <= i < |primary| => Pair(primary[i], ingress[i]))
  }

  // ---------- components ----------

  /** The first `k` crossing layers of a butterfly of dimension `dim` on top of the last row of `g`. */
  function Mix(g: Graph, dim: nat, k: nat): (r: Graph)
    requires k <= dim && Pow2(dim) <= |g|
    ensures |r| == |g| + Layers(Pow2(dim), k) && g <= r
    decreases k
  {
    if k == 0 then g
    else
      var h := Mix(g, dim, k - 1);
      h + CrossRow(LastRow(h, dim), dim, dim - k)
  }

  function Connector(g: Graph, dim: nat, inputs: seq<nat>): (r: Graph)
    requires |inputs| == Pow2(dim)
    ensures |r| == |g| + ButterflyCount(dim) && g <= r
  {
    Mix(g + UnaryRow(inputs), dim, dim)
  }

  /** An ingress butterfly over `ingress`, then a center butterfly that joins its outputs to `primary`. */
  function Merged(g: Graph, dim: nat, primary: seq<nat>, ingress: seq<nat>): (r: Graph)
    requires |primary| == |ingress| == Pow2(dim)
    ensures |r| == |g| + 2 * ButterflyCount(dim) && g <= r
  {
    var a := Connector(g, dim, ingress);
    Mix(a + JoinRow(primary, LastRow(a, dim)), dim, dim)
  }

  function Connected(g: Graph, level: nat, inputs: seq<nat>): (e: Emission)
    requires |inputs| == Pow2(level)
    ensures |e.g| == |g| + ConnectedCount(level)
    ensures |e.base| == Pow2(level)
    ensures g <= e.g
    decreases level
  {
    if level == 0 then Emission(g + [One(inputs[0])], [|g|])
    else
      var half := Pow2(level - 1);
      var left := Connected(g, level - 1, inputs[..half]);
      var center := Merged(left.g, level - 1, left.base, inputs[half..]);
      var right := Connected(center, level - 1, LastRow(center, level - 1));
      PrefixTrans(g, left.g, center);
      PrefixTrans(g, center, right.g);
      Emission(right.g, left.base + right.base)
  }

  /** One standalone level: a connector over the smaller standalone's base, then a connected component over its
      outputs. */
  function Extend(left: Emission, k: nat): (e: Emission)
    requires |left.base| == Pow2(k)
    ensures |e.g| == |left.g| + ButterflyCount(k) + ConnectedCount(k)
    ensures |e.base| == 2 * Pow2(k)
    ensures left.g <= e.g
  {
    var center := Connector(left.g, k, left.base);
    var right := Connected(center, k, LastRow(center, k));
    PrefixTrans(left.g, center, right.g);
    Emission(right.g, left.base + right.base)
  }

  function Standalone(g: Graph, level: nat): (e: Emission)
    ensures |e.g| == |g| + StandaloneCount(level)
    ensures |e.base| == Pow2(level)
    ensures g <= e.g
    decreases level
  {
    hide Extend;
    if level == 0 then Emission(g + [Source], [|g|])
    else
      var left := Standalone(g, level - 1);
      var e := Extend(left, level - 1);
      PrefixTrans(g, left.g, e.g);
      e
  }

  lemma PrefixTrans(a: Graph, b: Graph, c: Graph)
    requires a <= b <= c
    ensures a <= c
  {
  }

  lemma LastRowWithin(g: Graph, dim: nat)
    requires Pow2(dim) <= |g|
    ensures Within(LastRow(g, dim), 0, |g|)
  {
  }

  /** A grown graph's last row is newer than the graph it grew from. */
  lemma LastRowNew(g: Graph, h: Graph, dim: nat)
    requires |g| + Pow2(dim) <= |h|
    ensures Within(LastRow(h, dim), |g|, |h|)
  {
  }

  lemma WithinLoosen(ids: seq<nat>, lo: nat, hi: nat, lo': nat, hi': nat)
    requires Within(ids, lo, hi) && lo' <= lo && hi <= hi'
    ensures Within(ids, lo', hi')
  {
  }

  lemma WithinSlices(ids: seq<nat>, k: nat, lo: nat, hi: nat, hi': nat)
    requires Within(ids, lo, hi) && k <= |ids| && hi <= hi'
    ensures Within(ids[..k], lo, hi') && Within(ids[k..], lo, hi')
  {
  }

  lemma WithinConcat(left: seq<nat>, right: seq<nat>, lo: nat, mid: nat, mid': nat, hi: nat)
    requires Within(left, lo, mid) && Within(right, mid', hi) && lo <= mid <= mid' <= hi
    ensures Within(left + right, lo, hi)
  {
  }

  /** Base ids of a connected component lie inside its own id range. */
  lemma {:induction false} ConnectedBase(g: Graph, level: nat, inputs: seq<nat>)
    requires |inputs| == Pow2(level)
    ensures Within(Connected(g, level, inputs).base, |g|, |Connected(g, level, inputs).g|)
    decreases level
  {
    if level > 0 {
      var half := Pow2(level - 1);
      var left := Connected(g, level - 1, inputs[..half]);
      var center := Merged(left.g, level - 1, left.base, inputs[half..]);
      var right := Connected(center, level - 1, LastRow(center, level - 1));
      ConnectedBase(g, level - 1, inputs[..half]);
      ConnectedBase(center, level - 1, LastRow(center, level - 1));
      WithinConcat(left.base, right.base, |g|, |left.g|, |center|, |right.g|);
    }
  }

  lemma {:induction false} MixWellFormed(g: Graph, dim: nat, k: nat)
    requires k <= dim && Pow2(dim) <= |g| && WellFormed(g)
    ensures WellFormed(Mix(g, dim, k))
    decreases k
  {
    if k > 0 {
      MixWellFormed(g, dim, k - 1);
      var h := Mix(g, dim, k - 1);
      CrossFits(h, dim, dim - k);
      AppendRow(h, CrossRow(LastRow(h, dim), dim, dim - k));
    }
  }

  lemma CrossFits(h: Graph, dim: nat, b: nat)
    requires Pow2(dim) <= |h| && b < dim
    ensures RowFits(CrossRow(LastRow(h, dim), dim, b), |h|)
  {
    var row := CrossRow(LastRow(h, dim), dim, b);
    forall i | 0 <= i < |row|
      ensures Fits(row[i], |h|)
    {
      FlipInLayer(i, b, dim);
      FlipLaws(i, b);
    }
  }

  lemma UnaryFits(inputs: seq<nat>, n: nat)
    requires Within(inputs, 0, n)
    ensures RowFits(UnaryRow(inputs), n)
  {
  }

  /** The primary ids are all older than the ingress ids, so each pair is strictly ordered. */
  lemma JoinFits(primary: seq<nat>, ingress: seq<nat>, mid: nat, n: nat)
    requires |primary| == |ingress| && Within(primary, 0, mid) && Within(ingress, mid, n)
    ensures RowFits(JoinRow(primary, ingress), n)
  {
  }

  lemma ConnectorWellFormed(g: Graph, dim: nat, inputs: seq<nat>)
    requires |inputs| == Pow2(dim) && WellFormed(g) && Within(inputs, 0, |g|)
    ensures WellFormed(Connector(g, dim, inputs))
  {
    UnaryFits(inputs, |g|);
    AppendRow(g, UnaryRow(inputs));
    MixWellFormed(g + UnaryRow(inputs), dim, dim);
  }

  lemma MergedWellFormed(g: Graph, dim: nat, primary: seq<nat>, ingress: seq<nat>)
    requires |primary| == |ingress| == Pow2(dim) && WellFormed(g) && Within(primary, 0, |g|) && Within(ingress, 0, |g|)
    ensures WellFormed(Merged(g, dim, primary, ingress))
  {
    ConnectorWellFormed(g, dim, ingress);
    var a := Connector(g, dim, ingress);
    var row := JoinRow(primary, LastRow(a, dim));
    JoinFits(primary, LastRow(a, dim), |g|, |a|);
    AppendRow(a, row);
    MixWellFormed(a + row, dim, dim);
  }

  /** Every predecessor id is below its node's id, and lists are in ascending order. */
  lemma {:induction false} ConnectedWellFormed(g: Graph, level: nat, inputs: seq<nat>)
    requires |inputs| == Pow2(level) && WellFormed(g) && Within(inputs, 0, |g|)
    ensures WellFormed(Connected(g, level, inputs).g)
    decreases level
  {
    if level > 0 {
      hide WellFormed;
      hide Within;
      hide Merged;
      var half := Pow2(level - 1);
      var left := Connected(g, level - 1, inputs[..half]);
      var center := Merged(left.g, level - 1, left.base, inputs[half..]);
      WithinSlices(inputs, half, 0, |g|, |g|);
      WithinSlices(inputs, half, 0, |g|, |left.g|);
      ConnectedWellFormed(g, level - 1, inputs[..half]);
      ConnectedBase(g, level - 1, inputs[..half]);
      MergedWellFormed(left.g, level - 1, left.base, inputs[half..]);
      LastRowWithin(center, level - 1);
      ConnectedWellFormed(center, level - 1, LastRow(center, level - 1));
    }
  }

  lemma ExtendBase(left: Emission, k: nat, lo: nat)
    requires |left.base| == Pow2(k) && lo <= |left.g| && Within(left.base, lo, |left.g|)
    ensures Within(Extend(left, k).base, lo, |Extend(left, k).g|)
  {
    hide Connector;
    hide Connected;
    hide Within;
    var center := Connector(left.g, k, left.base);
    var right := Connected(center, k, LastRow(center, k));
    ConnectedBase(center, k, LastRow(center, k));
    WithinConcat(left.base, right.base, lo, |left.g|, |center|, |right.g|);
  }

  lemma {:induction false} StandaloneBase(g: Graph, level: nat)
    ensures Within(Standalone(g, level).base, |g|, |Standalone(g, level).g|)
    decreases level
  {
    hide Extend;
    if level > 0 {
      StandaloneBase(g, level - 1);
      ExtendBase(Standalone(g, level - 1), level - 1, |g|);
    }
  }

  lemma ExtendWellFormed(left: Emission, k: nat)
    requires |left.base| == Pow2(k) && WellFormed(left.g) && Within(left.base, 0, |left.g|)
    ensures WellFormed(Extend(left, k).g)
  {
    hide Connector;
    hide Connected;
    hide WellFormed;
    hide Within;
    var center := Connector(left.g, k, left.base);
    ConnectorWellFormed(left.g, k, left.base);
    LastRowWithin(center, k);
    ConnectedWellFormed(center, k, LastRow(center, k));
  }

  /** Every predecessor id is below its node's id, and lists are in ascending order. */
  lemma {:induction false} StandaloneWellFormed(g: Graph, level: nat)
    requires WellFormed(g)
    ensures WellFormed(Standalone(g, level).g)
    decreases level
  {
    hide Extend;
    hide Within;
    hide Standalone;
    if level == 0 {
      StandaloneLeaf(g);
      AppendRow(g, [Source]);
    } else {
      hide WellFormed;
      var k := level - 1;
      var left := Standalone(g, k);
      StandaloneUnfold(g, k);
      StandaloneWellFormed(g, k);
      StandaloneBase(g, k);
      WithinLoosen(left.base, |g|, |left.g|, 0, |left.g|);
      ExtendWellFormed(left, k);
    }
  }

  lemma StandaloneLeaf(g: Graph)
    ensures Standalone(g, 0) == Emission(g + [Source], [|g|])
  {
  }

  lemma ConnectedLeaf(g: Graph, inputs: seq<nat>)
    requires |inputs| == 1
    ensures Connected(g, 0, inputs) == Emission(g + [One(inputs[0])], [|g|])
  {
  }

  lemma ConnectedUnfold(g: Graph, k: nat, inputs: seq<nat>)
    requires |inputs| == Pow2(k + 1)
    ensures |inputs[..Pow2(k)]| == |inputs[Pow2(k)..]| == Pow2(k)
    ensures var left := Connected(g, k, inputs[..Pow2(k)]);
            var center := Merged(left.g, k, left.base, inputs[Pow2(k)..]);
            var right := Connected(center, k, LastRow(center, k));
            Connected(g, k + 1, inputs) == Emission(right.g, left.base + right.base)
  {
  }

  lemma StandaloneUnfold(g: Graph, k: nat)
    ensures Standalone(g, k + 1) == Extend(Standalone(g, k), k)
  {
    hide Extend;
  }

  lemma ExtendUnfold(left: Emission, k: nat)
    requires |left.base| == Pow2(k)
    ensures var center := Connector(left.g, k, left.base);
            var right := Connected(center, k, LastRow(center, k));
            Extend(left, k) == Emission(right.g, left.base + right.base)
  {
  }

  lemma EmptyWellFormed()
    ensures WellFormed([])
  {
  }

  lemma {:induction false} LayersOrder(w: nat, j: nat, k: nat)
    requires j <= k
    ensures Layers(w, j) <= Layers(w, k)
    decreases k
  {
    if j < k {
      LayersOrder(w, j, k - 1);
    }
  }

  // ---------- base ids are distinct ----------

  /** Strictly ascending ids, all in [lo, hi). */
  predicate Ascending(ids: seq<nat>, lo: nat, hi: nat) {
    && Within(ids, lo, hi)
    && forall i, j :: 0 <= i < j < |ids| ==> ids[i] < ids[j]
  }

  lemma AscendingWithin(ids: seq<nat>, lo: nat, hi: nat)
    requires Ascending(ids, lo, hi)
    ensures Within(ids, lo, hi)
  {
  }

  lemma AscendingConcat(left: seq<nat>, right: seq<nat>, lo: nat, mid: nat, mid': nat, hi: nat)
    requires Ascending(left, lo, mid) && Ascending(right, mid', hi) && lo <= mid <= mid' <= hi
    ensures Ascending(left + right, lo, hi)
  {
  }

  lemma {:induction false} ConnectedAscending(g: Graph, level: nat, inputs: seq<nat>)
    requires |inputs| == Pow2(level)
    ensures Ascending(Connected(g, level, inputs).base, |g|, |Connected(g, level, inputs).g|)
    decreases level, 0
  {
    hide Connected;
    hide Merged;
    if level == 0 {
      ConnectedLeaf(g, inputs);
    } else {
      ConnectedUnfold(g, level - 1, inputs);
      ConnectedHalvesAscending(g, level - 1, inputs);
    }
  }

  lemma {:induction false} ConnectedHalvesAscending(g: Graph, k: nat, inputs: seq<nat>)
    requires |inputs| == Pow2(k + 1)
    ensures var left := Connected(g, k, inputs[..Pow2(k)]);
            var center := Merged(left.g, k, left.base, inputs[Pow2(k)..]);
            var right := Connected(center, k, LastRow(center, k));
            Ascending(left.base + right.base, |g|, |right.g|)
    decreases k, 1
  {
    hide Ascending;
    hide Connected;
    hide Merged;
    hide LastRow;
    var left := Connected(g, k, inputs[..Pow2(k)]);
    var center := Merged(left.g, k, left.base, inputs[Pow2(k)..]);
    var right := Connected(center, k, LastRow(center, k));
    ConnectedAscending(g, k, inputs[..Pow2(k)]);
    ConnectedAscending(center, k, LastRow(center, k));
    AscendingConcat(left.base, right.base, |g|, |left.g|, |center|, |right.g|);
  }

  lemma ExtendAscending(left: Emission, k: nat, lo: nat)
    requires |left.base| == Pow2(k) && lo <= |left.g| && Ascending(left.base, lo, |left.g|)
    ensures Ascending(Extend(left, k).base, lo, |Extend(left, k).g|)
  {
    hide Connector;
    hide Connected;
    hide Ascending;
    var center := Connector(left.g, k, left.base);
    var right := Connected(center, k, LastRow(center, k));
    ConnectedAscending(center, k, LastRow(center, k));
    AscendingConcat(left.base, right.base, lo, |left.g|, |center|, |right.g|);
  }

  lemma {:induction false} StandaloneAscending(g: Graph, level: nat)
    ensures Ascending(Standalone(g, level).base, |g|, |Standalone(g, level).g|)
    decreases level
  {
    hide Extend;
    if level > 0 {
      StandaloneAscending(g, level - 1);
      ExtendAscending(Standalone(g, level - 1), level - 1, |g|);
    }
  }
}
