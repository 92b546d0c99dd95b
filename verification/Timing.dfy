/** When the nodes of a standalone component are computed: exact levels of its connectors and base nodes. */
module Timing {
  import opened Bits
  import opened Dag
  import opened Levels
  import opened Reach
  import Census
  import opened Columns

  // ---------- butterflies ----------

  /** Layer k of a column comes at least k levels after every starting column it depends on. */
  lemma {:induction false} MixLower(g: Graph, dim: nat, k: nat, i: nat, o: nat)
    requires k <= dim && Pow2(dim) <= |g| && WellFormed(g) && i < Pow2(dim) && o < Pow2(dim) && Agree(i, o, dim - k)
    ensures WellFormed(Mix(g, dim, k))
    ensures Level(Mix(g, dim, k), LastAt(Mix(g, dim, k), dim, o)) >= Level(g, LastAt(g, dim, i)) + k
    decreases k
  {
    hide Mix;
    hide Level;
    hide Agree;
    hide Flip;
    hide WellFormed;
    MixWellFormed(g, dim, k);
    if k == 0 {
      AgreeAll(i, o, dim);
      MixZero(g, dim);
    } else {
      AgreeOrFlip(i, o, dim - k);
      FlipInLayer(o, dim - k, dim);
      var o' := if Agree(i, o, dim - k + 1) then o else Flip(o, dim - k);
      MixLower(g, dim, k - 1, i, o');
      NodeLevel(g, dim, k - 1, o);
    }
  }

  /** And exactly k levels after one of them. */
  lemma {:induction false} MixExact(g: Graph, dim: nat, k: nat, o: nat) returns (i: nat)
    requires k <= dim && Pow2(dim) <= |g| && WellFormed(g) && o < Pow2(dim)
    ensures WellFormed(Mix(g, dim, k)) && i < Pow2(dim) && Agree(i, o, dim - k)
    ensures Level(Mix(g, dim, k), LastAt(Mix(g, dim, k), dim, o)) == Level(g, LastAt(g, dim, i)) + k
    decreases k
  {
    hide Mix;
    hide Level;
    hide Agree;
    hide Flip;
    hide WellFormed;
    MixWellFormed(g, dim, k);
    if k == 0 {
      AgreeAll(o, o, dim);
      MixZero(g, dim);
      i := o;
    } else {
      var b := dim - k;
      FlipInLayer(o, b, dim);
      NodeLevel(g, dim, k - 1, o);
      var p := MixExact(g, dim, k - 1, o);
      var q := MixExact(g, dim, k - 1, Flip(o, b));
      AgreeExclusive(p, o, b);
      AgreeExclusive(q, o, b);
      var h := Mix(g, dim, k - 1);
      i := if Level(h, LastAt(h, dim, o)) >= Level(h, LastAt(h, dim, Flip(o, b))) then p else q;
    }
  }

  lemma {:induction false} MixPrefix(g: Graph, dim: nat, j: nat, k: nat)
    requires j <= k <= dim && Pow2(dim) <= |g|
    ensures Mix(g, dim, j) <= Mix(g, dim, k) && |Mix(g, dim, j)| == |g| + Layers(Pow2(dim), j)
    decreases k
  {
    if j < k {
      MixPrefix(g, dim, j, k - 1);
    }
  }

  // ---------- the connector of an extension ----------

  /** Level of the node in column `o` of layer `m` of the connector that extends `left`. */
  function LayerLevel(left: Emission, k: nat, m: nat, o: nat): nat
    requires |left.base| == Pow2(k) && WellFormed(Extend(left, k).g)
    requires LayerId(|left.g|, Pow2(k), m, o) < |Extend(left, k).g|
  {
    Level(Extend(left, k).g, LayerId(|left.g|, Pow2(k), m, o))
  }

  ghost predicate Extendable(left: Emission, k: nat) {
    && |left.base| == Pow2(k) && WellFormed(left.g) && Within(left.base, 0, |left.g|) && WellFormed(Extend(left, k).g)
  }

  function FirstRow(left: Emission): Graph {
    left.g + UnaryRow(left.base)
  }

  /** The connector node of layer m, column o, in the graph that ends with layer m. */
  lemma LayerNode(left: Emission, k: nat, m: nat, o: nat)
    requires Extendable(left, k) && m <= k && o < Pow2(k)
    ensures WellFormed(FirstRow(left)) && |FirstRow(left)| == |left.g| + Pow2(k)
    ensures WellFormed(Mix(FirstRow(left), k, m))
    ensures Pow2(k) <= |Mix(FirstRow(left), k, m)| <= |Extend(left, k).g|
    ensures Mix(FirstRow(left), k, m) <= Extend(left, k).g
    ensures LayerId(|left.g|, Pow2(k), m, o) == LastAt(Mix(FirstRow(left), k, m), k, o) < |Extend(left, k).g|
    ensures LayerLevel(left, k, m, o) == Level(Mix(FirstRow(left), k, m), LastAt(Mix(FirstRow(left), k, m), k, o))
  {
    hide Connected;
    hide Level;
    hide WellFormed;
    hide Within;
    hide Mix;
    var g0 := FirstRow(left);
    UnaryFits(left.base, |left.g|);
    AppendRow(left.g, UnaryRow(left.base));
    MixWellFormed(g0, k, m);
    MixPrefix(g0, k, m, k);
    MixPrefix(g0, k, 0, m);
    var r := Mix(g0, k, m);
    PrefixTrans(r, Connector(left.g, k, left.base), Extend(left, k).g);
    LevelGrow(r, Extend(left, k).g, LastAt(r, k, o));
  }

  /** Layer 0 comes one level after the base node it reads. */
  lemma FirstLayerLevel(left: Emission, k: nat, o: nat)
    requires Extendable(left, k) && o < Pow2(k)
    ensures left.base[o] < |left.g| && LayerId(|left.g|, Pow2(k), 0, o) < |Extend(left, k).g|
    ensures LayerLevel(left, k, 0, o) == Level(left.g, left.base[o]) + 1
  {
    hide Extend;
    hide Level;
    hide Mix;
    hide WellFormed;
    LayerNode(left, k, 0, o);
    var g0 := FirstRow(left);
    MixZero(g0, k);
    WithinAt(left.base, o, |left.g|);
    assert g0[LastAt(g0, k, o)] == One(left.base[o]);
    UnaryStep(left.g, g0, left.base[o], left.base[o], LastAt(g0, k, o));
  }

  lemma LayerLower(left: Emission, k: nat, m: nat, i: nat, o: nat)
    requires Extendable(left, k) && m <= k && o < Pow2(k) && i < Pow2(k) && Agree(i, o, k - m)
    ensures left.base[i] < |left.g| && LayerId(|left.g|, Pow2(k), m, o) < |Extend(left, k).g|
    ensures LayerLevel(left, k, m, o) >= Level(left.g, left.base[i]) + 1 + m
  {
    hide Extend;
    hide Level;
    hide Mix;
    hide WellFormed;
    hide Agree;
    var g0 := FirstRow(left);
    LayerNode(left, k, m, o);
    LayerNode(left, k, 0, i);
    FirstLayerLevel(left, k, i);
    MixZero(g0, k);
    MixLower(g0, k, m, i, o);
  }

  lemma LayerExact(left: Emission, k: nat, m: nat, o: nat) returns (i: nat)
    requires Extendable(left, k) && m <= k && o < Pow2(k)
    ensures i < Pow2(k) && Agree(i, o, k - m)
    ensures left.base[i] < |left.g| && LayerId(|left.g|, Pow2(k), m, o) < |Extend(left, k).g|
    ensures LayerLevel(left, k, m, o) == Level(left.g, left.base[i]) + 1 + m
  {
    hide Extend;
    hide Level;
    hide Mix;
    hide WellFormed;
    hide Agree;
    var g0 := FirstRow(left);
    LayerNode(left, k, m, o);
    i := MixExact(g0, k, m, o);
    LayerNode(left, k, 0, i);
    FirstLayerLevel(left, k, i);
    MixZero(g0, k);
  }

  // ---------- everything built on inputs comes later ----------

  /** Nodes that read only new nodes or `ids`, all at level x or later, come after level x. */
  lemma {:induction false} NewAbove(h: Graph, from: nat, ids: seq<nat>, x: nat, v: nat)
    requires WellFormed(h) && Census.NoSource(h, from) && ReadsOnly(h, from, ids) && from <= v < |h|
    requires forall i {:trigger ids[i]} :: 0 <= i < |ids| ==> ids[i] < |h| && Level(h, ids[i]) >= x
    ensures Level(h, v) >= x + 1
    decreases v
  {
    assert Fits(h[v], v);
    var p := match h[v] case Source => 0 case One(p) => p case Two(p, _) => p;
    assert h[v].Reads(p);
    if p >= from {
      NewAbove(h, from, ids, x, p);
    } else {
      var i :| 0 <= i < |ids| && ids[i] == p;
    }
  }

  // ---------- the last base node is the last node ----------

  /** From a node that is not the last base node a reader leads on, so no level exceeds the last base node's. */
  lemma {:induction false} LastIsLast(h: Graph, d: seq<nat>, base: seq<nat>, cb: nat, from: nat, u: nat)
    requires WellFormed(h) && Coloured(h, d) && |base| > 0 && Tops(d, base, cb) && NewIn(d, from, cb, |base|)
    requires from <= u < |h|
    requires forall i: nat {:trigger base[i]} :: i + 1 < |base| ==> base[i] < |h| && !Unread(h, base[i])
    ensures base[|base| - 1] < |h| && Level(h, u) <= Level(h, base[|base| - 1])
    decreases |h| - u
  {
    hide Level;
    hide Coloured;
    ColouredSize(h, d);
    TopAt(d, base, cb, |base| - 1);
    var last := base[|base| - 1];
    if u != last {
      NotLastIsRead(h, d, base, cb, from, u);
      var r: nat :| r < |h| && h[r].Reads(u);
      ReadsBelow(h, r, u);
      LastIsLast(h, d, base, cb, from, r);
    }
  }

  lemma NotLastIsRead(h: Graph, d: seq<nat>, base: seq<nat>, cb: nat, from: nat, u: nat)
    requires WellFormed(h) && Coloured(h, d) && |base| > 0 && Tops(d, base, cb) && NewIn(d, from, cb, |base|)
    requires from <= u < |h|
    requires forall i: nat {:trigger base[i]} :: i + 1 < |base| ==> base[i] < |h| && !Unread(h, base[i])
    requires u != base[|base| - 1]
    ensures !Unread(h, u)
  {
    hide Level;
    hide DoneBy;
    if Top(d, u) {
      var i := d[u] - cb;
      TopAt(d, base, cb, i);
      SameTop(d, u, base[i]);
    }
  }

  /** An ancestor has a reader. */
  lemma {:induction false} AncestorIsRead(h: Graph, a: nat, b: nat)
    requires WellFormed(h) && b < |h| && Ancestor(h, a, b)
    ensures !Unread(h, a)
    decreases b
  {
    assert Fits(h[b], b);
    if !h[b].Reads(a) {
      match h[b]
      case One(p) => AncestorIsRead(h, a, p);
      case Two(p, q) => if Ancestor(h, a, p) { AncestorIsRead(h, a, p); } else { AncestorIsRead(h, a, q); }
    }
  }

  // ---------- exact levels ----------

  /** All of `ids` sit at level x. */
  ghost predicate Uniform(g: Graph, ids: seq<nat>, x: nat)
    requires WellFormed(g)
  {
    forall i {:trigger ids[i]} :: 0 <= i < |ids| ==> LevelIs(g, ids[i], x)
  }

  ghost predicate LevelIs(g: Graph, id: nat, x: nat)
    requires WellFormed(g)
  {
    id < |g| && Level(g, id) == x
  }

  lemma UniformAt(g: Graph, ids: seq<nat>, x: nat, i: nat)
    requires WellFormed(g) && Uniform(g, ids, x) && i < |ids|
    ensures ids[i] < |g| && Level(g, ids[i]) == x
  {
  }

  /** Level of a connected component's last base node above its inputs. */
  function LastOffset(level: nat): (f: nat)
    ensures f >= 1
  {
    if level == 0 then 1 else Max(LastOffset(level - 1), level) + level + LastOffset(level - 1)
  }

  /** Level of a standalone component's last base node. */
  function LastLevel(level: nat): nat {
    if level == 0 then 0 else LastLevel(level - 1) + level + LastOffset(level - 1)
  }

  /** The outputs of a butterfly come dim levels after the latest node of its first row. */
  lemma MixUniform(g: Graph, dim: nat, y: nat, first: nat)
    requires Pow2(dim) <= |g| && WellFormed(g) && first < Pow2(dim)
    requires forall i: nat {:trigger LastAt(g, dim, i)} :: i < Pow2(dim) ==> Level(g, LastAt(g, dim, i)) <= y
    requires Level(g, LastAt(g, dim, first)) == y
    ensures WellFormed(Mix(g, dim, dim)) && Pow2(dim) <= |Mix(g, dim, dim)|
    ensures Uniform(Mix(g, dim, dim), LastRow(Mix(g, dim, dim), dim), y + dim)
  {
    hide Mix;
    hide Level;
    hide WellFormed;
    MixWellFormed(g, dim, dim);
    var r := Mix(g, dim, dim);
    var ids := LastRow(r, dim);
    forall o {:trigger ids[o]} | 0 <= o < |ids|
      ensures LevelIs(r, ids[o], y + dim)
    {
      assert ids[o] == LastAt(r, dim, o);
      MixLower(g, dim, dim, first, o);
      var i := MixExact(g, dim, dim, o);
      assert Level(g, LastAt(g, dim, i)) <= y;
    }
  }

  lemma ConnectorUniform(g: Graph, dim: nat, inputs: seq<nat>, x: nat)
    requires |inputs| == Pow2(dim) && WellFormed(g) && Within(inputs, 0, |g|) && Uniform(g, inputs, x)
    ensures WellFormed(Connector(g, dim, inputs))
    ensures Uniform(Connector(g, dim, inputs), LastRow(Connector(g, dim, inputs), dim), x + 1 + dim)
  {
    hide Mix;
    hide Level;
    hide WellFormed;
    hide Uniform;
    var g0 := g + UnaryRow(inputs);
    UnaryFits(inputs, |g|);
    AppendRow(g, UnaryRow(inputs));
    forall i: nat | i < Pow2(dim)
      ensures Level(g0, LastAt(g0, dim, i)) == x + 1
    {
      UniformAt(g, inputs, x, i);
      assert g0[LastAt(g0, dim, i)] == One(inputs[i]);
      UnaryStep(g, g0, inputs[i], inputs[i], LastAt(g0, dim, i));
    }
    MixUniform(g0, dim, x + 1, 0);
  }

  /** Primary inputs at levels up to `top`, attained; ingress inputs all at level x. */
  lemma MergedUniform(g: Graph, dim: nat, primary: seq<nat>, ingress: seq<nat>, x: nat, top: nat, first: nat)
    requires |primary| == |ingress| == Pow2(dim) && WellFormed(g) && Within(primary, 0, |g|) && Within(ingress, 0, |g|)
    requires Uniform(g, ingress, x) && first < Pow2(dim) && LevelIs(g, primary[first], top)
    requires forall i: nat {:trigger primary[i]} :: i < Pow2(dim) ==> primary[i] < |g| && Level(g, primary[i]) <= top
    ensures WellFormed(Merged(g, dim, primary, ingress))
    ensures Uniform(Merged(g, dim, primary, ingress), LastRow(Merged(g, dim, primary, ingress), dim),
                    Max(top, x + 1 + dim) + 1 + dim)
  {
    hide Mix;
    hide Connector;
    hide Level;
    hide WellFormed;
    hide Uniform;
    hide Within;
    ConnectorUniform(g, dim, ingress, x);
    var a := Connector(g, dim, ingress);
    var row := JoinRow(primary, LastRow(a, dim));
    LastRowNew(g, a, dim);
    JoinFits(primary, LastRow(a, dim), |g|, |a|);
    AppendRow(a, row);
    var b := a + row;
    forall i: nat | i < Pow2(dim)
      ensures Level(b, LastAt(b, dim, i)) == Max(Level(g, primary[i]), x + 1 + dim) + 1
    {
      JoinLevel(g, a, dim, primary, x + 1 + dim, i);
    }
    assert primary[first] < |g|;
    MixUniform(b, dim, Max(top, x + 1 + dim) + 1, first);
  }

  lemma JoinLevel(g: Graph, a: Graph, dim: nat, primary: seq<nat>, y: nat, i: nat)
    requires |primary| == Pow2(dim) <= |a| && WellFormed(g) && WellFormed(a) && g <= a && i < Pow2(dim)
    requires primary[i] < |g|
    requires Uniform(a, LastRow(a, dim), y)
    requires WellFormed(a + JoinRow(primary, LastRow(a, dim)))
    ensures var b := a + JoinRow(primary, LastRow(a, dim));
            Level(b, LastAt(b, dim, i)) == Max(Level(g, primary[i]), y) + 1
  {
    hide Level;
    hide WellFormed;
    UniformAt(a, LastRow(a, dim), y, i);
    var b := a + JoinRow(primary, LastRow(a, dim));
    JoinNode(a, dim, primary, i);
    LevelGrow(g, a, primary[i]);
    PairStep(a, b, primary[i], primary[i], LastAt(a, dim, i), LastAt(b, dim, i));
  }

  /** The last base node sits at level x. */
  ghost predicate LastAtLevel(e: Emission, x: nat) {
    WellFormed(e.g) && |e.base| > 0 && LevelIs(e.g, e.base[|e.base| - 1], x)
  }

  /** The last base node comes at most two levels after the one before it. */
  ghost predicate ShortGap(e: Emission) {
    && WellFormed(e.g) && |e.base| >= 2 && e.base[|e.base| - 1] < |e.g| && e.base[|e.base| - 2] < |e.g|
    && Level(e.g, e.base[|e.base| - 1]) <= Level(e.g, e.base[|e.base| - 2]) + 2
  }

  /** Over inputs of one level, the last base node's level is exact, and the one before it comes at most two levels
      earlier. */
  lemma {:induction false} ConnectedLast(g: Graph, level: nat, inputs: seq<nat>, x: nat)
    requires |inputs| == Pow2(level) && WellFormed(g) && Within(inputs, 0, |g|) && Uniform(g, inputs, x)
    ensures LastAtLevel(Connected(g, level, inputs), x + LastOffset(level))
    ensures level >= 1 ==> ShortGap(Connected(g, level, inputs))
    decreases level, 0
  {
    hide Connected;
    hide WellFormed;
    hide Level;
    hide Uniform;
    if level == 0 {
      LeafLast(g, inputs, x);
    } else {
      ConnectedUnfold(g, level - 1, inputs);
      ConnectedHalvesLast(g, level - 1, inputs, x);
    }
  }

  lemma LeafLast(g: Graph, inputs: seq<nat>, x: nat)
    requires |inputs| == 1 && WellFormed(g) && Within(inputs, 0, |g|) && Uniform(g, inputs, x)
    ensures LastAtLevel(Connected(g, 0, inputs), x + 1)
  {
    hide Connected;
    hide WellFormed;
    hide Level;
    hide Uniform;
    ConnectedLeaf(g, inputs);
    ConnectedWellFormed(g, 0, inputs);
    UniformAt(g, inputs, x, 0);
    UnaryStep(g, Connected(g, 0, inputs).g, inputs[0], inputs[0], |g|);
  }

  lemma UniformParts(g: Graph, ids: seq<nat>, x: nat, k: nat)
    requires WellFormed(g) && Uniform(g, ids, x) && k <= |ids|
    ensures Uniform(g, ids[..k], x) && Uniform(g, ids[k..], x)
  {
    var back := ids[k..];
    assert forall i {:trigger back[i]} :: 0 <= i < |back| ==> back[i] == ids[k + i];
  }

  lemma UniformGrow(g: Graph, h: Graph, ids: seq<nat>, x: nat)
    requires WellFormed(g) && WellFormed(h) && g <= h && Uniform(g, ids, x)
    ensures Uniform(h, ids, x)
  {
    hide Level;
    forall i {:trigger ids[i]} | 0 <= i < |ids|
      ensures LevelIs(h, ids[i], x)
    {
      UniformAt(g, ids, x, i);
      LevelGrow(g, h, ids[i]);
    }
  }

  lemma BaseBelowLast(g: Graph, k: nat, inputs: seq<nat>, i: nat)
    requires |inputs| == Pow2(k) && WellFormed(g) && Within(inputs, 0, |g|) && i < Pow2(k)
    ensures var e := Connected(g, k, inputs);
            WellFormed(e.g) && e.base[i] < |e.g| && e.base[Pow2(k) - 1] < |e.g|
              && Level(e.g, e.base[i]) <= Level(e.g, e.base[Pow2(k) - 1])
  {
    hide Connected;
    hide WellFormed;
    hide Level;
    hide Ancestor;
    var last := Pow2(k) - 1;
    ConnectedWellFormed(g, k, inputs);
    ConnectedBase(g, k, inputs);
    if i < last {
      ConnectedChain(g, k, inputs, i, last);
      AncestorLevel(Connected(g, k, inputs).g, Connected(g, k, inputs).base[i], Connected(g, k, inputs).base[last]);
    }
  }

  lemma {:induction false} ConnectedHalvesLast(g: Graph, k: nat, inputs: seq<nat>, x: nat)
    requires |inputs| == Pow2(k + 1) && WellFormed(g) && Within(inputs, 0, |g|) && Uniform(g, inputs, x)
    ensures var half := Pow2(k);
            var left := Connected(g, k, inputs[..half]);
            var center := Merged(left.g, k, left.base, inputs[half..]);
            var right := Connected(center, k, LastRow(center, k));
            var e := Emission(right.g, left.base + right.base);
            LastAtLevel(e, x + LastOffset(k + 1)) && ShortGap(e)
    decreases k, 1
  {
    hide Connected;
    hide Merged;
    hide WellFormed;
    hide Level;
    hide Uniform;
    hide Within;
    var half := Pow2(k);
    var front, back := inputs[..half], inputs[half..];
    var left := Connected(g, k, front);
    HalvesWellFormed(g, k, inputs);
    UniformParts(g, inputs, x, half);
    ConnectedLast(g, k, front, x);
    UniformGrow(g, left.g, back, x);
    forall i: nat {:trigger left.base[i]} | i < half
      ensures left.base[i] < |left.g| && Level(left.g, left.base[i]) <= x + LastOffset(k)
    {
      BaseBelowLast(g, k, front, i);
    }
    MergedUniform(left.g, k, left.base, back, x, x + LastOffset(k), half - 1);
    var center := Merged(left.g, k, left.base, back);
    LastRowWithin(center, k);
    var y := Max(x + LastOffset(k), x + 1 + k) + 1 + k;
    ConnectedLast(center, k, LastRow(center, k), y);
    var right := Connected(center, k, LastRow(center, k));
    TailLast(left.base, right, y + LastOffset(k));
    if k == 0 {
      LevelGrow(left.g, center, left.base[0]);
      LevelGrow(center, right.g, left.base[0]);
    } else {
      TailGap(left.base, right);
    }
  }

  /** The last base node of a standalone component sits at a level that depends on the component's level only. */
  lemma {:induction false} StandaloneLast(g: Graph, level: nat)
    requires WellFormed(g)
    ensures LastAtLevel(Standalone(g, level), LastLevel(level))
    ensures level >= 1 ==> ShortGap(Standalone(g, level))
    decreases level, 0
  {
    hide Extend;
    hide Standalone;
    hide WellFormed;
    hide Within;
    hide Level;
    if level == 0 {
      SourceLast(g);
    } else {
      var k := level - 1;
      StandaloneUnfold(g, k);
      StandaloneLast(g, k);
      StandaloneExtends(g, k);
      ExtendLast(g, Standalone(g, k), k);
    }
  }

  lemma SourceLast(g: Graph)
    requires WellFormed(g)
    ensures LastAtLevel(Standalone(g, 0), 0)
  {
    hide WellFormed;
    StandaloneLeaf(g);
    AppendRow(g, [Source]);
  }

  lemma StandaloneExtends(g: Graph, k: nat)
    requires WellFormed(g)
    ensures Extendable(Standalone(g, k), k)
  {
    hide Extend;
    hide Standalone;
    hide WellFormed;
    hide Within;
    var left := Standalone(g, k);
    StandaloneWellFormed(g, k);
    StandaloneBase(g, k);
    WithinLoosen(left.base, |g|, |left.g|, 0, |left.g|);
    ExtendWellFormed(left, k);
  }

  /** Base levels strictly increase. */
  lemma BaseAscends(g: Graph, k: nat, i: nat, j: nat)
    requires WellFormed(g) && i < j < Pow2(k)
    ensures var e := Standalone(g, k);
            && WellFormed(e.g) && e.base[i] < |e.g| && e.base[j] < |e.g|
            && Level(e.g, e.base[i]) < Level(e.g, e.base[j]) && !Unread(e.g, e.base[i])
  {
    hide Standalone;
    hide WellFormed;
    hide Level;
    hide Ancestor;
    var e := Standalone(g, k);
    StandaloneChain(g, k, i, j);
    AncestorLevel(e.g, e.base[i], e.base[j]);
    AncestorIsRead(e.g, e.base[i], e.base[j]);
  }

  /** All connector outputs come k + 1 levels after the last base node they mix. */
  lemma OutputLevel(g: Graph, k: nat, o: nat)
    requires WellFormed(g) && o < Pow2(k)
    ensures var left := Standalone(g, k);
            && Extendable(left, k) && LayerId(|left.g|, Pow2(k), k, o) < |Extend(left, k).g|
            && LayerLevel(left, k, k, o) == LastLevel(k) + 1 + k
    decreases k, 2
  {
    hide Extend;
    hide Standalone;
    hide WellFormed;
    hide Level;
    hide Within;
    hide Agree;
    hide LayerId;
    hide LastLevel;
    var left := Standalone(g, k);
    StandaloneExtends(g, k);
    var last := Pow2(k) - 1;
    NoneAgree(last, o);
    var i := LayerExact(left, k, k, o);
    LayerLower(left, k, k, last, o);
    LastBaseLevel(g, k, i);
  }

  lemma NoneAgree(i: nat, o: nat)
    ensures Agree(i, o, 0)
  {
  }

  lemma LastBaseLevel(g: Graph, k: nat, i: nat)
    requires WellFormed(g) && i < Pow2(k)
    ensures var e := Standalone(g, k);
            && WellFormed(e.g) && e.base[i] < |e.g| && e.base[Pow2(k) - 1] < |e.g|
            && Level(e.g, e.base[i]) <= Level(e.g, e.base[Pow2(k) - 1]) == LastLevel(k)
    decreases k, 1
  {
    hide Standalone;
    hide WellFormed;
    hide Level;
    hide LastLevel;
    StandaloneLast(g, k);
    if i < Pow2(k) - 1 {
      BaseAscends(g, k, i, Pow2(k) - 1);
    }
  }

  lemma ExtendLast(g: Graph, left: Emission, k: nat)
    requires WellFormed(g) && left == Standalone(g, k) && Extendable(left, k)
    ensures LastAtLevel(Extend(left, k), LastLevel(k) + 1 + k + LastOffset(k)) && ShortGap(Extend(left, k))
    decreases k, 4
  {
    hide Connector;
    hide Connected;
    hide Standalone;
    hide WellFormed;
    hide Level;
    hide Within;
    hide LastOffset;
    hide LastLevel;
    hide Uniform;
    hide Pow2;
    ExtendUnfold(left, k);
    var center := Connector(left.g, k, left.base);
    ConnectorWellFormed(left.g, k, left.base);
    LastRowWithin(center, k);
    var right := Connected(center, k, LastRow(center, k));
    CenterUniform(g, left, k);
    ConnectedLast(center, k, LastRow(center, k), LastLevel(k) + 1 + k);
    TailLast(left.base, right, LastLevel(k) + 1 + k + LastOffset(k));
    if k == 0 {
      LeafGap(g);
    } else {
      TailGap(left.base, right);
    }
  }

  /** Base nodes put in front do not matter for the last two. */
  lemma TailGap(front: seq<nat>, e: Emission)
    requires ShortGap(e)
    ensures ShortGap(Emission(e.g, front + e.base))
  {
    hide Level;
    hide WellFormed;
    var base := front + e.base;
    assert base[|base| - 1] == e.base[|e.base| - 1] && base[|base| - 2] == e.base[|e.base| - 2];
  }

  lemma TailLast(front: seq<nat>, e: Emission, x: nat)
    requires LastAtLevel(e, x)
    ensures LastAtLevel(Emission(e.g, front + e.base), x)
  {
    hide Level;
    hide WellFormed;
    var base := front + e.base;
    assert base[|base| - 1] == e.base[|e.base| - 1];
  }

  lemma CenterUniform(g: Graph, left: Emission, k: nat)
    requires WellFormed(g) && left == Standalone(g, k) && Extendable(left, k)
    requires WellFormed(Connector(left.g, k, left.base))
    ensures Uniform(Connector(left.g, k, left.base), LastRow(Connector(left.g, k, left.base), k), LastLevel(k) + 1 + k)
    decreases k, 3
  {
    hide Extend;
    hide Standalone;
    hide WellFormed;
    hide Level;
    hide Within;
    hide Mix;
    var center := Connector(left.g, k, left.base);
    var ids := LastRow(center, k);
    forall o {:trigger ids[o]} | 0 <= o < |ids|
      ensures LevelIs(center, ids[o], LastLevel(k) + 1 + k)
    {
      OutputLevel(g, k, o);
      LayerNode(left, k, k, o);
    }
  }

  /** The two-node component: the source, and two levels later the only other base node. */
  lemma LeafGap(g: Graph)
    requires WellFormed(g) && LastAtLevel(Extend(Standalone(g, 0), 0), LastLevel(0) + 1 + 0 + LastOffset(0))
    ensures ShortGap(Extend(Standalone(g, 0), 0))
  {
    hide Extend;
    hide WellFormed;
    var left := Standalone(g, 0);
    StandaloneExtends(g, 0);
    StandaloneLeaf(g);
    ExtendUnfold(left, 0);
    assert Extend(left, 0).base[0] == |g|;
  }
}
