/** One extension step of a standalone component: its columns, and when its nodes are computed and read. */
module Stages {
  import opened Bits
  import opened Dag
  import opened Levels
  import Reach
  import Census
  import opened Columns
  import opened SlotMap
  import opened Timing
  import LiveCount

  /** The standalone component `left` of level k over `g`, the connector grown on it, and the extended component `e`. */
  datatype Stage = Stage(g: Graph, k: nat, left: Emission, center: Graph, e: Emission, c: seq<nat>, d: seq<nat>,
                         cb: nat) {
    ghost predicate Shape() {
      && WellFormed(g) && left == Standalone(g, k) && center == Connector(left.g, k, left.base) && e == Extend(left, k)
      && Extendable(left, k) && WellFormed(center) && |e.base| == 2 * Pow2(k)
      && g <= left.g <= center <= e.g && |center| == |left.g| + Layers(Pow2(k), k + 1) && |left.g| + Pow2(k) <= |center|
    }

    ghost predicate Colours() requires Shape() {
      && |c| == |left.g| && Coloured(left.g, c) && Tops(c, left.base, cb) && NewIn(c, |g|, cb, Pow2(k))
      && |d| == |e.g| && Coloured(e.g, d) && Tops(d, e.base, cb) && NewIn(d, |left.g|, cb + Pow2(k), Pow2(k))
      && LayerColours(d, |left.g|, Pow2(k), k, cb + Pow2(k))
      && ReadsOnly(e.g, |left.g|, left.base) && ReadsOnly(e.g, |center|, LastRow(center, k))
    }

    ghost predicate Valid() {
      Shape() && Colours()
    }
  }

  lemma MakeShape(g: Graph, k: nat) returns (s: Stage)
    requires WellFormed(g)
    ensures s.Shape() && s.g == g && s.k == k
  {
    hide Extend;
    hide Connector;
    hide Standalone;
    hide WellFormed;
    hide Within;
    var left := Standalone(g, k);
    var center := Connector(left.g, k, left.base);
    StandaloneExtends(g, k);
    ConnectorWellFormed(left.g, k, left.base);
    CenterPrefix(left, k);
    s := Stage(g, k, left, center, Extend(left, k), [], [], 0);
  }

  lemma CenterPrefix(left: Emission, k: nat)
    requires |left.base| == Pow2(k)
    ensures left.g <= Connector(left.g, k, left.base) <= Extend(left, k).g
  {
  }

  /** Every extension step can be coloured. */
  lemma MakeStage(g: Graph, c0: seq<nat>, k: nat, cb: nat) returns (s: Stage)
    requires WellFormed(g) && Coloured(g, c0) && Free(c0, cb, 2 * Pow2(k))
    ensures s.Valid() && s.g == g && s.k == k && s.cb == cb
  {
    hide Extend;
    hide Connector;
    hide Standalone;
    hide WellFormed;
    hide Within;
    hide Coloured;
    hide Free;
    hide Grown;
    hide Tops;
    hide ReadsOnly;
    hide LayerColours;
    var w := Pow2(k);
    var t := MakeShape(g, k);
    FreeParts(c0, cb, w);
    ColouredSize(g, c0);
    var c := StandaloneColumns(g, c0, k, cb);
    StillFree(g, c0, t.left.g, c, [], cb, w, cb + w, w);
    GrownReads(g, c0, t.left.g, c, [], cb, w);
    var d := ExtendColumns(t.left, c, k, cb);
    GrownReads(t.left.g, c, t.e.g, d, t.left.base, cb + w, w);
    s := Stage(g, k, t.left, t.center, t.e, c, d, cb);
  }

  // ---------- base nodes ----------

  /** Level of base node `i` of the smaller component. */
  function BaseTime(s: Stage, i: nat): nat
    requires WellFormed(s.left.g) && i < |s.left.base| && s.left.base[i] < |s.left.g|
  {
    Level(s.left.g, s.left.base[i])
  }

  lemma BaseIn(s: Stage, i: nat)
    requires s.Shape() && i < Pow2(s.k)
    ensures s.left.base[i] < |s.left.g| && Level(s.e.g, s.left.base[i]) == BaseTime(s, i)
  {
    hide Extend;
    hide Connector;
    hide Standalone;
    hide WellFormed;
    hide Level;
    Reach.WithinAt(s.left.base, i, |s.left.g|);
    LevelGrow(s.left.g, s.e.g, s.left.base[i]);
  }

  lemma BaseOrder(s: Stage, i: nat, j: nat)
    requires s.Shape() && i <= j < Pow2(s.k)
    ensures s.left.base[i] < |s.left.g| && s.left.base[j] < |s.left.g|
    ensures i < j ==> BaseTime(s, i) < BaseTime(s, j) && !Unread(s.left.g, s.left.base[i])
    ensures BaseTime(s, i) <= LastLevel(s.k)
    ensures i == Pow2(s.k) - 1 ==> BaseTime(s, i) == LastLevel(s.k)
  {
    hide Extend;
    hide Connector;
    hide Standalone;
    hide WellFormed;
    hide Level;
    hide Unread;
    var last := Pow2(s.k) - 1;
    BaseIn(s, i);
    BaseIn(s, j);
    StandaloneLast(s.g, s.k);
    if i < j { BaseAscends(s.g, s.k, i, j); }
    if i < last { BaseAscends(s.g, s.k, i, last); }
  }

  // ---------- the connected component on top comes late ----------

  lemma LaterAbove(s: Stage, v: nat)
    requires s.Valid() && |s.center| <= v < |s.e.g|
    ensures Level(s.e.g, v) >= LastLevel(s.k) + s.k + 2
  {
    hide Extend;
    hide Connector;
    hide Connected;
    hide Standalone;
    hide WellFormed;
    hide Level;
    hide Within;
    hide Coloured;
    hide ReadsOnly;
    hide Tops;
    hide LayerColours;
    var ids := LastRow(s.center, s.k);
    ExtendUnfold(s.left, s.k);
    Census.ConnectedNoSource(s.center, s.k, ids, |s.center|);
    forall i {:trigger ids[i]} | 0 <= i < |ids|
      ensures ids[i] < |s.e.g| && Level(s.e.g, ids[i]) >= LastLevel(s.k) + s.k + 1
    {
      CenterUniform(s.g, s.left, s.k);
      UniformAt(s.center, ids, LastLevel(s.k) + s.k + 1, i);
      LevelGrow(s.center, s.e.g, ids[i]);
    }
    NewAbove(s.e.g, |s.center|, ids, LastLevel(s.k) + s.k + 1, v);
  }

  // ---------- who reads the smaller component ----------

  /** A node of a crossing layer reads its own and the opposite column of the layer before. */
  lemma LayerPair(left: Emission, k: nat, m: nat, o: nat)
    requires Extendable(left, k) && 1 <= m <= k && o < Pow2(k)
    ensures LayerId(|left.g|, Pow2(k), m, o) < |Extend(left, k).g|
    ensures Extend(left, k).g[LayerId(|left.g|, Pow2(k), m, o)]
         == Pair(LayerId(|left.g|, Pow2(k), m - 1, o), LayerId(|left.g|, Pow2(k), m - 1, Flip(o, k - m)))
  {
    hide Extend;
    hide WellFormed;
    hide Level;
    hide LayerLevel;
    hide Within;
    hide Mix;
    hide Flip;
    hide Pair;
    hide FirstRow;
    hide LayerId;
    FlipInLayer(o, k - m, k);
    LayerNode(left, k, m - 1, o);
    LayerNode(left, k, m - 1, Flip(o, k - m));
    LayerNode(left, k, m, o);
    var g0 := FirstRow(left);
    Reach.MixNode(g0, k, m - 1, o);
    assert k - (m - 1) - 1 == k - m;
    var r := Mix(g0, k, m);
    assert Extend(left, k).g[Reach.LastAt(r, k, o)] == r[Reach.LastAt(r, k, o)];
  }

  /** So it reads nodes of the connector only. */
  lemma LayerReads(s: Stage, m: nat, o: nat, y: nat)
    requires s.Shape() && 1 <= m <= s.k && o < Pow2(s.k)
    requires LayerId(|s.left.g|, Pow2(s.k), m, o) < |s.e.g| && s.e.g[LayerId(|s.left.g|, Pow2(s.k), m, o)].Reads(y)
    ensures y >= |s.left.g|
  {
    hide Extend;
    hide Extendable;
    hide Connector;
    hide Standalone;
    hide WellFormed;
    hide Pair;
    hide Flip;
    LayerPair(s.left, s.k, m, o);
    PairReads(LayerId(|s.left.g|, Pow2(s.k), m - 1, o), LayerId(|s.left.g|, Pow2(s.k), m - 1, Flip(o, s.k - m)), y);
  }

  lemma PairReads(a: nat, b: nat, y: nat)
    ensures Pair(a, b).Reads(y) ==> y == a || y == b
  {
  }

  /** A node of layer 0 reads its base node. */
  lemma LayerZero(s: Stage, o: nat)
    requires s.Shape() && o < Pow2(s.k)
    ensures LayerId(|s.left.g|, Pow2(s.k), 0, o) < |s.e.g|
    ensures s.e.g[LayerId(|s.left.g|, Pow2(s.k), 0, o)] == One(s.left.base[o])
  {
    hide Extend;
    hide Connector;
    hide Standalone;
    hide WellFormed;
    hide Level;
    hide Within;
    hide Mix;
    LayerNode(s.left, s.k, 0, o);
    Reach.MixZero(FirstRow(s.left), s.k);
    assert FirstRow(s.left)[|s.left.g| + o] == UnaryRow(s.left.base)[o] == One(s.left.base[o]);
  }

  /** The only new reader of an old node is layer 0, one level after the base node it reads. */
  lemma NewReader(s: Stage, r: nat, y: nat) returns (i: nat)
    requires s.Valid() && |s.left.g| <= r < |s.e.g| && s.e.g[r].Reads(y) && y < |s.left.g|
    ensures i < Pow2(s.k) && y == s.left.base[i] && Level(s.e.g, r) == BaseTime(s, i) + 1
  {
    hide Extend;
    hide Connector;
    hide Standalone;
    hide WellFormed;
    hide Level;
    hide Within;
    hide Coloured;
    hide Tops;
    hide LayerColours;
    hide Mix;
    i := 0;
    if r < |s.center| {
      var j, o := LiveCount.LayerOf(|s.left.g|, Pow2(s.k), s.k, r);
      if j > 0 {
        LayerReads(s, j, o, y);
      } else {
        i := o;
        LayerZero(s, o);
        FirstLayerLevel(s.left, s.k, o);
      }
    }
  }

  /** No node of the smaller component comes after its last base node. */
  lemma OldBelowLast(s: Stage, u: nat)
    requires s.Valid() && |s.g| <= u < |s.left.g|
    ensures Level(s.left.g, u) <= LastLevel(s.k)
  {
    hide Extend;
    hide Connector;
    hide Standalone;
    hide WellFormed;
    hide Level;
    hide Within;
    hide Coloured;
    hide Tops;
    hide NewIn;
    hide LayerColours;
    hide Unread;
    var base := s.left.base;
    forall i: nat {:trigger base[i]} | i + 1 < |base|
      ensures base[i] < |s.left.g| && !Unread(s.left.g, base[i])
    {
      BaseOrder(s, i, i + 1);
    }
    LastIsLast(s.left.g, s.c, base, s.cb, |s.g|, u);
    BaseOrder(s, Pow2(s.k) - 1, Pow2(s.k) - 1);
  }

  /** Extending the component keeps an old node's last use, except for the last base node, read once more. */
  lemma OldLastUse(s: Stage, u: nat)
    requires s.Valid() && |s.g| <= u < |s.left.g|
    ensures Level(s.e.g, u) == Level(s.left.g, u)
    ensures LastUse(s.left.g, u) <= LastLevel(s.k) && LastUse(s.e.g, u) <= LastLevel(s.k) + 1
    ensures u != s.left.base[Pow2(s.k) - 1] ==> LastUse(s.e.g, u) <= LastUse(s.left.g, u)
  {
    hide Extend;
    hide Connector;
    hide Standalone;
    hide WellFormed;
    hide Level;
    hide LastUse;
    hide Within;
    hide Stage.Colours;
    var g, h := s.left.g, s.e.g;
    LevelGrow(g, h, u);
    OldBelowLast(s, u);
    var q := LastUseAttained(g, u, |g|);
    if LastUseUpTo(g, u, |g|) != Level(g, u) {
      ReadsBelow(g, q, u);
      OldBelowLast(s, q);
    }
    LastUseIs(g, u);
    LastUseIs(h, u);
    var r := LastUseAttained(h, u, |h|);
    LastUseBelowHeight(g, u);
    if LastUse(h, u) != Level(h, u) {
      if r < |g| {
        LevelGrow(g, h, r);
        LastUseBound(g, u, r);
      } else {
        var i := NewReader(s, r, u);
        BaseOrder(s, i, i);
        if i < Pow2(s.k) - 1 {
          ReadEarly(s, i);
        }
      }
    }
  }

  lemma LastUseIs(g: Graph, u: nat)
    requires WellFormed(g) && u < |g|
    ensures LastUse(g, u) == LastUseUpTo(g, u, |g|)
  {
  }

  /** Every base node but the last is already read. */
  lemma ReadEarly(s: Stage, i: nat)
    requires s.Shape() && i + 1 < Pow2(s.k)
    ensures s.left.base[i] < |s.left.g| && LastUse(s.left.g, s.left.base[i]) >= BaseTime(s, i) + 1
  {
    hide Extend;
    hide Connector;
    hide Standalone;
    hide WellFormed;
    hide Level;
    hide LastUse;
    hide Within;
    BaseOrder(s, i, i + 1);
    var b := s.left.base[i];
    var q: nat :| q < |s.left.g| && s.left.g[q].Reads(b);
    ReadsBelow(s.left.g, q, b);
    LastUseBound(s.left.g, b, q);
  }
}
