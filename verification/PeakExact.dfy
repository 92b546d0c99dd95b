/** The exact size of the slot pool: a standalone component of level L never needs more than 2^L labels
    at one level, and at one level it needs that many. */
module PeakExact {
  import SlotPool
  import opened Bits
  import opened Dag
  import opened Levels
  import Reach
  import opened Columns
  import SlotMap
  import opened Timing
  import opened LiveCount
  import opened Stages

  // ---------- old nodes ----------

  ghost function OldLive(s: Stage, t: nat): set<nat>
    requires s.Shape()
  {
    LiveIn(s.e.g, |s.g|, |s.left.g|, t)
  }

  ghost function NewLive(s: Stage, t: nat): set<nat>
    requires s.Shape()
  {
    LiveIn(s.e.g, |s.left.g|, |s.e.g|, t)
  }

  /** Up to the last base node's level, extending the component keeps no old node alive any longer. */
  lemma OldLiveEarly(s: Stage, t: nat)
    requires s.Valid() && t <= LastLevel(s.k)
    ensures OldLive(s, t) <= LiveIn(s.left.g, |s.g|, |s.left.g|, t)
  {
    hide Extend;
    hide Connector;
    hide Standalone;
    hide WellFormed;
    hide Level;
    hide SlotMap.LastUse;
    hide Within;
    hide Stage.Colours;
    var last := Pow2(s.k) - 1;
    forall u: nat | u in OldLive(s, t)
      ensures LiveNode(s.left.g, u, t)
    {
      OldLastUse(s, u);
      if u == s.left.base[last] {
        BaseOrder(s, last, last);
        SlotMap.LastUseBelowHeight(s.left.g, u);
      }
    }
  }

  /** One level later only the last base node is needed. */
  lemma OldLiveOnce(s: Stage, t: nat)
    requires s.Valid() && t > LastLevel(s.k)
    ensures OldLive(s, t) <= {s.left.base[Pow2(s.k) - 1]}
    ensures t > LastLevel(s.k) + 1 ==> OldLive(s, t) == {}
  {
    hide Extend;
    hide Connector;
    hide Standalone;
    hide WellFormed;
    hide Level;
    hide SlotMap.LastUse;
    hide Within;
    hide Stage.Colours;
    forall u: nat | u in OldLive(s, t)
      ensures u == s.left.base[Pow2(s.k) - 1] && t <= LastLevel(s.k) + 1
    {
      OldLastUse(s, u);
    }
  }

  // ---------- how many columns have started ----------

  ghost predicate BasesIn(s: Stage) {
    WellFormed(s.left.g) && forall i {:trigger s.left.base[i]} :: 0 <= i < |s.left.base| ==> s.left.base[i] < |s.left.g|
  }

  ghost predicate Before(s: Stage, id: nat, t: nat)
    requires WellFormed(s.left.g)
  {
    id < |s.left.g| && Level(s.left.g, id) < t
  }

  /** Exactly the first `n` base nodes come before level `t`. */
  ghost predicate Cut(s: Stage, n: nat, t: nat)
    requires BasesIn(s)
  {
    n <= |s.left.base| && forall i: nat {:trigger s.left.base[i]} :: i < |s.left.base| ==>
      (Before(s, s.left.base[i], t) <==> i < n)
  }

  lemma ShapeBases(s: Stage)
    requires s.Shape()
    ensures BasesIn(s) && |s.left.base| == Pow2(s.k)
  {
    hide Extend;
    hide Connector;
    hide Standalone;
    hide WellFormed;
    forall i {:trigger s.left.base[i]} | 0 <= i < |s.left.base|
      ensures s.left.base[i] < |s.left.g|
    {
      Reach.WithinAt(s.left.base, i, |s.left.g|);
    }
  }

  lemma {:induction false} CountBefore(s: Stage, t: nat, m: nat) returns (n: nat)
    requires s.Shape() && BasesIn(s) && m <= |s.left.base| == Pow2(s.k)
    requires forall i: nat {:trigger s.left.base[i]} :: i < m ==> Before(s, s.left.base[i], t)
    ensures Cut(s, n, t)
    decreases |s.left.base| - m
  {
    hide Extend;
    hide Connector;
    hide Standalone;
    hide WellFormed;
    hide Level;
    if m < |s.left.base| && BaseTime(s, m) < t {
      n := CountBefore(s, t, m + 1);
    } else {
      n := m;
      forall i: nat {:trigger s.left.base[i]} | i < |s.left.base|
        ensures Before(s, s.left.base[i], t) <==> i < n
      {
        if i >= n { BaseOrder(s, n, i); }
      }
    }
  }

  lemma FindCut(s: Stage, t: nat) returns (n: nat)
    requires s.Shape()
    ensures BasesIn(s) && |s.left.base| == Pow2(s.k) && Cut(s, n, t) && (n < Pow2(s.k) <==> t <= LastLevel(s.k))
  {
    hide Extend;
    hide Connector;
    hide Standalone;
    hide WellFormed;
    hide Level;
    ShapeBases(s);
    n := CountBefore(s, t, 0);
    var last := Pow2(s.k) - 1;
    BaseOrder(s, last, last);
    CutAt(s, n, t, last);
  }

  lemma CutAt(s: Stage, n: nat, t: nat, i: nat)
    requires BasesIn(s) && Cut(s, n, t) && i < |s.left.base|
    ensures s.left.base[i] < |s.left.g| && (BaseTime(s, i) < t <==> i < n)
  {
  }

  // ---------- new nodes ----------

  lemma {:induction false} AgreeSelf(o: nat, b: nat)
    ensures Agree(o, o, b)
  {
    if b > 0 { AgreeSelf(o / 2, b - 1); }
  }

  /** A new node that is live by the level after the last base node sits in a column that has started. */
  lemma NewNode(s: Stage, n: nat, t: nat, u: nat) returns (j: nat, o: nat)
    requires s.Valid() && BasesIn(s) && Cut(s, n, t) && t <= LastLevel(s.k) + 1 && u in NewLive(s, t)
    ensures u < |s.center| && j <= s.k && o < n <= Pow2(s.k) && u == LayerId(|s.left.g|, Pow2(s.k), j, o)
    ensures u < |s.d| && s.d[u] == s.cb + Pow2(s.k) + o
  {
    hide Extend;
    hide Connector;
    hide Standalone;
    hide WellFormed;
    hide Level;
    hide SlotMap.LastUse;
    hide Within;
    hide Coloured;
    hide Tops;
    hide NewIn;
    hide ReadsOnly;
    hide Agree;
    if u >= |s.center| {
      LaterAbove(s, u);
    }
    j, o := LayerOf(|s.left.g|, Pow2(s.k), s.k, u);
    AgreeSelf(o, s.k - j);
    LayerLower(s.left, s.k, j, o, o);
    CutAt(s, n, t, o);
  }

  lemma NewColumns(s: Stage, n: nat, t: nat)
    requires s.Valid() && BasesIn(s) && Cut(s, n, t) && t <= LastLevel(s.k) + 1
    ensures InColumns(NewLive(s, t), s.d, s.cb + Pow2(s.k), s.cb + Pow2(s.k) + n)
  {
    hide Stage.Shape;
    hide Stage.Colours;
    hide Cut;
    hide BasesIn;
    hide LiveIn;
    forall u: nat | u in NewLive(s, t)
      ensures u < |s.d| && s.cb + Pow2(s.k) <= s.d[u] < s.cb + Pow2(s.k) + n
    {
      var j, o := NewNode(s, n, t, u);
    }
  }

  /** Nodes of crossing layers 1 to m computed at level `t`. */
  ghost function Fresh(s: Stage, m: nat, t: nat): set<nat>
    requires WellFormed(s.e.g)
  {
    set u: nat | |s.left.g| + Pow2(s.k) <= u < |s.left.g| + Layers(Pow2(s.k), m + 1) && u < |s.e.g|
      && Level(s.e.g, u) == t
  }

  /** Nodes of crossing layer m computed at level `t`. */
  ghost function FreshLayer(s: Stage, m: nat, t: nat): set<nat>
    requires WellFormed(s.e.g)
  {
    set u: nat | |s.left.g| + Layers(Pow2(s.k), m) <= u < |s.left.g| + Layers(Pow2(s.k), m + 1) && u < |s.e.g|
      && Level(s.e.g, u) == t
  }

  /** Besides the nodes just computed, each column has at most one live node. */
  lemma Settled(s: Stage, n: nat, t: nat)
    requires s.Valid() && BasesIn(s) && Cut(s, n, t) && t <= LastLevel(s.k) + 1
    ensures AtMostOne(NewLive(s, t) - Fresh(s, s.k, t), s.d)
  {
    hide Cut;
    hide BasesIn;
    var rest := NewLive(s, t) - Fresh(s, s.k, t);
    NewColumns(s, n, t);
    forall x: nat, y: nat | x in rest && y in rest && x != y
      ensures s.d[x] != s.d[y]
    {
      if x < y { SettledPair(s, n, t, x, y); } else { SettledPair(s, n, t, y, x); }
    }
  }

  lemma SettledPair(s: Stage, n: nat, t: nat, x: nat, y: nat)
    requires s.Valid() && BasesIn(s) && Cut(s, n, t) && t <= LastLevel(s.k) + 1
    requires x in NewLive(s, t) && y in NewLive(s, t) && x < y && y !in Fresh(s, s.k, t)
    ensures x < y < |s.d| && s.d[x] != s.d[y]
  {
    hide Cut;
    hide BasesIn;
    hide Extend;
    hide Connector;
    hide Standalone;
    hide WellFormed;
    hide Level;
    hide SlotMap.LastUse;
    hide Coloured;
    hide Tops;
    hide NewIn;
    hide ReadsOnly;
    hide LayerColours;
    var j, o := NewNode(s, n, t, x);
    var j', o' := NewNode(s, n, t, y);
    if s.d[x] == s.d[y] {
      LivePair(s.e.g, s.d, x, y, t);
    }
  }

  // ---------- the nodes just computed ----------

  lemma FreshAt(s: Stage, m: nat, t: nat, u: nat) returns (o: nat)
    requires s.Shape() && u in FreshLayer(s, m, t)
    ensures o < Pow2(s.k) && u == LayerId(|s.left.g|, Pow2(s.k), m, o)
  {
    o := u - |s.left.g| - Layers(Pow2(s.k), m);
  }

  /** One layer computes at one level only columns that agree on the bits not yet mixed. */
  lemma FreshLayerSize(s: Stage, m: nat, t: nat)
    requires s.Shape() && m <= s.k
    ensures |FreshLayer(s, m, t)| <= Pow2(m)
  {
    hide Extend;
    hide Connector;
    hide Standalone;
    hide WellFormed;
    hide Level;
    hide Agree;
    hide FreshLayer;
    hide Class;
    hide LayerNodes;
    hide LayerId;
    var due := FreshLayer(s, m, t);
    if due != {} {
      var u := TakeOne(due);
      var i := FreshClass(s, m, t, u);
      var row := Class(i, s.k - m, s.k);
      forall v: nat | v in due
        ensures v in LayerNodes(|s.left.g|, Pow2(s.k), m, row)
      {
        SameClass(s, m, t, i, v);
      }
      SlotPool.Subset(due, LayerNodes(|s.left.g|, Pow2(s.k), m, row));
      LayerNodesSize(|s.left.g|, Pow2(s.k), m, row);
      ClassSize(i, s.k - m, s.k);
    }
  }

  lemma FreshClass(s: Stage, m: nat, t: nat, u: nat) returns (i: nat)
    requires s.Shape() && m <= s.k && u in FreshLayer(s, m, t)
    ensures i < Pow2(s.k) && s.left.base[i] < |s.left.g| && t == BaseTime(s, i) + 1 + m
    ensures u in LayerNodes(|s.left.g|, Pow2(s.k), m, Class(i, s.k - m, s.k))
  {
    hide Extend;
    hide Connector;
    hide Standalone;
    hide WellFormed;
    hide Level;
    hide Agree;
    var o := FreshAt(s, m, t, u);
    i := LayerExact(s.left, s.k, m, o);
    assert o in Class(i, s.k - m, s.k);
  }

  lemma SameClass(s: Stage, m: nat, t: nat, i: nat, v: nat)
    requires s.Shape() && m <= s.k && v in FreshLayer(s, m, t)
    requires i < Pow2(s.k) && s.left.base[i] < |s.left.g| && t == BaseTime(s, i) + 1 + m
    ensures v in LayerNodes(|s.left.g|, Pow2(s.k), m, Class(i, s.k - m, s.k))
  {
    hide Extend;
    hide Connector;
    hide Standalone;
    hide WellFormed;
    hide Level;
    hide FreshLayer;
    hide LayerNodes;
    hide Class;
    var i' := FreshClass(s, m, t, v);
    if i < i' { BaseOrder(s, i, i'); }
    if i' < i { BaseOrder(s, i', i); }
  }

  lemma {:induction false} FreshSize(s: Stage, m: nat, t: nat)
    requires s.Shape() && m <= s.k
    ensures |Fresh(s, m, t)| <= 2 * Pow2(m) - 2
    decreases m
  {
    hide Extend;
    hide Connector;
    hide Standalone;
    hide WellFormed;
    hide Level;
    if m == 0 {
      if Fresh(s, 0, t) != {} {
        var u := TakeOne(Fresh(s, 0, t));
      }
    } else {
      FreshSize(s, m - 1, t);
      FreshLayerSize(s, m, t);
      SlotPool.Subset(Fresh(s, m, t), Fresh(s, m - 1, t) + FreshLayer(s, m, t));
    }
  }

  /** Nothing of layer k is computed before the level the outputs share. */
  lemma NoOutputs(s: Stage, t: nat)
    requires s.Shape() && 1 <= s.k && t <= LastLevel(s.k) + 1
    ensures FreshLayer(s, s.k, t) == {}
  {
    hide Extend;
    hide Connector;
    hide Standalone;
    hide WellFormed;
    hide Level;
    if FreshLayer(s, s.k, t) != {} {
      var u := TakeOne(FreshLayer(s, s.k, t));
      var o := FreshAt(s, s.k, t, u);
      OutputLevel(s.g, s.k, o);
    }
  }

  /** The layer before needs one of the last two base nodes, so it comes after the last one. */
  lemma NoLateLayer(s: Stage, t: nat)
    requires s.Shape() && 3 <= s.k && t <= LastLevel(s.k)
    ensures FreshLayer(s, s.k - 1, t) == {}
  {
    hide Agree;
    hide Pow2;
    hide LastLevel;
    hide Within;
    hide Extend;
    hide Connector;
    hide Standalone;
    hide WellFormed;
    hide Level;
    if FreshLayer(s, s.k - 1, t) != {} {
      var u := TakeOne(FreshLayer(s, s.k - 1, t));
      var o := FreshAt(s, s.k - 1, t, u);
      var i := LowBit(o, s.k);
      LayerLower(s.left, s.k, s.k - 1, i, o);
      LastTwo(s, i);
    }
  }

  lemma LowBit(o: nat, k: nat) returns (i: nat)
    requires 1 <= k
    ensures Pow2(k) - 2 <= i < Pow2(k) && Agree(i, o, 1)
  {
    var half := Pow2(k - 1);
    assert Pow2(k) == 2 * half;
    hide Pow2;
    i := 2 * half - 2 + o % 2;
    assert i % 2 == o % 2 && Agree(i / 2, o / 2, 0);
  }

  lemma LastTwo(s: Stage, i: nat)
    requires s.Shape() && 1 <= s.k && Pow2(s.k) - 2 <= i < Pow2(s.k)
    ensures s.left.base[i] < |s.left.g| && LastLevel(s.k) <= BaseTime(s, i) + 2
  {
    hide Extend;
    hide Connector;
    hide Standalone;
    hide WellFormed;
    hide Level;
    StandaloneLast(s.g, s.k);
    BaseOrder(s, i, i);
    BaseOrder(s, Pow2(s.k) - 1, Pow2(s.k) - 1);
  }

  /** Of a column and its opposite across the highest bit, one lies in the upper half. */
  lemma UpperHalf(o: nat, k: nat) returns (i: nat)
    requires 1 <= k && o < Pow2(k)
    ensures Pow2(k - 1) <= i < Pow2(k) && Agree(i, o, k - 1)
  {
    hide Agree;
    hide Flip;
    i := Flip(o, k - 1);
    FlipInLayer(o, k - 1, k);
    FlipLaws(o, k - 1);
    AgreeSelf(o, k - 1);
    AgreeSelf(i, k);
    AgreeExclusive(i, o, k - 1);
    if i < Pow2(k - 1) {
      if o < Pow2(k - 1) {
        AgreeAll(i, o, k - 1);
      }
      i := o;
    }
  }

  lemma {:induction false} AgreeFewer(i: nat, j: nat, b: nat, b': nat)
    requires Agree(i, j, b) && b' <= b
    ensures Agree(i, j, b')
    decreases b
  {
    hide Agree;
    if b' < b {
      AgreeExclusive(i, j, b - 1);
      AgreeFewer(i, j, b - 1, b');
    }
  }

  /** While only the first half of the base nodes is there, no crossing layer can be computed. */
  lemma NoneBeforeHalf(s: Stage, n: nat, t: nat, m: nat)
    requires s.Shape() && BasesIn(s) && Cut(s, n, t) && 1 <= m <= s.k && n <= Pow2(s.k - 1)
    ensures FreshLayer(s, m, t) == {}
  {
    hide Extend;
    hide Connector;
    hide Standalone;
    hide WellFormed;
    hide Level;
    hide Agree;
    hide Cut;
    if FreshLayer(s, m, t) != {} {
      var u := TakeOne(FreshLayer(s, m, t));
      var o := FreshAt(s, m, t, u);
      var i := UpperHalf(o, s.k);
      AgreeFewer(i, o, s.k - 1, s.k - m);
      LayerLower(s.left, s.k, m, i, o);
      CutAt(s, n, t, i);
    }
  }

  lemma {:induction false} FreshNone(s: Stage, n: nat, t: nat, m: nat)
    requires s.Shape() && BasesIn(s) && Cut(s, n, t) && m <= s.k && 1 <= s.k && n <= Pow2(s.k - 1)
    ensures Fresh(s, m, t) == {}
    decreases m
  {
    hide Fresh;
    hide FreshLayer;
    hide Within;
    hide Extend;
    hide Connector;
    hide Standalone;
    hide WellFormed;
    hide Level;
    hide Cut;
    if m > 0 {
      NoneBeforeHalf(s, n, t, m);
      FreshNone(s, n, t, m - 1);
      FreshParts(s, m, t);
    } else {
      FreshSize(s, 0, t);
    }
  }

  lemma FreshParts(s: Stage, m: nat, t: nat)
    requires s.Shape() && 1 <= m
    ensures Fresh(s, m, t) == Fresh(s, m - 1, t) + FreshLayer(s, m, t)
  {
    hide WellFormed;
    hide Level;
  }

  /** By the level after the last base node, fewer new nodes are being computed than there are columns. */
  lemma FreshBound(s: Stage, t: nat)
    requires s.Shape() && t <= LastLevel(s.k) + 1
    ensures |Fresh(s, s.k, t)| < Pow2(s.k)
  {
    hide Fresh;
    hide FreshLayer;
    hide Stage.Shape;
    if s.k == 0 {
      FreshSize(s, 0, t);
    } else {
      NoOutputs(s, t);
      FreshParts(s, s.k, t);
      FreshSize(s, s.k - 1, t);
    }
  }

  /** By the level of the last base node, at most half of the columns compute at once. */
  lemma FreshHalf(s: Stage, t: nat)
    requires s.Shape() && 1 <= s.k && t <= LastLevel(s.k)
    ensures |Fresh(s, s.k, t)| <= Pow2(s.k - 1)
  {
    hide Fresh;
    hide FreshLayer;
    hide Stage.Shape;
    NoOutputs(s, t);
    FreshParts(s, s.k, t);
    if s.k < 3 {
      FreshSize(s, s.k - 1, t);
    } else {
      NoLateLayer(s, t);
      FreshParts(s, s.k - 1, t);
      FreshSize(s, s.k - 2, t);
    }
  }

  // ---------- at most 2^L live nodes ----------

  lemma LiveSplit(h: Graph, lo: nat, mid: nat, hi: nat, t: nat)
    requires WellFormed(h) && lo <= mid <= hi <= |h|
    ensures LiveIn(h, lo, hi, t) == LiveIn(h, lo, mid, t) + LiveIn(h, mid, hi, t)
    ensures |LiveIn(h, lo, hi, t)| == |LiveIn(h, lo, mid, t)| + |LiveIn(h, mid, hi, t)|
  {
    hide WellFormed;
    hide LiveNode;
    assert LiveIn(h, lo, mid, t) !! LiveIn(h, mid, hi, t);
  }

  /** New nodes live by the level after the last base node: one per started column, and those just computed. */
  lemma NewLiveSize(s: Stage, n: nat, t: nat)
    requires s.Valid() && BasesIn(s) && Cut(s, n, t) && t <= LastLevel(s.k) + 1
    ensures |NewLive(s, t)| <= n + |Fresh(s, s.k, t)|
  {
    hide Fresh;
    hide LiveIn;
    hide Cut;
    hide BasesIn;
    hide AtMostOne;
    hide InColumns;
    hide Extend;
    hide Connector;
    hide Standalone;
    hide WellFormed;
    hide Stage.Colours;
    var live, due := NewLive(s, t), Fresh(s, s.k, t);
    NewColumns(s, n, t);
    Settled(s, n, t);
    FewerColumns(live, live - due, s.d, s.cb + Pow2(s.k), s.cb + Pow2(s.k) + n);
    CountOne(live - due, s.d, s.cb + Pow2(s.k), n);
    SlotPool.Subset(live, (live - due) + due);
  }

  lemma FewerColumns(s: set<nat>, t: set<nat>, c: seq<nat>, lo: nat, hi: nat)
    requires InColumns(s, c, lo, hi) && t <= s
    ensures InColumns(t, c, lo, hi)
  {
  }

  /** Two per column once the smaller component is done. */
  lemma NewLiveLate(s: Stage, t: nat)
    requires s.Valid()
    ensures |NewLive(s, t)| <= 2 * Pow2(s.k)
  {
    hide Extend;
    hide Connector;
    hide Standalone;
    hide WellFormed;
    hide Level;
    hide SlotMap.LastUse;
    hide Within;
    hide Coloured;
    hide Tops;
    hide ReadsOnly;
    hide LayerColours;
    LiveTwo(s.e.g, s.d, |s.left.g|, |s.e.g|, t);
    hide AtMostTwo;
    CountTwo(NewLive(s, t), s.d, s.cb + Pow2(s.k), Pow2(s.k));
  }

  lemma ExtendedBase(s: Stage, i: nat)
    requires s.Shape() && i < 2 * Pow2(s.k)
    ensures |Standalone(s.g, s.k + 1).base| == 2 * Pow2(s.k) && Standalone(s.g, s.k + 1) == s.e
    ensures s.e.base[i] < |s.e.g| && (i < Pow2(s.k) ==> s.e.base[i] == s.left.base[i])
  {
    hide Connector;
    hide Extend;
    hide Connected;
    hide Standalone;
    hide WellFormed;
    hide Level;
    StandaloneUnfold(s.g, s.k);
    ExtendUnfold(s.left, s.k);
    StandaloneBase(s.g, s.k + 1);
    WithinLoosen(s.e.base, |s.g|, |s.e.g|, 0, |s.e.g|);
    Reach.WithinAt(s.e.base, i, |s.e.g|);
  }

  /** Once `n` base nodes of the extended component are past, more than half of them,
      the smaller component is dead, and the columns of past base nodes hold one live node each. */
  lemma LateLive(s: Stage, n: nat, t: nat)
    requires s.Valid() && Pow2(s.k) < n < 2 * Pow2(s.k)
    requires s.e.base[n - 1] < |s.e.g| && Level(s.e.g, s.e.base[n - 1]) < t
    ensures |LiveIn(s.e.g, |s.g|, |s.e.g|, t)| <= 3 * Pow2(s.k) - n
  {
    hide Extend;
    hide Connector;
    hide Standalone;
    hide WellFormed;
    hide Level;
    hide SlotMap.LastUse;
    hide Within;
    hide Coloured;
    hide Tops;
    hide NewIn;
    hide ReadsOnly;
    hide LayerColours;
    hide LiveIn;
    LateOld(s, n, t);
    OldLiveOnce(s, t);
    LiveSplit(s.e.g, |s.g|, |s.left.g|, |s.e.g|, t);
    LateNew(s, n, t);
  }

  lemma LateOld(s: Stage, n: nat, t: nat)
    requires s.Shape() && Pow2(s.k) < n < 2 * Pow2(s.k)
    requires s.e.base[n - 1] < |s.e.g| && Level(s.e.g, s.e.base[n - 1]) < t
    ensures t > LastLevel(s.k) + 1
  {
    hide Extend;
    hide Connector;
    hide Standalone;
    hide WellFormed;
    hide Level;
    hide Within;
    var last := Pow2(s.k) - 1;
    ExtendedBase(s, last);
    BaseAscends(s.g, s.k + 1, last, n - 1);
    BaseOrder(s, last, last);
    BaseIn(s, last);
  }

  lemma LateNew(s: Stage, n: nat, t: nat)
    requires s.Valid() && Pow2(s.k) < n < 2 * Pow2(s.k)
    requires s.e.base[n - 1] < |s.e.g| && Level(s.e.g, s.e.base[n - 1]) < t
    ensures |NewLive(s, t)| <= 3 * Pow2(s.k) - n
  {
    hide Extend;
    hide Connector;
    hide Standalone;
    hide WellFormed;
    hide Level;
    hide SlotMap.LastUse;
    hide Within;
    hide Coloured;
    hide Tops;
    hide ReadsOnly;
    hide LayerColours;
    hide LiveNode;
    var w := Pow2(s.k);
    var live := NewLive(s, t);
    var past := set u: nat | u in live && s.d[u] < s.cb + n;
    LiveTwo(s.e.g, s.d, |s.left.g|, |s.e.g|, t);
    PastOnce(s, n, t, past);
    SubsetAtMostTwo(live, live - past, s.d);
    hide AtMostTwo;
    hide AtMostOne;
    CountOne(past, s.d, s.cb + w, n - w);
    CountTwo(live - past, s.d, s.cb + n, 2 * w - n);
    SlotPool.Subset(live, past + (live - past));
  }

  lemma PastOnce(s: Stage, n: nat, t: nat, past: set<nat>)
    requires s.Valid() && Pow2(s.k) < n < 2 * Pow2(s.k)
    requires s.e.base[n - 1] < |s.e.g| && Level(s.e.g, s.e.base[n - 1]) < t
    requires forall u: nat :: u in past ==> u in NewLive(s, t) && s.d[u] < s.cb + n
    ensures AtMostOne(past, s.d)
  {
    hide Extend;
    hide Connector;
    hide Standalone;
    hide WellFormed;
    hide Level;
    hide SlotMap.LastUse;
    hide Within;
    hide Coloured;
    hide Tops;
    hide ReadsOnly;
    hide LayerColours;
    hide LiveNode;
    forall x: nat, y: nat | x in past && y in past && x != y
      ensures s.d[x] != s.d[y]
    {
      if s.d[x] == s.d[y] {
        var lo, hi := Min(x, y), Max(x, y);
        LivePair(s.e.g, s.d, lo, hi, t);
        BelowBase(s, n, hi);
      }
    }
  }

  /** In the column of a past base node nothing comes after it. */
  lemma BelowBase(s: Stage, n: nat, v: nat)
    requires s.Valid() && n < 2 * Pow2(s.k) && |s.left.g| <= v < |s.e.g| && s.d[v] < s.cb + n
    ensures s.e.base[n - 1] < |s.e.g| && Level(s.e.g, v) <= Level(s.e.g, s.e.base[n - 1])
  {
    hide Extend;
    hide Connector;
    hide Standalone;
    hide WellFormed;
    hide Level;
    hide Within;
    hide Coloured;
    hide ReadsOnly;
    hide LayerColours;
    hide Tops;
    var i := s.d[v] - s.cb;
    TopAt(s.d, s.e.base, s.cb, i);
    var b := s.e.base[i];
    if v < b { ColouredAt(s.e.g, s.d, v, b); }
    NoEarlierBase(s, i, n - 1);
  }

  lemma NoEarlierBase(s: Stage, i: nat, j: nat)
    requires s.Shape() && i <= j < 2 * Pow2(s.k)
    ensures s.e.base[i] < |s.e.g| && s.e.base[j] < |s.e.g| && Level(s.e.g, s.e.base[i]) <= Level(s.e.g, s.e.base[j])
  {
    hide Extend;
    hide Connector;
    hide Standalone;
    hide WellFormed;
    hide Level;
    hide Within;
    ExtendedBase(s, i);
    ExtendedBase(s, j);
    if i < j { BaseAscends(s.g, s.k + 1, i, j); }
  }

  /** At no level are more than 2^L nodes of a standalone component of level L live. */
  lemma {:induction false} StandaloneLive(g: Graph, c0: seq<nat>, level: nat, cb: nat, t: nat)
    requires WellFormed(g) && Coloured(g, c0) && Free(c0, cb, Pow2(level))
    ensures WellFormed(Standalone(g, level).g)
    ensures |LiveIn(Standalone(g, level).g, |g|, |Standalone(g, level).g|, t)| <= Pow2(level)
    decreases level
  {
    hide Extend;
    hide Connector;
    hide Standalone;
    hide WellFormed;
    hide Coloured;
    hide Free;
    hide LiveIn;
    hide Stage.Colours;
    hide Cut;
    hide BasesIn;
    StandaloneWellFormed(g, level);
    if level == 0 {
      OneNode(g, t);
    } else {
      var k := level - 1;
      var s := MakeStage(g, c0, k, cb);
      StandaloneUnfold(g, k);
      LiveSplit(s.e.g, |g|, |s.left.g|, |s.e.g|, t);
      FreeParts(c0, cb, Pow2(k));
      StandaloneLive(g, c0, k, cb, t);
      if t > LastLevel(k) + 1 {
        OldLiveOnce(s, t);
        NewLiveLate(s, t);
      } else if t > LastLevel(k) {
        OldLiveOnce(s, t);
        SlotPool.Subset(OldLive(s, t), {s.left.base[Pow2(k) - 1]});
        var n := FindCut(s, t);
        CutSize(s, n, t);
        NewLiveSize(s, n, t);
        FreshBound(s, t);
      } else {
        EarlyLive(s, c0, t);
      }
    }
  }

  lemma CutSize(s: Stage, n: nat, t: nat)
    requires BasesIn(s) && Cut(s, n, t)
    ensures n <= |s.left.base|
  {
  }

  lemma OneNode(g: Graph, t: nat)
    requires WellFormed(g) && WellFormed(Standalone(g, 0).g)
    ensures |LiveIn(Standalone(g, 0).g, |g|, |Standalone(g, 0).g|, t)| <= 1
  {
    hide WellFormed;
    hide LiveNode;
    StandaloneLeaf(g);
    SlotPool.Subset(LiveIn(Standalone(g, 0).g, |g|, |Standalone(g, 0).g|, t), {|g|});
  }

  /** Before the last base node: what the new columns need, the old ones have already given up. */
  lemma EarlyLive(s: Stage, c0: seq<nat>, t: nat)
    requires s.Valid() && t <= LastLevel(s.k)
    requires Coloured(s.g, c0) && Free(c0, s.cb, 2 * Pow2(s.k))
    requires |LiveIn(s.left.g, |s.g|, |s.left.g|, t)| <= Pow2(s.k)
    ensures |OldLive(s, t)| + |NewLive(s, t)| <= 2 * Pow2(s.k)
  {
    hide Extend;
    hide Connector;
    hide Standalone;
    hide WellFormed;
    hide Coloured;
    hide Free;
    hide LiveIn;
    hide Stage.Colours;
    hide Cut;
    hide BasesIn;
    hide Fresh;
    hide Level;
    hide Within;
    var n := FindCut(s, t);
    OldLiveEarly(s, t);
    SlotPool.Subset(OldLive(s, t), LiveIn(s.left.g, |s.g|, |s.left.g|, t));
    NewLiveSize(s, n, t);
    if s.k == 0 {
      FreshBound(s, t);
    } else if n <= Pow2(s.k - 1) {
      FreshNone(s, n, t, s.k);
    } else {
      FreshHalf(s, t);
      FreeParts(c0, s.cb, Pow2(s.k));
      CutAt(s, n, t, n - 1);
      StepBack(s, c0, n, t);
    }
  }

  lemma StepBack(s: Stage, c0: seq<nat>, n: nat, t: nat)
    requires s.Shape() && s.k >= 1 && Coloured(s.g, c0) && Free(c0, s.cb, Pow2(s.k)) && Pow2(s.k - 1) < n < Pow2(s.k)
    requires s.left.base[n - 1] < |s.left.g| && Level(s.left.g, s.left.base[n - 1]) < t
    ensures |LiveIn(s.left.g, |s.g|, |s.left.g|, t)| <= 3 * Pow2(s.k - 1) - n
  {
    hide Extend;
    hide Connector;
    hide Standalone;
    hide WellFormed;
    hide Coloured;
    hide Free;
    hide LiveIn;
    hide Within;
    hide Stage.Colours;
    hide Level;
    var p := MakeStage(s.g, c0, s.k - 1, s.cb);
    StandaloneUnfold(s.g, s.k - 1);
    LateLive(p, n, t);
  }

  // ---------- and 2^L at one level ----------

  /** A node read at level `t` and computed before it is live there. */
  lemma ReadThen(h: Graph, u: nat, r: nat)
    requires WellFormed(h) && r < |h| && h[r].Reads(u)
    ensures u < |h| && LiveNode(h, u, Level(h, r))
  {
    hide Level;
    hide SlotMap.LastUse;
    ReadsBelow(h, r, u);
    SlotMap.LastUseBound(h, u, r);
  }

  lemma OutputLive(s: Stage, o: nat)
    requires s.Shape() && o < Pow2(s.k)
    ensures LayerId(|s.left.g|, Pow2(s.k), s.k, o) < |s.e.g|
    ensures LiveNode(s.e.g, LayerId(|s.left.g|, Pow2(s.k), s.k, o), LastLevel(s.k) + 1 + s.k)
  {
    hide Extend;
    hide Connector;
    hide Standalone;
    hide WellFormed;
    hide Level;
    hide SlotMap.LastUse;
    hide Within;
    OutputLevel(s.g, s.k, o);
    SlotMap.LastUseBelowHeight(s.e.g, LayerId(|s.left.g|, Pow2(s.k), s.k, o));
  }

  lemma OutputReads(s: Stage, o: nat)
    requires s.Shape() && o < Pow2(s.k)
    ensures |s.center| + o >= 2 * Pow2(s.k)
    ensures LayerId(|s.left.g|, Pow2(s.k), s.k, o) < |s.e.g|
    ensures s.e.g[LayerId(|s.left.g|, Pow2(s.k), s.k, o)].Reads(|s.center| - 2 * Pow2(s.k) + o)
  {
    hide Extend;
    hide Connector;
    hide Standalone;
    hide WellFormed;
    hide Level;
    hide Within;
    if s.k == 0 {
      LayerZero(s, 0);
      StandaloneLeaf(s.g);
    } else {
      LayerPair(s.left, s.k, s.k, o);
      assert Layers(Pow2(s.k), s.k + 1) == Layers(Pow2(s.k), s.k - 1) + 2 * Pow2(s.k);
    }
  }

  /** When the connector's outputs are computed, the last two of its layers are live. */
  lemma TwoLayersLive(s: Stage, u: nat)
    requires s.Shape() && |s.center| <= u + 2 * Pow2(s.k) && u < |s.center|
    ensures |s.g| <= u < |s.e.g| && LiveNode(s.e.g, u, LastLevel(s.k) + 1 + s.k)
  {
    hide Extend;
    hide Connector;
    hide Standalone;
    hide WellFormed;
    hide Level;
    hide LiveNode;
    hide SlotMap.LastUse;
    hide Within;
    var w := Pow2(s.k);
    StartsAfter(s);
    if u >= |s.center| - w {
      var o := u - (|s.center| - w);
      OutputLive(s, o);
    } else {
      var o := u - (|s.center| - 2 * w);
      OutputReads(s, o);
      OutputLevel(s.g, s.k, o);
      ReadThen(s.e.g, u, LayerId(|s.left.g|, w, s.k, o));
    }
  }

  lemma StartsAfter(s: Stage)
    requires s.Shape()
    ensures |s.g| + 2 * Pow2(s.k) <= |s.center|
  {
    hide Extend;
    hide Connector;
    hide Standalone;
    hide WellFormed;
    hide Within;
    if s.k == 0 {
      StandaloneLeaf(s.g);
    } else {
      assert Layers(Pow2(s.k), s.k + 1) == Layers(Pow2(s.k), s.k - 1) + 2 * Pow2(s.k);
    }
  }

  /** At the level of its last connector's outputs, a standalone component of level k + 1 has 2^(k + 1) live nodes. */
  lemma PeakAttained(g: Graph, k: nat)
    requires WellFormed(g)
    ensures WellFormed(Standalone(g, k + 1).g)
    ensures |LiveIn(Standalone(g, k + 1).g, |g|, |Standalone(g, k + 1).g|, LastLevel(k) + 1 + k)| >= 2 * Pow2(k)
  {
    hide Extend;
    hide Connector;
    hide Standalone;
    hide WellFormed;
    hide Level;
    hide LiveNode;
    hide SlotMap.LastUse;
    hide Within;
    var s := MakeShape(g, k);
    StandaloneUnfold(g, k);
    StartsAfter(s);
    var from := |s.center| - 2 * Pow2(k);
    var live := LiveIn(s.e.g, |g|, |s.e.g|, LastLevel(k) + 1 + k);
    forall u: nat | from <= u < from + 2 * Pow2(k)
      ensures u in live
    {
      TwoLayersLive(s, u);
    }
    IntervalSize(live, from, 2 * Pow2(k));
  }
}
