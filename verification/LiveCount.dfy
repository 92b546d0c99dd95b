/** Counting live nodes: how many elements a set of nodes can have, given their columns. */
module LiveCount {
  import opened Bits
  import opened Dag
  import Levels
  import Columns
  import SlotMap
  import SlotPool

  /** Nodes with ids in [lo, hi) that level `t` computes or still needs. */
  ghost function LiveIn(h: Graph, lo: nat, hi: nat, t: nat): set<nat>
    requires WellFormed(h) && hi <= |h|
  {
    set u: nat | lo <= u < hi && LiveNode(h, u, t)
  }

  ghost predicate LiveNode(h: Graph, u: nat, t: nat)
    requires WellFormed(h) && u < |h|
  {
    Levels.Level(h, u) <= t <= SlotMap.LastUse(h, u)
  }

  // ---------- sets of nodes ----------

  /** No three elements of `s` share a column. */
  ghost predicate AtMostTwo(s: set<nat>, c: seq<nat>) {
    && (forall x: nat :: x in s ==> x < |c|)
    && (forall x: nat, y: nat, z: nat :: x in s && y in s && z in s && x != y && y != z && x != z ==>
      !(c[x] == c[y] == c[z]))
  }

  lemma TakeOne(s: set<nat>) returns (x: nat)
    requires s != {}
    ensures x in s && |s - {x}| == |s| - 1
  {
    x :| x in s;
  }

  lemma ColumnSize(s: set<nat>, c: seq<nat>, n: nat)
    requires AtMostTwo(s, c) && forall x: nat :: x in s ==> c[x] == n
    ensures |s| <= 2
  {
    if |s| > 2 {
      var x := TakeOne(s);
      var y := TakeOne(s - {x});
      var z := TakeOne(s - {x} - {y});
    }
  }

  lemma SubsetAtMostTwo(s: set<nat>, t: set<nat>, c: seq<nat>)
    requires AtMostTwo(s, c) && t <= s
    ensures AtMostTwo(t, c)
  {
  }

  lemma SplitColumn(s: set<nat>, c: seq<nat>, col: nat) returns (here: set<nat>, rest: set<nat>)
    requires forall x: nat :: x in s ==> x < |c|
    ensures here <= s && rest <= s && s == rest + here
    ensures forall x: nat :: x in here ==> c[x] == col
    ensures forall x: nat :: x in rest ==> c[x] != col
  {
    here := set x | x in s && c[x] == col;
    rest := s - here;
  }

  ghost predicate AtMostOne(s: set<nat>, c: seq<nat>) {
    && (forall x: nat :: x in s ==> x < |c|)
    && (forall x: nat, y: nat :: x in s && y in s && x != y ==> c[x] != c[y])
  }

  ghost predicate InColumns(s: set<nat>, c: seq<nat>, lo: nat, hi: nat) {
    forall x: nat :: x in s ==> x < |c| && lo <= c[x] < hi
  }

  lemma {:induction false} CountOne(s: set<nat>, c: seq<nat>, lo: nat, n: nat)
    requires AtMostOne(s, c) && InColumns(s, c, lo, lo + n)
    ensures |s| <= n
    decreases n
  {
    if n > 0 {
      var last, rest := SplitColumn(s, c, lo + n - 1);
      assert |last| <= 1 by {
        if |last| > 1 {
          var x := TakeOne(last);
          var y := TakeOne(last - {x});
        }
      }
      CountOne(rest, c, lo, n - 1);
    } else if |s| > 0 {
      var x := TakeOne(s);
    }
  }

  lemma {:induction false} CountTwo(s: set<nat>, c: seq<nat>, lo: nat, n: nat)
    requires AtMostTwo(s, c) && InColumns(s, c, lo, lo + n)
    ensures |s| <= 2 * n
    decreases n
  {
    if n > 0 {
      var last, rest := SplitColumn(s, c, lo + n - 1);
      SubsetAtMostTwo(s, last, c);
      SubsetAtMostTwo(s, rest, c);
      hide AtMostTwo;
      ColumnSize(last, c, lo + n - 1);
      CountTwo(rest, c, lo, n - 1);
    } else if |s| > 0 {
      var x := TakeOne(s);
    }
  }

  /** A set that contains `n` consecutive ids. */
  lemma {:induction false} IntervalSize(s: set<nat>, lo: nat, n: nat)
    requires forall x: nat :: lo <= x < lo + n ==> x in s
    ensures |s| >= n
    decreases n
  {
    if n > 0 {
      IntervalSize(s - {lo + n - 1}, lo, n - 1);
    }
  }

  // ---------- columns that agree on their low bits ----------

  /** Columns of a layer of width 2^k whose low `b` bits are those of `i`. */
  ghost function Class(i: nat, b: nat, k: nat): set<nat> {
    set o: nat | o < Pow2(k) && Agree(i, o, b)
  }

  lemma {:induction false} ClassSize(i: nat, b: nat, k: nat)
    requires b <= k && i < Pow2(k)
    ensures |Class(i, b, k)| <= Pow2(k - b)
    decreases k - b
  {
    hide Agree;
    hide Flip;
    if b == k {
      forall o: nat | o in Class(i, b, k)
        ensures o in {i}
      {
        AgreeAll(i, o, k);
      }
      SlotPool.Subset(Class(i, b, k), {i});
    } else {
      var same := Class(i, b + 1, k);
      var flipped := Flipped(same, b);
      ClassSize(i, b + 1, k);
      FlippedSize(same, b);
      forall o: nat | o in Class(i, b, k)
        ensures o in same + flipped
      {
        AgreeOrFlip(i, o, b);
        FlipInLayer(o, b, k);
        FlipLaws(o, b);
        if o !in same {
          assert Flip(o, b) in same;
        }
      }
      SlotPool.Subset(Class(i, b, k), same + flipped);
    }
  }

  ghost function Flipped(s: set<nat>, b: nat): set<nat> {
    set o: nat | o in s :: Flip(o, b)
  }

  lemma {:induction false} FlippedSize(s: set<nat>, b: nat)
    ensures |Flipped(s, b)| <= |s|
    decreases s
  {
    hide Flip;
    if s != {} {
      var x := TakeOne(s);
      FlippedSize(s - {x}, b);
      assert Flipped(s, b) <= Flipped(s - {x}, b) + {Flip(x, b)};
      SlotPool.Subset(Flipped(s, b), Flipped(s - {x}, b) + {Flip(x, b)});
    }
  }

  /** Ids of one layer's nodes in the columns `s`. */
  ghost function LayerNodes(at: nat, w: nat, j: nat, s: set<nat>): set<nat> {
    set o: nat | o in s :: Columns.LayerId(at, w, j, o)
  }

  lemma {:induction false} LayerNodesSize(at: nat, w: nat, j: nat, s: set<nat>)
    ensures |LayerNodes(at, w, j, s)| <= |s|
    decreases s
  {
    hide Columns.LayerId;
    if s != {} {
      var x := TakeOne(s);
      LayerNodesSize(at, w, j, s - {x});
      assert LayerNodes(at, w, j, s) <= LayerNodes(at, w, j, s - {x}) + {Columns.LayerId(at, w, j, x)};
      SlotPool.Subset(LayerNodes(at, w, j, s), LayerNodes(at, w, j, s - {x}) + {Columns.LayerId(at, w, j, x)});
    }
  }

  /** Every connector node lies in some layer and column. */
  lemma {:induction false} LayerOf(at: nat, w: nat, k: nat, u: nat) returns (j: nat, o: nat)
    requires at <= u < at + Layers(w, k + 1)
    ensures j <= k && o < w && u == Columns.LayerId(at, w, j, o)
    decreases k
  {
    if u >= at + Layers(w, k) {
      j, o := k, u - at - Layers(w, k);
    } else {
      j, o := LayerOf(at, w, k - 1, u);
    }
  }

  // ---------- live nodes and columns ----------

  /** Within a column an older node is used for the last time no later than its successor's level. */
  lemma UsedBefore(g: Graph, c: seq<nat>, u: nat, v: nat)
    requires WellFormed(g) && Columns.Coloured(g, c) && u < v < |g| && c[u] == c[v]
    ensures SlotMap.LastUse(g, u) <= Levels.Level(g, v)
  {
    Columns.ColouredAt(g, c, u, v);
    var reader := SlotMap.LastUseAttained(g, u, |g|);
  }

  /** Two live nodes of a column: the newer one is just being computed. */
  lemma LivePair(h: Graph, d: seq<nat>, u: nat, v: nat, t: nat)
    requires WellFormed(h) && Columns.Coloured(h, d) && u < v < |h| && d[u] == d[v]
    requires LiveNode(h, u, t) && LiveNode(h, v, t)
    ensures Levels.Level(h, v) == t && Levels.Level(h, u) < t
  {
    UsedBefore(h, d, u, v);
    Columns.ColouredAt(h, d, u, v);
  }

  lemma LiveTwo(h: Graph, d: seq<nat>, lo: nat, hi: nat, t: nat)
    requires WellFormed(h) && Columns.Coloured(h, d) && hi <= |h|
    ensures AtMostTwo(LiveIn(h, lo, hi, t), d)
  {
    hide SlotMap.LastUse;
    hide Levels.Level;
    hide WellFormed;
    hide Columns.Coloured;
    hide LiveNode;
    Columns.ColouredSize(h, d);
    var s := LiveIn(h, lo, hi, t);
    forall x: nat, y: nat, z: nat | x in s && y in s && z in s && x != y && y != z && x != z
      ensures !(d[x] == d[y] == d[z])
    {
      if d[x] == d[y] == d[z] {
        var a, c := Min(x, Min(y, z)), Max(x, Max(y, z));
        var b := if x != a && x != c then x else if y != a && y != c then y else z;
        LivePair(h, d, a, b, t);
        LivePair(h, d, b, c, t);
      }
    }
  }

  /** With no other reader than in the smaller graph, a node is live at the same levels. */
  lemma SameLife(g: Graph, h: Graph, u: nat, t: nat)
    requires WellFormed(g) && WellFormed(h) && g <= h && u < |g|
    requires forall r {:trigger h[r]} :: |g| <= r < |h| ==> !h[r].Reads(u)
    ensures LiveNode(h, u, t) == LiveNode(g, u, t)
  {
    hide Levels.Level;
    var r := SlotMap.LastUseAttained(h, u, |h|);
    var q := SlotMap.LastUseAttained(g, u, |g|);
    Levels.LevelGrow(g, h, u);
    SlotMap.LastUseBelowHeight(g, u);
    SlotMap.LastUseBelowHeight(h, u);
    if SlotMap.LastUse(h, u) != Levels.Level(h, u) {
      Levels.LevelGrow(g, h, r);
      SlotMap.LastUseBound(g, u, r);
    }
    if SlotMap.LastUse(g, u) != Levels.Level(g, u) {
      Levels.LevelGrow(g, h, q);
      SlotMap.LastUseBound(h, u, q);
    }
  }
}
