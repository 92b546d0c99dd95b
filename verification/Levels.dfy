/** Dependency levels, ancestors and paths of a graph. */
module Levels {
  import Bits
  import opened Dag

  /** One more than the highest predecessor level; a source sits at level 0. */
  function Level(g: Graph, id: nat): nat
    requires WellFormed(g) && id < |g|
    decreases id
  {
    assert Fits(g[id], id);
    match g[id]
    case Source => 0
    case One(p) => Level(g, p) + 1
    case Two(p, q) => Bits.Max(Level(g, p), Level(g, q)) + 1
  }

  /** A path of at least one edge leads from `a` to `b`. */
  predicate Ancestor(g: Graph, a: nat, b: nat)
    requires WellFormed(g) && b < |g|
    decreases b
  {
    assert Fits(g[b], b);
    match g[b]
    case Source => false
    case One(p) => a == p || Ancestor(g, a, p)
    case Two(p, q) => a == p || a == q || Ancestor(g, a, p) || Ancestor(g, a, q)
  }

  /** Number of distinct paths from `a` to `b`. */
  function Paths(g: Graph, a: nat, b: nat): nat
    requires WellFormed(g) && b < |g|
    decreases b
  {
    assert Fits(g[b], b);
    if a == b then 1
    else
      match g[b]
      case Source => 0
      case One(p) => Paths(g, a, p)
      case Two(p, q) => Paths(g, a, p) + Paths(g, a, q)
  }

  /** Consecutive ids of a chain are linked by an edge. */
  predicate Chain(g: Graph, ids: seq<nat>) {
    forall i {:trigger ids[i]} :: 0 <= i < |ids| ==> ids[i] < |g| && (i > 0 ==> g[ids[i]].Reads(ids[i - 1]))
  }

  lemma ChainAppend(g: Graph, front: seq<nat>, id: nat)
    requires Chain(g, front) && |front| > 0 && id < |g| && g[id].Reads(front[|front| - 1])
    ensures Chain(g, front + [id])
  {
  }

  /** A node of level L ends a chain of L + 1 nodes, each hashed over the one before. */
  lemma {:induction false} LongestChain(g: Graph, id: nat) returns (ids: seq<nat>)
    requires WellFormed(g) && id < |g|
    ensures |ids| == Level(g, id) + 1 && Chain(g, ids) && ids[|ids| - 1] == id
    decreases id
  {
    hide Chain;
    assert Fits(g[id], id);
    match g[id]
    case Source =>
      ids := [id];
      SourceChain(g, id);
    case One(p) =>
      var front := LongestChain(g, p);
      ChainAppend(g, front, id);
      ids := front + [id];
    case Two(p, q) =>
      var front := LongestChain(g, if Level(g, p) >= Level(g, q) then p else q);
      ChainAppend(g, front, id);
      ids := front + [id];
  }

  lemma SourceChain(g: Graph, id: nat)
    requires id < |g|
    ensures Chain(g, [id])
  {
  }

  /** No chain is longer: along a chain levels strictly increase. */
  lemma {:induction false} ChainBound(g: Graph, ids: seq<nat>)
    requires WellFormed(g) && |ids| > 0 && Chain(g, ids)
    ensures |ids| <= Level(g, ids[|ids| - 1]) + 1
  {
    if |ids| > 1 {
      var n := |ids| - 1;
      assert Chain(g, ids[..n]);
      ChainBound(g, ids[..n]);
      assert Fits(g[ids[n]], ids[n]) && g[ids[n]].Reads(ids[n - 1]);
    }
  }

  lemma {:induction false} AncestorLevel(g: Graph, a: nat, b: nat)
    requires WellFormed(g) && b < |g| && Ancestor(g, a, b)
    ensures a < b && Level(g, a) < Level(g, b)
    decreases b
  {
    assert Fits(g[b], b);
    match g[b]
    case Source =>
    case One(p) =>
      if a != p { AncestorLevel(g, a, p); }
    case Two(p, q) =>
      if a != p && a != q {
        if Ancestor(g, a, p) { AncestorLevel(g, a, p); } else { AncestorLevel(g, a, q); }
      }
  }

  lemma {:induction false} AncestorTrans(g: Graph, a: nat, b: nat, c: nat)
    requires WellFormed(g) && b < |g| && c < |g| && Ancestor(g, a, b) && Ancestor(g, b, c)
    ensures Ancestor(g, a, c)
    decreases c
  {
    assert Fits(g[c], c);
    match g[c]
    case Source =>
    case One(p) =>
      if b != p { AncestorTrans(g, a, b, p); }
    case Two(p, q) =>
      if b != p && b != q {
        if Ancestor(g, b, p) { AncestorTrans(g, a, b, p); } else { AncestorTrans(g, a, b, q); }
      }
  }

  /** Growing the graph changes nothing about its older nodes. */
  lemma {:induction false} AncestorGrow(g: Graph, h: Graph, a: nat, b: nat)
    requires WellFormed(g) && WellFormed(h) && g <= h && b < |g|
    ensures Ancestor(h, a, b) == Ancestor(g, a, b)
    decreases b
  {
    assert Fits(g[b], b) && h[b] == g[b];
    match g[b]
    case Source =>
    case One(p) => AncestorGrow(g, h, a, p);
    case Two(p, q) => AncestorGrow(g, h, a, p); AncestorGrow(g, h, a, q);
  }

  lemma {:induction false} LevelGrow(g: Graph, h: Graph, id: nat)
    requires WellFormed(g) && WellFormed(h) && g <= h && id < |g|
    ensures Level(h, id) == Level(g, id)
    decreases id
  {
    assert Fits(g[id], id) && h[id] == g[id];
    match g[id]
    case Source =>
    case One(p) => LevelGrow(g, h, p);
    case Two(p, q) => LevelGrow(g, h, p); LevelGrow(g, h, q);
  }

  lemma {:induction false} PathsGrow(g: Graph, h: Graph, a: nat, b: nat)
    requires WellFormed(g) && WellFormed(h) && g <= h && b < |g|
    ensures Paths(h, a, b) == Paths(g, a, b)
    decreases b
  {
    assert Fits(g[b], b) && h[b] == g[b];
    match g[b]
    case Source =>
    case One(p) => PathsGrow(g, h, a, p);
    case Two(p, q) => PathsGrow(g, h, a, p); PathsGrow(g, h, a, q);
  }

  /** No path leads from a newer node to an older one. */
  lemma {:induction false} NoPathBack(g: Graph, a: nat, b: nat)
    requires WellFormed(g) && b < |g| && b < a
    ensures Paths(g, a, b) == 0
    decreases b
  {
    assert Fits(g[b], b);
    match g[b]
    case Source =>
    case One(p) => NoPathBack(g, a, p);
    case Two(p, q) => NoPathBack(g, a, p); NoPathBack(g, a, q);
  }

  /** A new node over two older ones. */
  lemma PairStep(h: Graph, r: Graph, a: nat, x: nat, y: nat, b: nat)
    requires WellFormed(h) && WellFormed(r) && h <= r && |h| <= b < |r|
    requires x < |h| && y < |h| && a < |h| && r[b] == Pair(x, y)
    ensures Paths(r, a, b) == Paths(h, a, x) + Paths(h, a, y)
    ensures Level(r, b) == Bits.Max(Level(h, x), Level(h, y)) + 1
    ensures Ancestor(r, a, b) == (a == x || a == y || Ancestor(h, a, x) || Ancestor(h, a, y))
  {
    assert Paths(r, a, b) == Paths(h, a, x) + Paths(h, a, y) by {
      hide Level;
      hide Ancestor;
      PathsGrow(h, r, a, x);
      PathsGrow(h, r, a, y);
    }
    assert Level(r, b) == Bits.Max(Level(h, x), Level(h, y)) + 1 by {
      hide Paths;
      hide Ancestor;
      LevelGrow(h, r, x);
      LevelGrow(h, r, y);
    }
    hide Paths;
    hide Level;
    AncestorGrow(h, r, a, x);
    AncestorGrow(h, r, a, y);
  }

  /** A new node over one older node. */
  lemma UnaryStep(h: Graph, r: Graph, a: nat, x: nat, b: nat)
    requires WellFormed(h) && WellFormed(r) && h <= r && |h| <= b < |r|
    requires x < |h| && a < |h| && r[b] == One(x)
    ensures Level(r, b) == Level(h, x) + 1
    ensures Ancestor(r, a, b) == (a == x || Ancestor(h, a, x))
  {
    LevelGrow(h, r, x);
    AncestorGrow(h, r, a, x);
  }
}
