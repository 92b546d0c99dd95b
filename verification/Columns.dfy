/** Columns: why few labels are live at once.

    Every node is given a column such that, within a column, levels strictly increase and a node
    is never read after the level of its successor. So at most two nodes of a column are live
    at one level. A standalone component of level L needs 2^L columns.
 */
module Columns {
  import opened Bits
  import opened Dag
  import opened Levels

  /** The level a node would get if it were appended to `g`. */
  function NextLevel(g: Graph, node: Node): nat
    requires WellFormed(g) && Fits(node, |g|)
  {
    match node
    case Source => 0
    case One(p) => Level(g, p) + 1
    case Two(p, q) => Max(Level(g, p), Level(g, q)) + 1
  }

  /** No reader of `u` comes after the level of `v`. */
  ghost predicate DoneBy(g: Graph, u: nat, v: nat)
    requires WellFormed(g) && v < |g|
  {
    forall r {:trigger g[r]} :: 0 <= r < |g| && g[r].Reads(u) ==> Level(g, r) <= Level(g, v)
  }

  ghost predicate Coloured(g: Graph, c: seq<nat>)
    requires WellFormed(g)
  {
    && |c| == |g|
    && (forall u, v {:trigger c[u], c[v]} :: 0 <= u < v < |g| && c[u] == c[v] ==>
      Level(g, u) < Level(g, v) && DoneBy(g, u, v))
    && (forall u: nat {:trigger Top(c, u)} :: u < |c| && !Top(c, u) ==> !Unread(g, u))
  }

  /** Nothing in the column of `x` is newer than `x`. */
  ghost predicate Top(c: seq<nat>, x: nat)
    requires x < |c|
  {
    forall v {:trigger c[v]} :: x < v < |c| ==> c[v] != c[x]
  }

  ghost predicate Unread(g: Graph, x: nat) {
    forall r {:trigger g[r]} :: 0 <= r < |g| ==> !g[r].Reads(x)
  }

  /** `ids[i]` is the newest node of column `cb + i`. */
  ghost predicate Tops(c: seq<nat>, ids: seq<nat>, cb: nat) {
    forall i {:trigger ids[i]} :: 0 <= i < |ids| ==> ids[i] < |c| && c[ids[i]] == cb + i && Top(c, ids[i])
  }

  ghost predicate AllUnread(g: Graph, ids: seq<nat>) {
    forall i {:trigger ids[i]} :: 0 <= i < |ids| ==> Unread(g, ids[i])
  }

  /** Nodes from `from` on lie in columns [cb, cb + w). */
  ghost predicate NewIn(c: seq<nat>, from: nat, cb: nat, w: nat) {
    forall v {:trigger c[v]} :: from <= v < |c| ==> cb <= c[v] < cb + w
  }

  /** Nodes from `from` on read only each other and `ids`. */
  ghost predicate ReadsOnly(g: Graph, from: nat, ids: seq<nat>) {
    forall v, y: nat {:trigger g[v].Reads(y)} :: from <= v < |g| && g[v].Reads(y) ==> y >= from || y in ids
  }

  // ---------- appending a row ----------

  ghost predicate RowReadsTops(c: seq<nat>, row: Graph) {
    forall j, y: nat {:trigger row[j].Reads(y)} :: 0 <= j < |row| && row[j].Reads(y) ==> y < |c| && Top(c, y)
  }

  /** Row node `i` takes over the column of `x`, which nobody has read and no row node reads later. */
  ghost predicate Follows(g: Graph, row: Graph, i: nat, x: nat)
    requires WellFormed(g) && RowFits(row, |g|) && i < |row|
  {
    && row[i].Reads(x) && Unread(g, x)
    && forall j {:trigger row[j]} :: 0 <= j < |row| && row[j].Reads(x) ==> NextLevel(g, row[j]) <= NextLevel(g, row[i])
  }

  /** Columns of the row's nodes: distinct, and each fresh or taken over from its newest node. */
  ghost predicate RowColumns(g: Graph, c: seq<nat>, row: Graph, rc: seq<nat>)
    requires WellFormed(g) && RowFits(row, |g|) && |c| == |g|
  {
    && |rc| == |row|
    && (forall i, j :: 0 <= i < j < |rc| ==> rc[i] != rc[j])
    && (forall i, u {:trigger rc[i], c[u]} :: 0 <= i < |rc| && 0 <= u < |c| && c[u] == rc[i] && Top(c, u) ==>
      Follows(g, row, i, u))
  }

  lemma LevelInRow(g: Graph, row: Graph, i: nat)
    requires WellFormed(g) && RowFits(row, |g|) && i < |row|
    ensures WellFormed(g + row) && Level(g + row, |g| + i) == NextLevel(g, row[i])
  {
    AppendRow(g, row);
    match row[i]
    case Source =>
    case One(p) => LevelGrow(g, g + row, p);
    case Two(p, q) => LevelGrow(g, g + row, p); LevelGrow(g, g + row, q);
  }

  /** The newest node of a column. */
  lemma {:induction false} TopOf(c: seq<nat>, u: nat) returns (x: nat)
    requires u < |c|
    ensures u <= x < |c| && c[x] == c[u] && Top(c, x)
    decreases |c| - u
  {
    x := u;
    if v :| u < v < |c| && c[v] == c[u] {
      x := TopOf(c, v);
    }
  }

  lemma ReadsBelow(g: Graph, r: nat, u: nat)
    requires WellFormed(g) && r < |g| && g[r].Reads(u)
    ensures u < r && Level(g, u) < Level(g, r)
  {
    assert Fits(g[r], r);
  }

  lemma OldPair(g: Graph, c: seq<nat>, row: Graph, u: nat, v: nat)
    requires WellFormed(g) && RowFits(row, |g|) && Coloured(g, c) && RowReadsTops(c, row)
    requires u < v < |g| && c[u] == c[v]
    ensures WellFormed(g + row) && Level(g + row, u) < Level(g + row, v) && DoneBy(g + row, u, v)
  {
    hide Level;
    AppendRow(g, row);
    var h := g + row;
    LevelGrow(g, h, u);
    LevelGrow(g, h, v);
    forall r | 0 <= r < |h| && h[r].Reads(u)
      ensures Level(h, r) <= Level(h, v)
    {
      if r < |g| {
        LevelGrow(g, h, r);
        assert DoneBy(g, u, v) && g[r].Reads(u);
      } else {
        assert false;
      }
    }
  }

  lemma NewPair(g: Graph, c: seq<nat>, row: Graph, rc: seq<nat>, u: nat, i: nat)
    requires WellFormed(g) && RowFits(row, |g|) && Coloured(g, c) && RowReadsTops(c, row) && RowColumns(g, c, row, rc)
    requires u < |g| == |c| && i < |row| && c[u] == rc[i]
    ensures WellFormed(g + row) && Level(g + row, u) < Level(g + row, |g| + i) && DoneBy(g + row, u, |g| + i)
  {
    hide Level;
    hide Coloured;
    hide RowFits;
    hide WellFormed;
    hide RowColumns;
    hide NextLevel;
    hide Fits;
    var x := TopOf(c, u);
    var h := g + row;
    FollowsTop(g, c, row, rc, i, x);
    AppendRow(g, row);
    LevelInRow(g, row, i);
    LevelGrow(g, h, u);
    LevelGrow(g, h, x);
    assert h[|g| + i] == row[i];
    ReadsBelow(h, |g| + i, x);
    if u < x { ColouredAt(g, c, u, x); }
    forall r | 0 <= r < |h| && h[r].Reads(u)
      ensures Level(h, r) <= Level(h, |g| + i)
    {
      if r < |g| {
        LevelGrow(g, h, r);
        assert g[r].Reads(u);
      } else {
        var j := r - |g|;
        assert row[j].Reads(u) && Top(c, u);
        assert u == x;
        LevelInRow(g, row, j);
      }
    }
  }

  lemma FollowsTop(g: Graph, c: seq<nat>, row: Graph, rc: seq<nat>, i: nat, x: nat)
    requires WellFormed(g) && RowFits(row, |g|) && |c| == |g| && RowColumns(g, c, row, rc)
    requires i < |row| && x < |c| && c[x] == rc[i] && Top(c, x)
    ensures Follows(g, row, i, x)
  {
    assert |rc| == |row|;
    var col := rc[i];
  }

  lemma ColouredAt(g: Graph, c: seq<nat>, u: nat, v: nat)
    requires WellFormed(g) && Coloured(g, c) && u < v < |g| && c[u] == c[v]
    ensures Level(g, u) < Level(g, v) && DoneBy(g, u, v)
  {
  }

  /** Appending a row that reads only newest nodes keeps the colouring. */
  lemma RowKeeps(g: Graph, c: seq<nat>, row: Graph, rc: seq<nat>)
    requires WellFormed(g) && RowFits(row, |g|) && Coloured(g, c) && RowReadsTops(c, row) && RowColumns(g, c, row, rc)
    ensures WellFormed(g + row) && Coloured(g + row, c + rc)
  {
    hide Level;
    hide DoneBy;
    hide RowFits;
    hide RowReadsTops;
    hide WellFormed;
    hide Follows;
    hide Top;
    hide Fits;
    AppendRow(g, row);
    var h, d := g + row, c + rc;
    forall u, v | 0 <= u < v < |h| && d[u] == d[v]
      ensures Level(h, u) < Level(h, v) && DoneBy(h, u, v)
    {
      if v < |g| {
        assert c[u] == c[v];
        OldPair(g, c, row, u, v);
      } else if u < |g| {
        assert c[u] == rc[v - |g|];
        NewPair(g, c, row, rc, u, v - |g|);
      } else {
        assert false;
      }
    }
    forall u: nat | u < |d| && !Top(d, u)
      ensures !Unread(h, u)
    {
      StillRead(g, c, row, rc, u);
    }
  }

  /** A node whose column goes on has a reader. */
  lemma StillRead(g: Graph, c: seq<nat>, row: Graph, rc: seq<nat>, u: nat)
    requires WellFormed(g) && RowFits(row, |g|) && Coloured(g, c) && RowColumns(g, c, row, rc)
    requires u < |c + rc| && !Top(c + rc, u)
    ensures !Unread(g + row, u)
  {
    hide Level;
    hide DoneBy;
    hide WellFormed;
    hide RowFits;
    var h, d := g + row, c + rc;
    var v :| u < v < |d| && d[v] == d[u];
    if u >= |c| {
      assert false;
    } else if !Top(c, u) {
      var r: nat :| r < |g| && g[r].Reads(u);
      assert h[r].Reads(u);
    } else {
      assert v >= |c|;
      FollowsTop(g, c, row, rc, v - |c|, u);
      assert h[v].Reads(u);
    }
  }

  // ---------- the four kinds of row ----------

  /** No node uses columns [cb, cb + w) yet. */
  ghost predicate Free(c: seq<nat>, cb: nat, w: nat) {
    forall u {:trigger c[u]} :: 0 <= u < |c| ==> !(cb <= c[u] < cb + w)
  }

  /** What a finished row leaves behind. */
  ghost predicate RowDone(h: Graph, d: seq<nat>, dim: nat, cb: nat)
    requires WellFormed(h)
  {
    && Coloured(h, d) && Pow2(dim) <= |h|
    && Tops(d, LastRow(h, dim), cb) && AllUnread(h, LastRow(h, dim))
  }

  lemma RowStep(g: Graph, c: seq<nat>, row: Graph, dim: nat, cb: nat)
    requires WellFormed(g) && RowFits(row, |g|) && Coloured(g, c) && |row| == Pow2(dim)
    requires RowReadsTops(c, row) && RowColumns(g, c, row, Ids(cb, Pow2(dim)))
    ensures WellFormed(g + row) && RowDone(g + row, c + Ids(cb, Pow2(dim)), dim, cb)
    ensures NewIn(c + Ids(cb, Pow2(dim)), |g|, cb, Pow2(dim))
  {
    hide Coloured;
    hide RowReadsTops;
    hide RowColumns;
    hide WellFormed;
    var rc := Ids(cb, Pow2(dim));
    RowKeeps(g, c, row, rc);
    ColouredSize(g, c);
    RowTops(g, c, row, dim, cb);
    RowUnread(g, row, dim);
  }

  lemma ColouredSize(g: Graph, c: seq<nat>)
    requires WellFormed(g) && Coloured(g, c)
    ensures |c| == |g|
  {
  }

  lemma RowTops(g: Graph, c: seq<nat>, row: Graph, dim: nat, cb: nat)
    requires |c| == |g| && |row| == Pow2(dim)
    ensures Tops(c + Ids(cb, Pow2(dim)), LastRow(g + row, dim), cb)
  {
    var d, ids := c + Ids(cb, Pow2(dim)), LastRow(g + row, dim);
    forall i | 0 <= i < Pow2(dim)
      ensures ids[i] < |d| && d[ids[i]] == cb + i && Top(d, ids[i])
    {
      assert ids[i] == |g| + i && d[|g| + i] == Ids(cb, Pow2(dim))[i];
      forall v | ids[i] < v < |d|
        ensures d[v] != d[ids[i]]
      {
        assert d[v] == Ids(cb, Pow2(dim))[v - |g|];
      }
    }
  }

  lemma RowUnread(g: Graph, row: Graph, dim: nat)
    requires WellFormed(g) && RowFits(row, |g|) && |row| == Pow2(dim)
    ensures AllUnread(g + row, LastRow(g + row, dim))
  {
    var h, ids := g + row, LastRow(g + row, dim);
    forall i, r | 0 <= i < Pow2(dim) && 0 <= r < |h|
      ensures !h[r].Reads(ids[i])
    {
      assert ids[i] == |g| + i;
      if r < |g| {
        assert Fits(g[r], r);
      } else {
        assert Fits(row[r - |g|], |g|);
      }
    }
  }

  /** Two newest nodes of one column are the same node. */
  lemma SameTop(c: seq<nat>, x: nat, y: nat)
    requires x < |c| && y < |c| && Top(c, x) && Top(c, y) && c[x] == c[y]
    ensures x == y
  {
  }

  /** A row takes over the columns of `ids` when node i reads ids[i] and its readers come at one level. */
  lemma TakesOver(g: Graph, c: seq<nat>, row: Graph, ids: seq<nat>, cb: nat)
    requires WellFormed(g) && RowFits(row, |g|) && |c| == |g| && |row| == |ids| && Tops(c, ids, cb)
    requires forall i {:trigger ids[i]} :: 0 <= i < |row| ==> Follows(g, row, i, ids[i])
    ensures RowColumns(g, c, row, Ids(cb, |row|))
  {
    hide Follows;
    hide RowFits;
    hide WellFormed;
    var rc := Ids(cb, |row|);
    forall i, u | 0 <= i < |rc| && 0 <= u < |c| && c[u] == rc[i] && Top(c, u)
      ensures Follows(g, row, i, u)
    {
      assert c[ids[i]] == cb + i == rc[i];
      SameTop(c, u, ids[i]);
    }
  }

  lemma TopAt(c: seq<nat>, ids: seq<nat>, cb: nat, i: nat)
    requires Tops(c, ids, cb) && i < |ids|
    ensures ids[i] < |c| && c[ids[i]] == cb + i && Top(c, ids[i])
  {
  }

  lemma UnaryReadsTops(c: seq<nat>, inputs: seq<nat>, cb: nat)
    requires Tops(c, inputs, cb)
    ensures RowReadsTops(c, UnaryRow(inputs))
  {
  }

  lemma UnaryFollows(g: Graph, c: seq<nat>, inputs: seq<nat>, cb: nat, i: nat)
    requires WellFormed(g) && Within(inputs, 0, |g|) && |c| == |g| && Tops(c, inputs, cb) && AllUnread(g, inputs)
    requires i < |inputs|
    ensures RowFits(UnaryRow(inputs), |g|) && Follows(g, UnaryRow(inputs), i, inputs[i])
  {
    var row := UnaryRow(inputs);
    UnaryFits(inputs, |g|);
    assert row[i] == One(inputs[i]) && Unread(g, inputs[i]);
  }

  lemma UnaryTakesOver(g: Graph, c: seq<nat>, inputs: seq<nat>, cb: nat)
    requires WellFormed(g) && Within(inputs, 0, |g|) && |c| == |g| && Tops(c, inputs, cb) && AllUnread(g, inputs)
    ensures RowFits(UnaryRow(inputs), |g|) && RowReadsTops(c, UnaryRow(inputs))
    ensures RowColumns(g, c, UnaryRow(inputs), Ids(cb, |inputs|))
  {
    hide Follows;
    hide Tops;
    hide AllUnread;
    var row := UnaryRow(inputs);
    UnaryFits(inputs, |g|);
    UnaryReadsTops(c, inputs, cb);
    forall i {:trigger inputs[i]} | 0 <= i < |row|
      ensures Follows(g, row, i, inputs[i])
    {
      UnaryFollows(g, c, inputs, cb, i);
    }
    TakesOver(g, c, row, inputs, cb);
  }

  lemma UnaryFresh(g: Graph, c: seq<nat>, inputs: seq<nat>, cb: nat, cb': nat)
    requires WellFormed(g) && Within(inputs, 0, |g|) && |c| == |g| && Tops(c, inputs, cb) && Free(c, cb', |inputs|)
    ensures RowFits(UnaryRow(inputs), |g|) && RowReadsTops(c, UnaryRow(inputs))
    ensures RowColumns(g, c, UnaryRow(inputs), Ids(cb', |inputs|))
  {
    UnaryFits(inputs, |g|);
    UnaryReadsTops(c, inputs, cb);
  }

  lemma CrossFollows(h: Graph, c: seq<nat>, dim: nat, b: nat, cb: nat, i: nat)
    requires WellFormed(h) && RowDone(h, c, dim, cb) && b < dim && i < Pow2(dim)
    ensures RowFits(CrossRow(LastRow(h, dim), dim, b), |h|)
    ensures Follows(h, CrossRow(LastRow(h, dim), dim, b), i, LastRow(h, dim)[i])
  {
    var prev := LastRow(h, dim);
    var row := CrossRow(prev, dim, b);
    CrossFits(h, dim, b);
    FlipInLayer(i, b, dim);
    assert row[i] == Pair(prev[i], prev[Flip(i, b)]);
    assert Unread(h, prev[i]);
    forall j | 0 <= j < |row| && row[j].Reads(prev[i])
      ensures NextLevel(h, row[j]) <= NextLevel(h, row[i])
    {
      FlipInLayer(j, b, dim);
      FlipLaws(j, b);
      assert row[j] == Pair(prev[j], prev[Flip(j, b)]);
      assert j == i || Flip(j, b) == i;
    }
  }

  lemma CrossTakesOver(h: Graph, c: seq<nat>, dim: nat, b: nat, cb: nat)
    requires WellFormed(h) && RowDone(h, c, dim, cb) && b < dim
    ensures RowFits(CrossRow(LastRow(h, dim), dim, b), |h|)
    ensures RowReadsTops(c, CrossRow(LastRow(h, dim), dim, b))
    ensures RowColumns(h, c, CrossRow(LastRow(h, dim), dim, b), Ids(cb, Pow2(dim)))
  {
    hide Follows;
    hide Coloured;
    hide WellFormed;
    hide AllUnread;
    hide RowFits;
    hide NextLevel;
    hide Flip;
    var prev := LastRow(h, dim);
    var row := CrossRow(prev, dim, b);
    CrossFits(h, dim, b);
    ColouredSize(h, c);
    forall i {:trigger prev[i]} | 0 <= i < |row|
      ensures Follows(h, row, i, prev[i])
    {
      CrossFollows(h, c, dim, b, cb, i);
    }
    TakesOver(h, c, row, prev, cb);
    forall j, y: nat | 0 <= j < |row| && row[j].Reads(y)
      ensures y < |c| && Top(c, y)
    {
      FlipInLayer(j, b, dim);
      TopAt(c, prev, cb, j);
      TopAt(c, prev, cb, Flip(j, b));
    }
  }

  lemma JoinFollows(g: Graph, c: seq<nat>, primary: seq<nat>, ingress: seq<nat>, cb0: nat, cb: nat, i: nat)
    requires WellFormed(g) && |primary| == |ingress| && |c| == |g| && RowFits(JoinRow(primary, ingress), |g|)
    requires Tops(c, primary, cb0) && Tops(c, ingress, cb) && cb0 + |primary| <= cb && AllUnread(g, ingress)
    requires i < |ingress|
    ensures Follows(g, JoinRow(primary, ingress), i, ingress[i])
  {
    var row := JoinRow(primary, ingress);
    assert row[i] == Pair(primary[i], ingress[i]) && Unread(g, ingress[i]);
    TopAt(c, ingress, cb, i);
    forall j | 0 <= j < |row| && row[j].Reads(ingress[i])
      ensures j == i
    {
      assert row[j] == Pair(primary[j], ingress[j]);
      TopAt(c, primary, cb0, j);
      TopAt(c, ingress, cb, j);
    }
  }

  lemma JoinTakesOver(g: Graph, c: seq<nat>, primary: seq<nat>, ingress: seq<nat>, cb0: nat, cb: nat)
    requires WellFormed(g) && |primary| == |ingress| && |c| == |g| && RowFits(JoinRow(primary, ingress), |g|)
    requires Tops(c, primary, cb0) && Tops(c, ingress, cb) && cb0 + |primary| <= cb && AllUnread(g, ingress)
    ensures RowReadsTops(c, JoinRow(primary, ingress))
    ensures RowColumns(g, c, JoinRow(primary, ingress), Ids(cb, |ingress|))
  {
    hide Follows;
    hide RowFits;
    hide WellFormed;
    var row := JoinRow(primary, ingress);
    forall i {:trigger ingress[i]} | 0 <= i < |row|
      ensures Follows(g, row, i, ingress[i])
    {
      JoinFollows(g, c, primary, ingress, cb0, cb, i);
    }
    TakesOver(g, c, row, ingress, cb);
    forall j, y: nat | 0 <= j < |row| && row[j].Reads(y)
      ensures y < |c| && Top(c, y)
    {
      assert row[j] == Pair(primary[j], ingress[j]);
      TopAt(c, primary, cb0, j);
      TopAt(c, ingress, cb, j);
    }
  }

  // ---------- components ----------

  /** `h`, `d` extend `g`, `c` by nodes in columns [cb, cb + w) that read only each other and `ids`. */
  ghost predicate Grown(g: Graph, c: seq<nat>, h: Graph, d: seq<nat>, ids: seq<nat>, cb: nat, w: nat) {
    g <= h && c <= d && |c| == |g| && |d| == |h| && NewIn(d, |g|, cb, w) && ReadsOnly(h, |g|, ids)
  }

  /** Every id of `front` is new since `from` or one of `ids`. */
  ghost predicate Covers(ids: seq<nat>, from: nat, front: seq<nat>) {
    forall i {:trigger front[i]} :: 0 <= i < |front| ==> front[i] >= from || front[i] in ids
  }

  lemma GrownTrans(g: Graph, c: seq<nat>, h: Graph, d: seq<nat>, k: Graph, e: seq<nat>,
                   ids: seq<nat>, ids1: seq<nat>, ids2: seq<nat>, cb: nat, w: nat, cb1: nat, w1: nat, cb2: nat, w2: nat)
    requires Grown(g, c, h, d, ids1, cb1, w1) && Grown(h, d, k, e, ids2, cb2, w2)
    requires Covers(ids, |g|, ids1) && Covers(ids, |g|, ids2)
    requires cb <= cb1 && cb1 + w1 <= cb + w && cb <= cb2 && cb2 + w2 <= cb + w
    ensures Grown(g, c, k, e, ids, cb, w)
  {
    forall v {:trigger e[v]} | |g| <= v < |e|
      ensures cb <= e[v] < cb + w
    {
      if v < |d| { assert e[v] == d[v]; }
    }
    forall v, y: nat | |g| <= v < |k| && k[v].Reads(y)
      ensures y >= |g| || y in ids
    {
      if v < |h| {
        assert k[v] == h[v] && h[v].Reads(y);
        if y in ids1 {
          var i :| 0 <= i < |ids1| && ids1[i] == y;
        }
      } else if y in ids2 {
        var i :| 0 <= i < |ids2| && ids2[i] == y;
      }
    }
  }

  lemma CoversItself(ids: seq<nat>, from: nat)
    ensures Covers(ids, from, ids)
  {
  }

  lemma CoversNew(ids: seq<nat>, from: nat, front: seq<nat>, hi: nat)
    requires Within(front, from, hi)
    ensures Covers(ids, from, front)
  {
  }

  /** Growth in other columns leaves the newest nodes of these columns newest. */
  lemma KeepTops(g: Graph, c: seq<nat>, h: Graph, d: seq<nat>, ids: seq<nat>, cb: nat, w: nat, tops: seq<nat>, cb0: nat)
    requires Grown(g, c, h, d, ids, cb, w) && Tops(c, tops, cb0) && (cb0 + |tops| <= cb || cb + w <= cb0)
    ensures Tops(d, tops, cb0)
  {
    forall i | 0 <= i < |tops|
      ensures tops[i] < |d| && d[tops[i]] == cb0 + i && Top(d, tops[i])
    {
      TopAt(c, tops, cb0, i);
      assert d[tops[i]] == c[tops[i]];
      forall v {:trigger d[v]} | tops[i] < v < |d|
        ensures d[v] != d[tops[i]]
      {
        if v < |c| { assert d[v] == c[v]; }
      }
    }
  }

  lemma KeepUnread(g: Graph, c: seq<nat>, h: Graph, d: seq<nat>, ids: seq<nat>, cb: nat, w: nat, unread: seq<nat>)
    requires Grown(g, c, h, d, ids, cb, w) && AllUnread(g, unread) && Within(unread, 0, |g|)
    requires forall i {:trigger unread[i]} :: 0 <= i < |unread| ==> unread[i] !in ids
    ensures AllUnread(h, unread)
  {
    forall i, r | 0 <= i < |unread| && 0 <= r < |h|
      ensures !h[r].Reads(unread[i])
    {
      if r < |g| {
        assert h[r] == g[r] && Unread(g, unread[i]);
      }
    }
  }

  lemma GrownRow(g: Graph, c: seq<nat>, row: Graph, rc: seq<nat>, ids: seq<nat>, cb: nat, w: nat)
    requires |c| == |g| && |rc| == |row| && NewIn(c + rc, |g|, cb, w)
    requires forall j, y: nat {:trigger row[j].Reads(y)} :: 0 <= j < |row| && row[j].Reads(y) ==> y in ids
    ensures Grown(g, c, g + row, c + rc, ids, cb, w)
  {
  }

  lemma GrownNone(g: Graph, c: seq<nat>, ids: seq<nat>, cb: nat, w: nat)
    requires |c| == |g|
    ensures Grown(g, c, g, c, ids, cb, w)
  {
  }

  lemma CrossReads(prev: seq<nat>, dim: nat, b: nat)
    requires |prev| == Pow2(dim) && b < dim
    ensures forall j, y: nat {:trigger CrossRow(prev, dim, b)[j].Reads(y)} ::
              0 <= j < |prev| && CrossRow(prev, dim, b)[j].Reads(y) ==> y in prev
  {
  }

  /** Address of column `o` of layer `j` when layer 0 starts at `at`. */
  function LayerId(at: nat, w: nat, j: nat, o: nat): nat {
    at + Layers(w, j) + o
  }

  /** The layers' nodes lie in their own columns. */
  ghost predicate LayerColours(d: seq<nat>, at: nat, w: nat, k: nat, cb: nat) {
    forall j: nat, o: nat {:trigger LayerId(at, w, j, o)} :: j <= k && o < w ==>
      LayerId(at, w, j, o) < |d| && d[LayerId(at, w, j, o)] == cb + o
  }

  lemma FirstLayer(g: Graph, c: seq<nat>, dim: nat, cb: nat)
    requires |c| == |g| && Pow2(dim) <= |g| && Tops(c, LastRow(g, dim), cb)
    ensures LayerColours(c, |g| - Pow2(dim), Pow2(dim), 0, cb)
  {
    var w := Pow2(dim);
    forall j: nat, o: nat {:trigger LayerId(|g| - w, w, j, o)} | j <= 0 && o < w
      ensures LayerId(|g| - w, w, j, o) < |c| && c[LayerId(|g| - w, w, j, o)] == cb + o
    {
      assert j == 0 && LayerId(|g| - w, w, 0, o) == LastRow(g, dim)[o];
      TopAt(c, LastRow(g, dim), cb, o);
    }
  }

  lemma NextLayer(d: seq<nat>, at: nat, w: nat, k: nat, cb: nat)
    requires LayerColours(d, at, w, k, cb) && |d| == at + Layers(w, k + 1)
    ensures LayerColours(d + Ids(cb, w), at, w, k + 1, cb)
  {
    var e := d + Ids(cb, w);
    forall j: nat, o: nat | j <= k + 1 && o < w
      ensures LayerId(at, w, j, o) < |e| && e[LayerId(at, w, j, o)] == cb + o
    {
      if j <= k {
        assert LayerId(at, w, j, o) < |d|;
      } else {
        assert e[LayerId(at, w, j, o)] == Ids(cb, w)[o];
      }
    }
  }

  lemma {:induction false} MixColumns(g: Graph, c: seq<nat>, dim: nat, k: nat, cb: nat) returns (d: seq<nat>)
    requires WellFormed(g) && RowDone(g, c, dim, cb) && k <= dim
    ensures WellFormed(Mix(g, dim, k)) && RowDone(Mix(g, dim, k), d, dim, cb)
    ensures Grown(g, c, Mix(g, dim, k), d, LastRow(g, dim), cb, Pow2(dim))
    ensures LayerColours(d, |g| - Pow2(dim), Pow2(dim), k, cb)
    decreases k
  {
    hide LayerColours;
    hide RowDone;
    hide Grown;
    hide WellFormed;
    hide RowFits;
    hide RowColumns;
    hide RowReadsTops;
    hide CrossRow;
    hide Covers;
    hide LastRow;
    RowDoneFacts(g, c, dim, cb);
    var ids := LastRow(g, dim);
    if k == 0 {
      d := c;
      FirstLayer(g, c, dim, cb);
      GrownNone(g, c, ids, cb, Pow2(dim));
    } else {
      var d' := MixColumns(g, c, dim, k - 1, cb);
      var h, b := Mix(g, dim, k - 1), dim - k;
      var row, rc := CrossRow(LastRow(h, dim), dim, b), Ids(cb, Pow2(dim));
      d := d' + rc;
      RowDoneFacts(h, d', dim, cb);
      CrossTakesOver(h, d', dim, b, cb);
      RowStep(h, d', row, dim, cb);
      NextLayer(d', |g| - Pow2(dim), Pow2(dim), k - 1, cb);
      CrossReads(LastRow(h, dim), dim, b);
      GrownRow(h, d', row, rc, LastRow(h, dim), cb, Pow2(dim));
      CoversItself(ids, |g|);
      if k > 1 {
        LastRowNew(g, h, dim);
        CoversNew(ids, |g|, LastRow(h, dim), |h|);
      }
      GrownTrans(g, c, h, d', h + row, d, ids, ids, LastRow(h, dim), cb, Pow2(dim), cb, Pow2(dim), cb, Pow2(dim));
    }
  }

  lemma RowDoneFacts(h: Graph, d: seq<nat>, dim: nat, cb: nat)
    requires WellFormed(h) && RowDone(h, d, dim, cb)
    ensures Coloured(h, d) && |d| == |h| && Pow2(dim) <= |h|
    ensures Tops(d, LastRow(h, dim), cb) && AllUnread(h, LastRow(h, dim))
  {
  }

  /** A first row over `ids`, then all crossing layers. */
  lemma FirstRowThenMix(g: Graph, c: seq<nat>, row: Graph, dim: nat, ids: seq<nat>, cb: nat) returns (d: seq<nat>)
    requires WellFormed(g) && Coloured(g, c) && |row| == Pow2(dim) && RowFits(row, |g|)
    requires RowReadsTops(c, row) && RowColumns(g, c, row, Ids(cb, Pow2(dim)))
    requires forall j, y: nat {:trigger row[j].Reads(y)} :: 0 <= j < |row| && row[j].Reads(y) ==> y in ids
    ensures WellFormed(Mix(g + row, dim, dim)) && RowDone(Mix(g + row, dim, dim), d, dim, cb)
    ensures Grown(g, c, Mix(g + row, dim, dim), d, ids, cb, Pow2(dim))
    ensures LayerColours(d, |g|, Pow2(dim), dim, cb)
  {
    hide LayerColours;
    hide RowDone;
    hide Grown;
    hide WellFormed;
    hide RowFits;
    hide RowColumns;
    hide RowReadsTops;
    hide Coloured;
    hide Mix;
    hide Covers;
    var rc := Ids(cb, Pow2(dim));
    var h, c' := g + row, c + rc;
    RowStep(g, c, row, dim, cb);
    ColouredSize(g, c);
    GrownRow(g, c, row, rc, ids, cb, Pow2(dim));
    d := MixColumns(h, c', dim, dim, cb);
    CoversItself(ids, |g|);
    LastRowNew(g, h, dim);
    CoversNew(ids, |g|, LastRow(h, dim), |h|);
    GrownTrans(g, c, h, c', Mix(h, dim, dim), d, ids, ids, LastRow(h, dim), cb, Pow2(dim), cb, Pow2(dim), cb,
               Pow2(dim));
  }

  lemma UnaryReads(inputs: seq<nat>)
    ensures forall j, y: nat {:trigger UnaryRow(inputs)[j].Reads(y)} ::
              0 <= j < |inputs| && UnaryRow(inputs)[j].Reads(y) ==> y in inputs
  {
    forall j, y: nat | 0 <= j < |inputs| && UnaryRow(inputs)[j].Reads(y)
      ensures y in inputs
    {
      assert y == inputs[j];
    }
  }

  lemma JoinReads(primary: seq<nat>, ingress: seq<nat>)
    requires |primary| == |ingress|
    ensures forall j, y: nat {:trigger JoinRow(primary, ingress)[j].Reads(y)} ::
              0 <= j < |primary| && JoinRow(primary, ingress)[j].Reads(y) ==> y in primary + ingress
  {
    var both := primary + ingress;
    forall j, y: nat | 0 <= j < |primary| && JoinRow(primary, ingress)[j].Reads(y)
      ensures y in both
    {
      assert JoinRow(primary, ingress)[j] == Pair(primary[j], ingress[j]);
      assert both[j] == primary[j] && both[|primary| + j] == ingress[j];
    }
  }

  lemma ConnectorColumns(g: Graph, c: seq<nat>, dim: nat, inputs: seq<nat>, cb: nat) returns (d: seq<nat>)
    requires |inputs| == Pow2(dim) && WellFormed(g) && Within(inputs, 0, |g|) && Coloured(g, c)
    requires Tops(c, inputs, cb) && AllUnread(g, inputs)
    ensures WellFormed(Connector(g, dim, inputs)) && RowDone(Connector(g, dim, inputs), d, dim, cb)
    ensures Grown(g, c, Connector(g, dim, inputs), d, inputs, cb, Pow2(dim))
  {
    hide RowDone;
    hide Grown;
    hide WellFormed;
    hide Coloured;
    hide Mix;
    hide RowFits;
    hide RowColumns;
    hide RowReadsTops;
    ColouredSize(g, c);
    UnaryTakesOver(g, c, inputs, cb);
    UnaryReads(inputs);
    d := FirstRowThenMix(g, c, UnaryRow(inputs), dim, inputs, cb);
  }

  lemma FreshConnectorColumns(g: Graph, c: seq<nat>, dim: nat, inputs: seq<nat>, cb: nat, cb': nat)
    returns (d: seq<nat>)
    requires |inputs| == Pow2(dim) && WellFormed(g) && Within(inputs, 0, |g|) && Coloured(g, c)
    requires Tops(c, inputs, cb) && Free(c, cb', Pow2(dim))
    ensures WellFormed(Connector(g, dim, inputs)) && RowDone(Connector(g, dim, inputs), d, dim, cb')
    ensures Grown(g, c, Connector(g, dim, inputs), d, inputs, cb', Pow2(dim))
    ensures LayerColours(d, |g|, Pow2(dim), dim, cb')
  {
    hide LayerColours;
    hide RowDone;
    hide Grown;
    hide WellFormed;
    hide Coloured;
    hide Mix;
    hide RowFits;
    hide RowColumns;
    hide RowReadsTops;
    ColouredSize(g, c);
    UnaryFresh(g, c, inputs, cb, cb');
    UnaryReads(inputs);
    d := FirstRowThenMix(g, c, UnaryRow(inputs), dim, inputs, cb');
  }

  lemma NotAmong(c: seq<nat>, ids: seq<nat>, cb: nat, others: seq<nat>, cb': nat)
    requires Tops(c, ids, cb) && Tops(c, others, cb') && (cb + |ids| <= cb' || cb' + |others| <= cb)
    ensures forall i {:trigger ids[i]} :: 0 <= i < |ids| ==> ids[i] !in others
  {
    forall i | 0 <= i < |ids|
      ensures ids[i] !in others
    {
      TopAt(c, ids, cb, i);
    }
  }

  lemma MergedColumns(g: Graph, c: seq<nat>, dim: nat, primary: seq<nat>, ingress: seq<nat>, cb0: nat, cb: nat)
    returns (d: seq<nat>)
    requires |primary| == |ingress| == Pow2(dim) && WellFormed(g) && Coloured(g, c)
    requires Within(primary, 0, |g|) && Within(ingress, 0, |g|)
    requires Tops(c, primary, cb0) && Tops(c, ingress, cb) && cb0 + Pow2(dim) <= cb && AllUnread(g, ingress)
    ensures WellFormed(Merged(g, dim, primary, ingress)) && RowDone(Merged(g, dim, primary, ingress), d, dim, cb)
    ensures Grown(g, c, Merged(g, dim, primary, ingress), d, primary + ingress, cb, Pow2(dim))
  {
    hide RowDone;
    hide Grown;
    hide WellFormed;
    hide Coloured;
    hide Mix;
    hide RowFits;
    hide RowColumns;
    hide RowReadsTops;
    hide Connector;
    hide Covers;
    hide Tops;
    hide AllUnread;
    var w := Pow2(dim);
    var a := Connector(g, dim, ingress);
    var d' := ConnectorColumns(g, c, dim, ingress, cb);
    RowDoneFacts(a, d', dim, cb);
    KeepTops(g, c, a, d', ingress, cb, w, primary, cb0);
    LastRowNew(g, a, dim);
    JoinFits(primary, LastRow(a, dim), |g|, |a|);
    JoinTakesOver(a, d', primary, LastRow(a, dim), cb0, cb);
    JoinReads(primary, LastRow(a, dim));
    var row := JoinRow(primary, LastRow(a, dim));
    d := FirstRowThenMix(a, d', row, dim, primary + LastRow(a, dim), cb);
    MergedCovers(primary, ingress, LastRow(a, dim), |g|, |a|);
    GrownTrans(g, c, a, d', Mix(a + row, dim, dim), d, primary + ingress, ingress, primary + LastRow(a, dim), cb, w,
               cb, w, cb, w);
  }

  lemma MergedCovers(primary: seq<nat>, ingress: seq<nat>, mid: seq<nat>, from: nat, hi: nat)
    requires Within(mid, from, hi)
    ensures Covers(primary + ingress, from, ingress) && Covers(primary + ingress, from, primary + mid)
  {
    var ids, front := primary + ingress, primary + mid;
    forall i | 0 <= i < |ingress|
      ensures ingress[i] in ids
    {
      assert ids[|primary| + i] == ingress[i];
    }
    forall i | 0 <= i < |front|
      ensures front[i] >= from || front[i] in ids
    {
      if i < |primary| {
        assert front[i] == primary[i] == ids[i];
      } else {
        assert front[i] == mid[i - |primary|];
      }
    }
  }

  lemma SliceTops(g: Graph, c: seq<nat>, ids: seq<nat>, k: nat, cb: nat)
    requires Tops(c, ids, cb) && AllUnread(g, ids) && k <= |ids|
    ensures Tops(c, ids[..k], cb) && AllUnread(g, ids[..k])
    ensures Tops(c, ids[k..], cb + k) && AllUnread(g, ids[k..])
  {
    var back := ids[k..];
    assert forall i {:trigger back[i]} :: 0 <= i < |back| ==> back[i] == ids[k + i];
  }

  lemma ConcatTops(c: seq<nat>, front: seq<nat>, back: seq<nat>, cb: nat)
    requires Tops(c, front, cb) && Tops(c, back, cb + |front|)
    ensures Tops(c, front + back, cb)
  {
    var ids := front + back;
    forall i {:trigger ids[i]} | 0 <= i < |ids|
      ensures ids[i] < |c| && c[ids[i]] == cb + i && Top(c, ids[i])
    {
      if i < |front| { TopAt(c, front, cb, i); } else { TopAt(c, back, cb + |front|, i - |front|); }
    }
  }

  lemma {:induction false} ConnectedColumns(g: Graph, c: seq<nat>, level: nat, inputs: seq<nat>, cb: nat)
    returns (d: seq<nat>)
    requires |inputs| == Pow2(level) && WellFormed(g) && Within(inputs, 0, |g|) && Coloured(g, c)
    requires Tops(c, inputs, cb) && AllUnread(g, inputs)
    ensures WellFormed(Connected(g, level, inputs).g) && Coloured(Connected(g, level, inputs).g, d)
    ensures Grown(g, c, Connected(g, level, inputs).g, d, inputs, cb, Pow2(level))
    ensures Tops(d, Connected(g, level, inputs).base, cb)
    decreases level, 0
  {
    hide Connected;
    hide Merged;
    hide WellFormed;
    hide Coloured;
    hide Grown;
    if level == 0 {
      d := LeafColumns(g, c, inputs, cb);
    } else {
      ConnectedUnfold(g, level - 1, inputs);
      d := ConnectedHalvesColumns(g, c, level - 1, inputs, cb);
    }
  }

  lemma LeafColumns(g: Graph, c: seq<nat>, inputs: seq<nat>, cb: nat) returns (d: seq<nat>)
    requires |inputs| == 1 && WellFormed(g) && Within(inputs, 0, |g|) && Coloured(g, c)
    requires Tops(c, inputs, cb) && AllUnread(g, inputs)
    ensures WellFormed(Connected(g, 0, inputs).g) && Coloured(Connected(g, 0, inputs).g, d)
    ensures Grown(g, c, Connected(g, 0, inputs).g, d, inputs, cb, 1)
    ensures Tops(d, Connected(g, 0, inputs).base, cb)
  {
    hide WellFormed;
    hide Coloured;
    hide Grown;
    hide RowColumns;
    hide RowReadsTops;
    hide RowFits;
    var row, rc := UnaryRow(inputs), Ids(cb, 1);
    ConnectedLeaf(g, inputs);
    assert row == [One(inputs[0])];
    ColouredSize(g, c);
    UnaryTakesOver(g, c, inputs, cb);
    RowStep(g, c, row, 0, cb);
    UnaryReads(inputs);
    d := c + rc;
    GrownRow(g, c, row, rc, inputs, cb, 1);
    RowDoneFacts(g + row, d, 0, cb);
    assert LastRow(g + row, 0) == [|g|];
  }

  lemma {:induction false} ConnectedHalvesColumns(g: Graph, c: seq<nat>, k: nat, inputs: seq<nat>, cb: nat)
    returns (d: seq<nat>)
    requires |inputs| == Pow2(k + 1) && WellFormed(g) && Within(inputs, 0, |g|) && Coloured(g, c)
    requires Tops(c, inputs, cb) && AllUnread(g, inputs)
    ensures var left := Connected(g, k, inputs[..Pow2(k)]);
            var center := Merged(left.g, k, left.base, inputs[Pow2(k)..]);
            var right := Connected(center, k, LastRow(center, k));
            && WellFormed(right.g) && Coloured(right.g, d)
            && Grown(g, c, right.g, d, inputs, cb, 2 * Pow2(k))
            && Tops(d, left.base + right.base, cb)
    decreases k, 1
  {
    hide Connected;
    hide Merged;
    hide WellFormed;
    hide Coloured;
    hide Grown;
    hide Tops;
    hide AllUnread;
    hide Covers;
    hide Within;
    var half := Pow2(k);
    var front, back := inputs[..half], inputs[half..];
    WithinSlices(inputs, half, 0, |g|, |g|);
    SliceTops(g, c, inputs, half, cb);
    ColouredSize(g, c);
    var left := Connected(g, k, front);
    var d1 := ConnectedColumns(g, c, k, front, cb);
    ConnectedBase(g, k, front);
    KeepTops(g, c, left.g, d1, front, cb, half, back, cb + half);
    NotAmong(c, back, cb + half, front, cb);
    KeepUnread(g, c, left.g, d1, front, cb, half, back);
    WithinLoosen(back, 0, |g|, 0, |left.g|);
    WithinLoosen(left.base, |g|, |left.g|, 0, |left.g|);
    var center := Merged(left.g, k, left.base, back);
    var d2 := MergedColumns(left.g, d1, k, left.base, back, cb, cb + half);
    RowDoneFacts(center, d2, k, cb + half);
    LastRowWithin(center, k);
    KeepTops(left.g, d1, center, d2, left.base + back, cb + half, half, left.base, cb);
    var right := Connected(center, k, LastRow(center, k));
    d := ConnectedColumns(center, d2, k, LastRow(center, k), cb + half);
    KeepTops(center, d2, right.g, d, LastRow(center, k), cb + half, half, left.base, cb);
    ConcatTops(d, left.base, right.base, cb);
    HalvesCover(inputs, half, left.base, LastRow(center, k), |g|, |left.g|, |center|);
    LastRowNew(g, center, k);
    CoversNew(inputs, |g|, LastRow(center, k), |center|);
    GrownTrans(g, c, left.g, d1, center, d2, inputs, front, left.base + back, cb, 2 * half, cb, half, cb + half, half);
    CoversItself(inputs, |g|);
    GrownTrans(g, c, center, d2, right.g, d, inputs, inputs, LastRow(center, k), cb, 2 * half, cb, 2 * half,
               cb + half, half);
  }

  lemma HalvesCover(inputs: seq<nat>, half: nat, base: seq<nat>, last: seq<nat>, from: nat, mid: nat, hi: nat)
    requires half <= |inputs| && Within(base, from, mid)
    ensures Covers(inputs, from, inputs[..half]) && Covers(inputs, from, base + inputs[half..])
  {
    var front := base + inputs[half..];
    forall i | 0 <= i < |front|
      ensures front[i] >= from || front[i] in inputs
    {
      if i >= |base| { assert front[i] == inputs[half + (i - |base|)]; }
    }
  }

  lemma StillFree(g: Graph, c: seq<nat>, h: Graph, d: seq<nat>, ids: seq<nat>, cb: nat, w: nat, cb': nat, w': nat)
    requires Grown(g, c, h, d, ids, cb, w) && Free(c, cb', w') && cb + w <= cb'
    ensures Free(d, cb', w')
  {
    forall u {:trigger d[u]} | 0 <= u < |d|
      ensures !(cb' <= d[u] < cb' + w')
    {
      if u < |c| { assert d[u] == c[u]; }
    }
  }

  lemma {:induction false} StandaloneColumns(g: Graph, c: seq<nat>, level: nat, cb: nat) returns (d: seq<nat>)
    requires WellFormed(g) && Coloured(g, c) && Free(c, cb, Pow2(level))
    ensures WellFormed(Standalone(g, level).g) && Coloured(Standalone(g, level).g, d)
    ensures Grown(g, c, Standalone(g, level).g, d, [], cb, Pow2(level))
    ensures Tops(d, Standalone(g, level).base, cb)
    decreases level
  {
    hide Extend;
    hide WellFormed;
    hide Coloured;
    hide Grown;
    hide Free;
    hide Tops;
    hide Covers;
    if level == 0 {
      d := SourceColumn(g, c, cb);
    } else {
      var k := level - 1;
      var left := Standalone(g, k);
      FreeParts(c, cb, Pow2(k));
      var d1 := StandaloneColumns(g, c, k, cb);
      StandaloneBase(g, k);
      WithinLoosen(left.base, |g|, |left.g|, 0, |left.g|);
      ColouredSize(g, c);
      StillFree(g, c, left.g, d1, [], cb, Pow2(k), cb + Pow2(k), Pow2(k));
      d := ExtendColumns(left, d1, k, cb);
      CoversItself([], |g|);
      CoversNew([], |g|, left.base, |left.g|);
      GrownTrans(g, c, left.g, d1, Extend(left, k).g, d, [], [], left.base, cb, 2 * Pow2(k), cb, Pow2(k),
                 cb + Pow2(k), Pow2(k));
    }
  }

  lemma FreeParts(c: seq<nat>, cb: nat, w: nat)
    requires Free(c, cb, 2 * w)
    ensures Free(c, cb, w) && Free(c, cb + w, w)
  {
  }

  lemma SourceColumn(g: Graph, c: seq<nat>, cb: nat) returns (d: seq<nat>)
    requires WellFormed(g) && Coloured(g, c) && Free(c, cb, 1)
    ensures WellFormed(Standalone(g, 0).g) && Coloured(Standalone(g, 0).g, d)
    ensures Grown(g, c, Standalone(g, 0).g, d, [], cb, 1)
    ensures Tops(d, Standalone(g, 0).base, cb)
  {
    hide Coloured;
    ColouredSize(g, c);
    var row, rc := [Source], Ids(cb, 1);
    assert RowColumns(g, c, row, rc);
    RowStep(g, c, row, 0, cb);
    d := c + rc;
    RowDoneFacts(g + row, d, 0, cb);
    assert LastRow(g + row, 0) == [|g|];
    GrownRow(g, c, row, rc, [], cb, 1);
  }

  lemma KeepColours(g: Graph, c: seq<nat>, h: Graph, d: seq<nat>, ids: seq<nat>, cb: nat, w: nat, at: nat, k: nat)
    requires Grown(g, c, h, d, ids, cb, w) && LayerColours(c, at, w, k, cb)
    ensures LayerColours(d, at, w, k, cb)
  {
    forall j: nat, o: nat | j <= k && o < w
      ensures LayerId(at, w, j, o) < |d| && d[LayerId(at, w, j, o)] == cb + o
    {
      assert c[LayerId(at, w, j, o)] == cb + o;
    }
  }

  lemma GrownReads(g: Graph, c: seq<nat>, h: Graph, d: seq<nat>, ids: seq<nat>, cb: nat, w: nat)
    requires Grown(g, c, h, d, ids, cb, w)
    ensures |c| == |g| && |d| == |h| && NewIn(d, |g|, cb, w) && ReadsOnly(h, |g|, ids)
  {
  }

  lemma ExtendColumns(left: Emission, c: seq<nat>, k: nat, cb: nat) returns (d: seq<nat>)
    requires |left.base| == Pow2(k) && WellFormed(left.g) && Coloured(left.g, c) && Within(left.base, 0, |left.g|)
    requires Tops(c, left.base, cb) && Free(c, cb + Pow2(k), Pow2(k))
    ensures WellFormed(Extend(left, k).g) && Coloured(Extend(left, k).g, d)
    ensures Grown(left.g, c, Extend(left, k).g, d, left.base, cb + Pow2(k), Pow2(k))
    ensures Tops(d, Extend(left, k).base, cb)
    ensures LayerColours(d, |left.g|, Pow2(k), k, cb + Pow2(k))
    ensures ReadsOnly(Extend(left, k).g, |Connector(left.g, k, left.base)|, LastRow(Connector(left.g, k, left.base), k))
  {
    hide LayerColours;
    hide Connector;
    hide Connected;
    hide WellFormed;
    hide Coloured;
    hide Grown;
    hide Tops;
    hide AllUnread;
    hide Free;
    hide Covers;
    hide RowDone;
    var half := Pow2(k);
    ColouredSize(left.g, c);
    ExtendUnfold(left, k);
    var center := Connector(left.g, k, left.base);
    var d1 := FreshConnectorColumns(left.g, c, k, left.base, cb, cb + half);
    RowDoneFacts(center, d1, k, cb + half);
    LastRowWithin(center, k);
    KeepTops(left.g, c, center, d1, left.base, cb + half, half, left.base, cb);
    var right := Connected(center, k, LastRow(center, k));
    d := ConnectedColumns(center, d1, k, LastRow(center, k), cb + half);
    KeepTops(center, d1, right.g, d, LastRow(center, k), cb + half, half, left.base, cb);
    KeepColours(center, d1, right.g, d, LastRow(center, k), cb + half, half, |left.g|, k);
    ConcatTops(d, left.base, right.base, cb);
    GrownReads(center, d1, right.g, d, LastRow(center, k), cb + half, half);
    CoversItself(left.base, |left.g|);
    LastRowNew(left.g, center, k);
    CoversNew(left.base, |left.g|, LastRow(center, k), |center|);
    GrownTrans(left.g, c, center, d1, right.g, d, left.base, left.base, LastRow(center, k),
               cb + half, half, cb + half, half, cb + half, half);
  }
}
