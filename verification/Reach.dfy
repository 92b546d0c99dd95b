/** Depth robustness of the construction: who depends on whom, and how deep. */
module Reach {
  import opened Bits
  import opened Dag
  import opened Levels
  import opened Chunk

  /** Column `i` of the last row. */
  function LastAt(g: Graph, dim: nat, i: nat): nat
    requires Pow2(dim) <= |g| && i < Pow2(dim)
  {
    |g| - Pow2(dim) + i
  }

  /** The node that crossing layer k + 1 puts into column `o` reads columns o and o ^ bit of the layer before. */
  lemma MixNode(g: Graph, dim: nat, k: nat, o: nat)
    requires k < dim && Pow2(dim) <= |g| && o < Pow2(dim)
    ensures |Mix(g, dim, k + 1)| == |Mix(g, dim, k)| + Pow2(dim)
    ensures Flip(o, dim - k - 1) < Pow2(dim)
    ensures Mix(g, dim, k + 1)[LastAt(Mix(g, dim, k + 1), dim, o)]
         == Pair(LastAt(Mix(g, dim, k), dim, o), LastAt(Mix(g, dim, k), dim, Flip(o, dim - k - 1)))
    ensures Mix(g, dim, k) <= Mix(g, dim, k + 1)
  {
    hide CrossRow;
    hide LastRow;
    hide Flip;
    hide Pair;
    FlipInLayer(o, dim - k - 1, dim);
    CrossNode(Mix(g, dim, k), dim, dim - k - 1, o);
  }

  lemma CrossNode(h: Graph, dim: nat, b: nat, o: nat)
    requires b < dim && Pow2(dim) <= |h| && o < Pow2(dim)
    ensures Flip(o, b) < Pow2(dim)
    ensures (h + CrossRow(LastRow(h, dim), dim, b))[|h| + o] == Pair(LastAt(h, dim, o), LastAt(h, dim, Flip(o, b)))
  {
    FlipInLayer(o, b, dim);
    assert CrossRow(LastRow(h, dim), dim, b)[o] == Pair(LastRow(h, dim)[o], LastRow(h, dim)[Flip(o, b)]);
  }

  /** After k layers a column depends on every starting column that agrees with it on the bits still to come. */
  lemma {:induction false} MixReach(g: Graph, dim: nat, k: nat, i: nat, o: nat)
    requires k <= dim && Pow2(dim) <= |g| && WellFormed(g) && i < Pow2(dim) && o < Pow2(dim)
    requires Agree(i, o, dim - k)
    ensures WellFormed(Mix(g, dim, k))
    ensures var a, b := LastAt(g, dim, i), LastAt(Mix(g, dim, k), dim, o);
            a == b || Ancestor(Mix(g, dim, k), a, b)
    decreases k
  {
    hide Mix;
    hide Ancestor;
    hide Level;
    hide Paths;
    hide Agree;
    hide Flip;
    hide WellFormed;
    MixWellFormed(g, dim, k);
    if k == 0 {
      AgreeAll(i, o, dim);
      MixZero(g, dim);
    } else {
      MixNode(g, dim, k - 1, o);
      MixWellFormed(g, dim, k - 1);
      AgreeOrFlip(i, o, dim - k);
      var o' := if Agree(i, o, dim - k + 1) then o else Flip(o, dim - k);
      MixReach(g, dim, k - 1, i, o');
      var h, r := Mix(g, dim, k - 1), Mix(g, dim, k);
      PairStep(h, r, LastAt(g, dim, i), LastAt(h, dim, o), LastAt(h, dim, Flip(o, dim - k)), LastAt(r, dim, o));
    }
  }

  lemma MixZero(g: Graph, dim: nat)
    requires Pow2(dim) <= |g|
    ensures Mix(g, dim, 0) == g
  {
  }

  /** The starting row itself reads only nodes older than the row. */
  predicate RowIsNew(g: Graph, dim: nat)
    requires Pow2(dim) <= |g|
  {
    RowFits(g[|g| - Pow2(dim)..], |g| - Pow2(dim))
  }

  /** After k layers there is exactly one path from a starting column that still agrees, and none from the others. */
  lemma {:induction false} MixPaths(g: Graph, dim: nat, k: nat, i: nat, o: nat)
    requires k <= dim && Pow2(dim) <= |g| && WellFormed(g) && RowIsNew(g, dim) && i < Pow2(dim) && o < Pow2(dim)
    ensures WellFormed(Mix(g, dim, k))
    ensures Paths(Mix(g, dim, k), LastAt(g, dim, i), LastAt(Mix(g, dim, k), dim, o))
         == (if Agree(i, o, dim - k) then 1 else 0)
    decreases k
  {
    hide Mix;
    hide Ancestor;
    hide Level;
    hide Paths;
    hide Agree;
    hide Flip;
    hide WellFormed;
    MixWellFormed(g, dim, k);
    if k == 0 {
      AgreeAll(i, o, dim);
      MixZero(g, dim);
      RowPaths(g, dim, i, o);
    } else {
      MixNode(g, dim, k - 1, o);
      MixWellFormed(g, dim, k - 1);
      var b := dim - k;
      AgreeExclusive(i, o, b);
      if Agree(i, o, b) { AgreeOrFlip(i, o, b); }
      var h, r, a := Mix(g, dim, k - 1), Mix(g, dim, k), LastAt(g, dim, i);
      MixPaths(g, dim, k - 1, i, o);
      MixPaths(g, dim, k - 1, i, Flip(o, b));
      PairStep(h, r, a, LastAt(h, dim, o), LastAt(h, dim, Flip(o, b)), LastAt(r, dim, o));
    }
  }

  lemma RowPaths(g: Graph, dim: nat, i: nat, o: nat)
    requires Pow2(dim) <= |g| && WellFormed(g) && RowIsNew(g, dim) && i < Pow2(dim) && o < Pow2(dim)
    ensures Paths(g, LastAt(g, dim, i), LastAt(g, dim, o)) == (if i == o then 1 else 0)
  {
    var a, b := LastAt(g, dim, i), LastAt(g, dim, o);
    if a != b {
      assert g[|g| - Pow2(dim)..][o] == g[b];
      match g[b]
      case Source =>
      case One(p) => NoPathBack(g, a, p);
      case Two(p, q) => NoPathBack(g, a, p); NoPathBack(g, a, q);
    }
  }

  /** Columns that agree on the bits still to come sit at one level, whatever the starting levels. */
  lemma {:induction false} MixLevels(g: Graph, dim: nat, k: nat, o: nat, o': nat)
    requires k <= dim && Pow2(dim) <= |g| && WellFormed(g) && o < Pow2(dim) && o' < Pow2(dim)
    requires Agree(o, o', dim - k)
    ensures WellFormed(Mix(g, dim, k))
    ensures Level(Mix(g, dim, k), LastAt(Mix(g, dim, k), dim, o))
              == Level(Mix(g, dim, k), LastAt(Mix(g, dim, k), dim, o'))
    decreases k
  {
    hide Mix;
    hide Level;
    hide Agree;
    hide Flip;
    hide WellFormed;
    MixWellFormed(g, dim, k);
    if k == 0 {
      AgreeAll(o, o', dim);
    } else {
      var b := dim - k;
      FlipInLayer(o, b, dim);
      FlipInLayer(o', b, dim);
      FlipLaws(o', b);
      AgreeOrFlip(o, o', b);
      var straight := Agree(o, o', b + 1);
      var x := if straight then o' else Flip(o', b);
      var y := if straight then Flip(o', b) else o';
      AgreeFlipBoth(o, x, b);
      MixLevels(g, dim, k - 1, o, x);
      MixLevels(g, dim, k - 1, Flip(o, b), y);
      NodeLevel(g, dim, k - 1, o);
      NodeLevel(g, dim, k - 1, o');
    }
  }

  lemma NodeLevel(g: Graph, dim: nat, k: nat, o: nat)
    requires k < dim && Pow2(dim) <= |g| && WellFormed(g) && o < Pow2(dim)
    ensures Flip(o, dim - k - 1) < Pow2(dim) && WellFormed(Mix(g, dim, k)) && WellFormed(Mix(g, dim, k + 1))
    ensures Level(Mix(g, dim, k + 1), LastAt(Mix(g, dim, k + 1), dim, o))
         == Max(Level(Mix(g, dim, k), LastAt(Mix(g, dim, k), dim, o)),
                Level(Mix(g, dim, k), LastAt(Mix(g, dim, k), dim, Flip(o, dim - k - 1)))) + 1
  {
    hide Mix;
    hide Level;
    hide Flip;
    hide WellFormed;
    MixNode(g, dim, k, o);
    MixWellFormed(g, dim, k);
    MixWellFormed(g, dim, k + 1);
    var h, r := Mix(g, dim, k), Mix(g, dim, k + 1);
    PairStep(h, r, 0, LastAt(h, dim, o), LastAt(h, dim, Flip(o, dim - k - 1)), LastAt(r, dim, o));
  }

  /** The row a connector starts from, and what grows on top of it. */
  lemma UnaryStart(g: Graph, dim: nat, inputs: seq<nat>)
    requires |inputs| == Pow2(dim) && WellFormed(g) && Within(inputs, 0, |g|)
    ensures var g0 := g + UnaryRow(inputs);
            WellFormed(g0) && RowIsNew(g0, dim) && Connector(g, dim, inputs) == Mix(g0, dim, dim)
  {
    hide Mix;
    UnaryFits(inputs, |g|);
    AppendRow(g, UnaryRow(inputs));
    var g0 := g + UnaryRow(inputs);
    assert g0[|g0| - Pow2(dim)..] == UnaryRow(inputs);
  }

  /** In an emitted connector exactly one path leads from the layer-0 node of column i to output o, and all outputs
      sit at one level. */
  lemma ConnectorPaths(g: Graph, dim: nat, inputs: seq<nat>, i: nat, o: nat, o': nat)
    requires |inputs| == Pow2(dim) && WellFormed(g) && Within(inputs, 0, |g|)
    requires i < Pow2(dim) && o < Pow2(dim) && o' < Pow2(dim)
    ensures var r := Connector(g, dim, inputs);
            WellFormed(r) && Paths(r, |g| + i, LastAt(r, dim, o)) == 1
              && Level(r, LastAt(r, dim, o)) == Level(r, LastAt(r, dim, o'))
  {
    hide Mix;
    hide Connector;
    hide Level;
    hide Paths;
    UnaryStart(g, dim, inputs);
    var g0 := g + UnaryRow(inputs);
    MixPaths(g0, dim, dim, i, o);
    MixLevels(g0, dim, dim, o, o');
    assert Agree(i, o, 0) && Agree(o, o', 0);
  }

  lemma JoinStart(g: Graph, dim: nat, primary: seq<nat>, ingress: seq<nat>)
    requires |primary| == |ingress| == Pow2(dim) && WellFormed(g) && Within(primary, 0, |g|) && Within(ingress, 0, |g|)
    ensures var a := Connector(g, dim, ingress);
            var b := a + JoinRow(primary, LastRow(a, dim));
            && WellFormed(a) && WellFormed(b) && RowIsNew(b, dim)
            && WellFormed(Merged(g, dim, primary, ingress)) && Merged(g, dim, primary, ingress) == Mix(b, dim, dim)
              && a <= b
  {
    hide Mix;
    hide Connector;
    ConnectorWellFormed(g, dim, ingress);
    MergedWellFormed(g, dim, primary, ingress);
    var a := Connector(g, dim, ingress);
    var row := JoinRow(primary, LastRow(a, dim));
    LastRowNew(g, a, dim);
    JoinFits(primary, LastRow(a, dim), |g|, |a|);
    AppendRow(a, row);
    assert (a + row)[|a + row| - Pow2(dim)..] == row;
  }

  /** The same for both halves of the merged butterflies: the ingress butterfly, whose outputs come right before the
      center's layer 0, and the center butterfly. */
  lemma MergedPaths(g: Graph, dim: nat, primary: seq<nat>, ingress: seq<nat>, i: nat, o: nat, o': nat)
    requires |primary| == |ingress| == Pow2(dim) && WellFormed(g)
    requires Within(primary, 0, |g|) && Within(ingress, 0, |g|) && i < Pow2(dim) && o < Pow2(dim) && o' < Pow2(dim)
    ensures var r, mid, w := Merged(g, dim, primary, ingress), |g| + ButterflyCount(dim), Pow2(dim);
            && WellFormed(r)
            && Paths(r, |g| + i, mid - w + o) == 1 && Level(r, mid - w + o) == Level(r, mid - w + o')
            && Paths(r, mid + i, LastAt(r, dim, o)) == 1 && Level(r, LastAt(r, dim, o)) == Level(r, LastAt(r, dim, o'))
  {
    hide Mix;
    hide Connector;
    hide Merged;
    hide Level;
    hide Paths;
    hide ButterflyCount;
    JoinStart(g, dim, primary, ingress);
    var a, r := Connector(g, dim, ingress), Merged(g, dim, primary, ingress);
    var b := a + JoinRow(primary, LastRow(a, dim));
    ConnectorPaths(g, dim, ingress, i, o, o');
    PathsGrow(a, r, |g| + i, LastAt(a, dim, o));
    LevelGrow(a, r, LastAt(a, dim, o));
    LevelGrow(a, r, LastAt(a, dim, o'));
    MixPaths(b, dim, dim, i, o);
    MixLevels(b, dim, dim, o, o');
    assert Agree(i, o, 0) && Agree(o, o', 0);
    assert LastAt(b, dim, i) == |a| + i;
  }

  /** Every output of a connector depends on every input. */
  lemma ConnectorReach(g: Graph, dim: nat, inputs: seq<nat>, i: nat, o: nat)
    requires |inputs| == Pow2(dim) && WellFormed(g) && Within(inputs, 0, |g|) && i < Pow2(dim) && o < Pow2(dim)
    ensures WellFormed(Connector(g, dim, inputs))
    ensures Ancestor(Connector(g, dim, inputs), inputs[i], LastAt(Connector(g, dim, inputs), dim, o))
  {
    hide Mix;
    hide Ancestor;
    hide WellFormed;
    hide Fits;
    var g0 := g + UnaryRow(inputs);
    UnaryFits(inputs, |g|);
    AppendRow(g, UnaryRow(inputs));
    MixWellFormed(g0, dim, dim);
    assert g0[LastAt(g0, dim, i)] == One(inputs[i]);
    UnaryStep(g, g0, inputs[i], inputs[i], LastAt(g0, dim, i));
    MixReach(g0, dim, dim, i, o);
    AncestorVia(g0, Mix(g0, dim, dim), inputs[i], LastAt(g0, dim, i), LastAt(Mix(g0, dim, dim), dim, o));
  }

  lemma AncestorVia(g: Graph, r: Graph, a: nat, b: nat, c: nat)
    requires WellFormed(g) && WellFormed(r) && g <= r && b < |g| && c < |r|
    requires Ancestor(g, a, b) && (b == c || Ancestor(r, b, c))
    ensures Ancestor(r, a, c)
  {
    AncestorGrow(g, r, a, b);
    if b != c {
      AncestorTrans(r, a, b, c);
    }
  }

  /** Every output of the merged butterflies depends on every primary and every ingress input. */
  lemma MergedReach(g: Graph, dim: nat, primary: seq<nat>, ingress: seq<nat>, i: nat, o: nat)
    requires |primary| == |ingress| == Pow2(dim) && WellFormed(g)
    requires Within(primary, 0, |g|) && Within(ingress, 0, |g|) && i < Pow2(dim) && o < Pow2(dim)
    ensures WellFormed(Merged(g, dim, primary, ingress))
    ensures Ancestor(Merged(g, dim, primary, ingress), primary[i], LastAt(Merged(g, dim, primary, ingress), dim, o))
    ensures Ancestor(Merged(g, dim, primary, ingress), ingress[i], LastAt(Merged(g, dim, primary, ingress), dim, o))
  {
    hide Mix;
    hide Connector;
    hide Ancestor;
    hide WellFormed;
    hide Fits;
    hide Within;
    MergedWellFormed(g, dim, primary, ingress);
    ConnectorWellFormed(g, dim, ingress);
    ConnectorReach(g, dim, ingress, i, i);
    var a := Connector(g, dim, ingress);
    var row := JoinRow(primary, LastRow(a, dim));
    var b := a + row;
    LastRowNew(g, a, dim);
    JoinFits(primary, LastRow(a, dim), |g|, |a|);
    AppendRow(a, row);
    var r := Mix(b, dim, dim);
    var join := LastAt(b, dim, i);
    JoinNode(a, dim, primary, i);
    assert primary[i] < |a| by { WithinAt(primary, i, |g|); }
    PairStep(a, b, primary[i], primary[i], LastAt(a, dim, i), join);
    assert ingress[i] < |a| by { WithinAt(ingress, i, |g|); }
    PairStep(a, b, ingress[i], primary[i], LastAt(a, dim, i), join);
    MixReach(b, dim, dim, i, o);
    AncestorVia(b, r, primary[i], join, LastAt(r, dim, o));
    AncestorVia(b, r, ingress[i], join, LastAt(r, dim, o));
  }

  lemma JoinNode(a: Graph, dim: nat, primary: seq<nat>, i: nat)
    requires |primary| == Pow2(dim) <= |a| && i < Pow2(dim)
    ensures var b := a + JoinRow(primary, LastRow(a, dim));
            b[LastAt(b, dim, i)] == Pair(primary[i], LastAt(a, dim, i))
  {
  }

  lemma WithinAt(ids: seq<nat>, i: nat, n: nat)
    requires Within(ids, 0, n) && i < |ids|
    ensures ids[i] < n
  {
  }

  /** Input i is an ancestor of base node i (from level 1 on through at least one hash, at level 0 through exactly
      one). */
  lemma {:induction false} InputReach(g: Graph, level: nat, inputs: seq<nat>, i: nat)
    requires |inputs| == Pow2(level) && WellFormed(g) && Within(inputs, 0, |g|) && i < Pow2(level)
    ensures WellFormed(Connected(g, level, inputs).g)
    ensures Connected(g, level, inputs).base[i] < |Connected(g, level, inputs).g|
    ensures Ancestor(Connected(g, level, inputs).g, inputs[i], Connected(g, level, inputs).base[i])
    decreases level, 0
  {
    hide Connected;
    hide Merged;
    hide WellFormed;
    hide Ancestor;
    ConnectedWellFormed(g, level, inputs);
    ConnectedBase(g, level, inputs);
    if level == 0 {
      ConnectedLeaf(g, inputs);
      WithinAt(inputs, 0, |g|);
      UnaryStep(g, Connected(g, 0, inputs).g, inputs[0], inputs[0], |g|);
    } else {
      ConnectedUnfold(g, level - 1, inputs);
      InputReachHalves(g, level - 1, inputs, i);
    }
  }

  lemma {:induction false} InputReachHalves(g: Graph, k: nat, inputs: seq<nat>, i: nat)
    requires |inputs| == Pow2(k + 1) && WellFormed(g) && Within(inputs, 0, |g|) && i < Pow2(k + 1)
    ensures var half := Pow2(k);
            var left := Connected(g, k, inputs[..half]);
            var center := Merged(left.g, k, left.base, inputs[half..]);
            var right := Connected(center, k, LastRow(center, k));
            var base := left.base + right.base;
            WellFormed(right.g) && base[i] < |right.g| && Ancestor(right.g, inputs[i], base[i])
    decreases k, 1
  {
    hide Connected;
    hide Merged;
    hide Ancestor;
    hide WellFormed;
    hide Within;
    var half := Pow2(k);
    var left := Connected(g, k, inputs[..half]);
    var center := Merged(left.g, k, left.base, inputs[half..]);
    var right := Connected(center, k, LastRow(center, k));
    HalvesWellFormed(g, k, inputs);
    LastRowWithin(center, k);
    if i < half {
      InputReach(g, k, inputs[..half], i);
      AncestorGrow(left.g, center, inputs[i], left.base[i]);
      AncestorGrow(center, right.g, inputs[i], left.base[i]);
    } else {
      var j := i - half;
      MergedReach(left.g, k, left.base, inputs[half..], j, j);
      InputReach(center, k, LastRow(center, k), j);
      AncestorVia(center, right.g, inputs[i], LastAt(center, k, j), right.base[j]);
    }
  }

  /** Everything the three parts of a connected component need of each other. */
  lemma HalvesWellFormed(g: Graph, k: nat, inputs: seq<nat>)
    requires |inputs| == Pow2(k + 1) && WellFormed(g) && Within(inputs, 0, |g|)
    ensures var half := Pow2(k);
            var left := Connected(g, k, inputs[..half]);
            var center := Merged(left.g, k, left.base, inputs[half..]);
            var right := Connected(center, k, LastRow(center, k));
            && Within(inputs[..half], 0, |g|) && Within(inputs[half..], 0, |left.g|)
            && Within(left.base, 0, |left.g|) && Within(right.base, 0, |right.g|)
            && WellFormed(left.g) && WellFormed(center) && WellFormed(right.g)
            && left.g <= center <= right.g
  {
    hide Connected;
    hide Merged;
    hide WellFormed;
    var half := Pow2(k);
    var left := Connected(g, k, inputs[..half]);
    WithinSlices(inputs, half, 0, |g|, |g|);
    WithinSlices(inputs, half, 0, |g|, |left.g|);
    ConnectedWellFormed(g, k, inputs[..half]);
    ConnectedBase(g, k, inputs[..half]);
    MergedWellFormed(left.g, k, left.base, inputs[half..]);
    var center := Merged(left.g, k, left.base, inputs[half..]);
    LastRowWithin(center, k);
    ConnectedWellFormed(center, k, LastRow(center, k));
    ConnectedBase(center, k, LastRow(center, k));
  }

  /** Base nodes of a connected component form one chain of dependency. */
  lemma {:induction false} ConnectedChain(g: Graph, level: nat, inputs: seq<nat>, i: nat, j: nat)
    requires |inputs| == Pow2(level) && WellFormed(g) && Within(inputs, 0, |g|) && i < j < Pow2(level)
    ensures WellFormed(Connected(g, level, inputs).g)
    ensures Connected(g, level, inputs).base[j] < |Connected(g, level, inputs).g|
    ensures Ancestor(Connected(g, level, inputs).g, Connected(g, level, inputs).base[i],
                     Connected(g, level, inputs).base[j])
    decreases level, 0
  {
    hide Connected;
    hide Merged;
    hide WellFormed;
    hide Ancestor;
    ConnectedWellFormed(g, level, inputs);
    ConnectedBase(g, level, inputs);
    if level > 0 {
      ConnectedUnfold(g, level - 1, inputs);
      ConnectedChainHalves(g, level - 1, inputs, i, j);
    }
  }

  lemma {:induction false} ConnectedChainHalves(g: Graph, k: nat, inputs: seq<nat>, i: nat, j: nat)
    requires |inputs| == Pow2(k + 1) && WellFormed(g) && Within(inputs, 0, |g|) && i < j < Pow2(k + 1)
    ensures var half := Pow2(k);
            var left := Connected(g, k, inputs[..half]);
            var center := Merged(left.g, k, left.base, inputs[half..]);
            var right := Connected(center, k, LastRow(center, k));
            var base := left.base + right.base;
            WellFormed(right.g) && base[j] < |right.g| && Ancestor(right.g, base[i], base[j])
    decreases k, 1
  {
    hide Connected;
    hide Merged;
    hide Ancestor;
    hide WellFormed;
    hide Within;
    var half := Pow2(k);
    var left := Connected(g, k, inputs[..half]);
    var center := Merged(left.g, k, left.base, inputs[half..]);
    var right := Connected(center, k, LastRow(center, k));
    HalvesWellFormed(g, k, inputs);
    LastRowWithin(center, k);
    if j < half {
      ConnectedChain(g, k, inputs[..half], i, j);
      AncestorGrow(left.g, center, left.base[i], left.base[j]);
      AncestorGrow(center, right.g, left.base[i], left.base[j]);
    } else if i >= half {
      ConnectedChain(center, k, LastRow(center, k), i - half, j - half);
    } else {
      MergedReach(left.g, k, left.base, inputs[half..], i, j - half);
      InputReach(center, k, LastRow(center, k), j - half);
      AncestorVia(center, right.g, left.base[i], LastAt(center, k, j - half), right.base[j - half]);
    }
  }

  /** Base nodes of a standalone component form one chain of dependency. */
  lemma {:induction false} StandaloneChain(g: Graph, level: nat, i: nat, j: nat)
    requires WellFormed(g) && i < j < Pow2(level)
    ensures WellFormed(Standalone(g, level).g)
    ensures Standalone(g, level).base[j] < |Standalone(g, level).g|
    ensures Ancestor(Standalone(g, level).g, Standalone(g, level).base[i], Standalone(g, level).base[j])
    decreases level, 0
  {
    if level > 0 {
      StandaloneChainStep(g, level - 1, i, j);
    }
  }

  lemma {:induction false} StandaloneChainStep(g: Graph, k: nat, i: nat, j: nat)
    requires WellFormed(g) && i < j < 2 * Pow2(k)
    ensures WellFormed(Standalone(g, k + 1).g)
    ensures Standalone(g, k + 1).base[j] < |Standalone(g, k + 1).g|
    ensures Ancestor(Standalone(g, k + 1).g, Standalone(g, k + 1).base[i], Standalone(g, k + 1).base[j])
    decreases k, 1
  {
    hide Extend;
    hide Standalone;
    hide Ancestor;
    hide WellFormed;
    hide Within;
    StandaloneUnfold(g, k);
    var left := Standalone(g, k);
    StandaloneWellFormed(g, k);
    StandaloneBase(g, k);
    WithinLoosen(left.base, |g|, |left.g|, 0, |left.g|);
    if j < Pow2(k) {
      StandaloneChain(g, k, i, j);
    }
    ExtendChain(left, k, i, j);
  }

  lemma ExtendChain(left: Emission, k: nat, i: nat, j: nat)
    requires |left.base| == Pow2(k) && WellFormed(left.g) && Within(left.base, 0, |left.g|)
    requires i < j < 2 * Pow2(k)
    requires j < Pow2(k) ==> left.base[j] < |left.g| && Ancestor(left.g, left.base[i], left.base[j])
    ensures WellFormed(Extend(left, k).g) && Extend(left, k).base[j] < |Extend(left, k).g|
    ensures Ancestor(Extend(left, k).g, Extend(left, k).base[i], Extend(left, k).base[j])
  {
    hide Connected;
    hide Connector;
    hide Ancestor;
    hide WellFormed;
    hide Within;
    var half := Pow2(k);
    var center := Connector(left.g, k, left.base);
    var right := Connected(center, k, LastRow(center, k));
    ConnectorWellFormed(left.g, k, left.base);
    LastRowWithin(center, k);
    ExtendWellFormed(left, k);
    if j < half {
      AncestorGrow(left.g, center, left.base[i], left.base[j]);
      AncestorGrow(center, right.g, left.base[i], left.base[j]);
    } else if i >= half {
      ConnectedChain(center, k, LastRow(center, k), i - half, j - half);
    } else {
      ConnectorReach(left.g, k, left.base, i, j - half);
      InputReach(center, k, LastRow(center, k), j - half);
      AncestorVia(center, right.g, left.base[i], LastAt(center, k, j - half), right.base[j - half]);
    }
  }

  /** Base node j sits at level j at least. */
  lemma {:induction false} BaseLevel(g: Graph, level: nat, j: nat)
    requires WellFormed(g) && j < Pow2(level)
    ensures WellFormed(Standalone(g, level).g)
    ensures Standalone(g, level).base[j] < |Standalone(g, level).g|
    ensures Level(Standalone(g, level).g, Standalone(g, level).base[j]) >= j
    decreases j
  {
    hide Standalone;
    StandaloneWellFormed(g, level);
    StandaloneBase(g, level);
    if j > 0 {
      BaseLevel(g, level, j - 1);
      StandaloneChain(g, level, j - 1, j);
      AncestorLevel(Standalone(g, level).g, Standalone(g, level).base[j - 1], Standalone(g, level).base[j]);
    }
  }

  /** The node of rank r sits at level half_w + r at least in the left copy, r at least in the right one. */
  lemma ChallengeLevel(m: nat, r: nat)
    requires 1 <= m && r < m
    ensures WellFormed(GraphOf(m)) && OutputIds(m)[r] < |GraphOf(m)|
    ensures Level(GraphOf(m), OutputIds(m)[r]) >= r
    ensures r < Pow2(ParamN(m)) ==> Level(GraphOf(m), OutputIds(m)[r]) >= Pow2(ParamN(m)) + r
  {
    hide Standalone;
    hide Level;
    hide WellFormed;
    hide ParamN;
    hide OutputIds;
    var n := ParamN(m);
    ParamNBounds(m);
    GraphWellFormed(m);
    var s := ScaffoldOf(m);
    OutputAt(m, r);
    if r < Pow2(n) {
      EmptyWellFormed();
      BaseLevel([], n + 1, Pow2(n) + r);
      LevelGrow(s.left.g, s.right.g, s.left.base[Pow2(n) + r]);
    } else {
      BaseLevel(s.left.g, n + 1, r);
    }
  }

  /** A challenge of rank r in the left copy ends a chain of at least half_w + r + 1 hashes,
      one in the right copy a chain of at least r + 1. */
  lemma ChallengeDepth(m: nat, r: nat) returns (chain: seq<nat>)
    requires 1 <= m && r < m
    ensures Chain(GraphOf(m), chain) && |chain| > 0 && chain[|chain| - 1] == OutputIds(m)[r]
    ensures |chain| >= r + 1
    ensures r < Pow2(ParamN(m)) ==> |chain| >= Pow2(ParamN(m)) + r + 1
  {
    hide GraphOf;
    hide OutputIds;
    hide Level;
    hide WellFormed;
    hide Chain;
    ChallengeLevel(m, r);
    chain := LongestChain(GraphOf(m), OutputIds(m)[r]);
  }
}
