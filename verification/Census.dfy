/** Closed forms for the node counts, and where the sources are. */
module Census {
  import opened Bits
  import opened Dag
  import opened Chunk

  lemma {:induction false} LayersProduct(w: nat, k: nat)
    ensures Layers(w, k) == w * k
  {
    if k > 0 {
      LayersProduct(w, k - 1);
    }
  }

  lemma ButterflyClosed(dim: nat)
    ensures ButterflyCount(dim) == Pow2(dim) * (dim + 1)
  {
    LayersProduct(Pow2(dim), dim + 1);
  }

  lemma {:induction false} ConnectedClosed(level: nat)
    ensures 2 * ConnectedCount(level) == Pow2(level) * (level * level + level + 2)
  {
    if level > 0 {
      var k := level - 1;
      ConnectedClosed(k);
      ButterflyClosed(k);
      ConnectedStep(Pow2(k), k, ConnectedCount(k), ButterflyCount(k));
    }
  }

  lemma ConnectedStep(w: nat, k: nat, c: nat, b: nat)
    requires 2 * c == w * (k * k + k + 2) && b == w * (k + 1)
    ensures 2 * (2 * c + 2 * b) == 2 * w * ((k + 1) * (k + 1) + (k + 1) + 2)
  {
    Factor(2 * w, k * k + k + 2, 2 * (k + 1));
  }

  lemma {:induction false} StandaloneClosed(level: nat)
    ensures 2 * StandaloneCount(level) + 2 == Pow2(level) * (level * level - level + 4)
  {
    if level > 0 {
      var k := level - 1;
      StandaloneClosed(k);
      ButterflyClosed(k);
      ConnectedClosed(k);
      StandaloneStep(Pow2(k), k, StandaloneCount(k), ButterflyCount(k), ConnectedCount(k));
    }
  }

  lemma StandaloneStep(w: nat, k: nat, s: nat, b: nat, c: nat)
    requires 2 * s + 2 == w * (k * k - k + 4) && b == w * (k + 1) && 2 * c == w * (k * k + k + 2)
    ensures 2 * (s + b + c) + 2 == 2 * w * ((k + 1) * (k + 1) - (k + 1) + 4)
  {
    Factor(w, k * k - k + 4, 2 * (k + 1));
    Factor(w, k * k - k + 4 + 2 * (k + 1), k * k + k + 2);
    Square(k);
    assert w * (2 * (k * k + k + 4)) == 2 * w * (k * k + k + 4);
  }

  lemma Factor(w: int, x: int, y: int)
    ensures w * (x + y) == w * x + w * y
  {
  }

  lemma Square(k: int)
    ensures (k + 1) * (k + 1) == k * k + 2 * k + 1
  {
  }

  /** Size of a chunk's scaffold. */
  lemma GraphSize(m: nat)
    ensures |GraphOf(m)| + 2 == Pow2(ParamN(m) + 1) * (ParamN(m) * ParamN(m) + ParamN(m) + 4)
  {
    hide GraphOf;
    hide ParamN;
    hide Pow2;
    hide StandaloneCount;
    var n := ParamN(m);
    StandaloneClosed(n + 1);
    Square(n);
  }

  lemma Pow2Of20()
    ensures Pow2(20) == MAX_M
  {
    assert Pow2(10) == 1024;
  }

  lemma Pow2Reflects(a: nat, b: nat)
    requires Pow2(a) < Pow2(b)
    ensures a < b
  {
    if b <= a {
      Pow2Monotone(b, a);
    }
  }

  lemma ParamNSmall(m: nat)
    requires m <= MAX_M
    ensures ParamN(m) <= 19
  {
    hide Pow2;
    if m >= 2 {
      ParamNBounds(m);
      Pow2Of20();
      Pow2Reflects(ParamN(m), 20);
    }
  }

  /** Every chunk the library accepts numbers its nodes within 31 bits. */
  lemma GraphFits(m: nat)
    requires m <= MAX_M
    ensures 0 < |GraphOf(m)| < 0x8000_0000
  {
    hide GraphOf;
    hide ParamN;
    hide Pow2;
    hide StandaloneCount;
    var n := ParamN(m);
    ParamNSmall(m);
    GraphSize(m);
    Pow2Monotone(n + 1, 20);
    Pow2Of20();
    Product(n, n, 19, 19);
    Product(Pow2(n + 1), n * n + n + 4, MAX_M, 384);
  }

  lemma Product(a: nat, b: nat, c: nat, d: nat)
    requires a <= c && b <= d
    ensures a * b <= c * d
  {
    assert a * b <= a * d <= c * d;
  }

  // ---------- sources ----------

  /** No node from `from` on is a source. */
  ghost predicate NoSource(g: Graph, from: nat) {
    forall id {:trigger g[id]} :: from <= id < |g| ==> !g[id].Source?
  }

  lemma {:induction false} MixNoSource(g: Graph, dim: nat, k: nat, from: nat)
    requires k <= dim && Pow2(dim) <= |g| && NoSource(g, from)
    ensures NoSource(Mix(g, dim, k), from)
    decreases k
  {
    if k > 0 {
      MixNoSource(g, dim, k - 1, from);
    }
  }

  lemma ConnectorNoSource(g: Graph, dim: nat, inputs: seq<nat>, from: nat)
    requires |inputs| == Pow2(dim) && NoSource(g, from)
    ensures NoSource(Connector(g, dim, inputs), from)
  {
    MixNoSource(g + UnaryRow(inputs), dim, dim, from);
  }

  lemma MergedNoSource(g: Graph, dim: nat, primary: seq<nat>, ingress: seq<nat>, from: nat)
    requires |primary| == |ingress| == Pow2(dim) && NoSource(g, from)
    ensures NoSource(Merged(g, dim, primary, ingress), from)
  {
    hide Connector;
    ConnectorNoSource(g, dim, ingress, from);
    var a := Connector(g, dim, ingress);
    MixNoSource(a + JoinRow(primary, LastRow(a, dim)), dim, dim, from);
  }

  lemma {:induction false} ConnectedNoSource(g: Graph, level: nat, inputs: seq<nat>, from: nat)
    requires |inputs| == Pow2(level) && NoSource(g, from)
    ensures NoSource(Connected(g, level, inputs).g, from)
    decreases level
  {
    hide Connected;
    hide Merged;
    if level == 0 {
      ConnectedLeaf(g, inputs);
    } else {
      var k := level - 1;
      ConnectedUnfold(g, k, inputs);
      var left := Connected(g, k, inputs[..Pow2(k)]);
      var center := Merged(left.g, k, left.base, inputs[Pow2(k)..]);
      ConnectedNoSource(g, k, inputs[..Pow2(k)], from);
      MergedNoSource(left.g, k, left.base, inputs[Pow2(k)..], from);
      ConnectedNoSource(center, k, LastRow(center, k), from);
    }
  }

  /** A standalone component has exactly one source: its first node. */
  lemma {:induction false} StandaloneSource(g: Graph, level: nat)
    ensures var r := Standalone(g, level).g;
            r[|g|].Source? && NoSource(r, |g| + 1)
    decreases level
  {
    hide Extend;
    hide Connector;
    hide Connected;
    if level > 0 {
      var k := level - 1;
      var left := Standalone(g, k);
      StandaloneSource(g, k);
      ExtendUnfold(left, k);
      ConnectorNoSource(left.g, k, left.base, |g| + 1);
      var center := Connector(left.g, k, left.base);
      ConnectedNoSource(center, k, LastRow(center, k), |g| + 1);
      assert left.g <= Extend(left, k).g;
    }
  }

  /** The chunk's graph has two sources: the first node of each copy. */
  lemma GraphSources(m: nat, id: nat)
    requires id < |GraphOf(m)|
    ensures GraphOf(m)[id].Source? <==> id == 0 || id == StandaloneCount(ParamN(m) + 1)
  {
    hide Standalone;
    var s := ScaffoldOf(m);
    StandaloneSource([], ParamN(m) + 1);
    StandaloneSource(s.left.g, ParamN(m) + 1);
    assert id < |s.left.g| ==> s.right.g[id] == s.left.g[id];
  }
}
