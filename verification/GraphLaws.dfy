/** The graph node by node: the ids that each node of a component reads, in terms of positions alone. */
module GraphLaws {
  import opened Bits
  import opened Dag
  import opened Chunk
  import Offsets
  import Census
  import Reach
  import Timing

  // ---------- bits as numbers ----------

  /** A bit is a binary digit, and flipping it adds or takes away its weight. */
  lemma {:induction false} FlipIs(i: nat, b: nat)
    ensures IsSet(i, b) <==> i / Pow2(b) % 2 == 1
    ensures Flip(i, b) == if i / Pow2(b) % 2 == 1 then i - Pow2(b) else i + Pow2(b)
  {
    if b > 0 {
      FlipIs(i / 2, b - 1);
      HalfDivided(i, Pow2(b - 1));
    }
  }

  lemma HalfDivided(i: nat, p: nat)
    requires p >= 1
    ensures i / (2 * p) == i / 2 / p
    ensures i % (2 * p) == i / 2 % p * 2 + i % 2
  {
    var q, s := i / 2 / p, i / 2 % p;
    Offsets.Remainder(i / 2, p);
    assert i == 2 * (q * p + s) + i % 2;
    assert q * (2 * p) == 2 * (q * p);
    Offsets.OffsetDivides(q, 2 * p, 2 * s + i % 2);
  }

  /** Agreeing on the lowest b bits is congruence modulo 2^b. */
  lemma {:induction false} AgreeIs(i: nat, j: nat, b: nat)
    ensures Agree(i, j, b) <==> i % Pow2(b) == j % Pow2(b)
  {
    if b > 0 {
      AgreeIs(i / 2, j / 2, b - 1);
      HalfDivided(i, Pow2(b - 1));
      HalfDivided(j, Pow2(b - 1));
    }
  }

  // ---------- the nodes of a component ----------

  /** Layer `j` of the butterfly whose rows start at `first` reads, in column `o`, the columns `o` and `o ^ 2^(dim - j)`
      of the layer before, the lower one first. */
  ghost predicate Crosses(r: Graph, first: nat, dim: nat, j: nat, o: nat)
    requires 1 <= j <= dim
  {
    var w, d := Pow2(dim), Pow2(dim - j);
    var prev := first + Offsets.Offset(j - 1, w);
    && prev + w + o < |r|
    && if o / d % 2 == 0 then r[prev + w + o] == Two(prev + o, prev + o + d)
       else o >= d && r[prev + w + o] == Two(prev + o - d, prev + o)
  }

  lemma LayerCrosses(first: Graph, at: nat, dim: nat, j: nat, o: nat)
    requires 1 <= j <= dim && |first| == at + Pow2(dim) && o < Pow2(dim)
    ensures Crosses(Mix(first, dim, dim), at, dim, j, o)
  {
    hide Mix;
    hide Flip;
    hide Crosses;
    Reach.MixNode(first, dim, j - 1, o);
    FlipIs(o, dim - j);
    LayerSize(first, dim, j - 1);
    Timing.MixPrefix(first, dim, j, dim);
    CrossesAt(Mix(first, dim, dim), at, dim, j, o, |Mix(first, dim, j - 1)|);
  }

  lemma CrossesAt(r: Graph, at: nat, dim: nat, j: nat, o: nat, row: nat)
    requires 1 <= j <= dim && row == at + Offsets.Offset(j - 1, Pow2(dim)) + Pow2(dim) && row + o < |r|
    requires r[row + o] == Pair(row - Pow2(dim) + o, row - Pow2(dim) + Flip(o, dim - j))
    ensures Crosses(r, at, dim, j, o)
  {
    hide Flip;
    hide Offsets.Offset;
    FlipIs(o, dim - j);
  }

  lemma LayerSize(g: Graph, dim: nat, j: nat)
    requires j <= dim && Pow2(dim) <= |g|
    ensures |Mix(g, dim, j)| == |g| + Offsets.Offset(j, Pow2(dim))
  {
    hide Mix;
    Timing.MixPrefix(g, dim, j, dim);
    Census.LayersProduct(Pow2(dim), j);
  }

  /** A connector, node by node: a row that reads the inputs, and `dim` layers that cross it. */
  lemma ConnectorNodes(g: Graph, dim: nat, inputs: seq<nat>)
    requires |inputs| == Pow2(dim)
    ensures var r := Connector(g, dim, inputs);
            && g <= r && |r| == |g| + Offsets.Offset(dim + 1, Pow2(dim))
            && (forall o :: 0 <= o < Pow2(dim) ==> r[|g| + o] == One(inputs[o]))
            && forall j: nat, o: nat {:trigger Crosses(r, |g|, dim, j, o)} :: 1 <= j <= dim && o < Pow2(dim) ==>
                 Crosses(r, |g|, dim, j, o)
  {
    hide Mix;
    hide UnaryRow;
    hide Crosses;
    var first := g + UnaryRow(inputs);
    LayerSize(first, dim, dim);
    Offsets.OffsetNext(dim, Pow2(dim));
    Timing.MixPrefix(first, dim, 0, dim);
    Reach.MixZero(first, dim);
    forall o | 0 <= o < Pow2(dim)
      ensures first[|g| + o] == One(inputs[o])
    {
      assert first[|g| + o] == UnaryRow(inputs)[o];
    }
    forall j: nat, o: nat | 1 <= j <= dim && o < Pow2(dim)
      ensures Crosses(Mix(first, dim, dim), |g|, dim, j, o)
    {
      LayerCrosses(first, |g|, dim, j, o);
    }
  }

  /** Merged butterflies, node by node: a connector over the ingress ids, a row that joins each primary id with the
      ingress output in its column, and `dim` layers that cross that row. */
  lemma MergedNodes(g: Graph, dim: nat, primary: seq<nat>, ingress: seq<nat>)
    requires |primary| == |ingress| == Pow2(dim) && Within(primary, 0, |g|)
    ensures var r, center := Merged(g, dim, primary, ingress), |g| + Offsets.Offset(dim + 1, Pow2(dim));
            && Connector(g, dim, ingress) <= r && |r| == center + Offsets.Offset(dim + 1, Pow2(dim))
            && (forall o :: 0 <= o < Pow2(dim) ==> r[center + o] == Two(primary[o], center - Pow2(dim) + o))
            && forall j: nat, o: nat {:trigger Crosses(r, center, dim, j, o)} :: 1 <= j <= dim && o < Pow2(dim) ==>
                 Crosses(r, center, dim, j, o)
  {
    hide Mix;
    hide JoinRow;
    hide Crosses;
    ConnectorNodes(g, dim, ingress);
    var a := Connector(g, dim, ingress);
    hide Connector;
    var first := a + JoinRow(primary, LastRow(a, dim));
    LayerSize(first, dim, dim);
    Offsets.OffsetNext(dim, Pow2(dim));
    Timing.MixPrefix(first, dim, 0, dim);
    Reach.MixZero(first, dim);
    forall o | 0 <= o < Pow2(dim)
      ensures first[|a| + o] == Two(primary[o], |a| - Pow2(dim) + o)
    {
      assert first[|a| + o] == JoinRow(primary, LastRow(a, dim))[o];
    }
    forall j: nat, o: nat | 1 <= j <= dim && o < Pow2(dim)
      ensures Crosses(Mix(first, dim, dim), |a|, dim, j, o)
    {
      LayerCrosses(first, |a|, dim, j, o);
    }
  }

  // ---------- the recursion ----------

  /** `outs` are the ids of the last `w` nodes of `g`, in column order. */
  ghost predicate LastIds(outs: seq<nat>, g: Graph, w: nat) {
    |outs| == w <= |g| && forall o {:trigger outs[o]} :: 0 <= o < w ==> outs[o] == |g| - w + o
  }

  lemma LastIdsAre(outs: seq<nat>, g: Graph, dim: nat)
    requires LastIds(outs, g, Pow2(dim))
    ensures outs == LastRow(g, dim)
  {
  }

  /** A connected component of two halves: the left half over the front inputs, merged butterflies that join its base
      nodes to the back inputs, and the right half over their outputs. */
  lemma ConnectedParts(g: Graph, k: nat, front: seq<nat>, back: seq<nat>, outs: seq<nat>)
    requires |front| == |back| == Pow2(k)
    requires var left := Connected(g, k, front); LastIds(outs, Merged(left.g, k, left.base, back), Pow2(k))
    ensures |front + back| == Pow2(k + 1) && |outs| == Pow2(k)
    ensures var left := Connected(g, k, front);
            var right := Connected(Merged(left.g, k, left.base, back), k, outs);
            Connected(g, k + 1, front + back) == Emission(right.g, left.base + right.base)
  {
    hide Connected;
    hide Merged;
    assert (front + back)[..Pow2(k)] == front && (front + back)[Pow2(k)..] == back;
    ConnectedUnfold(g, k, front + back);
    var left := Connected(g, k, front);
    LastIdsAre(outs, Merged(left.g, k, left.base, back), k);
  }

  /** A standalone component of two halves: the smaller standalone component, a connector over its base nodes, and a
      connected component over the connector's outputs. */
  lemma StandaloneParts(g: Graph, k: nat, outs: seq<nat>)
    requires var left := Standalone(g, k); LastIds(outs, Connector(left.g, k, left.base), Pow2(k))
    ensures |outs| == Pow2(k)
    ensures var left := Standalone(g, k);
            var right := Connected(Connector(left.g, k, left.base), k, outs);
            Standalone(g, k + 1) == Emission(right.g, left.base + right.base)
  {
    hide Standalone;
    hide Connector;
    hide Connected;
    var left := Standalone(g, k);
    StandaloneUnfold(g, k);
    ExtendUnfold(left, k);
    LastIdsAre(outs, Connector(left.g, k, left.base), k);
  }

  // ---------- the chunk's graph ----------

  /** Two standalone copies of level n + 1, where 2^n is half the chunk rounded up to a power of two. The challenge
      set is the second half of the left copy's base nodes, then the right copy's from its own half on. */
  lemma ChunkGraph(m: nat, n: nat, r: nat)
    requires r < m && (if m == 1 then n == 0 else Pow2(n) < m <= 2 * Pow2(n))
    ensures var left := Standalone([], n + 1);
            var right := Standalone(left.g, n + 1);
            && GraphOf(m) == right.g && |left.base| == |right.base| == 2 * Pow2(n)
            && OutputIds(m)[r] == if r < Pow2(n) then left.base[Pow2(n) + r] else right.base[r]
  {
    hide Standalone;
    hide Pow2;
    ParamIs(m, n);
    hide OutputIds;
    hide ParamN;
    OutputAt(m, r);
  }

  lemma ParamIs(m: nat, n: nat)
    requires m >= 1 && (if m == 1 then n == 0 else Pow2(n) < m <= 2 * Pow2(n))
    ensures ParamN(m) == n
  {
    ParamNBounds(m);
    hide ParamN;
    if ParamN(m) < n {
      Pow2Monotone(ParamN(m) + 1, n);
    } else if n < ParamN(m) {
      Pow2Monotone(n + 1, ParamN(m));
    }
  }
}
