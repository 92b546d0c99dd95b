/** Labels of a graph. The node hash is an arbitrary total function of the session. */
module Labelling {
  import Bits
  import opened Dag

  newtype Byte = b: int | 0 <= b < 256

  datatype Label = Label(bytes: seq<Byte>)

  /** hash(isSource, id, predecessor labels with the lower id first, seed, descriptor) */
  type NodeHash = (bool, nat, seq<Label>, Label, Label) -> Label

  datatype Session = Session(hash: NodeHash, seed: Label, descriptor: Label)

  /** Bytes of a label. */
  const HASH_BYTES: nat := 32

  /** Nodes hashed per batch call. */
  const LABEL_BATCH: nat := 16

  function NodeLabel(s: Session, id: nat, preds: seq<Label>): Label {
    s.hash(|preds| == 0, id, preds, s.seed, s.descriptor)
  }

  function PredLabels(ls: seq<Label>, node: Node): seq<Label>
    requires Fits(node, |ls|)
  {
    match node
    case Source => []
    case One(p) => [ls[p]]
    case Two(p, q) => [ls[p], ls[q]]
  }

  /** The labelling of a graph: every node hashed over its predecessors' labels, in id order. */
  function Labels(s: Session, g: Graph): (ls: seq<Label>)
    requires WellFormed(g)
    ensures |ls| == |g|
  {
    if |g| == 0 then []
    else
      var ls := Labels(s, g[..|g| - 1]);
      ls + [NodeLabel(s, |g| - 1, PredLabels(ls, g[|g| - 1]))]
  }

  lemma {:induction false} LabelsPrefix(s: Session, g: Graph, n: nat)
    requires WellFormed(g) && n <= |g|
    ensures Labels(s, g[..n]) == Labels(s, g)[..n]
  {
    if n == |g| {
      assert g[..n] == g;
    } else {
      var h := g[..|g| - 1];
      LabelsPrefix(s, h, n);
      assert h[..n] == g[..n];
      assert Labels(s, g)[..|g| - 1] == Labels(s, h);
      assert Labels(s, g)[..n] == Labels(s, g)[..|g| - 1][..n];
    }
  }

  /** The labelling satisfies the recurrence at every id, over its own final labels. */
  lemma LabelAt(s: Session, g: Graph, id: nat)
    requires WellFormed(g) && id < |g|
    ensures Fits(g[id], |g|)
    ensures Labels(s, g)[id] == NodeLabel(s, id, PredLabels(Labels(s, g), g[id]))
  {
    LabelsPrefix(s, g, id + 1);
    LabelsPrefix(s, g, id);
    var h := g[..id + 1];
    assert h[..id] == g[..id];
    assert Labels(s, g)[id] == Labels(s, g)[..id + 1][id];
    PredLabelsPrefix(Labels(s, g), id, g[id]);
  }

  /** What is hashed for a node: its id, its predecessors' labels with the lower id first, seed and descriptor. */
  lemma LabelLaw(s: Session, g: Graph, id: nat)
    requires WellFormed(g) && id < |g|
    ensures match g[id]
            case Source => Labels(s, g)[id] == s.hash(true, id, [], s.seed, s.descriptor)
            case One(p) => p < id && Labels(s, g)[id] == s.hash(false, id, [Labels(s, g)[p]], s.seed, s.descriptor)
            case Two(p, q) =>
              p < q < id
              && Labels(s, g)[id] == s.hash(false, id, [Labels(s, g)[p], Labels(s, g)[q]], s.seed, s.descriptor)
  {
    hide Labels;
    LabelAt(s, g, id);
    assert Fits(g[id], id);
  }

  /** One step of that recurrence, for labels `ls` that need not be the labelling. */
  ghost predicate HashedFrom(hash: NodeHash, seed: Label, descriptor: Label, node: Node, id: nat, ls: seq<Label>)
    requires id < |ls|
  {
    match node
    case Source => ls[id] == hash(true, id, [], seed, descriptor)
    case One(p) => p < id && ls[id] == hash(false, id, [ls[p]], seed, descriptor)
    case Two(p, q) => p < q < id && ls[id] == hash(false, id, [ls[p], ls[q]], seed, descriptor)
  }

  /** Whatever satisfies the recurrence is the labelling. */
  lemma HashedUnique(s: Session, g: Graph, ls: seq<Label>)
    requires WellFormed(g) && |ls| == |g|
    requires forall id: nat {:trigger g[id]} :: id < |g| ==> HashedFrom(s.hash, s.seed, s.descriptor, g[id], id, ls)
    ensures ls == Labels(s, g)
  {
    hide Labels;
    forall id {:trigger g[id]} | 0 <= id < |g|
      ensures ls[id] == NodeLabel(s, id, PredLabels(ls[..id], g[id]))
    {
      assert Fits(g[id], id) && HashedFrom(s.hash, s.seed, s.descriptor, g[id], id, ls);
    }
    LabelsUnique(s, g, ls, |g|);
    assert ls[..|g|] == ls && g[..|g|] == g;
  }

  /** Labelling is the only solution of the recurrence. */
  lemma {:induction false} LabelsUnique(s: Session, g: Graph, ls: seq<Label>, n: nat)
    requires WellFormed(g) && |ls| == |g| && n <= |g|
    requires forall id {:trigger g[id]} :: 0 <= id < |g| ==> ls[id] == NodeLabel(s, id, PredLabels(ls[..id], g[id]))
    ensures ls[..n] == Labels(s, g[..n])
  {
    if n > 0 {
      LabelsUnique(s, g, ls, n - 1);
      assert g[..n][..n - 1] == g[..n - 1];
      assert ls[..n] == ls[..n - 1] + [ls[n - 1]];
      assert g[n - 1] == g[..n][n - 1];
    }
  }

  /** The labels of a row whose nodes all read older nodes. */
  function RowLabels(s: Session, n: nat, ls: seq<Label>, row: Graph): (r: seq<Label>)
    requires |ls| == n && RowFits(row, n)
    ensures |r| == |row|
    ensures forall i {:trigger r[i]} :: 0 <= i < |row| ==> r[i] == NodeLabel(s, n + i, PredLabels(ls, row[i]))
  {
    seq(|row|, i requires 0 <= i < |row| => NodeLabel(s, n + i, PredLabels(ls, row[i])))
  }

  lemma LabelsGrow(s: Session, g: Graph, row: Graph)
    requires WellFormed(g) && WellFormed(g + row)
    ensures Labels(s, g + row)[..|g|] == Labels(s, g)
  {
    LabelsPrefix(s, g + row, |g|);
    assert (g + row)[..|g|] == g;
  }

  lemma LabelInRow(s: Session, g: Graph, row: Graph, i: nat)
    requires WellFormed(g) && RowFits(row, |g|) && WellFormed(g + row) && i < |row|
    ensures Labels(s, g + row)[|g| + i] == NodeLabel(s, |g| + i, PredLabels(Labels(s, g), row[i]))
  {
    hide Labels;
    LabelsGrow(s, g, row);
    LabelAt(s, g + row, |g| + i);
    PredLabelsPrefix(Labels(s, g + row), |g|, row[i]);
  }

  lemma LabelsAppendRow(s: Session, g: Graph, row: Graph)
    requires WellFormed(g) && RowFits(row, |g|)
    ensures WellFormed(g + row)
    ensures Labels(s, g + row) == Labels(s, g) + RowLabels(s, |g|, Labels(s, g), row)
  {
    hide Labels;
    AppendRow(g, row);
    LabelsGrow(s, g, row);
    forall k | |g| <= k < |g| + |row|
      ensures Labels(s, g + row)[k] == RowLabels(s, |g|, Labels(s, g), row)[k - |g|]
    {
      LabelInRow(s, g, row, k - |g|);
    }
    SplitEquals(Labels(s, g + row), Labels(s, g), RowLabels(s, |g|, Labels(s, g), row));
  }

  lemma SplitEquals(all: seq<Label>, front: seq<Label>, back: seq<Label>)
    requires |all| == |front| + |back| && all[..|front|] == front
    requires forall k {:trigger all[k]} :: |front| <= k < |all| ==> all[k] == back[k - |front|]
    ensures all == front + back
  {
    assert forall k {:trigger all[k]} :: 0 <= k < |front| ==> all[k] == all[..|front|][k];
  }

  lemma PredLabelsPrefix(ls: seq<Label>, n: nat, node: Node)
    requires n <= |ls| && Fits(node, n)
    ensures Fits(node, |ls|) && PredLabels(ls[..n], node) == PredLabels(ls, node)
  {
  }

  lemma LabelsAppendOne(s: Session, g: Graph, node: Node)
    requires WellFormed(g) && Fits(node, |g|)
    ensures WellFormed(g + [node])
    ensures Labels(s, g + [node]) == Labels(s, g) + [NodeLabel(s, |g|, PredLabels(Labels(s, g), node))]
  {
    assert (g + [node])[..|g|] == g;
  }

  // ---------- labels of chosen nodes ----------

  function Pick(s: Session, g: Graph, ids: seq<nat>): (r: seq<Label>)
    requires WellFormed(g) && Within(ids, 0, |g|)
    ensures |r| == |ids|
    ensures forall i {:trigger r[i]} :: 0 <= i < |ids| ==> r[i] == Labels(s, g)[ids[i]]
  {
    seq(|ids|, i requires 0 <= i < |ids| => Labels(s, g)[ids[i]])
  }

  /** Emitting more nodes does not change the label of an older one. */
  lemma PickGrow(s: Session, g: Graph, h: Graph, ids: seq<nat>)
    requires WellFormed(g) && WellFormed(h) && g <= h && Within(ids, 0, |g|)
    ensures Within(ids, 0, |h|) && Pick(s, h, ids) == Pick(s, g, ids)
  {
    LabelsPrefix(s, h, |g|);
    assert h[..|g|] == g;
  }

  lemma PickLastRow(s: Session, g: Graph, row: Graph, dim: nat)
    requires WellFormed(g) && RowFits(row, |g|) && |row| == Bits.Pow2(dim)
    ensures WellFormed(g + row) && Within(LastRow(g + row, dim), 0, |g + row|)
    ensures Pick(s, g + row, LastRow(g + row, dim)) == RowLabels(s, |g|, Labels(s, g), row)
  {
    LabelsAppendRow(s, g, row);
  }

  lemma PickSlices(s: Session, g: Graph, ids: seq<nat>, k: nat)
    requires WellFormed(g) && Within(ids, 0, |g|) && k <= |ids|
    ensures Within(ids[..k], 0, |g|) && Within(ids[k..], 0, |g|)
    ensures Pick(s, g, ids[..k]) == Pick(s, g, ids)[..k] && Pick(s, g, ids[k..]) == Pick(s, g, ids)[k..]
  {
  }

  lemma PickConcat(s: Session, g: Graph, front: seq<nat>, back: seq<nat>)
    requires WellFormed(g) && Within(front, 0, |g|) && Within(back, 0, |g|)
    ensures Within(front + back, 0, |g|)
    ensures Pick(s, g, front + back) == Pick(s, g, front) + Pick(s, g, back)
  {
  }

  /** Batch hashing of non-source nodes: output j depends only on element j. */
  method HashBatch(s: Session, ids: seq<nat>, preds: seq<seq<Label>>) returns (outs: seq<Label>)
    requires |ids| == |preds| <= LABEL_BATCH
    ensures |outs| == |ids|
    ensures forall j :: 0 <= j < |ids| ==> outs[j] == NodeLabel(s, ids[j], preds[j])
  {
    outs := [];
    for j := 0 to |ids|
      invariant |outs| == j
      invariant forall k :: 0 <= k < j ==> outs[k] == NodeLabel(s, ids[k], preds[k])
    {
      outs := outs + [NodeLabel(s, ids[j], preds[j])];
    }
  }
}
