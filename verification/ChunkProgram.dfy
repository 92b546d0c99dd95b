/** The two chunk labelers as programs of single accesses.

    Full-scratch labelling hashes every node, in id order, into a scratch cell of its own; in-place labelling runs the
    arena code for both scaffold copies. Either then copies the output labels to the chunk's blocks, in rank order.
 */
module ChunkProgram {
  import Bits
  import Dag
  import opened Labelling
  import opened SharedMemory
  import opened StraightCode
  import opened ArenaCode
  import Arena
  import Chunk

  datatype Labeler = FullScratch | InPlace

  // ---------- hashing ----------

  function NodeInstr(node: Dag.Node, id: nat): Instr {
    match node
    case Source => Hash(id, id, [])
    case One(p) => Hash(id, id, [p])
    case Two(p, q) => Hash(id, id, [p, q])
  }

  function GraphCode(g: Dag.Graph): Code {
    if |g| == 0 then [] else GraphCode(g[..|g| - 1]) + [NodeInstr(g[|g| - 1], |g| - 1)]
  }

  /** Every node in a cell of its own. */
  lemma {:induction false} GraphGoes(h: Dag.Graph, n: nat, ids: seq<int>) returns (ids': seq<int>)
    requires Dag.WellFormed(h) && n <= |h| <= |ids|
    ensures Goes(h, GraphCode(h[..n]), ids, ids') && |ids'| == |ids|
    ensures forall k {:trigger ids'[k]} :: 0 <= k < n ==> ids'[k] == k
    decreases n
  {
    if n == 0 {
      ids' := ids;
    } else {
      var k := n - 1;
      assert h[..n][..k] == h[..k];
      var mid := GraphGoes(h, k, ids);
      assert Dag.Fits(h[k], k);
      var last := NodeInstr(h[k], k);
      assert Fitting(h, last, mid);
      GoesOne(h, last, mid);
      ids' := StepOne(last, mid);
      GoesThen(h, GraphCode(h[..k]), [last], ids, mid, ids');
    }
  }

  /** Left and right scaffold copy, the bases in front of the arena, which both use. */
  function InPlaceCode(m: nat): Code {
    var level, half := Chunk.ParamN(m) + 1, Bits.Pow2(Chunk.ParamN(m));
    StandaloneCode(level, 0, 4 * half, 0) + StandaloneCode(level, 2 * half, 4 * half, Dag.StandaloneCount(level))
  }

  function HashCode(labeler: Labeler, m: nat): Code {
    match labeler
    case FullScratch => GraphCode(Chunk.GraphOf(m))
    case InPlace => InPlaceCode(m)
  }

  /** Scratch cells of a chunk. */
  function Cells(labeler: Labeler, m: nat): nat {
    match labeler
    case FullScratch => Chunk.ScratchNodes(m)
    case InPlace => Chunk.ScratchSlots(m)
  }

  /** The cells that are sure to hold labels after hashing: every node's, or the two base arrays. */
  function Solid(labeler: Labeler, m: nat): nat {
    match labeler
    case FullScratch => Chunk.ScratchNodes(m)
    case InPlace => 4 * Bits.Pow2(Chunk.ParamN(m))
  }

  /** Where the label of each rank is found after hashing. */
  function Found(labeler: Labeler, m: nat): (from: seq<nat>)
    requires m >= 1
    ensures |from| == m
  {
    match labeler
    case FullScratch => Chunk.OutputIds(m)
    case InPlace =>
      var half := Bits.Pow2(Chunk.ParamN(m));
      seq(m, r requires 0 <= r < m => if r < half then half + r else 2 * half + r)
  }

  /** The first `n` cells hold labels of known nodes. */
  ghost predicate Known(ids: seq<int>, n: nat) {
    n <= |ids| && forall k {:trigger ids[k]} :: 0 <= k < n ==> ids[k] >= 0
  }

  /** Output `r` of the chunk is found in its cell. */
  ghost predicate FoundAt(labeler: Labeler, m: nat, ids: seq<int>, r: nat)
    requires m >= 1 && r < m
  {
    var at := Found(labeler, m)[r];
    at < Solid(labeler, m) && at < |ids| && ids[at] == Chunk.OutputIds(m)[r]
  }

  lemma FullScratchGoes(m: nat, ids: seq<int>) returns (ids': seq<int>)
    requires m >= 1 && Cells(FullScratch, m) <= |ids|
    ensures Goes(Chunk.GraphOf(m), HashCode(FullScratch, m), ids, ids') && |ids'| == |ids|
    ensures Known(ids', Solid(FullScratch, m))
    ensures forall r: nat {:trigger FoundAt(FullScratch, m, ids', r)} :: r < m ==> FoundAt(FullScratch, m, ids', r)
  {
    hide Chunk.GraphOf;
    hide Chunk.ScratchNodes;
    hide GraphCode;
    hide Goes;
    hide FoundAt;
    hide Dag.WellFormed;
    var h := Chunk.GraphOf(m);
    Chunk.GraphWellFormed(m);
    ids' := GraphGoes(h, |h|, ids);
    assert h[..|h|] == h;
    NodesFound(m, ids');
  }

  lemma NodesFound(m: nat, ids: seq<int>)
    requires m >= 1 && Chunk.ScratchNodes(m) <= |ids|
    requires forall k {:trigger ids[k]} :: 0 <= k < Chunk.ScratchNodes(m) ==> ids[k] == k
    ensures forall r: nat {:trigger FoundAt(FullScratch, m, ids, r)} :: r < m ==> FoundAt(FullScratch, m, ids, r)
  {
    hide Chunk.GraphOf;
    hide Chunk.ScratchNodes;
    hide Chunk.OutputIds;
    Chunk.OutputIdsAscend(m);
    Dag.AscendingWithin(Chunk.OutputIds(m), 0, |Chunk.GraphOf(m)|);
    forall r: nat | r < m
      ensures FoundAt(FullScratch, m, ids, r)
    {
      assert Chunk.OutputIds(m)[r] < |Chunk.GraphOf(m)|;
    }
  }

  lemma InPlaceGoes(m: nat, ids: seq<int>) returns (ids': seq<int>)
    requires m >= 1 && Cells(InPlace, m) <= |ids|
    ensures Goes(Chunk.GraphOf(m), HashCode(InPlace, m), ids, ids') && |ids'| == |ids|
    ensures Known(ids', Solid(InPlace, m))
    ensures forall r: nat {:trigger FoundAt(InPlace, m, ids', r)} :: r < m ==> FoundAt(InPlace, m, ids', r)
  {
    hide Goes;
    hide StandaloneCode;
    hide Dag.Standalone;
    hide Dag.StandaloneCount;
    hide Arena.StandalonePeak;
    hide Bits.Pow2;
    hide Holds;
    var level, half, s := Chunk.ParamN(m) + 1, Bits.Pow2(Chunk.ParamN(m)), Chunk.ScaffoldOf(m);
    HalfIs(m);
    Arena.ArenaSuffices(level);
    Chunk.ParamNBounds(m);
    var mid := StandaloneGoes(s.right.g, [], level, 0, 4 * half, ids);
    ids' := StandaloneGoes(s.right.g, s.left.g, level, 2 * half, 4 * half, mid);
    HoldsKept(mid, ids', 0, s.left.base, 2 * half, 2 * half, 4 * half);
    GoesThen(s.right.g, StandaloneCode(level, 0, 4 * half, 0),
             StandaloneCode(level, 2 * half, 4 * half, |s.left.g|), ids, mid, ids');
    BasesFound(m, ids');
  }

  lemma HalfIs(m: nat)
    ensures Bits.Pow2(Chunk.ParamN(m) + 1) == 2 * Bits.Pow2(Chunk.ParamN(m))
  {
  }

  lemma HoldsAt(ids: seq<int>, p: nat, ns: seq<nat>, i: nat)
    requires Holds(ids, p, ns) && i < |ns|
    ensures p + i < |ids| && ids[p + i] == ns[i]
  {
  }

  lemma BasesFound(m: nat, ids: seq<int>)
    requires m >= 1 && Holds(ids, 0, Chunk.ScaffoldOf(m).left.base)
    requires Holds(ids, 2 * Bits.Pow2(Chunk.ParamN(m)), Chunk.ScaffoldOf(m).right.base)
    ensures Known(ids, Solid(InPlace, m))
    ensures forall r: nat {:trigger FoundAt(InPlace, m, ids, r)} :: r < m ==> FoundAt(InPlace, m, ids, r)
  {
    hide Holds;
    hide Bits.Pow2;
    hide FoundAt;
    var s, half := Chunk.ScaffoldOf(m), Bits.Pow2(Chunk.ParamN(m));
    hide Chunk.ScaffoldOf;
    HoldsAt(ids, 2 * half, s.right.base, 2 * half - 1);
    forall k | 0 <= k < 4 * half
      ensures ids[k] >= 0
    {
      if k < 2 * half {
        HoldsAt(ids, 0, s.left.base, k);
      } else {
        HoldsAt(ids, 2 * half, s.right.base, k - 2 * half);
      }
    }
    forall r: nat | r < m
      ensures FoundAt(InPlace, m, ids, r)
    {
      BaseFound(m, ids, r);
    }
  }

  lemma BaseFound(m: nat, ids: seq<int>, r: nat)
    requires m >= 1 && r < m && Holds(ids, 0, Chunk.ScaffoldOf(m).left.base)
    requires Holds(ids, 2 * Bits.Pow2(Chunk.ParamN(m)), Chunk.ScaffoldOf(m).right.base)
    ensures FoundAt(InPlace, m, ids, r)
  {
    hide Chunk.OutputIds;
    hide Holds;
    hide Bits.Pow2;
    var s, half := Chunk.ScaffoldOf(m), Bits.Pow2(Chunk.ParamN(m));
    hide Chunk.ScaffoldOf;
    Chunk.OutputAt(m, r);
    if r < half {
      HoldsAt(ids, 0, s.left.base, half + r);
    } else {
      HoldsAt(ids, 2 * half, s.right.base, r);
    }
  }

  /** After hashing every rank's label can be found, whatever the cells held before. */
  lemma HashCodeGoes(labeler: Labeler, m: nat, ids: seq<int>) returns (ids': seq<int>)
    requires m >= 1 && Cells(labeler, m) <= |ids|
    ensures Goes(Chunk.GraphOf(m), HashCode(labeler, m), ids, ids') && |ids'| == |ids|
    ensures Known(ids', Solid(labeler, m))
    ensures forall r: nat {:trigger FoundAt(labeler, m, ids', r)} :: r < m ==> FoundAt(labeler, m, ids', r)
  {
    hide FoundAt;
    hide HashCode;
    hide Goes;
    hide Chunk.GraphOf;
    SolidFits(labeler, m);
    hide Cells;
    hide Solid;
    match labeler
    case FullScratch => ids' := FullScratchGoes(m, ids);
    case InPlace => ids' := InPlaceGoes(m, ids);
  }

  lemma SolidFits(labeler: Labeler, m: nat)
    ensures Solid(labeler, m) <= Cells(labeler, m)
  {
  }

  // ---------- copying ----------

  /** The cells from `lo` on hold what the cells `from`, all below `lo`, hold and held before. */
  ghost predicate Copied(from: seq<nat>, lo: nat, before: seq<Label>, after: seq<Label>) {
    && lo + |from| <= |before| == |after|
    && (forall k {:trigger after[k]} :: 0 <= k < lo ==> after[k] == before[k])
    && (forall r {:trigger from[r]} :: 0 <= r < |from| ==> from[r] < lo && after[lo + r] == before[from[r]])
  }

  lemma CopiedNext(from: seq<nat>, lo: nat, before: seq<Label>, mid: seq<Label>)
    requires |from| > 0 && lo + |from| <= |before| && from[|from| - 1] < lo
    requires Copied(from[..|from| - 1], lo, before, mid)
    ensures Copied(from, lo, before, mid[lo + |from| - 1 := mid[from[|from| - 1]]])
  {
    var r := |from| - 1;
    var after := mid[lo + r := mid[from[r]]];
    forall j {:trigger from[j]} | 0 <= j < |from|
      ensures from[j] < lo && after[lo + j] == before[from[j]]
    {
      if j < r { assert from[..r][j] == from[j]; }
    }
  }

  lemma {:induction false} CopyExec(session: Session, from: seq<nat>, lo: nat, cells: seq<Label>)
    requires forall r {:trigger from[r]} :: 0 <= r < |from| ==> from[r] < lo
    requires lo + |from| <= |cells|
    ensures Below(CopyCode(from, lo), |cells|)
    ensures Copied(from, lo, cells, Exec(session, CopyCode(from, lo), cells))
    decreases |from|
  {
    if |from| > 0 {
      hide Exec;
      var front := from[..|from| - 1];
      assert forall j {:trigger front[j]} :: 0 <= j < |front| ==> front[j] == from[j];
      CopyExec(session, front, lo, cells);
      CopyExecNext(session, from, lo, cells);
    }
  }

  lemma CopyExecNext(session: Session, from: seq<nat>, lo: nat, cells: seq<Label>)
    requires |from| > 0 && lo + |from| <= |cells| && from[|from| - 1] < lo
    requires Below(CopyCode(from[..|from| - 1], lo), |cells|)
    requires Copied(from[..|from| - 1], lo, cells, Exec(session, CopyCode(from[..|from| - 1], lo), cells))
    ensures Below(CopyCode(from, lo), |cells|)
    ensures Copied(from, lo, cells, Exec(session, CopyCode(from, lo), cells))
  {
    hide Exec;
    hide Copied;
    var r := |from| - 1;
    var front, last := CopyCode(from[..r], lo), Move(lo + r, from[r]);
    var mid := Exec(session, front, cells);
    ExecNext(session, last, mid);
    ExecThen(session, front, [last], cells);
    assert CopyCode(from, lo) == front + [last];
    hide CopyCode;
    assert ExecOne(session, last, mid) == mid[lo + r := mid[from[r]]];
    CopiedNext(from, lo, cells, mid);
  }

  lemma ExecNext(session: Session, instr: Instr, cells: seq<Label>)
    requires instr.Below(|cells|)
    ensures Below([instr], |cells|) && Exec(session, [instr], cells) == ExecOne(session, instr, cells)
  {
    assert [instr][..0] == [];
  }

  // ---------- a chunk ----------

  function CodeOf(labeler: Labeler, m: nat, lo: nat): Code
    requires m >= 1
  {
    HashCode(labeler, m) + CopyCode(Found(labeler, m), lo)
  }

  /** Labels chunk `seed` of `m` blocks over `lo` scratch cells. */
  function ChunkCode(labeler: Labeler, p: Chunk.Primitives, seed: Label, m: nat, lo: nat): Program
    requires m >= 1
  {
    Running(Chunk.SessionOf(p, seed, m), Accesses(CodeOf(labeler, m, lo)))
  }

  /** After hashing: rank r's label is where it is looked for, and solid cells hold labels of the chunk's graph. */
  lemma Hashed(labeler: Labeler, p: Chunk.Primitives, seed: Label, m: nat, cells: seq<Label>) returns (ids: seq<int>)
    requires m >= 1 && Cells(labeler, m) <= |cells|
    ensures Below(HashCode(labeler, m), |cells|) && Dag.WellFormed(Chunk.GraphOf(m))
    ensures var session, after := Chunk.SessionOf(p, seed, m),
              Exec(Chunk.SessionOf(p, seed, m), HashCode(labeler, m), cells);
            && Stands(session, Chunk.GraphOf(m), after, ids)
            && Known(ids, Solid(labeler, m))
            && (forall r {:trigger Found(labeler, m)[r]} :: 0 <= r < m ==>
                  Found(labeler, m)[r] < Solid(labeler, m) <= |cells|
                  && after[Found(labeler, m)[r]] == Chunk.ChunkLabels(p, seed, m)[r])
  {
    hide Chunk.GraphOf;
    hide Chunk.OutputIds;
    hide Chunk.ScratchNodes;
    hide Chunk.ScratchSlots;
    hide HashCode;
    hide Found;
    hide Labels;
    hide Goes;
    Chunk.GraphWellFormed(m);
    var session, unknown := Chunk.SessionOf(p, seed, m), seq(|cells|, _ => -1);
    assert Stands(session, Chunk.GraphOf(m), cells, unknown);
    ids := HashCodeGoes(labeler, m, unknown);
    ExecStands(session, Chunk.GraphOf(m), HashCode(labeler, m), cells, unknown, ids);
    SolidFits(labeler, m);
    var after := Exec(session, HashCode(labeler, m), cells);
    Chunk.OutputIdsAscend(m);
    Dag.AscendingWithin(Chunk.OutputIds(m), 0, |Chunk.GraphOf(m)|);
    forall r {:trigger Found(labeler, m)[r]} | 0 <= r < m
      ensures Found(labeler, m)[r] < Solid(labeler, m)
      ensures after[Found(labeler, m)[r]] == Chunk.ChunkLabels(p, seed, m)[r]
    {
      assert FoundAt(labeler, m, ids, r);
      assert ids[Found(labeler, m)[r]] == Chunk.OutputIds(m)[r];
    }
  }

  /** The code fills the blocks with the chunk's labels, whatever its cells held before. */
  lemma ChunkExec(labeler: Labeler, p: Chunk.Primitives, seed: Label, m: nat, lo: nat, cells: seq<Label>)
    requires m >= 1 && Cells(labeler, m) <= lo && |cells| == lo + m
    ensures Below(CodeOf(labeler, m, lo), |cells|)
    ensures Exec(Chunk.SessionOf(p, seed, m), CodeOf(labeler, m, lo), cells)[lo..] == Chunk.ChunkLabels(p, seed, m)
  {
    hide Chunk.ChunkLabels;
    hide HashCode;
    hide Found;
    hide CopyCode;
    hide Exec;
    hide Stands;
    var session := Chunk.SessionOf(p, seed, m);
    var ids := Hashed(labeler, p, seed, m, cells);
    SolidFits(labeler, m);
    var after := Exec(session, HashCode(labeler, m), cells);
    CopyExec(session, Found(labeler, m), lo, after);
    ExecThen(session, HashCode(labeler, m), CopyCode(Found(labeler, m), lo), cells);
    var last := Exec(session, CodeOf(labeler, m, lo), cells);
    forall r | 0 <= r < m
      ensures last[lo..][r] == Chunk.ChunkLabels(p, seed, m)[r]
    {
      assert Found(labeler, m)[r] < lo && last[lo + r] == after[Found(labeler, m)[r]];
    }
  }

  /** Alone, the program fills its blocks with the chunk's labels. */
  lemma ChunkCodeFills(labeler: Labeler, p: Chunk.Primitives, seed: Label, m: nat, lo: nat, cells: seq<Label>)
    requires m >= 1 && Cells(labeler, m) <= lo && |cells| == lo + m
    ensures Fills(ChunkCode(labeler, p, seed, m, lo), cells, lo, Chunk.ChunkLabels(p, seed, m))
  {
    hide Chunk.ChunkLabels;
    hide Chunk.SessionOf;
    hide CodeOf;
    hide Fills;
    hide Exec;
    ChunkExec(labeler, p, seed, m, lo, cells);
    CodeFills(Chunk.SessionOf(p, seed, m), CodeOf(labeler, m, lo), cells, lo, Chunk.ChunkLabels(p, seed, m));
  }
}
