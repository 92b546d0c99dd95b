/** One chunk: its graph, its output set, and the three ways the library computes it. */
module Chunk {
  import opened Bits
  import opened Dag
  import opened Labelling
  import Arena
  import IdEmitter
  import LabelEmitter

  /** Largest chunk the library accepts. */
  const MAX_M: nat := 0x10_0000

  // ---------- graph parameter ----------

  function BitLength(v: nat): (bits: nat)
    ensures v == 0 <==> bits == 0
  {
    if v == 0 then 0 else 1 + BitLength(v / 2)
  }

  lemma {:induction false} BitLengthBounds(v: nat)
    requires v > 0
    ensures Pow2(BitLength(v) - 1) <= v < Pow2(BitLength(v))
  {
    if v / 2 > 0 {
      BitLengthBounds(v / 2);
    }
  }

  function ParamN(m: nat): nat {
    if m <= 1 then 0 else BitLength(m - 1) - 1
  }

  /** half_w < m <= 2 half_w, except for the one-block chunk, which fills its half exactly. */
  lemma ParamNBounds(m: nat)
    requires m >= 1
    ensures m >= 2 ==> Pow2(ParamN(m)) < m
    ensures m == 1 ==> Pow2(ParamN(m)) == m
    ensures m <= 2 * Pow2(ParamN(m))
  {
    if m >= 2 {
      BitLengthBounds(m - 1);
    }
  }

  method ParameterN(m: nat) returns (n: nat)
    ensures n == ParamN(m)
  {
    if m <= 1 {
      return 0;
    }
    var bits: nat, v: nat := 0, m - 1;
    while v > 0
      invariant bits + BitLength(v) == BitLength(m - 1)
    {
      bits := bits + 1;
      v := v / 2;
    }
    n := bits - 1;
  }

  // ---------- the chunk's graph and output set ----------

  datatype Scaffold = Scaffold(left: Emission, right: Emission)

  /** Two standalone copies, the right one continuing the left one's numbering. */
  function ScaffoldOf(m: nat): (s: Scaffold)
    ensures |s.left.g| == StandaloneCount(ParamN(m) + 1)
    ensures |s.right.g| == 2 * StandaloneCount(ParamN(m) + 1)
    ensures |s.left.base| == |s.right.base| == 2 * Pow2(ParamN(m))
    ensures s.left.g <= s.right.g
  {
    var left := Standalone([], ParamN(m) + 1);
    Scaffold(left, Standalone(left.g, ParamN(m) + 1))
  }

  function GraphOf(m: nat): (g: Graph)
    ensures |g| == ScratchNodes(m)
  {
    ScaffoldOf(m).right.g
  }

  /** The second half of the left base. */
  function LeftOutputs(m: nat): (ids: seq<nat>)
    ensures |ids| == Pow2(ParamN(m))
  {
    ScaffoldOf(m).left.base[Pow2(ParamN(m))..]
  }

  /** As many nodes of the right base's second half as are still needed. */
  function RightOutputs(m: nat): (ids: seq<nat>)
    requires m >= 1
    ensures Pow2(ParamN(m)) <= m && |ids| == m - Pow2(ParamN(m))
  {
    ParamNBounds(m);
    ScaffoldOf(m).right.base[Pow2(ParamN(m))..m]
  }

  /** Node ids of the challenge set in rank order. */
  function OutputIds(m: nat): (ids: seq<nat>)
    requires m >= 1
    ensures |ids| == m
  {
    LeftOutputs(m) + RightOutputs(m)
  }

  lemma OutputAt(m: nat, r: nat)
    requires m >= 1 && r < m
    ensures Pow2(ParamN(m)) <= m <= 2 * Pow2(ParamN(m))
    ensures OutputIds(m)[r] == if r < Pow2(ParamN(m)) then ScaffoldOf(m).left.base[Pow2(ParamN(m)) + r]
              else ScaffoldOf(m).right.base[r]
  {
    hide ScaffoldOf;
    ParamNBounds(m);
  }

  lemma GraphWellFormed(m: nat)
    ensures WellFormed(ScaffoldOf(m).left.g) && WellFormed(GraphOf(m))
  {
    var left := Standalone([], ParamN(m) + 1);
    StandaloneWellFormed([], ParamN(m) + 1);
    StandaloneWellFormed(left.g, ParamN(m) + 1);
  }

  /** Ranks map one-to-one onto m distinct nodes of the graph. */
  lemma OutputIdsAscend(m: nat)
    requires m >= 1
    ensures Ascending(OutputIds(m), 0, |GraphOf(m)|)
  {
    hide Standalone;
    hide Within;
    ParamNBounds(m);
    var s := ScaffoldOf(m);
    StandaloneAscending([], ParamN(m) + 1);
    StandaloneAscending(s.left.g, ParamN(m) + 1);
    AscendingSlice(s.left.base, Pow2(ParamN(m)), |s.left.base|, 0, |s.left.g|);
    AscendingSlice(s.right.base, Pow2(ParamN(m)), m, |s.left.g|, |s.right.g|);
    assert LeftOutputs(m) == s.left.base[Pow2(ParamN(m))..|s.left.base|];
    AscendingConcat(LeftOutputs(m), RightOutputs(m), 0, |s.left.g|, |s.left.g|, |s.right.g|);
  }

  lemma AscendingSlice(ids: seq<nat>, i: nat, j: nat, lo: nat, hi: nat)
    requires i <= j <= |ids| && Ascending(ids, lo, hi)
    ensures Ascending(ids[i..j], lo, hi)
  {
  }

  // ---------- hashing context ----------

  /** The primitives a chunk is labelled with; all three are arbitrary functions. */
  datatype Primitives = Primitives(node: NodeHash, descriptor: (nat, nat) -> Label, chunkSeed: (Label, nat) -> Label)

  function SessionOf(p: Primitives, seed: Label, m: nat): Session {
    Session(p.node, seed, p.descriptor(m, ParamN(m)))
  }

  /** The m output labels of a chunk in rank order. */
  function ChunkLabels(p: Primitives, seed: Label, m: nat): (ls: seq<Label>)
    requires m >= 1
    ensures |ls| == m
  {
    GraphWellFormed(m);
    OutputIdsAscend(m);
    Pick(SessionOf(p, seed, m), GraphOf(m), OutputIds(m))
  }

  /** The chunk's labels, from the primitives alone: whatever labels solve the chunk graph's hashing recurrence, with
      the chunk's seed and the descriptor of m and its graph parameter, rank r's label is that of its output node. */
  lemma ChunkLaw(p: Primitives, seed: Label, m: nat, ls: seq<Label>, r: nat)
    requires r < m && |ls| == |GraphOf(m)|
    requires forall id: nat {:trigger GraphOf(m)[id]} :: id < |GraphOf(m)| ==>
              match GraphOf(m)[id]
              case Source => ls[id] == p.node(true, id, [], seed, p.descriptor(m, ParamN(m)))
              case One(a) => a < id && ls[id] == p.node(false, id, [ls[a]], seed, p.descriptor(m, ParamN(m)))
              case Two(a, b) =>
                a < b < id && ls[id] == p.node(false, id, [ls[a], ls[b]], seed, p.descriptor(m, ParamN(m)))
    ensures OutputIds(m)[r] < |ls| && ChunkLabels(p, seed, m)[r] == ls[OutputIds(m)[r]]
  {
    hide GraphOf;
    hide OutputIds;
    hide Labels;
    hide Standalone;
    GraphWellFormed(m);
    OutputIdsAscend(m);
    AscendingWithin(OutputIds(m), 0, |GraphOf(m)|);
    HashedUnique(SessionOf(p, seed, m), GraphOf(m), ls);
  }

  /** Such labels. */
  ghost predicate Solves(p: Primitives, seed: Label, m: nat, ls: seq<Label>) {
    |ls| == |GraphOf(m)|
    && forall id: nat {:trigger GraphOf(m)[id]} :: id < |GraphOf(m)| ==>
         match GraphOf(m)[id]
         case Source => ls[id] == p.node(true, id, [], seed, p.descriptor(m, ParamN(m)))
         case One(a) => a < id && ls[id] == p.node(false, id, [ls[a]], seed, p.descriptor(m, ParamN(m)))
         case Two(a, b) =>
           a < b < id && ls[id] == p.node(false, id, [ls[a], ls[b]], seed, p.descriptor(m, ParamN(m)))
  }

  /** Blocks from `dst` on hold, in rank order, the output nodes' labels of whatever solves the recurrence. */
  ghost predicate HoldsSolution(p: Primitives, seed: Label, m: nat, out: seq<Label>, dst: nat)
    requires m >= 1
  {
    dst + m <= |out|
    && forall ls: seq<Label> {:trigger Solves(p, seed, m, ls)} :: Solves(p, seed, m, ls) ==>
         forall r: nat {:trigger out[dst + r]} {:trigger OutputIds(m)[r]} :: r < m ==>
           OutputIds(m)[r] < |ls| && out[dst + r] == ls[OutputIds(m)[r]]
  }

  /** There are such labels: the labelling itself. */
  lemma ChunkSolvable(p: Primitives, seed: Label, m: nat)
    ensures WellFormed(GraphOf(m)) && Solves(p, seed, m, Labels(SessionOf(p, seed, m), GraphOf(m)))
  {
    hide GraphOf;
    hide Labels;
    GraphWellFormed(m);
    forall id: nat {:trigger GraphOf(m)[id]} | id < |GraphOf(m)|
      ensures HashedFrom(p.node, seed, p.descriptor(m, ParamN(m)), GraphOf(m)[id], id,
                         Labels(SessionOf(p, seed, m), GraphOf(m)))
    {
      LabelLaw(SessionOf(p, seed, m), GraphOf(m), id);
    }
  }

  lemma ChunkSolution(p: Primitives, seed: Label, m: nat, out: seq<Label>, dst: nat)
    requires m >= 1 && dst + m <= |out| && out[dst..dst + m] == ChunkLabels(p, seed, m)
    ensures HoldsSolution(p, seed, m, out, dst)
  {
    hide GraphOf;
    hide OutputIds;
    hide ChunkLabels;
    forall ls: seq<Label> | Solves(p, seed, m, ls)
      ensures forall r: nat {:trigger out[dst + r]} {:trigger OutputIds(m)[r]} :: r < m ==>
                OutputIds(m)[r] < |ls| && out[dst + r] == ls[OutputIds(m)[r]]
    {
      forall r: nat | r < m
        ensures OutputIds(m)[r] < |ls| && out[dst + r] == ls[OutputIds(m)[r]]
      {
        ChunkLaw(p, seed, m, ls, r);
        assert out[dst..dst + m][r] == out[dst + r];
      }
    }
  }

  lemma ChunkLabelsSplit(p: Primitives, seed: Label, m: nat)
    requires m >= 1
    ensures WellFormed(GraphOf(m)) && Within(LeftOutputs(m), 0, |GraphOf(m)|)
    ensures Within(RightOutputs(m), 0, |GraphOf(m)|)
    ensures ChunkLabels(p, seed, m) == Pick(SessionOf(p, seed, m), GraphOf(m), LeftOutputs(m))
                                       + Pick(SessionOf(p, seed, m), GraphOf(m), RightOutputs(m))
  {
    hide LeftOutputs;
    hide RightOutputs;
    hide GraphOf;
    hide Labels;
    hide Pow2;
    OutputIdsAscend(m);
    GraphWellFormed(m);
    WithinParts(LeftOutputs(m), RightOutputs(m), |GraphOf(m)|);
    PickConcat(SessionOf(p, seed, m), GraphOf(m), LeftOutputs(m), RightOutputs(m));
  }

  lemma WithinParts(front: seq<nat>, back: seq<nat>, n: nat)
    requires Within(front + back, 0, n)
    ensures Within(front, 0, n) && Within(back, 0, n)
  {
    WithinSlices(front + back, |front|, 0, n, n);
    assert (front + back)[..|front|] == front && (front + back)[|front|..] == back;
  }

  // ---------- buffers ----------

  function ScratchNodes(m: nat): nat {
    2 * StandaloneCount(ParamN(m) + 1)
  }

  /** Two base-output arrays and one arena per emitter, in words. */
  function ScratchWords(m: nat): nat {
    4 * Pow2(ParamN(m)) + 2 * Arena.ArenaSize(Pow2(ParamN(m)))
  }

  /** Two base-output arrays and one arena, in labels. */
  function ScratchSlots(m: nat): nat {
    4 * Pow2(ParamN(m)) + Arena.ArenaSize(Pow2(ParamN(m)))
  }

  /** Copy labels of the nodes whose ids are stored at `src`. */
  method CopyOut(out: array<Label>, dst: nat, labels: array<Label>, mem: array<nat>, src: nat, n: nat,
                 ghost ids: seq<nat>)
    requires out != labels && dst + n <= out.Length && src + n <= mem.Length
    requires |ids| == n && mem[src..src + n] == ids && Within(ids, 0, labels.Length)
    modifies out
    ensures forall k {:trigger out[k]} :: dst <= k < dst + n ==> out[k] == labels[ids[k - dst]]
    ensures forall k {:trigger out[k]} :: 0 <= k < out.Length && !(dst <= k < dst + n) ==> out[k] == old(out[k])
  {
    for i := 0 to n
      invariant forall k {:trigger out[k]} :: dst <= k < dst + i ==> out[k] == labels[ids[k - dst]]
      invariant forall k {:trigger out[k]} :: 0 <= k < out.Length && !(dst <= k < dst + i) ==> out[k] == old(out[k])
    {
      assert mem[src + i] == mem[src..src + n][i];
      out[dst + i] := labels[mem[src + i]];
    }
  }

  /** Both standalone copies, one after the other, into the id-indexed label buffer. */
  method LabelScaffold(session: Session, m: nat, n: nat, half: nat, labels: array<Label>, mem: array<nat>)
    requires m >= 1 && n == ParamN(m) && half == Pow2(n) && half <= m <= 2 * half
    requires labels.Length >= |GraphOf(m)| && mem.Length >= ScratchWords(m)
    modifies labels, mem
    ensures WellFormed(GraphOf(m)) && labels[..|GraphOf(m)|] == Labels(session, GraphOf(m))
    ensures mem[half..2 * half] == LeftOutputs(m)
    ensures mem[3 * half..2 * half + m] == RightOutputs(m)
  {
    hide Standalone;
    hide Arena.StandalonePeak;
    hide StandaloneCount;
    hide WellFormed;
    hide Within;
    hide LeftOutputs;
    hide RightOutputs;
    hide Pow2;
    hide Labels;
    var level := n + 1;
    var leftTotal := StandaloneCount(level);
    var arenaElems := Arena.ArenaSize(half);
    Arena.ArenaSuffices(level);
    var leftBase, rightBase := 0, 2 * half;
    var arenaLeft := rightBase + 2 * half;
    var arenaRight := arenaLeft + arenaElems;
    ghost var scaffold := ScaffoldOf(m);

    var e := new IdEmitter.Emitter(session, labels, null, mem, arenaLeft, arenaElems);
    e.EmitStandalone(level, leftBase);
    assert e.nextId == leftTotal;
    ghost var before := e.Remember(leftBase, scaffold.left.base);

    var e' := new IdEmitter.Emitter.Resume(session, labels, null, mem, arenaRight, arenaElems, leftTotal, e.g);
    e'.EmitStandalone(level, rightBase);
    e'.HoldsKept(leftBase, scaffold.left.base, before);
    assert mem[rightBase..rightBase + 2 * half] == scaffold.right.base && mem[..2 * half] == scaffold.left.base;
    OutputSlices(mem[..], m, half);
  }

  /** The output ids, as slices of the two base arrays stored one behind the other. */
  lemma OutputSlices(mem: seq<nat>, m: nat, half: nat)
    requires m >= 1 && half == Pow2(ParamN(m)) && half <= m <= 2 * half && 4 * half <= |mem|
    requires mem[..2 * half] == ScaffoldOf(m).left.base
    requires mem[2 * half..2 * half + 2 * half] == ScaffoldOf(m).right.base
    ensures mem[half..2 * half] == LeftOutputs(m)
    ensures mem[3 * half..2 * half + m] == RightOutputs(m)
  {
    hide ScaffoldOf;
    SliceOfSlice(mem, 0, 2 * half, half, 2 * half);
    SliceOfSlice(mem, 2 * half, 2 * half, half, m);
    assert mem[2 * half + half..2 * half + m] == mem[3 * half..2 * half + m];
  }

  lemma SliceOfSlice<T>(s: seq<T>, lo: nat, n: nat, i: nat, j: nat)
    requires lo + n <= |s| && i <= j <= n
    ensures s[lo..lo + n][i..j] == s[lo + i..lo + j]
  {
    var t := s[lo..lo + n];
    assert forall k {:trigger t[k]} :: 0 <= k < n ==> t[k] == s[lo + k];
    forall k | 0 <= k < j - i
      ensures t[i..j][k] == s[lo + i..lo + j][k]
    {
      assert t[i..j][k] == t[i + k];
    }
  }

  /** Full-scratch labelling: every label kept in an id-indexed buffer, then the output set copied out. */
  method DoLabel(p: Primitives, seed: Label, m: nat, out: array<Label>, dst: nat, labels: array<Label>, mem: array<nat>)
    returns (rc: int)
    requires out != labels && dst + m <= out.Length
    requires 1 <= m <= MAX_M ==> labels.Length >= ScratchNodes(m) && mem.Length >= ScratchWords(m)
    modifies out, labels, mem
    ensures rc == (if 1 <= m <= 0x10_0000 then 0 else -1)
    ensures rc == 0 ==> out[dst..dst + m] == ChunkLabels(p, seed, m)
    ensures rc == 0 ==> HoldsSolution(p, seed, m, out[..], dst)
    ensures forall k {:trigger out[k]} :: 0 <= k < out.Length && !(rc == 0 && dst <= k < dst + m) ==>
              out[k] == old(out[k])
  {
    hide LeftOutputs;
    hide RightOutputs;
    hide GraphOf;
    hide Labels;
    hide StandaloneCount;
    hide Pow2;
    hide HoldsSolution;
    if m == 0 || m > MAX_M {
      return -1;
    }
    var n := ParameterN(m);
    ParamNBounds(m);
    var half := Pow2(n);
    var retained := m - half;
    LabelScaffold(SessionOf(p, seed, m), m, n, half, labels, mem);
    OutputIdsAscend(m);
    ghost var ids := OutputIds(m);
    assert ids[..half] == LeftOutputs(m) && ids[half..] == RightOutputs(m);
    CopyOut(out, dst, labels, mem, half, half, LeftOutputs(m));
    CopyOut(out, dst + half, labels, mem, 3 * half, retained, RightOutputs(m));
    assert out[dst..dst + m] == ChunkLabels(p, seed, m);
    ChunkSolution(p, seed, m, out[..], dst);
    rc := 0;
  }

  // ---------- in-place labelling ----------

  /** Both standalone copies with transient labels only; the arena is reused for the right one.
      Returns the arena's high-water mark. */
  method LabelBases(session: Session, m: nat, n: nat, half: nat, mem: array<Label>) returns (hi: nat)
    requires m >= 1 && n == ParamN(m) && half == Pow2(n) && half <= m <= 2 * half
    requires mem.Length >= ScratchSlots(m)
    modifies mem
    ensures WellFormed(GraphOf(m)) && Within(LeftOutputs(m), 0, |GraphOf(m)|)
    ensures Within(RightOutputs(m), 0, |GraphOf(m)|)
    ensures mem[half..2 * half] == Pick(session, GraphOf(m), LeftOutputs(m))
    ensures mem[3 * half..2 * half + m] == Pick(session, GraphOf(m), RightOutputs(m))
    ensures hi == Arena.StandalonePeak(n + 1)
  {
    hide LeftOutputs;
    hide RightOutputs;
    hide ScaffoldOf;
    hide GraphOf;
    hide WellFormed;
    hide Within;
    hide Pow2;
    hide Labels;
    hide Arena.StandalonePeak;
    hi := LabelCopies(session, m, n, half, mem);
    LabelSlices(mem[..], session, m, half);
  }

  /** Both scaffold copies, one after the other in one arena: their base labels fill the first 4·half slots. */
  method LabelCopies(session: Session, m: nat, n: nat, half: nat, mem: array<Label>) returns (hi: nat)
    requires m >= 1 && n == ParamN(m) && half == Pow2(n)
    requires mem.Length >= 4 * half + Arena.ArenaSize(half)
    modifies mem
    ensures WellFormed(GraphOf(m)) && Within(ScaffoldOf(m).left.base, 0, |GraphOf(m)|)
    ensures Within(ScaffoldOf(m).right.base, 0, |GraphOf(m)|)
    ensures mem[..2 * half] == Pick(session, GraphOf(m), ScaffoldOf(m).left.base)
    ensures mem[2 * half..2 * half + 2 * half] == Pick(session, GraphOf(m), ScaffoldOf(m).right.base)
    ensures hi == Arena.StandalonePeak(n + 1)
  {
    hide Standalone;
    hide Arena.StandalonePeak;
    hide StandaloneCount;
    hide WellFormed;
    hide Within;
    hide Pow2;
    hide Labels;
    var level := n + 1;
    var leftTotal := StandaloneCount(level);
    var arenaSlots := Arena.ArenaSize(half);
    Arena.ArenaSuffices(level);
    var leftBase, rightBase := 0, 2 * half;
    ghost var scaffold := ScaffoldOf(m);

    var e := new LabelEmitter.LEmitter(session, mem, rightBase + 2 * half, arenaSlots);
    e.LcStandalone(level, leftBase);
    ghost var before, older := e.Remember(leftBase, scaffold.left.base);
    e.nextId := leftTotal;
    e.arenaOff := 0;
    e.LcStandalone(level, rightBase);
    e.ValidFacts();
    e.HoldsKept(leftBase, scaffold.left.base, before, older);
    hi := e.arenaHi;
  }

  /** Where labels of `ids` are stored from `at` on, those of a part of `ids` are a slice. */
  lemma PickPart(mem: seq<Label>, s: Session, g: Graph, ids: seq<nat>, at: nat, i: nat, j: nat)
    requires WellFormed(g) && Within(ids, 0, |g|) && i <= j <= |ids| && at + |ids| <= |mem|
    requires mem[at..at + |ids|] == Pick(s, g, ids)
    ensures Within(ids[i..j], 0, |g|) && mem[at + i..at + j] == Pick(s, g, ids[i..j])
  {
    hide Labels;
    hide WellFormed;
    SliceOfSlice(mem, at, |ids|, i, j);
    assert Pick(s, g, ids)[i..j] == Pick(s, g, ids[i..j]);
  }

  lemma LabelSlices(mem: seq<Label>, session: Session, m: nat, half: nat)
    requires m >= 1 && half == Pow2(ParamN(m)) && half <= m <= 2 * half && 4 * half <= |mem|
    requires WellFormed(GraphOf(m)) && Within(ScaffoldOf(m).left.base, 0, |GraphOf(m)|)
    requires Within(ScaffoldOf(m).right.base, 0, |GraphOf(m)|)
    requires mem[..2 * half] == Pick(session, GraphOf(m), ScaffoldOf(m).left.base)
    requires mem[2 * half..2 * half + 2 * half] == Pick(session, GraphOf(m), ScaffoldOf(m).right.base)
    ensures Within(LeftOutputs(m), 0, |GraphOf(m)|) && Within(RightOutputs(m), 0, |GraphOf(m)|)
    ensures mem[half..2 * half] == Pick(session, GraphOf(m), LeftOutputs(m))
    ensures mem[3 * half..2 * half + m] == Pick(session, GraphOf(m), RightOutputs(m))
  {
    hide ScaffoldOf;
    hide GraphOf;
    hide Pick;
    hide Within;
    hide WellFormed;
    hide Pow2;
    hide ParamN;
    var left, right := ScaffoldOf(m).left.base, ScaffoldOf(m).right.base;
    assert |left| == |right| == 2 * half;
    PickPart(mem, session, GraphOf(m), left, 0, half, 2 * half);
    PickPart(mem, session, GraphOf(m), right, 2 * half, half, m);
    assert left[half..] == left[half..2 * half];
    assert LeftOutputs(m) == left[half..] && RightOutputs(m) == right[half..m];
  }

  /** In-place labelling: only the output labels survive, written in rank order. */
  method DoLabelInplace(p: Primitives, seed: Label, m: nat, out: array<Label>, dst: nat, mem: array<Label>)
    returns (rc: int, ghost hi: nat)
    requires out != mem && dst + m <= out.Length
    requires 1 <= m <= MAX_M ==> mem.Length >= ScratchSlots(m)
    modifies out, mem
    ensures rc == (if 1 <= m <= 0x10_0000 then 0 else -1)
    ensures rc == 0 ==> out[dst..dst + m] == ChunkLabels(p, seed, m)
    ensures rc == 0 ==> HoldsSolution(p, seed, m, out[..], dst)
    ensures rc == 0 ==> 2 * hi <= 13 * Pow2(ParamN(m))
    ensures forall k {:trigger out[k]} :: 0 <= k < out.Length && !(rc == 0 && dst <= k < dst + m) ==>
              out[k] == old(out[k])
  {
    hide LeftOutputs;
    hide RightOutputs;
    hide GraphOf;
    hide Labels;
    hide Arena.StandalonePeak;
    hide Pow2;
    hide Pick;
    hide ChunkLabels;
    hide SessionOf;
    hide HoldsSolution;
    hi := 0;
    if m == 0 || m > MAX_M {
      return -1, 0;
    }
    var n := ParameterN(m);
    ParamNBounds(m);
    var half := Pow2(n);
    var retained := m - half;
    hi := LabelBases(SessionOf(p, seed, m), m, n, half, mem);
    Arena.StandalonePeakBound(n + 1);
    CopyOutputs(out, dst, mem, half, retained);
    ChunkLabelsSplit(p, seed, m);
    ChunkSolution(p, seed, m, out[..], dst);
    rc := 0;
  }

  /** `half` labels from the left base's second half, then `retained` from the right one's. */
  method CopyOutputs(out: array<Label>, dst: nat, mem: array<Label>, half: nat, retained: nat)
    requires out != mem && dst + half + retained <= out.Length && 3 * half + retained <= mem.Length
    modifies out
    ensures out[dst..dst + half + retained] == mem[half..2 * half] + mem[3 * half..3 * half + retained]
    ensures forall k {:trigger out[k]} :: 0 <= k < out.Length && !(dst <= k < dst + half + retained) ==>
              out[k] == old(out[k])
  {
    CopyLabels(out, dst, mem, half, half);
    CopyLabels(out, dst + half, mem, 3 * half, retained);
    assert out[dst..dst + half] == mem[half..2 * half];
    assert out[dst..dst + half + retained] == out[dst..dst + half] + out[dst + half..dst + half + retained];
  }

  method CopyLabels(out: array<Label>, dst: nat, mem: array<Label>, src: nat, n: nat)
    requires out != mem && dst + n <= out.Length && src + n <= mem.Length
    modifies out
    ensures out[dst..dst + n] == mem[src..src + n]
    ensures forall k {:trigger out[k]} :: 0 <= k < out.Length && !(dst <= k < dst + n) ==> out[k] == old(out[k])
  {
    for i := 0 to n
      invariant forall k {:trigger out[k]} :: dst <= k < dst + i ==> out[k] == mem[k - dst + src]
      invariant forall k {:trigger out[k]} :: 0 <= k < out.Length && !(dst <= k < dst + i) ==> out[k] == old(out[k])
    {
      out[dst + i] := mem[src + i];
    }
  }

  // ---------- edges ----------

  /** The node at challenge rank r carries r, every other node -1. */
  ghost predicate Ranked(records: seq<IdEmitter.NodeRecord>, g: Graph, ids: seq<nat>, done: nat)
    requires done <= |ids| && Within(ids, 0, |g|)
  {
    && |records| == |g|
    && (forall id {:trigger records[id]} :: 0 <= id < |g| ==> records[id].node == g[id])
    && (forall r {:trigger ids[r]} :: 0 <= r < done ==> records[ids[r]].rank == r)
    && (forall id {:trigger records[id]} :: 0 <= id < |g| && id !in ids[..done] ==> records[id].rank == -1)
  }

  lemma RecordedRanked(records: seq<IdEmitter.NodeRecord>, g: Graph, ids: seq<nat>)
    requires IdEmitter.Recorded(records, g) && Within(ids, 0, |g|)
    ensures Ranked(records, g, ids, 0)
  {
  }

  /** Mark `n` challenge nodes, whose ids are stored at `src`, with ranks from `first` on. */
  method MarkRanks(nodes: array<IdEmitter.NodeRecord>, mem: array<nat>, src: nat, first: nat, n: nat, ghost g: Graph,
                   ghost ids: seq<nat>)
    requires first + n <= |ids| && src + n <= mem.Length && mem[src..src + n] == ids[first..first + n]
    requires Ascending(ids, 0, |g|) && nodes.Length == |g|
    requires Ranked(nodes[..], g, ids, first)
    modifies nodes
    ensures Ranked(nodes[..], g, ids, first + n)
  {
    for i := 0 to n
      invariant Ranked(nodes[..], g, ids, first + i)
    {
      assert mem[src + i] == mem[src..src + n][i] == ids[first + i];
      var id := mem[src + i];
      nodes[id] := nodes[id].(rank := first + i);
      assert ids[..first + i + 1] == ids[..first + i] + [id];
    }
  }

  /** The edge enumerator: same emitter in edge mode, one id counter running through both copies. */
  method GraphEdges(m: nat) returns (rc: int, nodes: array?<IdEmitter.NodeRecord>, count: nat)
    ensures rc == (if 1 <= m <= 0x10_0000 then 0 else -1)
    ensures rc == 0 ==> nodes != null && fresh(nodes) && count == |GraphOf(m)| == nodes.Length
    ensures rc == 0 ==> forall id {:trigger nodes[id]} :: 0 <= id < nodes.Length ==>
                          nodes[id].node == GraphOf(m)[id] && (id !in OutputIds(m) ==> nodes[id].rank == -1)
    ensures rc == 0 ==> forall r: nat {:trigger OutputIds(m)[r]} :: r < m ==>
                          OutputIds(m)[r] < nodes.Length && nodes[OutputIds(m)[r]].rank == r
    ensures rc == 0 ==> Ascending(OutputIds(m), 0, |GraphOf(m)|) && Ranked(nodes[..], GraphOf(m), OutputIds(m), m)
  {
    hide LeftOutputs;
    hide RightOutputs;
    hide GraphOf;
    hide Pow2;
    hide Ascending;
    hide Ranked;
    if m == 0 || m > MAX_M {
      return -1, null, 0;
    }
    var n := ParameterN(m);
    ParamNBounds(m);
    var half := Pow2(n);
    var mem;
    nodes, mem := RecordScaffold(m, n, half);
    OutputIdsAscend(m);
    AscendingWithin(OutputIds(m), 0, |GraphOf(m)|);
    RecordedRanked(nodes[..], GraphOf(m), OutputIds(m));
    OutputParts(m, half);
    hide OutputIds;
    MarkRanks(nodes, mem, half, 0, half, GraphOf(m), OutputIds(m));
    MarkRanks(nodes, mem, 3 * half, half, m - half, GraphOf(m), OutputIds(m));
    AllRanked(nodes, GraphOf(m), OutputIds(m));
    rc, count := 0, nodes.Length;
  }

  lemma AllRanked(nodes: array<IdEmitter.NodeRecord>, g: Graph, ids: seq<nat>)
    requires Within(ids, 0, |g|) && Ranked(nodes[..], g, ids, |ids|)
    ensures nodes.Length == |g|
    ensures forall id {:trigger nodes[id]} :: 0 <= id < |g| ==>
              nodes[id].node == g[id] && (id !in ids ==> nodes[id].rank == -1)
    ensures forall r: nat {:trigger ids[r]} :: r < |ids| ==> ids[r] < nodes.Length && nodes[ids[r]].rank == r
  {
    assert ids[..|ids|] == ids;
    assert forall id {:trigger nodes[id]} :: 0 <= id < nodes.Length ==> nodes[id] == nodes[..][id];
    assert forall r: nat {:trigger ids[r]} :: r < |ids| ==> nodes[ids[r]] == nodes[..][ids[r]];
  }

  lemma OutputParts(m: nat, half: nat)
    requires m >= 1 && half == Pow2(ParamN(m)) && half <= m
    ensures OutputIds(m)[0..half] == LeftOutputs(m) && OutputIds(m)[half..half + (m - half)] == RightOutputs(m)
  {
    hide LeftOutputs;
    hide RightOutputs;
  }

  method RecordScaffold(m: nat, n: nat, half: nat) returns (nodes: array<IdEmitter.NodeRecord>, mem: array<nat>)
    requires m >= 1 && n == ParamN(m) && half == Pow2(n) && half <= m <= 2 * half
    ensures fresh(nodes) && fresh(mem) && nodes.Length == |GraphOf(m)| && IdEmitter.Recorded(nodes[..], GraphOf(m))
    ensures mem.Length == ScratchSlots(m)
    ensures mem[half..2 * half] == LeftOutputs(m)
    ensures mem[3 * half..2 * half + m] == RightOutputs(m)
  {
    hide Standalone;
    hide Arena.StandalonePeak;
    hide StandaloneCount;
    hide WellFormed;
    hide Within;
    hide LeftOutputs;
    hide RightOutputs;
    hide Pow2;
    hide Labels;
    hide ParamN;
    hide ScratchNodes;
    var level := n + 1;
    Arena.ArenaSuffices(level);
    var total := 2 * StandaloneCount(level);
    nodes := new IdEmitter.NodeRecord[total](_ => IdEmitter.NodeRecord(Source, -1));
    mem := new nat[4 * half + Arena.ArenaSize(half)];
    var leftBase, rightBase := 0, 2 * half;
    ghost var scaffold := ScaffoldOf(m);
    // Edge mode never hashes, so any session will do.
    var session := Session((_, _, _, _, _) => Label([]), Label([]), Label([]));
    var e := new IdEmitter.Emitter(session, null, nodes, mem, rightBase + 2 * half, Arena.ArenaSize(half));
    e.EmitStandalone(level, leftBase);
    ghost var before := e.Remember(leftBase, scaffold.left.base);
    e.EmitStandalone(level, rightBase);
    e.HoldsKept(leftBase, scaffold.left.base, before);
    assert mem[rightBase..rightBase + 2 * half] == scaffold.right.base && mem[..2 * half] == scaffold.left.base;
    OutputSlices(mem[..], m, half);
    assert nodes[..] == nodes[..e.nextId];
  }
}
