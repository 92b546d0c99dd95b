/** Labelling code without branches: a sequence of instructions that hash and move labels between cells.

    What the code does to the cells is a fold over the instructions; which node's label a cell holds afterwards does
    not depend on the hash, and is a fold over node ids. As a program of single accesses an instruction reads its
    sources and then writes its destination.
 */
module StraightCode {
  import Dag
  import opened Labelling
  import opened SharedMemory

  /** `HashTwice` labels node `id` over `ingress` into a local variable and node `id + 1` over `primary` and that. */
  datatype Instr =
    | Hash(at: nat, id: nat, from: seq<nat>)
    | HashTwice(at: nat, id: nat, ingress: nat, primary: nat)
    | Move(at: nat, source: nat)
  {
    /** The cells read, in the order in which they are read. */
    function Sources(): seq<nat> {
      match this
      case Hash(_, _, from) => from
      case HashTwice(_, _, ingress, primary) => [ingress, primary]
      case Move(_, source) => [source]
    }

    predicate Below(size: nat) {
      at < size && forall i {:trigger Sources()[i]} :: 0 <= i < |Sources()| ==> Sources()[i] < size
    }

    /** The label written, over the labels read. */
    function Value(session: Session, args: seq<Label>): Label
      requires |args| == |Sources()|
    {
      match this
      case Hash(_, id, _) => NodeLabel(session, id, args)
      case HashTwice(_, id, _, _) => NodeLabel(session, id + 1, [args[1], NodeLabel(session, id, [args[0]])])
      case Move(_, _) => args[0]
    }

    /** The node whose label is written, over the nodes whose labels are read. */
    function Node(args: seq<int>): int
      requires |args| == |Sources()|
    {
      match this
      case Hash(_, id, _) => id
      case HashTwice(_, id, _, _) => id + 1
      case Move(_, _) => args[0]
    }
  }

  type Code = seq<Instr>

  function At<T>(cells: seq<T>, from: seq<nat>): (args: seq<T>)
    requires forall i {:trigger from[i]} :: 0 <= i < |from| ==> from[i] < |cells|
    ensures |args| == |from|
    ensures forall i {:trigger args[i]} :: 0 <= i < |from| ==> args[i] == cells[from[i]]
  {
    seq(|from|, i requires 0 <= i < |from| => cells[from[i]])
  }

  ghost predicate Below(code: Code, size: nat) {
    forall i {:trigger code[i]} :: 0 <= i < |code| ==> code[i].Below(size)
  }

  // ---------- what code does to cells ----------

  function ExecOne(session: Session, instr: Instr, cells: seq<Label>): (r: seq<Label>)
    requires instr.Below(|cells|)
    ensures |r| == |cells|
  {
    cells[instr.at := instr.Value(session, At(cells, instr.Sources()))]
  }

  function Exec(session: Session, code: Code, cells: seq<Label>): (r: seq<Label>)
    requires Below(code, |cells|)
    ensures |r| == |cells|
  {
    if |code| == 0 then cells
    else
      assert code[|code| - 1].Below(|cells|);
      ExecOne(session, code[|code| - 1], Exec(session, code[..|code| - 1], cells))
  }

  lemma {:induction false} ExecThen(session: Session, a: Code, b: Code, cells: seq<Label>)
    requires Below(a, |cells|) && Below(b, |cells|)
    ensures Below(a + b, |cells|) && Exec(session, a + b, cells) == Exec(session, b, Exec(session, a, cells))
    decreases |b|
  {
    if |b| == 0 {
      assert a + b == a;
    } else {
      var front := b[..|b| - 1];
      ExecThen(session, a, front, cells);
      assert (a + b)[..|a + b| - 1] == a + front;
    }
  }

  /** Cells that no instruction writes keep their labels. */
  ghost predicate Spares(code: Code, k: nat) {
    forall i {:trigger code[i]} :: 0 <= i < |code| ==> code[i].at != k
  }

  lemma {:induction false} ExecSpares(session: Session, code: Code, cells: seq<Label>, k: nat)
    requires Below(code, |cells|) && k < |cells| && Spares(code, k)
    ensures Exec(session, code, cells)[k] == cells[k]
    decreases |code|
  {
    if |code| > 0 {
      ExecSpares(session, code[..|code| - 1], cells, k);
      assert code[|code| - 1].at != k;
    }
  }

  // ---------- which node's label a cell holds ----------

  predicate Reads(node: Dag.Node, args: seq<int>) {
    match node
    case Source => |args| == 0
    case One(p) => |args| == 1 && args[0] == p
    case Two(p, q) => |args| == 2 && args[0] == p && args[1] == q
  }

  /** The instruction hashes nodes of `g` over their predecessors' labels. Negative: an unknown label. */
  predicate Fitting(g: Dag.Graph, instr: Instr, ids: seq<int>) {
    && instr.Below(|ids|)
    && var args := At(ids, instr.Sources());
       match instr
       case Hash(_, id, _) => id < |g| && Reads(g[id], args)
       case HashTwice(_, id, _, _) => id + 1 < |g| && Reads(g[id], [args[0]]) && Reads(g[id + 1], [args[1], id])
       case Move(_, _) => true
  }

  function StepOne(instr: Instr, ids: seq<int>): (r: seq<int>)
    requires instr.Below(|ids|)
    ensures |r| == |ids|
  {
    ids[instr.at := instr.Node(At(ids, instr.Sources()))]
  }

  /** The code, starting with labels of the nodes `ids`, hashes nodes of `g` only and ends with those of `ids'`. */
  ghost predicate Goes(g: Dag.Graph, code: Code, ids: seq<int>, ids': seq<int>)
    decreases |code|
  {
    if |code| == 0 then ids' == ids
    else
      Fitting(g, code[0], ids) && Goes(g, code[1..], StepOne(code[0], ids), ids')
  }

  lemma {:induction false} GoesThen(g: Dag.Graph, a: Code, b: Code, ids: seq<int>, mid: seq<int>, ids': seq<int>)
    requires Goes(g, a, ids, mid) && Goes(g, b, mid, ids')
    ensures Goes(g, a + b, ids, ids')
    decreases |a|
  {
    if |a| == 0 {
      assert a + b == b;
    } else {
      GoesThen(g, a[1..], b, StepOne(a[0], ids), mid, ids');
      assert (a + b)[1..] == a[1..] + b;
    }
  }

  lemma GoesOne(g: Dag.Graph, instr: Instr, ids: seq<int>)
    requires Fitting(g, instr, ids)
    ensures Goes(g, [instr], ids, StepOne(instr, ids))
  {
    assert [instr][1..] == [];
  }

  lemma {:induction false} GoesBelow(g: Dag.Graph, code: Code, ids: seq<int>, ids': seq<int>)
    requires Goes(g, code, ids, ids')
    ensures |ids'| == |ids| && Below(code, |ids|)
    decreases |code|
  {
    if |code| > 0 {
      GoesBelow(g, code[1..], StepOne(code[0], ids), ids');
      forall i | 0 <= i < |code|
        ensures code[i].Below(|ids|)
      {
        if i > 0 { assert code[i] == code[1..][i - 1]; }
      }
    }
  }

  /** Every cell that stands for a node holds its label. */
  ghost predicate Stands(session: Session, g: Dag.Graph, cells: seq<Label>, ids: seq<int>)
    requires Dag.WellFormed(g)
  {
    && |cells| == |ids|
    && forall k {:trigger ids[k]} :: 0 <= k < |ids| && ids[k] >= 0 ==>
         ids[k] < |g| && cells[k] == Labels(session, g)[ids[k]]
  }

  lemma OneStands(session: Session, g: Dag.Graph, instr: Instr, cells: seq<Label>, ids: seq<int>)
    requires Dag.WellFormed(g) && Stands(session, g, cells, ids) && Fitting(g, instr, ids)
    ensures Stands(session, g, ExecOne(session, instr, cells), StepOne(instr, ids))
  {
    hide NodeLabel;
    hide Labels;
    hide Reads;
    var args, nodes := At(cells, instr.Sources()), At(ids, instr.Sources());
    forall i {:trigger nodes[i]} | 0 <= i < |nodes| && nodes[i] >= 0
      ensures nodes[i] < |g| && args[i] == Labels(session, g)[nodes[i]]
    {
      assert nodes[i] == ids[instr.Sources()[i]];
    }
    match instr
    case Hash(_, id, _) =>
      HashStands(session, g, id, args, nodes);
    case HashTwice(_, id, _, _) =>
      HashStands(session, g, id, [args[0]], [nodes[0]]);
      HashStands(session, g, id + 1, [args[1], Labels(session, g)[id]], [nodes[1], id]);
    case Move(_, _) =>
  }

  /** Hashing a node over its predecessors' labels gives its label. */
  lemma HashStands(session: Session, g: Dag.Graph, id: nat, args: seq<Label>, ids: seq<int>)
    requires Dag.WellFormed(g) && id < |g| && Reads(g[id], ids) && |args| == |ids|
    requires forall i {:trigger ids[i]} :: 0 <= i < |ids| && 0 <= ids[i] < |g| ==> args[i] == Labels(session, g)[ids[i]]
    ensures NodeLabel(session, id, args) == Labels(session, g)[id]
  {
    hide NodeLabel;
    LabelAt(session, g, id);
    assert Dag.Fits(g[id], id);
    assert args == PredLabels(Labels(session, g), g[id]);
  }

  /** So code that fits the graph leaves labels of the graph where it says it does. */
  lemma {:induction false} ExecStands(session: Session, g: Dag.Graph, code: Code, cells: seq<Label>, ids: seq<int>,
                                      ids': seq<int>)
    requires Dag.WellFormed(g) && Stands(session, g, cells, ids) && Goes(g, code, ids, ids')
    ensures Below(code, |cells|) && Stands(session, g, Exec(session, code, cells), ids')
    decreases |code|
  {
    GoesBelow(g, code, ids, ids');
    if |code| > 0 {
      OneStands(session, g, code[0], cells, ids);
      assert code[0].Below(|cells|);
      var mid := ExecOne(session, code[0], cells);
      ExecStands(session, g, code[1..], mid, StepOne(code[0], ids), ids');
      ExecFirst(session, code, cells);
    }
  }

  lemma ExecFirst(session: Session, code: Code, cells: seq<Label>)
    requires |code| > 0 && Below(code, |cells|)
    ensures code[0].Below(|cells|) && Below(code[1..], |cells|)
    ensures Exec(session, code, cells) == Exec(session, code[1..], ExecOne(session, code[0], cells))
  {
    assert code == [code[0]] + code[1..];
    assert Below([code[0]], |cells|) && Below(code[1..], |cells|);
    ExecThen(session, [code[0]], code[1..], cells);
    assert [code[0]][..0] == [];
    assert Exec(session, [code[0]], cells) == ExecOne(session, code[0], Exec(session, [], cells));
  }

  // ---------- code as a program of accesses ----------

  datatype Op = Fetch(at: nat) | Put(instr: Instr)

  function Fetches(from: seq<nat>): (ops: seq<Op>)
    ensures |ops| == |from|
    ensures forall i {:trigger ops[i]} :: 0 <= i < |from| ==> ops[i] == Fetch(from[i])
  {
    seq(|from|, i requires 0 <= i < |from| => Fetch(from[i]))
  }

  function OpsOf(instr: Instr): seq<Op> {
    Fetches(instr.Sources()) + [Put(instr)]
  }

  function Accesses(code: Code): seq<Op> {
    if |code| == 0 then [] else Accesses(code[..|code| - 1]) + OpsOf(code[|code| - 1])
  }

  /** An instruction is computed from the labels it has read last. */
  function Running(session: Session, ops: seq<Op>): Program {
    h =>
      if |h| >= |ops| then Halt
      else
        match ops[|h|]
        case Fetch(at) => Read(at)
        case Put(instr) =>
          var k := |instr.Sources()|;
          if k <= |h| then Write(instr.at, instr.Value(session, h[|h| - k..])) else Halt
  }

  /** From state `s0` on the accesses lead to state `s`. */
  ghost predicate Ran(session: Session, ops: seq<Op>, s0: Alone, s: Alone) {
    && |s0.history| <= |s.history| && |s.cells| == |s0.cells|
    && s == RunFrom(Running(session, ops), s0, |s.history| - |s0.history|)
  }

  lemma RanNothing(session: Session, ops: seq<Op>, s: Alone)
    ensures Ran(session, ops, s, s)
  {
  }

  lemma {:induction false} RunsOn(prog: Program, s: Alone, n: nat, k: nat)
    ensures RunFrom(prog, s, n + k) == RunFrom(prog, RunFrom(prog, s, n), k)
    decreases k
  {
    if k > 0 {
      RunsOn(prog, s, n, k - 1);
    }
  }

  lemma RanThen(session: Session, ops: seq<Op>, s0: Alone, mid: Alone, s: Alone)
    requires Ran(session, ops, s0, mid) && Ran(session, ops, mid, s)
    ensures Ran(session, ops, s0, s)
  {
    hide Next;
    hide Running;
    RunsOn(Running(session, ops), s0, |mid.history| - |s0.history|, |s.history| - |mid.history|);
  }

  /** The operations from position `n` on are `part`. */
  ghost predicate Here(ops: seq<Op>, n: nat, part: seq<Op>) {
    n + |part| <= |ops| && forall k {:trigger part[k]} :: 0 <= k < |part| ==> ops[n + k] == part[k]
  }

  lemma HereParts(ops: seq<Op>, n: nat, front: seq<Op>, back: seq<Op>)
    requires Here(ops, n, front + back)
    ensures Here(ops, n, front) && Here(ops, n + |front|, back)
  {
    var part := front + back;
    forall k | 0 <= k < |front|
      ensures ops[n + k] == front[k]
    {
      assert part[k] == front[k];
    }
    forall k | 0 <= k < |back|
      ensures ops[n + |front| + k] == back[k]
    {
      assert part[|front| + k] == back[k];
    }
  }

  lemma AccessesNext(code: Code, last: Instr)
    ensures Accesses(code + [last]) == Accesses(code) + OpsOf(last)
  {
    assert (code + [last])[..|code|] == code;
  }

  lemma Regroup<T>(a: seq<T>, b: seq<T>, c: seq<T>)
    ensures (a + b) + c == a + (b + c)
  {
  }

  lemma {:induction false} AccessesThen(a: Code, b: Code)
    ensures Accesses(a + b) == Accesses(a) + Accesses(b)
    decreases |b|
  {
    hide OpsOf;
    if |b| == 0 {
      assert a + b == a && Accesses(b) == [];
    } else {
      hide Accesses;
      var front, last := b[..|b| - 1], b[|b| - 1];
      AccessesThen(a, front);
      AccessesNext(front, last);
      AccessesNext(a + front, last);
      assert front + [last] == b;
      assert (a + front) + [last] == a + b;
      Regroup(Accesses(a), Accesses(front), OpsOf(last));
    }
  }

  /** Reading the sources leaves their labels at the end of the history. */
  lemma {:induction false} FetchesRun(session: Session, ops: seq<Op>, s: Alone, from: seq<nat>) returns (s': Alone)
    requires Here(ops, |s.history|, Fetches(from))
    requires forall i {:trigger from[i]} :: 0 <= i < |from| ==> from[i] < |s.cells|
    ensures s' == Alone(s.cells, s.history + At(s.cells, from)) && Ran(session, ops, s, s')
    decreases |from|
  {
    s' := Alone(s.cells, s.history + At(s.cells, from));
    if |from| == 0 {
      assert s' == s;
    } else {
      var k := |from| - 1;
      var front := from[..k];
      assert Fetches(front) == Fetches(from)[..k];
      assert Here(ops, |s.history|, Fetches(front)) by {
        forall i | 0 <= i < k
          ensures ops[|s.history| + i] == Fetches(front)[i]
        {
          assert Fetches(from)[i] == Fetches(front)[i];
        }
      }
      var mid := FetchesRun(session, ops, s, front);
      assert ops[|s.history| + k] == Fetches(from)[k];
      assert s' == Next(Running(session, ops), mid) by {
        assert At(s.cells, from) == At(s.cells, front) + [s.cells[from[k]]];
      }
    }
  }

  lemma InstrRuns(session: Session, ops: seq<Op>, s: Alone, instr: Instr) returns (s': Alone)
    requires Here(ops, |s.history|, OpsOf(instr)) && instr.Below(|s.cells|)
    ensures Ran(session, ops, s, s') && s'.cells == ExecOne(session, instr, s.cells)
    ensures |s'.history| == |s.history| + |OpsOf(instr)|
  {
    var from := instr.Sources();
    HereParts(ops, |s.history|, Fetches(from), [Put(instr)]);
    var mid := FetchesRun(session, ops, s, from);
    assert ops[|mid.history| + 0] == [Put(instr)][0];
    assert mid.history[|mid.history| - |from|..] == At(s.cells, from);
    var x := instr.Value(session, At(s.cells, from));
    s' := Alone(mid.cells[instr.at := x], mid.history + [x]);
    assert s' == Next(Running(session, ops), mid);
    assert RunFrom(Running(session, ops), mid, 0) == mid;
    assert s' == RunFrom(Running(session, ops), mid, 1);
    RanThen(session, ops, s, mid, s');
  }

  /** Wherever the code starts, and whatever the cells hold, its accesses have the effect of the code. */
  lemma {:induction false} CodeRuns(session: Session, ops: seq<Op>, s: Alone, code: Code) returns (s': Alone)
    requires Here(ops, |s.history|, Accesses(code)) && Below(code, |s.cells|)
    ensures Ran(session, ops, s, s') && s'.cells == Exec(session, code, s.cells)
    ensures |s'.history| == |s.history| + |Accesses(code)|
    decreases |code|
  {
    hide Ran;
    if |code| == 0 {
      RanNothing(session, ops, s);
      s' := s;
    } else {
      var front, last := code[..|code| - 1], code[|code| - 1];
      HereParts(ops, |s.history|, Accesses(front), OpsOf(last));
      var mid := CodeRuns(session, ops, s, front);
      assert last.Below(|s.cells|);
      s' := InstrRuns(session, ops, mid, last);
      RanThen(session, ops, s, mid, s');
    }
  }

  lemma HereSelf(ops: seq<Op>)
    ensures Here(ops, 0, ops)
  {
  }

  lemma Over(session: Session, ops: seq<Op>, s: Alone)
    requires |s.history| == |ops|
    ensures Halted(Running(session, ops), s)
  {
  }

  /** Alone, the program of some code fills its blocks with whatever the code leaves there. */
  lemma CodeFills(session: Session, code: Code, cells: seq<Label>, lo: nat, out: seq<Label>)
    requires Below(code, |cells|) && lo <= |cells| && Exec(session, code, cells)[lo..] == out
    ensures Fills(Running(session, Accesses(code)), cells, lo, out)
  {
    hide Exec;
    hide Running;
    hide Accesses;
    var ops := Accesses(code);
    HereSelf(ops);
    var s := CodeRuns(session, ops, Alone(cells, []), code);
    Over(session, ops, s);
    assert s == RunAlone(Running(session, ops), cells, |ops|);
  }
}
