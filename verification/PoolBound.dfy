/** The slot pool of a chunk has exactly 4 half_w slots. */
module PoolBound {
  import opened Bits
  import opened Dag
  import Levels
  import opened Chunk
  import opened Columns
  import SlotPool
  import opened SlotMap
  import Timing
  import LiveCount
  import PeakExact

  lemma EmptyColours(w: nat)
    requires WellFormed([])
    ensures Coloured([], []) && Free([], 0, w)
  {
  }

  lemma NewFree(h: Graph, d: seq<nat>, w: nat)
    requires Grown([], [], h, d, [], 0, w)
    ensures Free(d, w, w)
  {
  }

  lemma LiveSets(g: Graph, t: nat)
    requires WellFormed(g)
    ensures RangesOf(g).Valid() && SlotPool.LiveAt(RangesOf(g), t) == LiveCount.LiveIn(g, 0, |g|, t)
  {
    hide WellFormed;
    hide Levels.Level;
    hide LastUse;
    RangesValid(g);
  }

  /** The two copies: colours for both, and the right one reads nothing of the left one. */
  lemma ChunkCopies(m: nat) returns (c: seq<nat>)
    ensures var s := ScaffoldOf(m);
            var w := 2 * Pow2(ParamN(m));
            && WellFormed([]) && Coloured([], []) && Free([], 0, w)
            && WellFormed(s.left.g) && Coloured(s.left.g, c) && Free(c, w, w)
            && WellFormed(s.right.g) && ReadsOnly(s.right.g, |s.left.g|, [])
  {
    hide WellFormed;
    hide Coloured;
    hide Standalone;
    hide Free;
    hide ParamN;
    var level := ParamN(m) + 1;
    var w := Pow2(level);
    var s := ScaffoldOf(m);
    EmptyWellFormed();
    EmptyColours(w);
    c := StandaloneColumns([], [], level, 0);
    NewFree(s.left.g, c, w);
    var d := StandaloneColumns(s.left.g, c, level, w);
    GrownReads(s.left.g, c, s.right.g, d, [], w, w);
  }

  /** A copy that nothing else reads has the same live nodes by itself. */
  lemma CopyAlone(g: Graph, h: Graph, t: nat)
    requires WellFormed(g) && WellFormed(h) && g <= h && ReadsOnly(h, |g|, [])
    ensures LiveCount.LiveIn(h, 0, |g|, t) == LiveCount.LiveIn(g, 0, |g|, t)
  {
    hide WellFormed;
    hide LiveCount.LiveNode;
    forall u: nat | u < |g|
      ensures LiveCount.LiveNode(h, u, t) == LiveCount.LiveNode(g, u, t)
    {
      LiveCount.SameLife(g, h, u, t);
    }
  }

  /** Level at which both copies compute the outputs of their last connector. */
  function PeakLevel(m: nat): nat {
    Timing.LastLevel(ParamN(m)) + 1 + ParamN(m)
  }

  /** At no level are more than 4 half_w labels live, and at one level exactly so many are. */
  lemma LiveFourHalves(m: nat, t: nat)
    ensures WellFormed(GraphOf(m)) && RangesOf(GraphOf(m)).Valid()
    ensures |SlotPool.LiveAt(RangesOf(GraphOf(m)), t)| <= 4 * Pow2(ParamN(m))
    ensures |SlotPool.LiveAt(RangesOf(GraphOf(m)), PeakLevel(m))| == 4 * Pow2(ParamN(m))
  {
    hide WellFormed;
    hide Standalone;
    hide LiveCount.LiveIn;
    hide SlotPool.LiveAt;
    hide ParamN;
    hide Timing.LastLevel;
    hide LastUsesOf;
    hide LevelsOf;
    BothCopies(m, t);
    BothCopies(m, PeakLevel(m));
    var n, s := ParamN(m), ScaffoldOf(m);
    EmptyWellFormed();
    PeakExact.PeakAttained([], n);
    PeakExact.PeakAttained(s.left.g, n);
  }

  lemma BothCopies(m: nat, t: nat)
    ensures var g, s := GraphOf(m), ScaffoldOf(m);
            && WellFormed(g) && WellFormed(s.left.g) && RangesOf(g).Valid()
            && |SlotPool.LiveAt(RangesOf(g), t)|
              == |LiveCount.LiveIn(s.left.g, 0, |s.left.g|, t)| + |LiveCount.LiveIn(g, |s.left.g|, |g|, t)|
            && |LiveCount.LiveIn(s.left.g, 0, |s.left.g|, t)| <= 2 * Pow2(ParamN(m))
            && |LiveCount.LiveIn(g, |s.left.g|, |g|, t)| <= 2 * Pow2(ParamN(m))
  {
    hide WellFormed;
    hide Coloured;
    hide Standalone;
    hide Free;
    hide ReadsOnly;
    hide LiveCount.LiveIn;
    hide ParamN;
    var s, g, level := ScaffoldOf(m), GraphOf(m), ParamN(m) + 1;
    var c := ChunkCopies(m);
    PeakExact.StandaloneLive([], [], level, 0, t);
    PeakExact.StandaloneLive(s.left.g, c, level, Pow2(level), t);
    LiveSets(g, t);
    PeakExact.LiveSplit(g, 0, |s.left.g|, |g|, t);
    CopyAlone(s.left.g, g, t);
  }

  lemma SomeoneLive(g: Graph, t: nat)
    requires WellFormed(g) && RangesOf(g).Valid() && SlotPool.LiveAt(RangesOf(g), t) != {}
    ensures t < Height(g)
  {
    hide WellFormed;
    hide Levels.Level;
    hide LastUse;
    hide Height;
    var u := LiveCount.TakeOne(SlotPool.LiveAt(RangesOf(g), t));
    LastUseBelowHeight(g, u);
  }

  /** So the largest number of live labels, which is the pool size, is 4 half_w. */
  lemma PoolIsFourHalves(m: nat, pool: nat)
    requires WellFormed(GraphOf(m)) && RangesOf(GraphOf(m)).Valid()
    requires SlotPool.IsPeak(RangesOf(GraphOf(m)), Height(GraphOf(m)), pool)
    ensures pool == 4 * Pow2(ParamN(m))
  {
    hide GraphOf;
    hide SlotPool.LiveAt;
    hide Pow2;
    hide ParamN;
    hide PeakLevel;
    hide LastUsesOf;
    hide LevelsOf;
    hide WellFormed;
    hide Height;
    var g := GraphOf(m);
    var l :| 0 <= l < Height(g) && pool == |SlotPool.LiveAt(RangesOf(g), l)|;
    LiveFourHalves(m, l);
    SomeoneLive(g, PeakLevel(m));
  }

  /** The pool is twice the chunk exactly when the chunk's size is a power of two of at least 2; otherwise it is
      larger. */
  lemma PoolAgainstChunk(m: nat, pool: nat)
    requires m >= 1 && WellFormed(GraphOf(m)) && RangesOf(GraphOf(m)).Valid()
    requires SlotPool.IsPeak(RangesOf(GraphOf(m)), Height(GraphOf(m)), pool)
    ensures pool >= 2 * m
    ensures pool == 2 * m <==> exists k: nat {:trigger Pow2(k)} :: k >= 1 && m == Pow2(k)
  {
    hide GraphOf;
    hide SlotPool.IsPeak;
    hide Pow2;
    hide ParamN;
    hide LastUsesOf;
    hide LevelsOf;
    hide WellFormed;
    hide Height;
    PoolIsFourHalves(m, pool);
    ParamNBounds(m);
    FullHalves(m);
  }

  lemma FullHalves(m: nat)
    requires m >= 1
    ensures m == 2 * Pow2(ParamN(m)) <==> exists k: nat {:trigger Pow2(k)} :: k >= 1 && m == Pow2(k)
  {
    hide Pow2;
    hide ParamN;
    var n := ParamN(m);
    ParamNBounds(m);
    Pow2Step(n);
    forall k: nat | k >= 1 && m == Pow2(k)
      ensures m == Pow2(n + 1)
    {
      Pow2Monotone(1, k);
      if k <= n { Pow2Monotone(k, n); } else { Pow2Monotone(n + 1, k); }
    }
  }

  lemma Pow2Step(n: nat)
    ensures Pow2(1) == 2 && Pow2(n + 1) == 2 * Pow2(n)
  {
    assert Pow2(0) == 1;
  }

  /** A chunk of 3 blocks: half_w is 2 and the pool has 8 slots, not 6. */
  lemma PoolOfThree(pool: nat)
    requires WellFormed(GraphOf(3)) && RangesOf(GraphOf(3)).Valid()
    requires SlotPool.IsPeak(RangesOf(GraphOf(3)), Height(GraphOf(3)), pool)
    ensures pool == 8
  {
    hide GraphOf;
    hide SlotPool.IsPeak;
    hide LastUsesOf;
    hide LevelsOf;
    hide WellFormed;
    hide Height;
    PoolIsFourHalves(3, pool);
    assert ParamN(3) == 1 && Pow2(1) == 2;
  }
}
