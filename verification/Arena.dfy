/** Bump-arena high-water marks of the graph components, in slots. */
module Arena {
  import opened Bits
  import Dag

  /** Bases and arena of one chunk are measured in multiples of half_w. */
  const ARENA_FACTOR: nat := 16

  /** Slots set aside for one emitter's arena. */
  function ArenaSize(half: nat): (slots: nat)
    ensures slots == 16 * half
  {
    ARENA_FACTOR * half
  }

  function ConnectorPeak(dim: nat): nat {
    2 * Pow2(dim)
  }

  function MergedPeak(dim: nat): nat {
    if dim == 0 then 0 else 4 * Pow2(dim)
  }

  function ConnectedPeak(level: nat): nat {
    if level == 0 then 0
    else 3 * Pow2(level - 1) + Max(ConnectedPeak(level - 1), MergedPeak(level - 1))
  }

  function StandalonePeak(level: nat): nat {
    if level == 0 then 0
    else 3 * Pow2(level - 1)
         + Max(StandalonePeak(level - 1), Max(ConnectorPeak(level - 1), ConnectedPeak(level - 1)))
  }

  lemma {:induction false} ConnectedPeakClosed(level: nat)
    ensures level >= 2 ==> ConnectedPeak(level) == 7 * Pow2(level - 1)
    ensures level >= 1 ==> ConnectedPeak(level) <= 7 * Pow2(level - 1)
    ensures level == 0 ==> ConnectedPeak(level) == 0
  {
    if level >= 2 {
      ConnectedPeakClosed(level - 1);
      assert Pow2(level - 1) == 2 * Pow2(level - 2);
    }
  }

  /** The high-water mark never exceeds 6.5 half_w, and equals it from level 3 on. */
  lemma {:induction false} StandalonePeakBound(level: nat)
    requires level >= 1
    ensures 2 * StandalonePeak(level) <= 13 * Pow2(level - 1)
    ensures level >= 3 ==> 2 * StandalonePeak(level) == 13 * Pow2(level - 1)
  {
    hide ConnectedPeak;
    ConnectedPeakClosed(level - 1);
    if level == 1 {
      assert StandalonePeak(0) == 0 && ConnectedPeak(0) == 0;
    } else {
      hide Max;
      var q := Pow2(level - 2);
      StandalonePeakBound(level - 1);
      PeakStep(StandalonePeak(level - 1), ConnectedPeak(level - 1), q);
    }
  }

  lemma PeakStep(s: nat, c: nat, q: nat)
    requires 2 * s <= 13 * q && c <= 7 * q
    ensures 6 * q + Max(s, Max(4 * q, c)) <= 13 * q
    ensures c == 7 * q ==> 6 * q + Max(s, Max(4 * q, c)) == 13 * q
  {
  }

  /** So the arena a chunk sets aside is always large enough. */
  lemma ArenaSuffices(level: nat)
    requires level >= 1
    ensures StandalonePeak(level) <= ArenaSize(Pow2(level - 1))
  {
    StandalonePeakBound(level);
  }

  lemma ConnectedRoom(k: nat)
    ensures Pow2(k + 1) == 2 * Pow2(k)
    ensures Dag.ConnectedCount(k + 1) == 2 * Dag.ConnectedCount(k) + 2 * Dag.ButterflyCount(k)
    ensures ConnectedPeak(k + 1) == 3 * Pow2(k) + Max(ConnectedPeak(k), MergedPeak(k))
  {
  }

  lemma StandaloneRoom(k: nat)
    ensures Pow2(k + 1) == 2 * Pow2(k)
    ensures ConnectorPeak(k) == 2 * Pow2(k)
    ensures Dag.StandaloneCount(k + 1) == Dag.StandaloneCount(k) + Dag.ButterflyCount(k) + Dag.ConnectedCount(k)
    ensures StandalonePeak(k + 1) == 3 * Pow2(k) + Max(StandalonePeak(k), Max(ConnectorPeak(k), ConnectedPeak(k)))
  {
  }
}
