/** The disk-wipe planner: team rates, the longest-first schedule, and how well it uses the GPUs. */
module Planner {
  import Labelling
  import Offsets
  import opened Lpt

  // ---------- longest-first ----------

  function Insert(s: seq<real>, x: real): (r: seq<real>)
    requires Descending(s)
    ensures Descending(r) && multiset(r) == multiset(s) + multiset{x}
    ensures |r| == |s| + 1
    decreases |s|, 1
  {
    if |s| == 0 || s[|s| - 1] >= x then s + [x]
    else
      var n := |s| - 1;
      assert s == s[..n] + [s[n]];
      var r := Insert(s[..n], x) + [s[n]];
      InsertOrder(s, x);
      r
  }

  lemma InsertOrder(s: seq<real>, x: real)
    requires |s| > 0 && Descending(s) && s[|s| - 1] < x
    ensures var n := |s| - 1; Descending(Insert(s[..n], x) + [s[n]])
    decreases |s|, 0
  {
    var n := |s| - 1;
    var front := Insert(s[..n], x);
    forall i | 0 <= i < |front|
      ensures front[i] >= s[n]
    {
      assert front[i] in multiset(front);
      assert front[i] in multiset(s[..n]) || front[i] == x;
    }
  }

  /** `sorted(sizes, reverse=True)` */
  function SortedDescending(s: seq<real>): (r: seq<real>)
    ensures Descending(r) && multiset(r) == multiset(s) && |r| == |s|
  {
    if |s| == 0 then []
    else
      assert s == s[..|s| - 1] + [s[|s| - 1]];
      Insert(SortedDescending(s[..|s| - 1]), s[|s| - 1])
  }

  function TimesAt(sizes: seq<real>, rate: real): (t: seq<real>)
    requires rate > 0.0
    ensures |t| == |sizes|
    ensures forall i {:trigger t[i]} :: 0 <= i < |t| ==> t[i] == sizes[i] / rate
  {
    seq(|sizes|, i requires 0 <= i < |sizes| => sizes[i] / rate)
  }

  lemma DivOrder(x: real, y: real, rate: real)
    requires rate > 0.0 && x <= y
    ensures x / rate <= y / rate
  {
    assert y / rate - x / rate == (y - x) / rate;
  }

  lemma TimesOrder(sizes: seq<real>, rate: real)
    requires rate > 0.0 && Descending(sizes) && NonNegative(sizes)
    ensures Descending(TimesAt(sizes, rate)) && NonNegative(TimesAt(sizes, rate))
  {
    var t := TimesAt(sizes, rate);
    forall i, j | 0 <= i < j < |t|
      ensures t[i] >= t[j]
    {
      DivOrder(sizes[j], sizes[i], rate);
    }
    forall i | 0 <= i < |t|
      ensures t[i] >= 0.0
    {
      DivOrder(0.0, sizes[i], rate);
    }
  }

  lemma SortedSizes(s: seq<real>)
    requires NonNegative(s)
    ensures NonNegative(SortedDescending(s))
  {
    var r := SortedDescending(s);
    forall i | 0 <= i < |r|
      ensures r[i] >= 0.0
    {
      assert r[i] in multiset(r);
      assert r[i] in multiset(s);
      assert r[i] in s;
    }
  }

  lemma {:induction false} SumScaled(sizes: seq<real>, rate: real)
    requires rate > 0.0
    ensures Sum(TimesAt(sizes, rate)) == Sum(sizes) / rate
  {
    if |sizes| > 0 {
      var n := |sizes| - 1;
      SumScaled(sizes[..n], rate);
      assert TimesAt(sizes, rate)[..n] == TimesAt(sizes[..n], rate);
      DivSum(Sum(sizes[..n]), sizes[n], rate);
    }
  }

  lemma DivSum(x: real, y: real, rate: real)
    requires rate > 0.0
    ensures (x + y) / rate == x / rate + y / rate
  {
  }

  /** The order of the disks does not matter for their total. */
  lemma {:induction false} SumInsert(s: seq<real>, x: real)
    requires Descending(s)
    ensures Sum(Insert(s, x)) == Sum(s) + x
    decreases |s|
  {
    var n := |s| - 1;
    if |s| == 0 || s[n] >= x {
      assert (s + [x])[..|s|] == s;
    } else {
      SumInsert(s[..n], x);
      var front := Insert(s[..n], x);
      InsertOrder(s, x);
      assert Insert(s, x) == front + [s[n]];
      assert (front + [s[n]])[..|front|] == front;
    }
  }

  lemma {:induction false} SumSorted(s: seq<real>)
    ensures Sum(SortedDescending(s)) == Sum(s)
  {
    if |s| > 0 {
      SumSorted(s[..|s| - 1]);
      SumInsert(SortedDescending(s[..|s| - 1]), s[|s| - 1]);
    }
  }

  /** Largest entry. */
  predicate IsMax(s: seq<real>, x: real) {
    (exists i :: 0 <= i < |s| && s[i] == x) && forall i :: 0 <= i < |s| ==> s[i] <= x
  }

  method LptSchedule(sizes: seq<real>, teams: nat, rate: real) returns (makespan: real, busy: seq<real>)
    requires teams >= 1 && rate > 0.0
    ensures busy == ListSchedule(TimesAt(SortedDescending(sizes), rate), teams).busy
    ensures IsMax(busy, makespan)
  {
    hide ListSchedule;
    hide LeastBusy;
    hide SortedDescending;
    busy := seq(teams, _ => 0.0);
    var order := SortedDescending(sizes);
    ghost var times := TimesAt(order, rate);
    assert times[..0] == [];
    ScheduleStart(teams);
    for k := 0 to |order|
      invariant |busy| == teams && busy == ListSchedule(times[..k], teams).busy
    {
      var i := LeastBusy(busy);
      assert times[..k + 1][..k] == times[..k];
      ScheduleStep(times[..k + 1], teams);
      busy := busy[i := busy[i] + order[k] / rate];
    }
    assert times[..|order|] == times;
    makespan := Largest(busy);
  }

  lemma ScheduleStart(teams: nat)
    requires teams >= 1
    ensures ListSchedule([], teams).busy == seq(teams, _ => 0.0)
  {
  }

  lemma ScheduleStep(times: seq<real>, teams: nat)
    requires teams >= 1 && |times| > 0
    ensures var n := |times| - 1; var before := ListSchedule(times[..n], teams).busy; var i := LeastBusy(before);
            ListSchedule(times, teams).busy == before[i := before[i] + times[n]]
  {
    hide LeastBusy;
  }

  method Largest(s: seq<real>) returns (x: real)
    requires |s| > 0
    ensures IsMax(s, x)
  {
    x := s[0];
    for i := 1 to |s|
      invariant exists j :: 0 <= j < |s| && s[j] == x
      invariant forall j :: 0 <= j < i ==> s[j] <= x
    {
      if s[i] > x {
        x := s[i];
      }
    }
  }

  /** The schedule distributes exactly the total work. */
  lemma LptConserves(sizes: seq<real>, teams: nat, rate: real)
    requires teams >= 1 && rate > 0.0
    ensures Sum(ListSchedule(TimesAt(SortedDescending(sizes), rate), teams).busy) == Sum(sizes) / rate
  {
    var order := SortedDescending(sizes);
    ScheduleConserves(TimesAt(order, rate), teams);
    SumScaled(order, rate);
    SumSorted(sizes);
  }

  lemma Attained(s: seq<real>, x: real) returns (i: nat)
    requires IsMax(s, x)
    ensures i < |s| && s[i] == x
  {
    i :| 0 <= i < |s| && s[i] == x;
  }

  /** T * makespan <= total / rate + (T - 1) * longest / rate. */
  lemma LptMakespan(sizes: seq<real>, teams: nat, t: real, rate: real, longest: real, makespan: real)
    requires teams >= 1 && t == teams as real && rate > 0.0 && NonNegative(sizes) && longest >= 0.0
    requires forall i :: 0 <= i < |sizes| ==> sizes[i] <= longest
    requires IsMax(ListSchedule(TimesAt(SortedDescending(sizes), rate), teams).busy, makespan)
    ensures t * makespan <= Sum(sizes) / rate + (t - 1.0) * (longest / rate)
  {
    hide ListSchedule;
    hide SortedDescending;
    var order := SortedDescending(sizes);
    var times := TimesAt(order, rate);
    SortedSizes(sizes);
    TimesOrder(order, rate);
    TimesBelow(sizes, rate, longest);
    DivOrder(0.0, longest, rate);
    SumScaled(order, rate);
    SumSorted(sizes);
    hide TimesAt;
    hide Sum;
    hide Descending;
    hide NonNegative;
    assert Sum(times) == Sum(sizes) / rate;
    var i := Attained(ListSchedule(times, teams).busy, makespan);
    ScheduleBound(times, teams, t, longest / rate, i);
  }

  lemma TimesBelow(sizes: seq<real>, rate: real, longest: real)
    requires rate > 0.0 && forall i :: 0 <= i < |sizes| ==> sizes[i] <= longest
    ensures var times := TimesAt(SortedDescending(sizes), rate);
            forall j {:trigger times[j]} :: 0 <= j < |times| ==> times[j] <= longest / rate
  {
    var order := SortedDescending(sizes);
    var times := TimesAt(order, rate);
    forall j | 0 <= j < |times|
      ensures times[j] <= longest / rate
    {
      assert order[j] in multiset(order);
      assert order[j] in multiset(sizes);
      assert order[j] in sizes;
      DivOrder(order[j], longest, rate);
    }
  }

  /** No assignment of the disks to the teams beats the schedule by more than 4/3 - 1/(3T). */
  lemma LptNearOptimal(sizes: seq<real>, teams: nat, t: real, rate: real, makespan: real, a: seq<nat>, best: real)
    requires teams >= 1 && t == teams as real && rate > 0.0 && NonNegative(sizes)
    requires IsMax(ListSchedule(TimesAt(SortedDescending(sizes), rate), teams).busy, makespan)
    requires FinishesBy(TimesAt(SortedDescending(sizes), rate), a, teams, best)
    ensures 3.0 * (t * makespan) <= (4.0 * t - 1.0) * best
  {
    hide ListSchedule;
    hide SortedDescending;
    hide FinishesBy;
    var order := SortedDescending(sizes);
    var times := TimesAt(order, rate);
    SortedSizes(sizes);
    TimesOrder(order, rate);
    FinishesShape(times, a, teams, best);
    var i := Attained(ListSchedule(times, teams).busy, makespan);
    LongestFirst(times, teams, t, a, best, i);
  }

  lemma FinishesShape(times: seq<real>, a: seq<nat>, teams: nat, makespan: real)
    requires FinishesBy(times, a, teams, makespan)
    ensures |a| == |times|
  {
  }

  // ---------- throughput model ----------

  const MIB: real := 1048576.0

  /** Measured rates and caps in MiB/s, where 0 means no cap. */
  datatype Params = Params(gpus: nat, chunkBlocks: nat, sizes: seq<real>, diskMibs: real, d2hMibs: real, hostMibs: real,
                           poolEff: real, sectorBytes: nat) {
    /** What the command line and form accept. */
    predicate Valid() {
      && gpus >= 1 && chunkBlocks >= 1 && sectorBytes >= 1 && 0.0 < poolEff <= 1.0
      && |sizes| > 0 && AtLeast(sizes, 0.0) && Sum(sizes) > 0.0
      && diskMibs >= 0.0 && d2hMibs >= 0.0 && hostMibs >= 0.0
    }
  }

  datatype Stage = GpuLabeler | D2hCopy | DiskWrite | HostAggregate

  datatype Rate = Rate(bps: real, stage: Stage)

  /** The slower of a rate and a cap; 0 caps nothing, and the earlier stage wins a tie. */
  function Capped(r: Rate, cap: real, stage: Stage): (c: Rate)
    ensures c.bps <= r.bps && (cap > 0.0 ==> c.bps <= cap)
    ensures c.bps == r.bps || c.bps == cap > 0.0
  {
    if cap > 0.0 && cap < r.bps then Rate(cap, stage) else r
  }

  /** What a team's GPUs label together; sharing one disk costs efficiency. */
  function GpuRate(gpuBps: real, k: nat, poolEff: real): (bps: real)
    requires gpuBps > 0.0 && k >= 1 && 0.0 < poolEff <= 1.0
    ensures 0.0 < bps <= k as real * gpuBps
  {
    var eff := if k > 1 then poolEff else 1.0;
    RateBound(k as real, gpuBps, eff);
    k as real * gpuBps * eff
  }

  lemma GpuRateIs(gpuBps: real, k: nat, poolEff: real)
    requires gpuBps > 0.0 && k >= 1 && 0.0 < poolEff <= 1.0
    ensures GpuRate(gpuBps, k, poolEff) == k as real * gpuBps * (if k > 1 then poolEff else 1.0)
  {
  }

  /** The rate of a team of k GPUs: that of the slowest stage passed, the earliest of several equally slow ones. */
  function TeamRate(p: Params, gpuBps: real, k: nat): (r: Rate)
    requires p.Valid() && gpuBps > 0.0 && k >= 1
    ensures var gpu, copy, disk := k as real * gpuBps * (if k > 1 then p.poolEff else 1.0),
              k as real * p.d2hMibs * 1048576.0, p.diskMibs * 1048576.0;
            && 0.0 < r.bps <= gpu <= k as real * gpuBps
            && (p.d2hMibs > 0.0 ==> r.bps <= copy) && (p.diskMibs > 0.0 ==> r.bps <= disk)
            && match r.stage
               case GpuLabeler => r.bps == gpu
               case D2hCopy => p.d2hMibs > 0.0 && r.bps == copy < gpu
               case DiskWrite => p.diskMibs > 0.0 && r.bps == disk < gpu && (p.d2hMibs > 0.0 ==> disk < copy)
               case HostAggregate => false
  {
    GpuRateIs(gpuBps, k, p.poolEff);
    hide GpuRate;
    CapPositive(k as real, p.d2hMibs);
    var copied := Capped(Rate(GpuRate(gpuBps, k, p.poolEff), GpuLabeler), k as real * p.d2hMibs * MIB, D2hCopy);
    Capped(copied, p.diskMibs * MIB, DiskWrite)
  }

  lemma CapPositive(k: real, cap: real)
    requires k > 0.0 && cap >= 0.0
    ensures k * cap * MIB > 0.0 <==> cap > 0.0
  {
    if cap > 0.0 { PositiveProduct(k, cap); }
  }

  lemma PositiveProduct(x: real, y: real)
    requires x > 0.0 && y > 0.0
    ensures x * y > 0.0 && x * y * MIB > 0.0
  {
  }

  lemma RateBound(k: real, g: real, eff: real)
    requires k > 0.0 && g > 0.0 && 0.0 < eff <= 1.0
    ensures 0.0 < k * g * eff <= k * g
  {
    PositiveProduct(k, g);
    PositiveProduct(k * g, eff);
    Mono(k * g, eff, 1.0);
  }

  /** `q` sectors are the fewest that hold `bytes`. */
  predicate Sectors(q: nat, bytes: nat, sector: nat) {
    q >= 1 && (q - 1) * sector < bytes <= q * sector
  }

  /** Super-chunk bytes rounded up to whole sectors. */
  function Aligned(superBytes: nat, sector: nat): (bytes: nat)
    requires sector >= 1
    ensures superBytes <= bytes < superBytes + sector && bytes % sector == 0
  {
    var q := (superBytes + sector - 1) / sector;
    Offsets.Remainder(superBytes + sector - 1, sector);
    Offsets.OffsetDivides(q, sector, 0);
    Offsets.Offset(q, sector)
  }

  lemma AlignedSectors(superBytes: nat, sector: nat) returns (q: nat)
    requires sector >= 1 && superBytes >= 1
    ensures Sectors(q, superBytes, sector) && Aligned(superBytes, sector) == q * sector
  {
    q := (superBytes + sector - 1) / sector;
    Offsets.Remainder(superBytes + sector - 1, sector);
    Offsets.OffsetNext(0, sector);
    if q >= 1 {
      Offsets.OffsetNext(q - 1, sector);
    }
  }

  /** Bytes written for each byte of a super-chunk. */
  function PadFactor(p: Params): (pad: real)
    requires p.Valid()
    ensures pad >= 1.0
  {
    var superBytes := p.chunkBlocks * Labelling.HASH_BYTES;
    PadAtLeastOne(Aligned(superBytes, p.sectorBytes) as real, superBytes as real);
    Aligned(superBytes, p.sectorBytes) as real / superBytes as real
  }

  /** Payload bytes per second when `payload` of every `written` bytes are payload. */
  function PayloadRate(bps: real, payload: nat, written: nat): (rate: real)
    requires written > 0
    ensures rate * written as real == bps * payload as real
  {
    bps * payload as real / written as real
  }

  /** Dividing by the pad factor: the share of payload in the sectors written. */
  lemma PaddedRate(p: Params, rate: real) returns (q: nat)
    requires p.Valid() && rate > 0.0
    ensures Sectors(q, p.chunkBlocks * 32, p.sectorBytes) && q * p.sectorBytes > 0
    ensures rate / PadFactor(p) == PayloadRate(rate, p.chunkBlocks * 32, q * p.sectorBytes)
  {
    q := AlignedSectors(p.chunkBlocks * Labelling.HASH_BYTES, p.sectorBytes);
    hide Aligned;
    DivideByRatio(rate, (q * p.sectorBytes) as real, (p.chunkBlocks * 32) as real);
  }

  lemma DivideByRatio(x: real, a: real, b: real)
    requires a > 0.0 && b > 0.0
    ensures a / b > 0.0 && x / (a / b) == x * b / a
  {
    var y := x / (a / b);
    assert y * (a / b) == x;
    assert y * a == x * b by { assert y * (a / b) * b == y * a; }
  }

  /** The host's total rate, where it is set, is shared by all teams. */
  function HostCapped(p: Params, teams: nat, rate: Rate): (r: Rate)
    requires p.Valid() && teams >= 1 && rate.bps > 0.0
    ensures 0.0 < r.bps <= rate.bps
    ensures p.hostMibs > 0.0 ==> teams as real * r.bps <= p.hostMibs * 1048576.0
    ensures r == rate
            || (r.stage.HostAggregate? && teams as real * r.bps == p.hostMibs * 1048576.0 < teams as real * rate.bps)
  {
    if p.hostMibs > 0.0 && teams as real * rate.bps > p.hostMibs * MIB then
      HostShare(p.hostMibs * MIB, teams as real, rate.bps);
      Rate(p.hostMibs * MIB / teams as real, HostAggregate)
    else rate
  }

  /** The longest-first makespan when super-chunks are written as `q` whole sectors each, the fewest that hold them,
      at `bps`, and only a super-chunk's own bytes are payload. */
  ghost predicate PaddedTo(p: Params, q: nat, bps: real, teams: nat, makespan: real)
    requires teams >= 1
  {
    && Sectors(q, p.chunkBlocks * 32, p.sectorBytes) && q * p.sectorBytes > 0
    && EndsAt(p.sizes, PayloadRate(bps, p.chunkBlocks * 32, q * p.sectorBytes), teams, makespan)
  }

  /** Teams that write at `rate` each finish at `makespan`, largest disks first. */
  ghost predicate EndsAt(sizes: seq<real>, rate: real, teams: nat, makespan: real)
    requires teams >= 1
  {
    rate > 0.0 && IsMax(ListSchedule(TimesAt(SortedDescending(sizes), rate), teams).busy, makespan)
  }

  ghost predicate PaddedMakespan(p: Params, bps: real, teams: nat, makespan: real)
    requires teams >= 1
  {
    exists q: nat :: PaddedTo(p, q, bps, teams, makespan)
  }

  lemma PadsMakespan(p: Params, bps: real, teams: nat, makespan: real)
    requires p.Valid() && bps > 0.0 && teams >= 1 && bps / PadFactor(p) > 0.0
    requires IsMax(ListSchedule(TimesAt(SortedDescending(p.sizes), bps / PadFactor(p)), teams).busy, makespan)
    ensures PaddedMakespan(p, bps, teams, makespan)
  {
    hide ListSchedule;
    hide SortedDescending;
    hide TimesAt;
    hide PadFactor;
    assert EndsAt(p.sizes, bps / PadFactor(p), teams, makespan);
    hide EndsAt;
    hide PayloadRate;
    var q := PaddedRate(p, bps);
    assert PaddedTo(p, q, bps, teams, makespan);
  }

  datatype Evaluation = Evaluation(teams: nat, idle: nat, rate: Rate, makespan: real, utilisation: real)

  method EvaluateK(p: Params, gpuBps: real, k: nat) returns (e: Evaluation)
    requires p.Valid() && gpuBps > 0.0 && 1 <= k <= p.gpus
    ensures e.teams >= 1 && e.teams * k + e.idle == p.gpus && e.idle < k
    ensures 0.0 < e.rate.bps <= k as real * gpuBps
    ensures p.hostMibs > 0.0 ==> e.teams as real * e.rate.bps <= p.hostMibs * 1048576.0
    ensures e.rate == HostCapped(p, e.teams, TeamRate(p, gpuBps, k))
    ensures PaddedMakespan(p, e.rate.bps, e.teams, e.makespan)
    ensures e.makespan * (p.gpus as real * gpuBps) >= Sum(p.sizes)
    ensures e.utilisation == Sum(p.sizes) / (p.gpus as real * gpuBps) / e.makespan
    ensures 0.0 < e.utilisation <= 1.0
  {
    hide PaddedMakespan;
    hide Sum;
    hide TeamRate;
    hide HostCapped;
    var teams := p.gpus / k;
    TeamsBound(p.gpus, k);
    var rate := HostCapped(p, teams, TeamRate(p, gpuBps, k));
    var makespan, utilisation := ScheduleAt(p, gpuBps, k, teams, rate.bps);
    e := Evaluation(teams, p.gpus - teams * k, rate, makespan, utilisation);
  }

  /** The padded longest-first schedule of `teams` teams, and how well it uses all GPUs. */
  method ScheduleAt(p: Params, gpuBps: real, k: nat, teams: nat, bps: real) returns (makespan: real, utilisation: real)
    requires p.Valid() && gpuBps > 0.0 && 1 <= k && teams >= 1 && teams * k <= p.gpus
    requires 0.0 < bps <= k as real * gpuBps
    ensures PaddedMakespan(p, bps, teams, makespan)
    ensures makespan * (p.gpus as real * gpuBps) >= Sum(p.sizes)
    ensures makespan > 0.0 && utilisation == Sum(p.sizes) / (p.gpus as real * gpuBps) / makespan
    ensures 0.0 < utilisation <= 1.0
  {
    hide ListSchedule;
    hide SortedDescending;
    hide TimesAt;
    hide Sum;
    hide IsMax;
    hide PadFactor;
    hide PaddedMakespan;
    var padFactor := PadFactor(p);
    var effective := bps / padFactor;
    EffectiveRate(bps, padFactor);
    var busy;
    makespan, busy := LptSchedule(p.sizes, teams, effective);
    PadsMakespan(p, bps, teams, makespan);
    Perfect(p, gpuBps, k, teams, effective, busy, makespan);
    var ideal := Sum(p.sizes) / (p.gpus as real * gpuBps);
    Utilisation(Sum(p.sizes), p.gpus as real * gpuBps, makespan);
    utilisation := if makespan > 0.0 then ideal / makespan else 0.0;
  }

  lemma TeamsBound(gpus: nat, k: nat)
    requires 1 <= k <= gpus
    ensures gpus / k >= 1 && 0 <= gpus - gpus / k * k < k
  {
    assert gpus == gpus / k * k + gpus % k;
  }

  lemma HostShare(host: real, teams: real, rate: real)
    requires teams >= 1.0 && host > 0.0 && teams * rate > host
    ensures 0.0 < host / teams < rate && teams * (host / teams) == host
  {
    if host / teams >= rate { Mono(teams, rate, host / teams); }
  }

  lemma PadAtLeastOne(aligned: real, bytes: real)
    requires aligned >= bytes > 0.0
    ensures aligned / bytes >= 1.0
  {
    DivOrder(bytes, aligned, bytes);
  }

  lemma EffectiveRate(rate: real, pad: real)
    requires rate > 0.0 && pad >= 1.0
    ensures 0.0 < rate / pad <= rate
  {
    if rate / pad > rate { Mono(pad, rate, rate / pad); Mono(rate, 1.0, pad); }
  }

  /** The makespan is at least what all GPUs pooled perfectly would need. */
  lemma Perfect(p: Params, gpuBps: real, k: nat, teams: nat, effective: real, busy: seq<real>, makespan: real)
    requires p.Valid() && gpuBps > 0.0 && k >= 1 && teams >= 1 && teams * k <= p.gpus
    requires 0.0 < effective <= k as real * gpuBps
    requires busy == ListSchedule(TimesAt(SortedDescending(p.sizes), effective), teams).busy && IsMax(busy, makespan)
    ensures makespan * (p.gpus as real * gpuBps) >= Sum(p.sizes) > 0.0
    ensures makespan > 0.0
  {
    hide ListSchedule;
    hide SortedDescending;
    LptConserves(p.sizes, teams, effective);
    SumAtMost(busy, makespan);
    assert (teams * k) as real <= p.gpus as real;
    Pooled(Sum(p.sizes), teams as real, k as real, p.gpus as real, gpuBps, effective, makespan);
  }

  lemma {:induction false} SumAtMost(s: seq<real>, x: real)
    requires forall i :: 0 <= i < |s| ==> s[i] <= x
    ensures Sum(s) <= |s| as real * x
  {
    if |s| > 0 {
      SumAtMost(s[..|s| - 1], x);
      Times((|s| - 1) as real, x);
    }
  }

  lemma Pooled(total: real, teams: real, k: real, gpus: real, g: real, rate: real, makespan: real)
    requires total > 0.0 && teams >= 1.0 && k >= 1.0 && g > 0.0 && 0.0 < rate <= k * g && teams * k <= gpus
    requires total / rate <= teams * makespan
    ensures makespan > 0.0 && makespan * (gpus * g) >= total
  {
    assert total == total / rate * rate;
    assert total / rate > 0.0;
    assert makespan > 0.0;
    Mono(rate, total / rate, teams * makespan);
    assert total <= rate * (teams * makespan);
    PositiveProduct(teams, makespan);
    Mono(teams * makespan, rate, k * g);
    assert (teams * makespan) * (k * g) == (makespan * g) * (teams * k);
    PositiveProduct(makespan, g);
    Mono(makespan * g, teams * k, gpus);
  }

  lemma Utilisation(total: real, pooled: real, makespan: real)
    requires total > 0.0 && pooled > 0.0 && makespan > 0.0 && makespan * pooled >= total
    ensures 0.0 < total / pooled / makespan <= 1.0
  {
    assert total / pooled * pooled == total;
    if total / pooled > makespan { Mono(pooled, makespan, total / pooled); }
    DivOrder(total / pooled, makespan, makespan);
  }
}
