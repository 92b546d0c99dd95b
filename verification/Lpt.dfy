/** Longest-first list scheduling of disks onto teams, and how far it is from the best assignment. */
module Lpt {

  function Sum(s: seq<real>): real {
    if |s| == 0 then 0.0 else Sum(s[..|s| - 1]) + s[|s| - 1]
  }

  /** First position of the smallest entry. */
  function LeastBusy(busy: seq<real>): (i: nat)
    requires |busy| > 0
    ensures i < |busy| && (forall j :: 0 <= j < |busy| ==> busy[i] <= busy[j])
    ensures forall j :: 0 <= j < i ==> busy[i] < busy[j]
  {
    if |busy| == 1 then 0
    else
      var i := LeastBusy(busy[..|busy| - 1]);
      if busy[|busy| - 1] < busy[i] then |busy| - 1 else i
  }

  /** Busy time per team, and the team chosen for each disk. */
  datatype Plan = Plan(busy: seq<real>, choice: seq<nat>)

  /** Every disk in turn goes to the team that is free first. */
  function ListSchedule(times: seq<real>, teams: nat): (plan: Plan)
    requires teams >= 1
    ensures |plan.busy| == teams && |plan.choice| == |times|
    ensures forall j :: 0 <= j < |times| ==> plan.choice[j] < teams
  {
    if |times| == 0 then Plan(seq(teams, _ => 0.0), [])
    else
      var n := |times| - 1;
      var before := ListSchedule(times[..n], teams);
      var i := LeastBusy(before.busy);
      Plan(before.busy[i := before.busy[i] + times[n]], before.choice + [i])
  }

  // ---------- loads ----------

  predicate Assigns(a: seq<nat>, teams: nat) {
    forall j {:trigger a[j]} :: 0 <= j < |a| ==> a[j] < teams
  }

  /** Total time of the jobs that assignment `a` gives to team `i`. */
  function Load(times: seq<real>, a: seq<nat>, i: nat): real
    requires |a| == |times|
    decreases |times|
  {
    if |times| == 0 then 0.0
    else
      var n := |times| - 1;
      Load(times[..n], a[..n], i) + (if a[n] == i then times[n] else 0.0)
  }

  function Count(a: seq<nat>, i: nat): nat {
    if |a| == 0 then 0 else Count(a[..|a| - 1], i) + (if a[|a| - 1] == i then 1 else 0)
  }

  function LoadsBelow(times: seq<real>, a: seq<nat>, teams: nat): real
    requires |a| == |times|
  {
    if teams == 0 then 0.0 else LoadsBelow(times, a, teams - 1) + Load(times, a, teams - 1)
  }

  function CountsBelow(a: seq<nat>, teams: nat): nat {
    if teams == 0 then 0 else CountsBelow(a, teams - 1) + Count(a, teams - 1)
  }

  lemma {:induction false} LoadsStep(times: seq<real>, a: seq<nat>, teams: nat)
    requires |a| == |times| > 0
    ensures var n := |times| - 1;
            LoadsBelow(times, a, teams)
              == LoadsBelow(times[..n], a[..n], teams) + (if a[n] < teams then times[n] else 0.0)
  {
    if teams > 0 {
      LoadsStep(times, a, teams - 1);
    }
  }

  lemma {:induction false} LoadsEmpty(teams: nat)
    ensures LoadsBelow([], [], teams) == 0.0 && CountsBelow([], teams) == 0
  {
    if teams > 0 {
      LoadsEmpty(teams - 1);
    }
  }

  /** However the jobs are assigned, the teams' loads add up to all the work. */
  lemma {:induction false} LoadsTotal(times: seq<real>, a: seq<nat>, teams: nat)
    requires |a| == |times| && Assigns(a, teams)
    ensures LoadsBelow(times, a, teams) == Sum(times)
    decreases |times|
  {
    if |times| == 0 {
      LoadsEmpty(teams);
    } else {
      LoadsStep(times, a, teams);
      LoadsTotal(times[..|times| - 1], a[..|a| - 1], teams);
    }
  }

  lemma {:induction false} CountsStep(a: seq<nat>, teams: nat)
    requires |a| > 0
    ensures CountsBelow(a, teams) == CountsBelow(a[..|a| - 1], teams) + (if a[|a| - 1] < teams then 1 else 0)
  {
    if teams > 0 {
      CountsStep(a, teams - 1);
    }
  }

  lemma {:induction false} CountsTotal(a: seq<nat>, teams: nat)
    requires Assigns(a, teams)
    ensures CountsBelow(a, teams) == |a|
    decreases |a|
  {
    if |a| == 0 {
      LoadsEmpty(teams);
    } else {
      CountsStep(a, teams);
      CountsTotal(a[..|a| - 1], teams);
    }
  }

  predicate AtLeast(times: seq<real>, x: real) {
    forall j {:trigger times[j]} :: 0 <= j < |times| ==> times[j] >= x
  }

  lemma {:induction false} LoadByCount(times: seq<real>, a: seq<nat>, i: nat, x: real)
    requires |a| == |times| && AtLeast(times, x)
    ensures Load(times, a, i) >= Count(a, i) as real * x
    decreases |times|
  {
    if |times| > 0 {
      var n := |times| - 1;
      LoadByCount(times[..n], a[..n], i, x);
      Times(Count(a[..n], i) as real, x);
    }
  }

  lemma Times(c: real, x: real)
    ensures (c + 1.0) * x == c * x + x
  {
  }

  /** The team that got job `j` carries it and at least `x` for every other job. */
  lemma {:induction false} LoadWith(times: seq<real>, a: seq<nat>, j: nat, x: real)
    requires |a| == |times| && AtLeast(times, x) && j < |a|
    ensures Count(a, a[j]) >= 1 && Load(times, a, a[j]) >= times[j] + (Count(a, a[j]) - 1) as real * x
    decreases |times|
  {
    var n := |times| - 1;
    if j == n {
      LoadByCount(times[..n], a[..n], a[j], x);
    } else {
      LoadWith(times[..n], a[..n], j, x);
      Times((Count(a[..n], a[j]) - 1) as real, x);
    }
  }

  lemma {:induction false} NoLoad(times: seq<real>, a: seq<nat>, i: nat)
    requires |a| == |times| && Count(a, i) == 0
    ensures Load(times, a, i) == 0.0
    decreases |times|
  {
    if |times| > 0 {
      NoLoad(times[..|times| - 1], a[..|a| - 1], i);
    }
  }

  /** A team with a single job carries exactly that job. */
  lemma {:induction false} OnlyJob(times: seq<real>, a: seq<nat>, i: nat) returns (j: nat)
    requires |a| == |times| && Count(a, i) == 1
    ensures j < |a| && a[j] == i && Load(times, a, i) == times[j]
    decreases |times|
  {
    var n := |times| - 1;
    if a[n] == i {
      NoLoad(times[..n], a[..n], i);
      j := n;
    } else {
      j := OnlyJob(times[..n], a[..n], i);
    }
  }

  /** The plan's busy times are the loads of its choices. */
  lemma {:induction false} BusyIsLoad(times: seq<real>, teams: nat, i: nat)
    requires teams >= 1 && i < teams
    ensures var plan := ListSchedule(times, teams); plan.busy[i] == Load(times, plan.choice, i)
    decreases |times|
  {
    if |times| > 0 {
      var n := |times| - 1;
      BusyIsLoad(times[..n], teams, i);
      var plan, before := ListSchedule(times, teams), ListSchedule(times[..n], teams);
      assert plan.choice[..n] == before.choice;
    }
  }

  /** Job j goes to the team whose load from the jobs before it is least, the first of equally loaded ones. */
  lemma {:induction false} ListChoice(times: seq<real>, teams: nat, j: nat, i: nat)
    requires teams >= 1 && j < |times| && i < teams
    ensures var c := ListSchedule(times, teams).choice;
            && Load(times[..j], c[..j], c[j]) <= Load(times[..j], c[..j], i)
            && (i < c[j] ==> Load(times[..j], c[..j], c[j]) < Load(times[..j], c[..j], i))
    decreases |times|
  {
    var n := |times| - 1;
    var plan, before := ListSchedule(times, teams), ListSchedule(times[..n], teams);
    assert plan.choice[..n] == before.choice;
    if j < n {
      ListChoice(times[..n], teams, j, i);
      assert times[..n][..j] == times[..j] && before.choice[..j] == plan.choice[..j];
    } else {
      BusyIsLoad(times[..n], teams, i);
      BusyIsLoad(times[..n], teams, plan.choice[n]);
    }
  }

  lemma {:induction false} BusyLoads(times: seq<real>, teams: nat, k: nat)
    requires teams >= 1 && k <= teams
    ensures var plan := ListSchedule(times, teams); Sum(plan.busy[..k]) == LoadsBelow(times, plan.choice, k)
    decreases k
  {
    if k > 0 {
      BusyLoads(times, teams, k - 1);
      BusyIsLoad(times, teams, k - 1);
      var busy := ListSchedule(times, teams).busy;
      assert busy[..k][..k - 1] == busy[..k - 1];
    }
  }

  /** No work is lost or invented: busy times add up to the disks' times. */
  lemma ScheduleConserves(times: seq<real>, teams: nat)
    requires teams >= 1
    ensures Sum(ListSchedule(times, teams).busy) == Sum(times)
  {
    var plan := ListSchedule(times, teams);
    BusyLoads(times, teams, teams);
    assert plan.busy[..teams] == plan.busy;
    LoadsTotal(times, plan.choice, teams);
  }

  lemma {:induction false} SumAtLeast(s: seq<real>, x: real)
    requires AtLeast(s, x)
    ensures Sum(s) >= |s| as real * x
  {
    if |s| > 0 {
      SumAtLeast(s[..|s| - 1], x);
      Times((|s| - 1) as real, x);
    }
  }

  predicate NonNegative(times: seq<real>) {
    AtLeast(times, 0.0)
  }

  // ---------- list scheduling ----------

  /** When job n is placed, its team's new busy time is below average work plus (1 - 1/T) of the job. */
  lemma PlacedBelow(times: seq<real>, teams: nat, t: real)
    requires teams >= 1 && t == teams as real && |times| > 0
    ensures var n := |times| - 1; var before := ListSchedule(times[..n], teams).busy;
            t * (before[LeastBusy(before)] + times[n]) <= Sum(times) + (t - 1.0) * times[n]
  {
    hide ListSchedule;
    hide LeastBusy;
    var n := |times| - 1;
    var before := ListSchedule(times[..n], teams).busy;
    ScheduleConserves(times[..n], teams);
    var least := before[LeastBusy(before)];
    SumAtLeast(before, least);
    SumNext(times);
    hide Sum;
    PlacedAlgebra(t, least, times[n], Sum(before), Sum(times));
  }

  lemma SumNext(times: seq<real>)
    requires |times| > 0
    ensures Sum(times) == Sum(times[..|times| - 1]) + times[|times| - 1]
  {
  }

  lemma PlacedAlgebra(t: real, least: real, x: real, before: real, total: real)
    requires t * least <= before && total == before + x
    ensures t * (least + x) <= total + (t - 1.0) * x
  {
  }

  /** Every team is done by total/T + (1 - 1/T) * longest. */
  lemma {:induction false} ScheduleBound(times: seq<real>, teams: nat, t: real, longest: real, i: nat)
    requires teams >= 1 && t == teams as real && NonNegative(times) && longest >= 0.0 && i < teams
    requires forall j {:trigger times[j]} :: 0 <= j < |times| ==> times[j] <= longest
    ensures t * ListSchedule(times, teams).busy[i] <= Sum(times) + (t - 1.0) * longest
    decreases |times|
  {
    hide ListSchedule;
    hide LeastBusy;
    if |times| == 0 {
      ScheduleNone(times, teams, i);
      BoundNone(t, ListSchedule(times, teams).busy[i], Sum(times), longest);
    } else {
      var n := |times| - 1;
      ScheduleBound(times[..n], teams, t, longest, i);
      PlacedBelow(times, teams, t);
      ScheduleNext(times, teams, i);
      SumNext(times);
      hide Sum;
      var before := ListSchedule(times[..n], teams).busy;
      BoundStep(t, before[i], times[n], ListSchedule(times, teams).busy[i], Sum(times[..n]), Sum(times), longest,
                i == LeastBusy(before));
    }
  }

  lemma BoundNone(t: real, busy: real, total: real, longest: real)
    requires t >= 1.0 && busy == 0.0 && total == 0.0 && longest >= 0.0
    ensures t * busy <= total + (t - 1.0) * longest
  {
    Mono(t - 1.0, 0.0, longest);
  }

  lemma BoundStep(t: real, before: real, x: real, after: real, front: real, total: real, longest: real, chosen: bool)
    requires t >= 1.0 && 0.0 <= x <= longest && total == front + x
    requires after == before + (if chosen then x else 0.0)
    requires t * before <= front + (t - 1.0) * longest
    requires chosen ==> t * (before + x) <= total + (t - 1.0) * x
    ensures t * after <= total + (t - 1.0) * longest
  {
    Mono(t - 1.0, x, longest);
  }

  lemma ScheduleNone(times: seq<real>, teams: nat, i: nat)
    requires teams >= 1 && |times| == 0 && i < teams
    ensures ListSchedule(times, teams).busy[i] == 0.0
  {
  }

  lemma ScheduleNext(times: seq<real>, teams: nat, i: nat)
    requires teams >= 1 && |times| > 0 && i < teams
    ensures var n := |times| - 1; var before := ListSchedule(times[..n], teams).busy;
            ListSchedule(times, teams).busy[i] == before[i] + (if i == LeastBusy(before) then times[n] else 0.0)
  {
  }

  lemma Mono(c: real, x: real, y: real)
    requires c >= 0.0 && x <= y
    ensures c * x <= c * y
  {
  }

  // ---------- Graham's bound for longest-first order ----------

  predicate Descending(times: seq<real>) {
    forall i, j {:trigger times[i], times[j]} :: 0 <= i < j < |times| ==> times[i] >= times[j]
  }

  /** Assignment `a` lets every team finish by `makespan`. */
  predicate FinishesBy(times: seq<real>, a: seq<nat>, teams: nat, makespan: real) {
    && |a| == |times| && Assigns(a, teams)
    && forall i: nat {:trigger Load(times, a, i)} :: i < teams ==> Load(times, a, i) <= makespan
  }

  lemma {:induction false} LoadsAtMost(times: seq<real>, a: seq<nat>, teams: nat, k: nat, makespan: real)
    requires FinishesBy(times, a, teams, makespan) && k <= teams
    ensures LoadsBelow(times, a, k) <= k as real * makespan
    decreases k
  {
    if k > 0 {
      LoadsAtMost(times, a, teams, k - 1, makespan);
      Times((k - 1) as real, makespan);
      assert Load(times, a, k - 1) <= makespan;
    }
  }

  /** No assignment finishes before the average. */
  lemma AverageBound(times: seq<real>, a: seq<nat>, teams: nat, makespan: real)
    requires FinishesBy(times, a, teams, makespan)
    ensures Sum(times) <= teams as real * makespan
  {
    LoadsTotal(times, a, teams);
    LoadsAtMost(times, a, teams, teams, makespan);
  }

  lemma {:induction false} LoadGrows(times: seq<real>, a: seq<nat>, n: nat, i: nat)
    requires |a| == |times| && n <= |times| && NonNegative(times)
    ensures Load(times[..n], a[..n], i) <= Load(times, a, i)
    decreases |times|
  {
    if n == |times| {
      assert times[..n] == times && a[..n] == a;
    } else {
      var m := |times| - 1;
      LoadGrows(times[..m], a[..m], n, i);
      assert times[..m][..n] == times[..n] && a[..m][..n] == a[..n];
    }
  }

  lemma PrefixFinishes(times: seq<real>, a: seq<nat>, teams: nat, makespan: real, n: nat)
    requires FinishesBy(times, a, teams, makespan) && NonNegative(times) && n <= |times|
    ensures FinishesBy(times[..n], a[..n], teams, makespan)
  {
    forall i: nat | i < teams
      ensures Load(times[..n], a[..n], i) <= makespan
    {
      LoadGrows(times, a, n, i);
    }
  }

  /** The teams that have a single job. */
  ghost function Singles(b: seq<nat>, teams: nat): set<nat> {
    set i: nat {:trigger Count(b, i)} | i < teams && Count(b, i) == 1
  }

  /** Where assignment `a` puts the jobs that are alone on their team in `b`. */
  ghost function Moved(a: seq<nat>, b: seq<nat>, teams: nat): set<nat>
    requires |b| <= |a|
  {
    set j: nat {:trigger b[j]} | j < |b| && b[j] < teams && Count(b, b[j]) == 1 :: a[j]
  }

  lemma {:induction false} CountsAtLeast(b: seq<nat>, s: set<nat>, k: nat)
    requires forall i: nat {:trigger Count(b, i)} :: i < k ==> Count(b, i) >= (if i in s then 1 else 2)
    ensures CountsBelow(b, k) + |s| >= 2 * k
    decreases k
  {
    if k > 0 {
      var i := k - 1;
      CountsAtLeast(b, s - {i}, k - 1);
      assert Count(b, i) >= (if i in s then 1 else 2);
      assert i in s ==> |s - {i}| == |s| - 1;
      assert i !in s ==> s - {i} == s;
    }
  }

  lemma {:induction false} CountsAtMost(a: seq<nat>, s: set<nat>, k: nat)
    requires forall i: nat {:trigger Count(a, i)} :: i < k ==> Count(a, i) <= (if i in s then 1 else 2)
    requires forall i :: i in s ==> i < k
    ensures CountsBelow(a, k) + |s| <= 2 * k
    decreases k
  {
    if k > 0 {
      var i := k - 1;
      CountsAtMost(a, s - {i}, k - 1);
      assert Count(a, i) <= (if i in s then 1 else 2);
      assert i in s ==> |s - {i}| == |s| - 1;
      assert i !in s ==> s - {i} == s;
    }
  }

  /** Jobs alone in `b` that share no team in `a`: there are as many teams on both sides. */
  lemma {:induction false} MovedSize(a: seq<nat>, b: seq<nat>, teams: nat, from: set<nat>, to: set<nat>)
    requires |b| <= |a|
    requires forall i: nat :: i in from ==> exists j: nat {:trigger b[j]} :: j < |b| && b[j] == i && a[j] in to
    requires forall j: nat, k: nat {:trigger b[j], b[k]} ::
              j < |b| && k < |b| && b[j] in from && b[k] in from && b[j] != b[k] ==> a[j] != a[k]
    ensures |from| <= |to|
    decreases from
  {
    if from != {} {
      var i :| i in from;
      var j: nat :| j < |b| && b[j] == i && a[j] in to;
      var to' := to - {a[j]};
      forall i': nat | i' in from - {i}
        ensures exists j': nat {:trigger b[j']} :: j' < |b| && b[j'] == i' && a[j'] in to'
      {
        var j': nat :| j' < |b| && b[j'] == i' && a[j'] in to;
        assert a[j'] != a[j];
      }
      MovedSize(a, b, teams, from - {i}, to');
      assert |to'| == |to| - 1;
      assert |from - {i}| == |from| - 1;
    }
  }

  /** With jobs longer than a third of the makespan no team takes three. */
  lemma AtMostTwoJobs(times: seq<real>, a: seq<nat>, teams: nat, makespan: real, x: real, i: nat)
    requires FinishesBy(times, a, teams, makespan) && AtLeast(times, x) && 3.0 * x > makespan && x >= 0.0 && i < teams
    ensures Count(a, i) <= 2
  {
    LoadByCount(times, a, i, x);
    assert Load(times, a, i) <= makespan;
    if Count(a, i) >= 3 {
      Mono(x, 3.0, Count(a, i) as real);
    }
  }

  /** A job too long to share a team with any other is alone. */
  lemma Alone(times: seq<real>, a: seq<nat>, teams: nat, makespan: real, x: real, j: nat)
    requires FinishesBy(times, a, teams, makespan) && AtLeast(times, x) && x >= 0.0 && j < |a|
    requires times[j] + x > makespan
    ensures Count(a, a[j]) == 1
  {
    LoadWith(times, a, j, x);
    assert Load(times, a, a[j]) <= makespan;
    if Count(a, a[j]) >= 2 {
      Mono(x, 1.0, (Count(a, a[j]) - 1) as real);
    }
  }

  /** Two different jobs on one team of `a` make its count two. */
  lemma {:induction false} TwoOnOne(a: seq<nat>, j: nat, k: nat)
    requires j < k < |a| && a[j] == a[k]
    ensures Count(a, a[j]) >= 2
    decreases |a|
  {
    var n := |a| - 1;
    if k == n {
      CountPositive(a[..n], j);
    } else {
      TwoOnOne(a[..n], j, k);
    }
  }

  lemma {:induction false} CountPositive(a: seq<nat>, j: nat)
    requires j < |a|
    ensures Count(a, a[j]) >= 1
    decreases |a|
  {
    if j < |a| - 1 {
      CountPositive(a[..|a| - 1], j);
    }
  }

  /** Teams with no job or a single one are the singles. */
  lemma BusyTeams(front: seq<real>, teams: nat, least: real)
    requires teams >= 1 && least > 0.0
    requires forall i: nat {:trigger ListSchedule(front, teams).busy[i]} :: i < teams ==>
              ListSchedule(front, teams).busy[i] >= least
    ensures var b := ListSchedule(front, teams).choice;
            forall i: nat {:trigger Count(b, i)} :: i < teams ==>
              Count(b, i) >= (if i in Singles(b, teams) then 1 else 2)
  {
    var plan := ListSchedule(front, teams);
    var b := plan.choice;
    forall i: nat | i < teams
      ensures Count(b, i) >= (if i in Singles(b, teams) then 1 else 2)
    {
      BusyIsLoad(front, teams, i);
      assert plan.busy[i] >= least;
      hide ListSchedule;
      if Count(b, i) == 0 { NoLoad(front, b, i); }
    }
  }

  /** Every single has somewhere to go in `a`. */
  lemma SinglesMove(times: seq<real>, a: seq<nat>, b: seq<nat>, teams: nat)
    requires |b| <= |a| == |times|
    ensures forall i: nat :: i in Singles(b, teams) ==>
              exists j: nat {:trigger b[j]} :: j < |b| && b[j] == i && a[j] in Moved(a, b, teams)
  {
    forall i: nat | i in Singles(b, teams)
      ensures exists j: nat {:trigger b[j]} :: j < |b| && b[j] == i && a[j] in Moved(a, b, teams)
    {
      var j := OnlyJob(times[..|b|], b, i);
      assert b[j] == i && a[j] in Moved(a, b, teams);
    }
  }

  /** In `a`, a job that was single in the plan is alone. */
  lemma MovedAlone(times: seq<real>, teams: nat, a: seq<nat>, makespan: real, least: real, j: nat)
    requires teams >= 1 && |times| > 0 && Descending(times) && NonNegative(times)
    requires FinishesBy(times, a, teams, makespan)
    requires var front := times[..|times| - 1]; var plan := ListSchedule(front, teams);
             j < |front| && Count(plan.choice, plan.choice[j]) == 1 && plan.busy[plan.choice[j]] >= least
    requires least + times[|times| - 1] > makespan
    ensures Count(a, a[j]) == 1
  {
    hide ListSchedule;
    var front, x := times[..|times| - 1], times[|times| - 1];
    SingleIsLong(front, teams, ListSchedule(front, teams).choice[j], j, least);
    assert times[j] == front[j];
    assert AtLeast(times, x);
    Alone(times, a, teams, makespan, x, j);
  }

  /** If every team is already so busy that the last job, the shortest, would end after `makespan`, and that
      job is longer than a third of `makespan`, then no assignment at all finishes by `makespan`. */
  lemma CannotFinish(times: seq<real>, teams: nat, a: seq<nat>, makespan: real)
    requires teams >= 1 && |times| > 0 && Descending(times) && NonNegative(times)
    requires FinishesBy(times, a, teams, makespan)
    requires 3.0 * times[|times| - 1] > makespan
    ensures var n := |times| - 1; var before := ListSchedule(times[..n], teams).busy;
            before[LeastBusy(before)] + times[n] <= makespan
  {
    hide ListSchedule;
    hide LeastBusy;
    var n := |times| - 1;
    var x, front := times[n], times[..n];
    var plan := ListSchedule(front, teams);
    var b, least := plan.choice, plan.busy[LeastBusy(plan.busy)];
    if least + x > makespan {
      LastJobFits(times, a, teams, makespan);
      var singles, moved := Singles(b, teams), Moved(a, b, teams);
      BusyTeams(front, teams, least);
      SinglesMove(times, a, b, teams);
      forall j: nat | j < |b| && b[j] < teams && Count(b, b[j]) == 1
        ensures Count(a, a[j]) == 1
      {
        MovedAlone(times, teams, a, makespan, least, j);
      }
      assert AtLeast(times, x);
      forall i: nat | i < teams
        ensures Count(a, i) <= 2
      {
        AtMostTwoJobs(times, a, teams, makespan, x, i);
      }
      Pigeonhole(a, b, teams);
    }
  }

  /** If `a` puts at most two jobs on a team and keeps the singles of `b` alone, it holds no more jobs than `b`. */
  lemma Pigeonhole(a: seq<nat>, b: seq<nat>, teams: nat)
    requires |b| <= |a| && Assigns(a, teams) && Assigns(b, teams)
    requires forall i: nat {:trigger Count(b, i)} :: i < teams ==>
              Count(b, i) >= (if i in Singles(b, teams) then 1 else 2)
    requires forall i: nat :: i in Singles(b, teams) ==>
              exists j: nat {:trigger b[j]} :: j < |b| && b[j] == i && a[j] in Moved(a, b, teams)
    requires forall j: nat {:trigger b[j]} :: j < |b| && b[j] < teams && Count(b, b[j]) == 1 ==> Count(a, a[j]) == 1
    requires forall i: nat {:trigger Count(a, i)} :: i < teams ==> Count(a, i) <= 2
    ensures |a| <= |b|
  {
    var singles, moved := Singles(b, teams), Moved(a, b, teams);
    forall j: nat, k: nat | j < |b| && k < |b| && b[j] in singles && b[k] in singles && b[j] != b[k]
      ensures a[j] != a[k]
    {
      assert Count(a, a[j]) == 1;
      if a[j] == a[k] {
        if j < k { TwoOnOne(a, j, k); } else { TwoOnOne(a, k, j); }
      }
    }
    MovedSize(a, b, teams, singles, moved);
    CountsAtLeast(b, singles, teams);
    CountsAtMost(a, moved, teams);
    CountsTotal(b, teams);
    CountsTotal(a, teams);
  }

  lemma LastJobFits(times: seq<real>, a: seq<nat>, teams: nat, makespan: real)
    requires FinishesBy(times, a, teams, makespan) && NonNegative(times) && |times| > 0
    ensures times[|times| - 1] <= makespan
  {
    var n := |times| - 1;
    LoadWith(times, a, n, 0.0);
    assert Load(times, a, a[n]) <= makespan;
  }

  lemma SingleIsLong(front: seq<real>, teams: nat, i: nat, j: nat, least: real)
    requires teams >= 1 && i < teams && j < |front|
    requires var plan := ListSchedule(front, teams);
              Count(plan.choice, i) == 1 && plan.choice[j] == i && plan.busy[i] >= least
    ensures front[j] >= least
  {
    var b := ListSchedule(front, teams).choice;
    BusyIsLoad(front, teams, i);
    var k := OnlyJob(front, b, i);
    if j < k { TwoOnOne(b, j, k); } else if k < j { TwoOnOne(b, k, j); }
  }

  /** Graham's theorem: longest-first finishes within (4/3 - 1/(3T)) of any assignment whatsoever. */
  lemma {:induction false} LongestFirst(times: seq<real>, teams: nat, t: real, a: seq<nat>, makespan: real, i: nat)
    requires teams >= 1 && t == teams as real && i < teams && |a| == |times| && Descending(times) && NonNegative(times)
    requires FinishesBy(times, a, teams, makespan)
    ensures 3.0 * (t * ListSchedule(times, teams).busy[i]) <= (4.0 * t - 1.0) * makespan
    decreases |times|
  {
    hide ListSchedule;
    hide LeastBusy;
    hide FinishesBy;
    hide Sum;
    MakespanNonNegative(times, a, teams, makespan);
    if |times| == 0 {
      ScheduleNone(times, teams, i);
      GrahamShort(t, ListSchedule(times, teams).busy[i], makespan);
    } else {
      var n := |times| - 1;
      PrefixFinishes(times, a, teams, makespan, n);
      LongestFirst(times[..n], teams, t, a[..n], makespan, i);
      ScheduleNext(times, teams, i);
      LastPlaced(times, teams, t, a, makespan);
    }
  }

  /** The team that receives the last job stays within the bound. */
  lemma LastPlaced(times: seq<real>, teams: nat, t: real, a: seq<nat>, makespan: real)
    requires teams >= 1 && t == teams as real && |a| == |times| > 0 && Descending(times) && NonNegative(times)
    requires FinishesBy(times, a, teams, makespan) && makespan >= 0.0
    ensures var n := |times| - 1; var before := ListSchedule(times[..n], teams).busy;
            3.0 * (t * (before[LeastBusy(before)] + times[n])) <= (4.0 * t - 1.0) * makespan
  {
    hide ListSchedule;
    hide LeastBusy;
    hide FinishesBy;
    hide Sum;
    hide Descending;
    var n := |times| - 1;
    var before := ListSchedule(times[..n], teams).busy;
    var done := before[LeastBusy(before)] + times[n];
    if 3.0 * times[n] > makespan {
      CannotFinish(times, teams, a, makespan);
      GrahamShort(t, done, makespan);
    } else {
      PlacedBelow(times, teams, t);
      AverageBound(times, a, teams, makespan);
      GrahamLong(t, done, times[n], Sum(times), makespan);
    }
  }

  lemma MakespanNonNegative(times: seq<real>, a: seq<nat>, teams: nat, makespan: real)
    requires teams >= 1 && NonNegative(times) && FinishesBy(times, a, teams, makespan)
    ensures makespan >= 0.0
  {
    LoadByCount(times, a, 0, 0.0);
    assert Load(times, a, 0) <= makespan;
  }

  lemma GrahamShort(t: real, done: real, makespan: real)
    requires t >= 1.0 && done <= makespan && makespan >= 0.0
    ensures 3.0 * (t * done) <= (4.0 * t - 1.0) * makespan
  {
    Mono(t, done, makespan);
    assert (4.0 * t - 1.0) * makespan == 3.0 * (t * makespan) + (t - 1.0) * makespan;
  }

  lemma GrahamLong(t: real, done: real, x: real, total: real, makespan: real)
    requires t >= 1.0 && 3.0 * x <= makespan && total <= t * makespan
    requires t * done <= total + (t - 1.0) * x
    ensures 3.0 * (t * done) <= (4.0 * t - 1.0) * makespan
  {
    Mono(t - 1.0, 3.0 * x, makespan);
    assert (t - 1.0) * (3.0 * x) == 3.0 * ((t - 1.0) * x);
    assert (4.0 * t - 1.0) * makespan == 3.0 * (t * makespan) + (t - 1.0) * makespan;
  }
}
