/** Building interleavings: a job that runs for a while, or to its end, while all others wait. */
module Schedules {
  import opened Labelling
  import opened SharedMemory
  import opened StraightCode

  /** Nothing but job `i`'s history and cells has changed. */
  ghost predicate OnlyJob(jobs: seq<Runner>, s: Shared, last: Shared, i: nat)
    requires i < |jobs|
  {
    && |last.mem| == |s.mem| && |last.history| == |s.history|
    && (forall j {:trigger last.history[j]} :: 0 <= j < |s.history| && j != i ==> last.history[j] == s.history[j])
    && (forall k: nat {:trigger last.mem[k]} :: k < |s.mem| && !jobs[i].place.Owns(k) ==> last.mem[k] == s.mem[k])
  }

  lemma OneAccess(jobs: seq<Runner>, s: Shared, i: nat)
    requires Shape(jobs, s) && i < |jobs| && CanAccess(jobs, s, i)
    ensures Shape(jobs, AccessBy(jobs, s, i)) && OnlyJob(jobs, s, AccessBy(jobs, s, i), i)
    ensures Seen(jobs, AccessBy(jobs, s, i), i) == Next(jobs[i].prog, Seen(jobs, s, i))
  {
    AccessSeen(jobs, s, i, i);
    match jobs[i].prog(s.history[i])
    case Read(at) =>
    case Write(at, _) => ViewAt(jobs[i].place, s.mem, at);
  }

  lemma ViewSize(place: Place, mem: seq<Label>)
    requires place.Fits(|mem|)
    ensures |View(place, mem)| == place.cells + place.m
  {
  }

  lemma {:induction false} InterleavedThen(jobs: seq<Runner>, s: Shared, a: seq<nat>, mid: Shared, b: seq<nat>,
                                           last: Shared)
    requires Interleaved(jobs, s, a, mid) && Interleaved(jobs, mid, b, last)
    ensures Interleaved(jobs, s, a + b, last)
    decreases |a|
  {
    hide CanAccess;
    hide AccessBy;
    if |a| == 0 {
      assert a + b == b;
    } else {
      InterleavedThen(jobs, AccessBy(jobs, s, a[0]), a[1..], mid, b, last);
      assert (a + b)[1..] == a[1..] + b;
    }
  }

  /** Job `i` can make `n` accesses in a row while everybody else waits. */
  lemma {:induction false} InARow(jobs: seq<Runner>, s: Shared, i: nat, n: nat)
    returns (schedule: seq<nat>, last: Shared)
    requires Shape(jobs, s) && i < |jobs|
    requires |RunFrom(jobs[i].prog, Seen(jobs, s, i), n).history| == |s.history[i]| + n
    ensures Interleaved(jobs, s, schedule, last) && Shape(jobs, last) && OnlyJob(jobs, s, last, i)
    ensures Seen(jobs, last, i) == RunFrom(jobs[i].prog, Seen(jobs, s, i), n)
    decreases n
  {
    hide View;
    if n == 0 {
      schedule, last := [], s;
    } else {
      var front, mid := InARow(jobs, s, i, n - 1);
      assert CanAccess(jobs, mid, i) by { ViewSize(jobs[i].place, mid.mem); }
      OneAccess(jobs, mid, i);
      last := AccessBy(jobs, mid, i);
      assert [i][1..] == [];
      InterleavedThen(jobs, s, front, mid, [i], last);
      schedule := front + [i];
    }
  }

  /** Job `i`, which is about to make the accesses of some code, makes them. */
  lemma CodeInARow(jobs: seq<Runner>, s: Shared, i: nat, session: Session, ops: seq<Op>, code: Code)
    returns (schedule: seq<nat>, last: Shared)
    requires Shape(jobs, s) && i < |jobs| && jobs[i].prog == Running(session, ops)
    requires Here(ops, |s.history[i]|, Accesses(code)) && Below(code, jobs[i].place.cells + jobs[i].place.m)
    ensures Interleaved(jobs, s, schedule, last) && Shape(jobs, last) && OnlyJob(jobs, s, last, i)
    ensures Below(code, |View(jobs[i].place, s.mem)|)
    ensures View(jobs[i].place, last.mem) == Exec(session, code, View(jobs[i].place, s.mem))
    ensures |last.history[i]| == |s.history[i]| + |Accesses(code)|
  {
    hide View;
    hide Exec;
    hide Running;
    hide RunFrom;
    hide Interleaved;
    ViewSize(jobs[i].place, s.mem);
    var end := CodeRuns(session, ops, Seen(jobs, s, i), code);
    schedule, last := InARow(jobs, s, i, |end.history| - |s.history[i]|);
  }
}
