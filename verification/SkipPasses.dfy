/** The two skip passes and their fixpoints. */
module SkipPasses {
  import opened CiModel
  import opened Safety
  import opened Steps

  function Sweep(plan: seq<Config>, jobs: seq<JobState>, now: int): (r: seq<JobState>)
    requires Matched(plan, jobs)
  {
    SkipUntriggeredFrom(plan, jobs, 0, now)
  }

  function Sweeps(plan: seq<Config>, jobs: seq<JobState>, n: nat, now: int): (r: seq<JobState>)
    requires Matched(plan, jobs)
    ensures |r| == |jobs|
    decreases n
  {
    if n == 0 then jobs else Sweeps(plan, Sweep(plan, jobs, now), n - 1, now)
  }

  predicate NoneUntriggeredFrom(plan: seq<Config>, jobs: seq<JobState>, j: nat)
    requires Matched(plan, jobs)
  {
    forall i: nat | j <= i < |plan| :: !Untriggered(plan, jobs, i)
  }

  predicate NoneUntriggered(plan: seq<Config>, jobs: seq<JobState>)
    requires Matched(plan, jobs)
  {
    NoneUntriggeredFrom(plan, jobs, 0)
  }

  predicate OnlySkips(plan: seq<Config>, before: seq<JobState>, after: seq<JobState>, now: int)
    requires Matched(plan, before) && Matched(plan, after)
  {
    forall k | 0 <= k < |plan| ::
      SameOrSkipped(before[k], after[k], now) && (plan[k].when != OnFailure ==> after[k] == before[k])
  }

  lemma {:induction false} UntriggeredIsSkipped(plan: seq<Config>, jobs: seq<JobState>, j: nat, i: nat, now: int)
    requires Matched(plan, jobs) && j <= i < |plan| && Untriggered(plan, jobs, i)
    ensures SkipUntriggeredFrom(plan, jobs, j, now)[i].status == Skipped
    decreases |plan| - j
  {
    var next := SkipIfUntriggered(plan, jobs, j, now);
    if j == i {
      UntriggeredPassShape(plan, next, j + 1, now);
    } else {
      UntriggeredIsSkipped(plan, next, j + 1, i, now);
    }
  }

  lemma {:induction false} NothingToSkip(plan: seq<Config>, jobs: seq<JobState>, j: nat, now: int)
    requires Matched(plan, jobs) && j <= |plan| && NoneUntriggered(plan, jobs)
    ensures SkipUntriggeredFrom(plan, jobs, j, now) == jobs
    decreases |plan| - j
  {
    if j < |plan| {
      NothingToSkip(plan, jobs, j + 1, now);
    }
  }

  /** The pass leaves a list alone exactly when no job of it is untriggered. */
  lemma SweepFixedIff(plan: seq<Config>, jobs: seq<JobState>, now: int)
    requires Matched(plan, jobs)
    ensures Sweep(plan, jobs, now) == jobs <==> NoneUntriggered(plan, jobs)
  {
    if NoneUntriggered(plan, jobs) {
      NothingToSkip(plan, jobs, 0, now);
    } else {
      var i: nat :| i < |plan| && Untriggered(plan, jobs, i);
      UntriggeredIsSkipped(plan, jobs, 0, i, now);
    }
  }

  lemma {:induction false} IndexSetSize(members: set<nat>, n: nat)
    requires forall i | i in members :: i < n
    ensures |members| <= n
  {
    if n > 0 {
      IndexSetSize(members - {n - 1}, n - 1);
    } else {
      assert members == {};
    }
  }

  lemma {:induction false} FixedUnderSweeps(plan: seq<Config>, jobs: seq<JobState>, n: nat, now: int)
    requires Matched(plan, jobs) && NoneUntriggered(plan, jobs)
    ensures Sweeps(plan, jobs, n, now) == jobs
  {
    if n > 0 {
      SweepFixedIff(plan, jobs, now);
      FixedUnderSweeps(plan, jobs, n - 1, now);
    }
  }

  lemma SubsetSize(a: set<nat>, b: set<nat>)
    requires a <= b
    ensures |a| <= |b|
  {
    assert b == a + (b - a);
  }

  /** A pass over a list that it changes leaves fewer jobs waiting. */
  lemma SweepShrinks(plan: seq<Config>, jobs: seq<JobState>, now: int)
    requires Matched(plan, jobs) && !NoneUntriggered(plan, jobs)
    ensures |WaitingJobs(Sweep(plan, jobs, now))| < |WaitingJobs(jobs)|
  {
    var i: nat :| i < |plan| && Untriggered(plan, jobs, i);
    var next := Sweep(plan, jobs, now);
    UntriggeredPassShape(plan, jobs, 0, now);
    UntriggeredIsSkipped(plan, jobs, 0, i, now);
    assert i in WaitingJobs(jobs);
    assert WaitingJobs(next) <= WaitingJobs(jobs) - {i};
    SubsetSize(WaitingJobs(next), WaitingJobs(jobs) - {i});
  }

  lemma {:induction false} SweepsSettle(plan: seq<Config>, jobs: seq<JobState>, n: nat, now: int)
    requires Matched(plan, jobs) && |WaitingJobs(jobs)| <= n
    ensures NoneUntriggered(plan, Sweeps(plan, jobs, n, now))
    decreases n
  {
    if NoneUntriggered(plan, jobs) {
      FixedUnderSweeps(plan, jobs, n, now);
    } else {
      SweepShrinks(plan, jobs, now);
      SweepsSettle(plan, Sweep(plan, jobs, now), n - 1, now);
    }
  }

  /** As many passes as there are jobs reach the fixpoint, however the jobs are listed. */
  lemma SweepsReachFixpoint(plan: seq<Config>, jobs: seq<JobState>, now: int)
    requires Matched(plan, jobs)
    ensures var r := Sweeps(plan, jobs, |plan|, now);
            Sweep(plan, r, now) == r
  {
    IndexSetSize(WaitingJobs(jobs), |plan|);
    SweepsSettle(plan, jobs, |plan|, now);
    SweepFixedIff(plan, Sweeps(plan, jobs, |plan|, now), now);
  }

  /** Every `on_failure` job stands behind the `on_failure` jobs it depends on. */
  predicate OnFailureInOrder(plan: seq<Config>) {
    forall i: nat, d: nat | i < |plan| && d < |plan| && DependsOn(plan, i, d) &&
                            plan[i].when == OnFailure && plan[d].when == OnFailure ::
      d < i
  }

  /** When every dependency that has ended has ended before too, and every required failure is still one, an untriggered
      job was untriggered before. */
  lemma UntriggeredBefore(plan: seq<Config>, before: seq<JobState>, after: seq<JobState>, i: nat)
    requires Matched(plan, before) && Matched(plan, after) && i < |plan|
    requires Untriggered(plan, after, i) && Waiting(before[i].status)
    requires forall d: nat | d < |plan| && DependsOn(plan, i, d) ::
               && (Terminal(after[d].status) ==> Terminal(before[d].status))
               && (RequiredFailure(plan[d], before[d]) ==> RequiredFailure(plan[d], after[d]))
    ensures Untriggered(plan, before, i)
  {
    DependenciesTerminalIff(plan, before, i);
    DependenciesTerminalIff(plan, after, i);
    RequiredFailureDependencyIff(plan, before, i);
    RequiredFailureDependencyIff(plan, after, i);
  }

  lemma {:induction false} OrderedSweepSettles(plan: seq<Config>, jobs: seq<JobState>, j: nat, now: int)
    requires Matched(plan, jobs) && j <= |plan| && OnFailureInOrder(plan)
    ensures NoneUntriggeredFrom(plan, SkipUntriggeredFrom(plan, jobs, j, now), j)
    decreases |plan| - j
  {
    if j < |plan| {
      var next := SkipIfUntriggered(plan, jobs, j, now);
      var r := SkipUntriggeredFrom(plan, next, j + 1, now);
      OrderedSweepSettles(plan, next, j + 1, now);
      UntriggeredPassShape(plan, next, j + 1, now);
      if Untriggered(plan, r, j) {
        assert next == jobs;
        UntriggeredBefore(plan, jobs, r, j);
      }
    }
  }

  /** One pass is enough when each `on_failure` job is listed after the `on_failure` jobs it depends on. */
  lemma OrderedSweepIdempotent(plan: seq<Config>, jobs: seq<JobState>, now: int)
    requires Matched(plan, jobs) && OnFailureInOrder(plan)
    ensures var r := Sweep(plan, jobs, now);
            NoneUntriggered(plan, r) && Sweep(plan, r, now) == r
  {
    OrderedSweepSettles(plan, jobs, 0, now);
    SweepFixedIff(plan, Sweep(plan, jobs, now), now);
  }

  // The pass after a required failure.

  /** The pass changes nothing the second time, and leaves no waiting job that needs success with a direct dependency
      on a required failure. */
  lemma OvertakenPassSettles(plan: seq<Config>, jobs: seq<JobState>, now: int)
    requires Matched(plan, jobs)
    ensures var r := SkipOvertaken(plan, jobs, now);
            && SkipOvertaken(plan, r, now) == r
            && forall i: nat, d: nat | i < |plan| && d < |plan| && Waiting(r[i].status) &&
                                       !RunsAfterFailure(plan[i]) && DependsOn(plan, i, d) ::
                 !RequiredFailure(plan[d], r[d])
  {
    var r := SkipOvertaken(plan, jobs, now);
    forall k: nat, f: nat | k < |plan| && f < |plan| && Behind(plan, k, f) &&
                            Waiting(r[k].status) && !RunsAfterFailure(plan[k])
      ensures !RequiredFailure(plan[f], r[f])
    {
      assert !Overtaken(plan, jobs, k);
    }
    forall i: nat, d: nat | i < |plan| && d < |plan| && DependsOn(plan, i, d)
      ensures Behind(plan, i, d)
    {
      DependentsAreBehind(plan, i, d);
    }
    forall k: nat | k < |plan|
      ensures !Overtaken(plan, r, k)
    {
    }
    assert SkipOvertaken(plan, r, now) == r;
  }

  /** A listing of the same jobs in another order. */
  predicate Listing(order: seq<nat>, n: nat) {
    && |order| == n
    && (forall k | 0 <= k < n :: order[k] < n)
    && (forall i: nat | i < n :: i in order)
  }

  function Listed<T>(order: seq<nat>, items: seq<T>): (r: seq<T>)
    requires forall k | 0 <= k < |order| :: order[k] < |items|
    ensures |r| == |order|
  {
    seq(|order|, k requires 0 <= k < |order| => items[order[k]])
  }

  /** The pass does not depend on the order in which the jobs are listed. */
  lemma OvertakenPassOrderFree(plan: seq<Config>, jobs: seq<JobState>, order: seq<nat>, now: int)
    requires Matched(plan, jobs) && Listing(order, |plan|)
    ensures SkipOvertaken(Listed(order, plan), Listed(order, jobs), now) ==
            Listed(order, SkipOvertaken(plan, jobs, now))
  {
    var plan', jobs' := Listed(order, plan), Listed(order, jobs);
    forall k: nat | k < |plan|
      ensures Overtaken(plan', jobs', k) <==> Overtaken(plan, jobs, order[k])
    {
      if Overtaken(plan, jobs, order[k]) {
        var f: nat :| f < |plan| && RequiredFailure(plan[f], jobs[f]) && Behind(plan, order[k], f);
        assert Behind(plan, order[k], f);
        assert plan[f].stage < plan[order[k]].stage || NamesNeed(plan[order[k]], plan[f].name);
        assert f in order;
        var g: nat :| g < |order| && order[g] == f;
        assert plan'[g] == plan[f] && plan'[k] == plan[order[k]] && jobs'[g] == jobs[f];
        assert plan'[g].stage < plan'[k].stage || NamesNeed(plan'[k], plan'[g].name);
        assert RequiredFailure(plan'[g], jobs'[g]);
      }
    }
  }
}
