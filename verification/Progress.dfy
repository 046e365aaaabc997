/** Deadlock freedom of a pipeline, exactly when its plan has no knot of dependencies, and the verdict of a finished
    run. */
module Progress {
  import opened CiModel
  import opened Coherence
  import opened KeepingUp
  import opened Safety
  import opened SkipPasses
  import opened Steps
  import opened Termination
  import opened Wrappers

  // The plan.

  /** No job needs a job that is not there: what the needs validation establishes. */
  predicate NeedsPresent(plan: seq<Config>) {
    forall i: nat | i < |plan| :: !MissesNeed(plan, i)
  }

  /** Job i waits for a job of the knot. */
  predicate Tied(plan: seq<Config>, knot: set<nat>, i: nat) {
    i < |plan| && exists d | d in knot :: d < |plan| && DependsOn(plan, i, d)
  }

  /** Jobs, none of them manual, each of which waits for another of them. */
  predicate Knot(plan: seq<Config>, knot: set<nat>) {
    && knot != {}
    && (forall i | i in knot :: i < |plan| && plan[i].when != OnPlay)
    && (forall i {:trigger Tied(plan, knot, i)} | i in knot :: Tied(plan, knot, i))
  }

  ghost predicate KnotFree(plan: seq<Config>) {
    forall knot: set<nat> :: !Knot(plan, knot)
  }

  /** The jobs can be numbered so that a need inside a stage points to a smaller number, and none points to a later
      stage. */
  predicate Numbered(plan: seq<Config>, rank: seq<nat>) {
    && |rank| == |plan|
    && forall i: nat, d: nat | i < |plan| && d < |plan| && DependsOn(plan, i, d) ::
         plan[d].stage < plan[i].stage || (plan[d].stage == plan[i].stage && rank[d] < rank[i])
  }

  /** A member with the least stage, and the least number in it. */
  lemma {:induction false} First(plan: seq<Config>, rank: seq<nat>, members: set<nat>) returns (i: nat)
    requires |rank| == |plan| && members != {} && forall k | k in members :: k < |plan|
    ensures i in members
    ensures forall k | k in members ::
              plan[i].stage < plan[k].stage || (plan[i].stage == plan[k].stage && rank[i] <= rank[k])
    decreases members
  {
    var k :| k in members;
    i := k;
    if members != {k} {
      var j := First(plan, rank, members - {k});
      if plan[j].stage < plan[k].stage || (plan[j].stage == plan[k].stage && rank[j] <= rank[k]) {
        i := j;
      }
    }
  }

  /** An acyclic plan with no need into a later stage has no knot. */
  lemma NumberedIsKnotFree(plan: seq<Config>, rank: seq<nat>)
    requires Numbered(plan, rank)
    ensures KnotFree(plan)
  {
    forall knot: set<nat>
      ensures !Knot(plan, knot)
    {
      if knot != {} && forall k | k in knot :: k < |plan| {
        var i := First(plan, rank, knot);
        assert !Tied(plan, knot, i);
      }
    }
  }

  // Progress.

  /** Some runner's next poll can take the job, or its time will come. */
  predicate Enabled(p: Pipeline, i: nat)
    requires Matched(p.plan, p.jobs) && i < |p.plan|
  {
    || p.jobs[i].status == Scheduled
    || (p.jobs[i].status == Pending && StageUnblocked(p.plan, p.jobs, i) && GroupFree(p.plan, p.jobs, i))
  }

  predicate SomeEnabled(p: Pipeline)
    requires Matched(p.plan, p.jobs)
  {
    exists i | 0 <= i < |p.plan| :: Enabled(p, i)
  }

  predicate Stalled(p: Pipeline)
    requires Matched(p.plan, p.jobs)
  {
    SomeJob(p, {Pending, Scheduled}) && !SomeJob(p, {Running}) && !SomeEnabled(p)
  }

  /** A waiting job that depends on no waiting job can go ahead, or is an `on_failure` job to skip. */
  lemma UntiedCanGo(p: Pipeline, i: nat)
    requires SafetyInv(p) && ManualUnplayed(p) && NeedsPresent(p.plan) && !SomeJob(p, {Running})
    requires i < |p.plan| && Waiting(p.jobs[i].status)
    requires forall d: nat | d < |p.plan| && DependsOn(p.plan, i, d) :: !Waiting(p.jobs[d].status)
    ensures Enabled(p, i) || Untriggered(p.plan, p.jobs, i)
  {
    StageUnblockedIff(p.plan, p.jobs, i);
    RequiredFailureDependencyIff(p.plan, p.jobs, i);
    DependenciesTerminalIff(p.plan, p.jobs, i);
    assert GroupFree(p.plan, p.jobs, i);
  }

  lemma UntiedMember(plan: seq<Config>, members: set<nat>) returns (i: nat)
    requires KnotFree(plan) && members != {} && forall k | k in members :: k < |plan| && plan[k].when != OnPlay
    ensures i in members && !Tied(plan, members, i)
  {
    assert !Knot(plan, members);
    i :| i in members && !Tied(plan, members, i);
  }

  /** A knot-free plan has a waiting job that depends on no waiting job. */
  lemma UntiedWaiter(p: Pipeline) returns (i: nat)
    requires Matched(p.plan, p.jobs) && ManualUnplayed(p) && KnotFree(p.plan) && SomeJob(p, {Pending, Scheduled})
    ensures i in WaitingJobs(p.jobs) && !Tied(p.plan, WaitingJobs(p.jobs), i)
  {
    var waiting := WaitingJobs(p.jobs);
    var k: nat :| k < |p.jobs| && p.jobs[k].status in {Pending, Scheduled};
    assert k in waiting;
    i := UntiedMember(p.plan, waiting);
  }

  /** In a safe state of a knot-free plan, when jobs wait and none runs, a job can go ahead; or else the pass over
      `on_failure` jobs has one left to skip. */
  lemma SomeoneCanGo(p: Pipeline)
    requires SafetyInv(p) && ManualUnplayed(p) && NeedsPresent(p.plan) && KnotFree(p.plan)
    requires SomeJob(p, {Pending, Scheduled}) && !SomeJob(p, {Running})
    ensures SomeEnabled(p) || exists i: nat :: i < |p.plan| && Untriggered(p.plan, p.jobs, i)
  {
    var i := UntiedWaiter(p);
    UntiedCanGo(p, i);
  }

  /** A reachable state of a knot-free plan stalls exactly when nothing runs, nothing can go ahead, and the pass over
      `on_failure` jobs has one left to skip. */
  lemma StalledIff(p: Pipeline, es: seq<Event>)
    requires Created(p) && NeedsPresent(p.plan) && KnotFree(p.plan) && QuietRun(p, es)
    ensures var q := Reached(p, es);
            Stalled(q) <==> !SomeJob(q, {Running}) && !SomeEnabled(q) && !NoneUntriggered(q.plan, q.jobs)
  {
    var q := Reached(p, es);
    CreatedIsSafe(p);
    DependencyOrderSafety(p, es);
    ManualUnplayedInRuns(p, es);
    if Stalled(q) {
      SomeoneCanGo(q);
    }
    if !NoneUntriggered(q.plan, q.jobs) {
      var i: nat :| i < |q.plan| && Untriggered(q.plan, q.jobs, i);
      assert q.jobs[i].status in {Pending, Scheduled};
    }
  }

  // A knot stalls.

  /** Nothing has failed or been canceled, nothing runs, and the knot still waits. */
  predicate Clean(p: Pipeline, knot: set<nat>) {
    && Matched(p.plan, p.jobs)
    && Knot(p.plan, knot)
    && (forall i | 0 <= i < |p.plan| :: p.jobs[i].status in {Pending, Scheduled, Success, Skipped, Manual})
    && (forall i | i in knot :: Waiting(p.jobs[i].status))
  }

  lemma KnotBlocks(p: Pipeline, knot: set<nat>, i: nat)
    requires Clean(p, knot) && i in knot
    ensures !StageUnblocked(p.plan, p.jobs, i)
  {
    StageUnblockedIff(p.plan, p.jobs, i);
    assert Tied(p.plan, knot, i);
    var d :| d in knot && d < |p.plan| && DependsOn(p.plan, i, d);
    assert !Passable(p.plan[d], p.jobs[d], RunsAfterFailure(p.plan[i]));
  }

  /** The pass skips no job of the knot: each waits for another one. */
  lemma {:induction false} SweepLeavesKnot(plan: seq<Config>, jobs: seq<JobState>, knot: set<nat>, i: nat, now: int)
    requires Matched(plan, jobs) && Knot(plan, knot) && i <= |plan| && forall k | k in knot :: Waiting(jobs[k].status)
    ensures forall k | k in knot :: SkipUntriggeredFrom(plan, jobs, i, now)[k] == jobs[k]
    decreases |plan| - i
  {
    if i < |plan| {
      if i in knot {
        assert Tied(plan, knot, i);
        var d :| d in knot && d < |plan| && DependsOn(plan, i, d);
        DependenciesTerminalIff(plan, jobs, i);
      }
      SweepLeavesKnot(plan, SkipIfUntriggered(plan, jobs, i, now), knot, i + 1, now);
    }
  }

  lemma {:induction false} RunsCompose(p: Pipeline, es: seq<Event>, fs: seq<Event>)
    requires Matched(p.plan, p.jobs) && QuietRun(p, es) && QuietRun(Reached(p, es), fs)
    ensures QuietRun(p, es + fs) && Reached(p, es + fs) == Reached(Reached(p, es), fs)
    decreases |es|
  {
    if es == [] {
      assert es + fs == fs;
    } else {
      assert (es + fs)[1..] == es[1..] + fs;
      RunsCompose(Apply(p, es[0]), es[1..], fs);
    }
  }

  lemma RunOfOne(p: Pipeline, e: Event)
    requires Matched(p.plan, p.jobs) && Accepts(p, e) && Quiet(p, e)
    ensures QuietRun(p, [e]) && Reached(p, [e]) == Apply(p, e)
  {
    var q := Apply(p, e);
    assert [e][1..] == [];
    assert QuietRun(q, []) && Reached(q, []) == q;
    assert QuietRun(p, [e]);
    assert Reached(p, [e]) == Run(p, [e]) == Run(q, [e][1..]);
  }

  lemma RunOfTwo(p: Pipeline, e: Event, f: Event)
    requires Matched(p.plan, p.jobs) && Accepts(p, e) && Quiet(p, e)
    requires Accepts(Apply(p, e), f) && Quiet(Apply(p, e), f)
    ensures QuietRun(p, [e, f]) && Reached(p, [e, f]) == Apply(Apply(p, e), f)
  {
    RunOfOne(p, e);
    RunOfOne(Apply(p, e), f);
    RunsCompose(p, [e], [f]);
    assert [e] + [f] == [e, f];
  }

  /** A running job that succeeds: the pass may skip other jobs, but not those of the knot. */
  lemma SucceedsBesideKnot(q: Pipeline, knot: set<nat>, f: Event)
    requires Matched(q.plan, q.jobs) && Knot(q.plan, knot) && forall k | k in knot :: Waiting(q.jobs[k].status)
    requires f.Report? && f.i < |q.plan| && f.i !in knot && q.jobs[f.i].status == Running && f.state == Some(Success)
    requires forall k | 0 <= k < |q.plan| && k != f.i ::
               q.jobs[k].status in {Pending, Scheduled, Success, Skipped, Manual}
    ensures Clean(Apply(q, f), knot)
  {
    var stored := q.jobs[f.i := q.jobs[f.i].(status := Success)];
    FinalReportRecords(q, f);
    SweepLeavesKnot(q.plan, stored, knot, 0, f.now);
    var r := Apply(q, f);
    forall k | k in knot
      ensures r.jobs[k] == q.jobs[k]
    {
      assert stored[k] == q.jobs[k];
    }
  }

  /** One job outside the knot run to success, as two events. */
  lemma TakenAndDone(p: Pipeline, knot: set<nat>, i: nat) returns (es: seq<Event>)
    requires Clean(p, knot) && i < |p.plan| && i !in knot && Accepts(p, Assign(i, "", 0))
    ensures QuietRun(p, es) && WorkingSteps(es) > 0 && Clean(Reached(p, es), knot)
  {
    var e := Assign(i, "", 0);
    var f := Report(i, Some(Success), None, None, 0, 0, 0);
    es := [e, f];
    RunOfTwo(p, e, f);
    SucceedsBesideKnot(Apply(p, e), knot, f);
  }

  /** A job that can go ahead goes, and the knot still waits. */
  lemma RunOne(p: Pipeline, knot: set<nat>, i: nat) returns (es: seq<Event>)
    requires Clean(p, knot) && i < |p.plan| && Enabled(p, i)
    ensures QuietRun(p, es) && Clean(Reached(p, es), knot)
    ensures Measure(p.plan, Reached(p, es).jobs) < Measure(p.plan, p.jobs)
  {
    if p.jobs[i].status == Scheduled {
      var e := Promote(i, p.jobs[i].scheduledAt.GetOr(0));
      es := [e];
      RunOfOne(p, e);
      assert WorkingSteps(es) > 0;
    } else {
      if i in knot {
        KnotBlocks(p, knot, i);
      }
      es := TakenAndDone(p, knot, i);
    }
    RunsAreFinite(p, es);
  }

  /** Running everything that can run, to success, ends stalled on the knot. */
  lemma {:induction false} KnotStalls(p: Pipeline, knot: set<nat>) returns (es: seq<Event>)
    requires Clean(p, knot)
    ensures QuietRun(p, es) && Stalled(Reached(p, es))
    decreases Measure(p.plan, p.jobs)
  {
    if SomeEnabled(p) {
      var i: nat :| i < |p.plan| && Enabled(p, i);
      var fs := RunOne(p, knot, i);
      var gs := KnotStalls(Reached(p, fs), knot);
      RunsCompose(p, fs, gs);
      es := fs + gs;
    } else {
      es := [];
      var k :| k in knot;
      assert Tied(p.plan, knot, k);
      assert p.jobs[k].status in {Pending, Scheduled};
    }
  }

  /** Any new pipeline whose plan has a knot can stall. */
  lemma KnottedStalls(p: Pipeline, knot: set<nat>) returns (es: seq<Event>)
    requires Created(p) && Knot(p.plan, knot)
    ensures QuietRun(p, es) && Stalled(Reached(p, es))
  {
    es := KnotStalls(p, knot);
  }

  /** Deadlock freedom, `on_failure` jobs included. */
  lemma NeverStalls(p: Pipeline, es: seq<Event>)
    requires Created(p) && NeedsPresent(p.plan) && KnotFree(p.plan) && PassKeepsUp(p.plan) && QuietRun(p, es)
    ensures !Stalled(Reached(p, es))
  {
    StalledIff(p, es);
    NoneLeftBehind(p, es);
  }

  /** A new pipeline whose needs are present and in whose plan the pass over `on_failure` jobs keeps up can never stall,
      under any polls, promotions and well-behaved reports, exactly when its plan has no knot. */
  lemma DeadlockFreeIff(p: Pipeline)
    requires Created(p) && NeedsPresent(p.plan) && PassKeepsUp(p.plan)
    ensures (forall es: seq<Event> | QuietRun(p, es) :: !Stalled(Reached(p, es))) <==> KnotFree(p.plan)
  {
    if KnotFree(p.plan) {
      forall es: seq<Event> | QuietRun(p, es)
        ensures !Stalled(Reached(p, es))
      {
        NeverStalls(p, es);
      }
    } else {
      var knot: set<nat> :| Knot(p.plan, knot);
      var es := KnottedStalls(p, knot);
    }
  }

  // The verdict.

  /** No poll, promotion or well-behaved report is accepted any more. */
  ghost predicate Finished(p: Pipeline)
    requires Matched(p.plan, p.jobs)
  {
    forall e: Event | Working(e) && Accepts(p, e) :: !Quiet(p, e)
  }

  lemma FinishedIsIdle(p: Pipeline)
    requires Matched(p.plan, p.jobs) && Finished(p)
    ensures !SomeJob(p, {Running}) && !SomeEnabled(p)
  {
    if SomeJob(p, {Running}) {
      var i: nat :| i < |p.jobs| && p.jobs[i].status == Running;
      assert Quiet(p, Report(i, Some(Success), None, None, 0, 0, 0));
    }
    if SomeEnabled(p) {
      var i: nat :| i < |p.plan| && Enabled(p, i);
      assert Quiet(p, Promote(i, p.jobs[i].scheduledAt.GetOr(0))) && Quiet(p, Assign(i, "", 0));
    }
  }

  lemma {:induction false} QuietRunsStayCoherent(p: Pipeline, es: seq<Event>)
    requires Coherent(p) && p.jobs != [] && QuietRun(p, es)
    ensures Coherent(Reached(p, es))
    decreases |es|
  {
    if es != [] {
      CoherenceKept(p, es[0]);
      QuietRunsStayCoherent(Apply(p, es[0]), es[1..]);
    }
  }

  /** A run that cannot continue, in any plan: the stored verdict is `pending` if a job was left waiting, else `failed`
      if some job failed without being allowed to, else `success`, and it has a finish time unless it is `pending`. No
      job is left waiting when the plan has no knot and the pass over `on_failure` jobs keeps up. */
  lemma Verdict(p: Pipeline, es: seq<Event>)
    requires Created(p) && SomeJob(p, {Pending, Scheduled})
    requires QuietRun(p, es) && Finished(Reached(p, es))
    ensures var q := Reached(p, es);
            var left := SomeJob(q, {Pending, Scheduled});
            && q.status == (if left then Pending else if SomeRequiredFailure(q) then Failed else Success)
            && (q.finishedAt.Some? <==> !left)
            && (!left ==> forall i | 0 <= i < |q.jobs| :: q.jobs[i].status in {Success, Failed, Skipped, Manual})
            && (left ==> !(NeedsPresent(p.plan) && KnotFree(p.plan) && PassKeepsUp(p.plan)))
  {
    var q := Reached(p, es);
    FinishedIsIdle(q);
    CreatedIsSafe(p);
    DependencyOrderSafety(p, es);
    CreatedCoherentIff(p);
    QuietRunsStayCoherent(p, es);
    DerivedStatusMeaning(q);
    if NeedsPresent(p.plan) && KnotFree(p.plan) && PassKeepsUp(p.plan) {
      NeverStalls(p, es);
    }
    if !SomeJob(q, {Pending, Scheduled}) {
      forall i | 0 <= i < |q.jobs|
        ensures q.jobs[i].status in {Success, Failed, Skipped, Manual}
      {
        assert q.jobs[i].status !in {Pending, Scheduled} && q.jobs[i].status !in {Running};
      }
    }
  }
}
