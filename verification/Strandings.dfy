/** Pipelines that stall with an `on_failure` job waiting, one for each condition under which the pass over such jobs
    keeps up: without that condition alone it need not. */
module Strandings {
  import opened CiModel
  import opened KeepingUp
  import opened Progress
  import opened Safety
  import opened Samples
  import opened SkipPasses
  import opened Steps
  import opened Wrappers

  // Plans of jobs that need one other job.

  /** An `on_failure` job whose only dependency is no required failure waits in vain. */
  lemma InVain(plan: seq<Config>, jobs: seq<JobState>, i: nat, d: nat)
    requires Matched(plan, jobs) && i < |plan| && d < |plan| && plan[i].when == OnFailure
    requires forall k: nat | k < |plan| :: DependsOn(plan, i, k) <==> k == d
    requires !RequiredFailure(plan[d], jobs[d])
    ensures !StageUnblocked(plan, jobs, i)
  {
    RequiredFailureDependencyIff(plan, jobs, i);
  }

  /** An ordinary job of the sample plans: no group, no retries, no failure allowed but for the codes. */
  predicate Plain(c: Config) {
    c.stage == 0 && c.group == "" && c.retry.max == 0 && !c.allowFailure
  }

  /** The jobs depend on each other as the list says: job i on job on[i], or on none. */
  predicate Wired(plan: seq<Config>, on: seq<int>) {
    && |on| == |plan|
    && forall i: nat | i < |plan| ::
         && Plain(plan[i])
         && !MissesNeed(plan, i)
         && (on[i] < 0 ==> plan[i].needs.None?)
         && forall d: nat | d < |plan| :: DependsOn(plan, i, d) <==> d == on[i]
  }

  lemma WiredIsSound(plan: seq<Config>, on: seq<int>, rank: seq<nat>)
    requires Wired(plan, on) && |rank| == |plan|
    requires forall i | 0 <= i < |plan| && 0 <= on[i] < |plan| :: rank[on[i]] < rank[i]
    ensures NeedsPresent(plan) && KnotFree(plan)
  {
    NumberedIsKnotFree(plan, rank);
  }

  // Something to wait for.

  /** An `on_failure` job with no job before it waits from the start. */
  lemma LoneJobStrands()
    ensures var p := NewPipeline([PlainJob(1, "mend", None, OnFailure)]);
            && NeedsPresent(p.plan) && KnotFree(p.plan) && Stalled(p)
            && OnFailureInOrder(p.plan) && WatchedCodesDoNotMatter(p.plan) && OvertakersWatched(p.plan)
  {
    var p := NewPipeline([PlainJob(1, "mend", None, OnFailure)]);
    NumberedIsKnotFree(p.plan, [0]);
    RequiredFailureDependencyIff(p.plan, p.jobs, 0);
    assert p.jobs[0].status == Pending;
    assert !Enabled(p, 0);
  }

  // Codes.

  /** A job whose exit code 42 is allowed, and an `on_failure` job that needs it. */
  function MendPlan(): seq<Config> {
    [PlainJob(1, "build", None, OnSuccess).(allowCodes := [42]), PlainJob(2, "mend", Needing("build"), OnFailure)]
  }

  predicate Mending(plan: seq<Config>) {
    && |plan| == 2 && Wired(plan, [-1, 0])
    && plan[0].when == OnSuccess && plan[0].allowCodes == [42] && plan[1].when == OnFailure
  }

  lemma MendPlanIsMending()
    ensures Mending(MendPlan())
  {
    var plan := MendPlan();
    assert plan[1].name[0] == 'm' && plan[0].name[0] == 'b';
  }

  lemma MendingFacts(plan: seq<Config>)
    requires Mending(plan)
    ensures NeedsPresent(plan) && KnotFree(plan)
    ensures OnFailureInOrder(plan) && AllHaveWorkBefore(plan) && OvertakersWatched(plan)
  {
    WiredIsSound(plan, [-1, 0], [0, 1]);
    assert DependsOn(plan, 1, 0);
  }

  lemma MendSweep(plan: seq<Config>, stored: seq<JobState>, now: int)
    requires Mending(plan) && |stored| == 2
    requires stored[0].status == Failed && stored[0].exitCode.None? && stored[1].status == Pending
    ensures SkipUntriggeredFrom(plan, stored, 0, now)[1] == stored[1]
  {
    assert RequiredFailure(plan[0], stored[0]) && DependsOn(plan, 1, 0);
    RequiredFailureDependencyIff(plan, stored, 1);
    assert SweptBefore(plan, stored, 1, now) == stored;
    SweepSkipsDecides(plan, stored, 1, now);
  }

  lemma MendEnds(q: Pipeline, f: Event)
    requires Mending(q.plan) && |q.jobs| == 2
    requires q.jobs[0].status == Running && q.jobs[0].exitCode.None? && q.jobs[1].status == Pending
    requires f.Report? && f.i == 0 && f.state == Some(Failed) && f.exitCode == Some(42)
    ensures Accepts(q, f)
    ensures var r := Apply(q, f); AllowedFailure(r.plan[0], r.jobs[0]) && r.jobs[1].status == Pending
  {
    MendSweep(q.plan, q.jobs[0 := q.jobs[0].(status := Failed)], f.now);
    FinalReportRecords(q, f);
    assert RunsAfterFailure(q.plan[1]);
  }

  lemma MendIsStalled(r: Pipeline)
    requires Mending(r.plan) && |r.jobs| == 2 && AllowedFailure(r.plan[0], r.jobs[0]) && r.jobs[1].status == Pending
    ensures Stalled(r)
  {
    InVain(r.plan, r.jobs, 1, 0);
    assert !Enabled(r, 0) && !Enabled(r, 1);
    assert r.jobs[1].status in {Pending, Scheduled};
  }

  /** The dependency fails with the allowed exit code. The pass runs before the code is stored, so it still sees a
      required failure; after that there is none. */
  lemma AllowedCodeStrands()
    ensures var p := NewPipeline(MendPlan());
            var es := [Assign(0, "r", 1), Report(0, Some(Failed), None, Some(42), 0, 3, 2)];
            NeedsPresent(p.plan) && KnotFree(p.plan) && QuietRun(p, es) && Stalled(Reached(p, es))
    ensures OnFailureInOrder(MendPlan()) && AllHaveWorkBefore(MendPlan()) && OvertakersWatched(MendPlan())
  {
    var p := NewPipeline(MendPlan());
    var e, f := Assign(0, "r", 1), Report(0, Some(Failed), None, Some(42), 0, 3, 2);
    MendPlanIsMending();
    MendingFacts(p.plan);
    StageUnblockedIff(p.plan, p.jobs, 0);
    MendEnds(Apply(p, e), f);
    MendIsStalled(Apply(Apply(p, e), f));
    RunOfTwo(p, e, f);
  }

  // Overtaking.

  /** A job, one that needs it, and an `on_failure` job that needs only the second. */
  function CheckPlan(): seq<Config> {
    [PlainJob(1, "build", None, OnSuccess), PlainJob(2, "check", Needing("build"), OnSuccess),
     PlainJob(3, "mend", Needing("check"), OnFailure)]
  }

  predicate Checking(plan: seq<Config>) {
    && |plan| == 3 && Wired(plan, [-1, 0, 1])
    && plan[0].when == OnSuccess && plan[1].when == OnSuccess && plan[2].when == OnFailure
    && forall i | 0 <= i < 3 :: plan[i].allowCodes == []
  }

  lemma CheckPlanIsChecking()
    ensures Checking(CheckPlan())
  {
    var plan := CheckPlan();
    assert plan[0].name[0] == 'b' && plan[1].name[0] == 'c' && plan[2].name[0] == 'm';
  }

  lemma CheckingFacts(plan: seq<Config>)
    requires Checking(plan)
    ensures NeedsPresent(plan) && KnotFree(plan)
    ensures OnFailureInOrder(plan) && AllHaveWorkBefore(plan) && WatchedCodesDoNotMatter(plan)
  {
    WiredIsSound(plan, [-1, 0, 1], [0, 1, 2]);
    assert DependsOn(plan, 2, 1);
  }

  lemma CheckSweep(plan: seq<Config>, stored: seq<JobState>, now: int)
    requires Checking(plan) && |stored| == 3 && stored[1].status == Pending
    ensures SkipUntriggeredFrom(plan, stored, 0, now)[2] == stored[2]
  {
    assert SweptBefore(plan, stored, 1, now) == stored;
    assert SweptBefore(plan, stored, 2, now) == stored;
    assert DependsOn(plan, 2, 1);
    SweepSkipsDecides(plan, stored, 2, now);
  }

  lemma CheckEnds(q: Pipeline, f: Event)
    requires Checking(q.plan) && |q.jobs| == 3
    requires q.jobs[0].status == Running && q.jobs[1].status == Pending && q.jobs[2].status == Pending
    requires f.Report? && f.i == 0 && f.state == Some(Failed) && f.exitCode == None
    ensures Accepts(q, f)
    ensures var r := Apply(q, f);
            r.jobs[0].status == Failed && r.jobs[1].status == Skipped && r.jobs[2].status == Pending
  {
    CheckSweep(q.plan, q.jobs[0 := q.jobs[0].(status := Failed)], f.now);
    FinalReportShape(q, f);
    assert DependsOn(q.plan, 1, 0) && RunsAfterFailure(q.plan[2]);
    DependentsAreBehind(q.plan, 1, 0);
  }

  lemma CheckIsStalled(r: Pipeline)
    requires Checking(r.plan) && |r.jobs| == 3
    requires r.jobs[0].status == Failed && r.jobs[1].status == Skipped && r.jobs[2].status == Pending
    ensures Stalled(r)
  {
    InVain(r.plan, r.jobs, 2, 1);
    assert !Enabled(r, 0) && !Enabled(r, 1) && !Enabled(r, 2);
    assert r.jobs[2].status in {Pending, Scheduled};
  }

  /** The first job fails; the second pass skips the second job, and the first pass, which has gone before, does not
      come back to the third. */
  lemma OvertakenStrands()
    ensures var p := NewPipeline(CheckPlan());
            var es := [Assign(0, "r", 1), Report(0, Some(Failed), None, None, 0, 3, 2)];
            NeedsPresent(p.plan) && KnotFree(p.plan) && QuietRun(p, es) && Stalled(Reached(p, es))
    ensures OnFailureInOrder(CheckPlan()) && AllHaveWorkBefore(CheckPlan()) && WatchedCodesDoNotMatter(CheckPlan())
  {
    var p := NewPipeline(CheckPlan());
    var e, f := Assign(0, "r", 1), Report(0, Some(Failed), None, None, 0, 3, 2);
    CheckPlanIsChecking();
    CheckingFacts(p.plan);
    StageUnblockedIff(p.plan, p.jobs, 0);
    CheckEnds(Apply(p, e), f);
    CheckIsStalled(Apply(Apply(p, e), f));
    RunOfTwo(p, e, f);
  }

  // Order.

  /** An `on_failure` job listed before the `on_failure` job it needs, which needs an ordinary one. */
  function LatePlan(): seq<Config> {
    [PlainJob(1, "after", Needing("mend"), OnFailure), PlainJob(2, "mend", Needing("build"), OnFailure),
     PlainJob(3, "build", None, OnSuccess)]
  }

  predicate Late(plan: seq<Config>) {
    && |plan| == 3 && Wired(plan, [1, 2, -1])
    && plan[0].when == OnFailure && plan[1].when == OnFailure && plan[2].when == OnSuccess
    && forall i | 0 <= i < 3 :: plan[i].allowCodes == []
  }

  lemma LatePlanIsLate()
    ensures Late(LatePlan())
  {
    var plan := LatePlan();
    assert plan[0].name[0] == 'a' && plan[1].name[0] == 'm' && plan[2].name[0] == 'b';
  }

  lemma LateFacts(plan: seq<Config>)
    requires Late(plan)
    ensures NeedsPresent(plan) && KnotFree(plan)
    ensures AllHaveWorkBefore(plan) && WatchedCodesDoNotMatter(plan) && OvertakersWatched(plan)
  {
    WiredIsSound(plan, [1, 2, -1], [2, 1, 0]);
    assert DependsOn(plan, 0, 1) && DependsOn(plan, 1, 2);
  }

  lemma LateSweep(plan: seq<Config>, stored: seq<JobState>, now: int)
    requires Late(plan) && |stored| == 3
    requires stored[0].status == Pending && stored[1].status == Pending && stored[2].status == Success
    ensures SkipUntriggeredFrom(plan, stored, 0, now)[0] == stored[0]
    ensures SkipUntriggeredFrom(plan, stored, 0, now)[1].status == Skipped
  {
    assert DependsOn(plan, 0, 1);
    SweepSkipsDecides(plan, stored, 0, now);
    assert SweptBefore(plan, stored, 1, now) == stored;
    DependenciesTerminalIff(plan, stored, 1);
    RequiredFailureDependencyIff(plan, stored, 1);
    SweepSkipsDecides(plan, stored, 1, now);
  }

  lemma LateEnds(q: Pipeline, f: Event)
    requires Late(q.plan) && |q.jobs| == 3
    requires q.jobs[2].status == Running && q.jobs[0].status == Pending && q.jobs[1].status == Pending
    requires f.Report? && f.i == 2 && f.state == Some(Success)
    ensures Accepts(q, f)
    ensures var r := Apply(q, f);
            r.jobs[0].status == Pending && r.jobs[1].status == Skipped && r.jobs[2].status == Success
  {
    LateSweep(q.plan, q.jobs[2 := q.jobs[2].(status := Success)], f.now);
    FinalReportRecords(q, f);
  }

  lemma LateIsStalled(r: Pipeline)
    requires Late(r.plan) && |r.jobs| == 3
    requires r.jobs[0].status == Pending && r.jobs[1].status == Skipped && r.jobs[2].status == Success
    ensures Stalled(r)
  {
    InVain(r.plan, r.jobs, 0, 1);
    assert !Enabled(r, 0) && !Enabled(r, 1) && !Enabled(r, 2);
    assert r.jobs[0].status in {Pending, Scheduled};
  }

  /** The ordinary job succeeds; the pass comes to the first job before it skips the second, and not again. */
  lemma LateListingStrands()
    ensures var p := NewPipeline(LatePlan());
            var es := [Assign(2, "r", 1), Report(2, Some(Success), None, None, 0, 3, 2)];
            NeedsPresent(p.plan) && KnotFree(p.plan) && QuietRun(p, es) && Stalled(Reached(p, es))
    ensures AllHaveWorkBefore(LatePlan()) && WatchedCodesDoNotMatter(LatePlan()) && OvertakersWatched(LatePlan())
  {
    var p := NewPipeline(LatePlan());
    var e, f := Assign(2, "r", 1), Report(2, Some(Success), None, None, 0, 3, 2);
    LatePlanIsLate();
    LateFacts(p.plan);
    StageUnblockedIff(p.plan, p.jobs, 2);
    LateEnds(Apply(p, e), f);
    LateIsStalled(Apply(Apply(p, e), f));
    RunOfTwo(p, e, f);
  }
}
