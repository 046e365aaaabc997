/** Dependency-order safety over every run of polls, promotions and well-behaved reports. */
module Safety {
  import opened Wrappers
  import opened CiModel
  import opened Steps

  /** A well-behaved runner reports only on a job it runs: how it ended, */
  predicate FinalReport(p: Pipeline, e: Event)
    requires Matched(p.plan, p.jobs)
  {
    e.Report? && e.i < |p.jobs| && p.jobs[e.i].status == Running &&
      (e.state == Some(Success) || e.state == Some(Failed))
  }

  /** or that it still runs. */
  predicate ProgressReport(p: Pipeline, e: Event)
    requires Matched(p.plan, p.jobs)
  {
    e.Report? && e.i < |p.jobs| && p.jobs[e.i].status == Running && (e.state == None || e.state == Some(Running))
  }

  /** The steps that change no status. */
  predicate Passive(e: Event) {
    e.AppendTrace? || e.Upload? || e.Lend? || e.KeepArtifacts?
  }

  /** The steps in which no operator steps in. */
  predicate Quiet(p: Pipeline, e: Event)
    requires Matched(p.plan, p.jobs)
  {
    e.Assign? || e.Promote? || Passive(e) || FinalReport(p, e) || ProgressReport(p, e)
  }

  predicate QuietRun(p: Pipeline, es: seq<Event>)
    requires Matched(p.plan, p.jobs)
    decreases |es|
  {
    es == [] || (Accepts(p, es[0]) && Quiet(p, es[0]) && QuietRun(Apply(p, es[0]), es[1..]))
  }

  lemma {:induction false} QuietRunAccepted(p: Pipeline, es: seq<Event>)
    requires Matched(p.plan, p.jobs) && QuietRun(p, es)
    ensures AcceptsAll(p, es)
    decreases |es|
  {
    if es != [] {
      QuietRunAccepted(Apply(p, es[0]), es[1..]);
    }
  }

  /** The pipeline a quiet run reaches. */
  function Reached(p: Pipeline, es: seq<Event>): (q: Pipeline)
    requires Matched(p.plan, p.jobs) && QuietRun(p, es)
    ensures q.plan == p.plan && Matched(q.plan, q.jobs)
  {
    QuietRunAccepted(p, es);
    Run(p, es)
  }

  predicate Started(s: Status) {
    s == Running || s == Success || s == Failed
  }

  // What the passes and a report can change.

  /** Record `after` is `before`, or the same job skipped while it waited. */
  predicate SameOrSkipped(before: JobState, after: JobState, now: int) {
    after == before || (Waiting(before.status) && after == MarkSkipped(before, now))
  }

  lemma {:induction false} UntriggeredPassShape(plan: seq<Config>, jobs: seq<JobState>, i: nat, now: int)
    requires Matched(plan, jobs) && i <= |plan|
    ensures var r := SkipUntriggeredFrom(plan, jobs, i, now);
            forall k | 0 <= k < |plan| ::
              SameOrSkipped(jobs[k], r[k], now) && (plan[k].when != OnFailure || k < i ==> r[k] == jobs[k])
    decreases |plan| - i
  {
    if i < |plan| {
      UntriggeredPassShape(plan, SkipIfUntriggered(plan, jobs, i, now), i + 1, now);
    }
  }

  lemma {:induction false} SweepFromBefore(plan: seq<Config>, jobs: seq<JobState>, i: nat, now: int)
    requires Matched(plan, jobs) && i <= |plan|
    ensures SkipUntriggeredFrom(plan, jobs, 0, now) ==
            SkipUntriggeredFrom(plan, SweptBefore(plan, jobs, i, now), i, now)
    decreases i
  {
    if i > 0 {
      SweepFromBefore(plan, jobs, i - 1, now);
    }
  }

  /** What the whole pass does to job i is decided when it comes to it. */
  lemma SweepSkipsDecides(plan: seq<Config>, jobs: seq<JobState>, i: nat, now: int)
    requires Matched(plan, jobs) && i < |plan|
    ensures SkipUntriggeredFrom(plan, jobs, 0, now)[i] ==
            if SweepSkips(plan, jobs, i, now) then MarkSkipped(jobs[i], now) else jobs[i]
  {
    var before := SweptBefore(plan, jobs, i, now);
    SweepFromBefore(plan, jobs, i, now);
    assert before[i] == before[i..][0] == jobs[i..][0];
    UntriggeredPassShape(plan, SkipIfUntriggered(plan, before, i, now), i + 1, now);
  }

  lemma DependentsAreBehind(plan: seq<Config>, k: nat, f: nat)
    requires k < |plan| && f < |plan| && DependsOn(plan, k, f)
    ensures Behind(plan, k, f)
  {
    if plan[k].needs.Some? {
      var n :| n in plan[k].needs.value && !n.External() && Peer(plan, n.job) == f;
      assert n.job == plan[f].name;
    }
  }

  /** What any report stores first: other jobs are the same or skipped, its own keeps its token and trace. */
  lemma ReportedShape(p: Pipeline, e: Event)
    requires Matched(p.plan, p.jobs) && Accepts(p, e) && e.Report?
    ensures var r := ReportedJobs(p, e.i, e.state, e.reason, e.exitCode, e.size, e.now);
            && (forall k | 0 <= k < |p.plan| && k != e.i :: SameOrSkipped(p.jobs[k], r[k], e.now))
            && r[e.i].token == p.jobs[e.i].token && r[e.i].trace == p.jobs[e.i].trace
            && (r[e.i].status == e.state.GetOr(p.jobs[e.i].status) ||
                (r[e.i].status == Skipped && p.plan[e.i].when == OnFailure))
  {
    var stored := p.jobs[e.i := p.jobs[e.i].(status := e.state.GetOr(p.jobs[e.i].status))];
    UntriggeredPassShape(p.plan, stored, 0, e.now);
  }

  /** A final report skips of the other jobs only waiting ones. */
  lemma FinalReportOthers(p: Pipeline, e: Event)
    requires Matched(p.plan, p.jobs) && Accepts(p, e) && FinalReport(p, e)
    ensures forall k | 0 <= k < |p.plan| && k != e.i :: SameOrSkipped(p.jobs[k], Apply(p, e).jobs[k], e.now)
  {
    ReportedShape(p, e);
    var reported := ReportedJobs(p, e.i, e.state, e.reason, e.exitCode, e.size, e.now);
    var settled := SettledJobs(p.plan, reported, e.i, e.reason, e.exitCode, e.minted, e.now);
    assert forall k | 0 <= k < |p.plan| && k != e.i :: Apply(p, e).jobs[k] == settled[k];
  }

  /** Its own job ends as reported, or is retried. */
  lemma FinalReportRecords(p: Pipeline, e: Event)
    requires Matched(p.plan, p.jobs) && Accepts(p, e) && FinalReport(p, e)
    ensures var q := Apply(p, e);
            var s := q.jobs[e.i];
            && (forall k | 0 <= k < |p.plan| && k != e.i :: SameOrSkipped(p.jobs[k], q.jobs[k], e.now))
            && (if e.state == Some(Failed) && ShouldAutoRetry(p.plan[e.i], p.jobs[e.i], e.reason, e.exitCode) then
                  s == AutoRetried(p.plan[e.i], p.jobs[e.i], e.minted, e.now)
                else
                  s.status == e.state.value && s.exitCode == e.exitCode && s.attempt == p.jobs[e.i].attempt)
  {
    FinalReportOthers(p, e);
    UntriggeredPassShape(p.plan, p.jobs[e.i := p.jobs[e.i].(status := e.state.value)], 0, e.now);
    var reported := ReportedJobs(p, e.i, e.state, e.reason, e.exitCode, e.size, e.now);
    assert reported[e.i].status == e.state.value && reported[e.i].attempt == p.jobs[e.i].attempt;
  }

  /** A failure that counts leaves none waiting behind it that needs success. */
  lemma FinalReportOvertakes(p: Pipeline, e: Event)
    requires Matched(p.plan, p.jobs) && Accepts(p, e) && FinalReport(p, e)
    requires RequiredFailure(p.plan[e.i], Apply(p, e).jobs[e.i])
    ensures forall k | 0 <= k < |p.plan| && Behind(p.plan, k, e.i) && !RunsAfterFailure(p.plan[k]) ::
              !Waiting(Apply(p, e).jobs[k].status)
  {
    FinalReportRecords(p, e);
    var reported := ReportedJobs(p, e.i, e.state, e.reason, e.exitCode, e.size, e.now);
    ReportedShape(p, e);
    assert Apply(p, e).jobs == Stamped(SkipOvertaken(p.plan, reported, e.now), e.i, e.now);
    forall k | 0 <= k < |p.plan| && Behind(p.plan, k, e.i) && !RunsAfterFailure(p.plan[k])
      ensures !Waiting(Apply(p, e).jobs[k].status)
    {
      assert Waiting(reported[k].status) ==> Overtaken(p.plan, reported, k);
    }
  }

  /** Both together. */
  lemma FinalReportShape(p: Pipeline, e: Event)
    requires Matched(p.plan, p.jobs) && Accepts(p, e) && FinalReport(p, e)
    ensures var q := Apply(p, e);
            var s := q.jobs[e.i];
            && (forall k | 0 <= k < |p.plan| && k != e.i :: SameOrSkipped(p.jobs[k], q.jobs[k], e.now))
            && (if e.state == Some(Failed) && ShouldAutoRetry(p.plan[e.i], p.jobs[e.i], e.reason, e.exitCode) then
                  s == AutoRetried(p.plan[e.i], p.jobs[e.i], e.minted, e.now)
                else
                  s.status == e.state.value && s.exitCode == e.exitCode && s.attempt == p.jobs[e.i].attempt)
            && (RequiredFailure(p.plan[e.i], s) ==>
                  forall k | 0 <= k < |p.plan| && Behind(p.plan, k, e.i) && !RunsAfterFailure(p.plan[k]) ::
                    !Waiting(q.jobs[k].status))
  {
    FinalReportRecords(p, e);
    if RequiredFailure(p.plan[e.i], Apply(p, e).jobs[e.i]) {
      FinalReportOvertakes(p, e);
    }
  }

  /** What any report, well-behaved or not, makes of the records: other jobs are the same or skipped; its own keeps its
      token and trace, unless the failure is retried with a new token and an empty trace. */
  lemma ReportShape(p: Pipeline, e: Event)
    requires Matched(p.plan, p.jobs) && Accepts(p, e) && e.Report?
    ensures var q := Apply(p, e);
            var s := q.jobs[e.i];
            && (forall k | 0 <= k < |p.plan| && k != e.i :: SameOrSkipped(p.jobs[k], q.jobs[k], e.now))
            && (|| (s.token == e.minted && s.trace == [] && Waiting(s.status))
                || (s.token == p.jobs[e.i].token && s.trace == p.jobs[e.i].trace &&
                    (s.status == Skipped || s.status == e.state.GetOr(p.jobs[e.i].status))))
            && (e.state.Some? && e.state.value != Failed && p.plan[e.i].when != OnFailure ==>
                  s.status == e.state.value && s.token == p.jobs[e.i].token)
  {
    ReportedShape(p, e);
    var r := ReportedJobs(p, e.i, e.state, e.reason, e.exitCode, e.size, e.now);
    var settled := SettledJobs(p.plan, r, e.i, e.reason, e.exitCode, e.minted, e.now);
    assert Apply(p, e).jobs == Stamped(settled, e.i, e.now);
    if r[e.i].status == Failed && !ShouldAutoRetry(p.plan[e.i], r[e.i], e.reason, e.exitCode) {
      assert settled == SkipOvertaken(p.plan, r, e.now);
      assert settled[e.i] == r[e.i];
    }
  }

  /** What no report touches. */
  predicate SameRest(before: JobState, after: JobState) {
    after.artifacts == before.artifacts && after.variables == before.variables && after.erasedAt == before.erasedAt
  }

  lemma ReportedKeepsRest(p: Pipeline, e: Event)
    requires Matched(p.plan, p.jobs) && Accepts(p, e) && e.Report?
    ensures var r := ReportedJobs(p, e.i, e.state, e.reason, e.exitCode, e.size, e.now);
            forall k | 0 <= k < |p.jobs| :: SameRest(p.jobs[k], r[k])
  {
    UntriggeredPassShape(p.plan, p.jobs[e.i := p.jobs[e.i].(status := e.state.GetOr(p.jobs[e.i].status))], 0, e.now);
  }

  lemma ReportKeepsRest(p: Pipeline, e: Event)
    requires Matched(p.plan, p.jobs) && Accepts(p, e) && e.Report?
    ensures forall k | 0 <= k < |p.jobs| :: SameRest(p.jobs[k], Apply(p, e).jobs[k])
  {
    ReportedKeepsRest(p, e);
    var r := ReportedJobs(p, e.i, e.state, e.reason, e.exitCode, e.size, e.now);
    var settled := SettledJobs(p.plan, r, e.i, e.reason, e.exitCode, e.minted, e.now);
    assert forall k | 0 <= k < |p.jobs| :: SameRest(r[k], settled[k]);
  }

  /** A progress report skips of the other jobs only waiting ones, and its own goes on running. */
  lemma ProgressReportRecords(p: Pipeline, e: Event)
    requires Matched(p.plan, p.jobs) && Accepts(p, e) && ProgressReport(p, e)
    ensures var q := Apply(p, e);
            && (forall k | 0 <= k < |p.plan| && k != e.i :: SameOrSkipped(p.jobs[k], q.jobs[k], e.now))
            && q.jobs[e.i].status == Running && q.jobs[e.i].attempt == p.jobs[e.i].attempt
  {
    ReportedShape(p, e);
    assert p.jobs[e.i := p.jobs[e.i].(status := Running)] == p.jobs;
    UntriggeredPassShape(p.plan, p.jobs, 0, e.now);
  }

  /** What both kinds of report leave of the other jobs, and of their own. */
  lemma QuietReportRecords(p: Pipeline, e: Event)
    requires Matched(p.plan, p.jobs) && Accepts(p, e) && Quiet(p, e) && e.Report?
    ensures var q := Apply(p, e);
            && (forall k | 0 <= k < |p.plan| && k != e.i :: SameOrSkipped(p.jobs[k], q.jobs[k], e.now))
            && q.jobs[e.i].status in {Pending, Scheduled, Running, Success, Failed}
            && p.jobs[e.i].status == Running
  {
    if FinalReport(p, e) {
      FinalReportRecords(p, e);
    } else {
      ProgressReportRecords(p, e);
    }
  }

  // The invariant.

  /** What a started job waited for lets it through, and it still does. */
  predicate StartedInOrder(p: Pipeline)
    requires Matched(p.plan, p.jobs)
  {
    forall i: nat, d: nat | i < |p.plan| && d < |p.plan| && Started(p.jobs[i].status) && DependsOn(p.plan, i, d) ::
      Passable(p.plan[d], p.jobs[d], RunsAfterFailure(p.plan[i]))
  }

  /** No waiting job that needs success depends directly on a required failure. */
  predicate NoneDoomed(p: Pipeline)
    requires Matched(p.plan, p.jobs)
  {
    forall i: nat, d: nat | i < |p.plan| && d < |p.plan| && Waiting(p.jobs[i].status) &&
                            !RunsAfterFailure(p.plan[i]) && DependsOn(p.plan, i, d) ::
      !RequiredFailure(p.plan[d], p.jobs[d])
  }

  predicate NoneCanceled(p: Pipeline) {
    forall i | 0 <= i < |p.jobs| :: p.jobs[i].status != Canceled
  }

  predicate SafetyInv(p: Pipeline) {
    Matched(p.plan, p.jobs) && StartedInOrder(p) && NoneDoomed(p) && NoneCanceled(p)
  }

  lemma CreatedIsSafe(p: Pipeline)
    requires Created(p)
    ensures SafetyInv(p)
  {
  }

  /** Success, failure, skipping and an unplayed manual job are never left: neither the status nor the exit code
      changes. */
  lemma SettledStays(p: Pipeline, e: Event)
    requires Matched(p.plan, p.jobs) && Accepts(p, e) && Quiet(p, e)
    ensures forall k | 0 <= k < |p.plan| && !Active(p.jobs[k].status) ::
              Apply(p, e).jobs[k].status == p.jobs[k].status && Apply(p, e).jobs[k].exitCode == p.jobs[k].exitCode
  {
    if e.Report? {
      QuietReportRecords(p, e);
    }
  }

  lemma AssignStartsInOrder(p: Pipeline, e: Event)
    requires SafetyInv(p) && Accepts(p, e) && e.Assign?
    ensures StartedInOrder(Apply(p, e))
  {
    var q := Apply(p, e);
    StageUnblockedIff(p.plan, p.jobs, e.i);
    forall i: nat, d: nat | i < |p.plan| && d < |p.plan| && Started(q.jobs[i].status) && DependsOn(p.plan, i, d)
      ensures Passable(p.plan[d], q.jobs[d], RunsAfterFailure(p.plan[i]))
    {
      assert Passable(p.plan[d], p.jobs[d], RunsAfterFailure(p.plan[i]));
    }
  }

  lemma ReportStartsInOrder(p: Pipeline, e: Event)
    requires SafetyInv(p) && Accepts(p, e) && Quiet(p, e) && e.Report?
    ensures StartedInOrder(Apply(p, e))
  {
    var q := Apply(p, e);
    SettledStays(p, e);
    QuietReportRecords(p, e);
    forall i: nat, d: nat | i < |p.plan| && d < |p.plan| && Started(q.jobs[i].status) && DependsOn(p.plan, i, d)
      ensures Passable(p.plan[d], q.jobs[d], RunsAfterFailure(p.plan[i]))
    {
      assert Started(p.jobs[i].status);
      assert Passable(p.plan[d], p.jobs[d], RunsAfterFailure(p.plan[i]));
    }
  }

  /** Promotions and passive steps start and end no job. */
  lemma OthersStartInOrder(p: Pipeline, q: Pipeline)
    requires SafetyInv(p) && q.plan == p.plan && |q.jobs| == |p.jobs|
    requires forall k | 0 <= k < |p.jobs| ::
               && (q.jobs[k].status == p.jobs[k].status || (Waiting(p.jobs[k].status) && Waiting(q.jobs[k].status)))
               && q.jobs[k].exitCode == p.jobs[k].exitCode
    ensures StartedInOrder(q)
  {
    forall i: nat, d: nat | i < |p.plan| && d < |p.plan| && Started(q.jobs[i].status) && DependsOn(p.plan, i, d)
      ensures Passable(p.plan[d], q.jobs[d], RunsAfterFailure(p.plan[i]))
    {
      assert Passable(p.plan[d], p.jobs[d], RunsAfterFailure(p.plan[i]));
    }
  }

  lemma StartedInOrderKept(p: Pipeline, e: Event)
    requires SafetyInv(p) && Accepts(p, e) && Quiet(p, e)
    ensures StartedInOrder(Apply(p, e))
  {
    if e.Assign? {
      AssignStartsInOrder(p, e);
    } else if e.Report? {
      ReportStartsInOrder(p, e);
    } else {
      OthersStartInOrder(p, Apply(p, e));
    }
  }

  lemma ReportDoomsNone(p: Pipeline, e: Event)
    requires SafetyInv(p) && Accepts(p, e) && Quiet(p, e) && e.Report?
    ensures NoneDoomed(Apply(p, e))
  {
    var q := Apply(p, e);
    if FinalReport(p, e) {
      FinalReportShape(p, e);
    } else {
      ProgressReportRecords(p, e);
    }
    forall i: nat, d: nat | i < |p.plan| && d < |p.plan| && Waiting(q.jobs[i].status) &&
                            !RunsAfterFailure(p.plan[i]) && DependsOn(p.plan, i, d)
      ensures !RequiredFailure(p.plan[d], q.jobs[d])
    {
      DependentsAreBehind(p.plan, i, d);
      if e.i == i {
        assert Passable(p.plan[d], p.jobs[d], false);
      }
    }
  }

  lemma NoneDoomedKept(p: Pipeline, e: Event)
    requires SafetyInv(p) && Accepts(p, e) && Quiet(p, e)
    ensures NoneDoomed(Apply(p, e))
  {
    if e.Report? {
      ReportDoomsNone(p, e);
    }
  }

  lemma NoneCanceledKept(p: Pipeline, e: Event)
    requires SafetyInv(p) && Accepts(p, e) && Quiet(p, e)
    ensures NoneCanceled(Apply(p, e))
  {
    if e.Report? {
      QuietReportRecords(p, e);
    }
  }

  lemma SafetyKept(p: Pipeline, e: Event)
    requires SafetyInv(p) && Accepts(p, e) && Quiet(p, e)
    ensures SafetyInv(Apply(p, e))
  {
    StartedInOrderKept(p, e);
    NoneDoomedKept(p, e);
    NoneCanceledKept(p, e);
  }

  /** Over every run of polls, promotions and well-behaved requests of a new pipeline: what has settled stays as it is,
      and a job that has started and needs success has all its direct dependencies in success, skipped, manual or
      allowed failure. */
  lemma {:induction false} DependencyOrderSafety(p: Pipeline, es: seq<Event>)
    requires SafetyInv(p) && QuietRun(p, es)
    ensures var q := Reached(p, es);
            && SafetyInv(q)
            && (forall k | 0 <= k < |p.plan| && !Active(p.jobs[k].status) ::
                  q.jobs[k].status == p.jobs[k].status && q.jobs[k].exitCode == p.jobs[k].exitCode)
            && (forall i: nat, d: nat | i < |p.plan| && d < |p.plan| && DependsOn(p.plan, i, d) &&
                                        Started(q.jobs[i].status) && !RunsAfterFailure(p.plan[i]) ::
                  q.jobs[d].status in {Success, Skipped, Manual} || AllowedFailure(p.plan[d], q.jobs[d]))
    decreases |es|
  {
    if es != [] {
      SafetyKept(p, es[0]);
      SettledStays(p, es[0]);
      DependencyOrderSafety(Apply(p, es[0]), es[1..]);
      assert Reached(p, es) == Reached(Apply(p, es[0]), es[1..]);
    }
  }
}
