/** Plans in which the pass over `on_failure` jobs keeps up: no reachable state has a job it should have skipped. */
module KeepingUp {
  import opened CiModel
  import opened Safety
  import opened SkipPasses
  import opened Steps

  /** Job i is an `on_failure` job and d one of its dependencies. */
  predicate WatchesFor(plan: seq<Config>, i: nat, d: nat)
    requires i < |plan| && d < |plan|
  {
    plan[i].when == OnFailure && DependsOn(plan, i, d)
  }

  /** Some dependency of the job has to run before it ends. */
  predicate HasWorkBefore(plan: seq<Config>, i: nat)
    requires i < |plan|
  {
    exists d: nat :: d < |plan| && DependsOn(plan, i, d) && plan[d].when != OnPlay
  }

  /** Every `on_failure` job has something to wait for. */
  predicate AllHaveWorkBefore(plan: seq<Config>) {
    forall i: nat | i < |plan| && plan[i].when == OnFailure :: HasWorkBefore(plan, i)
  }

  /** Whether a failure is allowed does not depend on its exit code. */
  predicate CodesDoNotMatter(c: Config) {
    c.allowFailure || c.allowCodes == []
  }

  predicate WatchedCodesDoNotMatter(plan: seq<Config>) {
    forall i: nat, d: nat | i < |plan| && d < |plan| && WatchesFor(plan, i, d) :: CodesDoNotMatter(plan[d])
  }

  /** A failure of f can skip k while k waits. */
  predicate CanOvertake(plan: seq<Config>, k: nat, f: nat)
    requires k < |plan| && f < |plan|
  {
    && Behind(plan, k, f)
    && (plan[k].when == OnSuccess || plan[k].when == Delayed)
    && plan[f].when != OnPlay && !plan[f].allowFailure
  }

  /** An `on_failure` job depends on the failures that can skip one of its dependencies. */
  predicate OvertakersWatched(plan: seq<Config>) {
    forall i: nat, k: nat, f: nat | i < |plan| && k < |plan| && f < |plan| &&
                                    WatchesFor(plan, i, k) && CanOvertake(plan, k, f) ::
      DependsOn(plan, i, f)
  }

  /** What a plan needs for the one pass of each report to be enough. A plan without `on_failure` jobs has it all. */
  predicate PassKeepsUp(plan: seq<Config>) {
    && OnFailureInOrder(plan)
    && AllHaveWorkBefore(plan)
    && WatchedCodesDoNotMatter(plan)
    && OvertakersWatched(plan)
  }

  // The invariant.

  predicate HasRequiredFailure(p: Pipeline, i: nat)
    requires Matched(p.plan, p.jobs) && i < |p.plan|
  {
    exists d: nat :: d < |p.plan| && DependsOn(p.plan, i, d) && RequiredFailure(p.plan[d], p.jobs[d])
  }

  /** An `on_failure` job starts only after a required failure. */
  predicate StartedAfterFailure(p: Pipeline)
    requires Matched(p.plan, p.jobs)
  {
    forall i: nat | i < |p.plan| && p.plan[i].when == OnFailure && Started(p.jobs[i].status) :: HasRequiredFailure(p, i)
  }

  predicate ManualUnplayed(p: Pipeline) {
    Matched(p.plan, p.jobs) && forall i | 0 <= i < |p.plan| :: p.plan[i].when == OnPlay ==> p.jobs[i].status == Manual
  }

  predicate KeptUp(p: Pipeline) {
    ManualUnplayed(p) && StartedAfterFailure(p) && NoneUntriggered(p.plan, p.jobs)
  }

  lemma ManualStays(p: Pipeline, e: Event)
    requires ManualUnplayed(p) && Accepts(p, e) && Quiet(p, e)
    ensures ManualUnplayed(Apply(p, e))
  {
    SettledStays(p, e);
  }

  lemma {:induction false} ManualUnplayedInRuns(p: Pipeline, es: seq<Event>)
    requires ManualUnplayed(p) && QuietRun(p, es)
    ensures ManualUnplayed(Reached(p, es))
    decreases |es|
  {
    if es != [] {
      ManualStays(p, es[0]);
      ManualUnplayedInRuns(Apply(p, es[0]), es[1..]);
    }
  }

  lemma CreatedKeptUp(p: Pipeline)
    requires Created(p) && PassKeepsUp(p.plan)
    ensures KeptUp(p)
  {
    forall i: nat | i < |p.plan|
      ensures !Untriggered(p.plan, p.jobs, i)
    {
      if p.plan[i].when == OnFailure {
        assert HasWorkBefore(p.plan, i);
        var d: nat :| d < |p.plan| && DependsOn(p.plan, i, d) && p.plan[d].when != OnPlay;
        assert !Terminal(p.jobs[d].status);
        DependenciesTerminalIff(p.plan, p.jobs, i);
      }
    }
  }

  /** A required failure stays one. */
  lemma FailureStays(p: Pipeline, e: Event, i: nat)
    requires Matched(p.plan, p.jobs) && Accepts(p, e) && Quiet(p, e) && i < |p.plan| && HasRequiredFailure(p, i)
    ensures HasRequiredFailure(Apply(p, e), i)
  {
    SettledStays(p, e);
  }

  lemma StartedAfterFailureKept(p: Pipeline, e: Event)
    requires Matched(p.plan, p.jobs) && StartedAfterFailure(p) && Accepts(p, e) && Quiet(p, e)
    ensures StartedAfterFailure(Apply(p, e))
  {
    var q := Apply(p, e);
    if e.Report? {
      QuietReportRecords(p, e);
    }
    forall i: nat | i < |p.plan| && p.plan[i].when == OnFailure && Started(q.jobs[i].status)
      ensures HasRequiredFailure(q, i)
    {
      if e.Assign? && e.i == i {
        StageUnblockedIff(p.plan, p.jobs, i);
      }
      assert HasRequiredFailure(p, i);
      FailureStays(p, e, i);
    }
  }

  /** A job a runner takes and one whose time has come do not let others end. */
  lemma MoveKeepsUp(p: Pipeline, e: Event)
    requires Matched(p.plan, p.jobs) && NoneUntriggered(p.plan, p.jobs) && Accepts(p, e) && !e.Report? && Quiet(p, e)
    ensures NoneUntriggered(p.plan, Apply(p, e).jobs)
  {
    var q := Apply(p, e);
    forall i: nat | i < |p.plan|
      ensures !Untriggered(p.plan, q.jobs, i)
    {
      if Untriggered(p.plan, q.jobs, i) {
        UntriggeredBefore(p.plan, p.jobs, q.jobs, i);
      }
    }
  }

  /** The exit code, stored after the pass, changes no verdict an `on_failure` job waits for. */
  lemma ReportedKeepsUp(p: Pipeline, e: Event)
    requires Matched(p.plan, p.jobs) && PassKeepsUp(p.plan) && Accepts(p, e) && Quiet(p, e) && e.Report?
    ensures NoneUntriggered(p.plan, ReportedJobs(p, e.i, e.state, e.reason, e.exitCode, e.size, e.now))
  {
    var stored := p.jobs[e.i := p.jobs[e.i].(status := e.state.GetOr(Running))];
    var swept := Sweep(p.plan, stored, e.now);
    var reported := ReportedJobs(p, e.i, e.state, e.reason, e.exitCode, e.size, e.now);
    OrderedSweepIdempotent(p.plan, stored, e.now);
    UntriggeredPassShape(p.plan, stored, 0, e.now);
    forall i: nat | i < |p.plan|
      ensures !Untriggered(p.plan, reported, i)
    {
      if Untriggered(p.plan, reported, i) {
        forall d: nat | d < |p.plan| && DependsOn(p.plan, i, d)
          ensures RequiredFailure(p.plan[d], swept[d]) <==> RequiredFailure(p.plan[d], reported[d])
        {
          assert WatchesFor(p.plan, i, d);
        }
        UntriggeredBefore(p.plan, swept, reported, i);
      }
    }
  }

  lemma RetriedStaysTriggered(p: Pipeline, i: nat, after: seq<JobState>)
    requires Matched(p.plan, p.jobs) && StartedAfterFailure(p) && Matched(p.plan, after) && i < |p.plan|
    requires p.jobs[i].status == Running
    requires forall d | 0 <= d < |p.plan| && p.jobs[d].status == Failed :: after[d] == p.jobs[d]
    ensures !Untriggered(p.plan, after, i)
  {
    if p.plan[i].when == OnFailure {
      assert HasRequiredFailure(p, i);
      var d: nat :| d < |p.plan| && DependsOn(p.plan, i, d) && RequiredFailure(p.plan[d], p.jobs[d]);
      assert RequiredFailure(p.plan[d], after[d]);
      RequiredFailureDependencyIff(p.plan, after, i);
    }
  }

  /** A retried job has not ended, and if it is an `on_failure` job it has its required failure. */
  lemma RetryKeepsUp(p: Pipeline, e: Event, reported: seq<JobState>)
    requires KeptUp(p) && Accepts(p, e) && FinalReport(p, e) && Matched(p.plan, reported)
    requires reported == ReportedJobs(p, e.i, e.state, e.reason, e.exitCode, e.size, e.now)
    requires NoneUntriggered(p.plan, reported)
    ensures NoneUntriggered(p.plan, reported[e.i := AutoRetried(p.plan[e.i], reported[e.i], e.minted, e.now)])
  {
    var after := reported[e.i := AutoRetried(p.plan[e.i], reported[e.i], e.minted, e.now)];
    UntriggeredPassShape(p.plan, p.jobs[e.i := p.jobs[e.i].(status := e.state.value)], 0, e.now);
    forall i: nat | i < |p.plan|
      ensures !Untriggered(p.plan, after, i)
    {
      if i == e.i {
        RetriedStaysTriggered(p, i, after);
      } else if Untriggered(p.plan, after, i) {
        DependenciesTerminalIff(p.plan, after, i);
        UntriggeredBefore(p.plan, reported, after, i);
      }
    }
  }

  /** An `on_failure` job that waits for a job the second pass skips depends on the failure that lets it. */
  lemma OvertakerIsWatched(p: Pipeline, reported: seq<JobState>, i: nat, k: nat, now: int)
    requires PassKeepsUp(p.plan) && Matched(p.plan, reported) && i < |p.plan| && k < |p.plan|
    requires forall d | 0 <= d < |p.plan| && p.plan[d].when == OnPlay :: reported[d].status == Manual
    requires WatchesFor(p.plan, i, k) && Overtaken(p.plan, reported, k)
    ensures HasRequiredFailureDependency(p.plan, SkipOvertaken(p.plan, reported, now), i)
  {
    var after := SkipOvertaken(p.plan, reported, now);
    var f: nat :| f < |p.plan| && RequiredFailure(p.plan[f], reported[f]) && Behind(p.plan, k, f);
    assert CanOvertake(p.plan, k, f);
    assert RequiredFailure(p.plan[f], after[f]);
    RequiredFailureDependencyIff(p.plan, after, i);
  }

  lemma OvertakingKeepsUp(p: Pipeline, reported: seq<JobState>, now: int)
    requires PassKeepsUp(p.plan) && Matched(p.plan, reported) && NoneUntriggered(p.plan, reported)
    requires forall d | 0 <= d < |p.plan| && p.plan[d].when == OnPlay :: reported[d].status == Manual
    ensures NoneUntriggered(p.plan, SkipOvertaken(p.plan, reported, now))
  {
    var after := SkipOvertaken(p.plan, reported, now);
    forall i: nat | i < |p.plan|
      ensures !Untriggered(p.plan, after, i)
    {
      if Untriggered(p.plan, after, i) {
        forall k: nat | k < |p.plan| && DependsOn(p.plan, i, k)
          ensures !Overtaken(p.plan, reported, k)
        {
          if Overtaken(p.plan, reported, k) {
            OvertakerIsWatched(p, reported, i, k, now);
          }
        }
        UntriggeredBefore(p.plan, reported, after, i);
      }
    }
  }

  /** No manual job is reported on. */
  lemma ReportedManualStays(p: Pipeline, e: Event)
    requires ManualUnplayed(p) && Accepts(p, e) && FinalReport(p, e)
    ensures var reported := ReportedJobs(p, e.i, e.state, e.reason, e.exitCode, e.size, e.now);
            forall d | 0 <= d < |p.plan| && p.plan[d].when == OnPlay :: reported[d].status == Manual
  {
    ReportedShape(p, e);
  }

  lemma StampKeepsUp(plan: seq<Config>, jobs: seq<JobState>, i: nat, now: int)
    requires Matched(plan, jobs) && i < |plan| && NoneUntriggered(plan, jobs)
    ensures NoneUntriggered(plan, Stamped(jobs, i, now))
  {
    var after := Stamped(jobs, i, now);
    forall k: nat | k < |plan|
      ensures !Untriggered(plan, after, k)
    {
      if Untriggered(plan, after, k) {
        UntriggeredBefore(plan, jobs, after, k);
      }
    }
  }

  lemma FinalReportKeepsUp(p: Pipeline, e: Event)
    requires KeptUp(p) && PassKeepsUp(p.plan) && Accepts(p, e) && Quiet(p, e) && e.Report? && !ProgressReport(p, e)
    ensures NoneUntriggered(p.plan, Apply(p, e).jobs)
  {
    var reported := ReportedJobs(p, e.i, e.state, e.reason, e.exitCode, e.size, e.now);
    var settled := SettledJobs(p.plan, reported, e.i, e.reason, e.exitCode, e.minted, e.now);
    ReportedKeepsUp(p, e);
    RetryKeepsUp(p, e, reported);
    ReportedManualStays(p, e);
    OvertakingKeepsUp(p, reported, e.now);
    assert NoneUntriggered(p.plan, settled);
    StampKeepsUp(p.plan, settled, e.i, e.now);
  }

  lemma KeptUpKept(p: Pipeline, e: Event)
    requires KeptUp(p) && PassKeepsUp(p.plan) && Accepts(p, e) && Quiet(p, e)
    ensures KeptUp(Apply(p, e))
  {
    ManualStays(p, e);
    StartedAfterFailureKept(p, e);
    if ProgressReport(p, e) {
      ReportedKeepsUp(p, e);
      ProgressReportRecords(p, e);
      assert Apply(p, e).jobs == ReportedJobs(p, e.i, e.state, e.reason, e.exitCode, e.size, e.now);
    } else if e.Report? {
      FinalReportKeepsUp(p, e);
    } else {
      MoveKeepsUp(p, e);
    }
  }

  lemma {:induction false} KeptUpInRuns(p: Pipeline, es: seq<Event>)
    requires KeptUp(p) && PassKeepsUp(p.plan) && QuietRun(p, es)
    ensures KeptUp(Reached(p, es))
    decreases |es|
  {
    if es != [] {
      KeptUpKept(p, es[0]);
      KeptUpInRuns(Apply(p, es[0]), es[1..]);
    }
  }

  /** In no reachable state is an `on_failure` job left whose dependencies have all ended without a required failure. */
  lemma NoneLeftBehind(p: Pipeline, es: seq<Event>)
    requires Created(p) && PassKeepsUp(p.plan) && QuietRun(p, es)
    ensures NoneUntriggered(p.plan, Reached(p, es).jobs)
  {
    CreatedKeptUp(p);
    KeptUpInRuns(p, es);
  }
}
