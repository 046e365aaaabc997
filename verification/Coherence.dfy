/** The stored pipeline status and finish time against the status recomputed from the jobs. */
module Coherence {
  import opened Wrappers
  import opened CiModel
  import opened Safety
  import opened Samples
  import opened Steps

  predicate SomeJob(p: Pipeline, statuses: set<Status>) {
    exists i | 0 <= i < |p.jobs| :: p.jobs[i].status in statuses
  }

  predicate SomeRequiredFailure(p: Pipeline)
    requires Matched(p.plan, p.jobs)
  {
    exists i | 0 <= i < |p.plan| :: RequiredFailure(p.plan[i], p.jobs[i])
  }

  predicate Coherent(p: Pipeline) {
    && Matched(p.plan, p.jobs)
    && p.status == DerivedStatus(p.plan, p.jobs)
    && (p.finishedAt.Some? <==> Final(p.status))
  }

  lemma SomeBlockingMeaning(p: Pipeline, statuses: set<Status>)
    requires Matched(p.plan, p.jobs) && Failed !in statuses
    ensures SomeBlocking(p.plan, p.jobs, statuses) <==> SomeJob(p, statuses)
  {
    if SomeJob(p, statuses) {
      var i: nat :| i < |p.jobs| && p.jobs[i].status in statuses;
      assert !AllowedFailure(p.plan[i], p.jobs[i]);
    }
  }

  /** The nine-way derivation is a five-way priority: running, then waiting, then canceled, then a required failure,
      then success. Its last branch is never taken. */
  lemma DerivedStatusMeaning(p: Pipeline)
    requires Matched(p.plan, p.jobs) && p.jobs != []
    ensures DerivedStatus(p.plan, p.jobs) ==
            if SomeJob(p, {Running}) then Running
            else if SomeJob(p, {Pending, Scheduled}) then Pending
            else if SomeJob(p, {Canceled}) then Canceled
            else if SomeRequiredFailure(p) then Failed
            else Success
  {
    SomeBlockingMeaning(p, {Running});
    SomeBlockingMeaning(p, {Pending, Scheduled});
    SomeBlockingMeaning(p, {Pending, Running, Scheduled});
    SomeBlockingMeaning(p, {Canceled});
    assert SomeJob(p, {Pending, Running, Scheduled}) <==> SomeJob(p, {Running}) || SomeJob(p, {Pending, Scheduled});
    assert SomeBlocking(p.plan, p.jobs, {Failed}) <==> SomeRequiredFailure(p);
  }

  /** Two job lists with the same statuses and exit codes derive the same status. */
  lemma SameStatusesSameDerivation(p: Pipeline, q: Pipeline)
    requires Matched(p.plan, p.jobs) && q.plan == p.plan && |q.jobs| == |p.jobs|
    requires forall k | 0 <= k < |p.jobs| ::
               q.jobs[k].status == p.jobs[k].status && q.jobs[k].exitCode == p.jobs[k].exitCode
    ensures DerivedStatus(q.plan, q.jobs) == DerivedStatus(p.plan, p.jobs)
  {
    if p.jobs != [] {
      DerivedStatusMeaning(p);
      DerivedStatusMeaning(q);
    }
  }

  /** A derivation over at least one job makes the row coherent whatever was stored. */
  lemma DeriveMakesCoherent(p: Pipeline, now: int)
    requires Matched(p.plan, p.jobs) && p.jobs != []
    ensures Coherent(Derive(p, now)) && Coherent(ClearIfActive(Derive(p, now)))
  {
    DerivedStatusMeaning(p);
    SomeBlockingMeaning(p, {Pending, Scheduled});
  }

  /** A new pipeline is stored as pending: right unless every one of its jobs waits for a click. */
  lemma CreatedCoherentIff(p: Pipeline)
    requires Created(p)
    ensures Coherent(p) <==> p.jobs == [] || SomeJob(p, {Pending, Scheduled})
  {
    if p.jobs != [] {
      DerivedStatusMeaning(p);
    }
  }

  /** One manual job: stored as pending, derived as success. */
  lemma ManualOnlyIsIncoherent()
    ensures var p := NewPipeline([PlainJob(1, "deploy", None, OnPlay)]);
            Created(p) && !Coherent(p)
  {
    var p := NewPipeline([PlainJob(1, "deploy", None, OnPlay)]);
    assert |p.jobs| == 1 && p.jobs[0].status == Manual;
    CreatedCoherentIff(p);
  }

  /** The pipeline has a job to cancel, or one that is canceled already. */
  predicate LeavesCanceledJob(p: Pipeline) {
    SomeJob(p, {Pending, Running, Manual, Scheduled, Canceled})
  }

  /** Canceling a pipeline stores `canceled` without a derivation: right exactly when some job can be canceled or is. */
  lemma CancelPipelineCoherentIff(p: Pipeline, now: int)
    requires Matched(p.plan, p.jobs)
    ensures Coherent(CancelPipelineStep(p, now)) <==> LeavesCanceledJob(p)
  {
    var q := CancelPipelineStep(p, now);
    if LeavesCanceledJob(p) {
      var i: nat :| i < |p.jobs| && p.jobs[i].status in {Pending, Running, Manual, Scheduled, Canceled};
      assert q.jobs[i].status == Canceled;
      DerivedStatusMeaning(q);
    } else {
      forall i | 0 <= i < |q.jobs|
        ensures q.jobs[i].status != Canceled
      {
        assert p.jobs[i].status !in {Pending, Running, Manual, Scheduled, Canceled};
      }
      if q.jobs != [] {
        DerivedStatusMeaning(q);
      }
    }
  }

  /** The pipeline page's cancel derives the status, and is right for every pipeline with jobs. */
  lemma CancelFromPageCoherent(p: Pipeline, now: int)
    requires Matched(p.plan, p.jobs) && p.jobs != []
    ensures Coherent(CancelFromPageStep(p, now))
  {
    var jobs := seq(|p.jobs|, i requires 0 <= i < |p.jobs| => CanceledJob(p.jobs[i], now));
    DeriveMakesCoherent(p.(jobs := jobs), now);
  }

  /** The two cancels of a pipeline do the same exactly when some job can be canceled or is. */
  lemma CancelsAgreeIff(p: Pipeline, now: int)
    requires Matched(p.plan, p.jobs)
    ensures CancelPipelineStep(p, now) == CancelFromPageStep(p, now) <==> LeavesCanceledJob(p)
  {
    var q, r := CancelPipelineStep(p, now), CancelFromPageStep(p, now);
    CancelPipelineCoherentIff(p, now);
    assert q.plan == r.plan && q.jobs == r.jobs;
    assert DerivedStatus(q.plan, q.jobs) == r.status;
    if p.jobs != [] {
      CancelFromPageCoherent(p, now);
    } else {
      assert r.status == Pending;
    }
  }

  predicate LeavesCanceled(p: Pipeline, e: Event) {
    e.CancelPipeline? ==> LeavesCanceledJob(p)
  }

  lemma AssignCoherent(p: Pipeline, e: Event)
    requires Coherent(p) && Accepts(p, e) && e.Assign?
    ensures Coherent(Apply(p, e))
  {
    var q := Apply(p, e);
    DerivedStatusMeaning(p);
    DerivedStatusMeaning(q);
    assert p.jobs[e.i].status == Pending;
    assert q.jobs[e.i].status == Running;
  }

  lemma PromoteCoherent(p: Pipeline, e: Event)
    requires Coherent(p) && Accepts(p, e) && e.Promote?
    ensures Coherent(Apply(p, e)) && Apply(p, e).status == p.status
  {
    var q := Apply(p, e);
    DerivedStatusMeaning(p);
    DerivedStatusMeaning(q);
    assert p.jobs[e.i].status == Scheduled;
    assert q.jobs[e.i].status == Pending;
    if SomeJob(p, {Running}) {
      var k: nat :| k < |p.jobs| && p.jobs[k].status == Running;
      assert q.jobs[k].status == Running;
    }
    if SomeJob(q, {Running}) {
      var k: nat :| k < |q.jobs| && q.jobs[k].status == Running;
      assert p.jobs[k].status == Running;
    }
  }

  lemma ReportCoherent(p: Pipeline, e: Event)
    requires Coherent(p) && p.jobs != [] && Accepts(p, e) && e.Report?
    ensures Coherent(Apply(p, e))
  {
    var reported := ReportedJobs(p, e.i, e.state, e.reason, e.exitCode, e.size, e.now);
    var settled := SettledJobs(p.plan, reported, e.i, e.reason, e.exitCode, e.minted, e.now);
    DeriveMakesCoherent(p.(jobs := Stamped(settled, e.i, e.now)), e.now);
  }

  /** The steps that touch no status, exit code or pipeline row. */
  lemma PassiveCoherent(p: Pipeline, e: Event)
    requires Coherent(p) && p.jobs != [] && Accepts(p, e) && (Passive(e) || e.Erase?)
    ensures Coherent(Apply(p, e))
  {
    SameStatusesSameDerivation(p, Apply(p, e));
  }

  lemma JobActionCoherent(p: Pipeline, e: Event)
    requires Coherent(p) && p.jobs != [] && Accepts(p, e)
    requires e.CancelJob? || e.RetryJob? || e.PlayJob? || e.RequeueJob?
    ensures Coherent(Apply(p, e))
  {
    var s := p.jobs[e.i];
    if e.CancelJob? {
      DeriveMakesCoherent(SetJob(p, e.i, CanceledJob(s, e.now)), e.now);
    } else if e.RetryJob? {
      var t := if JobRetryable(s.status) then Reset(p.plan[e.i], s, e.minted, e.now) else s;
      DeriveMakesCoherent(SetJob(p, e.i, t), e.now);
    } else if e.PlayJob? {
      DeriveMakesCoherent(SetJob(p, e.i, Played(s, e.variables, e.now)), e.now);
    } else {
      DeriveMakesCoherent(SetJob(p, e.i, Requeued(p.plan[e.i], s, e.minted, e.now)), e.now);
    }
  }

  /** Every step keeps the row coherent, a pipeline cancel on its condition. */
  lemma CoherenceKept(p: Pipeline, e: Event)
    requires Coherent(p) && p.jobs != [] && Accepts(p, e) && LeavesCanceled(p, e)
    ensures Coherent(Apply(p, e))
  {
    match e
    case Assign(_, _, _) => AssignCoherent(p, e);
    case Promote(_, _) => PromoteCoherent(p, e);
    case Report(_, _, _, _, _, _, _) => ReportCoherent(p, e);
    case CancelJob(_, _) => JobActionCoherent(p, e);
    case RetryJob(_, _, _) => JobActionCoherent(p, e);
    case PlayJob(_, _, _) => JobActionCoherent(p, e);
    case RequeueJob(_, _, _) => JobActionCoherent(p, e);
    case Interrupt(now) =>
      var jobs := seq(|p.jobs|, i requires 0 <= i < |p.jobs| => InterruptedJob(p.plan[i], p.jobs[i], now));
      DeriveMakesCoherent(p.(jobs := jobs), now);
    case CancelPipeline(now) => CancelPipelineCoherentIff(p, now);
    case CancelFromPage(now) => CancelFromPageCoherent(p, now);
    case RetryPipeline(mintedTokens, now) =>
      var jobs := seq(|p.jobs|, i requires 0 <= i < |p.jobs| =>
                    if PipelineRetryable(p.jobs[i].status) then Reset(p.plan[i], p.jobs[i], mintedTokens[i], now)
                    else p.jobs[i]);
      DeriveMakesCoherent(p.(jobs := jobs), now);
    case _ => PassiveCoherent(p, e);
  }

  /** Each pipeline cancel of the run finds a job to cancel, or a canceled one. */
  predicate CancelsLeaveCanceled(p: Pipeline, es: seq<Event>)
    requires Matched(p.plan, p.jobs) && AcceptsAll(p, es)
    decreases |es|
  {
    es == [] || (LeavesCanceled(p, es[0]) && CancelsLeaveCanceled(Apply(p, es[0]), es[1..]))
  }

  /** Over every run of every kind of step, the stored status is the derived one and the finish time is set exactly on
      a final status. */
  lemma {:induction false} StatusCoherence(p: Pipeline, es: seq<Event>)
    requires Coherent(p) && p.jobs != [] && AcceptsAll(p, es) && CancelsLeaveCanceled(p, es)
    ensures Coherent(Run(p, es))
    decreases |es|
  {
    if es != [] {
      CoherenceKept(p, es[0]);
      StatusCoherence(Apply(p, es[0]), es[1..]);
    }
  }

  // A verdict lost.

  /** A lone job that can be taken. */
  predicate LoneJob(p: Pipeline) {
    && |p.plan| == |p.jobs| == 1 && Coherent(p)
    && p.plan[0].needs.None? && p.plan[0].when == OnSuccess && p.jobs[0].status == Pending
  }

  lemma LoneJobTaken(p: Pipeline, e: Event)
    requires LoneJob(p) && e == Assign(0, "r", 1)
    ensures Accepts(p, e) && Coherent(Apply(p, e)) && Apply(p, e).jobs[0].status == Running
  {
    CoherenceKept(p, e);
  }

  lemma LoneJobSucceeds(q: Pipeline, f: Event)
    requires |q.plan| == 1 && Coherent(q) && q.jobs[0].status == Running
    requires f == Report(0, Some(Success), None, None, 0, 0, 2)
    ensures Accepts(q, f) && Coherent(Apply(q, f)) && Apply(q, f).jobs[0].status == Success
  {
    FinalReportRecords(q, f);
    CoherenceKept(q, f);
  }

  lemma SuccessIsLost(r: Pipeline)
    requires |r.plan| == 1 && Coherent(r) && r.jobs[0].status == Success
    ensures r.status == Success && !Coherent(CancelPipelineStep(r, 3))
  {
    DerivedStatusMeaning(r);
    CancelPipelineCoherentIff(r, 3);
  }

  /** A new pipeline of one job runs it to success, and a cancel makes it `canceled`. */
  lemma CancelLosesSuccess()
    ensures var p := NewPipeline([PlainJob(1, "build", None, OnSuccess)]);
            var es := [Assign(0, "r", 1)] + [Report(0, Some(Success), None, None, 0, 0, 2)];
            && AcceptsAll(p, es) && Coherent(Run(p, es)) && Run(p, es).status == Success
            && !Coherent(CancelPipelineStep(Run(p, es), 3))
  {
    var p := NewPipeline([PlainJob(1, "build", None, OnSuccess)]);
    var e, f := Assign(0, "r", 1), Report(0, Some(Success), None, None, 0, 0, 2);
    assert p.jobs[0].status == Pending;
    CreatedCoherentIff(p);
    LoneJobTaken(p, e);
    LoneJobSucceeds(Apply(p, e), f);
    SuccessIsLost(Apply(Apply(p, e), f));
    RunOfTwoEvents(p, e, f);
  }

  // The start time.

  /** A start time is there while the pipeline runs, and once there it stays. */
  predicate StartStamped(before: Pipeline, after: Pipeline) {
    && (after.status == Running ==> after.startedAt.Some?)
    && (before.startedAt.Some? ==> after.startedAt == before.startedAt)
  }

  /** A derivation stamps the first start only. */
  lemma DeriveStampsStart(p: Pipeline, now: int)
    requires Matched(p.plan, p.jobs)
    ensures StartStamped(p, Derive(p, now)) && StartStamped(p, ClearIfActive(Derive(p, now)))
  {
  }

  lemma ReportStampsStart(p: Pipeline, e: Event)
    requires Matched(p.plan, p.jobs) && Accepts(p, e) && e.Report?
    ensures StartStamped(p, Apply(p, e))
  {
    var reported := ReportedJobs(p, e.i, e.state, e.reason, e.exitCode, e.size, e.now);
    var settled := SettledJobs(p.plan, reported, e.i, e.reason, e.exitCode, e.minted, e.now);
    DeriveStampsStart(p.(jobs := Stamped(settled, e.i, e.now)), e.now);
  }

  lemma JobActionStampsStart(p: Pipeline, e: Event)
    requires Matched(p.plan, p.jobs) && Accepts(p, e)
    requires e.CancelJob? || e.RetryJob? || e.PlayJob? || e.RequeueJob?
    ensures StartStamped(p, Apply(p, e))
  {
  }

  lemma StartTimeKept(p: Pipeline, e: Event)
    requires Matched(p.plan, p.jobs) && Accepts(p, e) && (p.status == Running ==> p.startedAt.Some?)
    ensures StartStamped(p, Apply(p, e))
  {
    if e.Report? {
      ReportStampsStart(p, e);
    } else if e.CancelJob? || e.RetryJob? || e.PlayJob? || e.RequeueJob? {
      JobActionStampsStart(p, e);
    }
  }

  lemma {:induction false} StartTimeStays(p: Pipeline, es: seq<Event>)
    requires Matched(p.plan, p.jobs) && AcceptsAll(p, es) && (p.status == Running ==> p.startedAt.Some?)
    ensures StartStamped(p, Run(p, es))
    decreases |es|
  {
    if es != [] {
      StartTimeKept(p, es[0]);
      StartTimeStays(Apply(p, es[0]), es[1..]);
    }
  }

  // The finish time.

  /** The time of the request, of those that can end a pipeline. */
  function Time(e: Event): int {
    match e
    case Assign(_, _, now) => now
    case Promote(_, now) => now
    case Report(_, _, _, _, _, _, now) => now
    case CancelJob(_, now) => now
    case RetryJob(_, _, now) => now
    case PlayJob(_, _, now) => now
    case RequeueJob(_, _, now) => now
    case Interrupt(now) => now
    case CancelPipeline(now) => now
    case CancelFromPage(now) => now
    case RetryPipeline(_, now) => now
    case _ => 0
  }

  /** An ended pipeline has the finish time it had, or else the time of the request that ended it. */
  predicate FinishStamped(before: Pipeline, e: Event, after: Pipeline) {
    Final(after.status) ==>
      after.finishedAt == if before.finishedAt.Some? then before.finishedAt else Some(Time(e))
  }

  lemma DeriveStampsFinish(p: Pipeline, now: int)
    requires Matched(p.plan, p.jobs)
    ensures var q := Derive(p, now);
            && (Final(q.status) ==> q.finishedAt == if p.finishedAt.Some? then p.finishedAt else Some(now))
            && (Final(q.status) ==> ClearIfActive(q) == q)
  {
  }

  lemma FinishTimeKept(p: Pipeline, e: Event)
    requires Matched(p.plan, p.jobs) && Accepts(p, e) && (Final(p.status) ==> p.finishedAt.Some?)
    ensures FinishStamped(p, e, Apply(p, e)) && (Final(Apply(p, e).status) ==> Apply(p, e).finishedAt.Some?)
  {
    if e.Report? {
      var reported := ReportedJobs(p, e.i, e.state, e.reason, e.exitCode, e.size, e.now);
      var settled := SettledJobs(p.plan, reported, e.i, e.reason, e.exitCode, e.minted, e.now);
      DeriveStampsFinish(p.(jobs := Stamped(settled, e.i, e.now)), e.now);
    }
  }

  predicate StaysFinal(p: Pipeline, es: seq<Event>)
    requires Matched(p.plan, p.jobs) && AcceptsAll(p, es)
    decreases |es|
  {
    Final(p.status) && (es == [] || StaysFinal(Apply(p, es[0]), es[1..]))
  }

  /** Over every run through which the pipeline stays ended its finish time stays. */
  lemma {:induction false} FinishTimeStays(p: Pipeline, es: seq<Event>)
    requires Matched(p.plan, p.jobs) && AcceptsAll(p, es) && p.finishedAt.Some? && StaysFinal(p, es)
    ensures Run(p, es).finishedAt == p.finishedAt
    decreases |es|
  {
    if es != [] {
      FinishTimeKept(p, es[0]);
      FinishTimeStays(Apply(p, es[0]), es[1..]);
    }
  }
}
