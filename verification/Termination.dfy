/** Every run of polls and final reports is finite, and no job is retried automatically more often than it may. */
module Termination {
  import opened CiModel
  import opened Steps
  import opened Wrappers
  import opened Safety

  function Phase(s: Status): nat {
    match s
    case Scheduled => 3
    case Pending => 2
    case Running => 1
    case _ => 0
  }

  /** What a job can still do: its remaining automatic retries, each worth a whole attempt, and its phase. */
  function Weight(c: Config, s: JobState): nat {
    3 * (if s.attempt < c.retry.max then c.retry.max - s.attempt else 0) + Phase(s.status)
  }

  function Measure(plan: seq<Config>, jobs: seq<JobState>): nat
    requires Matched(plan, jobs)
  {
    if jobs == [] then 0
    else Measure(plan[..|plan| - 1], jobs[..|jobs| - 1]) + Weight(plan[|plan| - 1], jobs[|jobs| - 1])
  }

  lemma {:induction false} MeasureMonotone(plan: seq<Config>, before: seq<JobState>, after: seq<JobState>)
    requires Matched(plan, before) && Matched(plan, after)
    requires forall k | 0 <= k < |plan| :: Weight(plan[k], after[k]) <= Weight(plan[k], before[k])
    ensures Measure(plan, after) <= Measure(plan, before)
    ensures (exists k | 0 <= k < |plan| :: Weight(plan[k], after[k]) < Weight(plan[k], before[k])) ==>
              Measure(plan, after) < Measure(plan, before)
  {
    if plan != [] {
      var n := |plan| - 1;
      MeasureMonotone(plan[..n], before[..n], after[..n]);
      if k: nat :| k < n && Weight(plan[k], after[k]) < Weight(plan[k], before[k]) {
        assert Weight(plan[..n][k], after[..n][k]) < Weight(plan[..n][k], before[..n][k]);
      }
    }
  }

  /** The quiet steps that move a job. */
  predicate Working(e: Event) {
    e.Assign? || e.Promote? || (e.Report? && (e.state == Some(Success) || e.state == Some(Failed)))
  }

  lemma ReportWeighs(p: Pipeline, e: Event)
    requires Matched(p.plan, p.jobs) && Accepts(p, e) && FinalReport(p, e)
    ensures Measure(p.plan, Apply(p, e).jobs) < Measure(p.plan, p.jobs)
  {
    var q := Apply(p, e);
    FinalReportRecords(p, e);
    assert Weight(p.plan[e.i], q.jobs[e.i]) < Weight(p.plan[e.i], p.jobs[e.i]);
    MeasureMonotone(p.plan, p.jobs, q.jobs);
  }

  lemma MoveWeighs(p: Pipeline, e: Event)
    requires Matched(p.plan, p.jobs) && Accepts(p, e) && (e.Assign? || e.Promote?)
    ensures Measure(p.plan, Apply(p, e).jobs) < Measure(p.plan, p.jobs)
  {
    var q := Apply(p, e);
    assert Weight(p.plan[e.i], q.jobs[e.i]) < Weight(p.plan[e.i], p.jobs[e.i]);
    MeasureMonotone(p.plan, p.jobs, q.jobs);
  }

  lemma QuietStepWeighs(p: Pipeline, e: Event)
    requires Matched(p.plan, p.jobs) && Accepts(p, e) && Quiet(p, e)
    ensures Measure(p.plan, Apply(p, e).jobs) + (if Working(e) then 1 else 0) <= Measure(p.plan, p.jobs)
  {
    if FinalReport(p, e) {
      ReportWeighs(p, e);
    } else if Working(e) {
      MoveWeighs(p, e);
    } else {
      if e.Report? {
        ProgressReportRecords(p, e);
      }
      MeasureMonotone(p.plan, p.jobs, Apply(p, e).jobs);
    }
  }

  function WorkingSteps(es: seq<Event>): nat {
    if es == [] then 0 else (if Working(es[0]) then 1 else 0) + WorkingSteps(es[1..])
  }

  /** However runners poll and report, no more working steps fit in than the measure of the start. */
  lemma {:induction false} RunsAreFinite(p: Pipeline, es: seq<Event>)
    requires Matched(p.plan, p.jobs) && QuietRun(p, es)
    ensures WorkingSteps(es) + Measure(p.plan, Reached(p, es).jobs) <= Measure(p.plan, p.jobs)
    decreases |es|
  {
    if es != [] {
      QuietStepWeighs(p, es[0]);
      RunsAreFinite(Apply(p, es[0]), es[1..]);
    }
  }

  /** A reason is listed when the failure is for it; a failure without a reason is the script's own. */
  predicate Lists(configured: seq<string>, reason: Option<string>) {
    || configured == []
    || exists k | 0 <= k < |configured| ::
         || configured[k] == "always"
         || (if reason.None? || reason == Some("") then configured[k] == "script_failure"
             else reason == Some(configured[k]))
  }

  /** The report leaves its job failed, the job has attempts left, and the failure is of a kind it lists. */
  predicate AutoRetries(p: Pipeline, e: Event, k: nat)
    requires Matched(p.plan, p.jobs) && k < |p.plan|
  {
    var retry := p.plan[k].retry;
    && e.Report? && e.i == k
    && (e.state == Some(Failed) || (e.state.None? && p.jobs[k].status == Failed))
    && p.jobs[k].attempt < retry.max
    && Lists(retry.reasons, e.reason)
    && (retry.exitCodes == [] || exists m | 0 <= m < |retry.exitCodes| :: e.exitCode == Some(retry.exitCodes[m]))
  }

  lemma ListsIff(configured: seq<string>, reason: Option<string>)
    ensures RetryReasonMatches(configured, reason) <==> Lists(configured, reason)
  {
    var cause := if reason.None? || reason.value == "" then "script_failure" else reason.value;
    if RetryReasonMatches(configured, reason) && configured != [] {
      var word := if "always" in configured then "always" else cause;
      var k :| 0 <= k < |configured| && configured[k] == word;
    }
  }

  lemma AutoRetriesIff(p: Pipeline, e: Event)
    requires Matched(p.plan, p.jobs) && Accepts(p, e) && e.Report?
    ensures AutoRetries(p, e, e.i) <==>
            && e.state.GetOr(p.jobs[e.i].status) == Failed
            && ShouldAutoRetry(p.plan[e.i], p.jobs[e.i], e.reason, e.exitCode)
  {
    var codes := p.plan[e.i].retry.exitCodes;
    ListsIff(p.plan[e.i].retry.reasons, e.reason);
    if e.exitCode.Some? && e.exitCode.value in codes {
      var m :| 0 <= m < |codes| && codes[m] == e.exitCode.value;
      assert e.exitCode == Some(codes[m]);
    }
  }

  lemma FailedStored(p: Pipeline, e: Event)
    requires Matched(p.plan, p.jobs) && Accepts(p, e) && e.Report? && e.state == Some(Failed)
    ensures var s := p.jobs[e.i].(status := Failed, reason := e.reason, exitCode := e.exitCode,
                                  traceSize := if e.size > 0 then e.size else p.jobs[e.i].traceSize);
            Apply(p, e).jobs[e.i] ==
              if ShouldAutoRetry(p.plan[e.i], s, e.reason, e.exitCode) then AutoRetried(p.plan[e.i], s, e.minted, e.now)
              else s.(finishedAt := Some(e.now))
  {
    UntriggeredPassShape(p.plan, p.jobs[e.i := p.jobs[e.i].(status := Failed)], 0, e.now);
    var r := ReportedJobs(p, e.i, e.state, e.reason, e.exitCode, e.size, e.now);
    assert r[e.i].status == Failed;
    assert SkipOvertaken(p.plan, r, e.now)[e.i] == r[e.i];
  }

  /** A failure of a kind the job lists, with attempts left, queues it again with the new token; any other one that is
      reported stays, and takes no attempt. */
  lemma FailureRetriedIff(p: Pipeline, e: Event)
    requires Matched(p.plan, p.jobs) && Accepts(p, e) && e.Report? && e.state == Some(Failed)
    ensures var before, after := p.jobs[e.i], Apply(p, e).jobs[e.i];
            if AutoRetries(p, e, e.i) then
              && after.status == (if p.plan[e.i].when == Delayed then Scheduled else Pending)
              && after.token == e.minted && after.attempt == before.attempt + 1
              && after.trace == [] && after.exitCode.None? && after.runner.None? && after.finishedAt.None?
            else
              && after.status == Failed
              && after.token == before.token && after.attempt == before.attempt
              && after.trace == before.trace && after.exitCode == e.exitCode && after.finishedAt == Some(e.now)
  {
    AutoRetriesIff(p, e);
    FailedStored(p, e);
  }

  function AutoRetryCount(p: Pipeline, es: seq<Event>, k: nat): nat
    requires Matched(p.plan, p.jobs) && AcceptsAll(p, es) && k < |p.plan|
    decreases |es|
  {
    if es == [] then 0
    else (if AutoRetries(p, es[0], k) then 1 else 0) + AutoRetryCount(Apply(p, es[0]), es[1..], k)
  }

  lemma SettledCountsRetry(plan: seq<Config>, jobs: seq<JobState>, e: Event, k: nat)
    requires Matched(plan, jobs) && e.Report? && e.i < |jobs| && k < |jobs|
    ensures var retried := jobs[e.i].status == Failed && ShouldAutoRetry(plan[e.i], jobs[e.i], e.reason, e.exitCode);
            Stamped(SettledJobs(plan, jobs, e.i, e.reason, e.exitCode, e.minted, e.now), e.i, e.now)[k].attempt ==
              jobs[k].attempt + (if k == e.i && retried then 1 else 0)
  {
  }

  lemma ReportCountsRetry(p: Pipeline, e: Event, k: nat)
    requires Matched(p.plan, p.jobs) && Accepts(p, e) && e.Report? && k < |p.plan|
    ensures Apply(p, e).jobs[k].attempt == p.jobs[k].attempt + (if AutoRetries(p, e, k) then 1 else 0)
  {
    var reported := ReportedJobs(p, e.i, e.state, e.reason, e.exitCode, e.size, e.now);
    UntriggeredPassShape(p.plan, p.jobs[e.i := p.jobs[e.i].(status := e.state.GetOr(p.jobs[e.i].status))], 0, e.now);
    assert reported[k].attempt == p.jobs[k].attempt;
    AutoRetriesIff(p, e);
    SettledCountsRetry(p.plan, reported, e, k);
  }

  /** The attempts of a job grow by its automatic retries and by nothing else: no reset or cancel touches them. */
  lemma StepCountsRetry(p: Pipeline, e: Event, k: nat)
    requires Matched(p.plan, p.jobs) && Accepts(p, e) && k < |p.plan|
    ensures Apply(p, e).jobs[k].attempt == p.jobs[k].attempt + (if AutoRetries(p, e, k) then 1 else 0)
  {
    if e.Report? {
      ReportCountsRetry(p, e, k);
    }
  }

  lemma {:induction false} AttemptsCountRetries(p: Pipeline, es: seq<Event>, k: nat)
    requires Matched(p.plan, p.jobs) && AcceptsAll(p, es) && k < |p.plan|
    requires p.jobs[k].attempt <= p.plan[k].retry.max || p.jobs[k].attempt == 0
    ensures var q := Run(p, es);
            && q.jobs[k].attempt == p.jobs[k].attempt + AutoRetryCount(p, es, k)
            && (q.jobs[k].attempt <= p.plan[k].retry.max || q.jobs[k].attempt == 0)
    decreases |es|
  {
    if es != [] {
      StepCountsRetry(p, es[0], k);
      AttemptsCountRetries(Apply(p, es[0]), es[1..], k);
    }
  }

  /** In every run of a new pipeline, of every kind of step and with any reports, each job is retried automatically at
      most `retry.max` times. */
  lemma AutoRetriesBounded(p: Pipeline, es: seq<Event>, k: nat)
    requires Created(p) && AcceptsAll(p, es) && k < |p.plan|
    ensures AutoRetryCount(p, es, k) <= if p.plan[k].retry.max > 0 then p.plan[k].retry.max else 0
  {
    AttemptsCountRetries(p, es, k);
  }

  /** No word of the list is `always` or the reason of the failure. */
  predicate Unlisted(configured: seq<string>, reason: Option<string>) {
    && configured != []
    && forall word | word in configured ::
         && word != "always" && reason != Some(word)
         && (word == "script_failure" ==> reason.Some? && reason.value != "")
  }

  lemma UnlistedIsNotListed(configured: seq<string>, reason: Option<string>)
    requires Unlisted(configured, reason)
    ensures !Lists(configured, reason)
  {
    assert forall k | 0 <= k < |configured| :: configured[k] in configured;
  }

  /** Over every run a job that lists neither `always` nor the reason of any report about it is never retried
      automatically. */
  lemma {:induction false} UnlistedNeverRetried(p: Pipeline, es: seq<Event>, k: nat)
    requires Matched(p.plan, p.jobs) && AcceptsAll(p, es) && k < |p.plan|
    requires forall m | 0 <= m < |es| && es[m].Report? && es[m].i == k ::
               Unlisted(p.plan[k].retry.reasons, es[m].reason)
    ensures AutoRetryCount(p, es, k) == 0 && Run(p, es).jobs[k].attempt == p.jobs[k].attempt
    decreases |es|
  {
    if es != [] {
      if es[0].Report? && es[0].i == k {
        UnlistedIsNotListed(p.plan[k].retry.reasons, es[0].reason);
      }
      StepCountsRetry(p, es[0], k);
      assert forall m | 0 <= m < |es| - 1 :: es[1..][m] == es[m + 1];
      UnlistedNeverRetried(Apply(p, es[0]), es[1..], k);
    }
  }
}
