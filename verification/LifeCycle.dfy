/** What each request makes of a job, and what must have happened in a run for a job to be where it is. */
module LifeCycle {
  import opened CiModel
  import opened Meaning
  import opened Payload
  import opened Safety
  import opened Steps
  import opened Wrappers

  // One step.

  /** Waiting, running, or waiting for a click. */
  predicate Open(s: Status) {
    s == Pending || s == Running || s == Manual || s == Scheduled
  }

  predicate Ended(s: Status) {
    s == Success || s == Failed || s == Canceled || s == Skipped
  }

  /** The job waits for another attempt under the token, and has nothing left of the last one. */
  predicate Anew(before: JobState, after: JobState, status: Status, token: nat, now: int) {
    && after.status == status && after.token == token
    && after.runner.None? && after.reason.None? && after.exitCode.None? && after.trace == [] && after.traceSize == 0
    && after.startedAt.None? && after.finishedAt.None?
    && after.queuedAt == Some(now) && after.scheduledAt == (if status == Scheduled then Some(now) else None)
    && after.attempt == before.attempt && SameRest(before, after)
  }

  function Restart(c: Config): Status {
    if c.when == Delayed then Scheduled else Pending
  }

  /** Canceled, with its finish time, and otherwise as it was. */
  predicate CanceledFrom(before: JobState, after: JobState, now: int) {
    && after.status == Canceled
    && after.finishedAt == (if before.finishedAt.Some? then before.finishedAt else Some(now))
    && after.token == before.token && after.trace == before.trace && after.attempt == before.attempt
    && after.exitCode == before.exitCode && SameRest(before, after)
  }

  /** What a request other than a report or a chunk makes of job k. */
  predicate Outcome(c: Config, before: JobState, after: JobState, e: Event, k: nat)
    requires e.RetryPipeline? ==> k < |e.mintedTokens|
  {
    match e
    case CancelJob(i, now) =>
      if i == k && Open(before.status) then CanceledFrom(before, after, now) else after == before
    case CancelPipeline(now) => if Open(before.status) then CanceledFrom(before, after, now) else after == before
    case CancelFromPage(now) => if Open(before.status) then CanceledFrom(before, after, now) else after == before
    case Interrupt(now) =>
      if c.interruptible && Open(before.status) then
        after == before.(status := Canceled, reason := Some("canceled"), finishedAt := Some(now))
      else after == before
    case RetryJob(i, minted, now) =>
      if i == k && Ended(before.status) then Anew(before, after, Restart(c), minted, now) else after == before
    case RetryPipeline(minted, now) =>
      if Ended(before.status) && before.status != Success then Anew(before, after, Restart(c), minted[k], now)
      else after == before
    case RequeueJob(i, minted, now) => if i == k then Anew(before, after, Pending, minted, now) else after == before
    case PlayJob(i, given, now) =>
      if i == k then
        after == before.(status := Pending, queuedAt := Some(now), reason := None, exitCode := None,
                         variables := before.variables + given)
      else after == before
    case Promote(i, now) =>
      after == if i == k then before.(status := Pending, queuedAt := Some(now), scheduledAt := None) else before
    case Assign(i, runner, now) =>
      after == if i == k then before.(status := Running, runner := Some(runner), startedAt := Some(now)) else before
    case Upload(i, expiresAt) =>
      after == if i == k then before.(artifacts := before.artifacts + [Artifact(expiresAt)]) else before
    case Erase(i, now) =>
      after == if i == k then before.(trace := [], traceSize := 0, artifacts := [], erasedAt := Some(now)) else before
    case KeepArtifacts(i) =>
      && after == before.(artifacts := after.artifacts) && |after.artifacts| == |before.artifacts|
      && forall m | 0 <= m < |after.artifacts| ::
           after.artifacts[m] == if i == k then Artifact(None) else before.artifacts[m]
    case Lend(_, _, _) => after == before
    case Report(_, _, _, _, _, _, _) => true
    case AppendTrace(_, _, _) => true
  }

  lemma ResetIsAnew(c: Config, s: JobState, minted: nat, now: int)
    ensures Anew(s, Reset(c, s, minted, now), Restart(c), minted, now)
    ensures Anew(s, Requeued(c, s, minted, now), Pending, minted, now)
  {
  }

  lemma RestartOutcome(p: Pipeline, e: Event, k: nat)
    requires Matched(p.plan, p.jobs) && Accepts(p, e) && k < |p.plan|
    requires e.RetryJob? || e.RetryPipeline? || e.RequeueJob?
    ensures Outcome(p.plan[k], p.jobs[k], Apply(p, e).jobs[k], e, k)
  {
    var c, s := p.plan[k], p.jobs[k];
    ResetIsAnew(c, s, if e.RetryPipeline? then e.mintedTokens[k] else e.minted, e.now);
    if e.RetryPipeline? {
      assert Apply(p, e).jobs[k] == if PipelineRetryable(s.status) then Reset(c, s, e.mintedTokens[k], e.now) else s;
    } else if e.RequeueJob? {
      assert Apply(p, e).jobs[k] == if e.i == k then Requeued(c, s, e.minted, e.now) else s;
    } else {
      assert Apply(p, e).jobs[k] ==
             if e.i == k && JobRetryable(s.status) then Reset(c, s, e.minted, e.now) else s;
    }
  }

  /** The operator's requests do to each job exactly what they are for: a cancel reaches the open jobs, an interruption
      those of them that are interruptible, a retry of the pipeline the ended ones but for successes, and every other
      record stays. */
  lemma OperatorOutcome(p: Pipeline, e: Event, k: nat)
    requires Matched(p.plan, p.jobs) && Accepts(p, e) && k < |p.plan|
    ensures Outcome(p.plan[k], p.jobs[k], Apply(p, e).jobs[k], e, k)
  {
    if e.RetryJob? || e.RetryPipeline? || e.RequeueJob? {
      RestartOutcome(p, e, k);
    }
  }

  /** A newer pipeline leaves one without open interruptible jobs as it is, its status and times included. */
  lemma InterruptIdle(p: Pipeline, e: Event)
    requires Matched(p.plan, p.jobs) && e.Interrupt?
    requires forall k | 0 <= k < |p.plan| :: p.plan[k].interruptible ==> !Open(p.jobs[k].status)
    ensures Apply(p, e) == p
  {
  }

  /** A promotion reopens an ended pipeline, and leaves an open one as it is. */
  lemma PromotedPipeline(p: Pipeline, e: Event)
    requires Matched(p.plan, p.jobs) && Accepts(p, e) && e.Promote?
    ensures var q := Apply(p, e);
            && q.startedAt == p.startedAt
            && (if p.status == Running || p.status == Pending then q.status == p.status && q.finishedAt == p.finishedAt
                else q.status == Pending && q.finishedAt.None?)
  {
  }

  /** Which requests are accepted in which status; the others always are. */
  lemma AcceptedIff(p: Pipeline, e: Event)
    requires Matched(p.plan, p.jobs) && (e.Upload? || e.CancelJob? || e.RetryJob? ==> e.i < |p.plan|)
    ensures Accepts(p, e) <==>
            match e
            case Assign(i, _, _) => i < |p.plan| && p.jobs[i].status == Pending && Unhindered(p.plan, p.jobs, i)
            case Promote(i, now) =>
              && i < |p.plan| && p.jobs[i].status == Scheduled
              && (p.jobs[i].scheduledAt.None? || p.jobs[i].scheduledAt.value <= now)
            case Report(i, state, _, _, _, _, _) => i < |p.plan| && state != Some(Manual) && state != Some(Scheduled)
            case AppendTrace(i, start, _) => i < |p.plan| && start <= |p.jobs[i].trace|
            case PlayJob(i, _, _) => i < |p.plan| && p.jobs[i].status == Manual
            case RequeueJob(i, _, _) =>
              i < |p.plan| && Open(p.jobs[i].status) && p.jobs[i].status != Manual
            case Erase(i, _) => i < |p.plan| && Ended(p.jobs[i].status)
            case KeepArtifacts(i) => i < |p.plan| && |p.jobs[i].artifacts| > 0
            case Lend(i, _, now) =>
              i < |p.plan| && p.jobs[i].status == Success && StillThere(p.jobs[i].artifacts, now)
            case RetryPipeline(minted, _) => |minted| == |p.plan|
            case _ => true
  {
    if e.Assign? && e.i < |p.plan| {
      UnhinderedIff(p.plan, p.jobs, e.i);
    }
  }

  /** A report other than of a failure that is retried is stored with its details, and an end with its time. */
  lemma ReportStored(p: Pipeline, e: Event)
    requires Matched(p.plan, p.jobs) && Accepts(p, e) && e.Report? && e.state.Some? && e.state.value != Failed
    requires p.plan[e.i].when != OnFailure || e.state.value != Pending
    ensures Apply(p, e).jobs[e.i] ==
            p.jobs[e.i].(status := e.state.value, reason := e.reason, exitCode := e.exitCode,
                         traceSize := if e.size > 0 then e.size else p.jobs[e.i].traceSize,
                         finishedAt := if e.state.value == Success then Some(e.now) else p.jobs[e.i].finishedAt)
  {
    UntriggeredPassShape(p.plan, p.jobs[e.i := p.jobs[e.i].(status := e.state.value)], 0, e.now);
  }

  /** A failure is stored and not retried. */
  predicate FailsForGood(p: Pipeline, e: Event)
    requires Matched(p.plan, p.jobs) && e.Report? && e.i < |p.plan|
  {
    e.state.GetOr(p.jobs[e.i].status) == Failed && !ShouldAutoRetry(p.plan[e.i], p.jobs[e.i], e.reason, e.exitCode)
  }

  lemma SettledElsewhere(plan: seq<Config>, jobs: seq<JobState>, e: Event, k: nat)
    requires Matched(plan, jobs) && e.Report? && e.i < |jobs| && k < |jobs| && k != e.i
    ensures var retried := ShouldAutoRetry(plan[e.i], jobs[e.i], e.reason, e.exitCode);
            Stamped(SettledJobs(plan, jobs, e.i, e.reason, e.exitCode, e.minted, e.now), e.i, e.now)[k] ==
              if jobs[e.i].status == Failed && !retried && Overtaken(plan, jobs, k) then MarkSkipped(jobs[k], e.now)
              else jobs[k]
  {
  }

  /** A report skips exactly those other jobs that the first pass finds untriggered and, after a failure that is not
      retried, those that the second pass finds overtaken; all other records stay. */
  lemma ReportSkips(p: Pipeline, e: Event, k: nat)
    requires Matched(p.plan, p.jobs) && Accepts(p, e) && e.Report? && k < |p.plan| && k != e.i
    ensures var stored := p.jobs[e.i := p.jobs[e.i].(status := e.state.GetOr(p.jobs[e.i].status))];
            var swept := ReportedJobs(p, e.i, e.state, e.reason, e.exitCode, e.size, e.now);
            Apply(p, e).jobs[k] ==
              if SweepSkips(p.plan, stored, k, e.now) || (FailsForGood(p, e) && Overtaken(p.plan, swept, k)) then
                p.jobs[k].(status := Skipped,
                           finishedAt := if p.jobs[k].finishedAt.Some? then p.jobs[k].finishedAt else Some(e.now))
              else p.jobs[k]
  {
    var stored := p.jobs[e.i := p.jobs[e.i].(status := e.state.GetOr(p.jobs[e.i].status))];
    UntriggeredPassShape(p.plan, stored, 0, e.now);
    SweepSkipsDecides(p.plan, stored, k, e.now);
    SweepSkipsDecides(p.plan, stored, e.i, e.now);
    var swept := ReportedJobs(p, e.i, e.state, e.reason, e.exitCode, e.size, e.now);
    assert swept[e.i].status == Failed <==> e.state.GetOr(p.jobs[e.i].status) == Failed;
    SettledElsewhere(p.plan, swept, e, k);
  }

  // Causes.

  predicate Reports(e: Event, k: nat, s: Status) {
    e.Report? && e.i == k && e.state == Some(s)
  }

  /** A retry of the job or of the pipeline, or the report of a failure, which may be retried. */
  predicate Restarts(e: Event, k: nat) {
    || (e.RetryJob? && e.i == k)
    || e.RetryPipeline?
    || Reports(e, k, Failed)
    || (e.Report? && e.i == k && e.state.None?)
  }

  /** The request can bring job k into this status. */
  predicate Brings(c: Config, e: Event, k: nat, s: Status) {
    || Reports(e, k, s)
    || match s
       case Success => false
       case Failed => false
       case Manual => false
       case Running => e.Assign? && e.i == k
       case Canceled => (e.CancelJob? && e.i == k) || e.CancelPipeline? || e.CancelFromPage? ||
                        (e.Interrupt? && c.interruptible)
       case Skipped => e.Report? && c.when != Always
       case Scheduled => c.when == Delayed && Restarts(e, k)
       case Pending => (c.when != Delayed && Restarts(e, k)) ||
                       ((e.Promote? || e.PlayJob? || e.RequeueJob?) && e.i == k)
  }

  lemma SettledBrings(p: Pipeline, r: seq<JobState>, e: Event, k: nat)
    requires Matched(p.plan, r) && e.Report? && e.i < |r| && k < |r|
    ensures var settled := SettledJobs(p.plan, r, e.i, e.reason, e.exitCode, e.minted, e.now);
            || settled[k].status == r[k].status
            || (settled[k].status == Skipped && p.plan[k].when != Always)
            || (k == e.i && r[k].status == Failed && settled[k].status == Restart(p.plan[k]))
  {
  }

  lemma ReportBrings(p: Pipeline, e: Event, k: nat)
    requires Matched(p.plan, p.jobs) && Accepts(p, e) && e.Report? && k < |p.plan|
    requires Apply(p, e).jobs[k].status != p.jobs[k].status
    ensures Brings(p.plan[k], e, k, Apply(p, e).jobs[k].status)
  {
    var stored := p.jobs[e.i := p.jobs[e.i].(status := e.state.GetOr(p.jobs[e.i].status))];
    UntriggeredPassShape(p.plan, stored, 0, e.now);
    var r := ReportedJobs(p, e.i, e.state, e.reason, e.exitCode, e.size, e.now);
    assert r[k].status == stored[k].status || (r[k].status == Skipped && p.plan[k].when == OnFailure);
    SettledBrings(p, r, e, k);
    var settled := SettledJobs(p.plan, r, e.i, e.reason, e.exitCode, e.minted, e.now);
    assert Apply(p, e).jobs[k].status == settled[k].status;
  }

  lemma StepBrings(p: Pipeline, e: Event, k: nat)
    requires Matched(p.plan, p.jobs) && Accepts(p, e) && k < |p.plan|
    requires Apply(p, e).jobs[k].status != p.jobs[k].status
    ensures Brings(p.plan[k], e, k, Apply(p, e).jobs[k].status)
  {
    if e.Report? {
      ReportBrings(p, e, k);
    }
  }

  /** Over every run a job that is in another status than at the start was brought there by a request that can: it ran
      because a runner took it, succeeded or failed because one said so, was canceled by a cancel or, if interruptible,
      by an interruption, and an `always` job was skipped only by a report of that. */
  lemma {:induction false} StatusHasCause(p: Pipeline, es: seq<Event>, k: nat)
    requires Matched(p.plan, p.jobs) && AcceptsAll(p, es) && k < |p.plan|
    requires Run(p, es).jobs[k].status != p.jobs[k].status
    ensures exists m | 0 <= m < |es| :: Brings(p.plan[k], es[m], k, Run(p, es).jobs[k].status)
    decreases |es|
  {
    var q := Apply(p, es[0]);
    if Run(q, es[1..]).jobs[k].status != q.jobs[k].status {
      StatusHasCause(q, es[1..], k);
      var m :| 0 <= m < |es[1..]| && Brings(p.plan[k], es[1..][m], k, Run(q, es[1..]).jobs[k].status);
      assert es[m + 1] == es[1..][m];
    } else {
      StepBrings(p, es[0], k);
    }
  }

  // Delays.

  /** A new job waits for a click, for its time, which is the delay after the creation, or for a runner. */
  lemma NewJobIs(c: Config, token: nat, now: int)
    ensures var s := NewJob(c, token, now);
            && s.status == (match c.when
                            case OnPlay => Manual
                            case Delayed => Scheduled
                            case OnSuccess => Pending
                            case OnFailure => Pending
                            case Always => Pending)
            && s.scheduledAt == (if c.when == Delayed && c.startIn > 0 then Some(c.startIn + now) else None)
            && s.token == token && s.attempt == 0 && s.queuedAt == Some(now)
            && s.trace == [] && s.artifacts == [] && s.variables == map[]
            && s.startedAt.None? && s.finishedAt.None? && s.runner.None? && s.exitCode.None? && s.erasedAt.None?
  {
  }

  /** Something other than its time coming moves the job. */
  predicate Disturbs(e: Event, k: nat) {
    || ((e.Report? || e.RequeueJob? || e.RetryJob? || e.CancelJob?) && e.i == k)
    || e.CancelPipeline? || e.CancelFromPage? || e.Interrupt? || e.RetryPipeline?
  }

  predicate WaitsUntil(s: JobState, time: int) {
    s.status == Skipped || (s.status == Scheduled && s.scheduledAt == Some(time))
  }

  lemma WaitsOn(p: Pipeline, e: Event, k: nat, time: int)
    requires Matched(p.plan, p.jobs) && Accepts(p, e) && k < |p.plan| && WaitsUntil(p.jobs[k], time)
    requires !Disturbs(e, k) && (e.Promote? && e.i == k ==> e.now < time)
    ensures WaitsUntil(Apply(p, e).jobs[k], time) && !(e.Assign? && e.i == k)
  {
    if e.Report? {
      ReportShape(p, e);
    }
  }

  /** Over every run a delayed job that nobody reports on, requeues, retries or cancels is not taken before its time. */
  lemma {:induction false} NotBeforeItsTime(p: Pipeline, es: seq<Event>, k: nat, time: int)
    requires Matched(p.plan, p.jobs) && AcceptsAll(p, es) && k < |p.plan| && WaitsUntil(p.jobs[k], time)
    requires forall m | 0 <= m < |es| :: !Disturbs(es[m], k) && (es[m].Promote? && es[m].i == k ==> es[m].now < time)
    ensures WaitsUntil(Run(p, es).jobs[k], time)
    ensures forall m | 0 <= m < |es| :: !(es[m].Assign? && es[m].i == k)
    decreases |es|
  {
    if es != [] {
      WaitsOn(p, es[0], k, time);
      assert forall m | 0 < m < |es| :: es[m] == es[1..][m - 1];
      NotBeforeItsTime(Apply(p, es[0]), es[1..], k, time);
    }
  }
}
