/** The steps of the pipeline state machine as functions on pipeline values: what each request does to the stored
    rows. */
module Steps {
  import opened Wrappers
  import opened CiModel
  import opened Masking

  /** A job record without what its last attempt left behind. */
  function Forgotten(s: JobState): JobState {
    s.(runner := None, reason := None, exitCode := None, trace := [], traceSize := 0, startedAt := None,
      finishedAt := None)
  }

  /** A job record made ready for another attempt. */
  function Reset(c: Config, s: JobState, minted: nat, now: int): JobState {
    var status := if c.when == Delayed then Scheduled else Pending;
    Forgotten(s).(status := status, token := minted, queuedAt := Some(now),
                  scheduledAt := if status == Scheduled then Some(now) else None)
  }

  /** The operator's requeue: a reset that never waits for a delay. */
  function Requeued(c: Config, s: JobState, minted: nat, now: int): JobState {
    var r := Reset(c, s, minted, now);
    if r.status == Scheduled then r.(status := Pending, scheduledAt := None) else r
  }

  predicate RetryReasonMatches(configured: seq<string>, reason: Option<string>) {
    || configured == []
    || "always" in configured
    || (if reason.None? || reason.value == "" then "script_failure" else reason.value) in configured
  }

  predicate RetryExitCodeMatches(configured: seq<int>, exitCode: Option<int>) {
    configured == [] || (exitCode.Some? && exitCode.value in configured)
  }

  predicate ShouldAutoRetry(c: Config, s: JobState, reason: Option<string>, exitCode: Option<int>) {
    && c.retry.max > 0
    && s.attempt < c.retry.max
    && RetryReasonMatches(c.retry.reasons, reason)
    && RetryExitCodeMatches(c.retry.exitCodes, exitCode)
  }

  function AutoRetried(c: Config, s: JobState, minted: nat, now: int): JobState {
    Reset(c, s, minted, now).(attempt := s.attempt + 1)
  }

  function MarkSkipped(s: JobState, now: int): JobState {
    s.(status := Skipped, finishedAt := s.finishedAt.OrElse(Some(now)))
  }

  // The pass over `on_failure` jobs whose failure can no longer come.

  predicate Untriggered(plan: seq<Config>, jobs: seq<JobState>, i: nat)
    requires Matched(plan, jobs) && i < |plan|
  {
    && Waiting(jobs[i].status)
    && plan[i].when == OnFailure
    && DependenciesTerminal(plan, jobs, i)
    && !HasRequiredFailureDependency(plan, jobs, i)
  }

  function SkipIfUntriggered(plan: seq<Config>, jobs: seq<JobState>, i: nat, now: int): (r: seq<JobState>)
    requires Matched(plan, jobs) && i < |plan|
  {
    if Untriggered(plan, jobs, i) then jobs[i := MarkSkipped(jobs[i], now)] else jobs
  }

  /** The pass from index i on: each job is judged on the statuses the pass has already written. */
  function SkipUntriggeredFrom(plan: seq<Config>, jobs: seq<JobState>, i: nat, now: int): (r: seq<JobState>)
    requires Matched(plan, jobs) && i <= |plan|
    ensures |r| == |jobs|
    decreases |plan| - i
  {
    if i == |plan| then jobs
    else SkipUntriggeredFrom(plan, SkipIfUntriggered(plan, jobs, i, now), i + 1, now)
  }

  /** The records when the pass comes to job i. */
  function SweptBefore(plan: seq<Config>, jobs: seq<JobState>, i: nat, now: int): (r: seq<JobState>)
    requires Matched(plan, jobs) && i <= |plan|
    ensures |r| == |jobs| && r[i..] == jobs[i..]
    decreases i
  {
    if i == 0 then jobs
    else
      var before := SweptBefore(plan, jobs, i - 1, now);
      assert before[i..] == before[i - 1..][1..] == jobs[i - 1..][1..];
      SkipIfUntriggered(plan, before, i - 1, now)
  }

  /** The pass skips job i when it comes to it. */
  predicate SweepSkips(plan: seq<Config>, jobs: seq<JobState>, i: nat, now: int)
    requires Matched(plan, jobs) && i < |plan|
  {
    Untriggered(plan, SweptBefore(plan, jobs, i, now), i)
  }

  // The pass after a required failure.

  predicate NamesNeed(c: Config, name: string) {
    c.needs.Some? && exists n | n in c.needs.value :: !n.External() && n.job == name
  }

  /** A required failure of job f overtakes job k: it is in a later stage or needs f by name. */
  predicate Behind(plan: seq<Config>, k: nat, f: nat)
    requires k < |plan| && f < |plan|
  {
    plan[f].stage < plan[k].stage || NamesNeed(plan[k], plan[f].name)
  }

  /** A waiting job that does not run after failures, behind a required failure. */
  predicate Overtaken(plan: seq<Config>, jobs: seq<JobState>, i: nat)
    requires Matched(plan, jobs) && i < |plan|
  {
    && Waiting(jobs[i].status)
    && !RunsAfterFailure(plan[i])
    && exists f | 0 <= f < |plan| :: RequiredFailure(plan[f], jobs[f]) && Behind(plan, i, f)
  }

  function SkipOvertaken(plan: seq<Config>, jobs: seq<JobState>, now: int): (r: seq<JobState>)
    requires Matched(plan, jobs)
  {
    seq(|jobs|, i requires 0 <= i < |jobs| =>
      if Overtaken(plan, jobs, i) then MarkSkipped(jobs[i], now) else jobs[i])
  }

  // The derived pipeline status. A job blocks unless it failed and was allowed to.

  predicate SomeBlocking(plan: seq<Config>, jobs: seq<JobState>, statuses: set<Status>)
    requires Matched(plan, jobs)
  {
    exists i | 0 <= i < |plan| :: !AllowedFailure(plan[i], jobs[i]) && jobs[i].status in statuses
  }

  predicate EveryBlocking(plan: seq<Config>, jobs: seq<JobState>, statuses: set<Status>)
    requires Matched(plan, jobs)
  {
    forall i | 0 <= i < |plan| :: !AllowedFailure(plan[i], jobs[i]) ==> jobs[i].status in statuses
  }

  function DerivedStatus(plan: seq<Config>, jobs: seq<JobState>): Status
    requires Matched(plan, jobs)
  {
    if jobs == [] then Pending
    else if EveryBlocking(plan, jobs, {}) then Success
    else if EveryBlocking(plan, jobs, {Canceled}) then Canceled
    else if SomeBlocking(plan, jobs, {Canceled}) && !SomeBlocking(plan, jobs, {Pending, Running, Scheduled}) then
      Canceled
    else if SomeBlocking(plan, jobs, {Running}) then Running
    else if SomeBlocking(plan, jobs, {Pending, Scheduled}) then Pending
    else if SomeBlocking(plan, jobs, {Failed}) then Failed
    else if EveryBlocking(plan, jobs, {Success, Skipped, Manual, Failed}) then Success
    else Pending
  }

  predicate Final(s: Status) {
    s == Success || s == Failed || s == Canceled
  }

  /** The derivation with its time stamps: a final status keeps or sets the finish time, an active one clears it,
      and a pending status no job accounts for (an empty pipeline) leaves it. */
  function Derive(p: Pipeline, now: int): (q: Pipeline)
    requires Matched(p.plan, p.jobs)
    ensures q.plan == p.plan && q.jobs == p.jobs && q.status == DerivedStatus(p.plan, p.jobs)
  {
    var s := DerivedStatus(p.plan, p.jobs);
    if Final(s) then p.(status := s, finishedAt := p.finishedAt.OrElse(Some(now)))
    else if s == Running then p.(status := s, startedAt := p.startedAt.OrElse(Some(now)), finishedAt := None)
    else if SomeBlocking(p.plan, p.jobs, {Pending, Scheduled}) then p.(status := s, finishedAt := None)
    else p.(status := s)
  }

  /** Retry, play and the operator's actions clear the finish time of an active pipeline once more. */
  function ClearIfActive(p: Pipeline): (q: Pipeline) {
    if p.status == Pending || p.status == Running then p.(finishedAt := None) else p
  }

  // Artifacts and variables.

  /** The first artifact of the job is there and has not expired. */
  predicate HasArtifact(s: JobState, now: int) {
    s.artifacts != [] && (s.artifacts[0].expiresAt.Some? ==> s.artifacts[0].expiresAt.value > now)
  }

  function Kept(artifacts: seq<Artifact>): (r: seq<Artifact>) {
    seq(|artifacts|, _ => Artifact(None))
  }

  function Played(s: JobState, variables: map<string, string>, now: int): JobState {
    s.(status := Pending, queuedAt := Some(now), reason := None, exitCode := None, variables := s.variables + variables)
  }

  // The steps.

  /** What changes or reads the stored rows: a poll that assigns a job, a promotion, a report, a chunk of a trace, an
      artifact, a poll for a job of another pipeline that gets this job's artifacts, and what operators do. */
  datatype Event =
    | Assign(i: nat, runner: string, now: int)
    | Promote(i: nat, now: int)
    | Report(i: nat, state: Option<Status>, reason: Option<string>, exitCode: Option<int>, size: nat,
             minted: nat, now: int)
    | AppendTrace(i: nat, start: nat, chunk: Bytes)
    | Upload(i: nat, expiresAt: Option<int>)
    | Lend(i: nat, runner: string, now: int)
    | CancelJob(i: nat, now: int)
    | RetryJob(i: nat, minted: nat, now: int)
    | PlayJob(i: nat, variables: map<string, string>, now: int)
    | RequeueJob(i: nat, minted: nat, now: int)
    | Erase(i: nat, now: int)
    | KeepArtifacts(i: nat)
    | Interrupt(now: int)
    | CancelPipeline(now: int)
    | CancelFromPage(now: int)
    | RetryPipeline(mintedTokens: seq<nat>, now: int)

  predicate CanCancel(s: Status) {
    s in {Pending, Running, Manual, Scheduled}
  }

  function CanceledJob(s: JobState, now: int): JobState {
    if CanCancel(s.status) then s.(status := Canceled, finishedAt := s.finishedAt.OrElse(Some(now))) else s
  }

  /** A newer pipeline of the same branch cancels the interruptible jobs of this one. */
  predicate Interrupted(c: Config, s: JobState) {
    c.interruptible && CanCancel(s.status)
  }

  function InterruptedJob(c: Config, s: JobState, now: int): JobState {
    if Interrupted(c, s) then s.(status := Canceled, reason := Some("canceled"), finishedAt := Some(now)) else s
  }

  predicate PipelineRetryable(s: Status) {
    s == Failed || s == Canceled || s == Skipped
  }

  predicate JobRetryable(s: Status) {
    PipelineRetryable(s) || s == Success
  }

  /** The time a job is scheduled for has come, or it has none. */
  predicate IsDue(scheduledAt: Option<int>, now: int) {
    scheduledAt.Some? ==> scheduledAt.value <= now
  }

  /** What the coordinator accepts: other requests are refused and change nothing. A report or a trace chunk carries
      the job's current token, which the coordinator has checked. */
  predicate Accepts(p: Pipeline, e: Event)
    requires Matched(p.plan, p.jobs)
  {
    match e
    case Assign(i, _, _) =>
      i < |p.plan| && p.jobs[i].status == Pending && StageUnblocked(p.plan, p.jobs, i) && GroupFree(p.plan, p.jobs, i)
    case Promote(i, now) => i < |p.plan| && p.jobs[i].status == Scheduled && IsDue(p.jobs[i].scheduledAt, now)
    case Report(i, state, _, _, _, _, _) =>
      i < |p.plan| && (state.Some? ==> state.value != Manual && state.value != Scheduled)
    case AppendTrace(i, start, _) => i < |p.plan| && start <= |p.jobs[i].trace|
    case Upload(i, _) => i < |p.plan|
    case Lend(i, _, now) => i < |p.plan| && p.jobs[i].status == Success && HasArtifact(p.jobs[i], now)
    case CancelJob(i, _) => i < |p.plan|
    case RetryJob(i, _, _) => i < |p.plan|
    case PlayJob(i, _, _) => i < |p.plan| && p.jobs[i].status == Manual
    case RequeueJob(i, _, _) => i < |p.plan| && Active(p.jobs[i].status)
    case Erase(i, _) => i < |p.plan| && !CanCancel(p.jobs[i].status)
    case KeepArtifacts(i) => i < |p.plan| && p.jobs[i].artifacts != []
    case Interrupt(_) => true
    case CancelPipeline(_) => true
    case CancelFromPage(_) => true
    case RetryPipeline(mintedTokens, _) => |mintedTokens| == |p.plan|
  }

  function SetJob(p: Pipeline, i: nat, s: JobState): Pipeline
    requires i < |p.jobs|
  {
    p.(jobs := p.jobs[i := s])
  }

  function AssignStep(p: Pipeline, i: nat, runner: string, now: int): Pipeline
    requires i < |p.jobs|
  {
    SetJob(p, i, p.jobs[i].(status := Running, runner := Some(runner), startedAt := Some(now)))
    .(status := Running, startedAt := p.startedAt.OrElse(Some(now)))
  }

  function PromoteStep(p: Pipeline, i: nat, now: int): Pipeline
    requires i < |p.jobs|
  {
    var q := SetJob(p, i, p.jobs[i].(status := Pending, queuedAt := Some(now), scheduledAt := None));
    if p.status == Running || p.status == Pending then q else q.(status := Pending, finishedAt := None)
  }

  /** The jobs once the reported state is stored, the untriggered jobs are skipped and the report's details are kept. */
  function ReportedJobs(p: Pipeline, i: nat, state: Option<Status>, reason: Option<string>, exitCode: Option<int>,
                        size: nat, now: int): (r: seq<JobState>)
    requires Matched(p.plan, p.jobs) && i < |p.jobs|
    ensures |r| == |p.jobs|
  {
    var stored := p.jobs[i := p.jobs[i].(status := state.GetOr(p.jobs[i].status))];
    var swept := SkipUntriggeredFrom(p.plan, stored, 0, now);
    swept[i := swept[i].(reason := reason, exitCode := exitCode,
                         traceSize := if size > 0 then size else swept[i].traceSize)]
  }

  /** A failure is retried, or the jobs it overtakes are skipped. */
  function SettledJobs(plan: seq<Config>, jobs: seq<JobState>, i: nat, reason: Option<string>, exitCode: Option<int>,
                       minted: nat, now: int): (r: seq<JobState>)
    requires Matched(plan, jobs) && i < |jobs|
    ensures |r| == |jobs|
  {
    if jobs[i].status != Failed then jobs
    else if ShouldAutoRetry(plan[i], jobs[i], reason, exitCode) then
      jobs[i := AutoRetried(plan[i], jobs[i], minted, now)]
    else SkipOvertaken(plan, jobs, now)
  }

  /** The finish time of a job that ended. */
  function Stamped(jobs: seq<JobState>, i: nat, now: int): (r: seq<JobState>)
    requires i < |jobs|
  {
    if jobs[i].status == Success || jobs[i].status == Failed then jobs[i := jobs[i].(finishedAt := Some(now))] else jobs
  }

  function ReportStep(p: Pipeline, i: nat, state: Option<Status>, reason: Option<string>, exitCode: Option<int>,
                      size: nat, minted: nat, now: int): (q: Pipeline)
    requires Matched(p.plan, p.jobs) && i < |p.jobs|
  {
    var reported := ReportedJobs(p, i, state, reason, exitCode, size, now);
    var settled := SettledJobs(p.plan, reported, i, reason, exitCode, minted, now);
    Derive(p.(jobs := Stamped(settled, i, now)), now)
  }

  /** The values masked in the trace of a job, in order. A variable given when the job was played is not masked, and
      takes the place of a masked one of its name. */
  function MaskedValues(masked: seq<MaskedVariable>, played: map<string, string>): seq<Bytes> {
    if masked == [] then []
    else (if masked[0].name in played then [] else [masked[0].value]) + MaskedValues(masked[1..], played)
  }

  /** The chunk replaces what is stored from its start, and what is stored then is masked. */
  function AppendStep(p: Pipeline, i: nat, start: nat, chunk: Bytes): Pipeline
    requires Matched(p.plan, p.jobs) && i < |p.jobs| && start <= |p.jobs[i].trace|
  {
    var trace := Mask(MaskedValues(p.plan[i].masked, p.jobs[i].variables), p.jobs[i].trace[..start] + chunk);
    SetJob(p, i, p.jobs[i].(trace := trace, traceSize := |trace|))
  }

  function CancelPipelineStep(p: Pipeline, now: int): (q: Pipeline) {
    p.(jobs := seq(|p.jobs|, i requires 0 <= i < |p.jobs| => CanceledJob(p.jobs[i], now)),
       status := Canceled, finishedAt := p.finishedAt.OrElse(Some(now)))
  }

  /** The pipeline page derives the status instead. */
  function CancelFromPageStep(p: Pipeline, now: int): (q: Pipeline)
    requires Matched(p.plan, p.jobs)
  {
    Derive(p.(jobs := seq(|p.jobs|, i requires 0 <= i < |p.jobs| => CanceledJob(p.jobs[i], now))), now)
  }

  function InterruptStep(p: Pipeline, now: int): (q: Pipeline)
    requires Matched(p.plan, p.jobs)
  {
    if exists i | 0 <= i < |p.plan| :: Interrupted(p.plan[i], p.jobs[i]) then
      Derive(p.(jobs := seq(|p.jobs|, i requires 0 <= i < |p.jobs| => InterruptedJob(p.plan[i], p.jobs[i], now))), now)
    else p
  }

  function RetryPipelineStep(p: Pipeline, mintedTokens: seq<nat>, now: int): (q: Pipeline)
    requires Matched(p.plan, p.jobs) && |mintedTokens| == |p.plan|
  {
    var jobs := seq(|p.jobs|, i requires 0 <= i < |p.jobs| =>
                  if PipelineRetryable(p.jobs[i].status) then Reset(p.plan[i], p.jobs[i], mintedTokens[i], now)
                  else p.jobs[i]);
    ClearIfActive(Derive(p.(jobs := jobs), now))
  }

  function Apply(p: Pipeline, e: Event): (q: Pipeline)
    requires Matched(p.plan, p.jobs) && Accepts(p, e)
    ensures q.plan == p.plan && Matched(q.plan, q.jobs)
  {
    match e
    case Assign(i, runner, now) => AssignStep(p, i, runner, now)
    case Promote(i, now) => PromoteStep(p, i, now)
    case Report(i, state, reason, exitCode, size, minted, now) =>
      ReportStep(p, i, state, reason, exitCode, size, minted, now)
    case AppendTrace(i, start, chunk) => AppendStep(p, i, start, chunk)
    case CancelJob(i, now) => Derive(SetJob(p, i, CanceledJob(p.jobs[i], now)), now)
    case RetryJob(i, minted, now) =>
      var s := p.jobs[i];
      ClearIfActive(Derive(SetJob(p, i, if JobRetryable(s.status) then Reset(p.plan[i], s, minted, now) else s), now))
    case PlayJob(i, variables, now) => ClearIfActive(Derive(SetJob(p, i, Played(p.jobs[i], variables, now)), now))
    case RequeueJob(i, minted, now) =>
      ClearIfActive(Derive(SetJob(p, i, Requeued(p.plan[i], p.jobs[i], minted, now)), now))
    case Upload(i, expiresAt) => SetJob(p, i, p.jobs[i].(artifacts := p.jobs[i].artifacts + [Artifact(expiresAt)]))
    case Lend(_, _, _) => p
    case Erase(i, now) =>
      SetJob(p, i, p.jobs[i].(trace := [], traceSize := 0, artifacts := [], erasedAt := Some(now)))
    case KeepArtifacts(i) => SetJob(p, i, p.jobs[i].(artifacts := Kept(p.jobs[i].artifacts)))
    case Interrupt(now) => InterruptStep(p, now)
    case CancelPipeline(now) => CancelPipelineStep(p, now)
    case CancelFromPage(now) => CancelFromPageStep(p, now)
    case RetryPipeline(mintedTokens, now) => RetryPipelineStep(p, mintedTokens, now)
  }

  /** The pipeline after a list of events, each accepted in its turn. */
  predicate AcceptsAll(p: Pipeline, es: seq<Event>)
    requires Matched(p.plan, p.jobs)
    decreases |es|
  {
    es == [] || (Accepts(p, es[0]) && AcceptsAll(Apply(p, es[0]), es[1..]))
  }

  function Run(p: Pipeline, es: seq<Event>): (q: Pipeline)
    requires Matched(p.plan, p.jobs) && AcceptsAll(p, es)
    ensures q.plan == p.plan && Matched(q.plan, q.jobs)
    decreases |es|
  {
    if es == [] then p else Run(Apply(p, es[0]), es[1..])
  }

  /** One more event at the end of a run. */
  lemma {:induction false} RunThenOne(p: Pipeline, es: seq<Event>, e: Event)
    requires Matched(p.plan, p.jobs) && AcceptsAll(p, es) && Accepts(Run(p, es), e)
    ensures AcceptsAll(p, es + [e]) && Run(p, es + [e]) == Apply(Run(p, es), e)
    decreases |es|
  {
    if es == [] {
      assert es + [e] == [e] && [e][1..] == [];
      var q := Apply(p, e);
      assert AcceptsAll(q, []) && Run(q, []) == q;
    } else {
      assert (es + [e])[1..] == es[1..] + [e];
      RunThenOne(Apply(p, es[0]), es[1..], e);
    }
  }

  lemma RunOfOneEvent(p: Pipeline, e: Event)
    requires Matched(p.plan, p.jobs) && Accepts(p, e)
    ensures AcceptsAll(p, [e]) && Run(p, [e]) == Apply(p, e)
  {
    assert [] + [e] == [e];
    RunThenOne(p, [], e);
  }

  lemma RunOfTwoEvents(p: Pipeline, e: Event, f: Event)
    requires Matched(p.plan, p.jobs) && Accepts(p, e) && Accepts(Apply(p, e), f)
    ensures AcceptsAll(p, [e] + [f]) && Run(p, [e] + [f]) == Apply(Apply(p, e), f)
  {
    RunOfOneEvent(p, e);
    RunThenOne(p, [e], f);
  }

  // Creation.

  /** A job as it is stored first: a delayed one knows its time, unless its delay is zero. */
  function NewJob(c: Config, token: nat, now: int): JobState {
    var scheduledAt := if c.when == Delayed && c.startIn > 0 then Some(now + c.startIn) else None;
    JobState(FirstStatus(c.when), token, 0, None, None, None, [], 0,
             Some(now), scheduledAt, None, None, [], map[], None)
  }

  /** A stored pipeline before any step. */
  predicate Created(p: Pipeline) {
    && Matched(p.plan, p.jobs)
    && p.status == Pending && p.startedAt.None? && p.finishedAt.None?
    && forall i | 0 <= i < |p.plan| ::
         && p.jobs[i].status == FirstStatus(p.plan[i].when)
         && p.jobs[i].attempt == 0 && p.jobs[i].exitCode.None? && p.jobs[i].trace == [] && p.jobs[i].artifacts == []
  }
}
