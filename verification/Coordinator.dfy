/** The coordinator's request handlers over job and pipeline rows, each proved against the step it takes. */
module Coordinator {
  import opened CiModel
  import opened JobLists
  import opened Masking
  import opened Meaning
  import opened Payload
  import opened Steps
  import opened Wrappers

  /** A job is skipped when it waits behind the first failed stage or needs a failed job, unless it runs after
      failures. */
  function SkippedBehind(c: Config, s: JobState, firstFailed: int, failedNames: set<string>, now: int): JobState {
    if Waiting(s.status) && (c.stage > firstFailed || NeedsOneOf(c, failedNames)) && !RunsAfterFailure(c) then
      MarkSkipped(s, now)
    else s
  }

  class JobRow {
    const config: Config
    var status: Status
    var token: nat
    var attempt: nat
    var reason: Option<string>
    var exitCode: Option<int>
    var runner: Option<string>
    var trace: Bytes
    var traceSize: nat
    var queuedAt: Option<int>
    var scheduledAt: Option<int>
    var startedAt: Option<int>
    var finishedAt: Option<int>
    var artifacts: seq<Artifact>
    var variables: map<string, string>
    var erasedAt: Option<int>

    function State(): JobState
      reads this
    {
      JobState(status, token, attempt, reason, exitCode, runner, trace, traceSize,
               queuedAt, scheduledAt, startedAt, finishedAt, artifacts, variables, erasedAt)
    }

    constructor (config: Config, token: nat, now: int)
      ensures this.config == config && State() == NewJob(config, token, now)
    {
      this.config := config;
      status := FirstStatus(config.when);
      this.token := token;
      attempt, reason, exitCode, runner := 0, None, None, None;
      trace, traceSize := [], 0;
      queuedAt, startedAt, finishedAt := Some(now), None, None;
      scheduledAt := if config.when == Delayed && config.startIn > 0 then Some(now + config.startIn) else None;
      artifacts, variables, erasedAt := [], map[], None;
    }

    /** What the last attempt left behind. */
    method ForgetAttempt()
      modifies this
      ensures State() == Forgotten(old(State()))
    {
      runner, reason, exitCode := None, None, None;
      traceSize := 0;
      startedAt, finishedAt := None, None;
      trace := [];
    }

    method ResetForRetry(minted: nat, now: int)
      modifies this
      ensures State() == Reset(config, old(State()), minted, now)
    {
      status := if config.when == Delayed then Scheduled else Pending;
      token := minted;
      ForgetAttempt();
      queuedAt := Some(now);
      if status == Scheduled {
        scheduledAt := Some(now);
      } else {
        scheduledAt := None;
      }
    }

    method PrepareAutoRetry(minted: nat, now: int)
      modifies this
      ensures State() == AutoRetried(config, old(State()), minted, now)
    {
      attempt := attempt + 1;
      ResetForRetry(minted, now);
    }

    method RequeueStaleOrPending(minted: nat, now: int)
      modifies this
      ensures State() == Requeued(config, old(State()), minted, now)
    {
      ResetForRetry(minted, now);
      if status == Scheduled {
        status := Pending;
        scheduledAt := None;
      }
    }

    method Skip(now: int)
      modifies this
      ensures State() == MarkSkipped(old(State()), now)
    {
      status := Skipped;
      finishedAt := finishedAt.OrElse(Some(now));
    }

    method Cancel(now: int)
      modifies this
      ensures State() == CanceledJob(old(State()), now)
    {
      if CanCancel(status) {
        status := Canceled;
        finishedAt := finishedAt.OrElse(Some(now));
      }
    }

    method SkipBehind(firstFailed: int, failedNames: set<string>, now: int)
      modifies this
      ensures State() == SkippedBehind(config, old(State()), firstFailed, failedNames, now)
    {
      var needsFailed := NeedsOneOf(config, failedNames);
      if Waiting(status) && (config.stage > firstFailed || needsFailed) && !RunsAfterFailure(config) {
        Skip(now);
      }
    }

    method StoreDetails(reason: Option<string>, exitCode: Option<int>, size: nat)
      modifies this
      ensures State() == old(State()).(reason := reason, exitCode := exitCode,
                                       traceSize := if size > 0 then size else old(traceSize))
    {
      this.reason := reason;
      this.exitCode := exitCode;
      if size > 0 {
        traceSize := size;
      }
    }

    method Play(given: map<string, string>, now: int)
      modifies this
      ensures State() == Played(old(State()), given, now)
    {
      if given != map[] {
        variables := variables + given;
      } else {
        assert variables + given == variables;
      }
      status := Pending;
      queuedAt := Some(now);
      reason, exitCode := None, None;
    }

    method Erase(now: int)
      modifies this
      ensures State() == old(State()).(trace := [], traceSize := 0, artifacts := [], erasedAt := Some(now))
    {
      traceSize := 0;
      erasedAt := Some(now);
      trace := [];
      artifacts := [];
    }

    /** Superseded by a newer pipeline. */
    method Interrupt(now: int) returns (interrupted: bool)
      modifies this
      ensures interrupted == Interrupted(config, old(State()))
      ensures State() == InterruptedJob(config, old(State()), now)
    {
      interrupted := config.interruptible && CanCancel(status);
      if interrupted {
        status := Canceled;
        reason := Some("canceled");
        finishedAt := Some(now);
      }
    }
  }

  class PipelineRow {
    const jobs: seq<JobRow>
    var status: Status
    var startedAt: Option<int>
    var finishedAt: Option<int>

    /** The rows are different rows. */
    ghost predicate Valid() {
      forall i, j | 0 <= i < j < |jobs| :: jobs[i] != jobs[j]
    }

    function Plan(): (plan: seq<Config>)
      ensures |plan| == |jobs|
    {
      seq(|jobs|, i requires 0 <= i < |jobs| => jobs[i].config)
    }

    function States(): (states: seq<JobState>)
      reads jobs
      ensures Matched(Plan(), states)
    {
      seq(|jobs|, i requires 0 <= i < |jobs| reads jobs => jobs[i].State())
    }

    function View(): (p: Pipeline)
      reads this, jobs
      ensures Matched(p.plan, p.jobs)
    {
      Pipeline(Plan(), States(), status, startedAt, finishedAt)
    }

    constructor (jobs: seq<JobRow>)
      requires forall i, j | 0 <= i < j < |jobs| :: jobs[i] != jobs[j]
      ensures this.jobs == jobs && Valid()
      ensures status == Pending && startedAt.None? && finishedAt.None?
    {
      this.jobs := jobs;
      status, startedAt, finishedAt := Pending, None, None;
    }

    // The derived status and the skip passes.

    /** The statuses of the jobs that block: all but those that failed and were allowed to. */
    method BlockingStatuses() returns (blocking: seq<Status>)
      requires Valid()
      ensures Lists(View(), |jobs|, blocking)
    {
      ghost var p := View();
      blocking := [];
      for i := 0 to |jobs|
        invariant Lists(p, i, blocking)
      {
        assert p.plan[i] == jobs[i].config && p.jobs[i] == jobs[i].State();
        if !AllowedFailure(jobs[i].config, jobs[i].State()) {
          ListsMore(p, i, blocking);
          blocking := blocking + [jobs[i].status];
        } else {
          ListsMore(p, i, blocking);
        }
      }
    }

    method DeriveStatus(now: int)
      requires Valid()
      modifies this
      ensures View() == Derive(old(View()), now)
    {
      var blocking := BlockingStatuses();
      assert View().jobs == [] <==> jobs == [];
      DeriveByListIsDerive(View(), blocking, now);
      StoreStatus(blocking, now);
    }

    /** The branches over the list of blocking statuses. */
    method StoreStatus(blocking: seq<Status>, now: int)
      modifies this
      ensures View() == DeriveByList(old(View()), jobs == [], blocking, now)
    {
      ghost var p := View();
      BranchesCover(blocking);
      if jobs == [] {
        status := Pending;
      } else if AllOf(blocking, {}) {
        status := Success;
        finishedAt := finishedAt.OrElse(Some(now));
      } else if AllOf(blocking, {Canceled}) {
        status := Canceled;
        finishedAt := finishedAt.OrElse(Some(now));
      } else if AnyOf(blocking, {Canceled}) && !AnyOf(blocking, {Pending, Running, Scheduled}) {
        status := Canceled;
        finishedAt := finishedAt.OrElse(Some(now));
      } else if AnyOf(blocking, {Running}) {
        status := Running;
        startedAt := startedAt.OrElse(Some(now));
        finishedAt := None;
      } else if AnyOf(blocking, {Pending, Scheduled}) {
        status := Pending;
        finishedAt := None;
      } else if AnyOf(blocking, {Failed}) {
        status := Failed;
        finishedAt := finishedAt.OrElse(Some(now));
      } else if AllOf(blocking, {Success, Skipped, Manual, Failed}) {
        status := Success;
        finishedAt := finishedAt.OrElse(Some(now));
      } else {
        assert false;  // `pending` would be stored, but no job list leads here
      }
      assert States() == p.jobs;
    }

    method SkipOnFailureJobsWithoutFailure(now: int)
      requires Valid()
      modifies jobs
      ensures States() == SkipUntriggeredFrom(Plan(), old(States()), 0, now)
    {
      for i := 0 to |jobs|
        invariant SkipUntriggeredFrom(Plan(), States(), i, now) == SkipUntriggeredFrom(Plan(), old(States()), 0, now)
      {
        ghost var before := States();
        if Untriggered(Plan(), States(), i) {
          jobs[i].Skip(now);
        }
        assert States() == SkipIfUntriggered(Plan(), before, i, now);
      }
    }

    /** The stages and the names of the required failures. */
    method RequiredFailures() returns (stages: seq<int>, names: set<string>)
      requires Valid()
      ensures FailuresListed(View(), |jobs|, stages, names)
    {
      ghost var p := View();
      stages, names := [], {};
      for i := 0 to |jobs|
        invariant FailuresListed(p, i, stages, names)
      {
        assert p.plan[i] == jobs[i].config && p.jobs[i] == jobs[i].State();
        if RequiredFailure(jobs[i].config, jobs[i].State()) {
          stages := stages + [jobs[i].config.stage];
          names := names + {jobs[i].config.name};
        }
      }
    }

    method SkipAllBehind(firstFailed: int, failedNames: set<string>, now: int)
      requires Valid()
      modifies jobs
      ensures forall k | 0 <= k < |jobs| ::
                jobs[k].State() == SkippedBehind(jobs[k].config, old(jobs[k].State()), firstFailed, failedNames, now)
    {
      for i := 0 to |jobs|
        invariant forall k | 0 <= k < i ::
                    jobs[k].State() ==
                      SkippedBehind(jobs[k].config, old(jobs[k].State()), firstFailed, failedNames, now)
        invariant forall k | i <= k < |jobs| :: jobs[k].State() == old(jobs[k].State())
      {
        jobs[i].SkipBehind(firstFailed, failedNames, now);
      }
    }

    /** The stages and names of the failures decide; the statuses the loop writes do not. */
    method SkipJobsAfterFailedStage(now: int)
      requires Valid()
      modifies jobs
      ensures States() == SkipOvertaken(Plan(), old(States()), now)
    {
      ghost var p := View();
      var failedStages, failedNames := RequiredFailures();
      if failedStages == [] {
        NoneOvertaken(p, failedNames, now);
        return;
      }
      var first := Minimum(failedStages);
      SkipAllBehind(first, failedNames, now);
      forall k | 0 <= k < |jobs|
        ensures jobs[k].State() == SkipOvertaken(p.plan, p.jobs, now)[k]
      {
        assert p.plan[k] == jobs[k].config && p.jobs[k] == old(jobs[k].State());
        OvertakenMeaning(p, failedStages, failedNames, first, k);
      }
      assert States() == SkipOvertaken(p.plan, p.jobs, now);
    }

    // The runner's requests.

    /** Store a report. False, with nothing changed, when the token is not the job's. */
    method UpdateJob(i: nat, sent: nat, state: Option<Status>, reason: Option<string>, exitCode: Option<int>,
                     size: nat, minted: nat, now: int) returns (ok: bool)
      requires Valid() && i < |jobs|
      modifies this, jobs
      ensures ok <==> sent == old(jobs[i].token)
      ensures ok ==> View() == ReportStep(old(View()), i, state, reason, exitCode, size, minted, now)
      ensures !ok ==> View() == old(View())
    {
      if sent != jobs[i].token {
        return false;
      }
      StoreReport(i, state, reason, exitCode, size, now);
      SettleReport(i, reason, exitCode, minted, now);
      DeriveStatus(now);
      ok := true;
    }

    method StoreReport(i: nat, state: Option<Status>, reason: Option<string>, exitCode: Option<int>, size: nat,
                       now: int)
      requires Valid() && i < |jobs|
      modifies jobs
      ensures States() == ReportedJobs(old(View()), i, state, reason, exitCode, size, now)
    {
      ghost var p := View();
      if state.Some? {
        jobs[i].status := state.value;
      }
      assert States() == p.jobs[i := p.jobs[i].(status := state.GetOr(p.jobs[i].status))];
      SkipOnFailureJobsWithoutFailure(now);
      jobs[i].StoreDetails(reason, exitCode, size);
      assert States() == ReportedJobs(p, i, state, reason, exitCode, size, now);
    }

    method SettleReport(i: nat, reason: Option<string>, exitCode: Option<int>, minted: nat, now: int)
      requires Valid() && i < |jobs|
      modifies jobs
      ensures States() == Stamped(SettledJobs(Plan(), old(States()), i, reason, exitCode, minted, now), i, now)
    {
      ghost var before := States();
      ghost var settled := SettledJobs(Plan(), before, i, reason, exitCode, minted, now);
      var autoRetry := jobs[i].status == Failed && ShouldAutoRetry(jobs[i].config, jobs[i].State(), reason, exitCode);
      if autoRetry {
        jobs[i].PrepareAutoRetry(minted, now);
      } else if jobs[i].status == Failed {
        SkipJobsAfterFailedStage(now);
      }
      assert States() == settled;
      if jobs[i].status == Success || jobs[i].status == Failed {
        jobs[i].finishedAt := Some(now);
      }
      assert States() == Stamped(settled, i, now);
    }

    /** Store a chunk of the trace at its start, the end by default: 403 for a wrong token, 416 outside what is
        stored. */
    method PatchTrace(i: nat, sent: nat, start: Option<int>, chunk: Bytes) returns (code: int)
      requires Valid() && i < |jobs|
      modifies jobs[i]
      ensures code == if sent != old(jobs[i].token) then 403
                      else if start.Some? && !(0 <= start.value <= old(|jobs[i].trace|)) then 416
                      else 202
      ensures code == 202 ==>
                Apply(old(View()), AppendTrace(i, start.GetOr(old(|jobs[i].trace|)), chunk)) == View()
      ensures code != 202 ==> View() == old(View())
    {
      if sent != jobs[i].token {
        return 403;
      }
      ghost var p := View();
      var at := start.GetOr(|jobs[i].trace|);
      if at < 0 || at > |jobs[i].trace| {
        return 416;
      }
      var values := MaskedValues(jobs[i].config.masked, jobs[i].variables);
      jobs[i].trace := Mask(values, jobs[i].trace[..at] + chunk);
      jobs[i].traceSize := |jobs[i].trace|;
      assert States() == AppendStep(p, i, at, chunk).jobs;
      code := 202;
    }

    method AssignJob(i: nat, runner: string, now: int)
      requires Valid() && i < |jobs|
      modifies this, jobs[i]
      ensures View() == AssignStep(old(View()), i, runner, now)
    {
      ghost var p := View();
      jobs[i].status := Running;
      jobs[i].runner := Some(runner);
      jobs[i].startedAt := Some(now);
      status := Running;
      startedAt := startedAt.OrElse(jobs[i].startedAt);
      assert States() == AssignStep(p, i, runner, now).jobs;
    }

    method Promote(i: nat, now: int)
      requires Valid() && i < |jobs| && jobs[i].status == Scheduled && IsDue(jobs[i].scheduledAt, now)
      modifies this, jobs[i]
      ensures Accepts(old(View()), Event.Promote(i, now)) && View() == Apply(old(View()), Event.Promote(i, now))
    {
      ghost var p := View();
      jobs[i].status := Pending;
      jobs[i].queuedAt := Some(now);
      jobs[i].scheduledAt := None;
      assert States() == PromoteStep(p, i, now).jobs;
      if !(status == Running || status == Pending) {
        status := Pending;
        finishedAt := None;
      }
    }

    // The operator's and the user's requests.

    method ClearFinishIfActive()
      modifies this
      ensures View() == ClearIfActive(old(View()))
    {
      if status == Pending || status == Running {
        finishedAt := None;
      }
    }

    method DeriveAndClear(now: int)
      requires Valid()
      modifies this
      ensures View() == ClearIfActive(Derive(old(View()), now))
    {
      DeriveStatus(now);
      ClearFinishIfActive();
    }

    method CancelProjectJob(i: nat, now: int)
      requires Valid() && i < |jobs|
      modifies this, jobs[i]
      ensures View() == Apply(old(View()), CancelJob(i, now))
    {
      ghost var p := View();
      jobs[i].Cancel(now);
      assert States() == SetJob(p, i, CanceledJob(p.jobs[i], now)).jobs;
      DeriveStatus(now);
    }

    method RetryProjectJob(i: nat, minted: nat, now: int)
      requires Valid() && i < |jobs|
      modifies this, jobs[i]
      ensures View() == Apply(old(View()), RetryJob(i, minted, now))
    {
      ghost var p := View();
      if JobRetryable(jobs[i].status) {
        jobs[i].ResetForRetry(minted, now);
      }
      assert States() == SetJob(p, i, if JobRetryable(p.jobs[i].status) then Reset(p.plan[i], p.jobs[i], minted, now)
                                      else p.jobs[i]).jobs;
      DeriveAndClear(now);
    }

    /** The given variables are added to the job's. False, with nothing changed, when the job is not manual. */
    method PlayProjectJob(i: nat, variables: map<string, string>, now: int) returns (ok: bool)
      requires Valid() && i < |jobs|
      modifies this, jobs[i]
      ensures ok <==> Accepts(old(View()), PlayJob(i, variables, now))
      ensures View() == if ok then Apply(old(View()), PlayJob(i, variables, now)) else old(View())
    {
      if jobs[i].status != Manual {
        return false;
      }
      ghost var p := View();
      jobs[i].Play(variables, now);
      assert States() == SetJob(p, i, Played(p.jobs[i], variables, now)).jobs;
      DeriveAndClear(now);
      ok := true;
    }

    /** The CI Lab's cancel clears the finish time once more, which changes nothing. */
    method OperatorCancel(i: nat, now: int)
      requires Valid() && i < |jobs|
      modifies this, jobs[i]
      ensures View() == Apply(old(View()), CancelJob(i, now))
    {
      ghost var p := View();
      CancelProjectJob(i, now);
      ClearFinishIfActive();
    }

    method RequeueJob(i: nat, minted: nat, now: int)
      requires Valid() && i < |jobs| && Active(jobs[i].status)
      modifies this, jobs[i]
      ensures View() == Apply(old(View()), Event.RequeueJob(i, minted, now))
    {
      ghost var p := View();
      jobs[i].RequeueStaleOrPending(minted, now);
      assert States() == SetJob(p, i, Requeued(p.plan[i], p.jobs[i], minted, now)).jobs;
      DeriveAndClear(now);
    }

    /** The job actions of the CI Lab, which refuse where the API does nothing, and the requeue only they offer. The
        actions of a project's own pages are the same but for the requeue. */
    method OperatorAction(i: nat, action: string, minted: nat, now: int) returns (ok: bool)
      requires Valid() && i < |jobs|
      modifies this, jobs[i]
      ensures ok <==>
              || (action == "play" && old(jobs[i].status) == Manual)
              || action == "cancel"
              || (action == "retry" && JobRetryable(old(jobs[i].status)))
              || (action == "requeue" && Active(old(jobs[i].status)))
      ensures !ok ==> View() == old(View())
      ensures ok && action == "play" ==> View() == Apply(old(View()), PlayJob(i, map[], now))
      ensures ok && action == "cancel" ==> View() == Apply(old(View()), CancelJob(i, now))
      ensures ok && action == "retry" ==> View() == Apply(old(View()), RetryJob(i, minted, now))
      ensures ok && action == "requeue" ==> View() == Apply(old(View()), Event.RequeueJob(i, minted, now))
    {
      if action == "play" {
        ok := PlayProjectJob(i, map[], now);
      } else if action == "cancel" {
        OperatorCancel(i, now);
        ok := true;
      } else if action == "retry" {
        ok := JobRetryable(jobs[i].status);
        if ok {
          RetryProjectJob(i, minted, now);
        }
      } else if action == "requeue" {
        ok := Active(jobs[i].status);
        if ok {
          RequeueJob(i, minted, now);
        }
      } else {
        ok := false;
      }
    }

    /** The trace and the artifacts of a job that cannot be canceled any more are erased; refused otherwise. */
    method EraseProjectJob(i: nat, now: int) returns (ok: bool)
      requires Valid() && i < |jobs|
      modifies jobs[i]
      ensures ok <==> Accepts(old(View()), Erase(i, now))
      ensures View() == if ok then Apply(old(View()), Erase(i, now)) else old(View())
    {
      ok := !CanCancel(jobs[i].status);
      if ok {
        ghost var p := View();
        jobs[i].Erase(now);
        assert States() == Apply(p, Erase(i, now)).jobs;
      }
    }

    /** False, with nothing stored, when the token is not the job's. */
    method UploadJobArtifacts(i: nat, sent: nat, expiresAt: Option<int>) returns (ok: bool)
      requires Valid() && i < |jobs|
      modifies jobs[i]
      ensures ok <==> sent == old(jobs[i].token)
      ensures View() == if ok then Apply(old(View()), Upload(i, expiresAt)) else old(View())
    {
      ok := sent == jobs[i].token;
      if ok {
        ghost var p := View();
        jobs[i].artifacts := jobs[i].artifacts + [Artifact(expiresAt)];
        assert States() == Apply(p, Upload(i, expiresAt)).jobs;
      }
    }

    /** The job's artifacts expire no more; refused when there are none. */
    method KeepProjectJobArtifacts(i: nat) returns (ok: bool)
      requires Valid() && i < |jobs|
      modifies jobs[i]
      ensures ok <==> Accepts(old(View()), KeepArtifacts(i))
      ensures View() == if ok then Apply(old(View()), KeepArtifacts(i)) else old(View())
    {
      ok := jobs[i].artifacts != [];
      if ok {
        ghost var p := View();
        var kept: seq<Artifact> := [];
        for k := 0 to |jobs[i].artifacts|
          invariant kept == Kept(jobs[i].artifacts[..k])
          invariant jobs[i].artifacts == old(jobs[i].artifacts) && View() == old(View())
        {
          kept := kept + [jobs[i].artifacts[k].(expiresAt := None)];
        }
        assert jobs[i].artifacts[..|jobs[i].artifacts|] == jobs[i].artifacts;
        jobs[i].artifacts := kept;
        assert States() == Apply(p, KeepArtifacts(i)).jobs;
      }
    }

    /** The peer of this name has an artifact that has not expired. */
    predicate Carries(d: int, now: int)
      requires d < |jobs|
      reads jobs
    {
      d >= 0 && HasArtifact(jobs[d].State(), now)
    }

    /** The jobs whose tokens and artifacts a runner gets with job i. */
    method DependenciesPayload(i: nat, now: int) returns (payload: seq<nat>)
      requires Valid() && i < |jobs|
      ensures payload == PayloadOf(View(), i, now)
    {
      ghost var p := View();
      var plan := Plan();
      var names := DependencyNames(plan, i);
      payload := [];
      for k := 0 to |names|
        invariant payload + Carriers(p, names[k..], now) == Carriers(p, names, now)
      {
        var d := Peer(plan, names[k]);
        CarriersFrom(p, names, k, now, payload);
        assert Carries(d, now) <==> d >= 0 && HasArtifact(p.jobs[d], now);
        if Carries(d, now) {
          payload := payload + [d];
        }
      }
    }

    method CancelJobs(now: int)
      requires Valid()
      modifies jobs
      ensures States() == CancelPipelineStep(old(View()), now).jobs
    {
      ghost var p := View();
      for i := 0 to |jobs|
        invariant forall k | 0 <= k < i :: jobs[k].State() == CanceledJob(p.jobs[k], now)
        invariant forall k | i <= k < |jobs| :: jobs[k].State() == p.jobs[k]
      {
        jobs[i].Cancel(now);
      }
    }

    /** The pipeline page derives the status. */
    method CancelFromPage(now: int)
      requires Valid()
      modifies this, jobs
      ensures View() == CancelFromPageStep(old(View()), now)
    {
      ghost var p := View();
      CancelJobs(now);
      assert States() == seq(|p.jobs|, i requires 0 <= i < |p.jobs| => CanceledJob(p.jobs[i], now));
      DeriveStatus(now);
    }

    /** The API overwrites the status. */
    method CancelPipelineRequest(now: int)
      requires Valid()
      modifies this, jobs
      ensures View() == CancelPipelineStep(old(View()), now)
    {
      CancelJobs(now);
      status := Canceled;
      finishedAt := finishedAt.OrElse(Some(now));
    }

    /** Cancel the interruptible jobs, and say whether there was one. */
    method InterruptJobs(now: int) returns (changed: bool)
      requires Valid()
      modifies jobs
      ensures changed <==> exists k | 0 <= k < |jobs| :: Interrupted(Plan()[k], old(States())[k])
      ensures forall k | 0 <= k < |jobs| :: jobs[k].State() == InterruptedJob(Plan()[k], old(States())[k], now)
    {
      ghost var p := View();
      changed := false;
      for i := 0 to |jobs|
        invariant forall k | 0 <= k < i :: jobs[k].State() == InterruptedJob(p.plan[k], p.jobs[k], now)
        invariant forall k | i <= k < |jobs| :: jobs[k].State() == p.jobs[k]
        invariant changed <==> exists k | 0 <= k < i :: Interrupted(p.plan[k], p.jobs[k])
      {
        var interrupted := jobs[i].Interrupt(now);
        changed := changed || interrupted;
      }
    }

    /** A newer pipeline of the same branch supersedes this one. */
    method CancelInterruptibleJobs(now: int)
      requires Valid()
      modifies this, jobs
      ensures View() == InterruptStep(old(View()), now)
    {
      ghost var p := View();
      var changed := InterruptJobs(now);
      ghost var after := seq(|p.jobs|, i requires 0 <= i < |p.jobs| => InterruptedJob(p.plan[i], p.jobs[i], now));
      assert States() == after;
      if changed {
        DeriveStatus(now);
      } else {
        assert after == p.jobs;
      }
    }

    method RetryPipelineRequest(mintedTokens: seq<nat>, now: int)
      requires Valid() && |mintedTokens| == |jobs|
      modifies this, jobs
      ensures View() == RetryPipelineStep(old(View()), mintedTokens, now)
    {
      ghost var p := View();
      ghost var after := seq(|p.jobs|, i requires 0 <= i < |p.jobs| =>
        if PipelineRetryable(p.jobs[i].status) then Reset(p.plan[i], p.jobs[i], mintedTokens[i], now) else p.jobs[i]);
      for i := 0 to |jobs|
        invariant forall k | 0 <= k < i :: jobs[k].State() == after[k]
        invariant forall k | i <= k < |jobs| :: jobs[k].State() == p.jobs[k]
        invariant unchanged(this)
      {
        if PipelineRetryable(jobs[i].status) {
          jobs[i].ResetForRetry(mintedTokens[i], now);
        }
      }
      assert States() == after;
      DeriveAndClear(now);
    }
  }

  /** The rows of a new pipeline: one job row for each job of the plan, in order, each with its token. */
  method CreatePipeline(plan: seq<Config>, tokens: seq<nat>, now: int) returns (p: PipelineRow)
    requires |tokens| == |plan|
    ensures p.Valid() && fresh(p) && fresh(p.jobs)
    ensures p.Plan() == plan && Created(p.View())
    ensures forall i | 0 <= i < |plan| :: p.jobs[i].State() == NewJob(plan[i], tokens[i], now)
  {
    var rows: seq<JobRow> := [];
    for k := 0 to |plan|
      invariant |rows| == k && fresh(rows)
      invariant forall i, j | 0 <= i < j < k :: rows[i] != rows[j]
      invariant forall i | 0 <= i < k ::
                  rows[i].config == plan[i] && rows[i].State() == NewJob(plan[i], tokens[i], now)
    {
      var row := new JobRow(plan[k], tokens[k], now);
      rows := rows + [row];
    }
    p := new PipelineRow(rows);
    assert p.Plan() == plan;
  }

  /** Job i of a pipeline is unblocked, its group free, and a runner with these tags can run it. */
  predicate RunnableIn(p: Pipeline, i: nat, tags: set<string>, runUntagged: bool)
  {
    && Matched(p.plan, p.jobs) && i < |p.plan|
    && StageUnblocked(p.plan, p.jobs, i)
    && RunnerCanRun(p.plan[i], tags, runUntagged)
    && GroupFree(p.plan, p.jobs, i)
  }

  /** The same in plain terms: no other job hinders it, and the runner suits it. */
  predicate MayRun(p: Pipeline, i: nat, tags: set<string>, runUntagged: bool)
  {
    Matched(p.plan, p.jobs) && i < |p.plan| && Unhindered(p.plan, p.jobs, i) && Suits(p.plan[i], tags, runUntagged)
  }

  lemma MayRunIff(p: Pipeline, i: nat, tags: set<string>, runUntagged: bool)
    ensures RunnableIn(p, i, tags, runUntagged) <==> MayRun(p, i, tags, runUntagged)
  {
    if Matched(p.plan, p.jobs) && i < |p.plan| {
      UnhinderedIff(p.plan, p.jobs, i);
      SuitsIff(p.plan[i], tags, runUntagged);
    }
  }

  /** A job the poll looks at: job i of its pipeline. */
  datatype Candidate = Candidate(row: PipelineRow, i: nat) {
    function Job(): Config
      requires i < |row.jobs|
    {
      row.jobs[i].config
    }

    predicate Runnable(tags: set<string>, runUntagged: bool)
      requires i < |row.jobs|
      reads row, row.jobs
    {
      RunnableIn(row.View(), i, tags, runUntagged)
    }
  }

  /** Earlier stages first, then older jobs. */
  predicate NotAfter(a: Config, b: Config) {
    a.stage < b.stage || (a.stage == b.stage && a.id <= b.id)
  }

  /** Jobs in the order of the queue, no job row in two pipelines. */
  ghost predicate IsOrdered(queue: seq<Candidate>) {
    && (forall c | c in queue :: c.row.Valid() && c.i < |c.row.jobs|)
    && (forall a, b | 0 <= a < b < |queue| ::
          || queue[a].Job().stage < queue[b].Job().stage
          || (queue[a].Job().stage == queue[b].Job().stage && queue[a].Job().id <= queue[b].Job().id))
    && (forall c, d | c in queue && d in queue && c.row != d.row ::
          forall j, k | 0 <= j < |c.row.jobs| && 0 <= k < |d.row.jobs| :: c.row.jobs[j] != d.row.jobs[k])
  }

  /** What the query for pending jobs returns. */
  ghost predicate IsQueue(queue: seq<Candidate>)
    reads set c, k | c in queue && 0 <= k < |c.row.jobs| :: c.row.jobs[k]
  {
    IsOrdered(queue) && forall c | c in queue :: c.row.jobs[c.i].status == Pending
  }

  /** A runner's poll takes the first pending job that is unblocked, that the runner can run and whose resource group is
      free: among all such jobs one of the earliest stage and there the oldest. */
  method TakeFirst(queue: seq<Candidate>, tags: set<string>, runUntagged: bool, runner: string, now: int)
    returns (taken: Option<Candidate>)
    requires IsQueue(queue)
    modifies set c | c in queue :: c.row
    modifies set c, k | c in queue && 0 <= k < |c.row.jobs| :: c.row.jobs[k]
    ensures taken.None? <==> forall c | c in queue :: !old(c.Runnable(tags, runUntagged))
    ensures taken.None? ==> forall c | c in queue :: c.row.View() == old(c.row.View())
    ensures taken.Some? ==>
              && taken.value in queue
              && old(taken.value.Runnable(tags, runUntagged))
              && RunnerCanRun(taken.value.Job(), tags, runUntagged)
              && (forall c | c in queue && old(c.Runnable(tags, runUntagged)) :: NotAfter(taken.value.Job(), c.Job()))
              && Accepts(old(taken.value.row.View()), Assign(taken.value.i, runner, now))
              && taken.value.row.View() == Apply(old(taken.value.row.View()), Assign(taken.value.i, runner, now))
              && (forall c | c in queue && c.row != taken.value.row :: c.row.View() == old(c.row.View()))
  {
    taken := None;
    for k := 0 to |queue|
      invariant taken.None?
      invariant forall m | 0 <= m < k :: !queue[m].Runnable(tags, runUntagged)
    {
      var c := queue[k];
      if c.Runnable(tags, runUntagged) {
        c.row.AssignJob(c.i, runner, now);
        taken := Some(c);
        return;
      }
    }
  }

  /** A pipeline after the promotion of those of the due jobs that are its own. */
  function AfterPromotions(p: Pipeline, row: PipelineRow, due: seq<Candidate>, now: int): (q: Pipeline)
    requires Matched(p.plan, p.jobs)
    ensures q.plan == p.plan && Matched(q.plan, q.jobs)
    decreases |due|
  {
    if due == [] then p
    else
      var first := due[0];
      var q := if first.row == row && first.i < |p.jobs| then PromoteStep(p, first.i, now) else p;
      AfterPromotions(q, row, due[1..], now)
  }

  /** The due jobs wait, and their time has come, no one twice. */
  ghost predicate AreDue(due: seq<Candidate>, queue: seq<Candidate>, now: int)
    requires forall c | c in queue :: c.i < |c.row.jobs|
    reads set c, k | c in queue && 0 <= k < |c.row.jobs| :: c.row.jobs[k]
  {
    && (forall c | c in due ::
          c in queue && c.row.jobs[c.i].status == Scheduled && IsDue(c.row.jobs[c.i].scheduledAt, now))
    && (forall a, b | 0 <= a < b < |due| :: due[a] != due[b])
    && (forall c | c in queue && c !in due :: c.row.jobs[c.i].status == Pending)
  }

  /** Promote one job; the other pipelines stay. */
  method PromoteOne(d: Candidate, queue: seq<Candidate>, now: int)
    requires IsOrdered(queue) && d in queue
    requires d.row.jobs[d.i].status == Scheduled && IsDue(d.row.jobs[d.i].scheduledAt, now)
    modifies d.row, d.row.jobs[d.i]
    ensures d.row.View() == PromoteStep(old(d.row.View()), d.i, now)
    ensures forall c | c in queue && c.row != d.row :: c.row.View() == old(c.row.View())
    ensures forall c | c in queue ::
              if c == d then c.row.jobs[c.i].status == Pending
              else c.row.jobs[c.i].status == old(c.row.jobs[c.i].status) &&
                   c.row.jobs[c.i].scheduledAt == old(c.row.jobs[c.i].scheduledAt)
  {
    assert forall c | c in queue :: c.row.jobs[c.i] == d.row.jobs[d.i] ==> c.row == d.row && c.i == d.i;
    d.row.Promote(d.i, now);
    assert d.row.States()[d.i].status == d.row.jobs[d.i].status;
  }

  /** The jobs of the queue are as they were, but the due ones up to the k-th are pending. */
  ghost predicate PromotedUpTo(due: seq<Candidate>, queue: seq<Candidate>, k: nat, now: int)
    requires k <= |due| && forall c | c in queue :: c.i < |c.row.jobs|
    reads set c, k | c in queue && 0 <= k < |c.row.jobs| :: c.row.jobs[k]
  {
    && (forall m | k <= m < |due| ::
          && due[m] in queue && due[m].row.jobs[due[m].i].status == Scheduled
          && IsDue(due[m].row.jobs[due[m].i].scheduledAt, now))
    && (forall c | c in queue && c !in due[k..] :: c.row.jobs[c.i].status == Pending)
  }

  lemma RestOf(due: seq<Candidate>, k: nat)
    requires k < |due|
    ensures due[k..] == [due[k]] + due[k + 1..] && due[k..][0] == due[k] && due[k..][1..] == due[k + 1..]
  {
  }

  method PromoteNext(due: seq<Candidate>, k: nat, queue: seq<Candidate>, now: int)
    requires k < |due| && IsOrdered(queue) && PromotedUpTo(due, queue, k, now)
    requires forall a, b | 0 <= a < b < |due| :: due[a] != due[b]
    modifies set c | c in queue :: c.row
    modifies set c, k | c in queue && 0 <= k < |c.row.jobs| :: c.row.jobs[k]
    ensures PromotedUpTo(due, queue, k + 1, now)
    ensures forall c | c in queue ::
              AfterPromotions(c.row.View(), c.row, due[k + 1..], now) ==
                AfterPromotions(old(c.row.View()), c.row, due[k..], now)
  {
    RestOf(due, k);
    PromoteOne(due[k], queue, now);
  }

  /** Promote every due job. */
  method PromoteDue(due: seq<Candidate>, queue: seq<Candidate>, now: int)
    requires IsOrdered(queue) && AreDue(due, queue, now)
    modifies set c | c in queue :: c.row
    modifies set c, k | c in queue && 0 <= k < |c.row.jobs| :: c.row.jobs[k]
    ensures IsQueue(queue)
    ensures forall c | c in queue :: c.row.View() == AfterPromotions(old(c.row.View()), c.row, due, now)
  {
    assert due[0..] == due;
    for k := 0 to |due|
      invariant forall c | c in queue ::
                  AfterPromotions(c.row.View(), c.row, due[k..], now) ==
                    AfterPromotions(old(c.row.View()), c.row, due, now)
      invariant PromotedUpTo(due, queue, k, now)
    {
      PromoteNext(due, k, queue, now);
    }
    assert due[|due|..] == [];
  }

  /** A poll: unless the runner is paused, the due delayed jobs are promoted, and the runner gets the first job of the
      queue that it can have then. The queue holds the jobs that are pending once the due ones are. */
  method RequestJob(due: seq<Candidate>, queue: seq<Candidate>, paused: bool, tags: set<string>, runUntagged: bool,
                    runner: string, now: int)
    returns (taken: Option<Candidate>, ghost promoted: map<PipelineRow, Pipeline>)
    requires IsOrdered(queue) && AreDue(due, queue, now)
    modifies set c | c in queue :: c.row
    modifies set c, k | c in queue && 0 <= k < |c.row.jobs| :: c.row.jobs[k]
    ensures forall c | c in queue ::
              && c.row in promoted
              && Matched(promoted[c.row].plan, promoted[c.row].jobs) && c.i < |promoted[c.row].jobs|
              && promoted[c.row] ==
                 if paused then old(c.row.View()) else AfterPromotions(old(c.row.View()), c.row, due, now)
    ensures taken.None? <==>
            paused || forall c | c in queue :: !RunnableIn(promoted[c.row], c.i, tags, runUntagged)
    ensures taken.Some? ==>
              && taken.value in queue
              && (forall c | c in queue && RunnableIn(promoted[c.row], c.i, tags, runUntagged) ::
                    NotAfter(taken.value.Job(), c.Job()))
              && Accepts(promoted[taken.value.row], Assign(taken.value.i, runner, now))
              && taken.value.row.View() == Apply(promoted[taken.value.row], Assign(taken.value.i, runner, now))
    ensures taken.Some? ==> RunnerCanRun(taken.value.Job(), tags, runUntagged)
    ensures forall c | c in queue && (taken.None? || c.row != taken.value.row) :: c.row.View() == promoted[c.row]
  {
    taken := None;
    if !paused {
      PromoteDue(due, queue, now);
    }
    promoted := map r | r in set c | c in queue :: c.row :: r.View();
    if !paused {
      taken := TakeFirst(queue, tags, runUntagged, runner, now);
    }
  }
}
