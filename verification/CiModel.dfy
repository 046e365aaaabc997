/** Jobs and pipelines as the coordinator stores them, and the predicates that decide which job may run.

    A pipeline is a fixed plan (one configuration per job) beside the changing job records. */
module CiModel {
  import opened Masking
  import opened Wrappers

  datatype When = OnSuccess | Always | OnFailure | OnPlay | Delayed

  datatype Status = Pending | Running | Success | Failed | Canceled | Skipped | Manual | Scheduled

  /** One item of a job's `needs`; a project or an upstream pipeline makes it external. */
  datatype Need = Need(job: string, optional: bool, artifacts: bool, project: string, upstream: string, ref: string) {
    predicate External() {
      project != "" || upstream != ""
    }
  }

  datatype RetryPolicy = RetryPolicy(max: int, reasons: seq<string>, exitCodes: seq<int>)

  datatype MaskedVariable = MaskedVariable(name: string, value: Bytes)

  /** What the configuration says of a job. An empty `group` is no resource group, a zero `startIn` no delay; the masked
      variables are in the order in which they are masked. */
  datatype Config = Config(
    id: nat, name: string, stage: int, needs: Option<seq<Need>>, when: When,
    allowFailure: bool, allowCodes: seq<int>, retry: RetryPolicy,
    group: string, tags: set<string>, interruptible: bool, masked: seq<MaskedVariable>,
    dependencies: Option<seq<string>>, startIn: nat)

  /** An uploaded artifact and the time it expires, if it does. */
  datatype Artifact = Artifact(expiresAt: Option<int>)

  /** The changing part of a job record. The variables are those that playing the job has added. */
  datatype JobState = JobState(
    status: Status, token: nat, attempt: nat, reason: Option<string>, exitCode: Option<int>,
    runner: Option<string>, trace: Bytes, traceSize: nat,
    queuedAt: Option<int>, scheduledAt: Option<int>, startedAt: Option<int>, finishedAt: Option<int>,
    artifacts: seq<Artifact>, variables: map<string, string>, erasedAt: Option<int>)

  datatype Pipeline = Pipeline(
    plan: seq<Config>, jobs: seq<JobState>,
    status: Status, startedAt: Option<int>, finishedAt: Option<int>)

  predicate Matched(plan: seq<Config>, jobs: seq<JobState>) {
    |plan| == |jobs|
  }

  /** Waiting for a runner or for its time. */
  predicate Waiting(s: Status) {
    s == Pending || s == Scheduled
  }

  /** Not settled: waiting or running. */
  predicate Active(s: Status) {
    Waiting(s) || s == Running
  }

  /** The status a job is stored with: manual jobs wait for a click, delayed jobs for their time, the others for a
      runner. */
  function FirstStatus(when: When): Status {
    match when
    case OnPlay => Manual
    case Delayed => Scheduled
    case _ => Pending
  }

  function WaitingJobs(jobs: seq<JobState>): set<nat> {
    set i: nat | i < |jobs| && Waiting(jobs[i].status)
  }

  predicate RunsAfterFailure(c: Config) {
    c.when == Always || c.when == OnFailure
  }

  predicate AllowedFailure(c: Config, s: JobState) {
    s.status == Failed && (c.allowFailure || (s.exitCode.Some? && s.exitCode.value in c.allowCodes))
  }

  predicate RequiredFailure(c: Config, s: JobState) {
    s.status == Failed && !AllowedFailure(c, s)
  }

  /** The index of the last job of a name, as a dictionary built from the job list finds it; -1 when there is none. */
  function Peer(plan: seq<Config>, name: string): (r: int)
    ensures -1 <= r < |plan|
    ensures r >= 0 ==> plan[r].name == name
    ensures forall k | r < k < |plan| :: plan[k].name != name
  {
    if plan == [] then -1
    else if plan[|plan| - 1].name == name then |plan| - 1
    else Peer(plan[..|plan| - 1], name)
  }

  /** Job i waits for job d: by name when it has `needs`, else because d is in an earlier stage. */
  predicate DependsOn(plan: seq<Config>, i: nat, d: nat)
    requires i < |plan| && d < |plan|
  {
    match plan[i].needs
    case Some(needs) => exists n | n in needs :: !n.External() && Peer(plan, n.job) == d
    case None => plan[d].stage < plan[i].stage
  }

  /** Job i needs a job the plan does not have. */
  predicate MissesNeed(plan: seq<Config>, i: nat)
    requires i < |plan|
  {
    plan[i].needs.Some? &&
    exists n | n in plan[i].needs.value :: !n.External() && Peer(plan, n.job) < 0 && !n.optional
  }

  predicate HasRequiredFailureDependency(plan: seq<Config>, jobs: seq<JobState>, i: nat)
    requires Matched(plan, jobs) && i < |plan|
  {
    match plan[i].needs
    case Some(needs) =>
      exists n | n in needs ::
        && !n.External()
        && var p := Peer(plan, n.job);
           p >= 0 && RequiredFailure(plan[p], jobs[p])
    case None =>
      exists d | 0 <= d < |plan| :: plan[d].stage < plan[i].stage && RequiredFailure(plan[d], jobs[d])
  }

  /** The statuses after which a dependency changes no more by itself. */
  predicate Terminal(s: Status) {
    s in {Success, Skipped, Manual, Failed, Canceled}
  }

  predicate DependenciesTerminal(plan: seq<Config>, jobs: seq<JobState>, i: nat)
    requires Matched(plan, jobs) && i < |plan|
  {
    match plan[i].needs
    case Some(needs) =>
      forall n | n in needs ::
        n.External() || var p := Peer(plan, n.job); if p < 0 then n.optional else Terminal(jobs[p].status)
    case None =>
      forall d | 0 <= d < |plan| :: plan[d].stage < plan[i].stage ==> Terminal(jobs[d].status)
  }

  /** A dependency in this state does not hold back a job that runs after failures (`tolerant`) or one that does not. */
  predicate Passable(c: Config, s: JobState, tolerant: bool) {
    s.status in {Success, Skipped, Manual} || (s.status == Failed && (AllowedFailure(c, s) || tolerant))
  }

  predicate StageUnblocked(plan: seq<Config>, jobs: seq<JobState>, i: nat)
    requires Matched(plan, jobs) && i < |plan|
  {
    && (plan[i].when == OnFailure ==> HasRequiredFailureDependency(plan, jobs, i))
    && match plan[i].needs
       case Some(needs) =>
         forall n | n in needs ::
           n.External() ||
           var p := Peer(plan, n.job);
           if p < 0 then n.optional else Passable(plan[p], jobs[p], RunsAfterFailure(plan[i]))
       case None =>
         forall d | 0 <= d < |plan| ::
           plan[d].stage < plan[i].stage ==> Passable(plan[d], jobs[d], RunsAfterFailure(plan[i]))
  }

  /** Job d runs and holds the resource group job i asks for. */
  predicate HoldsGroupOf(plan: seq<Config>, jobs: seq<JobState>, d: nat, i: nat)
    requires Matched(plan, jobs) && d < |plan| && i < |plan|
  {
    plan[d].id != plan[i].id && plan[i].group != "" && plan[d].group == plan[i].group && jobs[d].status == Running
  }

  predicate GroupFree(plan: seq<Config>, jobs: seq<JobState>, i: nat)
    requires Matched(plan, jobs) && i < |plan|
  {
    forall d | 0 <= d < |plan| :: !HoldsGroupOf(plan, jobs, d, i)
  }

  predicate RunnerCanRun(c: Config, tags: set<string>, runUntagged: bool) {
    if c.tags == {} then runUntagged else c.tags <= tags
  }

  // The decision predicates, restated over the dependency relation.

  lemma RequiredFailureDependencyIff(plan: seq<Config>, jobs: seq<JobState>, i: nat)
    requires Matched(plan, jobs) && i < |plan|
    ensures HasRequiredFailureDependency(plan, jobs, i) <==>
            exists d: nat :: d < |plan| && DependsOn(plan, i, d) && RequiredFailure(plan[d], jobs[d])
  {
    if plan[i].needs.Some? && HasRequiredFailureDependency(plan, jobs, i) {
      var n :| n in plan[i].needs.value && !n.External() &&
               Peer(plan, n.job) >= 0 && RequiredFailure(plan[Peer(plan, n.job)], jobs[Peer(plan, n.job)]);
      assert DependsOn(plan, i, Peer(plan, n.job));
    }
  }

  lemma DependenciesTerminalIff(plan: seq<Config>, jobs: seq<JobState>, i: nat)
    requires Matched(plan, jobs) && i < |plan|
    ensures DependenciesTerminal(plan, jobs, i) <==>
            !MissesNeed(plan, i) && forall d: nat | d < |plan| && DependsOn(plan, i, d) :: Terminal(jobs[d].status)
  {
    if plan[i].needs.Some? && !MissesNeed(plan, i) &&
       forall d: nat | d < |plan| && DependsOn(plan, i, d) :: Terminal(jobs[d].status) {
      forall n | n in plan[i].needs.value && !n.External() && Peer(plan, n.job) >= 0
        ensures Terminal(jobs[Peer(plan, n.job)].status)
      {
        assert DependsOn(plan, i, Peer(plan, n.job));
      }
    }
  }

  lemma StageUnblockedIff(plan: seq<Config>, jobs: seq<JobState>, i: nat)
    requires Matched(plan, jobs) && i < |plan|
    ensures StageUnblocked(plan, jobs, i) <==>
            && (plan[i].when == OnFailure ==>
                  exists d: nat :: d < |plan| && DependsOn(plan, i, d) && RequiredFailure(plan[d], jobs[d]))
            && !MissesNeed(plan, i)
            && forall d: nat | d < |plan| && DependsOn(plan, i, d) ::
                 Passable(plan[d], jobs[d], RunsAfterFailure(plan[i]))
  {
    RequiredFailureDependencyIff(plan, jobs, i);
    if plan[i].needs.Some? && !MissesNeed(plan, i) &&
       forall d: nat | d < |plan| && DependsOn(plan, i, d) :: Passable(plan[d], jobs[d], RunsAfterFailure(plan[i])) {
      forall n | n in plan[i].needs.value && !n.External() && Peer(plan, n.job) >= 0
        ensures Passable(plan[Peer(plan, n.job)], jobs[Peer(plan, n.job)], RunsAfterFailure(plan[i]))
      {
        assert DependsOn(plan, i, Peer(plan, n.job));
      }
    }
  }
}
