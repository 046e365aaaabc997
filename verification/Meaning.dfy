/** The scheduler's terms, in plain statuses and names. */
module Meaning {
  import opened CiModel
  import opened Steps
  import opened Wrappers

  /** Job i waits for job d: without `needs` d is in an earlier stage, else d is the last job of a name it needs in its
      own pipeline. */
  predicate ComesAfter(plan: seq<Config>, i: nat, d: nat)
    requires i < |plan| && d < |plan|
  {
    match plan[i].needs
    case None => plan[d].stage < plan[i].stage
    case Some(needs) =>
      && (exists n | n in needs :: n.job == plan[d].name && n.project == "" && n.upstream == "")
      && (forall k | d < k < |plan| :: plan[k].name != plan[d].name)
  }

  lemma ComesAfterIff(plan: seq<Config>, i: nat, d: nat)
    requires i < |plan| && d < |plan|
    ensures DependsOn(plan, i, d) <==> ComesAfter(plan, i, d)
  {
  }

  predicate FailureAllowed(c: Config, s: JobState) {
    c.allowFailure || exists k | 0 <= k < |c.allowCodes| :: s.exitCode == Some(c.allowCodes[k])
  }

  /** Job d in its state does not hold back job i. */
  predicate LetsThrough(plan: seq<Config>, jobs: seq<JobState>, i: nat, d: nat)
    requires Matched(plan, jobs) && i < |plan| && d < |plan|
  {
    match jobs[d].status
    case Success => true
    case Skipped => true
    case Manual => true
    case Failed => FailureAllowed(plan[d], jobs[d]) || plan[i].when == Always || plan[i].when == OnFailure
    case Pending => false
    case Running => false
    case Canceled => false
    case Scheduled => false
  }

  /** Job i needs a job that is not there, and cannot do without. */
  predicate NeedsAbsent(plan: seq<Config>, i: nat)
    requires i < |plan|
  {
    plan[i].needs.Some? &&
    exists n | n in plan[i].needs.value ::
      n.project == "" && n.upstream == "" && !n.optional && forall k | 0 <= k < |plan| :: plan[k].name != n.job
  }

  /** All that the other jobs must be for job i to be taken. */
  predicate Unhindered(plan: seq<Config>, jobs: seq<JobState>, i: nat)
    requires Matched(plan, jobs) && i < |plan|
  {
    && !NeedsAbsent(plan, i)
    && (forall d: nat | d < |plan| && ComesAfter(plan, i, d) :: LetsThrough(plan, jobs, i, d))
    && (plan[i].when == OnFailure ==>
          exists d: nat :: d < |plan| && ComesAfter(plan, i, d) &&
                           jobs[d].status == Failed && !FailureAllowed(plan[d], jobs[d]))
    && (plan[i].group != "" ==>
          forall d: nat | d < |plan| && plan[d].group == plan[i].group && plan[d].id != plan[i].id ::
            jobs[d].status != Running)
  }

  lemma MissesNeedIff(plan: seq<Config>, i: nat)
    requires i < |plan|
    ensures MissesNeed(plan, i) <==> NeedsAbsent(plan, i)
  {
  }

  lemma PassableIff(plan: seq<Config>, jobs: seq<JobState>, i: nat, d: nat)
    requires Matched(plan, jobs) && i < |plan| && d < |plan|
    ensures Passable(plan[d], jobs[d], RunsAfterFailure(plan[i])) <==> LetsThrough(plan, jobs, i, d)
    ensures RequiredFailure(plan[d], jobs[d]) <==> jobs[d].status == Failed && !FailureAllowed(plan[d], jobs[d])
  {
    var c, exitCode := plan[d], jobs[d].exitCode;
    if exitCode.Some? && exitCode.value in c.allowCodes {
      var k :| 0 <= k < |c.allowCodes| && c.allowCodes[k] == exitCode.value;
      assert exitCode == Some(c.allowCodes[k]);
    }
  }

  lemma UnhinderedIff(plan: seq<Config>, jobs: seq<JobState>, i: nat)
    requires Matched(plan, jobs) && i < |plan|
    ensures StageUnblocked(plan, jobs, i) && GroupFree(plan, jobs, i) <==> Unhindered(plan, jobs, i)
  {
    StageUnblockedIff(plan, jobs, i);
    MissesNeedIff(plan, i);
    forall d: nat | d < |plan|
      ensures DependsOn(plan, i, d) <==> ComesAfter(plan, i, d)
      ensures Passable(plan[d], jobs[d], RunsAfterFailure(plan[i])) <==> LetsThrough(plan, jobs, i, d)
      ensures RequiredFailure(plan[d], jobs[d]) <==> jobs[d].status == Failed && !FailureAllowed(plan[d], jobs[d])
      ensures HoldsGroupOf(plan, jobs, d, i) <==>
                plan[i].group != "" && plan[d].group == plan[i].group && plan[d].id != plan[i].id &&
                jobs[d].status == Running
    {
      ComesAfterIff(plan, i, d);
      PassableIff(plan, jobs, i, d);
    }
  }

  /** A runner whose tags cover the job's can run it; a job without tags needs one that runs those. */
  predicate Suits(c: Config, tags: set<string>, runUntagged: bool) {
    (forall t | t in c.tags :: t in tags) && (c.tags == {} ==> runUntagged)
  }

  lemma SuitsIff(c: Config, tags: set<string>, runUntagged: bool)
    ensures RunnerCanRun(c, tags, runUntagged) <==> Suits(c, tags, runUntagged)
  {
  }

  // The skip passes.

  /** Job d has ended, or is not going to run by itself. */
  predicate IsOver(s: Status) {
    match s
    case Success => true
    case Skipped => true
    case Manual => true
    case Failed => true
    case Canceled => true
    case Pending => false
    case Running => false
    case Scheduled => false
  }

  /** What the pass over `on_failure` jobs skips: a waiting one all of whose dependencies are over, and none of them
      failed without being allowed to. */
  lemma UntriggeredIff(plan: seq<Config>, jobs: seq<JobState>, i: nat)
    requires Matched(plan, jobs) && i < |plan|
    ensures Untriggered(plan, jobs, i) <==>
            && (jobs[i].status == Pending || jobs[i].status == Scheduled) && plan[i].when == OnFailure
            && !NeedsAbsent(plan, i)
            && forall d: nat | d < |plan| && ComesAfter(plan, i, d) ::
                 IsOver(jobs[d].status) && (jobs[d].status == Failed ==> FailureAllowed(plan[d], jobs[d]))
  {
    DependenciesTerminalIff(plan, jobs, i);
    RequiredFailureDependencyIff(plan, jobs, i);
    MissesNeedIff(plan, i);
    forall d: nat | d < |plan|
      ensures DependsOn(plan, i, d) <==> ComesAfter(plan, i, d)
      ensures Terminal(jobs[d].status) <==> IsOver(jobs[d].status)
      ensures RequiredFailure(plan[d], jobs[d]) <==> jobs[d].status == Failed && !FailureAllowed(plan[d], jobs[d])
    {
      ComesAfterIff(plan, i, d);
      PassableIff(plan, jobs, i, d);
    }
  }

  /** What the pass after a failure skips: a waiting job that is to run after successes, when some job failed without
      being allowed to in an earlier stage, or is needed by name. */
  lemma OvertakenIff(plan: seq<Config>, jobs: seq<JobState>, i: nat)
    requires Matched(plan, jobs) && i < |plan|
    ensures Overtaken(plan, jobs, i) <==>
            && (jobs[i].status == Pending || jobs[i].status == Scheduled)
            && plan[i].when != Always && plan[i].when != OnFailure
            && exists f: nat :: f < |plan| && jobs[f].status == Failed && !FailureAllowed(plan[f], jobs[f]) &&
                 (|| plan[f].stage < plan[i].stage
                  || exists n | n in plan[i].needs.GetOr([]) ::
                       n.job == plan[f].name && n.project == "" && n.upstream == "")
  {
    forall f: nat | f < |plan|
      ensures RequiredFailure(plan[f], jobs[f]) <==> jobs[f].status == Failed && !FailureAllowed(plan[f], jobs[f])
      ensures Behind(plan, i, f) <==>
              || plan[f].stage < plan[i].stage
              || exists n | n in plan[i].needs.GetOr([]) :: n.job == plan[f].name && n.project == "" && n.upstream == ""
    {
      PassableIff(plan, jobs, i, f);
    }
    if Overtaken(plan, jobs, i) {
      var f: nat :| f < |plan| && RequiredFailure(plan[f], jobs[f]) && Behind(plan, i, f);
    }
  }
}
