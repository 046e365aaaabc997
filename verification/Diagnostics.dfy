/** The scheduling diagnostics against the poll: the same decision, computed a second time. */
module Diagnostics {
  import opened Wrappers
  import opened CiModel

  datatype Blocker =
    | AwaitsFailure
    | AwaitsMissing(name: string)
    | AwaitsJob(index: nat)
    | LacksTags(missing: set<string>)
    | RefusesUntagged
    | GroupHeld(index: nat)
    | AwaitsTime
    | Stale

  datatype Diagnosis = Diagnosis(eligible: bool, blocked: bool, blockers: seq<Blocker>)

  /** The first running job that holds the resource group. */
  function GroupHolder(plan: seq<Config>, jobs: seq<JobState>, i: nat, from: nat): (r: Option<nat>)
    requires Matched(plan, jobs) && i < |plan| && from <= |plan|
    ensures r.None? <==> forall d | from <= d < |plan| :: !HoldsGroupOf(plan, jobs, d, i)
    ensures r.Some? ==> r.value < |plan| && HoldsGroupOf(plan, jobs, r.value, i)
    decreases |plan| - from
  {
    if from == |plan| then None
    else if HoldsGroupOf(plan, jobs, from, i) then Some(from)
    else GroupHolder(plan, jobs, i, from + 1)
  }

  /** Job i needs a job of this name, which its pipeline does not have, and cannot do without it. */
  predicate NeedsMissing(plan: seq<Config>, i: nat, name: string)
    requires i < |plan|
  {
    plan[i].needs.Some? &&
    exists n | n in plan[i].needs.value :: !n.External() && n.job == name && Peer(plan, name) < 0 && !n.optional
  }

  /** One blocker for each need that holds back. */
  method NeedBlockers(plan: seq<Config>, jobs: seq<JobState>, i: nat) returns (blockers: seq<Blocker>)
    requires Matched(plan, jobs) && i < |plan| && plan[i].needs.Some?
    ensures forall b | b in blockers :: b.AwaitsMissing? || b.AwaitsJob?
    ensures forall d: nat :: AwaitsJob(d) in blockers <==>
              d < |plan| && DependsOn(plan, i, d) && !Passable(plan[d], jobs[d], RunsAfterFailure(plan[i]))
    ensures forall name :: AwaitsMissing(name) in blockers <==> NeedsMissing(plan, i, name)
  {
    blockers := [];
    var needs := plan[i].needs.value;
    for k := 0 to |needs|
      invariant forall b | b in blockers :: b.AwaitsMissing? || b.AwaitsJob?
      invariant forall d: nat :: AwaitsJob(d) in blockers <==>
                  d < |plan| && !Passable(plan[d], jobs[d], RunsAfterFailure(plan[i])) &&
                  exists m | 0 <= m < k :: !needs[m].External() && Peer(plan, needs[m].job) == d
      invariant forall name :: AwaitsMissing(name) in blockers <==>
                  exists m | 0 <= m < k ::
                    needs[m].job == name && !needs[m].External() && Peer(plan, name) < 0 && !needs[m].optional
    {
      if !needs[k].External() {
        var p := Peer(plan, needs[k].job);
        if p < 0 {
          if !needs[k].optional {
            blockers := blockers + [AwaitsMissing(needs[k].job)];
          }
        } else if jobs[p].status == Failed && (AllowedFailure(plan[p], jobs[p]) || RunsAfterFailure(plan[i])) {
        } else if jobs[p].status !in {Success, Skipped, Manual} {
          blockers := blockers + [AwaitsJob(p)];
        }
      }
    }
  }

  /** One blocker for each job of an earlier stage that holds back. */
  method StageBlockers(plan: seq<Config>, jobs: seq<JobState>, i: nat) returns (blockers: seq<Blocker>)
    requires Matched(plan, jobs) && i < |plan| && plan[i].needs.None?
    ensures forall b | b in blockers :: b.AwaitsJob?
    ensures forall d: nat :: AwaitsJob(d) in blockers <==>
              d < |plan| && DependsOn(plan, i, d) && !Passable(plan[d], jobs[d], RunsAfterFailure(plan[i]))
  {
    blockers := [];
    for k := 0 to |plan|
      invariant forall b | b in blockers :: b.AwaitsJob?
      invariant forall d: nat :: AwaitsJob(d) in blockers <==>
                  d < k && plan[d].stage < plan[i].stage && !Passable(plan[d], jobs[d], RunsAfterFailure(plan[i]))
    {
      if jobs[k].status == Failed && (AllowedFailure(plan[k], jobs[k]) || RunsAfterFailure(plan[i])) &&
         plan[k].stage < plan[i].stage {
      } else if plan[k].stage < plan[i].stage && jobs[k].status !in {Success, Skipped, Manual} {
        blockers := blockers + [AwaitsJob(k)];
      }
    }
  }

  /** One blocker for what the runner lacks, or for the running job that holds the resource group. */
  method RunnerBlockers(plan: seq<Config>, jobs: seq<JobState>, i: nat, tags: set<string>, runUntagged: bool)
    returns (blockers: seq<Blocker>)
    requires Matched(plan, jobs) && i < |plan|
    ensures blockers == [] <==> RunnerCanRun(plan[i], tags, runUntagged) && GroupFree(plan, jobs, i)
    ensures forall b | b in blockers :: b.LacksTags? || b.RefusesUntagged? || b.GroupHeld?
    ensures forall missing :: LacksTags(missing) in blockers <==> missing == plan[i].tags - tags && missing != {}
    ensures RefusesUntagged in blockers <==> plan[i].tags == {} && !runUntagged
    ensures forall d: nat :: GroupHeld(d) in blockers <==> GroupHolder(plan, jobs, i, 0) == Some(d)
  {
    blockers := [];
    if plan[i].tags != {} {
      var missing := plan[i].tags - tags;
      assert missing == {} <==> plan[i].tags <= tags by {
        assert forall t | t in plan[i].tags :: t in tags || t in missing;
      }
      if missing != {} {
        blockers := [LacksTags(missing)];
      }
    } else if !runUntagged {
      blockers := [RefusesUntagged];
    }
    var holder := GroupHolder(plan, jobs, i, 0);
    if holder.Some? {
      blockers := blockers + [GroupHeld(holder.value)];
    }
  }

  /** What a blocker of the pending job i says is so. */
  predicate Blocks(plan: seq<Config>, jobs: seq<JobState>, i: nat, tags: set<string>, runUntagged: bool, b: Blocker)
    requires Matched(plan, jobs) && i < |plan|
  {
    match b
    case AwaitsFailure => plan[i].when == OnFailure && !HasRequiredFailureDependency(plan, jobs, i)
    case AwaitsMissing(name) => NeedsMissing(plan, i, name)
    case AwaitsJob(d) => d < |plan| && DependsOn(plan, i, d) && !Passable(plan[d], jobs[d], RunsAfterFailure(plan[i]))
    case LacksTags(missing) => missing == plan[i].tags - tags && missing != {}
    case RefusesUntagged => plan[i].tags == {} && !runUntagged
    case GroupHeld(d) => GroupHolder(plan, jobs, i, 0) == Some(d)
    case AwaitsTime => false
    case Stale => false
  }

  /** Nothing blocks a job exactly when the poll of a runner with these tags would take it. */
  lemma UnblockedIff(plan: seq<Config>, jobs: seq<JobState>, i: nat, tags: set<string>, runUntagged: bool)
    requires Matched(plan, jobs) && i < |plan|
    ensures (forall b :: !Blocks(plan, jobs, i, tags, runUntagged, b)) <==>
            StageUnblocked(plan, jobs, i) && RunnerCanRun(plan[i], tags, runUntagged) && GroupFree(plan, jobs, i)
  {
    StageUnblockedIff(plan, jobs, i);
    RequiredFailureDependencyIff(plan, jobs, i);
    if MissesNeed(plan, i) {
      var n :| n in plan[i].needs.value && !n.External() && Peer(plan, n.job) < 0 && !n.optional;
      assert Blocks(plan, jobs, i, tags, runUntagged, AwaitsMissing(n.job));
    }
    if d: nat :| d < |plan| && DependsOn(plan, i, d) && !Passable(plan[d], jobs[d], RunsAfterFailure(plan[i])) {
      assert Blocks(plan, jobs, i, tags, runUntagged, AwaitsJob(d));
    }
    if plan[i].when == OnFailure && !HasRequiredFailureDependency(plan, jobs, i) {
      assert Blocks(plan, jobs, i, tags, runUntagged, AwaitsFailure);
    }
    if t :| t in plan[i].tags && t !in tags {
      assert t in plan[i].tags - tags;
      assert Blocks(plan, jobs, i, tags, runUntagged, LacksTags(plan[i].tags - tags));
    }
    if plan[i].tags == {} && !runUntagged {
      assert Blocks(plan, jobs, i, tags, runUntagged, RefusesUntagged);
    }
    if !GroupFree(plan, jobs, i) {
      assert Blocks(plan, jobs, i, tags, runUntagged, GroupHeld(GroupHolder(plan, jobs, i, 0).value));
    }
  }

  /** The blockers of a pending job are exactly what holds it back. */
  method PendingBlockers(plan: seq<Config>, jobs: seq<JobState>, i: nat, tags: set<string>, runUntagged: bool)
    returns (blockers: seq<Blocker>)
    requires Matched(plan, jobs) && i < |plan|
    ensures forall b :: b in blockers <==> Blocks(plan, jobs, i, tags, runUntagged, b)
  {
    var first: seq<Blocker> := [];
    if plan[i].when == OnFailure && !HasRequiredFailureDependency(plan, jobs, i) {
      first := [AwaitsFailure];
    }
    var waits: seq<Blocker>;
    if plan[i].needs.Some? {
      waits := NeedBlockers(plan, jobs, i);
    } else {
      waits := StageBlockers(plan, jobs, i);
    }
    var last := RunnerBlockers(plan, jobs, i, tags, runUntagged);
    blockers := first + waits + last;
  }

  /** What the diagnosis of job k says is so: a pending job has exactly the blockers that hold it back, and is eligible
      when there are none, which is when the poll would take it; a scheduled job waits for its time. */
  ghost predicate Faithful(plan: seq<Config>, jobs: seq<JobState>, k: nat, tags: set<string>, runUntagged: bool,
                           stale: set<nat>, d: Diagnosis)
    requires Matched(plan, jobs) && k < |plan|
  {
    && (d.eligible <==>
          && jobs[k].status == Pending
          && StageUnblocked(plan, jobs, k)
          && RunnerCanRun(plan[k], tags, runUntagged)
          && GroupFree(plan, jobs, k))
    && (d.blocked <==> d.blockers != [])
    && match jobs[k].status
       case Pending => forall b :: b in d.blockers <==> Blocks(plan, jobs, k, tags, runUntagged, b)
       case Scheduled => d.blockers == [AwaitsTime]
       case Running => d.blockers == if k in stale then [Stale] else []
       case _ => d.blockers == []
  }

  /** The diagnosis of every job by its id. `stale` holds the running jobs without activity for too long, by the
      clock. */
  method ExplainJobScheduling(plan: seq<Config>, jobs: seq<JobState>, tags: set<string>, runUntagged: bool,
                              stale: set<nat>)
    returns (diagnostics: map<nat, Diagnosis>)
    requires Matched(plan, jobs)
    requires forall j, k | 0 <= j < k < |plan| :: plan[j].id != plan[k].id
    ensures diagnostics.Keys == set k | 0 <= k < |plan| :: plan[k].id
    ensures forall k | 0 <= k < |plan| ::
              plan[k].id in diagnostics && Faithful(plan, jobs, k, tags, runUntagged, stale, diagnostics[plan[k].id])
  {
    diagnostics := map[];
    for i := 0 to |plan|
      invariant diagnostics.Keys == set k | 0 <= k < i :: plan[k].id
      invariant forall k | 0 <= k < i ::
                  && plan[k].id in diagnostics
                  && Faithful(plan, jobs, k, tags, runUntagged, stale, diagnostics[plan[k].id])
    {
      var blockers: seq<Blocker> := [];
      if jobs[i].status == Scheduled {
        blockers := [AwaitsTime];
      } else if jobs[i].status == Pending {
        blockers := PendingBlockers(plan, jobs, i, tags, runUntagged);
        UnblockedIff(plan, jobs, i, tags, runUntagged);
        assert blockers == [] <==> forall b :: b !in blockers by {
          assert blockers != [] ==> blockers[0] in blockers;
        }
      } else if jobs[i].status == Running && i in stale {
        blockers := [Stale];
      }
      var d := Diagnosis(jobs[i].status == Pending && blockers == [], blockers != [], blockers);
      assert Faithful(plan, jobs, i, tags, runUntagged, stale, d);
      diagnostics := diagnostics[plan[i].id := d];
    }
  }
}
