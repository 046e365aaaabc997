/** At most one job of a resource group runs at a time. */
module Exclusion {
  import opened Wrappers
  import opened CiModel
  import opened Steps
  import opened Safety
  import opened Samples

  predicate DistinctIds(plan: seq<Config>) {
    forall j, k | 0 <= j < k < |plan| :: plan[j].id != plan[k].id
  }

  predicate OnePerGroup(p: Pipeline)
    requires Matched(p.plan, p.jobs)
  {
    forall j, k | 0 <= j < k < |p.plan| && p.plan[j].group != "" && p.plan[j].group == p.plan[k].group ::
      p.jobs[j].status != Running || p.jobs[k].status != Running
  }

  /** Only a job that runs is reported as running. */
  predicate NoRevival(p: Pipeline, e: Event) {
    e.Report? && e.i < |p.jobs| && e.state == Some(Running) ==> p.jobs[e.i].status == Running
  }

  lemma JobActionRunsNone(p: Pipeline, e: Event, k: nat)
    requires Matched(p.plan, p.jobs) && Accepts(p, e) && k < |p.plan|
    requires e.CancelJob? || e.RetryJob? || e.PlayJob? || e.RequeueJob?
    ensures Apply(p, e).jobs[k].status == Running ==> p.jobs[k].status == Running
  {
  }

  /** A job runs after a step only if it ran before or the poll took it. */
  lemma RunningOnlyByPoll(p: Pipeline, e: Event, k: nat)
    requires Matched(p.plan, p.jobs) && Accepts(p, e) && NoRevival(p, e) && k < |p.plan|
    requires Apply(p, e).jobs[k].status == Running
    ensures p.jobs[k].status == Running || (e.Assign? && e.i == k)
  {
    if e.Report? {
      ReportShape(p, e);
    } else if e.CancelJob? || e.RetryJob? || e.PlayJob? || e.RequeueJob? {
      JobActionRunsNone(p, e, k);
    }
  }

  lemma ExclusionKept(p: Pipeline, e: Event)
    requires Matched(p.plan, p.jobs) && DistinctIds(p.plan) && OnePerGroup(p) && Accepts(p, e) && NoRevival(p, e)
    ensures OnePerGroup(Apply(p, e))
  {
    var q := Apply(p, e);
    forall j: nat, k: nat | j < k < |p.plan| && p.plan[j].group != "" && p.plan[j].group == p.plan[k].group
      ensures q.jobs[j].status != Running || q.jobs[k].status != Running
    {
      if e.Assign? {
        assert !HoldsGroupOf(p.plan, p.jobs, j, e.i) && !HoldsGroupOf(p.plan, p.jobs, k, e.i);
      }
      if q.jobs[j].status == Running && q.jobs[k].status == Running {
        RunningOnlyByPoll(p, e, j);
        RunningOnlyByPoll(p, e, k);
      }
    }
  }

  predicate NoRevivals(p: Pipeline, es: seq<Event>)
    requires Matched(p.plan, p.jobs) && AcceptsAll(p, es)
    decreases |es|
  {
    es == [] || (NoRevival(p, es[0]) && NoRevivals(Apply(p, es[0]), es[1..]))
  }

  /** Over every run of every kind of step, as long as no report revives a job that does not run. */
  lemma {:induction false} ResourceGroupExclusion(p: Pipeline, es: seq<Event>)
    requires Matched(p.plan, p.jobs) && DistinctIds(p.plan) && OnePerGroup(p)
    requires AcceptsAll(p, es) && NoRevivals(p, es)
    ensures OnePerGroup(Run(p, es))
    decreases |es|
  {
    if es != [] {
      ExclusionKept(p, es[0]);
      ResourceGroupExclusion(Apply(p, es[0]), es[1..]);
    }
  }

  lemma RevivedRuns(p: Pipeline, e: Event)
    requires Matched(p.plan, p.jobs) && Accepts(p, e) && e.Report? && e.state == Some(Running)
    ensures Apply(p, e).jobs[e.i].status == Running
  {
    UntriggeredPassShape(p.plan, p.jobs[e.i := p.jobs[e.i].(status := Running)], 0, e.now);
  }

  /** A report that revives a job keeps the groups apart exactly when the job's own group was free. */
  lemma RevivalExcludesIff(p: Pipeline, e: Event)
    requires Matched(p.plan, p.jobs) && DistinctIds(p.plan) && OnePerGroup(p) && Accepts(p, e)
    requires e.Report? && e.state == Some(Running)
    ensures OnePerGroup(Apply(p, e)) <==> GroupFree(p.plan, p.jobs, e.i)
  {
    var q := Apply(p, e);
    ReportShape(p, e);
    RevivedRuns(p, e);
    if !GroupFree(p.plan, p.jobs, e.i) {
      var d: nat :| d < |p.plan| && HoldsGroupOf(p.plan, p.jobs, d, e.i);
      assert d != e.i && q.jobs[d].status == Running && q.jobs[e.i].status == Running;
      assert d < e.i || e.i < d;
    } else {
      forall j: nat, k: nat | j < k < |p.plan| && p.plan[j].group != "" && p.plan[j].group == p.plan[k].group
        ensures q.jobs[j].status != Running || q.jobs[k].status != Running
      {
        assert !HoldsGroupOf(p.plan, p.jobs, j, e.i) && !HoldsGroupOf(p.plan, p.jobs, k, e.i);
      }
    }
  }

  // A group broken.

  /** Two jobs of one group that wait for no other job. */
  predicate Pair(plan: seq<Config>) {
    && |plan| == 2 && plan[0].id != plan[1].id && plan[0].group == plan[1].group != ""
    && forall i | 0 <= i < 2 :: plan[i].needs.None? && plan[i].stage == 0 && plan[i].when == OnSuccess
  }

  predicate PairHas(p: Pipeline, first: Status, second: Status) {
    Pair(p.plan) && |p.jobs| == 2 && p.jobs[0].status == first && p.jobs[1].status == second
  }

  lemma FirstTaken(p: Pipeline, e: Event)
    requires PairHas(p, Pending, Pending) && e == Assign(0, "r", 1)
    ensures Accepts(p, e) && PairHas(Apply(p, e), Running, Pending)
  {
  }

  lemma FirstSucceeds(p: Pipeline, e: Event)
    requires PairHas(p, Running, Pending) && e == Report(0, Some(Success), None, None, 0, 0, 2)
    ensures Accepts(p, e) && PairHas(Apply(p, e), Success, Pending)
  {
    FinalReportRecords(p, e);
    UntriggeredPassShape(p.plan, p.jobs[0 := p.jobs[0].(status := Success)], 0, 2);
  }

  lemma SecondTaken(p: Pipeline, e: Event)
    requires PairHas(p, Success, Pending) && e == Assign(1, "s", 3)
    ensures Accepts(p, e) && PairHas(Apply(p, e), Success, Running)
  {
  }

  lemma FirstRevived(p: Pipeline, e: Event)
    requires PairHas(p, Success, Running) && e == Report(0, Some(Running), None, None, 0, 0, 4)
    ensures DistinctIds(p.plan) && OnePerGroup(p) && Accepts(p, e) && !OnePerGroup(Apply(p, e))
  {
    assert HoldsGroupOf(p.plan, p.jobs, 1, 0);
    RevivalExcludesIff(p, e);
  }

  lemma PairRuns(p: Pipeline, e: Event, f: Event, g: Event)
    requires PairHas(p, Pending, Pending)
    requires e == Assign(0, "r", 1) && f == Report(0, Some(Success), None, None, 0, 0, 2) && g == Assign(1, "s", 3)
    ensures AcceptsAll(p, [e] + [f] + [g]) && PairHas(Run(p, [e] + [f] + [g]), Success, Running)
  {
    FirstTaken(p, e);
    FirstSucceeds(Apply(p, e), f);
    RunOfTwoEvents(p, e, f);
    SecondTaken(Apply(Apply(p, e), f), g);
    RunThenOne(p, [e] + [f], g);
  }

  /** In a new pipeline a job of a group ends, the other one starts, and a late report makes the first run again. */
  lemma RevivalBreaksExclusion()
    ensures var a := PlainJob(1, "a", None, OnSuccess).(group := "g");
            var b := PlainJob(2, "b", None, OnSuccess).(group := "g");
            var p := NewPipeline([a, b]);
            var es := [Assign(0, "r", 1)] + [Report(0, Some(Success), None, None, 0, 0, 2)] + [Assign(1, "s", 3)];
            var late := Report(0, Some(Running), None, None, 0, 0, 4);
            && DistinctIds(p.plan) && AcceptsAll(p, es) && OnePerGroup(Run(p, es))
            && Accepts(Run(p, es), late) && !OnePerGroup(Apply(Run(p, es), late))
  {
    var a := PlainJob(1, "a", None, OnSuccess).(group := "g");
    var b := PlainJob(2, "b", None, OnSuccess).(group := "g");
    var p := NewPipeline([a, b]);
    var e, f, g := Assign(0, "r", 1), Report(0, Some(Success), None, None, 0, 0, 2), Assign(1, "s", 3);
    assert PairHas(p, Pending, Pending);
    PairRuns(p, e, f, g);
    FirstRevived(Run(p, [e] + [f] + [g]), Report(0, Some(Running), None, None, 0, 0, 4));
  }
}
