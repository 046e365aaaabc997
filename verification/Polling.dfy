/** What a poll asks of the other jobs, over every run. */
module Polling {
  import opened CiModel
  import opened Meaning
  import opened Safety
  import opened Steps
  import opened Wrappers

  lemma {:induction false} RunInParts(p: Pipeline, es: seq<Event>, k: nat)
    requires Matched(p.plan, p.jobs) && AcceptsAll(p, es) && k <= |es|
    ensures AcceptsAll(p, es[..k])
    ensures k < |es| ==> Accepts(Run(p, es[..k]), es[k])
    decreases k
  {
    if k == 0 {
      assert es[..0] == [];
    } else {
      assert es[..k][1..] == es[1..][..k - 1] && es[..k][0] == es[0];
      RunInParts(Apply(p, es[0]), es[1..], k - 1);
    }
  }

  /** Over every run of every kind of request a poll takes a job only while no other job hinders it. */
  lemma PollsInOrder(p: Pipeline, es: seq<Event>, k: nat)
    requires Matched(p.plan, p.jobs) && AcceptsAll(p, es) && k < |es| && es[k].Assign?
    ensures es[k].i < |p.plan| && AcceptsAll(p, es[..k])
    ensures var jobs := Run(p, es[..k]).jobs;
            jobs[es[k].i].status == Pending && Unhindered(p.plan, jobs, es[k].i)
  {
    RunInParts(p, es, k);
    UnhinderedIff(p.plan, Run(p, es[..k]).jobs, es[k].i);
  }

  /** What makes something else of a canceled job: a retry, or a late report of another state. */
  predicate Revives(e: Event, d: nat) {
    || (e.RetryJob? && e.i == d)
    || e.RetryPipeline?
    || (e.Report? && e.i == d && e.state.Some? && e.state != Some(Canceled))
  }

  lemma CanceledStaysReported(p: Pipeline, e: Event, d: nat)
    requires Matched(p.plan, p.jobs) && Accepts(p, e) && d < |p.plan| && !Revives(e, d) && e.Report?
    requires p.jobs[d].status == Canceled
    ensures Apply(p, e).jobs[d].status == Canceled
  {
    ReportShape(p, e);
    if e.i == d {
      UntriggeredPassShape(p.plan, p.jobs[d := p.jobs[d].(status := Canceled)], 0, e.now);
      var reported := ReportedJobs(p, e.i, e.state, e.reason, e.exitCode, e.size, e.now);
      assert reported[d].status == Canceled;
      assert Apply(p, e).jobs == Stamped(reported, d, e.now);
    }
  }

  lemma CanceledStays(p: Pipeline, e: Event, d: nat)
    requires Matched(p.plan, p.jobs) && Accepts(p, e) && d < |p.plan| && !Revives(e, d)
    requires p.jobs[d].status == Canceled
    ensures Apply(p, e).jobs[d].status == Canceled
  {
    if e.Report? {
      CanceledStaysReported(p, e, d);
    }
  }

  /** Over every run a job that stays canceled is still so, and no job that waits for it is taken. */
  lemma {:induction false} CanceledHoldsBack(p: Pipeline, es: seq<Event>, d: nat)
    requires Matched(p.plan, p.jobs) && AcceptsAll(p, es) && d < |p.plan| && p.jobs[d].status == Canceled
    requires forall k | 0 <= k < |es| :: !Revives(es[k], d)
    ensures Run(p, es).jobs[d].status == Canceled
    ensures forall k | 0 <= k < |es| && es[k].Assign? && es[k].i < |p.plan| :: !ComesAfter(p.plan, es[k].i, d)
    decreases |es|
  {
    if es != [] {
      assert !Revives(es[0], d);
      CanceledStays(p, es[0], d);
      CanceledHoldsBack(Apply(p, es[0]), es[1..], d);
      if es[0].Assign? {
        UnhinderedIff(p.plan, p.jobs, es[0].i);
      }
      assert forall k | 1 <= k < |es| :: es[k] == es[1..][k - 1];
    }
  }
}
