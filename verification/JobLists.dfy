/** What the coordinator's loops gather from the jobs of a pipeline: lists of blocking statuses and of failures. */
module JobLists {
  import opened CiModel
  import opened Steps
  import opened Wrappers

  /** Some of the first n jobs blocks with status s. */
  predicate BlocksWith(p: Pipeline, n: nat, s: Status)
    requires Matched(p.plan, p.jobs) && n <= |p.plan|
  {
    exists k | 0 <= k < n :: !AllowedFailure(p.plan[k], p.jobs[k]) && p.jobs[k].status == s
  }

  /** The list holds the statuses of the blocking jobs among the first n and no other. */
  predicate Lists(p: Pipeline, n: nat, blocking: seq<Status>)
    requires Matched(p.plan, p.jobs) && n <= |p.plan|
  {
    forall s :: s in blocking <==> BlocksWith(p, n, s)
  }

  lemma ListsMore(p: Pipeline, n: nat, blocking: seq<Status>)
    requires Matched(p.plan, p.jobs) && n < |p.plan| && Lists(p, n, blocking)
    ensures Lists(p, n + 1, if AllowedFailure(p.plan[n], p.jobs[n]) then blocking else blocking + [p.jobs[n].status])
  {
    forall s
      ensures BlocksWith(p, n + 1, s) <==>
              BlocksWith(p, n, s) || (!AllowedFailure(p.plan[n], p.jobs[n]) && p.jobs[n].status == s)
    {
    }
  }

  predicate AnyOf(list: seq<Status>, statuses: set<Status>) {
    exists s | s in list :: s in statuses
  }

  predicate AllOf(list: seq<Status>, statuses: set<Status>) {
    forall s | s in list :: s in statuses
  }

  /** A condition on the blocking jobs, asked of their list. */
  lemma BlockingMeaning(p: Pipeline, blocking: seq<Status>, statuses: set<Status>)
    requires Matched(p.plan, p.jobs) && Lists(p, |p.plan|, blocking)
    ensures SomeBlocking(p.plan, p.jobs, statuses) <==> AnyOf(blocking, statuses)
    ensures EveryBlocking(p.plan, p.jobs, statuses) <==> AllOf(blocking, statuses)
  {
    if SomeBlocking(p.plan, p.jobs, statuses) {
      var k: nat :| k < |p.plan| && !AllowedFailure(p.plan[k], p.jobs[k]) && p.jobs[k].status in statuses;
      assert BlocksWith(p, |p.plan|, p.jobs[k].status);
    }
    if AllOf(blocking, statuses) {
      forall k | 0 <= k < |p.plan| && !AllowedFailure(p.plan[k], p.jobs[k])
        ensures p.jobs[k].status in statuses
      {
        assert BlocksWith(p, |p.plan|, p.jobs[k].status);
      }
    }
  }

  function Ended(p: Pipeline, s: Status, now: int): Pipeline {
    p.(status := s, finishedAt := p.finishedAt.OrElse(Some(now)))
  }

  /** The derivation, asked of the list. */
  function DeriveByList(p: Pipeline, empty: bool, blocking: seq<Status>, now: int): Pipeline {
    if empty then p.(status := Pending)
    else if AllOf(blocking, {}) then Ended(p, Success, now)
    else if AllOf(blocking, {Canceled}) then Ended(p, Canceled, now)
    else if AnyOf(blocking, {Canceled}) && !AnyOf(blocking, {Pending, Running, Scheduled}) then Ended(p, Canceled, now)
    else if AnyOf(blocking, {Running}) then
      p.(status := Running, startedAt := p.startedAt.OrElse(Some(now)), finishedAt := None)
    else if AnyOf(blocking, {Pending, Scheduled}) then p.(status := Pending, finishedAt := None)
    else if AnyOf(blocking, {Failed}) then Ended(p, Failed, now)
    else if AllOf(blocking, {Success, Skipped, Manual, Failed}) then Ended(p, Success, now)
    else p.(status := Pending)
  }

  lemma BlockingMeanings(p: Pipeline, blocking: seq<Status>)
    requires Matched(p.plan, p.jobs) && Lists(p, |p.plan|, blocking)
    ensures forall statuses {:trigger SomeBlocking(p.plan, p.jobs, statuses)} ::
              SomeBlocking(p.plan, p.jobs, statuses) <==> AnyOf(blocking, statuses)
    ensures forall statuses {:trigger EveryBlocking(p.plan, p.jobs, statuses)} ::
              EveryBlocking(p.plan, p.jobs, statuses) <==> AllOf(blocking, statuses)
  {
    forall statuses
      ensures SomeBlocking(p.plan, p.jobs, statuses) <==> AnyOf(blocking, statuses)
      ensures EveryBlocking(p.plan, p.jobs, statuses) <==> AllOf(blocking, statuses)
    {
      BlockingMeaning(p, blocking, statuses);
    }
  }

  lemma DeriveByListIsDerive(p: Pipeline, blocking: seq<Status>, now: int)
    requires Matched(p.plan, p.jobs) && Lists(p, |p.plan|, blocking)
    ensures DeriveByList(p, p.jobs == [], blocking, now) == Derive(p, now)
  {
    BlockingMeanings(p, blocking);
  }

  /** The branches of the derivation leave no list of statuses over. */
  lemma BranchesCover(blocking: seq<Status>)
    ensures AnyOf(blocking, {Pending, Running, Scheduled}) ==>
              AnyOf(blocking, {Running}) || AnyOf(blocking, {Pending, Scheduled})
    ensures || AllOf(blocking, {Success, Skipped, Manual, Failed}) || AnyOf(blocking, {Canceled})
            || AnyOf(blocking, {Running}) || AnyOf(blocking, {Pending, Scheduled})
  {
    if !AllOf(blocking, {Success, Skipped, Manual, Failed}) {
      var s :| s in blocking && s !in {Success, Skipped, Manual, Failed};
      match s
      case Canceled => assert s in {Canceled};
      case Running => assert s in {Running};
      case Pending => assert s in {Pending, Scheduled};
      case Scheduled => assert s in {Pending, Scheduled};
      case _ =>
    }
  }

  /** Some of the first n jobs is a required failure of this stage. */
  predicate FailedIn(p: Pipeline, n: nat, stage: int)
    requires Matched(p.plan, p.jobs) && n <= |p.plan|
  {
    exists f | 0 <= f < n :: RequiredFailure(p.plan[f], p.jobs[f]) && p.plan[f].stage == stage
  }

  predicate FailedAs(p: Pipeline, n: nat, name: string)
    requires Matched(p.plan, p.jobs) && n <= |p.plan|
  {
    exists f | 0 <= f < n :: RequiredFailure(p.plan[f], p.jobs[f]) && p.plan[f].name == name
  }

  /** The stages and names are those of the required failures among the first n jobs. */
  ghost predicate FailuresListed(p: Pipeline, n: nat, stages: seq<int>, names: set<string>)
    requires Matched(p.plan, p.jobs) && n <= |p.plan|
  {
    (forall s :: s in stages <==> FailedIn(p, n, s)) && (forall s :: s in names <==> FailedAs(p, n, s))
  }

  lemma NoneOvertaken(p: Pipeline, names: set<string>, now: int)
    requires Matched(p.plan, p.jobs) && FailuresListed(p, |p.plan|, [], names)
    ensures SkipOvertaken(p.plan, p.jobs, now) == p.jobs
  {
    forall i: nat | i < |p.plan|
      ensures !Overtaken(p.plan, p.jobs, i)
    {
      if Overtaken(p.plan, p.jobs, i) {
        var f: nat :| f < |p.plan| && RequiredFailure(p.plan[f], p.jobs[f]);
        assert FailedIn(p, |p.plan|, p.plan[f].stage);
      }
    }
  }

  predicate NeedsOneOf(c: Config, names: set<string>) {
    c.needs.Some? && exists n | n in c.needs.value :: !n.External() && n.job in names
  }

  method Minimum(items: seq<int>) returns (least: int)
    requires items != []
    ensures least in items && forall x | x in items :: least <= x
  {
    least := items[0];
    for i := 1 to |items|
      invariant least in items && forall k | 0 <= k < i :: least <= items[k]
    {
      if items[i] < least {
        least := items[i];
      }
    }
  }

  /** The least failed stage and the failed names say of each job whether a failure overtakes it. */
  lemma OvertakenMeaning(p: Pipeline, stages: seq<int>, names: set<string>, first: int, i: nat)
    requires Matched(p.plan, p.jobs) && i < |p.plan|
    requires first in stages && forall s | s in stages :: first <= s
    requires FailuresListed(p, |p.plan|, stages, names)
    ensures Overtaken(p.plan, p.jobs, i) <==>
            && Waiting(p.jobs[i].status)
            && (p.plan[i].stage > first || NeedsOneOf(p.plan[i], names))
            && !RunsAfterFailure(p.plan[i])
  {
    if p.plan[i].stage > first {
      assert FailedIn(p, |p.plan|, first);
      var f: nat :| f < |p.plan| && RequiredFailure(p.plan[f], p.jobs[f]) && p.plan[f].stage == first;
      assert Behind(p.plan, i, f);
    }
    if NeedsOneOf(p.plan[i], names) {
      var n :| n in p.plan[i].needs.value && !n.External() && n.job in names;
      assert FailedAs(p, |p.plan|, n.job);
      var f: nat :| f < |p.plan| && RequiredFailure(p.plan[f], p.jobs[f]) && p.plan[f].name == n.job;
      assert Behind(p.plan, i, f);
    }
    if Overtaken(p.plan, p.jobs, i) {
      var f: nat :| f < |p.plan| && RequiredFailure(p.plan[f], p.jobs[f]) && Behind(p.plan, i, f);
      assert FailedIn(p, |p.plan|, p.plan[f].stage) && FailedAs(p, |p.plan|, p.plan[f].name);
    }
  }
}
