/** The dependencies a poll's answer carries: for each job whose artifacts the assigned job gets, that job's token. */
module Payload {
  import opened CiModel
  import opened Steps

  function NeededNames(needs: seq<Need>): seq<string> {
    if needs == [] then []
    else (if needs[0].artifacts && !needs[0].External() then [needs[0].job] else []) + NeededNames(needs[1..])
  }

  function EarlierNames(plan: seq<Config>, stage: int): seq<string> {
    if plan == [] then []
    else (if plan[0].stage < stage then [plan[0].name] else []) + EarlierNames(plan[1..], stage)
  }

  /** The names of the jobs whose artifacts job i gets: its `dependencies`, else its own needs with artifacts, else all
      jobs of earlier stages. */
  function DependencyNames(plan: seq<Config>, i: nat): seq<string>
    requires i < |plan|
  {
    match plan[i].dependencies
    case Some(names) => names
    case None =>
      match plan[i].needs
      case Some(needs) => NeededNames(needs)
      case None => EarlierNames(plan, plan[i].stage)
  }

  /** The jobs of these names that have an artifact which has not expired. */
  function Carriers(p: Pipeline, names: seq<string>, now: int): (r: seq<nat>)
    requires Matched(p.plan, p.jobs)
    ensures forall k | 0 <= k < |r| :: r[k] < |p.jobs|
  {
    if names == [] then []
    else
      var d := Peer(p.plan, names[0]);
      (if d >= 0 && HasArtifact(p.jobs[d], now) then [d] else []) + Carriers(p, names[1..], now)
  }

  lemma CarriersFrom(p: Pipeline, names: seq<string>, k: nat, now: int, found: seq<nat>)
    requires Matched(p.plan, p.jobs) && k < |names|
    ensures var d := Peer(p.plan, names[k]);
            found + Carriers(p, names[k..], now) ==
              (if d >= 0 && HasArtifact(p.jobs[d], now) then found + [d] else found) + Carriers(p, names[k + 1..], now)
  {
    assert names[k..][1..] == names[k + 1..];
  }

  /** The jobs whose tokens go out with job i. */
  function PayloadOf(p: Pipeline, i: nat, now: int): (r: seq<nat>)
    requires Matched(p.plan, p.jobs) && i < |p.plan|
  {
    Carriers(p, DependencyNames(p.plan, i), now)
  }

  // What is in the payload.

  /** Job i asks for the artifacts of the job of this name. */
  predicate Asks(plan: seq<Config>, i: nat, name: string)
    requires i < |plan|
  {
    match plan[i].dependencies
    case Some(names) => name in names
    case None =>
      match plan[i].needs
      case Some(needs) => exists n | n in needs :: n.artifacts && !n.External() && n.job == name
      case None => exists c | c in plan :: c.stage < plan[i].stage && c.name == name
  }

  /** Job i gets the artifacts of job d, when there are any: it asks for its name, and d is the last job of that name.
      */
  predicate GetsArtifactsOf(plan: seq<Config>, i: nat, d: nat)
    requires i < |plan| && d < |plan|
  {
    Asks(plan, i, plan[d].name) && Peer(plan, plan[d].name) == d
  }

  lemma {:induction false} NeededNamesAre(needs: seq<Need>, name: string)
    ensures name in NeededNames(needs) <==> exists n | n in needs :: n.artifacts && !n.External() && n.job == name
    decreases |needs|
  {
    if needs != [] {
      NeededNamesAre(needs[1..], name);
      assert needs == [needs[0]] + needs[1..];
    }
  }

  lemma {:induction false} EarlierNamesAre(plan: seq<Config>, stage: int, name: string)
    ensures name in EarlierNames(plan, stage) <==> exists c | c in plan :: c.stage < stage && c.name == name
    decreases |plan|
  {
    if plan != [] {
      EarlierNamesAre(plan[1..], stage, name);
      assert plan == [plan[0]] + plan[1..];
    }
  }

  lemma DependencyNamesAre(plan: seq<Config>, i: nat, name: string)
    requires i < |plan|
    ensures name in DependencyNames(plan, i) <==> Asks(plan, i, name)
  {
    if plan[i].needs.Some? {
      NeededNamesAre(plan[i].needs.value, name);
    }
    EarlierNamesAre(plan, plan[i].stage, name);
  }

  /** There is an artifact, and the first one does not expire, or does so later than now. */
  predicate StillThere(artifacts: seq<Artifact>, now: int) {
    artifacts != [] && match artifacts[0].expiresAt case None => true case Some(time) => now < time
  }

  lemma {:induction false} CarriersAre(p: Pipeline, names: seq<string>, now: int, d: nat)
    requires Matched(p.plan, p.jobs) && d < |p.jobs|
    ensures d in Carriers(p, names, now) <==>
            HasArtifact(p.jobs[d], now) && p.plan[d].name in names && Peer(p.plan, p.plan[d].name) == d
    decreases |names|
  {
    if names != [] {
      CarriersAre(p, names[1..], now, d);
    }
  }

  /** A job's token goes out with job i exactly when i gets its artifacts and it has one that has not expired, whatever
      its status. */
  lemma PayloadIff(p: Pipeline, i: nat, now: int, d: nat)
    requires Matched(p.plan, p.jobs) && i < |p.plan| && d < |p.plan|
    ensures d in PayloadOf(p, i, now) <==> GetsArtifactsOf(p.plan, i, d) && StillThere(p.jobs[d].artifacts, now)
  {
    CarriersAre(p, DependencyNames(p.plan, i), now, d);
    DependencyNamesAre(p.plan, i, p.plan[d].name);
  }

  lemma {:induction false} CarriersStay(p: Pipeline, q: Pipeline, names: seq<string>, now: int)
    requires Matched(p.plan, p.jobs) && Matched(q.plan, q.jobs) && q.plan == p.plan
    requires forall k | 0 <= k < |p.jobs| :: q.jobs[k].artifacts == p.jobs[k].artifacts
    ensures Carriers(q, names, now) == Carriers(p, names, now)
    decreases |names|
  {
    if names != [] {
      CarriersStay(p, q, names[1..], now);
    }
  }

  /** The answer is put together after the job is taken, which makes no difference. */
  lemma AssignKeepsPayload(p: Pipeline, e: Event)
    requires Matched(p.plan, p.jobs) && Accepts(p, e) && e.Assign?
    ensures PayloadOf(Apply(p, e), e.i, e.now) == PayloadOf(p, e.i, e.now)
  {
    CarriersStay(p, Apply(p, e), DependencyNames(p.plan, e.i), e.now);
  }
}
