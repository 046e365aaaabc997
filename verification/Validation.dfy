/** The validation of `needs` when a pipeline is created, and what it leaves possible. */
module Validation {
  import opened CiModel
  import opened KeepingUp
  import opened Progress
  import opened Safety
  import opened Samples
  import opened Steps
  import opened Wrappers

  datatype NeedKey =
    | InProject(project: string, ref: string, job: string)
    | InPipeline(upstream: string, job: string)
    | InPlan(job: string)

  function KeyOf(n: Need): NeedKey {
    if n.project != "" then InProject(n.project, n.ref, n.job)
    else if n.upstream != "" then InPipeline(n.upstream, n.job)
    else InPlan(n.job)
  }

  function NeedsOf(c: Config): seq<Need> {
    c.needs.GetOr([])
  }

  datatype NeedsError =
    | Duplicate(job: string, names: set<string>)
    | NeedsItself(job: string)
    | Missing(job: string, missing: seq<string>)
    | LaterStage(job: string, later: seq<string>)

  // What each complaint is about.

  predicate Repeats(needs: seq<Need>, k: nat)
    requires k < |needs|
  {
    exists m | 0 <= m < k :: KeyOf(needs[m]) == KeyOf(needs[k])
  }

  predicate IsMissing(plan: seq<Config>, n: Need) {
    !n.External() && Peer(plan, n.job) < 0 && !n.optional
  }

  predicate IsLater(plan: seq<Config>, i: nat, n: Need)
    requires i < |plan|
  {
    !n.External() && Peer(plan, n.job) >= 0 && plan[Peer(plan, n.job)].stage > plan[i].stage
  }

  predicate JobNeedsValid(plan: seq<Config>, i: nat)
    requires i < |plan|
  {
    var needs := NeedsOf(plan[i]);
    && (forall k | 0 <= k < |needs| :: !Repeats(needs, k))
    && (forall n | n in needs :: KeyOf(n) != InPlan(plan[i].name))
    && (forall n | n in needs :: !IsMissing(plan, n) && !IsLater(plan, i, n))
  }

  predicate NeedsValid(plan: seq<Config>) {
    forall i: nat | i < |plan| :: JobNeedsValid(plan, i)
  }

  /** The complaint tells the truth about job i, and none that comes before it would. */
  ghost predicate Justified(plan: seq<Config>, i: nat, e: NeedsError)
    requires i < |plan|
  {
    var needs := NeedsOf(plan[i]);
    && e.job == plan[i].name
    && match e
       case Duplicate(_, names) =>
         names != {} && names == set k | 0 <= k < |needs| && Repeats(needs, k) :: needs[k].job
       case NeedsItself(_) =>
         && (forall k | 0 <= k < |needs| :: !Repeats(needs, k))
         && exists n | n in needs :: KeyOf(n) == InPlan(plan[i].name)
       case Missing(_, names) =>
         && (forall k | 0 <= k < |needs| :: !Repeats(needs, k) && KeyOf(needs[k]) != InPlan(plan[i].name))
         && names != []
         && (forall name :: name in names <==> exists n | n in needs :: n.job == name && IsMissing(plan, n))
       case LaterStage(_, names) =>
         && (forall k | 0 <= k < |needs| ::
               !Repeats(needs, k) && KeyOf(needs[k]) != InPlan(plan[i].name) && !IsMissing(plan, needs[k]))
         && names != []
         && (forall name :: name in names <==> exists n | n in needs :: n.job == name && IsLater(plan, i, n))
  }

  /** Both are for the same job of the same pipeline, or project and reference. */
  predicate SameNeed(a: Need, b: Need) {
    && a.job == b.job && a.project == b.project
    && (if a.project != "" then a.ref == b.ref else a.upstream == b.upstream)
  }

  /** The need is for a job of this pipeline, and the last one of its name is in a later stage than job i. */
  predicate NeedsLater(plan: seq<Config>, i: nat, n: Need)
    requires i < |plan|
  {
    && n.project == "" && n.upstream == ""
    && exists d: nat :: d < |plan| && plan[d].name == n.job && plan[d].stage > plan[i].stage &&
                        forall k | d < k < |plan| :: plan[k].name != n.job
  }

  lemma IsLaterIff(plan: seq<Config>, i: nat, n: Need)
    requires i < |plan|
    ensures IsLater(plan, i, n) <==> NeedsLater(plan, i, n)
    ensures IsMissing(plan, n) <==>
            n.project == "" && n.upstream == "" && !n.optional && forall k | 0 <= k < |plan| :: plan[k].name != n.job
  {
  }

  /** The needs of a job are valid when no two are for the same job, none is for the job itself, and each one in the
      same pipeline is for a job that is there, unless it is optional, and not in a later stage. */
  lemma JobNeedsValidIff(plan: seq<Config>, i: nat)
    requires i < |plan|
    ensures JobNeedsValid(plan, i) <==>
            var needs := plan[i].needs.GetOr([]);
            && (forall j, k | 0 <= j < k < |needs| :: !SameNeed(needs[j], needs[k]))
            && (forall n | n in needs :: n.project == "" && n.upstream == "" ==> n.job != plan[i].name)
            && (forall n | n in needs && n.project == "" && n.upstream == "" && !n.optional ::
                  exists d: nat :: d < |plan| && plan[d].name == n.job)
            && (forall n | n in needs :: !NeedsLater(plan, i, n))
  {
    var needs := plan[i].needs.GetOr([]);
    forall k | 0 <= k < |needs|
      ensures Repeats(needs, k) <==> exists j | 0 <= j < k :: SameNeed(needs[j], needs[k])
    {
      assert forall j | 0 <= j < k :: KeyOf(needs[j]) == KeyOf(needs[k]) <==> SameNeed(needs[j], needs[k]);
    }
    forall n | n in needs
      ensures KeyOf(n) == InPlan(plan[i].name) <==> n.project == "" && n.upstream == "" && n.job == plan[i].name
      ensures IsLater(plan, i, n) <==> NeedsLater(plan, i, n)
      ensures IsMissing(plan, n) <==>
              n.project == "" && n.upstream == "" && !n.optional &&
              !exists d: nat :: d < |plan| && plan[d].name == n.job
    {
      IsLaterIff(plan, i, n);
    }
  }

  method CheckJobNeeds(plan: seq<Config>, i: nat) returns (error: Option<NeedsError>)
    requires i < |plan|
    ensures error.None? <==> JobNeedsValid(plan, i)
    ensures error.Some? ==> Justified(plan, i, error.value)
  {
    var needs := NeedsOf(plan[i]);
    var seen: set<NeedKey>, duplicates: set<string> := {}, {};
    for k := 0 to |needs|
      invariant seen == set m | 0 <= m < k :: KeyOf(needs[m])
      invariant duplicates == set m | 0 <= m < k && Repeats(needs, m) :: needs[m].job
    {
      assert KeyOf(needs[k]) in seen <==> Repeats(needs, k);
      if KeyOf(needs[k]) in seen {
        duplicates := duplicates + {needs[k].job};
      }
      seen := seen + {KeyOf(needs[k])};
    }
    if duplicates != {} {
      return Some(Duplicate(plan[i].name, duplicates));
    }
    assert forall k | 0 <= k < |needs| :: Repeats(needs, k) ==> needs[k].job in duplicates;
    if InPlan(plan[i].name) in seen {
      return Some(NeedsItself(plan[i].name));
    }
    var missing: seq<string> := [];
    for k := 0 to |needs|
      invariant forall name :: name in missing <==>
                  exists m | 0 <= m < k :: needs[m].job == name && IsMissing(plan, needs[m])
    {
      if IsMissing(plan, needs[k]) {
        missing := missing + [needs[k].job];
      }
    }
    if missing != [] {
      assert missing[0] in missing;
      return Some(Missing(plan[i].name, missing));
    }
    assert forall m | 0 <= m < |needs| :: IsMissing(plan, needs[m]) ==> needs[m].job in missing;
    var later: seq<string> := [];
    for k := 0 to |needs|
      invariant forall name :: name in later <==>
                  exists m | 0 <= m < k :: needs[m].job == name && IsLater(plan, i, needs[m])
    {
      if IsLater(plan, i, needs[k]) {
        later := later + [needs[k].job];
      }
    }
    if later != [] {
      assert later[0] in later;
      return Some(LaterStage(plan[i].name, later));
    }
    assert forall m | 0 <= m < |needs| :: IsLater(plan, i, needs[m]) ==> needs[m].job in later;
    error := None;
  }

  /** Accepts exactly the valid plans, and else complains truthfully about the first job that is not. */
  method ValidateJobNeeds(plan: seq<Config>) returns (error: Option<NeedsError>)
    ensures error.None? <==> NeedsValid(plan)
    ensures error.Some? ==> exists i | 0 <= i < |plan| ::
              && !JobNeedsValid(plan, i) && Justified(plan, i, error.value)
              && forall k | 0 <= k < i :: JobNeedsValid(plan, k)
  {
    for i := 0 to |plan|
      invariant forall k | 0 <= k < i :: JobNeedsValid(plan, k)
    {
      error := CheckJobNeeds(plan, i);
      if error.Some? {
        return;
      }
    }
    error := None;
  }

  // What validation establishes.

  lemma ValidNeedsPresent(plan: seq<Config>)
    requires NeedsValid(plan)
    ensures NeedsPresent(plan)
  {
    forall i: nat | i < |plan|
      ensures !MissesNeed(plan, i)
    {
      assert JobNeedsValid(plan, i);
      assert forall n | n in NeedsOf(plan[i]) :: !IsMissing(plan, n);
    }
  }

  lemma ValidNeedsLookBack(plan: seq<Config>, i: nat, d: nat)
    requires NeedsValid(plan) && i < |plan| && d < |plan| && DependsOn(plan, i, d)
    ensures plan[d].stage < plan[i].stage || (plan[d].stage == plan[i].stage && plan[i].needs.Some? && d != i)
  {
    assert JobNeedsValid(plan, i);
    if plan[i].needs.Some? {
      var n :| n in NeedsOf(plan[i]) && !n.External() && Peer(plan, n.job) == d;
      assert !IsLater(plan, i, n) && KeyOf(n) != InPlan(plan[i].name);
    }
  }

  /** In a validated plan every knot holds one whose jobs are all of one stage. */
  lemma KnotInsideOneStage(plan: seq<Config>, knot: set<nat>) returns (inner: set<nat>)
    requires NeedsValid(plan) && Knot(plan, knot)
    ensures inner <= knot && Knot(plan, inner)
    ensures forall i, k | i in inner && k in inner :: plan[i].stage == plan[k].stage
  {
    var first := First(plan, seq(|plan|, _ => 0), knot);
    inner := set i | i in knot && plan[i].stage == plan[first].stage;
    forall i {:trigger Tied(plan, inner, i)} | i in inner
      ensures Tied(plan, inner, i)
    {
      assert Tied(plan, knot, i);
      var d :| d in knot && d < |plan| && DependsOn(plan, i, d);
      ValidNeedsLookBack(plan, i, d);
      assert d in inner;
    }
    assert first in inner;
  }

  /** Jobs of one stage that wait for each other. */
  predicate StageKnot(plan: seq<Config>, knot: set<nat>) {
    Knot(plan, knot) && forall i, k | i in knot && k in knot :: plan[i].stage == plan[k].stage
  }

  /** A new pipeline that passed validation, in whose plan the pass over `on_failure` jobs keeps up, never stalls, under
      any polls, promotions and well-behaved reports, exactly when no jobs of one stage wait for each other in a
      circle. */
  lemma ValidatedNeverStallsIff(p: Pipeline)
    requires Created(p) && NeedsValid(p.plan) && PassKeepsUp(p.plan)
    ensures (forall es: seq<Event> | QuietRun(p, es) :: !Stalled(Reached(p, es))) <==>
            forall knot: set<nat> :: !StageKnot(p.plan, knot)
  {
    ValidNeedsPresent(p.plan);
    DeadlockFreeIff(p);
    if !KnotFree(p.plan) {
      var knot: set<nat> :| Knot(p.plan, knot);
      var inner := KnotInsideOneStage(p.plan, knot);
      assert StageKnot(p.plan, inner);
    } else {
      forall knot: set<nat>
        ensures !StageKnot(p.plan, knot)
      {
        assert !Knot(p.plan, knot);
      }
    }
  }

  // The pass over `on_failure` jobs in staged plans.

  predicate NamesDistinct(plan: seq<Config>) {
    forall j, k | 0 <= j < k < |plan| :: plan[j].name != plan[k].name
  }

  /** The usual shape: `on_failure` jobs without `needs`, listed by stage, behind a stage with a job that runs by
      itself,
      with no failure allowed by its exit code in the stages before. */
  predicate Staged(plan: seq<Config>) {
    && (forall i | 0 <= i < |plan| && plan[i].when == OnFailure :: plan[i].needs.None?)
    && (forall i, d | 0 <= i < |plan| && 0 <= d < |plan| && plan[i].when == OnFailure && plan[d].when == OnFailure &&
                      plan[d].stage < plan[i].stage :: d < i)
    && (forall i | 0 <= i < |plan| && plan[i].when == OnFailure ::
          exists d | 0 <= d < |plan| :: plan[d].stage < plan[i].stage && plan[d].when != OnPlay)
    && (forall i, d | 0 <= i < |plan| && 0 <= d < |plan| && plan[i].when == OnFailure &&
                      plan[d].stage < plan[i].stage ::
          CodesDoNotMatter(plan[d]))
  }

  /** What can overtake a job of a validated plan is not in a later stage. */
  lemma BehindLooksBack(plan: seq<Config>, k: nat, f: nat)
    requires NeedsValid(plan) && NamesDistinct(plan) && k < |plan| && f < |plan| && Behind(plan, k, f)
    ensures plan[f].stage <= plan[k].stage
  {
    if NamesNeed(plan[k], plan[f].name) {
      var n :| n in plan[k].needs.value && !n.External() && n.job == plan[f].name;
      assert Peer(plan, n.job) == f;
      assert JobNeedsValid(plan, k) && n in NeedsOf(plan[k]);
      assert !IsLater(plan, k, n);
    }
  }

  /** In a validated plan of that shape the pass keeps up. */
  lemma StagedKeepsUp(plan: seq<Config>)
    requires NeedsValid(plan) && NamesDistinct(plan) && Staged(plan)
    ensures PassKeepsUp(plan)
  {
    forall i: nat | i < |plan| && plan[i].when == OnFailure
      ensures HasWorkBefore(plan, i)
    {
      var d: nat :| d < |plan| && plan[d].stage < plan[i].stage && plan[d].when != OnPlay;
      assert DependsOn(plan, i, d);
    }
    forall i: nat, k: nat, f: nat | i < |plan| && k < |plan| && f < |plan| &&
                                    WatchesFor(plan, i, k) && CanOvertake(plan, k, f)
      ensures DependsOn(plan, i, f)
    {
      BehindLooksBack(plan, k, f);
    }
  }

  /** A validated staged pipeline never stalls exactly when no jobs of one stage wait for each other in a circle. */
  lemma StagedNeverStallsIff(p: Pipeline)
    requires Created(p) && NeedsValid(p.plan) && NamesDistinct(p.plan) && Staged(p.plan)
    ensures (forall es: seq<Event> | QuietRun(p, es) :: !Stalled(Reached(p, es))) <==>
            forall knot: set<nat> :: !StageKnot(p.plan, knot)
  {
    StagedKeepsUp(p.plan);
    ValidatedNeverStallsIff(p);
  }

  /** Validation does not look for cycles: two jobs of one stage that need each other pass it, and are a knot. */
  lemma MutualNeedsPassValidation(plan: seq<Config>)
    requires plan == [PlainJob(1, "a", Needing("b"), OnSuccess), PlainJob(2, "b", Needing("a"), OnSuccess)]
    ensures NeedsValid(plan) && Knot(plan, {0, 1})
  {
    assert plan[0].name[0] == 'a' && plan[1].name[0] == 'b';
    assert plan[..1] == [plan[0]];
    assert Peer(plan[..1], "a") == 0;
    assert Peer(plan, "a") == 0 && Peer(plan, "b") == 1;
    assert NeedsOf(plan[0])[0].job == "b" && NeedsOf(plan[1])[0].job == "a";
    assert JobNeedsValid(plan, 0) && JobNeedsValid(plan, 1);
    assert DependsOn(plan, 0, 1) && DependsOn(plan, 1, 0);
    assert Tied(plan, {0, 1}, 0) && Tied(plan, {0, 1}, 1);
  }
}
