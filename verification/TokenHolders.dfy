/** Who holds a job's token: it goes out to the runner that takes the job, and with the job's artifacts to others. */
module TokenHolders {
  import opened CiModel
  import opened Fencing
  import opened Payload
  import opened Safety
  import opened Samples
  import opened Steps
  import opened Wrappers

  /** Each token is with one runner. */
  predicate OneHolder(handed: seq<Handout>) {
    forall j, k | 0 <= j < |handed| && 0 <= k < |handed| && handed[j].token == handed[k].token ::
      handed[j].runner == handed[k].runner
  }

  /** The token has gone out to nobody, or only to this runner. */
  predicate HeldByNoOther(handed: seq<Handout>, token: nat, runner: string) {
    forall k | 0 <= k < |handed| && handed[k].token == token :: handed[k].runner == runner
  }

  /** No other runner holds a token of the answer, the job's own or one of its payload. */
  predicate AnswersSafely(w: World, e: Event)
    requires Matched(w.p.plan, w.p.jobs) && Accepts(w.p, e)
  {
    forall t | t in Answered(w.p, e) :: HeldByNoOther(w.handed, t, Asker(e))
  }

  lemma HandoutsHeld(handed: seq<Handout>, tokens: seq<nat>, runner: string)
    requires OneHolder(handed)
    ensures OneHolder(handed + Handouts(tokens, runner)) <==> forall t | t in tokens :: HeldByNoOther(handed, t, runner)
  {
    var all := handed + Handouts(tokens, runner);
    if OneHolder(all) {
      forall t, k | t in tokens && 0 <= k < |handed| && handed[k].token == t
        ensures handed[k].runner == runner
      {
        var m: nat :| m < |tokens| && tokens[m] == t;
        assert all[k] == handed[k] && all[|handed| + m] == Handout(t, runner);
      }
    } else {
      assert forall m | 0 <= m < |tokens| :: tokens[m] in tokens && all[|handed| + m] == Handout(tokens[m], runner);
    }
  }

  /** After any request each token is still with one runner exactly when no other runner holds a token of its answer. */
  lemma OneHolderIff(w: World, r: Request)
    requires Matched(w.p.plan, w.p.jobs) && |w.tags| == |w.p.jobs| && Admits(w, r) && OneHolder(w.handed)
    ensures OneHolder(Next(w, r).handed) <==> AnswersSafely(w, r.event)
  {
    HandoutsHeld(w.handed, Answered(w.p, r.event), Asker(r.event));
  }

  /** A poll hands out the token of the job and those of the jobs whose artifacts it gets, whatever their status. */
  lemma AnsweredIff(p: Pipeline, e: Event, t: nat)
    requires Matched(p.plan, p.jobs) && Accepts(p, e) && e.Assign?
    ensures t in Answered(p, e) <==>
            || t == p.jobs[e.i].token
            || exists d: nat ::
                 d < |p.jobs| && GetsArtifactsOf(p.plan, e.i, d) && StillThere(p.jobs[d].artifacts, e.now) &&
                 p.jobs[d].token == t
  {
    var payload := PayloadOf(p, e.i, e.now);
    var tokens := Tokens(p, payload);
    if t in tokens {
      var k: nat :| k < |tokens| && tokens[k] == t;
      assert payload[k] in payload;
      PayloadIff(p, e.i, e.now, payload[k]);
    }
    if d: nat :| d < |p.jobs| && GetsArtifactsOf(p.plan, e.i, d) && StillThere(p.jobs[d].artifacts, e.now) &&
                 p.jobs[d].token == t {
      PayloadIff(p, e.i, e.now, d);
      var k: nat :| k < |payload| && payload[k] == d;
      assert tokens[k] == t;
    }
  }

  predicate AdmittedRun(w: World, rs: seq<Request>)
    requires Matched(w.p.plan, w.p.jobs) && |w.tags| == |w.p.jobs|
    decreases |rs|
  {
    rs == [] || (Admits(w, rs[0]) && AdmittedRun(Next(w, rs[0]), rs[1..]))
  }

  function Ended(w: World, rs: seq<Request>): (v: World)
    requires Matched(w.p.plan, w.p.jobs) && |w.tags| == |w.p.jobs| && AdmittedRun(w, rs)
    decreases |rs|
  {
    if rs == [] then w else Ended(Next(w, rs[0]), rs[1..])
  }

  predicate AllAnswerSafely(w: World, rs: seq<Request>)
    requires Matched(w.p.plan, w.p.jobs) && |w.tags| == |w.p.jobs| && AdmittedRun(w, rs)
    decreases |rs|
  {
    rs == [] || (AnswersSafely(w, rs[0].event) && AllAnswerSafely(Next(w, rs[0]), rs[1..]))
  }

  lemma {:induction false} HandedGrows(w: World, rs: seq<Request>)
    requires Matched(w.p.plan, w.p.jobs) && |w.tags| == |w.p.jobs| && AdmittedRun(w, rs)
    ensures w.handed <= Ended(w, rs).handed
    decreases |rs|
  {
    if rs != [] {
      HandedGrows(Next(w, rs[0]), rs[1..]);
    }
  }

  /** Over every run of every kind of request each token is with one runner exactly when no answer of the run holds a
      token that another runner had by then. */
  lemma {:induction false} OneHolderInRunsIff(w: World, rs: seq<Request>)
    requires Matched(w.p.plan, w.p.jobs) && |w.tags| == |w.p.jobs| && AdmittedRun(w, rs) && OneHolder(w.handed)
    ensures OneHolder(Ended(w, rs).handed) <==> AllAnswerSafely(w, rs)
    decreases |rs|
  {
    if rs != [] {
      OneHolderIff(w, rs[0]);
      if AnswersSafely(w, rs[0].event) {
        OneHolderInRunsIff(Next(w, rs[0]), rs[1..]);
      } else if OneHolder(Ended(w, rs).handed) {
        HandedGrows(Next(w, rs[0]), rs[1..]);
      }
    }
  }

  // Without artifacts.

  predicate Bare(w: World) {
    w.handed == w.taken && forall k | 0 <= k < |w.p.jobs| :: w.p.jobs[k].artifacts == []
  }

  predicate NoUploads(rs: seq<Request>) {
    forall k | 0 <= k < |rs| :: !rs[k].event.Upload?
  }

  lemma NoPayload(p: Pipeline, i: nat, now: int)
    requires Matched(p.plan, p.jobs) && i < |p.plan| && forall k | 0 <= k < |p.jobs| :: p.jobs[k].artifacts == []
    ensures PayloadOf(p, i, now) == []
  {
    if PayloadOf(p, i, now) != [] {
      var d := PayloadOf(p, i, now)[0];
      assert d in PayloadOf(p, i, now);
      PayloadIff(p, i, now, d);
    }
  }

  lemma StaysBare(w: World, r: Request)
    requires FenceInv(w) && Bare(w) && Admits(w, r) && !r.event.Upload?
    ensures Bare(Next(w, r))
  {
    if r.event.Report? {
      ReportShape(w.p, r.event);
      ReportKeepsRest(w.p, r.event);
    }
    if r.event.Assign? {
      NoPayload(w.p, r.event.i, r.event.now);
    }
  }

  lemma {:induction false} BareInRuns(w: World, rs: seq<Request>)
    requires FenceInv(w) && Bare(w) && FencedRun(w, rs) && NoUploads(rs)
    ensures Bare(After(w, rs))
    decreases |rs|
  {
    if rs != [] {
      StaysBare(w, rs[0]);
      FenceKept(w, rs[0]);
      assert NoUploads(rs[1..]);
      BareInRuns(Next(w, rs[0]), rs[1..]);
    }
  }

  /** Where no artifact is uploaded no token goes out twice at all. */
  lemma UnsharedTokensGoOutOnce(w: World, rs: seq<Request>)
    requires Opening(w) && FencedRun(w, rs) && NoUploads(rs)
    ensures var handed := After(w, rs).handed;
            forall j, k | 0 <= j < k < |handed| :: handed[j].token != handed[k].token
  {
    OpeningIsFenced(w);
    FenceInRuns(w, rs);
    BareInRuns(w, rs);
  }

  // Tokens at two places.

  /** Two ordinary jobs, of which the second one gets the artifacts of the first. */
  predicate Linked(plan: seq<Config>) {
    && |plan| == 2 && GetsArtifactsOf(plan, 1, 0) && plan[0].needs.None? && plan[0].stage == 0
    && forall i | 0 <= i < 2 :: plan[i].when == OnSuccess && plan[i].group == ""
  }

  /** The status of the jobs, and the token and the artifacts of the first. */
  datatype Scene = Scene(first: Status, second: Status, token: nat, artifacts: seq<Artifact>)

  /** The second job waits, and the first one has this status, this token and these artifacts. */
  predicate Stands(w: World, status: Status, token: nat, artifacts: seq<Artifact>) {
    && Linked(w.p.plan) && |w.p.jobs| == |w.tags| == 2 && w.p.jobs[1].artifacts == []
    && Scene(w.p.jobs[0].status, w.p.jobs[1].status, w.p.jobs[0].token, w.p.jobs[0].artifacts) ==
       Scene(status, Pending, token, artifacts)
  }

  lemma FirstTaken(w: World, r: Request)
    requires Stands(w, Pending, 0, []) && r == Request(Assign(0, "r", 1), 0) && w.p.plan[1].stage == 1
    ensures Admits(w, r) && Stands(Next(w, r), Running, 0, [])
    ensures Next(w, r).handed == w.handed + [Handout(0, "r")] && Next(w, r).issued == w.issued
  {
    NoPayload(w.p, 0, 1);
  }

  lemma FirstSucceeds(w: World, r: Request)
    requires Stands(w, Running, 0, [Artifact(None)]) && r == Request(Report(0, Some(Success), None, None, 0, 5, 2), 0)
    ensures Admits(w, r) && Stands(Next(w, r), Success, 0, [Artifact(None)])
    ensures Next(w, r).handed == w.handed && Next(w, r).issued == w.issued + {5}
  {
    FinalReportRecords(w.p, r.event);
    ReportKeepsRest(w.p, r.event);
    UntriggeredPassShape(w.p.plan, w.p.jobs[0 := w.p.jobs[0].(status := Success)], 0, 2);
  }

  lemma HandedWith(w: World, r: Request, token: nat)
    requires Matched(w.p.plan, w.p.jobs) && |w.tags| == |w.p.jobs| && Admits(w, r)
    requires token in Answered(w.p, r.event)
    ensures w.handed <= Next(w, r).handed && Handout(token, Asker(r.event)) in Next(w, r).handed
  {
    var tokens := Answered(w.p, r.event);
    var k: nat :| k < |tokens| && tokens[k] == token;
    assert Next(w, r).handed[|w.handed| + k] == Handout(token, Asker(r.event));
  }

  lemma SecondTaken(w: World, r: Request, status: Status, token: nat)
    requires Stands(w, status, token, [Artifact(None)]) && r == Request(Assign(1, "s", 4), 0)
    requires (status == Success && w.p.plan[1].needs.None?) || w.p.plan[1].needs == Some([])
    ensures Admits(w, r) && w.handed <= Next(w, r).handed
    ensures Next(w, r).p.jobs[0] == w.p.jobs[0] && Handout(token, "s") in Next(w, r).handed
  {
    assert StageUnblocked(w.p.plan, w.p.jobs, 1) && GroupFree(w.p.plan, w.p.jobs, 1);
    AnsweredIff(w.p, r.event, token);
    HandedWith(w, r, token);
  }

  /** The first job is taken, uploads an artifact and succeeds. */
  lemma FirstEnds(w: World, taken: Request, upload: Request, success: Request)
    requires Stands(w, Pending, 0, []) && w.p.plan[1].stage == 1 && 5 !in w.issued && 0 in w.issued
    requires taken == Request(Assign(0, "r", 1), 0) && upload == Request(Upload(0, None), 0)
    requires success == Request(Report(0, Some(Success), None, None, 0, 5, 2), 0)
    ensures FencedRun(w, [taken] + [upload] + [success])
    ensures var v := After(w, [taken] + [upload] + [success]);
            && Stands(v, Success, 0, [Artifact(None)])
            && v.handed == w.handed + [Handout(0, "r")] && v.issued == w.issued + {5}
  {
    assert After(w, []) == w && [] + [taken] == [taken];
    FirstTaken(w, taken);
    FencedThenOne(w, [], taken);
    FencedThenOne(w, [taken], upload);
    FirstSucceeds(After(w, [taken] + [upload]), success);
    FencedThenOne(w, [taken] + [upload], success);
  }

  function BuildAndTest(): seq<Config> {
    [PlainJob(1, "build", None, OnSuccess), PlainJob(2, "test", None, OnSuccess).(stage := 1)]
  }

  function BuildAndDeploy(): seq<Config> {
    [PlainJob(1, "build", None, OnSuccess),
     PlainJob(2, "deploy", Some([]), OnSuccess).(stage := 1, dependencies := Some(["build"]))]
  }

  /** A new pipeline of two jobs whose tokens are 0 and 1. */
  function NewWorld(plan: seq<Config>): World {
    World(NewPipeline(plan), [], [], {0, 1}, [[], []])
  }

  lemma SampleStands(plan: seq<Config>)
    requires plan == BuildAndTest() || plan == BuildAndDeploy()
    ensures Opening(NewWorld(plan)) && Stands(NewWorld(plan), Pending, 0, [])
  {
    assert plan[0].name[0] == 'b' && plan[1].name[0] != 'b';
    assert plan[0] in plan && plan[0].stage < plan[1].stage;
    assert Peer(plan, plan[0].name) == Peer(plan[..1], plan[0].name) == 0;
    assert plan == BuildAndDeploy() ==> ["build"][0] == plan[0].name;
  }

  /** Without any report of `pending`: a runner builds and uploads, and the runner of the next stage gets the token of
      the build with its artifact. */
  lemma ArtifactSharesToken(taken: Request, upload: Request, success: Request, next: Request)
    requires taken == Request(Assign(0, "r", 1), 0) && upload == Request(Upload(0, None), 0)
    requires success == Request(Report(0, Some(Success), None, None, 0, 5, 2), 0)
    requires next == Request(Assign(1, "s", 4), 0)
    ensures var w, rs := NewWorld(BuildAndTest()), [taken] + [upload] + [success] + [next];
            Opening(w) && FencedRun(w, rs) && !OneHolder(After(w, rs).handed)
  {
    var w, rs := NewWorld(BuildAndTest()), [taken] + [upload] + [success];
    SampleStands(BuildAndTest());
    FirstEnds(w, taken, upload, success);
    SecondTaken(After(w, rs), next, Success, 0);
    FencedThenOne(w, rs, next);
    assert Next(After(w, rs), next).handed[0] == Handout(0, "r");
  }

  lemma RetriedTokenGoesOut(w: World, again: Request, next: Request)
    requires Stands(w, Success, 0, [Artifact(None)]) && w.p.plan[1].needs == Some([]) && 7 !in w.issued
    requires again == Request(RetryJob(0, 7, 3), 0) && next == Request(Assign(1, "s", 4), 0)
    ensures FencedRun(w, [again] + [next])
    ensures var v := After(w, [again] + [next]);
            v.p.jobs[0].status == Pending && v.p.jobs[0].token == 7 && Handout(7, "s") in v.handed
  {
    assert After(w, []) == w && [] + [again] == [again];
    FencedThenOne(w, [], again);
    SecondTaken(Next(w, again), next, Pending, 7);
    FencedThenOne(w, [again], next);
  }

  /** A retried build keeps its artifact, and its new token goes out with that before the build is taken again. */
  lemma UnclaimedTokenGoesOut(taken: Request, upload: Request, success: Request, again: Request, next: Request)
    requires taken == Request(Assign(0, "r", 1), 0) && upload == Request(Upload(0, None), 0)
    requires success == Request(Report(0, Some(Success), None, None, 0, 5, 2), 0)
    requires again == Request(RetryJob(0, 7, 3), 0) && next == Request(Assign(1, "s", 4), 0)
    ensures var w, rs, more := NewWorld(BuildAndDeploy()), [taken] + [upload] + [success], [again] + [next];
            && Opening(w) && FencedRun(w, rs) && FencedRun(After(w, rs), more)
            && var v := After(After(w, rs), more);
               v.p.jobs[0].status == Pending && v.p.jobs[0].token == 7 && Handout(7, "s") in v.handed
  {
    var w, rs := NewWorld(BuildAndDeploy()), [taken] + [upload] + [success];
    SampleStands(BuildAndDeploy());
    FirstEnds(w, taken, upload, success);
    RetriedTokenGoesOut(After(w, rs), again, next);
  }
}
