/** Job tokens fence off stale attempts: over every run no two polls assign a job under one token, and a stored trace
    holds only bytes sent with the job's current token. */
module Fencing {
  import opened CiModel
  import opened Payload
  import opened Safety
  import opened Samples
  import opened Steps
  import opened Wrappers

  /** A request with the job token it carries. */
  datatype Request = Request(event: Event, sent: nat)

  datatype Handout = Handout(token: nat, runner: string)

  /** A pipeline with its history: the tokens under which polls have assigned its jobs, all the tokens of its jobs that
      have gone out to runners, those ever issued, and for each stored trace byte the token that came with it. */
  datatype World = World(p: Pipeline, taken: seq<Handout>, handed: seq<Handout>, issued: set<nat>, tags: seq<seq<nat>>)

  /** A report, a trace chunk or an artifact is accepted only with the token the job has now. */
  predicate Admits(w: World, r: Request)
    requires Matched(w.p.plan, w.p.jobs)
  {
    && Accepts(w.p, r.event)
    && (r.event.Report? || r.event.AppendTrace? || r.event.Upload? ==> r.sent == w.p.jobs[r.event.i].token)
  }

  function Minted(e: Event): seq<nat> {
    match e
    case Report(_, _, _, _, _, minted, _) => [minted]
    case RetryJob(_, minted, _) => [minted]
    case RequeueJob(_, minted, _) => [minted]
    case RetryPipeline(mintedTokens, _) => mintedTokens
    case _ => []
  }

  /** The tokens a step mints are new and different: they are drawn at random from a space too large to repeat. */
  predicate MintsFresh(w: World, e: Event) {
    && (forall k | 0 <= k < |Minted(e)| :: Minted(e)[k] !in w.issued)
    && (forall j, k | 0 <= j < k < |Minted(e)| :: Minted(e)[j] != Minted(e)[k])
  }

  function TagsAfter(w: World, r: Request, q: Pipeline, k: nat): seq<nat>
    requires Matched(w.p.plan, w.p.jobs) && Admits(w, r) && |w.tags| == |w.p.jobs| == |q.jobs| && k < |q.jobs|
  {
    if r.event.AppendTrace? && r.event.i == k then
      (if r.event.start <= |w.tags[k]| then w.tags[k][..r.event.start] else w.tags[k])
      + seq(|r.event.chunk|, _ => r.sent)
    else if q.jobs[k].trace == [] then []
    else w.tags[k]
  }

  function Tokens(p: Pipeline, jobs: seq<nat>): (r: seq<nat>)
    requires forall k | 0 <= k < |jobs| :: jobs[k] < |p.jobs|
    ensures |r| == |jobs| && forall k | 0 <= k < |r| :: r[k] == p.jobs[jobs[k]].token
  {
    if jobs == [] then [] else [p.jobs[jobs[0]].token] + Tokens(p, jobs[1..])
  }

  /** The tokens in the answer: of the assigned job and of those whose artifacts it gets, or of the job whose artifacts
      a job of another pipeline gets. */
  function Answered(p: Pipeline, e: Event): seq<nat>
    requires Matched(p.plan, p.jobs) && Accepts(p, e)
  {
    match e
    case Assign(i, _, now) => [p.jobs[i].token] + Tokens(p, PayloadOf(p, i, now))
    case Lend(i, _, _) => [p.jobs[i].token]
    case _ => []
  }

  /** The runner that gets the answer. */
  function Asker(e: Event): string {
    match e
    case Assign(_, runner, _) => runner
    case Lend(_, runner, _) => runner
    case _ => ""
  }

  function Handouts(tokens: seq<nat>, runner: string): (r: seq<Handout>) {
    seq(|tokens|, k requires 0 <= k < |tokens| => Handout(tokens[k], runner))
  }

  function Next(w: World, r: Request): (v: World)
    requires Matched(w.p.plan, w.p.jobs) && |w.tags| == |w.p.jobs| && Admits(w, r)
    ensures v.p.plan == w.p.plan && Matched(v.p.plan, v.p.jobs) && |v.tags| == |v.p.jobs|
  {
    var q := Apply(w.p, r.event);
    World(q,
          w.taken + (if r.event.Assign? then [Handout(w.p.jobs[r.event.i].token, r.event.runner)] else []),
          w.handed + Handouts(Answered(w.p, r.event), Asker(r.event)),
          w.issued + (set t | t in Minted(r.event)),
          seq(|q.jobs|, k requires 0 <= k < |q.jobs| => TagsAfter(w, r, q, k)))
  }

  // Assignments and traces.

  predicate AssignedOnce(w: World) {
    forall j, k | 0 <= j < k < |w.taken| :: w.taken[j].token != w.taken[k].token
  }

  predicate WasAssigned(w: World, token: nat) {
    exists k | 0 <= k < |w.taken| :: w.taken[k].token == token
  }

  /** Every stored trace byte of every job came with the token the job has now. */
  predicate TracesFenced(w: World) {
    && |w.tags| == |w.p.jobs|
    && forall k | 0 <= k < |w.p.jobs| ::
         |w.tags[k]| == |w.p.jobs[k].trace| && forall b | 0 <= b < |w.tags[k]| :: w.tags[k][b] == w.p.jobs[k].token
  }

  /** A job in this status can still be assigned under the token it has. */
  predicate Unclaimed(s: Status) {
    s == Pending || s == Scheduled || s == Manual
  }

  predicate TokensApart(w: World) {
    && (forall k | 0 <= k < |w.p.jobs| :: w.p.jobs[k].token in w.issued)
    && (forall k | 0 <= k < |w.taken| :: w.taken[k].token in w.issued)
    && (forall j, k | 0 <= j < k < |w.p.jobs| :: w.p.jobs[j].token != w.p.jobs[k].token)
    && (forall k | 0 <= k < |w.p.jobs| && Unclaimed(w.p.jobs[k].status) :: !WasAssigned(w, w.p.jobs[k].token))
  }

  predicate FenceInv(w: World) {
    Matched(w.p.plan, w.p.jobs) && TokensApart(w) && AssignedOnce(w) && TracesFenced(w)
  }

  /** Runners never report `pending`. */
  predicate NoPendingReport(e: Event) {
    e.Report? ==> e.state != Some(Pending)
  }

  /** A step leaves a job its token and trace, or gives it a minted token and an empty trace; a job that becomes
      unclaimed was so before or has a minted token. */
  predicate Fenced(p: Pipeline, e: Event, q: Pipeline, k: nat)
    requires k < |p.jobs| && k < |q.jobs|
  {
    var before, after := p.jobs[k], q.jobs[k];
    || (&& after.token == before.token
        && (Unclaimed(after.status) ==> Unclaimed(before.status) && !(e.Assign? && e.i == k))
        && ((e.AppendTrace? && e.i == k) || after.trace == before.trace || after.trace == []))
    || (&& after.trace == [] && !e.Assign? && !e.AppendTrace?
        && (if e.RetryPipeline? then k < |e.mintedTokens| && after.token == e.mintedTokens[k]
            else Minted(e) == [after.token] && (e.Report? || e.RetryJob? || e.RequeueJob?) && e.i == k))
  }

  lemma RestartFenced(p: Pipeline, e: Event, k: nat)
    requires Matched(p.plan, p.jobs) && Accepts(p, e) && k < |p.plan|
    requires e.RetryJob? || e.RequeueJob? || e.RetryPipeline?
    ensures Fenced(p, e, Apply(p, e), k)
  {
  }

  lemma StepFenced(p: Pipeline, e: Event, k: nat)
    requires Matched(p.plan, p.jobs) && Accepts(p, e) && NoPendingReport(e) && k < |p.plan|
    ensures Fenced(p, e, Apply(p, e), k)
  {
    if e.Report? {
      ReportShape(p, e);
    } else if e.RetryJob? || e.RequeueJob? || e.RetryPipeline? {
      RestartFenced(p, e, k);
    }
  }

  lemma AssignmentsKept(w: World, r: Request)
    requires FenceInv(w) && Admits(w, r)
    ensures AssignedOnce(Next(w, r))
    ensures forall t: nat :: WasAssigned(Next(w, r), t) <==>
              WasAssigned(w, t) || (r.event.Assign? && t == w.p.jobs[r.event.i].token)
  {
    var v := Next(w, r);
    forall t: nat
      ensures WasAssigned(v, t) <==> WasAssigned(w, t) || (r.event.Assign? && t == w.p.jobs[r.event.i].token)
    {
      if WasAssigned(w, t) {
        var k: nat :| k < |w.taken| && w.taken[k].token == t;
        assert v.taken[k].token == t;
      }
      if r.event.Assign? && t == w.p.jobs[r.event.i].token {
        assert v.taken[|w.taken|].token == t;
      }
    }
  }

  lemma TokensKept(w: World, r: Request)
    requires FenceInv(w) && Admits(w, r) && MintsFresh(w, r.event)
    requires forall k: nat | k < |w.p.plan| :: Fenced(w.p, r.event, Next(w, r).p, k)
    ensures TokensApart(Next(w, r))
  {
    var v := Next(w, r);
    AssignmentsKept(w, r);
    forall k: nat | k < |w.p.plan|
      ensures v.p.jobs[k].token in v.issued
      ensures v.p.jobs[k].token == w.p.jobs[k].token || v.p.jobs[k].token in Minted(r.event)
      ensures Unclaimed(v.p.jobs[k].status) ==> !WasAssigned(v, v.p.jobs[k].token)
    {
      assert Fenced(w.p, r.event, v.p, k);
    }
    forall j: nat, k: nat | j < k < |w.p.plan|
      ensures v.p.jobs[j].token != v.p.jobs[k].token
    {
      assert Fenced(w.p, r.event, v.p, j) && Fenced(w.p, r.event, v.p, k);
    }
  }

  lemma TracesKept(w: World, r: Request)
    requires FenceInv(w) && Admits(w, r)
    requires forall k: nat | k < |w.p.plan| :: Fenced(w.p, r.event, Next(w, r).p, k)
    ensures TracesFenced(Next(w, r))
  {
    var v := Next(w, r);
    forall k: nat | k < |w.p.plan|
      ensures |v.tags[k]| == |v.p.jobs[k].trace| && forall b | 0 <= b < |v.tags[k]| :: v.tags[k][b] == v.p.jobs[k].token
    {
      assert Fenced(w.p, r.event, v.p, k);
      assert v.tags[k] == TagsAfter(w, r, v.p, k);
    }
  }

  lemma FenceKept(w: World, r: Request)
    requires FenceInv(w) && Admits(w, r) && NoPendingReport(r.event) && MintsFresh(w, r.event)
    ensures FenceInv(Next(w, r))
  {
    var v := Next(w, r);
    AssignmentsKept(w, r);
    forall k: nat | k < |w.p.plan|
      ensures Fenced(w.p, r.event, v.p, k)
    {
      StepFenced(w.p, r.event, k);
    }
    TokensKept(w, r);
    TracesKept(w, r);
  }

  // Runs.

  predicate FencedRun(w: World, rs: seq<Request>)
    requires Matched(w.p.plan, w.p.jobs) && |w.tags| == |w.p.jobs|
    decreases |rs|
  {
    rs == [] ||
    (&& Admits(w, rs[0]) && NoPendingReport(rs[0].event) && MintsFresh(w, rs[0].event)
     && FencedRun(Next(w, rs[0]), rs[1..]))
  }

  function After(w: World, rs: seq<Request>): (v: World)
    requires Matched(w.p.plan, w.p.jobs) && |w.tags| == |w.p.jobs| && FencedRun(w, rs)
    ensures v.p.plan == w.p.plan && Matched(v.p.plan, v.p.jobs) && |v.tags| == |v.p.jobs|
    decreases |rs|
  {
    if rs == [] then w else After(Next(w, rs[0]), rs[1..])
  }

  /** A new pipeline with different tokens, none gone out. */
  predicate Opening(w: World) {
    && Created(w.p)
    && (forall j, k | 0 <= j < k < |w.p.jobs| :: w.p.jobs[j].token != w.p.jobs[k].token)
    && w.issued == (set k | 0 <= k < |w.p.jobs| :: w.p.jobs[k].token)
    && w.taken == [] && w.handed == []
    && w.tags == seq(|w.p.jobs|, _ => [])
  }

  lemma OpeningIsFenced(w: World)
    requires Opening(w)
    ensures FenceInv(w)
  {
  }

  lemma {:induction false} FenceInRuns(w: World, rs: seq<Request>)
    requires FenceInv(w) && FencedRun(w, rs)
    ensures FenceInv(After(w, rs))
    decreases |rs|
  {
    if rs != [] {
      FenceKept(w, rs[0]);
      FenceInRuns(Next(w, rs[0]), rs[1..]);
    }
  }

  /** Over every run of every kind of request in which no runner reports `pending`, retries, requeues and automatic
      retries included, no two polls assign a job under one token, and every stored trace byte came with the job's
      current token. */
  lemma AttemptsFenced(w: World, rs: seq<Request>)
    requires Opening(w) && FencedRun(w, rs)
    ensures AssignedOnce(After(w, rs)) && TracesFenced(After(w, rs))
  {
    OpeningIsFenced(w);
    FenceInRuns(w, rs);
  }

  lemma {:induction false} FencedThenOne(w: World, rs: seq<Request>, r: Request)
    requires Matched(w.p.plan, w.p.jobs) && |w.tags| == |w.p.jobs| && FencedRun(w, rs)
    requires Admits(After(w, rs), r) && NoPendingReport(r.event) && MintsFresh(After(w, rs), r.event)
    ensures FencedRun(w, rs + [r]) && After(w, rs + [r]) == Next(After(w, rs), r)
    decreases |rs|
  {
    if rs == [] {
      assert rs + [r] == [r] && [r][1..] == [];
      var v := Next(w, r);
      assert FencedRun(v, []) && After(v, []) == v;
    } else {
      assert (rs + [r])[1..] == rs[1..] + [r];
      FencedThenOne(Next(w, rs[0]), rs[1..], r);
    }
  }

  // A report of `pending`.

  /** The pass over `on_failure` jobs skips job i if it is made pending. */
  predicate PassTakes(p: Pipeline, i: nat, now: int)
    requires Matched(p.plan, p.jobs) && i < |p.plan|
  {
    p.plan[i].when == OnFailure && SweepSkips(p.plan, p.jobs[i := p.jobs[i].(status := Pending)], i, now)
  }

  /** Such a report leaves every token and trace as it is, and only its own job may become unclaimed. */
  lemma PendingReportShape(w: World, r: Request, k: nat)
    requires FenceInv(w) && Admits(w, r) && r.event.Report? && r.event.state == Some(Pending) && k < |w.p.jobs|
    ensures var before, after := w.p.jobs[k], Next(w, r).p.jobs[k];
            && after.token == before.token && after.trace == before.trace && Next(w, r).tags[k] == w.tags[k]
            && (if k == r.event.i then
                  after.status == (if PassTakes(w.p, r.event.i, r.event.now) then Skipped else Pending)
                else Unclaimed(after.status) ==> Unclaimed(before.status))
  {
    var v, i := Next(w, r), r.event.i;
    ReportedShape(w.p, r.event);
    ReportShape(w.p, r.event);
    SweepSkipsDecides(w.p.plan, w.p.jobs[i := w.p.jobs[i].(status := Pending)], i, r.event.now);
    assert k != i ==> SameOrSkipped(w.p.jobs[k], v.p.jobs[k], r.event.now);
    assert v.tags[k] == TagsAfter(w, r, v.p, k);
    assert |w.tags[k]| == |w.p.jobs[k].trace|;
  }

  lemma PendingFence(w: World, v: World, i: nat)
    requires FenceInv(w) && v.taken == w.taken && w.issued <= v.issued
    requires i < |w.p.jobs| == |v.p.jobs| == |v.tags|
    requires Matched(v.p.plan, v.p.jobs) && v.p.jobs[i].status in {Pending, Skipped}
    requires forall k: nat | k < |w.p.jobs| ::
               && v.p.jobs[k].token == w.p.jobs[k].token
               && v.p.jobs[k].trace == w.p.jobs[k].trace && v.tags[k] == w.tags[k]
               && (k != i && Unclaimed(v.p.jobs[k].status) ==> Unclaimed(w.p.jobs[k].status))
    ensures FenceInv(v) <==> !WasAssigned(w, w.p.jobs[i].token) || v.p.jobs[i].status == Skipped
  {
    assert forall t: nat :: WasAssigned(v, t) <==> WasAssigned(w, t);
    assert TracesFenced(v);
  }

  /** A report of `pending` keeps the fence exactly when the job was not assigned under its token, or it is an
      `on_failure` job that the pass skips at once. */
  lemma PendingReportFencesIff(w: World, r: Request)
    requires FenceInv(w) && Admits(w, r) && r.event.Report? && r.event.state == Some(Pending)
    ensures FenceInv(Next(w, r)) <==>
            !WasAssigned(w, w.p.jobs[r.event.i].token) || PassTakes(w.p, r.event.i, r.event.now)
  {
    var v := Next(w, r);
    assert v.taken == w.taken;
    forall k: nat | k < |w.p.jobs|
      ensures v.p.jobs[k].token == w.p.jobs[k].token && v.p.jobs[k].trace == w.p.jobs[k].trace && v.tags[k] == w.tags[k]
      ensures k != r.event.i ==> (Unclaimed(v.p.jobs[k].status) ==> Unclaimed(w.p.jobs[k].status))
    {
      PendingReportShape(w, r, k);
    }
    PendingReportShape(w, r, r.event.i);
    PendingFence(w, v, r.event.i);
  }

  /** A runner that reports `pending` gives the job back with its token: the next poll that takes the job assigns it
      under the same token again. */
  lemma PendingReportBreaksFence(w: World, r: Request, poll: Request)
    requires FenceInv(w) && Admits(w, r) && r.event.Report? && r.event.state == Some(Pending)
    requires WasAssigned(w, w.p.jobs[r.event.i].token)
    requires poll.event.Assign? && poll.event.i == r.event.i && Admits(Next(w, r), poll)
    ensures !AssignedOnce(Next(Next(w, r), poll))
  {
    PendingReportShape(w, r, r.event.i);
    var k: nat :| k < |w.taken| && w.taken[k].token == w.p.jobs[r.event.i].token;
    var u := Next(Next(w, r), poll);
    assert u.taken[k].token == u.taken[|w.taken|].token;
  }

  // One token for two attempts.

  predicate Alone(w: World, status: Status) {
    && |w.p.plan| == |w.p.jobs| == |w.tags| == 1 && w.p.jobs[0].status == status && w.p.jobs[0].token == 0
    && w.p.plan[0].stage == 0 && w.p.plan[0].needs.None? && w.p.plan[0].when == OnSuccess && w.p.plan[0].group == ""
  }

  lemma AloneTaken(w: World, r: Request)
    requires Alone(w, Pending) && r.event.Assign? && r.event.i == 0
    ensures Admits(w, r) && Alone(Next(w, r), Running) && Next(w, r).taken == w.taken + [Handout(0, r.event.runner)]
  {
  }

  lemma AloneReturned(w: World, r: Request)
    requires Alone(w, Running) && r == Request(Report(0, Some(Pending), None, None, 0, 9, 2), 0)
    ensures Admits(w, r) && Alone(Next(w, r), Pending) && Next(w, r).taken == w.taken
  {
    UntriggeredPassShape(w.p.plan, w.p.jobs[0 := w.p.jobs[0].(status := Pending)], 0, 2);
  }

  /** A job taken by one runner, reported `pending` and taken by another one, with the same token. */
  lemma SameTokenTwice(w: World, first: Request, back: Request, second: Request)
    requires w == World(NewPipeline([PlainJob(1, "build", None, OnSuccess)]), [], [], {0}, [[]])
    requires first == Request(Assign(0, "r", 1), 0) && second == Request(Assign(0, "s", 3), 0)
    requires back == Request(Report(0, Some(Pending), None, None, 0, 9, 2), 0)
    ensures Opening(w) && Admits(w, first) && Admits(Next(w, first), back) && Admits(Next(Next(w, first), back), second)
    ensures Next(Next(Next(w, first), back), second).taken == [Handout(0, "r"), Handout(0, "s")]
  {
    assert Alone(w, Pending);
    AloneTaken(w, first);
    AloneReturned(Next(w, first), back);
    AloneTaken(Next(Next(w, first), back), second);
  }
}
