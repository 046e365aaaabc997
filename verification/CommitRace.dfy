/** Publishing a multi-action commit by compare-and-swap on the branch, alone and in every interleaving. */
module CommitRace {
  import opened Wrappers
  import opened CommitIndex

  /** A commit is its whole history: git names it by its content, parent included. */
  datatype Commit =
    | First(tree: Tree, message: string)
    | Next(parent: Commit, tree: Tree, message: string)

  function MakeCommit(parent: Option<Commit>, tree: Tree, message: string): Commit {
    match parent
    case None => First(tree, message)
    case Some(p) => Next(p, tree, message)
  }

  predicate IsAncestor(a: Commit, c: Commit) {
    a == c || (c.Next? && IsAncestor(a, c.parent))
  }

  datatype Failure = Refused(refusal: Refusal) | NoBranch | RefChanged

  function TreeOf(c: Option<Commit>): Tree {
    if c.None? then map[] else c.value.tree
  }

  function PublishResult(rule: PathRule, head: Option<Commit>, parent: Option<Commit>, existed: bool, force: bool,
                         actions: seq<Action>, message: string): Result<Commit, Failure>
  {
    match EffectAll(rule, TreeOf(parent), actions)
    case Err(e) => Err(Refused(e))
    case Ok(tree) =>
      if existed && !force && parent.Some? && head != parent then Err(RefChanged)
      else Ok(MakeCommit(parent, tree, message))
  }

  /** A commit is published exactly when its actions apply to the parent's tree, and the branch is still at the parent
      unless it was new, the commit is forced or there was no parent. It has the parent, that tree and the message. */
  lemma PublishedIff(rule: PathRule, head: Option<Commit>, parent: Option<Commit>, existed: bool, force: bool,
                     actions: seq<Action>, message: string)
    ensures var r := PublishResult(rule, head, parent, existed, force, actions, message);
            var built := EffectAll(rule, if parent.Some? then parent.value.tree else map[], actions);
            && (r.Ok? <==> built.Ok? && (parent.None? || !existed || force || head == parent))
            && (r.Ok? ==>
                  r.value == if parent.Some? then Next(parent.value, built.value, message)
                             else First(built.value, message))
            && (built.Err? ==> r == Err(Refused(built.error)))
            && (r.Err? && built.Ok? ==> r.error == RefChanged)
  {
  }

  /** A branch of a repository. */
  class Branch {
    const rule: PathRule
    var head: Option<Commit>

    constructor (rule: PathRule, head: Option<Commit>)
      ensures this.rule == rule && this.head == head
    {
      this.rule := rule;
      this.head := head;
    }

    /** `update-ref`, with or without the old value it must find. */
    method UpdateRef(commit: Commit, expected: Option<Commit>) returns (ok: bool)
      modifies this
      ensures ok <==> expected.None? || old(head) == expected
      ensures head == if ok then Some(commit) else old(head)
    {
      ok := expected.None? || head == expected;
      if ok {
        head := Some(commit);
      }
    }

    /** Build on the parent that was read and publish. `existed` says whether the branch was there when it was read. A
        forced commit and one that makes the branch are published whatever the branch holds by now. */
    method CreateMultiActionCommit(parent: Option<Commit>, existed: bool, force: bool, actions: seq<Action>,
                                   message: string)
      returns (result: Result<Commit, Failure>)
      requires parent.Some? ==> Sound(rule, parent.value.tree)
      modifies this
      ensures result == PublishResult(rule, old(head), parent, existed, force, actions, message)
      ensures head == if result.Ok? then Some(result.value) else old(head)
    {
      var base: Tree := if parent.None? then map[] else parent.value.tree;
      var index := new GitIndex(rule, base);
      var builder := new CommitBuilder(index);
      var refused := builder.ApplyActions(actions);
      if refused.Some? {
        return Err(Refused(refused.value));
      }
      var commit := MakeCommit(parent, index.files, message);
      var ok := UpdateRef(commit, if existed && !force then parent else None);
      result := if ok then Ok(commit) else Err(RefChanged);
    }

    /** The whole request without interference: the parent is the head, or the start reference of a new branch, or
        nothing for the default branch of an empty repository. */
    method CommitRequest(isDefault: bool, start: Option<Commit>, force: bool, actions: seq<Action>, message: string)
      returns (result: Result<Commit, Failure>)
      requires head.Some? ==> Sound(rule, head.value.tree)
      requires start.Some? ==> Sound(rule, start.value.tree)
      modifies this
      ensures result.Ok? <==>
              && (old(head).Some? || start.Some? || isDefault)
              && EffectAll(rule, TreeOf(old(head).OrElse(start)), actions).Ok?
      ensures result.Ok? ==>
                && (var parent := old(head).OrElse(start);
                    result.value == MakeCommit(parent, EffectAll(rule, TreeOf(parent), actions).value, message))
                && head == Some(result.value)
      ensures result.Err? ==> head == old(head)
    {
      if head.None? && start.None? && !isDefault {
        return Err(NoBranch);
      }
      result := CreateMultiActionCommit(head.OrElse(start), head.Some?, force, actions, message);
    }
  }

  // Interleavings of unforced commits on an existing branch.

  datatype Published = Published(actions: seq<Action>, commit: Commit)

  /** The branch, the heads the clients have read, and the successful commits so far. */
  datatype Race = Race(head: Commit, read: map<nat, Commit>, published: seq<Published>)

  datatype Move =
    | ReadHead(client: nat)
    | Publish(client: nat, actions: seq<Action>, message: string)

  predicate CanMove(r: Race, m: Move) {
    m.Publish? ==> m.client in r.read
  }

  /** Between a client's read and its publication any other client may move. */
  function Moved(rule: PathRule, r: Race, m: Move): Race
    requires CanMove(r, m)
  {
    match m
    case ReadHead(client) => r.(read := r.read[client := r.head])
    case Publish(client, actions, message) =>
      var parent := r.read[client];
      match PublishResult(rule, Some(r.head), Some(parent), true, false, actions, message)
      case Err(_) => r.(read := r.read - {client})
      case Ok(commit) => Race(commit, r.read - {client}, r.published + [Published(actions, commit)])
  }

  predicate CanPlay(rule: PathRule, r: Race, moves: seq<Move>)
    decreases |moves|
  {
    moves == [] || (CanMove(r, moves[0]) && CanPlay(rule, Moved(rule, r, moves[0]), moves[1..]))
  }

  function Played(rule: PathRule, r: Race, moves: seq<Move>): Race
    requires CanPlay(rule, r, moves)
    decreases |moves|
  {
    if moves == [] then r else Played(rule, Moved(rule, r, moves[0]), moves[1..])
  }

  /** The head before the k-th successful commit. */
  function HeadBefore(start: Commit, published: seq<Published>, k: nat): Commit
    requires k <= |published|
  {
    if k == 0 then start else published[k - 1].commit
  }

  /** The k-th successful commit has as parent exactly the head it replaced, with the tree its actions give there. */
  predicate Linked(rule: PathRule, before: Commit, p: Published) {
    p.commit.Next? && p.commit.parent == before && EffectAll(rule, before.tree, p.actions) == Ok(p.commit.tree)
  }

  /** The successful commits are linked one after the other, and the last one is the head. */
  predicate Chained(rule: PathRule, start: Commit, r: Race) {
    && r.head == HeadBefore(start, r.published, |r.published|)
    && forall k {:trigger HeadBefore(start, r.published, k)} | 0 <= k < |r.published| ::
         Linked(rule, HeadBefore(start, r.published, k), r.published[k])
  }

  lemma MoveKeepsChain(rule: PathRule, start: Commit, r: Race, m: Move)
    requires Chained(rule, start, r) && CanMove(r, m)
    ensures Chained(rule, start, Moved(rule, r, m))
  {
    var next := Moved(rule, r, m);
    if next.published != r.published {
      var p := next.published[|r.published|];
      assert next.published == r.published + [p];
      assert Linked(rule, r.head, p);
      forall k | 0 <= k < |next.published|
        ensures Linked(rule, HeadBefore(start, next.published, k), next.published[k])
      {
        assert HeadBefore(start, next.published, k) == HeadBefore(start, r.published, k);
      }
    }
  }

  lemma {:induction false} PlayKeepsChain(rule: PathRule, start: Commit, r: Race, moves: seq<Move>)
    requires Chained(rule, start, r) && CanPlay(rule, r, moves)
    ensures Chained(rule, start, Played(rule, r, moves))
    decreases |moves|
  {
    if moves != [] {
      MoveKeepsChain(rule, start, r, moves[0]);
      PlayKeepsChain(rule, start, Moved(rule, r, moves[0]), moves[1..]);
    }
  }

  lemma {:induction false} EarlierIsAncestor(rule: PathRule, start: Commit, r: Race, j: nat, k: nat)
    requires Chained(rule, start, r) && j <= k <= |r.published|
    ensures IsAncestor(HeadBefore(start, r.published, j), HeadBefore(start, r.published, k))
    decreases k
  {
    if j < k {
      EarlierIsAncestor(rule, start, r, j, k - 1);
      assert Linked(rule, HeadBefore(start, r.published, k - 1), r.published[k - 1]);
    }
  }

  /** The trees of the successful commits in order, from the start. */
  function SerialTree(rule: PathRule, tree: Tree, published: seq<Published>): Result<Tree, Refusal>
    decreases |published|
  {
    if published == [] then Ok(tree)
    else
      match EffectAll(rule, tree, published[0].actions)
      case Err(e) => Err(e)
      case Ok(next) => SerialTree(rule, next, published[1..])
  }

  lemma {:induction false} ChainIsSerial(rule: PathRule, start: Commit, r: Race, k: nat)
    requires Chained(rule, start, r) && k <= |r.published|
    ensures SerialTree(rule, HeadBefore(start, r.published, k).tree, r.published[k..]) == Ok(r.head.tree)
    decreases |r.published| - k
  {
    if k < |r.published| {
      ChainIsSerial(rule, start, r, k + 1);
      assert r.published[k..][0] == r.published[k] && r.published[k..][1..] == r.published[k + 1..];
      assert Linked(rule, HeadBefore(start, r.published, k), r.published[k]);
    }
  }

  /** In every interleaving no successful commit is lost: each is an ancestor of the final head and has as parent
      exactly the head it replaced, and the final tree is the one the successful requests give one after the other. */
  lemma NoLostCommit(rule: PathRule, start: Commit, moves: seq<Move>)
    requires CanPlay(rule, Race(start, map[], []), moves)
    ensures var r := Played(rule, Race(start, map[], []), moves);
            && (forall k | 0 <= k < |r.published| ::
                  && IsAncestor(r.published[k].commit, r.head)
                  && r.published[k].commit.Next?
                  && r.published[k].commit.parent == HeadBefore(start, r.published, k))
            && IsAncestor(start, r.head)
            && SerialTree(rule, start.tree, r.published) == Ok(r.head.tree)
  {
    var s := Race(start, map[], []);
    PlayKeepsChain(rule, start, s, moves);
    var r := Played(rule, s, moves);
    forall k | 0 <= k < |r.published|
      ensures IsAncestor(r.published[k].commit, r.head)
      ensures r.published[k].commit.Next? && r.published[k].commit.parent == HeadBefore(start, r.published, k)
    {
      EarlierIsAncestor(rule, start, r, k + 1, |r.published|);
      assert Linked(rule, HeadBefore(start, r.published, k), r.published[k]);
    }
    EarlierIsAncestor(rule, start, r, 0, |r.published|);
    ChainIsSerial(rule, start, r, 0);
    assert r.published[0..] == r.published;
  }

  // When a publication fails.

  lemma {:induction false} PlayedInParts(rule: PathRule, r: Race, moves: seq<Move>, k: nat)
    requires CanPlay(rule, r, moves) && k <= |moves|
    ensures CanPlay(rule, r, moves[..k]) && CanPlay(rule, Played(rule, r, moves[..k]), moves[k..])
    ensures Played(rule, Played(rule, r, moves[..k]), moves[k..]) == Played(rule, r, moves)
    decreases k
  {
    if k == 0 {
      assert moves[..0] == [] && moves[0..] == moves;
    } else {
      PlayedInParts(rule, Moved(rule, r, moves[0]), moves[1..], k - 1);
      assert moves[..k][1..] == moves[1..][..k - 1] && moves[1..][k - 1..] == moves[k..];
    }
  }

  /** The client's last move among these; -1 when it makes none. */
  function LastMove(moves: seq<Move>, client: nat): (k: int)
    ensures -1 <= k < |moves|
    ensures k >= 0 ==> moves[k].client == client
    ensures forall j | k < j < |moves| :: moves[j].client != client
  {
    if moves == [] then -1
    else if moves[|moves| - 1].client == client then |moves| - 1
    else LastMove(moves[..|moves| - 1], client)
  }

  /** What a client has read stays while only others move. */
  lemma {:induction false} OthersLeaveRead(rule: PathRule, r: Race, moves: seq<Move>, client: nat)
    requires CanPlay(rule, r, moves) && forall j | 0 <= j < |moves| :: moves[j].client != client
    ensures var q := Played(rule, r, moves);
            (client in q.read <==> client in r.read) && (client in r.read ==> q.read[client] == r.read[client])
    decreases |moves|
  {
    if moves != [] {
      OthersLeaveRead(rule, Moved(rule, r, moves[0]), moves[1..], client);
    }
  }

  /** A client can publish exactly when its last move is a read, and then it builds on the head of that time. */
  lemma ReadIsHeadOfLastMove(rule: PathRule, r: Race, moves: seq<Move>, client: nat)
    requires CanPlay(rule, r, moves) && r.read == map[]
    ensures var k, q := LastMove(moves, client), Played(rule, r, moves);
            && (client in q.read <==> k >= 0 && moves[k].ReadHead?)
            && (client in q.read ==>
                  CanPlay(rule, r, moves[..k]) && q.read[client] == Played(rule, r, moves[..k]).head)
  {
    var k := LastMove(moves, client);
    if k < 0 {
      OthersLeaveRead(rule, r, moves, client);
    } else {
      PlayedInParts(rule, r, moves, k);
      var s := Played(rule, r, moves[..k]);
      assert moves[k..][0] == moves[k] && moves[k..][1..] == moves[k + 1..];
      OthersLeaveRead(rule, Moved(rule, s, moves[k]), moves[k + 1..], client);
    }
  }

  function Depth(c: Commit): nat {
    match c
    case First(_, _) => 0
    case Next(parent, _, _) => Depth(parent) + 1
  }

  lemma {:induction false} HeadsGrow(rule: PathRule, start: Commit, r: Race, k: nat)
    requires Chained(rule, start, r) && k <= |r.published|
    ensures Depth(HeadBefore(start, r.published, k)) == Depth(start) + k
    decreases k
  {
    if k > 0 {
      HeadsGrow(rule, start, r, k - 1);
      assert Linked(rule, HeadBefore(start, r.published, k - 1), r.published[k - 1]);
    }
  }

  lemma {:induction false} PublishedGrows(rule: PathRule, r: Race, moves: seq<Move>)
    requires CanPlay(rule, r, moves)
    ensures r.published <= Played(rule, r, moves).published
    decreases |moves|
  {
    if moves != [] {
      PublishedGrows(rule, Moved(rule, r, moves[0]), moves[1..]);
    }
  }

  /** The head is the same at two times of a race exactly when nothing was published between them. */
  lemma SameHeadIff(rule: PathRule, start: Commit, moves: seq<Move>, k: nat)
    requires CanPlay(rule, Race(start, map[], []), moves) && k <= |moves|
    ensures CanPlay(rule, Race(start, map[], []), moves[..k])
    ensures var earlier := Played(rule, Race(start, map[], []), moves[..k]);
            var later := Played(rule, Race(start, map[], []), moves);
            earlier.head == later.head <==> earlier.published == later.published
  {
    var s := Race(start, map[], []);
    PlayedInParts(rule, s, moves, k);
    var earlier, later := Played(rule, s, moves[..k]), Played(rule, s, moves);
    PlayKeepsChain(rule, start, s, moves[..k]);
    PlayKeepsChain(rule, start, s, moves);
    PublishedGrows(rule, earlier, moves[k..]);
    HeadsGrow(rule, start, earlier, |earlier.published|);
    HeadsGrow(rule, start, later, |later.published|);
  }

  /** In every interleaving a publication fails, and leaves the head, exactly when its actions do not apply to the head
      of the client's last read, or any commit has been published since. */
  lemma PublishFailsIff(rule: PathRule, start: Commit, moves: seq<Move>, m: Move)
    requires CanPlay(rule, Race(start, map[], []), moves) && m.Publish?
    requires CanMove(Played(rule, Race(start, map[], []), moves), m)
    ensures var k := LastMove(moves, m.client);
            && k >= 0 && moves[k] == ReadHead(m.client) && CanPlay(rule, Race(start, map[], []), moves[..k])
            && var asRead := Played(rule, Race(start, map[], []), moves[..k]);
               var r := Played(rule, Race(start, map[], []), moves);
               && (Moved(rule, r, m).published == r.published <==>
                     EffectAll(rule, asRead.head.tree, m.actions).Err? || asRead.published != r.published)
               && (Moved(rule, r, m).published == r.published ==> Moved(rule, r, m).head == r.head)
  {
    var s := Race(start, map[], []);
    ReadIsHeadOfLastMove(rule, s, moves, m.client);
    SameHeadIff(rule, start, moves, LastMove(moves, m.client));
  }
}
