/** The upload of a job's trace as a protocol between one runner and the coordinator, over a network that loses,
    repeats and delays whatever it likes. */
module Trace {
  import opened CiModel
  import opened Masking
  import opened Steps

  /** Either answer carries the stored size, in its `Range` header. */
  datatype Reply = Accepted(size: nat) | OutOfRange(size: nat)

  /** A chunk starting past the end is refused; any other replaces what is stored from its start, and is masked with
      it. */
  function Patch(values: seq<Bytes>, stored: Bytes, start: nat, chunk: Bytes): (Bytes, Reply) {
    if start > |stored| then (stored, OutOfRange(|stored|))
    else
      var raw := Mask(values, stored[..start] + chunk);
      (raw, Accepted(|raw|))
  }

  /** The coordinator's trace step is this one. */
  lemma AppendStepPatches(p: Pipeline, i: nat, start: nat, chunk: Bytes)
    requires Matched(p.plan, p.jobs) && i < |p.plan|
    ensures var values := MaskedValues(p.plan[i].masked, p.jobs[i].variables);
            var (stored, reply) := Patch(values, p.jobs[i].trace, start, chunk);
            && (reply.Accepted? <==> Accepts(p, AppendTrace(i, start, chunk)))
            && (reply.Accepted? ==>
                  var s := Apply(p, AppendTrace(i, start, chunk)).jobs[i];
                  stored == s.trace && reply == Accepted(s.traceSize))
            && (reply.OutOfRange? ==> stored == p.jobs[i].trace && reply.size == |stored|)
  {
  }

  /** A request carries the bytes of the log between two offsets. */
  datatype Chunk = Chunk(start: nat, stop: nat)

  /** The network keeps every request and reply ever sent: it may deliver each any number of times, or never. */
  datatype State = State(stored: Bytes, confirmed: nat, requests: set<Chunk>, replies: set<Reply>)

  datatype Action =
    | Send(stop: nat)
    | Deliver(chunk: Chunk)
    | Receive(reply: Reply)

  /** The runner sends from its confirmed offset, as far as it likes within the log. */
  predicate Possible(log: Bytes, s: State, a: Action) {
    match a
    case Send(stop) => s.confirmed <= stop <= |log|
    case Deliver(chunk) => chunk in s.requests && chunk.start <= chunk.stop <= |log|
    case Receive(reply) => reply in s.replies
  }

  function Step(values: seq<Bytes>, log: Bytes, s: State, a: Action): State
    requires Possible(log, s, a)
  {
    match a
    case Send(stop) => s.(requests := s.requests + {Chunk(s.confirmed, stop)})
    case Deliver(chunk) =>
      var (stored, reply) := Patch(values, s.stored, chunk.start, log[chunk.start..chunk.stop]);
      s.(stored := stored, replies := s.replies + {reply})
    case Receive(reply) => s.(confirmed := reply.size)
  }

  predicate Within(log: Bytes, s: State) {
    && s.confirmed <= |log|
    && (forall c | c in s.requests :: c.start <= c.stop <= |log|)
    && (forall r | r in s.replies :: r.size <= |log|)
  }

  /** The stored bytes are a prefix of the log, masked. */
  ghost predicate StoredPrefix(values: seq<Bytes>, log: Bytes, s: State) {
    |s.stored| <= |log| && s.stored == Mask(values, log[..|s.stored|])
  }

  /** A chunk from this offset tears no masked value apart: it is refused, or no occurrence of a value has the offset
      inside it; with one masked value it is enough that no overwritten occurrence has. */
  ghost predicate Harmless(values: seq<Bytes>, log: Bytes, stored: nat, start: nat)
    requires stored <= |log|
  {
    || start > stored
    || CleanCut(values, log, start)
    || (|values| == 1 && !Severed(log[..stored], values[0], start))
  }

  const START := State([], 0, {}, {})

  predicate Happens(values: seq<Bytes>, log: Bytes, s: State, actions: seq<Action>)
    decreases |actions|
  {
    actions == [] ||
    (Possible(log, s, actions[0]) && Happens(values, log, Step(values, log, s, actions[0]), actions[1..]))
  }

  function After(values: seq<Bytes>, log: Bytes, s: State, actions: seq<Action>): State
    requires Happens(values, log, s, actions)
    decreases |actions|
  {
    if actions == [] then s else After(values, log, Step(values, log, s, actions[0]), actions[1..])
  }

  /** Every chunk the run delivers is harmless when it arrives. */
  ghost predicate HarmlessRun(values: seq<Bytes>, log: Bytes, s: State, actions: seq<Action>)
    requires Happens(values, log, s, actions)
    decreases |actions|
  {
    actions == [] ||
    (&& (actions[0].Deliver? ==> |s.stored| <= |log| && Harmless(values, log, |s.stored|, actions[0].chunk.start))
     && HarmlessRun(values, log, Step(values, log, s, actions[0]), actions[1..]))
  }

  lemma PrefixKept(values: seq<Bytes>, log: Bytes, s: State, a: Action)
    requires NulFree(values) && Within(log, s) && StoredPrefix(values, log, s) && Possible(log, s, a)
    requires a.Deliver? ==> Harmless(values, log, |s.stored|, a.chunk.start)
    ensures Within(log, Step(values, log, s, a)) && StoredPrefix(values, log, Step(values, log, s, a))
  {
    if a.Deliver? && a.chunk.start <= |s.stored| {
      var n, start, stop := |s.stored|, a.chunk.start, a.chunk.stop;
      if CleanCut(values, log, start) {
        CleanResend(values, log, n, start, stop);
      } else {
        assert values == [values[0]];
        ResendIff(log, values[0], n, start, stop);
      }
    }
  }

  /** With one masked value, a chunk in range leaves a masked prefix of the log exactly when it tears no overwritten
      occurrence of the value apart. */
  lemma DeliveryKeepsPrefixIff(value: Bytes, log: Bytes, s: State, a: Action)
    requires value != [] && NUL !in value && Within(log, s) && StoredPrefix([value], log, s)
    requires Possible(log, s, a) && a.Deliver? && a.chunk.start <= |s.stored|
    ensures StoredPrefix([value], log, Step([value], log, s, a)) <==> !Severed(log[..|s.stored|], value, a.chunk.start)
  {
    ResendIff(log, value, |s.stored|, a.chunk.start, a.chunk.stop);
  }

  /** Whatever is lost, resent, repeated or late, the stored bytes are a prefix of the log, masked, as long as no chunk
      tears a masked value apart. */
  lemma {:induction false} StoredAlwaysPrefix(values: seq<Bytes>, log: Bytes, s: State, actions: seq<Action>)
    requires NulFree(values) && Within(log, s) && StoredPrefix(values, log, s)
    requires Happens(values, log, s, actions) && HarmlessRun(values, log, s, actions)
    ensures Within(log, After(values, log, s, actions)) && StoredPrefix(values, log, After(values, log, s, actions))
    decreases |actions|
  {
    if actions != [] {
      PrefixKept(values, log, s, actions[0]);
      StoredAlwaysPrefix(values, log, Step(values, log, s, actions[0]), actions[1..]);
    }
  }

  /** Without masked values nothing is torn apart. */
  lemma {:induction false} UnmaskedIsHarmless(log: Bytes, s: State, actions: seq<Action>)
    requires Within(log, s) && |s.stored| <= |log| && Happens([], log, s, actions)
    ensures HarmlessRun([], log, s, actions)
    decreases |actions|
  {
    if actions != [] {
      UnmaskedIsHarmless(log, Step([], log, s, actions[0]), actions[1..]);
    }
  }

  // Once responses arrive.

  /** One answered request: the runner sends up to k bytes from its offset, and takes the answer. */
  function Round(values: seq<Bytes>, log: Bytes, s: State, k: nat): (t: State)
    requires s.confirmed <= |log|
  {
    var stop := if s.confirmed + k <= |log| then s.confirmed + k else |log|;
    var chunk := Chunk(s.confirmed, stop);
    var sent := s.(requests := s.requests + {chunk});
    var (stored, reply) := Patch(values, s.stored, chunk.start, log[chunk.start..chunk.stop]);
    sent.(stored := stored, replies := s.replies + {reply}, confirmed := reply.size)
  }

  /** A round is a send, a delivery and a receipt. */
  lemma RoundIsThreeActions(values: seq<Bytes>, log: Bytes, s: State, k: nat) returns (actions: seq<Action>)
    requires s.confirmed <= |log|
    ensures |actions| == 3 && actions[0].Send? && actions[1].Deliver? && actions[2].Receive?
    ensures Happens(values, log, s, actions) && After(values, log, s, actions) == Round(values, log, s, k)
  {
    var stop := if s.confirmed + k <= |log| then s.confirmed + k else |log|;
    var chunk := Chunk(s.confirmed, stop);
    var reply := Patch(values, s.stored, chunk.start, log[chunk.start..chunk.stop]).1;
    var a, b, c := Send(stop), Deliver(chunk), Receive(reply);
    actions := [a, b, c];
    var s1 := Step(values, log, s, a);
    var s2 := Step(values, log, s1, b);
    var s3 := Step(values, log, s2, c);
    assert actions[1..] == [b, c] && [b, c][1..] == [c] && [c][1..] == [];
    assert Happens(values, log, s3, []) && After(values, log, s3, []) == s3;
    assert Happens(values, log, s2, [c]) && After(values, log, s2, [c]) == s3;
    assert Happens(values, log, s1, [b, c]) && After(values, log, s1, [b, c]) == s3;
  }

  /** An answered round confirms exactly what is stored, and one that was in range and not empty raises the offset. */
  lemma RoundConfirms(values: seq<Bytes>, log: Bytes, s: State, k: nat)
    requires s.confirmed <= |log| && |s.stored| <= |log|
    ensures var t := Round(values, log, s, k);
            && t.confirmed == |t.stored| <= |log|
            && (s.confirmed <= |s.stored| && s.confirmed < |log| && k > 0 ==> t.confirmed > s.confirmed)
            && (s.confirmed > |s.stored| ==> t.stored == s.stored)
            && (s.confirmed <= |s.stored| ==>
                  t.confirmed == if s.confirmed + k <= |log| then s.confirmed + k else |log|)
  {
  }

  function Rounds(values: seq<Bytes>, log: Bytes, s: State, sizes: seq<nat>): State
    requires s.confirmed <= |log| && |s.stored| <= |log|
    decreases |sizes|
  {
    if sizes == [] then s
    else
      RoundConfirms(values, log, s, sizes[0]);
      Rounds(values, log, Round(values, log, s, sizes[0]), sizes[1..])
  }

  /** Every round's chunk is harmless. */
  ghost predicate HarmlessRounds(values: seq<Bytes>, log: Bytes, s: State, sizes: seq<nat>)
    requires s.confirmed <= |log| && |s.stored| <= |log|
    decreases |sizes|
  {
    sizes == [] ||
    (RoundConfirms(values, log, s, sizes[0]);
     && Harmless(values, log, |s.stored|, s.confirmed)
     && HarmlessRounds(values, log, Round(values, log, s, sizes[0]), sizes[1..]))
  }

  lemma {:induction false} RoundsAdvance(values: seq<Bytes>, log: Bytes, s: State, sizes: seq<nat>)
    requires s.confirmed == |s.stored| <= |log|
    requires forall k | 0 <= k < |sizes| :: sizes[k] > 0
    ensures var t := Rounds(values, log, s, sizes);
            && t.confirmed == |t.stored| <= |log|
            && (t.confirmed == |log| || t.confirmed >= s.confirmed + |sizes|)
    decreases |sizes|
  {
    if sizes != [] {
      RoundConfirms(values, log, s, sizes[0]);
      RoundsAdvance(values, log, Round(values, log, s, sizes[0]), sizes[1..]);
    }
  }

  lemma RoundKeepsPrefix(values: seq<Bytes>, log: Bytes, s: State, k: nat)
    requires NulFree(values) && Within(log, s) && StoredPrefix(values, log, s)
    requires Harmless(values, log, |s.stored|, s.confirmed)
    ensures Within(log, Round(values, log, s, k)) && StoredPrefix(values, log, Round(values, log, s, k))
  {
    var stop := if s.confirmed + k <= |log| then s.confirmed + k else |log|;
    var a, b := Send(stop), Deliver(Chunk(s.confirmed, stop));
    var t := Step(values, log, s, a);
    PrefixKept(values, log, s, a);
    PrefixKept(values, log, t, b);
    var u := Step(values, log, t, b);
    var c := Receive(Patch(values, s.stored, s.confirmed, log[s.confirmed..stop]).1);
    PrefixKept(values, log, u, c);
    assert Round(values, log, s, k) == Step(values, log, u, c);
  }

  lemma {:induction false} RoundsStayPrefix(values: seq<Bytes>, log: Bytes, s: State, sizes: seq<nat>)
    requires NulFree(values) && Within(log, s) && StoredPrefix(values, log, s) && HarmlessRounds(values, log, s, sizes)
    ensures StoredPrefix(values, log, Rounds(values, log, s, sizes))
    decreases |sizes|
  {
    if sizes != [] {
      RoundKeepsPrefix(values, log, s, sizes[0]);
      RoundsStayPrefix(values, log, Round(values, log, s, sizes[0]), sizes[1..]);
    }
  }

  /** With one masked value only the first round can do harm: once the offset is what is stored, nothing is torn. */
  lemma {:induction false} ResynchronisedIsHarmless(value: Bytes, log: Bytes, s: State, sizes: seq<nat>)
    requires s.confirmed == |s.stored| <= |log|
    ensures HarmlessRounds([value], log, s, sizes)
    decreases |sizes|
  {
    if sizes != [] {
      NothingSeveredAtEnd(log[..|s.stored|], value);
      RoundConfirms([value], log, s, sizes[0]);
      ResynchronisedIsHarmless(value, log, Round([value], log, s, sizes[0]), sizes[1..]);
    }
  }

  /** From the state any losses, resends and late duplicates have left, answered rounds of at least a byte each store
      and confirm the whole log, masked: one to resynchronise and one more for each byte are enough. */
  lemma TraceConverges(values: seq<Bytes>, log: Bytes, actions: seq<Action>, sizes: seq<nat>)
    requires NulFree(values) && Happens(values, log, START, actions) && HarmlessRun(values, log, START, actions)
    requires |sizes| > |log| && forall k | 0 <= k < |sizes| :: sizes[k] > 0
    ensures var s := After(values, log, START, actions);
            && s.confirmed <= |log| && |s.stored| <= |log|
            && Rounds(values, log, s, sizes).confirmed == |Rounds(values, log, s, sizes).stored| == |log|
            && (HarmlessRounds(values, log, s, sizes) ==> Rounds(values, log, s, sizes).stored == Mask(values, log))
  {
    MaskNothing(values, []);
    assert log[..0] == [];
    StoredAlwaysPrefix(values, log, START, actions);
    var s := After(values, log, START, actions);
    RoundConfirms(values, log, s, sizes[0]);
    RoundsAdvance(values, log, Round(values, log, s, sizes[0]), sizes[1..]);
    if HarmlessRounds(values, log, s, sizes) {
      RoundsStayPrefix(values, log, s, sizes);
      assert log[..|log|] == log;
    }
  }

  // A masked value torn apart.

  lemma TornMasks(log: Bytes)
    requires log == [97, 98]
    ensures Mask([log], log) == [NUL, NUL] && Mask([log], [97]) == [97] && Mask([log], [NUL, 98]) == [NUL, 98]
  {
    MaskOne(log, log);
    MaskOne(log, [97]);
    MaskOne(log, [NUL, 98]);
    OverwriteWindow(log, []);
    assert log + [] == log && Nuls(2) + [] == [NUL, NUL];
    OverwriteShort([97], log);
    OverwriteShort([98], log);
    OverwriteSkipsNuls(1, [98], log);
    assert Nuls(1) + [98] == [NUL, 98];
  }

  /** A value of two bytes sent byte by byte; the second chunk arrives twice, and its byte is stored unmasked. */
  lemma TornValueShows()
    ensures var log: Bytes := [97, 98];
            var actions := [Send(1), Deliver(Chunk(0, 1)), Receive(Accepted(1)), Send(2), Deliver(Chunk(1, 2)),
                            Deliver(Chunk(1, 2))];
            && Happens([log], log, START, actions)
            && After([log], log, START, actions).stored == [NUL, 98]
            && Mask([log], log) == [NUL, NUL]
  {
    var log: Bytes := [97, 98];
    var values := [log];
    var a, b, c, d, e := Send(1), Deliver(Chunk(0, 1)), Receive(Accepted(1)), Send(2), Deliver(Chunk(1, 2));
    TornMasks(log);
    assert log[0..1] == [97] && log[1..2] == [98];
    var s1 := Step(values, log, START, a);
    assert [] + log[0..1] == [97];
    var s2 := Step(values, log, s1, b);
    assert s2.stored == [97] && Accepted(1) in s2.replies;
    var s3 := Step(values, log, s2, c);
    var s4 := Step(values, log, s3, d);
    assert s4.stored[..1] + [98] == log;
    var s5 := Step(values, log, s4, e);
    assert s5.stored == [NUL, NUL];
    assert s5.stored[..1] + [98] == [NUL, 98];
    var s6 := Step(values, log, s5, e);
    assert s6.stored == [NUL, 98];
  }
}
