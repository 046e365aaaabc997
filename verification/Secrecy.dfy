/** Masked variables in stored traces: over every run no trace shows the value of one that playing has not replaced. */
module Secrecy {
  import opened CiModel
  import opened Masking
  import opened Patterns
  import opened Safety
  import opened Steps

  /** A value to hide: not empty, without NUL bytes, of a masked variable of the job that playing it has not replaced.
      */
  predicate IsSecret(c: Config, s: JobState, value: Bytes) {
    && value != [] && NUL !in value
    && exists m | m in c.masked :: m.value == value && m.name !in s.variables
  }

  lemma {:induction false} MaskHides(values: seq<Bytes>, raw: Bytes, value: Bytes)
    requires value in values && value != [] && NUL !in value
    ensures Lacks(Mask(values, raw), value)
    decreases |values|
  {
    var once := Overwrite(raw, values[0]);
    if values[0] == value {
      OverwriteLacks(raw, value);
      MaskOverwrites(values[1..], once);
      LacksOverwritten(once, Mask(values[1..], once), value);
    } else {
      MaskHides(values[1..], once, value);
    }
  }

  lemma {:induction false} MaskedValuesAre(masked: seq<MaskedVariable>, played: map<string, string>, value: Bytes)
    ensures value in MaskedValues(masked, played) <==> exists m | m in masked :: m.value == value && m.name !in played
    decreases |masked|
  {
    if masked != [] {
      MaskedValuesAre(masked[1..], played, value);
      assert masked == [masked[0]] + masked[1..];
    }
  }

  lemma {:induction false} MaskLeaves(values: seq<Bytes>, raw: Bytes)
    requires forall value | value in values :: value == [] || Lacks(raw, value)
    ensures Mask(values, raw) == raw
    decreases |values|
  {
    if values != [] {
      if values[0] != [] {
        assert values[0] in values;
        OverwriteNothing(raw, values[0]);
      }
      assert forall value | value in values[1..] :: value in values;
      MaskLeaves(values[1..], raw);
    }
  }

  /** After an accepted chunk no secret of the job is in its trace; the trace is what was kept and sent, but for bytes
      overwritten with NULs; and it is exactly that when no masked value that still counts is in it. */
  lemma ChunkHidesSecrets(p: Pipeline, i: nat, start: nat, chunk: Bytes)
    requires Matched(p.plan, p.jobs) && Accepts(p, AppendTrace(i, start, chunk))
    ensures var sent := p.jobs[i].trace[..start] + chunk;
            var stored := Apply(p, AppendTrace(i, start, chunk)).jobs[i].trace;
            && (forall value | IsSecret(p.plan[i], p.jobs[i], value) :: Lacks(stored, value))
            && |stored| == |sent| && (forall k | 0 <= k < |sent| :: stored[k] == sent[k] || stored[k] == NUL)
            && ((forall m | m in p.plan[i].masked && m.name !in p.jobs[i].variables ::
                   m.value == [] || Lacks(sent, m.value)) ==>
                  stored == sent)
  {
    var sent := p.jobs[i].trace[..start] + chunk;
    var values := MaskedValues(p.plan[i].masked, p.jobs[i].variables);
    MaskOverwrites(values, sent);
    forall value | IsSecret(p.plan[i], p.jobs[i], value)
      ensures Lacks(Mask(values, sent), value)
    {
      MaskedValuesAre(p.plan[i].masked, p.jobs[i].variables, value);
      MaskHides(values, sent, value);
    }
    if forall m | m in p.plan[i].masked && m.name !in p.jobs[i].variables :: m.value == [] || Lacks(sent, m.value) {
      forall value | value in values
        ensures value == [] || Lacks(sent, value)
      {
        MaskedValuesAre(p.plan[i].masked, p.jobs[i].variables, value);
      }
      MaskLeaves(values, sent);
    }
  }

  // Over runs.

  /** No trace holds a secret of its job. */
  ghost predicate Discreet(p: Pipeline)
    requires Matched(p.plan, p.jobs)
  {
    forall i: nat, value | i < |p.plan| && IsSecret(p.plan[i], p.jobs[i], value) :: Lacks(p.jobs[i].trace, value)
  }

  /** A step other than a chunk leaves a trace or empties it, and takes no variable away. */
  lemma OthersAreDiscreet(p: Pipeline, e: Event, i: nat)
    requires Matched(p.plan, p.jobs) && Accepts(p, e) && i < |p.plan| && !(e.AppendTrace? && e.i == i)
    ensures var before, after := p.jobs[i], Apply(p, e).jobs[i];
            && (after.trace == before.trace || after.trace == [])
            && (forall name | name in before.variables :: name in after.variables)
  {
    if e.Report? {
      ReportShape(p, e);
      ReportKeepsRest(p, e);
    }
  }

  lemma LacksInEmpty(value: Bytes)
    requires value != []
    ensures Lacks([], value)
  {
  }

  lemma DiscreetKept(p: Pipeline, e: Event)
    requires Matched(p.plan, p.jobs) && Discreet(p) && Accepts(p, e)
    ensures Discreet(Apply(p, e))
  {
    var q := Apply(p, e);
    forall i: nat, value | i < |p.plan| && IsSecret(p.plan[i], q.jobs[i], value)
      ensures Lacks(q.jobs[i].trace, value)
    {
      if e.AppendTrace? && e.i == i {
        ChunkHidesSecrets(p, i, e.start, e.chunk);
      } else {
        OthersAreDiscreet(p, e, i);
        var m :| m in p.plan[i].masked && m.value == value && m.name !in q.jobs[i].variables;
        assert IsSecret(p.plan[i], p.jobs[i], value);
        LacksInEmpty(value);
      }
    }
  }

  lemma {:induction false} DiscreetInRuns(p: Pipeline, es: seq<Event>)
    requires Matched(p.plan, p.jobs) && Discreet(p) && AcceptsAll(p, es)
    ensures Discreet(Run(p, es))
    decreases |es|
  {
    if es != [] {
      DiscreetKept(p, es[0]);
      DiscreetInRuns(Apply(p, es[0]), es[1..]);
    }
  }

  /** Over every run of every kind of request of a new pipeline, and whatever its runners send, no trace shows the value
      of a masked variable of its job that no play has replaced. */
  lemma TracesHideSecrets(p: Pipeline, es: seq<Event>, i: nat, m: MaskedVariable)
    requires Created(p) && AcceptsAll(p, es) && i < |p.plan|
    requires m in p.plan[i].masked && m.value != [] && NUL !in m.value && m.name !in Run(p, es).jobs[i].variables
    ensures Lacks(Run(p, es).jobs[i].trace, m.value)
  {
    forall k: nat, value | k < |p.plan| && IsSecret(p.plan[k], p.jobs[k], value)
      ensures Lacks(p.jobs[k].trace, value)
    {
      LacksInEmpty(value);
    }
    DiscreetInRuns(p, es);
    assert IsSecret(p.plan[i], Run(p, es).jobs[i], m.value);
  }
}
