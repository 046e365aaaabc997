/** Small plans and pipelines for the concrete inputs on which expected properties fail. */
module Samples {
  import opened CiModel
  import opened Steps
  import opened Wrappers

  function PlainJob(id: nat, name: string, needs: Option<seq<Need>>, when: When): Config {
    Config(id, name, 0, needs, when, false, [], RetryPolicy(0, [], []), "", {}, false, [], None, 0)
  }

  function Needing(name: string): Option<seq<Need>> {
    Some([Need(name, false, true, "", "", "")])
  }

  function FreshJob(when: When, token: nat): JobState {
    JobState(FirstStatus(when), token, 0, None, None, None, [], 0, None, None, None, None, [], map[], None)
  }

  /** A new pipeline of the plan, the jobs numbered by their tokens. */
  function NewPipeline(plan: seq<Config>): (p: Pipeline)
    ensures Created(p) && p.plan == plan
    ensures forall i | 0 <= i < |plan| :: p.jobs[i] == FreshJob(plan[i].when, i)
  {
    Pipeline(plan, seq(|plan|, i requires 0 <= i < |plan| => FreshJob(plan[i].when, i)), Pending, None, None)
  }
}
