# A model of the GitLab emulator's CI coordinator and commit API

The emulator keeps CI pipelines in a database, lets official runners poll for their jobs and report on them, and
offers GitLab's REST API and a small web UI, the CI Lab, to operate them. This project models the parts of it whose
behaviour is hardest to see from one function at a time, and proves what they promise together.

**The pipeline state machine.** `CiModel.dfy` holds the job and pipeline records and the predicates that decide which
job may run. `Steps.dfy` gives every request (poll, promotion, report, trace chunk, artifact, cancel, retry, play,
requeue, erase, keeping of artifacts, interruption by a newer pipeline, the two cancels and the retry of the pipeline) as
a function on pipeline values.
`Coordinator.dfy` has the request handlers themselves, over rows they update in place, each proved equal to its step;
`JobLists.dfy` is about the lists their loops gather. The theorems are about every list of steps, of any length:

* `Meaning.dfy`: the scheduler's conditions in plain statuses and names. `Polling.dfy`: what holds a job back over every
  run. `LifeCycle.dfy`: what each request makes of each job, and what must have happened for a job to be where it is.
* `Safety.dfy`: what has settled stays; a started job's dependencies have let it through, and still do.
* `SkipPasses.dfy`: the two skip passes of a report and their fixpoints.
* `KeepingUp.dfy`: plans in which the one pass over `on_failure` jobs is enough. `Strandings.dfy`: a stalled pipeline for
  each of the four conditions, without that condition alone.
* `Progress.dfy`: where the pass keeps up a pipeline can stall exactly when its dependencies hold a knot; for any plan,
  which reachable states stall and the verdict of a run that cannot continue.
* `Termination.dfy`: every run is finite; automatic retries are bounded, and follow exactly the failures a job lists.
* `Coherence.dfy`: the stored status is the derived one, with the exact condition where a step stores it by hand; start and
  finish times stay.
* `Fencing.dfy`: job tokens fence off stale attempts. `Payload.dfy`, `TokenHolders.dfy`: tokens also go out with the
  artifacts of their jobs; exactly when each is with one runner. `Exclusion.dfy`: resource groups exclude.
* `Validation.dfy`, `Diagnostics.dfy`: the validation of `needs` and what it lets through; the diagnostics page makes
  the same decision as the poll.
* `Masking.dfy`, `Trace.dfy`: the masking of trace bytes, and the upload of a trace as a protocol over a network that
  loses, repeats and delays. `Secrecy.dfy`: no stored trace shows a masked variable's value.

**The configuration front end.** `RuleText.dfy` and `RuleEval.dfy` are the splitter, the bracket stripper and the
evaluator of rule expressions; `RulePrint.dfy` proves the evaluator right on the text of every rule tree, with any
white space in each of its gaps and any quoted text that no operator splits; `Blanks.dfy` lists what counts as white
space. `Includes.dfy` is the include resolver, proved to flatten the include tree, and its exact condition for success;
`IncludePaths.dfy` says which file each include means along every path of includes.

**The multi-action commit.** `CommitIndex.dfy` applies file actions to a git index through an in-memory mirror;
`CommitHistory.dfy` reads a list of actions backwards, path by path, and says when each applies; `CommitRace.dfy`
publishes the commit by compare-and-swap, alone and in every interleaving.

**Cache keys.** `CacheKey.dfy` cleans a cache key as GitLab Runner does; `KeyText.dfy` says what its escapes and its
parts mean.

`Wrappers.dfy`, `Patterns.dfy` and `Samples.dfy` hold what the others share. Job tokens, the time and the sizes a
runner reports are parameters of the steps. A handler's transaction is one atomic step, except the commit, whose read
of the branch and update of it are two.

Properties that one would expect and that the code does not have are stated with the condition under which it has
them and with an input on which it fails:

* No pipeline stalls: `Progress.DeadlockFreeIff` and `Validation.ValidatedNeverStallsIff`. Needs inside one stage may
  be cyclic (`Validation.MutualNeedsPassValidation`), and the pass over `on_failure` jobs runs once, before the exit
  code is stored and before the other pass (`Strandings`).
* The stored status is the derived one: `Coherence.CreatedCoherentIff` with `Coherence.ManualOnlyIsIncoherent`, and
  `Coherence.CancelPipelineCoherentIff` with `Coherence.CancelLosesSuccess`. The cancel of the pipeline page derives the
  status, and the two cancels agree exactly under the same condition (`Coherence.CancelsAgreeIff`).
* A job is assigned under a token once: `Fencing.PendingReportFencesIff` with `Fencing.SameTokenTwice`.
* A token is with one runner: `TokenHolders.OneHolderInRunsIff` with `TokenHolders.ArtifactSharesToken`, where a job of
  the next stage gets the token with an artifact, and `TokenHolders.UnclaimedTokenGoesOut`, where it does so before the
  job has a runner. A runner is known by the name stored with the job.
* A resource group has one running job: `Exclusion.RevivalExcludesIff` with `Exclusion.RevivalBreaksExclusion`.
* A rule's text evaluates to the rule's truth value: `RulePrint.EvaluatorCorrect` with `RulePrint.QuotedOperatorSplits`.
* The stored trace is masked: `Trace.DeliveryKeepsPrefixIff` with `Trace.TornValueShows`.
* Moving a file back undoes moving it: `CommitIndex.MoveBack` with `CommitIndex.MovedBelowItself`.
* A normalised path or a cleaned key stays as it is: `CommitIndex.NormalizeAgainIff` with
  `CommitIndex.DoubleEscapeRefused`, `CacheKey.SanitizeIdempotentIff` with `CacheKey.DotUncovered`.

## Model

| member | source | states |
|---|---|---|
| `CiModel.StageUnblockedIff` | app/api/runner.py:1365-1395 | The poll's test over names and stages is a test over the dependency relation: no needed job is missing, every dependency lets the job through, and an `on_failure` job has a required failure among its dependencies |
| `CiModel.RequiredFailureDependencyIff` | app/api/runner.py:1326-1341 | A required failure among the needed names or the earlier stages is one among the dependencies |
| `CiModel.DependenciesTerminalIff` | app/api/runner.py:1344-1362 | The terminal test holds exactly when no need is missing and every dependency has ended |
| `Meaning.ComesAfterIff` | app/api/runner.py:1365-1395 | A job waits for the last job of each name it needs in its own pipeline, or without `needs` for the earlier stages |
| `Meaning.UnhinderedIff` | app/api/runner.py:1311-1433 | No other job hinders a job exactly when none it needs is absent, each dependency is success, skipped, manual, or failed with the failure allowed or the job running after failures, an `on_failure` job has a failure to run after, and no other job of its group runs |
| `Meaning.SuitsIff` | app/api/runner.py:1412-1418 | A runner suits a job when its tags cover the job's, or the job has none and the runner runs such jobs |
| `Meaning.UntriggeredIff` | app/api/runner.py:1344-1478 | The `on_failure` pass finds a waiting job all of whose dependencies are over and none failed without being allowed to |
| `Meaning.OvertakenIff` | app/api/runner.py:1436-1465 | The failed-stage pass finds a waiting job that runs after successes, behind a failure that was not allowed in an earlier stage, or of a job it needs by name |
| `Polling.PollsInOrder` | app/api/runner.py:1653-1656 | Over every run of every kind of request a poll takes only a pending job that no other job hinders |
| `Polling.CanceledHoldsBack` | app/api/runner.py:1384-1393 | Over every run, while a job stays canceled, that is until a retry or a late report of another state, no job that waits for it is taken |
| `Coordinator.RequestJob` | app/api/runner.py:1629-1668 | Unless the runner is paused a poll promotes the due delayed jobs, and then takes a job exactly when some pending job is unblocked, suits the runner and has its group free; it takes one of the earliest stage and there the oldest, and leaves every other pipeline as the promotion left it |
| `Coordinator.MayRunIff` | app/api/runner.py:1653-1656 | What the poll asks of a job and a runner is that no other job hinders the job and that the runner suits it |
| `Coordinator.PromoteDue` | app/services/delayed_jobs.py:32-57 | Every due job is promoted, each pipeline the fold of its own promotions |
| `Coordinator.PipelineRow.UpdateJob` | app/api/runner.py:1776-1801 | With the job's token a report takes the report step, skip passes, automatic retry and derivation in their order; with another token nothing changes |
| `Coordinator.PipelineRow.SettleReport` | app/api/runner.py:1790-1800 | A reported failure is either retried or followed by the skip pass, and an end is stamped |
| `Coordinator.PipelineRow.PatchTrace` | app/api/runner.py:1712-1754 | 403 for another token, 416 for a start that is negative or past the stored end with nothing changed, else the chunk replaces what is stored from its start and the whole is masked, without the values that playing the job has replaced |
| `Coordinator.PipelineRow.DeriveStatus` | app/api/runner.py:1261-1301 | The loop over the list of blocking statuses and its nine branches store the derived status and its time stamps; app/api/pipelines.py:1888-1928 is the same code |
| `Coordinator.PipelineRow.SkipOnFailureJobsWithoutFailure` | app/api/runner.py:1468-1478 | The loop that judges each job on the statuses it has already written is the recursive pass |
| `Coordinator.PipelineRow.SkipJobsAfterFailedStage` | app/api/runner.py:1436-1465 | Comparing with the first failed stage and the failed names skips exactly the waiting jobs that some required failure overtakes |
| `Coordinator.JobRow.ResetForRetry` | app/api/pipelines.py:1540-1559 | The record made ready for another attempt, with a new token and an empty trace |
| `Coordinator.JobRow.PrepareAutoRetry` | app/api/runner.py:810-828 | The same reset, with the attempt counted |
| `Coordinator.JobRow.RequeueStaleOrPending` | app/api/pipelines.py:1581-1598 | A reset that never waits for a delay |
| `Coordinator.PipelineRow.OperatorAction` | app/admin/routes.py:979-1034 | Each CI Lab action takes the step of the API or the requeue, and every refusal changes nothing; the job actions of a project's pages (app/web/routes.py:3784-3820) are the same without the requeue |
| `Coordinator.PipelineRow.CancelProjectJob` | app/api/pipelines.py:3743-3748 | Cancel of one job, with the derivation |
| `Coordinator.PipelineRow.RetryProjectJob` | app/api/pipelines.py:3763-3770 | Retry of one job, with the derivation and the cleared finish time |
| `Coordinator.PipelineRow.PlayProjectJob` | app/api/pipelines.py:3786-3809 | Play of a manual job, with the given variables added to its own; refused for any other |
| `Coordinator.PipelineRow.EraseProjectJob` | app/api/pipelines.py:3825-3828 | The trace and the artifacts of a job are erased, and the time of that stored, unless the job can still be canceled |
| `Coordinator.PipelineRow.UploadJobArtifacts` | app/api/runner.py:1823-1864 | An artifact is added with the job's token; with another one nothing changes |
| `Coordinator.PipelineRow.KeepProjectJobArtifacts` | app/api/pipelines.py:3863-3866 | The artifacts of a job, if it has any, no longer expire |
| `Coordinator.PipelineRow.DependenciesPayload` | app/api/runner.py:1000-1028 | The loop over the names gives the jobs whose tokens go out with a job |
| `Coordinator.PipelineRow.CancelPipelineRequest` | app/api/pipelines.py:3398-3404 | Every cancelable job is canceled and the status overwritten; the CI Lab does the same (app/admin/routes.py:932-938) |
| `Coordinator.PipelineRow.CancelFromPage` | app/web/routes.py:3739-3744 | The cancel of the pipeline page: every cancelable job is canceled and the status derived (app/web/routes.py:5372-5377 is the same code) |
| `Coordinator.PipelineRow.RetryPipelineRequest` | app/api/pipelines.py:3419-3427 | Every failed, canceled or skipped job is reset, and the status derived |
| `Coordinator.PipelineRow.CancelInterruptibleJobs` | app/api/pipelines.py:1973-1987 | A newer pipeline cancels the interruptible jobs; the status is derived only if there was one |
| `Coordinator.PipelineRow.Promote` | app/services/delayed_jobs.py:51-57 | A due delayed job becomes pending, and an ended pipeline pending again |
| `Coordinator.CreatePipeline` | app/api/pipelines.py:2166-2231 | A new pipeline is stored as pending, with one fresh record for each job of the plan, in order, manual, scheduled for its time, or pending |
| `Safety.FinalReportShape` | app/api/runner.py:1780-1801 | A final report changes its own job, and of the others skips only waiting ones; a failure that counts leaves no waiting job behind it that needs success |
| `Safety.ReportShape` | app/api/runner.py:1780-1801 | What any report leaves of tokens, traces and statuses, or an automatic retry with a new token and an empty trace |
| `Safety.SafetyKept` | app/api/runner.py:1436-1465 | Each poll, promotion, upload and report of a running job keeps: started jobs were let through, nothing waits behind a required failure, nothing is canceled |
| `Safety.DependencyOrderSafety` | app/api/runner.py:1365-1395 | Over every quiet run: success, failure, skipped and unplayed manual are never left, and a started job that needs success has all its direct dependencies in success, skipped, manual or allowed failure |
| `LifeCycle.OperatorOutcome` | app/api/pipelines.py:3743-3809 | What each request other than a report makes of each job: a cancel reaches exactly the open jobs, an interruption the interruptible ones of them, a retry of the pipeline the failed, canceled and skipped ones, which keep nothing of the last attempt; all other records stay |
| `LifeCycle.InterruptIdle` | app/api/pipelines.py:1973-1987 | A pipeline without open interruptible jobs is left as it is by a newer one, status and times included |
| `LifeCycle.PromotedPipeline` | app/services/delayed_jobs.py:51-57 | A promotion reopens an ended pipeline and clears its finish time, and leaves an open one as it is |
| `LifeCycle.AcceptedIff` | app/api/pipelines.py:3743-3828 | In which status each request is accepted |
| `LifeCycle.ReportStored` | app/api/runner.py:1780-1800 | A report of another state than a failure is stored with its details, and a success with its time |
| `LifeCycle.ReportSkips` | app/api/runner.py:1782-1797 | A report skips exactly the other jobs that the first pass finds and, after a failure not retried, those that the second pass finds, and leaves all other records |
| `LifeCycle.StatusHasCause` | app/api/runner.py:1653-1801 | Over every run a job in another status than at the start was brought there by a request that can: it runs because a runner took it, succeeds or fails because one said so, is canceled by a cancel or, if interruptible, by an interruption; an `always` job is skipped only by a report of that |
| `LifeCycle.NewJobIs` | app/api/pipelines.py:2218-2276 | A new job waits for a click, for its time, which is the delay after the creation, or for a runner |
| `LifeCycle.NotBeforeItsTime` | app/services/delayed_jobs.py:35-57 | Over every run a delayed job that is not reported on, requeued, retried or canceled is not taken before its time |
| `Progress.NumberedIsKnotFree` | app/api/pipelines.py:1636-1648 | Acyclic needs inside each stage, and none into a later stage, leave no knot |
| `KeepingUp.NoneLeftBehind` | app/api/runner.py:1780-1797 | In no reachable state is an `on_failure` job left that the pass should have skipped, for plans in which each such job is listed after those it depends on, has a dependency that is not manual, waits for no job whose failure its exit code may allow, and watches every failure that can skip a dependency of it |
| `KeepingUp.KeptUpKept` | app/api/runner.py:1776-1801 | Each poll, promotion, upload and report of a running job keeps the invariant behind it |
| `Progress.StalledIff` | app/api/runner.py:1365-1433 | In a knot-free plan, whatever its `on_failure` jobs, a reachable state stalls exactly when nothing runs, nothing can go ahead, and an `on_failure` job is left that the skip pass would skip |
| `Progress.NeverStalls` | app/api/runner.py:1365-1478 | In a knot-free plan in which the pass keeps up no reachable state stalls, `on_failure` jobs included |
| `Progress.DeadlockFreeIff` | app/api/runner.py:1365-1478 | In a plan in which the pass keeps up, `on_failure` jobs included: no reachable state stalls if and only if the plan has no knot of jobs that wait for each other |
| `Progress.KnottedStalls` | app/api/runner.py:1365-1395 | Any new pipeline whose plan has a knot has a run to a stall |
| `Progress.Verdict` | app/api/runner.py:1261-1301 | For any plan, a run that cannot continue stores `pending` if a job is left waiting, else `failed` if some job failed without being allowed to, else `success`, with a finish time unless it is `pending`; no job is left waiting in a knot-free plan in which the pass keeps up |
| `Strandings.AllowedCodeStrands` | app/api/runner.py:1780-1797 | A stall with an `on_failure` job waiting: its dependency failed with an allowed exit code, stored only after the pass had run; the other conditions hold |
| `Strandings.OvertakenStrands` | app/api/runner.py:1782-1797 | A stall: the second pass skips the dependency of an `on_failure` job the first pass has gone by; the other conditions hold |
| `Strandings.LateListingStrands` | app/api/runner.py:1468-1478 | A stall: an `on_failure` job listed before the one it needs, which the pass skips; the other conditions hold |
| `Strandings.LoneJobStrands` | app/api/runner.py:1365-1395 | An `on_failure` job with nothing before it waits from the start; the other conditions hold |
| `Termination.RunsAreFinite` | app/api/runner.py:787-828 | Polls, promotions and final reports in a run are no more than the remaining retries and phases of its start, however many uploads and intermediate reports there are |
| `Termination.FailureRetriedIff` | app/api/runner.py:772-828 | A reported failure queues its job again with a new token and an empty trace exactly when attempts remain, the reason (`script_failure` when there is none) or `always` is listed or no reason is, and the exit code is listed or none is; any other failure stays and takes no attempt |
| `Termination.UnlistedNeverRetried` | app/api/runner.py:772-776 | Over every run a job that lists neither `always` nor the reason of any report about it is never retried automatically |
| `Termination.StepCountsRetry` | app/api/runner.py:810-811 | Every step of every kind raises a job's attempts by a failure it lists while attempts remain, and by nothing else |
| `Termination.AutoRetriesBounded` | app/api/runner.py:787-811 | In every run of every kind of step and with any reports each job is retried automatically at most `max` times |
| `Coherence.DerivedStatusMeaning` | app/api/pipelines.py:1888-1928 | The nine branches are a priority of running, waiting, canceled, required failure and success; the last branch is never taken |
| `Coherence.CreatedCoherentIff` | app/api/pipelines.py:2174-2174 | The stored `pending` is the derived status exactly when some job is pending or scheduled, or there is no job |
| `Coherence.ManualOnlyIsIncoherent` | app/api/pipelines.py:2174-2174 | A new pipeline of one manual job, stored as pending and derived as success |
| `Coherence.CancelPipelineCoherentIff` | app/api/pipelines.py:3398-3404 | The stored `canceled` is the derived status exactly when the pipeline had a job to cancel or a canceled one |
| `Coherence.CancelFromPageCoherent` | app/web/routes.py:3739-3744 | The pipeline page's cancel leaves the derived status, for every pipeline with jobs |
| `Coherence.CancelsAgreeIff` | app/web/routes.py:3739-3744 | The two cancels of a pipeline do the same exactly when it had a job to cancel or a canceled one |
| `Coherence.CancelLosesSuccess` | app/api/pipelines.py:3398-3404 | A new pipeline whose one job is taken and succeeds is incoherent after a cancel |
| `Coherence.CoherenceKept` | app/api/runner.py:1659-1668 | Every step keeps the stored status equal to the derived one, and the finish time set exactly on a final status |
| `Coherence.StatusCoherence` | app/api/pipelines.py:1888-1928 | The same over every run of every kind of step, for pipeline cancels that find a job to cancel or a canceled one |
| `Coherence.StartTimeStays` | app/api/pipelines.py:1911-1914 | Over every run of every kind of step a running pipeline has a start time, and a start time once stored stays |
| `Coherence.FinishTimeStays` | app/api/pipelines.py:1888-1928 | Over every run through which a pipeline stays ended its finish time stays |
| `SkipPasses.SweepFixedIff` | app/api/runner.py:1468-1478 | The `on_failure` pass changes nothing exactly when no job is left to skip |
| `SkipPasses.SweepsReachFixpoint` | app/api/runner.py:1468-1478 | As many passes as jobs reach a fixpoint, in any listing |
| `SkipPasses.OrderedSweepIdempotent` | app/api/runner.py:1468-1478 | One pass is a fixpoint when each `on_failure` job is listed after the `on_failure` jobs it depends on |
| `SkipPasses.OvertakenPassSettles` | app/api/runner.py:1436-1465 | The failed-stage pass is idempotent and leaves no waiting job that needs success with a direct dependency on a required failure |
| `SkipPasses.OvertakenPassOrderFree` | app/api/runner.py:1436-1465 | The failed-stage pass gives the same records in every order of the list |
| `Payload.PayloadIff` | app/api/runner.py:1000-1028 | A job's token goes out with another job exactly when that one asks for its artifacts (by `dependencies`, else by its needs, else by its stage), it is the last job of its name, and it has an artifact that does not expire or does so later than now, whatever its status |
| `Payload.AssignKeepsPayload` | app/api/runner.py:1659-1690 | Taking the job does not change what goes out with it |
| `Fencing.AttemptsFenced` | app/api/runner.py:1712-1713 | Over every run of every kind of request in which no runner reports `pending`, no two polls assign a job under one token, and every stored trace byte came with the job's current token |
| `Fencing.FenceKept` | app/api/runner.py:1778-1779 | The invariant behind it: tokens are apart, and no poll has assigned a job that can still be taken under the token it has |
| `Fencing.PendingReportFencesIff` | app/api/runner.py:1780-1782 | A report of `pending` keeps that invariant exactly when the job was not assigned under its token, or it is an `on_failure` job that the pass, when it comes to it, finds untriggered |
| `Fencing.PendingReportBreaksFence` | app/api/runner.py:1780-1781 | After such a report the next poll that takes the job assigns it under the same token again |
| `Fencing.SameTokenTwice` | app/api/runner.py:1780-1781 | A job taken, reported `pending` and taken again, assigned to two runners under one token |
| `TokenHolders.AnsweredIff` | app/api/runner.py:941-958 | A poll's answer holds exactly the token of its job and those of the jobs whose artifacts it gets |
| `TokenHolders.OneHolderIff` | app/api/runner.py:941-958 | After any request each token is still with one runner exactly when no other runner holds a token of its answer |
| `TokenHolders.OneHolderInRunsIff` | app/api/runner.py:941-958 | Over every run of every kind of request each token is with one runner exactly when no answer of the run held a token that another runner had by then |
| `TokenHolders.UnsharedTokensGoOutOnce` | app/api/runner.py:941-943 | Where no artifact is uploaded and no runner reports `pending`, no token goes out twice in any way |
| `TokenHolders.ArtifactSharesToken` | app/api/runner.py:941-958 | Without any report of `pending`: a job is taken, uploads and succeeds, and the runner of the next stage has its token too |
| `TokenHolders.UnclaimedTokenGoesOut` | app/api/pipelines.py:1540-1559 | A retried job keeps its artifact, and its new token goes out with a later job before the retried one is taken |
| `Exclusion.RunningOnlyByPoll` | app/api/runner.py:1659-1660 | Without reviving reports a job runs after a step only if it ran before or the poll took it |
| `Exclusion.ResourceGroupExclusion` | app/api/runner.py:1421-1433 | Over every run of every kind of step, as long as no report revives a job that does not run, at most one job of a resource group runs |
| `Exclusion.RevivalExcludesIff` | app/api/runner.py:1780-1781 | A report that makes a job running keeps the groups apart exactly when the job's group was free |
| `Exclusion.RevivalBreaksExclusion` | app/api/runner.py:1780-1781 | In a new pipeline a job ends, another one of its group is taken, and a late report makes the first one run again |
| `Validation.ValidateJobNeeds` | app/api/pipelines.py:1601-1648 | Accepts exactly the plans with no repeated, own, missing or later-stage need, and else complains truthfully about the first job that has one |
| `Validation.CheckJobNeeds` | app/api/pipelines.py:1606-1648 | The four complaints about one job, the first that is justified in the order of repeated, own, missing and later needs, with the names each is about |
| `Validation.JobNeedsValidIff` | app/api/pipelines.py:1606-1648 | A job's needs are valid when no two are for the same job of the same place, none is for the job itself, and each in the same pipeline is for a job that is there, unless it is optional, and not in a later stage |
| `Validation.ValidNeedsPresent` | app/api/pipelines.py:1622-1635 | A validated plan misses no need |
| `Validation.KnotInsideOneStage` | app/api/pipelines.py:1636-1648 | Any knot of a validated plan holds one inside a single stage |
| `Validation.ValidatedNeverStallsIff` | app/api/pipelines.py:1601-1648 | A new pipeline that passed validation, in whose plan the pass keeps up, never stalls if and only if no jobs of one stage wait for each other in a circle |
| `Validation.StagedKeepsUp` | app/api/runner.py:1436-1478 | In a validated plan the pass keeps up with `on_failure` jobs that have no `needs`, are listed by stage, have a job that is not manual in an earlier stage, and no exit codes allowed there |
| `Validation.StagedNeverStallsIff` | app/api/runner.py:1365-1478 | Such a pipeline never stalls if and only if no jobs of one stage wait for each other in a circle |
| `Validation.MutualNeedsPassValidation` | app/api/pipelines.py:1601-1648 | Two jobs of one stage that need each other pass validation and are a knot |
| `Diagnostics.ExplainJobScheduling` | app/api/runner.py:394-549 | A job is reported eligible exactly when the poll would take it for a runner with these tags; a pending job's blockers are exactly what holds it back, a scheduled job waits for its time, and a running one is reported only when it is stale |
| `Diagnostics.PendingBlockers` | app/api/runner.py:438-547 | The blockers of a pending job are exactly the failure it waits for, the absent needs, the dependencies that do not let it through, the runner's missing tags, and the holder of its group |
| `Diagnostics.UnblockedIff` | app/api/runner.py:438-547 | Nothing blocks a job exactly when the poll of a runner with these tags would take it |
| `Diagnostics.GroupHolder` | app/api/runner.py:1421-1433 | The running job that holds the group, if there is one |
| `Masking.MaskIdempotent` | app/services/ci_redaction.py:31-35 | Masking masked bytes changes nothing, for values without NULs |
| `Masking.MaskSplits` | app/services/ci_redaction.py:31-35 | Two parts are masked as the whole is when no occurrence of a value has the cut inside it |
| `Masking.ResendIff` | app/services/ci_redaction.py:31-35 | With one masked value, bytes sent again from an offset give the masked log exactly when no overwritten occurrence has the offset inside it |
| `Masking.PrefixValueEscapes` | app/services/ci_redaction.py:31-35 | A value that begins with another one, masked in two goes, leaves its end unmasked |
| `Masking.NulValueMasksMore` | app/services/ci_redaction.py:31-35 | A value with a NUL in it, for which masking twice masks more |
| `Secrecy.ChunkHidesSecrets` | app/api/runner.py:1741-1743 | After an accepted chunk the trace holds no value of a masked variable that playing the job has not replaced; it is what was kept and sent but for overwritten bytes, and exactly that when no such value is in it |
| `Secrecy.TracesHideSecrets` | app/api/runner.py:1741-1743 | Over every run of every kind of request no stored trace holds the value of a masked variable of its job that no play has replaced |
| `Trace.AppendStepPatches` | app/api/runner.py:1735-1747 | The coordinator's trace step is the protocol's, masking included |
| `Trace.StoredAlwaysPrefix` | app/api/runner.py:1719-1747 | Under any losses, resends and late duplicates the stored bytes are a prefix of the log, masked, as long as no chunk that arrives starts inside a masked value |
| `Trace.DeliveryKeepsPrefixIff` | app/api/runner.py:1735-1747 | With one masked value, a chunk in range leaves a masked prefix of the log exactly when it starts inside no overwritten occurrence |
| `Trace.UnmaskedIsHarmless` | app/api/runner.py:1741-1743 | Without masked values every run meets the condition |
| `Trace.TornValueShows` | app/api/runner.py:1741-1743 | A value of two bytes sent byte by byte, the second chunk delivered twice: the stored bytes show the second byte |
| `Trace.RoundIsThreeActions` | app/api/runner.py:1735-1754 | An answered round is a send, a delivery and a receipt of the protocol |
| `Trace.RoundConfirms` | app/api/runner.py:624-634 | An answered round confirms what is stored; one in range and not empty raises the confirmed offset |
| `Trace.TraceConverges` | app/api/runner.py:1719-1754 | From any state so reached, one answered round to resynchronise and one for each byte store and confirm the whole log, masked when no round's chunk starts inside a masked value |
| `Trace.ResynchronisedIsHarmless` | app/api/runner.py:624-634 | With one masked value no chunk sent from the stored size does |
| `RuleText.SplitTopLevelExpression` | app/api/pipelines.py:712-730 | The index and depth loop gives the trimmed pieces between the top-level operators |
| `RuleText.SplitterLaws` | app/api/pipelines.py:712-730 | The untrimmed pieces joined by the operator are the text, and no part holds the operator at depth zero |
| `RuleText.PiecesShorter` | app/api/pipelines.py:782-792 | When a text splits every part is shorter than it |
| `RuleText.WrapsEntireExpression` | app/api/pipelines.py:736-746 | The scan for an outer bracket that closes too early |
| `RuleText.StripExpressionParentheses` | app/api/pipelines.py:733-749 | The loop strips all the enclosing brackets and the white space inside them; the result is empty, or has neither outer white space nor brackets around the whole |
| `RulePrint.EvaluatorCorrect` | app/api/pipelines.py:752-792 | The text of any rule tree with at least the brackets precedence needs, its own white space in every gap, and quoted and bare texts of any characters that leave the brackets balanced and put no `||` or `&&` outside them and no comparison where it is found before the rule's own, evaluates to the tree's truth value for every variable map |
| `RulePrint.AnyTreeEvaluates` | app/api/pipelines.py:712-792 | Every tree over good operands and white space, with brackets added where precedence needs them or everywhere, evaluates to its truth value |
| `RulePrint.QuotedOperatorSplits` | app/api/pipelines.py:712-730 | A quoted `||` is split at its operator, and the text, which is not empty, counts as empty |
| `RulePrint.BlankFails` | app/api/pipelines.py:752-792 | A rule of white space does not hold |
| `Blanks.SpaceIff` | app/api/pipelines.py:728-729 | Exactly these characters count as white space |
| `Includes.IncludeRulesMatch` | app/api/pipelines.py:838-856 | An include is admitted exactly when a first rule applies and does not say `never` |
| `Includes.IncludeReader.Read` | app/api/pipelines.py:896-943 | The reader with its changing set of active files resolves as the function on values does, and a successful read leaves the set as it was |
| `Includes.IncludeReader.ReadItems` | app/api/pipelines.py:962-982 | The loop over the include items, which stops at the first error |
| `Includes.FlatMerge` | app/api/pipelines.py:688-694 | Merging two flattened lists of files is flattening them one after the other |
| `Includes.ResolutionIsFlattening` | app/api/pipelines.py:961-983 | Each key of the resolved configuration has the value of the last file in post-order that defines it, no other key is there, and `include` is none |
| `Includes.ResolveIff` | app/api/pipelines.py:908-918 | A file resolves exactly when it is in depth, good and not active, and every admitted include resolves below it |
| `Includes.ResolvesIff` | app/api/pipelines.py:908-1062 | Resolution succeeds exactly when every path of admitted includes has at most 11 files, good ones, no two with one key; a file may come again on another path |
| `IncludePaths.ChainIff` | app/api/pipelines.py:986-1062 | The paths of includes from the root are exactly those along which each file lists an admitted include that names the next one: a repository file by its path without leading slashes, in the project and at the reference of the nearest `project:` include above it or else of the root, a remote file by its URL, a template by its name |
| `IncludePaths.NodeGoodIff` | app/api/pipelines.py:961-1001 | A file is good when it is there and parses, and each include it lists has rules that are a list and, if admitted, a project that exists |
| `IncludePaths.SameKeyIff` | app/api/pipelines.py:912-1043 | Two files count as one when they are one path at one reference of one project, one URL, or one template |
| `IncludePaths.AdmittedIff` | app/api/pipelines.py:838-856 | An include is admitted when it has no rules, or the first of them all whose conditions hold does not say `never` |
| `IncludePaths.ResolveFault` | app/api/pipelines.py:908-1062 | The error of a failed resolution tells the truth: some path of includes leads to a file that is too deep, repeats a key of the path, is missing or malformed, or has an include with bad rules or an absent project |
| `CommitIndex.CommitBuilder.ApplyAction` | app/api/repository_files.py:359-457 | One action refuses exactly when it does not apply to the tree, and else leaves the index and the mirror equal to the tree it gives, with no path below another |
| `CommitIndex.CommitBuilder.ApplyActions` | app/api/repository_files.py:353-459 | The list of actions gives the tree folded over it, or the first refusal |
| `CommitIndex.GitIndex.UpdateIndex` | app/api/repository_files.py:449-456 | Git's refusal of clashes between files and directories, as assumed |
| `CommitIndex.EffectAllKeepsSound` | app/api/repository_files.py:299-309 | No list of actions puts a file where a directory is or below a file |
| `CommitIndex.OthersKept` | app/api/repository_files.py:359-457 | Paths no action names keep their mode and content |
| `CommitIndex.DeleteUndoesCreate` | app/api/repository_files.py:379-405 | Create and then delete is the old tree |
| `CommitIndex.MoveBack` | app/api/repository_files.py:407-434 | Moving back is the old tree, or refused when the file was moved below its own old path |
| `CommitIndex.MovedBelowItself` | app/api/repository_files.py:407-434 | A file moved below its own old path, and refused on the way back |
| `CommitIndex.MoveIsDeleteCreate` | app/api/repository_files.py:407-434 | A move is a delete and a create with the old mode and content |
| `CommitHistory.TreeIsHistory` | app/api/repository_files.py:359-457 | The tree a list of actions gives has at every path exactly the content of the last create, update or move with content there, followed back through moves to the start tree, and the mode of the last create, or update or chmod with a flag |
| `CommitHistory.UpdateIsDeleteCreate` | app/api/repository_files.py:437-457 | Deleting a file and creating it again with its own mode is an update with the new content |
| `CommitHistory.CreateAppliesIff` | app/api/repository_files.py:379-399 | A create applies exactly when it has content and the path is free, with no file or directory in its way, and how it is refused otherwise |
| `CommitHistory.MoveAppliesIff` | app/api/repository_files.py:407-434 | A move applies exactly when there is a file to move, the path is free once that file is gone, and any content decodes; without the file it is not found |
| `CommitHistory.ChangeAppliesIff` | app/api/repository_files.py:401-457 | An update, a deletion or a chmod applies exactly when the file is there and an update has content, a chmod a flag; without the file it is not found |
| `CommitHistory.PathIff` | app/api/repository_files.py:141-149 | A path means what is left of it without slashes around it, if anything is and no segment is a dot or two |
| `CommitIndex.NormalizeAgainIff` | app/api/repository_files.py:141-149 | A normalised path means itself in another request exactly when no escape is left in it |
| `CommitIndex.DoubleEscapeRefused` | app/api/repository_files.py:141-149 | Dots escaped twice are accepted, and the path that results is refused |
| `CommitRace.Branch.CreateMultiActionCommit` | app/api/repository_files.py:349-483 | The branch moves to a commit of the folded tree on the parent that was read, or the request fails and the branch stays |
| `CommitRace.Branch.CommitRequest` | app/api/repository_files.py:334-347 | Without interference a request succeeds exactly when there is a parent to build on and the actions apply; any failure leaves the branch unchanged |
| `CommitRace.Branch.UpdateRef` | app/api/repository_files.py:478-481 | Compare-and-swap on the branch, or an unconditional update |
| `CommitRace.NoLostCommit` | app/api/repository_files.py:473-481 | In every interleaving of unforced multi-action commits each successful one is an ancestor of the final head, has as parent exactly the head it replaced, and the final tree is that of the requests one after the other |
| `CommitRace.PublishFailsIff` | app/api/repository_files.py:473-483 | In every interleaving a publication fails, and leaves the head, exactly when its actions do not apply to the head its client last read, or any commit was published after that read |
| `CommitRace.PublishedIff` | app/api/repository_files.py:463-483 | A commit is published exactly when its actions apply to the parent's tree and the branch is still at the parent, is new, or the commit is forced; it has that parent, the tree and the message |
| `CommitRace.SameHeadIff` | app/api/repository_files.py:473-483 | The branch has the same head at two times of a race exactly when nothing was published between them |
| `CacheKey.SanitizeCacheKey` | app/api/runner.py:1909-1930 | The loop that pops blank parts gives the cleaned key, or the error |
| `CacheKey.SanitizeMeaning` | app/api/runner.py:1913-1930 | The detour over the normalised path text is a computation on the parts |
| `CacheKey.DecodedIsPlain` | app/api/runner.py:1913-1919 | Decoding leaves no escape and no backslash, whatever the replacements put together |
| `KeyText.DecodedEach` | app/api/runner.py:1913-1919 | A key is decoded escape by escape: `%2f` and the backslash are slashes, `%2e` is a dot, in either case of the letter, and every other character is itself |
| `KeyText.NormalLaws` | app/api/runner.py:1920-1921 | Empty parts and dots go wherever they stand, two dots go with the part before them or alone in front, and what is left stays |
| `KeyText.StrippedIs` | app/api/runner.py:1922-1926 | Of the parts those at the end that are white space go, and the white space at the end of the last one left |
| `KeyText.CleansIff` | app/api/runner.py:1911-1930 | A key can be cleaned exactly when it is empty or some part of its normalised path is more than white space |
| `KeyText.LeadIff` | app/api/runner.py:1911-1930 | The empty key stays; any other begins with a slash exactly when it does so with a single one once decoded |
| `CacheKey.SanitizeIdempotentIff` | app/api/runner.py:1909-1930 | Cleaning a cleaned key changes nothing exactly when its last segment is neither `.` nor `..`; at most one slash is kept in front |
| `CacheKey.DotUncovered` | app/api/runner.py:1921-1926 | A key that ends in a dot and white space, whose cleaned form is cleaned further |

## Left out

- The database, HTTP routing, permissions, payloads and message texts; a handler is one atomic step on the rows it loads.
- Jobs of other pipelines in the state machine: a pipeline is modelled alone, and only `Coordinator.RequestJob` chooses among several.
- The queries behind a poll: the list of due delayed jobs, cut at a hundred, and the list of pending jobs are given to `Coordinator.RequestJob`; in the state machine a promotion may come at any time from the job's own on.
- Bridge jobs and downstream pipelines; creation is modelled from the parsed jobs on, all of them stored at once.
- Needs of other projects and pipelines: the scheduler ignores them, and so does the model. A poll that gets an artifact of this pipeline for such a need is the step `Lend`; the artifacts this pipeline's jobs get from others are not part of it.
- What an artifact holds; the time it expires is given with the upload. For a job without `needs` and `dependencies` the code sorts the payload's entries by stage, the model leaves them in the order of the jobs.
- The projects of resource groups: all jobs of a pipeline have the same project.
- Reports are limited to the six states the API admits (app/api/runner.py:91-98); byte counts in reports are naturals; coverage and checksums.
- KeepingUp.NoneLeftBehind: its conditions on the plan, and with them those of Progress.DeadlockFreeIff, are sufficient, and each is needed by an example (Strandings); that every plan without them can stall is not claimed and is not so, since a later report may make up for it.
- Fencing.AttemptsFenced: takes new tokens to be different from all earlier ones, since they are drawn at random.
- Trace.StoredAlwaysPrefix: with several masked values the condition asks that no occurrence of a value has the offset inside it, which is more than is needed; it is exact for one value. Values hold no NUL byte, and are masked in the order of the list.
- The syntax of the `Content-Range` header; the recorded size a 416 answer changes without storing it; the display text of a trace.
- The clock: whether a running job is stale is a parameter of Diagnostics.ExplainJobScheduling; the texts of the reasons and the scheduled and stale details.
- YAML parsing, the reading of include items from it, the fetching of remote files with its list of hosts, and the matching of path patterns: parameters of the include model.
- KeyText.DecodedEach: a `%` that begins no escape is left out; what such a one makes together with decoded characters is covered by CacheKey.DecodedIsPlain.
- Secrecy.TracesHideSecrets: a masked value with a NUL byte in it, which `Masking.NulValueMasksMore` is about, is not promised to stay hidden.
- Percent-decoding of file paths beyond what CommitIndex.NormalizeAgainIff says of it, base64 and the hashing of blobs: content stands for its blob; git's own rule for storable paths is a parameter.
- The check of a branch name, author fields and the project's push time; the single-file commit (app/api/repository_files.py:220), which publishes without an old value.
- RulePrint.EvaluatorCorrect: names of variables hold no operator character, bracket, brace, quote or white space; texts with unbalanced brackets, which the code evaluates right in some places and not in others, are left out; bare texts do not begin or end with an operator character.
- Pattern matching with `=~`, which the code's evaluator does not have.
- The collection of variables, environments, deployments, test reports, schedules, issues and the rest of the API.
