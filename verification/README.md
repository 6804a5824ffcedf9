# A verified model of the QA agent's planning, execution and memory

This project models the decision logic of an agent that tests web applications with a browser and a language model, and proves what that logic guarantees whatever the browser and the language model answer. `dafny verify dfyconfig.toml` checks all of it.

Three parts of the system are modelled.

1. **The plan executor and the services it drives.** `PlanExecutor`, `StepServices`, `Harness`, `Locators`, `ActionPolicy` and `PlanPatches` follow the nested step/attempt loop, the element map, availability, recovery, replanning and the action policy as classes and methods with the branches of the source. A browser, a model provider and an evidence store are any functions from the time of a call to its answer or rejection, so a theorem about all of them is a theorem about whatever they do. Everything that happens in a `Session` is appended to a history: each call with its answer, each change of the element map, the run data and the result. `Attempts` says what an attempt can show by indices into that history (where the page was looked at, which action was executed, which conditions were judged on what, how recovery went), `AttemptLaws`, `RecoveryLaws` and `RunLaws` what that means (with complete histories set on `Stages`), and every event, end and error of a run is tied to its own stretch of it. `PlanRuns` is the abstract state machine that every execution is proved to follow (plan, step index, attempt, replans, iterations); the theorems about whole runs are stated there.

2. **The task planner and the reactive runner.** `TaskGraph` has the recursive, cycle-tolerant topological sort against reachability in the dependency graph; `ScenarioPlanner` the filtering, deduplication, truncation and relinking behind it; `ReactiveRunner` the bounded decide, act, validate and recover cycle, in the same kind of session, with its rules against false positives; `TaskLaws` says what it takes for a task to pass and `DecisionLaws` which decisions are used.

3. **Text formats and indexes.** `MemoryChunks`, `MemoryRendering`, `MemoryGeneration`, `ChunkRenderer` and `MemoryPromotion` have the reader and both writers of memory files; `GitDiff` the reader of added lines against a printer for multi-file, multi-hunk unified diffs ("Diff -u or -U Output Format" of the `diff` utility, POSIX.1-2017); `Bm25` the search index; `Correlation` and `Correlator` the matching of acceptance criteria with a diff and memory; `TaskMemory` the bounded working memory; `Knowledge` the keep-first merge. `Domain`, `Ranking`, `Lines` and `Text` hold what they share.

What the methods compute is said by functions; what these mean is proved apart from their bodies, in the same modules and in `LocatorLaws`, `CorrelationLaws`, `TaskLaws` and `DecisionLaws`.

Where a plausible property is false of the code, the model keeps the code, shows an input for which it fails, and proves the exact condition under which it holds:

- A plan patch may name a step that was already passed. The executor then moves on without executing what the patch wrote behind it: an ok result covers every step of the final plan if and only if no applied patch was backward (`PlanRuns.CoveredExactly`; `RunLaws.OkRunCanSkipItsPlan` is a complete history of an ok execution that skips its final plan).
- After a successful recovery the outcome is described on the observation from before the recovery while the element map belongs to a newer one; a stale observation is thrown there if and only if the first postcondition names an element and the two pages have different ids, and nowhere else (`AttemptLaws.StaleExactlyAfterRecovery`, with the history `AttemptLaws.RecoveredStepCanBeStale`). Observation ids are made of the time and a random number (src/infra/observation/observation.service.ts:35); as long as no two are the same, no step whose first postcondition names an element passes, is retried or is patched by a recovery that worked (`AttemptLaws.ElementStepsOnlyRecoverInVain`, `AttemptLaws.RecoveredElementStepsFailed`).
- A step passed through recovery does not have its business assertions checked, and a failed action passes when the postconditions hold (`AttemptLaws.RecoveredPassCanBreakAnAssertion`); the assertions were judged to hold if the pass is clean, which it is if and only if its action succeeded and its postconditions held at once (`AttemptLaws.CleanExactlyWithoutSlip`).
- An action that generates values is expanded again after its target was made available, and a drag is never looked up by its source; both can then fail, and nothing else can (`Harness.GeneratedTargetCanBeLost`, `Harness.DragNeedsItsSource`, `Harness.ReresolvingSucceeds`).
- The patch guard counts assertions and does not compare them (`PlanPatches.AssertionsAreOnlyCounted`); an accepted patch keeps all of them if and only if it writes back those of the steps it affects (`PlanPatches.PatchKeepsAssertionsExactly`).
- The ambiguity guard of the token overlap compares the two best candidates only (`Locators.RivalsCanBeLetThrough`); it lets a rival through if and only if the runner-up is not as actionable as the selection and a candidate behind it is a rival (`Locators.GuardExactly`).
- Typing text drops the locator of its target (`Harness.TypeTextIsNeverLookedUp`), as the untyped kinds do and no others (`Harness.TargetIsKeptExactly`). A text-any condition is bound to its first text, so recovery can be after another text than the check (`StepServices.RecoveryCanBeAfterAnotherText`) unless the first is shown or none of the others is (`StepServices.TextAnyIsItsFirstExactly`).
- A chunk id with an underscore is rendered but cannot be read back (`ChunkRenderer.ChunkIdIsIdExactly`); putting the header into a memory file can turn an indented heading into a section (`MemoryPromotion.HeaderCanAddSection`, exactly when by `MemoryPromotion.EnsureHeaderReads`); an extracted chunk of a type the reader does not know is lost when the file is read (`MemoryGeneration.ChunkReadsExactly`).
- An added line that starts with `++ ` is taken for file metadata (`GitDiff.DiffRoundTripExactly`).
- Memory of negative relevance can push a correlation score below zero, which its schema rejects by throwing (`Correlation.NegativeMemoryThrows`, exactly when by `Correlation.MatchThrowsExactly`).
- Working memories of tasks of two scenarios can coincide (`TaskMemory.KeysCanCollide`), if and only if the id of one, followed by a colon, begins the id of the other (`TaskMemory.ScenariosCollideExactly`).
- A star in an allowed route is a wildcard at the end only: elsewhere it is left out, so that the routes it seems to cover are refused (`ActionPolicy.MiddleStarIsNoWildcard`, exactly what is allowed by `ActionPolicy.AllowsExactly` and `ActionPolicy.StemsAllowExactly`).
- A condition on the state of the run or of the network has no bound form: recovery for it is after a clean console (`Harness.BindingKeepsClaim`).

## Model

| member | source | states |
|---|---|---|
| `PlanExecutor.PlanExecutorService.Execute` | src/application/services/plan-executor.service.ts:54-56 | Against any browser and any model the run ends, and its history holds nothing but what they answered. An ok answer means that the assertions of the starting plan were judged to hold on a page looked at after the last event, and that every step of the final plan passed by an event of its own exactly when no applied patch edited a position already left behind (otherwise some slot of the final plan was never executed). Any other answer and any error has its reason in what happened after the last event: the policy refused the very action chosen then, the repetitions are used up, the attempt got stuck and nothing patched the plan, or the plan-level assertions failed; a call was just rejected, or something could not be looked up, expanded or bound. When a check broke off, every condition before the one that could not be judged was judged to hold. Every action executed for a step was launched as its attempt requires, keeps the action policy by the attempts on record then (navigation under a listed route if any is listed, a click at coordinates only after three failed actions on the page) and names nothing destructive unless that is allowed, and is what its step asks for as expanded right before, payload, key and route included, on the elements its locators find, or unchanged the model's decision; nothing else is executed but what opens the container picked for the target of an expanded action on a page shown that lacks it, or is one of the recovery actions. An outcome judged after recovery is on record, as a pass, a retry or what a patch is for, only if it could be described on the observation before the recovery. In fair weather the plan passes unpatched with one clean event per step. The final version counts the applied patches, within the replan budget; the actions executed for steps are bounded by (longest plan + replans) x iteration limit x attempt limit. |
| `PlanExecutor.PlanExecutorService.RunExecution` | src/application/services/plan-executor.service.ts:58-244 | The nested loop ends by the measure (replans left, steps left, iterations left); what it did is a run of the abstract machine, each event of which is justified by its own stretch of the history; how it stops is justified by the stretch after the last event |
| `PlanExecutor.PlanExecutorService.Advance` | src/application/services/plan-executor.service.ts:64-232 | One round of the loop keeps everything accounted for up to now and brings the run one patch, one step or one repetition further, or stops it for a reason, which does not happen in fair weather |
| `PlanExecutor.PlanExecutorService.Finish` | src/application/services/plan-executor.service.ts:234-244 | After the last step the answer is the verdict on the assertions of the starting plan, and nothing more is executed |
| `PlanExecutor.PlanExecutorService.RunStep` | src/application/services/plan-executor.service.ts:65-232 | The attempts at one step: the run grows by events the machine enables and the history justifies; the step is left with a pass, a patch within the budget, a counted repetition below the iteration limit, a justified end or error, or without attempts; a smooth step adds exactly one clean pass |
| `PlanExecutor.PlanExecutorService.Attempt` | src/application/services/plan-executor.service.ts:71-228 | One attempt: only the last one of a step is patched or ends the run for its outcome, any other failed outcome is retried; whatever it executes for itself, at most one action, was launched; its ruling is one the machine allows here and what happened in the attempt justifies; an error has its reason in the attempt |
| `PlanExecutor.PlanExecutorService.CheckPreconditions` | src/application/services/plan-executor.service.ts:71-76 | The verdict on the preconditions, judged in order on a page observed and read in this attempt, with nothing in between |
| `PlanExecutor.PlanExecutorService.EnsureEarly` | src/application/services/plan-executor.service.ts:94-100 | Containers are opened for a click before it is resolved; the observation to go on with is mapped, and is the given one when it shows the target |
| `PlanExecutor.PlanExecutorService.ChooseAction` | src/application/services/plan-executor.service.ts:94-132 | A click whose containers may be opened has its target sought before it is resolved; any other action is resolved at once, and only when that failed the page is audited and another way sought. The action is the step's own, just expanded and resolved on the mapped observation that is returned with it, or the model's decision on an observation where the step's action was just not found; without one, the lookup failed and the model just refused; an error says what was just rejected or not expanded, or that a found target was lost |
| `PlanExecutor.PlanExecutorService.ResolveOrFind` | src/application/services/plan-executor.service.ts:102-131 | As ChooseAction, from the resolution on: when the action resolves on the observation, it is returned at once and nothing else happens |
| `PlanExecutor.PlanExecutorService.FindAnotherWay` | src/application/services/plan-executor.service.ts:109-131 | After a lookup failed: the action resolved on the observation that availability returned, else the model's decision on the observation the search started from, else the first error |
| `PlanExecutor.PlanExecutorService.LetModelDecide` | src/application/services/plan-executor.service.ts:116-119 | The model decides on the observation the step's action was not found on; when it refuses, the first error stands |
| `PlanExecutor.PlanExecutorService.ResolveAgain` | src/application/services/plan-executor.service.ts:111-113 | An action whose target was just found fails to resolve again only when it generates values or drags |
| `PlanExecutor.PlanExecutorService.Settle` | src/application/services/plan-executor.service.ts:148-156 | A fast success is not waited for and leaves no trace; otherwise there is exactly one wait, followed by exactly a warning and a record when it times out |
| `PlanExecutor.PlanExecutorService.RunAction` | src/application/services/plan-executor.service.ts:141-145 | Executes once; what was extracted is stored under its key only on success; exactly one attempt is recorded |
| `PlanExecutor.PlanExecutorService.KeepResult` | src/application/services/plan-executor.service.ts:143-145 | After an execution nothing happens but that what was extracted is stored under its key, on success only, and one attempt recorded with its outcome |
| `PlanExecutor.PlanExecutorService.LookAfter` | src/application/services/plan-executor.service.ts:148-160 | After the action the page settles, is observed, mapped and read, in this order, and audited before it is read exactly when the action navigates or compares screenshots; nothing else happens |
| `PlanExecutor.PlanExecutorService.ReadPage` | src/application/services/plan-executor.service.ts:158-160 | As LookAfter, once the page has settled |
| `PlanExecutor.PlanExecutorService.RecordAccessibilityWarnings` | src/application/services/plan-executor.service.ts:159-159 | The page is audited once and every message becomes a warning about the step, in order |
| `PlanExecutor.PlanExecutorService.ExecuteAction` | src/application/services/plan-executor.service.ts:141-160 | The evidence of an attempt: the cleared and chosen action was executed, and then the page it led to was looked at |
| `PlanExecutor.PlanExecutorService.ActAndCheck` | src/application/services/plan-executor.service.ts:141-162 | The postconditions are judged, right after the look, on what the page showed after the action against the states before it |
| `PlanExecutor.PlanExecutorService.Perform` | src/application/services/plan-executor.service.ts:133-227 | An action is executed, exactly once, if and only if it keeps the action policy by the attempts recorded so far and names nothing destructive unless that is allowed; any other ends the run as refused by the policy |
| `PlanExecutor.PlanExecutorService.Recovering` | src/application/services/plan-executor.service.ts:164-197 | A failed action or unmet postcondition: recovery for the bound first postcondition runs right after the slip, up to the first action that works or through all in vain, before any warning, retry, patch or end |
| `PlanExecutor.PlanExecutorService.AfterRecovery` | src/application/services/plan-executor.service.ts:173-197 | A vain recovery lets a lenient step pass with a warning on record; else the outcome is judged, on a newer page when recovery worked, described on the older one, and recorded. After a recovery that worked it returns only when the first postcondition names no element or the page looked at again has the same id |
| `PlanExecutor.PlanExecutorService.CheckAgain` | src/application/services/plan-executor.service.ts:178-180 | After a successful recovery the page is observed, mapped and read with nothing in between, and the postconditions are judged afresh on it, up to now; an error is a rejected call or a condition that cannot be judged, those before it having been judged to hold |
| `PlanExecutor.PlanExecutorService.Report` | src/application/services/plan-executor.service.ts:181-197 | The outcome of a recovery is recorded with the verdict reached and described on the observation before it, and it throws exactly when that description cannot be bound there; the run goes on, retries, is patched or ends as the verdict says |
| `PlanExecutor.PlanExecutorService.CheckBusiness` | src/application/services/plan-executor.service.ts:200-217 | Business assertions are judged on the same observation as the postconditions, right after them, and the verdict is described and recorded |
| `PlanExecutor.PlanExecutorService.Concluding` | src/application/services/plan-executor.service.ts:200-227 | Postconditions held: a clean pass also has all business assertions and the repeat condition holding; else a retry, a patch or an end with the failed assertion on record |
| `PlanExecutor.PlanExecutorService.CheckRepeat` | src/application/services/plan-executor.service.ts:218-226 | A repetition is asked for exactly when the repeat condition is judged not to hold, on the evidence of the pass |
| `PlanExecutor.PlanExecutorService.Unprepared` | src/application/services/plan-executor.service.ts:75-91 | A failed precondition warns for a lenient step; else it is patched, or ends the run, with the step and the verdict on record last |
| `PlanExecutor.PlanExecutorService.WithoutTarget` | src/application/services/plan-executor.service.ts:119-130 | A lost target is patched, or its first error is thrown once nothing patched the plan |
| `PlanExecutor.PlanExecutorService.CheckPlan` | src/application/services/plan-executor.service.ts:234-242 | The assertions of the plan the run started with, not of the patched one, are judged on a page looked at after the loop |
| `PlanExecutor.MainsAreCounted` | src/application/services/plan-executor.service.ts:64-233 | At every event a run has executed no more actions for steps than it has made attempts |
| `RecoveryLaws.DescriptionIsStaleExactly` | src/application/services/plan-executor.service.ts:178-181 | Once the outcome was judged again after a recovery that worked, describing it on the observation before the recovery is stale if and only if the first postcondition names an element and the page looked at again has another id |
| `AttemptLaws.StaleExactlyAfterRecovery` | src/application/services/plan-executor.service.ts:164-197 | An attempt throws a stale observation if and only if its outcome was just judged again after a recovery that worked, on a page with another id, and its first postcondition names an element; no other lookup of an attempt can be stale |
| `AttemptLaws.ElementStepsOnlyRecoverInVain` | src/application/services/plan-executor.service.ts:164-197 | As long as no two observations share an id, no verdict on a step whose first postcondition names an element is on record after a recovery that worked: such a step never passes, is retried or is patched by one |
| `AttemptLaws.RecoveredStepCanBeStale` | src/application/services/plan-executor.service.ts:178-181 | The failure is real: a complete history on any two pages that show the element under different ids, in which recovery works, the postcondition is judged to hold, and the attempt throws |
| `AttemptLaws.RecoveredElementStepsFailed` | src/application/services/plan-executor.service.ts:163-197 | In any run, as long as no two observations share an id, a step whose first postcondition names an element passes with a slip only when its postconditions held at once although its action failed, and recovery was in vain |
| `AttemptLaws.CleanExactlyWithoutSlip` | src/application/services/plan-executor.service.ts:163-227 | A pass is clean if and only if its action succeeded and its postconditions held at once, and then every business assertion was judged to hold right after them |
| `AttemptLaws.RecoveredPassCanBreakAnAssertion` | src/application/services/plan-executor.service.ts:163-197 | A complete history in which a failed action passes after recovery although the business assertion of its step would be judged not to hold at any time |
| `PlanRuns.VersionCountsPatches` | src/application/services/plan-step-runner.service.ts:287-323 | At every point of a run the version is the initial one plus the number of applied patches, which is the replan counter and never exceeds the budget; identity, mode, limits and plan-level assertions never change |
| `PlanRuns.PatchAppliedOnce` | src/application/services/plan-patch-applier.service.ts:29-34 | Two patches applied in one run were written for different, increasing versions, so none is applied twice |
| `PlanRuns.RunsAreShort` | src/application/services/plan-executor.service.ts:64-233 | Every run makes at most (longest plan + replans) x iteration limit x attempt limit attempts, the one under way included |
| `PlanRuns.DefaultLimits` | src/application/services/plan-executor.service.ts:66-66 | A step without limits of its own has the attempts its plan allows and ten iterations |
| `PlanRuns.StuckExactlyWithoutAttempts` | src/application/services/plan-executor.service.ts:66-70 | A step is reached with no attempts to spend if and only if its attempt limit is not positive |
| `PlanRuns.OriginsAreKept` | src/application/services/plan-patch-applier.service.ts:40-45 | A patch moves the steps it keeps without changing them, and a slot of the new plan has no origin exactly when the patch wrote it |
| `PlanRuns.TrailSound` | src/application/services/plan-executor.service.ts:64-233 | For every slot of the current plan the run knows the event by which the step in it passed, through all patches that moved it, and no event counts for two slots |
| `PlanRuns.CoveredExactly` | src/application/services/plan-executor.service.ts:82-90 | All steps behind the current one were passed by events of the run if and only if no patch was applied to a position already left behind |
| `PlanRuns.FinishedRunPassedEveryStep` | src/application/services/plan-executor.service.ts:64-233 | A finished run without a backward patch passed every step of the final plan, each by an event of its own |
| `PlanRuns.BackwardPatchLeavesStepUnexecuted` | src/application/services/plan-patch-applier.service.ts:36-38 | A finished run with a backward patch has a slot in its final plan that no event passed |
| `RunLaws.OkRunCanSkipItsPlan` | src/application/services/plan-executor.service.ts:64-244 | A complete history of an execution that is ok although the only step of its final plan was never executed: the first step passes cleanly, the precondition of the second is not met, the provider proposes a patch from the first step on, and the assertions of the plan are judged to hold |
| `PlanRuns.RunCanFinishWithoutItsPlan` | src/application/services/plan-patch-applier.service.ts:36-46 | A concrete family of such runs: a two-step plan is rewritten from its first step after that step passed, and the run finishes without executing the only step of its final plan |
| `PlanPatches.IndexOfStep` | src/application/services/plan-patch-applier.service.ts:36-36 | The first step with the id, or the length |
| `PlanPatches.AcceptedPatchSplices` | src/application/services/plan-patch-applier.service.ts:36-47 | An accepted patch keeps every step before its edit point in place, puts its own steps there and keeps the rest in order; nothing of the plan but version and steps changes |
| `PlanPatches.PatchIsSpent` | src/application/services/plan-patch-applier.service.ts:29-34 | A patch is refused by the plan it produced and by every later version, as stale |
| `PlanPatches.PatchKeepsAssertionCount` | src/application/services/plan-patch-applier.service.ts:61-69 | For every step of the old plan with assertions the new plan has a step with at least as many |
| `PlanPatches.PatchesKeepChecks` | src/application/services/plan-patch-applier.service.ts:49-76 | Over any chain of accepted patches the largest assertion count on a step never drops and every step keeps a postcondition |
| `PlanPatches.PatchesAddNoLenientStep` | src/application/services/plan-patch-applier.service.ts:55-60 | Over any chain of accepted patches, none of them made for an overlay, the multiset of steps whose failure only warns never grows |
| `PlanPatches.AssertionsAreOnlyCounted` | src/application/services/plan-patch-applier.service.ts:61-69 | The guard counts and does not compare: any plan may have the assertions of a step exchanged for as many console checks |
| `PlanPatches.AssertionsBalance` | src/application/services/plan-patch-applier.service.ts:36-47 | An accepted patch takes away the assertions of the steps it affects, brings in those of its own steps, and touches no others, counted with multiplicity |
| `PlanPatches.PatchKeepsAssertionsExactly` | src/application/services/plan-patch-applier.service.ts:61-69 | An accepted patch keeps all assertions of a plan if and only if it writes back those of the steps it affects |
| `PlanPatches.PatchesKeepAssertions` | src/application/services/plan-patch-applier.service.ts:61-69 | Over any chain of patches that write back what they affect no assertion is lost |
| `PlanPatches.UnwritableIsRefused` | src/application/services/plan-patch-applier.service.ts:49-60 | A patch for this plan and version is refused for the first of its steps that may not be written: as blocked navigation when its wording is blocked, else as weakened validation because it only warns |
| `PlanPatches.PatchesAddNoBlockedWording` | src/application/services/plan-patch-applier.service.ts:49-60 | Over any chain of accepted patches every step with blocked wording was a step of the first plan |
| `StepServices.PlanStepRunner.Observe` | src/application/services/plan-step-runner.service.ts:37-42 | The element map is that of the observation the browser gave to this call |
| `StepServices.PlanStepRunner.CheckAll` | src/application/services/plan-step-runner.service.ts:44-68 | The verdict is the one the history gives, call for call: conditions are judged in order up to the first that fails; an error is a rejected call or a condition that cannot be judged, all before it having been judged to hold |
| `StepServices.CheckMeans` | src/application/services/plan-step-runner.service.ts:44-68 | A good verdict means that every condition was judged to hold; a bad one that the last one judged was not, and that all before it were |
| `StepServices.PlanStepRunner.Judge` | src/application/services/plan-step-runner.service.ts:45-65 | One condition is judged by the first applicable means and by no other: network log, runtime states, visible texts, or the browser validating it bound to this observation |
| `StepServices.TextAnyIsItsFirstExactly` | src/application/services/plan-step-runner.service.ts:59-63 | A text-any condition is checked by all its texts but bound to the first: both agree if and only if the first is shown or none of the others is |
| `StepServices.RecoveryCanBeAfterAnotherText` | src/application/services/plan-step-runner.service.ts:276-276 | A condition judged to hold for which recovery is after a text that is not shown |
| `StepServices.PlanStepRunner.ValidateBound` | src/application/services/plan-step-runner.service.ts:63-64 | What the browser validates is the expanded condition, expanded once more and bound to this observation; when that is not possible nothing is validated (what the bound condition claims: Harness.BindingKeepsClaim) |
| `StepServices.PlanStepRunner.ResolveAction` | src/application/services/plan-step-runner.service.ts:70-82 | The action is expanded on the current run data and its locators are looked up in the element map; what comes out does what the expanded action says, with the same payload, key, route, coordinates, timeout and reason |
| `StepServices.PlanStepRunner.ActionTargetAvailable` | src/application/services/plan-step-runner.service.ts:113-118 | Reports exactly whether the returned observation shows the target of the expanded action, and the element map follows that observation |
| `StepServices.PlanStepRunner.TryReplan` | src/application/services/plan-step-runner.service.ts:287-323 | A patch comes back only within mode and budget and applied to the given version; none only for a reason; exactly the applied patches are recorded as applied |
| `StepServices.ElementAvailabilityResolver.EnsureAvailable` | src/application/services/element-availability-resolver.service.ts:41-87 | Available exactly when the returned observation shows the target; at most `maxOpenAttempts` actions, each of them opening the container picked for the target; re-observed exactly when one was made; the element map follows the returned observation; giving up has a reason |
| `StepServices.ElementAvailabilityResolver.Open` | src/application/services/element-availability-resolver.service.ts:75-79 | The opening action of the container picked for the target is executed, recorded with its outcome, and followed by an observation that is mapped |
| `StepServices.UniqueIsDistinct` | src/application/services/recovery-policy.service.ts:45-53 | No two recovery actions are equal apart from their reasons |
| `StepServices.RecoveryActionsAreBounded` | src/application/services/recovery-policy.service.ts:22-27 | At most four actions, at most the two budgets together, all different, the given fallback first |
| `StepServices.RecoveryPolicy.Act` | src/application/services/recovery-policy.service.ts:31-37 | The recovery action is executed, recorded, waited for and looked at, in this order, and noted when that shows what was shown before and it was not to wait; the call keeps the element map and the run data and executes nothing else |
| `StepServices.RecoveryPolicy.Compare` | src/application/services/recovery-policy.service.ts:33-35 | An attempt is noted exactly when a page was shown before and after the recovery action, they do not differ, and the action was not to wait |
| `StepServices.RecoveryPolicy.TryAction` | src/application/services/recovery-policy.service.ts:29-40 | One action is executed and then the expectation validated, with nothing mapped or stored in between, and the answer says whether both worked |
| `StepServices.RecoveryPolicy.Recover` | src/application/services/recovery-policy.service.ts:13-43 | Returns the first recovery action that was executed successfully and followed by a successful validation, each action before it having been executed and validated in vain, one after the other; none when all were |
| `ActionPolicy.AllowsExactly` | src/application/services/action-policy.service.ts:8-19 | An action is allowed if and only if it is a navigation with no route listed or to a route that begins with a listed one, read without its first star; a click at coordinates after three different failed actions of the five kinds on the page; or any other action |
| `ActionPolicy.StarredRouteAllows` | src/application/services/action-policy.service.ts:10-10 | With `prefix*` listed every route that begins with the prefix is allowed |
| `ActionPolicy.StemsAllowExactly` | src/application/services/action-policy.service.ts:9-12 | When stars stand at the ends only, a navigation is allowed if and only if nothing is listed or it begins with what stands before the star of a listed route |
| `ActionPolicy.MiddleStarIsNoWildcard` | src/application/services/action-policy.service.ts:10-10 | A star elsewhere stands for nothing: `head*tail` refuses every route with something else than the start of the tail in between, and allows `headtail` |
| `ActionPolicy.ThreeFailedExactly` | src/application/services/action-policy.service.ts:14-15 | The count of failed actions reaches three if and only if three different positions hold failed attempts of the five kinds |
| `ActionPolicy.CountsExactly` | src/application/services/action-policy.service.ts:14-14 | Of the records of executed actions those count that are of a failed click, fill, selection, key or click outside |
| `PlanExecutor.ExecutionIsKept` | src/application/services/plan-executor.service.ts:133-139 | Every action an execution executes for a step keeps the policy by the attempts on record then and the wording of a step the run came to, and is the deed of that step or the decision of the model |
| `Harness.ResolvingKeepsDeed` | src/application/services/plan-step-runner.service.ts:70-82 | Resolving an action changes nothing of it but its locators, whatever the element map |
| `Harness.ResolvedActsWhereFound` | src/application/services/plan-step-runner.service.ts:70-86 | A resolved action acts on the element its locator finds in the observation, and drags from the one its source finds |
| `Attempts.LaunchedOwnDeed` | src/application/services/plan-executor.service.ts:94-132 | The action an attempt launches is the deed of the step as it was just expanded, at the elements its locators find, or unchanged what the model just decided |
| `Harness.OpenActionExactly` | src/application/services/element-availability-resolver.service.ts:140-154 | A container is opened by its own action at the element its locator finds; it cannot be opened exactly when that is not there or its kind is none of the five that opening knows |
| `Harness.PickedExactly` | src/application/services/element-availability-resolver.service.ts:98-113 | The container picked is the preferred one among those configured, or the first, and none is picked exactly when none is configured |
| `Harness.BindingKeepsClaim` | src/application/services/plan-step-runner.service.ts:272-285 | A bound condition claims what the condition says, of the element its locator finds, in this observation; of several texts it claims the first, and of run and network states only that the console is clean |
| `StepServices.VerdictExactly` | src/application/services/plan-step-runner.service.ts:44-68 | A verdict on a condition is that of the network log where it can tell, of the runtime states, of whether some of several texts is shown, or of the browser, which validated just then what the condition claims once it is expanded again |
| `Harness.FreshRetarget` | src/application/services/plan-step-runner.service.ts:70-82 | On the element map of the observation an action resolves exactly when all its locators are found, and nothing but a missing element stops it |
| `Harness.ReresolvingSucceeds` | src/application/services/plan-executor.service.ts:111-113 | Once the target was found, resolving the same action again on that observation succeeds unless it generates values or drags |
| `Harness.GeneratedTargetCanBeLost` | src/application/services/plan-executor.service.ts:94-113 | The first exception is real: a click on a generated name finds its target on the page that shows the name as first generated and loses it when it is expanded again with another suffix |
| `Harness.DragNeedsItsSource` | src/application/services/plan-step-runner.service.ts:76-76 | The second exception is real: a drag fails for its source, which availability never looks for |
| `Harness.TargetIsKeptExactly` | src/application/services/plan-step-runner.service.ts:70-82 | A resolved action acts on the element its locator is found to be, if and only if it has a locator and is not of a kind that leaves it behind |
| `Harness.TypeTextIsNeverLookedUp` | src/application/services/plan-step-runner.service.ts:81-81 | Typing text resolves without its locator, also where every other action on it fails |
| `Harness.BindingErrors` | src/application/services/plan-step-runner.service.ts:272-285 | Binding a condition can only fail as stale or as not found, and only when it names an element |
| `Harness.BindingIsStaleExactly` | src/application/services/plan-step-runner.service.ts:272-285 | Binding is stale exactly when the condition names an element found in an observation other than the mapped one |
| `Locators.FindIsFirstLeaf` | src/application/services/locator-resolver.service.ts:33-67 | A semantic locator, however nested, finds exactly what the first succeeding leaf of its flattened candidates finds |
| `Locators.FoundIsElement` | src/application/services/locator-resolver.service.ts:33-67 | Whatever is found is an element of the observation searched |
| `Locators.OverlapIsStrictMaximum` | src/application/services/locator-resolver.service.ts:151-170 | A selected element strictly outranks every other candidate by (score, actionability) and occurs once |
| `Locators.OverlapIgnoresElementOrder` | src/application/services/locator-resolver.service.ts:151-170 | Permuting the elements of an observation never changes the token-overlap selection |
| `Locators.GuardChecksRunnerUpOnly` | src/application/services/locator-resolver.service.ts:151-170 | The ambiguity guard looks at the runner-up only: a third candidate as close and as actionable does not stop a selection that it would stop in second place |
| `Locators.EveryElementIsMapped` | src/application/services/locator-resolver.service.ts:16-24 | The map has exactly the ids of the observation's elements |
| `Locators.FreshLookup` | src/application/services/locator-resolver.service.ts:16-31 | On the map of the observation in hand a lookup succeeds exactly when the search does |
| `Locators.StaleExactly` | src/application/services/locator-resolver.service.ts:26-31 | On any map a lookup is stale exactly when the element is found in an observation other than the mapped one |
| `Locators.LocatorResolver.Rebuild` | src/application/services/locator-resolver.service.ts:16-24 | The previous observation is forgotten and every element of the new one mapped |
| `Ranking.SortedKeysOfPermutation` | src/application/services/locator-resolver.service.ts:158-163 | Which keys a stable descending sort puts first does not depend on the order of the input |
| `Locators.GuardExactly` | src/application/services/locator-resolver.service.ts:151-170 | A selection with a rival as actionable and within the margin is let through if and only if the runner-up is not as actionable and a candidate behind it is a rival; in all other cases there is a selection exactly when there are candidates and no rival |
| `Locators.GuardCoversAlikes` | src/application/services/locator-resolver.service.ts:151-170 | Among candidates that are all as actionable a selection is clear of every other one |
| `Locators.RivalsCanBeLetThrough` | src/application/services/locator-resolver.service.ts:151-170 | Three concrete elements of which the first is selected although the third is a rival |
| `LocatorLaws.IndexFindsNth` | src/application/services/locator-resolver.service.ts:44-49 | An indexed locator finds the element that matches its target with exactly that many matches before it, and nothing when there are fewer |
| `LocatorLaws.TextAnyFindsBest` | src/application/services/locator-resolver.service.ts:76-88 | Among the elements with one of the texts the best hit is found, the first of equals: by text score, then menu items and switches before other controls and these before the rest |
| `LocatorLaws.FirstMatchExactly` | src/application/services/locator-resolver.service.ts:50-67 | Any other locator finds the first element that carries it, else the first like it, and only then what the overlap and the heuristics make of it |
| `LocatorLaws.ExpectedExactly` | src/application/services/locator-resolver.service.ts:172-180 | A locator expects the texts it names, and a role without a name expects none |
| `LocatorLaws.QualifiesExactly` | src/application/services/locator-resolver.service.ts:151-160 | An element is a candidate for the overlap if and only if it has at least three quarters of the tokens of some expected text of two tokens or more |
| `LocatorLaws.KindsExactly` | src/application/services/locator-resolver.service.ts:249-268 | What counts as a field, as a container and as a control by role and tag |
| `LocatorLaws.RivalsExactly` | src/application/services/locator-resolver.service.ts:161-163 | A rival is as actionable as the best candidate and less than a fifth behind it |
| `LocatorLaws.FallbackExactly` | src/application/services/locator-resolver.service.ts:238-281 | When nothing matched, a text about data entry picks the first of the largest visible editable elements, or of the containers where there is none; one about clicking the best control by its centre; nothing out of view is picked |
| `LocatorLaws.TargetIsBound` | src/application/services/locator-resolver.service.ts:26-31 | On the map of the observation a locator is bound to the id it finds, with locator and name of the last element that has this id |
| `Ranking.SortPutsFirstMaximumFirst` | src/application/services/locator-resolver.service.ts:81-88 | A stable descending sort puts the first of the maxima first |
| `TaskGraph.TopoSorter.Visit` | src/application/services/scenario-planner.service.ts:86-98 | The recursive visit, ended by the ids not on the stack, keeps the result listing each visited task once and ordered up to cycles |
| `TaskGraph.TopoSorter.VisitAll` | src/application/services/scenario-planner.service.ts:99-101 | Every given task is visited |
| `TaskGraph.FullyOrderedExactlyWhenAcyclic` | src/application/services/scenario-planner.service.ts:80-102 | A list of the tasks that is ordered up to cycles is fully ordered if and only if the graph has no cycle |
| `TaskGraph.TopoSort` | src/application/services/scenario-planner.service.ts:80-102 | For any tasks, cyclic or with unknown dependencies: each distinct id comes out exactly once, a kept dependency comes first unless it depends on the dependent, and all come first exactly when there is no cycle |
| `ScenarioPlanner.Normalize` | src/application/services/scenario-planner.service.ts:42-60 | Every scenario is sorted and adapted to the authentication policy, one by one and in order |
| `ScenarioPlanner.ThinnedKeepsOrder` | src/application/services/scenario-planner.service.ts:159-169 | Leaving tasks out keeps the order up to cycles as long as the remaining dependencies are on remaining tasks |
| `ScenarioPlanner.EnforcedKeepsPromise` | src/application/services/scenario-planner.service.ts:134-169 | Without authentication filtering, deduplication, truncation and relinking keep all of that promise about one scenario |
| `ScenarioPlanner.AuthenticatedKeepsPromise` | src/application/services/scenario-planner.service.ts:144-169 | With authentication merging, moving the first logout to the end, renumbering, deduplication and truncation keep all of that promise about the one sequence |
| `ScenarioPlanner.TwiceRelinkedIsRetained` | src/application/services/scenario-planner.service.ts:243-246 | Relinking after filtering and again after truncation keeps exactly the dependencies on tasks that remain in the end |
| `ScenarioPlanner.EnforcedKeepsKeyExactly` | src/application/services/scenario-planner.service.ts:159-169 | Below the limit, and for any number of logouts, the compared title and expectation of a task stay if and only if the task that stands for them is no logout or is the first one |
| `ScenarioPlanner.DedupeKeepsKey` | src/application/services/scenario-planner.service.ts:224-232 | Deduplication keeps a task for every compared title and expectation |
| `ScenarioPlanner.AuthenticatedScenarioIsRunnable` | src/application/services/scenario-planner.service.ts:144-169 | With authentication: one to six tasks, numbered from one, each depending on the one before it alone, a logout only at the end |
| `ScenarioPlanner.Plan` | src/application/services/scenario-planner.service.ts:15-60 | The whole pipeline, from any provider plan or from the fallback when there is none. Without authentication each scenario gives one of 1 to 8 of its own tasks without logins and logouts, with exactly those of their dependencies that remain, in order up to the provider's own cycles and fully ordered when it has none; below the limit every other task keeps its title and expectation. With authentication there is one scenario of 1 to 6 tasks in sequence, at most one logout, at the end, each taken from some scenario, and below the limit none lost but repetitions. What comes out is told from what was provided: each task has the title of a provided task, the outcome it was given or else resolves to, and its expectation unless the given outcome has a fixed one; no task that is or resolves to a logout stands before the end, and without authentication none is left |
| `ScenarioPlanner.NormalizedIsMade` | src/application/services/scenario-planner.service.ts:42-60 | A normalised task has the title it was provided with, the outcome it was given or else resolves to, and its expectation unless the given outcome has a fixed one |
| `ScenarioPlanner.OpenIsPlanned` | src/application/services/scenario-planner.service.ts:42-60 | Without authentication the promise about the dependency graph is one about the provided tasks: what comes out was provided, and all that neither is nor resolves to a login or logout is kept below the limit |
| `ScenarioPlanner.ClosedIsPlanned` | src/application/services/scenario-planner.service.ts:144-169 | With authentication likewise, over all scenarios, with no logout before the end |
| `ScenarioPlanner.TaskIdsSpellNumbers` | src/application/services/scenario-planner.service.ts:109-109 | The ids of numbered tasks spell their numbers with at least three digits |
| `ScenarioPlanner.FallbackFollowsCriteria` | src/application/services/scenario-planner.service.ts:104-132 | Without a provider plan there is one task for each of the first four criteria, or for the description without any, each after the one before and about what it resolves to |
| `ReactiveRunner.ReactiveRunnerService.RunScenario` | src/application/services/reactive-runner.service.ts:41-57 | A run that does not throw takes every pending task in a turn of its own, a stretch of the history: it is skipped exactly when at its turn a dependency had not passed; it passed only by a step recorded in this run whose whole course is in that stretch (decided on an observation shown there, permitted by the attempts recorded so far, executed, waited for, looked at, validated, and after a failure recovered and validated again), by proof of a logout for a deauthentication task and by the console only for a console-safety task; it is blocked only with a step that shows why. No action but such decisions and the semantic clicks is executed on its own account, at most three a cycle, each keeps the action policy by the attempts on record then and is counted as an attempt; whatever else is executed is one of the recovery actions for an escape or for a fallback the provider proposed. Exactly one bug is reported per blocked task, in order, and appended steps and bugs are numbered by position. An error is the rejection of the last call or a corrected action that was just not expanded |
| `ReactiveRunner.ReactiveRunnerService.TakeTurn` | src/application/services/reactive-runner.service.ts:46-53 | The turn of one task: left alone unless pending, skipped, with nothing but a note, exactly when its dependencies block it, else worked on |
| `ReactiveRunner.ReactiveRunnerService.RunTask` | src/application/services/reactive-runner.service.ts:68-199 | At most max(actions, attempts) cycles, each of at most three actions and three steps; with at least one the task is decided |
| `ReactiveRunner.ReactiveRunnerService.Cycle` | src/application/services/reactive-runner.service.ts:72-198 | One cycle executes only what is lawful, appends numbered steps, changes nothing else of the task than status and attempts, and decides it in the last cycle |
| `ReactiveRunner.ReactiveRunnerService.TrySemantic` | src/application/services/reactive-runner.service.ts:491-613 | A semantic click passes its task only when the click was executed and the page shown after it proves the outcome; it blocks the task with one bug if and only if it is out of attempts, and clicks if and only if the task is of its kind and something visible names the outcome |
| `ReactiveRunner.ReactiveRunnerService.ClickOn` | src/application/services/reactive-runner.service.ts:499-509 | The click on the first visible element that names the outcome is executed, noted, waited for and observed, in this order |
| `ReactiveRunner.ReactiveRunnerService.ClickOutcome` | src/application/services/reactive-runner.service.ts:499-530 | The recorded step says what the page shown after the click proves: its validation is good for a logout if and only if that page is a login route or shows a login text, and for a theme if and only if it differs from the page before |
| `ReactiveRunner.ReactiveRunnerService.TryBoth` | src/application/services/reactive-runner.service.ts:178-181 | Both semantic clicks, the second only when the first left the task pending; one action is executed if and only if something visible names the outcome of a logout or theme task |
| `ReactiveRunner.ReactiveRunnerService.Decide` | src/application/services/reactive-runner.service.ts:226-284 | An accepted decision is what the provider just answered on this observation, bound on the map of that moment, promoted and without an issue, or, after an unusable answer, a click on the first visible element that names the outcome; it never rests on the console alone except for a console-safety task; none is accepted only after all questions asked on this observation got unusable answers and nothing on it could correct them |
| `ReactiveRunner.ReactiveRunnerService.Correct` | src/application/services/reactive-runner.service.ts:271-280 | The correction is a click on the first visible element that names the outcome, to be proved by the first text of the outcome, or by the name of the element where it has none |
| `ReactiveRunner.ReactiveRunnerService.ReadDecision` | src/application/services/reactive-runner.service.ts:243-266 | The expectation is bound on the element map and promoted only from a console check to the outcome's own text; a decision that is stale, names an unmapped element or cannot be expanded is unusable, and so is one that raises an issue after that |
| `ReactiveRunner.ReactiveRunnerService.Act` | src/application/services/reactive-runner.service.ts:85-106 | Without a usable decision or a permitted action the task is blocked with a step that shows it and one bug, and no decided action is executed |
| `ReactiveRunner.ReactiveRunnerService.Carry` | src/application/services/reactive-runner.service.ts:108-121 | The permitted action is executed and noted, then the page settles and is observed, in this order, and only then is it evaluated |
| `ReactiveRunner.ReactiveRunnerService.Evaluate` | src/application/services/reactive-runner.service.ts:122-175 | The step recorded is judged by the success rule on its whole course: it justifies the task or shows what is missing |
| `ReactiveRunner.ReactiveRunnerService.Validate` | src/application/services/reactive-runner.service.ts:134-154 | The expectation is validated after the action; exactly when the action or that fails, recovery runs, the page is looked at again and the expectation validated a second time, and the answer says whether recovery worked or was tried in vain |
| `ReactiveRunner.ReactiveRunnerService.RecoverAndValidate` | src/application/services/reactive-runner.service.ts:138-154 | Recovery up to the first action that works or through all in vain, then one look and one validation |
| `ReactiveRunner.ReactiveRunnerService.Judge` | src/application/services/reactive-runner.service.ts:175-198 | The step is the first one appended; then something is executed, once, if and only if the step is intermediate and the page shows something that names the outcome of a logout or theme task; then the task is settled |
| `ReactiveRunner.ReactiveRunnerService.Settle` | src/application/services/reactive-runner.service.ts:182-197 | A console error blocks, success passes, the last cycle blocks, and exactly the blocking cases report a bug |
| `ReactiveRunner.ReactiveRunnerService.BlockAt` | src/application/services/reactive-runner.service.ts:90-96 | The step is recorded and the task blocked with one bug; nothing is executed |
| `ReactiveRunner.ReactiveRunnerService.Block` | src/application/services/reactive-runner.service.ts:206-224 | A bug numbered by its position is reported for the task; when the evidence cannot be written there is no bug, and the task is blocked only where the caller marks it first |
| `ReactiveRunner.StepIsJudged` | src/application/services/reactive-runner.service.ts:381-390 | The success rule on a decision that was carried out: a step that succeeds justifies its task and is not an intermediate one; a step that does not succeed shows why |
| `ReactiveRunner.ClickIsJudged` | src/application/services/reactive-runner.service.ts:518-613 | The step after a semantic click justifies the task when the click worked and the page shows the outcome, and shows what is missing otherwise |
| `ReactiveRunner.NumberedIdsAreDistinct` | src/application/services/reactive-runner.service.ts:87-88 | Step and bug ids given by list position are distinct, however many digits they need |
| `ReactiveRunner.SkippedExactlyWhenDependencyFailed` | src/application/services/reactive-runner.service.ts:59-66 | When dependencies are on earlier tasks, as the planner makes them, a task of a decided scenario was skipped if and only if in the end one of its dependencies has not passed |
| `TaskLaws.LogoutIsProved` | src/application/services/reactive-runner.service.ts:567-619 | A logout task passes only when in its own turn a successful click on what names the logout was followed by a page with a login route or a login text, or the browser validated such a route or text |
| `TaskLaws.ThemeIsProved` | src/application/services/reactive-runner.service.ts:491-520 | A theme task passes only when in its own turn such a click led to a page that differs from the one before, or the browser validated something that is no mere mention of the control and no mere look at the console, unless the task is about that |
| `TaskLaws.PassedTasksWereProved` | src/application/services/reactive-runner.service.ts:41-199 | In a run of a scenario every task that passed was proved in its own stretch of the history, by what its kind asks for |
| `DecisionLaws.AcceptedExactly` | src/application/services/reactive-runner.service.ts:346-355 | A decision raises no issue if and only if it does not rest on seeing its own target, for a logout rests on a login route or text or clicks towards what names it, and rests on the console only for a task about the console |
| `DecisionLaws.PromotedExactly` | src/application/services/reactive-runner.service.ts:463-561 | A console check becomes a check for the first text of the outcome if and only if the task is about a logout, the appearance or a menu, its outcome has a text, and the action acts on the first element with its id, which names the outcome |
| `DecisionLaws.ExpectationIsBound` | src/application/services/validation-binder.service.ts:10-18 | An expectation is bound as it is to the element with the id it names, unless the map lacks that or is of another observation |
| `DecisionLaws.WordingIsExchanged` | src/application/services/reactive-runner.service.ts:122-133 | Expanding the text of an expectation exchanges its wording and nothing else |
| `DecisionLaws.ExecutedOnGoodGrounds` | src/application/services/reactive-runner.service.ts:68-199 | Every action executed for a task is a semantic click, a correction, or was decided on grounds that are good enough |
| `DecisionLaws.MetExactly` | src/application/services/reactive-runner.service.ts:59-66 | A dependency is met if and only if the first task with its id has passed |
| `DecisionLaws.NamesSpellNumbers` | src/application/services/reactive-runner.service.ts:87-87 | The ids of steps and bugs spell their numbers with at least four and three digits |
| `MemoryChunks.Parse` | src/application/services/memory-chunker.service.ts:40-104 | The loop over the sections returns exactly the wanted chunks and the warnings that the section readings define, with distinct ids; it throws if and only if the file has no name and there is a chunk to collect |
| `MemoryChunks.FoundIdIsId` | src/application/services/memory-chunker.service.ts:11-11 | An id that the metadata pattern accepts consists of capital letters, digits and hyphens |
| `MemoryChunks.EverySectionCounts` | src/application/services/memory-chunker.service.ts:48-97 | Without a filter every section is either a chunk or a rejection, never both and never neither |
| `MemoryChunks.CollectedIsFirstOfItsId` | src/application/services/memory-chunker.service.ts:72-82 | A chunk is collected if and only if it is wanted and no earlier readable section, wanted or not, has its id |
| `MemoryChunks.CollectedIdsAreNew` | src/application/services/memory-chunker.service.ts:72-78 | Collected ids are distinct and none was seen before |
| `MemoryChunks.CollectedAppend` | src/application/services/memory-chunker.service.ts:48-97 | Collecting from two stretches of sections is collecting from the first and then from the second with the ids seen so far |
| `MemoryRendering.ReadingsAppend` | src/application/services/memory-chunker.service.ts:43-50 | Sections written behind a line break leave the earlier sections reading as before |
| `MemoryRendering.OneSection` | src/application/services/memory-chunker.service.ts:43-43 | A heading and what follows is one section if and only if no following line is a heading |
| `MemoryRendering.FoundBehind` | src/application/services/memory-chunker.service.ts:58-58 | A metadata comment is found behind text in which no comment opens |
| `MemoryRendering.GoodSectionReads` | src/application/services/memory-chunker.service.ts:57-95 | A section with a known type and an acceptable id reads as that chunk, its content being what stands around the comment without rules |
| `MemoryRendering.BadSectionReads` | src/application/services/memory-chunker.service.ts:58-63 | A section whose rendered id has an underscore reads as having no metadata |
| `MemoryRendering.WithoutRulesExactly` | src/application/services/memory-chunker.service.ts:84-87 | Removing rules leaves a text without rules as it is and shortens any other |
| `MemoryGeneration.RenderMemoryMarkdown` | src/application/use-cases/run-pipeline-generate-memory.usecase.ts:82-93 | The loop writes the header, the title and the chunks in order |
| `MemoryGeneration.ContentExactly` | src/application/services/memory-chunker.service.ts:84-87 | Written content comes back if and only if it is trimmed and has no rule line |
| `MemoryGeneration.ChunkReadsExactly` | src/application/use-cases/run-pipeline-generate-memory.usecase.ts:84-91 | A written chunk reads back as itself and nothing else if and only if its title is one trimmed non-empty line, its id and type are acceptable, and its content is trimmed without headings or rules |
| `MemoryGeneration.RoundTripExactly` | src/application/use-cases/run-pipeline-generate-memory.usecase.ts:82-93 | Reading a freshly generated file gives back its chunks, section by section, if and only if each of them is faithful in that sense |
| `MemoryGeneration.FileParses` | src/application/services/memory-chunker.service.ts:40-104 | With distinct ids the parser returns exactly the generated chunks and no warning |
| `ChunkRenderer.RenderBody` | src/application/services/memory-chunk-renderer.service.ts:27-39 | The lines of the body in order, the risk only when there is one; nothing for an unknown type |
| `ChunkRenderer.Render` | src/application/services/memory-chunk-renderer.service.ts:41-56 | Heading, blank line, comment, body; nothing for an unknown type |
| `ChunkRenderer.RenderAll` | src/application/services/memory-chunk-renderer.service.ts:58-72 | Exactly the candidates of a known type are rendered, in order, and exactly the others warned about |
| `ChunkRenderer.EscapeKeepsLines` | src/application/services/memory-chunk-renderer.service.ts:13-16 | Escaping works line by line |
| `ChunkRenderer.EscapedHasNoComment` | src/application/services/memory-chunk-renderer.service.ts:13-16 | No comment opens in an escaped text |
| `ChunkRenderer.EscapeOfHeading` | src/application/services/memory-chunk-renderer.service.ts:13-16 | Escaping neither makes nor hides a heading |
| `ChunkRenderer.ChunkIdIsIdExactly` | src/application/services/memory-chunk-renderer.service.ts:23-25 | A rendered id can be read back if and only if the candidate's id has no underscore |
| `ChunkRenderer.RenderedReads` | src/application/services/memory-chunk-renderer.service.ts:41-56 | A rendered chunk is one section, and reads as promised, exactly when no later line of description or content is a heading |
| `ChunkRenderer.EscapeRoundTrip` | src/application/services/memory-chunk-renderer.service.ts:13-16 | Taking the backslashes away again gives back the text |
| `ChunkRenderer.EscapesExactly` | src/application/services/memory-chunk-renderer.service.ts:13-16 | In an escaped text a backslash stands in front of every character that has a meaning in Markdown, and nothing else is new |
| `ChunkRenderer.TypesExactly` | src/application/services/memory-chunk-renderer.service.ts:5-11 | Gaps and component behaviour become known issues, recovery patterns runtime learnings, and only semantic locators and route mappings are rendered beside them |
| `ChunkRenderer.OneLineContent` | src/application/services/memory-chunk-renderer.service.ts:27-39 | A chunk with a one-line description is read with the rendered body as its content |
| `MemoryPromotion.Promote` | src/application/use-cases/run-pipeline-promote-learning.usecase.ts:62-99 | What is approved and can be rendered is appended in order behind the header; without any the file is left alone; the approved rest is warned about |
| `MemoryPromotion.EnsureHeaderReads` | src/application/use-cases/run-pipeline-promote-learning.usecase.ts:209-217 | Putting the header in leaves the sections reading the same if and only if there is a header, or neither an indented heading starts the file nor an untitled one ends it, or both do and no section has a title; the number of sections changes by exactly these |
| `MemoryPromotion.HeaderGoesFirst` | src/application/use-cases/run-pipeline-promote-learning.usecase.ts:209-217 | The header is put in first and once, and what there was stays but for the blanks around it; a file without anything else becomes the header alone |
| `MemoryPromotion.HeaderCanAddSection` | src/application/use-cases/run-pipeline-promote-learning.usecase.ts:209-217 | A concrete file that gains a section |
| `MemoryPromotion.TrimLeftReads` | src/application/use-cases/run-pipeline-promote-learning.usecase.ts:215-215 | Trimming the start puts one section in front exactly when the file starts with an indented heading, and otherwise changes no reading |
| `MemoryPromotion.TrimRightReads` | src/application/use-cases/run-pipeline-promote-learning.usecase.ts:215-215 | Trimming the end loses the last, untitled section and leaves the titles of the others exactly when the file ends in an untitled heading, and otherwise changes no reading |
| `MemoryPromotion.PromotionThenParse` | src/application/use-cases/run-pipeline-promote-learning.usecase.ts:95-99 | Parsing after promotion gives exactly the earlier chunks followed by the promoted ones with new ids |
| `GitDiff.ParseAddedLines` | src/infra/github/git-diff-added-lines.parser.ts:4-46 | The loop returns what line-by-line reading defines, or the schema error for a line number that is not positive |
| `Text.TenDigits` | src/infra/github/git-diff.parser.shared.ts:1-1 | There are ten digits, and a digit is worth its place among them |
| `GitDiff.HeaderReads` | src/infra/github/git-diff.parser.shared.ts:1-1 | The start read from a printed hunk header is the printed one, with the count left out or not |
| `GitDiff.AddedLinesAreInNewFile` | src/infra/github/git-diff-added-lines.parser.ts:18-30 | Every added line stands in the new file where its number says |
| `GitDiff.DiffReads` | src/infra/github/git-diff-added-lines.parser.ts:4-46 | Reading a printed diff over any number of files gives, in order, the added lines that are not taken for metadata |
| `GitDiff.DiffRoundTripExactly` | src/infra/github/git-diff.parser.shared.ts:3-12 | Reading gives exactly the added lines with their true numbers if and only if no added line starts with `++ ` |
| `GitDiff.GitHeadersAreHeaders` | src/infra/github/git-diff.parser.shared.ts:3-12 | The header lines git writes are neither hunk headers nor hunk lines |
| `Bm25.CountFrequencies` | src/application/services/bm25-memory-index.service.ts:31-41 | The stored document frequencies are, for every term, the number of chunks that contain it |
| `Bm25.CountTerms` | src/application/services/bm25-memory-index.service.ts:83-87 | The frequency map of a document holds, for every term, its occurrences |
| `Bm25.BM25MemoryIndex.Build` | src/application/services/bm25-memory-index.service.ts:28-49 | The index holds exactly the given chunks and the numbers their definitions give |
| `Bm25.BM25MemoryIndex.ScoreDocument` | src/application/services/bm25-memory-index.service.ts:77-98 | The accumulated score is the sum of the BM25 term scores of its definition |
| `Bm25.BM25MemoryIndex.Search` | src/application/services/bm25-memory-index.service.ts:51-71 | The first `limit` of the positive hits, stably ranked by score; nothing for an empty index or query |
| `Bm25.TermScoreExactly` | src/application/services/bm25-memory-index.service.ts:88-95 | A term adds to a score exactly when the chunk contains it |
| `Bm25.ScoreExactly` | src/application/services/bm25-memory-index.service.ts:77-98 | A chunk scores above zero if and only if it shares a token with the query |
| `Bm25.SearchIsBest` | src/application/services/bm25-memory-index.service.ts:60-70 | The result is non-increasing and at most `limit` long, and no omitted chunk outscores a returned one |
| `Bm25.SearchFindsSharers` | src/application/services/bm25-memory-index.service.ts:51-71 | Up to the limit a search returns exactly the chunks that share a token with the query |
| `Bm25.TermScoreIsBm25` | src/application/services/bm25-memory-index.service.ts:88-95 | What a term adds is its rarity times f (1.5 + 1) over f + 1.5 (one quarter + three quarters of the length by the mean length), the rarity being the logarithm of one plus the documents without over those with it, a half added to each |
| `Bm25.RarerTermsCountMore` | src/application/services/bm25-memory-index.service.ts:92-94 | Of two terms as frequent in a document the one that fewer documents contain adds more, for any increasing logarithm |
| `Bm25.RepetitionsCountMore` | src/application/services/bm25-memory-index.service.ts:93-94 | In documents of one length more occurrences of a term add more |
| `Bm25.SearchIsStable` | src/application/services/bm25-memory-index.service.ts:66-69 | Hits with the same score are returned in the order of the chunks |
| `Bm25.IndexedByTitleAndContent` | src/application/services/bm25-memory-index.service.ts:28-31 | What is indexed of a chunk are the tokens of its title and content, a blank between them |
| `Bm25.SliceExactly` | src/application/services/bm25-memory-index.service.ts:69-69 | A negative limit leaves out that many from the end |
| `Correlation.OverlapScore` | src/domain/helpers/correlation-lexical.ts:34-45 | The loop computes the share of the left tokens found on the right |
| `Correlation.OverlapExactly` | src/domain/helpers/correlation-lexical.ts:34-45 | The share is in [0,1], positive exactly when something is shared, and one exactly when all of a non-empty left side is |
| `Correlation.BestMatch` | src/domain/helpers/criterion-diff-correlator.ts:38-67 | The three loops find the best of all candidates |
| `Correlation.BestIsFirstMaximum` | src/domain/helpers/criterion-diff-correlator.ts:90-100 | The best match is the first candidate with the highest score, and none when all score zero |
| `Correlation.ApplyMemoryBoost` | src/domain/helpers/criterion-diff-correlator.ts:165-219 | The loop finds the strongest boost |
| `Correlation.BoostIsMaximum` | src/domain/helpers/criterion-diff-correlator.ts:165-219 | A boost is found exactly when a chunk touches the criterion, and it is the largest |
| `Correlation.CollectRelatedFiles` | src/domain/helpers/criterion-diff-correlator.ts:129-163 | The loops collect the related files |
| `Correlation.ScoredExactly` | src/domain/helpers/criterion-diff-correlator.ts:129-163 | Exactly the files with a positive match are scored, each once, with the best of its scores |
| `Correlation.RelatedFilesAreBest` | src/domain/helpers/criterion-diff-correlator.ts:159-163 | At most five files, best first, and none left out before the limit |
| `Correlation.CorrelateCriterion` | src/domain/helpers/criterion-diff-correlator.ts:34-88 | A criterion is matched to its best file, the boost added up to one, or the schema rejects the score |
| `Correlation.MatchThrowsExactly` | src/domain/helpers/criterion-diff-correlator.ts:69-87 | A match throws if and only if some chunk touches the criterion and each that does takes away more than the best match has; otherwise its score is in [0,1] |
| `Correlation.NegativeMemoryThrows` | src/domain/helpers/criterion-diff-correlator.ts:69-87 | Such memory exists: with nothing changed, one chunk that shares a word with the criterion, at relevance -1.0, makes the match throw |
| `Correlation.RelevantMemoryNeverThrows` | src/domain/helpers/criterion-diff-correlator.ts:69-87 | With memory of non-negative relevance nothing throws |
| `Correlator.ConsumeCriteria` | src/domain/helpers/demand-context-consumer.ts:13-33 | The loop trims and collects the criteria |
| `Correlator.ConsumedExactly` | src/domain/helpers/demand-context-consumer.ts:13-33 | Exactly the trimmed non-blank criteria, each once |
| `Correlator.DetectUncovered` | src/domain/helpers/uncovered-criterion-detector.ts:19-40 | Exactly the criteria below the threshold become risks, in order |
| `Correlator.RankScenarios` | src/application/services/demand-diff-memory-correlator.service.ts:110-145 | The ranking loop makes one scenario per ranked criterion up to ten, and reports the cap exactly when ten are reached |
| `Correlator.RankedAreDistinct` | src/application/services/demand-diff-memory-correlator.service.ts:110-116 | Exactly the criteria at or above the threshold are ranked, each once |
| `Correlator.RankedOrder` | src/application/services/demand-diff-memory-correlator.service.ts:110-116 | By descending score, and in the order of the criteria where scores are equal |
| `Correlator.CriteriaArePartitioned` | src/application/services/demand-diff-memory-correlator.service.ts:102-145 | Each criterion is exactly one of uncovered, required or omitted by the cap, and no omitted one outscores an included one |
| `Correlator.CriteriaAddUp` | src/application/services/demand-diff-memory-correlator.service.ts:102-145 | The uncovered, the required and the omitted add up to all criteria |
| `Correlator.OutcomesExactly` | src/application/services/demand-diff-memory-correlator.service.ts:51-178 | Scenarios are derived if and only if there are criteria, there is a diff signal, every match succeeds, and some criterion is covered or a route is affected beside a changed file; then there are one to ten |
| `Correlator.RelevantMemoryCorrelates` | src/application/services/demand-diff-memory-correlator.service.ts:97-100 | With memory of non-negative relevance the correlation never throws and every reported score is in [0,1] |
| `Correlator.Correlate` | src/application/services/demand-diff-memory-correlator.service.ts:35-178 | The whole correlation computes what the outcome laws are about |
| `CorrelationLaws.CandidatesCompare` | src/domain/helpers/criterion-diff-correlator.ts:38-67 | Files, routes and schemas are compared in this order; each scores something exactly when it shares a word with the criterion, and one exactly when it has all of its words, a schema by the path of its file, or by its own words and the word for schemas without one |
| `CorrelationLaws.FileForRouteExactly` | src/domain/helpers/criterion-diff-correlator.ts:221-248 | The file of a route is the first route file that shares most words with it; where none shares any, one whose path contains the route without its slash; and none otherwise |
| `CorrelationLaws.FileForSchemaExactly` | src/domain/helpers/criterion-diff-correlator.ts:250-273 | The file of a schema is a schema file that ends in its name, or else one that shares a word with it |
| `CorrelationLaws.HitsExactly` | src/domain/helpers/criterion-diff-correlator.ts:174-183 | A chunk hits a route when its content or title contains one or its content shares a word with one, and the criterion when it shares a word with it |
| `CorrelationLaws.BoostsExactly` | src/domain/helpers/criterion-diff-correlator.ts:185-187 | Mentioning a route is worth half a tenth more at any relevance below the caps, which are reached from relevances of 2.5 and 2 on, and a boost grows by a tenth of the relevance |
| `CorrelationLaws.BoostIsFirstStrongest` | src/domain/helpers/criterion-diff-correlator.ts:198-206 | The boost is that of the first chunk that no other beats by its amount, or by its relevance where the amounts are equal |
| `CorrelationLaws.RiskExactly` | src/domain/helpers/scenario-risk-scorer.ts:12-21 | Score and risk add up to one, unless a related file regresses, which adds a quarter up to one |
| `CorrelationLaws.RequiredExactly` | src/application/services/demand-diff-memory-correlator.service.ts:126-139 | Required scenarios are numbered from one, entitled by their criteria cut to a hundred characters, and carry the related files and the risk |
| `CorrelationLaws.RequiredIdsAreDistinct` | src/application/services/demand-diff-memory-correlator.service.ts:128-128 | Their ids are distinct |
| `CorrelationLaws.TruncatedExactly` | src/domain/helpers/correlation-lexical.ts:1-6 | A text that is too long is cut to the limit with an ellipsis that counts, and begins as it did |
| `CorrelationLaws.RouteScenariosExactly` | src/application/services/demand-diff-memory-correlator.service.ts:180-211 | Beside changed files every route has one scenario, which relates to exactly the route files and the files whose path has the route as a word, at risk 0.6, or 0.8 when there are none |
| `CorrelationLaws.BelowExactly` | src/application/services/demand-diff-memory-correlator.service.ts:223-240 | The notice lists exactly the criteria below the threshold, in order, cut to eighty characters |
| `TaskMemory.Push` | src/application/services/task-memory.service.ts:107-111 | A push drops blanks and adjacent repetitions and keeps the last entries |
| `TaskMemory.PushKeepsWindow` | src/application/services/task-memory.service.ts:107-111 | One push on the window is the window on the longer history |
| `TaskMemory.RemembersNext` | src/application/services/task-memory.service.ts:36-80 | Whatever a task is told next, its windows keep showing the end of its history |
| `TaskMemory.MemoryIsTheEndOfHistory` | src/application/services/task-memory.service.ts:27-80 | After any events observed states, hypotheses and blockers are the last six entries of the full history without blanks and adjacent repetitions, and actions and rejections its last eight and six |
| `TaskMemory.StateIsOfLastChange` | src/application/services/task-memory.service.ts:27-80 | The state of a task is decided by the last thing that happened to it, however much was observed or supposed since, its recommendation is that of the last refusal, and what it is about never changes |
| `TaskMemory.TaskMemoryService.Ensure` | src/application/services/task-memory.service.ts:27-34 | A known task keeps its memory; a new one starts empty; no other changes |
| `TaskMemory.TaskMemoryService.Observe` | src/application/services/task-memory.service.ts:36-40 | The memory of that task alone becomes what the event makes of it; an unknown task is ignored |
| `TaskMemory.TaskMemoryService.Action` | src/application/services/task-memory.service.ts:42-53 | As Observe, for an action and its outcome |
| `TaskMemory.TaskMemoryService.Hypothesis` | src/application/services/task-memory.service.ts:55-58 | As Observe, for a hypothesis |
| `TaskMemory.TaskMemoryService.Reject` | src/application/services/task-memory.service.ts:60-68 | As Observe, for a rejected decision |
| `TaskMemory.TaskMemoryService.Block` | src/application/services/task-memory.service.ts:70-75 | As Observe, for a blocker |
| `TaskMemory.TaskMemoryService.Finish` | src/application/services/task-memory.service.ts:77-80 | As Observe, for the end of the work |
| `TaskMemory.KeysCollideExactly` | src/application/services/task-memory.service.ts:103-105 | Two tasks share a memory if and only if they are the same, or the id of one scenario with a colon begins the id of the other and the task ids make up for the difference |
| `TaskMemory.ScenariosCollideExactly` | src/application/services/task-memory.service.ts:103-105 | Some tasks of two different scenarios share a memory if and only if the id of one, with a colon, begins the id of the other |
| `TaskMemory.KeysDiffer` | src/application/services/task-memory.service.ts:103-105 | Without a colon in scenario ids the memories of different tasks are different |
| `TaskMemory.KeysCanCollide` | src/application/services/task-memory.service.ts:103-105 | With a colon two tasks can share one memory |
| `Knowledge.UnionByKey` | src/application/services/project-memory-manager.service.ts:85-96 | The loop computes the keep-first union |
| `Knowledge.UnionLaws` | src/application/services/project-memory-manager.service.ts:81-96 | The union is associative, keeps every earlier entry in place, has the keys of both sides once each, and adding a side again changes nothing |
| `Knowledge.MergeLaws` | src/application/services/project-memory-manager.service.ts:62-79 | Merging knowledge is associative, and merging the same analysis again changes nothing |
| `Knowledge.MergeKeeps` | src/application/services/project-memory-manager.service.ts:62-79 | Each of the eleven lists of the merged knowledge begins with the distinct entries of the existing one, has exactly the keys of the two sides and each once; schema version and metadata are the newer ones, and authentication is unless it is unknown |

## Left out

- The LangGraph execution engine, the CLI and HTTP layers, dependency injection, configuration loading, persistence and all network clients.
- Playwright, screenshots, traces, evidence files, accessibility audits beyond the warnings they add, reports, metrics, logging, telemetry, timestamps and durations.
- The language model's prompts, JSON cleaning and fallback routing: a decision or a patch is an arbitrary answer or a rejected call.
- Regular expressions, tokenizers, Unicode segmentation and case folding of the locator resolver, the runner, the index and the correlator are parameters about which nothing is assumed; of the logarithm in BM25 only its positive sign above one is assumed.
- Numbers are exact reals: rounding of scores, thresholds and relevances is not modelled.
- Strings are sequences of characters; UTF-16 code units, carriage returns and the other Unicode line separators are not treated as line ends of memory files.
- How runtime states, network logs and visible texts are matched is one arbitrary judge; `matchesRuntimeExpected`, `semanticStates` and the network validator have no model of their own.
- The `exact` and `minConfidence` properties of locators: they are inside the text tests.
- The keyword table that prefers a container for a target is a parameter; only its fallback to the first container is in the model.
- Working memory has no influence on the executor or the runner, as it only enters prompts; its `context` text is not modelled.
- Redaction of secrets, rationale texts and messages, and the texts of warnings other than which warning is given.
- Object identity: an observation counts as re-observed when the loop made one, and two tasks of one scenario are different values, not aliases.
- Zod schemas are modelled as far as they bound lengths and numbers the code relies on; in plans, patches, diffs and scores a violation is the schema error.
- Evaluation rules of learning candidates are an arbitrary predicate; writing promoted records to the memory store, and loading, saving and expiring project knowledge, are not modelled.
- The detectors for negative diffs and demand mismatches enter the correlator as risks found earlier, because the outcome laws do not depend on which they are.
- `PlanExecutor.PlanExecutorService.Execute`: the executed actions are bounded through the limits of the plans the run visits, because a patch may bring in steps with larger limits of their own.
- `StepServices.RecoveryPolicy.Recover`: the fallback it is given must be an escape or what the provider proposed earlier in the session, as its two callers have it, so that the history of a session can say what is executed; the same holds of the target and the observation `StepServices.ElementAvailabilityResolver.EnsureAvailable` is given, which its one caller takes from an expanded action and from the browser.
- `MemoryChunks.Parse`: the name of the file is not kept in the chunks, only its absence is an error; their optional `metadata` is never set by the reader.
- `ReactiveRunner.ReactiveRunnerService.RunScenario`: rejected decisions and hypotheses kept in working memory are not part of the state.
