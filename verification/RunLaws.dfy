/** What can happen in a run of the executor, shown by a complete history of a session
    (src/application/services/plan-executor.service.ts:64-244). */
module RunLaws {
  import opened Domain
  import opened PlanPatches
  import opened PlanRuns
  import opened Locators
  import opened Harness
  import opened StepServices
  import opened Attempts
  import opened Stages
  import opened PlanExecutor

  const WAIT: PlanAction := WaitForStable(0, "")
  const RESOLVED: QaAction := WaitForStable(0, "")

  const OPEN: ExecutionStep :=
    ExecutionStep("open", "Open", [], WAIT, [NoConsoleErrors], [], Recover, None, None, None)

  const SAVE: ExecutionStep :=
    ExecutionStep("save", "Save", [UNMET], WAIT, [NoConsoleErrors], [], Recover, None, None, None)

  const LATE: ExecutionStep :=
    ExecutionStep("late", "Late", [], WAIT, [NoConsoleErrors], [], Recover, None, None, None)

  const PLAN: ExecutionPlan := ExecutionPlan("plan", 1, HybridGuarded, PlanRuntime(1, 1), [OPEN, SAVE], [])

  /** An obliging world whose provider proposes to replace the plan from its first step on. */
  function Rewriter(obs: Observation, state: Snapshot): World {
    var w := Obliging(PlainText(), t => obs, state);
    w.(outside := w.outside.(replans := true,
                             patches := (t: nat, plan: ExecutionPlan) => Replied(Rewriting(PLAN, LATE))))
  }

  /** What the executor does with the plan in such a world: the first step passes, the precondition of the second
      is not met, the provider is asked for a patch, and the plan is over. */
  function Trace(obs: Observation, state: Snapshot): (h: History)
    ensures |h| == 21
  {
    [ Began,
      Observed(Replied(obs)), Mapped(obs), Snapped(obs, Replied(state)),
      Expanded(WAIT, Some(WAIT), map[]), Expanded(WAIT, Some(WAIT), map[]),
      Executed(Main, RESOLVED, Replied(ExecResult(true, true, None))),
      Noted(AttemptRecord("waitForStable", Passed)),
      Observed(Replied(obs)), Mapped(obs), Snapped(obs, Replied(state)),
      Validated(ConsoleClean, Replied(AssertionResult(true, ""))),
      Recorded(QaStep("open", obs.observationId, RESOLVED, AssertionResult(true, "conditions"), false)),
      Observed(Replied(obs)), Mapped(obs), Snapped(obs, Replied(state)),
      Asked(PLAN, Replied(Rewriting(PLAN, LATE))), Filed(PatchRecord(true, Some("open"))),
      Observed(Replied(obs)), Mapped(obs), Snapped(obs, Replied(state)) ]
  }

  /** The evidence of the first step, and where the events end. */
  const PASSED: Evidence := Evidence(3, 6, 10)
  const MARKS: seq<nat> := [1, 13, 18]

  lemma StateInRun(obs: Observation, state: Snapshot, i: nat)
    requires i <= 21
    ensures At(Trace(obs, state), i).store == map[]
    ensures i > 2 ==> At(Trace(obs, state), i).mapped == Some(obs)
  {
    hide StateOf;
    StateWhileMapped(Trace(obs, state), 21, obs, i);
    assert Trace(obs, state)[2].Mapped?;
  }

  lemma RunIsHonest(obs: Observation, state: Snapshot)
    ensures Honest(Rewriter(obs, state), Trace(obs, state))
  {
    hide StateOf, IsAnswer, Warranted;
    var w, h := Rewriter(obs, state), Trace(obs, state);
    forall i | 0 <= i < 21
      ensures IsAnswer(w, At(h, i), i, h[i]) && Warranted(w, h[..i], h[i])
    {
      AnswersInRun(obs, state, i);
      RunIsWarranted(obs, state, i);
    }
  }

  lemma AnswersInRun(obs: Observation, state: Snapshot, i: nat)
    requires i < 21
    ensures IsAnswer(Rewriter(obs, state), At(Trace(obs, state), i), i, Trace(obs, state)[i])
  {
    hide StateOf;
    StateInRun(obs, state, i);
  }

  lemma RunIsWarranted(obs: Observation, state: Snapshot, i: nat)
    requires i < 21
    ensures Warranted(Rewriter(obs, state), Trace(obs, state)[..i], Trace(obs, state)[i])
  {
    hide RecoveryActions;
    if Trace(obs, state)[i].Mapped? {
      assert Trace(obs, state)[..i][i - 1] == Observed(Replied(Trace(obs, state)[i].obs));
    }
  }

  lemma LooksInRun(obs: Observation, state: Snapshot, n: nat, from: nat, i: nat)
    requires (from, i) in {(1, 3), (6, 10), (13, 15), (18, 20)} && i < n <= 21
    ensures Looks(Trace(obs, state)[..n], from, i)
  {
    hide StateOf;
    var h := Trace(obs, state);
    StateInRun(obs, state, i);
    assert h[..i][i - 2] == Observed(Replied(h[i].of));
    assert Looks(h, from, i);
    LooksIn(h, h[..n], from, i);
  }

  lemma {:induction false} NoneExecuted(h: History, i: nat, j: nat)
    requires i <= j <= |h| && forall k :: i <= k < j ==> !IsMain(h[k])
    ensures Mains(h[..j]) == Mains(h[..i])
  {
    hide IsMain;
    if i < j {
      NoneExecuted(h, i, j - 1);
      assert h[..j] == h[..j - 1] + [h[j - 1]];
      MainsGrow(h[..j - 1], h[j - 1]);
    }
  }

  lemma ConsoleIsClean(obs: Observation, state: Snapshot, scene: Scene, h: History, k: nat)
    requires k < |h| && h[k] == Validated(ConsoleClean, Replied(AssertionResult(true, "")))
    ensures Check(Rewriter(obs, state), scene, [NoConsoleErrors], h, k) == Some(Verdict(true, k + 1))
  {
    assert [NoConsoleErrors][..0] == [];
  }

  lemma StateIsUnmet(obs: Observation, state: Snapshot, scene: Scene, h: History, k: nat)
    ensures Check(Rewriter(obs, state), scene, [UNMET], h, k) == Some(Verdict(false, k))
  {
    assert [UNMET][..0] == [];
  }

  lemma NothingToCheck(w: World, scene: Scene, h: History, k: nat)
    ensures Check(w, scene, [], h, k) == Some(Verdict(true, k))
  {
  }

  /** The first step was launched in the attempt that is over at 13. */
  lemma LaunchedInRun(obs: Observation, state: Snapshot)
    ensures Launched(Rewriter(obs, state), Trace(obs, state)[..13], 1, OPEN, 3, 6)
  {
    hide StateOf, Looks;
    var w, h := Rewriter(obs, state), Trace(obs, state)[..13];
    var past := h[..6];
    assert past == Trace(obs, state)[..6];
    LooksInRun(obs, state, 6, 1, 3);
    StateInRun(obs, state, 6);
    assert past[1] == Observed(Replied(obs));
    assert Resolved(w, past, OPEN, obs, RESOLVED);
    assert Intended(w, past, 1, 3, OPEN, obs, RESOLVED);
  }

  lemma PassesInRun(obs: Observation, state: Snapshot)
    ensures PassesCleanly(Rewriter(obs, state), Trace(obs, state)[..13], 1, OPEN, PASSED)
  {
    hide StateOf, Looks, Launched, Check;
    var w, h := Rewriter(obs, state), Trace(obs, state)[..13];
    LaunchedInRun(obs, state);
    LooksInRun(obs, state, 13, 6, 10);
    StateInRun(obs, state, 12);
    assert h[..12] == Trace(obs, state)[..12];
    ConsoleIsClean(obs, state, SceneAfter(h, 3, 10), h, 11);
    NothingToCheck(w, SceneAfter(h, 3, 10), h, 12);
    assert Post(w, h, OPEN, PASSED) == Some(Verdict(true, 12));
    assert Business(w, h, OPEN, PASSED) == Some(Verdict(true, 12));
  }

  lemma FirstEvent(obs: Observation, state: Snapshot, m: Machine)
    requires m == Start(PLAN)
    ensures Happened(Rewriter(obs, state), Trace(obs, state)[..13], 1, m, Clean(PASSED))
  {
    hide StateOf, PassesCleanly, Launched, Mains;
    var w, h, whole := Rewriter(obs, state), Trace(obs, state)[..13], Trace(obs, state);
    PassesInRun(obs, state);
    LaunchedInRun(obs, state);
    NoneExecuted(whole, 1, 6);
    NoneExecuted(whole, 7, 13);
    assert whole[..7] == whole[..6] + [whole[6]];
    MainsGrow(whole[..6], whole[6]);
    assert h[..6] == whole[..6] && h[..6][..1] == whole[..1];
    LawfulByLaunch(w, h[..6], h, 1, OPEN, 3);
  }

  lemma StallsInRun(obs: Observation, state: Snapshot, m: Machine)
    requires m == Start(PLAN).(stepIndex := 1)
    ensures Stalls(Rewriter(obs, state), Trace(obs, state)[..18], 13, m)
  {
    hide StateOf, Looks, Check, Stalls, Ready, Recovers, Concludes;
    var w, h := Rewriter(obs, state), Trace(obs, state)[..18];
    LooksInRun(obs, state, 18, 13, 15);
    StateIsUnmet(obs, state, SceneBefore(h, 15), h, 16);
    assert Unready(w, h, 13, SAVE, 15);
    StuckNow(w, h, 13, m);
  }

  lemma SecondEvent(obs: Observation, state: Snapshot, m: Machine)
    requires m == Start(PLAN).(stepIndex := 1)
    ensures Happened(Rewriter(obs, state), Trace(obs, state)[..18], 13, m, Patched(Rewriting(PLAN, LATE)))
  {
    hide StateOf, Looks, Mains, Stalls, Lawful;
    var w, h, whole := Rewriter(obs, state), Trace(obs, state)[..18], Trace(obs, state);
    StallsInRun(obs, state, m);
    assert h[16] == Asked(PLAN, Replied(Rewriting(PLAN, LATE)));
    NoneExecuted(whole, 13, 18);
    assert h[..13] == whole[..13];
    LawfulAtRest(w, h, 13, SAVE);
  }

  lemma EndOfRun(obs: Observation, state: Snapshot, m: Machine)
    ensures Completed(Rewriter(obs, state), Trace(obs, state), 18, PLAN, m, Finished(true, m.plan, ""))
  {
    hide StateOf, Looks, Mains;
    var w, h := Rewriter(obs, state), Trace(obs, state);
    assert h[..21] == h;
    LooksInRun(obs, state, 21, 18, 20);
    assert PlanJudged(w, h, 18, PLAN, 20, true);
    NoneExecuted(h, 18, 21);
  }

  /** A session in which an execution is ok although the only step of its final plan was never executed: nothing in
      its history is made up, the run is accounted for, and the plan's assertions were judged to hold. */
  lemma OkRunCanSkipItsPlan(obs: Observation, state: Snapshot) returns (run: Run)
    ensures var w, h := Rewriter(obs, state), Trace(obs, state);
      && Honest(w, h) && IsRun(w.config.rules, PLAN, run) && Accounts(w, h, MARKS, run) && !run.Last().AtStep()
      && Completed(w, h, MARKS[|run.events|], PLAN, run.Last(), Finished(true, run.Last().plan, ""))
    ensures run.Last().plan.steps == [LATE] && !EveryStepPassed(run) && !NoBackwardPatch(run, |run.events|)
  {
    hide Honest, Happened, Completed, Steps, Trace, EveryStepPassed;
    var w, h := Rewriter(obs, state), Trace(obs, state);
    RunIsHonest(obs, state);
    assert SAVE.id != OPEN.id && LATE !in PLAN.steps by { assert LATE.id != OPEN.id && LATE.id != SAVE.id; }
    run := RunCanFinishWithoutItsPlan(w.config.rules, PLAN, LATE, PASSED);
    FirstEvent(obs, state, run.states[0]);
    SecondEvent(obs, state, run.states[1]);
    EndOfRun(obs, state, run.Last());
  }
}
