/** The plan executor itself (src/application/services/plan-executor.service.ts). Each method follows
    the service statement by statement; what it promises is stated over the run of the state machine
    it takes and over the history of the session it works in. */
module PlanExecutor {
  import opened ActionPolicy
  import opened Domain
  import opened PlanPatches
  import opened PlanRuns
  import opened Locators
  import opened Harness
  import opened StepServices
  import opened Attempts
  import opened RecoveryLaws

  datatype Choice = Act(action: QaAction, before: Observation) | NoTarget(error: Error)

  datatype Ruling = Proceed(event: Event) | Replanned(patch: PlanPatch, plan: ExecutionPlan) | Ended(message: string)

  datatype ExecutionOutcome = Finished(ok: bool, finalPlan: ExecutionPlan, message: string) | Threw(error: Error)

  /** How the attempts at one step end. */
  datatype StepResult =
    | Stop(outcome: ExecutionOutcome)
    | Move(plan: ExecutionPlan, replans: nat, iterations: map<string, int>, advance: bool)

  const EXHAUSTED := "maxAttemptsPerStep exhausted"

  /** What the caller may do with the ruling on an attempt: the event is one the machine allows here and is
      justified by what happened since `from`, and a run ends only for a reason. */
  ghost predicate Allowed(w: World, h: History, from: nat, m: Machine, v: Ruling)
    requires m.AtStep() && from <= |h|
  {
    match v
    case Ended(message) => message != EXHAUSTED && EndsFor(w, h, from, m)
    case Replanned(p, edited) => Happens(w, h, from, m, Patched(p)) && edited == Edited(w.config.rules, m.plan, p)
    case Proceed(e) => !e.Patched? && Happens(w, h, from, m, e)
  }

  ghost predicate Happens(w: World, h: History, from: nat, m: Machine, e: Event)
    requires m.AtStep()
  {
    Enabled(w.config.rules, m, e) && Justified(w, h, from, m, e)
  }

  // ----- good weather

  ghost predicate Unhindered(w: World, s: ExecutionStep, action: QaAction) {
    && !BlockedText(w.config.rules, s.description + " " + action.reason)
    && forall prior :: Permits(w.config, action, prior)
  }

  ghost predicate ActionFits(w: World, s: ExecutionStep, obs: Observation) {
    forall store, tick :: ResolvesFreely(w, s, ExpandAction(w.templates, s.action, store, tick).0, obs)
  }

  ghost predicate ResolvesFreely(w: World, s: ExecutionStep, expanded: Option<PlanAction>, obs: Observation) {
    && expanded.Some?
    && (expanded.value.Target().Some? ==> Found(w.tm, obs, expanded.value.Target().value))
    && Retarget(w.tm, IndexOf(obs), obs, expanded.value).Ok?
    && Unhindered(w, s, Retarget(w.tm, IndexOf(obs), obs, expanded.value).value)
  }

  /** Nothing stands in the way of a step: the browser does what it is asked, every observation it gives shows
      the target and everything the conditions ask for, and the policy permits the action. */
  ghost predicate Smooth(w: World, s: ExecutionStep) {
    && Willing(w.outside)
    && forall obs :: Offered(w.outside, obs) ==> AllFit(w, Conditions(s), obs) && ActionFits(w, s, obs)
  }

  ghost predicate SmoothEnd(w: World, plan: ExecutionPlan) {
    Willing(w.outside) && forall obs :: Offered(w.outside, obs) ==> AllFit(w, plan.assertions, obs)
  }

  /** Nothing stands in the way of any step of a plan, nor of its own assertions. */
  ghost predicate FairWeather(w: World, plan: ExecutionPlan) {
    && SmoothEnd(w, plan)
    && forall s <- plan.steps :: Smooth(w, s) && AttemptLimit(plan, s) > 0
  }

  lemma SmoothParts(w: World, s: ExecutionStep, obs: Observation)
    requires Smooth(w, s) && Offered(w.outside, obs)
    ensures Willing(w.outside) && ActionFits(w, s, obs)
    ensures AllFit(w, s.preconditions, obs) && AllFit(w, s.postconditions, obs) && AllFit(w, s.assertions, obs)
    ensures s.repeatUntil.Some? ==> AllFit(w, [s.repeatUntil.value], obs)
    ensures Fits(w, FirstOf(s.postconditions), obs)
  {
    hide Fits, ActionFits, Willing;
    PartsOfStep(s);
  }

  /** The conditions of a step are all its conditions. */
  lemma PartsOfStep(s: ExecutionStep)
    ensures forall c :: c in s.preconditions || c in s.postconditions || c in s.assertions ==> c in Conditions(s)
    ensures s.repeatUntil.Some? ==> s.repeatUntil.value in Conditions(s)
    ensures FirstOf(s.postconditions) in Conditions(s) && FirstOf(s.assertions) in Conditions(s)
  {
    assert NoConsoleErrors in Conditions(s);
  }

  /** In good weather the action resolves, and its target is there. */
  lemma SmoothTarget(w: World, s: ExecutionStep, obs: Observation, store: Store, tick: nat)
    requires ActionFits(w, s, obs)
    ensures ResolvesFreely(w, s, ExpandAction(w.templates, s.action, store, tick).0, obs)
  {
  }

  lemma WillingReplies(o: Outside, t: nat, action: QaAction, obs: Observation)
    requires Willing(o)
    ensures o.executed(t, action).Replied? && o.executed(t, action).value.ok
    ensures o.snapshots(t, obs).Replied? && o.settled(t).Replied?
  {
  }

  // ----- small steps of the proofs

  lemma KeptStore(t: Templates, a: PlanAction, store: Store, tick: nat)
    requires !t.generates(a)
    ensures ExpandAction(t, a, store, tick).1 == store
  {
  }

  lemma NotFoundLater(w: World, h: History, later: History, u: nat, s: ExecutionStep, obs: Observation)
    requires NotFoundAt(w, h, u, s, obs) && h <= later
    ensures NotFoundAt(w, later, u, s, obs) && later[u] == h[u]
  {
    PastStays(h, later, u);
  }

  /** An attempt without an execution is lawful. */
  lemma LawfulAtRest(w: World, h: History, from: nat, s: ExecutionStep)
    requires from <= |h| && Mains(h) == Mains(h[..from])
    ensures Lawful(w, h, from, s)
  {
    hide Launched;
    NoMainsSince(h, from);
  }

  lemma OnlyMain(h: History, from: nat, at: nat)
    requires from <= at < |h| && IsMain(h[at])
    requires Mains(h[..at]) == Mains(h[..from]) && Mains(h) == Mains(h[..at]) + 1
    ensures Mains(h) == Mains(h[..from]) + 1
    ensures forall i :: from <= i < |h| && IsMain(h[i]) ==> i == at
  {
    assert h[..at][..from] == h[..from] && h[..at + 1] == h[..at] + [h[at]];
    hide IsMain;
    MainsGrow(h[..at], h[at]);
    hide Mains;
    NoMainsSince(h[..at], from);
    NoMainsSince(h, at + 1);
    assert forall i :: from <= i < at ==> h[..at][i] == h[i];
  }

  /** An attempt with one execution, of an action that was launched, is lawful. */
  lemma LawfulByLaunch(w: World, h: History, later: History, from: nat, s: ExecutionStep, start: nat)
    requires from <= |h| && h < later && Mains(h) == Mains(h[..from]) && Mains(later) == Mains(h) + 1
    requires Launched(w, later, from, s, start, |h|)
    ensures Lawful(w, later, from, s)
  {
    assert IsMain(later[|h|]) && later[..|h|] == h && later[..from] == h[..from];
    hide Launched, Mains, IsMain;
    OnlyMain(later, from, |h|);
  }

  lemma JustLaunched(w: World, h: History, from: nat, s: ExecutionStep, start: nat, obs: Observation, c: Call)
    requires Ready(w, h, from, s, start) && start < |h| && IsMain(c)
    requires Intended(w, h, from, start, s, obs, c.action) && Clears(w, h, s, c.action)
    ensures Launched(w, h + [c], from, s, start, |h|)
  {
    assert (h + [c])[..|h|] == h;
  }

  lemma JustLooked(h: History, from: nat, shown: nat, c: Call)
    requires c.Snapped? && c.state.Replied? && StateOf(h).mapped == Some(c.of)
    requires from <= shown < |h| && h[shown] == Observed(Replied(c.of))
    ensures Looks(h + [c], from, |h|) && At(h + [c], |h|) == StateOf(h)
  {
    assert (h + [c])[..|h|] == h;
  }

  // ----- what an execution of a plan leaves

  /** What an attempt that is over did, from `from` to the end of `h`. */
  ghost predicate Happened(w: World, h: History, from: nat, m: Machine, e: Event) {
    m.AtStep() && from <= |h| && Justified(w, h, from, m, e) && Lawful(w, h, from, m.Step())
  }

  /** Every event of the run is justified by the stretch of the history that is its own: from one mark to
      the next. */
  ghost predicate Accounts(w: World, h: History, marks: seq<nat>, run: Run) {
    && |run.states| == |run.events| + 1 == |marks|
    && (forall i :: 0 <= i < |marks| ==> marks[i] <= |h|)
    && forall i :: 0 <= i < |run.events| ==> Happened(w, h[..marks[i + 1]], marks[i], run.states[i], run.events[i])
  }

  lemma AccountsLater(w: World, h: History, later: History, marks: seq<nat>, run: Run)
    requires Accounts(w, h, marks, run) && h <= later
    ensures Accounts(w, later, marks, run)
  {
    hide Happened;
    forall i | 0 <= i < |run.events|
      ensures Happened(w, later[..marks[i + 1]], marks[i], run.states[i], run.events[i])
    {
      PastStays(h, later, marks[i + 1]);
    }
  }

  lemma AccountsExtend(w: World, h: History, marks: seq<nat>, run: Run, e: Event, m: Machine)
    requires Accounts(w, h, marks, run) && Happened(w, h, marks[|run.events|], run.Last(), e)
    ensures Accounts(w, h, marks + [|h|], run.Extend(e, m))
  {
    hide Happened;
    var longer, longerMarks := run.Extend(e, m), marks + [|h|];
    assert h[..|h|] == h;
    forall i | 0 <= i < |longer.events|
      ensures Happened(w, h[..longerMarks[i + 1]], longerMarks[i], longer.states[i], longer.events[i])
    {
      if i < |run.events| {
        assert Happened(w, h[..marks[i + 1]], marks[i], run.states[i], run.events[i]);
      }
    }
  }

  /** No run executes more actions for themselves than it has attempts. */
  lemma {:induction false} MainsAreCounted(w: World, h: History, marks: seq<nat>, run: Run, i: nat)
    requires Accounts(w, h, marks, run) && i <= |run.events|
    ensures Mains(h[..marks[i]]) <= Mains(h[..marks[0]]) + i
  {
    hide Justified, Launched;
    if i > 0 {
      MainsAreCounted(w, h, marks, run, i - 1);
      assert Happened(w, h[..marks[i]], marks[i - 1], run.states[i - 1], run.events[i - 1]);
      assert h[..marks[i]][..marks[i - 1]] == h[..marks[i - 1]];
    }
  }

  /** The verdict on the plan's own assertions, on a page looked at since `from`. */
  function PlanScene(h: History, i: nat): Scene
    requires Snaps(h, i)
  {
    Scene(IndexOf(h[i].of), h[i].of, h[i].state.value, Some(h[i].state.value), At(h, i).store)
  }

  ghost predicate PlanJudged(w: World, h: History, from: nat, plan: ExecutionPlan, i: nat, ok: bool) {
    && Looks(h, from, i)
    && var v := Check(w, PlanScene(h, i), plan.assertions, h, i + 1);
      v.Some? && v.value.ok == ok
  }

  /** Why checking the plan's own assertions throws: the browser just rejected a call, checking just broke off, or
      the failure cannot be described. */
  ghost predicate EndThrows(w: World, h: History, from: nat, plan: ExecutionPlan, e: Error) {
    || (JustRejected(h, e) && from < |h|)
    || (exists i: nat :: PlanBreaksOff(w, h, from, plan, i, e))
    || (exists i: nat :: PlanJudged(w, h, from, plan, i, false)
          && Bound(w, StateOf(h), h[i].of, FirstOf(plan.assertions)) == Thrown(e))
  }

  ghost predicate PlanBreaksOff(w: World, h: History, from: nat, plan: ExecutionPlan, i: nat, e: Error) {
    Looks(h, from, i) && BreaksOff(w, PlanScene(h, i), plan.assertions, h, i + 1, e)
  }

  predicate AllClean(run: Run) {
    forall e <- run.events :: e.Clean?
  }

  /** The longer run has one more event, a clean pass. */
  predicate AddsCleanPass(run: Run, longer: Run) {
    && |longer.events| == |run.events| + 1 && longer.events[..|run.events|] == run.events
    && longer.events[|run.events|].Clean?
  }

  /** Waiting, when an action was not a fast success, is over, and a timeout was noted. */
  predicate Waited(h: History, later: History, stepId: string, exec: ExecResult) {
    if exec.ok && exec.fast then later == h
    else
      exists stable :: later == h + [Settled(Replied(stable))] + (if stable then [] else
        [Call.Warned(Warning(stepId, "QUIESCENCE_TIMEOUT")), Noted(AttemptRecord("waitForQuiescence", Failed))])
  }

  /** The step's action is expanded at `n`. A click whose containers may be opened has its target sought before it is
      resolved; any other action is resolved at once, and only after that failed the page is audited and another way is
      sought. */
  predicate SeeksInOrder(w: World, h: History, n: nat) {
    && n < |h| && h[n].Expanded?
    && (h[n].into.None? ==> |h| == n + 1)
    && (h[n].into.Some? ==> |h| > n + 1 && h[n + 1].Expanded?)
    && (h[n].into.Some? && |h| > n + 2 ==>
          (h[n + 2].Audited? <==> !(h[n].into.value.Click? && w.config.availabilityEnabled)))
  }

  /** The last thing that happened is that a failed step was recorded, with its validation on the page; nothing was
      executed for it, which is recorded as waiting. */
  predicate FailureRecorded(h: History, stepId: string, obs: Observation, validation: AssertionResult) {
    && h != [] && h[|h| - 1].Recorded?
    && var step := h[|h| - 1].step;
       step == QaStep(stepId, obs.observationId, WaitForStable(1000, step.action.reason), validation, true)
  }

  function NotesOf(records: seq<AttemptRecord>): History {
    seq(|records|, i requires 0 <= i < |records| => Noted(records[i]))
  }

  function WarningsOf(stepId: string, messages: seq<string>): History {
    seq(|messages|, i requires 0 <= i < |messages| => Call.Warned(Warning(stepId, messages[i])))
  }

  /** What an audit of the page leaves: every message is a warning about the step. */
  function AuditLeaves(stepId: string, messages: seq<string>): History {
    [Audited(messages)] + WarningsOf(stepId, messages)
  }

  /** What reading the page after an action leaves: it is shown and mapped, audited when the action was to navigate or
      to compare screenshots, and its states are taken. */
  ghost predicate ReadLeaves(h: History, later: History, stepId: string, action: QaAction, obs: Observation,
                             state: Snapshot) {
    exists audit: History :: AuditedFor(stepId, action, audit)
      && later == h + [Observed(Replied(obs)), Mapped(obs)] + audit + [Snapped(obs, Replied(state))]
  }

  ghost predicate AuditedFor(stepId: string, action: QaAction, audit: History) {
    if action.Navigate? || action.CompareScreenshot? then exists messages :: audit == AuditLeaves(stepId, messages)
    else audit == []
  }

  ghost predicate LookLeaves(h: History, later: History, stepId: string, exec: ExecResult, action: QaAction,
                             obs: Observation, state: Snapshot) {
    exists settled: History ::
      Waited(h, settled, stepId, exec) && ReadLeaves(settled, later, stepId, action, obs, state)
  }

  lemma JustRead(h: History, audit: History, stepId: string, action: QaAction, obs: Observation, state: Snapshot)
    requires AuditedFor(stepId, action, audit)
    ensures ReadLeaves(h, h + [Observed(Replied(obs)), Mapped(obs)] + audit + [Snapped(obs, Replied(state))], stepId,
                       action, obs, state)
  {
  }

  lemma ReadLast(h: History, later: History, stepId: string, action: QaAction, obs: Observation, state: Snapshot)
    requires ReadLeaves(h, later, stepId, action, obs, state)
    ensures later != [] && later[|later| - 1] == Snapped(obs, Replied(state))
  {
  }

  /** What an executed action leaves in the history: extracting stores what was read. */
  function Leaves(action: QaAction, exec: ExecResult): History {
    (if exec.ok && action.Extract? && exec.data.Some? then [Stored(action.payload, exec.data.value)] else [])
    + [Noted(AttemptRecord(action.TypeName(), if exec.ok then Passed else Failed))]
  }

  lemma KeptSince(h: History, later: History)
    requires Keeps(h, later)
    ensures h <= later && StateOf(later).mapped == StateOf(h).mapped && Mains(later) == Mains(h)
  {
  }

  lemma LooksEarlier(h: History, from: nat, earlier: nat, i: nat)
    requires Looks(h, from, i) && earlier <= from
    ensures Looks(h, earlier, i)
  {
    ShownEarlier(h[..i], from, earlier, h[i].of);
  }

  lemma ReadySnaps(w: World, h: History, later: History, from: nat, s: ExecutionStep, start: nat)
    requires Ready(w, h, from, s, start) && h <= later
    ensures Snaps(later, start) && later[start] == h[start]
  {
  }

  /** What is checked from now on is checked on the evidence. */
  ghost predicate SceneNow(session: Session, ev: Evidence, obs: Observation, before: Snapshot, after: Snapshot)
    reads session, session.locators
  {
    && Snaps(session.calls, ev.start) && Snaps(session.calls, ev.seen)
    && Scene(session.locators.Current(), obs, before, Some(after), session.store)
      == SceneAfter(session.calls, ev.start, ev.seen)
  }

  lemma SceneIsNow(session: Session, ev: Evidence, obs: Observation, before: Snapshot, after: Snapshot)
    requires session.Valid() && ev.seen + 1 == |session.calls| && Snaps(session.calls, ev.start)
    requires session.calls[ev.start].state == Replied(before) && session.calls[ev.seen] == Snapped(obs, Replied(after))
    requires StateOf(session.calls).mapped == Some(obs)
    ensures SceneNow(session, ev, obs, before, after)
  {
    ghost var h, past := session.calls, session.calls[..ev.seen];
    assert h == past + [h[ev.seen]];
    hide StateOf;
    Grows(past, h[ev.seen]);
    ValidMeans(session);
  }

  lemma PreconditionScene(session: Session, start: nat, obs: Observation, before: Snapshot)
    requires session.Valid() && start < |session.calls| && session.calls[start] == Snapped(obs, Replied(before))
    requires StateOf(session.calls).mapped == Some(obs) && At(session.calls, start).store == session.store
    ensures Scene(session.locators.Current(), obs, before, None, session.store) == SceneBefore(session.calls, start)
  {
    hide StateOf;
    ValidMeans(session);
  }

  lemma MappedIsShown(session: Session, obs: Observation)
    requires session.Valid() && StateOf(session.calls).mapped == Some(obs)
    ensures Shown(session.calls, 0, obs)
  {
    hide StateOf, Session.Valid, Honest;
    HonestNow(session);
    MappedWasShown(session.world, session.calls);
  }

  lemma SceneStays(h: History, later: History, start: nat)
    requires Snaps(h, start) && h <= later
    ensures Snaps(later, start) && SceneBefore(later, start) == SceneBefore(h, start)
  {
    PastStays(h, later, start);
  }

  lemma BoundNow(runner: PlanStepRunner, obs: Observation, c: Condition)
    requires runner.session.Valid()
    ensures runner.BoundCondition(c, obs) == Bound(runner.session.world, StateOf(runner.session.calls), obs, c)
  {
    ValidMeans(runner.session);
  }

  /** Recovery that starts at the end of `h` is the recovery from the slip. */
  lemma RecoveryJustRan(w: World, h: History, later: History, from: nat, s: ExecutionStep, ev: Evidence,
                        expected: BoundExpected, a: Option<QaAction>)
    requires Goes(w, h, from, s, ev, false) && Post(w, h, s, ev).value.next == |h| && h <= later
    requires Bound(w, StateOf(h), h[ev.seen].of, FirstOf(s.postconditions)) == Ok(expected)
    requires a.None? ==> AllVain(later, |h|, |later|, RecoveryActions(FALLBACK, w.config), expected)
    requires a.Some? ==> FirstToWork(later, |h|, |later|, RecoveryActions(FALLBACK, w.config), expected, a.value)
    ensures RecoveryRan(w, later, from, s, ev, |later|, a.Some?)
  {
    hide Acted, SceneAfter, RecoveryActions, AllVain, FirstToWork, Bound, Post, StateOf;
    GoesLater(w, h, later, from, s, ev, false);
    PastStays(h, later, |h|);
    assert h[..|h|] == h;
  }

  lemma RecoveryIsRecorded(w: World, h: History, later: History, from: nat, s: ExecutionStep, ev: Evidence, ok: bool)
    requires Judges(w, h, from, s, ev, ok, |h|) && h <= later && RecordedAt(later, |h|, s, ev, ok)
    requires Goes(w, h, from, s, ev, false) && Bound(w, StateOf(h), h[ev.seen].of, FirstOf(s.postconditions)).Ok?
    ensures Recovers(w, later, from, s, ev, ok)
  {
    hide Goes, RecordedAt, Judges, Bound, StateOf;
    GoesLater(w, h, h, from, s, ev, false);
    GoesLater(w, h, later, from, s, ev, false);
    JudgesLater(w, h, later, from, s, ev, ok, |h|);
    DescribedNow(w, h, later, ev, FirstOf(s.postconditions));
  }

  lemma DescribedNow(w: World, h: History, later: History, ev: Evidence, c: Condition)
    requires Snaps(h, ev.seen) && h <= later && Bound(w, StateOf(h), h[ev.seen].of, c).Ok?
    ensures Described(w, later, ev, |h|, c)
  {
    hide Bound, StateOf;
    PastStays(h, later, |h|);
    assert h[..|h|] == h;
  }

  lemma StuckNow(w: World, h: History, from: nat, m: Machine)
    requires m.AtStep() && from <= |h| && Stuck(w, h, from, m.Step(), LastAttempt(m))
    ensures Stalls(w, h, from, m)
  {
    hide Stuck;
    assert h[..|h|] == h;
  }

  /** An end stays grounded when the step is recorded. */
  lemma EndsForLater(w: World, h: History, later: History, from: nat, m: Machine)
    requires m.AtStep() && from <= |h| && Stalls(w, h, from, m) && NoPatch(w, h, from, m.plan, m.replans)
    requires h <= later
    ensures EndsFor(w, later, from, m)
  {
    hide Stalls, Refuses;
    StallsLater(w, h, later, from, m);
  }

  /** After a recovery that worked the outcome was judged again and could be described: the first postcondition
      names no element, or the page looked at again has the same id. */
  ghost predicate DescribesAnew(w: World, h: History, from: nat, s: ExecutionStep, ev: Evidence) {
    exists again: nat, ok, k ::
      JudgesAgain(w, h, from, s, ev, again, ok, k) && !Undescribable(w, h, s, ev, again)
  }

  lemma JustDescribed(w: World, h: History, later: History, from: nat, s: ExecutionStep, ev: Evidence, again: nat,
                      ok: bool)
    requires JudgesAgain(w, h, from, s, ev, again, ok, |h|) && h <= later && Snaps(h, ev.seen)
    requires Bound(w, StateOf(h), h[ev.seen].of, FirstOf(s.postconditions)).Ok?
    ensures DescribesAnew(w, later, from, s, ev)
  {
    hide LooksAgain, SceneAfter, Bound, StateOf, Check;
    assert h[..|h|] == h;
    DescriptionIsStaleExactly(w, h, from, s, ev, again, ok, |h|);
    AgainLater(w, h, later, from, s, ev, again);
    PastStays(h, later, again);
    assert JudgesAgain(w, later, from, s, ev, again, ok, |h|);
  }

  lemma JudgesOldPage(w: World, h: History, from: nat, s: ExecutionStep, ev: Evidence)
    requires RecoveryRan(w, h, from, s, ev, |h|, false)
    ensures Snaps(h, ev.start) && Snaps(h, ev.seen) && Post(w, h, s, ev).Some?
    ensures Judges(w, h, from, s, ev, Post(w, h, s, ev).value.ok, |h|)
  {
    hide Launched, Looks, SceneAfter;
  }

  lemma LooksAnew(w: World, h: History, later: History, from: nat, s: ExecutionStep, ev: Evidence, again: nat)
    requires RecoveryRan(w, h, from, s, ev, |h|, true) && h <= later && LooksAtOnce(later, |h|, again)
    ensures LooksAgain(w, later, from, s, ev, again)
  {
    hide Looks;
    RecoveryLater(w, h, later, from, s, ev, |h|, true);
  }

  lemma ConcludesLater(w: World, h: History, later: History, from: nat, s: ExecutionStep, ev: Evidence)
    requires Concludes(w, h, from, s, ev, true) && h <= later
    ensures Concludes(w, later, from, s, ev, true) && Business(w, later, s, ev) == Business(w, h, s, ev)
    ensures Snaps(h, ev.start) && Snaps(h, ev.seen)
    ensures SceneAfter(later, ev.start, ev.seen) == SceneAfter(h, ev.start, ev.seen)
  {
    hide Launched, Looks, SceneAfter;
    GoesLater(w, h, later, from, s, ev, true);
    BusinessLater(w, h, later, from, s, ev);
    PastStays(h, later, Business(w, h, s, ev).value.next);
  }

  /** A refusal ends the run, and nothing was executed. */
  lemma JustRefused(w: World, h: History, later: History, from: nat, m: Machine, start: nat, obs: Observation,
                    action: QaAction)
    requires m.Active() && from <= |h| && Ready(w, h, from, m.Step(), start)
    requires Intended(w, h, from, start, m.Step(), obs, action) && !Clears(w, h, m.Step(), action)
    requires Mains(h) == Mains(h[..from])
    requires later
      == h + [Recorded(QaStep(m.Step().id, obs.observationId, action, AssertionResult(false, "policy"), true))]
    ensures Mains(later) == Mains(h) && Lawful(w, later, from, m.Step()) && Allowed(w, later, from, m, Ended("policy"))
  {
    hide Ready, Intended, Clears, Mains, Lawful, Stalls, Repeats;
    MainsGrow(h, later[|h|]);
    assert later[..|h|] == h && later[..from] == h[..from];
    assert RefusedAt(w, later, from, m.Step(), start, |h|, obs, action);
    LawfulAtRest(w, later, from, m.Step());
  }

  lemma LooksAt(h: History, from: nat, i: nat)
    requires Looks(h, from, i)
    ensures from < i < |h| && Snaps(h, i) && Shown(h, from, h[i].of)
  {
    ShownLater(h[..i], h, from, h[i].of);
  }

  lemma LawfulIsOne(w: World, h: History, from: nat, s: ExecutionStep)
    requires from <= |h| && Lawful(w, h, from, s)
    ensures Mains(h) <= Mains(h[..from]) + 1
  {
  }

  /** How a run stops at a step, by what happened since its last event: it runs out of attempts, ends for a
      reason or throws for one; and whatever it executed was launched. */
  ghost predicate Stopped(w: World, h: History, from: nat, m: Machine, r: ExecutionOutcome)
    requires m.AtStep() && from <= |h|
  {
    && Mains(h) <= Mains(h[..from]) + (if m.Active() then 1 else 0)
    && (from < |h| ==> Lawful(w, h, from, m.Step()))
    && match r
       case Threw(e) => m.Active() && Throws(w, h, from, m, e)
       case Finished(ok, finalPlan, message) =>
         && !ok && finalPlan == m.plan && (message == EXHAUSTED <==> !m.Active())
         && (m.Active() ==> EndsFor(w, h, from, m))
  }

  /** How a run ends after its last step: by the plan's own assertions. */
  ghost predicate Completed(w: World, h: History, from: nat, plan: ExecutionPlan, m: Machine, r: ExecutionOutcome)
    requires from <= |h|
  {
    && Mains(h) == Mains(h[..from])
    && match r
       case Threw(e) => EndThrows(w, h, from, plan, e)
       case Finished(ok, finalPlan, message) =>
         finalPlan == m.plan && message != EXHAUSTED && exists i :: PlanJudged(w, h, from, plan, i, ok)
  }

  /** All plans of the run are within the bounds. */
  ghost predicate Bounding(b: Bounds, run: Run)
    requires |run.states| == |run.events| + 1
  {
    b.iterations > 0 && b.attempts > 0 && forall k :: 0 <= k <= |run.events| ==> Within(b, run.states[k])
  }

  /** The actions executed for steps are bounded by the limits of the plans visited. */
  lemma ExecutionsAreBounded(w: World, h0: History, h: History, plan: ExecutionPlan, run: Run, marks: seq<nat>)
    requires IsRun(w.config.rules, plan, run) && Accounts(w, h, marks, run)
    requires Mains(h[..marks[0]]) == Mains(h0)
    requires Mains(h) <= Mains(h[..marks[|run.events|]]) + (if run.Last().Active() then 1 else 0)
    ensures plan.runtime.maxReplansPerScenario >= 0 ==> forall b: Bounds :: Bounding(b, run) ==>
      Mains(h) <= Mains(h0) + Allowance(b, plan)
  {
    hide Mains, Happened, Within, Steps;
    MainsAreCounted(w, h, marks, run, |run.events|);
    forall b: Bounds | plan.runtime.maxReplansPerScenario >= 0 && Bounding(b, run)
      ensures Mains(h) <= Mains(h0) + Allowance(b, plan)
    {
      RunsAreShort(w.config.rules, plan, run, b);
    }
  }

  /** The wording of the step and the reason of the action name nothing destructive, unless that is allowed. */
  predicate Harmless(w: World, s: ExecutionStep, action: QaAction) {
    w.config.rules.destructive(s.description + " " + action.reason) ==> w.config.rules.allowDestructive
  }

  /** The step is one the run came to. */
  ghost predicate CameTo(run: Run, s: ExecutionStep) {
    exists k :: 0 <= k < |run.states| && run.states[k].AtStep() && run.states[k].Step() == s
  }

  /** The action executed for itself keeps the policy, by the attempts on record then and the wording of a step the
      run came to, and it is that step's own deed or the model's decision. */
  ghost predicate KeptAt(w: World, h: History, run: Run, at: nat)
    requires at < |h| && IsMain(h[at])
  {
    && Abides(w.config.allowedRoutes, h[at].action, At(h, at).attempts)
    && exists s :: CameTo(run, s) && Harmless(w, s, h[at].action) && OwnDeed(w, h, s, at)
  }

  lemma ClearedExactly(w: World, h: History, s: ExecutionStep, action: QaAction)
    ensures Clears(w, h, s, action)
      <==> Abides(w.config.allowedRoutes, action, StateOf(h).attempts) && Harmless(w, s, action)
  {
    PermittedAbides(w.config, action, StateOf(h).attempts);
  }

  lemma LaunchIsKept(w: World, h: History, later: History, from: nat, run: Run, s: ExecutionStep, start: nat, at: nat)
    requires Launched(w, h, from, s, start, at) && h <= later && CameTo(run, s)
    ensures at < |later| && IsMain(later[at]) && KeptAt(w, later, run, at)
  {
    hide Ready, Intended, StateOf, CameTo, Abides, SameDeed, ActsWhereFound;
    PermittedAbides(w.config, h[at].action, At(h, at).attempts);
    LaunchedOwnDeed(w, h, from, s, start, at);
    PastStays(h, later, at);
    assert later[at] == h[at] && later[at - 1] == h[at - 1];
  }

  lemma {:induction false} RunIsKept(w: World, h: History, marks: seq<nat>, run: Run, n: nat, at: nat)
    requires Accounts(w, h, marks, run) && n <= |run.events| && marks[0] <= at < marks[n] && IsMain(h[at])
    ensures KeptAt(w, h, run, at)
  {
    hide KeptAt, Justified, Launched, Mains;
    assert n > 0;
    if at < marks[n - 1] {
      RunIsKept(w, h, marks, run, n - 1, at);
    } else {
      var past, m := h[..marks[n]], run.states[n - 1];
      assert Happened(w, past, marks[n - 1], m, run.events[n - 1]);
      assert past[at] == h[at];
      var start :| Launched(w, past, marks[n - 1], m.Step(), start, at);
      assert CameTo(run, m.Step());
      LaunchIsKept(w, past, h, marks[n - 1], run, m.Step(), start, at);
    }
  }

  /** Whatever a whole execution executes for itself keeps the policy. */
  lemma ExecutionIsKept(w: World, h0: History, h: History, plan: ExecutionPlan, run: Run, marks: seq<nat>,
                        r: ExecutionOutcome, at: nat)
    requires h0 < h && Accounts(w, h, marks, run) && marks[0] == |h0| + 1
    requires Mains(h[..marks[0]]) == Mains(h0)
    requires run.Last().AtStep() ==> Stopped(w, h, marks[|run.events|], run.Last(), r)
    requires !run.Last().AtStep() ==> Completed(w, h, marks[|run.events|], plan, run.Last(), r)
    requires |h0| <= at < |h| && IsMain(h[at])
    ensures KeptAt(w, h, run, at)
  {
    hide KeptAt, Justified, Launched, Mains, Throws, EndsFor, EndThrows, PlanJudged, Happened;
    var n := |run.events|;
    if at < marks[0] {
      assert h[..marks[0]][..|h0|] == h0;
      NoMainsSince(h[..marks[0]], |h0|);
      assert h[..marks[0]][at] == h[at];
    } else if at < marks[n] {
      RunIsKept(w, h, marks, run, n, at);
    } else if run.Last().AtStep() {
      var start :| Launched(w, h, marks[n], run.Last().Step(), start, at);
      assert CameTo(run, run.Last().Step());
      LaunchIsKept(w, h, h, marks[n], run, run.Last().Step(), start, at);
    } else {
      NoMainsSince(h, marks[n]);
    }
  }

  /** Between two steps of an execution that began after `h0`: everything up to now is accounted for. */
  ghost predicate UnderWay(w: World, h0: History, h: History, plan: ExecutionPlan, m: Machine, run: Run,
                           marks: seq<nat>) {
    && h0 < h && m.attempt == 0 && m.plan.runtime == plan.runtime
    && IsRun(w.config.rules, plan, run) && run.Last() == m
    && Accounts(w, h, marks, run) && marks[0] == |h0| + 1 && marks[|run.events|] == |h|
    && Mains(h[..marks[0]]) == Mains(h0)
  }

  /** In fair weather every step so far passed cleanly, and the plan was not patched. */
  ghost predicate Unspoilt(w: World, plan: ExecutionPlan, m: Machine, run: Run) {
    FairWeather(w, plan) ==>
      m.plan == plan && m.stepIndex == |run.events| && m.stepIndex <= |plan.steps| && AllClean(run)
  }

  /** A run is one patch, one step or one repetition further. */
  predicate Further(m: Machine, n: Machine)
    requires m.AtStep()
  {
    if n.replans == m.replans then
      && n.plan == m.plan
      && (n.stepIndex == m.stepIndex + 1
          || (n.stepIndex == m.stepIndex
              && m.Iteration() < IterationLimit(m.Step()) && n.Iteration() == m.Iteration() + 1))
    else n.replans == m.replans + 1 && m.replans < m.plan.runtime.maxReplansPerScenario
  }

  lemma RunBegins(w: World, h0: History, h: History, plan: ExecutionPlan)
    requires h == h0 + [Began]
    ensures UnderWay(w, h0, h, plan, Start(plan), Run([Start(plan)], []), [|h|])
    ensures Unspoilt(w, plan, Start(plan), Run([Start(plan)], []))
  {
    hide Mains, FairWeather;
    MainsGrow(h0, Began);
    assert h[..|h|] == h;
  }

  /** What was accounted for before the plan's own assertions were checked still is. */
  lemma RunEnds(w: World, h0: History, h: History, later: History, plan: ExecutionPlan, m: Machine, run: Run,
                marks: seq<nat>)
    requires UnderWay(w, h0, h, plan, m, run, marks) && h <= later
    ensures h0 < later && Accounts(w, later, marks, run) && marks[|run.events|] == |h|
    ensures Mains(later[..marks[0]]) == Mains(h0)
  {
    hide Mains, Happened, Steps;
    AccountsLater(w, h, later, marks, run);
    assert later[..marks[0]] == h[..marks[0]];
  }

  lemma NoApplications()
    ensures Applications([]) == 0
  {
  }

  lemma UnspoiltMeans(w: World, plan: ExecutionPlan, m: Machine, run: Run)
    requires Unspoilt(w, plan, m, run) && !m.AtStep()
    ensures FairWeather(w, plan) ==> SmoothEnd(w, plan) && m.plan == plan
    ensures FairWeather(w, plan) ==> |run.events| == |plan.steps| && AllClean(run)
  {
    hide Smooth, SmoothEnd;
  }

  /** One more step of an execution that is under way. */
  lemma StepTaken(w: World, h0: History, h: History, later: History, plan: ExecutionPlan, m: Machine, n: Machine,
                  run: Run, marks: seq<nat>, longer: Run, longerMarks: seq<nat>)
    requires UnderWay(w, h0, h, plan, m, run, marks) && h <= later
    requires IsRun(w.config.rules, plan, longer) && longer.Last() == n && n.attempt == 0
    requires n.plan.runtime == m.plan.runtime
    requires Accounts(w, later, longerMarks, longer) && longerMarks[0] == marks[0]
    requires longerMarks[|longer.events|] == |later|
    ensures UnderWay(w, h0, later, plan, n, longer, longerMarks)
  {
    hide Happened, Mains, Steps;
    assert later[..marks[0]] == h[..marks[0]];
  }

  /** A step that fair weather is about adds a clean pass. */
  lemma StepIsUnspoilt(w: World, plan: ExecutionPlan, m: Machine, n: Machine, run: Run, longer: Run)
    requires Unspoilt(w, plan, m, run) && m.AtStep()
    requires Smooth(w, m.Step()) && AttemptLimit(m.plan, m.Step()) > 0 ==>
      AddsCleanPass(run, longer) && n.plan == m.plan && n.stepIndex == m.stepIndex + 1
    ensures Unspoilt(w, plan, n, longer)
    ensures FairWeather(w, plan) ==> Smooth(w, m.Step()) && AttemptLimit(m.plan, m.Step()) > 0
  {
    hide Smooth, SmoothEnd;
    if FairWeather(w, plan) {
      assert m.Step() in plan.steps;
      assert AllClean(longer) by {
        forall e | e in longer.events
          ensures e.Clean?
        {
          var i :| 0 <= i < |longer.events| && longer.events[i] == e;
          assert i < |run.events| ==> longer.events[..|run.events|][i] == e;
        }
      }
    }
  }

  /** The attempts a run can make within some bounds. */
  function Allowance(b: Bounds, plan: ExecutionPlan): int {
    (b.planLength + plan.runtime.maxReplansPerScenario) * (b.iterations * b.attempts)
  }

  /** The choice of an action failed: the browser just rejected a call, or the action just could not be
      expanded, or just lost its target. */
  ghost predicate Fails(w: World, h: History, start: nat, s: ExecutionStep, e: Error) {
    JustRejected(h, e) || ExpansionFails(h, s, e) || LosesTarget(w, h, start, s, e)
  }

  class PlanExecutorService {
    const runner: PlanStepRunner
    const session: Session

    constructor (runner: PlanStepRunner)
      ensures this.runner == runner && session == runner.session
    {
      this.runner, session := runner, runner.session;
    }

    ghost predicate Wired()
      reads session, session.locators
    {
      runner.Wired() && session == runner.session && session.Valid()
    }

    method RecordAccessibilityWarnings(stepId: string)
      requires session.Valid()
      modifies session`calls, session`warnings
      ensures session.Valid() && Keeps(old(session.calls), session.calls)
      ensures session.calls
        == old(session.calls) + AuditLeaves(stepId, session.world.outside.audits(|old(session.calls)|))
    {
      hide StateOf, Mains, Keeps, Session.Valid;
      ghost var h0 := session.calls;
      KeepsItself(h0);
      var messages := session.Audit();
      KeepsNext(h0, h0, session.calls[|h0|]);
      for i := 0 to |messages|
        invariant session.Valid() && Keeps(h0, session.calls)
        invariant session.calls == h0 + [Audited(messages)] + WarningsOf(stepId, messages[..i])
      {
        ghost var h := session.calls;
        session.Warn(Warning(stepId, messages[i]));
        KeepsNext(h0, h, session.calls[|h|]);
        assert WarningsOf(stepId, messages[..i + 1]) == WarningsOf(stepId, messages[..i]) + [session.calls[|h|]];
      }
      assert messages[..|messages|] == messages;
      assert session.calls == h0 + AuditLeaves(stepId, messages);
    }

    /** Observe, and take the states of what is shown. */
    method Look() returns (r: Outcome<(Observation, Snapshot)>)
      requires Wired()
      modifies session`calls, session.locators
      ensures session.Valid() && old(session.calls) < session.calls && Mains(session.calls) == Mains(old(session.calls))
      ensures r.Ok? ==> |session.calls| == |old(session.calls)| + 3 && StateOf(session.calls).mapped == Some(r.value.0)
      ensures r.Ok? ==> session.calls[|session.calls| - 1] == Snapped(r.value.0, Replied(r.value.1))
      ensures r.Ok? ==> LooksAtOnce(session.calls, |old(session.calls)|, |session.calls| - 1)
      ensures r.Ok? ==> At(session.calls, |session.calls| - 1).store == session.store
      ensures r.Ok? ==> Offered(session.world.outside, r.value.0)
      ensures r.Thrown? ==> JustRejected(session.calls, r.error)
      ensures Willing(session.world.outside) ==> r.Ok?
    {
      hide StateOf, Mains, Keeps, Session.Valid, Willing;
      ghost var w, h0 := session.world, session.calls;
      var shown := runner.Observe();
      ghost var h1 := session.calls;
      if shown.Thrown? {
        return Thrown(shown.error);
      }
      if Willing(w.outside) {
        WillingReplies(w.outside, |h1|, FALLBACK, shown.value);
      }
      assert h1[|h0|] == Observed(Replied(shown.value));
      ValidMeans(session);
      var state := session.Snap(shown.value);
      MainsGrow(h1, session.calls[|h1|]);
      Grows(h1, session.calls[|h1|]);
      if state.Thrown? {
        return Thrown(state.error);
      }
      JustLooked(h1, |h0|, |h0|, session.calls[|h1|]);
      assert session.calls[|h0|] == h1[|h0|] && session.calls[|h0| + 1] == h1[|h0| + 1];
      return Ok((shown.value, state.value));
    }

    /** Lines 71-73: observe, take the states and check the preconditions; `start` is where the states were
        taken. */
    method CheckPreconditions(step: ExecutionStep)
      returns (r: Outcome<(Observation, Snapshot, AssertionResult)>, start: nat)
      requires Wired()
      modifies session`calls, session.locators
      ensures session.Valid() && old(session.calls) <= session.calls
      ensures Mains(session.calls) == Mains(old(session.calls))
      ensures r.Ok? ==>
        var (obs, state, pre) := r.value;
        && Looks(session.calls, |old(session.calls)|, start) && session.calls[start] == Snapped(obs, Replied(state))
        && StateOf(session.calls).mapped == Some(obs) && Offered(session.world.outside, obs)
        && Pre(session.world, session.calls, step, start) == Some(Verdict(pre.ok, |session.calls|))
      ensures r.Thrown? ==> |session.calls| > |old(session.calls)|
      ensures r.Thrown? ==>
        || JustRejected(session.calls, r.error)
        || EntryBreaksOff(session.world, session.calls, |old(session.calls)|, step, start, r.error)
      ensures Smooth(session.world, step) ==> r.Ok? && r.value.2.ok
    {
      hide StateOf, Mains, Keeps, Session.Valid, Willing, Fits, ActionFits, Check, BreaksOff, Conditions;
      hide Looks, SceneBefore;
      start := 0;
      ghost var w, h0 := session.world, session.calls;
      var looked := Look();
      if looked.Thrown? {
        return Thrown(looked.error), 0;
      }
      var (obs, state) := looked.value;
      ghost var h1 := session.calls;
      start := |session.calls| - 1;
      if Smooth(w, step) {
        SmoothParts(w, step, obs);
      }
      PreconditionScene(session, start, obs, state);
      var pre := runner.CheckAll(step.preconditions, obs, state, None);
      KeptSince(h1, session.calls);
      LooksLater(h1, session.calls, |h0|, start);
      SceneStays(h1, session.calls, start);
      if pre.Thrown? {
        return Thrown(pre.error), start;
      }
      return Ok((obs, state, pre.value)), start;
    }

    /** Lines 94-132: resolve the action, opening containers first for a click and again when nothing
        was found, and asking the model when that did not help. */
    method ChooseAction(step: ExecutionStep, obs: Observation, ghost start: nat) returns (r: Outcome<Choice>)
      requires Wired() && StateOf(session.calls).mapped == Some(obs) && start < |session.calls|
      modifies session`calls, session`store, session`attempts, session`warnings, session.locators
      ensures session.Valid() && old(session.calls) <= session.calls
      ensures Mains(session.calls) == Mains(old(session.calls))
      ensures r.Ok? && r.value.Act? ==>
        r.value.before == obs || Shown(session.calls, |old(session.calls)|, r.value.before)
      ensures r.Ok? && r.value.Act? ==>
        Chosen(session.world, session.calls, start, step, r.value.before, r.value.action)
      ensures r.Ok? && r.value.NoTarget? ==> Lost(session.world, session.calls, start, step, r.value.error)
      ensures r.Thrown? ==>
        |session.calls| > |old(session.calls)| && Fails(session.world, session.calls, start, step, r.error)
      ensures Smooth(session.world, step) && Offered(session.world.outside, obs) ==>
        r.Ok? && r.value.Act? && r.value.before == obs && Unhindered(session.world, step, r.value.action)
      ensures SeeksInOrder(session.world, session.calls, |old(session.calls)|)
    {
      hide StateOf, Mains, Retarget, ExpandAction, Found, Unhindered, Chosen, Lost, LosesTarget, Session.Valid, Keeps;
      ghost var w, h0 := session.world, session.calls;
      if Smooth(w, step) && Offered(w.outside, obs) {
        SmoothParts(w, step, obs);
        SmoothTarget(w, step, obs, session.store, |h0|);
      }
      var stepAction := session.Expand(step.action);
      MainsGrow(h0, session.calls[|h0|]);
      Grows(h0, session.calls[|h0|]);
      if stepAction.None? {
        return Thrown(DynamicData);
      }
      var before := obs;
      if stepAction.value.Click? && session.world.config.availabilityEnabled {
        if Smooth(w, step) && Offered(w.outside, obs) {
          SmoothTarget(w, step, obs, session.store, |session.calls|);
        }
        before :- EnsureEarly(step, obs);
      }
      r := ResolveOrFind(step, before, start);
    }

    /** Lines 95-100: open containers for a click before it is resolved. */
    method EnsureEarly(step: ExecutionStep, obs: Observation) returns (r: Outcome<Observation>)
      requires Wired() && StateOf(session.calls).mapped == Some(obs)
      modifies session`calls, session`store, session`attempts, session.locators
      ensures session.Valid() && old(session.calls) < session.calls && Mains(session.calls) == Mains(old(session.calls))
      ensures r.Ok? ==> StateOf(session.calls).mapped == Some(r.value)
      ensures r.Ok? ==> r.value == obs || Shown(session.calls, |old(session.calls)|, r.value)
      ensures r.Thrown? ==> JustRejected(session.calls, r.error) || ExpansionFails(session.calls, step, r.error)
      ensures var into := ExpandAction(session.world.templates, step.action, old(session.store), |old(session.calls)|);
        ResolvesFreely(session.world, step, into.0, obs) ==> r == Ok(obs)
      ensures var n := |old(session.calls)|;
        session.calls[n].Expanded? && (|session.calls| > n + 1 ==> session.calls[n + 1].Executed?)
    {
      hide StateOf, Mains, Retarget, ExpandAction, Found, Unhindered, Session.Valid, Keeps, GaveUp, JustRejected;
      hide Shown;
      ghost var h0 := session.calls;
      MappedIsShown(session, obs);
      var early, expanded := runner.ActionTargetAvailable(step.action, obs);
      if early.Thrown? {
        return Thrown(early.error);
      }
      if !early.value.reobserved {
        KeptSince(h0, session.calls);
      }
      ghost var h1 := session.calls;
      NoteAll(early.value.attempts);
      KeptSince(h1, session.calls);
      if early.value.reobserved {
        ShownLater(h1, session.calls, |h0|, early.value.observation);
      }
      return Ok(early.value.observation);
    }

    /** Append the attempts of a service to the result. */
    method NoteAll(records: seq<AttemptRecord>)
      requires session.Valid()
      modifies session`calls, session`attempts
      ensures session.Valid() && Keeps(old(session.calls), session.calls)
      ensures session.attempts == old(session.attempts) + records
      ensures session.calls == old(session.calls) + NotesOf(records)
    {
      hide StateOf, Mains, Keeps, Session.Valid;
      ghost var h0 := session.calls;
      KeepsItself(h0);
      for i := 0 to |records|
        invariant session.Valid() && Keeps(h0, session.calls)
        invariant session.attempts == old(session.attempts) + records[..i]
        invariant session.calls == h0 + NotesOf(records[..i])
      {
        ghost var h := session.calls;
        session.Note(records[i]);
        KeepsNext(h0, h, session.calls[|h|]);
        assert NotesOf(records[..i + 1]) == NotesOf(records[..i]) + [Noted(records[i])];
      }
      assert records[..|records|] == records;
    }

    /** Lines 102-131: resolve the action on an observation, or find another way. */
    method ResolveOrFind(step: ExecutionStep, before: Observation, ghost start: nat) returns (r: Outcome<Choice>)
      requires Wired() && StateOf(session.calls).mapped == Some(before) && start < |session.calls|
      modifies session`calls, session`store, session`attempts, session`warnings, session.locators
      ensures session.Valid() && old(session.calls) < session.calls && Mains(session.calls) == Mains(old(session.calls))
      ensures r.Ok? && r.value.Act? ==>
        r.value.before == before || Shown(session.calls, |old(session.calls)|, r.value.before)
      ensures r.Ok? && r.value.Act? ==>
        Chosen(session.world, session.calls, start, step, r.value.before, r.value.action)
      ensures r.Ok? && r.value.NoTarget? ==> Lost(session.world, session.calls, start, step, r.value.error)
      ensures r.Thrown? ==> Fails(session.world, session.calls, start, step, r.error)
      ensures var tick := |old(session.calls)|;
        var into := ExpandAction(session.world.templates, step.action, old(session.store), tick).0;
        !CannotResolve(session.world, into, before) ==>
          && |session.calls| == |old(session.calls)| + 1
          && r == Ok(Act(Retarget(session.world.tm, IndexOf(before), before, into.value).value, before))
      ensures var n := |old(session.calls)|;
        session.calls[n].Expanded? && (|session.calls| > n + 1 ==> session.calls[n + 1].Audited?)
    {
      hide StateOf, Mains, Retarget, ExpandAction, Found, Session.Valid, Keeps, Lost, LosesTarget, ExpansionFails;
      hide JustRejected;
      ghost var w, h0 := session.world, session.calls;
      assert session.locators.Current() == IndexOf(before) by { ValidMeans(session); }
      var first, expanded := runner.ResolveAction(step.action, before);
      ghost var h1 := session.calls;
      KeptSince(h0, h1);
      if first.Ok? {
        return Ok(Act(first.value, before));
      }
      PastStays(h0, h1, |h0|);
      assert h0[..|h0|] == h0;
      assert NotFoundAt(w, h1, |h0|, step, before);
      if expanded.Some? {
        FreshRetarget(w.tm, before, expanded.value);
      }
      RecordAccessibilityWarnings(step.id);
      KeptSince(h1, session.calls);
      NotFoundLater(w, h1, session.calls, |h0|, step, before);
      r := FindAnotherWay(step, before, first.error, start, |h0|);
    }

    /** Lines 109-131, after the target was not found: resolve again if it could be made available, else
        let the model decide on the observation the search started from. */
    method FindAnotherWay(step: ExecutionStep, before: Observation, error: Error, ghost start: nat, ghost u: nat)
      returns (r: Outcome<Choice>)
      requires Wired() && StateOf(session.calls).mapped == Some(before) && start < u < |session.calls|
      requires NotFoundAt(session.world, session.calls, u, step, before)
      requires error == LookupError(session.world, session.calls[u].into, before)
      modifies session`calls, session`store, session`attempts, session.locators
      ensures session.Valid() && old(session.calls) <= session.calls
      ensures Mains(session.calls) == Mains(old(session.calls))
      ensures r.Ok? && r.value.Act? ==>
        r.value.before == before || Shown(session.calls, |old(session.calls)|, r.value.before)
      ensures r.Ok? && r.value.Act? ==>
        Chosen(session.world, session.calls, start, step, r.value.before, r.value.action)
      ensures r.Ok? && r.value.NoTarget? ==>
        r.value.error == error && Lost(session.world, session.calls, start, step, error)
      ensures r.Thrown? ==> Fails(session.world, session.calls, start, step, r.error)
    {
      hide StateOf, Mains, Retarget, ExpandAction, Found, Session.Valid, Keeps, GaveUp, JustRejected, CannotResolve;
      hide LookupError, Chosen, Lost, LosesTarget;
      ghost var w, h0 := session.world, session.calls;
      ghost var store := session.store;
      MappedIsShown(session, before);
      var late, found := runner.ActionTargetAvailable(step.action, before);
      ghost var h1 := session.calls;
      NotFoundLater(w, h0, h1, u, step, before);
      if late.Thrown? {
        return Thrown(late.error);
      }
      if !late.value.reobserved {
        KeptSince(h0, h1);
      }
      NoteAll(late.value.attempts);
      ghost var h2 := session.calls;
      KeptSince(h1, h2);
      if late.value.available {
        r := ResolveAgain(step, late.value.observation, start, |h0|, store);
        return;
      }
      NotFoundLater(w, h1, h2, u, step, before);
      r := LetModelDecide(step, before, error, start, u);
    }

    /** Lines 116-119: the model decides on the observation the step's action was not found on. */
    method LetModelDecide(step: ExecutionStep, before: Observation, error: Error, ghost start: nat, ghost u: nat)
      returns (r: Outcome<Choice>)
      requires session.Valid() && start < u < |session.calls|
      requires NotFoundAt(session.world, session.calls, u, step, before)
      requires error == LookupError(session.world, session.calls[u].into, before)
      modifies session`calls
      ensures session.Valid() && old(session.calls) <= session.calls
      ensures Mains(session.calls) == Mains(old(session.calls))
      ensures r.Ok? && r.value.Act? ==>
        r.value.before == before && Chosen(session.world, session.calls, start, step, before, r.value.action)
      ensures r.Ok? && r.value.NoTarget? ==>
        r.value.error == error && Lost(session.world, session.calls, start, step, error)
      ensures r.Ok?
    {
      hide StateOf, Mains, Session.Valid, CannotResolve, LookupError, Resolved;
      ghost var w, h := session.world, session.calls;
      var decided := session.Decide(before);
      MainsGrow(h, session.calls[|h|]);
      NotFoundLater(w, h, session.calls, u, step, before);
      if decided.Ok? {
        assert DecidedBy(w, session.calls, start, step, before, decided.value);
        return Ok(Act(decided.value, before));
      }
      assert LostAt(w, session.calls, u, step, error);
      return Ok(NoTarget(error));
    }

    /** Lines 111-113: the target was found when the action was expanded at `n`; resolving it again fails
        only for an action that generates values or drags. */
    method ResolveAgain(step: ExecutionStep, obs: Observation, ghost start: nat, ghost n: nat, ghost store: Store)
      returns (r: Outcome<Choice>)
      requires Wired() && StateOf(session.calls).mapped == Some(obs) && start < n < |session.calls|
      requires session.calls[n].Expanded? && session.calls[n].asked == step.action && session.calls[n].into.Some?
      requires ExpandAction(session.world.templates, step.action, store, n) == (session.calls[n].into, session.store)
      requires session.calls[n].into.value.Target().Some?
      requires Found(session.world.tm, obs, session.calls[n].into.value.Target().value)
      modifies session`calls, session`store
      ensures session.Valid() && old(session.calls) < session.calls && Mains(session.calls) == Mains(old(session.calls))
      ensures r.Ok? ==> r.value.Act? && r.value.before == obs
      ensures r.Ok? ==> Chosen(session.world, session.calls, start, step, obs, r.value.action)
      ensures r.Thrown? ==> Fails(session.world, session.calls, start, step, r.error)
    {
      hide StateOf, Mains, Retarget, Found, Session.Valid, Keeps, DecidedBy, JustRejected;
      ghost var w, h0 := session.world, session.calls;
      assert session.locators.Current() == IndexOf(obs) by { ValidMeans(session); }
      var again, expanded := runner.ResolveAction(step.action, obs);
      KeptSince(h0, session.calls);
      if again.Ok? {
        return Ok(Act(again.value, obs));
      }
      if expanded.Some? {
        if !w.templates.generates(step.action) && !session.calls[n].into.value.Drag? {
          KeptStore(w.templates, step.action, store, n);
          ReresolvingSucceeds(w.tm, w.templates, obs, step.action, store, n, |h0|);
          assert false;
        }
        assert LosesOn(w, session.calls, n, step, obs, again.error);
      }
      return Thrown(again.error);
    }

    /** Lines 148-156: a fast success is not waited for. */
    method Settle(stepId: string, exec: ExecResult) returns (r: Outcome<()>)
      requires session.Valid()
      modifies session`calls, session`attempts, session`warnings
      ensures session.Valid() && Keeps(old(session.calls), session.calls)
      ensures r.Ok? ==> Waited(old(session.calls), session.calls, stepId, exec)
      ensures r.Thrown? ==> JustRejected(session.calls, r.error) && |session.calls| > |old(session.calls)|
      ensures Willing(session.world.outside) ==> r.Ok?
    {
      hide StateOf, Mains, Keeps, Session.Valid;
      ghost var h0 := session.calls;
      KeepsItself(h0);
      if !(exec.ok && exec.fast) {
        var stable := session.WaitForQuiescence();
        ghost var h1 := session.calls;
        KeepsNext(h0, h0, h1[|h0|]);
        if stable.Thrown? {
          return Thrown(stable.error);
        }
        assert h1 == h0 + [Settled(Replied(stable.value))] + [];
        if !stable.value {
          session.Warn(Warning(stepId, "QUIESCENCE_TIMEOUT"));
          ghost var h2 := session.calls;
          KeepsNext(h0, h1, h2[|h1|]);
          session.Note(AttemptRecord("waitForQuiescence", Failed));
          KeepsNext(h0, h2, session.calls[|h2|]);
          assert session.calls == h0 + [Settled(Replied(false))]
            + [Call.Warned(Warning(stepId, "QUIESCENCE_TIMEOUT")), Noted(AttemptRecord("waitForQuiescence", Failed))];
        }
      }
      return Ok(());
    }

    /** Lines 143-145: keep what an executed action extracted, and record the attempt. */
    method KeepResult(action: QaAction, exec: ExecResult)
      requires session.Valid()
      modifies session`calls, session`store, session`attempts
      ensures session.Valid() && Keeps(old(session.calls), session.calls)
      ensures session.calls == old(session.calls) + Leaves(action, exec)
    {
      hide StateOf, Mains, Keeps, Session.Valid;
      ghost var h0 := session.calls;
      KeepsItself(h0);
      if exec.ok && action.Extract? && exec.data.Some? {
        session.StoreValue(action.payload, exec.data.value);
        KeepsNext(h0, h0, session.calls[|h0|]);
      }
      ghost var h1 := session.calls;
      session.Note(AttemptRecord(action.TypeName(), if exec.ok then Passed else Failed));
      KeepsNext(h0, h1, session.calls[|h1|]);
    }

    /** Lines 141-145: execute the action, keep what it extracted, and record the attempt. */
    method RunAction(action: QaAction) returns (r: Outcome<ExecResult>)
      requires session.Valid()
      modifies session`calls, session`store, session`attempts
      ensures session.Valid()
      ensures var reply := session.world.outside.executed(|old(session.calls)|, action);
        && r == reply.ToOutcome()
        && session.calls
          == old(session.calls) + [Executed(Main, action, reply)] + (if r.Ok? then Leaves(action, r.value) else [])
      ensures StateOf(session.calls).mapped == StateOf(old(session.calls)).mapped
      ensures Mains(session.calls) == Mains(old(session.calls)) + 1
    {
      hide StateOf, Mains, Session.Valid, MayExecute, Keeps, Leaves;
      ghost var h := session.calls;
      MainNeedsNoWarrant(session.world, h, action);
      r := session.Execute(Main, action);
      MainsGrow(h, session.calls[|h|]);
      Grows(h, session.calls[|h|]);
      if r.Ok? {
        h := session.calls;
        KeepResult(action, r.value);
        KeptSince(h, session.calls);
      }
    }

    /** Lines 158-160: observe the page, audit it where the action asks for that, and take the states. */
    method ReadPage(step: ExecutionStep, action: QaAction) returns (r: Outcome<(Observation, Snapshot)>)
      requires Wired()
      modifies session`calls, session`warnings, session.locators
      ensures session.Valid() && old(session.calls) <= session.calls
      ensures Mains(session.calls) == Mains(old(session.calls))
      ensures r.Ok? ==> |session.calls| > |old(session.calls)| && StateOf(session.calls).mapped == Some(r.value.0)
      ensures r.Ok? ==> Looks(session.calls, |old(session.calls)|, |session.calls| - 1)
      ensures r.Ok? ==> Offered(session.world.outside, r.value.0)
      ensures r.Ok? ==> ReadLeaves(old(session.calls), session.calls, step.id, action, r.value.0, r.value.1)
      ensures r.Thrown? ==> JustRejected(session.calls, r.error) && |session.calls| > |old(session.calls)|
      ensures Willing(session.world.outside) ==> r.Ok?
    {
      hide StateOf, Mains, Keeps, Session.Valid, Willing, AuditLeaves, Looks, ReadLeaves, Offered;
      ghost var w, h0 := session.world, session.calls;
      var after := runner.Observe();
      ghost var h1 := session.calls;
      if after.Thrown? {
        return Thrown(after.error);
      }
      assert h1[|h0|] == Observed(Replied(after.value));
      if action.Navigate? || action.CompareScreenshot? {
        RecordAccessibilityWarnings(step.id);
      } else {
        KeepsItself(h1);
      }
      ghost var h2 := session.calls;
      KeptSince(h1, h2);
      if Willing(w.outside) {
        WillingReplies(w.outside, |h2|, action, after.value);
      }
      var state := session.Snap(after.value);
      MainsGrow(h2, session.calls[|h2|]);
      Grows(h2, session.calls[|h2|]);
      if state.Thrown? {
        return Thrown(state.error);
      }
      JustLooked(h2, |h0|, |h0|, session.calls[|h2|]);
      assert h2 == h1 + h2[|h1|..];
      JustRead(h0, h2[|h1|..], step.id, action, after.value, state.value);
      return Ok((after.value, state.value));
    }

    /** Lines 148-160: wait, observe, and take the states of what the action led to. */
    method LookAfter(step: ExecutionStep, action: QaAction, exec: ExecResult)
      returns (r: Outcome<(Observation, Snapshot)>)
      requires Wired()
      modifies session`calls, session`attempts, session`warnings, session.locators
      ensures session.Valid() && old(session.calls) <= session.calls
      ensures Mains(session.calls) == Mains(old(session.calls))
      ensures r.Ok? ==> |session.calls| > |old(session.calls)| && StateOf(session.calls).mapped == Some(r.value.0)
      ensures r.Ok? ==> session.calls[|session.calls| - 1] == Snapped(r.value.0, Replied(r.value.1))
      ensures r.Ok? ==> Looks(session.calls, |old(session.calls)|, |session.calls| - 1)
      ensures r.Ok? ==> Offered(session.world.outside, r.value.0)
      ensures r.Ok? ==>
        LookLeaves(old(session.calls), session.calls, step.id, exec, action, r.value.0, r.value.1)
      ensures r.Thrown? ==> JustRejected(session.calls, r.error) && |session.calls| > |old(session.calls)|
      ensures Willing(session.world.outside) ==> r.Ok?
    {
      hide StateOf, Mains, Keeps, Session.Valid, Willing, Waited, ReadLeaves, Looks, JustRejected;
      ghost var h0 := session.calls;
      var waited := Settle(step.id, exec);
      ghost var h1 := session.calls;
      KeptSince(h0, h1);
      if waited.Thrown? {
        return Thrown(waited.error);
      }
      r := ReadPage(step, action);
      if r.Ok? {
        ReadLast(h1, session.calls, step.id, action, r.value.0, r.value.1);
        LooksEarlier(session.calls, |h1|, |h0|, |session.calls| - 1);
      }
    }

    /** Lines 141-160: execute the action, wait for the page to settle and observe it. */
    method ExecuteAction(step: ExecutionStep, action: QaAction, before: Observation, ghost from: nat, start: nat)
      returns (r: Outcome<(bool, Observation, Snapshot)>, ev: Evidence)
      requires Wired() && start < |session.calls| && Ready(session.world, session.calls, from, step, start)
      requires Intended(session.world, session.calls, from, start, step, before, action)
      requires Clears(session.world, session.calls, step, action)
      modifies session`calls, session`store, session`attempts, session`warnings, session.locators
      ensures session.Valid() && old(session.calls) < session.calls
      ensures Mains(session.calls) == Mains(old(session.calls)) + 1
      ensures Launched(session.world, session.calls, from, step, start, |old(session.calls)|)
      ensures r.Ok? ==> ev == Evidence(start, |old(session.calls)|, |session.calls| - 1)
      ensures r.Ok? ==> Acted(session.world, session.calls, from, step, ev)
      ensures r.Ok? ==> session.calls[ev.at].action == action && session.calls[ev.at].done.value.ok == r.value.0
      ensures r.Ok? ==> session.calls[ev.seen] == Snapped(r.value.1, Replied(r.value.2))
      ensures r.Ok? ==> StateOf(session.calls).mapped == Some(r.value.1) && Offered(session.world.outside, r.value.1)
      ensures r.Thrown? ==> JustRejected(session.calls, r.error)
      ensures Willing(session.world.outside) ==> r.Ok? && r.value.0
    {
      hide StateOf, Mains, Session.Valid, Willing, Ready, Intended, Clears, Looks, Leaves, Retarget;
      ghost var w, h0 := session.world, session.calls;
      ev := Evidence(0, 0, 0);
      var at := |session.calls|;
      if Willing(w.outside) {
        WillingReplies(w.outside, |h0|, action, before);
      }
      var exec := RunAction(action);
      ghost var h1, c := session.calls, Executed(Main, action, w.outside.executed(|h0|, action));
      JustLaunched(w, h0, from, step, start, before, c);
      assert h0 + [c] <= h1;
      LaunchedLater(w, h0 + [c], h1, from, step, start, |h0|);
      if exec.Thrown? {
        return Thrown(exec.error), ev;
      }
      hide Launched;
      var after := LookAfter(step, action, exec.value);
      LaunchedLater(w, h1, session.calls, from, step, start, |h0|);
      if after.Thrown? {
        return Thrown(after.error), ev;
      }
      ev := Evidence(start, at, |session.calls| - 1);
      LooksEarlier(session.calls, |h1|, |h0|, ev.seen);
      assert Snaps(session.calls, start) by { ReadySnaps(w, h0, session.calls, from, step, start); }
      return Ok((exec.value.ok, after.value.0, after.value.1)), ev;
    }

    /** Lines 141-162: execute the action and check the postconditions on what it led to. */
    method ActAndCheck(step: ExecutionStep, action: QaAction, before: Observation, ghost from: nat, start: nat,
                       beforeState: Snapshot)
      returns (r: Outcome<(bool, AssertionResult, Observation, Snapshot)>, ev: Evidence)
      requires Wired() && start < |session.calls| && Ready(session.world, session.calls, from, step, start)
      requires session.calls[start].state == Replied(beforeState)
      requires Intended(session.world, session.calls, from, start, step, before, action)
      requires Clears(session.world, session.calls, step, action)
      modifies session`calls, session`store, session`attempts, session`warnings, session.locators
      ensures session.Valid() && old(session.calls) < session.calls
      ensures Mains(session.calls) == Mains(old(session.calls)) + 1
      ensures Launched(session.world, session.calls, from, step, start, |old(session.calls)|)
      ensures r.Ok? ==> Goes(session.world, session.calls, from, step, ev, r.value.0 && r.value.1.ok)
      ensures r.Ok? ==>
        ev.start == start && ev.at == |old(session.calls)| && Acted(session.world, session.calls, from, step, ev)
      ensures r.Ok? ==> session.calls[ev.at].action == action && session.calls[ev.at].done.value.ok == r.value.0
      ensures r.Ok? ==> session.calls[ev.seen] == Snapped(r.value.2, Replied(r.value.3))
      ensures r.Ok? ==> StateOf(session.calls).mapped == Some(r.value.2) && Offered(session.world.outside, r.value.2)
      ensures r.Ok? ==> Post(session.world, session.calls, step, ev) == Some(Verdict(r.value.1.ok, |session.calls|))
      ensures r.Ok? ==> SceneNow(session, ev, r.value.2, beforeState, r.value.3)
      ensures r.Thrown? ==>
        || JustRejected(session.calls, r.error)
        || OutcomeBreaksOff(session.world, session.calls, from, step, ev, r.error)
      ensures Smooth(session.world, step) ==> r.Ok? && r.value.0 && r.value.1.ok
    {
      hide StateOf, Mains, Keeps, Session.Valid, Willing, Ready, Intended, Clears, Looks, Launched, Fits, ActionFits;
      hide BreaksOff, Conditions, JustRejected;
      ghost var w := session.world;
      var acted;
      acted, ev := ExecuteAction(step, action, before, from, start);
      if acted.Thrown? {
        return Thrown(acted.error), ev;
      }
      var (execOk, after, afterState) := acted.value;
      ghost var h := session.calls;
      if Smooth(w, step) {
        SmoothParts(w, step, after);
      }
      SceneIsNow(session, ev, after, beforeState, afterState);
      var post := runner.CheckAll(step.postconditions, after, beforeState, Some(afterState));
      KeptSince(h, session.calls);
      LaunchedLater(w, h, session.calls, from, step, start, ev.at);
      ActedLater(w, h, session.calls, from, step, ev);
      if post.Thrown? {
        return Thrown(post.error), ev;
      }
      return Ok((execOk, post.value, after, afterState)), ev;
    }

    /** Replan for what the step is stuck at, or end the run. */
    method ReplanOrEnd(m: Machine, message: string, ghost from: nat) returns (v: Ruling)
      requires Wired() && m.Active() && from <= |session.calls| && message != EXHAUSTED
      requires Stalls(session.world, session.calls, from, m)
      modifies session`calls, session`patches
      ensures session.Valid() && Keeps(old(session.calls), session.calls)
      ensures Allowed(session.world, session.calls, from, m, v) && (v.Replanned? || v == Ended(message))
      ensures v.Ended? ==>
        && Stalls(session.world, session.calls, from, m)
        && NoPatch(session.world, session.calls, from, m.plan, m.replans)
      ensures Applications(session.patches) == Applications(old(session.patches)) + (if v.Replanned? then 1 else 0)
    {
      hide StateOf, Mains, Keeps, Session.Valid, Stalls, Accepted, Edited, Refuses, Applications;
      ghost var h := session.calls;
      var patch, edited := runner.TryReplan(m.plan, m.Step().id, m.replans);
      KeptSince(h, session.calls);
      StallsLater(session.world, h, session.calls, from, m);
      v := if patch.Some? then Replanned(patch.value, edited) else Ended(message);
    }

    /** Lines 164-197: the action failed or its postconditions do not hold. Business assertions are not
        checked on this path, and a failed action passes when the postconditions hold. */
    method Recovering(m: Machine, action: QaAction, post: AssertionResult, obs: Observation, beforeState: Snapshot,
                      ghost from: nat, ev: Evidence)
      returns (r: Outcome<Ruling>)
      requires Wired() && m.Active() && from <= |session.calls|
      requires Goes(session.world, session.calls, from, m.Step(), ev, false)
      requires Post(session.world, session.calls, m.Step(), ev) == Some(Verdict(post.ok, |session.calls|))
      requires session.calls[ev.start].state == Replied(beforeState) && session.calls[ev.seen].of == obs
      requires session.calls[ev.at].action == action
      requires StateOf(session.calls).mapped == Some(obs)
      modifies session`calls, session`attempts, session`steps, session`warnings, session`patches, session.locators
      ensures session.Valid() && old(session.calls) <= session.calls
      ensures Mains(session.calls) == Mains(old(session.calls))
      ensures r.Ok? ==> Allowed(session.world, session.calls, from, m, r.value)
      ensures r.Thrown? ==> Throws(session.world, session.calls, from, m, r.error)
      ensures Applications(session.patches)
        == Applications(old(session.patches)) + (if r.Ok? && r.value.Replanned? then 1 else 0)
    {
      hide StateOf, Mains, Keeps, Session.Valid, Goes, Post, Bound, Recovers, ChoiceFails, LostForGood;
      hide DescriptionFails, ChecksBreakOff, SummaryFails, JustRejected, Applications, Judges, RecoveryRan;
      hide Allowed, Conditions, DescribesAnew, Launched, RecoveryActions;
      ghost var w, h0 := session.world, session.calls;
      var step, first := m.Step(), FirstOf(m.Step().postconditions);
      BoundNow(runner, obs, first);
      var expected := runner.BoundCondition(first, obs);
      if expected.Thrown? {
        GoesLater(w, h0, h0, from, step, ev, false);
        assert h0[..|h0|] == h0;
        assert Expected(w, h0, step, ev) == expected;
        return Thrown(expected.error);
      }
      var recovered := runner.recovery.Recover(expected.value, FALLBACK, Some(obs));
      ghost var h1 := session.calls;
      KeptSince(h0, h1);
      if recovered.Thrown? {
        return Thrown(recovered.error);
      }
      RecoveryJustRan(w, h0, h1, from, step, ev, expected.value, recovered.value);
      GoesLater(w, h0, h1, from, step, ev, false);
      r := AfterRecovery(m, action, post, recovered.value.Some?, obs, beforeState, from, ev);
    }

    /** Lines 173-180: a recovery in vain may let the step pass with a warning; else the outcome is judged, on
        a page looked at again if the recovery worked. */
    method AfterRecovery(m: Machine, action: QaAction, post: AssertionResult, worked: bool, obs: Observation,
                         beforeState: Snapshot,
                         ghost from: nat, ev: Evidence)
      returns (r: Outcome<Ruling>)
      requires Wired() && m.Active() && from <= |session.calls|
      requires RecoveryRan(session.world, session.calls, from, m.Step(), ev, |session.calls|, worked)
      requires Goes(session.world, session.calls, from, m.Step(), ev, false)
      requires post.ok == Post(session.world, session.calls, m.Step(), ev).value.ok
      requires session.calls[ev.start].state == Replied(beforeState) && session.calls[ev.seen].of == obs
      requires session.calls[ev.at].action == action
      requires StateOf(session.calls).mapped == Some(obs)
      modifies session`calls, session`steps, session`warnings, session`patches, session.locators
      ensures session.Valid() && old(session.calls) <= session.calls
      ensures Mains(session.calls) == Mains(old(session.calls))
      ensures r.Ok? ==> Allowed(session.world, session.calls, from, m, r.value)
      ensures r.Thrown? ==> Throws(session.world, session.calls, from, m, r.error)
      ensures worked && r.Ok? ==> DescribesAnew(session.world, session.calls, from, m.Step(), ev)
      ensures Applications(session.patches)
        == Applications(old(session.patches)) + (if r.Ok? && r.value.Replanned? then 1 else 0)
    {
      hide StateOf, Mains, Keeps, Session.Valid, Goes, Post, Bound, Recovers, ChoiceFails, LostForGood;
      hide DescriptionFails, ExpectationFails, SummaryFails, RecheckBreaksOff, JudgesAgain, DescribesAnew;
      hide EntryBreaksOff, JustRejected, Applications, RecoveryRan, StartsBadly, Conditions, Stalls, Refuses;
      ghost var w, h1 := session.world, session.calls;
      var step := m.Step();
      GoesLater(w, h1, h1, from, step, ev, false);
      if !worked && Warns(step) {
        session.Warn(Warning(step.id, "postcondition failed"));
        ghost var h2 := session.calls;
        MainsGrow(h1, h2[|h1|]);
        RecoveryLater(w, h1, h2, from, step, ev, |h1|, false);
        assert LetsPass(w, h2, from, step, ev);
        return Ok(Proceed(Event.Warned));
      }
      var validation := post;
      ghost var again := 0;
      if worked {
        var checked;
        checked, again := CheckAgain(step, beforeState, from, ev);
        if checked.Thrown? {
          return Thrown(checked.error);
        }
        validation := checked.value;
        GoesLater(w, h1, session.calls, from, step, ev, false);
      } else {
        JudgesOldPage(w, h1, from, step, ev);
      }
      ghost var h3 := session.calls;
      r := Report(m, action, validation, obs, from, ev);
      KeptSince(h3, session.calls);
      if worked && r.Ok? {
        JustDescribed(w, h3, session.calls, from, step, ev, again, validation.ok);
      }
    }

    /** Lines 178-180: after a successful recovery the postconditions are checked afresh, on a page looked at
        after the recovery. */
    method CheckAgain(step: ExecutionStep, beforeState: Snapshot, ghost from: nat, ev: Evidence)
      returns (r: Outcome<AssertionResult>, ghost again: nat)
      requires Wired() && RecoveryRan(session.world, session.calls, from, step, ev, |session.calls|, true)
      requires Snaps(session.calls, ev.start) && session.calls[ev.start].state == Replied(beforeState)
      modifies session`calls, session.locators
      ensures session.Valid() && old(session.calls) < session.calls && Mains(session.calls) == Mains(old(session.calls))
      ensures r.Ok? ==>
        JudgesAgain(session.world, session.calls, from, step, ev, again, r.value.ok, |session.calls|)
      ensures r.Thrown? ==>
        || JustRejected(session.calls, r.error)
        || RecheckBreaksOff(session.world, session.calls, from, step, ev, again, r.error)
    {
      hide StateOf, Mains, Keeps, Session.Valid, RecoveryRan, BreaksOff, JustRejected, Looks, LooksAgain;
      ghost var w, h0 := session.world, session.calls;
      var looked := Look();
      ghost var h1 := session.calls;
      again := |h1| - 1;
      if looked.Thrown? {
        return Thrown(looked.error), again;
      }
      var (latest, state) := looked.value;
      LooksAnew(w, h0, h1, from, step, ev, again);
      SceneIsNow(session, ev.(seen := again), latest, beforeState, state);
      var checked := runner.CheckAll(step.postconditions, latest, beforeState, Some(state));
      ghost var h2 := session.calls;
      KeptSince(h1, h2);
      AgainLater(w, h1, h2, from, step, ev, again);
      if checked.Thrown? {
        return Thrown(checked.error), again;
      }
      return Ok(checked.value), again;
    }

    /** Lines 181-197: record the outcome, described on the observation before the recovery. */
    method Report(m: Machine, action: QaAction, validation: AssertionResult, obs: Observation, ghost from: nat,
                  ev: Evidence)
      returns (r: Outcome<Ruling>)
      requires Wired() && m.Active() && from <= |session.calls|
      requires Goes(session.world, session.calls, from, m.Step(), ev, false)
      requires session.calls[ev.seen].of == obs && session.calls[ev.at].action == action
      requires Judges(session.world, session.calls, from, m.Step(), ev, validation.ok, |session.calls|)
      modifies session`calls, session`steps, session`patches
      ensures session.Valid() && Keeps(old(session.calls), session.calls)
      ensures r.Ok? ==> Allowed(session.world, session.calls, from, m, r.value)
      ensures r.Thrown?
        <==> Bound(session.world, StateOf(old(session.calls)), obs, FirstOf(m.Step().postconditions)).Thrown?
      ensures r.Thrown? ==> Throws(session.world, session.calls, from, m, r.error)
      ensures Applications(session.patches)
        == Applications(old(session.patches)) + (if r.Ok? && r.value.Replanned? then 1 else 0)
    {
      hide StateOf, Mains, Keeps, Session.Valid, Judges, Recovers, Bound, JustRejected, Conditions, Applications;
      hide Launched, Looks, Post, ChoiceFails, LostForGood, LooksAgain, Concludes, Refuses, Stalls, SceneAfter;
      hide ChecksBreakOff, ExpectationFails, SummaryFails;
      ghost var w, h0 := session.world, session.calls;
      var step, first := m.Step(), FirstOf(m.Step().postconditions);
      KeepsItself(h0);
      BoundNow(runner, obs, first);
      var shown := runner.BoundCondition(first, obs);
      if shown.Thrown? {
        assert DescriptionFails(w, h0, from, step, shown.error);
        return Thrown(shown.error);
      }
      session.Record(QaStep(step.id, obs.observationId, action, validation, !validation.ok));
      ghost var h1 := session.calls;
      KeepsNext(h0, h0, h1[|h0|]);
      RecoveryIsRecorded(w, h0, h1, from, step, ev, validation.ok);
      if validation.ok {
        return Ok(Proceed(Recovered(ev)));
      }
      if m.attempt + 1 < AttemptLimit(m.plan, step) {
        return Ok(Proceed(Retried(ev)));
      }
      StuckNow(w, h1, from, m);
      var v := ReplanOrEnd(m, "postcondition failed", from);
      KeepsOn(h0, h1, session.calls);
      return Ok(v);
    }

    /** Lines 200-203 and 217: check the business assertions, describe the step and record it. */
    method CheckBusiness(step: ExecutionStep, action: QaAction, obs: Observation, beforeState: Snapshot,
                         afterState: Snapshot,
                         post: AssertionResult, ghost from: nat, ev: Evidence)
      returns (r: Outcome<bool>)
      requires Wired() && Goes(session.world, session.calls, from, step, ev, true)
      requires Post(session.world, session.calls, step, ev).value.next == |session.calls|
      requires session.calls[ev.seen].of == obs && session.calls[ev.at].action == action && post.ok
      requires SceneNow(session, ev, obs, beforeState, afterState) && StateOf(session.calls).mapped == Some(obs)
      modifies session`calls, session`steps
      ensures session.Valid() && Keeps(old(session.calls), session.calls)
      ensures r.Ok? ==> Concludes(session.world, session.calls, from, step, ev, r.value)
      ensures r.Ok? ==> Business(session.world, session.calls, step, ev).value.next + 1 == |session.calls|
      ensures r.Ok? ==> SceneNow(session, ev, obs, beforeState, afterState)
      ensures r.Thrown? ==>
        || JustRejected(session.calls, r.error)
        || BusinessBreaksOff(session.world, session.calls, from, step, ev, r.error)
        || SummaryFails(session.world, session.calls, from, step, r.error)
      ensures Smooth(session.world, step) && Offered(session.world.outside, obs) ==> r.Ok? && r.value
    {
      hide StateOf, Mains, Keeps, Session.Valid, Bound, BreaksOff, JustRejected, Conditions, Launched, Looks;
      hide Willing, Fits, ActionFits;
      hide SceneAfter, Check;
      ghost var w, h0 := session.world, session.calls;
      if Smooth(w, step) && Offered(w.outside, obs) {
        SmoothParts(w, step, obs);
      }
      var business := runner.CheckAll(step.assertions, obs, beforeState, Some(afterState));
      ghost var h1 := session.calls;
      KeptSince(h0, h1);
      PartsOfStep(step);
      GoesLater(w, h0, h1, from, step, ev, true);
      if business.Thrown? {
        return Thrown(business.error);
      }
      var describes := if business.value.ok || step.assertions == [] then FirstOf(step.postconditions)
                       else step.assertions[0];
      BoundNow(runner, obs, describes);
      FreshBinding(w, StateOf(h1), obs, describes);
      var shown := runner.BoundCondition(describes, obs);
      if shown.Thrown? {
        assert SummaryFails(w, h1, from, step, shown.error);
        return Thrown(shown.error);
      }
      var result := if business.value.ok then post else business.value;
      session.Record(QaStep(step.id, obs.observationId, action, result, !result.ok));
      ghost var h2 := session.calls;
      KeepsNext(h0, h1, h2[|h1|]);
      BusinessLater(w, h1, h2, from, step, ev);
      DescribedNow(w, h1, h2, ev, describes);
      return Ok(business.value.ok);
    }

    /** Lines 200-227: the action succeeded and its postconditions hold. */
    method Concluding(m: Machine, action: QaAction, post: AssertionResult, obs: Observation, beforeState: Snapshot,
                      afterState: Snapshot,
                      ghost from: nat, ev: Evidence)
      returns (r: Outcome<Ruling>)
      requires Wired() && m.Active() && from < |session.calls|
      requires Goes(session.world, session.calls, from, m.Step(), ev, true)
      requires Post(session.world, session.calls, m.Step(), ev).value.next == |session.calls|
      requires session.calls[ev.seen].of == obs && session.calls[ev.at].action == action && post.ok
      requires SceneNow(session, ev, obs, beforeState, afterState) && StateOf(session.calls).mapped == Some(obs)
      modifies session`calls, session`steps, session`patches
      ensures session.Valid() && Keeps(old(session.calls), session.calls)
      ensures r.Ok? ==> Allowed(session.world, session.calls, from, m, r.value)
      ensures r.Thrown? ==> Throws(session.world, session.calls, from, m, r.error)
      ensures Applications(session.patches)
        == Applications(old(session.patches)) + (if r.Ok? && r.value.Replanned? then 1 else 0)
      ensures Smooth(session.world, m.Step()) && Offered(session.world.outside, obs) ==>
        r.Ok? && r.value.Proceed? && r.value.event.Clean?
    {
      hide StateOf, Mains, Keeps, Session.Valid, Goes, Concludes, Business, JustRejected, Conditions, SummaryFails;
      hide Applications;
      hide ChoiceFails, LostForGood, DescriptionFails, ExpectationFails, BusinessBreaksOff, RepeatBreaksOff;
      hide Stalls, Recovers, SceneNow, Refuses, Smooth;
      ghost var w, h0 := session.world, session.calls;
      var step := m.Step();
      var business := CheckBusiness(step, action, obs, beforeState, afterState, post, from, ev);
      ghost var h1 := session.calls;
      KeptSince(h0, h1);
      if business.Thrown? {
        return Thrown(business.error);
      }
      if !business.value {
        if m.attempt + 1 < AttemptLimit(m.plan, step) {
          return Ok(Proceed(Retried(ev)));
        }
        StuckNow(w, h1, from, m);
        var v := ReplanOrEnd(m, "business assertion failed", from);
        KeepsOn(h0, h1, session.calls);
        return Ok(v);
      }
      if step.repeatUntil.None? {
        return Ok(Proceed(Clean(ev)));
      }
      var met := CheckRepeat(step, obs, beforeState, afterState, from, ev);
      KeepsOn(h0, h1, session.calls);
      KeptSince(h1, session.calls);
      if met.Thrown? {
        return Thrown(met.error);
      }
      if met.value {
        return Ok(Proceed(Clean(ev)));
      }
      if m.Iteration() + 1 > IterationLimit(step) {
        return Ok(Ended("repeatUntil exhausted"));
      }
      return Ok(Proceed(Repeated(ev)));
    }

    /** Lines 218-226: is the repeat condition met? */
    method CheckRepeat(step: ExecutionStep, obs: Observation, beforeState: Snapshot, afterState: Snapshot,
                       ghost from: nat, ev: Evidence)
      returns (r: Outcome<bool>)
      requires Wired() && step.repeatUntil.Some? && Concludes(session.world, session.calls, from, step, ev, true)
      requires Business(session.world, session.calls, step, ev).value.next + 1 == |session.calls|
      requires SceneNow(session, ev, obs, beforeState, afterState) && StateOf(session.calls).mapped == Some(obs)
      modifies session`calls
      ensures session.Valid() && Keeps(old(session.calls), session.calls)
      ensures r.Ok? ==> Repeats(session.world, session.calls, from, step, ev, r.value)
      ensures r.Thrown? ==>
        || JustRejected(session.calls, r.error)
        || RepeatBreaksOff(session.world, session.calls, from, step, ev, r.error)
      ensures r.Thrown? && JustRejected(session.calls, r.error) ==> |session.calls| > 0
      ensures Smooth(session.world, step) && Offered(session.world.outside, obs) ==> r.Ok? && r.value
    {
      hide StateOf, Mains, Keeps, Session.Valid, Bound, BreaksOff, Conditions, Launched, Looks, Willing, Fits;
      hide ActionFits;
      hide SceneAfter, Check, Acted, Post;
      ghost var w, h0 := session.world, session.calls;
      if Smooth(w, step) && Offered(w.outside, obs) {
        SmoothParts(w, step, obs);
      }
      var repeated := runner.CheckAll([step.repeatUntil.value], obs, beforeState, Some(afterState));
      ghost var h1 := session.calls;
      KeptSince(h0, h1);
      ConcludesLater(w, h0, h1, from, step, ev);
      if repeated.Thrown? {
        return Thrown(repeated.error);
      }
      return Ok(repeated.value.ok);
    }

    /** Lines 133-227: the policy check, the action, and the judgement on what it did. A refused action is not
        executed, and any other one is executed once, after everything it is launched by. */
    method Perform(m: Machine, action: QaAction, before: Observation, beforeState: Snapshot, ghost from: nat,
                   start: nat)
      returns (r: Outcome<Ruling>)
      requires Wired() && m.Active() && from < start < |session.calls|
      requires Ready(session.world, session.calls, from, m.Step(), start)
      requires session.calls[start].state == Replied(beforeState)
      requires Intended(session.world, session.calls, from, start, m.Step(), before, action)
      requires Mains(session.calls) == Mains(session.calls[..from])
      modifies session`calls, session`store, session`attempts, session`steps, session`warnings, session`patches
      modifies session.locators
      ensures session.Valid() && old(session.calls) <= session.calls
      ensures Lawful(session.world, session.calls, from, m.Step())
      ensures r.Ok? ==> Allowed(session.world, session.calls, from, m, r.value)
      ensures r.Thrown? ==> Throws(session.world, session.calls, from, m, r.error)
      ensures var kept := Abides(session.world.config.allowedRoutes, action, old(session.attempts));
        Mains(session.calls)
        == Mains(old(session.calls)) + if kept && Harmless(session.world, m.Step(), action) then 1 else 0
      ensures Mains(session.calls) == Mains(old(session.calls)) ==> r == Ok(Ended("policy"))
      ensures Applications(session.patches)
        == Applications(old(session.patches)) + (if r.Ok? && r.value.Replanned? then 1 else 0)
      ensures Smooth(session.world, m.Step()) && Unhindered(session.world, m.Step(), action) ==>
        r.Ok? && r.value.Proceed? && r.value.event.Clean?
    {
      hide Launched, Goes;
      hide StateOf, Mains, Keeps, Session.Valid, Ready, Intended, Applications, Lawful, Post, Acted, Conditions, Smooth;
      hide Refuses;
      hide ChoiceFails, LostForGood, DescriptionFails, ExpectationFails, SummaryFails, JustRejected, SceneNow, Stalls;
      hide OutcomeBreaksOff, Permits;
      hide BlockedText, Abides, Harmless;
      ghost var w, h0 := session.world, session.calls;
      var step := m.Step();
      assert session.attempts == StateOf(h0).attempts by { ValidMeans(session); }
      ClearedExactly(w, h0, step, action);
      if !Permits(session.world.config, action, session.attempts)
        || BlockedText(session.world.config.rules, step.description + " " + action.reason) {
        session.Record(QaStep(step.id, before.observationId, action, AssertionResult(false, "policy"), true));
        JustRefused(w, h0, session.calls, from, m, start, before, action);
        return Ok(Ended("policy"));
      }
      var acted, ev := ActAndCheck(step, action, before, from, start, beforeState);
      ghost var h1 := session.calls;
      if acted.Thrown? {
        LawfulByLaunch(w, h0, h1, from, step, start);
        return Thrown(acted.error);
      }
      var (execOk, post, after, afterState) := acted.value;
      if !execOk || !post.ok {
        r := Recovering(m, action, post, after, beforeState, from, ev);
      } else {
        r := Concluding(m, action, post, after, beforeState, afterState, from, ev);
        KeptSince(h1, session.calls);
      }
      LaunchedLater(w, h1, session.calls, from, step, start, |h0|);
      LawfulByLaunch(w, h0, session.calls, from, step, start);
    }

    /** Lines 71-228: one attempt at a step. Whatever it executes for itself was launched; it ends with a
        ruling the machine allows and what happened justifies, or throws for a reason. */
    method Attempt(m: Machine) returns (r: Outcome<Ruling>)
      requires Wired() && m.Active()
      modifies session`calls, session`store, session`attempts, session`steps, session`warnings, session`patches
      modifies session.locators
      ensures session.Valid() && old(session.calls) <= session.calls
      ensures Lawful(session.world, session.calls, |old(session.calls)|, m.Step())
      ensures r.Ok? ==> Allowed(session.world, session.calls, |old(session.calls)|, m, r.value)
      ensures r.Thrown? ==> Throws(session.world, session.calls, |old(session.calls)|, m, r.error)
      ensures Applications(session.patches)
        == Applications(old(session.patches)) + (if r.Ok? && r.value.Replanned? then 1 else 0)
      ensures Smooth(session.world, m.Step()) ==> r.Ok? && r.value.Proceed? && r.value.event.Clean?
    {
      hide StateOf, Mains, Keeps, Session.Valid, Looks, Chosen, Applications, Lawful, Conditions, Smooth, Refuses;
      hide Unhindered;
      hide LostForGood, DescriptionFails, ExpectationFails, SummaryFails, JustRejected, Stalls, Lost, Pre;
      hide EntryBreaksOff, SeeksInOrder, FailureRecorded, Abides, Harmless, Warns;
      ghost var w, h0 := session.world, session.calls;
      ghost var from := |h0|;
      var step := m.Step();
      var opening, start := CheckPreconditions(step);
      ghost var h1 := session.calls;
      assert h1[..from] == h0;
      if opening.Thrown? {
        LawfulAtRest(w, h1, from, step);
        return Thrown(opening.error);
      }
      var (before, beforeState, pre) := opening.value;
      LooksAt(h1, from, start);
      if !pre.ok {
        r := Unprepared(m, before, pre, from, start);
        ghost var h2 := session.calls;
        KeptSince(h1, h2);
        assert h2[..from] == h0;
        LawfulAtRest(w, h2, from, step);
        return;
      }
      var choice := ChooseAction(step, before, start);
      ghost var h2 := session.calls;
      assert h2[..from] == h0;
      if choice.Thrown? {
        LawfulAtRest(w, h2, from, step);
        return Thrown(choice.error);
      }
      ReadyLater(w, h1, h2, from, step, start);
      ShownLater(h1, h2, from, before);
      if choice.value.NoTarget? {
        r := WithoutTarget(m, choice.value.error, from, start);
        ghost var h3 := session.calls;
        KeptSince(h2, h3);
        assert h3[..from] == h0;
        LawfulAtRest(w, h3, from, step);
        return;
      }
      if choice.value.before != before {
        ShownEarlier(h2, |h1|, from, choice.value.before);
      }
      r := Perform(m, choice.value.action, choice.value.before, beforeState, from, start);
    }

    /** Lines 75-92: a precondition does not hold. */
    method Unprepared(m: Machine, before: Observation, pre: AssertionResult, ghost from: nat, ghost start: nat)
      returns (r: Outcome<Ruling>)
      requires Wired() && m.Active() && from <= |session.calls|
      requires Unready(session.world, session.calls, from, m.Step(), start)
      requires Pre(session.world, session.calls, m.Step(), start).value.next == |session.calls|
      modifies session`calls, session`steps, session`warnings, session`patches
      ensures session.Valid() && Keeps(old(session.calls), session.calls)
      ensures r.Ok? && Allowed(session.world, session.calls, from, m, r.value)
      ensures if Warns(m.Step()) then
          exists message :: session.calls == old(session.calls) + [Call.Warned(Warning(m.Step().id, message))]
        else
          r.value.Replanned? || (r.value.Ended? && FailureRecorded(session.calls, m.Step().id, before, pre))
      ensures Applications(session.patches)
        == Applications(old(session.patches)) + (if r.Ok? && r.value.Replanned? then 1 else 0)
    {
      hide StateOf, Mains, Keeps, Session.Valid, Looks, Applications, Refuses, Check, NoPatch;
      ghost var w, h0 := session.world, session.calls;
      var step := m.Step();
      KeepsItself(h0);
      if Warns(step) {
        session.Warn(Warning(step.id, "Precondition failed"));
        ghost var h1 := session.calls;
        KeepsNext(h0, h0, h1[|h0|]);
        ReadyLater(w, h0, h1, from, step, start);
        assert StartsBadly(w, h1, from, step);
        return Ok(Proceed(Event.Warned));
      }
      StuckNow(w, h0, from, m);
      hide Stalls, Unready;
      var v := ReplanOrEnd(m, "Precondition failed", from);
      if v.Ended? {
        ghost var h1 := session.calls;
        session.Record(QaStep(step.id, before.observationId, WaitForStable(1000, "Precondition failed"), pre, true));
        KeepsNext(h0, h1, session.calls[|h1|]);
        EndsForLater(w, h1, session.calls, from, m);
      }
      return Ok(v);
    }

    /** Lines 119-130: the target was lost and the model does not decide. */
    method WithoutTarget(m: Machine, error: Error, ghost from: nat, ghost start: nat) returns (r: Outcome<Ruling>)
      requires Wired() && m.Active() && from < start <= |session.calls|
      requires Ready(session.world, session.calls, from, m.Step(), start)
      requires Lost(session.world, session.calls, start, m.Step(), error)
      modifies session`calls, session`patches
      ensures session.Valid() && Keeps(old(session.calls), session.calls)
      ensures r.Ok? ==> Allowed(session.world, session.calls, from, m, r.value)
      ensures r.Thrown? ==> r.error == error && LostForGood(session.world, session.calls, from, m, error)
      ensures Applications(session.patches)
        == Applications(old(session.patches)) + (if r.Ok? && r.value.Replanned? then 1 else 0)
    {
      hide StateOf, Mains, Keeps, Session.Valid, Ready, Applications, Refuses, Lost, NoPatch;
      ghost var w, h0 := session.world, session.calls;
      StuckNow(w, h0, from, m);
      hide Stalls;
      var v := ReplanOrEnd(m, "target not found", from);
      KeptSince(h0, session.calls);
      if v.Ended? {
        assert session.calls[..|h0|] == h0;
        return Thrown(error);
      }
      return Ok(v);
    }

    /** Lines 234-242: the plan-level assertions of the plan the run started with. */
    method CheckPlan(plan: ExecutionPlan) returns (r: Outcome<AssertionResult>, ghost i: nat)
      requires Wired()
      modifies session`calls, session`steps, session.locators
      ensures session.Valid() && old(session.calls) <= session.calls
      ensures Mains(session.calls) == Mains(old(session.calls))
      ensures r.Ok? ==> PlanJudged(session.world, session.calls, |old(session.calls)|, plan, i, r.value.ok)
      ensures r.Thrown? ==> EndThrows(session.world, session.calls, |old(session.calls)|, plan, r.error)
      ensures SmoothEnd(session.world, plan) ==> r.Ok? && r.value.ok
    {
      hide StateOf, Mains, Keeps, Session.Valid, Willing, Fits, Check, PlanJudged, PlanBreaksOff, JustRejected, Looks;
      ghost var h0 := session.calls;
      var looked := Look();
      i := |session.calls| - 1;
      if looked.Thrown? {
        return Thrown(looked.error), i;
      }
      ghost var h1 := session.calls;
      LooksAt(h1, |h0|, i);
      r := JudgePlan(plan, looked.value.0, looked.value.1, |h0|, i);
      KeptSince(h1, session.calls);
    }

    /** Lines 237-241: check the plan's own assertions, and record a failure. */
    method JudgePlan(plan: ExecutionPlan, obs: Observation, state: Snapshot, ghost from: nat, ghost i: nat)
      returns (r: Outcome<AssertionResult>)
      requires Wired() && from < i && i + 1 == |session.calls| && Looks(session.calls, from, i)
      requires session.calls[i] == Snapped(obs, Replied(state)) && StateOf(session.calls).mapped == Some(obs)
      requires At(session.calls, i).store == session.store
      modifies session`calls, session`steps
      ensures session.Valid() && Keeps(old(session.calls), session.calls)
      ensures r.Ok? ==> PlanJudged(session.world, session.calls, from, plan, i, r.value.ok)
      ensures r.Ok? && !r.value.ok ==> FailureRecorded(session.calls, "PLAN_ASSERTIONS", obs, r.value)
      ensures r.Thrown? ==> EndThrows(session.world, session.calls, from, plan, r.error)
      ensures SmoothEnd(session.world, plan) && Offered(session.world.outside, obs) ==> r.Ok? && r.value.ok
    {
      hide StateOf, Mains, Keeps, Session.Valid, Willing, Fits, Check, Bound, BreaksOff, JustRejected, Looks;
      ghost var w, h0 := session.world, session.calls;
      assert session.locators.Current() == IndexOf(obs) by { ValidMeans(session); }
      var checked := runner.CheckAll(plan.assertions, obs, state, Some(state));
      ghost var h1 := session.calls;
      KeptSince(h0, h1);
      LooksLater(h0, h1, from, i);
      if checked.Thrown? {
        assert JustRejected(h1, checked.error) || PlanBreaksOff(w, h1, from, plan, i, checked.error);
        return Thrown(checked.error);
      }
      if checked.value.ok {
        return Ok(checked.value);
      }
      BoundNow(runner, obs, FirstOf(plan.assertions));
      var shown := runner.BoundCondition(FirstOf(plan.assertions), obs);
      if shown.Thrown? {
        assert PlanJudged(w, h1, from, plan, i, false);
        return Thrown(shown.error);
      }
      session.Record(QaStep("PLAN_ASSERTIONS", obs.observationId,
                            WaitForStable(1000, "final business assertion failed"), checked.value, true));
      KeepsNext(h0, h1, session.calls[|h1|]);
      LooksLater(h1, session.calls, from, i);
      CheckLater(w, PlanScene(h1, i), plan.assertions, h1, session.calls, i + 1);
      return Ok(checked.value);
    }

    /** Lines 65-232: attempts at the current step until it passes, is patched, is to be repeated, or ends
        the run. */
    method RunStep(plan: ExecutionPlan, m: Machine, ghost run: Run, ghost marks: seq<nat>)
      returns (r: StepResult, ghost longer: Run, ghost longerMarks: seq<nat>)
      requires Wired() && m.AtStep() && m.attempt == 0
      requires IsRun(session.world.config.rules, plan, run) && run.Last() == m
      requires Accounts(session.world, session.calls, marks, run) && marks[|run.events|] == |session.calls|
      modifies session`calls, session`store, session`attempts, session`steps, session`warnings, session`patches
      modifies session.locators
      ensures session.Valid() && old(session.calls) <= session.calls
      ensures IsRun(session.world.config.rules, plan, longer)
      ensures Accounts(session.world, session.calls, longerMarks, longer) && longerMarks[0] == marks[0]
      ensures Applications(session.patches) - longer.Last().replans == Applications(old(session.patches)) - m.replans
      ensures r.Stop? ==> longer.Last().AtStep()
      ensures r.Stop? ==> Stopped(session.world, session.calls, longerMarks[|longer.events|], longer.Last(), r.outcome)
      ensures r.Move? ==> longerMarks[|longer.events|] == |session.calls|
      ensures r.Move? ==>
        longer.Last() == Machine(r.plan, if r.advance then m.stepIndex + 1 else m.stepIndex, 0, r.replans, r.iterations)
      ensures r.Move? ==> if r.replans == m.replans then r.plan == m.plan else
        && r.replans == m.replans + 1 && m.replans < m.plan.runtime.maxReplansPerScenario
        && r.plan.runtime == m.plan.runtime
      ensures r.Move? && r.replans == m.replans && !r.advance ==>
        m.Iteration() < IterationLimit(m.Step()) && longer.Last().Iteration() == m.Iteration() + 1
      ensures Smooth(session.world, m.Step()) && AttemptLimit(m.plan, m.Step()) > 0 ==>
        r == Move(m.plan, m.replans, m.iterations, true) && AddsCleanPass(run, longer)
    {
      hide Accepted, Edited, Justified, Lawful, Smooth, Throws, EndsFor, Enabled, Next, Steps, Applications;
      hide Session.Valid, Happened;
      ghost var w, rules := session.world, session.world.config.rules;
      var attempts := AttemptLimit(m.plan, m.Step());
      longer, longerMarks := run, marks;
      var now := m;
      while now.attempt < attempts
        invariant session.Valid() && old(session.calls) <= session.calls
        invariant IsRun(rules, plan, longer) && longer.Last() == now && now == m.(attempt := now.attempt)
        invariant Accounts(w, session.calls, longerMarks, longer) && longerMarks[0] == marks[0]
        invariant longerMarks[|longer.events|] == |session.calls|
        invariant now.attempt == 0 || now.attempt < attempts
        invariant Smooth(w, m.Step()) && attempts > 0 ==> now.attempt == 0 && longer == run
        invariant Applications(session.patches) == Applications(old(session.patches))
      {
        ghost var h := session.calls;
        var ruling := Attempt(now);
        AccountsLater(w, h, session.calls, longerMarks, longer);
        LawfulIsOne(w, session.calls, |h|, m.Step());
        if ruling.Thrown? {
          return Stop(Threw(ruling.error)), longer, longerMarks;
        }
        if ruling.value.Ended? {
          return Stop(Finished(false, now.plan, ruling.value.message)), longer, longerMarks;
        }
        longer, longerMarks := Follow(plan, longer, longerMarks, ruling.value);
        if ruling.value.Replanned? {
          return Move(ruling.value.plan, now.replans + 1, now.iterations, false), longer, longerMarks;
        }
        if ruling.value.event.Repeated? {
          var iterations := now.iterations[now.Step().id := now.Iteration() + 1];
          return Move(now.plan, now.replans, iterations, false), longer, longerMarks;
        }
        if !ruling.value.event.Retried? {
          return Move(now.plan, now.replans, now.iterations, true), longer, longerMarks;
        }
        now := now.(attempt := now.attempt + 1);
      }
      assert session.calls[..|session.calls|] == session.calls;
      return Stop(Finished(false, now.plan, EXHAUSTED)), longer, longerMarks;
    }

    /** An allowed ruling is one more event of the run. */
    lemma Follow(plan: ExecutionPlan, run: Run, marks: seq<nat>, v: Ruling) returns (longer: Run, longerMarks: seq<nat>)
      requires IsRun(session.world.config.rules, plan, run) && Accounts(session.world, session.calls, marks, run)
      requires run.Last().AtStep() && marks[|run.events|] <= |session.calls| && !v.Ended?
      requires Allowed(session.world, session.calls, marks[|run.events|], run.Last(), v)
      requires Lawful(session.world, session.calls, marks[|run.events|], run.Last().Step())
      ensures IsRun(session.world.config.rules, plan, longer)
      ensures Accounts(session.world, session.calls, longerMarks, longer) && longerMarks == marks + [|session.calls|]
      ensures |longer.events| == |run.events| + 1 && longer.events[..|run.events|] == run.events
      ensures v.Proceed? ==> longer.events[|run.events|] == v.event && !v.event.Patched?
      ensures v.Replanned? ==>
        longer.Last() == run.Last().(plan := v.plan, attempt := 0, replans := run.Last().replans + 1)
      ensures v.Replanned? ==>
        v.plan.runtime == run.Last().plan.runtime && run.Last().replans < run.Last().plan.runtime.maxReplansPerScenario
      ensures v.Proceed? && v.event.Passes() ==>
        longer.Last() == run.Last().(stepIndex := run.Last().stepIndex + 1, attempt := 0)
      ensures v.Proceed? && v.event.Retried? ==> longer.Last() == run.Last().(attempt := run.Last().attempt + 1)
      ensures v.Proceed? && v.event.Retried? ==>
        run.Last().attempt + 1 < AttemptLimit(run.Last().plan, run.Last().Step())
      ensures v.Proceed? && v.event.Repeated? ==>
        var m := run.Last();
        longer.Last() == m.(attempt := 0, iterations := m.iterations[m.Step().id := m.Iteration() + 1])
      ensures v.Proceed? && v.event.Repeated? ==> run.Last().Iteration() < IterationLimit(run.Last().Step())
    {
      hide Accepted, Edited, Justified, Lawful, Accounts;
      ghost var rules, e := session.world.config.rules, EventOf(v);
      longer := run.Extend(e, Next(rules, run.Last(), e));
      longerMarks := marks + [|session.calls|];
      ExtendRun(rules, plan, run, e);
      AccountsExtend(session.world, session.calls, marks, run, e, Next(rules, run.Last(), e));
      VersionStep(rules, run.Last(), e);
    }

    /** Lines 58-244: the whole run. Whatever the browser and the model answer, it ends; the steps it takes
        are a run of the machine, each event of which is justified by its own stretch of the history; and
        what it returns or throws is justified by the stretch after the last event. */
    method RunExecution(plan: ExecutionPlan) returns (r: ExecutionOutcome, ghost run: Run, ghost marks: seq<nat>)
      requires Wired()
      modifies session`calls, session`store, session`attempts, session`steps, session`warnings, session`patches
      modifies session.locators
      ensures session.Valid() && old(session.calls) < session.calls
      ensures IsRun(session.world.config.rules, plan, run)
      ensures Accounts(session.world, session.calls, marks, run) && marks[0] == |old(session.calls)| + 1
      ensures Mains(session.calls[..marks[0]]) == Mains(old(session.calls))
      ensures run.Last().AtStep() ==> Stopped(session.world, session.calls, marks[|run.events|], run.Last(), r)
      ensures !run.Last().AtStep() ==> Completed(session.world, session.calls, marks[|run.events|], plan, run.Last(), r)
      ensures Applications(session.patches) == run.Last().replans
      ensures FairWeather(session.world, plan) ==>
        r == Finished(true, plan, "") && |run.events| == |plan.steps| && AllClean(run)
    {
      hide Accepted, Edited, Happened, Session.Valid, Stopped, Completed, Unspoilt, Mains, Steps, Next, Enabled;
      hide Applications, FairWeather, SmoothEnd, AllClean;
      NoApplications();
      ghost var w, h0 := session.world, session.calls;
      session.Begin();
      var m := Start(plan);
      run, marks := Run([m], []), [|session.calls|];
      RunBegins(w, h0, session.calls, plan);
      while m.AtStep()
        invariant session.Valid() && Applications(session.patches) == m.replans
        invariant UnderWay(w, h0, session.calls, plan, m, run, marks) && Unspoilt(w, plan, m, run)
        decreases plan.runtime.maxReplansPerScenario - m.replans, |m.plan.steps| - m.stepIndex,
          if m.AtStep() then IterationLimit(m.Step()) - m.Iteration() else 0
      {
        var result;
        result, m, run, marks := Advance(plan, m, h0, run, marks);
        if result.Stop? {
          return result.outcome, run, marks;
        }
      }
      ghost var h := session.calls;
      r := Finish(plan, m);
      RunEnds(w, h0, h, session.calls, plan, m, run, marks);
      UnspoiltMeans(w, plan, m, run);
    }

    /** One round of the loop: the attempts at one step, and where they lead. */
    method Advance(plan: ExecutionPlan, m: Machine, ghost h0: History, ghost run: Run, ghost marks: seq<nat>)
      returns (r: StepResult, n: Machine, ghost longer: Run, ghost longerMarks: seq<nat>)
      requires Wired() && m.AtStep() && Applications(session.patches) == m.replans
      requires UnderWay(session.world, h0, session.calls, plan, m, run, marks)
      requires Unspoilt(session.world, plan, m, run)
      modifies session`calls, session`store, session`attempts, session`steps, session`warnings, session`patches
      modifies session.locators
      ensures session.Valid() && h0 < session.calls
      ensures IsRun(session.world.config.rules, plan, longer)
      ensures Accounts(session.world, session.calls, longerMarks, longer) && longerMarks[0] == |h0| + 1
      ensures Mains(session.calls[..longerMarks[0]]) == Mains(h0)
      ensures Applications(session.patches) == longer.Last().replans
      ensures r.Stop? ==> longer.Last().AtStep() && !FairWeather(session.world, plan)
      ensures r.Stop? ==> Stopped(session.world, session.calls, longerMarks[|longer.events|], longer.Last(), r.outcome)
      ensures r.Move? ==> UnderWay(session.world, h0, session.calls, plan, n, longer, longerMarks) && Further(m, n)
      ensures r.Move? ==> Unspoilt(session.world, plan, n, longer)
    {
      hide Accepted, Edited, Happened, Session.Valid, Stopped, Unspoilt, Mains, Steps, Applications, Smooth;
      hide FairWeather, AllClean, AddsCleanPass;
      ghost var w, h := session.world, session.calls;
      r, longer, longerMarks := RunStep(plan, m, run, marks);
      assert session.calls[..marks[0]] == h[..marks[0]];
      n := if r.Stop? then m else
        Machine(r.plan, if r.advance then m.stepIndex + 1 else m.stepIndex, 0, r.replans, r.iterations);
      StepIsUnspoilt(w, plan, m, n, run, longer);
      if r.Move? {
        StepTaken(w, h0, h, session.calls, plan, m, n, run, marks, longer, longerMarks);
      }
    }

    /** Lines 234-244: what a run that came through all steps returns. */
    method Finish(plan: ExecutionPlan, m: Machine) returns (r: ExecutionOutcome)
      requires Wired()
      modifies session`calls, session`steps, session.locators
      ensures session.Valid() && old(session.calls) <= session.calls
      ensures Completed(session.world, session.calls, |old(session.calls)|, plan, m, r)
      ensures SmoothEnd(session.world, plan) ==> r == Finished(true, m.plan, "")
    {
      hide SmoothEnd, Session.Valid, PlanJudged, EndThrows, Mains;
      ghost var h := session.calls;
      var final, i := CheckPlan(plan);
      assert session.calls[..|h|] == h;
      if final.Thrown? {
        return Threw(final.error);
      }
      return Finished(final.value.ok, m.plan, if final.value.ok then "" else "business assertion failed");
    }

    /** Lines 54-56, with what a caller may conclude: an ok answer means that the plan's assertions held at
        the end and that every step of the final plan passed by an event of its own, exactly unless some
        applied patch edited a position already left behind, in which case a step of the final plan was
        never executed; any other answer and any error has its reason in what happened after the last event,
        and in fair weather there is none, so that the plan passes unpatched with one clean event per step;
        the final version counts the applied patches; and the actions executed for a step are bounded by the
        limits of the plans visited. */
    method Execute(plan: ExecutionPlan) returns (r: ExecutionOutcome, ghost run: Run, ghost marks: seq<nat>)
      requires Wired()
      modifies session`calls, session`store, session`attempts, session`steps, session`warnings, session`patches
      modifies session.locators
      ensures session.Valid() && old(session.calls) < session.calls
      ensures Honest(session.world, session.calls)
      ensures IsRun(session.world.config.rules, plan, run)
      ensures Accounts(session.world, session.calls, marks, run) && marks[0] == |old(session.calls)| + 1
      ensures run.Last().AtStep() ==> Stopped(session.world, session.calls, marks[|run.events|], run.Last(), r)
      ensures !run.Last().AtStep() ==> Completed(session.world, session.calls, marks[|run.events|], plan, run.Last(), r)
      ensures r.Finished? && r.ok ==> !run.Last().AtStep()
      ensures r.Finished? && r.ok && NoBackwardPatch(run, |run.events|) ==> EveryStepPassed(run)
      ensures r.Finished? && r.ok && !NoBackwardPatch(run, |run.events|) ==>
        var trail := Trail(run, |run.events|);
        |trail| == |r.finalPlan.steps| && exists j :: 0 <= j < |trail| && trail[j].None?
      ensures FairWeather(session.world, plan) ==>
        r == Finished(true, plan, "") && |run.events| == |plan.steps| && AllClean(run)
      ensures r.Finished? ==>
        var applied := Applications(session.patches);
        r.finalPlan == plan.(version := plan.version + applied, steps := r.finalPlan.steps)
        && (applied > 0 ==> applied <= plan.runtime.maxReplansPerScenario)
      ensures r.Finished? ==>
        (r.message == EXHAUSTED <==> run.Last().AtStep() && AttemptLimit(run.Last().plan, run.Last().Step()) <= 0)
      ensures plan.runtime.maxReplansPerScenario >= 0 ==> forall b: Bounds :: Bounding(b, run) ==>
        Mains(session.calls) <= Mains(old(session.calls)) + Allowance(b, plan)
      ensures forall at :: |old(session.calls)| <= at < |session.calls| && IsMain(session.calls[at]) ==>
        KeptAt(session.world, session.calls, run, at)
    {
      hide Accepted, Edited, Happened, Session.Valid, Throws, EndsFor, PlanJudged, EndThrows, FairWeather, Bounding;
      hide Mains, Honest, AllClean, Lawful, Accounts, KeptAt, IsMain;
      ghost var h0 := session.calls;
      r, run, marks := RunExecution(plan);
      HonestNow(session);
      ghost var w, rules := session.world, session.world.config.rules;
      VersionCountsPatches(rules, plan, run, |run.events|);
      ExecutionsAreBounded(w, h0, session.calls, plan, run, marks);
      forall at | |h0| <= at < |session.calls| && IsMain(session.calls[at])
        ensures KeptAt(w, session.calls, run, at)
      {
        ExecutionIsKept(w, h0, session.calls, plan, run, marks, r, at);
      }
      if run.Last().AtStep() {
        StuckExactlyWithoutAttempts(rules, plan, run, |run.events|);
      } else if NoBackwardPatch(run, |run.events|) {
        FinishedRunPassedEveryStep(rules, plan, run);
      } else {
        BackwardPatchLeavesStepUnexecuted(rules, plan, run);
      }
    }
  }

  function EventOf(v: Ruling): Event
    requires !v.Ended?
  {
    if v.Replanned? then Patched(v.patch) else v.event
  }
}
