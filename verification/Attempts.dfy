/** What an attempt at a step of a plan can show: predicates on the history of a session between the
    start of the attempt and its end, and how each event of a run, each end and each error is justified
    by what happened in between (src/application/services/plan-executor.service.ts:65-229). */
module Attempts {
  import opened Domain
  import opened PlanPatches
  import opened PlanRuns
  import opened Locators
  import opened Harness
  import opened StepServices

  const FALLBACK: QaAction := Press("Escape", None, "plan step recovery escape")

  function FirstOf(conditions: seq<Condition>): Condition {
    if conditions == [] then NoConsoleErrors else conditions[0]
  }

  /** What the outcome of a step is described by: the first postcondition, or the first assertion when one does
      not hold. */
  function Subject(s: ExecutionStep, ok: bool): Condition {
    if ok || s.assertions == [] then FirstOf(s.postconditions) else s.assertions[0]
  }

  /** Everything a step may have checked. */
  function Conditions(s: ExecutionStep): seq<Condition> {
    s.preconditions + s.postconditions + s.assertions
    + (if s.repeatUntil.Some? then [s.repeatUntil.value] else []) + [NoConsoleErrors]
  }

  // ----- looking at the page

  predicate Snaps(h: History, i: nat) {
    i < |h| && h[i].Snapped? && h[i].state.Replied?
  }

  /** The states at `i` were read for the mapped observation, which the browser showed since `from`. */
  ghost predicate Looks(h: History, from: nat, i: nat) {
    && Snaps(h, i) && from < i
    && At(h, i).mapped == Some(h[i].of) && Shown(h[..i], from, h[i].of)
  }

  /** The page was observed, mapped and read, with nothing in between. */
  ghost predicate LooksAtOnce(h: History, from: nat, i: nat) {
    Looks(h, from, i) && i == from + 2 && h[from].Observed? && h[from + 1].Mapped?
  }

  function SceneBefore(h: History, start: nat): Scene
    requires Snaps(h, start)
  {
    Scene(IndexOf(h[start].of), h[start].of, h[start].state.value, None, At(h, start).store)
  }

  function SceneAfter(h: History, start: nat, seen: nat): Scene
    requires Snaps(h, start) && Snaps(h, seen)
  {
    Scene(IndexOf(h[seen].of), h[seen].of, h[start].state.value, Some(h[seen].state.value), At(h, seen).store)
  }

  /** The verdict on the preconditions, judged as soon as the page was looked at. */
  function Pre(w: World, h: History, s: ExecutionStep, start: nat): Option<Verdict>
    requires Snaps(h, start)
  {
    Check(w, SceneBefore(h, start), s.preconditions, h, start + 1)
  }

  ghost predicate Ready(w: World, h: History, from: nat, s: ExecutionStep, start: nat) {
    Looks(h, from, start) && Pre(w, h, s, start).Some? && Pre(w, h, s, start).value.ok
  }

  ghost predicate Unready(w: World, h: History, from: nat, s: ExecutionStep, start: nat) {
    Looks(h, from, start) && Pre(w, h, s, start).Some? && !Pre(w, h, s, start).value.ok
  }

  // ----- choosing the action

  predicate CannotResolve(w: World, into: Option<PlanAction>, obs: Observation) {
    into.None? || Retarget(w.tm, IndexOf(obs), obs, into.value).Thrown?
  }

  function LookupError(w: World, into: Option<PlanAction>, obs: Observation): Error
    requires CannotResolve(w, into, obs)
  {
    if into.None? then DynamicData else Retarget(w.tm, IndexOf(obs), obs, into.value).error
  }

  /** At `u` the action of the step was expanded, and not resolved on the observation mapped then. */
  predicate NotFoundAt(w: World, h: History, u: nat, s: ExecutionStep, obs: Observation) {
    && u < |h| && h[u].Expanded? && h[u].asked == s.action
    && At(h, u).mapped == Some(obs) && CannotResolve(w, h[u].into, obs)
  }

  /** The last thing that happened was the expansion of the step's action, and it resolves on the mapped
      observation. */
  predicate Resolved(w: World, h: History, s: ExecutionStep, obs: Observation, action: QaAction) {
    && h != [] && h[|h| - 1].Expanded? && h[|h| - 1].asked == s.action && h[|h| - 1].into.Some?
    && StateOf(h).mapped == Some(obs)
    && Retarget(w.tm, IndexOf(obs), obs, h[|h| - 1].into.value) == Ok(action)
  }

  /** The last thing that happened was the model's decision on an observation the step's action had not been
      resolved on. */
  ghost predicate DecidedBy(w: World, h: History, start: nat, s: ExecutionStep, obs: Observation, action: QaAction) {
    && h != [] && h[|h| - 1] == Decided(obs, Replied(action))
    && exists u :: start < u < |h| - 1 && NotFoundAt(w, h, u, s, obs)
  }

  ghost predicate Chosen(w: World, h: History, start: nat, s: ExecutionStep, obs: Observation, action: QaAction) {
    start + 1 < |h| && (Resolved(w, h, s, obs, action) || DecidedBy(w, h, start, s, obs, action))
  }

  /** The action was chosen on an observation the browser showed since `from`. */
  ghost predicate Intended(w: World, h: History, from: nat, start: nat, s: ExecutionStep, obs: Observation,
                           action: QaAction) {
    Shown(h, from, obs) && Chosen(w, h, start, s, obs, action)
  }

  /** The step's action was not resolved, for the given reason, and the model just refused to decide. */
  ghost predicate Lost(w: World, h: History, start: nat, s: ExecutionStep, e: Error) {
    && h != [] && h[|h| - 1].Decided? && h[|h| - 1].decision.Rejected?
    && exists u :: start < u < |h| - 1 && LostAt(w, h, u, s, e)
  }

  predicate LostAt(w: World, h: History, u: nat, s: ExecutionStep, e: Error)
    requires h != [] && h[|h| - 1].Decided?
  {
    NotFoundAt(w, h, u, s, h[|h| - 1].on) && e == LookupError(w, h[u].into, h[|h| - 1].on)
  }

  /** The policy on an action and on the wording of its step, by the attempts recorded so far. */
  predicate Clears(w: World, h: History, s: ExecutionStep, action: QaAction) {
    Permits(w.config, action, StateOf(h).attempts) && !BlockedText(w.config.rules, s.description + " " + action.reason)
  }

  /** The action executed at `at` is what the step asks for, as it was expanded right before: done with what the
      expanded action says, to the elements its locators are found to be on the mapped page; or it is, unchanged, what
      the model just decided. */
  ghost predicate OwnDeed(w: World, h: History, s: ExecutionStep, at: nat) {
    && 0 < at < |h| && h[at].Executed?
    && match h[at - 1]
       case Expanded(asked, into, _) =>
         && asked == s.action && into.Some? && SameDeed(into.value, h[at].action)
         && exists obs :: At(h, at).mapped == Some(obs) && ActsWhereFound(w.tm, obs, into.value, h[at].action)
       case Decided(_, decision) => decision == Replied(h[at].action)
       case _ => false
  }

  // ----- acting

  /** The action executed at `at`: the preconditions had been judged to hold on the page looked at at
      `start`; the action was chosen, on what is mapped, right before; and the policy cleared it. */
  ghost predicate Launched(w: World, h: History, from: nat, s: ExecutionStep, start: nat, at: nat) {
    && start < at < |h| && IsMain(h[at])
    && Ready(w, h[..at], from, s, start) && Clears(w, h[..at], s, h[at].action)
    && exists obs :: Intended(w, h[..at], from, start, s, obs, h[at].action)
  }

  /** No action is executed for itself but one that was launched, and at most one of them. */
  ghost predicate Lawful(w: World, h: History, from: nat, s: ExecutionStep)
    requires from <= |h|
  {
    && Mains(h) <= Mains(h[..from]) + 1
    && forall at :: from <= at < |h| && IsMain(h[at]) ==> exists start :: Launched(w, h, from, s, start, at)
  }

  /** The action was launched and the page looked at afterwards. */
  ghost predicate Acted(w: World, h: History, from: nat, s: ExecutionStep, ev: Evidence) {
    && Launched(w, h, from, s, ev.start, ev.at) && ev.at < |h| && IsMain(h[ev.at]) && h[ev.at].done.Replied?
    && Looks(h, ev.at, ev.seen) && Snaps(h, ev.start) && Snaps(h, ev.seen)
  }

  /** The verdict on the postconditions, judged as soon as the page was looked at. */
  function Post(w: World, h: History, s: ExecutionStep, ev: Evidence): Option<Verdict>
    requires Snaps(h, ev.start) && Snaps(h, ev.seen)
  {
    Check(w, SceneAfter(h, ev.start, ev.seen), s.postconditions, h, ev.seen + 1)
  }

  /** The attempt goes well when the action succeeded and the postconditions hold; otherwise it slips. */
  ghost predicate Goes(w: World, h: History, from: nat, s: ExecutionStep, ev: Evidence, well: bool) {
    && Acted(w, h, from, s, ev) && Post(w, h, s, ev).Some?
    && well == (h[ev.at].done.value.ok && Post(w, h, s, ev).value.ok)
  }

  /** The step was recorded at `k`, with the observation it was seen on and the verdict it got. */
  predicate RecordedAt(h: History, k: nat, s: ExecutionStep, ev: Evidence, ok: bool) {
    && k < |h| && h[k].Recorded? && Snaps(h, ev.seen) && ev.at < |h| && h[ev.at].Executed?
    && h[k].step.stepId == s.id && h[k].step.observationId == h[ev.seen].of.observationId
    && h[k].step.action == h[ev.at].action && h[k].step.validation.ok == ok && h[k].step.failed == !ok
  }

  /** At `k` the condition can be bound to the observation the step was seen on. */
  predicate Described(w: World, h: History, ev: Evidence, k: nat, c: Condition) {
    k <= |h| && Snaps(h, ev.seen) && Bound(w, At(h, k), h[ev.seen].of, c).Ok?
  }

  predicate WarnedAt(h: History, k: nat, s: ExecutionStep) {
    k < |h| && h[k].Warned? && h[k].warning.stepId == s.id
  }

  // ----- after success

  /** The verdict on the business assertions, judged right after the postconditions held. */
  function Business(w: World, h: History, s: ExecutionStep, ev: Evidence): Option<Verdict>
    requires Snaps(h, ev.start) && Snaps(h, ev.seen) && Post(w, h, s, ev).Some?
  {
    Check(w, SceneAfter(h, ev.start, ev.seen), s.assertions, h, Post(w, h, s, ev).value.next)
  }

  /** The verdict on the business assertions was `ok`, and is described and on record. */
  ghost predicate Concludes(w: World, h: History, from: nat, s: ExecutionStep, ev: Evidence, ok: bool) {
    && Goes(w, h, from, s, ev, true)
    && Business(w, h, s, ev).Some? && Business(w, h, s, ev).value.ok == ok
    && Described(w, h, ev, Business(w, h, s, ev).value.next, Subject(s, ok))
    && RecordedAt(h, Business(w, h, s, ev).value.next, s, ev, ok)
  }

  /** The repeat condition was judged after the step was recorded. */
  ghost predicate Repeats(w: World, h: History, from: nat, s: ExecutionStep, ev: Evidence, met: bool) {
    && Concludes(w, h, from, s, ev, true) && s.repeatUntil.Some?
    && var v := Check(w, SceneAfter(h, ev.start, ev.seen), [s.repeatUntil.value], h,
                      Business(w, h, s, ev).value.next + 1);
      v.Some? && v.value.ok == met
  }

  ghost predicate PassesCleanly(w: World, h: History, from: nat, s: ExecutionStep, ev: Evidence) {
    Concludes(w, h, from, s, ev, true) && (s.repeatUntil.Some? ==> Repeats(w, h, from, s, ev, true))
  }

  // ----- after a slip

  /** What recovery tries to bring about. */
  function Expected(w: World, h: History, s: ExecutionStep, ev: Evidence): Outcome<BoundExpected>
    requires Snaps(h, ev.start) && Snaps(h, ev.seen) && Post(w, h, s, ev).Some? && Post(w, h, s, ev).value.next <= |h|
  {
    Bound(w, At(h, Post(w, h, s, ev).value.next), h[ev.seen].of, FirstOf(s.postconditions))
  }

  /** Recovery ran right after the slip, up to `j`: `worked` says whether some action brought the expected
      about, those before it having been tried in vain, or all were tried in vain. */
  ghost predicate RecoveryRan(w: World, h: History, from: nat, s: ExecutionStep, ev: Evidence, j: nat, worked: bool) {
    && Goes(w, h, from, s, ev, false) && Post(w, h, s, ev).value.next <= j <= |h|
    && Expected(w, h, s, ev).Ok?
    && var k, actions := Post(w, h, s, ev).value.next, RecoveryActions(FALLBACK, w.config);
       var expected := Expected(w, h, s, ev).value;
      if worked then exists a :: FirstToWork(h, k, j, actions, expected, a) else AllVain(h, k, j, actions, expected)
  }

  /** After a recovery that worked the page was looked at again. */
  ghost predicate LooksAgain(w: World, h: History, from: nat, s: ExecutionStep, ev: Evidence, again: nat) {
    exists j: nat :: RecoveryRan(w, h, from, s, ev, j, true) && LooksAtOnce(h, j, again)
  }

  function Again(w: World, h: History, s: ExecutionStep, ev: Evidence, again: nat): Option<Verdict>
    requires Snaps(h, ev.start) && Snaps(h, again)
  {
    Check(w, SceneAfter(h, ev.start, again), s.postconditions, h, again + 1)
  }

  ghost predicate JudgesAgain(w: World, h: History, from: nat, s: ExecutionStep, ev: Evidence, again: nat, ok: bool,
                              k: nat) {
    && LooksAgain(w, h, from, s, ev, again) && Snaps(h, ev.start) && Snaps(h, again)
    && Again(w, h, s, ev, again) == Some(Verdict(ok, k))
  }

  /** The verdict after recovery, reached at `k`: on the newer page if recovery worked, else the old one. */
  ghost predicate Judges(w: World, h: History, from: nat, s: ExecutionStep, ev: Evidence, ok: bool, k: nat) {
    || (exists again: nat :: JudgesAgain(w, h, from, s, ev, again, ok, k))
    || (RecoveryRan(w, h, from, s, ev, k, false) && ok == Post(w, h, s, ev).value.ok)
  }

  /** The verdict after recovery is described on the observation before it and is on record. */
  ghost predicate Recovers(w: World, h: History, from: nat, s: ExecutionStep, ev: Evidence, ok: bool) {
    && Goes(w, h, from, s, ev, false)
    && exists k :: Judges(w, h, from, s, ev, ok, k)
         && Described(w, h, ev, k, FirstOf(s.postconditions)) && RecordedAt(h, k, s, ev, ok)
  }

  /** Recovery was in vain and a warning is on record. */
  ghost predicate LetsPass(w: World, h: History, from: nat, s: ExecutionStep, ev: Evidence) {
    exists k :: RecoveryRan(w, h, from, s, ev, k, false) && WarnedAt(h, k, s)
  }

  ghost predicate StartsBadly(w: World, h: History, from: nat, s: ExecutionStep) {
    exists start :: Unready(w, h, from, s, start) && WarnedAt(h, Pre(w, h, s, start).value.next, s)
  }

  // ----- what justifies what

  /** The attempt is the last one the step has. */
  predicate LastAttempt(m: Machine)
    requires m.AtStep()
  {
    m.attempt + 1 >= AttemptLimit(m.plan, m.Step())
  }

  /** What a plan may be patched for: a precondition or the target in any attempt, and in the last one the
      postconditions after recovery or the business assertions. */
  ghost predicate Stuck(w: World, h: History, from: nat, s: ExecutionStep, spent: bool) {
    || (exists start :: Unready(w, h, from, s, start))
    || (exists start, e :: Ready(w, h, from, s, start) && Lost(w, h, start, s, e))
    || (spent && exists ev :: Recovers(w, h, from, s, ev, false))
    || (spent && exists ev :: Concludes(w, h, from, s, ev, false))
  }

  /** The step was stuck at some time of the attempt. */
  ghost predicate Stalls(w: World, h: History, from: nat, m: Machine)
    requires m.AtStep()
  {
    exists k :: from <= k <= |h| && Stuck(w, h[..k], from, m.Step(), LastAttempt(m))
  }

  /** How each event of a run is justified by its attempt, from `from` to the end of `h`. */
  ghost predicate Justified(w: World, h: History, from: nat, m: Machine, e: Event)
    requires m.AtStep()
  {
    var s := m.Step();
    match e
    case Warned => StartsBadly(w, h, from, s) || exists ev :: LetsPass(w, h, from, s, ev)
    case Recovered(ev) => Recovers(w, h, from, s, ev, true)
    case Clean(ev) => PassesCleanly(w, h, from, s, ev)
    case Retried(ev) => Recovers(w, h, from, s, ev, false) || Concludes(w, h, from, s, ev, false)
    case Repeated(ev) => Repeats(w, h, from, s, ev, false)
    case Patched(p) => Stalls(w, h, from, m) && Offers(h, from, m.plan, p)
  }

  /** An action was chosen and refused by the policy, which is on record, and none was executed. */
  ghost predicate Refuses(w: World, h: History, from: nat, s: ExecutionStep)
    requires from <= |h|
  {
    && Mains(h) == Mains(h[..from])
    && exists start, k, obs, action :: from <= k < |h| && RefusedAt(w, h, from, s, start, k, obs, action)
  }

  ghost predicate RefusedAt(w: World, h: History, from: nat, s: ExecutionStep, start: nat, k: nat, obs: Observation,
                            action: QaAction)
    requires k < |h|
  {
    && Ready(w, h[..k], from, s, start) && Intended(w, h[..k], from, start, s, obs, action)
    && !Clears(w, h[..k], s, action)
    && h[k] == Recorded(QaStep(s.id, obs.observationId, action, AssertionResult(false, "policy"), true))
  }

  /** Why a run ends at a step: the policy refused the action, the repetitions are used up, or the step is
      stuck and nothing patched it. */
  ghost predicate EndsFor(w: World, h: History, from: nat, m: Machine)
    requires m.AtStep() && from <= |h|
  {
    || Refuses(w, h, from, m.Step())
    || (m.Iteration() + 1 > IterationLimit(m.Step()) && exists ev :: Repeats(w, h, from, m.Step(), ev, false))
    || (Stalls(w, h, from, m) && NoPatch(w, h, from, m.plan, m.replans))
  }

  // ----- errors

  /** The expansion of the step's action just failed. */
  predicate ExpansionFails(h: History, s: ExecutionStep, e: Error) {
    h != [] && h[|h| - 1].Expanded? && h[|h| - 1].asked == s.action && h[|h| - 1].into.None? && e.DynamicData?
  }

  /** The step's action was just expanded again and does not resolve, although its target was found on the
      very observation: it generates values, or drags. */
  ghost predicate LosesTarget(w: World, h: History, start: nat, s: ExecutionStep, e: Error) {
    && h != [] && h[|h| - 1].Expanded? && h[|h| - 1].asked == s.action && h[|h| - 1].into.Some?
    && exists u, obs :: start < u < |h| - 1 && StateOf(h).mapped == Some(obs) && LosesOn(w, h, u, s, obs, e)
  }

  predicate LosesOn(w: World, h: History, u: nat, s: ExecutionStep, obs: Observation, e: Error)
    requires h != [] && h[|h| - 1].Expanded? && h[|h| - 1].into.Some?
  {
    && u < |h| && h[u].Expanded? && h[u].asked == s.action && h[u].into.Some?
    && h[u].into.value.Target().Some? && Found(w.tm, obs, h[u].into.value.Target().value)
    && Retarget(w.tm, IndexOf(obs), obs, h[|h| - 1].into.value) == Thrown(e)
    && (w.templates.generates(s.action) || h[u].into.value.Drag?)
  }

  /** Checking some conditions of the step just broke off. */
  ghost predicate ChecksBreakOff(w: World, h: History, from: nat, s: ExecutionStep, e: Error) {
    || (exists start: nat :: EntryBreaksOff(w, h, from, s, start, e))
    || (exists ev :: OutcomeBreaksOff(w, h, from, s, ev, e))
    || (exists ev, again: nat :: RecheckBreaksOff(w, h, from, s, ev, again, e))
    || (exists ev :: BusinessBreaksOff(w, h, from, s, ev, e))
    || (exists ev :: RepeatBreaksOff(w, h, from, s, ev, e))
  }

  ghost predicate EntryBreaksOff(w: World, h: History, from: nat, s: ExecutionStep, start: nat, e: Error) {
    Looks(h, from, start) && BreaksOff(w, SceneBefore(h, start), s.preconditions, h, start + 1, e)
  }

  ghost predicate OutcomeBreaksOff(w: World, h: History, from: nat, s: ExecutionStep, ev: Evidence, e: Error) {
    && Acted(w, h, from, s, ev)
    && BreaksOff(w, SceneAfter(h, ev.start, ev.seen), s.postconditions, h, ev.seen + 1, e)
  }

  ghost predicate RecheckBreaksOff(w: World, h: History, from: nat, s: ExecutionStep, ev: Evidence, again: nat,
                                   e: Error) {
    && LooksAgain(w, h, from, s, ev, again) && Snaps(h, ev.start) && Snaps(h, again)
    && BreaksOff(w, SceneAfter(h, ev.start, again), s.postconditions, h, again + 1, e)
  }

  ghost predicate BusinessBreaksOff(w: World, h: History, from: nat, s: ExecutionStep, ev: Evidence, e: Error) {
    && Goes(w, h, from, s, ev, true)
    && BreaksOff(w, SceneAfter(h, ev.start, ev.seen), s.assertions, h, Post(w, h, s, ev).value.next, e)
  }

  ghost predicate RepeatBreaksOff(w: World, h: History, from: nat, s: ExecutionStep, ev: Evidence, e: Error) {
    && Concludes(w, h, from, s, ev, true) && s.repeatUntil.Some?
    && BreaksOff(w, SceneAfter(h, ev.start, ev.seen), [s.repeatUntil.value], h, Business(w, h, s, ev).value.next + 1, e)
  }

  /** Right after the slip the first postcondition cannot be bound to what recovery is to bring about. */
  ghost predicate ExpectationFails(w: World, h: History, from: nat, s: ExecutionStep, e: Error) {
    exists ev :: Goes(w, h, from, s, ev, false) && Post(w, h, s, ev).value.next == |h|
      && Expected(w, h, s, ev) == Thrown(e)
  }

  /** The outcome was just judged after recovery, and cannot be described on the observation before it. */
  ghost predicate DescriptionFails(w: World, h: History, from: nat, s: ExecutionStep, e: Error) {
    exists ev, ok :: Judges(w, h, from, s, ev, ok, |h|) && Snaps(h, ev.seen)
      && Bound(w, StateOf(h), h[ev.seen].of, FirstOf(s.postconditions)) == Thrown(e)
  }

  /** The business assertions were just judged, and the outcome cannot be described. */
  ghost predicate SummaryFails(w: World, h: History, from: nat, s: ExecutionStep, e: Error) {
    exists ev :: Goes(w, h, from, s, ev, true) && Business(w, h, s, ev).Some? && Business(w, h, s, ev).value.next == |h|
      && Bound(w, StateOf(h), h[ev.seen].of, Subject(s, Business(w, h, s, ev).value.ok)) == Thrown(e)
  }

  /** The target was lost, the model refused to decide, and nothing patched the plan. */
  ghost predicate LostForGood(w: World, h: History, from: nat, m: Machine, e: Error)
    requires m.AtStep()
  {
    && NoPatch(w, h, from, m.plan, m.replans)
    && exists start: nat, k: nat :: from < start && k <= |h| && Lost(w, h[..k], start, m.Step(), e)
  }

  /** Why an attempt throws. */
  ghost predicate Throws(w: World, h: History, from: nat, m: Machine, e: Error)
    requires m.AtStep()
  {
    || (JustRejected(h, e) && from < |h|)
    || ChoiceFails(w, h, from, m.Step(), e)
    || LostForGood(w, h, from, m, e)
    || ChecksBreakOff(w, h, from, m.Step(), e)
    || ExpectationFails(w, h, from, m.Step(), e)
    || DescriptionFails(w, h, from, m.Step(), e)
    || SummaryFails(w, h, from, m.Step(), e)
  }

  ghost predicate ChoiceFails(w: World, h: History, from: nat, s: ExecutionStep, e: Error) {
    ExpansionFails(h, s, e) || exists start :: from < start && LosesTarget(w, h, start, s, e)
  }

  // ----- what happened stays

  lemma LooksLater(h: History, later: History, from: nat, i: nat)
    requires Looks(h, from, i) && h <= later
    ensures Looks(later, from, i) && At(later, i) == At(h, i)
  {
    PastStays(h, later, i);
  }

  lemma ReadyLater(w: World, h: History, later: History, from: nat, s: ExecutionStep, start: nat)
    requires Looks(h, from, start) && Pre(w, h, s, start).Some? && h <= later
    ensures Looks(later, from, start) && Pre(w, later, s, start) == Pre(w, h, s, start)
  {
    LooksLater(h, later, from, start);
    CheckLater(w, SceneBefore(h, start), s.preconditions, h, later, start + 1);
  }

  lemma LaunchedLater(w: World, h: History, later: History, from: nat, s: ExecutionStep, start: nat, at: nat)
    requires Launched(w, h, from, s, start, at) && h <= later
    ensures Launched(w, later, from, s, start, at) && later[at] == h[at]
  {
    PastStays(h, later, at);
  }

  /** Whatever is launched is the step's own deed, or the model's decision. */
  lemma LaunchedOwnDeed(w: World, h: History, from: nat, s: ExecutionStep, start: nat, at: nat)
    requires Launched(w, h, from, s, start, at)
    ensures OwnDeed(w, h, s, at)
  {
    hide Ready, Clears, Retarget, StateOf, SameDeed, ActsWhereFound;
    var past, action := h[..at], h[at].action;
    var obs :| Intended(w, past, from, start, s, obs, action);
    assert past[at - 1] == h[at - 1];
    if Resolved(w, past, s, obs, action) {
      ResolvingKeepsDeed(w.tm, IndexOf(obs), obs, past[at - 1].into.value);
      ResolvedActsWhereFound(w.tm, obs, past[at - 1].into.value);
    }
  }

  lemma ActedLater(w: World, h: History, later: History, from: nat, s: ExecutionStep, ev: Evidence)
    requires Acted(w, h, from, s, ev) && h <= later
    ensures Acted(w, later, from, s, ev) && later[ev.at] == h[ev.at] && later[ev.seen] == h[ev.seen]
    ensures SceneAfter(later, ev.start, ev.seen) == SceneAfter(h, ev.start, ev.seen)
  {
    hide Launched;
    LaunchedLater(w, h, later, from, s, ev.start, ev.at);
    LooksLater(h, later, ev.at, ev.seen);
  }

  lemma GoesLater(w: World, h: History, later: History, from: nat, s: ExecutionStep, ev: Evidence, well: bool)
    requires Goes(w, h, from, s, ev, well) && h <= later
    ensures Goes(w, later, from, s, ev, well) && later[ev.at] == h[ev.at] && later[ev.seen] == h[ev.seen]
    ensures Snaps(later, ev.start) && later[ev.start] == h[ev.start] && Snaps(later, ev.seen) && later[ev.at].Executed?
    ensures Post(w, later, s, ev) == Post(w, h, s, ev)
    ensures SceneAfter(later, ev.start, ev.seen) == SceneAfter(h, ev.start, ev.seen)
  {
    hide Launched, Looks, SceneAfter;
    ActedLater(w, h, later, from, s, ev);
    CheckLater(w, SceneAfter(h, ev.start, ev.seen), s.postconditions, h, later, ev.seen + 1);
  }

  lemma BusinessLater(w: World, h: History, later: History, from: nat, s: ExecutionStep, ev: Evidence)
    requires Goes(w, h, from, s, ev, true) && Business(w, h, s, ev).Some? && h <= later
    ensures Goes(w, later, from, s, ev, true) && Business(w, later, s, ev) == Business(w, h, s, ev)
    ensures SceneAfter(later, ev.start, ev.seen) == SceneAfter(h, ev.start, ev.seen)
  {
    hide Launched, Looks, SceneAfter;
    GoesLater(w, h, later, from, s, ev, true);
    CheckLater(w, SceneAfter(h, ev.start, ev.seen), s.assertions, h, later, Post(w, h, s, ev).value.next);
  }

  lemma RecoveryLater(w: World, h: History, later: History, from: nat, s: ExecutionStep, ev: Evidence, j: nat,
                      worked: bool)
    requires RecoveryRan(w, h, from, s, ev, j, worked) && h <= later
    ensures RecoveryRan(w, later, from, s, ev, j, worked)
  {
    hide Launched, Looks, SceneAfter, RecoveryActions, AllVain, FirstToWork;
    GoesLater(w, h, later, from, s, ev, false);
    var k, actions, expected := Post(w, h, s, ev).value.next, RecoveryActions(FALLBACK, w.config),
      Expected(w, h, s, ev).value;
    PastStays(h, later, k);
    assert Expected(w, later, s, ev) == Expected(w, h, s, ev);
    if worked {
      var a :| FirstToWork(h, k, j, actions, expected, a);
      WorkedLater(h, later, k, j, actions, expected, a);
    } else {
      VainLater(h, later, k, j, actions, expected);
    }
  }

  lemma RecoveryHasSlip(w: World, h: History, from: nat, s: ExecutionStep, ev: Evidence, j: nat, worked: bool)
    requires RecoveryRan(w, h, from, s, ev, j, worked)
    ensures Goes(w, h, from, s, ev, false)
  {
  }

  lemma JudgesLater(w: World, h: History, later: History, from: nat, s: ExecutionStep, ev: Evidence, ok: bool, k: nat)
    requires Judges(w, h, from, s, ev, ok, k) && h <= later
    ensures Judges(w, later, from, s, ev, ok, k)
  {
    hide Launched, RecoveryRan, SceneAfter, Looks, LooksAgain, Goes, Post;
    if again: nat :| JudgesAgain(w, h, from, s, ev, again, ok, k) {
      AgainLater(w, h, later, from, s, ev, again);
      assert JudgesAgain(w, later, from, s, ev, again, ok, k);
    } else {
      RecoveryLater(w, h, later, from, s, ev, k, false);
      RecoveryHasSlip(w, h, from, s, ev, k, false);
      GoesLater(w, h, later, from, s, ev, false);
    }
  }

  lemma AgainLater(w: World, h: History, later: History, from: nat, s: ExecutionStep, ev: Evidence, again: nat)
    requires LooksAgain(w, h, from, s, ev, again) && Snaps(h, ev.start) && h <= later
    ensures LooksAgain(w, later, from, s, ev, again) && Snaps(later, ev.start) && Snaps(later, again)
    ensures SceneAfter(later, ev.start, again) == SceneAfter(h, ev.start, again)
    ensures Again(w, h, s, ev, again).Some? ==> Again(w, later, s, ev, again) == Again(w, h, s, ev, again)
  {
    hide RecoveryRan;
    var j: nat :| RecoveryRan(w, h, from, s, ev, j, true) && LooksAtOnce(h, j, again);
    RecoveryLater(w, h, later, from, s, ev, j, true);
    LooksLater(h, later, j, again);
    if Again(w, h, s, ev, again).Some? {
      CheckLater(w, SceneAfter(h, ev.start, again), s.postconditions, h, later, again + 1);
    }
  }

  lemma StallsLater(w: World, h: History, later: History, from: nat, m: Machine)
    requires m.AtStep() && Stalls(w, h, from, m) && h <= later
    ensures Stalls(w, later, from, m)
  {
    hide Stuck;
    var k :| from <= k <= |h| && Stuck(w, h[..k], from, m.Step(), LastAttempt(m));
    PastStays(h, later, k);
  }
}
