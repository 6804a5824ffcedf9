/** What the evidence of an attempt means: exactly when an attempt throws a stale observation, and what a clean and
    a recovered pass say (src/application/services/plan-executor.service.ts:163-227). */
module AttemptLaws {
  import opened Domain
  import opened PlanPatches
  import opened PlanRuns
  import opened Locators
  import opened Harness
  import opened StepServices
  import opened Attempts
  import opened PlanExecutor
  import opened RecoveryLaws
  import opened Stages

  // ----- what the errors mean

  /** A lookup on the map of the observation fails only because the element is not there, an expansion only
      because a key or an expression is unknown. */
  lemma LookupErrors(w: World, into: Option<PlanAction>, obs: Observation)
    requires CannotResolve(w, into, obs)
    ensures into.Some? ==> LookupError(w, into, obs) == LocatorNotFound
  {
    if into.Some? {
      FreshRetarget(w.tm, obs, into.value);
    }
  }

  /** An attempt throws a stale observation exactly when its outcome was just judged again after a recovery that
      worked, on an observation with another id, and its first postcondition names an element. */
  lemma StaleExactlyAfterRecovery(w: World, h: History, from: nat, m: Machine)
    requires m.AtStep() && from <= |h|
    ensures Throws(w, h, from, m, StaleObservation) <==> exists ev, again: nat, ok ::
      JudgesAgain(w, h, from, m.Step(), ev, again, ok, |h|) && Undescribable(w, h, m.Step(), ev, again)
  {
    hide LooksAgain, BreaksOff, Launched, SceneAfter, Bound, Undescribable, Check, StateOf, Looks;
    var s := m.Step();
    assert h[..|h|] == h;
    if ev, again: nat, ok :| JudgesAgain(w, h, from, s, ev, again, ok, |h|) && Undescribable(w, h, s, ev, again) {
      DescriptionIsStaleExactly(w, h, from, s, ev, again, ok, |h|);
      assert Judges(w, h, from, s, ev, ok, |h|);
      assert DescriptionFails(w, h, from, s, StaleObservation);
    }
    if Throws(w, h, from, m, StaleObservation) {
      NeverLostAsStale(w, h, from, s);
      ChecksAreNeverStale(w, h, from, s);
      SlipsAreNeverStale(w, h, from, s);
      assert DescriptionFails(w, h, from, s, StaleObservation);
      var ev, ok :| Judges(w, h, from, s, ev, ok, |h|) && Snaps(h, ev.seen)
        && Bound(w, StateOf(h), h[ev.seen].of, FirstOf(s.postconditions)) == Thrown(StaleObservation);
      if again: nat :| JudgesAgain(w, h, from, s, ev, again, ok, |h|) {
        DescriptionIsStaleExactly(w, h, from, s, ev, again, ok, |h|);
      } else {
        RecoveryKeeps(w, h, from, s, ev, |h|, false);
        FreshBinding(w, StateOf(h), h[ev.seen].of, FirstOf(s.postconditions));
      }
    }
  }

  /** The page mapped at the slip can be bound to without being stale, before recovery and without it. */
  lemma SlipsAreNeverStale(w: World, h: History, from: nat, s: ExecutionStep)
    ensures !ExpectationFails(w, h, from, s, StaleObservation) && !SummaryFails(w, h, from, s, StaleObservation)
  {
    hide Launched, StateOf, SceneAfter, Check, Bound;
    forall ev | Goes(w, h, from, s, ev, false) && Post(w, h, s, ev).value.next == |h|
      ensures Expected(w, h, s, ev) != Thrown(StaleObservation)
    {
      ChecksKeep(w, SceneAfter(h, ev.start, ev.seen), s.postconditions, h, ev.seen);
      FreshBinding(w, At(h, |h|), h[ev.seen].of, FirstOf(s.postconditions));
    }
    forall ev | Goes(w, h, from, s, ev, true) && Business(w, h, s, ev).Some? && Business(w, h, s, ev).value.next == |h|
      ensures Bound(w, StateOf(h), h[ev.seen].of, Subject(s, Business(w, h, s, ev).value.ok))
        != Thrown(StaleObservation)
    {
      ChecksKeep(w, SceneAfter(h, ev.start, ev.seen), s.postconditions, h, ev.seen);
      CheckOnlyValidates(w, SceneAfter(h, ev.start, ev.seen), s.assertions, h, Post(w, h, s, ev).value.next);
      QuietKeeps(h, Post(w, h, s, ev).value.next, |h|);
      assert h[..|h|] == h;
      FreshBinding(w, StateOf(h), h[ev.seen].of, Subject(s, Business(w, h, s, ev).value.ok));
    }
  }

  lemma BreaksOffFreshly(w: World, scene: Scene, cs: seq<Condition>, h: History, k: nat)
    requires scene.index == IndexOf(scene.obs)
    ensures !BreaksOff(w, scene, cs, h, k, StaleObservation)
  {
    hide Fault, Check;
    if BreaksOff(w, scene, cs, h, k, StaleObservation) {
      var i :| 0 <= i < |cs| && Check(w, scene, cs[..i], h, k) == Some(Verdict(true, |h|))
        && Fault(w, scene, cs[i]) == Some(StaleObservation);
      FreshFault(w, scene, cs[i]);
    }
  }

  /** Conditions are checked on the map of the page they are checked on. */
  lemma ChecksAreNeverStale(w: World, h: History, from: nat, s: ExecutionStep)
    ensures !ChecksBreakOff(w, h, from, s, StaleObservation)
  {
    hide BreaksOff, Launched, Check, LooksAgain, Looks, StateOf;
    forall scene: Scene, cs: seq<Condition>, k: nat | scene.index == IndexOf(scene.obs)
      ensures !BreaksOff(w, scene, cs, h, k, StaleObservation)
    {
      BreaksOffFreshly(w, scene, cs, h, k);
    }
  }

  lemma NeverLostAsStale(w: World, h: History, from: nat, s: ExecutionStep)
    ensures forall start: nat :: !LosesTarget(w, h, start, s, StaleObservation)
    ensures forall start: nat, k: nat :: k <= |h| ==> !Lost(w, h[..k], start, s, StaleObservation)
  {
    hide Retarget;
    forall start: nat | LosesTarget(w, h, start, s, StaleObservation)
      ensures false
    {
      var u, obs :| start < u < |h| - 1 && StateOf(h).mapped == Some(obs) && LosesOn(w, h, u, s, obs, StaleObservation);
      FreshRetarget(w.tm, obs, h[|h| - 1].into.value);
    }
    forall start: nat, k: nat | k <= |h| && Lost(w, h[..k], start, s, StaleObservation)
      ensures false
    {
      var past := h[..k];
      var u :| start < u < |past| - 1 && LostAt(w, past, u, s, StaleObservation);
      LookupErrors(w, past[u].into, past[|past| - 1].on);
    }
  }

  // ----- when every observation has an id of its own

  ghost predicate FreshIds(o: Outside) {
    forall t: nat, u: nat :: t < u && o.observed(t).Replied? && o.observed(u).Replied? ==>
      o.observed(t).value.observationId != o.observed(u).value.observationId
  }

  ghost predicate NamesElement(w: World, c: Condition) {
    forall store ::
      var e := w.templates.fillCondition(c, store);
      e.Some? ==> ConditionTarget(e.value).Some?
  }

  lemma PagesDiffer(w: World, h: History, from: nat, s: ExecutionStep, ev: Evidence, again: nat)
    requires Honest(w, h) && FreshIds(w.outside) && LooksAgain(w, h, from, s, ev, again)
    ensures Snaps(h, ev.seen) && Snaps(h, again) && h[ev.seen].of.observationId != h[again].of.observationId
  {
    hide StateOf, Launched, SceneAfter, Check, AllVain, FirstToWork, Expected, Warranted;
    var j: nat :| RecoveryRan(w, h, from, s, ev, j, true) && LooksAtOnce(h, j, again);
    var t :| ev.at <= t < |h[..ev.seen]| && h[..ev.seen][t] == Observed(Replied(h[ev.seen].of));
    var u :| j <= u < |h[..again]| && h[..again][u] == Observed(Replied(h[again].of));
    assert h[t] == Observed(Replied(h[ev.seen].of)) && h[u] == Observed(Replied(h[again].of));
  }

  /** A step whose first postcondition names an element never passes, is retried or patched by a recovery that
      worked, as long as no two observations share an id: whatever verdict is on record after recovery was reached
      with recovery in vain. */
  lemma ElementStepsOnlyRecoverInVain(w: World, h: History, from: nat, s: ExecutionStep, ev: Evidence, ok: bool)
    requires Honest(w, h) && FreshIds(w.outside) && NamesElement(w, FirstOf(s.postconditions))
    requires Recovers(w, h, from, s, ev, ok)
    ensures exists k :: RecoveryRan(w, h, from, s, ev, k, false) && ok == Post(w, h, s, ev).value.ok
  {
    hide StateOf, Launched, SceneAfter, Check, LooksAgain, RecoveryRan, Honest, FreshIds;
    var k :| Judges(w, h, from, s, ev, ok, k)
      && Described(w, h, ev, k, FirstOf(s.postconditions)) && RecordedAt(h, k, s, ev, ok);
    if again: nat :| JudgesAgain(w, h, from, s, ev, again, ok, k) {
      PagesDiffer(w, h, from, s, ev, again);
      JudgedAgainOn(w, h, from, s, ev, again, ok, k);
      DescriptionIsStaleExactly(w, h, from, s, ev, again, ok, k);
      assert false;
    }
  }

  /** As long as no two observations share an id, a step whose first postcondition names an element passes with a slip
      only when its postconditions held at once although its action failed, and recovery was in vain. */
  lemma RecoveredElementStepsFailed(w: World, h: History, marks: seq<nat>, run: Run, i: nat)
    requires Honest(w, h) && FreshIds(w.outside) && Accounts(w, h, marks, run)
    requires i < |run.events| && run.events[i].Recovered? && run.states[i].AtStep()
    requires NamesElement(w, FirstOf(run.states[i].Step().postconditions))
    ensures var past, s, ev := h[..marks[i + 1]], run.states[i].Step(), run.events[i].evidence;
      && Goes(w, past, marks[i], s, ev, false) && Post(w, past, s, ev).value.ok && !past[ev.at].done.value.ok
      && exists k :: RecoveryRan(w, past, marks[i], s, ev, k, false)
  {
    hide Honest, FreshIds, RecoveryRan, Judges, Launched, Looks, Check, SceneAfter;
    var past, s, ev := h[..marks[i + 1]], run.states[i].Step(), run.events[i].evidence;
    assert Happened(w, past, marks[i], run.states[i], run.events[i]);
    HonestPast(w, h, marks[i + 1]);
    ElementStepsOnlyRecoverInVain(w, past, marks[i], s, ev, true);
  }

  // ----- what a pass means

  /** A pass is clean exactly when its action succeeded and its postconditions held at once; then all its
      business assertions were judged to hold. */
  lemma CleanExactlyWithoutSlip(w: World, h: History, from: nat, m: Machine, e: Event)
    requires m.AtStep() && (e.Clean? || e.Recovered?) && Justified(w, h, from, m, e)
    ensures e.Clean? <==> Goes(w, h, from, m.Step(), e.evidence, true)
    ensures e.Clean? ==>
      var v := Business(w, h, m.Step(), e.evidence);
      v.Some? && v.value.ok
      && AllJudged(w, SceneAfter(h, e.evidence.start, e.evidence.seen), m.Step().assertions, h,
                   Post(w, h, m.Step(), e.evidence).value.next, v.value.next)
  {
    hide Launched, Looks, Judges, AllJudged, SceneAfter;
    if e.Clean? {
      CheckMeans(w, SceneAfter(h, e.evidence.start, e.evidence.seen), m.Step().assertions, h,
                 Post(w, h, m.Step(), e.evidence).value.next);
    }
  }

  // ----- histories that show it

  /** A step slips, recovery works, and the page is looked at again: `before` and `after` are what the step's
      postcondition is bound to on the two pages. */
  datatype Story = Story(tm: TextModel, first: Observation, latest: Observation, state: Snapshot, post: Condition,
                         before: BoundExpected, after: BoundExpected)
  {
    /** The postcondition is for the browser to validate. */
    predicate Told() {
      && BindCondition(tm, IndexOf(first), first, post) == Ok(before)
      && BindCondition(tm, IndexOf(latest), latest, post) == Ok(after)
      && !post.RuntimeState? && !post.TextAnyVisible?
    }

    /** An obliging world that shows another page after recovery, and fails every action but recovery's. */
    function Stubborn(): World {
      var w := Obliging(tm, t => if t < 18 then first else latest, state);
      w.(outside := w.outside.(executed := (t: nat, a: QaAction) => Replied(ExecResult(a.Press?, true, None))))
    }

    /** How the executor puts the step on record. */
    function Record(): Call {
      Recorded(QaStep("save", first.observationId, WaitForStable(0, ""), AssertionResult(true, ""), false))
    }

    function Slipping(): ExecutionStep {
      ExecutionStep("save", "Save", [], WaitForStable(0, ""), [post], [UNMET], Recover, None, None, None)
    }

    /** What the executor does with such a step in such a world, call by call, up to the verdict. */
    function Trace(): (h: History)
      ensures |h| == 22
    {
      [ Began,
        Observed(Replied(first)), Mapped(first), Snapped(first, Replied(state)),
        Expanded(WaitForStable(0, ""), Some(WaitForStable(0, "")), map[]),
        Expanded(WaitForStable(0, ""), Some(WaitForStable(0, "")), map[]),
        Executed(Main, WaitForStable(0, ""), Replied(ExecResult(false, true, None))),
        Noted(AttemptRecord("waitForStable", Failed)),
        Settled(Replied(true)),
        Observed(Replied(first)), Mapped(first), Snapped(first, Replied(state)),
        Validated(before, Replied(AssertionResult(true, ""))),
        Executed(Fallback(FALLBACK), FALLBACK, Replied(ExecResult(true, true, None))),
        Noted(AttemptRecord("press", RecoveredAttempt)),
        Settled(Replied(true)),
        Observed(Replied(first)),
        Validated(before, Replied(AssertionResult(true, ""))),
        Observed(Replied(latest)), Mapped(latest), Snapped(latest, Replied(state)),
        Validated(after, Replied(AssertionResult(true, ""))) ]
    }
  }

  /** The evidence in the trace. */
  const SEEN: Evidence := Evidence(3, 6, 11)

  lemma StateInTrace(t: Story, i: nat)
    requires i <= 22
    ensures At(t.Trace(), i).store == map[]
    ensures 2 < i <= 19 ==> At(t.Trace(), i).mapped == Some(t.first)
    ensures i > 19 ==> At(t.Trace(), i).mapped == Some(t.latest)
  {
    hide StateOf;
    var h := t.Trace();
    assert h[2].Mapped?;
    if i <= 19 {
      StateWhileMapped(h, 19, t.first, i);
    } else {
      StateWhileMapped(h, 19, t.first, 19);
      assert h[..20] == h[..19] + [Mapped(t.latest)];
      Grows(h[..19], Mapped(t.latest));
      QuietKeeps(h, 20, i);
    }
  }

  lemma TraceIsHonest(t: Story)
    ensures Honest(t.Stubborn(), t.Trace())
  {
    hide StateOf, IsAnswer, Warranted;
    var w, h := t.Stubborn(), t.Trace();
    forall i | 0 <= i < 22
      ensures IsAnswer(w, At(h, i), i, h[i]) && Warranted(w, h[..i], h[i])
    {
      AnswersInTrace(t, i);
      TraceIsWarranted(t, i);
    }
  }

  lemma AnswersInTrace(t: Story, i: nat)
    requires i < 22
    ensures IsAnswer(t.Stubborn(), At(t.Trace(), i), i, t.Trace()[i])
  {
    hide StateOf;
    StateInTrace(t, i);
  }

  lemma TraceIsWarranted(t: Story, i: nat)
    requires i < 22
    ensures Warranted(t.Stubborn(), t.Trace()[..i], t.Trace()[i])
  {
    hide RecoveryActions;
    RecoveryActionsAreBounded(FALLBACK, t.Stubborn().config);
    if t.Trace()[i].Mapped? {
      assert t.Trace()[..i][i - 1] == Observed(Replied(t.Trace()[i].obs));
    }
  }

  /** The page was looked at where its states were taken. */
  lemma LooksInTrace(t: Story, from: nat, i: nat)
    requires (from, i) in {(1, 3), (6, 11), (18, 20)}
    ensures Looks(t.Trace(), from, i)
  {
    hide StateOf;
    StateInTrace(t, i);
    assert t.Trace()[..i][i - 2] == Observed(Replied(t.Trace()[i].of));
  }

  lemma LaunchedInTrace(t: Story)
    ensures Launched(t.Stubborn(), t.Trace(), 1, t.Slipping(), 3, 6)
  {
    hide StateOf, Looks;
    var w, h := t.Stubborn(), t.Trace();
    LooksInTrace(t, 1, 3);
    StateInTrace(t, 6);
    LooksIn(h, h[..6], 1, 3);
    assert h[..6][1] == Observed(Replied(t.first));
    assert Resolved(w, h[..6], t.Slipping(), t.first, WaitForStable(0, ""));
    assert Intended(w, h[..6], 1, 3, t.Slipping(), t.first, WaitForStable(0, ""));
  }

  /** A validation that succeeded is the verdict on the postcondition. */
  lemma PostIsValidated(t: Story, scene: Scene, e: BoundExpected, h: History, k: nat)
    requires t.Told() && BindCondition(t.tm, scene.index, scene.obs, t.post) == Ok(e)
    requires k < |h| && h[k] == Validated(e, Replied(AssertionResult(true, "")))
    ensures Check(t.Stubborn(), scene, [t.post], h, k) == Some(Verdict(true, k + 1))
  {
    hide BindCondition;
    assert [t.post][..0] == [];
  }

  lemma SlipsInTrace(t: Story)
    requires t.Told()
    ensures var w, h := t.Stubborn(), t.Trace();
      Goes(w, h, 1, t.Slipping(), SEEN, false) && Post(w, h, t.Slipping(), SEEN) == Some(Verdict(true, 13))
  {
    hide StateOf, Looks, Launched, Check, BindCondition;
    var h := t.Trace();
    LaunchedInTrace(t);
    LooksInTrace(t, 6, 11);
    PostIsValidated(t, SceneAfter(h, 3, 11), t.before, h, 12);
  }

  lemma RecoversInTrace(t: Story)
    requires t.Told()
    ensures RecoveryRan(t.Stubborn(), t.Trace(), 1, t.Slipping(), SEEN, 18, true)
  {
    hide StateOf, Goes, Post, RecoveryActions, BindCondition;
    var w, h := t.Stubborn(), t.Trace();
    SlipsInTrace(t);
    StateInTrace(t, 13);
    RecoveryActionsAreBounded(FALLBACK, w.config);
    assert Tried(h, 13, 18, FALLBACK, t.before, true);
    assert RecoveryActions(FALLBACK, w.config)[..0] == [];
    assert FirstToWork(h, 13, 18, RecoveryActions(FALLBACK, w.config), t.before, FALLBACK);
  }

  /** At the end of the trace the postcondition was judged to hold on the page looked at again. */
  lemma JudgedInTrace(t: Story)
    requires t.Told()
    ensures JudgesAgain(t.Stubborn(), t.Trace(), 1, t.Slipping(), SEEN, 20, true, 22)
  {
    hide StateOf, Looks, Goes, Post, RecoveryRan, Check, BindCondition;
    var h := t.Trace();
    RecoversInTrace(t);
    LooksInTrace(t, 18, 20);
    PostIsValidated(t, SceneAfter(h, 3, 20), t.after, h, 21);
  }

  /** A recovered pass can leave a business assertion of its step unmet: the action failed, recovery worked,
      the postconditions hold, and the assertion would be judged not to hold at any time. */
  lemma RecoveredPassCanBreakAnAssertion(obs: Observation, state: Snapshot, m: Machine)
    requires m.AtStep()
    requires m.Step() == Story(PlainText(), obs, obs, state, NoConsoleErrors, ConsoleClean, ConsoleClean).Slipping()
    ensures var t := Story(PlainText(), obs, obs, state, NoConsoleErrors, ConsoleClean, ConsoleClean);
      var w, h := t.Stubborn(), t.Trace() + [t.Record()];
      && Honest(w, h) && Justified(w, h, 1, m, Recovered(SEEN)) && UNMET in m.Step().assertions
      && forall k: nat :: CheckOne(w, SceneAfter(h, 3, 11), UNMET, h, k) == Some(Verdict(false, k))
  {
    hide StateOf, Honest, Recovers, Story.Trace, Story.Stubborn;
    var t := Story(PlainText(), obs, obs, state, NoConsoleErrors, ConsoleClean, ConsoleClean);
    RecordedInTrace(t);
    forall scene: Scene, h: History, k: nat
      ensures CheckOne(t.Stubborn(), scene, UNMET, h, k) == Some(Verdict(false, k))
    {
      StaysUnmet(t, scene, h, k);
    }
  }

  lemma StaysUnmet(t: Story, scene: Scene, h: History, k: nat)
    ensures CheckOne(t.Stubborn(), scene, UNMET, h, k) == Some(Verdict(false, k))
  {
  }

  /** With the step on record the attempt is over: it was a recovered pass. */
  lemma RecordedInTrace(t: Story)
    requires t.Told() && t.post.NoConsoleErrors?
    ensures var w, h := t.Stubborn(), t.Trace() + [t.Record()];
      Honest(w, h) && Recovers(w, h, 1, t.Slipping(), SEEN, true) && Snaps(h, 3) && Snaps(h, 11)
  {
    hide StateOf, Honest, JudgesAgain, Goes, RecoveryRan, Post;
    var w, h := t.Stubborn(), t.Trace();
    var longer := h + [t.Record()];
    TraceIsHonest(t);
    HonestlyGrows(w, h, t.Record());
    JudgedInTrace(t);
    SlipsInTrace(t);
    GoesLater(w, h, longer, 1, t.Slipping(), SEEN, false);
    JudgesLater(w, h, longer, 1, t.Slipping(), SEEN, true, 22);
    assert Described(w, longer, SEEN, 22, NoConsoleErrors) && RecordedAt(longer, 22, t.Slipping(), SEEN, true);
  }

  /** The stale observation is real: on any two pages that show the element a postcondition asks for, under
      different ids, recovery works, the postcondition is judged to hold, and the attempt throws. */
  lemma RecoveredStepCanBeStale(tm: TextModel, first: Observation, latest: Observation, state: Snapshot, loc: Locator,
                                m: Machine)
    returns (t: Story)
    requires Found(tm, first, loc) && Found(tm, latest, loc) && first.observationId != latest.observationId
    ensures t.first == first && t.latest == latest && t.post == ElementVisible(Some(loc), None)
    ensures var w, h := t.Stubborn(), t.Trace();
      && Honest(w, h) && JudgesAgain(w, h, 1, t.Slipping(), SEEN, 20, true, 22)
      && (m.AtStep() && m.Step() == t.Slipping() ==> Throws(w, h, 1, m, StaleObservation))
  {
    hide StateOf, Honest, JudgesAgain, Throws, BindCondition, Story.Trace, Story.Stubborn;
    var post := ElementVisible(Some(loc), None);
    BindingIsStaleExactly(tm, IndexOf(first), first, post);
    BindingIsStaleExactly(tm, IndexOf(latest), latest, post);
    t := Story(tm, first, latest, state, post, BindCondition(tm, IndexOf(first), first, post).value,
               BindCondition(tm, IndexOf(latest), latest, post).value);
    TraceIsHonest(t);
    JudgedInTrace(t);
    if m.AtStep() && m.Step() == t.Slipping() {
      StaleInTrace(t, m);
    }
  }

  lemma StaleInTrace(t: Story, m: Machine)
    requires t.Told() && t.first.observationId != t.latest.observationId && ConditionTarget(t.post).Some?
    requires m.AtStep() && m.Step() == t.Slipping()
    ensures Throws(t.Stubborn(), t.Trace(), 1, m, StaleObservation)
  {
    hide StateOf, JudgesAgain, Throws, BindCondition;
    JudgedInTrace(t);
    assert Undescribable(t.Stubborn(), t.Trace(), t.Slipping(), SEEN, 20);
    StaleExactlyAfterRecovery(t.Stubborn(), t.Trace(), 1, m);
  }
}
