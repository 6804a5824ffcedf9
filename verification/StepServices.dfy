/** The services an attempt is made of: opening containers until an element is available
    (src/application/services/element-availability-resolver.service.ts), bounded recovery
    (src/application/services/recovery-policy.service.ts), and the step runner's checks, bindings and
    replans (src/application/services/plan-step-runner.service.ts). */
module StepServices {
  import opened Domain
  import opened PlanPatches
  import opened Locators
  import opened Harness

  // ----- what happened

  /** What happened since leaves the element map alone and executes no action for itself. */
  ghost predicate Keeps(h: History, later: History) {
    h <= later && StateOf(later).mapped == StateOf(h).mapped && Mains(later) == Mains(h)
  }

  lemma KeepsNext(h: History, later: History, c: Call)
    requires Keeps(h, later) && !c.Mapped? && !IsMain(c)
    ensures Keeps(h, later + [c])
  {
    hide StateOf, Mains;
    Grows(later, c);
    MainsGrow(later, c);
  }

  /** What happened since leaves the run data alone, too. */
  ghost predicate Rests(h: History, later: History) {
    Keeps(h, later) && QuietFrom(later, |h|, |later|)
  }

  lemma RestsNext(h: History, later: History, c: Call)
    requires Rests(h, later) && Quiet(c) && !IsMain(c)
    ensures Rests(h, later + [c])
  {
    KeepsNext(h, later, c);
  }

  // ----- good weather

  /** The outside rejects nothing and the browser does whatever it is asked. */
  ghost predicate Willing(o: Outside) {
    && (forall t :: o.observed(t).Replied? && o.settled(t).Replied?)
    && (forall t, a :: o.executed(t, a).Replied? && o.executed(t, a).value.ok)
    && (forall t, e :: o.validated(t, e).Replied? && o.validated(t, e).value.ok)
    && (forall t, obs :: o.snapshots(t, obs).Replied?)
  }

  ghost predicate Offered(o: Outside, obs: Observation) {
    exists t :: o.observed(t) == Replied(obs)
  }

  // ----- availability

  datatype Availability = Availability(
    available: bool, observation: Observation, reobserved: bool, attempts: seq<AttemptRecord>)

  /** Opening containers ends without the target only when the attempts are used up, or no container can be
      opened from where the search ended. */
  predicate GaveUp(tm: TextModel, config: RunConfig, target: Locator, a: Availability) {
    || |a.attempts| == config.maxOpenAttempts
    || PickContainer(config, target).None?
    || OpenAction(tm, PickContainer(config, target).value.openAction, a.observation).None?
  }

  /** Every attempt was at opening the container picked for the target. */
  predicate OnlyOpens(config: RunConfig, target: Locator, attempts: seq<AttemptRecord>) {
    var container := PickContainer(config, target);
    forall a <- attempts :: container.Some? && a.actionType == container.value.openAction.TypeName()
  }

  /** What the attempts made since `h0` at opening the container led to: the page `current`, which is mapped. */
  ghost predicate Searched(w: World, h0: History, h: History, target: Locator, obs: Observation, current: Observation,
                           attempts: seq<AttemptRecord>) {
    && h0 <= h && Mains(h) == Mains(h0) && Sought(h, target) && Shown(h, 0, current)
    && OnlyOpens(w.config, target, attempts)
    && if attempts == [] then current == obs && h == h0
       else StateOf(h).mapped == Some(current) && Shown(h, |h0|, current)
  }

  lemma SearchGoesOn(w: World, h0: History, h: History, later: History, target: Locator, obs: Observation,
                     current: Observation, attempts: seq<AttemptRecord>, record: AttemptRecord, next: Observation)
    requires Searched(w, h0, h, target, obs, current, attempts) && h < later && Mains(later) == Mains(h)
    requires StateOf(later).mapped == Some(next) && Shown(later, |h|, next)
    requires var container := PickContainer(w.config, target);
      container.Some? && record.actionType == container.value.openAction.TypeName()
    ensures Searched(w, h0, later, target, obs, next, attempts + [record])
  {
    hide StateOf, Mains, PickContainer;
    StillSought(h, later, |h0|, target, next);
  }

  class ElementAvailabilityResolver {
    const session: Session

    constructor (session: Session)
      ensures this.session == session
    {
      this.session := session;
    }

    /** Execute the action that opens the container picked for the target, wait, and observe what it led to. */
    method Open(target: Locator, on: Observation, action: QaAction) returns (r: Outcome<(AttemptRecord, Observation)>)
      requires session.Valid() && Opens(session.world, session.calls, target, on, action)
      modifies session`calls, session.locators
      ensures session.Valid() && old(session.calls) < session.calls && Mains(session.calls) == Mains(old(session.calls))
      ensures var reply := session.world.outside.executed(|old(session.calls)|, action);
        && session.calls[|old(session.calls)|] == Executed(Opening(target, on), action, reply)
        && (r.Ok? ==> reply.Replied?)
        && (r.Ok? ==> r.value.0 == AttemptRecord(action.TypeName(), if reply.value.ok then Passed else Failed))
      ensures r.Ok? ==>
        StateOf(session.calls).mapped == Some(r.value.1) && Shown(session.calls, |old(session.calls)|, r.value.1)
      ensures r.Thrown? ==> JustRejected(session.calls, r.error)
    {
      hide StateOf, Mains, Session.Valid, Opens;
      var h0 := session.calls;
      var exec := session.Execute(Opening(target, on), action);
      MainsGrow(h0, session.calls[|h0|]);
      if exec.Thrown? {
        return Thrown(exec.error);
      }
      var h1 := session.calls;
      var _ := session.WaitForQuiescence();
      MainsGrow(h1, session.calls[|h1|]);
      var h2 := session.calls;
      var current := session.Observe();
      MainsGrow(h2, session.calls[|h2|]);
      if current.Thrown? {
        return Thrown(current.error);
      }
      var h3 := session.calls;
      assert h3[|h2|] == Observed(Replied(current.value));
      session.Map(current.value);
      MainsGrow(h3, Mapped(current.value));
      Grows(h3, Mapped(current.value));
      assert session.calls[|h2|] == Observed(Replied(current.value));
      return Ok((AttemptRecord(action.TypeName(), if exec.value.ok then Passed else Failed), current.value));
    }

    /** Open containers, observing after each, until the target is there: the answer says exactly
        whether the returned observation shows it, at most `maxOpenAttempts` actions are made, and the
        element map follows the observation that is returned. */
    method EnsureAvailable(target: Locator, obs: Observation) returns (r: Outcome<Availability>)
      requires session.Valid() && Sought(session.calls, target) && Shown(session.calls, 0, obs)
      modifies session`calls, session.locators
      ensures session.Valid() && old(session.calls) <= session.calls
      ensures Mains(session.calls) == Mains(old(session.calls))
      ensures r.Ok? ==> (r.value.available <==> Found(session.world.tm, r.value.observation, target))
      ensures r.Ok? ==> |r.value.attempts| <= session.world.config.maxOpenAttempts
      ensures r.Ok? ==> OnlyOpens(session.world.config, target, r.value.attempts)
      ensures r.Ok? ==> (r.value.reobserved <==> r.value.attempts != [])
      ensures r.Ok? && !r.value.reobserved ==> r.value.observation == obs && session.calls == old(session.calls)
      ensures r.Ok? && r.value.reobserved ==> StateOf(session.calls).mapped == Some(r.value.observation)
      ensures r.Ok? && r.value.reobserved ==> Shown(session.calls, |old(session.calls)|, r.value.observation)
      ensures Found(session.world.tm, obs, target) ==> r == Ok(Availability(true, obs, false, []))
      ensures !Found(session.world.tm, obs, target) && !session.world.config.availabilityEnabled ==>
        r == Ok(Availability(false, obs, false, []))
      ensures r.Ok? && !r.value.available && session.world.config.availabilityEnabled ==>
        GaveUp(session.world.tm, session.world.config, target, r.value)
      ensures |session.calls| > |old(session.calls)| ==> session.calls[|old(session.calls)|].Executed?
      ensures r.Thrown? ==> JustRejected(session.calls, r.error) && |session.calls| > |old(session.calls)|
    {
      hide Found, OpenAction, PickContainer, StateOf, Mains, JustRejected, Shown, Session.Valid, Sought, Opens;
      var w := session.world;
      if Found(w.tm, obs, target) {
        return Ok(Availability(true, obs, false, []));
      }
      if !w.config.availabilityEnabled {
        return Ok(Availability(false, obs, false, []));
      }
      var current, attempts := obs, [];
      ghost var h0 := session.calls;
      for i := 0 to w.config.maxOpenAttempts
        invariant session.Valid() && |attempts| == i && !Found(w.tm, current, target)
        invariant Searched(w, h0, session.calls, target, obs, current, attempts)
        invariant |session.calls| > |h0| ==> session.calls[|h0|].Executed?
      {
        var container := PickContainer(w.config, target);
        if container.None? {
          break;
        }
        var action := OpenAction(w.tm, container.value.openAction, current);
        if action.None? {
          break;
        }
        ghost var h := session.calls;
        MayOpen(w, h, target, current, container.value, action.value);
        var after :- Open(target, current, action.value);
        SearchGoesOn(w, h0, h, session.calls, target, obs, current, attempts, after.0, after.1);
        attempts, current := attempts + [after.0], after.1;
        if Found(w.tm, current, target) {
          return Ok(Availability(true, current, true, attempts));
        }
      }
      return Ok(Availability(false, current, attempts != [], attempts));
    }
  }

  lemma MayOpen(w: World, past: History, target: Locator, on: Observation, container: Container, action: QaAction)
    requires w.config.availabilityEnabled && Sought(past, target) && Shown(past, 0, on) && !Found(w.tm, on, target)
    requires PickContainer(w.config, target) == Some(container)
    requires OpenAction(w.tm, container.openAction, on) == Some(action)
    ensures Opens(w, past, target, on, action)
  {
  }

  lemma StillSought(h: History, later: History, from: nat, target: Locator, obs: Observation)
    requires Sought(h, target) && h <= later && from <= |h| && Shown(later, |h|, obs)
    ensures Sought(later, target) && Shown(later, from, obs) && Shown(later, 0, obs)
  {
    var u :| 0 <= u < |h| && h[u].Expanded? && h[u].into.Some? && h[u].into.value.Target() == Some(target);
    assert later[u] == h[u];
  }

  lemma GivenLater(h: History, later: History, given: QaAction)
    requires Given(h, given) && h <= later
    ensures Given(later, given)
  {
    if Bare(given) != Bare(ESCAPE) {
      var u :| 0 <= u < |h| && h[u].Proposed? && h[u].envelope.Replied? && h[u].envelope.value.fallback == given;
      assert later[u] == h[u];
    }
  }

  // ----- recovery

  lemma {:induction false} UniqueIsPart(actions: seq<QaAction>, seen: set<QaAction>)
    ensures var r := Unique(actions, seen);
      |r| <= |actions| && forall a <- r :: Bare(a) !in seen && a in actions
  {
    hide Bare;
    if actions != [] {
      var bare, rest := Bare(actions[0]), actions[1..];
      assert forall a <- rest :: a in actions;
      UniqueIsPart(rest, if bare in seen then seen else seen + {bare});
    }
  }

  /** The actions that are kept are all different, whatever their reasons. */
  lemma {:induction false} UniqueIsDistinct(actions: seq<QaAction>, seen: set<QaAction>, i: nat, j: nat)
    requires i < j < |Unique(actions, seen)|
    ensures Bare(Unique(actions, seen)[i]) != Bare(Unique(actions, seen)[j])
  {
    hide Bare;
    var bare, rest := Bare(actions[0]), actions[1..];
    if bare in seen {
      UniqueIsDistinct(rest, seen, i, j);
    } else {
      var others := Unique(rest, seen + {bare});
      assert Unique(actions, seen) == [actions[0]] + others;
      if i > 0 {
        UniqueIsDistinct(rest, seen + {bare}, i - 1, j - 1);
      } else {
        UniqueIsPart(rest, seen + {bare});
        assert others[j - 1] in others;
      }
    }
  }

  /** Recovery tries the given fallback first, never the same action twice, and no more actions than
      the two budgets together allow. */
  lemma RecoveryActionsAreBounded(fallback: QaAction, config: RunConfig)
    ensures var r := RecoveryActions(fallback, config);
      && |r| <= 4 && |r| <= config.maxFallbacks + config.maxEmergencyActions
      && (config.maxFallbacks + config.maxEmergencyActions > 0 ==> r != [] && r[0] == fallback)
      && forall i, j :: 0 <= i < j < |r| ==> Bare(r[i]) != Bare(r[j])
  {
    var actions := [fallback, ESCAPE, ClickOutside("default recovery outside click"),
                    WaitForStable(config.quiescenceMs, "default recovery wait for stable UI")];
    UniqueIsPart(actions, {});
    assert Unique(actions, {})[0] == fallback;
    forall i, j | 0 <= i < j < |Unique(actions, {})|
      ensures Bare(Unique(actions, {})[i]) != Bare(Unique(actions, {})[j])
    {
      UniqueIsDistinct(actions, {}, i, j);
    }
  }

  /** From `i` up to `j` one recovery action was executed and after it the expectation validated, with nothing
      mapped or stored; `worked` says whether both succeeded. */
  predicate Tried(h: History, i: nat, j: nat, a: QaAction, expected: BoundExpected, worked: bool) {
    && i + 1 < j <= |h| && QuietFrom(h, i, j)
    && h[i].Executed? && h[i].purpose.Fallback? && h[i].action == a && h[i].done.Replied?
    && h[j - 1].Validated? && h[j - 1].expected == expected && h[j - 1].verdict.Replied?
    && worked == (h[i].done.value.ok && h[j - 1].verdict.value.ok)
  }

  /** From `i` up to `j` the actions were tried one after the other, each in vain. */
  ghost predicate AllVain(h: History, i: nat, j: nat, actions: seq<QaAction>, expected: BoundExpected) {
    if actions == [] then i == j else
    exists m: nat :: LastVain(h, m, j, actions, expected) && AllVain(h, i, m, actions[..|actions| - 1], expected)
  }

  predicate LastVain(h: History, m: nat, j: nat, actions: seq<QaAction>, expected: BoundExpected)
    requires actions != []
  {
    Tried(h, m, j, actions[|actions| - 1], expected, false)
  }

  /** From `i` up to `j` the actions were tried until one worked, and it is `a`. */
  ghost predicate FirstToWork(h: History, i: nat, j: nat, actions: seq<QaAction>, expected: BoundExpected,
                              a: QaAction) {
    exists k: nat, m: nat ::
      k < |actions| && actions[k] == a && AllVain(h, i, m, actions[..k], expected) && Tried(h, m, j, a, expected, true)
  }

  lemma {:induction false} VainLater(h: History, later: History, i: nat, j: nat, actions: seq<QaAction>,
                                     expected: BoundExpected)
    requires AllVain(h, i, j, actions, expected) && h <= later && i <= |h|
    ensures AllVain(later, i, j, actions, expected) && i <= j <= |h|
    decreases |actions|
  {
    if actions != [] {
      var n := |actions| - 1;
      var m: nat :| LastVain(h, m, j, actions, expected) && AllVain(h, i, m, actions[..n], expected);
      VainLater(h, later, i, m, actions[..n], expected);
      assert LastVain(later, m, j, actions, expected);
    }
  }

  lemma WorkedLater(h: History, later: History, i: nat, j: nat, actions: seq<QaAction>, expected: BoundExpected,
                    a: QaAction)
    requires FirstToWork(h, i, j, actions, expected, a) && h <= later && i <= |h|
    ensures FirstToWork(later, i, j, actions, expected, a) && i <= j <= |h|
  {
    var k: nat, m: nat :|
      k < |actions| && actions[k] == a && AllVain(h, i, m, actions[..k], expected) && Tried(h, m, j, a, expected, true);
    VainLater(h, later, i, m, actions[..k], expected);
    assert Tried(later, m, j, a, expected, true);
  }

  lemma OneMoreVain(h: History, i: nat, m: nat, j: nat, actions: seq<QaAction>, k: nat, expected: BoundExpected)
    requires k < |actions| && AllVain(h, i, m, actions[..k], expected) && Tried(h, m, j, actions[k], expected, false)
    ensures AllVain(h, i, j, actions[..k + 1], expected)
  {
    assert actions[..k + 1][..k] == actions[..k];
    assert LastVain(h, m, j, actions[..k + 1], expected);
  }

  /** The page last shown since `from`, or the one before. */
  function LastShown(h: History, from: nat, before: Option<Observation>): Option<Observation> {
    if |h| <= from then before
    else if h[|h| - 1].Observed? && h[|h| - 1].shown.Replied? then Some(h[|h| - 1].shown.value)
    else LastShown(h[..|h| - 1], from, before)
  }

  lemma {:induction false} LastShownChains(h: History, later: History, from: nat, before: Option<Observation>)
    requires h <= later && from <= |h|
    ensures LastShown(later, from, before) == LastShown(later, |h|, LastShown(h, from, before))
  {
    if |later| == |h| {
      assert later == h;
    } else {
      LastShownChains(h, later[..|later| - 1], from, before);
    }
  }

  lemma OneMoreCall(h: History, c: Call, from: nat, before: Option<Observation>)
    requires from <= |h|
    ensures LastShown(h + [c], from, before)
      == if c.Observed? && c.shown.Replied? then Some(c.shown.value) else LastShown(h, from, before)
  {
    assert (h + [c])[..|h|] == h;
  }

  lemma NothingShownYet(h: History, h1: History, h2: History, h3: History, h4: History, before: Option<Observation>)
    requires |h1| == |h| + 1 && |h2| == |h| + 2 && |h3| == |h| + 3 && |h4| == |h| + 4 && h <= h1 <= h2 <= h3 <= h4
    requires h4[|h|].Executed? && h4[|h| + 1].Noted? && h4[|h| + 2].Settled? && h4[|h| + 3].Observed?
    ensures LastShown(h4, |h|, before)
      == if h4[|h| + 3].shown.Replied? then Some(h4[|h| + 3].shown.value) else before
  {
    assert h1 == h + [h4[|h|]] && h2 == h1 + [h4[|h| + 1]] && h3 == h2 + [h4[|h| + 2]] && h4 == h3 + [h4[|h| + 3]];
    OneMoreCall(h, h4[|h|], |h|, before);
    OneMoreCall(h1, h4[|h| + 1], |h|, before);
    OneMoreCall(h2, h4[|h| + 2], |h|, before);
    OneMoreCall(h3, h4[|h| + 3], |h|, before);
  }

  /** A recovery action leaves its attempt, a wait and a look at the page. */
  function ActLeaves(a: QaAction, given: QaAction, done: Reply<ExecResult>, stable: Reply<bool>,
                     shown: Reply<Observation>): History
    requires done.Replied?
  {
    var result := if done.value.ok then RecoveredAttempt else Failed;
    [Executed(Fallback(given), a, done), Noted(AttemptRecord(a.TypeName(), result)), Settled(stable), Observed(shown)]
  }

  /** It is noted when what was looked at is as it was before, although the action was not to wait. */
  ghost function NoteOf(w: World, a: QaAction, before: Option<Observation>, shown: Reply<Observation>): History {
    if before.Some? && shown.Replied? && !w.judge.differs(before.value, shown.value) && !a.WaitForStable?
    then [Noted(AttemptRecord("recovery-observe", Failed))] else []
  }

  ghost predicate ActedSo(w: World, h: History, later: History, a: QaAction, given: QaAction,
                          before: Option<Observation>, done: Reply<ExecResult>) {
    done.Replied? && exists stable, shown ::
      later == h + ActLeaves(a, given, done, stable, shown)
        + NoteOf(w, a, before, shown)
  }

  lemma JustActed(w: World, h: History, later: History, a: QaAction, given: QaAction, before: Option<Observation>,
                  done: Reply<ExecResult>, stable: Reply<bool>, shown: Reply<Observation>)
    requires done.Replied? && h + ActLeaves(a, given, done, stable, shown) <= later
    requires later[|h| + 4..] == NoteOf(w, a, before, shown)
    ensures ActedSo(w, h, later, a, given, before, done)
  {
    assert later == h + ActLeaves(a, given, done, stable, shown) + later[|h| + 4..];
  }

  class RecoveryPolicy {
    const session: Session

    constructor (session: Session)
      ensures this.session == session
    {
      this.session := session;
    }

    /** Execute one recovery action, wait, and observe; it is noted when that changed nothing. */
    method Act(a: QaAction, before: Option<Observation>, given: QaAction)
      returns (r: Outcome<(bool, Option<Observation>)>)
      requires session.Valid() && MayExecute(session.world, session.calls, Fallback(given), a)
      modifies session`calls, session`attempts
      ensures session.Valid() && Rests(old(session.calls), session.calls) && old(session.attempts) <= session.attempts
      ensures |session.attempts| <= |old(session.attempts)| + 2 && |session.calls| > |old(session.calls)|
      ensures var reply := session.world.outside.executed(|old(session.calls)|, a);
        && session.calls[|old(session.calls)|] == Executed(Fallback(given), a, reply)
        && (r.Ok? ==> reply.Replied? && r.value.0 == reply.value.ok)
        && (r.Ok? ==> ActedSo(session.world, old(session.calls), session.calls, a, given, before, reply))
      ensures r.Ok? ==> r.value.1 == LastShown(session.calls, |old(session.calls)|, before)
      ensures r.Thrown? ==> JustRejected(session.calls, r.error)
    {
      hide StateOf, Mains, Rests, Session.Valid, MayExecute, LastShown, NoteOf, ActedSo;
      ghost var h0 := session.calls;
      RestsNow(h0);
      var exec := session.Execute(Fallback(given), a);
      ghost var h1 := session.calls;
      RestsNext(h0, h0, h1[|h0|]);
      if exec.Thrown? {
        return Thrown(exec.error);
      }
      session.Note(AttemptRecord(a.TypeName(), if exec.value.ok then RecoveredAttempt else Failed));
      ghost var h2 := session.calls;
      RestsNext(h0, h1, h2[|h1|]);
      var stable := session.WaitForQuiescence();
      ghost var h3 := session.calls;
      RestsNext(h0, h2, h3[|h2|]);
      if stable.Thrown? {
        return Thrown(stable.error);
      }
      var after := session.Observe();
      ghost var h4 := session.calls;
      RestsNext(h0, h3, h4[|h3|]);
      NothingShownYet(h0, h1, h2, h3, h4, before);
      Compare(a, before, h4[|h3|].shown, after, h0);
      assert h4 == h0 + ActLeaves(a, given, h1[|h0|].done, h3[|h2|].stable, h4[|h3|].shown);
      JustActed(session.world, h0, session.calls, a, given, before, h1[|h0|].done, h3[|h2|].stable, h4[|h3|].shown);
      return Ok((exec.value.ok, if after.Ok? then Some(after.value) else before));
    }

    /** Note that a recovery action changed nothing of what is observed. */
    method Compare(a: QaAction, before: Option<Observation>, ghost shown: Reply<Observation>,
                   after: Outcome<Observation>, ghost from: History)
      requires session.Valid() && after == shown.ToOutcome()
      requires from <= session.calls && Rests(from, session.calls)
      modifies session`calls, session`attempts
      ensures session.Valid() && Rests(from, session.calls)
      ensures session.calls == old(session.calls) + NoteOf(session.world, a, before, shown)
      ensures old(session.attempts) <= session.attempts && |session.attempts| <= |old(session.attempts)| + 1
      ensures LastShown(session.calls, |from|, before) == LastShown(old(session.calls), |from|, before)
    {
      hide StateOf, Mains, Rests, Session.Valid, LastShown;
      ghost var h := session.calls;
      if before.Some? && after.Ok? && !session.world.judge.differs(before.value, after.value) && !a.WaitForStable? {
        session.Note(AttemptRecord("recovery-observe", Failed));
        RestsNext(from, h, session.calls[|h|]);
        OneMoreCall(h, session.calls[|h|], |from|, before);
      }
    }

    /** One recovery action, and the expectation validated after it. */
    method TryAction(a: QaAction, expected: BoundExpected, before: Option<Observation>, given: QaAction)
      returns (r: Outcome<(bool, Option<Observation>)>)
      requires session.Valid() && MayExecute(session.world, session.calls, Fallback(given), a)
      modifies session`calls, session`attempts
      ensures session.Valid() && Keeps(old(session.calls), session.calls) && old(session.attempts) <= session.attempts
      ensures |session.attempts| <= |old(session.attempts)| + 2
      ensures r.Ok? ==> Tried(session.calls, |old(session.calls)|, |session.calls|, a, expected, r.value.0)
      ensures r.Ok? ==> r.value.1 == LastShown(session.calls, |old(session.calls)|, before)
      ensures r.Thrown? ==> JustRejected(session.calls, r.error) && |session.calls| > |old(session.calls)|
    {
      hide StateOf, Mains, Keeps, MayExecute, Session.Valid;
      ghost var h0 := session.calls;
      var acted := Act(a, before, given);
      ghost var h := session.calls;
      KeepsPast(h0, h);
      if acted.Thrown? {
        return Thrown(acted.error);
      }
      var validation := session.Validate(expected);
      KeepsNext(h0, h, session.calls[|h|]);
      if validation.Thrown? {
        return Thrown(validation.error);
      }
      return Ok((acted.value.0 && validation.value.ok, acted.value.1));
    }

    /** Try the recovery actions in turn until one succeeds and the expectation is validated after it: the
        one returned is the first that worked, and `None` says that all were tried in vain. */
    method Recover(expected: BoundExpected, fallback: QaAction, before: Option<Observation>)
      returns (r: Outcome<Option<QaAction>>)
      requires session.Valid() && Given(session.calls, fallback)
      modifies session`calls, session`attempts
      ensures session.Valid() && Keeps(old(session.calls), session.calls) && old(session.attempts) <= session.attempts
      ensures var actions := RecoveryActions(fallback, session.world.config);
        && |session.attempts| <= |old(session.attempts)| + 2 * |actions|
        && (r.Ok? && r.value.Some? ==>
              FirstToWork(session.calls, |old(session.calls)|, |session.calls|, actions, expected, r.value.value))
        && (r.Ok? && r.value.None? ==> AllVain(session.calls, |old(session.calls)|, |session.calls|, actions, expected))
      ensures r.Thrown? ==> JustRejected(session.calls, r.error) && |session.calls| > |old(session.calls)|
    {
      hide RecoveryActions, StateOf, Mains, Keeps, Tried, JustRejected, Given;
      var actions := RecoveryActions(fallback, session.world.config);
      var last := before;
      ghost var began := |session.calls|;
      KeepsItself(session.calls);
      for i := 0 to |actions|
        invariant session.Valid() && Keeps(old(session.calls), session.calls) && began <= |session.calls|
        invariant old(session.attempts) <= session.attempts && |session.attempts| <= |old(session.attempts)| + 2 * i
        invariant AllVain(session.calls, began, |session.calls|, actions[..i], expected)
        invariant Given(session.calls, fallback) && last == LastShown(session.calls, began, before)
      {
        ghost var h := session.calls;
        var tried := TryAction(actions[i], expected, last, fallback);
        KeepsOn(old(session.calls), h, session.calls);
        KeepsPast(h, session.calls);
        GivenLater(h, session.calls, fallback);
        if tried.Thrown? {
          return Thrown(tried.error);
        }
        VainLater(h, session.calls, began, |h|, actions[..i], expected);
        if tried.value.0 {
          assert FirstToWork(session.calls, began, |session.calls|, actions, expected, actions[i]);
          return Ok(Some(actions[i]));
        }
        OneMoreVain(session.calls, began, |h|, |session.calls|, actions, i, expected);
        LastShownChains(h, session.calls, began, before);
        last := tried.value.1;
      }
      assert actions[..|actions|] == actions;
      return Ok(None);
    }
  }

  lemma RestsNow(h: History)
    ensures Rests(h, h)
  {
  }

  lemma KeepsItself(h: History)
    ensures Keeps(h, h)
  {
  }

  lemma KeepsPast(h: History, later: History)
    requires Keeps(h, later)
    ensures h <= later && |h| <= |later|
  {
  }

  lemma KeepsOn(h: History, middle: History, later: History)
    requires Keeps(h, middle) && Keeps(middle, later)
    ensures Keeps(h, later)
  {
  }

  // ----- conditions

  /** Everything a condition is judged on. */
  datatype Scene = Scene(index: LocatorIndex, obs: Observation, before: Snapshot, after: Option<Snapshot>, store: Store)

  /** Conditions that need no browser call: by the network log, the runtime state, or the visible texts. */
  function Offline(w: World, e: Condition, obs: Observation, before: Snapshot,
                   after: Option<Snapshot>): Option<AssertionResult> {
    if e.NetworkState? && w.judge.network(e, obs).Some? then
      Some(AssertionResult(w.judge.network(e, obs).value, "network_state"))
    else if e.RuntimeState? then Some(AssertionResult(w.judge.runtime(e, obs, before, after), e.kind))
    else if e.TextAnyVisible? then Some(AssertionResult(exists text <- e.texts :: w.judge.hasText(obs, text),
                                                        "text_any_visible"))
    else None
  }

  /** Binding a condition with the given run data and element map. */
  function BoundIn(w: World, index: LocatorIndex, store: Store, obs: Observation,
                   c: Condition): Outcome<BoundExpected> {
    var e :- Obtained(w.templates.fillCondition(c, store));
    BindCondition(w.tm, index, obs, e)
  }

  /** The verdict on some conditions, and what happened up to it: the next call is not part of it. */
  datatype Verdict = Verdict(ok: bool, next: nat)

  /** The verdict on one condition by what happened from `k` on: by the network log, by the runtime state, by
      the visible texts, or by the browser validating the condition bound to the observation, for which it is
      expanded once more. */
  function CheckOne(w: World, scene: Scene, c: Condition, h: History, k: nat): (v: Option<Verdict>)
    ensures v.Some? ==> k <= v.value.next && (k <= |h| ==> v.value.next <= |h|)
  {
    var e := w.templates.fillCondition(c, scene.store);
    if e.None? then None else
    var offline := Offline(w, e.value, scene.obs, scene.before, scene.after);
    if offline.Some? then Some(Verdict(offline.value.ok, k)) else
    var bound := BoundIn(w, scene.index, scene.store, scene.obs, e.value);
    if bound.Thrown? || k >= |h| || !h[k].Validated? || h[k].expected != bound.value || h[k].verdict.Rejected? then None
    else Some(Verdict(h[k].verdict.value.ok, k + 1))
  }

  /** The condition is decided without the browser, and this is how: by the network log where it can tell, by the state
      of the run, or by whether some of several texts is shown. */
  ghost predicate DecidedOffline(w: World, scene: Scene, e: Condition, ok: bool) {
    match e
    case NetworkState(_, _) => w.judge.network(e, scene.obs) == Some(ok)
    case RuntimeState(_, _, _) => ok == w.judge.runtime(e, scene.obs, scene.before, scene.after)
    case TextAnyVisible(texts) => ok <==> exists text <- texts :: w.judge.hasText(scene.obs, text)
    case _ => false
  }

  /** The bound condition claims what the condition says once it is expanded again, of the element its locator finds
      on the observation. */
  ghost predicate ClaimsOf(w: World, scene: Scene, e: Condition, b: BoundExpected) {
    var again := w.templates.fillCondition(e, scene.store);
    && again.Some? && SameClaim(again.value, b)
    && (ConditionTarget(again.value).Some? ==>
          && BoundElement(b).Some? && BoundElement(b).value.observationId == scene.obs.observationId
          && FindByLocator(w.tm, scene.obs, ConditionTarget(again.value).value)
             == Ok(BoundElement(b).value.originalElementId))
  }

  ghost predicate ValidatedThen(w: World, scene: Scene, e: Condition, h: History, k: nat, v: Verdict) {
    && k < |h| && h[k].Validated? && h[k].verdict.Replied? && ClaimsOf(w, scene, e, h[k].expected)
    && v == Verdict(h[k].verdict.value.ok, k + 1)
  }

  /** A verdict is that of the first means that applies: decided offline nothing happens, and else the browser
      validated just then what the condition claims. */
  lemma VerdictExactly(w: World, scene: Scene, c: Condition, h: History, k: nat)
    requires CheckOne(w, scene, c, h, k).Some?
    ensures w.templates.fillCondition(c, scene.store).Some?
    ensures var v, e := CheckOne(w, scene, c, h, k).value, w.templates.fillCondition(c, scene.store).value;
      if DecidedOffline(w, scene, e, true) || DecidedOffline(w, scene, e, false)
      then DecidedOffline(w, scene, e, v.ok) && v.next == k
      else ValidatedThen(w, scene, e, h, k, v)
  {
    var e := w.templates.fillCondition(c, scene.store).value;
    var again := w.templates.fillCondition(e, scene.store);
    hide FindByLocator;
    if Offline(w, e, scene.obs, scene.before, scene.after).None? && again.Some? {
      BindingKeepsClaim(w.tm, scene.index, scene.obs, again.value);
    }
  }

  /** The verdict on conditions checked in order, up to the first that does not hold. */
  function Check(w: World, scene: Scene, cs: seq<Condition>, h: History, k: nat): (v: Option<Verdict>)
    ensures v.Some? ==> k <= v.value.next && (k <= |h| ==> v.value.next <= |h|)
  {
    if cs == [] then Some(Verdict(true, k)) else
    var v := Check(w, scene, cs[..|cs| - 1], h, k);
    if v.None? || !v.value.ok then v else CheckOne(w, scene, cs[|cs| - 1], h, v.value.next)
  }

  /** What the verdict means: every condition was judged to hold, or the last one judged was not and all
      before it were. */
  lemma {:induction false} CheckMeans(w: World, scene: Scene, cs: seq<Condition>, h: History, k: nat)
    requires Check(w, scene, cs, h, k).Some?
    ensures var v := Check(w, scene, cs, h, k).value;
      if v.ok then AllJudged(w, scene, cs, h, k, v.next)
      else exists i :: 0 <= i < |cs|
             && JudgedTo(w, scene, cs[i], h, k, v.next, false) && AllJudged(w, scene, cs[..i], h, k, v.next)
  {
    if cs != [] {
      var n, v := |cs| - 1, Check(w, scene, cs, h, k).value;
      CheckMeans(w, scene, cs[..n], h, k);
      var first := Check(w, scene, cs[..n], h, k).value;
      if first.ok {
        assert CheckOne(w, scene, cs[n], h, first.next) == Some(v);
        assert JudgedTo(w, scene, cs[n], h, k, v.next, v.ok);
        forall j | 0 <= j < n
          ensures JudgedTo(w, scene, cs[j], h, k, v.next, true)
        {
          assert JudgedTo(w, scene, cs[..n][j], h, k, first.next, true);
        }
        assert v.ok || AllJudged(w, scene, cs[..n], h, k, v.next);
      } else {
        var i :| 0 <= i < |cs[..n]| && JudgedTo(w, scene, cs[..n][i], h, k, v.next, false)
          && AllJudged(w, scene, cs[..n][..i], h, k, v.next);
        assert cs[..n][i] == cs[i] && cs[..n][..i] == cs[..i];
      }
    }
  }

  ghost predicate AllJudged(w: World, scene: Scene, cs: seq<Condition>, h: History, k: nat, next: nat) {
    forall i :: 0 <= i < |cs| ==> JudgedTo(w, scene, cs[i], h, k, next, true)
  }

  /** Somewhere from `k` up to `next` the condition was judged. */
  ghost predicate JudgedTo(w: World, scene: Scene, c: Condition, h: History, k: nat, next: nat, ok: bool) {
    exists i: nat :: k <= i <= next && CheckOne(w, scene, c, h, i).Some?
      && CheckOne(w, scene, c, h, i).value.ok == ok && CheckOne(w, scene, c, h, i).value.next <= next
  }

  lemma {:induction false} FailureStays(w: World, scene: Scene, cs: seq<Condition>, i: nat, h: History, k: nat)
    requires i <= |cs| && Check(w, scene, cs[..i], h, k).Some? && !Check(w, scene, cs[..i], h, k).value.ok
    ensures Check(w, scene, cs, h, k) == Check(w, scene, cs[..i], h, k)
    decreases |cs|
  {
    if i < |cs| {
      assert cs[..|cs| - 1][..i] == cs[..i];
      FailureStays(w, scene, cs[..|cs| - 1], i, h, k);
    } else {
      assert cs[..i] == cs;
    }
  }

  lemma {:induction false} CheckLater(w: World, scene: Scene, cs: seq<Condition>, h: History, later: History, k: nat)
    requires Check(w, scene, cs, h, k).Some? && h <= later
    ensures Check(w, scene, cs, later, k) == Check(w, scene, cs, h, k)
    decreases |cs|
  {
    if cs != [] {
      hide BindCondition, Offline;
      CheckLater(w, scene, cs[..|cs| - 1], h, later, k);
    }
  }

  /** Whatever the run data, the condition can be expanded, and once more, its element is in the observation, and
      what is judged without the browser holds. */
  ghost predicate Fits(w: World, c: Condition, obs: Observation) {
    forall store :: var e := w.templates.fillCondition(c, store); e.Some? && IsMet(w, store, e.value, obs)
  }

  lemma FitsIsJudged(w: World, c: Condition, obs: Observation, store: Store, before: Snapshot, after: Option<Snapshot>)
    requires Fits(w, c, obs)
    ensures var e := w.templates.fillCondition(c, store);
      && e.Some? && BoundIn(w, IndexOf(obs), store, obs, e.value).Ok?
      && (Offline(w, e.value, obs, before, after).Some? ==> Offline(w, e.value, obs, before, after).value.ok)
  {
    hide BindCondition, ConditionTarget, Found;
    var e := w.templates.fillCondition(c, store);
    assert e.Some? && IsMet(w, store, e.value, obs);
    BindingIsStaleExactly(w.tm, IndexOf(obs), obs, w.templates.fillCondition(e.value, store).value);
  }

  predicate HasTarget(tm: TextModel, obs: Observation, e: Condition) {
    ConditionTarget(e).None? || Found(tm, obs, ConditionTarget(e).value)
  }

  ghost predicate IsMet(w: World, store: Store, e: Condition, obs: Observation) {
    && HasTarget(w.tm, obs, e) && w.templates.fillCondition(e, store).Some?
    && HasTarget(w.tm, obs, w.templates.fillCondition(e, store).value)
    && forall before, after :: Offline(w, e, obs, before, after).Some? ==> Offline(w, e, obs, before, after).value.ok
  }

  ghost predicate AllFit(w: World, conditions: seq<Condition>, obs: Observation) {
    forall c <- conditions :: Fits(w, c, obs)
  }

  // ----- binding

  function Bound(w: World, s: State, obs: Observation, c: Condition): Outcome<BoundExpected> {
    BoundIn(w, MapOf(s.mapped), s.store, obs, c)
  }

  /** Why a condition cannot be judged on a scene: it cannot be expanded, or not be bound. */
  function Fault(w: World, scene: Scene, c: Condition): Option<Error> {
    var e := w.templates.fillCondition(c, scene.store);
    if e.None? then Some(DynamicData)
    else if Offline(w, e.value, scene.obs, scene.before, scene.after).Some? then None
    else
      var bound := BoundIn(w, scene.index, scene.store, scene.obs, e.value);
      if bound.Thrown? then Some(bound.error) else None
  }

  /** Checking the conditions from `k` on just broke off: those before one were judged to hold, up to the end, and
      that one cannot be judged. */
  ghost predicate BreaksOff(w: World, scene: Scene, cs: seq<Condition>, h: History, k: nat, e: Error) {
    exists i :: 0 <= i < |cs| && Check(w, scene, cs[..i], h, k) == Some(Verdict(true, |h|))
      && Fault(w, scene, cs[i]) == Some(e)
  }

  /** On the map of the observation itself no condition is stale. */
  lemma FreshFault(w: World, scene: Scene, c: Condition)
    requires scene.index == IndexOf(scene.obs)
    ensures Fault(w, scene, c) != Some(StaleObservation)
  {
    hide BindCondition;
    var e := w.templates.fillCondition(c, scene.store);
    if e.Some? && w.templates.fillCondition(e.value, scene.store).Some? {
      BindingIsStaleExactly(w.tm, scene.index, scene.obs, w.templates.fillCondition(e.value, scene.store).value);
    }
  }

  /** Nothing but validations happens while conditions are checked. */
  lemma {:induction false} CheckOnlyValidates(w: World, scene: Scene, cs: seq<Condition>, h: History, k: nat)
    requires k <= |h| && Check(w, scene, cs, h, k).Some?
    ensures forall i :: k <= i < Check(w, scene, cs, h, k).value.next ==> h[i].Validated?
  {
    hide BoundIn, Offline;
    if cs != [] {
      CheckOnlyValidates(w, scene, cs[..|cs| - 1], h, k);
    }
  }

  /** On the map of the observation itself binding is never stale. */
  lemma FreshBinding(w: World, s: State, obs: Observation, c: Condition)
    requires s.mapped == Some(obs)
    ensures Bound(w, s, obs, c) != Thrown(StaleObservation)
    ensures Bound(w, s, obs, c).Thrown? ==> Bound(w, s, obs, c).error in {DynamicData, LocatorNotFound}
    ensures Fits(w, c, obs) ==> Bound(w, s, obs, c).Ok?
  {
    var e := w.templates.fillCondition(c, s.store);
    if e.Some? {
      BindingIsStaleExactly(w.tm, IndexOf(obs), obs, e.value);
    }
  }

  /** A text-any condition is checked by all its texts but bound to the first: recovery and the browser are after
      what is checked exactly when the first text is shown or none of the others is. */
  lemma TextAnyIsItsFirstExactly(w: World, s: State, obs: Observation, c: Condition, texts: seq<string>,
                                 before: Snapshot, after: Option<Snapshot>)
    requires w.templates.fillCondition(c, s.store) == Some(TextAnyVisible(texts)) && texts != []
    ensures Bound(w, s, obs, c) == Ok(TextShows(texts[0]))
    ensures var checked := Offline(w, TextAnyVisible(texts), obs, before, after);
      checked.Some? && (checked.value.ok == w.judge.hasText(obs, texts[0])
        <==> w.judge.hasText(obs, texts[0]) || forall text <- texts[1..] :: !w.judge.hasText(obs, text))
  {
    assert texts == [texts[0]] + texts[1..];
  }

  /** So a condition can be judged to hold while recovery is after a text that is not shown. */
  lemma RecoveryCanBeAfterAnotherText(w: World, s: State, obs: Observation, shown: string, missing: string,
                                      before: Snapshot, after: Option<Snapshot>)
    requires w.judge.hasText(obs, shown) && !w.judge.hasText(obs, missing)
    requires w.templates.fillCondition(TextAnyVisible([missing, shown]), s.store)
      == Some(TextAnyVisible([missing, shown]))
    ensures Offline(w, TextAnyVisible([missing, shown]), obs, before, after)
      == Some(AssertionResult(true, "text_any_visible"))
    ensures Bound(w, s, obs, TextAnyVisible([missing, shown])) == Ok(TextShows(missing))
  {
    assert shown in [missing, shown];
  }

  ghost predicate Useless(w: World, plan: ExecutionPlan, reply: Reply<PlanPatch>) {
    reply.Rejected? || !Accepted(w.config.rules, plan, reply.value)
  }

  /** Why a plan is not patched: its mode or the budget forbids it, or the provider, asked since `from`, gave
      nothing that could be applied. */
  ghost predicate NoPatch(w: World, h: History, from: nat, plan: ExecutionPlan, replans: nat) {
    || plan.mode == PlanAndExecute
    || replans >= plan.runtime.maxReplansPerScenario
    || !w.outside.replans
    || exists t :: from <= t < |h| && h[t].Asked? && h[t].plan == plan && Useless(w, plan, h[t].proposal)
  }

  ghost predicate Offers(h: History, from: nat, plan: ExecutionPlan, patch: PlanPatch) {
    exists t :: from <= t < |h| && h[t] == Asked(plan, Replied(patch))
  }

  class PlanStepRunner {
    const session: Session
    const availability: ElementAvailabilityResolver
    const recovery: RecoveryPolicy

    constructor (session: Session)
      ensures this.session == session && Wired()
    {
      this.session := session;
      availability := new ElementAvailabilityResolver(session);
      recovery := new RecoveryPolicy(session);
    }

    /** All services work in one session. */
    ghost predicate Wired() {
      availability.session == session && recovery.session == session
    }

    method Observe() returns (r: Outcome<Observation>)
      requires session.Valid()
      modifies session`calls, session.locators
      ensures session.Valid()
      ensures r.Ok? ==> session.calls == old(session.calls) + [Observed(Replied(r.value)), Mapped(r.value)]
      ensures r.Ok? ==> StateOf(session.calls).mapped == Some(r.value) && Offered(session.world.outside, r.value)
      ensures r.Thrown? ==> JustRejected(session.calls, r.error) && |session.calls| == |old(session.calls)| + 1
      ensures old(session.calls) <= session.calls && Mains(session.calls) == Mains(old(session.calls))
      ensures Willing(session.world.outside) ==> r.Ok?
    {
      hide StateOf, Mains;
      var h0 := session.calls;
      var obs := session.Observe();
      MainsGrow(h0, session.calls[|h0|]);
      if obs.Thrown? {
        return Thrown(obs.error);
      }
      assert session.world.outside.observed(|h0|) == Replied(obs.value);
      var h1 := session.calls;
      session.Map(obs.value);
      MainsGrow(h1, Mapped(obs.value));
      Grows(h1, Mapped(obs.value));
      return Ok(obs.value);
    }

    function BoundCondition(c: Condition, obs: Observation): Outcome<BoundExpected>
      reads session, session.locators
    {
      BoundIn(session.world, session.locators.Current(), session.store, obs, c)
    }

    /** Check the conditions in order up to the first that fails. */
    method CheckAll(conditions: seq<Condition>, obs: Observation, before: Snapshot, after: Option<Snapshot>)
      returns (r: Outcome<AssertionResult>)
      requires session.Valid()
      modifies session`calls
      ensures session.Valid() && Keeps(old(session.calls), session.calls)
      ensures var scene := Scene(session.locators.Current(), obs, before, after, session.store);
        r.Ok? ==>
          Check(session.world, scene, conditions, session.calls, |old(session.calls)|)
          == Some(Verdict(r.value.ok, |session.calls|))
      ensures var scene := Scene(session.locators.Current(), obs, before, after, session.store);
        r.Thrown? ==>
          || JustRejected(session.calls, r.error)
          || BreaksOff(session.world, scene, conditions, session.calls, |old(session.calls)|, r.error)
      ensures StateOf(old(session.calls)).mapped == Some(obs) && Willing(session.world.outside) ==>
        AllFit(session.world, conditions, obs) ==> r.Ok? && r.value.ok
    {
      hide Willing, Fits, StateOf, Mains, Keeps, CheckOne, Fault, JustRejected;
      ghost var w, k := session.world, |session.calls|;
      ghost var scene := Scene(session.locators.Current(), obs, before, after, session.store);
      KeepsItself(session.calls);
      for i := 0 to |conditions|
        invariant session.Valid() && Keeps(old(session.calls), session.calls)
        invariant Check(w, scene, conditions[..i], session.calls, k) == Some(Verdict(true, |session.calls|))
      {
        assert conditions[i] in conditions;
        ghost var h := session.calls;
        var result := Judge(conditions[i], obs, before, after);
        KeepsOn(old(session.calls), h, session.calls);
        KeepsPast(h, session.calls);
        KeepsMapped(old(session.calls), h);
        if result.Thrown? {
          return Thrown(result.error);
        }
        CheckLater(w, scene, conditions[..i], h, session.calls, k);
        assert conditions[..i + 1][..i] == conditions[..i] && conditions[..i + 1][i] == conditions[i];
        if !result.value.ok {
          FailureStays(w, scene, conditions, i + 1, session.calls, k);
          return Ok(result.value);
        }
      }
      assert conditions[..|conditions|] == conditions;
      return Ok(AssertionResult(true, "conditions"));
    }

    /** One condition is judged by the first means that applies. */
    method Judge(c: Condition, obs: Observation, before: Snapshot, after: Option<Snapshot>)
      returns (r: Outcome<AssertionResult>)
      requires session.Valid()
      modifies session`calls
      ensures session.Valid() && Keeps(old(session.calls), session.calls)
      ensures var scene := Scene(session.locators.Current(), obs, before, after, session.store);
        r.Ok? ==>
          CheckOne(session.world, scene, c, session.calls, |old(session.calls)|)
          == Some(Verdict(r.value.ok, |session.calls|))
      ensures r.Thrown? ==>
        || JustRejected(session.calls, r.error)
        || (session.calls == old(session.calls)
            && Fault(session.world, Scene(session.locators.Current(), obs, before, after, session.store), c)
              == Some(r.error))
      ensures StateOf(old(session.calls)).mapped == Some(obs) && Willing(session.world.outside) ==>
        Fits(session.world, c, obs) ==> r.Ok? && r.value.ok
    {
      hide BoundIn, StateOf, Mains, Keeps, JustRejected, Fits, Offline, Willing;
      var w := session.world;
      if Fits(w, c, obs) {
        FitsIsJudged(w, c, obs, session.store, before, after);
      }
      KeepsItself(session.calls);
      var e := w.templates.fillCondition(c, session.store);
      if e.None? {
        return Thrown(DynamicData);
      }
      var offline := Offline(w, e.value, obs, before, after);
      if offline.Some? {
        return Ok(offline.value);
      }
      r := ValidateBound(e.value, obs);
    }

    /** Bind an expanded condition to the observation, expanding it once more, and let the browser validate it. */
    method ValidateBound(e: Condition, obs: Observation) returns (r: Outcome<AssertionResult>)
      requires session.Valid()
      modifies session`calls
      ensures session.Valid() && Keeps(old(session.calls), session.calls)
      ensures var bound := BoundIn(session.world, session.locators.Current(), session.store, obs, e);
        && (bound.Thrown? ==> session.calls == old(session.calls) && r == Thrown(bound.error))
        && (bound.Ok? ==> exists reply ::
              session.calls == old(session.calls) + [Validated(bound.value, reply)] && r == reply.ToOutcome())
      ensures r.Thrown? ==>
        || JustRejected(session.calls, r.error)
        || BoundIn(session.world, session.locators.Current(), session.store, obs, e) == Thrown(r.error)
      ensures StateOf(old(session.calls)).mapped == Some(obs) && Willing(session.world.outside) ==>
        BoundIn(session.world, IndexOf(obs), session.store, obs, e).Ok? ==> r.Ok? && r.value.ok
    {
      hide BoundIn, StateOf, Mains, Keeps;
      KeepsItself(session.calls);
      var bound :- BoundCondition(e, obs);
      ghost var h := session.calls;
      r := session.Validate(bound);
      KeepsNext(h, h, session.calls[|h|]);
    }

    /** Resolve the action of a step against an observation; the expanded action is returned too. */
    method ResolveAction(a: PlanAction, obs: Observation)
      returns (r: Outcome<QaAction>, ghost expanded: Option<PlanAction>)
      requires session.Valid()
      modifies session`calls, session`store
      ensures session.Valid() && Keeps(old(session.calls), session.calls)
      ensures session.calls == old(session.calls) + [Expanded(a, expanded, session.store)]
      ensures (expanded, session.store)
        == ExpandAction(session.world.templates, a, old(session.store), |old(session.calls)|)
      ensures expanded.Some? ==> r == Retarget(session.world.tm, session.locators.Current(), obs, expanded.value)
      ensures expanded.None? ==> r == Thrown(DynamicData)
      ensures r.Ok? ==> SameDeed(expanded.value, r.value)
    {
      hide StateOf, Mains, Keeps, Retarget, SameDeed;
      ghost var h := session.calls;
      KeepsItself(h);
      var e := session.Expand(a);
      KeepsNext(h, h, session.calls[|h|]);
      expanded := e;
      if e.None? {
        return Thrown(DynamicData), expanded;
      }
      r := Retarget(session.world.tm, session.locators.Current(), obs, e.value);
      if r.Ok? {
        ResolvingKeepsDeed(session.world.tm, session.locators.Current(), obs, e.value);
      }
    }

    /** Expand the action, and make its target available if it has one. */
    method ActionTargetAvailable(a: PlanAction, obs: Observation)
      returns (r: Outcome<Availability>, ghost expanded: Option<PlanAction>)
      requires Wired() && session.Valid() && Shown(session.calls, 0, obs)
      modifies session`calls, session`store, session.locators
      ensures session.Valid() && old(session.calls) < session.calls && Mains(session.calls) == Mains(old(session.calls))
      ensures session.calls[|old(session.calls)|] == Expanded(a, expanded, session.store)
      ensures (expanded, session.store)
        == ExpandAction(session.world.templates, a, old(session.store), |old(session.calls)|)
      ensures expanded.None? ==> r == Thrown(DynamicData) && |session.calls| == |old(session.calls)| + 1
      ensures r.Thrown? && expanded.Some? ==> JustRejected(session.calls, r.error)
      ensures r.Ok? ==> expanded.Some? && (r.value.available <==>
        expanded.value.Target().Some? && Found(session.world.tm, r.value.observation, expanded.value.Target().value))
      ensures expanded.Some? && expanded.value.Target().Some? ==>
        Found(session.world.tm, obs, expanded.value.Target().value) ==>
        r == Ok(Availability(true, obs, false, []))
      ensures expanded.Some? && expanded.value.Target().None? ==> r == Ok(Availability(false, obs, false, []))
      ensures r.Ok? && !r.value.available && expanded.value.Target().Some? ==>
        session.world.config.availabilityEnabled ==>
        GaveUp(session.world.tm, session.world.config, expanded.value.Target().value, r.value)
      ensures r.Ok? && !r.value.reobserved ==> r.value.observation == obs && Keeps(old(session.calls), session.calls)
      ensures r.Ok? && r.value.reobserved ==> StateOf(session.calls).mapped == Some(r.value.observation)
      ensures r.Ok? && r.value.reobserved ==> Shown(session.calls, |old(session.calls)|, r.value.observation)
      ensures r.Ok? && r.value.attempts != [] ==> r.value.reobserved
      ensures var n := |old(session.calls)| + 1;
        |session.calls| > n ==> session.calls[n].Executed?
    {
      hide StateOf, Mains, Keeps, Found, GaveUp, Session.Valid, JustRejected, ExpandAction, Shown;
      ghost var h := session.calls;
      KeepsItself(h);
      var e := session.Expand(a);
      KeepsNext(h, h, session.calls[|h|]);
      MainsGrow(h, session.calls[|h|]);
      expanded := e;
      if e.None? {
        return Thrown(DynamicData), expanded;
      }
      if e.value.Target().None? {
        return Ok(Availability(false, obs, false, [])), expanded;
      }
      ShownLater(h, session.calls, 0, obs);
      assert Sought(session.calls, e.value.Target().value) by { assert session.calls[|h|].Expanded?; }
      r := availability.EnsureAvailable(e.value.Target().value, obs);
      if r.Ok? && r.value.reobserved {
        ShownEarlier(session.calls, |h| + 1, |h|, r.value.observation);
      }
    }

    /** Ask for a patch and apply it, unless the mode or the budget forbids it; whatever goes wrong is
        recorded and swallowed. */
    method TryReplan(plan: ExecutionPlan, stepId: string, replans: nat)
      returns (r: Option<PlanPatch>, plan': ExecutionPlan)
      requires session.Valid()
      modifies session`calls, session`patches
      ensures session.Valid() && Keeps(old(session.calls), session.calls)
      ensures r.Some? ==> plan.mode != PlanAndExecute && replans < plan.runtime.maxReplansPerScenario
      ensures r.Some? ==>
        && Accepted(session.world.config.rules, plan, r.value)
        && plan' == Edited(session.world.config.rules, plan, r.value)
      ensures r.Some? ==> Offers(session.calls, |old(session.calls)|, plan, r.value)
      ensures r.None? ==> plan' == plan && NoPatch(session.world, session.calls, |old(session.calls)|, plan, replans)
      ensures Applications(session.patches) == Applications(old(session.patches)) + (if r.Some? then 1 else 0)
    {
      hide StateOf, Mains, Keeps;
      var w := session.world;
      ghost var h0 := session.calls;
      KeepsItself(h0);
      plan' := plan;
      if plan.mode == PlanAndExecute || replans >= plan.runtime.maxReplansPerScenario {
        return None, plan;
      }
      var proposal := session.Ask(plan);
      ghost var h1 := session.calls;
      if w.outside.replans {
        KeepsNext(h0, h0, h1[|h0|]);
      }
      var applied := if proposal.Ok? then Apply(w.config.rules, plan, proposal.value) else Thrown(proposal.error);
      var entry := if applied.Ok? then PatchRecord(!applied.value.blocked, proposal.value.stepId)
                   else PatchRecord(false, Some(stepId));
      ApplicationsAppend(session.patches, entry);
      session.File(entry);
      KeepsNext(h0, h1, session.calls[|h1|]);
      if applied.Ok? && !applied.value.blocked {
        assert session.calls[|h0|] == Asked(plan, Replied(proposal.value));
        r, plan' := Some(proposal.value), applied.value.plan;
      } else {
        assert w.outside.replans ==> session.calls[|h0|].Asked? && Useless(w, plan, session.calls[|h0|].proposal);
        r := None;
      }
    }
  }

  lemma KeepsMapped(h: History, later: History)
    requires Keeps(h, later)
    ensures StateOf(later).mapped == StateOf(h).mapped
  {
  }

  /** How many entries of a patch history were applied. */
  function Applications(history: seq<PatchRecord>): nat {
    |Filter(history, (h: PatchRecord) => h.applied)|
  }

  lemma ApplicationsAppend(history: seq<PatchRecord>, entry: PatchRecord)
    ensures Applications(history + [entry]) == Applications(history) + (if entry.applied then 1 else 0)
  {
    FilterAppend(history, [entry], (h: PatchRecord) => h.applied);
    assert [entry][1..] == [];
  }
}
