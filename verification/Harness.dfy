/** The browser, the model provider, the element map, the run data and the growing result record, as the
    services see them. The browser and the provider are arbitrary: every answer they may give is fixed by
    scripts indexed with the time of the call, and nothing is assumed about the scripts. Whatever happens
    is written into a history, which is what the theorems speak about. */
module Harness {
  import opened ActionPolicy
  import opened Domain
  import opened PlanPatches
  import opened Locators

  datatype ExecResult = ExecResult(ok: bool, fast: bool, data: Option<string>)

  datatype Container = Container(semanticKey: string, openAction: PlanAction)

  /** The parts of the configuration the executor reads. `preferred` is the container the keyword
      table selects for a target, if any. */
  datatype RunConfig = RunConfig(
    allowedRoutes: seq<string>,
    availabilityEnabled: bool,
    maxOpenAttempts: nat,
    containers: seq<Container>,
    preferred: Locator -> Option<nat>,
    maxFallbacks: nat,
    maxEmergencyActions: nat,
    quiescenceMs: nat,
    rules: PatchRules)

  /** How conditions that need no browser call are judged; nothing is assumed about it. */
  datatype Judge = Judge(
    network: (Condition, Observation) -> Option<bool>,
    runtime: (Condition, Observation, Snapshot, Option<Snapshot>) -> bool,
    hasText: (Observation, string) -> bool,
    differs: (Observation, Observation) -> bool)

  /** Expansion of `{{...}}` expressions. An action that generates unique values expands differently
      each time and adds them to the run data; any other text depends on the run data only. `None`
      stands for the error raised for an unknown key or expression. */
  datatype Templates = Templates(
    generates: PlanAction -> bool,
    fill: (PlanAction, Store) -> Option<PlanAction>,
    generate: (PlanAction, Store, nat) -> (Option<PlanAction>, Store),
    fillCondition: (Condition, Store) -> Option<Condition>)

  function Obtained<T>(r: Option<T>): Outcome<T> {
    if r.Some? then Ok(r.value) else Thrown(DynamicData)
  }

  /** The action with its expressions expanded at a given time, and the run data afterwards. */
  function ExpandAction(t: Templates, a: PlanAction, store: Store, tick: nat): (Option<PlanAction>, Store) {
    if t.generates(a) then
      var (r, store') := t.generate(a, store, tick);
      (r, store')
    else (t.fill(a, store), store)
  }

  datatype ExpectedAfter =
    | AfterField(targetElementId: string, value: string)
    | AfterElement(element: Option<string>, shown: Option<string>)
    | AfterText(text: string)
    | AfterUrl(fragment: string)
    | AfterConsole

  /** What the provider answers when it is asked for the next action on an observation. */
  datatype Envelope = Envelope(observationId: string, action: QaAction, expected: ExpectedAfter, fallback: QaAction)

  /** Every answer the outside may give, by the time of the call. Nothing is assumed about it. */
  datatype Outside = Outside(
    observed: nat -> Reply<Observation>,
    executed: (nat, QaAction) -> Reply<ExecResult>,
    settled: nat -> Reply<bool>,
    validated: (nat, BoundExpected) -> Reply<AssertionResult>,
    snapshots: (nat, Observation) -> Reply<Snapshot>,
    audits: nat -> seq<string>,
    decisions: (nat, Observation) -> Reply<QaAction>,
    patches: (nat, ExecutionPlan) -> Reply<PlanPatch>,
    replans: bool,
    envelopes: (nat, Observation) -> Reply<Envelope>,
    refined: (nat, QaAction) -> Option<QaAction>,
    phrased: (nat, string) -> Option<string>,
    witnessed: nat -> Reply<()>)

  /** The parts of a run that are the same throughout. */
  datatype World = World(tm: TextModel, templates: Templates, judge: Judge, config: RunConfig, outside: Outside)

  datatype QaStep = QaStep(
    stepId: string, observationId: string, action: QaAction, validation: AssertionResult, failed: bool)

  datatype PatchRecord = PatchRecord(applied: bool, stepId: Option<string>)

  datatype Warning = Warning(stepId: string, message: string)

  // ----- what may be executed beside the actions of steps and decisions

  function PickContainer(config: RunConfig, target: Locator): Option<Container> {
    var k := config.preferred(target);
    if k.Some? && k.value < |config.containers| then Some(config.containers[k.value])
    else if config.containers != [] then Some(config.containers[0])
    else None
  }

  /** The action that opens a container, with its own target looked up in the observation; `None` when
      it has no target to click or the target is not there. */
  function OpenAction(tm: TextModel, a: PlanAction, obs: Observation): (r: Option<QaAction>)
    ensures r.Some? ==> r.value.TypeName() == a.TypeName()
  {
    if a.Target().None? then
      var r := Retarget(tm, IndexOf(obs), obs, a);
      if r.Ok? then Some(r.value) else None
    else
      var id := FindByLocator(tm, obs, a.Target().value);
      if id.Thrown? then None else
      match a
      case Click(_, reason) => Some(Click(id.value, reason))
      case Fill(_, payload, reason) => Some(Fill(id.value, payload, reason))
      case Select(_, payload, reason) => Some(Select(id.value, payload, reason))
      case Press(key, _, reason) => Some(Press(key, Some(id.value), reason))
      case AssertVisible(_, payload, reason) => Some(AssertVisible(Some(id.value), payload, reason))
      case _ => None
  }

  const ESCAPE: QaAction := Press("Escape", None, "default recovery escape")

  /** An action without its reason, which is what recovery compares actions by. */
  function Bare(a: QaAction): QaAction {
    a.(reason := "")
  }

  function Unique(actions: seq<QaAction>, seen: set<QaAction>): seq<QaAction> {
    if actions == [] then []
    else if Bare(actions[0]) in seen then Unique(actions[1..], seen)
    else [actions[0]] + Unique(actions[1..], seen + {Bare(actions[0])})
  }

  function RecoveryActions(fallback: QaAction, config: RunConfig): seq<QaAction> {
    var all := Unique([fallback, ESCAPE, ClickOutside("default recovery outside click"),
                       WaitForStable(config.quiescenceMs, "default recovery wait for stable UI")], {});
    var budget := config.maxFallbacks + config.maxEmergencyActions;
    if budget < |all| then all[..budget] else all
  }

  // ----- the history of a session

  /** Why an action is executed: to open a container for a target the page does not show, as the action of a
      step or a decision, or to recover, `given` being what the caller wants to be tried first. */
  datatype Purpose = Opening(target: Locator, on: Observation) | Main | Fallback(given: QaAction)

  /** Whatever happens in a session: calls to the outside with their replies, and changes of what is kept. */
  datatype Call =
    | Observed(shown: Reply<Observation>)
    | Mapped(obs: Observation)
    | Executed(purpose: Purpose, action: QaAction, done: Reply<ExecResult>)
    | Settled(stable: Reply<bool>)
    | Validated(expected: BoundExpected, verdict: Reply<AssertionResult>)
    | Snapped(of: Observation, state: Reply<Snapshot>)
    | Audited(messages: seq<string>)
    | Decided(on: Observation, decision: Reply<QaAction>)
    | Asked(plan: ExecutionPlan, proposal: Reply<PlanPatch>)
    | Proposed(on: Observation, envelope: Reply<Envelope>)
    | Expanded(asked: PlanAction, into: Option<PlanAction>, store: Store)
    | Refined(raw: QaAction, fine: Option<QaAction>)
    | Phrased(text: string, phrase: Option<string>)
    | Witnessed(kept: Reply<()>)
    | Stored(key: string, value: string)
    | Noted(record: AttemptRecord)
    | Recorded(step: QaStep)
    | Warned(warning: Warning)
    | Filed(entry: PatchRecord)
    | Began

  type History = seq<Call>

  /** What a session keeps: the observation its element map is of, the run data, and the result so far. */
  datatype State = State(
    mapped: Option<Observation>,
    store: Store,
    attempts: seq<AttemptRecord>,
    steps: seq<QaStep>,
    warnings: seq<Warning>,
    patches: seq<PatchRecord>)

  const NEW: State := State(None, map[], [], [], [], [])

  function After(s: State, c: Call): State {
    match c
    case Mapped(obs) => s.(mapped := Some(obs))
    case Expanded(_, _, store) => s.(store := store)
    case Stored(key, value) => s.(store := s.store[key := value])
    case Noted(record) => s.(attempts := s.attempts + [record])
    case Recorded(step) => s.(steps := s.steps + [step])
    case Warned(warning) => s.(warnings := s.warnings + [warning])
    case Filed(entry) => s.(patches := s.patches + [entry])
    case Began => s.(attempts := [], steps := [], warnings := [], patches := [])
    case _ => s
  }

  /** What a session keeps is determined by what happened in it. */
  function StateOf(h: History): State {
    if h == [] then NEW else After(StateOf(h[..|h| - 1]), h[|h| - 1])
  }

  function At(h: History, k: nat): State
    requires k <= |h|
  {
    StateOf(h[..k])
  }

  lemma Grows(h: History, c: Call)
    ensures StateOf(h + [c]) == After(StateOf(h), c)
  {
    assert (h + [c])[..|h|] == h;
  }

  /** The past does not change. */
  lemma PastStays(h: History, later: History, k: nat)
    requires h <= later && k <= |h|
    ensures later[..k] == h[..k] && At(later, k) == At(h, k)
  {
    assert later[..k] == h[..k];
  }

  /** What happens at a time is what the outside and the templates answer then. */
  predicate IsAnswer(w: World, s: State, t: nat, c: Call) {
    match c
    case Observed(shown) => shown == w.outside.observed(t)
    case Executed(_, action, done) => done == w.outside.executed(t, action)
    case Settled(stable) => stable == w.outside.settled(t)
    case Validated(expected, verdict) => verdict == w.outside.validated(t, expected)
    case Snapped(of, state) => state == w.outside.snapshots(t, of)
    case Audited(messages) => messages == w.outside.audits(t)
    case Decided(on, decision) => decision == w.outside.decisions(t, on)
    case Asked(plan, proposal) => w.outside.replans && proposal == w.outside.patches(t, plan)
    case Proposed(on, envelope) => envelope == w.outside.envelopes(t, on)
    case Expanded(asked, into, store) => (into, store) == ExpandAction(w.templates, asked, s.store, t)
    case Refined(raw, fine) => fine == w.outside.refined(t, raw)
    case Phrased(text, phrase) => phrase == w.outside.phrased(t, text)
    case Witnessed(kept) => kept == w.outside.witnessed(t)
    case _ => true
  }

  /** The browser showed the observation, at `from` or later. */
  ghost predicate Shown(h: History, from: nat, obs: Observation) {
    exists j :: from <= j < |h| && h[j] == Observed(Replied(obs))
  }

  /** The target is that of an action that was expanded. */
  ghost predicate Sought(past: History, target: Locator) {
    exists u :: 0 <= u < |past| && past[u].Expanded? && past[u].into.Some?
      && past[u].into.value.Target() == Some(target)
  }

  /** What recovery is given to try first is an escape, or what the provider proposed. */
  ghost predicate Given(past: History, given: QaAction) {
    || Bare(given) == Bare(ESCAPE)
    || exists u :: 0 <= u < |past| && past[u].Proposed? && past[u].envelope.Replied?
         && past[u].envelope.value.fallback == given
  }

  /** The container at `k` is the preferred one for the target, or the first where none of those configured is. */
  ghost predicate IsPicked(config: RunConfig, target: Locator, k: nat) {
    && k < |config.containers|
    && match config.preferred(target)
       case Some(j) => if j < |config.containers| then k == j else k == 0
       case None => k == 0
  }

  lemma PickedExactly(config: RunConfig, target: Locator)
    ensures PickContainer(config, target).None? <==> config.containers == []
    ensures forall k: nat :: IsPicked(config, target, k) ==>
      PickContainer(config, target) == Some(config.containers[k])
    ensures config.containers != [] ==> exists k: nat :: IsPicked(config, target, k)
  {
    if config.containers != [] {
      var j := config.preferred(target);
      assert IsPicked(config, target, if j.Some? && j.value < |config.containers| then j.value else 0);
    }
  }

  /** The action opens the container picked for a target that was sought and that the page shown lacks. */
  ghost predicate Opens(w: World, past: History, target: Locator, on: Observation, action: QaAction) {
    var container := PickContainer(w.config, target);
    && w.config.availabilityEnabled && Sought(past, target) && Shown(past, 0, on) && !Found(w.tm, on, target)
    && container.Some? && OpenAction(w.tm, container.value.openAction, on) == Some(action)
  }

  /** What an action may be executed for by what happened before. What is executed as the action of a step or a
      decision is for the services to justify. */
  ghost predicate MayExecute(w: World, past: History, purpose: Purpose, action: QaAction) {
    match purpose
    case Main => true
    case Opening(target, on) => Opens(w, past, target, on, action)
    case Fallback(given) => Given(past, given) && action in RecoveryActions(given, w.config)
  }

  /** Only a page that was shown is mapped, and nothing is executed beside the actions of steps and decisions but
      what opens a container or recovers. */
  ghost predicate Warranted(w: World, past: History, c: Call) {
    && (c.Mapped? ==> Shown(past, 0, c.obs))
    && (c.Executed? ==> MayExecute(w, past, c.purpose, c.action))
  }

  /** Nothing in a history is made up, or done without warrant. */
  ghost predicate Honest(w: World, h: History) {
    forall t :: 0 <= t < |h| ==> IsAnswer(w, At(h, t), t, h[t]) && Warranted(w, h[..t], h[t])
  }

  lemma HonestlyGrows(w: World, h: History, c: Call)
    requires Honest(w, h) && IsAnswer(w, StateOf(h), |h|, c) && Warranted(w, h, c)
    ensures Honest(w, h + [c]) && StateOf(h + [c]) == After(StateOf(h), c)
  {
    hide IsAnswer, StateOf, Warranted;
    var later := h + [c];
    assert later[..|h|] == h;
    Grows(h, c);
    forall t | 0 <= t < |later|
      ensures IsAnswer(w, At(later, t), t, later[t]) && Warranted(w, later[..t], later[t])
    {
      if t < |h| {
        PastStays(h, later, t);
      }
    }
  }

  lemma MainNeedsNoWarrant(w: World, past: History, action: QaAction)
    ensures MayExecute(w, past, Main, action)
  {
  }

  lemma MappingIsWarranted(w: World, h: History, t: nat)
    requires Honest(w, h) && t < |h| && h[t].Mapped?
    ensures Shown(h[..t], 0, h[t].obs)
  {
    hide IsAnswer, MayExecute, StateOf;
  }

  /** The past of an honest history is honest. */
  lemma HonestPast(w: World, h: History, n: nat)
    requires Honest(w, h) && n <= |h|
    ensures Honest(w, h[..n])
  {
    hide IsAnswer, Warranted, StateOf;
    forall t | 0 <= t < n
      ensures IsAnswer(w, At(h[..n], t), t, h[..n][t]) && Warranted(w, h[..n][..t], h[..n][t])
    {
      assert h[..n][..t] == h[..t] && h[..n][t] == h[t];
      assert IsAnswer(w, At(h, t), t, h[t]) && Warranted(w, h[..t], h[t]);
    }
  }

  lemma MappedAfter(s: State, c: Call)
    ensures After(s, c).mapped == if c.Mapped? then Some(c.obs) else s.mapped
  {
  }

  /** Whatever is mapped was shown. */
  lemma {:induction false} MappedWasShown(w: World, h: History)
    requires Honest(w, h) && StateOf(h).mapped.Some?
    ensures Shown(h, 0, StateOf(h).mapped.value)
    decreases |h|
  {
    hide Honest, After, Shown;
    var n := |h| - 1;
    MappedAfter(StateOf(h[..n]), h[n]);
    if h[n].Mapped? {
      MappingIsWarranted(w, h, n);
    } else {
      HonestPast(w, h, n);
      MappedWasShown(w, h[..n]);
    }
    ShownLater(h[..n], h, 0, StateOf(h).mapped.value);
  }

  lemma ShownEarlier(h: History, from: nat, earlier: nat, obs: Observation)
    requires Shown(h, from, obs) && earlier <= from
    ensures Shown(h, earlier, obs)
  {
  }

  lemma ShownLater(h: History, later: History, from: nat, obs: Observation)
    requires Shown(h, from, obs) && h <= later
    ensures Shown(later, from, obs)
  {
  }

  /** What does not change the element map or the run data. */
  predicate Quiet(c: Call) {
    !c.Mapped? && !c.Expanded? && !c.Stored?
  }

  predicate QuietFrom(h: History, i: nat, j: nat) {
    forall k :: i <= k < j && k < |h| ==> Quiet(h[k])
  }

  lemma {:induction false} QuietKeeps(h: History, i: nat, j: nat)
    requires i <= j <= |h| && QuietFrom(h, i, j)
    ensures At(h, j).mapped == At(h, i).mapped && At(h, j).store == At(h, i).store
  {
    if i < j {
      QuietKeeps(h, i, j - 1);
      assert h[..j][..j - 1] == h[..j - 1];
    }
  }

  function MapOf(mapped: Option<Observation>): LocatorIndex {
    if mapped.Some? then IndexOf(mapped.value) else LocatorIndex("", map[], map[])
  }

  /** How many actions were executed for themselves, not to open a container or to recover. */
  function Mains(h: History): nat {
    if h == [] then 0 else
    Mains(h[..|h| - 1]) + (if IsMain(h[|h| - 1]) then 1 else 0)
  }

  predicate IsMain(c: Call) {
    c.Executed? && c.purpose.Main?
  }

  lemma MainsGrow(h: History, c: Call)
    ensures Mains(h + [c]) == Mains(h) + (if IsMain(c) then 1 else 0)
  {
    assert (h + [c])[..|h|] == h;
  }

  lemma {:induction false} NoMainsSince(h: History, from: nat)
    requires from <= |h| && Mains(h) <= Mains(h[..from])
    ensures Mains(h) == Mains(h[..from]) && forall i :: from <= i < |h| ==> !IsMain(h[i])
  {
    if from == |h| {
      assert h[..from] == h;
    } else {
      var n := |h| - 1;
      assert h[..n][..from] == h[..from];
      MainsSince(h[..n], from);
      NoMainsSince(h[..n], from);
      assert forall i :: from <= i < n ==> h[..n][i] == h[i];
    }
  }

  lemma {:induction false} MainsSince(h: History, from: nat)
    requires from <= |h|
    ensures Mains(h[..from]) <= Mains(h)
  {
    if from == |h| {
      assert h[..from] == h;
    } else {
      assert h[..|h| - 1][..from] == h[..from];
      MainsSince(h[..|h| - 1], from);
    }
  }

  predicate Rejects(c: Call, message: string) {
    match c
    case Observed(Rejected(m)) => m == message
    case Executed(_, _, Rejected(m)) => m == message
    case Settled(Rejected(m)) => m == message
    case Validated(_, Rejected(m)) => m == message
    case Snapped(_, Rejected(m)) => m == message
    case Proposed(_, Rejected(m)) => m == message
    case Witnessed(Rejected(m)) => m == message
    case _ => false
  }

  /** The error is the rejection of the last call. */
  predicate JustRejected(h: History, e: Error) {
    e.Foreign? && h != [] && Rejects(h[|h| - 1], e.message)
  }

  /** The instruments of a run: the browser, the provider, the element map, the run data and the growing
      result. Every use of one is written down. */
  class Session {
    const world: World
    const locators: LocatorResolver
    var calls: History
    var store: Store
    var attempts: seq<AttemptRecord>
    var steps: seq<QaStep>
    var warnings: seq<Warning>
    var patches: seq<PatchRecord>

    constructor (world: World)
      ensures Valid() && this.world == world && calls == [] && fresh(locators)
    {
      this.world := world;
      locators := new LocatorResolver();
      calls, store, attempts, steps, warnings, patches := [], map[], [], [], [], [];
    }

    /** The history is what happened, and the fields hold what it says. */
    ghost predicate Valid()
      reads this, locators
    {
      hide StateOf, MapOf, Honest;
      var s := StateOf(calls);
      && locators.Current() == MapOf(s.mapped) && store == s.store
      && Honest(world, calls)
      && attempts == s.attempts && steps == s.steps && warnings == s.warnings && patches == s.patches
    }

    method Observe() returns (r: Outcome<Observation>)
      requires Valid()
      modifies this`calls
      ensures Valid() && calls == old(calls) + [Observed(world.outside.observed(|old(calls)|))]
      ensures r == world.outside.observed(|old(calls)|).ToOutcome()
    {
      hide StateOf, MapOf, Honest;
      var reply := world.outside.observed(|calls|);
      HonestlyGrows(world, calls, Observed(reply));
      calls := calls + [Observed(reply)];
      return reply.ToOutcome();
    }

    method Map(obs: Observation)
      requires Valid() && Shown(calls, 0, obs)
      modifies this`calls, locators
      ensures Valid() && calls == old(calls) + [Mapped(obs)]
    {
      hide StateOf, Honest, Shown;
      HonestlyGrows(world, calls, Mapped(obs));
      locators.Rebuild(obs);
      calls := calls + [Mapped(obs)];
    }

    method Execute(purpose: Purpose, a: QaAction) returns (r: Outcome<ExecResult>)
      requires Valid() && MayExecute(world, calls, purpose, a)
      modifies this`calls
      ensures Valid() && calls == old(calls) + [Executed(purpose, a, world.outside.executed(|old(calls)|, a))]
      ensures r == world.outside.executed(|old(calls)|, a).ToOutcome()
    {
      hide StateOf, MapOf, Honest, MayExecute;
      var reply := world.outside.executed(|calls|, a);
      HonestlyGrows(world, calls, Executed(purpose, a, reply));
      calls := calls + [Executed(purpose, a, reply)];
      return reply.ToOutcome();
    }

    method WaitForQuiescence() returns (r: Outcome<bool>)
      requires Valid()
      modifies this`calls
      ensures Valid() && calls == old(calls) + [Settled(world.outside.settled(|old(calls)|))]
      ensures r == world.outside.settled(|old(calls)|).ToOutcome()
    {
      hide StateOf, MapOf, Honest;
      var reply := world.outside.settled(|calls|);
      HonestlyGrows(world, calls, Settled(reply));
      calls := calls + [Settled(reply)];
      return reply.ToOutcome();
    }

    method Validate(e: BoundExpected) returns (r: Outcome<AssertionResult>)
      requires Valid()
      modifies this`calls
      ensures Valid() && calls == old(calls) + [Validated(e, world.outside.validated(|old(calls)|, e))]
      ensures r == world.outside.validated(|old(calls)|, e).ToOutcome()
    {
      hide StateOf, MapOf, Honest;
      var reply := world.outside.validated(|calls|, e);
      HonestlyGrows(world, calls, Validated(e, reply));
      calls := calls + [Validated(e, reply)];
      return reply.ToOutcome();
    }

    method Snap(obs: Observation) returns (r: Outcome<Snapshot>)
      requires Valid()
      modifies this`calls
      ensures Valid() && calls == old(calls) + [Snapped(obs, world.outside.snapshots(|old(calls)|, obs))]
      ensures r == world.outside.snapshots(|old(calls)|, obs).ToOutcome()
    {
      hide StateOf, MapOf, Honest;
      var reply := world.outside.snapshots(|calls|, obs);
      HonestlyGrows(world, calls, Snapped(obs, reply));
      calls := calls + [Snapped(obs, reply)];
      return reply.ToOutcome();
    }

    method Audit() returns (messages: seq<string>)
      requires Valid()
      modifies this`calls
      ensures Valid() && calls == old(calls) + [Audited(messages)]
      ensures messages == world.outside.audits(|old(calls)|)
    {
      hide StateOf, MapOf, Honest;
      messages := world.outside.audits(|calls|);
      HonestlyGrows(world, calls, Audited(messages));
      calls := calls + [Audited(messages)];
    }

    method Decide(obs: Observation) returns (r: Outcome<QaAction>)
      requires Valid()
      modifies this`calls
      ensures Valid() && calls == old(calls) + [Decided(obs, world.outside.decisions(|old(calls)|, obs))]
      ensures r == world.outside.decisions(|old(calls)|, obs).ToOutcome()
    {
      hide StateOf, MapOf, Honest;
      var reply := world.outside.decisions(|calls|, obs);
      HonestlyGrows(world, calls, Decided(obs, reply));
      calls := calls + [Decided(obs, reply)];
      return reply.ToOutcome();
    }

    /** A provider that cannot replan is not asked. */
    method Ask(plan: ExecutionPlan) returns (r: Outcome<PlanPatch>)
      requires Valid()
      modifies this`calls
      ensures Valid()
      ensures !world.outside.replans ==> calls == old(calls) && r == Thrown(ReplanUnavailable)
      ensures world.outside.replans ==>
        var reply := world.outside.patches(|old(calls)|, plan);
        calls == old(calls) + [Asked(plan, reply)] && r == reply.ToOutcome()
    {
      hide StateOf, MapOf, Honest;
      if !world.outside.replans {
        return Thrown(ReplanUnavailable);
      }
      var reply := world.outside.patches(|calls|, plan);
      HonestlyGrows(world, calls, Asked(plan, reply));
      calls := calls + [Asked(plan, reply)];
      return reply.ToOutcome();
    }

    method Propose(obs: Observation) returns (r: Outcome<Envelope>)
      requires Valid()
      modifies this`calls
      ensures Valid() && calls == old(calls) + [Proposed(obs, world.outside.envelopes(|old(calls)|, obs))]
      ensures r == world.outside.envelopes(|old(calls)|, obs).ToOutcome()
    {
      hide StateOf, MapOf, Honest;
      var reply := world.outside.envelopes(|calls|, obs);
      HonestlyGrows(world, calls, Proposed(obs, reply));
      calls := calls + [Proposed(obs, reply)];
      return reply.ToOutcome();
    }

    /** Expanding an action may add generated values to the run data, even when it then fails. */
    method Expand(a: PlanAction) returns (r: Option<PlanAction>)
      requires Valid()
      modifies this`calls, this`store
      ensures Valid() && calls == old(calls) + [Expanded(a, r, store)]
      ensures (r, store) == ExpandAction(world.templates, a, old(store), |old(calls)|)
    {
      hide StateOf, MapOf, Honest;
      var (expanded, store') := ExpandAction(world.templates, a, store, |calls|);
      HonestlyGrows(world, calls, Expanded(a, expanded, store'));
      r, store, calls := expanded, store', calls + [Expanded(a, expanded, store')];
    }

    method Refine(a: QaAction) returns (r: Option<QaAction>)
      requires Valid()
      modifies this`calls
      ensures Valid() && calls == old(calls) + [Refined(a, r)] && r == world.outside.refined(|old(calls)|, a)
    {
      hide StateOf, MapOf, Honest;
      r := world.outside.refined(|calls|, a);
      HonestlyGrows(world, calls, Refined(a, r));
      calls := calls + [Refined(a, r)];
    }

    method Phrase(text: string) returns (r: Option<string>)
      requires Valid()
      modifies this`calls
      ensures Valid() && calls == old(calls) + [Phrased(text, r)] && r == world.outside.phrased(|old(calls)|, text)
    {
      hide StateOf, MapOf, Honest;
      r := world.outside.phrased(|calls|, text);
      HonestlyGrows(world, calls, Phrased(text, r));
      calls := calls + [Phrased(text, r)];
    }

    method Witness() returns (r: Outcome<()>)
      requires Valid()
      modifies this`calls
      ensures Valid() && calls == old(calls) + [Witnessed(world.outside.witnessed(|old(calls)|))]
      ensures r == world.outside.witnessed(|old(calls)|).ToOutcome()
    {
      hide StateOf, MapOf, Honest;
      var reply := world.outside.witnessed(|calls|);
      HonestlyGrows(world, calls, Witnessed(reply));
      calls := calls + [Witnessed(reply)];
      return reply.ToOutcome();
    }

    method StoreValue(key: string, value: string)
      requires Valid()
      modifies this`calls, this`store
      ensures Valid() && calls == old(calls) + [Stored(key, value)] && store == old(store)[key := value]
    {
      hide StateOf, MapOf, Honest;
      HonestlyGrows(world, calls, Stored(key, value));
      store, calls := store[key := value], calls + [Stored(key, value)];
    }

    method Note(record: AttemptRecord)
      requires Valid()
      modifies this`calls, this`attempts
      ensures Valid() && calls == old(calls) + [Noted(record)] && attempts == old(attempts) + [record]
    {
      hide StateOf, MapOf, Honest;
      HonestlyGrows(world, calls, Noted(record));
      attempts, calls := attempts + [record], calls + [Noted(record)];
    }

    method Record(step: QaStep)
      requires Valid()
      modifies this`calls, this`steps
      ensures Valid() && calls == old(calls) + [Recorded(step)] && steps == old(steps) + [step]
    {
      hide StateOf, MapOf, Honest;
      HonestlyGrows(world, calls, Recorded(step));
      steps, calls := steps + [step], calls + [Recorded(step)];
    }

    method Warn(warning: Warning)
      requires Valid()
      modifies this`calls, this`warnings
      ensures Valid() && calls == old(calls) + [Warned(warning)] && warnings == old(warnings) + [warning]
    {
      hide StateOf, MapOf, Honest;
      HonestlyGrows(world, calls, Warned(warning));
      warnings, calls := warnings + [warning], calls + [Warned(warning)];
    }

    method File(entry: PatchRecord)
      requires Valid()
      modifies this`calls, this`patches
      ensures Valid() && calls == old(calls) + [Filed(entry)] && patches == old(patches) + [entry]
    {
      hide StateOf, MapOf, Honest;
      HonestlyGrows(world, calls, Filed(entry));
      patches, calls := patches + [entry], calls + [Filed(entry)];
    }

    /** Every execution of a plan has a result of its own. */
    method Begin()
      requires Valid()
      modifies this`calls, this`attempts, this`steps, this`warnings, this`patches
      ensures Valid() && calls == old(calls) + [Began] && attempts == [] && patches == []
    {
      hide StateOf, MapOf, Honest;
      HonestlyGrows(world, calls, Began);
      attempts, steps, warnings, patches, calls := [], [], [], [], calls + [Began];
    }
  }

  lemma ValidMeans(session: Session)
    requires session.Valid()
    ensures session.locators.Current() == MapOf(StateOf(session.calls).mapped)
    ensures session.store == StateOf(session.calls).store
    ensures session.attempts == StateOf(session.calls).attempts && session.patches == StateOf(session.calls).patches
  {
    hide StateOf;
  }

  lemma HonestNow(session: Session)
    requires session.Valid()
    ensures Honest(session.world, session.calls)
  {
    hide StateOf, Honest;
  }

  /** The policy every action is checked against before it is executed. */
  predicate Permits(config: RunConfig, a: QaAction, attempts: seq<AttemptRecord>) {
    Allows(config.allowedRoutes, a, attempts)
  }

  /** From `from` on no action was executed for itself but one that keeps the policy, by the attempts on record
      then. */
  ghost predicate PolicyKept(w: World, h: History, from: nat) {
    forall at :: from <= at < |h| && IsMain(h[at]) ==>
      Abides(w.config.allowedRoutes, h[at].action, At(h, at).attempts)
  }

  lemma PermittedAbides(config: RunConfig, a: QaAction, attempts: seq<AttemptRecord>)
    ensures Permits(config, a, attempts) <==> Abides(config.allowedRoutes, a, attempts)
  {
    AllowsExactly(config.allowedRoutes, a, attempts);
  }

  /** What was kept in the past and is kept since is kept throughout. */
  lemma PolicyStaysKept(w: World, h: History, later: History, from: nat)
    requires PolicyKept(w, h, from) && h <= later && PolicyKept(w, later, |h|)
    ensures PolicyKept(w, later, from)
  {
    hide StateOf, Abides;
    forall at | from <= at < |later| && IsMain(later[at])
      ensures Abides(w.config.allowedRoutes, later[at].action, At(later, at).attempts)
    {
      if at < |h| {
        PastStays(h, later, at);
      }
    }
  }

  // ----- resolved actions and bound conditions

  function RetargetOption(tm: TextModel, index: LocatorIndex, obs: Observation,
                          loc: Option<Locator>): Outcome<Option<string>> {
    if loc.None? then Ok(None) else
    var bound :- TargetIn(tm, index, obs, loc.value);
    Ok(Some(bound.originalElementId))
  }

  /** Replace the locators of an expanded action by element ids. Text is typed wherever the focus is:
      the locator of `typeText` is left behind. */
  function Retarget(tm: TextModel, index: LocatorIndex, obs: Observation, a: PlanAction): Outcome<QaAction> {
    match a
    case Click(t, reason) =>
      var e :- TargetIn(tm, index, obs, t);
      Ok(Click(e.originalElementId, reason))
    case Fill(t, payload, reason) =>
      var e :- TargetIn(tm, index, obs, t);
      Ok(Fill(e.originalElementId, payload, reason))
    case Select(t, payload, reason) =>
      var e :- TargetIn(tm, index, obs, t);
      Ok(Select(e.originalElementId, payload, reason))
    case UploadFile(t, payload, reason) =>
      var e :- TargetIn(tm, index, obs, t);
      Ok(UploadFile(e.originalElementId, payload, reason))
    case RichTextFill(t, payload, reason) =>
      var e :- TargetIn(tm, index, obs, t);
      Ok(RichTextFill(e.originalElementId, payload, reason))
    case Extract(t, payload, reason) =>
      var e :- TargetIn(tm, index, obs, t);
      Ok(Extract(e.originalElementId, payload, reason))
    case Drag(s, t, reason) =>
      var from :- TargetIn(tm, index, obs, s);
      var onto :- TargetIn(tm, index, obs, t);
      Ok(Drag(from.originalElementId, onto.originalElementId, reason))
    case Press(key, t, reason) =>
      var e :- RetargetOption(tm, index, obs, t);
      Ok(Press(key, e, reason))
    case AssertVisible(t, payload, reason) =>
      var e :- RetargetOption(tm, index, obs, t);
      Ok(AssertVisible(e, payload, reason))
    case TypeText(_, payload, reason) => Ok(TypeText(None, payload, reason))
    case Navigate(route, reason) => Ok(Navigate(route, reason))
    case ClickOutside(reason) => Ok(ClickOutside(reason))
    case ClickAtCoordinates(x, y, reason) => Ok(ClickAtCoordinates(x, y, reason))
    case WaitForStable(timeoutMs, reason) => Ok(WaitForStable(timeoutMs, reason))
    case CompareScreenshot(payload, reason) => Ok(CompareScreenshot(payload, reason))
    case Other(kind, _, reason) => Ok(Other(kind, None, reason))
  }

  /** The same action, but for where it acts: what is typed, selected, uploaded, pressed or waited for is as it was,
      and so is the reason. */
  predicate SameDeed(a: PlanAction, r: QaAction) {
    && r.reason == a.reason
    && match a
       case Click(_, _) => r.Click?
       case Fill(_, payload, _) => r.Fill? && r.payload == payload
       case Select(_, payload, _) => r.Select? && r.payload == payload
       case UploadFile(_, payload, _) => r.UploadFile? && r.payload == payload
       case RichTextFill(_, payload, _) => r.RichTextFill? && r.payload == payload
       case Extract(_, payload, _) => r.Extract? && r.payload == payload
       case Drag(_, _, _) => r.Drag?
       case Press(key, _, _) => r.Press? && r.key == key
       case AssertVisible(_, payload, _) => r.AssertVisible? && r.payload == payload
       case TypeText(_, payload, _) => r.TypeText? && r.payload == payload
       case Navigate(route, _) => r.Navigate? && r.route == route
       case ClickOutside(_) => r.ClickOutside?
       case ClickAtCoordinates(x, y, _) => r.ClickAtCoordinates? && r.x == x && r.y == y
       case WaitForStable(timeoutMs, _) => r.WaitForStable? && r.timeoutMs == timeoutMs
       case CompareScreenshot(payload, _) => r.CompareScreenshot? && r.payload == payload
       case Other(kind, _, _) => r.Other? && r.kind == kind
  }

  /** Resolving an action changes nothing of it but its locators, whatever the map. */
  lemma ResolvingKeepsDeed(tm: TextModel, index: LocatorIndex, obs: Observation, a: PlanAction)
    requires Retarget(tm, index, obs, a).Ok?
    ensures SameDeed(a, Retarget(tm, index, obs, a).value)
  {
    hide TargetIn;
  }

  /** The locators `Retarget` looks up, in order. */
  function Lookups(a: PlanAction): seq<Locator> {
    match a
    case Drag(s, t, _) => [s, t]
    case TypeText(_, _, _) => []
    case Other(_, _, _) => []
    case _ => if a.Target().Some? then [a.Target().value] else []
  }

  /** On a fresh map an action resolves exactly when all its locators are found, and nothing else
      than a missing element can stop it. */
  lemma FreshRetarget(tm: TextModel, obs: Observation, a: PlanAction)
    ensures Retarget(tm, IndexOf(obs), obs, a).Ok? <==> forall loc <- Lookups(a) :: Found(tm, obs, loc)
    ensures Retarget(tm, IndexOf(obs), obs, a).Ok? || Retarget(tm, IndexOf(obs), obs, a) == Thrown(LocatorNotFound)
  {
    forall loc: Locator
      ensures TargetIn(tm, IndexOf(obs), obs, loc).Ok? <==> Found(tm, obs, loc)
      ensures !Found(tm, obs, loc) ==> TargetIn(tm, IndexOf(obs), obs, loc) == Thrown(LocatorNotFound)
    {
      FreshLookup(tm, obs, loc);
    }
    if a.Drag? {
      assert Lookups(a)[0] == a.source && Lookups(a)[1] == a.target;
    } else if Lookups(a) != [] {
      assert Lookups(a) == [a.Target().value];
    }
  }

  /** Once the target of an action was found, resolving the same action again on that observation
      succeeds, unless the action generates values (its target may then read differently) or drags
      (its source was never looked for). */
  lemma ReresolvingSucceeds(tm: TextModel, t: Templates, obs: Observation, a: PlanAction, store: Store, tick: nat,
                            later: nat)
    requires !t.generates(a)
    requires ExpandAction(t, a, store, tick).0.Some?
    requires var found := ExpandAction(t, a, store, tick).0.value;
      !found.Drag? && found.Target().Some? && Found(tm, obs, found.Target().value)
    ensures ExpandAction(t, a, store, later).0.Some?
    ensures Retarget(tm, IndexOf(obs), obs, ExpandAction(t, a, store, later).0.value).Ok?
  {
    FreshRetarget(tm, obs, ExpandAction(t, a, store, later).0.value);
  }

  /** A text model in which nothing is like anything else. */
  function PlainText(): TextModel {
    TextModel(
      (e: Element, l: Locator) => false, (e: Element, ts: seq<string>) => false, (e: Element, ts: seq<string>) => 0,
      (s: string) => [], (e: Element) => {}, (s: string) => s, (s: string) => false, (s: string) => false,
      (e: Element) => 0.0, (e: Element) => 0.0)
  }

  /** The expansion of a click on a generated name: the text of the target is the given name with a suffix of
      the moment, and it is stored under its key. */
  function NamingTemplates(key: string, name: string, suffix: nat -> string): Templates {
    Templates(
      (a: PlanAction) => true,
      (a: PlanAction, s: Store) => None,
      (a: PlanAction, s: Store, tick: nat) =>
        (Some(Click(Text(name + " " + suffix(tick)), "")), s[key := name + " " + suffix(tick)]),
      (c: Condition, s: Store) => None)
  }

  /** Both exceptions are real. A click on a generated name finds its target on the page that shows the
      name as it was first generated, and loses it when it is expanded again with another suffix. */
  lemma GeneratedTargetCanBeLost(key: string, name: string, suffix: nat -> string, a: PlanAction, obsId: string)
    returns (tm: TextModel, obs: Observation)
    requires suffix(0) != suffix(1)
    ensures var t := NamingTemplates(key, name, suffix);
      var first, again := ExpandAction(t, a, map[], 0).0, ExpandAction(t, a, map[], 1).0;
      && t.generates(a)
      && first == Some(Click(Text(name + " " + suffix(0)), "")) && Found(tm, obs, first.value.target)
      && again == Some(Click(Text(name + " " + suffix(1)), ""))
      && Retarget(tm, IndexOf(obs), obs, again.value) == Thrown(LocatorNotFound)
  {
    var shown, sought := name + " " + suffix(0), name + " " + suffix(1);
    assert shown[|name| + 1..] == suffix(0) && sought[|name| + 1..] == suffix(1);
    tm := PlainText();
    var e := Element("e1", "button", shown, None, None, false, true, Text(shown));
    obs := Observation(obsId, "", [], [e]);
    assert obs.elements[0] == e && obs.elements[1..] == [];
    assert FirstMatch(tm, obs, Text(shown)) == Some(e);
    assert FirstMatch(tm, obs, Text(sought)) == None;
    FreshLookup(tm, obs, Text(sought));
  }

  /** A drag whose target is there fails when its source is not. */
  lemma DragNeedsItsSource(tm: TextModel, obs: Observation, there: Locator, gone: Locator)
    requires Found(tm, obs, there) && !Found(tm, obs, gone)
    ensures Drag(gone, there, "").Target() == Some(there)
    ensures Retarget(tm, IndexOf(obs), obs, Drag(gone, there, "")) == Thrown(LocatorNotFound)
  {
    FreshLookup(tm, obs, gone);
    hide TargetIn, Found;
  }

  /** The kinds whose locator is left behind. */
  predicate Unlocated(a: PlanAction) {
    a.TypeText? || a.Other?
  }

  /** A resolved action acts on the element its locator is found to be, unless its kind leaves the locator
      behind: whether it has a target stays the same exactly for the other kinds and for actions without one. */
  lemma TargetIsKeptExactly(tm: TextModel, obs: Observation, a: PlanAction)
    requires Retarget(tm, IndexOf(obs), obs, a).Ok?
    ensures var r := Retarget(tm, IndexOf(obs), obs, a).value;
      && r.TypeName() == a.TypeName()
      && (r.Target().Some? <==> a.Target().Some? && !Unlocated(a))
      && (r.Target().Some? ==> FindByLocator(tm, obs, a.Target().value) == Ok(r.Target().value))
  {
    if a.Target().Some? {
      FreshLookup(tm, obs, a.Target().value);
    }
    hide FindByLocator;
  }

  /** The action acts on the element its locator is found to be in the observation, and drags from the one its source
      is found to be. */
  predicate ActsWhereFound(tm: TextModel, obs: Observation, a: PlanAction, r: QaAction) {
    && (a.Target().Some? && !Unlocated(a) ==>
          r.Target().Some? && FindByLocator(tm, obs, a.Target().value) == Ok(r.Target().value))
    && (a.Drag? ==> r.Drag? && FindByLocator(tm, obs, a.source) == Ok(r.source))
  }

  lemma ResolvedActsWhereFound(tm: TextModel, obs: Observation, a: PlanAction)
    requires Retarget(tm, IndexOf(obs), obs, a).Ok?
    ensures ActsWhereFound(tm, obs, a, Retarget(tm, IndexOf(obs), obs, a).value)
  {
    TargetIsKeptExactly(tm, obs, a);
    if a.Drag? {
      DragIsFoundAtBothEnds(tm, obs, a);
    }
    hide Retarget, FindByLocator;
  }

  /** A drag goes from the element its source is found to be to the one its target is found to be. */
  lemma DragIsFoundAtBothEnds(tm: TextModel, obs: Observation, a: PlanAction)
    requires a.Drag? && Retarget(tm, IndexOf(obs), obs, a).Ok?
    ensures var r := Retarget(tm, IndexOf(obs), obs, a).value;
      && r.Drag? && FindByLocator(tm, obs, a.source) == Ok(r.source) && FindByLocator(tm, obs, a.target) == Ok(r.target)
  {
    FreshLookup(tm, obs, a.source);
    FreshLookup(tm, obs, a.target);
    hide FindByLocator;
  }

  /** Typing text resolves whatever its locator, also when nothing on the page is like it and every other
      action on it fails. */
  lemma TypeTextIsNeverLookedUp(tm: TextModel, obs: Observation, gone: Locator, text: string)
    requires !Found(tm, obs, gone)
    ensures Retarget(tm, IndexOf(obs), obs, TypeText(Some(gone), text, "")) == Ok(TypeText(None, text, ""))
    ensures Retarget(tm, IndexOf(obs), obs, Fill(gone, text, "")) == Thrown(LocatorNotFound)
  {
    FreshLookup(tm, obs, gone);
    hide TargetIn, Found;
  }

  /** A container is opened by its own action, at the element its locator finds. It cannot be opened exactly when the
      action has a target that is not there, or one of a kind that opening does not know. */
  lemma OpenActionExactly(tm: TextModel, a: PlanAction, obs: Observation)
    ensures var r, target := OpenAction(tm, a, obs), a.Target();
      var known := a.Click? || a.Fill? || a.Select? || a.Press? || a.AssertVisible?;
      && (r.Some? ==> SameDeed(a, r.value))
      && (r.Some? && target.Some? ==>
            r.value.Target().Some? && FindByLocator(tm, obs, target.value) == Ok(r.value.Target().value))
      && (r.Some? <==> target.None? || (known && Found(tm, obs, target.value)))
  {
    hide FindByLocator;
  }

  /** What the browser is asked to validate for an expanded condition. */
  function BindCondition(tm: TextModel, index: LocatorIndex, obs: Observation, c: Condition): Outcome<BoundExpected> {
    match c
    case FieldValueContains(t, expected) =>
      var e :- TargetIn(tm, index, obs, t);
      Ok(FieldHolds(e, expected))
    case ElementVisible(Some(t), shown) =>
      var e :- TargetIn(tm, index, obs, t);
      Ok(ElementShows(Some(e), shown))
    case ElementVisible(None, shown) => Ok(ElementShows(None, shown))
    case TextAnyVisible(texts) => Ok(TextShows(if texts == [] then "" else texts[0]))
    case TextVisible(text) => Ok(TextShows(text))
    case UrlContains(fragment) => Ok(UrlHolds(fragment))
    case _ => Ok(ConsoleClean)
  }

  function ConditionTarget(c: Condition): Option<Locator> {
    match c
    case FieldValueContains(t, _) => Some(t)
    case ElementVisible(onto, _) => onto
    case _ => None
  }

  /** The bound condition claims what the condition says; of several texts it claims the first. A condition on the
      state of the run or of the network, which has no bound form, becomes a check of the console. */
  predicate SameClaim(c: Condition, b: BoundExpected) {
    match c
    case FieldValueContains(_, expected) => b.FieldHolds? && b.expected == expected
    case ElementVisible(onto, shown) => b.ElementShows? && b.shown == shown && (b.element.Some? <==> onto.Some?)
    case TextVisible(text) => b == TextShows(text)
    case TextAnyVisible(texts) => b.TextShows? && (texts != [] ==> b.text == texts[0]) && (texts == [] ==> b.text == "")
    case UrlContains(fragment) => b == UrlHolds(fragment)
    case NoConsoleErrors => b == ConsoleClean
    case RuntimeState(_, _, _) => b == ConsoleClean
    case NetworkState(_, _) => b == ConsoleClean
  }

  /** The element a bound condition is about. */
  function BoundElement(b: BoundExpected): Option<BoundTarget> {
    match b
    case FieldHolds(field, _) => Some(field)
    case ElementShows(element, _) => element
    case _ => None
  }

  /** Binding a condition changes nothing of what it claims, and binds it to the element its locator finds, in the
      observation at hand. */
  lemma BindingKeepsClaim(tm: TextModel, index: LocatorIndex, obs: Observation, c: Condition)
    requires BindCondition(tm, index, obs, c).Ok?
    ensures var b := BindCondition(tm, index, obs, c).value;
      && SameClaim(c, b)
      && (ConditionTarget(c).Some? <==> BoundElement(b).Some?)
      && (ConditionTarget(c).Some? ==>
            && FindByLocator(tm, obs, ConditionTarget(c).value) == Ok(BoundElement(b).value.originalElementId)
            && BoundElement(b).value.observationId == obs.observationId)
  {
    hide FindByLocator;
  }

  /** Binding raises no other errors than these, whatever the map. */
  lemma BindingErrors(tm: TextModel, index: LocatorIndex, obs: Observation, c: Condition)
    ensures var r := BindCondition(tm, index, obs, c);
      r.Ok? || r == Thrown(StaleObservation) || r == Thrown(LocatorNotFound)
  {
    if ConditionTarget(c).Some? {
      FindIsFirstLeaf(tm, obs, ConditionTarget(c).value);
      FirstHitError(tm, obs, Flatten(ConditionTarget(c).value));
    }
  }

  /** Binding a condition is stale exactly when it names an element that is found in an observation
      other than the one the map was built from; on a fresh map it never is. */
  lemma BindingIsStaleExactly(tm: TextModel, index: LocatorIndex, obs: Observation, c: Condition)
    ensures var target := ConditionTarget(c);
      BindCondition(tm, index, obs, c) == Thrown(StaleObservation)
      <==> target.Some? && Found(tm, obs, target.value) && obs.observationId != index.observationId
    ensures BindCondition(tm, IndexOf(obs), obs, c).Ok?
      <==> ConditionTarget(c).None? || Found(tm, obs, ConditionTarget(c).value)
    ensures BindCondition(tm, IndexOf(obs), obs, c).Ok?
      || BindCondition(tm, IndexOf(obs), obs, c) == Thrown(LocatorNotFound)
  {
    if ConditionTarget(c).Some? {
      StaleExactly(tm, index, obs, ConditionTarget(c).value);
      FreshLookup(tm, obs, ConditionTarget(c).value);
    }
  }
}
