/** The plan executor as a state machine (src/application/services/plan-executor.service.ts:58-243),
    and what holds of all its runs, whatever the browser and the model provider answer. */
module PlanRuns {
  import opened Domain
  import opened PlanPatches

  /** Where an executed attempt stands in the history: the states read at its start, the execution of its
      action, and the states read after it. */
  datatype Evidence = Evidence(start: nat, at: nat, seen: nat)

  /** How one attempt at the current step ends, unless it ends the run. */
  datatype Event =
    | Warned
    | Recovered(evidence: Evidence)
    | Clean(evidence: Evidence)
    | Retried(evidence: Evidence)
    | Repeated(evidence: Evidence)
    | Patched(patch: PlanPatch)
  {
    predicate Passes() {
      Warned? || Recovered? || Clean?
    }
  }

  datatype Machine = Machine(
    plan: ExecutionPlan,
    stepIndex: nat,
    attempt: nat,
    replans: nat,
    iterations: map<string, int>)
  {
    predicate AtStep() {
      stepIndex < |plan.steps|
    }

    function Step(): ExecutionStep
      requires AtStep()
    {
      plan.steps[stepIndex]
    }

    function Iteration(): int
      requires AtStep()
    {
      if Step().id in iterations then iterations[Step().id] else 1
    }

    predicate Active() {
      AtStep() && attempt < AttemptLimit(plan, Step())
    }
  }

  function AttemptLimit(plan: ExecutionPlan, s: ExecutionStep): int {
    if s.maxAttempts.Some? then s.maxAttempts.value else plan.runtime.maxAttemptsPerStep
  }

  function IterationLimit(s: ExecutionStep): int {
    if s.maxIterations.Some? then s.maxIterations.value else 10
  }

  /** A step without limits of its own has the attempts its plan allows and ten iterations. */
  lemma DefaultLimits(plan: ExecutionPlan, s: ExecutionStep)
    ensures s.maxAttempts == None ==> AttemptLimit(plan, s) == plan.runtime.maxAttemptsPerStep
    ensures s.maxIterations == None ==> IterationLimit(s) == 10
    ensures forall n :: s.maxAttempts == Some(n) ==> AttemptLimit(plan, s) == n
    ensures forall n :: s.maxIterations == Some(n) ==> IterationLimit(s) == n
  {
  }

  function Start(plan: ExecutionPlan): Machine {
    Machine(plan, 0, 0, 0, map[])
  }

  predicate Enabled(rules: PatchRules, m: Machine, e: Event) {
    m.Active() &&
    match e
    case Warned => Warns(m.Step())
    case Recovered(_) => true
    case Clean(_) => true
    case Retried(_) => m.attempt + 1 < AttemptLimit(m.plan, m.Step())
    case Repeated(_) => m.Step().repeatUntil.Some? && m.Iteration() + 1 <= IterationLimit(m.Step())
    case Patched(p) =>
      && m.plan.mode != PlanAndExecute && m.replans < m.plan.runtime.maxReplansPerScenario
      && Accepted(rules, m.plan, p)
  }

  function Next(rules: PatchRules, m: Machine, e: Event): Machine
    requires Enabled(rules, m, e)
  {
    match e
    case Retried(_) => m.(attempt := m.attempt + 1)
    case Repeated(_) => m.(attempt := 0, iterations := m.iterations[m.Step().id := m.Iteration() + 1])
    case Patched(p) => m.(attempt := 0, replans := m.replans + 1, plan := Edited(rules, m.plan, p))
    case _ => m.(attempt := 0, stepIndex := m.stepIndex + 1)
  }

  datatype Run = Run(states: seq<Machine>, events: seq<Event>) {
    function Last(): Machine
      requires states != []
    {
      states[|states| - 1]
    }

    function Extend(e: Event, m: Machine): Run {
      Run(states + [m], events + [e])
    }
  }

  predicate Steps(rules: PatchRules, m: Machine, e: Event, n: Machine) {
    Enabled(rules, m, e) && n == Next(rules, m, e)
  }

  ghost predicate IsRun(rules: PatchRules, plan: ExecutionPlan, run: Run) {
    && |run.states| == |run.events| + 1
    && run.states[0] == Start(plan)
    && forall i :: 0 <= i < |run.events| ==> Steps(rules, run.states[i], run.events[i], run.states[i + 1])
  }

  lemma ExtendRun(rules: PatchRules, plan: ExecutionPlan, run: Run, e: Event)
    requires IsRun(rules, plan, run) && Enabled(rules, run.Last(), e)
    ensures IsRun(rules, plan, run.Extend(e, Next(rules, run.Last(), e)))
  {
    hide Accepted, Edited;
    var longer := run.Extend(e, Next(rules, run.Last(), e));
    forall i | 0 <= i < |longer.events|
      ensures Steps(rules, longer.states[i], longer.events[i], longer.states[i + 1])
    {
      if i < |run.events| {
        assert longer.states[i] == run.states[i] && longer.states[i + 1] == run.states[i + 1];
      }
    }
  }

  // ----- versions and replans

  function Patches(events: seq<Event>): seq<PlanPatch> {
    if events == [] then [] else
    var rest := Patches(events[..|events| - 1]);
    var e := events[|events| - 1];
    if e.Patched? then rest + [e.patch] else rest
  }

  lemma VersionStep(rules: PatchRules, m: Machine, e: Event)
    requires Enabled(rules, m, e)
    ensures var n, k := Next(rules, m, e), if e.Patched? then 1 else 0;
      && n.plan == m.plan.(version := m.plan.version + k, steps := n.plan.steps)
      && n.replans == m.replans + k
      && (k > 0 ==> m.replans < m.plan.runtime.maxReplansPerScenario)
  {
    hide Accepted, Edited;
    if e.Patched? {
      AcceptedPatchSplices(rules, m.plan, e.patch);
    }
  }

  /** At every point of a run the plan version counts the patches applied so far, which are the
      replans counted against the budget; identity, mode, limits and plan-level assertions are those
      of the plan the run started with. */
  lemma {:induction false} VersionCountsPatches(rules: PatchRules, plan: ExecutionPlan, run: Run, i: nat)
    requires IsRun(rules, plan, run) && i <= |run.events|
    ensures var m := run.states[i];
      && m.plan.version == plan.version + |Patches(run.events[..i])|
      && m.replans == |Patches(run.events[..i])|
      && (m.replans > 0 ==> m.replans <= plan.runtime.maxReplansPerScenario)
      && m.plan == plan.(version := m.plan.version, steps := m.plan.steps)
  {
    hide Accepted, Edited;
    if i > 0 {
      VersionCountsPatches(rules, plan, run, i - 1);
      assert run.events[..i][..i - 1] == run.events[..i - 1];
      assert Steps(rules, run.states[i - 1], run.events[i - 1], run.states[i - 1 + 1]);
      VersionStep(rules, run.states[i - 1], run.events[i - 1]);
    }
  }

  lemma {:induction false} PatchesGrow(events: seq<Event>, i: nat, j: nat)
    requires i < j <= |events| && events[i].Patched?
    ensures |Patches(events[..j])| > |Patches(events[..i])|
  {
    assert events[..j][..j - 1] == events[..j - 1];
    if j > i + 1 {
      PatchesGrow(events, i, j - 1);
    }
  }

  /** No patch is applied twice in a run, and no two applied patches were written for one version. */
  lemma PatchAppliedOnce(rules: PatchRules, plan: ExecutionPlan, run: Run, i: nat, j: nat)
    requires IsRun(rules, plan, run) && i < j < |run.events|
    requires run.events[i].Patched? && run.events[j].Patched?
    ensures run.events[i].patch.basePlanVersion < run.events[j].patch.basePlanVersion
  {
    VersionCountsPatches(rules, plan, run, i);
    VersionCountsPatches(rules, plan, run, j);
    PatchesGrow(run.events, i, j);
    assert Steps(rules, run.states[i], run.events[i], run.states[i + 1]);
    assert Steps(rules, run.states[j], run.events[j], run.states[j + 1]);
  }

  // ----- why every run ends

  /** Bounds on everything a run visits: the longest plan and the largest limits. */
  datatype Bounds = Bounds(planLength: nat, iterations: nat, attempts: nat)

  ghost predicate Within(b: Bounds, m: Machine) {
    && |m.plan.steps| <= b.planLength
    && forall s <- m.plan.steps :: IterationLimit(s) <= b.iterations && AttemptLimit(m.plan, s) <= b.attempts
  }

  ghost function Spent(b: Bounds, m: Machine): int {
    if m.AtStep() then (m.Iteration() - 1) * b.attempts + m.attempt else 0
  }

  /** Attempts a run may still make: a full allowance of iterations and attempts for every step and
      every replan left, less what the current step already used. */
  ghost function Fuel(b: Bounds, replans: int, m: Machine): int {
    (b.planLength - m.stepIndex + replans - m.replans) * (b.iterations * b.attempts) - Spent(b, m)
  }

  ghost predicate Paced(b: Bounds, replans: int, m: Machine) {
    && m.stepIndex <= b.planLength
    && m.replans <= replans
    && (forall id <- m.iterations :: 1 <= m.iterations[id] <= b.iterations)
    && (m.AtStep() ==> m.attempt == 0 || m.attempt < AttemptLimit(m.plan, m.Step()))
  }

  lemma SpentIsBounded(b: Bounds, replans: int, m: Machine)
    requires b.iterations > 0 && b.attempts > 0 && Within(b, m) && Paced(b, replans, m)
    ensures 0 <= Spent(b, m) <= b.iterations * b.attempts
    ensures m.Active() ==> Spent(b, m) < b.iterations * b.attempts
  {
    if m.AtStep() {
      assert 1 <= m.Iteration() <= b.iterations;
      assert m.Step() in m.plan.steps;
      MulMonotone(m.Iteration() - 1, b.iterations - 1, b.attempts);
      assert (b.iterations - 1) * b.attempts == b.iterations * b.attempts - b.attempts;
    } else {
      MulMonotone(0, b.iterations, b.attempts);
    }
  }

  lemma MulMonotone(x: int, y: int, z: nat)
    requires x <= y
    ensures x * z <= y * z
  {
  }

  lemma EventBurnsFuel(rules: PatchRules, b: Bounds, replans: int, m: Machine, e: Event)
    requires b.iterations > 0 && b.attempts > 0 && Within(b, m) && Paced(b, replans, m)
    requires Enabled(rules, m, e) && Within(b, Next(rules, m, e))
    requires m.plan.runtime.maxReplansPerScenario <= replans
    ensures Paced(b, replans, Next(rules, m, e))
    ensures Fuel(b, replans, Next(rules, m, e)) < Fuel(b, replans, m)
  {
    hide Accepted, Edited;
    var n := Next(rules, m, e);
    assert m.Step() in m.plan.steps;
    SpentIsBounded(b, replans, m);
    assert Paced(b, replans, n);
    SpentIsBounded(b, replans, n);
    match e {
      case Retried(_) =>
      case Repeated(_) =>
        OneLess(m.Iteration(), b.attempts);
      case _ =>
        OneLess(b.planLength - m.stepIndex + replans - m.replans, b.iterations * b.attempts);
    }
  }

  lemma OneLess(x: int, y: int)
    ensures (x - 1) * y == x * y - y
  {
  }

  lemma {:induction false} FuelFalls(rules: PatchRules, plan: ExecutionPlan, run: Run, b: Bounds, replans: int, i: nat)
    requires IsRun(rules, plan, run) && i <= |run.events|
    requires b.iterations > 0 && b.attempts > 0
    requires forall k :: 0 <= k <= |run.events| ==> Within(b, run.states[k])
    requires 0 <= replans && plan.runtime.maxReplansPerScenario <= replans
    ensures Paced(b, replans, run.states[i])
    ensures i + Fuel(b, replans, run.states[i]) <= Fuel(b, replans, run.states[0])
  {
    hide Accepted, Edited;
    if i > 0 {
      FuelFalls(rules, plan, run, b, replans, i - 1);
      LimitsAreFixed(rules, plan, run, i - 1);
      FuelStep(rules, b, replans, run.states[i - 1], run.events[i - 1], run.states[i]);
    }
  }

  lemma LimitsAreFixed(rules: PatchRules, plan: ExecutionPlan, run: Run, i: nat)
    requires IsRun(rules, plan, run) && i <= |run.events|
    ensures run.states[i].plan.runtime == plan.runtime
  {
    hide Accepted, Edited;
    VersionCountsPatches(rules, plan, run, i);
  }

  lemma FuelStep(rules: PatchRules, b: Bounds, replans: int, m: Machine, e: Event, n: Machine)
    requires b.iterations > 0 && b.attempts > 0 && Within(b, m) && Within(b, n) && Paced(b, replans, m)
    requires Enabled(rules, m, e) && n == Next(rules, m, e)
    requires m.plan.runtime.maxReplansPerScenario <= replans
    ensures Paced(b, replans, n) && Fuel(b, replans, n) < Fuel(b, replans, m)
  {
    hide Accepted, Edited;
    EventBurnsFuel(rules, b, replans, m, e);
  }

  /** Every run makes at most (longest plan + replans) x iteration limit x attempt limit attempts,
      the one under way included. */
  lemma RunsAreShort(rules: PatchRules, plan: ExecutionPlan, run: Run, b: Bounds)
    requires IsRun(rules, plan, run)
    requires b.iterations > 0 && b.attempts > 0
    requires forall k :: 0 <= k <= |run.events| ==> Within(b, run.states[k])
    requires plan.runtime.maxReplansPerScenario >= 0
    ensures |run.events| + (if run.Last().Active() then 1 else 0)
      <= (b.planLength + plan.runtime.maxReplansPerScenario) * (b.iterations * b.attempts)
  {
    hide Accepted, Edited;
    var replans := plan.runtime.maxReplansPerScenario;
    var m := run.Last();
    FuelFalls(rules, plan, run, b, replans, |run.events|);
    SpentIsBounded(b, replans, m);
    var left := b.planLength - m.stepIndex + replans - m.replans;
    MulMonotone(if m.AtStep() then 1 else 0, left, b.iterations * b.attempts);
  }

  /** A step is entered with attempts to spend unless its limit is not positive, so running out of
      attempts without an answer takes such a limit. */
  lemma {:induction false} StuckExactlyWithoutAttempts(rules: PatchRules, plan: ExecutionPlan, run: Run, i: nat)
    requires IsRun(rules, plan, run) && i <= |run.events| && run.states[i].AtStep()
    ensures !run.states[i].Active() <==> AttemptLimit(run.states[i].plan, run.states[i].Step()) <= 0
    ensures !run.states[i].Active() ==> run.states[i].attempt == 0
  {
    hide Accepted, Edited;
    if i > 0 && run.events[i - 1].Retried? {
      StuckExactlyWithoutAttempts(rules, plan, run, i - 1);
    }
  }

  // ----- what success means

  /** For every slot of the current plan, the event by which the step in it passed. A patch brings in
      slots that no event passed and keeps the others with their steps. */
  function Trail(run: Run, i: nat): seq<Option<nat>>
    requires i < |run.states| && i <= |run.events|
  {
    var steps := run.states[i].plan.steps;
    if i == 0 then seq(|steps|, j => None)
    else TrailStep(run.states[i - 1], run.events[i - 1], |steps|, Trail(run, i - 1), i - 1)
  }

  function TrailStep(m: Machine, e: Event, length: nat, trail: seq<Option<nat>>, now: nat): seq<Option<nat>> {
    if e.Patched? && e.patch.stepId.Some? then
      seq(length, j requires 0 <= j < length =>
        match Origin(EditPoint(m.plan, e.patch), |e.patch.steps|, |trail|, length, j)
        case Some(k) => trail[k]
        case None => None)
    else if e.Passes() && m.stepIndex < |trail| then trail[m.stepIndex := Some(now)]
    else trail
  }

  /** Which slot of the plan before a patch is slot `j` of the plan after it: none when the patch
      brought the slot in, by writing `added` steps at `edit`. */
  function Origin(edit: nat, added: nat, before: nat, after: nat, j: nat): (k: Option<nat>)
    ensures k.Some? ==> k.value < before
  {
    if j < edit && j < before then Some(j)
    else if j < edit + added || j + before < after || j + before - after >= before then None
    else Some(j + before - after)
  }

  /** Event `e` passed the very step that is in slot `j`. */
  predicate Behind(run: Run, i: nat, j: nat, e: nat)
    requires |run.states| == |run.events| + 1 && i <= |run.events| && j < |run.states[i].plan.steps|
  {
    && e < i && run.events[e].Passes()
    && run.states[e].Active() && run.states[e].Step() == run.states[i].plan.steps[j]
  }

  ghost predicate TrailIsSound(run: Run, i: nat)
    requires |run.states| == |run.events| + 1 && i <= |run.events|
  {
    var trail := Trail(run, i);
    && |trail| == |run.states[i].plan.steps|
    && (forall j :: 0 <= j < |trail| && trail[j].Some? ==> Behind(run, i, j, trail[j].value))
    && (forall j, k :: 0 <= j < k < |trail| && trail[j].Some? ==> trail[j] != trail[k])
  }

  /** A patch moves steps but does not change the ones it keeps, and no two slots share an origin. */
  lemma OriginsAreKept(rules: PatchRules, plan: ExecutionPlan, p: PlanPatch, j: nat)
    requires Accepted(rules, plan, p) && j < |Edited(rules, plan, p).steps|
    ensures var steps := Edited(rules, plan, p).steps;
      var o := Origin(EditPoint(plan, p), |p.steps|, |plan.steps|, |steps|, j);
      && (o.Some? ==> steps[j] == plan.steps[o.value])
      && (o.None? <==> EditPoint(plan, p) <= j < EditPoint(plan, p) + |p.steps|)
      && (o.Some? ==> (o.value < EditPoint(plan, p) <==> j < EditPoint(plan, p)))
  {
    hide Accepted, Edited;
    AcceptedPatchSplices(rules, plan, p);
    if j >= EditPoint(plan, p) + |p.steps| {
      var kept := Edited(rules, plan, p).steps[j];
      assert kept == plan.steps[j + |plan.steps| - |Edited(rules, plan, p).steps|];
    }
  }

  /** A slot with an event behind it comes from a slot with the same step and the same event, and no two
      come from the same. */
  lemma SlotIsKept(rules: PatchRules, plan: ExecutionPlan, run: Run, i: nat, j: nat) returns (o: nat)
    requires IsRun(rules, plan, run) && 0 < i <= |run.events| && run.events[i - 1].Patched? && TrailIsSound(run, i - 1)
    requires j < |run.states[i].plan.steps| == |Trail(run, i)| && Trail(run, i)[j].Some?
    ensures o < |Trail(run, i - 1)| && Trail(run, i)[j] == Trail(run, i - 1)[o]
    ensures run.states[i].plan.steps[j] == run.states[i - 1].plan.steps[o]
    ensures var edit := EditPoint(run.states[i - 1].plan, run.events[i - 1].patch);
      (j < edit <==> o < edit) && j - o == (if j < edit then 0 else |Trail(run, i)| - |Trail(run, i - 1)|)
  {
    hide Accepted, Edited;
    assert Steps(rules, run.states[i - 1], run.events[i - 1], run.states[i - 1 + 1]);
    var m, p := run.states[i - 1], run.events[i - 1].patch;
    AcceptedPatchSplices(rules, m.plan, p);
    OriginsAreKept(rules, m.plan, p, j);
    o := Origin(EditPoint(m.plan, p), |p.steps|, |Trail(run, i - 1)|, |Trail(run, i)|, j).value;
  }

  lemma PatchedTrailLength(rules: PatchRules, plan: ExecutionPlan, run: Run, i: nat)
    requires IsRun(rules, plan, run) && 0 < i <= |run.events| && run.events[i - 1].Patched? && TrailIsSound(run, i - 1)
    ensures |Trail(run, i)| == |run.states[i].plan.steps|
  {
    hide Accepted, Edited;
    assert Steps(rules, run.states[i - 1], run.events[i - 1], run.states[i - 1 + 1]);
    AcceptedPatchSplices(rules, run.states[i - 1].plan, run.events[i - 1].patch);
  }

  lemma PatchKeepsTrailSound(rules: PatchRules, plan: ExecutionPlan, run: Run, i: nat)
    requires IsRun(rules, plan, run) && 0 < i <= |run.events| && run.events[i - 1].Patched? && TrailIsSound(run, i - 1)
    ensures TrailIsSound(run, i)
  {
    hide Accepted, Edited, EditPoint, Trail, Steps;
    PatchedTrailLength(rules, plan, run, i);
    var trail' := Trail(run, i);
    forall j | 0 <= j < |trail'| && trail'[j].Some?
      ensures Behind(run, i, j, trail'[j].value)
    {
      var o := SlotIsKept(rules, plan, run, i, j);
      assert Behind(run, i - 1, o, trail'[j].value);
    }
    forall j, k | 0 <= j < k < |trail'| && trail'[j].Some?
      ensures trail'[j] != trail'[k]
    {
      if trail'[k].Some? {
        var a := SlotIsKept(rules, plan, run, i, j);
        var b := SlotIsKept(rules, plan, run, i, k);
      }
    }
  }

  lemma PassKeepsTrailSound(rules: PatchRules, plan: ExecutionPlan, run: Run, i: nat)
    requires IsRun(rules, plan, run) && 0 < i <= |run.events| && !run.events[i - 1].Patched? && TrailIsSound(run, i - 1)
    ensures TrailIsSound(run, i)
  {
    hide Accepted, Edited;
    assert Steps(rules, run.states[i - 1], run.events[i - 1], run.states[i - 1 + 1]);
    assert run.states[i].plan == run.states[i - 1].plan;
    forall j | 0 <= j < |Trail(run, i)| && Trail(run, i)[j].Some?
      ensures Behind(run, i, j, Trail(run, i)[j].value)
    {
      assert Trail(run, i)[j] == Trail(run, i - 1)[j] ==> Behind(run, i - 1, j, Trail(run, i)[j].value);
    }
  }

  lemma {:induction false} TrailSound(rules: PatchRules, plan: ExecutionPlan, run: Run, i: nat)
    requires IsRun(rules, plan, run) && i <= |run.events|
    ensures TrailIsSound(run, i)
  {
    if i > 0 {
      hide TrailIsSound;
      TrailSound(rules, plan, run, i - 1);
      if run.events[i - 1].Patched? {
        PatchKeepsTrailSound(rules, plan, run, i);
      } else {
        PassKeepsTrailSound(rules, plan, run, i);
      }
    }
  }

  /** The patch applied by event `k` edits a position the run has already gone past. */
  predicate Backward(run: Run, k: nat)
    requires k < |run.events| && k < |run.states|
  {
    run.events[k].Patched? && run.events[k].patch.stepId.Some?
    && EditPoint(run.states[k].plan, run.events[k].patch) < run.states[k].stepIndex
  }

  ghost predicate NoBackwardPatch(run: Run, i: nat)
    requires i <= |run.events| <= |run.states|
  {
    forall k :: 0 <= k < i ==> !Backward(run, k)
  }

  /** Every slot before the current one was passed by an event of the run. */
  ghost predicate Covered(run: Run, i: nat)
    requires i < |run.states| && i <= |run.events|
  {
    forall j :: 0 <= j < run.states[i].stepIndex && j < |Trail(run, i)| ==> Trail(run, i)[j].Some?
  }

  lemma OneMorePatch(run: Run, i: nat)
    requires 0 < i <= |run.events| <= |run.states|
    ensures NoBackwardPatch(run, i) <==> NoBackwardPatch(run, i - 1) && !Backward(run, i - 1)
  {
  }

  /** The executor has passed all the steps behind it exactly when no patch was applied to a position
      it had gone past: a forward patch never disturbs them, and a backward one always leaves a step
      behind that was never executed. */
  lemma {:induction false} CoveredExactly(rules: PatchRules, plan: ExecutionPlan, run: Run, i: nat)
    requires IsRun(rules, plan, run) && i <= |run.events|
    ensures Covered(run, i) <==> NoBackwardPatch(run, i)
    ensures NoBackwardPatch(run, i) ==> run.states[i].stepIndex <= |run.states[i].plan.steps|
  {
    hide Accepted, Edited;
    if i > 0 {
      CoveredExactly(rules, plan, run, i - 1);
      OneMorePatch(run, i);
      if run.events[i - 1].Patched? {
        CoverageUnderPatch(rules, plan, run, i);
      } else {
        CoverageUnderPass(rules, plan, run, i);
      }
    }
  }

  lemma CoverageUnderPass(rules: PatchRules, plan: ExecutionPlan, run: Run, i: nat)
    requires IsRun(rules, plan, run) && 0 < i <= |run.events| && !run.events[i - 1].Patched?
    ensures Covered(run, i) <==> Covered(run, i - 1)
    ensures run.states[i].stepIndex <= |run.states[i].plan.steps|
  {
    hide Accepted, Edited;
    TrailSound(rules, plan, run, i - 1);
    var m := run.states[i - 1];
    assert Steps(rules, m, run.events[i - 1], run.states[i - 1 + 1]);
    var trail, trail' := Trail(run, i - 1), Trail(run, i);
    assert forall j :: 0 <= j < m.stepIndex ==> trail'[j] == trail[j];
  }

  lemma CoverageUnderPatch(rules: PatchRules, plan: ExecutionPlan, run: Run, i: nat)
    requires IsRun(rules, plan, run) && 0 < i <= |run.events| && run.events[i - 1].Patched?
    ensures Backward(run, i - 1) ==> !Covered(run, i)
    ensures !Backward(run, i - 1) ==> (Covered(run, i) <==> Covered(run, i - 1))
    ensures !Backward(run, i - 1) ==> run.states[i].stepIndex <= |run.states[i].plan.steps|
  {
    hide Accepted, Edited;
    TrailSound(rules, plan, run, i - 1);
    var m, p := run.states[i - 1], run.events[i - 1].patch;
    assert Steps(rules, m, run.events[i - 1], run.states[i - 1 + 1]);
    AcceptedPatchSplices(rules, m.plan, p);
    var b := EditPoint(m.plan, p);
    var trail, trail' := Trail(run, i - 1), Trail(run, i);
    if Backward(run, i - 1) {
      OriginsAreKept(rules, m.plan, p, b);
      assert trail'[b].None?;
    } else {
      assert forall j :: 0 <= j < m.stepIndex && j < |trail| ==> trail'[j] == trail[j];
    }
  }

  /** `at[j]` is the event by which step `j` of the final plan passed. */
  ghost predicate PassedAt(run: Run, at: seq<nat>)
    requires |run.states| == |run.events| + 1
  {
    var steps := run.Last().plan.steps;
    && |at| == |steps|
    && (forall j :: 0 <= j < |at| ==>
        at[j] < |run.events| && run.events[at[j]].Passes()
        && run.states[at[j]].Active() && run.states[at[j]].Step() == steps[j])
    && (forall j, k :: 0 <= j < k < |at| ==> at[j] != at[k])
  }

  /** Every step of the final plan passed by an event of its own: its postconditions were validated,
      or its failure was accepted as a warning. */
  ghost predicate EveryStepPassed(run: Run)
    requires |run.states| == |run.events| + 1
  {
    exists at: seq<nat> :: PassedAt(run, at)
  }

  /** When the loop is over and no applied patch was backward, every step of the final plan passed,
      each by an event of its own. */
  lemma FinishedRunPassedEveryStep(rules: PatchRules, plan: ExecutionPlan, run: Run)
    requires IsRun(rules, plan, run) && !run.Last().AtStep() && NoBackwardPatch(run, |run.events|)
    ensures EveryStepPassed(run)
  {
    hide Accepted, Edited;
    var n := |run.events|;
    CoveredExactly(rules, plan, run, n);
    TrailSound(rules, plan, run, n);
    var trail := Trail(run, n);
    var at: seq<nat> := seq(|trail|, j requires 0 <= j < |trail| => if trail[j].Some? then trail[j].value else 0);
    assert forall j :: 0 <= j < |at| ==> trail[j] == Some(at[j]);
    assert PassedAt(run, at);
  }

  /** A finished run with a backward patch leaves a slot of the final plan that no event passed. */
  lemma BackwardPatchLeavesStepUnexecuted(rules: PatchRules, plan: ExecutionPlan, run: Run)
    requires IsRun(rules, plan, run) && !run.Last().AtStep() && !NoBackwardPatch(run, |run.events|)
    ensures |Trail(run, |run.events|)| == |run.Last().plan.steps|
    ensures exists j :: 0 <= j < |run.Last().plan.steps| && Trail(run, |run.events|)[j].None?
  {
    hide Accepted, Edited;
    CoveredExactly(rules, plan, run, |run.events|);
    TrailSound(rules, plan, run, |run.events|);
  }

  /** The patch that replaces a plan from its first step on by a single step. */
  function Rewriting(plan: ExecutionPlan, late: ExecutionStep): PlanPatch
    requires plan.steps != []
  {
    PlanPatch(plan.planId, plan.version, ReplaceRemaining, Some(plan.steps[0].id), "replan", PreconditionFailed, [late])
  }

  /** Such runs exist: after its first step, a two-step plan is replaced from that step on by a single
      step; the run is over and the only step of its final plan was never executed. */
  lemma RunCanFinishWithoutItsPlan(rules: PatchRules, plan: ExecutionPlan, late: ExecutionStep, evidence: Evidence)
    returns (run: Run)
    requires PlanParses(rules, plan) && |plan.steps| == 2 && plan.mode != PlanAndExecute
    requires plan.runtime.maxReplansPerScenario > 0
    requires forall s <- plan.steps :: s.assertions == []
    requires StepParses(late) && !Warns(late) && late !in plan.steps
    requires forall p: PlanPatch :: !rules.ephemeralPatch(p)
    requires forall q: ExecutionPlan :: !rules.ephemeralPlan(q)
    requires forall text: string :: !BlockedText(rules, text)
    ensures IsRun(rules, plan, run) && run.events == [Clean(evidence), Patched(Rewriting(plan, late))]
    ensures run.states[0] == Start(plan) && run.states[1] == Start(plan).(stepIndex := 1)
    ensures !run.Last().AtStep() && run.Last().plan.steps == [late] && !EveryStepPassed(run)
    ensures !NoBackwardPatch(run, 2)
  {
    var p := Rewriting(plan, late);
    RewriteFromStart(rules, plan, late, p);
    hide Accepted, Edited;
    var m0 := Start(plan);
    assert StepParses(plan.steps[0]) && StepParses(plan.steps[1]);
    var m1 := Next(rules, m0, Clean(evidence));
    var m2 := Next(rules, m1, Patched(p));
    run := Run([m0, m1, m2], [Clean(evidence), Patched(p)]);
    assert m0.Step() in plan.steps && m1.Step() in plan.steps;
    assert !NoBackwardPatch(run, 2) by {
      if NoBackwardPatch(run, 2) {
        FinishedRunPassedEveryStep(rules, plan, run);
      }
    }
  }

  lemma RewriteFromStart(rules: PatchRules, plan: ExecutionPlan, late: ExecutionStep, p: PlanPatch)
    requires PlanParses(rules, plan) && StepParses(late) && !Warns(late)
    requires forall s <- plan.steps :: s.assertions == []
    requires plan.steps != [] && p == Rewriting(plan, late)
    requires !rules.ephemeralPatch(p) && forall q: ExecutionPlan :: !rules.ephemeralPlan(q)
    requires forall text: string :: !BlockedText(rules, text)
    ensures Accepted(rules, plan, p)
    ensures Edited(rules, plan, p) == plan.(version := plan.version + 1, steps := [late])
  {
    assert StepParses(plan.steps[0]);
    assert IndexOfStep(plan.steps, plan.steps[0].id) == 0;
    assert Safety(rules, plan, p).Ok?;
    assert PlanParses(rules, plan.(version := plan.version + 1, steps := [late]));
    assert plan.steps[..0] + [late] == [late];
  }
}
