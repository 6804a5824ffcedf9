/** Version-checked plan edits (src/application/services/plan-patch-applier.service.ts) and what
    any number of them can and cannot do to a plan. */
module PlanPatches {
  import opened Domain

  datatype Operation = InsertAfter | ReplaceStep | ReplaceRemaining | MarkBlocked

  datatype ReplanReason =
    | PreconditionFailed | PostconditionFailed | LocatorNotFoundReason | RecoveryFailed
    | UnexpectedRoute | ModalOrOverlayDetected | AssertionFailed

  datatype PlanPatch = PlanPatch(
    basePlanId: string,
    basePlanVersion: int,
    operation: Operation,
    stepId: Option<string>,
    reason: string,
    replanReason: ReplanReason,
    steps: seq<ExecutionStep>)

  /** The tests the schemas and the destructive-text policy run on text; nothing is assumed about
      them. `ephemeral*` look for element ids, `destructive` for blocked wording. */
  datatype PatchRules = PatchRules(
    ephemeralPatch: PlanPatch -> bool,
    ephemeralPlan: ExecutionPlan -> bool,
    destructive: string -> bool,
    allowDestructive: bool)

  predicate StepParses(s: ExecutionStep) {
    && s.id != "" && s.description != ""
    && s.postconditions != []
    && (s.maxAttempts.Some? ==> s.maxAttempts.value > 0)
    && (s.maxIterations.Some? ==> 0 < s.maxIterations.value <= 100)
  }

  predicate PatchParses(rules: PatchRules, p: PlanPatch) {
    && p.basePlanId != "" && p.basePlanVersion >= 0 && p.reason != ""
    && (forall s <- p.steps :: StepParses(s))
    && (p.operation != MarkBlocked ==> p.stepId.Some? && p.stepId.value != "" && p.steps != [])
    && !rules.ephemeralPatch(p)
  }

  predicate PlanParses(rules: PatchRules, plan: ExecutionPlan) {
    && plan.planId != "" && plan.version >= 0
    && plan.runtime.maxAttemptsPerStep > 0 && plan.runtime.maxReplansPerScenario >= 0
    && plan.steps != [] && (forall s <- plan.steps :: StepParses(s))
    && !rules.ephemeralPlan(plan)
  }

  /** `findIndex`: the first step with this id, or the length when there is none. */
  function IndexOfStep(steps: seq<ExecutionStep>, id: string): (k: nat)
    ensures k <= |steps|
    ensures forall i :: 0 <= i < k ==> steps[i].id != id
    ensures k < |steps| ==> steps[k].id == id
  {
    if steps == [] then 0
    else if steps[0].id == id then 0
    else 1 + IndexOfStep(steps[1..], id)
  }

  predicate Warns(s: ExecutionStep) {
    s.onFailure == ContinueWithWarning
  }

  predicate BlockedText(rules: PatchRules, text: string) {
    rules.destructive(text) && !rules.allowDestructive
  }

  function Affected(plan: ExecutionPlan, p: PlanPatch): seq<ExecutionStep> {
    if p.operation == MarkBlocked || p.operation == InsertAfter || p.stepId.None? then [] else
    var k := IndexOfStep(plan.steps, p.stepId.value);
    if k == |plan.steps| then []
    else if p.operation == ReplaceStep then [plan.steps[k]]
    else plan.steps[k..]
  }

  /** Wording that the tests on text find and the configuration does not allow. */
  ghost predicate HasBlockedWording(rules: PatchRules, s: ExecutionStep) {
    rules.destructive(s.description + " " + s.action.reason) && !rules.allowDestructive
  }

  ghost predicate Unwritable(rules: PatchRules, reason: ReplanReason, s: ExecutionStep) {
    HasBlockedWording(rules, s) || (Warns(s) && reason != ModalOrOverlayDetected)
  }

  /** A replacement has to hold as many assertions, in some one step, as each step it affects. */
  predicate KeepsAssertions(original: ExecutionStep, p: PlanPatch) {
    original.assertions != [] ==> exists s <- p.steps :: |s.assertions| >= |original.assertions|
  }

  /** The steps of a patch one by one: the first that may not be written decides the error. */
  function StepsSafety(rules: PatchRules, reason: ReplanReason, steps: seq<ExecutionStep>): (r: Outcome<()>)
    ensures r.Ok? <==> forall s <- steps :: !Unwritable(rules, reason, s)
  {
    if steps == [] then Ok(()) else
    assert steps[0] in steps && forall s <- steps[1..] :: s in steps;
    if BlockedText(rules, steps[0].description + " " + steps[0].action.reason) then Thrown(NavigationBlocked)
    else if steps[0].onFailure == ContinueWithWarning && reason != ModalOrOverlayDetected then
      Thrown(WeakenedValidation)
    else StepsSafety(rules, reason, steps[1..])
  }

  function Safety(rules: PatchRules, plan: ExecutionPlan, p: PlanPatch): Outcome<()> {
    var _ :- StepsSafety(rules, p.replanReason, p.steps);
    if exists original <- Affected(plan, p) ::
        || (original.postconditions != [] && exists s <- p.steps :: s.postconditions == [])
        || !KeepsAssertions(original, p) then
      Thrown(WeakenedValidation)
    else
      Ok(())
  }

  datatype Applied = Applied(plan: ExecutionPlan, blocked: bool)

  /** Where the text of the plan first changes under an edit of the step at `k`. */
  function Boundary(op: Operation, k: nat): nat {
    if op == InsertAfter then k + 1 else k
  }

  function Splice(steps: seq<ExecutionStep>, op: Operation, k: nat, added: seq<ExecutionStep>): seq<ExecutionStep>
    requires k < |steps|
  {
    match op
    case InsertAfter => steps[..k + 1] + added + steps[k + 1..]
    case ReplaceStep => steps[..k] + added + steps[k + 1..]
    case _ => steps[..k] + added
  }

  function Apply(rules: PatchRules, plan: ExecutionPlan, p: PlanPatch): Outcome<Applied> {
    if !PatchParses(rules, p) then Thrown(SchemaInvalid)
    else if p.basePlanId != plan.planId then Thrown(StalePlanPatch)
    else if p.basePlanVersion != plan.version then Thrown(StalePlanPatch)
    else
      var _ :- Safety(rules, plan, p);
      if p.operation == MarkBlocked then Ok(Applied(plan, true)) else
      var k := IndexOfStep(plan.steps, p.stepId.value);
      if k == |plan.steps| then Thrown(PatchStepNotFound) else
      var edited := plan.(version := plan.version + 1, steps := Splice(plan.steps, p.operation, k, p.steps));
      if PlanParses(rules, edited) then Ok(Applied(edited, false)) else Thrown(SchemaInvalid)
  }

  predicate Accepted(rules: PatchRules, plan: ExecutionPlan, p: PlanPatch) {
    Apply(rules, plan, p).Ok? && !Apply(rules, plan, p).value.blocked
  }

  function Edited(rules: PatchRules, plan: ExecutionPlan, p: PlanPatch): ExecutionPlan
    requires Accepted(rules, plan, p)
  {
    Apply(rules, plan, p).value.plan
  }

  /** The first position an accepted patch may change. */
  function EditPoint(plan: ExecutionPlan, p: PlanPatch): nat
    requires p.stepId.Some?
  {
    Boundary(p.operation, IndexOfStep(plan.steps, p.stepId.value))
  }

  lemma SpliceShape(steps: seq<ExecutionStep>, op: Operation, k: nat, added: seq<ExecutionStep>)
    requires k < |steps| && op != MarkBlocked
    ensures var b, after := Boundary(op, k), Splice(steps, op, k, added);
      && b <= |steps| && b + |added| <= |after|
      && (forall j :: 0 <= j < b ==> after[j] == steps[j])
      && (forall j :: b <= j < b + |added| ==> after[j] == added[j - b])
      && (forall j :: b + |added| <= j < |after| ==>
          b <= j + |steps| - |after| < |steps| && after[j] == steps[j + |steps| - |after|])
  {
    if op == InsertAfter {
      assert |Splice(steps, op, k, added)| == |steps| + |added|;
    } else if op == ReplaceStep {
      assert |Splice(steps, op, k, added)| == |steps| - 1 + |added|;
    }
  }

  lemma AcceptedIsSplice(rules: PatchRules, plan: ExecutionPlan, p: PlanPatch)
    requires Accepted(rules, plan, p)
    ensures p.stepId.Some? && p.steps != [] && p.operation != MarkBlocked
    ensures IndexOfStep(plan.steps, p.stepId.value) < |plan.steps|
    ensures Edited(rules, plan, p) == plan.(
      version := plan.version + 1,
      steps := Splice(plan.steps, p.operation, IndexOfStep(plan.steps, p.stepId.value), p.steps))
  {
  }

  /** What an accepted patch keeps: every step before its edit point stays in place, its own steps
      follow, then whatever it did not replace, unchanged and in order; only the version and the
      steps of a plan change. */
  lemma AcceptedPatchSplices(rules: PatchRules, plan: ExecutionPlan, p: PlanPatch)
    requires Accepted(rules, plan, p)
    ensures p.stepId.Some? && p.steps != [] && p.operation != MarkBlocked
    ensures Edited(rules, plan, p) == plan.(version := plan.version + 1, steps := Edited(rules, plan, p).steps)
    ensures var b, steps, after := EditPoint(plan, p), plan.steps, Edited(rules, plan, p).steps;
      && b <= |steps| && b + |p.steps| <= |after|
      && (forall j :: 0 <= j < b ==> after[j] == steps[j])
      && (forall j :: b <= j < b + |p.steps| ==> after[j] == p.steps[j - b])
      && (forall j :: b + |p.steps| <= j < |after| ==>
          b <= j + |steps| - |after| < |steps| && after[j] == steps[j + |steps| - |after|])
  {
    hide Accepted, Edited;
    AcceptedIsSplice(rules, plan, p);
    SpliceShape(plan.steps, p.operation, IndexOfStep(plan.steps, p.stepId.value), p.steps);
  }

  /** A patch written for one version is refused by the plan it produced, and by every later one. */
  lemma PatchIsSpent(rules: PatchRules, plan: ExecutionPlan, p: PlanPatch, later: ExecutionPlan)
    requires Accepted(rules, plan, p)
    requires later.version > plan.version
    ensures !Accepted(rules, later, p)
    ensures PatchParses(rules, p) && later.planId == plan.planId ==> Apply(rules, later, p) == Thrown(StalePlanPatch)
  {
  }

  ghost predicate FirstUnwritable(rules: PatchRules, p: PlanPatch, i: nat) {
    && i < |p.steps| && Unwritable(rules, p.replanReason, p.steps[i])
    && forall j :: 0 <= j < i ==> !Unwritable(rules, p.replanReason, p.steps[j])
  }

  lemma {:induction false} FirstUnwritableDecides(rules: PatchRules, reason: ReplanReason, steps: seq<ExecutionStep>,
                                                  i: nat)
    requires i < |steps| && Unwritable(rules, reason, steps[i])
    requires forall j :: 0 <= j < i ==> !Unwritable(rules, reason, steps[j])
    ensures StepsSafety(rules, reason, steps)
      == Thrown(if HasBlockedWording(rules, steps[i]) then NavigationBlocked else WeakenedValidation)
  {
    if i > 0 {
      FirstUnwritableDecides(rules, reason, steps[1..], i - 1);
    }
  }

  /** A patch for this plan and version is refused for the first of its steps that may not be written: as blocked
      navigation when its wording is blocked, and else as weakened validation because it only warns. */
  lemma UnwritableIsRefused(rules: PatchRules, plan: ExecutionPlan, p: PlanPatch, i: nat)
    requires PatchParses(rules, p) && p.basePlanId == plan.planId && p.basePlanVersion == plan.version
    requires FirstUnwritable(rules, p, i)
    ensures Apply(rules, plan, p)
      == Thrown(if HasBlockedWording(rules, p.steps[i]) then NavigationBlocked else WeakenedValidation)
  {
    FirstUnwritableDecides(rules, p.replanReason, p.steps, i);
  }

  // ----- what a sequence of accepted patches preserves

  /** `plans` is a chain of plans, each made from the one before by the patch between them. */
  ghost predicate PatchChain(rules: PatchRules, plans: seq<ExecutionPlan>, patches: seq<PlanPatch>) {
    && |plans| == |patches| + 1
    && forall i :: 0 <= i < |patches| ==>
        Accepted(rules, plans[i], patches[i]) && plans[i + 1] == Edited(rules, plans[i], patches[i])
  }

  function MaxAssertions(steps: seq<ExecutionStep>): nat {
    if steps == [] then 0 else
    var rest := MaxAssertions(steps[1..]);
    if |steps[0].assertions| > rest then |steps[0].assertions| else rest
  }

  lemma {:induction false} MaxAssertionsIsMaximum(steps: seq<ExecutionStep>)
    ensures forall s :: s in steps ==> |s.assertions| <= MaxAssertions(steps)
    ensures MaxAssertions(steps) > 0 ==> exists s :: s in steps && |s.assertions| == MaxAssertions(steps)
  {
    if steps != [] {
      MaxAssertionsIsMaximum(steps[1..]);
      assert steps == [steps[0]] + steps[1..];
    }
  }

  lemma PatchKeepsAssertionCount(rules: PatchRules, plan: ExecutionPlan, p: PlanPatch, s: ExecutionStep)
    requires Accepted(rules, plan, p) && s in plan.steps && s.assertions != []
    ensures exists t :: t in Edited(rules, plan, p).steps && |t.assertions| >= |s.assertions|
  {
    var edited := Edited(rules, plan, p).steps;
    var k := IndexOfStep(plan.steps, p.stepId.value);
    if s in Affected(plan, p) {
      assert KeepsAssertions(s, p);
      var t :| t in p.steps && |t.assertions| >= |s.assertions|;
      assert t in edited;
    } else {
      assert plan.steps == plan.steps[..k] + [plan.steps[k]] + plan.steps[k + 1..];
      assert s in edited;
    }
  }

  lemma PatchKeepsMaxAssertions(rules: PatchRules, plan: ExecutionPlan, p: PlanPatch)
    requires Accepted(rules, plan, p)
    ensures MaxAssertions(Edited(rules, plan, p).steps) >= MaxAssertions(plan.steps)
  {
    MaxAssertionsIsMaximum(plan.steps);
    MaxAssertionsIsMaximum(Edited(rules, plan, p).steps);
    if MaxAssertions(plan.steps) > 0 {
      var s :| s in plan.steps && |s.assertions| == MaxAssertions(plan.steps);
      PatchKeepsAssertionCount(rules, plan, p, s);
    }
  }

  /** The steps whose failure only warns, with their multiplicity. */
  ghost function Lenient(steps: seq<ExecutionStep>): multiset<ExecutionStep> {
    multiset(Filter(steps, Warns))
  }

  lemma {:induction false} NoneWarn(steps: seq<ExecutionStep>)
    requires forall s <- steps :: !Warns(s)
    ensures Filter(steps, Warns) == []
  {
    if steps != [] {
      NoneWarn(steps[1..]);
    }
  }

  lemma SpliceAddsNoLenientStep(steps: seq<ExecutionStep>, op: Operation, k: nat, added: seq<ExecutionStep>)
    requires k < |steps| && forall s <- added :: !Warns(s)
    ensures Lenient(Splice(steps, op, k, added)) <= Lenient(steps)
  {
    var a, c, z := steps[..k], [steps[k]], steps[k + 1..];
    NoneWarn(added);
    assert steps == a + c + z;
    FilterThree(a, c, z);
    if op == InsertAfter {
      assert steps[..k + 1] == a + c;
      FilterThree(a + c, added, z);
      FilterAppend(a, c, Warns);
    } else {
      FilterThree(a, added, z);
      FilterAppend(a, added, Warns);
    }
  }

  lemma PatchAddsNoLenientStep(rules: PatchRules, plan: ExecutionPlan, p: PlanPatch)
    requires Accepted(rules, plan, p) && p.replanReason != ModalOrOverlayDetected
    ensures Lenient(Edited(rules, plan, p).steps) <= Lenient(plan.steps)
  {
    AcceptedIsSplice(rules, plan, p);
    assert forall s <- p.steps :: !Warns(s);
    SpliceAddsNoLenientStep(plan.steps, p.operation, IndexOfStep(plan.steps, p.stepId.value), p.steps);
  }

  lemma FilterThree(a: seq<ExecutionStep>, b: seq<ExecutionStep>, c: seq<ExecutionStep>)
    ensures Filter(a + b + c, Warns) == Filter(a, Warns) + Filter(b, Warns) + Filter(c, Warns)
  {
    FilterAppend(a + b, c, Warns);
    FilterAppend(a, b, Warns);
  }

  lemma ShorterChain(rules: PatchRules, plans: seq<ExecutionPlan>, patches: seq<PlanPatch>)
    requires PatchChain(rules, plans, patches) && patches != []
    ensures PatchChain(rules, plans[..|patches|], patches[..|patches| - 1])
    ensures Accepted(rules, plans[|patches| - 1], patches[|patches| - 1])
    ensures plans[|patches|] == Edited(rules, plans[|patches| - 1], patches[|patches| - 1])
  {
  }

  /** Over any chain of accepted patches the largest number of assertions on one step never drops,
      and every step keeps a postcondition. */
  lemma {:induction false} PatchesKeepChecks(rules: PatchRules, plans: seq<ExecutionPlan>, patches: seq<PlanPatch>)
    requires PatchChain(rules, plans, patches)
    ensures MaxAssertions(plans[|patches|].steps) >= MaxAssertions(plans[0].steps)
    ensures patches != [] ==> forall s <- plans[|patches|].steps :: s.postconditions != []
    decreases |patches|
  {
    if patches != [] {
      var n := |patches| - 1;
      ShorterChain(rules, plans, patches);
      PatchesKeepChecks(rules, plans[..n + 1], patches[..n]);
      PatchKeepsMaxAssertions(rules, plans[n], patches[n]);
      assert plans[..n + 1][n] == plans[n] && plans[..n + 1][0] == plans[0];
      assert PlanParses(rules, plans[n + 1]);
    }
  }

  /** Over any chain of accepted patches, none of which was made because of an overlay, no step
      becomes one whose failure only warns. */
  lemma {:induction false} PatchesAddNoLenientStep(rules: PatchRules, plans: seq<ExecutionPlan>,
                                                   patches: seq<PlanPatch>)
    requires PatchChain(rules, plans, patches)
    requires forall i :: 0 <= i < |patches| ==> patches[i].replanReason != ModalOrOverlayDetected
    ensures Lenient(plans[|patches|].steps) <= Lenient(plans[0].steps)
    decreases |patches|
  {
    if patches != [] {
      var n := |patches| - 1;
      ShorterChain(rules, plans, patches);
      PatchesAddNoLenientStep(rules, plans[..n + 1], patches[..n]);
      PatchAddsNoLenientStep(rules, plans[n], patches[n]);
      assert plans[..n + 1][n] == plans[n] && plans[..n + 1][0] == plans[0];
    }
  }

  /** Over any chain of accepted patches no step with blocked wording comes in. */
  lemma {:induction false} PatchesAddNoBlockedWording(rules: PatchRules, plans: seq<ExecutionPlan>,
                                                      patches: seq<PlanPatch>)
    requires PatchChain(rules, plans, patches)
    ensures forall s <- plans[|patches|].steps :: HasBlockedWording(rules, s) ==> s in plans[0].steps
    decreases |patches|
  {
    if patches != [] {
      var n := |patches| - 1;
      ShorterChain(rules, plans, patches);
      PatchesAddNoBlockedWording(rules, plans[..n + 1], patches[..n]);
      PatchAddsNoBlockedWording(rules, plans[n], patches[n]);
      assert plans[..n + 1][n] == plans[n] && plans[..n + 1][0] == plans[0];
    }
  }

  lemma PatchAddsNoBlockedWording(rules: PatchRules, plan: ExecutionPlan, p: PlanPatch)
    requires Accepted(rules, plan, p)
    ensures forall s <- Edited(rules, plan, p).steps :: HasBlockedWording(rules, s) ==> s in plan.steps
  {
    AcceptedIsWritable(rules, plan, p);
    AcceptedPatchSplices(rules, plan, p);
    hide Accepted, Edited, HasBlockedWording;
  }

  lemma AcceptedIsWritable(rules: PatchRules, plan: ExecutionPlan, p: PlanPatch)
    requires Accepted(rules, plan, p)
    ensures forall s <- p.steps :: !HasBlockedWording(rules, s)
  {
    assert forall s <- p.steps :: !Unwritable(rules, p.replanReason, s);
  }

  /** Step `k` lost its assertions to as many console checks and nothing else changed. */
  ghost predicate Hollows(edited: ExecutionPlan, plan: ExecutionPlan, k: nat) {
    && k < |plan.steps| == |edited.steps|
    && (forall i :: 0 <= i < |plan.steps| && i != k ==> edited.steps[i] == plan.steps[i])
    && edited.steps[k] == plan.steps[k].(assertions := edited.steps[k].assertions)
    && |edited.steps[k].assertions| == |plan.steps[k].assertions|
    && forall c <- edited.steps[k].assertions :: c == NoConsoleErrors
  }

  /** The guard counts assertions and never compares them: any plan whose step `k` asserts something
      can have those assertions exchanged for as many console checks. */
  lemma AssertionsAreOnlyCounted(rules: PatchRules, plan: ExecutionPlan, k: nat)
    requires PlanParses(rules, plan) && k < |plan.steps| && IndexOfStep(plan.steps, plan.steps[k].id) == k
    requires !Warns(plan.steps[k])
    requires forall p: PlanPatch :: !rules.ephemeralPatch(p)
    requires forall q: ExecutionPlan :: !rules.ephemeralPlan(q)
    requires forall text: string :: !BlockedText(rules, text)
    ensures exists p: PlanPatch :: Accepted(rules, plan, p) && Hollows(Edited(rules, plan, p), plan, k)
  {
    var s := plan.steps[k];
    var hollow := s.(assertions := seq(|s.assertions|, i => NoConsoleErrors));
    var p := PlanPatch(plan.planId, plan.version, ReplaceStep, Some(s.id), "hollow", AssertionFailed, [hollow]);
    HollowingIsAccepted(rules, plan, k, p, hollow);
    assert Hollows(Edited(rules, plan, p), plan, k);
  }

  lemma HollowingIsAccepted(rules: PatchRules, plan: ExecutionPlan, k: nat, p: PlanPatch, hollow: ExecutionStep)
    requires PlanParses(rules, plan) && k < |plan.steps| && IndexOfStep(plan.steps, plan.steps[k].id) == k
    requires !Warns(plan.steps[k])
    requires hollow == plan.steps[k].(assertions := hollow.assertions)
    requires |hollow.assertions| == |plan.steps[k].assertions|
    requires p
      == PlanPatch(plan.planId, plan.version, ReplaceStep, Some(plan.steps[k].id), "hollow", AssertionFailed, [hollow])
    requires !rules.ephemeralPatch(p) && forall q: ExecutionPlan :: !rules.ephemeralPlan(q)
    requires forall text: string :: !BlockedText(rules, text)
    ensures Accepted(rules, plan, p)
    ensures Edited(rules, plan, p).steps == plan.steps[k := hollow]
  {
    var s := plan.steps[k];
    assert s in plan.steps;
    assert p.steps == [hollow] && hollow in p.steps;
    assert StepParses(hollow);
    assert KeepsAssertions(s, p);
    assert Affected(plan, p) == [s];
    assert Safety(rules, plan, p) == Ok(());
    var steps := Splice(plan.steps, ReplaceStep, k, [hollow]);
    assert steps == plan.steps[k := hollow];
    assert PlanParses(rules, plan.(version := plan.version + 1, steps := steps));
  }

  /** All assertions of some steps, each as often as it occurs. */
  ghost function AssertionsOf(steps: seq<ExecutionStep>): multiset<Condition> {
    if steps == [] then multiset{} else multiset(steps[0].assertions) + AssertionsOf(steps[1..])
  }

  lemma {:induction false} AssertionsOfBoth(a: seq<ExecutionStep>, b: seq<ExecutionStep>)
    ensures AssertionsOf(a + b) == AssertionsOf(a) + AssertionsOf(b)
  {
    if a == [] {
      assert a + b == b;
    } else {
      assert (a + b)[1..] == a[1..] + b;
      AssertionsOfBoth(a[1..], b);
    }
  }

  lemma AssertionsOfThree(a: seq<ExecutionStep>, b: seq<ExecutionStep>, c: seq<ExecutionStep>)
    ensures AssertionsOf(a + b + c) == AssertionsOf(a) + AssertionsOf(b) + AssertionsOf(c)
  {
    AssertionsOfBoth(a + b, c);
    AssertionsOfBoth(a, b);
  }

  /** What a splice cuts out. */
  function CutOut(steps: seq<ExecutionStep>, op: Operation, k: nat): seq<ExecutionStep>
    requires k < |steps|
  {
    match op
    case InsertAfter => []
    case ReplaceStep => [steps[k]]
    case _ => steps[k..]
  }

  lemma Exchange<T>(a: multiset<T>, b: multiset<T>, c: multiset<T>, z: multiset<T>)
    ensures a + b + z + c == a + c + z + b
  {
  }

  lemma SpliceBalances(steps: seq<ExecutionStep>, op: Operation, k: nat, added: seq<ExecutionStep>)
    requires k < |steps|
    ensures AssertionsOf(Splice(steps, op, k, added)) + AssertionsOf(CutOut(steps, op, k))
      == AssertionsOf(steps) + AssertionsOf(added)
  {
    var b := Boundary(op, k);
    var a, c := steps[..b], CutOut(steps, op, k);
    var z := steps[b + |c|..];
    SplitAt(steps, op, k, added);
    hide AssertionsOf, Splice, CutOut;
    AssertionsOfThree(a, c, z);
    AssertionsOfThree(a, added, z);
    Exchange(AssertionsOf(a), AssertionsOf(added), AssertionsOf(c), AssertionsOf(z));
  }

  lemma SplitAt(steps: seq<ExecutionStep>, op: Operation, k: nat, added: seq<ExecutionStep>)
    requires k < |steps|
    ensures var b, c := Boundary(op, k), CutOut(steps, op, k);
      && b + |c| <= |steps| && steps == steps[..b] + c + steps[b + |c|..]
      && Splice(steps, op, k, added) == steps[..b] + added + steps[b + |c|..]
  {
    assert op == InsertAfter ==> steps[k + 1..] == steps[k + 1 + 0..];
  }

  /** A patch takes away the assertions of the steps it affects, brings in those of its own steps, and touches
      no others. */
  lemma AssertionsBalance(rules: PatchRules, plan: ExecutionPlan, p: PlanPatch)
    requires Accepted(rules, plan, p)
    ensures AssertionsOf(Edited(rules, plan, p).steps) + AssertionsOf(Affected(plan, p))
      == AssertionsOf(plan.steps) + AssertionsOf(p.steps)
  {
    AcceptedIsSplice(rules, plan, p);
    hide Accepted, Edited, AssertionsOf;
    SpliceBalances(plan.steps, p.operation, IndexOfStep(plan.steps, p.stepId.value), p.steps);
  }

  /** The patch asserts everything that the steps it affects assert. */
  ghost predicate WritesBack(plan: ExecutionPlan, p: PlanPatch) {
    AssertionsOf(Affected(plan, p)) <= AssertionsOf(p.steps)
  }

  /** An accepted patch keeps the assertions of a plan exactly when it writes back those of the steps it
      affects. */
  lemma PatchKeepsAssertionsExactly(rules: PatchRules, plan: ExecutionPlan, p: PlanPatch)
    requires Accepted(rules, plan, p)
    ensures AssertionsOf(plan.steps) <= AssertionsOf(Edited(rules, plan, p).steps) <==> WritesBack(plan, p)
  {
    AssertionsBalance(rules, plan, p);
    hide Accepted, Edited, Affected, AssertionsOf;
    var edited, affected := AssertionsOf(Edited(rules, plan, p).steps), AssertionsOf(Affected(plan, p));
    var before, added := AssertionsOf(plan.steps), AssertionsOf(p.steps);
    forall c: Condition
      ensures before[c] <= edited[c] <==> affected[c] <= added[c]
    {
      assert (edited + affected)[c] == (before + added)[c];
    }
    assert before <= edited <==> forall c :: before[c] <= edited[c];
    assert affected <= added <==> forall c :: affected[c] <= added[c];
  }

  /** Over any chain of such patches no assertion is lost. */
  lemma {:induction false} PatchesKeepAssertions(rules: PatchRules, plans: seq<ExecutionPlan>, patches: seq<PlanPatch>)
    requires PatchChain(rules, plans, patches)
    requires forall i :: 0 <= i < |patches| ==> WritesBack(plans[i], patches[i])
    ensures AssertionsOf(plans[0].steps) <= AssertionsOf(plans[|patches|].steps)
    decreases |patches|
  {
    if patches != [] {
      hide WritesBack, AssertionsOf;
      var n := |patches| - 1;
      ShorterChain(rules, plans, patches);
      PatchesKeepAssertions(rules, plans[..n + 1], patches[..n]);
      PatchKeepsAssertionsExactly(rules, plans[n], patches[n]);
      assert plans[..n + 1][n] == plans[n] && plans[..n + 1][0] == plans[0];
    }
  }
}
