/** Values shared by the executor, the planner and the reactive runner. */
module Domain {

  datatype Option<+T> = None | Some(value: T)

  /** Errors raised by the services. `Foreign` is whatever the browser, the model provider or a
      schema library raises; only the services themselves raise the other codes. */
  datatype Error =
    | StaleObservation
    | LocatorNotFound
    | StalePlanPatch
    | PatchStepNotFound
    | WeakenedValidation
    | NavigationBlocked
    | ReplanUnavailable
    | DynamicData
    | SchemaInvalid
    | Foreign(message: string)

  /** A call either returns or throws; `:-` lets the error travel to the caller. */
  datatype Outcome<+T> = Ok(value: T) | Thrown(error: Error) {
    predicate IsFailure() {
      Thrown?
    }

    function PropagateFailure<U>(): Outcome<U>
      requires Thrown?
    {
      Thrown(error)
    }

    function Extract(): T
      requires Ok?
    {
      value
    }
  }

  /** How a foreign call ended: it can reject, but never with one of the services' own codes. */
  datatype Reply<+T> = Replied(value: T) | Rejected(message: string) {
    function ToOutcome(): Outcome<T> {
      if Replied? then Ok(value) else Thrown(Foreign(message))
    }
  }

  datatype Locator =
    | Role(role: string, name: Option<string>)
    | Label(text: string)
    | Placeholder(text: string)
    | Text(text: string)
    | TextAny(texts: seq<string>)
    | TestId(testId: string)
    | Document
    | Semantic(semanticKey: string, intent: string, candidates: seq<Locator>)
    | Index(target: Locator, index: nat)

  datatype Element = Element(
    id: string,
    role: string,
    name: string,
    text: Option<string>,
    tagName: Option<string>,
    editable: bool,
    inViewport: bool,
    locator: Locator)

  datatype Observation = Observation(
    observationId: string,
    url: string,
    visibleTexts: seq<string>,
    elements: seq<Element>)

  /** One action vocabulary, over locators in a plan and over element ids once resolved. `Other`
      stands for the kinds whose payload no service looks at. */
  datatype Action<T> =
    | Click(target: T, reason: string)
    | Fill(target: T, payload: string, reason: string)
    | Select(target: T, payload: string, reason: string)
    | UploadFile(target: T, payload: string, reason: string)
    | RichTextFill(target: T, payload: string, reason: string)
    | Extract(target: T, payload: string, reason: string)
    | Drag(source: T, target: T, reason: string)
    | Press(key: string, onto: Option<T>, reason: string)
    | AssertVisible(onto: Option<T>, payload: string, reason: string)
    | TypeText(onto: Option<T>, payload: string, reason: string)
    | Navigate(route: string, reason: string)
    | ClickOutside(reason: string)
    | ClickAtCoordinates(x: nat, y: nat, reason: string)
    | WaitForStable(timeoutMs: nat, reason: string)
    | CompareScreenshot(payload: string, reason: string)
    | Other(kind: string, onto: Option<T>, reason: string)
  {
    /** The `target` (or `targetElementId`) property, when the action has one. */
    function Target(): Option<T> {
      match this
      case Press(_, onto, _) => onto
      case AssertVisible(onto, _, _) => onto
      case TypeText(onto, _, _) => onto
      case Other(_, onto, _) => onto
      case Navigate(_, _) => None
      case ClickOutside(_) => None
      case ClickAtCoordinates(_, _, _) => None
      case WaitForStable(_, _) => None
      case CompareScreenshot(_, _) => None
      case _ => Some(target)
    }

    function TypeName(): string {
      match this
      case Click(_, _) => "click"
      case Fill(_, _, _) => "fill"
      case Select(_, _, _) => "select"
      case UploadFile(_, _, _) => "uploadFile"
      case RichTextFill(_, _, _) => "richTextFill"
      case Extract(_, _, _) => "extract"
      case Drag(_, _, _) => "drag"
      case Press(_, _, _) => "press"
      case AssertVisible(_, _, _) => "assertVisible"
      case TypeText(_, _, _) => "typeText"
      case Navigate(_, _) => "navigate"
      case ClickOutside(_) => "clickOutside"
      case ClickAtCoordinates(_, _, _) => "clickAtCoordinates"
      case WaitForStable(_, _) => "waitForStable"
      case CompareScreenshot(_, _) => "compareScreenshot"
      case Other(kind, _, _) => kind
    }
  }

  type PlanAction = Action<Locator>
  type QaAction = Action<string>

  datatype Condition =
    | FieldValueContains(target: Locator, expected: string)
    | ElementVisible(onto: Option<Locator>, shown: Option<string>)
    | TextVisible(text: string)
    | TextAnyVisible(texts: seq<string>)
    | UrlContains(fragment: string)
    | NoConsoleErrors
    | RuntimeState(kind: string, key: string, expected: string)
    | NetworkState(expected: string, pattern: Option<string>)

  datatype BoundTarget = BoundTarget(
    originalElementId: string, observationId: string, locator: Locator, humanName: string)

  /** A condition whose locators were replaced by elements of one observation. */
  datatype BoundExpected =
    | FieldHolds(field: BoundTarget, expected: string)
    | ElementShows(element: Option<BoundTarget>, shown: Option<string>)
    | TextShows(text: string)
    | UrlHolds(fragment: string)
    | ConsoleClean

  datatype FailurePolicy = AskLlmToReplan | Recover | Block | ContinueWithWarning

  datatype Mode = HybridGuarded | FullReactive | PlanAndExecute | Orchestrator

  datatype ExecutionStep = ExecutionStep(
    id: string,
    description: string,
    preconditions: seq<Condition>,
    action: PlanAction,
    postconditions: seq<Condition>,
    assertions: seq<Condition>,
    onFailure: FailurePolicy,
    maxAttempts: Option<int>,
    repeatUntil: Option<Condition>,
    maxIterations: Option<int>)

  datatype PlanRuntime = PlanRuntime(maxAttemptsPerStep: int, maxReplansPerScenario: int)

  datatype ExecutionPlan = ExecutionPlan(
    planId: string,
    version: int,
    mode: Mode,
    runtime: PlanRuntime,
    steps: seq<ExecutionStep>,
    assertions: seq<Condition>)

  /** Run data generated or extracted so far. */
  type Store = map<string, string>

  datatype Snapshot = Snapshot(observationId: string, url: string, states: map<string, string>)

  datatype AttemptResult = Passed | Failed | RecoveredAttempt | BlockedAttempt

  datatype AttemptRecord = AttemptRecord(actionType: string, result: AttemptResult)

  datatype AssertionResult = AssertionResult(ok: bool, kind: string)

  /** The elements of `s` that satisfy `p`, in order. */
  function Filter<T(!new)>(s: seq<T>, p: T -> bool): (r: seq<T>)
    ensures forall x :: x in r <==> x in s && p(x)
  {
    if s == [] then [] else
    (if p(s[0]) then [s[0]] else []) + Filter(s[1..], p)
  }

  /** The first element of `s` that satisfies `p`. */
  function Find<T(!new)>(s: seq<T>, p: T -> bool): (r: Option<T>)
    ensures r.Some? ==> r.value in s && p(r.value)
    ensures r.None? ==> forall x :: x in s ==> !p(x)
  {
    if s == [] then None
    else if p(s[0]) then Some(s[0])
    else Find(s[1..], p)
  }

  /** An element the predicate holds of, with none before it. */
  lemma {:induction false} FindIsFirst<T(!new)>(s: seq<T>, p: T -> bool) returns (k: nat)
    requires Find(s, p).Some?
    ensures k < |s| && Find(s, p) == Some(s[k]) && p(s[k]) && forall j :: 0 <= j < k ==> !p(s[j])
  {
    if p(s[0]) {
      k := 0;
    } else {
      k := FindIsFirst(s[1..], p);
      k := k + 1;
    }
  }

  lemma {:induction false} FilterAppend<T(!new)>(s: seq<T>, t: seq<T>, p: T -> bool)
    ensures Filter(s + t, p) == Filter(s, p) + Filter(t, p)
  {
    if s == [] {
      assert s + t == t;
    } else {
      assert (s + t)[1..] == s[1..] + t;
      FilterAppend(s[1..], t, p);
    }
  }

  lemma {:induction false} FilterMultiplicity<T(!new)>(s: seq<T>, p: T -> bool, x: T)
    ensures multiset(Filter(s, p))[x] == if p(x) then multiset(s)[x] else 0
  {
    if s != [] {
      FilterMultiplicity(s[1..], p, x);
      assert s == [s[0]] + s[1..];
      assert multiset(s)[x] == multiset([s[0]])[x] + multiset(s[1..])[x];
    }
  }

  lemma FilterOfPermutation<T(!new)>(s: seq<T>, t: seq<T>, p: T -> bool)
    requires multiset(s) == multiset(t)
    ensures multiset(Filter(s, p)) == multiset(Filter(t, p))
  {
    var a, b, m := multiset(Filter(s, p)), multiset(Filter(t, p)), multiset(s);
    forall x: T
      ensures a[x] == b[x]
    {
      FilterMultiplicity(s, p, x);
      FilterMultiplicity(t, p, x);
    }
  }
}
