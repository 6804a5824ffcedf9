/** The reactive runner (src/application/services/reactive-runner.service.ts): it drives a scenario's
    tasks one decision at a time, and what it may call a success is guarded at several places. */
module ReactiveRunner {
  import opened ActionPolicy
  import opened Domain
  import opened Text
  import opened TaskGraph
  import opened Locators
  import opened Harness
  import opened StepServices

  datatype Status = Pending | TaskPassed | TaskBlocked | Skipped

  /** What a task is about. */
  datatype Goal = Goal(id: string, title: string, expected: string, kind: Option<OutcomeKind>, target: string)

  /** A task with the fields the runner changes in place: `status`, and how many attempts it has. */
  datatype Task = Task(goal: Goal, dependsOn: seq<string>, status: Status, attempts: nat)

  datatype Step = Step(
    stepId: string, taskId: string, action: QaAction, bound: BoundExpected, validation: Option<AssertionResult>)

  datatype Bug = Bug(bugId: string, taskId: string)

  /** The text tests of the runner; nothing is assumed about them. `matches` tests a text against the
      targets of a task's expected outcome, of which `primary` is the first. */
  datatype Lexicon = Lexicon(
    consoleSafety: (string, string) -> bool,
    matches: (string, string) -> bool,
    primary: string -> Option<string>,
    loginText: string -> bool,
    loginUrl: string -> bool,
    onLoginRoute: Observation -> bool,
    showsLoginText: Observation -> bool,
    showsApp: Observation -> bool,
    changed: (Observation, Observation) -> bool)

  datatype ReactiveConfig = ReactiveConfig(
    maxActionsPerTask: nat,
    maxAttemptsPerTask: nat,
    maxSchemaRetries: nat,
    authenticated: bool)

  function MaxCycles(config: ReactiveConfig): nat {
    if config.maxActionsPerTask > config.maxAttemptsPerTask then config.maxActionsPerTask else config.maxAttemptsPerTask
  }

  /** How often the model is asked before its decisions are given up. */
  function Questions(config: ReactiveConfig): nat {
    (if config.maxSchemaRetries > 1 then config.maxSchemaRetries else 1) + 1
  }

  function StepId(n: nat): string {
    Numbered("S", n, 4)
  }

  function BugId(n: nat): string {
    Numbered("BUG-", n, 3)
  }

  // ----- what counts as proof

  predicate IsLogoutTask(g: Goal) {
    g.kind == Some(Deauthentication)
  }

  predicate IsThemeTask(g: Goal) {
    g.kind == Some(AppearanceChange)
  }

  predicate IsMenuTask(g: Goal) {
    g.kind == Some(Disclosure)
  }

  predicate IsConsoleSafetyTask(lex: Lexicon, g: Goal) {
    lex.consoleSafety(g.title, g.expected)
  }

  predicate IsLogoutProof(lex: Lexicon, e: BoundExpected) {
    match e
    case UrlHolds(fragment) => lex.loginUrl(fragment)
    case TextShows(text) => lex.loginText(text)
    case ElementShows(_, Some(shown)) => shown != "" && lex.loginText(shown)
    case _ => false
  }

  predicate IsIntermediateLogoutStep(lex: Lexicon, g: Goal, a: QaAction, e: BoundExpected) {
    IsLogoutTask(g) && a.Click? && e.TextShows? && lex.matches(g.target, e.text)
  }

  predicate IsIntermediateThemeStep(lex: Lexicon, g: Goal, a: QaAction, e: BoundExpected) {
    IsThemeTask(g) && a.Click? && lex.primary(g.target).Some? &&
    match e
    case TextShows(text) => lex.matches(g.target, text)
    case ElementShows(_, Some(shown)) => shown != "" && lex.matches(g.target, shown)
    case _ => false
  }

  predicate StepSucceeded(lex: Lexicon, g: Goal, a: QaAction, execOk: bool, validationOk: bool, recoveredOk: bool,
                          e: BoundExpected, changed: bool) {
    if !validationOk then false
    else if IsLogoutTask(g) && !IsLogoutProof(lex, e) then false
    else if IsIntermediateLogoutStep(lex, g, a, e) then false
    else if IsIntermediateThemeStep(lex, g, a, e) then false
    else if e.ConsoleClean? && !IsConsoleSafetyTask(lex, g) then execOk && changed
    else if execOk then true
    else if a.TypeName() in {"assertVisible", "assertText", "abortScenario"} then false
    else recoveredOk
  }

  predicate ProvesOnlyItsTarget(a: QaAction, e: BoundExpected) {
    a.Target().Some? && a.Target().value != "" && e.ElementShows? && e.element.Some?
    && e.element.value.originalElementId == a.Target().value
  }

  function Caption(e: Element): string {
    e.name + " " + (if e.text.Some? then e.text.value else "")
  }

  predicate ActsOnOutcome(lex: Lexicon, g: Goal, a: QaAction, obs: Observation) {
    a.Target().Some? && a.Target().value != "" &&
    var e := Domain.Find(obs.elements, (e: Element) => e.id == a.Target().value);
    e.Some? && lex.matches(g.target, Caption(e.value))
  }

  /** A weak console check after a click on the outcome's menu is promoted to seeing the outcome's text. */
  function Promoted(lex: Lexicon, g: Goal, a: QaAction, e: BoundExpected, obs: Observation): BoundExpected {
    if (IsLogoutTask(g) || IsThemeTask(g) || IsMenuTask(g)) && e.ConsoleClean?
      && ActsOnOutcome(lex, g, a, obs) && lex.primary(g.target).Some?
    then TextShows(lex.primary(g.target).value)
    else e
  }

  datatype Issue = WeakExpectation | NoLogoutProof | ThemeOnConsole | ConsoleOnly | Raised(error: Error)

  /** Why a decision is rejected before it is executed, if it is. */
  function DecisionIssue(lex: Lexicon, g: Goal, a: QaAction, e: BoundExpected, obs: Observation): Option<Issue> {
    if ProvesOnlyItsTarget(a, e) then Some(WeakExpectation)
    else if IsIntermediateLogoutStep(lex, g, a, e) then None
    else if IsLogoutTask(g) && !IsLogoutProof(lex, e) then Some(NoLogoutProof)
    else if IsThemeTask(g) && e.ConsoleClean? && !ActsOnOutcome(lex, g, a, obs) then Some(ThemeOnConsole)
    else if e.ConsoleClean? && !IsConsoleSafetyTask(lex, g) then Some(ConsoleOnly)
    else None
  }

  /** Bind an expectation to the elements of the observation it was decided on. */
  function BindExpected(index: LocatorIndex, obs: Observation, e: ExpectedAfter): Outcome<BoundExpected> {
    match e
    case AfterField(id, value) =>
      var target :- ResolveIn(index, obs.observationId, id);
      Ok(FieldHolds(target, value))
    case AfterElement(Some(id), shown) =>
      var target :- ResolveIn(index, obs.observationId, id);
      Ok(ElementShows(Some(target), shown))
    case AfterElement(None, shown) => Ok(ElementShows(None, shown))
    case AfterText(text) => Ok(TextShows(text))
    case AfterUrl(fragment) => Ok(UrlHolds(fragment))
    case AfterConsole => Ok(ConsoleClean)
  }

  /** An accepted decision never rests on the console alone, except for a console-safety task. */
  lemma AcceptedDecisionIsNotConsoleOnly(lex: Lexicon, g: Goal, a: QaAction, e: BoundExpected, obs: Observation)
    requires DecisionIssue(lex, g, a, e, obs).None?
    ensures e.ConsoleClean? ==> IsConsoleSafetyTask(lex, g) && !IsLogoutTask(g)
  {
  }

  /** Everything that is the same throughout a run. */
  datatype Setting = Setting(lex: Lexicon, config: ReactiveConfig, world: World)

  /** The check on the page after a semantic logout click. */
  function LogoutCheck(lex: Lexicon, after: Observation): AssertionResult {
    AssertionResult(lex.onLoginRoute(after) || lex.showsLoginText(after), "logout_state")
  }

  /** The check on the page after a semantic theme click. */
  function ThemeCheck(lex: Lexicon, before: Observation, after: Observation): AssertionResult {
    AssertionResult(lex.changed(before, after), "appearance_state")
  }

  function OutcomeCheck(lex: Lexicon, g: Goal, before: Observation, after: Observation): AssertionResult {
    if IsLogoutTask(g) then LogoutCheck(lex, after) else ThemeCheck(lex, before, after)
  }

  const SATISFIED: AssertionResult := AssertionResult(true, "state_already_satisfied")
  const CLOSE: QaAction := Press("Escape", None, "close transient UI")

  predicate HasIntent(g: Goal) {
    IsLogoutTask(g) || IsThemeTask(g) || IsMenuTask(g)
  }

  /** A visible element that names the outcome of the task. */
  predicate NamesOutcome(lex: Lexicon, g: Goal, obs: Observation, e: Element) {
    e in obs.elements && e.inViewport && lex.matches(g.target, Caption(e))
  }

  /** The first of them. */
  ghost predicate FirstNaming(lex: Lexicon, g: Goal, obs: Observation, e: Element) {
    && NamesOutcome(lex, g, obs, e)
    && exists k :: 0 <= k < |obs.elements| && obs.elements[k] == e
                   && forall j :: 0 <= j < k ==> !NamesOutcome(lex, g, obs, obs.elements[j])
  }

  /** The task is about a logout or the appearance, and something visible names its outcome. */
  ghost predicate Nameable(lex: Lexicon, g: Goal, obs: Observation) {
    && g.kind in {Some(Deauthentication), Some(AppearanceChange)}
    && exists e <- obs.elements :: NamesOutcome(lex, g, obs, e)
  }

  function Naming(lex: Lexicon, g: Goal, obs: Observation): Option<Element> {
    Domain.Find(obs.elements, (e: Element) => e.inViewport && lex.matches(g.target, Caption(e)))
  }

  lemma NamingIsFirst(lex: Lexicon, g: Goal, obs: Observation)
    ensures Naming(lex, g, obs).Some? ==> FirstNaming(lex, g, obs, Naming(lex, g, obs).value)
    ensures Naming(lex, g, obs).None? ==> forall e <- obs.elements :: !NamesOutcome(lex, g, obs, e)
  {
    var p := (e: Element) => e.inViewport && lex.matches(g.target, Caption(e));
    assert forall e <- obs.elements :: p(e) <==> NamesOutcome(lex, g, obs, e);
    hide NamesOutcome;
    if Domain.Find(obs.elements, p).Some? {
      var k := FindIsFirst(obs.elements, p);
      assert forall j :: 0 <= j < k ==> obs.elements[j] in obs.elements;
    }
  }

  lemma NameableExactly(lex: Lexicon, g: Goal, obs: Observation)
    ensures Nameable(lex, g, obs) <==> (IsLogoutTask(g) || IsThemeTask(g)) && Naming(lex, g, obs).Some?
    ensures !(IsLogoutTask(g) && IsThemeTask(g))
  {
    hide NamesOutcome, Naming;
    NamingIsFirst(lex, g, obs);
  }

  // ----- decisions

  /** What is made of a decision of the model: `asked` is the action it named, `action` what that expands to. */
  datatype Decision = Decision(
    accepted: bool, bound: BoundExpected, asked: QaAction, action: QaAction, fallback: QaAction)

  /** The decision asked for at `k` on the observation cannot be used: it is stale, names something the element
      map does not have, cannot be expanded, or raises an issue. */
  predicate Unusable(w: Setting, h: History, g: Goal, obs: Observation, k: nat) {
    && k < |h| && h[k].Proposed? && h[k].on == obs && h[k].envelope.Replied?
    && var envelope := h[k].envelope.value;
       var bound := BindExpected(MapOf(At(h, k).mapped), obs, envelope.expected);
      || envelope.observationId != obs.observationId
      || bound.Thrown?
      || (k + 1 < |h| && h[k + 1].Refined? && h[k + 1].raw == envelope.action
          && (h[k + 1].fine.None? || RaisesIssue(w.lex, g, obs, h[k + 1].fine.value, bound.value)))
  }

  predicate RaisesIssue(lex: Lexicon, g: Goal, obs: Observation, action: QaAction, bound: BoundExpected) {
    DecisionIssue(lex, g, action, Promoted(lex, g, action, bound, obs), obs).Some?
  }

  /** The last thing that happened is that a decision, asked for on the observation, was expanded: its
      expectation is bound and promoted, and it raises no issue. */
  predicate Sound(w: Setting, h: History, g: Goal, obs: Observation, d: Decision) {
    && Reads(w, h, g, obs, d)
    && DecisionIssue(w.lex, g, d.action, d.bound, obs).None?
  }

  predicate Reads(w: Setting, h: History, g: Goal, obs: Observation, d: Decision) {
    && |h| >= 2 && h[|h| - 1] == Refined(d.asked, Some(d.action))
    && h[|h| - 2].Proposed? && h[|h| - 2].on == obs && h[|h| - 2].envelope.Replied?
    && var envelope := h[|h| - 2].envelope.value;
       var bound := BindExpected(MapOf(At(h, |h| - 2).mapped), obs, envelope.expected);
      && envelope.observationId == obs.observationId && d.asked == envelope.action && d.fallback == envelope.fallback
      && bound.Ok? && d.bound == Promoted(w.lex, g, d.action, bound.value, obs)
  }

  /** The last thing that happened is that, instead of an unusable decision, a click on a visible element that
      names the outcome was expanded, to be proved by the outcome's text. */
  ghost predicate Corrects(w: Setting, h: History, g: Goal, obs: Observation, d: Decision) {
    && HasIntent(g) && d.bound.TextShows? && d.fallback == CLOSE
    && h != [] && h[|h| - 1] == Refined(d.asked, Some(d.action))
    && (exists e :: FirstNaming(w.lex, g, obs, e) && CorrectsTo(w.lex, g, e, d))
    && exists k: nat :: k < |h| - 1 && Unusable(w, h, g, obs, k)
  }

  /** The click is proved by the first text the outcome has, or by the name of the element where it has none. */
  predicate CorrectsTo(lex: Lexicon, g: Goal, e: Element, d: Decision) {
    && d.asked == Click(e.id, "autocorrect")
    && (lex.primary(g.target).Some? ==> d.bound == TextShows(lex.primary(g.target).value))
    && (lex.primary(g.target).None? ==> d.bound == TextShows(e.name))
  }

  ghost predicate Accepts(w: Setting, h: History, g: Goal, obs: Observation, d: Decision) {
    Sound(w, h, g, obs, d) || Corrects(w, h, g, obs, d)
  }

  /** Every one of these questions got an unusable decision. */
  ghost predicate AllUnusable(w: Setting, h: History, from: nat, g: Goal, obs: Observation, asked: seq<nat>) {
    && (forall i :: 0 <= i < |asked| ==> from <= asked[i] < |h| && Unusable(w, h, g, obs, asked[i]))
    && forall i, j :: 0 <= i < j < |asked| ==> asked[i] < asked[j]
  }

  /** All questions got unusable decisions, the last of them naming the action, and nothing on the page could
      correct them. */
  ghost predicate GivesUp(w: Setting, h: History, from: nat, g: Goal, obs: Observation, action: QaAction) {
    && (HasIntent(g) ==> forall e <- obs.elements :: !NamesOutcome(w.lex, g, obs, e))
    && exists asked: seq<nat> ::
        |asked| == Questions(w.config) && LastNames(h, asked, action) && AllUnusable(w, h, from, g, obs, asked)
  }

  predicate LastNames(h: History, asked: seq<nat>, action: QaAction) {
    && asked != [] && asked[|asked| - 1] < |h|
    && h[asked[|asked| - 1]].Proposed? && h[asked[|asked| - 1]].envelope.Replied?
    && h[asked[|asked| - 1]].envelope.value.action == action
  }

  // ----- what is executed for a task

  /** The action executed at `n` is that of a decision accepted right before, on an observation shown since `from`,
      and the policy permits it by the attempts recorded so far. */
  ghost predicate Launched(w: Setting, h: History, from: nat, g: Goal, n: nat, obs: Observation, d: Decision) {
    && from <= n < |h| && IsMain(h[n]) && h[n].action == d.action
    && Shown(h[..n], from, obs) && Accepts(w, h[..n], g, obs, d)
    && Permits(w.world.config, d.action, At(h, n).attempts)
  }

  /** The action executed at `n` is a click, for a logout or theme task, on a visible element of an observation
      shown since `from` that names the outcome. */
  ghost predicate Clicks(w: Setting, h: History, from: nat, g: Goal, n: nat, obs: Observation, e: Element) {
    && from <= n < |h| && IsMain(h[n]) && h[n].action == Click(e.id, "semantic click")
    && (IsLogoutTask(g) || IsThemeTask(g))
    && Shown(h[..n], from, obs) && FirstNaming(w.lex, g, obs, e)
  }

  ghost predicate Lawful(w: Setting, h: History, from: nat, g: Goal, n: nat) {
    (exists obs, d :: Launched(w, h, from, g, n, obs, d)) || exists obs, e :: Clicks(w, h, from, g, n, obs, e)
  }

  /** Nothing else is executed: a decision that was refused never is. */
  ghost predicate OnlyLawful(w: Setting, h: History, from: nat, g: Goal) {
    forall n :: from <= n < |h| && IsMain(h[n]) ==> Lawful(w, h, from, g, n)
  }

  // ----- what a step shows

  /** After the execution at `n` the attempt was noted, waiting was over and noted if in vain, and the page was
      observed and mapped, up to `m`. */
  predicate Settles(h: History, n: nat, m: nat, after: Observation, notes: bool) {
    && n + 5 <= m <= |h| && h[n + 1].Noted? && h[n + 2].Settled? && h[n + 2].stable.Replied?
    && m == (if notes && !h[n + 2].stable.value then n + 6 else n + 5)
    && (m == n + 6 ==> h[n + 3] == Noted(AttemptRecord("waitForQuiescence", Failed)))
    && h[m - 2] == Observed(Replied(after)) && h[m - 1] == Mapped(after)
  }

  function TextOf(e: BoundExpected): Option<string> {
    match e
    case ConsoleClean => None
    case FieldHolds(_, expected) => Some(expected)
    case ElementShows(_, shown) => shown
    case TextShows(shown) => Some(shown)
    case UrlHolds(fragment) => Some(fragment)
  }

  function WithText(e: BoundExpected, text: string): (r: BoundExpected)
    ensures r.ConsoleClean? <==> e.ConsoleClean?
  {
    match e
    case ConsoleClean => e
    case FieldHolds(field, _) => FieldHolds(field, text)
    case ElementShows(element, _) => ElementShows(element, Some(text))
    case TextShows(_) => TextShows(text)
    case UrlHolds(_) => UrlHolds(text)
  }

  /** The text of the expectation was expanded between `m` and `k`. */
  predicate Words(h: History, m: nat, k: nat, e: BoundExpected, worded: BoundExpected) {
    if TextOf(e).None? then k == m && worded == e else
    && k == m + 1 && m < |h| && h[m].Phrased? && h[m].text == TextOf(e).value && h[m].phrase.Some?
    && worded == WithText(e, h[m].phrase.value)
  }

  /** The expectation was validated at `k`; unless that and the action succeeded, recovery was run, the page looked
      at again, and the expectation validated a second time, up to `end`. */
  ghost predicate Validates(w: World, h: History, k: nat, end: nat, e: BoundExpected, fallback: QaAction, execOk: bool,
                            v: AssertionResult, recovered: bool) {
    && k < end <= |h| && h[k].Validated? && h[k].expected == e && h[k].verdict.Replied?
    && if execOk && h[k].verdict.value.ok then end == k + 1 && v == h[k].verdict.value && !recovered
       else exists j: nat ::
              j + 3 == end && RecoveredTo(w, h, k + 1, j, e, fallback, recovered) && ValidatesAgain(h, j, e, v)
  }

  ghost predicate RecoveredTo(w: World, h: History, i: nat, j: nat, e: BoundExpected, fallback: QaAction,
                              recovered: bool) {
    && i <= j <= |h|
    && if recovered then exists a :: FirstToWork(h, i, j, RecoveryActions(fallback, w.config), e, a)
       else AllVain(h, i, j, RecoveryActions(fallback, w.config), e)
  }

  predicate ValidatesAgain(h: History, j: nat, e: BoundExpected, v: AssertionResult) {
    && j + 3 <= |h| && h[j].Observed? && h[j].shown.Replied? && h[j + 1] == Mapped(h[j].shown.value)
    && h[j + 2] == Validated(e, Replied(v))
  }

  /** How a decided action was carried out: executed at `n` for decision `d` on `obs`; the page was `after` at `m`;
      validating went from `k` to `end`. */
  datatype Course = Course(
    n: nat, obs: Observation, d: Decision, m: nat, after: Observation, k: nat, end: nat, execOk: bool, recovered: bool)

  /** The step is of a decision that was carried out in this way. */
  ghost predicate Carried(w: Setting, h: History, from: nat, g: Goal, s: Step, c: Course) {
    && Launched(w, h, from, g, c.n, c.obs, c.d) && Executes(h, c.n, c.d.action, c.execOk)
    && Settles(h, c.n, c.m, c.after, true)
    && Words(h, c.m, c.k, c.d.bound, s.bound)
    && s.action == c.d.action && s.validation.Some?
    && Validates(w.world, h, c.k, c.end, s.bound, c.d.fallback, c.execOk, s.validation.value, c.recovered)
  }

  predicate Executes(h: History, n: nat, action: QaAction, ok: bool) {
    n < |h| && h[n].Executed? && h[n].action == action && h[n].done.Replied? && h[n].done.value.ok == ok
  }

  /** What the page after a semantic click says: a logout is shown by a login route or a login text on that page, a
      change of appearance by the page being another than before. */
  predicate ShowsOutcome(lex: Lexicon, g: Goal, before: Observation, after: Observation, ok: bool) {
    && (g.kind == Some(Deauthentication) ==> (ok <==> lex.onLoginRoute(after) || lex.showsLoginText(after)))
    && (g.kind == Some(AppearanceChange) ==> (ok <==> lex.changed(before, after)))
  }

  /** What the step of a click is recorded to have expected: the name of the element for a theme task, and for a logout
      the login route when the page is on it, or else login texts. */
  predicate TellsClick(lex: Lexicon, g: Goal, e: Element, after: Observation, bound: BoundExpected) {
    match g.kind
    case Some(Deauthentication) =>
      bound == if lex.onLoginRoute(after) then UrlHolds("/login") else TextShows("Entrar/Login/E-mail/Senha")
    case _ => bound == TextShows(e.name)
  }

  /** The step is of a click on an element that names the outcome, judged on the page it led to. */
  ghost predicate Clicked(w: Setting, h: History, from: nat, g: Goal, s: Step, n: nat, before: Observation, e: Element,
                          after: Observation, ok: bool) {
    && Clicks(w, h, from, g, n, before, e) && Executes(h, n, s.action, ok)
    && Settles(h, n, n + 5, after, false)
    && TellsClick(w.lex, g, e, after, s.bound)
    && s.validation.Some? && ShowsOutcome(w.lex, g, before, after, s.validation.value.ok)
    && s.validation.value.kind == (if g.kind == Some(Deauthentication) then "logout_state" else "appearance_state")
  }

  ghost predicate ByClick(w: Setting, h: History, from: nat, g: Goal, s: Step, ok: bool) {
    exists n, before, e, after :: Clicked(w, h, from, g, s, n, before, e, after, ok)
  }

  ghost predicate ByState(w: Setting, h: History, from: nat, g: Goal, s: Step) {
    w.config.authenticated && g.kind == Some(Authentication) && s.validation == Some(SATISFIED)
    && exists obs :: Shown(h, from, obs) && w.lex.showsApp(obs)
  }

  predicate IsIntermediate(lex: Lexicon, g: Goal, s: Step) {
    IsIntermediateLogoutStep(lex, g, s.action, s.bound) || IsIntermediateThemeStep(lex, g, s.action, s.bound)
  }

  /** The action worked, or failed and was made up for by recovery, which does not do for an assertion. */
  predicate MadeGood(s: Step, c: Course) {
    c.execOk || (c.recovered && s.action.TypeName() !in {"assertVisible", "assertText", "abortScenario"})
  }

  /** What a step must show for its task to count as passed: a validation that succeeded, of a decision carried out
      whose action worked or was made up for, or of a click that worked, unless the page satisfied an authentication
      task to begin with; for a deauthentication task the logout-state check or an expectation that proves a logout;
      and a console check only for a console-safety task. */
  ghost predicate Justifies(w: Setting, h: History, from: nat, g: Goal, s: Step) {
    && s.taskId == g.id
    && s.validation.Some? && s.validation.value.ok
    && (|| ByState(w, h, from, g, s)
        || ByClick(w, h, from, g, s, true)
        || exists c :: Carried(w, h, from, g, s, c) && MadeGood(s, c) && !IsIntermediate(w.lex, g, s))
    && (IsLogoutTask(g) ==> ByClick(w, h, from, g, s, true) || IsLogoutProof(w.lex, s.bound))
    && (s.bound.ConsoleClean? ==> IsConsoleSafetyTask(w.lex, g) || ByState(w, h, from, g, s))
  }

  /** A decision was accepted at `k` and refused by the policy, and nothing was executed since. */
  ghost predicate NotPermitted(w: Setting, h: History, from: nat, g: Goal, s: Step) {
    exists k: nat, obs, d :: RefusedAt(w, h, from, g, s, k, obs, d)
  }

  ghost predicate RefusedAt(w: Setting, h: History, from: nat, g: Goal, s: Step, k: nat, obs: Observation,
                            d: Decision) {
    && from < k <= |h| && Shown(h[..k], from, obs) && Accepts(w, h[..k], g, obs, d)
    && s.action == d.asked && s.bound == d.bound
    && !Permits(w.world.config, d.action, At(h, k).attempts)
    && forall n :: k <= n < |h| ==> !IsMain(h[n])
  }

  /** A decision was carried out, and the text of its expectation could not be expanded at `m`. */
  ghost predicate NoText(w: Setting, h: History, from: nat, g: Goal, s: Step) {
    exists n, m, obs, d, after :: WordlessAt(w, h, from, g, s, n, m, obs, d, after)
  }

  ghost predicate WordlessAt(w: Setting, h: History, from: nat, g: Goal, s: Step, n: nat, m: nat, obs: Observation,
                             d: Decision, after: Observation) {
    && Launched(w, h, from, g, n, obs, d) && Settles(h, n, m, after, true)
    && s.action == d.asked && s.bound == d.bound
    && m < |h| && TextOf(d.bound).Some? && h[m] == Phrased(TextOf(d.bound).value, None)
  }

  /** The questions on an observation shown since `from` were all in vain. */
  ghost predicate Undecided(w: Setting, h: History, from: nat, g: Goal, s: Step) {
    exists obs :: Shown(h, from, obs) && GivesUp(w, h, from, g, obs, s.action)
  }

  /** What a validated step shows against its task: the click failed or its page does not show the outcome; or the
      decision was carried out, and its validation failed or would prove nothing, or its action failed and was not
      made up for. */
  ghost predicate Blames(w: Setting, h: History, from: nat, g: Goal, s: Step)
    requires s.validation.Some?
  {
    || (s.validation.value.ok && ByClick(w, h, from, g, s, false))
    || (!s.validation.value.ok && exists ok :: ByClick(w, h, from, g, s, ok))
    || exists c :: Carried(w, h, from, g, s, c) && Faulty(w.lex, g, s, c)
  }

  predicate Faulty(lex: Lexicon, g: Goal, s: Step, c: Course)
    requires s.validation.Some?
  {
    || !s.validation.value.ok || !MadeGood(s, c) || IsIntermediate(lex, g, s)
    || (IsLogoutTask(g) && !IsLogoutProof(lex, s.bound))
  }

  /** What a step shows of a task that is blocked: it got no usable decision, no permitted action or no
      expectation to validate; or it was validated and shows something against the task. */
  ghost predicate Hinders(w: Setting, h: History, from: nat, g: Goal, s: Step) {
    && s.taskId == g.id
    && if s.validation.None? then
         Undecided(w, h, from, g, s) || NotPermitted(w, h, from, g, s) || NoText(w, h, from, g, s)
       else Blames(w, h, from, g, s)
  }

  /** Why a run throws: the browser, the provider or the evidence store just rejected a call, or a corrected
      action could not be expanded. */
  predicate Excusable(h: History, e: Error) {
    || JustRejected(h, e)
    || (e.DynamicData? && h != [] && h[|h| - 1].Refined? && h[|h| - 1].raw.Click? && h[|h| - 1].fine.None?)
  }

  ghost predicate StepsNumbered(steps: seq<Step>, from: nat) {
    forall k :: from <= k < |steps| ==> steps[k].stepId == StepId(k + 1)
  }

  ghost predicate BugsNumbered(bugs: seq<Bug>, from: nat) {
    forall k :: from <= k < |bugs| ==> bugs[k].bugId == BugId(k + 1)
  }

  /** Ids given by list position are distinct. */
  lemma NumberedIdsAreDistinct(steps: seq<Step>, bugs: seq<Bug>)
    requires StepsNumbered(steps, 0) && BugsNumbered(bugs, 0)
    ensures forall i, j :: 0 <= i < j < |steps| ==> steps[i].stepId != steps[j].stepId
    ensures forall i, j :: 0 <= i < j < |bugs| ==> bugs[i].bugId != bugs[j].bugId
  {
    forall i, j | 0 <= i < j < |steps|
      ensures steps[i].stepId != steps[j].stepId
    {
      NumberedIsInjective("S", i + 1, j + 1, 4);
    }
    forall i, j | 0 <= i < j < |bugs|
      ensures bugs[i].bugId != bugs[j].bugId
    {
      NumberedIsInjective("BUG-", i + 1, j + 1, 3);
    }
  }

  /** What a piece of work on a task may do: append numbered steps and bugs, and change nothing of the
      task but its status and its attempts. Finished work leaves the task passed, by a step that
      justifies it and without a bug, or blocked, by a step that shows why and with exactly one bug; unfinished
      work leaves it pending and reports no bug. */
  ghost predicate WorkedOn(w: Setting, h: History, from: nat, t: Task, t': Task, steps: seq<Step>, steps': seq<Step>,
                           bugs: seq<Bug>, bugs': seq<Bug>, done: bool) {
    && Appended(t, t', steps, steps', bugs, bugs')
    && (done ==> t'.status == TaskPassed || t'.status == TaskBlocked)
    && (!done ==> t'.status == Pending)
    && (t'.status == TaskPassed ==> exists k :: |steps| <= k < |steps'| && Justifies(w, h, from, t.goal, steps'[k]))
    && |bugs'| == |bugs| + (if t'.status == TaskBlocked then 1 else 0)
    && (t'.status == TaskBlocked ==> bugs'[|bugs|].taskId == t.goal.id)
    && (t'.status == TaskBlocked ==> exists k :: |steps| <= k < |steps'| && Hinders(w, h, from, t.goal, steps'[k]))
  }

  ghost predicate Appended(t: Task, t': Task, steps: seq<Step>, steps': seq<Step>, bugs: seq<Bug>, bugs': seq<Bug>) {
    && t' == t.(status := t'.status, attempts := t'.attempts)
    && steps <= steps' && StepsNumbered(steps', |steps|)
    && bugs <= bugs' && BugsNumbered(bugs', |bugs|)
  }

  lemma WorkChains(w: Setting, h: History, later: History, from: nat, t: Task, t1: Task, t2: Task, s: seq<Step>,
                   s1: seq<Step>, s2: seq<Step>,
                   b: seq<Bug>, b1: seq<Bug>, b2: seq<Bug>, done: bool)
    requires WorkedOn(w, h, from, t, t1, s, s1, b, b1, false) && WorkedOn(w, later, from, t1, t2, s1, s2, b1, b2, done)
    ensures WorkedOn(w, later, from, t, t2, s, s2, b, b2, done)
  {
    hide Justifies, Hinders, StepId, BugId;
  }

  /** Unfinished work leaves the task pending. */
  lemma WorkLeavesPending(w: Setting, h: History, from: nat, t: Task, t': Task, s: seq<Step>, s': seq<Step>,
                          b: seq<Bug>, b': seq<Bug>)
    requires WorkedOn(w, h, from, t, t', s, s', b, b', false)
    ensures t'.status == Pending && Appended(t, t', s, s', b, b') && |b'| == |b|
  {
  }

  /** Work that finishes nothing is known by what it appends. */
  lemma UnfinishedWork(w: Setting, h: History, from: nat, t: Task, t': Task, s: seq<Step>, s': seq<Step>, b: seq<Bug>)
    requires t'.status == Pending && Appended(t, t', s, s', b, b)
    ensures WorkedOn(w, h, from, t, t', s, s', b, b, false)
  {
  }

  lemma PassedWork(w: Setting, h: History, from: nat, t: Task, t': Task, s: seq<Step>, s': seq<Step>, b: seq<Bug>,
                   k: nat)
    requires Appended(t, t', s, s', b, b) && t'.status == TaskPassed
    requires |s| <= k < |s'| && Justifies(w, h, from, t.goal, s'[k])
    ensures WorkedOn(w, h, from, t, t', s, s', b, b, true)
  {
  }

  lemma BlockedWork(w: Setting, h: History, from: nat, t: Task, t': Task, s: seq<Step>, s': seq<Step>, b: seq<Bug>,
                    b': seq<Bug>, k: nat)
    requires Appended(t, t', s, s', b, b') && t'.status == TaskBlocked && |b'| == |b| + 1 && b'[|b|].taskId == t.goal.id
    requires |s| <= k < |s'| && Hinders(w, h, from, t.goal, s'[k])
    ensures WorkedOn(w, h, from, t, t', s, s', b, b', true)
  {
  }

  /** One more numbered step. */
  lemma OneMoreStep(t: Task, t': Task, s: seq<Step>, step: Step, b: seq<Bug>)
    requires t' == t.(status := t'.status, attempts := t'.attempts) && step.stepId == StepId(|s| + 1)
    ensures Appended(t, t', s, s + [step], b, b)
  {
  }

  lemma OneMoreBug(t: Task, t': Task, s: seq<Step>, s': seq<Step>, b: seq<Bug>)
    requires Appended(t, t', s, s', b, b)
    ensures Appended(t, t'.(status := TaskBlocked), s, s', b, b)
    ensures Appended(t, t'.(status := TaskBlocked), s, s', b, b + [Bug(BugId(|b| + 1), t.goal.id)])
  {
  }

  lemma NothingDone(w: Setting, h: History, from: nat, t: Task, s: seq<Step>, b: seq<Bug>)
    ensures Appended(t, t, s, s, b, b) && (t.status == Pending ==> WorkedOn(w, h, from, t, t, s, s, b, b, false))
  {
  }

  lemma MoreAttempts(t: Task, t': Task, s: seq<Step>, b: seq<Bug>)
    requires t' == t.(attempts := t'.attempts)
    ensures Appended(t, t', s, s, b, b)
  {
  }

  lemma SameTask(t: Task, t': Task, s: seq<Step>, s': seq<Step>, b: seq<Bug>, b': seq<Bug>)
    requires Appended(t, t', s, s', b, b')
    ensures t'.goal == t.goal
  {
  }

  lemma AppendedChains(t: Task, t1: Task, t2: Task, s: seq<Step>, s1: seq<Step>, s2: seq<Step>, b: seq<Bug>,
                       b1: seq<Bug>, b2: seq<Bug>)
    requires Appended(t, t1, s, s1, b, b1) && Appended(t1, t2, s1, s2, b1, b2)
    ensures Appended(t, t2, s, s2, b, b2)
  {
  }

  /** Nothing was executed for itself from `from` on. */
  predicate NoMains(h: History, from: nat) {
    forall n :: from <= n < |h| ==> !IsMain(h[n])
  }

  // ----- what happened stays

  lemma UnusableLater(w: Setting, h: History, later: History, g: Goal, obs: Observation, k: nat)
    requires Unusable(w, h, g, obs, k) && h <= later
    ensures Unusable(w, later, g, obs, k)
  {
    PastStays(h, later, k);
    hide BindExpected, RaisesIssue;
  }

  lemma LaunchedLater(w: Setting, h: History, later: History, from: nat, g: Goal, n: nat, obs: Observation, d: Decision)
    requires Launched(w, h, from, g, n, obs, d) && h <= later
    ensures Launched(w, later, from, g, n, obs, d)
  {
    PastStays(h, later, n);
    hide Accepts, Permits;
  }

  lemma ClicksLater(w: Setting, h: History, later: History, from: nat, g: Goal, n: nat, obs: Observation, e: Element)
    requires Clicks(w, h, from, g, n, obs, e) && h <= later
    ensures Clicks(w, later, from, g, n, obs, e)
  {
    PastStays(h, later, n);
    hide FirstNaming;
  }

  lemma LawfulLater(w: Setting, h: History, later: History, from: nat, g: Goal, n: nat)
    requires Lawful(w, h, from, g, n) && h <= later
    ensures Lawful(w, later, from, g, n)
  {
    hide Launched, Clicks;
    if obs, d :| Launched(w, h, from, g, n, obs, d) {
      LaunchedLater(w, h, later, from, g, n, obs, d);
    } else {
      var obs, e :| Clicks(w, h, from, g, n, obs, e);
      ClicksLater(w, h, later, from, g, n, obs, e);
    }
  }

  /** Executing nothing more, or one more lawful action, stays lawful. */
  lemma StaysLawful(w: Setting, h: History, later: History, from: nat, g: Goal)
    requires OnlyLawful(w, h, from, g) && h <= later
    requires forall n :: |h| <= n < |later| && IsMain(later[n]) ==> Lawful(w, later, from, g, n)
    ensures OnlyLawful(w, later, from, g)
  {
    hide Lawful;
    forall n | from <= n < |later| && IsMain(later[n])
      ensures Lawful(w, later, from, g, n)
    {
      if n < |h| {
        LawfulLater(w, h, later, from, g, n);
      }
    }
  }

  lemma ValidatesLater(w: World, h: History, later: History, k: nat, end: nat, e: BoundExpected, fallback: QaAction,
                       execOk: bool, v: AssertionResult, recovered: bool)
    requires Validates(w, h, k, end, e, fallback, execOk, v, recovered) && h <= later
    ensures Validates(w, later, k, end, e, fallback, execOk, v, recovered)
  {
    hide RecoveredTo, ValidatesAgain;
    if !(execOk && h[k].verdict.value.ok) {
      var j: nat :| j + 3 == end && RecoveredTo(w, h, k + 1, j, e, fallback, recovered) && ValidatesAgain(h, j, e, v);
      RecoveredLater(w, h, later, k + 1, j, e, fallback, recovered);
      AgainLater(h, later, j, e, v);
    }
  }

  lemma AgainLater(h: History, later: History, j: nat, e: BoundExpected, v: AssertionResult)
    requires ValidatesAgain(h, j, e, v) && h <= later
    ensures ValidatesAgain(later, j, e, v)
  {
  }

  lemma RecoveredLater(w: World, h: History, later: History, i: nat, j: nat, e: BoundExpected, fallback: QaAction,
                       recovered: bool)
    requires RecoveredTo(w, h, i, j, e, fallback, recovered) && h <= later
    ensures RecoveredTo(w, later, i, j, e, fallback, recovered)
  {
    hide FirstToWork, AllVain, RecoveryActions;
    if recovered {
      var a :| FirstToWork(h, i, j, RecoveryActions(fallback, w.config), e, a);
      WorkedLater(h, later, i, j, RecoveryActions(fallback, w.config), e, a);
    } else {
      VainLater(h, later, i, j, RecoveryActions(fallback, w.config), e);
    }
  }

  /** What recovery is given is the fallback of the decision: the provider proposed it, or it closes what is open. */
  lemma LaunchedIsGiven(w: Setting, h: History, later: History, from: nat, g: Goal, n: nat, obs: Observation,
                        d: Decision)
    requires Launched(w, h, from, g, n, obs, d) && h <= later
    ensures Given(later, d.fallback)
  {
    hide Unusable, FirstNaming, DecisionIssue, Promoted, Permits, Shown, BindExpected;
    var past := h[..n];
    if Sound(w, past, g, obs, d) {
      assert later[|past| - 2] == past[|past| - 2];
    } else {
      assert d.fallback == CLOSE;
    }
  }

  lemma JustRecovered(w: World, h: History, i: nat, e: BoundExpected, fallback: QaAction, a: Option<QaAction>)
    requires i <= |h|
    requires a.Some? ==> FirstToWork(h, i, |h|, RecoveryActions(fallback, w.config), e, a.value)
    requires a.None? ==> AllVain(h, i, |h|, RecoveryActions(fallback, w.config), e)
    ensures RecoveredTo(w, h, i, |h|, e, fallback, a.Some?)
  {
    hide FirstToWork, AllVain, RecoveryActions;
  }

  lemma CarriedLater(w: Setting, h: History, later: History, from: nat, g: Goal, s: Step, c: Course)
    requires Carried(w, h, from, g, s, c) && h <= later
    ensures Carried(w, later, from, g, s, c)
  {
    hide Launched, Validates;
    LaunchedLater(w, h, later, from, g, c.n, c.obs, c.d);
    ValidatesLater(w.world, h, later, c.k, c.end, s.bound, c.d.fallback, c.execOk, s.validation.value, c.recovered);
  }

  lemma ByClickLater(w: Setting, h: History, later: History, from: nat, g: Goal, s: Step, ok: bool)
    requires ByClick(w, h, from, g, s, ok) && h <= later
    ensures ByClick(w, later, from, g, s, ok)
  {
    hide Clicks, OutcomeCheck;
    var n, before, e, after :| Clicked(w, h, from, g, s, n, before, e, after, ok);
    ClicksLater(w, h, later, from, g, n, before, e);
    assert Clicked(w, later, from, g, s, n, before, e, after, ok);
  }

  lemma ByStateLater(w: Setting, h: History, later: History, from: nat, g: Goal, s: Step)
    requires ByState(w, h, from, g, s) && h <= later
    ensures ByState(w, later, from, g, s)
  {
    hide Shown;
    var obs :| Shown(h, from, obs) && w.lex.showsApp(obs);
    ShownLater(h, later, from, obs);
  }

  lemma JustifiesLater(w: Setting, h: History, later: History, from: nat, g: Goal, s: Step)
    requires Justifies(w, h, from, g, s) && h <= later
    ensures Justifies(w, later, from, g, s)
  {
    hide ByState, ByClick, Carried, IsIntermediate, IsLogoutProof, IsConsoleSafetyTask, MadeGood;
    if ByState(w, h, from, g, s) {
      ByStateLater(w, h, later, from, g, s);
    }
    if ByClick(w, h, from, g, s, true) {
      ByClickLater(w, h, later, from, g, s, true);
    }
    if c :| Carried(w, h, from, g, s, c) && MadeGood(s, c) && !IsIntermediate(w.lex, g, s) {
      CarriedLater(w, h, later, from, g, s, c);
    }
  }

  lemma BlamesLater(w: Setting, h: History, later: History, from: nat, g: Goal, s: Step)
    requires s.validation.Some? && Hinders(w, h, from, g, s) && h <= later
    ensures Hinders(w, later, from, g, s)
  {
    hide ByClick, Carried, Faulty;
    if ByClick(w, h, from, g, s, true) {
      ByClickLater(w, h, later, from, g, s, true);
    }
    if ByClick(w, h, from, g, s, false) {
      ByClickLater(w, h, later, from, g, s, false);
    }
    if c :| Carried(w, h, from, g, s, c) && Faulty(w.lex, g, s, c) {
      CarriedLater(w, h, later, from, g, s, c);
    }
  }

  /** A step shows the same later. */
  lemma JudgedLater(w: Setting, h: History, later: History, from: nat, g: Goal, s: Step, ok: bool)
    requires s.validation.Some? && h <= later
    requires if ok then Justifies(w, h, from, g, s) else Hinders(w, h, from, g, s)
    ensures if ok then Justifies(w, later, from, g, s) else Hinders(w, later, from, g, s)
  {
    if ok {
      JustifiesLater(w, h, later, from, g, s);
    } else {
      BlamesLater(w, h, later, from, g, s);
    }
  }

  lemma JustClicked(w: Setting, h: History, later: History, from: nat, g: Goal, obs: Observation, e: Element)
    requires from <= |h| && h < later && IsMain(later[|h|]) && later[|h|].action == Click(e.id, "semantic click")
    requires (IsLogoutTask(g) || IsThemeTask(g)) && Shown(h, from, obs) && FirstNaming(w.lex, g, obs, e)
    ensures Clicks(w, later, from, g, |h|, obs, e)
  {
    hide FirstNaming, IsLogoutTask, IsThemeTask;
    assert later[..|h|] == h;
  }

  /** One lawful execution, and nothing else executed, stays lawful. */
  lemma OneLawful(w: Setting, h: History, later: History, from: nat, g: Goal)
    requires OnlyLawful(w, h, from, g) && h < later && NoMains(later, |h| + 1)
    requires IsMain(later[|h|]) ==> Lawful(w, later, from, g, |h|)
    ensures OnlyLawful(w, later, from, g)
  {
    hide OnlyLawful, Lawful;
    StaysLawful(w, h, later, from, g);
  }

  lemma NoneLawful(w: Setting, h: History, later: History, from: nat, g: Goal)
    requires OnlyLawful(w, h, from, g) && h <= later && NoMains(later, |h|)
    ensures OnlyLawful(w, later, from, g)
  {
    hide OnlyLawful, Lawful;
    StaysLawful(w, h, later, from, g);
  }

  /** The attempts of a task count what was executed for it, at most `clicks` actions; the steps grow by at most
      `records`. */
  predicate Counted(t: Task, t': Task, h: History, later: History, steps: seq<Step>, steps': seq<Step>, clicks: nat,
                    records: nat) {
    && t'.attempts + Mains(h) == t.attempts + Mains(later)
    && Mains(later) <= Mains(h) + clicks && |steps'| <= |steps| + records
  }

  lemma CountedChains(t: Task, t1: Task, t2: Task, h: History, h1: History, h2: History, s: seq<Step>, s1: seq<Step>,
                      s2: seq<Step>,
                      a: nat, b: nat, c: nat, d: nat)
    requires Counted(t, t1, h, h1, s, s1, a, b) && Counted(t1, t2, h1, h2, s1, s2, c, d)
    ensures Counted(t, t2, h, h2, s, s2, a + c, b + d)
  {
    hide Mains;
  }

  lemma CountsOnly(t: Task, t': Task, h: History, later: History, steps: seq<Step>, steps': seq<Step>, records: nat)
    requires t'.attempts == t.attempts && Mains(later) == Mains(h) && |steps'| <= |steps| + records
    ensures forall clicks: nat :: Counted(t, t', h, later, steps, steps', clicks, records)
  {
    hide Mains;
  }

  lemma MapWhenAsked(session: Session)
    requires session.Valid() && session.calls != [] && session.calls[|session.calls| - 1].Proposed?
    ensures MapOf(At(session.calls, |session.calls| - 1).mapped) == session.locators.Current()
  {
    var h, n := session.calls, |session.calls| - 1;
    assert h == h[..n] + [h[n]];
    Grows(h[..n], h[n]);
    hide StateOf;
  }

  lemma ThenNoMains(h: History, later: History)
    requires h < later && (|later| == |h| + 1 || (|later| == |h| + 2 && later[|h| + 1].Noted?))
    ensures NoMains(later, |h| + 1)
  {
  }

  lemma NoMainsGrow(h: History, from: nat, c: Call)
    requires NoMains(h, from) && !IsMain(c)
    ensures NoMains(h + [c], from)
  {
  }

  /** One more question without a usable answer. */
  lemma OneMoreUnusable(w: Setting, h: History, later: History, from: nat, g: Goal, obs: Observation, asked: seq<nat>,
                        k: nat)
    requires AllUnusable(w, h, from, g, obs, asked) && h <= later && from <= |h| <= k && Unusable(w, later, g, obs, k)
    ensures AllUnusable(w, later, from, g, obs, asked + [k])
  {
    hide Unusable;
    forall i | 0 <= i < |asked|
      ensures Unusable(w, later, g, obs, asked[i])
    {
      UnusableLater(w, h, later, g, obs, asked[i]);
    }
    assert Unusable(w, later, g, obs, k) ==> k < |later| by {
      UnusableIsPast(w, later, g, obs, k);
    }
  }

  lemma NoneAsked(w: Setting, h: History, g: Goal, obs: Observation)
    ensures AllUnusable(w, h, |h|, g, obs, []) && NoMains(h, |h|)
  {
  }

  lemma ReadIsSound(w: Setting, h: History, g: Goal, obs: Observation, d: Decision)
    requires Reads(w, h, g, obs, d) && DecisionIssue(w.lex, g, d.action, d.bound, obs).None?
    ensures Accepts(w, h, g, obs, d.(accepted := true))
  {
    hide DecisionIssue, BindExpected, Promoted, StateOf;
  }

  lemma UnusableIsPast(w: Setting, h: History, g: Goal, obs: Observation, k: nat)
    ensures Unusable(w, h, g, obs, k) ==> k < |h|
  {
  }

  lemma JustCorrected(w: Setting, h: History, later: History, g: Goal, obs: Observation, d: Decision, e: Element,
                      k: nat)
    requires HasIntent(g) && FirstNaming(w.lex, g, obs, e) && Unusable(w, h, g, obs, k)
    requires d.bound.TextShows? && d.fallback == CLOSE && CorrectsTo(w.lex, g, e, d)
    requires later == h + [Refined(d.asked, Some(d.action))]
    ensures Accepts(w, later, g, obs, d)
  {
    UnusableLater(w, h, later, g, obs, k);
    UnusableIsPast(w, h, g, obs, k);
    hide Unusable, FirstNaming, CorrectsTo, HasIntent, Sound;
    assert Unusable(w, later, g, obs, k);
  }

  lemma GivesUpLater(w: Setting, h: History, later: History, from: nat, earlier: nat, g: Goal, obs: Observation,
                     action: QaAction)
    requires GivesUp(w, h, from, g, obs, action) && h <= later && earlier <= from
    ensures GivesUp(w, later, earlier, g, obs, action)
  {
    hide Unusable, NamesOutcome, HasIntent;
    var asked: seq<nat> :| |asked| == Questions(w.config) && LastNames(h, asked, action)
      && AllUnusable(w, h, from, g, obs, asked);
    forall i | 0 <= i < |asked|
      ensures Unusable(w, later, g, obs, asked[i])
    {
      UnusableLater(w, h, later, g, obs, asked[i]);
    }
    assert LastNames(later, asked, action) && AllUnusable(w, later, earlier, g, obs, asked);
  }

  lemma JustRefused(w: Setting, h: History, later: History, from: nat, g: Goal, s: Step, obs: Observation, d: Decision)
    requires from < |h| && Shown(h, from, obs) && Accepts(w, h, g, obs, d) && s.action == d.asked && s.bound == d.bound
    requires !Permits(w.world.config, d.action, StateOf(h).attempts) && h <= later && NoMains(later, |h|)
    requires s.taskId == g.id && s.validation.None?
    ensures Hinders(w, later, from, g, s)
  {
    assert later[..|h|] == h;
    hide Accepts, Permits, StateOf, Shown;
    assert RefusedAt(w, later, from, g, s, |h|, obs, d);
  }

  lemma JustLaunched(w: Setting, h: History, later: History, from: nat, g: Goal, obs: Observation, d: Decision)
    requires from <= |h| && h < later && IsMain(later[|h|]) && later[|h|].action == d.action
    requires Shown(h, from, obs) && Accepts(w, h, g, obs, d) && Permits(w.world.config, d.action, StateOf(h).attempts)
    ensures Launched(w, later, from, g, |h|, obs, d)
  {
    assert later[..|h|] == h;
    hide Accepts, Permits, StateOf, Shown;
  }

  lemma UndecidedHinders(w: Setting, h: History, from: nat, g: Goal, s: Step, obs: Observation)
    requires Shown(h, from, obs) && GivesUp(w, h, from, g, obs, s.action) && s.taskId == g.id && s.validation.None?
    ensures Hinders(w, h, from, g, s)
  {
    hide GivesUp, Shown;
  }

  lemma WordlessHinders(w: Setting, h: History, later: History, from: nat, g: Goal, s: Step, n: nat, obs: Observation,
                        d: Decision, after: Observation)
    requires Launched(w, h, from, g, n, obs, d) && Settles(h, n, |h|, after, true) && h < later
    requires TextOf(d.bound).Some? && later[|h|] == Phrased(TextOf(d.bound).value, None)
    requires s.action == d.asked && s.bound == d.bound && s.taskId == g.id && s.validation.None?
    ensures Hinders(w, later, from, g, s)
  {
    LaunchedLater(w, h, later, from, g, n, obs, d);
    SettlesLater(h, later, n, |h|, after, true);
    hide Launched, Settles;
    assert WordlessAt(w, later, from, g, s, n, |h|, obs, d, after);
    hide WordlessAt, Undecided, NotPermitted;
  }

  lemma SettledIsShown(h: History, from: nat, n: nat, m: nat, after: Observation, notes: bool)
    requires from <= n && Settles(h, n, m, after, notes)
    ensures Shown(h, from, after)
  {
  }

  lemma JustShown(h: History, later: History, from: nat, obs: Observation)
    requires from <= |h| && later == h + [Observed(Replied(obs)), Mapped(obs)]
    ensures Shown(later, from, obs)
  {
    assert later[|h|] == Observed(Replied(obs));
  }

  lemma LaunchedFrom(w: Setting, h: History, from: nat, g: Goal, n: nat, obs: Observation, d: Decision)
    requires Launched(w, h, from, g, n, obs, d)
    ensures from <= n
  {
  }

  lemma SettlesLater(h: History, later: History, n: nat, m: nat, after: Observation, notes: bool)
    requires Settles(h, n, m, after, notes) && h <= later
    ensures Settles(later, n, m, after, notes)
  {
  }

  lemma WordsLater(h: History, later: History, m: nat, k: nat, e: BoundExpected, worded: BoundExpected)
    requires Words(h, m, k, e, worded) && h <= later
    ensures Words(later, m, k, e, worded)
  {
  }

  lemma JustCarried(w: Setting, h: History, h1: History, h2: History, from: nat, g: Goal, s: Step, c: Course)
    requires h <= h1 <= h2 && c.m == |h| && c.k == |h1| && c.end == |h2|
    requires Launched(w, h, from, g, c.n, c.obs, c.d) && Executes(h, c.n, c.d.action, c.execOk)
    requires Settles(h, c.n, c.m, c.after, true)
    requires Words(h1, c.m, c.k, c.d.bound, s.bound) && s.action == c.d.action && s.validation.Some?
    requires Validates(w.world, h2, c.k, c.end, s.bound, c.d.fallback, c.execOk, s.validation.value, c.recovered)
    ensures Carried(w, h2, from, g, s, c)
  {
    LaunchedLater(w, h, h2, from, g, c.n, c.obs, c.d);
    SettlesLater(h, h2, c.n, c.m, c.after, true);
    WordsLater(h1, h2, c.m, c.k, c.d.bound, s.bound);
    hide Launched, Settles, Words, Validates;
  }

  lemma KeepsNoMains(h: History, later: History)
    requires Keeps(h, later)
    ensures h <= later && Mains(later) == Mains(h) && NoMains(later, |h|)
  {
    assert later[..|h|] == h;
    NoMainsSince(later, |h|);
  }

  lemma CountedMore(t: Task, t': Task, h: History, later: History, s: seq<Step>, s': seq<Step>, a: nat, b: nat, c: nat,
                    d: nat)
    requires Counted(t, t', h, later, s, s', a, b) && a <= c && b <= d
    ensures Counted(t, t', h, later, s, s', c, d)
  {
  }

  lemma OneExecuted(t: Task, t': Task, h: History, later: History, s: seq<Step>)
    requires t'.attempts == t.attempts + 1 && Mains(later) == Mains(h) + 1
    ensures Counted(t, t', h, later, s, s, 1, 0)
  {
  }

  lemma KeepsSteps(t: Task, t': Task, s: seq<Step>, s': seq<Step>, b: seq<Bug>, b': seq<Bug>)
    requires Appended(t, t', s, s', b, b')
    ensures s <= s' && t'.goal == t.goal
  {
  }

  lemma AnyStatus(t: Task, t': Task, s: seq<Step>, s': seq<Step>, b: seq<Bug>, b': seq<Bug>, status: Status)
    requires Appended(t, t', s, s', b, b')
    ensures Appended(t, t'.(status := status), s, s', b, b') && t'.goal == t.goal && (|b'| == |b| ==> b' == b)
  {
  }

  /** What settling a task by its recorded step makes of unfinished work. */
  lemma SettledWork(w: Setting, h: History, later: History, from: nat, t: Task, t1: Task, t2: Task, s: seq<Step>,
                    s': seq<Step>,
                    b: seq<Bug>, b1: seq<Bug>, b2: seq<Bug>, step: Step, ok: bool)
    requires Appended(t, t1, s, s', b, b1) && t1.status == Pending && |b1| == |b|
    requires |s'| > |s| && s'[|s|] == step && step.validation.Some? && h <= later
    requires if ok then Justifies(w, h, from, t.goal, step) else Hinders(w, h, from, t.goal, step)
    requires t2 == t1.(status := t2.status) && (b2 == b1 || b2 == b1 + [Bug(BugId(|b1| + 1), t1.goal.id)])
    ensures b2 == b1 || t2.status == TaskBlocked ==> Appended(t, t2, s, s', b, b2)
    ensures ok && t2.status == TaskPassed && b2 == b1 ==> WorkedOn(w, later, from, t, t2, s, s', b, b2, true)
    ensures !ok && t2.status == TaskBlocked && b2 != b1 ==> WorkedOn(w, later, from, t, t2, s, s', b, b2, true)
    ensures t2 == t1 && b2 == b1 ==> WorkedOn(w, later, from, t, t2, s, s', b, b2, false)
  {
    JudgedLater(w, h, later, from, t.goal, step, ok);
    AnyStatus(t, t1, s, s', b, b1, t2.status);
    OneMoreBug(t, t1, s, s', b);
    hide Justifies, Hinders, BugId, StepId, WorkedOn, Appended;
    if ok && t2.status == TaskPassed && b2 == b1 {
      PassedWork(w, later, from, t, t2, s, s', b, |s|);
    } else if !ok && t2.status == TaskBlocked && b2 != b1 {
      BlockedWork(w, later, from, t, t2, s, s', b, b2, |s|);
    }
    if t2 == t1 && b2 == b1 {
      UnfinishedWork(w, later, from, t, t2, s, s', b);
    }
  }

  // ----- what is judged

  /** The step after a semantic click justifies the task exactly when the click worked and the page shows the
      outcome; otherwise it shows what is missing. */
  lemma ClickIsJudged(w: Setting, h: History, from: nat, g: Goal, s: Step, n: nat, before: Observation, e: Element,
                      after: Observation, ok: bool)
    requires s.taskId == g.id && Clicked(w, h, from, g, s, n, before, e, after, ok)
    ensures if ok && s.validation.value.ok then Justifies(w, h, from, g, s) else Hinders(w, h, from, g, s)
  {
    hide Clicks, ShowsOutcome, Settles, Carried, IsLogoutProof, IsConsoleSafetyTask;
    assert ByClick(w, h, from, g, s, ok);
  }

  /** What the success rule comes to for an accepted decision. */
  lemma SuccessMeans(lex: Lexicon, g: Goal, s: Step, c: Course, changed: bool)
    requires s.validation.Some? && (s.bound.ConsoleClean? ==> IsConsoleSafetyTask(lex, g) && !IsLogoutTask(g))
    ensures StepSucceeded(lex, g, s.action, c.execOk, s.validation.value.ok, c.recovered, s.bound, changed)
      <==> !Faulty(lex, g, s, c)
  {
    hide IsLogoutProof, IsConsoleSafetyTask, IsIntermediateLogoutStep, IsIntermediateThemeStep;
  }

  lemma CarriedIsValidated(w: Setting, h: History, from: nat, g: Goal, s: Step, c: Course)
    requires Carried(w, h, from, g, s, c)
    ensures s.validation.Some?
  {
  }

  lemma FaultyHinders(w: Setting, h: History, from: nat, g: Goal, s: Step, c: Course)
    requires s.taskId == g.id && s.validation.Some? && Carried(w, h, from, g, s, c) && Faulty(w.lex, g, s, c)
    ensures Hinders(w, h, from, g, s)
  {
    hide Carried, ByClick, Faulty;
  }

  lemma FaultlessJustifies(w: Setting, h: History, from: nat, g: Goal, s: Step, c: Course)
    requires s.taskId == g.id && s.validation.Some? && Carried(w, h, from, g, s, c) && !Faulty(w.lex, g, s, c)
    requires s.bound.ConsoleClean? ==> IsConsoleSafetyTask(w.lex, g)
    ensures Justifies(w, h, from, g, s)
  {
    hide Carried, ByClick, ByState, IsLogoutProof, IsConsoleSafetyTask, IsIntermediate, MadeGood, IsLogoutTask;
  }

  /** The success rule decides between a step that justifies its task and one that does not. */
  lemma StepIsJudged(w: Setting, h: History, from: nat, g: Goal, s: Step, c: Course, changed: bool)
    requires s.taskId == g.id && Carried(w, h, from, g, s, c)
    requires s.bound.ConsoleClean? ==> IsConsoleSafetyTask(w.lex, g) && !IsLogoutTask(g)
    ensures s.validation.Some?
    ensures var ok := StepSucceeded(w.lex, g, s.action, c.execOk, s.validation.value.ok, c.recovered, s.bound, changed);
      if ok then Justifies(w, h, from, g, s) && s.validation.value.ok && !IsIntermediate(w.lex, g, s)
      else Hinders(w, h, from, g, s)
  {
    CarriedIsValidated(w, h, from, g, s, c);
    SuccessMeans(w.lex, g, s, c, changed);
    assert Faulty(w.lex, g, s, c) || (s.validation.value.ok && !IsIntermediate(w.lex, g, s));
    hide Carried, Justifies, Hinders, IsConsoleSafetyTask, StepSucceeded, Faulty;
    if Faulty(w.lex, g, s, c) {
      FaultyHinders(w, h, from, g, s, c);
    } else {
      FaultlessJustifies(w, h, from, g, s, c);
    }
  }

  lemma SatisfiedJustifies(w: Setting, h: History, from: nat, g: Goal, obs: Observation, stepId: string)
    requires w.config.authenticated && g.kind == Some(Authentication) && Shown(h, from, obs) && w.lex.showsApp(obs)
    ensures Justifies(w, h, from, g,
                      Step(stepId, g.id, WaitForStable(0, "state already satisfied"), ConsoleClean, Some(SATISFIED)))
  {
    hide ByClick, Carried, Shown;
  }

  // ----- a scenario run

  predicate DependencyMet(tasks: seq<Task>, id: string) {
    var dep := Domain.Find(tasks, (t: Task) => t.goal.id == id);
    dep.Some? && dep.value.status == TaskPassed
  }

  /** Some task it depends on is missing or has not passed; the first task with an id speaks for it. */
  predicate DepsBlocked(tasks: seq<Task>, t: Task) {
    exists id <- t.dependsOn :: !DependencyMet(tasks, id)
  }

  /** The tasks as they were when the run came to task `i`. */
  function WhenReached(before: seq<Task>, after: seq<Task>, i: nat): seq<Task>
    requires i <= |before| == |after|
  {
    after[..i] + before[i..]
  }

  /** The ids of the tasks among the first `n` that the run blocked, in order. */
  function NewlyBlocked(before: seq<Task>, after: seq<Task>, n: nat): seq<string>
    requires n <= |before| == |after|
  {
    if n == 0 then [] else
    NewlyBlocked(before, after, n - 1)
    + (if before[n - 1].status == Pending && after[n - 1].status == TaskBlocked then [after[n - 1].goal.id] else [])
  }

  function BugTasks(bugs: seq<Bug>): seq<string> {
    seq(|bugs|, i requires 0 <= i < |bugs| => bugs[i].taskId)
  }

  /** What a turn, from `from` to the end of `h`, leaves of a task: it is left alone unless it was pending; it is
      skipped exactly when a dependency had not passed; otherwise it is decided. It passed only by a step that
      justifies it, and it is blocked only with a step that shows why, both by what happened in the turn. Nothing
      was executed in the turn but what decisions and clicks allow, it was counted as attempts, and it is no more
      than three actions for each cycle. */
  ghost predicate TurnTaken(w: Setting, h: History, from: nat, tasks: seq<Task>, t: Task, t': Task, steps: seq<Step>,
                            since: nat)
    requires from <= |h|
  {
    && t' == t.(status := t'.status, attempts := t'.attempts)
    && OnlyLawful(w, h, from, t.goal)
    && t'.attempts + Mains(h[..from]) == t.attempts + Mains(h)
    && Mains(h) <= Mains(h[..from]) + 3 * MaxCycles(w.config)
    && (t.status != Pending ==> t' == t)
    && (t.status == Pending ==>
        && (t'.status == Skipped <==> DepsBlocked(tasks, t))
        && (t'.status == Pending ==> MaxCycles(w.config) == 0)
        && (t'.status == TaskPassed ==> exists k :: since <= k < |steps| && Justifies(w, h, from, t.goal, steps[k]))
        && (t'.status == TaskBlocked ==> exists k :: since <= k < |steps| && Hinders(w, h, from, t.goal, steps[k])))
  }

  /** What a run makes of task `i` in the stretch of the history that is its turn: from one mark to the next. */
  ghost predicate Fares(w: Setting, h: History, marks: seq<nat>, before: seq<Task>, after: seq<Task>, i: nat,
                        steps: seq<Step>, since: nat)
    requires i < |before| == |after|
  {
    && i + 1 < |marks| && marks[i] <= marks[i + 1] <= |h|
    && TurnTaken(w, h[..marks[i + 1]], marks[i], WhenReached(before, after, i), before[i], after[i], steps, since)
  }

  /** In a scenario whose tasks come after the tasks they depend on, a task is skipped exactly when one
      of these did not pass in the end. */
  lemma SkippedExactlyWhenDependencyFailed(w: Setting, h: History, marks: seq<nat>, before: seq<Task>, after: seq<Task>,
                                           i: nat,
                                           steps: seq<Step>, since: nat)
    requires i < |before| == |after| && before[i].status == Pending
    requires forall k :: 0 <= k < |before| ==> Fares(w, h, marks, before, after, k, steps, since)
    requires forall id <- before[i].dependsOn :: Domain.Find(before[..i], (t: Task) => t.goal.id == id).Some?
    ensures after[i].status == Skipped <==> exists id :: id in before[i].dependsOn && !DependencyMet(after, id)
  {
    hide Justifies, Hinders, OnlyLawful, Mains;
    assert Fares(w, h, marks, before, after, i, steps, since);
    forall k | 0 <= k < i
      ensures before[k].goal.id == after[k].goal.id
    {
      assert Fares(w, h, marks, before, after, k, steps, since);
    }
    forall id | id in before[i].dependsOn
      ensures DependencyMet(WhenReached(before, after, i), id) == DependencyMet(after, id)
    {
      SameIdsSameSearch(before[..i], after[..i], id);
      FindInPrefix(after[..i], before[i..], id);
      FindInPrefix(after[..i], after[i..], id);
      assert after[..i] + after[i..] == after;
    }
  }

  lemma {:induction false} FindInPrefix(a: seq<Task>, b: seq<Task>, id: string)
    requires Domain.Find(a, (t: Task) => t.goal.id == id).Some?
    ensures Domain.Find(a + b, (t: Task) => t.goal.id == id) == Domain.Find(a, (t: Task) => t.goal.id == id)
  {
    if a != [] && a[0].goal.id != id {
      assert (a + b)[1..] == a[1..] + b;
      FindInPrefix(a[1..], b, id);
    }
  }

  lemma {:induction false} SameIdsSameSearch(a: seq<Task>, b: seq<Task>, id: string)
    requires |a| == |b| && forall k :: 0 <= k < |a| ==> a[k].goal.id == b[k].goal.id
    ensures Domain.Find(a, (t: Task) => t.goal.id == id).Some? <==> Domain.Find(b, (t: Task) => t.goal.id == id).Some?
  {
    if a != [] && a[0].goal.id != id {
      SameIdsSameSearch(a[1..], b[1..], id);
    }
  }

  class ReactiveRunnerService {
    const lex: Lexicon
    const config: ReactiveConfig
    const session: Session
    const recovery: RecoveryPolicy
    var tasks: seq<Task>
    var steps: seq<Step>
    var bugs: seq<Bug>

    constructor (lex: Lexicon, config: ReactiveConfig, session: Session, tasks: seq<Task>)
      ensures this.lex == lex && this.config == config && this.session == session && recovery.session == session
      ensures this.tasks == tasks && steps == [] && bugs == []
    {
      this.lex, this.config, this.session := lex, config, session;
      recovery := new RecoveryPolicy(session);
      this.tasks, steps, bugs := tasks, [], [];
    }

    ghost predicate Wired()
      reads session, session.locators
    {
      recovery.session == session && session.Valid()
    }

    ghost function Here(): Setting {
      Setting(lex, config, session.world)
    }

    method Observe() returns (r: Outcome<Observation>)
      requires session.Valid()
      modifies session`calls, session.locators
      ensures session.Valid() && old(session.calls) < session.calls && Mains(session.calls) == Mains(old(session.calls))
      ensures NoMains(session.calls, |old(session.calls)|)
      ensures r.Ok? ==> session.calls == old(session.calls) + [Observed(Replied(r.value)), Mapped(r.value)]
      ensures r.Thrown? ==> Excusable(session.calls, r.error)
    {
      hide StateOf, Mains, Session.Valid;
      ghost var h0 := session.calls;
      var obs := session.Observe();
      ghost var h1 := session.calls;
      MainsGrow(h0, h1[|h0|]);
      if obs.Thrown? {
        return Thrown(obs.error);
      }
      session.Map(obs.value);
      MainsGrow(h1, session.calls[|h1|]);
      return Ok(obs.value);
    }

    method SetStatus(i: nat, status: Status)
      requires i < |tasks|
      modifies this`tasks
      ensures tasks == old(tasks)[i := old(tasks)[i].(status := status)]
    {
      tasks := tasks[i := tasks[i].(status := status)];
    }

    /** Report a bug and mark the task blocked. Some callers mark it first, so that it stays blocked without
        a bug should the evidence not be written. */
    method Block(i: nat, markFirst: bool) returns (r: Outcome<()>)
      requires session.Valid() && i < |tasks|
      modifies this`tasks, this`bugs, session`calls
      ensures session.Valid() && Mains(session.calls) == Mains(old(session.calls))
      ensures exists kept :: session.calls == old(session.calls) + [Witnessed(kept)]
      ensures |tasks| == |old(tasks)| && tasks == old(tasks)[i := tasks[i]]
      ensures r.Ok? || markFirst ==> tasks[i] == old(tasks)[i].(status := TaskBlocked)
      ensures r.Ok? ==> bugs == old(bugs) + [Bug(BugId(|old(bugs)| + 1), old(tasks)[i].goal.id)]
      ensures r.Thrown? ==>
        bugs == old(bugs) && (!markFirst ==> tasks == old(tasks)) && Excusable(session.calls, r.error)
    {
      hide StateOf, Mains, Session.Valid;
      ghost var h := session.calls;
      if markFirst {
        SetStatus(i, TaskBlocked);
      }
      var kept := session.Witness();
      MainsGrow(h, session.calls[|h|]);
      if kept.Thrown? {
        return Thrown(kept.error);
      }
      bugs := bugs + [Bug(BugId(|bugs| + 1), tasks[i].goal.id)];
      SetStatus(i, TaskBlocked);
      return Ok(());
    }

    /** Execute an action for a task, and note the attempt. */
    method Attempt(i: nat, a: QaAction) returns (r: Outcome<bool>)
      requires session.Valid() && i < |tasks|
      modifies this`tasks, session`calls, session`attempts
      ensures session.Valid() && Mains(session.calls) == Mains(old(session.calls)) + 1
      ensures |tasks| == |old(tasks)|
      ensures tasks == old(tasks)[i := old(tasks)[i].(attempts := old(tasks)[i].attempts + (if r.Ok? then 1 else 0))]
      ensures var reply := session.world.outside.executed(|old(session.calls)|, a);
        if r.Ok? then
          && reply.Replied? && reply.value.ok == r.value
          && session.calls == old(session.calls)
            + [Executed(Main, a, reply), Noted(AttemptRecord(a.TypeName(), if r.value then Passed else Failed))]
        else session.calls == old(session.calls) + [Executed(Main, a, reply)] && Excusable(session.calls, r.error)
    {
      hide StateOf, Mains, Session.Valid;
      ghost var h0 := session.calls;
      var exec := session.Execute(Main, a);
      ghost var h1 := session.calls;
      MainsGrow(h0, h1[|h0|]);
      if exec.Thrown? {
        return Thrown(exec.error);
      }
      session.Note(AttemptRecord(a.TypeName(), if exec.value.ok then Passed else Failed));
      MainsGrow(h1, session.calls[|h1|]);
      tasks := tasks[i := tasks[i].(attempts := tasks[i].attempts + 1)];
      return Ok(exec.value.ok);
    }

    /** Wait for the page to settle, and look at it. */
    method LookAfter(notes: bool) returns (r: Outcome<Observation>)
      requires session.Valid() && 2 <= |session.calls| && session.calls[|session.calls| - 1].Noted?
      modifies session`calls, session`attempts, session.locators
      ensures session.Valid() && old(session.calls) < session.calls && Mains(session.calls) == Mains(old(session.calls))
      ensures NoMains(session.calls, |old(session.calls)|)
      ensures r.Ok? ==> Settles(session.calls, |old(session.calls)| - 2, |session.calls|, r.value, notes)
      ensures r.Thrown? ==> Excusable(session.calls, r.error)
    {
      hide StateOf, Mains, Session.Valid;
      ghost var h0 := session.calls;
      var stable := session.WaitForQuiescence();
      ghost var h1 := session.calls;
      MainsGrow(h0, h1[|h0|]);
      if stable.Thrown? {
        return Thrown(stable.error);
      }
      if notes && !stable.value {
        session.Note(AttemptRecord("waitForQuiescence", Failed));
        MainsGrow(h1, session.calls[|h1|]);
      }
      r := Observe();
    }

    /** Lines 491-613: click a visible element that names the outcome of a theme or logout task and judge
        the page it leads to. */
    method TrySemantic(i: nat, obs: Observation, logout: bool, ghost from: nat) returns (r: Outcome<bool>)
      requires Wired() && i < |tasks| && tasks[i].status == Pending && from <= |session.calls|
      requires Shown(session.calls, from, obs) && OnlyLawful(Here(), session.calls, from, tasks[i].goal)
      modifies this`tasks, this`steps, this`bugs, session`calls, session`attempts, session.locators
      ensures Wired() && old(session.calls) <= session.calls && |tasks| == |old(tasks)|
      ensures tasks == old(tasks)[i := tasks[i]]
      ensures OnlyLawful(Here(), session.calls, from, tasks[i].goal)
      ensures Appended(old(tasks)[i], tasks[i], old(steps), steps, old(bugs), bugs)
      ensures r.Ok? ==>
        WorkedOn(Here(), session.calls, from, old(tasks)[i], tasks[i], old(steps), steps, old(bugs), bugs, r.value)
      ensures r.Ok? ==> Counted(old(tasks)[i], tasks[i], old(session.calls), session.calls, old(steps), steps,
                                if logout == IsLogoutTask(tasks[i].goal) then 1 else 0,
                                if logout == IsLogoutTask(tasks[i].goal) then 1 else 0)
      ensures r.Ok? ==>
        Mains(session.calls) == Mains(old(session.calls))
          + if logout == IsLogoutTask(tasks[i].goal) && Nameable(lex, tasks[i].goal, obs) then 1 else 0
      ensures r.Ok? && r.value ==> logout == IsLogoutTask(tasks[i].goal) && Nameable(lex, tasks[i].goal, obs)
      ensures r.Ok? && tasks[i].status == TaskBlocked ==> tasks[i].attempts >= MaxCycles(config)
      ensures r.Ok? && logout == IsLogoutTask(tasks[i].goal) && Nameable(lex, tasks[i].goal, obs) && !r.value ==>
        tasks[i].attempts < MaxCycles(config)
      ensures r.Thrown? ==> Excusable(session.calls, r.error)
    {
      hide MaxCycles, Justifies, Hinders, Shown, Excusable, StepId, BugId, OnlyLawful, Mains, Session.Valid, WorkedOn;
      hide Appended, Clicked, NamesOutcome, FirstNaming, Naming, Nameable, IsLogoutTask, IsThemeTask;
      ghost var w, h0, t, s0, b0 := Here(), session.calls, tasks[i], steps, bugs;
      var task := tasks[i].goal;
      NothingDone(w, h0, from, t, s0, b0);
      NameableExactly(lex, task, obs);
      if if logout then !IsLogoutTask(task) else !IsThemeTask(task) {
        return Ok(false);
      }
      var target := Naming(lex, task, obs);
      NamingIsFirst(lex, task, obs);
      if target.None? {
        return Ok(false);
      }
      var outcome := ClickOutcome(i, obs, target.value, from);
      ghost var h1, t1 := session.calls, tasks[i];
      MoreAttempts(t, t1, s0, b0);
      if outcome.Thrown? {
        return Thrown(outcome.error);
      }
      var clicked := outcome.value;
      steps := steps + [clicked.1];
      OneMoreStep(t, t1, s0, clicked.1, b0);
      if clicked.0 {
        SetStatus(i, TaskPassed);
        OneMoreStep(t, tasks[i], s0, clicked.1, b0);
        PassedWork(w, h1, from, t, tasks[i], s0, steps, b0, |s0|);
        return Ok(true);
      }
      if tasks[i].attempts >= MaxCycles(config) {
        OneMoreBug(t, t1, s0, steps, b0);
        var blocked := Block(i, true);
        NoneLawful(w, h1, session.calls, from, task);
        if blocked.Thrown? {
          return Thrown(blocked.error);
        }
        BlamesLater(w, h1, session.calls, from, task, clicked.1);
        BlockedWork(w, session.calls, from, t, tasks[i], s0, steps, b0, bugs, |s0|);
        return Ok(true);
      }
      UnfinishedWork(w, h1, from, t, t1, s0, steps, b0);
      return Ok(false);
    }

    /** Click an element that names the outcome, wait, and look at the page. */
    method ClickOn(i: nat, obs: Observation, target: Element, ghost from: nat) returns (r: Outcome<(bool, Observation)>)
      requires Wired() && i < |tasks| && (IsLogoutTask(tasks[i].goal) || IsThemeTask(tasks[i].goal))
      requires from <= |session.calls|
      requires Shown(session.calls, from, obs) && FirstNaming(lex, tasks[i].goal, obs, target)
      requires OnlyLawful(Here(), session.calls, from, tasks[i].goal)
      modifies this`tasks, session`calls, session`attempts, session.locators
      ensures Wired() && old(session.calls) < session.calls && |tasks| == |old(tasks)|
      ensures tasks == old(tasks)[i := old(tasks)[i].(attempts := tasks[i].attempts)]
      ensures OnlyLawful(Here(), session.calls, from, tasks[i].goal)
      ensures r.Ok? ==>
        tasks[i].attempts == old(tasks)[i].attempts + 1 && Mains(session.calls) == Mains(old(session.calls)) + 1
      ensures Clicks(Here(), session.calls, from, tasks[i].goal, |old(session.calls)|, obs, target)
      ensures r.Ok? ==> Executes(session.calls, |old(session.calls)|, Click(target.id, "semantic click"), r.value.0)
      ensures r.Ok? ==> Settles(session.calls, |old(session.calls)|, |old(session.calls)| + 5, r.value.1, false)
      ensures r.Thrown? ==> Excusable(session.calls, r.error)
    {
      hide Shown, Excusable, OnlyLawful, Mains, Session.Valid, Clicks, FirstNaming, IsLogoutTask, IsThemeTask, NoMains;
      ghost var w, h0 := Here(), session.calls;
      var attempted := Attempt(i, Click(target.id, "semantic click"));
      ghost var h1 := session.calls;
      JustClicked(w, h0, h1, from, tasks[i].goal, obs, target);
      assert NoMains(h1, |h0| + 1) by { ThenNoMains(h0, h1); }
      OneLawful(w, h0, h1, from, tasks[i].goal);
      if attempted.Thrown? {
        return Thrown(attempted.error);
      }
      var looked := LookAfter(false);
      NoneLawful(w, h1, session.calls, from, tasks[i].goal);
      ClicksLater(w, h1, session.calls, from, tasks[i].goal, |h0|, obs, target);
      if looked.Thrown? {
        return Thrown(looked.error);
      }
      return Ok((attempted.value, looked.value));
    }

    /** The click, the page it leads to, and the step to record: it justifies the task if the click worked
        and the page shows the outcome, and says what is missing otherwise. */
    method ClickOutcome(i: nat, obs: Observation, target: Element, ghost from: nat) returns (r: Outcome<(bool, Step)>)
      requires Wired() && i < |tasks| && (IsLogoutTask(tasks[i].goal) || IsThemeTask(tasks[i].goal))
      requires from <= |session.calls|
      requires Shown(session.calls, from, obs) && FirstNaming(lex, tasks[i].goal, obs, target)
      requires OnlyLawful(Here(), session.calls, from, tasks[i].goal)
      modifies this`tasks, session`calls, session`attempts, session.locators
      ensures Wired() && old(session.calls) < session.calls && |tasks| == |old(tasks)|
      ensures tasks == old(tasks)[i := old(tasks)[i].(attempts := tasks[i].attempts)]
      ensures OnlyLawful(Here(), session.calls, from, tasks[i].goal)
      ensures r.Ok? ==> r.value.1.stepId == StepId(|steps| + 1) && r.value.1.validation.Some?
      ensures r.Ok? ==>
        tasks[i].attempts == old(tasks)[i].attempts + 1 && Mains(session.calls) == Mains(old(session.calls)) + 1
      ensures r.Ok? ==> exists after, ok ::
        Clicked(Here(), session.calls, from, tasks[i].goal, r.value.1, |old(session.calls)|, obs, target, after, ok)
      ensures r.Ok? ==>
        if r.value.0 then Justifies(Here(), session.calls, from, tasks[i].goal, r.value.1)
        else Hinders(Here(), session.calls, from, tasks[i].goal, r.value.1)
      ensures r.Thrown? ==> Excusable(session.calls, r.error)
    {
      hide Shown, Excusable, StepId, Justifies, Hinders, OnlyLawful, Mains, Session.Valid, Clicks, FirstNaming;
      hide Settles, Executes;
      ghost var n := |session.calls|;
      var task := tasks[i].goal;
      var clicked :- ClickOn(i, obs, target, from);
      var (execOk, after) := clicked;
      var validation := OutcomeCheck(lex, task, obs, after);
      var bound := if !IsLogoutTask(task) then TextShows(target.name)
                   else if lex.onLoginRoute(after) then UrlHolds("/login")
                   else TextShows("Entrar/Login/E-mail/Senha");
      var step := Step(StepId(|steps| + 1), task.id, Click(target.id, "semantic click"), bound, Some(validation));
      assert Clicked(Here(), session.calls, from, task, step, n, obs, target, after, execOk);
      ClickIsJudged(Here(), session.calls, from, task, step, n, obs, target, after, execOk);
      return Ok((execOk && validation.ok, step));
    }

    /** Lines 83-84 and 178-180: try both semantic clicks, in either order; at most one applies. */
    method TryBoth(i: nat, obs: Observation, logoutFirst: bool, ghost from: nat) returns (r: Outcome<bool>)
      requires Wired() && i < |tasks| && tasks[i].status == Pending && from <= |session.calls|
      requires Shown(session.calls, from, obs) && OnlyLawful(Here(), session.calls, from, tasks[i].goal)
      modifies this`tasks, this`steps, this`bugs, session`calls, session`attempts, session.locators
      ensures Wired() && old(session.calls) <= session.calls && |tasks| == |old(tasks)|
      ensures tasks == old(tasks)[i := tasks[i]]
      ensures OnlyLawful(Here(), session.calls, from, tasks[i].goal)
      ensures Appended(old(tasks)[i], tasks[i], old(steps), steps, old(bugs), bugs)
      ensures r.Ok? ==>
        WorkedOn(Here(), session.calls, from, old(tasks)[i], tasks[i], old(steps), steps, old(bugs), bugs, r.value)
      ensures r.Ok? ==> Counted(old(tasks)[i], tasks[i], old(session.calls), session.calls, old(steps), steps, 1, 1)
      ensures r.Ok? ==>
        Mains(session.calls) == Mains(old(session.calls)) + if Nameable(lex, tasks[i].goal, obs) then 1 else 0
      ensures r.Thrown? ==> Excusable(session.calls, r.error)
    {
      hide Shown, Excusable, WorkedOn, Appended, OnlyLawful, Mains, Session.Valid, IsLogoutTask, Nameable;
      ghost var w, h0, t, s0, b0 := Here(), session.calls, tasks[i], steps, bugs;
      var first :- TrySemantic(i, obs, logoutFirst, from);
      if first {
        return Ok(true);
      }
      ghost var h1, t1, s1, b1 := session.calls, tasks[i], steps, bugs;
      WorkLeavesPending(w, h1, from, t, t1, s0, s1, b0, b1);
      SameTask(t, t1, s0, s1, b0, b1);
      ShownLater(h0, h1, from, obs);
      var second := TrySemantic(i, obs, !logoutFirst, from);
      AppendedChains(t, t1, tasks[i], s0, s1, steps, b0, b1, bugs);
      SameTask(t, tasks[i], s0, steps, b0, bugs);
      if second.Thrown? {
        return Thrown(second.error);
      }
      WorkChains(w, h1, session.calls, from, t, t1, tasks[i], s0, s1, steps, b0, b1, bugs, second.value);
      return second;
    }

    /** Lines 226-284: ask for a decision until one raises no issue, or correct it towards the outcome's
        own target when that is visible. An accepted decision never rests on the console alone, except
        for a console-safety task, and its action is what the asked one just expanded to; only when every
        question was in vain is none accepted. */
    method Decide(g: Goal, obs: Observation) returns (r: Outcome<Decision>)
      requires session.Valid()
      modifies session`calls
      ensures session.Valid() && old(session.calls) < session.calls && NoMains(session.calls, |old(session.calls)|)
      ensures Mains(session.calls) == Mains(old(session.calls))
      ensures r.Ok? && r.value.accepted && r.value.bound.ConsoleClean? ==>
        IsConsoleSafetyTask(lex, g) && !IsLogoutTask(g)
      ensures r.Ok? && r.value.accepted ==> Accepts(Here(), session.calls, g, obs, r.value)
      ensures r.Ok? && !r.value.accepted ==> GivesUp(Here(), session.calls, |old(session.calls)|, g, obs, r.value.asked)
      ensures r.Thrown? ==> Excusable(session.calls, r.error)
    {
      hide IsConsoleSafetyTask, IsLogoutTask, DecisionIssue, Unusable, BindExpected, Promoted, Mains, Session.Valid;
      hide HasIntent, AllUnusable, Reads, NamesOutcome, FirstNaming, Naming;
      ghost var w, h0 := Here(), session.calls;
      ghost var asked: seq<nat> := [];
      var last := Decision(false, ConsoleClean, ClickOutside(""), ClickOutside(""), ClickOutside(""));
      NoneAsked(w, h0, g, obs);
      for i := 0 to Questions(config)
        invariant session.Valid() && h0 <= session.calls && NoMains(session.calls, |h0|)
        invariant Mains(session.calls) == Mains(h0)
        invariant !last.accepted && |asked| == i && AllUnusable(w, session.calls, |h0|, g, obs, asked)
        invariant i > 0 ==> h0 < session.calls && LastNames(session.calls, asked, last.asked)
        invariant i > 0 && HasIntent(g) ==> forall e <- obs.elements :: !NamesOutcome(lex, g, obs, e)
      {
        ghost var h1 := session.calls;
        var answer := session.Propose(obs);
        ghost var h2 := session.calls;
        MainsGrow(h1, h2[|h1|]);
        NoMainsGrow(h1, |h0|, h2[|h1|]);
        if answer.Thrown? {
          return Thrown(answer.error);
        }
        var envelope := answer.value;
        var read, bound := ReadDecision(g, envelope, obs);
        ghost var h3 := session.calls;
        if read.Ok? && DecisionIssue(lex, g, read.value.action, read.value.bound, obs).None? {
          AcceptedDecisionIsNotConsoleOnly(lex, g, read.value.action, read.value.bound, obs);
          ReadIsSound(w, h3, g, obs, read.value);
          return Ok(read.value.(accepted := true));
        }
        OneMoreUnusable(w, h1, h3, |h0|, g, obs, asked, |h1|);
        asked := asked + [|h1|];
        last := if read.Ok? then read.value
                else Decision(false, bound, envelope.action, envelope.action, envelope.fallback);
        var target := if HasIntent(g) then Naming(lex, g, obs) else None;
        NamingIsFirst(lex, g, obs);
        if target.Some? {
          r := Correct(g, obs, target.value, |h1|);
          return;
        }
      }
      return Ok(last);
    }

    /** Lines 271-279: correct an unusable decision towards the outcome's own target. */
    method Correct(g: Goal, obs: Observation, target: Element, ghost k: nat) returns (r: Outcome<Decision>)
      requires session.Valid() && HasIntent(g) && FirstNaming(lex, g, obs, target)
      requires Unusable(Here(), session.calls, g, obs, k)
      modifies session`calls
      ensures session.Valid() && old(session.calls) < session.calls && NoMains(session.calls, |old(session.calls)|)
      ensures Mains(session.calls) == Mains(old(session.calls))
      ensures r.Ok? ==> r.value.accepted && r.value.bound.TextShows? && Accepts(Here(), session.calls, g, obs, r.value)
      ensures r.Thrown? ==> Excusable(session.calls, r.error)
    {
      hide Unusable, Mains, Session.Valid, HasIntent, FirstNaming, Accepts;
      ghost var h := session.calls;
      var asked := Click(target.id, "autocorrect");
      var action := session.Refine(asked);
      MainsGrow(h, session.calls[|h|]);
      if action.None? {
        return Thrown(DynamicData);
      }
      var text := if lex.primary(g.target).Some? then lex.primary(g.target).value else target.name;
      var d := Decision(true, TextShows(text), asked, action.value, CLOSE);
      JustCorrected(Here(), h, session.calls, g, obs, d, target, k);
      return Ok(d);
    }

    /** Lines 243-262: bind the expectation, expand the action and promote a weak expectation. */
    method ReadDecision(g: Goal, envelope: Envelope, obs: Observation)
      returns (r: Outcome<Decision>, bound: BoundExpected)
      requires session.Valid() && session.calls != []
      requires session.calls[|session.calls| - 1] == Proposed(obs, Replied(envelope))
      modifies session`calls
      ensures session.Valid() && old(session.calls) <= session.calls && NoMains(session.calls, |old(session.calls)|)
      ensures Mains(session.calls) == Mains(old(session.calls))
      ensures r.Ok? ==>
        !r.value.accepted && r.value.asked == envelope.action && Reads(Here(), session.calls, g, obs, r.value)
      ensures r.Thrown? || DecisionIssue(lex, g, r.value.action, r.value.bound, obs).Some? ==>
        Unusable(Here(), session.calls, g, obs, |old(session.calls)| - 1)
    {
      hide DecisionIssue, BindExpected, Promoted, Mains, Session.Valid, StateOf, MapOf;
      ghost var h := session.calls;
      bound := ConsoleClean;
      MapWhenAsked(session);
      if envelope.observationId != obs.observationId {
        return Thrown(StaleObservation), bound;
      }
      var expected := BindExpected(session.locators.Current(), obs, envelope.expected);
      if expected.Thrown? {
        return Thrown(expected.error), bound;
      }
      bound := expected.value;
      var action := session.Refine(envelope.action);
      MainsGrow(h, session.calls[|h|]);
      PastStays(h, session.calls, |h| - 1);
      if action.None? {
        return Thrown(DynamicData), bound;
      }
      bound := Promoted(lex, g, action.value, bound, obs);
      return Ok(Decision(false, bound, envelope.action, action.value, envelope.fallback)), bound;
    }

    /** Record a step that failed before it could be validated, and block the task. */
    method BlockAt(i: nat, step: Step) returns (r: Outcome<()>)
      requires session.Valid() && i < |tasks| && step.stepId == StepId(|steps| + 1)
      modifies this`tasks, this`steps, this`bugs, session`calls
      ensures session.Valid() && old(session.calls) < session.calls && NoMains(session.calls, |old(session.calls)|)
      ensures Mains(session.calls) == Mains(old(session.calls)) && steps == old(steps) + [step]
      ensures |tasks| == |old(tasks)| && tasks == old(tasks)[i := old(tasks)[i].(status := tasks[i].status)]
      ensures Appended(old(tasks)[i], tasks[i], old(steps), steps, old(bugs), bugs)
      ensures r.Ok? ==>
        tasks[i].status == TaskBlocked && bugs == old(bugs) + [Bug(BugId(|old(bugs)| + 1), old(tasks)[i].goal.id)]
      ensures r.Thrown? ==> tasks == old(tasks) && bugs == old(bugs)
      ensures r.Thrown? ==> Excusable(session.calls, r.error)
    {
      hide Excusable, StepId, BugId, Mains, Session.Valid, Appended;
      ghost var t, s0, b0 := tasks[i], steps, bugs;
      steps := steps + [step];
      OneMoreStep(t, t, s0, step, b0);
      OneMoreBug(t, t, s0, steps, b0);
      r := Block(i, false);
    }

    /** Lines 73-198: one cycle. */
    method Cycle(i: nat, last: bool, ghost from: nat) returns (r: Outcome<bool>)
      requires Wired() && i < |tasks| && tasks[i].status == Pending && from <= |session.calls|
      requires OnlyLawful(Here(), session.calls, from, tasks[i].goal)
      modifies this`tasks, this`steps, this`bugs, session`calls, session`attempts, session.locators
      ensures Wired() && old(session.calls) <= session.calls && |tasks| == |old(tasks)|
      ensures tasks == old(tasks)[i := tasks[i]]
      ensures OnlyLawful(Here(), session.calls, from, tasks[i].goal)
      ensures Appended(old(tasks)[i], tasks[i], old(steps), steps, old(bugs), bugs)
      ensures r.Ok? ==>
        WorkedOn(Here(), session.calls, from, old(tasks)[i], tasks[i], old(steps), steps, old(bugs), bugs, r.value)
      ensures r.Ok? ==> Counted(old(tasks)[i], tasks[i], old(session.calls), session.calls, old(steps), steps, 3, 3)
      ensures r.Ok? && last ==> r.value
      ensures r.Thrown? ==> Excusable(session.calls, r.error)
    {
      hide Excusable, Shown, StepId, Hinders, WorkedOn, Justifies, Appended, OnlyLawful, Mains, Session.Valid, Counted;
      ghost var w, h0, t, s0, b0 := Here(), session.calls, tasks[i], steps, bugs;
      var task := tasks[i].goal;
      NothingDone(w, h0, from, t, s0, b0);
      var looked := Observe();
      ghost var h1 := session.calls;
      NoneLawful(w, h0, h1, from, task);
      if looked.Thrown? {
        return Thrown(looked.error);
      }
      var obs := looked.value;
      JustShown(h0, h1, from, obs);
      if config.authenticated && task.kind == Some(Authentication) && lex.showsApp(obs) {
        var step := Step(StepId(|steps| + 1), task.id, WaitForStable(0, "state already satisfied"), ConsoleClean,
                         Some(SATISFIED));
        SatisfiedJustifies(w, h1, from, task, obs, step.stepId);
        steps := steps + [step];
        SetStatus(i, TaskPassed);
        OneMoreStep(t, tasks[i], s0, step, b0);
        PassedWork(w, h1, from, t, tasks[i], s0, steps, b0, |s0|);
        CountsOnly(t, tasks[i], h0, h1, s0, steps, 3);
        return Ok(true);
      }
      CountsOnly(t, t, h0, h1, s0, s0, 0);
      var tried :- TryBoth(i, obs, false, from);
      ghost var h2, t2, s2, b2 := session.calls, tasks[i], steps, bugs;
      CountedChains(t, t, t2, h0, h1, h2, s0, s0, s2, 0, 0, 1, 1);
      if tried {
        CountedMore(t, t2, h0, h2, s0, s2, 1, 1, 3, 3);
        return Ok(true);
      }
      WorkLeavesPending(w, h2, from, t, t2, s0, s2, b0, b2);
      SameTask(t, t2, s0, s2, b0, b2);
      ShownLater(h1, h2, from, obs);
      r := Act(i, obs, last, from);
      AppendedChains(t, t2, tasks[i], s0, s2, steps, b0, b2, bugs);
      SameTask(t, tasks[i], s0, steps, b0, bugs);
      if r.Ok? {
        WorkChains(w, h2, session.calls, from, t, t2, tasks[i], s0, s2, steps, b0, b2, bugs, r.value);
        CountedChains(t, t2, tasks[i], h0, h2, session.calls, s0, s2, steps, 1, 1, 2, 2);
      }
    }

    /** Lines 85-106: decide, and let the policy check the action. A refused action is not executed. */
    method Act(i: nat, obs: Observation, last: bool, ghost from: nat) returns (r: Outcome<bool>)
      requires Wired() && i < |tasks| && tasks[i].status == Pending && from <= |session.calls|
      requires OnlyLawful(Here(), session.calls, from, tasks[i].goal)
      requires Shown(session.calls, from, obs)
      modifies this`tasks, this`steps, this`bugs, session`calls, session`attempts, session.locators
      ensures Wired() && old(session.calls) <= session.calls && |tasks| == |old(tasks)|
      ensures tasks == old(tasks)[i := tasks[i]]
      ensures OnlyLawful(Here(), session.calls, from, tasks[i].goal)
      ensures Appended(old(tasks)[i], tasks[i], old(steps), steps, old(bugs), bugs)
      ensures r.Ok? ==>
        WorkedOn(Here(), session.calls, from, old(tasks)[i], tasks[i], old(steps), steps, old(bugs), bugs, r.value)
      ensures r.Ok? ==> Counted(old(tasks)[i], tasks[i], old(session.calls), session.calls, old(steps), steps, 2, 2)
      ensures r.Ok? && last ==> r.value
      ensures r.Thrown? ==> Excusable(session.calls, r.error)
    {
      hide Justifies, Permits, Excusable, StepId, BugId, IsConsoleSafetyTask, IsLogoutTask, WorkedOn, Hinders, Appended;
      hide OnlyLawful;
      hide Mains, Session.Valid, Counted, GivesUp, Accepts, Shown, StateOf;
      ghost var w, h0, t, s0, b0 := Here(), session.calls, tasks[i], steps, bugs;
      var task := tasks[i].goal;
      NothingDone(w, h0, from, t, s0, b0);
      var decided := Decide(task, obs);
      ghost var h1 := session.calls;
      NoneLawful(w, h0, h1, from, task);
      if decided.Thrown? {
        return Thrown(decided.error);
      }
      var decision := decided.value;
      ShownLater(h0, h1, from, obs);
      ValidMeans(session);
      if !decision.accepted || !Permits(session.world.config, decision.action, session.attempts) {
        var step := Step(StepId(|steps| + 1), task.id, decision.asked, decision.bound, None);
        var blocked := BlockAt(i, step);
        ghost var h2 := session.calls;
        NoneLawful(w, h1, h2, from, task);
        if blocked.Thrown? {
          return Thrown(blocked.error);
        }
        if decision.accepted {
          JustRefused(w, h1, h2, from, task, step, obs, decision);
        } else {
          GivesUpLater(w, h1, h2, |h0|, from, task, obs, step.action);
          ShownLater(h1, h2, from, obs);
          UndecidedHinders(w, h2, from, task, step, obs);
        }
        BlockedWork(w, h2, from, t, tasks[i], s0, steps, b0, bugs, |s0|);
        CountsOnly(t, tasks[i], h0, h2, s0, steps, 2);
        return Ok(true);
      }
      CountsOnly(t, t, h0, h1, s0, s0, 0);
      r := Carry(i, decision, obs, last, from);
      if r.Ok? {
        CountedChains(t, t, tasks[i], h0, h1, session.calls, s0, s0, steps, 0, 0, 2, 2);
      }
    }

    /** Lines 108-121: execute the decided action, wait, look at the page, and see what it led to. */
    method Carry(i: nat, decision: Decision, obs: Observation, last: bool, ghost from: nat) returns (r: Outcome<bool>)
      requires Wired() && i < |tasks| && tasks[i].status == Pending && from <= |session.calls|
      requires OnlyLawful(Here(), session.calls, from, tasks[i].goal)
      requires Shown(session.calls, from, obs) && Accepts(Here(), session.calls, tasks[i].goal, obs, decision)
      requires Permits(session.world.config, decision.action, session.attempts)
      requires decision.bound.ConsoleClean? ==> IsConsoleSafetyTask(lex, tasks[i].goal) && !IsLogoutTask(tasks[i].goal)
      modifies this`tasks, this`steps, this`bugs, session`calls, session`attempts, session.locators
      ensures Wired() && old(session.calls) <= session.calls && |tasks| == |old(tasks)|
      ensures tasks == old(tasks)[i := tasks[i]]
      ensures OnlyLawful(Here(), session.calls, from, tasks[i].goal)
      ensures Appended(old(tasks)[i], tasks[i], old(steps), steps, old(bugs), bugs)
      ensures r.Ok? ==>
        WorkedOn(Here(), session.calls, from, old(tasks)[i], tasks[i], old(steps), steps, old(bugs), bugs, r.value)
      ensures r.Ok? ==> Counted(old(tasks)[i], tasks[i], old(session.calls), session.calls, old(steps), steps, 2, 2)
      ensures Launched(Here(), session.calls, from, tasks[i].goal, |old(session.calls)|, obs, decision)
      ensures r.Ok? ==> exists m, after :: Settles(session.calls, |old(session.calls)|, m, after, true)
      ensures r.Ok? && last ==> r.value
      ensures r.Thrown? ==> Excusable(session.calls, r.error)
    {
      hide Justifies, Permits, Excusable, StepId, IsConsoleSafetyTask, IsLogoutTask, WorkedOn, Hinders, Appended;
      hide OnlyLawful, Settles;
      hide Mains, Session.Valid, Accepts, Shown, StateOf, Launched, NoMains, Counted;
      ghost var w, h0, t, s0, b0 := Here(), session.calls, tasks[i], steps, bugs;
      var task := tasks[i].goal;
      ValidMeans(session);
      var attempted := Attempt(i, decision.action);
      ghost var h1, t1 := session.calls, tasks[i];
      JustLaunched(w, h0, h1, from, task, obs, decision);
      ThenNoMains(h0, h1);
      OneLawful(w, h0, h1, from, task);
      MoreAttempts(t, t1, s0, b0);
      if attempted.Thrown? {
        return Thrown(attempted.error);
      }
      OneExecuted(t, t1, h0, h1, s0);
      var looked := LookAfter(true);
      ghost var h2 := session.calls;
      UnfinishedWork(w, h2, from, t, t1, s0, s0, b0);
      NoneLawful(w, h1, h2, from, task);
      LaunchedLater(w, h1, h2, from, task, |h0|, obs, decision);
      if looked.Thrown? {
        return Thrown(looked.error);
      }
      CountsOnly(t1, t1, h1, h2, s0, s0, 0);
      CountedChains(t, t1, t1, h0, h1, h2, s0, s0, s0, 1, 0, 0, 0);
      r := Evaluate(i, decision, obs, attempted.value, looked.value, lex.changed(obs, looked.value), last, from, |h0|);
      ghost var h3 := session.calls;
      LaunchedLater(w, h2, h3, from, task, |h0|, obs, decision);
      SettlesLater(h2, h3, |h0|, |h2|, looked.value, true);
      AppendedChains(t, t1, tasks[i], s0, s0, steps, b0, b0, bugs);
      if r.Ok? {
        WorkChains(w, h2, h3, from, t, t1, tasks[i], s0, s0, steps, b0, b0, bugs, r.value);
        CountedChains(t, t1, tasks[i], h0, h2, h3, s0, s0, steps, 1, 0, 1, 2);
      }
    }

    /** Expand the text of an expectation, if it has one. */
    method ExpandBound(e: BoundExpected) returns (r: Outcome<BoundExpected>)
      requires session.Valid()
      modifies session`calls
      ensures session.Valid() && old(session.calls) <= session.calls && NoMains(session.calls, |old(session.calls)|)
      ensures Mains(session.calls) == Mains(old(session.calls))
      ensures r.Ok? ==> Words(session.calls, |old(session.calls)|, |session.calls|, e, r.value)
      ensures r.Ok? ==> (r.value.ConsoleClean? <==> e.ConsoleClean?)
      ensures r.Thrown? ==> TextOf(e).Some? && session.calls == old(session.calls) + [Phrased(TextOf(e).value, None)]
    {
      hide Mains, Session.Valid;
      ghost var h := session.calls;
      if TextOf(e).None? {
        return Ok(e);
      }
      var text := session.Phrase(TextOf(e).value);
      MainsGrow(h, session.calls[|h|]);
      return if text.Some? then Ok(WithText(e, text.value)) else Thrown(DynamicData);
    }

    /** Lines 121-176: validate what the action did, with recovery if needed, and judge it. */
    method Evaluate(i: nat, decision: Decision, obs: Observation, execOk: bool, after: Observation, changed: bool,
                    last: bool,
                    ghost from: nat, ghost n: nat)
      returns (r: Outcome<bool>)
      requires Wired() && i < |tasks| && tasks[i].status == Pending && from <= |session.calls|
      requires OnlyLawful(Here(), session.calls, from, tasks[i].goal)
      requires Launched(Here(), session.calls, from, tasks[i].goal, n, obs, decision)
      requires Executes(session.calls, n, decision.action, execOk)
      requires Settles(session.calls, n, |session.calls|, after, true)
      requires decision.bound.ConsoleClean? ==> IsConsoleSafetyTask(lex, tasks[i].goal) && !IsLogoutTask(tasks[i].goal)
      modifies this`tasks, this`steps, this`bugs, session`calls, session`attempts, session.locators
      ensures Wired() && old(session.calls) <= session.calls && |tasks| == |old(tasks)|
      ensures tasks == old(tasks)[i := tasks[i]]
      ensures OnlyLawful(Here(), session.calls, from, tasks[i].goal)
      ensures Appended(old(tasks)[i], tasks[i], old(steps), steps, old(bugs), bugs)
      ensures r.Ok? ==>
        WorkedOn(Here(), session.calls, from, old(tasks)[i], tasks[i], old(steps), steps, old(bugs), bugs, r.value)
      ensures r.Ok? ==> Counted(old(tasks)[i], tasks[i], old(session.calls), session.calls, old(steps), steps, 1, 2)
      ensures r.Ok? && last ==> r.value
      ensures r.Thrown? ==> Excusable(session.calls, r.error)
    {
      hide Justifies, Excusable, StepId, BugId, IsConsoleSafetyTask, IsLogoutTask, WorkedOn, Hinders, Appended;
      hide OnlyLawful, Settles, Given;
      hide Mains, Session.Valid, Shown, Launched, Counted, Words, Validates, StepSucceeded, IsIntermediate, Carried;
      ghost var w, h0, t, s0, b0 := Here(), session.calls, tasks[i], steps, bugs;
      var task := tasks[i].goal;
      NothingDone(w, h0, from, t, s0, b0);
      var expected := ExpandBound(decision.bound);
      ghost var h1 := session.calls;
      NoneLawful(w, h0, h1, from, task);
      if expected.Thrown? {
        var step := Step(StepId(|steps| + 1), task.id, decision.asked, decision.bound, None);
        var blocked := BlockAt(i, step);
        ghost var h2 := session.calls;
        NoneLawful(w, h1, h2, from, task);
        if blocked.Thrown? {
          return Thrown(blocked.error);
        }
        WordlessHinders(w, h0, h2, from, task, step, n, obs, decision, after);
        BlockedWork(w, h2, from, t, tasks[i], s0, steps, b0, bugs, |s0|);
        CountsOnly(t, tasks[i], h0, h2, s0, steps, 2);
        return Ok(true);
      }
      LaunchedFrom(w, h0, from, task, n, obs, decision);
      SettledIsShown(h0, from, n, |h0|, after, true);
      ShownLater(h0, h1, from, after);
      LaunchedIsGiven(w, h0, h1, from, task, n, obs, decision);
      var judged := Validate(expected.value, decision.fallback, execOk, after, from);
      ghost var h2 := session.calls;
      NoneLawful(w, h1, h2, from, task);
      if judged.Thrown? {
        return Thrown(judged.error);
      }
      var (validation, recoveredOk, latest) := judged.value;
      var ok := StepSucceeded(lex, task, decision.action, execOk, validation.ok, recoveredOk, expected.value, changed);
      var step := Step(StepId(|steps| + 1), task.id, decision.action, expected.value, Some(validation));
      ghost var c := Course(n, obs, decision, |h0|, after, |h1|, |h2|, execOk, recoveredOk);
      JustCarried(w, h0, h1, h2, from, task, step, c);
      StepIsJudged(w, h2, from, task, step, c, changed);
      CountsOnly(t, t, h0, h2, s0, s0, 0);
      r := Judge(i, step, latest, ok, validation.ok && IsIntermediate(lex, task, step), last, from);
      if r.Ok? {
        CountedChains(t, t, tasks[i], h0, h2, session.calls, s0, s0, steps, 0, 0, 1, 2);
      }
    }

    /** Lines 137-156: validate, and after a failure recover, observe and validate again. */
    method Validate(expected: BoundExpected, fallback: QaAction, execOk: bool, after: Observation, ghost from: nat)
      returns (r: Outcome<(AssertionResult, bool, Observation)>)
      requires Wired() && Shown(session.calls, from, after) && from <= |session.calls|
      requires Given(session.calls, fallback)
      modifies session`calls, session`attempts, session.locators
      ensures Wired() && old(session.calls) < session.calls && NoMains(session.calls, |old(session.calls)|)
      ensures Mains(session.calls) == Mains(old(session.calls))
      ensures r.Ok? ==> Shown(session.calls, from, r.value.2)
      ensures r.Ok? ==>
        Validates(session.world, session.calls, |old(session.calls)|, |session.calls|, expected, fallback, execOk,
                  r.value.0, r.value.1)
      ensures r.Thrown? ==> Excusable(session.calls, r.error)
    {
      hide Shown, Mains, Session.Valid, RecoveredTo, ValidatesAgain, Given;
      ghost var h0 := session.calls;
      var validation := session.Validate(expected);
      ghost var h1 := session.calls;
      MainsGrow(h0, h1[|h0|]);
      if validation.Thrown? {
        return Thrown(validation.error);
      }
      ShownLater(h0, h1, from, after);
      if execOk && validation.value.ok {
        return Ok((validation.value, false, after));
      }
      GivenLater(h0, h1, fallback);
      ghost var j: nat;
      r, j := RecoverAndValidate(expected, fallback, after, from);
    }

    /** Lines 139-153: recover, look at the page again, and validate a second time. */
    method RecoverAndValidate(expected: BoundExpected, fallback: QaAction, after: Observation, ghost from: nat)
      returns (r: Outcome<(AssertionResult, bool, Observation)>, ghost j: nat)
      requires Wired() && from <= |session.calls| && Given(session.calls, fallback)
      modifies session`calls, session`attempts, session.locators
      ensures Wired() && old(session.calls) <= session.calls && NoMains(session.calls, |old(session.calls)|)
      ensures Mains(session.calls) == Mains(old(session.calls))
      ensures r.Ok? ==> Shown(session.calls, from, r.value.2) && j + 3 == |session.calls|
      ensures r.Ok? ==>
        RecoveredTo(session.world, session.calls, |old(session.calls)|, j, expected, fallback, r.value.1)
      ensures r.Ok? ==> ValidatesAgain(session.calls, j, expected, r.value.0)
      ensures r.Thrown? ==> Excusable(session.calls, r.error)
    {
      hide Shown, Mains, Session.Valid, AllVain, FirstToWork, RecoveryActions, Keeps, RecoveredTo, Given;
      ghost var h0 := session.calls;
      var recovered := recovery.Recover(expected, fallback, Some(after));
      j := |session.calls|;
      ghost var h1 := session.calls;
      KeepsNoMains(h0, h1);
      if recovered.Thrown? {
        return Thrown(recovered.error), j;
      }
      JustRecovered(session.world, h1, |h0|, expected, fallback, recovered.value);
      var latest := Observe();
      ghost var h2 := session.calls;
      if latest.Thrown? {
        return Thrown(latest.error), j;
      }
      JustShown(h1, h2, from, latest.value);
      var validation := session.Validate(expected);
      ghost var h3 := session.calls;
      MainsGrow(h2, h3[|h2|]);
      if validation.Thrown? {
        return Thrown(validation.error), j;
      }
      ShownLater(h2, h3, from, latest.value);
      RecoveredLater(session.world, h1, h3, |h0|, j, expected, fallback, recovered.value.Some?);
      return Ok((validation.value, recovered.value.Some?, latest.value)), j;
    }

    /** Lines 183-197: a console error blocks, success passes, and the last cycle blocks. */
    method Settle(i: nat, validation: AssertionResult, ok: bool, last: bool) returns (r: Outcome<bool>)
      requires session.Valid() && i < |tasks| && tasks[i].status == Pending && (ok ==> validation.ok)
      modifies this`tasks, this`bugs, session`calls
      ensures session.Valid() && old(session.calls) <= session.calls && NoMains(session.calls, |old(session.calls)|)
      ensures Mains(session.calls) == Mains(old(session.calls)) && |tasks| == |old(tasks)|
      ensures tasks == old(tasks)[i := tasks[i]]
      ensures r.Ok? ==>
        if ok then r.value && bugs == old(bugs) && tasks[i] == old(tasks)[i].(status := TaskPassed)
        else if last || (validation.kind == "no_console_errors" && !validation.ok) then
          && r.value && tasks[i] == old(tasks)[i].(status := TaskBlocked)
          && bugs == old(bugs) + [Bug(BugId(|old(bugs)| + 1), old(tasks)[i].goal.id)]
        else !r.value && bugs == old(bugs) && tasks == old(tasks)
      ensures r.Thrown? ==> bugs == old(bugs) && tasks[i] == old(tasks)[i].(status := TaskBlocked)
      ensures r.Thrown? ==> Excusable(session.calls, r.error)
    {
      hide Excusable, Mains, Session.Valid;
      if validation.kind == "no_console_errors" && !validation.ok {
        var _ :- Block(i, true);
        return Ok(true);
      }
      if ok {
        SetStatus(i, TaskPassed);
        return Ok(true);
      }
      if last {
        var _ :- Block(i, true);
      }
      return Ok(last);
    }

    /** Lines 175-197: record the step, then after an intermediate one try the semantic clicks, and settle what
        the step means for the task. */
    method Judge(i: nat, step: Step, after: Observation, ok: bool, intermediate: bool, last: bool, ghost from: nat)
      returns (r: Outcome<bool>)
      requires Wired() && i < |tasks| && tasks[i].status == Pending && from <= |session.calls|
      requires OnlyLawful(Here(), session.calls, from, tasks[i].goal)
      requires Shown(session.calls, from, after) && step.stepId == StepId(|steps| + 1)
      requires step.validation.Some? && (ok ==> step.validation.value.ok && !intermediate)
      requires if ok then Justifies(Here(), session.calls, from, tasks[i].goal, step)
               else Hinders(Here(), session.calls, from, tasks[i].goal, step)
      modifies this`tasks, this`steps, this`bugs, session`calls, session`attempts, session.locators
      ensures Wired() && old(session.calls) <= session.calls && |tasks| == |old(tasks)|
      ensures tasks == old(tasks)[i := tasks[i]]
      ensures OnlyLawful(Here(), session.calls, from, tasks[i].goal)
      ensures Appended(old(tasks)[i], tasks[i], old(steps), steps, old(bugs), bugs)
      ensures r.Ok? ==>
        WorkedOn(Here(), session.calls, from, old(tasks)[i], tasks[i], old(steps), steps, old(bugs), bugs, r.value)
      ensures |steps| > |old(steps)| && steps[|old(steps)|] == step
      ensures r.Ok? ==> Counted(old(tasks)[i], tasks[i], old(session.calls), session.calls, old(steps), steps, 1, 2)
      ensures r.Ok? ==>
        Mains(session.calls)
        == Mains(old(session.calls)) + if intermediate && Nameable(lex, old(tasks)[i].goal, after) then 1 else 0
      ensures r.Ok? && last ==> r.value
      ensures r.Thrown? ==> Excusable(session.calls, r.error)
    {
      hide Justifies, Hinders, Excusable, StepId, BugId, WorkedOn, Appended, OnlyLawful, Mains, Session.Valid, Shown;
      hide Counted;
      ghost var w, h0, t, s0, b0 := Here(), session.calls, tasks[i], steps, bugs;
      steps := steps + [step];
      ghost var s1 := steps;
      OneMoreStep(t, t, s0, step, b0);
      UnfinishedWork(w, h0, from, t, t, s0, s1, b0);
      CountsOnly(t, t, h0, h0, s0, s1, 1);
      if intermediate {
        var tried := TryBoth(i, after, true, from);
        KeepsSteps(t, tasks[i], s1, steps, b0, bugs);
        AppendedChains(t, t, tasks[i], s0, s1, steps, b0, b0, bugs);
        if tried.Thrown? {
          return Thrown(tried.error);
        }
        WorkChains(w, h0, session.calls, from, t, t, tasks[i], s0, s1, steps, b0, b0, bugs, tried.value);
        CountedChains(t, t, tasks[i], h0, h0, session.calls, s0, s1, steps, 0, 1, 1, 1);
        if tried.value {
          return Ok(true);
        }
        WorkLeavesPending(w, session.calls, from, t, tasks[i], s0, steps, b0, bugs);
      } else {
        CountedMore(t, t, h0, h0, s0, s1, 0, 1, 1, 2);
      }
      ghost var h1, t1, b1 := session.calls, tasks[i], bugs;
      r := Settle(i, step.validation.value, ok, last);
      ghost var h2 := session.calls;
      NoneLawful(w, h1, h2, from, t.goal);
      SettledWork(w, h0, h2, from, t, t1, tasks[i], s0, steps, b0, b1, bugs, step, ok);
      CountsOnly(t1, tasks[i], h1, h2, steps, steps, 0);
      CountedChains(t, t1, tasks[i], h0, h1, h2, s0, steps, steps, 1, 2, 0, 0);
    }

    /** Lines 68-199: cycle until the task is decided, at most `MaxCycles` times, each with at most three actions and
        three steps. */
    method RunTask(i: nat, ghost from: nat) returns (r: Outcome<()>)
      requires Wired() && i < |tasks| && tasks[i].status == Pending && from <= |session.calls|
      requires OnlyLawful(Here(), session.calls, from, tasks[i].goal)
      modifies this`tasks, this`steps, this`bugs, session`calls, session`attempts, session.locators
      ensures Wired() && old(session.calls) <= session.calls && |tasks| == |old(tasks)|
      ensures tasks == old(tasks)[i := tasks[i]]
      ensures OnlyLawful(Here(), session.calls, from, tasks[i].goal)
      ensures Appended(old(tasks)[i], tasks[i], old(steps), steps, old(bugs), bugs)
      ensures r.Ok? ==>
        WorkedOn(Here(), session.calls, from, old(tasks)[i], tasks[i], old(steps), steps, old(bugs), bugs,
                 MaxCycles(config) > 0)
      ensures r.Ok? ==> Counted(old(tasks)[i], tasks[i], old(session.calls), session.calls, old(steps), steps,
                                3 * MaxCycles(config), 3 * MaxCycles(config))
      ensures r.Thrown? ==> Excusable(session.calls, r.error)
    {
      hide Justifies, Hinders, Excusable, StepId, BugId, OnlyLawful, Mains, Session.Valid, Counted, WorkedOn, Appended;
      ghost var w, h0, t, s0, b0 := Here(), session.calls, tasks[i], steps, bugs;
      var maxCycles := MaxCycles(config);
      NothingDone(w, h0, from, t, s0, b0);
      CountsOnly(t, t, h0, h0, s0, s0, 0);
      for cycle := 0 to maxCycles
        invariant Wired() && h0 <= session.calls && |tasks| == |old(tasks)| && tasks == old(tasks)[i := tasks[i]]
        invariant tasks[i].status == Pending && tasks[i].goal == t.goal && from <= |session.calls|
        invariant OnlyLawful(w, session.calls, from, t.goal) && Appended(t, tasks[i], s0, steps, b0, bugs)
        invariant WorkedOn(w, session.calls, from, t, tasks[i], s0, steps, b0, bugs, false)
        invariant Counted(t, tasks[i], h0, session.calls, s0, steps, 3 * cycle, 3 * cycle)
        invariant cycle == maxCycles ==> maxCycles == 0
      {
        ghost var h1, t1, s1, b1 := session.calls, tasks[i], steps, bugs;
        var done := Cycle(i, cycle == maxCycles - 1, from);
        AppendedChains(t, t1, tasks[i], s0, s1, steps, b0, b1, bugs);
        SameTask(t, tasks[i], s0, steps, b0, bugs);
        if done.Thrown? {
          return Thrown(done.error);
        }
        WorkChains(w, h1, session.calls, from, t, t1, tasks[i], s0, s1, steps, b0, b1, bugs, done.value);
        CountedChains(t, t1, tasks[i], h0, h1, session.calls, s0, s1, steps, 3 * cycle, 3 * cycle, 3, 3);
        if done.value {
          CountedMore(t, tasks[i], h0, session.calls, s0, steps, 3 * cycle + 3, 3 * cycle + 3, 3 * maxCycles,
                      3 * maxCycles);
          return Ok(());
        }
        WorkLeavesPending(w, session.calls, from, t, tasks[i], s0, steps, b0, bugs);
      }
      return Ok(());
    }

    /** Lines 46-52: the turn of one task. */
    method TakeTurn(i: nat) returns (r: Outcome<()>)
      requires Wired() && i < |tasks|
      modifies this`tasks, this`steps, this`bugs, session`calls, session`attempts, session.locators
      ensures Wired() && old(session.calls) <= session.calls && |tasks| == |old(tasks)|
      ensures tasks == old(tasks)[i := tasks[i]]
      ensures Appended(old(tasks)[i], tasks[i], old(steps), steps, old(bugs), bugs)
      ensures OnlyLawful(Here(), session.calls, |old(session.calls)|, old(tasks)[i].goal)
      ensures r.Ok? ==>
        TurnTaken(Here(), session.calls, |old(session.calls)|, old(tasks), old(tasks)[i], tasks[i], steps, |old(steps)|)
      ensures r.Ok? ==>
        BugTasks(bugs[|old(bugs)|..])
        == if old(tasks)[i].status == Pending && tasks[i].status == TaskBlocked then [tasks[i].goal.id] else []
      ensures old(tasks)[i].status != Pending ==> session.calls == old(session.calls) && r == Ok(())
      ensures old(tasks)[i].status == Pending && DepsBlocked(old(tasks), old(tasks)[i]) ==>
        session.calls == old(session.calls) + [Noted(AttemptRecord("task-skip", BlockedAttempt))] && r == Ok(())
      ensures r.Thrown? ==> Excusable(session.calls, r.error)
    {
      hide Justifies, Hinders, Excusable, StepId, BugId, OnlyLawful, Mains, Session.Valid, Counted, WorkedOn, Appended;
      hide DepsBlocked;
      ghost var w, h0, t, s0, b0 := Here(), session.calls, tasks[i], steps, bugs;
      NothingDone(w, h0, |h0|, t, s0, b0);
      NothingExecuted(w, h0, t.goal);
      if tasks[i].status != Pending {
        return Ok(());
      }
      if DepsBlocked(tasks, tasks[i]) {
        SetStatus(i, Skipped);
        session.Note(AttemptRecord("task-skip", BlockedAttempt));
        MainsGrow(h0, session.calls[|h0|]);
        NoneLawful(w, h0, session.calls, |h0|, t.goal);
        AnyStatus(t, t, s0, s0, b0, b0, Skipped);
        return Ok(());
      }
      var run := RunTask(i, |h0|);
      SameTask(t, tasks[i], s0, steps, b0, bugs);
      if run.Thrown? {
        return Thrown(run.error);
      }
      WorkIsTurn(w, h0, session.calls, old(tasks), t, tasks[i], s0, steps, b0, bugs);
      return Ok(());
    }

    /** Lines 41-57: the tasks in turn. A run that does not throw decides every pending task in a turn of its own,
        starts one only when all it depends on has passed, reports exactly one bug for each task it blocks, in order,
        and numbers the steps and bugs it appends by their position. */
    method RunScenario() returns (r: Outcome<()>, ghost marks: seq<nat>)
      requires Wired()
      modifies this`tasks, this`steps, this`bugs, session`calls, session`attempts, session.locators
      ensures Wired() && |tasks| == |old(tasks)| && Honest(session.world, session.calls)
      ensures old(session.calls) <= session.calls && PolicyKept(session.world, session.calls, |old(session.calls)|)
      ensures old(steps) <= steps && StepsNumbered(steps, |old(steps)|)
      ensures old(bugs) <= bugs && BugsNumbered(bugs, |old(bugs)|)
      ensures r.Ok? ==> |marks| == |tasks| + 1 && marks[0] > |old(session.calls)|
      ensures r.Ok? ==>
        forall i :: 0 <= i < |tasks| ==> Fares(Here(), session.calls, marks, old(tasks), tasks, i, steps, |old(steps)|)
      ensures r.Ok? ==> BugTasks(bugs[|old(bugs)|..]) == NewlyBlocked(old(tasks), tasks, |tasks|)
      ensures r.Thrown? ==> Excusable(session.calls, r.error)
    {
      hide TurnTaken, Fares, Excusable, Session.Valid, Honest, PolicyKept, OnlyLawful;
      ghost var w, h0 := Here(), session.calls;
      PolicyKeptInNothing(w.world, h0);
      var _ := session.Observe();
      PolicyKeptAtRest(w.world, h0, session.calls, |h0|);
      marks := [|session.calls|];
      for i := 0 to |tasks|
        invariant Wired() && h0 < session.calls && |tasks| == |old(tasks)| && tasks[i..] == old(tasks)[i..]
        invariant old(steps) <= steps && StepsNumbered(steps, |old(steps)|)
        invariant old(bugs) <= bugs && BugsNumbered(bugs, |old(bugs)|)
        invariant |marks| == i + 1 && marks[i] == |session.calls| && marks[0] > |h0|
        invariant PolicyKept(w.world, session.calls, |h0|)
        invariant forall k :: 0 <= k < i ==> Fares(w, session.calls, marks, old(tasks), tasks, k, steps, |old(steps)|)
        invariant BugTasks(bugs[|old(bugs)|..]) == NewlyBlocked(old(tasks), tasks, i)
      {
        ghost var h1, t1, s1, b1 := session.calls, tasks, steps, bugs;
        assert tasks[i] == tasks[i..][0] == old(tasks)[i];
        var turn := TakeTurn(i);
        PolicyKeptByLaw(w, h1, session.calls, |h0|, t1[i].goal);
        if turn.Thrown? {
          HonestNow(session);
          return Thrown(turn.error), marks;
        }
        assert tasks[..i] == t1[..i];
        StillFares(w, h1, session.calls, marks, old(tasks), t1, tasks, i, s1, steps, |old(steps)|);
        marks := marks + [|session.calls|];
        TurnFares(w, session.calls, marks, old(tasks), t1, tasks, i, steps, |s1|, |old(steps)|);
        BlockedSoFar(old(tasks), t1, tasks, i);
        MoreBugs(old(bugs), b1, bugs);
      }
      ghost var h1 := session.calls;
      var _ := session.Observe();
      PolicyKeptAtRest(w.world, h1, session.calls, |h0|);
      StillFares(w, h1, session.calls, marks, old(tasks), tasks, tasks, |tasks|, steps, steps, |old(steps)|);
      HonestNow(session);
      return Ok(()), marks;
    }
  }

  /** What is lawful keeps the policy: decisions are permitted, and clicks on elements always are. */
  lemma LawfulKeepsPolicy(w: Setting, h: History, from: nat, g: Goal)
    requires OnlyLawful(w, h, from, g)
    ensures PolicyKept(w.world, h, from)
  {
    hide Accepts, FirstNaming, Shown, Permits, Abides, StateOf;
    forall n | from <= n < |h| && IsMain(h[n])
      ensures Abides(w.world.config.allowedRoutes, h[n].action, At(h, n).attempts)
    {
      if obs, d :| Launched(w, h, from, g, n, obs, d) {
        PermittedAbides(w.world.config, h[n].action, At(h, n).attempts);
      } else {
        var obs, e :| Clicks(w, h, from, g, n, obs, e);
        ClickAbides(w.world.config.allowedRoutes, h[n].action, At(h, n).attempts);
      }
    }
  }

  lemma ClickAbides(routes: seq<string>, a: QaAction, attempts: seq<AttemptRecord>)
    requires a.Click?
    ensures Abides(routes, a, attempts)
  {
  }

  lemma PolicyKeptByLaw(w: Setting, h: History, later: History, from: nat, g: Goal)
    requires PolicyKept(w.world, h, from) && h <= later && OnlyLawful(w, later, |h|, g)
    ensures PolicyKept(w.world, later, from)
  {
    hide OnlyLawful, PolicyKept;
    LawfulKeepsPolicy(w, later, |h|, g);
    PolicyStaysKept(w.world, h, later, from);
  }

  lemma PolicyKeptInNothing(w: World, h: History)
    ensures PolicyKept(w, h, |h|)
  {
  }

  lemma PolicyKeptAtRest(w: World, h: History, later: History, from: nat)
    requires PolicyKept(w, h, from) && h <= later && forall n :: |h| <= n < |later| ==> !IsMain(later[n])
    ensures PolicyKept(w, later, from)
  {
    PolicyStaysKept(w, h, later, from);
  }

  lemma NothingExecuted(w: Setting, h: History, g: Goal)
    ensures OnlyLawful(w, h, |h|, g) && h[..|h|] == h
  {
  }

  /** The work on a pending task whose dependencies passed is its turn. */
  lemma WorkIsTurn(w: Setting, h: History, later: History, tasks: seq<Task>, t: Task, t': Task, s: seq<Step>,
                   s': seq<Step>,
                   b: seq<Bug>, b': seq<Bug>)
    requires t.status == Pending && !DepsBlocked(tasks, t) && h <= later
    requires OnlyLawful(w, later, |h|, t.goal) && WorkedOn(w, later, |h|, t, t', s, s', b, b', MaxCycles(w.config) > 0)
    requires Counted(t, t', h, later, s, s', 3 * MaxCycles(w.config), 3 * MaxCycles(w.config))
    ensures TurnTaken(w, later, |h|, tasks, t, t', s', |s|)
    ensures BugTasks(b'[|b|..]) == if t'.status == TaskBlocked then [t'.goal.id] else []
  {
    assert later[..|h|] == h;
    hide Justifies, Hinders, OnlyLawful, Mains, DepsBlocked, StepId, BugId;
  }

  lemma TurnFares(w: Setting, h: History, marks: seq<nat>, before: seq<Task>, middle: seq<Task>, after: seq<Task>,
                  i: nat,
                  steps: seq<Step>, from: nat, since: nat)
    requires i < |before| == |middle| == |after| && middle[i..] == before[i..] && after == middle[i := after[i]]
    requires |marks| == i + 2 && marks[i] <= marks[i + 1] == |h| && since <= from
    requires TurnTaken(w, h, marks[i], middle, middle[i], after[i], steps, from)
    ensures Fares(w, h, marks, before, after, i, steps, since)
  {
    hide Justifies, Hinders, DepsBlocked, OnlyLawful, Mains;
    assert middle[i] == middle[i..][0] == before[i];
    assert after[..i] == middle[..i] && h[..|h|] == h;
    assert WhenReached(before, after, i) == middle;
  }

  lemma MoreBugs(first: seq<Bug>, middle: seq<Bug>, last: seq<Bug>)
    requires first <= middle <= last
    ensures BugTasks(last[|first|..]) == BugTasks(middle[|first|..]) + BugTasks(last[|middle|..])
  {
    assert last[|first|..] == middle[|first|..] + last[|middle|..];
  }

  /** Deciding a later task, recording more steps, or more happening does not change what was made of a task. */
  lemma StillFares(w: Setting, h: History, later: History, marks: seq<nat>, before: seq<Task>, after: seq<Task>,
                   after': seq<Task>,
                   i: nat, steps: seq<Step>, steps': seq<Step>, since: nat)
    requires i <= |before| == |after| == |after'| && after'[..i] == after[..i] && steps <= steps' && h <= later
    requires forall k :: 0 <= k < i ==> Fares(w, h, marks, before, after, k, steps, since)
    ensures forall k, more :: 0 <= k < i && marks <= more ==> Fares(w, later, more, before, after', k, steps', since)
  {
    hide Justifies, Hinders, DepsBlocked, OnlyLawful, Mains;
    forall k, more | 0 <= k < i && marks <= more
      ensures Fares(w, later, more, before, after', k, steps', since)
    {
      assert Fares(w, h, marks, before, after, k, steps, since);
      assert after'[k] == after'[..i][k] == after[k];
      assert after'[..k] == after'[..i][..k] == after[..k];
      assert WhenReached(before, after', k) == WhenReached(before, after, k);
      PastStays(h, later, marks[k + 1]);
    }
  }

  lemma {:induction false} BlockedSoFar(before: seq<Task>, after: seq<Task>, after': seq<Task>, n: nat)
    requires n <= |before| == |after| == |after'| && after'[..n] == after[..n]
    ensures NewlyBlocked(before, after', n) == NewlyBlocked(before, after, n)
  {
    if n > 0 {
      assert after'[n - 1] == after'[..n][n - 1] == after[n - 1];
      assert after'[..n - 1] == after'[..n][..n - 1] == after[..n - 1];
      BlockedSoFar(before, after, after', n - 1);
    }
  }
}
