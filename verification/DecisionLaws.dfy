/** Which decisions of the model a reactive run uses, and what it makes of their expectations
    (src/application/services/reactive-runner.service.ts). */
module DecisionLaws {
  import opened Domain
  import opened Harness
  import opened Locators
  import opened ReactiveRunner
  import opened StepServices
  import opened TaskGraph
  import opened TaskLaws
  import opened Text

  // ----- what a decision rests on

  /** The expectation is to see the very element the action acts on. */
  predicate SeesItsTarget(a: QaAction, e: BoundExpected) {
    && e.ElementShows? && e.element.Some?
    && a.Target().Some? && a.Target().value == e.element.value.originalElementId != ""
  }

  /** The first element of the page that has the id is captioned with a text that names the outcome. */
  ghost predicate NamedById(lex: Lexicon, g: Goal, es: seq<Element>, id: string, k: nat) {
    && k < |es| && es[k].id == id && (forall j :: 0 <= j < k ==> es[j].id != id)
    && lex.matches(g.target, es[k].name + " " + if es[k].text.Some? then es[k].text.value else "")
  }

  ghost predicate ActsOnNamed(lex: Lexicon, g: Goal, a: QaAction, obs: Observation) {
    && a.Target().Some? && a.Target().value != ""
    && exists k: nat :: NamedById(lex, g, obs.elements, a.Target().value, k)
  }

  lemma ActsOnOutcomeExactly(lex: Lexicon, g: Goal, a: QaAction, obs: Observation)
    ensures ActsOnOutcome(lex, g, a, obs) <==> ActsOnNamed(lex, g, a, obs)
  {
    if a.Target().Some? && a.Target().value != "" {
      var id, p := a.Target().value, (e: Element) => e.id == a.Target().value;
      if Find(obs.elements, p).Some? {
        var k := FindIsFirst(obs.elements, p);
        assert forall j: nat :: NamedById(lex, g, obs.elements, id, j) ==> j == k;
        assert ActsOnOutcome(lex, g, a, obs) <==> NamedById(lex, g, obs.elements, id, k);
      } else {
        assert forall j: nat :: NamedById(lex, g, obs.elements, id, j) ==> p(obs.elements[j]);
      }
    }
  }

  /** A logout task may be decided by a click that only gets closer, on a text that names the outcome. */
  predicate GetsCloser(lex: Lexicon, g: Goal, a: QaAction, e: BoundExpected) {
    a.Click? && e.TextShows? && lex.matches(g.target, e.text)
  }

  /** What a decision must rest on to be used: never on seeing its own target; for a logout task on a proof of it or on
      a click that gets closer; and on the console only for a task about the console, where a task of changing the
      appearance has to act on what it names. */
  ghost predicate RestsOnProof(lex: Lexicon, g: Goal, a: QaAction, e: BoundExpected, obs: Observation) {
    && !SeesItsTarget(a, e)
    && (g.kind == Some(Deauthentication) ==> SaysLoggedOut(lex, e) || GetsCloser(lex, g, a, e))
    && (e.ConsoleClean? ==> lex.consoleSafety(g.title, g.expected))
    && (e.ConsoleClean? && g.kind == Some(AppearanceChange) ==> ActsOnNamed(lex, g, a, obs))
  }

  /** A decision raises no issue exactly when it rests on that. */
  lemma AcceptedExactly(lex: Lexicon, g: Goal, a: QaAction, e: BoundExpected, obs: Observation)
    ensures DecisionIssue(lex, g, a, e, obs).None? <==> RestsOnProof(lex, g, a, e, obs)
  {
    ActsOnOutcomeExactly(lex, g, a, obs);
    hide ActsOnOutcome, ActsOnNamed;
  }

  /** A look at the console becomes a look for the outcome's text exactly when the task is about a logout, the
      appearance or a menu, its outcome has a text, and the action acts on what names it. */
  lemma PromotedExactly(lex: Lexicon, g: Goal, a: QaAction, e: BoundExpected, obs: Observation)
    ensures Promoted(lex, g, a, e, obs) ==
      if && e.ConsoleClean? && lex.primary(g.target).Some? && ActsOnNamed(lex, g, a, obs)
         && g.kind in {Some(Deauthentication), Some(AppearanceChange), Some(Disclosure)}
      then TextShows(lex.primary(g.target).value) else e
  {
    ActsOnOutcomeExactly(lex, g, a, obs);
    hide ActsOnOutcome, ActsOnNamed;
  }

  // ----- what becomes of an expectation

  /** The bound expectation expects what the model does, of the element with the id the model names, as it was mapped
      from this observation. */
  predicate SameExpectation(e: ExpectedAfter, b: BoundExpected, obs: Observation) {
    match e
    case AfterField(id, value) =>
      b.FieldHolds? && b.expected == value && b.field.originalElementId == id
      && b.field.observationId == obs.observationId
    case AfterElement(Some(id), shown) =>
      b.ElementShows? && b.shown == shown && b.element.Some? && b.element.value.originalElementId == id
      && b.element.value.observationId == obs.observationId
    case AfterElement(None, shown) => b == ElementShows(None, shown)
    case AfterText(text) => b == TextShows(text)
    case AfterUrl(fragment) => b == UrlHolds(fragment)
    case AfterConsole => b == ConsoleClean
  }

  function NamedElement(e: ExpectedAfter): Option<string> {
    match e
    case AfterField(id, _) => Some(id)
    case AfterElement(element, _) => element
    case _ => None
  }

  /** An expectation is bound as it is, unless it names an element the map does not have or the map is of another
      observation. */
  lemma ExpectationIsBound(index: LocatorIndex, obs: Observation, e: ExpectedAfter)
    ensures var r, named := BindExpected(index, obs, e), NamedElement(e);
      && (r.Ok? ==> SameExpectation(e, r.value, obs))
      && (r.Thrown? <==> named.Some? && (index.observationId != obs.observationId || named.value !in index.locators))
  {
  }

  /** The wording of an expectation is exchanged and nothing else. Only a look at the console, or for an element
      without a text, has no wording. */
  lemma WordingIsExchanged(e: BoundExpected, text: string)
    ensures TextOf(e).None? <==> e.ConsoleClean? || (e.ElementShows? && e.shown.None?)
    ensures TextOf(e).Some? ==>
      TextOf(WithText(e, text)) == Some(text) && WithText(WithText(e, text), TextOf(e).value) == e
  {
  }

  // ----- what was executed

  /** Every action a turn executed for its task was a click on a visible element that names the outcome of a logout or
      theme task, a correction towards the outcome, or decided by the model on grounds that are good enough. */
  lemma ExecutedOnGoodGrounds(w: Setting, h: History, from: nat, g: Goal, n: nat)
    requires OnlyLawful(w, h, from, g) && from <= n < |h| && IsMain(h[n])
    ensures (exists obs, e :: Clicks(w, h, from, g, n, obs, e))
      || exists obs, d :: Launched(w, h, from, g, n, obs, d)
           && (Corrects(w, h[..n], g, obs, d) || RestsOnProof(w.lex, g, d.action, d.bound, obs))
  {
    hide Clicks, Corrects, Reads, Shown, Permits, DecisionIssue, RestsOnProof;
    assert Lawful(w, h, from, g, n);
    if obs, d :| Launched(w, h, from, g, n, obs, d) {
      AcceptedExactly(w.lex, g, d.action, d.bound, obs);
      assert Accepts(w, h[..n], g, obs, d);
    }
  }

  // ----- dependencies, limits and names

  ghost predicate FirstOfId(tasks: seq<Task>, id: string, k: nat) {
    k < |tasks| && tasks[k].goal.id == id && forall j :: 0 <= j < k ==> tasks[j].goal.id != id
  }

  /** A dependency is met exactly when the first task that has its id has passed. */
  lemma MetExactly(tasks: seq<Task>, id: string)
    ensures DependencyMet(tasks, id) <==> exists k: nat :: FirstOfId(tasks, id, k) && tasks[k].status == TaskPassed
  {
    var p := (t: Task) => t.goal.id == id;
    if Find(tasks, p).Some? {
      var k := FindIsFirst(tasks, p);
      assert FirstOfId(tasks, id, k);
      assert forall j: nat :: FirstOfId(tasks, id, j) ==> j == k;
    } else {
      assert forall j: nat :: FirstOfId(tasks, id, j) ==> p(tasks[j]);
    }
  }

  /** There are as many cycles as the larger of the two limits, and the model is asked once more than it may fail to
      keep to the schema, at least twice. */
  lemma LimitsExactly(config: ReactiveConfig)
    ensures MaxCycles(config) >= config.maxActionsPerTask && MaxCycles(config) >= config.maxAttemptsPerTask
    ensures MaxCycles(config) in {config.maxActionsPerTask, config.maxAttemptsPerTask}
    ensures Questions(config) == if config.maxSchemaRetries == 0 then 2 else config.maxSchemaRetries + 1
  {
  }

  /** The names of steps and bugs spell their numbers. */
  lemma NamesSpellNumbers(n: nat)
    ensures exists digits: string :: Spells(digits, n, 4) && StepId(n) == "S" + digits
    ensures exists digits: string :: Spells(digits, n, 3) && BugId(n) == "BUG-" + digits
  {
    NumberedSpells("S", n, 4);
    NumberedSpells("BUG-", n, 3);
  }
}
