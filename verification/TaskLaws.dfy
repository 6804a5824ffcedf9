/** What it takes for a task of a scenario to pass, in terms of what was clicked, shown and validated in its turn
    (src/application/services/reactive-runner.service.ts). */
module TaskLaws {
  import opened Domain
  import opened TaskGraph
  import opened Harness
  import opened StepServices
  import opened ReactiveRunner

  /** In the turn from `from` to the end of `h` a visible element of the page `before` that names the outcome was
      clicked successfully, and after that the page was shown. */
  ghost predicate ShownByClick(w: Setting, h: History, from: nat, g: Goal, before: Observation, page: Observation) {
    exists n: nat, j: nat, e :: Clicks(w, h, from, g, n, before, e) && h[n].done.Replied? && h[n].done.value.ok
      && n < j < |h| && h[j] == Observed(Replied(page))
  }

  /** In the turn the browser validated the expectation successfully. */
  ghost predicate ValidatedIn(h: History, from: nat, e: BoundExpected) {
    exists j :: from <= j < |h| && h[j].Validated? && h[j].expected == e
      && h[j].verdict.Replied? && h[j].verdict.value.ok
  }

  /** What the browser validated is a login route or a login text. */
  predicate SaysLoggedOut(lex: Lexicon, e: BoundExpected) {
    match e
    case UrlHolds(fragment) => lex.loginUrl(fragment)
    case TextShows(text) => lex.loginText(text)
    case ElementShows(_, shown) => shown.Some? && shown.value != "" && lex.loginText(shown.value)
    case FieldHolds(_, _) => false
    case ConsoleClean => false
  }

  /** What a step carried out comes to is the last thing that was validated. */
  lemma CarriedWasValidated(w: Setting, h: History, from: nat, g: Goal, s: Step, c: Course)
    requires Carried(w, h, from, g, s, c) && s.validation.Some? && s.validation.value.ok
    ensures ValidatedIn(h, from, s.bound)
  {
    hide Accepts, Shown, Permits, RecoveredTo, StateOf;
    if c.execOk && h[c.k].verdict.value.ok {
      assert h[c.k].Validated?;
    } else {
      var j: nat :| j + 3 == c.end && RecoveredTo(w.world, h, c.k + 1, j, s.bound, c.d.fallback, c.recovered)
        && ValidatesAgain(h, j, s.bound, s.validation.value);
      assert h[j + 2].Validated?;
      RecoveredRunsOn(w.world, h, c.k + 1, j, s.bound, c.d.fallback, c.recovered);
    }
  }

  lemma RecoveredRunsOn(w: World, h: History, i: nat, j: nat, e: BoundExpected, fallback: QaAction, recovered: bool)
    requires RecoveredTo(w, h, i, j, e, fallback, recovered)
    ensures i <= j <= |h|
  {
  }

  /** A step of a click that worked was shown a page by it. */
  lemma ClickShows(w: Setting, h: History, from: nat, g: Goal, s: Step, n: nat, before: Observation, e: Element,
                   after: Observation)
    requires Clicked(w, h, from, g, s, n, before, e, after, true)
    ensures ShownByClick(w, h, from, g, before, after)
  {
    hide FirstNaming, Shown;
    assert h[n + 3] == Observed(Replied(after));
  }

  /** A logout task passes only when, in its own turn, a click on what names the logout led to a page with a login
      route or a login text, or the browser validated such a route or text. */
  lemma LogoutIsProved(w: Setting, h: History, from: nat, g: Goal, s: Step)
    requires Justifies(w, h, from, g, s) && g.kind == Some(Deauthentication)
    ensures (exists before, page ::
         ShownByClick(w, h, from, g, before, page) && (w.lex.onLoginRoute(page) || w.lex.showsLoginText(page)))
      || (ValidatedIn(h, from, s.bound) && SaysLoggedOut(w.lex, s.bound))
  {
    hide Carried, Clicks, Settles, Executes, ShownByClick, ValidatedIn;
    if ByClick(w, h, from, g, s, true) {
      var n: nat, before, e, after :| Clicked(w, h, from, g, s, n, before, e, after, true);
      ClickShows(w, h, from, g, s, n, before, e, after);
    } else {
      var c :| Carried(w, h, from, g, s, c) && MadeGood(s, c) && !IsIntermediate(w.lex, g, s);
      CarriedWasValidated(w, h, from, g, s, c);
    }
  }

  /** A click after which a text that names the outcome is to be seen, as the menu of the control shows it. */
  predicate MentionsControl(lex: Lexicon, g: Goal, a: QaAction, e: BoundExpected) {
    && a.Click? && lex.primary(g.target).Some?
    && match e
       case TextShows(text) => lex.matches(g.target, text)
       case ElementShows(_, shown) => shown.Some? && shown.value != "" && lex.matches(g.target, shown.value)
       case _ => false
  }

  /** A task of changing the appearance passes only when a click changed the page that was shown before it, or the
      browser validated something that is no mere mention of the control and no mere look at the console, unless the
      task is about the console. */
  lemma ThemeIsProved(w: Setting, h: History, from: nat, g: Goal, s: Step)
    requires Justifies(w, h, from, g, s) && g.kind == Some(AppearanceChange)
    ensures (exists before, page :: ShownByClick(w, h, from, g, before, page) && w.lex.changed(before, page))
      || (ValidatedIn(h, from, s.bound)
          && (s.bound.ConsoleClean? ==> w.lex.consoleSafety(g.title, g.expected))
          && !MentionsControl(w.lex, g, s.action, s.bound))
  {
    hide Carried, Settles, Executes, ShownByClick, ValidatedIn, FirstNaming;
    if ByClick(w, h, from, g, s, true) {
      var n: nat, before, e, after :| Clicked(w, h, from, g, s, n, before, e, after, true);
      ClickShows(w, h, from, g, s, n, before, e, after);
      assert w.lex.changed(before, after);
    } else {
      var c :| Carried(w, h, from, g, s, c) && MadeGood(s, c) && !IsIntermediate(w.lex, g, s);
      CarriedWasValidated(w, h, from, g, s, c);
    }
  }

  /** Any other task passes only by a validation that succeeded in its turn, or, when it is to log in, by a page shown
      in its turn that has the application on it. */
  lemma OtherTasksAreProved(w: Setting, h: History, from: nat, g: Goal, s: Step)
    requires Justifies(w, h, from, g, s) && g.kind != Some(Deauthentication) && g.kind != Some(AppearanceChange)
    ensures (ValidatedIn(h, from, s.bound) && (s.bound.ConsoleClean? ==> w.lex.consoleSafety(g.title, g.expected)))
      || (g.kind == Some(Authentication) && w.config.authenticated
          && exists page :: Shown(h, from, page) && w.lex.showsApp(page))
  {
    hide Carried, Settles, Executes, ValidatedIn, FirstNaming;
    if c :| Carried(w, h, from, g, s, c) && MadeGood(s, c) && !IsIntermediate(w.lex, g, s) {
      CarriedWasValidated(w, h, from, g, s, c);
    }
  }

  /** How a task passed: by a page shown or an expectation validated in the stretch of the history that is its turn,
      and by what its kind asks of them. */
  ghost predicate ProvedIn(w: Setting, h: History, from: nat, g: Goal) {
    match g.kind
    case Some(Deauthentication) =>
      || (exists before, page ::
         ShownByClick(w, h, from, g, before, page) && (w.lex.onLoginRoute(page) || w.lex.showsLoginText(page)))
      || (exists e :: ValidatedIn(h, from, e) && SaysLoggedOut(w.lex, e))
    case Some(AppearanceChange) =>
      || (exists before, page :: ShownByClick(w, h, from, g, before, page) && w.lex.changed(before, page))
      || (exists e :: ValidatedIn(h, from, e) && (e.ConsoleClean? ==> w.lex.consoleSafety(g.title, g.expected)))
    case _ =>
      || (exists e :: ValidatedIn(h, from, e) && (e.ConsoleClean? ==> w.lex.consoleSafety(g.title, g.expected)))
      || (g.kind == Some(Authentication) && w.config.authenticated
          && exists page :: Shown(h, from, page) && w.lex.showsApp(page))
  }

  /** In a run of a scenario every task that passed was proved in its own turn. */
  lemma PassedTasksWereProved(w: Setting, h: History, marks: seq<nat>, before: seq<Task>, after: seq<Task>, i: nat,
                              steps: seq<Step>, since: nat)
    requires i < |before| == |after| && Fares(w, h, marks, before, after, i, steps, since)
    requires before[i].status == Pending && after[i].status == TaskPassed
    ensures ProvedIn(w, h[..marks[i + 1]], marks[i], before[i].goal)
  {
    hide Justifies, OnlyLawful, Mains, ShownByClick, ValidatedIn, DepsBlocked, Hinders;
    var g, past := before[i].goal, h[..marks[i + 1]];
    var k :| since <= k < |steps| && Justifies(w, past, marks[i], g, steps[k]);
    if g.kind == Some(Deauthentication) {
      LogoutIsProved(w, past, marks[i], g, steps[k]);
    } else if g.kind == Some(AppearanceChange) {
      ThemeIsProved(w, past, marks[i], g, steps[k]);
    } else {
      OtherTasksAreProved(w, past, marks[i], g, steps[k]);
    }
  }
}
