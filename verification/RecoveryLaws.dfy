/** What a recovery leaves as it was, and exactly when an outcome judged after it can be described on the observation
    before it (src/application/services/plan-executor.service.ts:163-181). */
module RecoveryLaws {
  import opened Domain
  import opened PlanRuns
  import opened Locators
  import opened Harness
  import opened StepServices
  import opened Attempts

  lemma {:induction false} VainIsQuiet(h: History, i: nat, j: nat, actions: seq<QaAction>, expected: BoundExpected)
    requires AllVain(h, i, j, actions, expected) && i <= |h|
    ensures i <= j <= |h| && QuietFrom(h, i, j)
    decreases |actions|
  {
    if actions != [] {
      var n := |actions| - 1;
      var m: nat :| LastVain(h, m, j, actions, expected) && AllVain(h, i, m, actions[..n], expected);
      VainIsQuiet(h, i, m, actions[..n], expected);
    }
  }

  lemma RecoveryIsQuiet(w: World, h: History, from: nat, s: ExecutionStep, ev: Evidence, j: nat, worked: bool)
    requires RecoveryRan(w, h, from, s, ev, j, worked)
    ensures Post(w, h, s, ev).Some? && Post(w, h, s, ev).value.next <= j
    ensures QuietFrom(h, Post(w, h, s, ev).value.next, j)
  {
    hide Launched, Looks, SceneAfter, RecoveryActions, Expected;
    var k, actions, expected := Post(w, h, s, ev).value.next, RecoveryActions(FALLBACK, w.config),
      Expected(w, h, s, ev).value;
    if worked {
      var a :| FirstToWork(h, k, j, actions, expected, a);
      var n: nat, m: nat :| n < |actions| && actions[n] == a
        && AllVain(h, k, m, actions[..n], expected) && Tried(h, m, j, a, expected, true);
      VainIsQuiet(h, k, m, actions[..n], expected);
    } else {
      VainIsQuiet(h, k, j, actions, expected);
    }
  }

  /** While conditions are checked the element map and the run data stay. */
  lemma ChecksKeep(w: World, scene: Scene, cs: seq<Condition>, h: History, i: nat)
    requires Snaps(h, i) && Check(w, scene, cs, h, i + 1).Some?
    ensures var k := Check(w, scene, cs, h, i + 1).value.next;
      k <= |h| && At(h, k).mapped == At(h, i).mapped && At(h, k).store == At(h, i).store
  {
    hide StateOf;
    CheckOnlyValidates(w, scene, cs, h, i + 1);
    QuietKeeps(h, i, Check(w, scene, cs, h, i + 1).value.next);
  }

  /** When recovery is over, still the page of the slip is mapped, and the run data are those recovery started
      with. */
  lemma RecoveryKeeps(w: World, h: History, from: nat, s: ExecutionStep, ev: Evidence, j: nat, worked: bool)
    requires RecoveryRan(w, h, from, s, ev, j, worked)
    ensures var k := Post(w, h, s, ev).value.next;
      && k <= j <= |h| && At(h, k).mapped == Some(h[ev.seen].of)
      && At(h, j).mapped == At(h, k).mapped && At(h, j).store == At(h, k).store
  {
    hide Launched, RecoveryActions, StateOf, SceneAfter, Check, AllVain, FirstToWork, Expected;
    RecoveryIsQuiet(w, h, from, s, ev, j, worked);
    ChecksKeep(w, SceneAfter(h, ev.start, ev.seen), s.postconditions, h, ev.seen);
    QuietKeeps(h, Post(w, h, s, ev).value.next, j);
  }

  /** When the outcome is judged on a page looked at again, that page is mapped; the run data are still those
      recovery started with. */
  lemma JudgedAgainOn(w: World, h: History, from: nat, s: ExecutionStep, ev: Evidence, again: nat, ok: bool, k: nat)
    requires JudgesAgain(w, h, from, s, ev, again, ok, k)
    ensures k <= |h| && again < |h| && h[again].Snapped? && At(h, k).mapped == Some(h[again].of)
    ensures At(h, k).store == At(h, again).store
    ensures Goes(w, h, from, s, ev, false) && Expected(w, h, s, ev).Ok?
    ensures var n := Post(w, h, s, ev).value.next;
      n <= |h| && At(h, n).mapped == Some(h[ev.seen].of) && At(h, n).store == At(h, k).store
  {
    hide Launched, RecoveryActions, StateOf, SceneAfter, Check, AllVain, FirstToWork, Expected;
    var j: nat :| RecoveryRan(w, h, from, s, ev, j, true) && LooksAtOnce(h, j, again);
    RecoveryKeeps(w, h, from, s, ev, j, true);
    ChecksKeep(w, SceneAfter(h, ev.start, again), s.postconditions, h, again);
    StoreWhileLooking(h, j);
  }

  lemma StoreWhileLooking(h: History, j: nat)
    requires j + 2 <= |h| && h[j].Observed? && h[j + 1].Mapped?
    ensures At(h, j + 2).store == At(h, j).store
  {
    hide StateOf;
    assert h[..j + 1] == h[..j] + [h[j]] && h[..j + 2] == h[..j + 1] + [h[j + 1]];
    Grows(h[..j], h[j]);
    Grows(h[..j + 1], h[j + 1]);
  }

  /** The first postcondition names an element, and the page looked at again is another observation. */
  predicate Undescribable(w: World, h: History, s: ExecutionStep, ev: Evidence, again: nat) {
    && Snaps(h, ev.seen) && Snaps(h, again) && h[ev.seen].of.observationId != h[again].of.observationId
    && var e := w.templates.fillCondition(FirstOf(s.postconditions), At(h, again).store);
      e.Some? && ConditionTarget(e.value).Some?
  }

  /** After a recovery that worked, describing the outcome on the observation before it is stale exactly when the
      first postcondition names an element and the observation that is mapped has another id. */
  lemma DescriptionIsStaleExactly(w: World, h: History, from: nat, s: ExecutionStep, ev: Evidence, again: nat,
                                  ok: bool, k: nat)
    requires JudgesAgain(w, h, from, s, ev, again, ok, k)
    ensures k <= |h| && Snaps(h, ev.seen) && Snaps(h, again)
    ensures Bound(w, At(h, k), h[ev.seen].of, FirstOf(s.postconditions)) == Thrown(StaleObservation)
      <==> Undescribable(w, h, s, ev, again)
    ensures h[ev.seen].of.observationId != h[again].of.observationId && !Undescribable(w, h, s, ev, again) ==>
      Described(w, h, ev, k, FirstOf(s.postconditions))
  {
    hide Launched, StateOf, SceneAfter, Check, LooksAgain, BindCondition, Found;
    JudgedAgainOn(w, h, from, s, ev, again, ok, k);
    var e := w.templates.fillCondition(FirstOf(s.postconditions), At(h, k).store);
    BindingIsStaleExactly(w.tm, IndexOf(h[ev.seen].of), h[ev.seen].of, e.value);
    BindingIsStaleExactly(w.tm, IndexOf(h[again].of), h[ev.seen].of, e.value);
    if ConditionTarget(e.value).None? {
      BindingWithoutTarget(w.tm, IndexOf(h[again].of), h[ev.seen].of, e.value);
    }
  }

  lemma BindingWithoutTarget(tm: TextModel, index: LocatorIndex, obs: Observation, e: Condition)
    requires ConditionTarget(e).None?
    ensures BindCondition(tm, index, obs, e).Ok?
  {
  }
}
