/** The stage for complete histories: a world that obliges, and how to follow what a session keeps through them. */
module Stages {
  import opened Domain
  import opened PlanPatches
  import opened Locators
  import opened Harness
  import opened Attempts

  /** A world that does whatever it is asked, except that the runtime state is never as expected. */
  function Obliging(tm: TextModel, shown: nat -> Observation, state: Snapshot): World {
    World(tm,
          Templates(a => false, (a: PlanAction, s: Store) => Some(a), (a: PlanAction, s: Store, t: nat) => (Some(a), s),
                    (c: Condition, s: Store) => Some(c)),
          Judge((c: Condition, o: Observation) => None,
                (c: Condition, o: Observation, x: Snapshot, y: Option<Snapshot>) => false,
                (o: Observation, s: string) => false, (x: Observation, y: Observation) => true),
          RunConfig([], false, 0, [], (l: Locator) => None, 1, 0, 0,
                    PatchRules(p => false, p => false, s => false, false)),
          Outside((t: nat) => Replied(shown(t)), (t: nat, a: QaAction) => Replied(ExecResult(true, true, None)),
                  t => Replied(true),
                  (t: nat, e: BoundExpected) => Replied(AssertionResult(true, "")),
                  (t: nat, o: Observation) => Replied(state),
                  t => [], (t: nat, o: Observation) => Rejected(""), (t: nat, p: ExecutionPlan) => Rejected(""), false,
                  (t: nat, o: Observation) => Rejected(""), (t: nat, a: QaAction) => None, (t: nat, s: string) => None,
                  t => Replied(())))
  }

  const UNMET: Condition := RuntimeState("equals", "saved", "yes")

  /** Up to `n` only this page is mapped, and no run data is added. */
  ghost predicate OnlyMaps(h: History, n: nat, obs: Observation) {
    forall i :: 0 <= i < |h| && i < n ==>
      (h[i].Mapped? ==> h[i].obs == obs) && !h[i].Stored? && (h[i].Expanded? ==> h[i].store == map[])
  }

  lemma {:induction false} StateWhileMapped(h: History, n: nat, obs: Observation, i: nat)
    requires i <= n <= |h| && OnlyMaps(h, n, obs)
    ensures At(h, i).store == map[] && ((exists k :: 0 <= k < i && h[k].Mapped?) ==> At(h, i).mapped == Some(obs))
  {
    if i > 0 {
      StateWhileMapped(h, n, obs, i - 1);
      assert h[..i][..i - 1] == h[..i - 1];
    }
  }

  lemma LooksIn(h: History, past: History, from: nat, i: nat)
    requires Looks(h, from, i) && past <= h && i < |past|
    ensures Looks(past, from, i)
  {
    PastStays(past, h, i);
  }
}
