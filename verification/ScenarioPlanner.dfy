/** From whatever scenarios a provider plans to scenarios the runner can take
    (src/application/services/scenario-planner.service.ts). */
module ScenarioPlanner {
  import opened Domain
  import opened Text
  import opened TaskGraph

  datatype Scenario = Scenario(id: string, title: string, tasks: seq<QaTask>)

  /** `criteria` are the acceptance criteria, or the lines of the description when there are none;
      `resolve` classifies a task without an outcome; `key` is the text titles and expectations are
      compared by. */
  datatype PlannerConfig = PlannerConfig(
    authNone: bool,
    title: string,
    description: string,
    criteria: seq<string>,
    resolve: QaTask -> Option<OutcomeKind>,
    key: (string, string) -> string)

  predicate IsLogout(t: QaTask) {
    t.outcome == Some(Deauthentication)
  }

  predicate IsLogin(t: QaTask) {
    t.outcome == Some(Authentication)
  }

  function Compact(config: PlannerConfig): seq<string> {
    if config.criteria == [] then [config.description]
    else if |config.criteria| > 4 then config.criteria[..4]
    else config.criteria
  }

  function TaskId(n: nat): string {
    Numbered("T", n, 3)
  }

  function FallbackTask(config: PlannerConfig): QaTask {
    QaTask(TaskId(1), Compact(config)[0], Compact(config)[0], None, None)
  }

  /** One task per criterion, each after the one before it. */
  function Fallback(config: PlannerConfig): seq<Scenario> {
    var items := Compact(config);
    [Scenario("scenario-001", config.title, seq(|items|, i requires 0 <= i < |items| =>
      var t := QaTask(TaskId(i + 1), items[i], items[i], if i == 0 then None else Some([TaskId(i)]), None);
      t.(outcome := config.resolve(t))))]
  }

  function CanonicalText(kind: OutcomeKind): Option<string> {
    match kind
    case Deauthentication => Some("Expected deauthentication state is visible")
    case AppearanceChange => Some("Expected appearance state changes visibly")
    case Disclosure => Some("Expected disclosure surface is visible")
    case Authentication => Some("Expected authenticated state is visible")
    case _ => None
  }

  function Normalized(config: PlannerConfig, t: QaTask): QaTask {
    if t.outcome.None? then t.(outcome := config.resolve(t))
    else if CanonicalText(t.outcome.value).Some? then t.(expected := CanonicalText(t.outcome.value).value)
    else t
  }

  function NormalizedTasks(config: PlannerConfig, s: Scenario): seq<QaTask> {
    seq(|s.tasks|, i requires 0 <= i < |s.tasks| => Normalized(config, s.tasks[i]))
  }

  /** Drop the dependencies on tasks that are gone. */
  function Relink(tasks: seq<QaTask>): seq<QaTask> {
    seq(|tasks|, i requires 0 <= i < |tasks| => Sanitized(tasks[i], Ids(tasks)))
  }

  /** Renumber the tasks and make each depend on the one before it. */
  function Sequential(tasks: seq<QaTask>): seq<QaTask> {
    seq(|tasks|, i requires 0 <= i < |tasks| =>
      tasks[i].(id := TaskId(i + 1), dependsOn := if i == 0 then None else Some([TaskId(i)])))
  }

  function AuthAware(config: PlannerConfig, tasks: seq<QaTask>): seq<QaTask> {
    if config.authNone then
      Relink(Filter(tasks, (t: QaTask) => !IsLogin(t) && !IsLogout(t)))
    else
      var kept := Filter(tasks, (t: QaTask) => !IsLogin(t));
      if kept != [] then Relink(kept) else [FallbackTask(config)]
  }

  function LogoutLast(tasks: seq<QaTask>, limit: nat): seq<QaTask>
    requires limit > 0
  {
    var logout := Find(tasks, IsLogout);
    var others := Filter(tasks, (t: QaTask) => !IsLogout(t));
    var room := if logout.Some? then limit - 1 else limit;
    var body := if |others| > room then others[..room] else others;
    if logout.Some? then body + [logout.value] else body
  }

  function AllTasks(scenarios: seq<Scenario>): seq<QaTask> {
    if scenarios == [] then [] else scenarios[0].tasks + AllTasks(scenarios[1..])
  }

  /** The tasks of all scenarios, the first logout at their end. */
  function AuthenticatedTasks(config: PlannerConfig, scenarios: seq<Scenario>): seq<QaTask> {
    var tasks := Filter(AllTasks(scenarios), (t: QaTask) => !IsLogin(t));
    var ordered := LogoutLast(tasks, |tasks| + 1);
    if ordered != [] then ordered else [FallbackTask(config)]
  }

  /** With authentication they become one sequence. */
  function AuthenticatedPlan(config: PlannerConfig, scenarios: seq<Scenario>): seq<Scenario> {
    [Scenario("scenario-001", config.title, Sequential(AuthenticatedTasks(config, scenarios)))]
  }

  function KeyOf(config: PlannerConfig, t: QaTask): string {
    config.key(t.title, t.expected)
  }

  function Dedupe(config: PlannerConfig, tasks: seq<QaTask>, seen: set<string>): seq<QaTask> {
    if tasks == [] then []
    else if KeyOf(config, tasks[0]) in seen then Dedupe(config, tasks[1..], seen)
    else [tasks[0]] + Dedupe(config, tasks[1..], seen + {KeyOf(config, tasks[0])})
  }

  function Limit(config: PlannerConfig): nat {
    if config.authNone then 8 else 6
  }

  function Enforced(config: PlannerConfig, s: Scenario): Scenario {
    var ordered := LogoutLast(Dedupe(config, s.tasks, {}), Limit(config));
    var tasks := if config.authNone then Relink(ordered) else Sequential(ordered);
    s.(tasks := if tasks != [] then tasks else [FallbackTask(config)])
  }

  // ----- thinning keeps order

  /** The same task, with some dependencies dropped. */
  ghost predicate Narrower(x: QaTask, y: QaTask) {
    x == y.(dependsOn := x.dependsOn) && forall d <- Deps(x) :: d in Deps(y)
  }

  /** `a` is `b` with some tasks left out and some dependencies dropped; `at` says where each task of `a`
      stands in `b`. */
  ghost predicate ThinnedAt(a: seq<QaTask>, b: seq<QaTask>, at: seq<nat>) {
    && |at| == |a|
    && (forall i :: 0 <= i < |a| ==> at[i] < |b| && Narrower(a[i], b[at[i]]))
    && (forall i, j :: 0 <= i < j < |a| ==> at[i] < at[j])
  }

  ghost predicate Thinned(a: seq<QaTask>, b: seq<QaTask>) {
    exists at: seq<nat> :: ThinnedAt(a, b, at)
  }

  lemma ThinnedTwice(a: seq<QaTask>, b: seq<QaTask>, c: seq<QaTask>)
    requires Thinned(a, b) && Thinned(b, c)
    ensures Thinned(a, c)
  {
    var p :| ThinnedAt(a, b, p);
    var q :| ThinnedAt(b, c, q);
    assert ThinnedAt(a, c, seq(|p|, i requires 0 <= i < |p| => q[p[i]]));
  }

  function Shift(at: seq<nat>): (r: seq<nat>)
    ensures |r| == |at| && forall i :: 0 <= i < |at| ==> r[i] == at[i] + 1
  {
    seq(|at|, i requires 0 <= i < |at| => at[i] + 1)
  }

  lemma ThinnedSkip(a: seq<QaTask>, b: seq<QaTask>, head: QaTask)
    requires Thinned(a, b)
    ensures Thinned(a, [head] + b)
  {
    hide Narrower, Shift;
    var p :| ThinnedAt(a, b, p);
    var r := Shift(p);
    forall i | 0 <= i < |a|
      ensures r[i] < |[head] + b| && Narrower(a[i], ([head] + b)[r[i]])
    {
      assert ([head] + b)[p[i] + 1] == b[p[i]];
    }
    assert ThinnedAt(a, [head] + b, r);
  }

  lemma ThinnedKeep(a: seq<QaTask>, b: seq<QaTask>, head: QaTask)
    requires Thinned(a, b)
    ensures Thinned([head] + a, [head] + b)
  {
    var p :| ThinnedAt(a, b, p);
    assert Narrower(head, head);
    hide Narrower, Shift;
    var r := [0] + Shift(p);
    forall i | 0 <= i < |[head] + a|
      ensures r[i] < |[head] + b| && Narrower(([head] + a)[i], ([head] + b)[r[i]])
    {
      if i > 0 {
        assert r[i] == p[i - 1] + 1 && ([head] + b)[p[i - 1] + 1] == b[p[i - 1]] && ([head] + a)[i] == a[i - 1];
      }
    }
    forall i, j | 0 <= i < j < |r|
      ensures r[i] < r[j]
    {
      assert r[j] == p[j - 1] + 1;
      assert i > 0 ==> r[i] == p[i - 1] + 1;
    }
    assert ThinnedAt([head] + a, [head] + b, r);
  }

  lemma ThinnedTail(a: seq<QaTask>, b: seq<QaTask>, head: QaTask, keep: bool)
    requires Thinned(a, b)
    ensures Thinned(if keep then [head] + a else a, [head] + b)
  {
    if keep {
      ThinnedKeep(a, b, head);
    } else {
      ThinnedSkip(a, b, head);
    }
  }

  lemma NothingThins()
    ensures Thinned([], [])
  {
    assert ThinnedAt([], [], []);
  }

  lemma {:induction false} FilterThins(tasks: seq<QaTask>, p: QaTask -> bool)
    ensures Thinned(Filter(tasks, p), tasks)
  {
    hide ThinnedAt;
    if tasks == [] {
      NothingThins();
    } else {
      FilterThins(tasks[1..], p);
      ThinnedTail(Filter(tasks[1..], p), tasks[1..], tasks[0], p(tasks[0]));
      assert [tasks[0]] + tasks[1..] == tasks;
      assert [] + Filter(tasks[1..], p) == Filter(tasks[1..], p);
    }
  }

  lemma {:induction false} DedupeThins(config: PlannerConfig, tasks: seq<QaTask>, seen: set<string>)
    ensures Thinned(Dedupe(config, tasks, seen), tasks)
  {
    hide ThinnedAt;
    if tasks == [] {
      NothingThins();
    } else {
      var keep := KeyOf(config, tasks[0]) !in seen;
      var seen' := if keep then seen + {KeyOf(config, tasks[0])} else seen;
      DedupeThins(config, tasks[1..], seen');
      ThinnedTail(Dedupe(config, tasks[1..], seen'), tasks[1..], tasks[0], keep);
      assert [tasks[0]] + tasks[1..] == tasks;
    }
  }

  lemma PrefixThins(tasks: seq<QaTask>, n: nat)
    requires n <= |tasks|
    ensures Thinned(tasks[..n], tasks)
  {
    assert ThinnedAt(tasks[..n], tasks, seq(n, i => i));
  }

  lemma RelinkThins(tasks: seq<QaTask>)
    ensures Thinned(Relink(tasks), tasks)
    ensures Ids(Relink(tasks)) == Ids(tasks)
    ensures forall t <- Relink(tasks), d <- Deps(t) :: d in Ids(Relink(tasks))
  {
    assert ThinnedAt(Relink(tasks), tasks, seq(|tasks|, i => i));
    forall id | id in Ids(tasks)
      ensures id in Ids(Relink(tasks))
    {
      var i :| 0 <= i < |tasks| && tasks[i].id == id;
      assert Relink(tasks)[i] in Relink(tasks);
    }
  }

  lemma ThinnedKeepsDistinct(a: seq<QaTask>, b: seq<QaTask>)
    requires Thinned(a, b) && DistinctIds(b)
    ensures DistinctIds(a)
  {
    var at :| ThinnedAt(a, b, at);
    forall i, j | 0 <= i < j < |a|
      ensures a[i].id != a[j].id
    {
      assert Narrower(a[i], b[at[i]]) && Narrower(a[j], b[at[j]]);
    }
  }

  lemma ThinnedKeepsEarlier(a: seq<QaTask>, b: seq<QaTask>, at: seq<nat>, k: nat, d: string)
    requires ThinnedAt(a, b, at) && DistinctIds(b) && k < |a|
    requires d in Ids(b[..at[k]]) && d in Ids(a)
    ensures d in Ids(a[..k])
  {
    var j :| 0 <= j < at[k] && b[j].id == d;
    var m :| 0 <= m < |a| && a[m].id == d;
    assert Narrower(a[m], b[at[m]]);
    assert at[m] == j;
    assert a[m] == a[..k][m];
  }

  /** Leaving tasks out keeps the order, as long as the dependencies that remain are on tasks that
      remain. */
  lemma ThinnedKeepsOrder(g: map<string, QaTask>, a: seq<QaTask>, b: seq<QaTask>)
    requires Thinned(a, b) && DistinctIds(b) && OrderedUpToCycles(g, b)
    requires forall t <- a, d <- Deps(t) :: d in Ids(a)
    ensures OrderedUpToCycles(g, a)
  {
    hide Reaches;
    var at :| ThinnedAt(a, b, at);
    forall k, d | 0 <= k < |a| && d in Deps(a[k])
      ensures d in Ids(a[..k]) || Reaches(g, d, a[k].id)
    {
      assert a[k] in a && Narrower(a[k], b[at[k]]);
      if !Reaches(g, d, a[k].id) {
        ThinnedKeepsEarlier(a, b, at, k, d);
      }
    }
  }

  lemma ThinnedHasNoNewLogout(a: seq<QaTask>, b: seq<QaTask>)
    requires Thinned(a, b) && forall t <- b :: !IsLogout(t)
    ensures forall t <- a :: !IsLogout(t)
  {
    var at :| ThinnedAt(a, b, at);
    forall i | 0 <= i < |a|
      ensures !IsLogout(a[i])
    {
      assert b[at[i]] in b;
    }
  }

  // ----- what the runner is handed

  /** Between one and `limit` tasks, distinct ids, and no logout but possibly the last task. */
  ghost predicate Runnable(tasks: seq<QaTask>, limit: nat) {
    && 1 <= |tasks| <= limit
    && DistinctIds(tasks)
    && forall i :: 0 <= i < |tasks| - 1 ==> !IsLogout(tasks[i])
  }

  lemma SequentialIsOrdered(tasks: seq<QaTask>)
    ensures DistinctIds(Sequential(tasks)) && FullyOrdered(Sequential(tasks))
    ensures forall i :: 0 <= i < |tasks| ==> IsLogout(Sequential(tasks)[i]) == IsLogout(tasks[i])
  {
    var r := Sequential(tasks);
    forall i, j | 0 <= i < j < |r|
      ensures r[i].id != r[j].id
    {
      NumberedIsInjective("T", i + 1, j + 1, 3);
    }
    forall k, d | 0 <= k < |r| && d in Deps(r[k])
      ensures d in Ids(r[..k])
    {
      assert r[..k][k - 1] == r[k - 1] && r[k - 1].id == d;
    }
  }

  lemma LogoutLastShape(tasks: seq<QaTask>, limit: nat)
    requires limit > 0
    ensures var r := LogoutLast(tasks, limit);
      |r| <= limit && forall i :: 0 <= i < |r| - 1 ==> !IsLogout(r[i])
    ensures (forall t <- tasks :: !IsLogout(t)) ==> Thinned(LogoutLast(tasks, limit), tasks)
  {
    var others := Filter(tasks, (t: QaTask) => !IsLogout(t));
    var r := LogoutLast(tasks, limit);
    forall i | 0 <= i < |r| - 1
      ensures !IsLogout(r[i])
    {
      assert r[i] == others[i] && others[i] in others;
    }
    FilterThins(tasks, (t: QaTask) => !IsLogout(t));
    PrefixThins(others, if |others| > limit then limit else |others|);
    if forall t <- tasks :: !IsLogout(t) {
      assert others[..|others|] == others;
      ThinnedTwice(r, others, tasks);
    }
  }

  /** Numbered from one, each task on the one before it. */
  ghost predicate InSequence(tasks: seq<QaTask>) {
    forall i :: 0 <= i < |tasks| ==>
      && tasks[i].id == TaskId(i + 1)
      && tasks[i].dependsOn == if i == 0 then None else Some([tasks[i - 1].id])
  }

  lemma SequentialIsInSequence(tasks: seq<QaTask>)
    ensures InSequence(Sequential(tasks)) && |Sequential(tasks)| == |tasks|
  {
    hide TaskId;
  }

  lemma FallbackIsInSequence(config: PlannerConfig)
    ensures InSequence([FallbackTask(config)]) && DistinctIds([FallbackTask(config)])
    ensures FullyOrdered([FallbackTask(config)])
  {
  }

  /** The ids of tasks spell their numbers. */
  lemma TaskIdsSpellNumbers(n: nat)
    ensures exists digits: string :: Spells(digits, n, 3) && TaskId(n) == "T" + digits
  {
    NumberedSpells("T", n, 3);
  }

  /** With authentication: whatever the provider planned, the tasks come out bounded, distinct, strictly
      one after the other, with at most one logout at the end. */
  lemma AuthenticatedScenarioIsRunnable(config: PlannerConfig, s: Scenario)
    requires !config.authNone
    ensures Runnable(Enforced(config, s).tasks, 6) && FullyOrdered(Enforced(config, s).tasks)
    ensures InSequence(Enforced(config, s).tasks)
    ensures Enforced(config, s) == s.(tasks := Enforced(config, s).tasks)
  {
    var ordered := LogoutLast(Dedupe(config, s.tasks, {}), 6);
    LogoutLastShape(Dedupe(config, s.tasks, {}), 6);
    SequentialIsOrdered(ordered);
    SequentialIsInSequence(ordered);
    FallbackIsInSequence(config);
    hide LogoutLast, Dedupe, Sequential, InSequence, FullyOrdered, FallbackTask, DistinctIds, IsLogout;
  }

  /** Without authentication the pipeline only leaves tasks out, all logouts among them. */
  lemma PipelineThins(config: PlannerConfig, s: Scenario, sorted: seq<QaTask>)
    requires config.authNone && s.tasks == AuthAware(config, sorted)
    ensures var r := Relink(LogoutLast(Dedupe(config, s.tasks, {}), 8));
      Thinned(r, sorted) && |r| <= 8 && (forall t <- r :: !IsLogout(t)) && forall t <- r, d <- Deps(t) :: d in Ids(r)
  {
    hide ThinnedAt;
    var kept := Filter(sorted, (t: QaTask) => !IsLogin(t) && !IsLogout(t));
    FilterThins(sorted, (t: QaTask) => !IsLogin(t) && !IsLogout(t));
    RelinkThins(kept);
    ThinnedTwice(s.tasks, kept, sorted);
    ThinnedHasNoNewLogout(s.tasks, kept);
    var unique := Dedupe(config, s.tasks, {});
    DedupeThins(config, s.tasks, {});
    ThinnedHasNoNewLogout(unique, s.tasks);
    ThinnedTwice(unique, s.tasks, sorted);
    var ordered := LogoutLast(unique, 8);
    LogoutLastShape(unique, 8);
    ThinnedTwice(ordered, unique, sorted);
    ThinnedHasNoNewLogout(ordered, unique);
    RelinkThins(ordered);
    ThinnedTwice(Relink(ordered), ordered, sorted);
    ThinnedHasNoNewLogout(Relink(ordered), ordered);
  }

  // ----- what is left out

  ghost predicate HasKey(config: PlannerConfig, tasks: seq<QaTask>, key: string) {
    exists u :: u in tasks && KeyOf(config, u) == key
  }

  lemma {:induction false} DedupeKeepsKey(config: PlannerConfig, tasks: seq<QaTask>, seen: set<string>, t: QaTask)
    requires t in tasks && KeyOf(config, t) !in seen
    ensures exists u :: u in Dedupe(config, tasks, seen) && u in tasks && KeyOf(config, u) == KeyOf(config, t)
  {
    var head, rest := tasks[0], tasks[1..];
    if KeyOf(config, head) == KeyOf(config, t) {
      assert head in Dedupe(config, tasks, seen);
    } else {
      var seen' := if KeyOf(config, head) in seen then seen else seen + {KeyOf(config, head)};
      assert t in rest;
      DedupeKeepsKey(config, rest, seen', t);
      var u :| u in Dedupe(config, rest, seen') && u in rest && KeyOf(config, u) == KeyOf(config, t);
      assert u in Dedupe(config, tasks, seen) && u in tasks;
    }
  }

  /** Which tasks stay when the limit is not reached: all but the logouts after the first. */
  lemma LogoutLastExactly(tasks: seq<QaTask>, limit: nat, t: QaTask)
    requires limit > 0 && |LogoutLast(tasks, limit)| < limit
    ensures t in LogoutLast(tasks, limit) <==> t in tasks && (!IsLogout(t) || Find(tasks, IsLogout) == Some(t))
  {
  }

  lemma RenumberedHasKey(config: PlannerConfig, tasks: seq<QaTask>, key: string)
    ensures HasKey(config, Relink(tasks), key) <==> HasKey(config, tasks, key)
    ensures HasKey(config, Sequential(tasks), key) <==> HasKey(config, tasks, key)
  {
    forall k | 0 <= k < |tasks|
      ensures KeyOf(config, Relink(tasks)[k]) == KeyOf(config, tasks[k]) == KeyOf(config, Sequential(tasks)[k])
      ensures Relink(tasks)[k] in Relink(tasks) && Sequential(tasks)[k] in Sequential(tasks)
    {
    }
  }

  /** The task that stands for a key: the only one that is not dropped as a repetition. It survives unless it is
      a logout after the first. */
  ghost predicate Stands(config: PlannerConfig, tasks: seq<QaTask>, key: string) {
    var unique := Dedupe(config, tasks, {});
    exists u :: u in unique && KeyOf(config, u) == key && (!IsLogout(u) || Find(unique, IsLogout) == Some(u))
  }

  /** Below the limit a scenario keeps the title and expectation of a task, up to the comparison, exactly when the
      task that stands for them is no logout or is the first one. */
  lemma EnforcedKeepsKeyExactly(config: PlannerConfig, s: Scenario, t: QaTask)
    requires t in s.tasks && |Enforced(config, s).tasks| < Limit(config)
    ensures HasKey(config, Enforced(config, s).tasks, KeyOf(config, t)) <==> Stands(config, s.tasks, KeyOf(config, t))
  {
    hide KeyOf;
    var unique := Dedupe(config, s.tasks, {});
    DedupeKeepsKey(config, s.tasks, {}, t);
    LogoutLastIsPart(unique, Limit(config));
    var ordered := LogoutLast(unique, Limit(config));
    assert |ordered| == |Sequential(ordered)| == |Relink(ordered)|;
    hide LogoutLast, Sequential, Relink, Dedupe;
    forall u: QaTask
      ensures u in ordered <==> u in unique && (!IsLogout(u) || Find(unique, IsLogout) == Some(u))
    {
      LogoutLastExactly(unique, Limit(config), u);
    }
    RenumberedHasKey(config, ordered, KeyOf(config, t));
  }

  /** With at most one logout a scenario loses a task only because another with the same title and
      expectation, up to the comparison, stays, or because the limit is reached. */
  lemma EnforcedKeepsEveryKey(config: PlannerConfig, s: Scenario, t: QaTask)
    requires t in s.tasks && |Enforced(config, s).tasks| < Limit(config)
    requires forall u, v :: u in s.tasks && v in s.tasks && IsLogout(u) && IsLogout(v) ==> u == v
    ensures HasKey(config, Enforced(config, s).tasks, KeyOf(config, t))
  {
    EnforcedKeepsKeyExactly(config, s, t);
    DedupeKeepsKey(config, s.tasks, {}, t);
    DedupeIsPart(config, s.tasks, {});
    hide Enforced, KeyOf, Dedupe, HasKey;
  }

  lemma {:induction false} DedupeIsPart(config: PlannerConfig, tasks: seq<QaTask>, seen: set<string>)
    ensures forall t :: t in Dedupe(config, tasks, seen) ==> t in tasks
  {
    if tasks != [] {
      DedupeIsPart(config, tasks[1..],
                   if KeyOf(config, tasks[0]) in seen then seen else seen + {KeyOf(config, tasks[0])});
    }
  }

  /** The dependency graph of a scenario as the provider gave it. */
  ghost function ProviderGraph(config: PlannerConfig, s: Scenario): map<string, QaTask> {
    var tasks := NormalizedTasks(config, s);
    GraphOf(tasks, Ids(tasks))
  }

  ghost predicate SortedFor(g: map<string, QaTask>, tasks: seq<QaTask>) {
    Closed(g) && Lists(g, tasks) && OrderedUpToCycles(g, tasks)
  }

  /** The scenario with its tasks sorted and adapted to the authentication policy. */
  ghost predicate NormalFor(config: PlannerConfig, s: Scenario, r: Scenario) {
    exists sorted :: SortedFor(ProviderGraph(config, s), sorted) && r == s.(tasks := AuthAware(config, sorted))
  }

  method NormalizeOne(config: PlannerConfig, s: Scenario) returns (r: Scenario)
    ensures NormalFor(config, s, r)
  {
    var sorted := TopoSort(NormalizedTasks(config, s));
    r := s.(tasks := AuthAware(config, sorted));
    assert SortedFor(ProviderGraph(config, s), sorted);
  }

  method Normalize(config: PlannerConfig, scenarios: seq<Scenario>) returns (r: seq<Scenario>)
    ensures |r| == |scenarios| && forall i :: 0 <= i < |r| ==> NormalFor(config, scenarios[i], r[i])
  {
    hide NormalFor;
    r := [];
    for i := 0 to |scenarios|
      invariant |r| == i && forall k :: 0 <= k < i ==> NormalFor(config, scenarios[k], r[k])
    {
      var one := NormalizeOne(config, scenarios[i]);
      r := r + [one];
    }
  }

  predicate IsPlain(t: QaTask) {
    !IsLogin(t) && !IsLogout(t)
  }

  /** A task of the graph, with exactly those of its dependencies that are still among the tasks. */
  ghost predicate Retained(g: map<string, QaTask>, tasks: seq<QaTask>, t: QaTask) {
    && t.id in g && t == g[t.id].(dependsOn := t.dependsOn)
    && forall d :: d in Deps(t) <==> d in Deps(g[t.id]) && d in Ids(tasks)
  }

  /** Every task of the graph that is neither a login nor a logout has its title and expectation among
      the tasks. */
  ghost predicate LosesNothing(config: PlannerConfig, g: map<string, QaTask>, tasks: seq<QaTask>) {
    forall id :: id in g && IsPlain(g[id]) ==> HasKey(config, tasks, KeyOf(config, g[id]))
  }

  /** What the planner promises, without authentication, about the tasks made from a scenario with graph
      `g`: they are the scenario's own, without logins and logouts, at most eight, in order up to cycles and
      fully in order without cycles; and nothing is lost but repetitions unless there are eight. */
  ghost predicate OpenPromise(config: PlannerConfig, g: map<string, QaTask>, tasks: seq<QaTask>) {
    && Runnable(tasks, 8) && (forall t <- tasks :: !IsLogout(t))
    && OrderedUpToCycles(g, tasks)
    && (Acyclic(g) ==> FullyOrdered(tasks))
    && ((forall t <- tasks :: Retained(g, tasks, t) && IsPlain(t)) || tasks == [FallbackTask(config)])
    && (|tasks| < 8 ==> LosesNothing(config, g, tasks))
  }

  lemma LogoutLastIsPart(tasks: seq<QaTask>, limit: nat)
    requires limit > 0
    ensures forall t :: t in LogoutLast(tasks, limit) ==> t in tasks
    ensures tasks != [] ==> LogoutLast(tasks, limit) != []
  {
    if tasks != [] && Find(tasks, IsLogout).None? {
      assert tasks[0] in Filter(tasks, (t: QaTask) => !IsLogout(t));
    }
  }

  lemma OpenTaskIsRetained(config: PlannerConfig, g: map<string, QaTask>, s: Scenario, sorted: seq<QaTask>, t: QaTask)
    requires config.authNone && s.tasks == AuthAware(config, sorted) && Lists(g, sorted)
    requires t in Relink(LogoutLast(Dedupe(config, s.tasks, {}), 8))
    ensures Retained(g, Relink(LogoutLast(Dedupe(config, s.tasks, {}), 8)), t) && IsPlain(t)
  {
    var kept := Filter(sorted, (t: QaTask) => !IsLogin(t) && !IsLogout(t));
    var unique := Dedupe(config, s.tasks, {});
    DedupeIsPart(config, s.tasks, {});
    LogoutLastIsPart(unique, 8);
    hide Dedupe, LogoutLast, Retained, Relink;
    TwiceRelinkedIsRetained(g, sorted, kept, LogoutLast(unique, 8), t);
  }

  /** Relinking twice keeps exactly the dependencies that remain in the end. */
  lemma TwiceRelinkedIsRetained(g: map<string, QaTask>, sorted: seq<QaTask>, kept: seq<QaTask>, ordered: seq<QaTask>,
                                t: QaTask)
    requires Lists(g, sorted) && forall u :: u in kept ==> u in sorted && IsPlain(u)
    requires (forall u :: u in ordered ==> u in Relink(kept)) && t in Relink(ordered)
    ensures Retained(g, Relink(ordered), t) && IsPlain(t)
  {
    var k :| 0 <= k < |ordered| && t == Sanitized(ordered[k], Ids(ordered));
    assert ordered[k] in ordered;
    var j :| 0 <= j < |kept| && ordered[k] == Sanitized(kept[j], Ids(kept));
    assert kept[j] in kept;
    PartIsSmaller(ordered, kept);
    RelinkThins(ordered);
    assert g[t.id] == kept[j];
  }

  lemma PartIsSmaller(ordered: seq<QaTask>, kept: seq<QaTask>)
    requires forall t <- ordered :: t in Relink(kept)
    ensures Ids(ordered) <= Ids(kept)
  {
    RelinkThins(kept);
    forall t | t in ordered
      ensures t.id in Ids(kept)
    {
      assert t in Relink(kept);
    }
  }

  lemma AuthAwareKeepsPlain(config: PlannerConfig, sorted: seq<QaTask>, t: QaTask)
    requires t in sorted && IsPlain(t)
    ensures exists u :: u in AuthAware(config, sorted) && KeyOf(config, u) == KeyOf(config, t) && IsPlain(u)
  {
    var kept := if config.authNone then Filter(sorted, (t: QaTask) => !IsLogin(t) && !IsLogout(t))
                else Filter(sorted, (t: QaTask) => !IsLogin(t));
    assert t in kept;
    var k :| 0 <= k < |kept| && kept[k] == t;
    assert Relink(kept)[k] in Relink(kept);
  }

  lemma EnforcedLosesNothing(config: PlannerConfig, g: map<string, QaTask>, s: Scenario, sorted: seq<QaTask>)
    requires config.authNone && s.tasks == AuthAware(config, sorted) && SortedFor(g, sorted)
    requires |Enforced(config, s).tasks| < 8
    ensures LosesNothing(config, g, Enforced(config, s).tasks)
  {
    forall id | id in g && IsPlain(g[id])
      ensures HasKey(config, Enforced(config, s).tasks, KeyOf(config, g[id]))
    {
      assert id in Ids(sorted);
      var t :| t in sorted && t.id == id;
      AuthAwareKeepsPlain(config, sorted, t);
      var u :| u in s.tasks && KeyOf(config, u) == KeyOf(config, t) && IsPlain(u);
      NoLogoutLeft(config, sorted);
      EnforcedKeepsEveryKey(config, s, u);
    }
  }

  lemma NoLogoutLeft(config: PlannerConfig, sorted: seq<QaTask>)
    requires config.authNone
    ensures forall u <- AuthAware(config, sorted) :: !IsLogout(u)
  {
    var kept := Filter(sorted, (t: QaTask) => !IsLogin(t) && !IsLogout(t));
    forall u | u in Relink(kept)
      ensures !IsLogout(u)
    {
      var k :| 0 <= k < |kept| && u == Sanitized(kept[k], Ids(kept));
      assert kept[k] in kept;
    }
  }

  lemma EnforcedKeepsPromise(config: PlannerConfig, g: map<string, QaTask>, s: Scenario, sorted: seq<QaTask>)
    requires config.authNone && s.tasks == AuthAware(config, sorted) && SortedFor(g, sorted)
    ensures OpenPromise(config, g, Enforced(config, s).tasks)
  {
    hide Acyclic, Reaches, Relink, LogoutLast, Dedupe, Thinned, Closed, LosesNothing, Retained, AuthAware, IsPlain;
    var r := Relink(LogoutLast(Dedupe(config, s.tasks, {}), 8));
    PipelineThins(config, s, sorted);
    ThinnedKeepsDistinct(r, sorted);
    ThinnedKeepsOrder(g, r, sorted);
    if Acyclic(g) {
      FullyOrderedExactlyWhenAcyclic(g, sorted);
      ThinnedKeepsFullOrder(r, sorted);
    }
    forall t | t in r
      ensures Retained(g, r, t) && IsPlain(t)
    {
      OpenTaskIsRetained(config, g, s, sorted, t);
    }
    if |Enforced(config, s).tasks| < 8 {
      EnforcedLosesNothing(config, g, s, sorted);
    }
  }

  lemma OpenScenarioKeepsPromise(config: PlannerConfig, source: Scenario, s: Scenario)
    requires config.authNone && NormalFor(config, source, s)
    ensures OpenPromise(config, ProviderGraph(config, source), Enforced(config, s).tasks)
    ensures Enforced(config, s) == source.(tasks := Enforced(config, s).tasks)
  {
    hide OpenPromise, SortedFor, ProviderGraph, AuthAware;
    var sorted: seq<QaTask> :| SortedFor(ProviderGraph(config, source), sorted)
      && s == source.(tasks := AuthAware(config, sorted));
    EnforcedKeepsPromise(config, ProviderGraph(config, source), s, sorted);
  }

  lemma ThinnedKeepsFullOrder(a: seq<QaTask>, b: seq<QaTask>)
    requires Thinned(a, b) && DistinctIds(b) && FullyOrdered(b)
    requires forall t <- a, d <- Deps(t) :: d in Ids(a)
    ensures FullyOrdered(a)
  {
    hide Thinned;
    NoCycleInEmptyGraph(b);
    ThinnedKeepsOrder(map[], a, b);
    NoCycleInEmptyGraph(a);
  }

  /** In a graph without edges, ordered up to cycles is ordered. */
  lemma NoCycleInEmptyGraph(tasks: seq<QaTask>)
    ensures OrderedUpToCycles(map[], tasks) <==> FullyOrdered(tasks)
  {
  }

  // ----- with authentication

  /** The same task at another place of a sequence. */
  ghost predicate Moved(t: QaTask, u: QaTask) {
    t == u.(id := t.id, dependsOn := t.dependsOn)
  }

  ghost predicate MovedFrom(t: QaTask, tasks: seq<QaTask>) {
    exists u :: u in tasks && Moved(t, u)
  }

  lemma {:induction false} InAllTasks(scenarios: seq<Scenario>, t: QaTask)
    ensures t in AllTasks(scenarios) <==> exists i :: 0 <= i < |scenarios| && t in scenarios[i].tasks
  {
    if scenarios != [] {
      InAllTasks(scenarios[1..], t);
      if t in AllTasks(scenarios[1..]) {
        var i :| 0 <= i < |scenarios[1..]| && t in scenarios[1..][i].tasks;
        assert t in scenarios[i + 1].tasks;
      }
      if i :| 1 <= i < |scenarios| && t in scenarios[i].tasks {
        assert t in scenarios[1..][i - 1].tasks;
      }
    }
  }

  lemma SequentialMoves(tasks: seq<QaTask>)
    ensures forall t <- Sequential(tasks) :: MovedFrom(t, tasks)
  {
    forall t | t in Sequential(tasks)
      ensures MovedFrom(t, tasks)
    {
      var k :| 0 <= k < |tasks| && t == Sequential(tasks)[k];
      assert tasks[k] in tasks && Moved(t, tasks[k]);
    }
  }

  lemma EnforcedMoves(config: PlannerConfig, s: Scenario, tasks: seq<QaTask>, t: QaTask)
    requires !config.authNone && tasks != [] && s.tasks == Sequential(tasks) && t in Enforced(config, s).tasks
    ensures MovedFrom(t, tasks)
  {
    var unique := Dedupe(config, s.tasks, {});
    DedupeKeepsKey(config, s.tasks, {}, s.tasks[0]);
    DedupeIsPart(config, s.tasks, {});
    LogoutLastIsPart(unique, 6);
    var ordered := LogoutLast(unique, 6);
    hide Dedupe, LogoutLast;
    SequentialMoves(ordered);
    SequentialMoves(tasks);
    var u :| u in ordered && Moved(t, u);
    assert u in s.tasks;
    var v :| v in tasks && Moved(u, v);
    assert Moved(t, v);
  }

  /** What the planner promises with authentication: at most six tasks in one sequence, a logout only at its
      end, each from some scenario unless none has any; and nothing is lost but repetitions unless there are
      six. */
  ghost predicate ClosedPromise(config: PlannerConfig, source: seq<Scenario>, tasks: seq<QaTask>) {
    && Runnable(tasks, 6) && FullyOrdered(tasks)
    && (forall t <- tasks ::
          || Moved(t, FallbackTask(config))
          || exists i :: 0 <= i < |source| && MovedInto(ProviderGraph(config, source[i]), t))
    && (|tasks| < 6 ==> forall i :: 0 <= i < |source| ==> LosesNothing(config, ProviderGraph(config, source[i]), tasks))
  }

  ghost predicate MovedInto(g: map<string, QaTask>, t: QaTask) {
    exists id :: id in g && !IsLogin(t) && Moved(t, g[id])
  }

  lemma AuthAwareMoves(config: PlannerConfig, g: map<string, QaTask>, sorted: seq<QaTask>, t: QaTask)
    requires !config.authNone && Lists(g, sorted) && t in AuthAware(config, sorted)
    ensures Moved(t, FallbackTask(config)) || MovedInto(g, t)
  {
    var kept := Filter(sorted, (t: QaTask) => !IsLogin(t));
    if kept != [] {
      var k :| 0 <= k < |kept| && t == Sanitized(kept[k], Ids(kept));
      assert kept[k] in kept;
      assert kept[k] in sorted && Moved(t, g[kept[k].id]);
    }
  }

  lemma AuthenticatedMoves(config: PlannerConfig, source: seq<Scenario>, normalized: seq<Scenario>, t: QaTask)
    requires !config.authNone && |normalized| == |source|
    requires forall i :: 0 <= i < |source| ==> NormalFor(config, source[i], normalized[i])
    requires MovedFrom(t, AuthenticatedTasks(config, normalized))
    ensures Moved(t, FallbackTask(config))
      || exists i :: 0 <= i < |source| && MovedInto(ProviderGraph(config, source[i]), t)
  {
    var u :| u in AuthenticatedTasks(config, normalized) && Moved(t, u);
    var tasks := Filter(AllTasks(normalized), (t: QaTask) => !IsLogin(t));
    LogoutLastIsPart(tasks, |tasks| + 1);
    hide LogoutLast, ProviderGraph, AuthAware;
    if u in tasks {
      InAllTasks(normalized, u);
      var i :| 0 <= i < |normalized| && u in normalized[i].tasks;
      assert NormalFor(config, source[i], normalized[i]);
      var g := ProviderGraph(config, source[i]);
      var sorted: seq<QaTask> :| SortedFor(g, sorted)
        && normalized[i] == source[i].(tasks := AuthAware(config, sorted));
      AuthAwareMoves(config, g, sorted, u);
      if MovedInto(g, u) {
        var id :| id in g && !IsLogin(u) && Moved(u, g[id]);
        assert Moved(t, g[id]);
      }
    }
  }

  lemma LogoutLastKeepsOthers(tasks: seq<QaTask>, t: QaTask)
    requires t in tasks && !IsLogout(t)
    ensures t in LogoutLast(tasks, |tasks| + 1)
  {
    FilterIsShorter(tasks, (t: QaTask) => !IsLogout(t));
    if Find(tasks, IsLogout).Some? {
      FilterDrops(tasks, (t: QaTask) => !IsLogout(t), Find(tasks, IsLogout).value);
    }
  }

  lemma {:induction false} FilterIsShorter(tasks: seq<QaTask>, p: QaTask -> bool)
    ensures |Filter(tasks, p)| <= |tasks|
  {
    if tasks != [] {
      FilterIsShorter(tasks[1..], p);
    }
  }

  lemma {:induction false} FilterDrops(tasks: seq<QaTask>, p: QaTask -> bool, t: QaTask)
    requires t in tasks && !p(t)
    ensures |Filter(tasks, p)| < |tasks|
  {
    FilterIsShorter(tasks[1..], p);
    if tasks[0] != t {
      FilterDrops(tasks[1..], p, t);
    }
  }

  /** Every plain task of a scenario is in the sequence, up to its place. */
  lemma AuthenticatedKeepsPlain(config: PlannerConfig, source: seq<Scenario>, normalized: seq<Scenario>, i: nat,
                                id: string)
    requires !config.authNone && i < |normalized| == |source| && NormalFor(config, source[i], normalized[i])
    requires id in ProviderGraph(config, source[i]) && IsPlain(ProviderGraph(config, source[i])[id])
    ensures HasKey(config, AuthenticatedTasks(config, normalized), KeyOf(config, ProviderGraph(config, source[i])[id]))
  {
    var g := ProviderGraph(config, source[i]);
    hide ProviderGraph, AuthAware, AuthenticatedTasks, AllTasks, Closed, OrderedUpToCycles, KeyOf;
    var sorted: seq<QaTask> :| SortedFor(g, sorted) && normalized[i] == source[i].(tasks := AuthAware(config, sorted));
    assert id in Ids(sorted);
    var t :| t in sorted && t.id == id;
    AuthAwareKeepsPlain(config, sorted, t);
    var u :| u in normalized[i].tasks && KeyOf(config, u) == KeyOf(config, t) && IsPlain(u);
    InAllTasks(normalized, u);
    PlainIsAuthenticated(config, normalized, u);
    assert KeyOf(config, u) == KeyOf(config, g[id]);
  }

  lemma PlainIsAuthenticated(config: PlannerConfig, scenarios: seq<Scenario>, u: QaTask)
    requires u in AllTasks(scenarios) && IsPlain(u)
    ensures u in AuthenticatedTasks(config, scenarios)
  {
    var tasks := Filter(AllTasks(scenarios), (t: QaTask) => !IsLogin(t));
    assert u in tasks;
    LogoutLastKeepsOthers(tasks, u);
  }

  lemma OneLogout(r: seq<QaTask>, u: QaTask, v: QaTask)
    requires forall i :: 0 <= i < |r| - 1 ==> !IsLogout(r[i])
    requires u in Sequential(r) && v in Sequential(r) && IsLogout(u) && IsLogout(v)
    ensures u == v
  {
    hide Sequential;
    OnlyTheLast(r, u);
    OnlyTheLast(r, v);
  }

  lemma OnlyTheLast(r: seq<QaTask>, u: QaTask)
    requires forall i :: 0 <= i < |r| - 1 ==> !IsLogout(r[i])
    requires u in Sequential(r) && IsLogout(u)
    ensures r != [] && u == Sequential(r)[|r| - 1]
  {
    var i :| 0 <= i < |r| && Sequential(r)[i] == u;
    assert IsLogout(r[i]);
  }

  lemma AuthenticatedShape(config: PlannerConfig, scenarios: seq<Scenario>)
    ensures var r := AuthenticatedTasks(config, scenarios);
      forall i :: 0 <= i < |r| - 1 ==> !IsLogout(r[i])
  {
    hide LogoutLast, Thinned;
    var tasks := Filter(AllTasks(scenarios), (t: QaTask) => !IsLogin(t));
    LogoutLastShape(tasks, |tasks| + 1);
  }

  lemma AuthenticatedKeepsPromise(config: PlannerConfig, source: seq<Scenario>, normalized: seq<Scenario>)
    requires !config.authNone && |normalized| == |source|
    requires forall i :: 0 <= i < |source| ==> NormalFor(config, source[i], normalized[i])
    ensures ClosedPromise(config, source, Enforced(config, AuthenticatedPlan(config, normalized)[0]).tasks)
  {
    var s := AuthenticatedPlan(config, normalized)[0];
    var placed, tasks := AuthenticatedTasks(config, normalized), Enforced(config, s).tasks;
    AuthenticatedScenarioIsRunnable(config, s);
    forall t | t in tasks
      ensures Moved(t, FallbackTask(config))
        || exists i :: 0 <= i < |source| && MovedInto(ProviderGraph(config, source[i]), t)
    {
      hide ProviderGraph, NormalFor, MovedInto, Enforced, AuthenticatedTasks, Moved, MovedFrom;
      EnforcedMoves(config, s, placed, t);
      AuthenticatedMoves(config, source, normalized, t);
    }
    if |tasks| < 6 {
      forall i | 0 <= i < |source|
        ensures LosesNothing(config, ProviderGraph(config, source[i]), tasks)
      {
        AuthenticatedLosesNothing(config, source, normalized, i);
      }
    }
  }

  lemma AuthenticatedLosesNothing(config: PlannerConfig, source: seq<Scenario>, normalized: seq<Scenario>, i: nat)
    requires !config.authNone && i < |normalized| == |source| && NormalFor(config, source[i], normalized[i])
    requires |Enforced(config, AuthenticatedPlan(config, normalized)[0]).tasks| < 6
    ensures LosesNothing(config, ProviderGraph(config, source[i]),
                         Enforced(config, AuthenticatedPlan(config, normalized)[0]).tasks)
  {
    var g, s := ProviderGraph(config, source[i]), AuthenticatedPlan(config, normalized)[0];
    var placed, tasks := AuthenticatedTasks(config, normalized), Enforced(config, s).tasks;
    forall u, v | u in s.tasks && v in s.tasks && IsLogout(u) && IsLogout(v)
      ensures u == v
    {
      AuthenticatedShape(config, normalized);
      OneLogout(placed, u, v);
    }
    hide ProviderGraph, NormalFor, Enforced, LogoutLast;
    forall id | id in g && IsPlain(g[id])
      ensures HasKey(config, tasks, KeyOf(config, g[id]))
    {
      AuthenticatedKeepsPlain(config, source, normalized, i, id);
      var u :| u in placed && KeyOf(config, u) == KeyOf(config, g[id]);
      RenumberedHasKey(config, placed, KeyOf(config, u));
      var v :| v in s.tasks && KeyOf(config, v) == KeyOf(config, u);
      EnforcedKeepsEveryKey(config, s, v);
    }
  }

  // ----- what is made of the provided tasks

  /** What a provided task is about: what it says itself, else what it is taken to be about. */
  function OutcomeOf(config: PlannerConfig, u: QaTask): Option<OutcomeKind> {
    if u.outcome.Some? then u.outcome else config.resolve(u)
  }

  /** What a provided task expects: its own words, unless it says that it is about one of four kinds. */
  function ExpectationOf(u: QaTask): string {
    match u.outcome
    case Some(Deauthentication) => "Expected deauthentication state is visible"
    case Some(AppearanceChange) => "Expected appearance state changes visibly"
    case Some(Disclosure) => "Expected disclosure surface is visible"
    case Some(Authentication) => "Expected authenticated state is visible"
    case _ => u.expected
  }

  predicate MadeFrom(config: PlannerConfig, u: QaTask, t: QaTask) {
    t.title == u.title && t.outcome == OutcomeOf(config, u) && t.expected == ExpectationOf(u)
  }

  /** The provided task at `k` counts: no later one has its id. */
  predicate Counts(tasks: seq<QaTask>, k: nat) {
    k < |tasks| && forall j :: k < j < |tasks| ==> tasks[j].id != tasks[k].id
  }

  /** The task that is made up when nothing else is left: it asks for the first criterion. */
  predicate IsFallback(config: PlannerConfig, t: QaTask) {
    && t.title == t.expected == (if config.criteria != [] then config.criteria[0] else config.description)
    && t.outcome.None?
  }

  /** A provided task that is neither a login nor a logout, by itself or by what it is taken to be about, is among the
      tasks by its title and expectation. */
  ghost predicate KeepsProvided(config: PlannerConfig, provided: seq<QaTask>, tasks: seq<QaTask>) {
    forall k: nat :: Counts(provided, k) && OutcomeOf(config, provided[k]) !in LOGINS ==>
      HasWords(config, tasks, provided[k].title, ExpectationOf(provided[k]))
  }

  /** Some task has this title and expectation, as they are compared. */
  ghost predicate HasWords(config: PlannerConfig, tasks: seq<QaTask>, title: string, expected: string) {
    exists t :: t in tasks && config.key(t.title, t.expected) == config.key(title, expected)
  }

  const LOGINS: set<Option<OutcomeKind>> := {Some(Authentication), Some(Deauthentication)}

  /** The task is a provided one that counts, with exactly those of its dependencies that are among the tasks. */
  ghost predicate KeptFrom(config: PlannerConfig, provided: seq<QaTask>, tasks: seq<QaTask>, t: QaTask) {
    exists k: nat :: Counts(provided, k) && provided[k].id == t.id && MadeFrom(config, provided[k], t)
      && forall d :: d in Deps(t) <==> d in Deps(provided[k]) && d in Ids(tasks)
  }

  /** Without authentication: the provided tasks that count, but for logins and logouts. */
  ghost predicate OpenPlanned(config: PlannerConfig, provided: seq<QaTask>, tasks: seq<QaTask>) {
    && ((|tasks| == 1 && IsFallback(config, tasks[0]) && InSequence(tasks))
        || forall t <- tasks :: KeptFrom(config, provided, tasks, t) && t.outcome !in LOGINS)
    && (|tasks| < 8 ==> KeepsProvided(config, provided, tasks))
  }

  ghost predicate ComesFrom(config: PlannerConfig, source: seq<Scenario>, t: QaTask) {
    exists i: nat, k: nat :: i < |source| && Counts(source[i].tasks, k) && MadeFrom(config, source[i].tasks[k], t)
  }

  /** With authentication: the provided tasks that count of all scenarios, but for logins, a logout only at the end. */
  ghost predicate ClosedPlanned(config: PlannerConfig, source: seq<Scenario>, tasks: seq<QaTask>) {
    && (forall t <- tasks ::
          IsFallback(config, t) || (ComesFrom(config, source, t) && t.outcome != Some(Authentication)))
    && (forall i :: 0 <= i < |tasks| - 1 ==> tasks[i].outcome != Some(Deauthentication))
    && (|tasks| < 6 ==> forall i :: 0 <= i < |source| ==> KeepsProvided(config, source[i].tasks, tasks))
  }

  lemma NormalizedIsMade(config: PlannerConfig, u: QaTask)
    ensures MadeFrom(config, u, Normalized(config, u))
    ensures Normalized(config, u).id == u.id && Normalized(config, u).dependsOn == u.dependsOn
  {
  }

  lemma FallbackIsFallback(config: PlannerConfig)
    ensures IsFallback(config, FallbackTask(config))
  {
  }

  lemma {:induction false} LastCounts(tasks: seq<QaTask>, ids: set<string>, k: nat)
    requires Counts(tasks, k)
    ensures tasks[k].id in GraphOf(tasks, ids) && GraphOf(tasks, ids)[tasks[k].id] == Sanitized(tasks[k], ids)
  {
    var n := |tasks| - 1;
    assert tasks == tasks[..n] + [tasks[n]];
    if k < n {
      LastCounts(tasks[..n], ids, k);
    }
  }

  lemma {:induction false} SomeCounts(tasks: seq<QaTask>, id: string) returns (k: nat)
    requires id in Ids(tasks)
    ensures Counts(tasks, k) && tasks[k].id == id
  {
    k := |tasks| - 1;
    while tasks[k].id != id
      invariant k < |tasks| && forall j :: k < j < |tasks| ==> tasks[j].id != id
      decreases k
    {
      assert exists j :: 0 <= j < |tasks| && tasks[j].id == id;
      assert k > 0;
      k := k - 1;
    }
  }

  /** The graph of a scenario is made of its provided tasks that count. */
  lemma GraphIsProvided(config: PlannerConfig, s: Scenario, k: nat)
    requires Counts(s.tasks, k)
    ensures var g, u := ProviderGraph(config, s), s.tasks[k];
      && u.id in g && MadeFrom(config, u, g[u.id])
      && forall d :: d in Deps(g[u.id]) <==> d in Deps(u) && d in Ids(s.tasks)
  {
    var tasks := NormalizedTasks(config, s);
    forall j | 0 <= j < |tasks|
      ensures tasks[j].id == s.tasks[j].id
    {
      NormalizedIsMade(config, s.tasks[j]);
    }
    NormalizedIsMade(config, s.tasks[k]);
    LastCounts(tasks, Ids(tasks), k);
    assert Ids(tasks) == Ids(s.tasks) by { SameIds(tasks, s.tasks); }
  }

  lemma SameIds(a: seq<QaTask>, b: seq<QaTask>)
    requires |a| == |b| && forall j :: 0 <= j < |a| ==> a[j].id == b[j].id
    ensures Ids(a) == Ids(b)
  {
    forall j | 0 <= j < |a|
      ensures a[j].id in Ids(b) && b[j].id in Ids(a)
    {
      assert a[j] in a && b[j] in b;
    }
  }

  lemma GraphHasProvided(config: PlannerConfig, s: Scenario, id: string) returns (k: nat)
    requires id in ProviderGraph(config, s)
    ensures Counts(s.tasks, k) && s.tasks[k].id == id && MadeFrom(config, s.tasks[k], ProviderGraph(config, s)[id])
  {
    var tasks := NormalizedTasks(config, s);
    SameIds(tasks, s.tasks);
    k := SomeCounts(s.tasks, id);
    GraphIsProvided(config, s, k);
  }

  lemma KeepsWhatIsProvided(config: PlannerConfig, s: Scenario, tasks: seq<QaTask>)
    requires LosesNothing(config, ProviderGraph(config, s), tasks)
    ensures KeepsProvided(config, s.tasks, tasks)
  {
    var g := ProviderGraph(config, s);
    forall k: nat | Counts(s.tasks, k) && OutcomeOf(config, s.tasks[k]) !in LOGINS
      ensures HasWords(config, tasks, s.tasks[k].title, ExpectationOf(s.tasks[k]))
    {
      GraphIsProvided(config, s, k);
      hide ProviderGraph, ExpectationOf;
      assert IsPlain(g[s.tasks[k].id]);
      var u :| u in tasks && KeyOf(config, u) == KeyOf(config, g[s.tasks[k].id]);
    }
  }

  lemma OpenIsPlanned(config: PlannerConfig, s: Scenario, tasks: seq<QaTask>)
    requires OpenPromise(config, ProviderGraph(config, s), tasks)
    ensures OpenPlanned(config, s.tasks, tasks)
  {
    hide ProviderGraph, LosesNothing, OrderedUpToCycles, Acyclic, FullyOrdered, ExpectationOf, KeepsProvided;
    var g := ProviderGraph(config, s);
    if |tasks| < 8 {
      KeepsWhatIsProvided(config, s, tasks);
    }
    if tasks == [FallbackTask(config)] {
      FallbackIsFallback(config);
    } else {
      forall t | t in tasks
        ensures KeptFrom(config, s.tasks, tasks, t) && t.outcome !in LOGINS
      {
        assert Retained(g, tasks, t) && IsPlain(t);
        RetainedIsKept(config, s, tasks, t);
      }
    }
  }

  lemma RetainedIsKept(config: PlannerConfig, s: Scenario, tasks: seq<QaTask>, t: QaTask)
    requires Retained(ProviderGraph(config, s), tasks, t)
    requires forall u :: u in tasks ==> u.id in ProviderGraph(config, s)
    ensures KeptFrom(config, s.tasks, tasks, t)
  {
    GraphKeys(config, s);
    hide ProviderGraph, MadeFrom;
    var k := GraphHasProvided(config, s, t.id);
    GraphIsProvided(config, s, k);
    MadeAlike(config, s.tasks[k], ProviderGraph(config, s)[t.id], t);
    forall d
      ensures d in Deps(t) <==> d in Deps(s.tasks[k]) && d in Ids(tasks)
    {
    }
  }

  lemma MadeAlike(config: PlannerConfig, u: QaTask, made: QaTask, t: QaTask)
    requires MadeFrom(config, u, made) && t == made.(dependsOn := t.dependsOn)
    ensures MadeFrom(config, u, t)
  {
  }

  lemma GraphKeys(config: PlannerConfig, s: Scenario)
    ensures ProviderGraph(config, s).Keys == Ids(s.tasks)
  {
    SameIds(NormalizedTasks(config, s), s.tasks);
  }

  lemma ClosedIsPlanned(config: PlannerConfig, source: seq<Scenario>, tasks: seq<QaTask>)
    requires ClosedPromise(config, source, tasks)
    ensures ClosedPlanned(config, source, tasks)
  {
    hide ProviderGraph, LosesNothing, FullyOrdered, ExpectationOf, KeepsProvided, FallbackTask, IsFallback;
    FallbackIsFallback(config);
    forall t | t in tasks
      ensures IsFallback(config, t) || (ComesFrom(config, source, t) && t.outcome != Some(Authentication))
    {
      if Moved(t, FallbackTask(config)) {
        MovedFallback(config, t);
      } else {
        var i: nat :| i < |source| && MovedInto(ProviderGraph(config, source[i]), t);
        var id :| id in ProviderGraph(config, source[i]) && !IsLogin(t)
          && Moved(t, ProviderGraph(config, source[i])[id]);
        var k := GraphHasProvided(config, source[i], id);
        assert MadeFrom(config, source[i].tasks[k], t);
      }
    }
    if |tasks| < 6 {
      forall i | 0 <= i < |source|
        ensures KeepsProvided(config, source[i].tasks, tasks)
      {
        KeepsWhatIsProvided(config, source[i], tasks);
      }
    }
  }

  lemma MovedFallback(config: PlannerConfig, t: QaTask)
    requires Moved(t, FallbackTask(config))
    ensures IsFallback(config, t)
  {
  }

  /** When the provider plans nothing, there is one task for each of the first four criteria, or for the description
      when there are none: it asks for just that, comes after the one before it, and is about what it is taken to be
      about. */
  lemma FallbackFollowsCriteria(config: PlannerConfig)
    ensures |Fallback(config)| == 1
    ensures Fallback(config)[0] == Scenario("scenario-001", config.title, Fallback(config)[0].tasks)
    ensures var tasks := Fallback(config)[0].tasks;
      && (config.criteria == [] ==> |tasks| == 1 && tasks[0].title == config.description)
      && (config.criteria != [] ==>
            && |tasks| <= |config.criteria| && |tasks| <= 4 && (|tasks| == |config.criteria| || |tasks| == 4)
            && forall i :: 0 <= i < |tasks| ==> tasks[i].title == config.criteria[i])
      && (forall i :: 0 <= i < |tasks| ==>
            && tasks[i].expected == tasks[i].title && tasks[i].outcome == config.resolve(tasks[i].(outcome := None)))
      && InSequence(tasks)
  {
    hide Numbered;
  }

  function Prepared(config: PlannerConfig, normalized: seq<Scenario>): seq<Scenario> {
    if config.authNone then normalized else AuthenticatedPlan(config, normalized)
  }

  /** The scenarios are what the policies make of the sorted ones, task by task and in their order. */
  ghost predicate PlannedFrom(config: PlannerConfig, source: seq<Scenario>, r: seq<Scenario>) {
    exists normalized: seq<Scenario> ::
      && |normalized| == |source| && (forall i :: 0 <= i < |source| ==> NormalFor(config, source[i], normalized[i]))
      && |r| == |Prepared(config, normalized)|
      && forall i :: 0 <= i < |r| ==> r[i] == Enforced(config, Prepared(config, normalized)[i])
  }

  /** The whole planner. Without authentication every provider scenario gives one of at most eight tasks,
      in dependency order up to its own cycles, hence fully ordered when it has none; with authentication
      there is one scenario of at most six tasks, each after the one before it, a logout only at the end.
      Nothing is made up and, below the limit, nothing lost but repetitions. */
  method Plan(config: PlannerConfig, provided: Option<seq<Scenario>>) returns (r: seq<Scenario>)
    ensures PlannedFrom(config, if provided.Some? && provided.value != [] then provided.value else Fallback(config), r)
    ensures var source := if provided.Some? && provided.value != [] then provided.value else Fallback(config);
      if config.authNone then
        |r| == |source| >= 1
        && forall i :: 0 <= i < |r| ==>
            && OpenPromise(config, ProviderGraph(config, source[i]), r[i].tasks)
            && r[i] == source[i].(tasks := r[i].tasks) && OpenPlanned(config, source[i].tasks, r[i].tasks)
      else
        && |r| == 1 && ClosedPromise(config, source, r[0].tasks) && ClosedPlanned(config, source, r[0].tasks)
        && InSequence(r[0].tasks) && r[0] == Scenario("scenario-001", config.title, r[0].tasks)
  {
    hide OpenPromise, SortedFor, ClosedPromise, ProviderGraph, AuthAware, NormalFor, Enforced;
    hide OpenPlanned, ClosedPlanned;
    var source := if provided.Some? && provided.value != [] then provided.value else Fallback(config);
    var normalized := Normalize(config, source);
    var prepared := Prepared(config, normalized);
    r := seq(|prepared|, i requires 0 <= i < |prepared| => Enforced(config, prepared[i]));
    if config.authNone {
      forall i | 0 <= i < |r|
        ensures OpenPromise(config, ProviderGraph(config, source[i]), r[i].tasks)
        ensures r[i] == source[i].(tasks := r[i].tasks) && OpenPlanned(config, source[i].tasks, r[i].tasks)
      {
        OpenScenarioKeepsPromise(config, source[i], normalized[i]);
        OpenIsPlanned(config, source[i], r[i].tasks);
      }
    } else {
      AuthenticatedKeepsPromise(config, source, normalized);
      ClosedIsPlanned(config, source, r[0].tasks);
      AuthenticatedScenarioIsRunnable(config, prepared[0]);
    }
  }
}
