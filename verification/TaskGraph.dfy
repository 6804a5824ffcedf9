/** The cycle-tolerant depth-first ordering of tasks
    (src/application/services/scenario-planner.service.ts:80-102). */
module TaskGraph {
  import opened Domain

  datatype OutcomeKind =
    | Authentication | Deauthentication | Navigation | AppearanceChange | Disclosure
    | ContentPresence | DataEntry | NoRegression | ClassificationFailed

  datatype QaTask = QaTask(
    id: string,
    title: string,
    expected: string,
    dependsOn: Option<seq<string>>,
    outcome: Option<OutcomeKind>)

  function Deps(t: QaTask): seq<string> {
    if t.dependsOn.Some? then t.dependsOn.value else []
  }

  function Ids(tasks: seq<QaTask>): set<string> {
    set t <- tasks :: t.id
  }

  ghost predicate DistinctIds(tasks: seq<QaTask>) {
    forall i, j :: 0 <= i < j < |tasks| ==> tasks[i].id != tasks[j].id
  }

  /** Drop the dependencies on ids that are not among the tasks. */
  function Sanitized(t: QaTask, ids: set<string>): QaTask {
    t.(dependsOn := if t.dependsOn.Some? then Some(Filter(t.dependsOn.value, (d: string) => d in ids)) else None)
  }

  /** The tasks by id; the last one wins when an id is repeated. */
  function GraphOf(tasks: seq<QaTask>, ids: set<string>): (g: map<string, QaTask>)
    ensures g.Keys == Ids(tasks)
    ensures forall id <- g :: g[id].id == id && exists t :: t in tasks && g[id] == Sanitized(t, ids)
  {
    if tasks == [] then map[] else
    var last := tasks[|tasks| - 1];
    assert tasks == tasks[..|tasks| - 1] + [last];
    GraphOf(tasks[..|tasks| - 1], ids)[last.id := Sanitized(last, ids)]
  }

  /** Every dependency is a key, and every task sits under its own id. */
  ghost predicate Closed(g: map<string, QaTask>) {
    forall id <- g :: g[id].id == id && forall d <- Deps(g[id]) :: d in g
  }

  ghost predicate IsPath(g: map<string, QaTask>, p: seq<string>) {
    && |p| >= 2
    && (forall i :: 0 <= i < |p| ==> p[i] in g)
    && forall i :: 0 <= i < |p| - 1 ==> p[i + 1] in Deps(g[p[i]])
  }

  /** `a` depends on `b`, directly or not. */
  ghost predicate Reaches(g: map<string, QaTask>, a: string, b: string) {
    exists p: seq<string> :: IsPath(g, p) && p[0] == a && p[|p| - 1] == b
  }

  ghost predicate Acyclic(g: map<string, QaTask>) {
    forall id <- g :: !Reaches(g, id, id)
  }

  lemma EdgeReaches(g: map<string, QaTask>, a: string, b: string)
    requires Closed(g) && a in g && b in Deps(g[a])
    ensures Reaches(g, a, b)
  {
    assert IsPath(g, [a, b]);
  }

  lemma ReachesThenEdge(g: map<string, QaTask>, a: string, b: string, c: string)
    requires Closed(g) && Reaches(g, a, b) && b in g && c in Deps(g[b])
    ensures Reaches(g, a, c)
  {
    var p :| IsPath(g, p) && p[0] == a && p[|p| - 1] == b;
    assert IsPath(g, p + [c]);
  }

  lemma GraphIsClosed(tasks: seq<QaTask>)
    ensures Closed(GraphOf(tasks, Ids(tasks)))
  {
  }

  /** Every dependency of a task in the list comes earlier in the list, unless it depends on the task
      itself. */
  ghost predicate OrderedUpToCycles(g: map<string, QaTask>, tasks: seq<QaTask>) {
    forall k, d :: 0 <= k < |tasks| && d in Deps(tasks[k]) ==> d in Ids(tasks[..k]) || Reaches(g, d, tasks[k].id)
  }

  ghost predicate FullyOrdered(tasks: seq<QaTask>) {
    forall k, d :: 0 <= k < |tasks| && d in Deps(tasks[k]) ==> d in Ids(tasks[..k])
  }

  /** The list holds each task of the graph exactly once. */
  ghost predicate Lists(g: map<string, QaTask>, tasks: seq<QaTask>) {
    && Ids(tasks) == g.Keys
    && DistinctIds(tasks)
    && forall t <- tasks :: t.id in g && t == g[t.id]
  }

  /** In a fully ordered list the tasks a task depends on, directly or not, come earlier. */
  lemma {:induction false} PathsGoBack(g: map<string, QaTask>, tasks: seq<QaTask>, p: seq<string>, k: nat)
    requires Lists(g, tasks) && FullyOrdered(tasks) && IsPath(g, p)
    requires k < |tasks| && tasks[k].id == p[0]
    ensures p[|p| - 1] in Ids(tasks[..k])
    decreases |p|
  {
    assert tasks[k] in tasks;
    assert p[1] in Deps(tasks[k]);
    var j :| 0 <= j < k && tasks[j].id == p[1];
    if |p| > 2 {
      PathsGoBack(g, tasks, p[1..], j);
      assert tasks[..j] <= tasks[..k];
      assert forall t :: t in tasks[..j] ==> t in tasks[..k];
    } else {
      assert tasks[..k][j] == tasks[j];
    }
  }

  /** A list of the graph's tasks that is ordered up to cycles has every dependency strictly earlier
      exactly when the graph has no cycle. */
  lemma FullyOrderedExactlyWhenAcyclic(g: map<string, QaTask>, tasks: seq<QaTask>)
    requires Closed(g) && Lists(g, tasks) && OrderedUpToCycles(g, tasks)
    ensures FullyOrdered(tasks) <==> Acyclic(g)
  {
    if Acyclic(g) {
      forall k, d | 0 <= k < |tasks| && d in Deps(tasks[k])
        ensures d in Ids(tasks[..k])
      {
        assert tasks[k] in tasks;
        if Reaches(g, d, tasks[k].id) {
          ReachesThenEdge(g, d, tasks[k].id, d);
          assert false;
        }
      }
    }
    if FullyOrdered(tasks) {
      forall id | id in g
        ensures !Reaches(g, id, id)
      {
        assert id in Ids(tasks);
        var k :| 0 <= k < |tasks| && tasks[k].id == id;
        forall p | IsPath(g, p) && p[0] == id && p[|p| - 1] == id
          ensures false
        {
          PathsGoBack(g, tasks, p, k);
          assert false;
        }
      }
    }
  }

  /** The state the recursive visit keeps. */
  class TopoSorter {
    const graph: map<string, QaTask>
    var visited: set<string>
    var stack: set<string>
    var result: seq<QaTask>

    constructor (graph: map<string, QaTask>)
      requires Closed(graph)
      ensures Valid() && this.graph == graph && stack == {}
    {
      this.graph := graph;
      visited, stack, result := {}, {}, [];
    }

    ghost predicate Valid()
      reads this
    {
      && Closed(graph)
      && visited == Ids(result) && visited <= graph.Keys && stack <= graph.Keys
      && visited !! stack
      && DistinctIds(result)
      && (forall t <- result :: t == graph[t.id])
      && OrderedUpToCycles(graph, result)
    }

    /** Visit a task that everything on the stack depends on. */
    method Visit(id: string)
      requires Valid() && id in graph
      requires forall s <- stack :: Reaches(graph, s, id)
      modifies this
      ensures Valid()
      ensures stack == old(stack) && old(visited) <= visited && old(result) <= result
      ensures id in visited || id in old(stack)
      decreases graph.Keys - stack
    {
      if id in visited || id in stack {
        return;
      }
      stack := stack + {id};
      var task := graph[id];
      var deps := Deps(task);
      for i := 0 to |deps|
        invariant Valid() && id !in visited
        invariant stack == old(stack) + {id} && old(visited) <= visited && old(result) <= result
        invariant forall j :: 0 <= j < i ==> deps[j] in visited || deps[j] in stack
      {
        assert deps[i] in Deps(graph[id]);
        EdgeReaches(graph, id, deps[i]);
        forall s | s in stack
          ensures Reaches(graph, s, deps[i])
        {
          if s != id {
            ReachesThenEdge(graph, s, id, deps[i]);
          }
        }
        Visit(deps[i]);
      }
      stack := stack - {id};
      Append(task);
    }

    method Append(task: QaTask)
      requires Valid() && task.id in graph && task == graph[task.id]
      requires task.id !in visited && task.id !in stack
      requires forall s <- stack :: Reaches(graph, s, task.id)
      requires forall d <- Deps(task) :: d in visited || d in stack || d == task.id
      modifies this
      ensures Valid()
      ensures stack == old(stack) && visited == old(visited) + {task.id} && result == old(result) + [task]
    {
      forall d | d in Deps(task)
        ensures d in Ids(result) || Reaches(graph, d, task.id)
      {
        if d == task.id {
          EdgeReaches(graph, task.id, d);
        }
      }
      ghost var before := result;
      visited, result := visited + {task.id}, result + [task];
      forall k | 0 <= k <= |before|
        ensures result[..k] == before[..k]
      {
      }
      assert before[..|before|] == before;
    }

    method VisitAll(tasks: seq<QaTask>)
      requires Valid() && stack == {} && forall t <- tasks :: t.id in graph
      modifies this
      ensures Valid() && Ids(tasks) <= visited
    {
      for i := 0 to |tasks|
        invariant Valid() && stack == {}
        invariant forall j :: 0 <= j < i ==> tasks[j].id in visited
      {
        Visit(tasks[i].id);
      }
    }
  }

  /** Order tasks so that dependencies come first: every distinct id comes out exactly once, carrying the
      last task given for it, whatever the dependencies are; a dependency that exists comes first unless
      it depends on the dependent in turn; and so every dependency comes first exactly when there is no
      cycle. */
  method TopoSort(tasks: seq<QaTask>) returns (r: seq<QaTask>)
    ensures var g := GraphOf(tasks, Ids(tasks));
      Closed(g) && Lists(g, r) && OrderedUpToCycles(g, r)
    ensures FullyOrdered(r) <==> Acyclic(GraphOf(tasks, Ids(tasks)))
  {
    hide OrderedUpToCycles, FullyOrdered, Acyclic, Closed, Reaches;
    GraphIsClosed(tasks);
    var sorter := new TopoSorter(GraphOf(tasks, Ids(tasks)));
    sorter.VisitAll(tasks);
    r := sorter.result;
    FullyOrderedExactlyWhenAcyclic(sorter.graph, r);
  }
}
