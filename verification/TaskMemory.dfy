/** The working memory of each task: bounded windows on what happened
    (src/application/services/task-memory.service.ts). */
module TaskMemory {
  import opened Domain
  import opened Lines

  const TEXTS: nat := 6
  const ACTIONS: nat := 8
  const REJECTIONS: nat := 6

  datatype WorkState = Planning | Acting | Recovering | Blocked | Done

  datatype Tried = Tried(kind: string, target: Option<string>, reason: Option<string>, outcome: string)

  datatype Refusal = Refusal(reason: string, next: Option<string>)

  datatype WorkingMemory = WorkingMemory(
    objective: string,
    expected: string,
    state: WorkState,
    observedStates: seq<string>,
    actionsTried: seq<Tried>,
    hypotheses: seq<string>,
    rejectedDecisions: seq<Refusal>,
    blockers: seq<string>,
    nextRecommendation: Option<string>)

  /** Everything a task was ever told, in order. */
  datatype History = History(
    observed: seq<string>,
    actions: seq<Tried>,
    hypotheses: seq<string>,
    rejections: seq<Refusal>,
    blockers: seq<string>)

  // ----- windows

  function Latest<T>(s: seq<T>, n: nat): seq<T> {
    if |s| <= n then s else s[|s| - n..]
  }

  predicate HasText(s: string) {
    Trim(s) != ""
  }

  /** Adjacent repetitions collapsed into one. */
  function Squeeze(s: seq<string>): seq<string> {
    if s == [] then []
    else if |s| > 1 && s[|s| - 1] == s[|s| - 2] then Squeeze(s[..|s| - 1])
    else Squeeze(s[..|s| - 1]) + [s[|s| - 1]]
  }

  /** The window on a history of texts. */
  function Window(history: seq<string>): seq<string> {
    Latest(Squeeze(Filter(history, HasText)), TEXTS)
  }

  function Pushed(items: seq<string>, value: string, limit: nat): seq<string> {
    if Trim(value) == "" || (items != [] && items[|items| - 1] == value) then items
    else Latest(items + [value], limit)
  }

  lemma {:induction false} SqueezeKeepsLast(s: seq<string>)
    ensures s != [] ==> Squeeze(s) != [] && Squeeze(s)[|Squeeze(s)| - 1] == s[|s| - 1]
  {
    if |s| > 1 && s[|s| - 1] == s[|s| - 2] {
      SqueezeKeepsLast(s[..|s| - 1]);
    }
  }

  lemma SqueezeLast(s: seq<string>, value: string)
    ensures Squeeze(s + [value]) == if s != [] && s[|s| - 1] == value then Squeeze(s) else Squeeze(s) + [value]
  {
    assert (s + [value])[..|s|] == s;
  }

  lemma LatestOfLonger<T>(s: seq<T>, x: T, n: nat)
    requires n > 0
    ensures Latest(Latest(s, n) + [x], n) == Latest(s + [x], n)
  {
  }

  /** One push on the window is the window on the longer history. */
  lemma PushKeepsWindow(history: seq<string>, value: string)
    ensures Pushed(Window(history), value, TEXTS) == Window(history + [value])
  {
    hide Trim, Squeeze, Filter;
    var texts := Filter(history, HasText);
    FilterAppend(history, [value], HasText);
    FilterOne(value);
    if HasText(value) {
      SqueezeKeepsLast(texts);
      SqueezeLast(texts, value);
      NothingSqueezed();
      LatestOfLonger(Squeeze(texts), value, TEXTS);
    } else {
      assert texts + [] == texts;
    }
  }

  lemma NothingSqueezed()
    ensures Squeeze([]) == []
  {
  }

  lemma FilterOne(value: string)
    ensures Filter([value], HasText) == if HasText(value) then [value] else []
  {
    assert [value][1..] == [];
  }

  // ----- one task

  function StateAfter(outcome: string): WorkState {
    if "REJECTED" <= outcome then Planning
    else if outcome == "RECOVERING" then Recovering
    else Acting
  }

  /** What the service can be told about a task. */
  datatype Event =
    | Observed(text: string)
    | Acted(tried: Tried)
    | Supposed(text: string)
    | Refused(reason: string, next: Option<string>)
    | GotBlocked(reason: string)
    | Finished

  function Told(h: History, e: Event): History {
    match e
    case Observed(text) => h.(observed := h.observed + [text])
    case Acted(tried) => h.(actions := h.actions + [tried])
    case Supposed(text) => h.(hypotheses := h.hypotheses + [text])
    case Refused(reason, next) =>
      h.(rejections := h.rejections + [Refusal(reason, next)],
         hypotheses := h.hypotheses + ["Rejected decision: " + reason])
    case GotBlocked(reason) => h.(blockers := h.blockers + [reason])
    case Finished => h
  }

  function Noted(m: WorkingMemory, e: Event): WorkingMemory {
    match e
    case Observed(text) => m.(observedStates := Pushed(m.observedStates, text, TEXTS))
    case Acted(tried) => m.(state := StateAfter(tried.outcome),
                            actionsTried := Latest(m.actionsTried + [tried], ACTIONS))
    case Supposed(text) => m.(hypotheses := Pushed(m.hypotheses, text, TEXTS))
    case Refused(reason, next) =>
      m.(state := Planning, nextRecommendation := next,
         rejectedDecisions := Latest(m.rejectedDecisions + [Refusal(reason, next)], REJECTIONS),
         hypotheses := Pushed(m.hypotheses, "Rejected decision: " + reason, TEXTS))
    case GotBlocked(reason) => m.(state := Blocked, blockers := Pushed(m.blockers, reason, TEXTS))
    case Finished => m.(state := Done)
  }

  /** Every window of a memory shows the end of the history it stands for. */
  ghost predicate Remembers(m: WorkingMemory, h: History) {
    && m.observedStates == Window(h.observed)
    && m.hypotheses == Window(h.hypotheses)
    && m.blockers == Window(h.blockers)
    && m.actionsTried == Latest(h.actions, ACTIONS)
    && m.rejectedDecisions == Latest(h.rejections, REJECTIONS)
  }

  lemma RemembersNext(m: WorkingMemory, h: History, e: Event)
    requires Remembers(m, h)
    ensures Remembers(Noted(m, e), Told(h, e))
  {
    hide Window, Pushed, Latest;
    match e {
      case Observed(text) => PushKeepsWindow(h.observed, text);
      case Acted(tried) => LatestOfLonger(h.actions, tried, ACTIONS);
      case Supposed(text) => PushKeepsWindow(h.hypotheses, text);
      case Refused(reason, next) =>
        LatestOfLonger(h.rejections, Refusal(reason, next), REJECTIONS);
        PushKeepsWindow(h.hypotheses, "Rejected decision: " + reason);
      case GotBlocked(reason) => PushKeepsWindow(h.blockers, reason);
      case Finished =>
    }
  }

  function NewMemory(objective: string, expected: string): WorkingMemory {
    WorkingMemory(objective, expected, Planning, [], [], [], [], [], None)
  }

  const NOTHING: History := History([], [], [], [], [])

  function ToldAll(events: seq<Event>): History {
    if events == [] then NOTHING else Told(ToldAll(events[..|events| - 1]), events[|events| - 1])
  }

  function NotedAll(m: WorkingMemory, events: seq<Event>): WorkingMemory {
    if events == [] then m else Noted(NotedAll(m, events[..|events| - 1]), events[|events| - 1])
  }

  /** After any events whatever the windows of a task show the end of its history. */
  lemma {:induction false} MemoryIsTheEndOfHistory(objective: string, expected: string, events: seq<Event>)
    ensures Remembers(NotedAll(NewMemory(objective, expected), events), ToldAll(events))
  {
    hide Remembers, Noted, Told;
    if events == [] {
      NewMemoryRemembers(objective, expected);
    } else {
      var before := events[..|events| - 1];
      MemoryIsTheEndOfHistory(objective, expected, before);
      RemembersNext(NotedAll(NewMemory(objective, expected), before), ToldAll(before), events[|events| - 1]);
    }
  }

  lemma NewMemoryRemembers(objective: string, expected: string)
    ensures Remembers(NewMemory(objective, expected), NOTHING)
  {
  }

  // ----- the state of a task

  predicate Changes(e: Event) {
    !e.Observed? && !e.Supposed?
  }

  ghost predicate LastChange(events: seq<Event>, i: nat) {
    i < |events| && Changes(events[i]) && forall j :: i < j < |events| ==> !Changes(events[j])
  }

  ghost predicate LastRefusal(events: seq<Event>, i: nat) {
    i < |events| && events[i].Refused? && forall j :: i < j < |events| ==> !events[j].Refused?
  }

  /** Where an event leaves a task: an outcome that begins with REJECTED sends it back to planning. */
  ghost predicate Leaves(e: Event, state: WorkState) {
    match e
    case Acted(tried) =>
      if exists rest :: tried.outcome == "REJECTED" + rest then state == Planning
      else if tried.outcome == "RECOVERING" then state == Recovering
      else state == Acting
    case Refused(_, _) => state == Planning
    case GotBlocked(_) => state == Blocked
    case Finished => state == Done
    case Observed(_) => false
    case Supposed(_) => false
  }

  lemma ChangesLeave(m: WorkingMemory, e: Event)
    ensures var n := Noted(m, e);
      && n.objective == m.objective && n.expected == m.expected
      && (if Changes(e) then Leaves(e, n.state) else n.state == m.state)
      && n.nextRecommendation == if e.Refused? then e.next else m.nextRecommendation
  {
    hide Pushed, Latest;
    if e.Acted? && "REJECTED" <= e.tried.outcome {
      assert e.tried.outcome == "REJECTED" + e.tried.outcome[|"REJECTED"|..];
    }
  }

  ghost predicate ShowsState(m: WorkingMemory, events: seq<Event>) {
    && ((forall e <- events :: !Changes(e)) ==> m.state == Planning)
    && forall i: nat :: LastChange(events, i) ==> Leaves(events[i], m.state)
  }

  ghost predicate ShowsAdvice(m: WorkingMemory, events: seq<Event>) {
    && ((forall e <- events :: !e.Refused?) ==> m.nextRecommendation == None)
    && forall i: nat :: LastRefusal(events, i) ==> m.nextRecommendation == events[i].next
  }

  lemma LastOfLonger(before: seq<Event>, last: Event, i: nat)
    ensures LastChange(before + [last], i) ==> if Changes(last) then i == |before| else LastChange(before, i)
    ensures LastRefusal(before + [last], i) ==> if last.Refused? then i == |before| else LastRefusal(before, i)
  {
    hide Changes;
    var events := before + [last];
    assert events[|before|] == last && forall j :: 0 <= j < |before| ==> events[j] == before[j];
  }

  lemma ShowsStateNext(m: WorkingMemory, before: seq<Event>, last: Event)
    requires ShowsState(m, before)
    ensures ShowsState(Noted(m, last), before + [last])
  {
    hide Noted, Leaves, Changes, LastChange, LastRefusal;
    var events := before + [last];
    ChangesLeave(m, last);
    forall i: nat | LastChange(events, i)
      ensures i < |events| && Leaves(events[i], Noted(m, last).state)
    {
      LastOfLonger(before, last, i);
      LastIsEvent(events, i);
      if !Changes(last) {
        LastIsEvent(before, i);
      }
    }
    assert last in events && forall e <- before :: e in events;
  }

  lemma ShowsAdviceNext(m: WorkingMemory, before: seq<Event>, last: Event)
    requires ShowsAdvice(m, before)
    ensures ShowsAdvice(Noted(m, last), before + [last])
  {
    hide Noted, Leaves, Changes, LastChange, LastRefusal;
    var events := before + [last];
    ChangesLeave(m, last);
    forall i: nat | LastRefusal(events, i)
      ensures i < |events| && events[i].Refused? && Noted(m, last).nextRecommendation == events[i].next
    {
      LastOfLonger(before, last, i);
      LastIsEvent(events, i);
      if !last.Refused? {
        LastIsEvent(before, i);
      }
    }
    assert last in events && forall e <- before :: e in events;
  }

  lemma LastIsEvent(events: seq<Event>, i: nat)
    ensures LastChange(events, i) ==> i < |events|
    ensures LastRefusal(events, i) ==> i < |events| && events[i].Refused?
  {
  }

  /** The state of a task is decided by the last thing that happened to it, however much was observed or supposed
      since, and its recommendation is that of the last refusal. What the task is about never changes. */
  lemma {:induction false} StateIsOfLastChange(objective: string, expected: string, events: seq<Event>)
    ensures var m := NotedAll(NewMemory(objective, expected), events);
      && m.objective == objective && m.expected == expected
      && ShowsState(m, events) && ShowsAdvice(m, events)
  {
    if events != [] {
      hide Noted, ShowsState, ShowsAdvice;
      var before, last := events[..|events| - 1], events[|events| - 1];
      var m := NotedAll(NewMemory(objective, expected), before);
      StateIsOfLastChange(objective, expected, before);
      ChangesLeave(m, last);
      ShowsStateNext(m, before, last);
      ShowsAdviceNext(m, before, last);
      assert events == before + [last];
    }
  }

  // ----- the service

  function KeyOf(scenarioId: string, taskId: string): string {
    scenarioId + ":" + taskId
  }

  function TellAt(histories: map<string, History>, k: string, e: Event): map<string, History> {
    if k in histories then histories[k := Told(histories[k], e)] else histories
  }

  method Push(items: seq<string>, value: string, limit: nat) returns (r: seq<string>)
    ensures r == Pushed(items, value, limit)
  {
    if Trim(value) == "" || (items != [] && items[|items| - 1] == value) {
      return items;
    }
    r := items + [value];
    var surplus := if |r| > limit then |r| - limit else 0;
    r := r[surplus..];
  }

  class TaskMemoryService {
    var items: map<string, WorkingMemory>
    ghost var histories: map<string, History>

    ghost predicate Valid()
      reads this
    {
      && items.Keys == histories.Keys
      && forall k <- items :: Remembers(items[k], histories[k])
    }

    constructor ()
      ensures Valid() && items == map[]
    {
      items, histories := map[], map[];
    }

    method Reset()
      modifies this
      ensures Valid() && items == map[]
    {
      items, histories := map[], map[];
    }

    method Ensure(scenarioId: string, taskId: string, objective: string, expected: string) returns (m: WorkingMemory)
      requires Valid()
      modifies this
      ensures Valid()
      ensures var k := KeyOf(scenarioId, taskId);
        && k in items && items[k] == m
        && items == (if k in old(items) then old(items) else old(items)[k := NewMemory(objective, expected)])
        && histories == (if k in old(items) then old(histories) else old(histories)[k := NOTHING])
    {
      hide Remembers, KeyOf;
      var k := KeyOf(scenarioId, taskId);
      if k in items {
        return items[k];
      }
      NewMemoryRemembers(objective, expected);
      m := NewMemory(objective, expected);
      items, histories := items[k := m], histories[k := NOTHING];
    }

    /** Put the memory of a task back after an event; a task that was never ensured is ignored. */
    ghost predicate After(oldItems: map<string, WorkingMemory>, oldHistories: map<string, History>, k: string, e: Event)
      reads this
    {
      && items == (if k in oldItems then oldItems[k := Noted(oldItems[k], e)] else oldItems)
      && histories == TellAt(oldHistories, k, e)
    }

    method Observe(scenarioId: string, taskId: string, text: string)
      requires Valid()
      modifies this
      ensures Valid() && After(old(items), old(histories), KeyOf(scenarioId, taskId), Observed(text))
    {
      hide Remembers, KeyOf, Pushed;
      var k := KeyOf(scenarioId, taskId);
      if k in items {
        RemembersNext(items[k], histories[k], Observed(text));
        var observed := Push(items[k].observedStates, text, TEXTS);
        items := items[k := items[k].(observedStates := observed)];
        histories := TellAt(histories, k, Observed(text));
      }
    }

    method Action(scenarioId: string, taskId: string, tried: Tried)
      requires Valid()
      modifies this
      ensures Valid() && After(old(items), old(histories), KeyOf(scenarioId, taskId), Acted(tried))
    {
      hide Remembers, KeyOf, StateAfter, Latest;
      var k := KeyOf(scenarioId, taskId);
      if k in items {
        RemembersNext(items[k], histories[k], Acted(tried));
        var item := items[k].(state := StateAfter(tried.outcome));
        item := item.(actionsTried := item.actionsTried + [tried]);
        item := item.(actionsTried := Latest(item.actionsTried, ACTIONS));
        items := items[k := item];
        histories := TellAt(histories, k, Acted(tried));
      }
    }

    method Hypothesis(scenarioId: string, taskId: string, text: string)
      requires Valid()
      modifies this
      ensures Valid() && After(old(items), old(histories), KeyOf(scenarioId, taskId), Supposed(text))
    {
      hide Remembers, KeyOf, Pushed;
      var k := KeyOf(scenarioId, taskId);
      if k in items {
        RemembersNext(items[k], histories[k], Supposed(text));
        var hypotheses := Push(items[k].hypotheses, text, TEXTS);
        items := items[k := items[k].(hypotheses := hypotheses)];
        histories := TellAt(histories, k, Supposed(text));
      }
    }

    /** A rejected decision is remembered twice: as a rejection and as a hypothesis. */
    method Reject(scenarioId: string, taskId: string, reason: string, next: Option<string>)
      requires Valid()
      modifies this
      ensures Valid() && After(old(items), old(histories), KeyOf(scenarioId, taskId), Refused(reason, next))
    {
      hide Remembers, KeyOf, Pushed, Latest;
      var k := KeyOf(scenarioId, taskId);
      if k in items {
        RemembersNext(items[k], histories[k], Refused(reason, next));
        var item := items[k].(state := Planning, nextRecommendation := next);
        item := item.(rejectedDecisions := Latest(item.rejectedDecisions + [Refusal(reason, next)], REJECTIONS));
        var hypotheses := Push(item.hypotheses, "Rejected decision: " + reason, TEXTS);
        items := items[k := item.(hypotheses := hypotheses)];
        histories := TellAt(histories, k, Refused(reason, next));
      }
    }

    method Block(scenarioId: string, taskId: string, reason: string)
      requires Valid()
      modifies this
      ensures Valid() && After(old(items), old(histories), KeyOf(scenarioId, taskId), GotBlocked(reason))
    {
      hide Remembers, KeyOf, Pushed;
      var k := KeyOf(scenarioId, taskId);
      if k in items {
        RemembersNext(items[k], histories[k], GotBlocked(reason));
        var blockers := Push(items[k].blockers, reason, TEXTS);
        items := items[k := items[k].(state := Blocked, blockers := blockers)];
        histories := TellAt(histories, k, GotBlocked(reason));
      }
    }

    method Finish(scenarioId: string, taskId: string)
      requires Valid()
      modifies this
      ensures Valid() && After(old(items), old(histories), KeyOf(scenarioId, taskId), Finished)
    {
      hide Remembers, KeyOf;
      var k := KeyOf(scenarioId, taskId);
      if k in items {
        RemembersNext(items[k], histories[k], Finished);
        items := items[k := items[k].(state := Done)];
        histories := TellAt(histories, k, Finished);
      }
    }
  }

  /** The id of the second scenario goes on where that of the first ends, and the id of the first task has
      what is left of it. */
  predicate Shadows(scenarioA: string, taskA: string, scenarioB: string, taskB: string) {
    scenarioA + ":" <= scenarioB && taskA == scenarioB[|scenarioA| + 1..] + ":" + taskB
  }

  lemma ShadowsCollide(scenarioA: string, taskA: string, scenarioB: string, taskB: string)
    requires |scenarioA| < |scenarioB|
    ensures KeyOf(scenarioA, taskA) == KeyOf(scenarioB, taskB) <==> Shadows(scenarioA, taskA, scenarioB, taskB)
  {
    var a, b, n := KeyOf(scenarioA, taskA), KeyOf(scenarioB, taskB), |scenarioA| + 1;
    assert a[..n] == scenarioA + ":" && a[n..] == taskA;
    assert b[..n] == scenarioB[..n] && b[n..] == scenarioB[n..] + ":" + taskB;
    assert a == a[..n] + a[n..] && b == b[..n] + b[n..];
  }

  /** Two tasks share a memory exactly when they are the same, or the id of one scenario, with a colon, begins
      the id of the other and the task ids make up for the difference. */
  lemma KeysCollideExactly(scenarioA: string, taskA: string, scenarioB: string, taskB: string)
    ensures KeyOf(scenarioA, taskA) == KeyOf(scenarioB, taskB) <==>
      || (scenarioA == scenarioB && taskA == taskB)
      || Shadows(scenarioA, taskA, scenarioB, taskB) || Shadows(scenarioB, taskB, scenarioA, taskA)
  {
    if |scenarioA| < |scenarioB| {
      ShadowsCollide(scenarioA, taskA, scenarioB, taskB);
    } else if |scenarioB| < |scenarioA| {
      ShadowsCollide(scenarioB, taskB, scenarioA, taskA);
    } else {
      var a, b, n := KeyOf(scenarioA, taskA), KeyOf(scenarioB, taskB), |scenarioA|;
      assert a[..n] == scenarioA && b[..n] == scenarioB && a[n + 1..] == taskA && b[n + 1..] == taskB;
    }
  }

  /** Some tasks of two scenarios share a memory exactly when the id of one, with a colon, begins that of the
      other: the prefixes are all a caller has to look at. */
  lemma ScenariosCollideExactly(scenarioA: string, scenarioB: string)
    requires scenarioA != scenarioB
    ensures (exists taskA, taskB :: KeyOf(scenarioA, taskA) == KeyOf(scenarioB, taskB))
      <==> scenarioA + ":" <= scenarioB || scenarioB + ":" <= scenarioA
  {
    hide KeyOf;
    if taskA, taskB :| KeyOf(scenarioA, taskA) == KeyOf(scenarioB, taskB) {
      KeysCollideExactly(scenarioA, taskA, scenarioB, taskB);
    }
    if scenarioA + ":" <= scenarioB {
      KeysCollideExactly(scenarioA, scenarioB[|scenarioA| + 1..] + ":" + "", scenarioB, "");
    } else if scenarioB + ":" <= scenarioA {
      KeysCollideExactly(scenarioA, "", scenarioB, scenarioA[|scenarioB| + 1..] + ":" + "");
    }
  }

  /** Tasks never share a memory as long as no scenario id has a colon. */
  lemma KeysDiffer(scenarioA: string, taskA: string, scenarioB: string, taskB: string)
    requires ':' !in scenarioA && ':' !in scenarioB
    ensures KeyOf(scenarioA, taskA) == KeyOf(scenarioB, taskB) <==> scenarioA == scenarioB && taskA == taskB
  {
    hide KeyOf;
    KeysCollideExactly(scenarioA, taskA, scenarioB, taskB);
    assert (scenarioA + ":")[|scenarioA|] == ':' && (scenarioB + ":")[|scenarioB|] == ':';
  }

  lemma KeysCanCollide()
    ensures KeyOf("a:b", "c") == KeyOf("a", "b:c")
  {
    assert KeyOf("a:b", "c") == "a:b:c";
    assert KeyOf("a", "b:c") == "a:b:c";
  }
}
