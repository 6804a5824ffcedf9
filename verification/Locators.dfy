/** Finding elements by locator, and the element map that goes stale when a newer observation
    replaces it (src/application/services/locator-resolver.service.ts). */
module Locators {
  import opened Domain
  import opened Ranking

  /** The text tests of the resolver (tokenising, substring and regular expression matches) and
      its geometry. Nothing is assumed about them. */
  datatype TextModel = TextModel(
    sameElement: (Element, Locator) -> bool,
    excluded: (Element, seq<string>) -> bool,
    textAnyScore: (Element, seq<string>) -> nat,
    tokens: string -> seq<string>,
    haystack: Element -> set<string>,
    lower: string -> string,
    dataEntry: string -> bool,
    clickLike: string -> bool,
    area: Element -> real,
    proximity: Element -> real)

  const ACTIONABLE_ROLES: set<string> :=
    {"button", "link", "menuitem", "option", "checkbox", "radio", "switch", "tab", "textbox", "combobox"}
  const MIN_TOKEN_OVERLAP: real := 0.75
  const MIN_MARGIN: real := 0.2

  function ActionableScore(tm: TextModel, e: Element): int {
    var role := tm.lower(e.role);
    if role == "switch" || role == "menuitem" then 3
    else if role in ACTIONABLE_ROLES then 1
    else 0
  }

  /** `[0]` of the array after a stable sort on `key`. */
  function Best(es: seq<Element>, key: Element -> Key): Option<Element> {
    var ranked := Sort(es, key);
    if ranked == [] then None else Some(ranked[0])
  }

  function ExpectedTexts(loc: Locator): seq<string> {
    match loc
    case TextAny(texts) => texts
    case Text(text) => [text]
    case Label(text) => [text]
    case Placeholder(text) => [text]
    case Role(_, Some(name)) => if name == "" then [] else [name]
    case TestId(testId) => [testId]
    case Semantic(semanticKey, intent, _) => [semanticKey, intent]
    case _ => []
  }

  function OneOf(haystack: set<string>): string -> bool {
    (token: string) => token in haystack
  }

  function OverlapScore(expected: seq<string>, haystack: set<string>): real {
    if |expected| < 2 then 0.0 else |Filter(expected, OneOf(haystack))| as real / |expected| as real
  }

  function MaxOverlap(tm: TextModel, texts: seq<string>, haystack: set<string>): real {
    if texts == [] then 0.0
    else
      var rest := MaxOverlap(tm, texts[1..], haystack);
      var score := OverlapScore(tm.tokens(texts[0]), haystack);
      if score > rest then score else rest
  }

  function MatchScore(tm: TextModel, e: Element, expected: seq<string>): real {
    if tm.haystack(e) == {} then 0.0 else MaxOverlap(tm, expected, tm.haystack(e))
  }

  function OverlapKey(tm: TextModel, loc: Locator): Element -> Key {
    (e: Element) => Key(MatchScore(tm, e, ExpectedTexts(loc)), ActionableScore(tm, e))
  }

  function Qualifies(tm: TextModel, loc: Locator): Element -> bool {
    (e: Element) => MatchScore(tm, e, ExpectedTexts(loc)) >= MIN_TOKEN_OVERLAP
  }

  function OverlapCandidates(tm: TextModel, es: seq<Element>, loc: Locator): seq<Element> {
    Filter(es, Qualifies(tm, loc))
  }

  predicate Ambiguous(selected: Key, runnerUp: Key) {
    selected.score - runnerUp.score < MIN_MARGIN && selected.tie == runnerUp.tie
  }

  /** The token overlap fallback: the best ranked candidate, unless the runner-up is too close. */
  function BestTokenOverlap(tm: TextModel, es: seq<Element>, loc: Locator): Option<Element> {
    if forall text <- ExpectedTexts(loc) :: |tm.tokens(text)| < 2 then None
    else
      var key := OverlapKey(tm, loc);
      var ranked := Sort(OverlapCandidates(tm, es, loc), key);
      if ranked == [] then None
      else if |ranked| > 1 && Ambiguous(key(ranked[0]), key(ranked[1])) then None
      else Some(ranked[0])
  }

  function RankTextAny(tm: TextModel, obs: Observation, loc: Locator): Option<Element>
    requires loc.TextAny?
  {
    var matches := Filter(obs.elements, (e: Element) => tm.sameElement(e, loc) && !tm.excluded(e, loc.texts));
    Best(matches, (e: Element) => Key(tm.textAnyScore(e, loc.texts) as real, ActionableScore(tm, e)))
  }

  function ByArea(tm: TextModel): Element -> Key {
    (e: Element) => Key(tm.area(e), 0)
  }

  function ByCentre(tm: TextModel): Element -> Key {
    (e: Element) => Key(tm.proximity(e) + tm.area(e) * 0.001, 0)
  }

  predicate Editable(e: Element) {
    e.role in {"textbox", "combobox"} || e.tagName in {Some("textarea"), Some("input")} || e.editable
  }

  predicate Generic(e: Element) {
    e.tagName in {Some("div"), Some("section")}
  }

  predicate Clickable(tm: TextModel, e: Element) {
    tm.lower(e.role) in ACTIONABLE_ROLES || e.tagName in {Some("button"), Some("a")}
  }

  function Controls(tm: TextModel): Element -> bool {
    (e: Element) => Clickable(tm, e)
  }

  predicate InView(e: Element) {
    e.inViewport
  }

  /** Heuristic guess among the visible elements when nothing matched. */
  function SmartFallback(tm: TextModel, obs: Observation, loc: Locator): Option<Element> {
    var visible := Filter(obs.elements, InView);
    var texts := ExpectedTexts(loc);
    var editable := Filter(visible, Editable);
    var generic := Filter(visible, Generic);
    var clickable := Filter(visible, Controls(tm));
    if visible == [] then None
    else if (exists t <- texts :: tm.dataEntry(t)) && editable != [] then Best(editable, ByArea(tm))
    else if (exists t <- texts :: tm.dataEntry(t)) && generic != [] then Best(generic, ByArea(tm))
    else if (exists t <- texts :: tm.clickLike(t)) && clickable != [] then Best(clickable, ByCentre(tm))
    else None
  }

  function FirstMatch(tm: TextModel, obs: Observation, loc: Locator): Option<Element> {
    var same := Domain.Find(obs.elements, (e: Element) => e.locator == loc);
    if same.Some? then same else
    var alike := Domain.Find(obs.elements, (e: Element) => tm.sameElement(e, loc));
    if alike.Some? then alike else
    var overlap := BestTokenOverlap(tm, obs.elements, loc);
    if overlap.Some? then overlap else SmartFallback(tm, obs, loc)
  }

  function ElementFor(tm: TextModel, obs: Observation, loc: Locator): Option<Element>
    requires !loc.Semantic?
  {
    match loc
    case Index(target, index) =>
      var matches := Filter(obs.elements, (e: Element) => e.locator == target || tm.sameElement(e, target));
      if index < |matches| then Some(matches[index]) else None
    case TextAny(_) =>
      var ranked := RankTextAny(tm, obs, loc);
      if ranked.Some? then ranked else FirstMatch(tm, obs, loc)
    case _ => FirstMatch(tm, obs, loc)
  }

  function FindLeaf(tm: TextModel, obs: Observation, loc: Locator): Outcome<string>
    requires !loc.Semantic?
  {
    match ElementFor(tm, obs, loc)
    case Some(e) => Ok(e.id)
    case None => Thrown(LocatorNotFound)
  }

  /** A semantic locator tries its candidates in turn, each of which may be semantic again. */
  function FindByLocator(tm: TextModel, obs: Observation, loc: Locator): Outcome<string>
    decreases loc
  {
    if loc.Semantic? then FindCandidate(tm, obs, loc, 0) else FindLeaf(tm, obs, loc)
  }

  function FindCandidate(tm: TextModel, obs: Observation, loc: Locator, k: nat): Outcome<string>
    requires loc.Semantic? && k <= |loc.candidates|
    decreases loc, |loc.candidates| - k
  {
    if k == |loc.candidates| then Thrown(LocatorNotFound)
    else
      var hit := FindByLocator(tm, obs, loc.candidates[k]);
      if hit.Ok? then hit else FindCandidate(tm, obs, loc, k + 1)
  }

  predicate Found(tm: TextModel, obs: Observation, loc: Locator) {
    FindByLocator(tm, obs, loc).Ok?
  }

  // ----- the flat meaning of nested semantic locators

  /** The leaves of a locator in the order they are tried. */
  function Flatten(loc: Locator): seq<Locator>
    decreases loc
  {
    if loc.Semantic? then FlattenFrom(loc, 0) else [loc]
  }

  function FlattenFrom(loc: Locator, k: nat): seq<Locator>
    requires loc.Semantic? && k <= |loc.candidates|
    decreases loc, |loc.candidates| - k
  {
    if k == |loc.candidates| then [] else Flatten(loc.candidates[k]) + FlattenFrom(loc, k + 1)
  }

  function FirstHit(tm: TextModel, obs: Observation, leaves: seq<Locator>): Outcome<string> {
    if leaves == [] then Thrown(LocatorNotFound)
    else if leaves[0].Semantic? then FirstHit(tm, obs, leaves[1..])
    else
      var hit := FindLeaf(tm, obs, leaves[0]);
      if hit.Ok? then hit else FirstHit(tm, obs, leaves[1..])
  }

  lemma {:induction false} FirstHitAppend(tm: TextModel, obs: Observation, a: seq<Locator>, b: seq<Locator>)
    ensures FirstHit(tm, obs, a + b) == if FirstHit(tm, obs, a).Ok? then FirstHit(tm, obs, a) else FirstHit(tm, obs, b)
  {
    if a == [] {
      assert a + b == b;
    } else {
      assert (a + b)[0] == a[0] && (a + b)[1..] == a[1..] + b;
      FirstHitAppend(tm, obs, a[1..], b);
    }
  }

  /** However deep the nesting, a locator finds what its first succeeding leaf finds, and it fails
      only when every leaf fails. */
  lemma {:induction false} FindIsFirstLeaf(tm: TextModel, obs: Observation, loc: Locator)
    ensures FindByLocator(tm, obs, loc) == FirstHit(tm, obs, Flatten(loc))
    ensures forall leaf <- Flatten(loc) :: !leaf.Semantic?
    decreases loc
  {
    if loc.Semantic? {
      CandidatesAreFirstLeaf(tm, obs, loc, 0);
    } else {
      assert FirstHit(tm, obs, []) == Thrown(LocatorNotFound);
    }
  }

  lemma {:induction false} CandidatesAreFirstLeaf(tm: TextModel, obs: Observation, loc: Locator, k: nat)
    requires loc.Semantic? && k <= |loc.candidates|
    ensures FindCandidate(tm, obs, loc, k) == FirstHit(tm, obs, FlattenFrom(loc, k))
    ensures forall leaf <- FlattenFrom(loc, k) :: !leaf.Semantic?
    decreases loc, |loc.candidates| - k
  {
    if k < |loc.candidates| {
      FindIsFirstLeaf(tm, obs, loc.candidates[k]);
      CandidatesAreFirstLeaf(tm, obs, loc, k + 1);
      FirstHitAppend(tm, obs, Flatten(loc.candidates[k]), FlattenFrom(loc, k + 1));
    }
  }

  lemma BestIsMember(es: seq<Element>, key: Element -> Key)
    ensures Best(es, key).Some? <==> es != []
    ensures Best(es, key).Some? ==> Best(es, key).value in es
  {
    SortIsSorted(es, key);
    if es != [] {
      SortKeepsMembers(es, key, Sort(es, key)[0]);
    }
  }

  lemma OverlapIsMember(tm: TextModel, es: seq<Element>, loc: Locator)
    ensures BestTokenOverlap(tm, es, loc).Some? ==> BestTokenOverlap(tm, es, loc).value in es
  {
    var ranked := Sort(OverlapCandidates(tm, es, loc), OverlapKey(tm, loc));
    if ranked != [] {
      SortKeepsMembers(OverlapCandidates(tm, es, loc), OverlapKey(tm, loc), ranked[0]);
    }
  }

  lemma FallbackIsMember(tm: TextModel, obs: Observation, loc: Locator)
    ensures SmartFallback(tm, obs, loc).Some? ==> SmartFallback(tm, obs, loc).value in obs.elements
  {
    var visible := Filter(obs.elements, InView);
    BestIsMember(Filter(visible, Editable), ByArea(tm));
    BestIsMember(Filter(visible, Generic), ByArea(tm));
    BestIsMember(Filter(visible, Controls(tm)), ByCentre(tm));
  }

  lemma FirstMatchIsMember(tm: TextModel, obs: Observation, loc: Locator)
    ensures FirstMatch(tm, obs, loc).Some? ==> FirstMatch(tm, obs, loc).value in obs.elements
  {
    hide BestTokenOverlap, SmartFallback;
    OverlapIsMember(tm, obs.elements, loc);
    FallbackIsMember(tm, obs, loc);
  }

  /** Whatever a locator finds is an element of the observation it was searched in. */
  lemma {:induction false} FoundIsElement(tm: TextModel, obs: Observation, loc: Locator)
    ensures Found(tm, obs, loc) ==> exists e :: e in obs.elements && e.id == FindByLocator(tm, obs, loc).value
    decreases loc
  {
    if loc.Semantic? {
      CandidateIsElement(tm, obs, loc, 0);
    } else {
      FirstMatchIsMember(tm, obs, loc);
      if loc.TextAny? {
        var matches := Filter(obs.elements, (e: Element) => tm.sameElement(e, loc) && !tm.excluded(e, loc.texts));
        BestIsMember(matches, (e: Element) => Key(tm.textAnyScore(e, loc.texts) as real, ActionableScore(tm, e)));
      }
      assert ElementFor(tm, obs, loc).Some? ==> ElementFor(tm, obs, loc).value in obs.elements;
    }
  }

  lemma {:induction false} CandidateIsElement(tm: TextModel, obs: Observation, loc: Locator, k: nat)
    requires loc.Semantic? && k <= |loc.candidates|
    ensures FindCandidate(tm, obs, loc, k).Ok? ==>
      exists e :: e in obs.elements && e.id == FindCandidate(tm, obs, loc, k).value
    decreases loc, |loc.candidates| - k
  {
    if k < |loc.candidates| {
      FoundIsElement(tm, obs, loc.candidates[k]);
      CandidateIsElement(tm, obs, loc, k + 1);
    }
  }

  // ----- the ambiguity guard

  /** A selected element strictly outranks every other candidate and occurs once. */
  lemma OverlapIsStrictMaximum(tm: TextModel, es: seq<Element>, loc: Locator)
    requires BestTokenOverlap(tm, es, loc).Some?
    ensures var e := BestTokenOverlap(tm, es, loc).value;
      multiset(es)[e] == 1
      && forall f <- OverlapCandidates(tm, es, loc) :: f != e ==> Above(OverlapKey(tm, loc)(e), OverlapKey(tm, loc)(f))
  {
    var key := OverlapKey(tm, loc);
    var cs := OverlapCandidates(tm, es, loc);
    SortIsSorted(cs, key);
    StrictTop(Sort(cs, key), key);
    var e := Sort(cs, key)[0];
    forall f | f in cs && f != e
      ensures Above(key(e), key(f))
    {
      SortKeepsMembers(cs, key, f);
    }
    SortKeepsMembers(cs, key, e);
    FilterMultiplicity(es, Qualifies(tm, loc), e);
  }

  lemma StrictTop(ranked: seq<Element>, key: Element -> Key)
    requires ranked != [] && Ordered(ranked, key)
    requires |ranked| > 1 ==> !Ambiguous(key(ranked[0]), key(ranked[1]))
    ensures forall i :: 1 <= i < |ranked| ==> Above(key(ranked[0]), key(ranked[i]))
    ensures forall f :: f in ranked && f != ranked[0] ==> Above(key(ranked[0]), key(f))
    ensures multiset(ranked)[ranked[0]] == 1
  {
    forall i | 1 <= i < |ranked|
      ensures Above(key(ranked[0]), key(ranked[i]))
    {
      assert !Above(key(ranked[1]), key(ranked[0])) && !Above(key(ranked[i]), key(ranked[0]));
      assert i == 1 || !Above(key(ranked[i]), key(ranked[1]));
    }
    assert ranked[0] !in ranked[1..];
    assert ranked == [ranked[0]] + ranked[1..];
  }

  lemma RankedKeysAgree(tm: TextModel, es: seq<Element>, fs: seq<Element>, loc: Locator)
    requires multiset(es) == multiset(fs)
    ensures var key := OverlapKey(tm, loc);
      var a, b := Sort(OverlapCandidates(tm, es, loc), key), Sort(OverlapCandidates(tm, fs, loc), key);
      |a| == |b| && forall i :: 0 <= i < |a| ==> key(a[i]) == key(b[i])
  {
    var key := OverlapKey(tm, loc);
    FilterOfPermutation(es, fs, Qualifies(tm, loc));
    SortedKeysOfPermutation(OverlapCandidates(tm, es, loc), OverlapCandidates(tm, fs, loc), key);
    var a, b := Sort(OverlapCandidates(tm, es, loc), key), Sort(OverlapCandidates(tm, fs, loc), key);
    assert |Keys(a, key)| == |Keys(b, key)|;
    forall i | 0 <= i < |a|
      ensures key(a[i]) == key(b[i])
    {
      assert Keys(a, key)[i] == Keys(b, key)[i];
    }
  }

  /** Reordering the elements of an observation never changes the selected element. */
  lemma OverlapIgnoresElementOrder(tm: TextModel, es: seq<Element>, fs: seq<Element>, loc: Locator)
    requires multiset(es) == multiset(fs)
    ensures BestTokenOverlap(tm, es, loc) == BestTokenOverlap(tm, fs, loc)
  {
    hide MatchScore, ActionableScore, Sort;
    RankedKeysAgree(tm, es, fs, loc);
    if BestTokenOverlap(tm, es, loc).Some? {
      OverlapIsStrictMaximum(tm, es, loc);
      var top := BestTokenOverlap(tm, fs, loc).value;
      SortKeepsMembers(OverlapCandidates(tm, fs, loc), OverlapKey(tm, loc), top);
      assert top in multiset(es);
      assert top in OverlapCandidates(tm, es, loc);
    }
  }

  /** On candidates listed best first the guard compares the first two and nothing else. */
  lemma SelectFromRanked(tm: TextModel, es: seq<Element>, loc: Locator)
    requires !(forall text <- ExpectedTexts(loc) :: |tm.tokens(text)| < 2)
    requires |es| > 1 && forall e :: e in es ==> Qualifies(tm, loc)(e)
    requires forall i, j :: 0 <= i < j < |es| ==> Above(OverlapKey(tm, loc)(es[i]), OverlapKey(tm, loc)(es[j]))
    ensures BestTokenOverlap(tm, es, loc)
      == if Ambiguous(OverlapKey(tm, loc)(es[0]), OverlapKey(tm, loc)(es[1])) then None else Some(es[0])
  {
    AllQualify(Qualifies(tm, loc), es);
    SortOfDescending(es, OverlapKey(tm, loc));
  }

  /** The guard looks at the runner-up only: a candidate in third place may be as actionable as the
      selected one and just as close, and still the selection stands. */
  lemma GuardChecksRunnerUpOnly(tm: TextModel, loc: Locator, first: Element, second: Element, third: Element)
    requires !(forall text <- ExpectedTexts(loc) :: |tm.tokens(text)| < 2)
    requires Qualifies(tm, loc)(first) && Qualifies(tm, loc)(second) && Qualifies(tm, loc)(third)
    requires var key := OverlapKey(tm, loc);
      Above(key(first), key(second)) && Above(key(second), key(third))
      && key(second).tie != key(first).tie && Ambiguous(key(first), key(third))
    ensures BestTokenOverlap(tm, [first, second, third], loc) == Some(first)
    ensures BestTokenOverlap(tm, [first, third], loc) == None
  {
    hide MatchScore, ActionableScore, BestTokenOverlap;
    SelectFromRanked(tm, [first, second, third], loc);
    SelectFromRanked(tm, [first, third], loc);
  }

  function Ranked(tm: TextModel, es: seq<Element>, loc: Locator): seq<Element> {
    Sort(OverlapCandidates(tm, es, loc), OverlapKey(tm, loc))
  }

  /** The fallback applies to locators with some text of two tokens or more. */
  predicate Applies(tm: TextModel, loc: Locator) {
    exists text <- ExpectedTexts(loc) :: |tm.tokens(text)| >= 2
  }

  /** The candidate ranked at `k` is too close to the best one: as actionable, and within the margin. */
  predicate Rivals(tm: TextModel, es: seq<Element>, loc: Locator, k: nat) {
    && 0 < k < |Ranked(tm, es, loc)|
    && Ambiguous(OverlapKey(tm, loc)(Ranked(tm, es, loc)[0]), OverlapKey(tm, loc)(Ranked(tm, es, loc)[k]))
  }

  /** The runner-up is not as actionable as the best candidate. */
  predicate Screened(tm: TextModel, es: seq<Element>, loc: Locator) {
    && |Ranked(tm, es, loc)| > 1
    && ActionableScore(tm, Ranked(tm, es, loc)[1]) != ActionableScore(tm, Ranked(tm, es, loc)[0])
  }

  lemma RunnerUpIsClosest(tm: TextModel, es: seq<Element>, loc: Locator, k: nat)
    requires Rivals(tm, es, loc, k)
    ensures Rivals(tm, es, loc, 1) <==> !Screened(tm, es, loc)
  {
    SortIsSorted(OverlapCandidates(tm, es, loc), OverlapKey(tm, loc));
    hide Sort, OverlapCandidates, MatchScore, ActionableScore;
    var ranked, key := Ranked(tm, es, loc), OverlapKey(tm, loc);
    assert k == 1 || !Above(key(ranked[k]), key(ranked[1]));
  }

  /** There is a selection exactly when there are candidates and the runner-up is no rival. */
  lemma SelectedExactly(tm: TextModel, es: seq<Element>, loc: Locator)
    ensures BestTokenOverlap(tm, es, loc).Some?
      <==> Applies(tm, loc) && Ranked(tm, es, loc) != [] && !Rivals(tm, es, loc, 1)
  {
    hide Sort, OverlapCandidates, MatchScore, ActionableScore, Ambiguous;
  }

  /** A rival is let through exactly when the runner-up is not as actionable as the selection and a candidate
      behind it is a rival. In all other cases the guard does what it is for: there is a selection if and only if
      there are candidates and none of them is a rival. */
  lemma GuardExactly(tm: TextModel, es: seq<Element>, loc: Locator)
    ensures var rival, some := exists k :: Rivals(tm, es, loc, k), Applies(tm, loc) && Ranked(tm, es, loc) != [];
      var through := Applies(tm, loc) && Screened(tm, es, loc) && exists k :: k > 1 && Rivals(tm, es, loc, k);
      && (BestTokenOverlap(tm, es, loc).Some? && rival <==> through)
      && (!through ==> (BestTokenOverlap(tm, es, loc).Some? <==> some && !rival))
  {
    SelectedExactly(tm, es, loc);
    if k :| Rivals(tm, es, loc, k) {
      RunnerUpIsClosest(tm, es, loc, k);
    }
    hide Ranked, BestTokenOverlap, Rivals, Applies, Screened;
  }

  /** Among candidates that are all as actionable, a selection is clear of every other candidate. */
  lemma GuardCoversAlikes(tm: TextModel, es: seq<Element>, loc: Locator)
    requires forall e, f :: e in OverlapCandidates(tm, es, loc) && f in OverlapCandidates(tm, es, loc) ==>
      ActionableScore(tm, e) == ActionableScore(tm, f)
    ensures BestTokenOverlap(tm, es, loc).Some? ==> !exists k :: Rivals(tm, es, loc, k)
  {
    var ranked := Ranked(tm, es, loc);
    SortIsSorted(OverlapCandidates(tm, es, loc), OverlapKey(tm, loc));
    forall k | 0 <= k < |ranked|
      ensures ranked[k] in OverlapCandidates(tm, es, loc)
    {
      SortKeepsMembers(OverlapCandidates(tm, es, loc), OverlapKey(tm, loc), ranked[k]);
    }
    GuardExactly(tm, es, loc);
  }

  const SIX: seq<string> := ["w", "w", "w", "w", "w", "x"]

  function SixTokens(): TextModel {
    TextModel(
      (e: Element, l: Locator) => false, (e: Element, ts: seq<string>) => false, (e: Element, ts: seq<string>) => 0,
      (s: string) => SIX, (e: Element) => if e.name == "near" then {"w"} else {"w", "x"},
      (s: string) => s, (s: string) => false, (s: string) => false,
      (e: Element) => 0.0, (e: Element) => 0.0)
  }

  lemma FiveOfSix()
    ensures Filter(SIX, OneOf({"w"})) == SIX[..5]
  {
    AllQualify(OneOf({"w"}), SIX[..5]);
    FilterAppend(SIX[..5], SIX[5..], OneOf({"w"}));
    assert SIX[5] == "x" && SIX[5] !in {"w"};
    NoneQualify(OneOf({"w"}), SIX[5..]);
    hide Filter;
    assert SIX[..5] + SIX[5..] == SIX;
  }

  lemma NoneQualify<T(!new)>(p: T -> bool, s: seq<T>)
    requires |s| == 1 && !p(s[0])
    ensures Filter(s, p) == []
  {
    assert s[1..] == [];
  }

  lemma AllOfSix()
    ensures Filter(SIX, OneOf({"w", "x"})) == SIX
  {
    AllQualify(OneOf({"w", "x"}), SIX);
  }

  lemma SixOverlap()
    ensures OverlapScore(SIX, {"w", "x"}) == 1.0 && OverlapScore(SIX, {"w"}) == 5.0 / 6.0
  {
    AllOfSix();
    FiveOfSix();
    hide Filter, OneOf;
  }

  /** Such candidates exist: a button, a heading with the same words, and another button that lacks one. */
  lemma RivalsCanBeLetThrough(first: Element, second: Element, third: Element)
    requires first.role == "button" && first.name == "full"
    requires second.role == "heading" && second.name == "full"
    requires third.role == "button" && third.name == "near"
    ensures var tm, loc, es := SixTokens(), Text("w w w w w x"), [first, second, third];
      BestTokenOverlap(tm, es, loc) == Some(first) && Rivals(tm, es, loc, 2)
  {
    var tm, loc, es := SixTokens(), Text("w w w w w x"), [first, second, third];
    SixOverlap();
    SixScore(first);
    SixScore(second);
    SixScore(third);
    hide MatchScore, OverlapScore, Filter, Sort;
    assert ExpectedTexts(loc)[0] in ExpectedTexts(loc) && |tm.tokens(ExpectedTexts(loc)[0])| == 6;
    GuardChecksRunnerUpOnly(tm, loc, first, second, third);
    assert Ranked(tm, es, loc) == es by {
      AllQualify(Qualifies(tm, loc), es);
      SortOfDescending(es, OverlapKey(tm, loc));
    }
  }

  lemma SixScore(e: Element)
    ensures MatchScore(SixTokens(), e, ExpectedTexts(Text("w w w w w x")))
      == if e.name == "near" then 5.0 / 6.0 else 1.0
  {
    SixOverlap();
    hide OverlapScore;
    assert ExpectedTexts(Text("w w w w w x"))[1..] == [];
    assert MaxOverlap(SixTokens(), [], SixTokens().haystack(e)) == 0.0;
    assert "w" in SixTokens().haystack(e);
  }

  lemma {:induction false} AllQualify<T(!new)>(p: T -> bool, s: seq<T>)
    requires forall e <- s :: p(e)
    ensures Filter(s, p) == s
  {
    if s != [] {
      AllQualify(p, s[1..]);
    }
  }

  lemma {:induction false} SortOfDescending(s: seq<Element>, key: Element -> Key)
    requires forall i, j :: 0 <= i < j < |s| ==> Above(key(s[i]), key(s[j]))
    ensures Sort(s, key) == s
  {
    if s != [] {
      SortOfDescending(s[1..], key);
    }
  }

  // ----- the element map

  /** The fields a resolver keeps between calls. */
  datatype LocatorIndex = LocatorIndex(
    observationId: string, locators: map<string, Locator>, names: map<string, string>)

  function LocatorsOf(es: seq<Element>): map<string, Locator> {
    if es == [] then map[] else
    var last := es[|es| - 1];
    LocatorsOf(es[..|es| - 1])[last.id := last.locator]
  }

  function NamesOf(es: seq<Element>): map<string, string> {
    if es == [] then map[] else
    var last := es[|es| - 1];
    NamesOf(es[..|es| - 1])[last.id := last.name]
  }

  function IndexOf(obs: Observation): LocatorIndex {
    LocatorIndex(obs.observationId, LocatorsOf(obs.elements), NamesOf(obs.elements))
  }

  lemma {:induction false} EveryElementIsMapped(es: seq<Element>, id: string)
    ensures id in LocatorsOf(es) <==> exists e :: e in es && e.id == id
    ensures id in LocatorsOf(es) <==> id in NamesOf(es)
  {
    if es != [] {
      var n := |es| - 1;
      EveryElementIsMapped(es[..n], id);
      assert es == es[..n] + [es[n]];
    }
  }

  function ResolveIn(index: LocatorIndex, observationId: string, elementId: string): Outcome<BoundTarget> {
    if observationId != index.observationId then Thrown(StaleObservation)
    else if elementId !in index.locators then Thrown(LocatorNotFound)
    else
      var name := if elementId in index.names then index.names[elementId] else "";
      Ok(BoundTarget(elementId, observationId, index.locators[elementId], name))
  }

  /** Find the element in `obs`, then look it up in the map kept by the resolver. */
  function TargetIn(tm: TextModel, index: LocatorIndex, obs: Observation, loc: Locator): Outcome<BoundTarget> {
    var id :- FindByLocator(tm, obs, loc);
    ResolveIn(index, obs.observationId, id)
  }

  /** On a map rebuilt from the observation in hand, a lookup fails only because the search did. */
  lemma FreshLookup(tm: TextModel, obs: Observation, loc: Locator)
    ensures TargetIn(tm, IndexOf(obs), obs, loc).Ok? <==> Found(tm, obs, loc)
    ensures !Found(tm, obs, loc) ==> TargetIn(tm, IndexOf(obs), obs, loc) == Thrown(LocatorNotFound)
  {
    FoundIsElement(tm, obs, loc);
    FindIsFirstLeaf(tm, obs, loc);
    FirstHitError(tm, obs, Flatten(loc));
    if Found(tm, obs, loc) {
      EveryElementIsMapped(obs.elements, FindByLocator(tm, obs, loc).value);
    }
  }

  lemma {:induction false} FirstHitError(tm: TextModel, obs: Observation, leaves: seq<Locator>)
    ensures FirstHit(tm, obs, leaves).Ok? || FirstHit(tm, obs, leaves) == Thrown(LocatorNotFound)
  {
    if leaves != [] {
      FirstHitError(tm, obs, leaves[1..]);
    }
  }

  /** Against any map, a lookup is stale exactly when the element is found in an observation other
      than the one the map was built from. */
  lemma StaleExactly(tm: TextModel, index: LocatorIndex, obs: Observation, loc: Locator)
    ensures TargetIn(tm, index, obs, loc) == Thrown(StaleObservation)
      <==> Found(tm, obs, loc) && obs.observationId != index.observationId
  {
    FindIsFirstLeaf(tm, obs, loc);
    FirstHitError(tm, obs, Flatten(loc));
  }

  class LocatorResolver {
    var observationId: string
    var locatorOf: map<string, Locator>
    var nameOf: map<string, string>

    constructor ()
      ensures Current() == LocatorIndex("", map[], map[])
    {
      observationId, locatorOf, nameOf := "", map[], map[];
    }

    function Current(): LocatorIndex
      reads this
    {
      LocatorIndex(observationId, locatorOf, nameOf)
    }

    /** Forget the previous observation and map every element of the new one. */
    method Rebuild(obs: Observation)
      modifies this
      ensures Current() == IndexOf(obs)
    {
      observationId := obs.observationId;
      locatorOf, nameOf := map[], map[];
      for i := 0 to |obs.elements|
        invariant observationId == obs.observationId
        invariant locatorOf == LocatorsOf(obs.elements[..i]) && nameOf == NamesOf(obs.elements[..i])
      {
        var e := obs.elements[i];
        locatorOf, nameOf := locatorOf[e.id := e.locator], nameOf[e.id := e.name];
        assert obs.elements[..i + 1][..i] == obs.elements[..i];
      }
      assert obs.elements[..|obs.elements|] == obs.elements;
    }
  }
}
