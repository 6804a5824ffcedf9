/** What a locator finds: the n-th match, the best match, the first match, and what the heuristics pick. */
module LocatorLaws {
  import opened Domain
  import opened Locators
  import opened Ranking

  // ----- by index

  predicate Alike(tm: TextModel, e: Element, target: Locator) {
    e.locator == target || tm.sameElement(e, target)
  }

  /** How many elements match a target. */
  function Matches(tm: TextModel, es: seq<Element>, target: Locator): nat {
    if es == [] then 0
    else Matches(tm, es[..|es| - 1], target) + if Alike(tm, es[|es| - 1], target) then 1 else 0
  }

  lemma {:induction false} MatchesAreKept(tm: TextModel, es: seq<Element>, target: Locator, p: Element -> bool)
    requires forall e :: p(e) <==> Alike(tm, e, target)
    ensures |Filter(es, p)| == Matches(tm, es, target)
  {
    if es != [] {
      var before, last := es[..|es| - 1], es[|es| - 1];
      MatchesAreKept(tm, before, target, p);
      FilterAppend(before, [last], p);
      assert es == before + [last] && [last][1..] == [];
      assert Filter([last], p) == if p(last) then [last] else [];
    }
  }

  /** An indexed locator finds the match with exactly that many matches before it, and nothing when there are
      fewer. */
  lemma IndexFindsNth(tm: TextModel, obs: Observation, target: Locator, index: nat) returns (k: nat)
    ensures var r, es := ElementFor(tm, obs, Index(target, index)), obs.elements;
      if index < Matches(tm, es, target)
      then k < |es| && r == Some(es[k]) && Alike(tm, es[k], target) && Matches(tm, es[..k], target) == index
      else r == None
  {
    var p := (e: Element) => e.locator == target || tm.sameElement(e, target);
    MatchesAreKept(tm, obs.elements, target, p);
    k := 0;
    if index < |Filter(obs.elements, p)| {
      k := NthIsNth(obs.elements, p, index);
      MatchesAreKept(tm, obs.elements[..k], target, p);
    }
    hide Filter, Matches;
  }

  // ----- by any of some texts

  predicate Named(tm: TextModel, e: Element, texts: seq<string>) {
    tm.sameElement(e, TextAny(texts)) && !tm.excluded(e, texts)
  }

  /** A named element is a better hit with a better text score, and with equal scores when it is more of a control:
      menu items and switches come before all other controls, and these before the rest. */
  ghost predicate Better(tm: TextModel, e: Element, f: Element, texts: seq<string>) {
    var a, b := tm.textAnyScore(e, texts), tm.textAnyScore(f, texts);
    var special, control := tm.lower(e.role) in {"menuitem", "switch"}, tm.lower(e.role) in ACTIONABLE_ROLES;
    a > b || (a == b &&
      ((special && tm.lower(f.role) !in {"menuitem", "switch"}) || (control && tm.lower(f.role) !in ACTIONABLE_ROLES)))
  }

  ghost predicate BestNamed(tm: TextModel, es: seq<Element>, texts: seq<string>, k: nat) {
    && k < |es| && Named(tm, es[k], texts)
    && forall j :: 0 <= j < |es| && Named(tm, es[j], texts) ==>
        && !Better(tm, es[j], es[k], texts)
        && (j < k ==> Better(tm, es[k], es[j], texts))
  }

  function TextKey(tm: TextModel, texts: seq<string>): Element -> Key {
    (e: Element) => Key(tm.textAnyScore(e, texts) as real, ActionableScore(tm, e))
  }

  lemma AboveIsBetter(tm: TextModel, e: Element, f: Element, texts: seq<string>)
    ensures Above(TextKey(tm, texts)(e), TextKey(tm, texts)(f)) <==> Better(tm, e, f, texts)
  {
  }

  /** Among the named elements the best hit is found, the first one of equals. */
  lemma TextAnyFindsBest(tm: TextModel, obs: Observation, texts: seq<string>) returns (k: nat)
    requires exists e <- obs.elements :: Named(tm, e, texts)
    ensures BestNamed(tm, obs.elements, texts, k)
    ensures ElementFor(tm, obs, TextAny(texts)) == Some(obs.elements[k])
  {
    var es, loc := obs.elements, TextAny(texts);
    var p := (e: Element) => tm.sameElement(e, loc) && !tm.excluded(e, loc.texts);
    var key := (e: Element) => Key(tm.textAnyScore(e, loc.texts) as real, ActionableScore(tm, e));
    var named := Filter(es, p);
    var i := SortPutsFirstMaximumFirst(named, key);
    k := NthIsNth(es, p, i);
    hide Sort, ActionableScore, Filter, Better;
    forall j | 0 <= j < |es| && Named(tm, es[j], texts)
      ensures !Better(tm, es[j], es[k], texts) && (j < k ==> Better(tm, es[k], es[j], texts))
    {
      var a := FilterPosition(es, p, j);
      AboveIsBetter(tm, es[j], es[k], texts);
      AboveIsBetter(tm, es[k], es[j], texts);
      assert !Above(key(named[a]), key(named[i]));
      if j < k {
        FilterGrows(es, p, j, k);
        assert Above(key(named[i]), key(named[a]));
      }
    }
  }

  // ----- by token overlap

  function Hits(tokens: seq<string>, haystack: set<string>): nat {
    if tokens == [] then 0 else Hits(tokens[1..], haystack) + if tokens[0] in haystack then 1 else 0
  }

  /** At least three quarters of the tokens of a text of two tokens or more. */
  predicate Carries(tm: TextModel, e: Element, text: string) {
    var tokens := tm.tokens(text);
    |tokens| >= 2 && 4 * Hits(tokens, tm.haystack(e)) >= 3 * |tokens|
  }

  lemma {:induction false} HitsAreKept(tokens: seq<string>, haystack: set<string>)
    ensures |Filter(tokens, OneOf(haystack))| == Hits(tokens, haystack) <= |tokens|
    ensures haystack == {} ==> Hits(tokens, haystack) == 0
  {
    if tokens != [] {
      HitsAreKept(tokens[1..], haystack);
    }
  }

  lemma CarriesExactly(tm: TextModel, e: Element, text: string)
    ensures OverlapScore(tm.tokens(text), tm.haystack(e)) >= MIN_TOKEN_OVERLAP <==> Carries(tm, e, text)
  {
    var tokens := tm.tokens(text);
    HitsAreKept(tokens, tm.haystack(e));
    if |tokens| >= 2 {
      ThreeQuarters(Hits(tokens, tm.haystack(e)), |tokens|);
    }
    hide Hits, Filter;
  }

  lemma ThreeQuarters(h: nat, n: nat)
    requires n > 0
    ensures h as real / n as real >= 0.75 <==> 4 * h >= 3 * n
  {
    var a, b := h as real, n as real;
    assert a / b * b == a;
    assert a / b >= 0.75 <==> a >= 0.75 * b;
  }

  lemma {:induction false} SomeTextCarries(tm: TextModel, e: Element, texts: seq<string>)
    ensures MaxOverlap(tm, texts, tm.haystack(e)) >= MIN_TOKEN_OVERLAP <==> exists t <- texts :: Carries(tm, e, t)
  {
    hide OverlapScore, Carries;
    if texts != [] {
      SomeTextCarries(tm, e, texts[1..]);
      CarriesExactly(tm, e, texts[0]);
      assert texts == [texts[0]] + texts[1..];
    }
  }

  /** An element is a candidate exactly when it carries three quarters of some expected text. */
  lemma QualifiesExactly(tm: TextModel, loc: Locator, e: Element)
    ensures Qualifies(tm, loc)(e) <==> exists t <- ExpectedTexts(loc) :: Carries(tm, e, t)
  {
    SomeTextCarries(tm, e, ExpectedTexts(loc));
    if tm.haystack(e) == {} {
      forall t | t in ExpectedTexts(loc)
        ensures !Carries(tm, e, t)
      {
        HitsAreKept(tm.tokens(t), {});
      }
    }
  }

  // ----- by heuristics

  /** The first of the largest among the visible elements of a kind. */
  ghost predicate LargestVisible(tm: TextModel, es: seq<Element>, kind: Element -> bool, size: Element -> real,
                                 k: nat) {
    && k < |es| && es[k].inViewport && kind(es[k])
    && forall j :: 0 <= j < |es| && es[j].inViewport && kind(es[j]) ==>
        size(es[j]) <= size(es[k]) && (j < k ==> size(es[j]) < size(es[k]))
  }

  ghost predicate SomeVisible(es: seq<Element>, kind: Element -> bool) {
    exists e <- es :: e.inViewport && kind(e)
  }

  lemma LargestIsFound(tm: TextModel, es: seq<Element>, kind: Element -> bool, key: Element -> Key,
                       size: Element -> real) returns (k: nat)
    requires forall e :: key(e) == Key(size(e), 0)
    ensures var kept := Filter(Filter(es, InView), kind);
      && (kept != [] <==> SomeVisible(es, kind))
      && (kept != [] ==> LargestVisible(tm, es, kind, size, k))
      && (kept != [] ==> Best(kept, key) == Some(es[k]))
  {
    k := 0;
    var shown := Filter(es, InView);
    var kept := Filter(shown, kind);
    if kept != [] {
      assert kept[0] in kept && kept[0] in shown && kept[0] in es;
      var i := SortPutsFirstMaximumFirst(kept, key);
      var m := NthIsNth(shown, kind, i);
      k := NthIsNth(es, InView, m);
      hide Filter, Best;
      forall j | 0 <= j < |es| && es[j].inViewport && kind(es[j])
        ensures size(es[j]) <= size(es[k]) && (j < k ==> size(es[j]) < size(es[k]))
      {
        var a := FilterPosition(es, InView, j);
        var b := FilterPosition(shown, kind, a);
        assert !Above(key(kept[b]), key(kept[i]));
        if j < k {
          FilterGrows(es, InView, j, k);
          FilterGrows(shown, kind, a, m);
        }
      }
    }
  }

  function Centred(tm: TextModel): Element -> real {
    (e: Element) => tm.proximity(e) + tm.area(e) * 0.001
  }

  ghost predicate PicksLargest(tm: TextModel, es: seq<Element>, kind: Element -> bool, size: Element -> real,
                               r: Option<Element>) {
    exists k: nat :: k < |es| && r == Some(es[k]) && LargestVisible(tm, es, kind, size, k)
  }

  /** What counts as a field, as a container and as a control. */
  lemma KindsExactly(tm: TextModel, e: Element)
    ensures Editable(e) <==>
      e.editable || e.role in ["textbox", "combobox"] || e.tagName in [Some("input"), Some("textarea")]
    ensures Generic(e) <==> e.tagName in [Some("div"), Some("section")]
    ensures Clickable(tm, e) <==>
      || e.tagName in [Some("a"), Some("button")]
      || tm.lower(e.role) in ["button", "link", "menuitem", "option", "checkbox", "radio", "switch", "tab"]
      || tm.lower(e.role) in ["textbox", "combobox"]
  {
  }

  /** When nothing else matched, a text about data entry picks the largest visible editable element, or the largest
      visible container where there is none; any other text about clicking picks the control that ranks best by its
      centre. Nothing out of view is ever picked. */
  lemma FallbackExactly(tm: TextModel, obs: Observation, loc: Locator)
    ensures var es, texts, r := obs.elements, ExpectedTexts(loc), SmartFallback(tm, obs, loc);
      var entry, click := exists t <- texts :: tm.dataEntry(t), exists t <- texts :: tm.clickLike(t);
      if entry && SomeVisible(es, Editable) then PicksLargest(tm, es, Editable, tm.area, r)
      else if entry && SomeVisible(es, Generic) then PicksLargest(tm, es, Generic, tm.area, r)
      else if click && SomeVisible(es, Controls(tm)) then PicksLargest(tm, es, Controls(tm), Centred(tm), r)
      else r == None
  {
    EveryKindIsPicked(tm, obs.elements);
    NothingInView(Editable);
    NothingInView(Generic);
    NothingInView(Controls(tm));
    hide Best, Editable, Generic, Controls, SomeVisible, PicksLargest, ExpectedTexts, Centred, ByArea, ByCentre, Filter;
  }

  lemma NothingInView(kind: Element -> bool)
    ensures Filter([], kind) == []
  {
  }

  ghost predicate BestIsLargest(tm: TextModel, es: seq<Element>, kind: Element -> bool, key: Element -> Key,
                                size: Element -> real) {
    var kept := Filter(Filter(es, InView), kind);
    && (kept != [] <==> SomeVisible(es, kind))
    && (kept != [] ==> PicksLargest(tm, es, kind, size, Best(kept, key)))
  }

  lemma LargestIsPicked(tm: TextModel, es: seq<Element>, kind: Element -> bool, key: Element -> Key,
                        size: Element -> real)
    requires forall e :: key(e) == Key(size(e), 0)
    ensures BestIsLargest(tm, es, kind, key, size)
  {
    hide Best, Filter, SomeVisible;
    var k := LargestIsFound(tm, es, kind, key, size);
  }

  lemma EveryKindIsPicked(tm: TextModel, es: seq<Element>)
    ensures BestIsLargest(tm, es, Editable, ByArea(tm), tm.area)
    ensures BestIsLargest(tm, es, Generic, ByArea(tm), tm.area)
    ensures BestIsLargest(tm, es, Controls(tm), ByCentre(tm), Centred(tm))
  {
    hide BestIsLargest;
    LargestIsPicked(tm, es, Editable, ByArea(tm), tm.area);
    LargestIsPicked(tm, es, Generic, ByArea(tm), tm.area);
    LargestIsPicked(tm, es, Controls(tm), ByCentre(tm), Centred(tm));
  }

  // ----- the order of the ways

  /** Every other locator finds the first element that carries it, else the first that is like it, and only then what
      the overlap and the heuristics make of it. */
  lemma FirstMatchExactly(tm: TextModel, obs: Observation, loc: Locator) returns (k: nat)
    requires !loc.Semantic? && !loc.Index? && !loc.TextAny?
    ensures var es, r := obs.elements, ElementFor(tm, obs, loc);
      if exists e <- es :: e.locator == loc
      then k < |es| && r == Some(es[k]) && es[k].locator == loc && forall j :: 0 <= j < k ==> es[j].locator != loc
      else if exists e <- es :: tm.sameElement(e, loc)
      then k < |es| && r == Some(es[k]) && tm.sameElement(es[k], loc)
        && forall j :: 0 <= j < k ==> !tm.sameElement(es[j], loc)
      else r == if BestTokenOverlap(tm, es, loc).Some? then BestTokenOverlap(tm, es, loc)
                else SmartFallback(tm, obs, loc)
  {
    hide BestTokenOverlap, SmartFallback;
    k := 0;
    var same, alike := (e: Element) => e.locator == loc, (e: Element) => tm.sameElement(e, loc);
    if Find(obs.elements, same).Some? {
      k := FindIsFirst(obs.elements, same);
    } else if Find(obs.elements, alike).Some? {
      k := FindIsFirst(obs.elements, alike);
    }
  }

  // ----- the bound target

  ghost predicate LastWithId(es: seq<Element>, id: string, k: nat) {
    k < |es| && es[k].id == id && forall j :: k < j < |es| ==> es[j].id != id
  }

  lemma {:induction false} MapHoldsLast(es: seq<Element>, id: string, k: nat)
    requires LastWithId(es, id, k)
    ensures id in LocatorsOf(es) && LocatorsOf(es)[id] == es[k].locator
    ensures id in NamesOf(es) && NamesOf(es)[id] == es[k].name
  {
    if k < |es| - 1 {
      var before := es[..|es| - 1];
      assert forall j :: 0 <= j < |before| ==> before[j] == es[j];
      MapHoldsLast(before, id, k);
    }
  }

  /** On the map of the observation in hand a locator is bound to the id it finds, in that observation, with the
      locator and the name of the last element that has this id. */
  lemma TargetIsBound(tm: TextModel, obs: Observation, loc: Locator, k: nat)
    requires Found(tm, obs, loc) && LastWithId(obs.elements, FindByLocator(tm, obs, loc).value, k)
    ensures TargetIn(tm, IndexOf(obs), obs, loc)
      == Ok(BoundTarget(obs.elements[k].id, obs.observationId, obs.elements[k].locator, obs.elements[k].name))
  {
    MapHoldsLast(obs.elements, FindByLocator(tm, obs, loc).value, k);
    hide FindByLocator;
  }

  /** A rival is as actionable as the best candidate and less than a fifth behind it. */
  lemma RivalsExactly(tm: TextModel, es: seq<Element>, loc: Locator, k: nat)
    requires 0 < k < |Locators.Ranked(tm, es, loc)|
    ensures var best, other := Locators.Ranked(tm, es, loc)[0], Locators.Ranked(tm, es, loc)[k];
      Rivals(tm, es, loc, k) <==>
        && ActionableScore(tm, best) == ActionableScore(tm, other)
        && MatchScore(tm, best, ExpectedTexts(loc)) < MatchScore(tm, other, ExpectedTexts(loc)) + 0.2
  {
    hide Locators.Ranked, MatchScore, ActionableScore;
  }

  /** A locator expects the texts it names, and a role without a name expects none. */
  lemma ExpectedExactly(loc: Locator, text: string)
    requires !loc.Semantic?
    ensures text in ExpectedTexts(loc) <==>
      match loc
      case TextAny(texts) => text in texts
      case Text(t) => text == t
      case Label(t) => text == t
      case Placeholder(t) => text == t
      case TestId(t) => text == t
      case Role(_, name) => name == Some(text) && text != ""
      case _ => false
  {
  }
}
