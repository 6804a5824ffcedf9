/** From acceptance criteria, a diff and memory to required scenarios
    (src/application/services/demand-diff-memory-correlator.service.ts and the helpers it calls). */
module Correlator {
  import opened Domain
  import opened Lines
  import opened Correlation
  import opened MemoryChunks
  import opened Ranking
  import Digits = Text

  const MAX_SCENARIOS: nat := 10

  const MIN_OVERLAP_SCORE: real := 0.15

  datatype RiskKind = Regression | UncoveredCriterion | OtherRisk

  datatype Risk = Risk(kind: RiskKind, relatedFile: Option<string>, subject: string)

  datatype RequiredScenario = RequiredScenario(id: string, title: string, relatedFiles: seq<string>, riskScore: real)

  datatype BlockReason = NoCriteria | NoDiffSignal | NothingDerived

  datatype Notice = CapReached | BelowThreshold(criteria: seq<string>) | RoutesOnly | NoMemory

  datatype Correlated =
    | Blocked(reason: BlockReason, notices: seq<Notice>)
    | Derived(scenarios: seq<RequiredScenario>, matches: seq<Match>, risks: seq<Risk>, notices: seq<Notice>)

  // ----- the criteria

  /** Trimmed, without blanks and without repetitions. */
  function Consumed(criteria: seq<string>): seq<string> {
    if criteria == [] then [] else
    var before, last := Consumed(criteria[..|criteria| - 1]), Trim(criteria[|criteria| - 1]);
    if last == "" || last in before then before else before + [last]
  }

  ghost predicate Distinct<T>(s: seq<T>) {
    forall i, j :: 0 <= i < j < |s| ==> s[i] != s[j]
  }

  predicate IsTrimmed(criteria: seq<string>, c: string) {
    exists k <- criteria :: Trim(k) == c
  }

  lemma {:induction false} ConsumedExactly(criteria: seq<string>)
    ensures Distinct(Consumed(criteria))
    ensures forall c :: c in Consumed(criteria) <==> c != "" && IsTrimmed(criteria, c)
  {
    hide Trim;
    if criteria != [] {
      var before, last := criteria[..|criteria| - 1], criteria[|criteria| - 1];
      ConsumedExactly(before);
      assert criteria == before + [last];
      forall c
        ensures IsTrimmed(criteria, c) <==> Trim(last) == c || IsTrimmed(before, c)
      {
        assert last in criteria;
      }
    }
  }

  method ConsumeCriteria(criteria: seq<string>) returns (r: seq<string>)
    ensures r == Consumed(criteria)
  {
    hide Trim;
    var seen: set<string> := {};
    r := [];
    for i := 0 to |criteria|
      invariant r == Consumed(criteria[..i])
      invariant forall c :: c in seen <==> c in r
    {
      assert criteria[..i + 1][..i] == criteria[..i];
      var normalized := Trim(criteria[i]);
      if normalized == "" || normalized in seen {
        continue;
      }
      seen, r := seen + {normalized}, r + [normalized];
    }
    assert criteria[..|criteria|] == criteria;
  }

  // ----- the matches

  function MatchAll(criteria: seq<string>, diff: Diff, memory: seq<MemoryHit>, lex: Lexicon): (r: Outcome<seq<Match>>)
    ensures r.Ok? ==> |r.value| == |criteria|
  {
    if criteria == [] then Ok([]) else
    var before := MatchAll(criteria[..|criteria| - 1], diff, memory, lex);
    if before.Thrown? then before else
    var last := MatchOf(criteria[|criteria| - 1], diff, memory, lex);
    if last.Thrown? then Thrown(last.error) else Ok(before.value + [last.value])
  }

  lemma {:induction false} MatchesAreOfCriteria(criteria: seq<string>, diff: Diff, memory: seq<MemoryHit>, lex: Lexicon)
    ensures var r := MatchAll(criteria, diff, memory, lex);
      r.Ok? ==> forall i :: 0 <= i < |criteria| ==>
        MatchOf(criteria[i], diff, memory, lex) == Ok(r.value[i]) && r.value[i].criterion == criteria[i]
  {
    hide MatchOf;
    if criteria != [] {
      MatchesAreOfCriteria(criteria[..|criteria| - 1], diff, memory, lex);
      MatchKeepsCriterion(criteria[|criteria| - 1], diff, memory, lex);
    }
  }

  lemma MatchKeepsCriterion(criterion: string, diff: Diff, memory: seq<MemoryHit>, lex: Lexicon)
    ensures var r := MatchOf(criterion, diff, memory, lex);
      r.Ok? ==> r.value.criterion == criterion
  {
    hide Candidates, MemoryBoost, BestOf, RelatedFiles;
  }

  lemma {:induction false} EarlierThrowStays(criteria: seq<string>, n: nat, diff: Diff, memory: seq<MemoryHit>,
                                             lex: Lexicon)
    requires n <= |criteria| && MatchAll(criteria[..n], diff, memory, lex).Thrown?
    ensures MatchAll(criteria, diff, memory, lex) == MatchAll(criteria[..n], diff, memory, lex)
  {
    hide MatchOf;
    if n < |criteria| {
      assert criteria[..|criteria| - 1][..n] == criteria[..n];
      EarlierThrowStays(criteria[..|criteria| - 1], n, diff, memory, lex);
    } else {
      assert criteria[..n] == criteria;
    }
  }

  predicate IsUncovered(m: Match) {
    m.score < MIN_OVERLAP_SCORE
  }

  function UncoveredRisk(m: Match): Risk {
    Risk(UncoveredCriterion, None, m.criterion)
  }

  function UncoveredRisks(matches: seq<Match>): seq<Risk> {
    var uncovered := Filter(matches, IsUncovered);
    seq(|uncovered|, i requires 0 <= i < |uncovered| => UncoveredRisk(uncovered[i]))
  }

  lemma NothingUncovered()
    ensures UncoveredRisks([]) == []
  {
  }

  lemma UncoveredRisksLast(matches: seq<Match>, last: Match)
    ensures UncoveredRisks(matches + [last])
      == UncoveredRisks(matches) + if IsUncovered(last) then [UncoveredRisk(last)] else []
  {
    FilterAppend(matches, [last], IsUncovered);
    assert [last][1..] == [];
    assert Filter([last], IsUncovered) == if IsUncovered(last) then [last] else [];
  }

  method DetectUncovered(matches: seq<Match>) returns (risks: seq<Risk>)
    ensures risks == UncoveredRisks(matches)
  {
    hide UncoveredRisk, Filter;
    risks := [];
    NothingUncovered();
    for i := 0 to |matches|
      invariant risks == UncoveredRisks(matches[..i])
    {
      hide UncoveredRisks;
      assert matches[..i + 1] == matches[..i] + [matches[i]];
      UncoveredRisksLast(matches[..i], matches[i]);
      if matches[i].score >= MIN_OVERLAP_SCORE {
        continue;
      }
      risks := risks + [UncoveredRisk(matches[i])];
    }
    assert matches[..|matches|] == matches;
  }

  // ----- the ranking

  datatype Numbered = Numbered(index: nat, item: Match)

  function NumberedMatches(matches: seq<Match>): seq<Numbered> {
    seq(|matches|, i requires 0 <= i < |matches| => Numbered(i, matches[i]))
  }

  predicate IsCovered(n: Numbered) {
    !IsUncovered(n.item)
  }

  function RankKey(n: Numbered): Key {
    Key(n.item.score, 0 - n.index)
  }

  /** By descending score, and in the order of the criteria where scores are equal. */
  function RankedMatches(matches: seq<Match>): seq<Numbered> {
    Sort(Filter(NumberedMatches(matches), IsCovered), RankKey)
  }

  function Top<T>(s: seq<T>, n: nat): seq<T> {
    if |s| <= n then s else s[..n]
  }

  function Truncate(s: string, max: nat): string
    requires max > 0
  {
    if |s| <= max then s else s[..max - 1] + "\U{2026}"
  }

  /** A scenario is riskier the worse its criterion matches, and by a quarter when a file regresses. */
  function RiskScore(m: Match, risks: seq<Risk>): (r: real)
    ensures 0.0 <= r <= 1.0
  {
    var base := 1.0 - Min(1.0, m.score);
    var regresses := exists f <- m.relatedFiles ::
      exists k <- risks :: k.relatedFile == Some(f) && k.kind == Regression;
    Min(1.0, Max(0.0, base + if regresses then 0.25 else 0.0))
  }

  function ScenarioOf(number: nat, m: Match, risks: seq<Risk>): RequiredScenario {
    RequiredScenario("required-scenario-" + Digits.Decimal(number), Truncate(m.criterion, 100), m.relatedFiles,
                     RiskScore(m, risks))
  }

  function ScenariosOf(included: seq<Numbered>, risks: seq<Risk>): seq<RequiredScenario> {
    seq(|included|, i requires 0 <= i < |included| => ScenarioOf(i + 1, included[i].item, risks))
  }

  // ----- routes only

  function RouteFiles(diff: Diff, route: string, lex: Lexicon): seq<ChangedFile> {
    Filter(diff.files, (f: ChangedFile) => f.kind.RouteFile? || WithoutSlash(route) in lex.pathWords(f.path))
  }

  function RouteScenario(number: nat, route: string, diff: Diff, lex: Lexicon): RequiredScenario {
    var files := RouteFiles(diff, route, lex);
    RequiredScenario("required-scenario-route-" + Digits.Decimal(number), "Validate affected route " + route,
                     seq(|files|, i requires 0 <= i < |files| => files[i].path), if files != [] then 0.6 else 0.8)
  }

  function RouteScenarios(diff: Diff, lex: Lexicon): seq<RequiredScenario> {
    if diff.files == [] then [] else
    seq(|diff.routes|, i requires 0 <= i < |diff.routes| => RouteScenario(i + 1, diff.routes[i], diff, lex))
  }

  // ----- the correlation

  predicate IsCorrelationChunk(h: MemoryHit) {
    h.chunk.kind in {Route, Flow, Scenario}
  }

  function CriteriaBelow(matches: seq<Match>): seq<string> {
    var below := Filter(matches, IsUncovered);
    seq(|below|, i requires 0 <= i < |below| => Truncate(below[i].criterion, 80))
  }

  function NoticesOf(matches: seq<Match>): seq<Notice> {
    (if |RankedMatches(matches)| >= MAX_SCENARIOS then [CapReached] else [])
    + (if CriteriaBelow(matches) != [] then [BelowThreshold(CriteriaBelow(matches))] else [])
  }

  function MemoryNotice(results: seq<MemoryHit>): seq<Notice> {
    if results == [] then [NoMemory] else []
  }

  /** What is derived once every criterion has its match. */
  function Derivation(matches: seq<Match>, diff: Diff, results: seq<MemoryHit>, earlier: seq<Risk>,
                      lex: Lexicon): Correlated {
    var risks := earlier + UncoveredRisks(matches);
    var scenarios, notices := ScenariosOf(Top(RankedMatches(matches), MAX_SCENARIOS), risks), NoticesOf(matches);
    if scenarios != [] then Derived(scenarios, matches, risks, notices + MemoryNotice(results)) else
    var routes := RouteScenarios(diff, lex);
    if routes == [] then Blocked(NothingDerived, notices) else
    Derived(Top(routes, MAX_SCENARIOS), matches, risks, notices + [RoutesOnly] + MemoryNotice(results))
  }

  /** `earlier` are the risks found in the diff alone. */
  function CorrelationOf(criteria: seq<string>, diff: Diff, results: seq<MemoryHit>, earlier: seq<Risk>,
                         lex: Lexicon): Outcome<Correlated> {
    var consumed := Consumed(criteria);
    if consumed == [] then Ok(Blocked(NoCriteria, []))
    else if diff.files == [] && diff.routes == [] && diff.schemas == [] then Ok(Blocked(NoDiffSignal, [])) else
    var matches := MatchAll(consumed, diff, Filter(results, IsCorrelationChunk), lex);
    if matches.Thrown? then Thrown(matches.error) else Ok(Derivation(matches.value, diff, results, earlier, lex))
  }

  /** The ranking loop: one scenario per criterion until the cap is reached. */
  method RankScenarios(matches: seq<Match>, risks: seq<Risk>) returns (scenarios: seq<RequiredScenario>, capped: bool)
    requires forall i, j :: 0 <= i < j < |matches| ==> matches[i].criterion != matches[j].criterion
    ensures scenarios == ScenariosOf(Top(RankedMatches(matches), MAX_SCENARIOS), risks)
    ensures capped <==> |RankedMatches(matches)| >= MAX_SCENARIOS
  {
    hide ScenarioOf, RankedMatches;
    var ranked := RankedMatches(matches);
    RankedAreDistinct(matches);
    var seen: set<string> := {};
    scenarios, capped := [], false;
    for i := 0 to |ranked|
      invariant i < MAX_SCENARIOS && !capped
      invariant scenarios == ScenariosOf(ranked[..i], risks)
      invariant forall c :: c in seen ==> exists j :: 0 <= j < i && ranked[j].item.criterion == c
    {
      var m := ranked[i].item;
      if m.criterion in seen {
        continue;
      }
      seen := seen + {m.criterion};
      scenarios := scenarios + [ScenarioOf(|scenarios| + 1, m, risks)];
      if |scenarios| >= MAX_SCENARIOS {
        capped := true;
        break;
      }
    }
    assert capped || ranked[..|ranked|] == ranked;
  }

  lemma {:induction false} FilterKeepsDistinct<T(!new)>(s: seq<T>, p: T -> bool)
    requires Distinct(s)
    ensures Distinct(Filter(s, p))
  {
    if s != [] {
      FilterKeepsDistinct(s[1..], p);
    }
  }

  lemma {:induction false} DistinctExactly<T>(s: seq<T>)
    ensures Distinct(s) <==> forall x :: multiset(s)[x] <= 1
  {
    if s != [] {
      var head, rest := s[0], s[1..];
      DistinctExactly(rest);
      assert s == [head] + rest;
      assert multiset(s) == multiset{head} + multiset(rest);
      assert Distinct(s) <==> head !in rest && Distinct(rest) by {
        DistinctHead(s);
      }
      assert head in rest <==> multiset(rest)[head] >= 1 by {
        assert head in rest <==> head in multiset(rest);
      }
      assert forall x :: x != head ==> multiset(s)[x] == multiset(rest)[x];
      assert multiset(s)[head] == multiset(rest)[head] + 1;
    }
  }

  lemma DistinctHead<T>(s: seq<T>)
    requires s != []
    ensures Distinct(s) <==> s[0] !in s[1..] && Distinct(s[1..])
  {
    if s[0] !in s[1..] && Distinct(s[1..]) {
      forall i, j | 0 <= i < j < |s|
        ensures s[i] != s[j]
      {
        assert s[j] == s[1..][j - 1];
        assert i > 0 ==> s[i] == s[1..][i - 1];
      }
    }
    if Distinct(s) {
      forall j | 0 <= j < |s[1..]|
        ensures s[1..][j] != s[0]
      {
        assert s[1..][j] == s[j + 1];
      }
    }
  }

  /** Every match that is good enough is ranked, once, and nothing else is. */
  lemma RankedAreDistinct(matches: seq<Match>)
    ensures var r := RankedMatches(matches);
      && (forall i, j :: 0 <= i < j < |r| ==> r[i].index != r[j].index)
      && (forall n <- r :: n.index < |matches| && n.item == matches[n.index] && !IsUncovered(n.item))
      && (forall k :: 0 <= k < |matches| && !IsUncovered(matches[k]) ==> Numbered(k, matches[k]) in r)
  {
    hide Sort, Filter;
    var numbered := NumberedMatches(matches);
    var kept := Filter(numbered, IsCovered);
    var r := RankedMatches(matches);
    FilterKeepsDistinct(numbered, IsCovered);
    DistinctExactly(kept);
    SortIsSorted(kept, RankKey);
    DistinctExactly(r);
    forall n: Numbered
      ensures n in r <==> n in numbered && IsCovered(n)
    {
      SortKeepsMembers(kept, RankKey, n);
    }
    assert forall k :: 0 <= k < |matches| ==> numbered[k] == Numbered(k, matches[k]);
    forall i, j | 0 <= i < j < |r|
      ensures r[i].index != r[j].index
    {
      assert r[i] in numbered && r[j] in numbered;
    }
  }

  /** The ranking is by score, and by the order of the criteria where scores are equal. */
  lemma RankedOrder(matches: seq<Match>)
    ensures var r := RankedMatches(matches);
      forall i, j :: 0 <= i < j < |r| ==>
        r[i].item.score > r[j].item.score || (r[i].item.score == r[j].item.score && r[i].index < r[j].index)
  {
    hide Sort, Filter;
    var r := RankedMatches(matches);
    RankedAreDistinct(matches);
    SortIsSorted(Filter(NumberedMatches(matches), IsCovered), RankKey);
    forall i, j | 0 <= i < j < |r|
      ensures r[i].item.score > r[j].item.score || (r[i].item.score == r[j].item.score && r[i].index < r[j].index)
    {
      assert !Above(RankKey(r[j]), RankKey(r[i]));
    }
  }

  function Included(matches: seq<Match>): seq<Numbered> {
    Top(RankedMatches(matches), MAX_SCENARIOS)
  }

  function Omitted(matches: seq<Match>): seq<Numbered> {
    var ranked := RankedMatches(matches);
    ranked[|Top(ranked, MAX_SCENARIOS)|..]
  }

  /** Each criterion is exactly one of uncovered, required, or omitted by the cap; and what the cap omits
      never scores more than what is required. */
  lemma CriteriaArePartitioned(matches: seq<Match>, k: nat)
    requires k < |matches|
    ensures var n, included, omitted := Numbered(k, matches[k]), Included(matches), Omitted(matches);
      && (IsUncovered(matches[k]) ==> n !in included && n !in omitted)
      && (!IsUncovered(matches[k]) ==> (n in included <==> n !in omitted))
      && (n in omitted ==> |included| == MAX_SCENARIOS && forall i <- included :: i.item.score >= matches[k].score)
  {
    hide RankedMatches;
    var n, ranked := Numbered(k, matches[k]), RankedMatches(matches);
    var included := Included(matches);
    RankedAreDistinct(matches);
    RankedOrder(matches);
    assert forall i :: 0 <= i < |included| ==> included[i] == ranked[i];
    assert n in ranked ==> n in included || n in Omitted(matches) by {
      assert ranked == included + Omitted(matches);
    }
    if n in Omitted(matches) {
      var j :| 0 <= j < |Omitted(matches)| && Omitted(matches)[j] == n;
      assert ranked[|included| + j] == n;
    }
  }

  lemma {:induction false} FilterSplits<T(!new)>(s: seq<T>, p: T -> bool, q: T -> bool)
    requires forall x <- s :: p(x) <==> !q(x)
    ensures |Filter(s, p)| + |Filter(s, q)| == |s|
  {
    if s != [] {
      FilterSplits(s[1..], p, q);
      assert s[0] in s;
    }
  }

  lemma {:induction false} NumberedFilter(matches: seq<Match>, start: nat)
    ensures |Filter(seq(|matches|, i requires 0 <= i < |matches| => Numbered(start + i, matches[i])), IsCovered)|
      + |Filter(matches, IsUncovered)| == |matches|
  {
    var numbered := seq(|matches|, i requires 0 <= i < |matches| => Numbered(start + i, matches[i]));
    if matches != [] {
      var rest := matches[1..];
      NumberedFilter(rest, start + 1);
      assert numbered[1..] == seq(|rest|, i requires 0 <= i < |rest| => Numbered(start + 1 + i, rest[i]));
    }
  }

  /** No criterion is lost: the risks for uncovered criteria, the required scenarios and the omitted criteria
      add up to all of them. */
  lemma CriteriaAddUp(matches: seq<Match>)
    ensures |UncoveredRisks(matches)| + |Included(matches)| + |Omitted(matches)| == |matches|
  {
    hide Sort;
    NumberedFilter(matches, 0);
    assert NumberedMatches(matches) == seq(|matches|, i requires 0 <= i < |matches| => Numbered(0 + i, matches[i]));
    SortIsSorted(Filter(NumberedMatches(matches), IsCovered), RankKey);
  }

  predicate SomeCovered(matches: seq<Match>) {
    exists m <- matches :: !IsUncovered(m)
  }

  lemma RankedExactly(matches: seq<Match>)
    ensures RankedMatches(matches) != [] <==> SomeCovered(matches)
  {
    hide RankedMatches;
    RankedAreDistinct(matches);
    var r := RankedMatches(matches);
    if r != [] {
      assert r[0] in r && matches[r[0].index] in matches;
    }
    if SomeCovered(matches) {
      var m :| m in matches && !IsUncovered(m);
      var k :| 0 <= k < |matches| && matches[k] == m;
      assert Numbered(k, matches[k]) in r;
    }
  }

  /** Scenarios are derived exactly when some criterion is covered or some route is affected beside a changed
      file, and then there are between one and ten of them. */
  lemma OutcomesExactly(criteria: seq<string>, diff: Diff, results: seq<MemoryHit>, earlier: seq<Risk>, lex: Lexicon)
    ensures var r := CorrelationOf(criteria, diff, results, earlier, lex);
      var matches := MatchAll(Consumed(criteria), diff, Filter(results, IsCorrelationChunk), lex);
      && (r.Ok? && r.value.Derived? ==> 1 <= |r.value.scenarios| <= MAX_SCENARIOS && matches == Ok(r.value.matches))
      && (r.Ok? && r.value.Derived? <==>
            && Consumed(criteria) != []
            && (diff.files != [] || diff.routes != [] || diff.schemas != [])
            && matches.Ok?
            && (SomeCovered(matches.value) || (diff.files != [] && diff.routes != [])))
  {
    hide RankedMatches, MatchOf, ScenarioOf, RouteScenario, NoticesOf, SomeCovered, Consumed, Filter, UncoveredRisks;
    var matches := MatchAll(Consumed(criteria), diff, Filter(results, IsCorrelationChunk), lex);
    if matches.Ok? {
      RankedExactly(matches.value);
    }
  }

  lemma RelevantCriteriaNeverThrow(criteria: seq<string>, diff: Diff, memory: seq<MemoryHit>, lex: Lexicon)
    requires forall c <- criteria :: c != ""
    requires forall h <- memory :: h.relevance >= 0.0
    ensures MatchAll(criteria, diff, memory, lex).Ok?
  {
    hide MatchOf;
    if criteria != [] {
      var before, last := criteria[..|criteria| - 1], criteria[|criteria| - 1];
      assert last in criteria && forall c <- before :: c in criteria;
      RelevantCriteriaNeverThrow(before, diff, memory, lex);
      RelevantMemoryNeverThrows(last, diff, memory, lex);
    }
  }

  /** With memory of non-negative relevance the correlation never throws, and every score it reports is
      between zero and one. */
  lemma RelevantMemoryCorrelates(criteria: seq<string>, diff: Diff, results: seq<MemoryHit>, earlier: seq<Risk>,
                                 lex: Lexicon)
    requires forall h <- results :: h.relevance >= 0.0
    ensures var r := CorrelationOf(criteria, diff, results, earlier, lex);
      r.Ok? && (r.value.Derived? ==> forall m <- r.value.matches :: 0.0 <= m.score <= 1.0)
  {
    hide MatchOf, Derivation, Consumed, MatchAll, IsTrimmed;
    var consumed, memory := Consumed(criteria), Filter(results, IsCorrelationChunk);
    ConsumedExactly(criteria);
    RelevantCriteriaNeverThrow(consumed, diff, memory, lex);
    var matches := MatchAll(consumed, diff, memory, lex).value;
    MatchesAreOfCriteria(consumed, diff, memory, lex);
    forall m | m in matches
      ensures 0.0 <= m.score <= 1.0
    {
      var i :| 0 <= i < |matches| && matches[i] == m;
      assert consumed[i] in consumed;
      MatchThrowsExactly(consumed[i], diff, memory, lex);
    }
    DerivationKeepsMatches(matches, diff, results, earlier, lex);
  }

  lemma DerivationKeepsMatches(matches: seq<Match>, diff: Diff, results: seq<MemoryHit>, earlier: seq<Risk>,
                               lex: Lexicon)
    ensures var d := Derivation(matches, diff, results, earlier, lex);
      d.Derived? ==> d.matches == matches
  {
  }

  method Correlate(criteria: seq<string>, diff: Diff, results: seq<MemoryHit>, earlier: seq<Risk>, lex: Lexicon)
    returns (r: Outcome<Correlated>)
    ensures r == CorrelationOf(criteria, diff, results, earlier, lex)
  {
    hide MatchOf, RankedMatches, ScenarioOf, RouteScenario, Consumed, IsTrimmed;
    var consumed := ConsumeCriteria(criteria);
    if consumed == [] {
      return Ok(Blocked(NoCriteria, []));
    }
    if diff.files == [] && diff.routes == [] && diff.schemas == [] {
      return Ok(Blocked(NoDiffSignal, []));
    }
    var memory := Filter(results, IsCorrelationChunk);
    var matches: seq<Match> := [];
    for i := 0 to |consumed|
      invariant MatchAll(consumed[..i], diff, memory, lex) == Ok(matches)
    {
      assert consumed[..i + 1][..i] == consumed[..i];
      var m := CorrelateCriterion(consumed[i], diff, memory, lex);
      if m.Thrown? {
        EarlierThrowStays(consumed, i + 1, diff, memory, lex);
        return Thrown(m.error);
      }
      matches := matches + [m.value];
    }
    assert consumed[..|consumed|] == consumed;
    ConsumedExactly(criteria);
    MatchesAreOfCriteria(consumed, diff, memory, lex);
    var uncovered := DetectUncovered(matches);
    var risks := earlier + uncovered;
    var scenarios, capped := RankScenarios(matches, risks);
    var notices := if capped then [CapReached] else [];
    if CriteriaBelow(matches) != [] {
      notices := notices + [BelowThreshold(CriteriaBelow(matches))];
    }
    assert notices == NoticesOf(matches);
    if scenarios == [] {
      var routes := RouteScenarios(diff, lex);
      if routes != [] {
        notices := notices + [RoutesOnly];
      }
      scenarios := Top(routes, MAX_SCENARIOS);
    }
    if scenarios == [] {
      return Ok(Blocked(NothingDerived, notices));
    }
    assert notices + [] == notices;
    if results == [] {
      notices := notices + [NoMemory];
    }
    return Ok(Derived(scenarios, matches, risks, notices));
  }
}
