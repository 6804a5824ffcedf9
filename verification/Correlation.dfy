/** How well one acceptance criterion matches a pull request (src/domain/helpers/criterion-diff-correlator.ts,
    src/domain/helpers/correlation-lexical.ts). */
module Correlation {
  import opened Domain
  import opened MemoryChunks
  import opened Ranking

  datatype FileKind = RouteFile | SchemaFile | OtherFile

  datatype ChangedFile = ChangedFile(path: string, kind: FileKind)

  datatype Diff = Diff(files: seq<ChangedFile>, routes: seq<string>, schemas: seq<string>)

  datatype MemoryHit = MemoryHit(chunk: Chunk, relevance: real)

  /** The ways a text is taken apart, whatever they are. */
  datatype Lexicon = Lexicon(words: string -> set<string>, pathWords: string -> set<string>, lower: string -> string)

  function Min(a: real, b: real): real {
    if a <= b then a else b
  }

  function Max(a: real, b: real): real {
    if a >= b then a else b
  }

  // ----- overlap

  /** The share of the left tokens that the right has too. */
  function Overlap(left: set<string>, right: set<string>): real {
    if left == {} || right == {} then 0.0 else |left * right| as real / |left| as real
  }

  lemma OverlapExactly(left: set<string>, right: set<string>)
    ensures 0.0 <= Overlap(left, right) <= 1.0
    ensures Overlap(left, right) > 0.0 <==> left * right != {}
    ensures Overlap(left, right) == 1.0 <==> left != {} && left <= right
  {
    if left != {} && right != {} {
      var both := left * right;
      Subset(both, left);
      var n, m := |both| as real, |left| as real;
      assert 0.0 <= n <= m && m > 0.0;
      Quotient(n, m);
      if |both| == |left| {
        SameSize(both, left);
      }
      if left <= right {
        assert both == left;
      }
    }
  }

  lemma Quotient(n: real, m: real)
    requires 0.0 <= n <= m && m > 0.0
    ensures 0.0 <= n / m <= 1.0
    ensures n / m > 0.0 <==> n > 0.0
    ensures n / m == 1.0 <==> n == m
  {
    assert n / m * m == n;
  }

  lemma {:induction false} Subset<T>(a: set<T>, b: set<T>)
    requires a <= b
    ensures |a| <= |b|
  {
    if a != {} {
      var x :| x in a;
      Subset(a - {x}, b - {x});
    }
  }

  lemma SameSize<T>(a: set<T>, b: set<T>)
    requires a <= b && |a| == |b|
    ensures a == b
  {
    assert |b - a| == |b| - |a| by {
      assert b == a + (b - a);
    }
  }

  method CountShared(left: set<string>, right: set<string>) returns (matches: nat)
    ensures matches == |left * right|
  {
    ghost var shared: set<string> := {};
    var rest := left;
    matches := 0;
    while rest != {}
      invariant rest <= left
      invariant shared == (left - rest) * right && matches == |shared|
      decreases |rest|
    {
      var token :| token in rest;
      rest := rest - {token};
      if token in right {
        assert token !in shared;
        matches, shared := matches + 1, shared + {token};
      }
    }
    assert shared == left * right;
  }

  method OverlapScore(left: set<string>, right: set<string>) returns (score: real)
    ensures score == Overlap(left, right)
  {
    if left == {} || right == {} {
      return 0.0;
    }
    var matches := CountShared(left, right);
    score := matches as real / |left| as real;
  }

  // ----- the best match

  datatype Candidate = Candidate(score: real, file: Option<string>)

  function Includes(text: string, part: string): bool {
    exists i :: 0 <= i <= |text| && part <= text[i..]
  }

  function EndsWith(text: string, part: string): bool {
    |part| <= |text| && text[|text| - |part|..] == part
  }

  function WithoutSlash(route: string): string {
    if "/" <= route then route[1..] else route
  }

  /** The route file that matches a route best, the first of equals. */
  function BestRouteFile(files: seq<ChangedFile>, words: set<string>, lex: Lexicon): (best: Option<Candidate>)
    ensures best.Some? ==> best.value.file.Some?
  {
    if files == [] then None else
    var best := BestRouteFile(files[..|files| - 1], words, lex);
    var file := files[|files| - 1];
    var score := Overlap(words, lex.pathWords(file.path));
    if file.kind.RouteFile? && score > 0.0 && (best.None? || score > best.value.score)
    then Some(Candidate(score, Some(file.path))) else best
  }

  function FileForRoute(files: seq<ChangedFile>, route: string, lex: Lexicon): Option<string> {
    var best := BestRouteFile(files, lex.pathWords(WithoutSlash(route)), lex);
    if best.Some? then best.value.file else
    var slug := lex.lower(WithoutSlash(route));
    if slug == "" then None else
    match Find(files, (f: ChangedFile) => f.kind.RouteFile? && Includes(lex.lower(f.path), slug))
      case Some(f) => Some(f.path)
      case None => None
  }

  function FileForSchema(files: seq<ChangedFile>, schema: string, lex: Lexicon): Option<string> {
    match Find(files, (f: ChangedFile) => f.kind.SchemaFile? && EndsWith(f.path, schema + ".schema.ts"))
      case Some(f) => Some(f.path)
      case None =>
        match Find(files, (f: ChangedFile) =>
          f.kind.SchemaFile? && Overlap(lex.pathWords(schema), lex.pathWords(f.path)) > 0.0)
          case Some(f) => Some(f.path)
          case None => None
  }

  function FileCandidate(words: set<string>, file: ChangedFile, lex: Lexicon): Candidate {
    Candidate(Overlap(words, lex.pathWords(file.path)), Some(file.path))
  }

  function RouteCandidate(words: set<string>, route: string, diff: Diff, lex: Lexicon): Candidate {
    Candidate(Overlap(words, lex.words(route)), FileForRoute(diff.files, route, lex))
  }

  function SchemaCandidate(words: set<string>, schema: string, diff: Diff, lex: Lexicon): Candidate {
    var file := FileForSchema(diff.files, schema, lex);
    if file.Some? && file.value != "" then Candidate(Overlap(words, lex.pathWords(file.value)), file)
    else Candidate(Overlap(words, lex.words(schema + " schema")), None)
  }

  function FileCandidates(words: set<string>, diff: Diff, lex: Lexicon): seq<Candidate> {
    seq(|diff.files|, i requires 0 <= i < |diff.files| => FileCandidate(words, diff.files[i], lex))
  }

  function RouteCandidates(words: set<string>, diff: Diff, lex: Lexicon): seq<Candidate> {
    seq(|diff.routes|, i requires 0 <= i < |diff.routes| => RouteCandidate(words, diff.routes[i], diff, lex))
  }

  function SchemaCandidates(words: set<string>, diff: Diff, lex: Lexicon): seq<Candidate> {
    seq(|diff.schemas|, i requires 0 <= i < |diff.schemas| => SchemaCandidate(words, diff.schemas[i], diff, lex))
  }

  /** Everything a criterion is compared with, in the order it is compared. */
  function Candidates(words: set<string>, diff: Diff, lex: Lexicon): seq<Candidate> {
    FileCandidates(words, diff, lex) + RouteCandidates(words, diff, lex) + SchemaCandidates(words, diff, lex)
  }

  function ApplyBestMatch(state: Candidate, candidate: Candidate): Candidate {
    if candidate.score <= state.score then state else candidate
  }

  function BestOf(candidates: seq<Candidate>): Candidate {
    if candidates == [] then Candidate(0.0, None)
    else ApplyBestMatch(BestOf(candidates[..|candidates| - 1]), candidates[|candidates| - 1])
  }

  /** The best match is the first candidate with the highest score, and none at all when all score zero. */
  lemma {:induction false} BestIsFirstMaximum(candidates: seq<Candidate>)
    ensures var best := BestOf(candidates);
      && best.score >= 0.0
      && (forall c <- candidates :: c.score <= best.score)
      && (best.score == 0.0 ==> best.file == None)
      && (best.score > 0.0 ==>
            exists i :: 0 <= i < |candidates| && candidates[i] == best
              && forall j :: 0 <= j < i ==> candidates[j].score < best.score)
  {
    if candidates != [] {
      var before, last := candidates[..|candidates| - 1], candidates[|candidates| - 1];
      BestIsFirstMaximum(before);
      assert candidates == before + [last];
      var best := BestOf(before);
      if last.score > best.score {
        assert candidates[|before|] == BestOf(candidates);
        assert forall j :: 0 <= j < |before| ==> candidates[j] in before;
      } else if best.score > 0.0 {
        var i :| 0 <= i < |before| && before[i] == best && forall j :: 0 <= j < i ==> before[j].score < best.score;
        assert candidates[i] == best && forall j :: 0 <= j < i ==> candidates[j] == before[j];
      }
    }
  }

  lemma CandidatesScore(words: set<string>, diff: Diff, lex: Lexicon)
    ensures forall c <- Candidates(words, diff, lex) :: 0.0 <= c.score <= 1.0
  {
    hide Overlap, FileForRoute, FileForSchema;
    forall a: set<string>, b: set<string>
      ensures 0.0 <= Overlap(a, b) <= 1.0
    {
      OverlapExactly(a, b);
    }
  }

  // ----- memory

  function RouteHit(chunk: Chunk, diff: Diff, lex: Lexicon): bool {
    exists r <- diff.routes ::
      Includes(chunk.content, r) || Includes(chunk.title, r) || Overlap(lex.words(r), lex.words(chunk.content)) > 0.0
  }

  function CriterionHit(words: set<string>, chunk: Chunk, lex: Lexicon): bool {
    Overlap(words, lex.words(chunk.title + " " + chunk.content)) > 0.0
  }

  function BoostOf(hit: MemoryHit, diff: Diff, lex: Lexicon): real {
    if RouteHit(hit.chunk, diff, lex) then Min(0.35, hit.relevance * 0.1 + 0.1)
    else Min(0.25, hit.relevance * 0.1 + 0.05)
  }

  datatype Boost = Boost(amount: real, chunk: string, relevance: real)

  function BetterBoost(best: Option<Boost>, candidate: Boost): Boost {
    if best.None? || candidate.amount > best.value.amount
       || (candidate.amount == best.value.amount && candidate.relevance > best.value.relevance)
    then candidate else best.value
  }

  /** The strongest boost among the chunks that touch the criterion. */
  function MemoryBoost(words: set<string>, diff: Diff, memory: seq<MemoryHit>, lex: Lexicon): Option<Boost> {
    if memory == [] then None else
    var best, hit := MemoryBoost(words, diff, memory[..|memory| - 1], lex), memory[|memory| - 1];
    if CriterionHit(words, hit.chunk, lex)
    then Some(BetterBoost(best, Boost(BoostOf(hit, diff, lex), hit.chunk.id, hit.relevance)))
    else best
  }

  lemma {:induction false} BoostIsMaximum(words: set<string>, diff: Diff, memory: seq<MemoryHit>, lex: Lexicon)
    ensures var best := MemoryBoost(words, diff, memory, lex);
      && (best.None? <==> forall h <- memory :: !CriterionHit(words, h.chunk, lex))
      && (best.Some? ==>
          forall h <- memory :: CriterionHit(words, h.chunk, lex) ==> BoostOf(h, diff, lex) <= best.value.amount)
      && (best.Some? ==>
          exists h <- memory :: CriterionHit(words, h.chunk, lex) && BoostOf(h, diff, lex) == best.value.amount)
  {
    hide CriterionHit, BoostOf;
    if memory != [] {
      var before, hit := memory[..|memory| - 1], memory[|memory| - 1];
      BoostIsMaximum(words, diff, before, lex);
      assert memory == before + [hit];
      assert hit in memory && forall h <- before :: h in memory;
    }
  }

  // ----- related files

  datatype Entry = Entry(path: string, score: real)

  /** Keep the highest score of a path, at the place where it was first met. */
  function SetMax(entries: seq<Entry>, path: string, score: real): seq<Entry> {
    if entries == [] then [Entry(path, Max(0.0, score))]
    else if entries[0].path == path then [Entry(path, Max(entries[0].score, score))] + entries[1..]
    else [entries[0]] + SetMax(entries[1..], path, score)
  }

  function Mention(c: Candidate): seq<Entry> {
    if c.score > 0.0 && c.file.Some? && c.file.value != "" then [Entry(c.file.value, c.score)] else []
  }

  function Scored(candidates: seq<Candidate>): seq<Entry> {
    if candidates == [] then [] else
    var before, last := Scored(candidates[..|candidates| - 1]), candidates[|candidates| - 1];
    if Mention(last) == [] then before else SetMax(before, last.file.value, last.score)
  }

  function EntryKey(e: Entry): Key {
    Key(e.score, 0)
  }

  const MAX_RELATED_FILES: nat := 5

  function RelatedFiles(candidates: seq<Candidate>): seq<string> {
    var ranked := Sort(Scored(candidates), EntryKey);
    var n := if |ranked| < MAX_RELATED_FILES then |ranked| else MAX_RELATED_FILES;
    seq(n, i requires 0 <= i < n => ranked[i].path)
  }

  ghost predicate DistinctPaths(entries: seq<Entry>) {
    forall i, j :: 0 <= i < j < |entries| ==> entries[i].path != entries[j].path
  }

  lemma {:induction false} SetMaxSets(entries: seq<Entry>, path: string, score: real)
    requires DistinctPaths(entries) && score > 0.0
    ensures var r := SetMax(entries, path, score);
      && DistinctPaths(r)
      && (forall e <- r :: e.path != path ==> e in entries)
      && (forall e <- entries :: e.path != path ==> e in r)
      && (exists e <- r :: e.path == path)
      && (forall e <- r :: e.path == path ==> e.score >= score)
      && (forall e, o :: e in r && e.path == path && o in entries && o.path == path ==> e.score >= o.score)
      && (forall e <- r :: e.path == path ==> e.score == score || e in entries)
  {
    if entries == [] {
    } else if entries[0].path == path {
      assert forall e <- entries[1..] :: e.path != path;
      assert entries == [entries[0]] + entries[1..];
      assert SetMax(entries, path, score)[0].path == path;
    } else {
      assert entries == [entries[0]] + entries[1..];
      SetMaxSets(entries[1..], path, score);
      var r := SetMax(entries[1..], path, score);
      assert entries[0] in entries;
      forall e | e in r
        ensures e.path != entries[0].path
      {
        if e.path != path {
          assert e in entries[1..];
        }
      }
      assert SetMax(entries, path, score) == [entries[0]] + r;
      assert forall e <- r :: e in [entries[0]] + r;
    }
  }

  ghost predicate ComesFrom(entries: seq<Entry>, candidates: seq<Candidate>) {
    forall e <- entries :: exists c <- candidates :: Mention(c) == [e]
  }

  ghost predicate Covers(entries: seq<Entry>, candidates: seq<Candidate>) {
    forall c <- candidates :: Mention(c) != [] ==> exists e <- entries :: e.path == c.file.value && e.score >= c.score
  }

  /** The related files of a criterion: each path that matches at all, once, with the best of its scores. */
  lemma {:induction false} ScoredExactly(candidates: seq<Candidate>)
    ensures DistinctPaths(Scored(candidates))
    ensures ComesFrom(Scored(candidates), candidates)
    ensures Covers(Scored(candidates), candidates)
  {
    hide Mention, SetMax, ComesFrom, Covers, DistinctPaths;
    NothingScored();
    if candidates != [] {
      var before, last := candidates[..|candidates| - 1], candidates[|candidates| - 1];
      ScoredExactly(before);
      assert candidates == before + [last];
      if Mention(last) == [] {
        NoMentionMore(Scored(before), before, last);
      } else {
        MentionMore(Scored(before), before, last);
      }
    }
  }

  lemma NothingScored()
    ensures DistinctPaths([]) && ComesFrom([], []) && Covers([], [])
  {
  }

  lemma NoMentionMore(entries: seq<Entry>, before: seq<Candidate>, last: Candidate)
    requires ComesFrom(entries, before) && Covers(entries, before) && Mention(last) == []
    ensures ComesFrom(entries, before + [last]) && Covers(entries, before + [last])
  {
    forall e | e in entries
      ensures exists c <- before + [last] :: Mention(c) == [e]
    {
      var c :| c in before && Mention(c) == [e];
      assert c in before + [last];
    }
  }

  lemma MentionMore(entries: seq<Entry>, before: seq<Candidate>, last: Candidate)
    requires ComesFrom(entries, before) && Covers(entries, before) && DistinctPaths(entries) && Mention(last) != []
    ensures var r := SetMax(entries, last.file.value, last.score);
      DistinctPaths(r) && ComesFrom(r, before + [last]) && Covers(r, before + [last])
  {
    var path := last.file.value;
    var r := SetMax(entries, path, last.score);
    SetMaxSets(entries, path, last.score);
    SetMaxScore(entries, path, last.score);
    hide SetMax, DistinctPaths;
    forall e | e in r
      ensures exists c <- before + [last] :: Mention(c) == [e]
    {
      if e in entries {
        var c :| c in before && Mention(c) == [e];
        assert c in before + [last];
      } else {
        assert last in before + [last] && Mention(last) == [e];
      }
    }
    forall c | c in before + [last] && Mention(c) != []
      ensures exists e <- r :: e.path == c.file.value && e.score >= c.score
    {
      var k :| k in r && k.path == path;
      if c in before {
        var e :| e in entries && e.path == c.file.value && e.score >= c.score;
        assert e.path == path ==> k.score >= e.score;
      }
    }
  }

  lemma {:induction false} SetMaxScore(entries: seq<Entry>, path: string, score: real)
    requires score > 0.0
    ensures forall e <- SetMax(entries, path, score) :: e in entries || e == Entry(path, score)
  {
    if entries != [] && entries[0].path != path {
      SetMaxScore(entries[1..], path, score);
      assert entries == [entries[0]] + entries[1..];
    } else if entries != [] {
      assert entries == [entries[0]] + entries[1..];
    }
  }

  /** At most five files, best first, and none left out scores more than one kept. */
  lemma RelatedFilesAreBest(candidates: seq<Candidate>)
    ensures var r, ranked := RelatedFiles(candidates), Sort(Scored(candidates), EntryKey);
      && |r| <= MAX_RELATED_FILES
      && |ranked| == |Scored(candidates)|
      && (forall i, j :: 0 <= i < j < |ranked| ==> ranked[i].score >= ranked[j].score)
      && (forall i :: 0 <= i < |r| ==> r[i] == ranked[i].path)
      && (|r| < MAX_RELATED_FILES ==> |r| == |ranked|)
  {
    hide Sort, Scored;
    var ranked := Sort(Scored(candidates), EntryKey);
    SortIsSorted(Scored(candidates), EntryKey);
    forall i, j | 0 <= i < j < |ranked|
      ensures ranked[i].score >= ranked[j].score
    {
      assert !Above(EntryKey(ranked[j]), EntryKey(ranked[i]));
    }
  }

  // ----- one criterion

  datatype Match = Match(
    criterion: string, file: Option<string>, memoryChunk: Option<string>, score: real, relatedFiles: seq<string>)

  function ScoreOf(best: Candidate, boost: Option<Boost>): real {
    if boost.Some? then Min(1.0, best.score + boost.value.amount) else best.score
  }

  /** The item schema only takes scores from zero to one. */
  function MatchOf(criterion: string, diff: Diff, memory: seq<MemoryHit>, lex: Lexicon): Outcome<Match> {
    var words := lex.words(criterion);
    var candidates := Candidates(words, diff, lex);
    var best, boost := BestOf(candidates), MemoryBoost(words, diff, memory, lex);
    var score := ScoreOf(best, boost);
    if criterion == "" || score < 0.0 || score > 1.0 then Thrown(SchemaInvalid)
    else Ok(Match(criterion, best.file, if boost.Some? then Some(boost.value.chunk) else None, score,
                  RelatedFiles(candidates)))
  }

  lemma NextCandidate(before: seq<Candidate>, candidates: seq<Candidate>, i: nat)
    requires i < |candidates|
    ensures before + candidates[..i + 1] == before + candidates[..i] + [candidates[i]]
    ensures BestOf(before + candidates[..i + 1]) == ApplyBestMatch(BestOf(before + candidates[..i]), candidates[i])
    ensures Scored(before + candidates[..i + 1]) ==
      (var entries := Scored(before + candidates[..i]);
       var c := candidates[i];
       if Mention(c) == [] then entries else SetMax(entries, c.file.value, c.score))
  {
    var longer := before + candidates[..i + 1];
    assert longer == before + candidates[..i] + [candidates[i]];
    assert longer[..|longer| - 1] == before + candidates[..i];
  }

  /** Files, then routes, then schemas, keeping the best match. */
  method BestMatch(words: set<string>, diff: Diff, lex: Lexicon) returns (state: Candidate)
    ensures state == BestOf(Candidates(words, diff, lex))
  {
    hide FileCandidate, RouteCandidate, SchemaCandidate, BestOf;
    ghost var files, routes, schemas := FileCandidates(words, diff, lex), RouteCandidates(words, diff, lex),
      SchemaCandidates(words, diff, lex);
    state := Candidate(0.0, None);
    NoCandidates();
    assert [] + files[..0] == [];
    for i := 0 to |diff.files|
      invariant state == BestOf([] + files[..i])
    {
      NextCandidate([], files, i);
      state := ApplyBestMatch(state, FileCandidate(words, diff.files[i], lex));
    }
    assert files + routes[..0] == [] + files[..|files|];
    for i := 0 to |diff.routes|
      invariant state == BestOf(files + routes[..i])
    {
      NextCandidate(files, routes, i);
      state := ApplyBestMatch(state, RouteCandidate(words, diff.routes[i], diff, lex));
    }
    assert files + routes + schemas[..0] == files + routes[..|routes|];
    for i := 0 to |diff.schemas|
      invariant state == BestOf(files + routes + schemas[..i])
    {
      NextCandidate(files + routes, schemas, i);
      state := ApplyBestMatch(state, SchemaCandidate(words, diff.schemas[i], diff, lex));
    }
    assert schemas[..|schemas|] == schemas;
  }

  lemma NoCandidates()
    ensures BestOf([]) == Candidate(0.0, None) && Scored([]) == []
  {
  }

  /** The strongest boost of the memory chunks that touch the criterion. */
  method ApplyMemoryBoost(words: set<string>, diff: Diff, memory: seq<MemoryHit>, lex: Lexicon)
    returns (boost: Option<Boost>)
    ensures boost == MemoryBoost(words, diff, memory, lex)
  {
    hide CriterionHit, BoostOf, BetterBoost;
    boost := None;
    for i := 0 to |memory|
      invariant boost == MemoryBoost(words, diff, memory[..i], lex)
    {
      assert memory[..i + 1][..i] == memory[..i];
      var hit := memory[i];
      if !CriterionHit(words, hit.chunk, lex) {
        continue;
      }
      boost := Some(BetterBoost(boost, Boost(BoostOf(hit, diff, lex), hit.chunk.id, hit.relevance)));
    }
    assert memory[..|memory|] == memory;
  }

  method Note(entries: seq<Entry>, c: Candidate) returns (r: seq<Entry>)
    ensures r == if Mention(c) == [] then entries else SetMax(entries, c.file.value, c.score)
  {
    r := entries;
    if c.score > 0.0 && c.file.Some? && c.file.value != "" {
      r := SetMax(entries, c.file.value, c.score);
    }
  }

  /** The same three loops, noting every file that matches, then the best of them. */
  method CollectRelatedFiles(words: set<string>, diff: Diff, lex: Lexicon) returns (paths: seq<string>)
    ensures paths == RelatedFiles(Candidates(words, diff, lex))
  {
    hide FileCandidate, RouteCandidate, SchemaCandidate, Scored, Mention, SetMax;
    ghost var files, routes, schemas := FileCandidates(words, diff, lex), RouteCandidates(words, diff, lex),
      SchemaCandidates(words, diff, lex);
    var scored: seq<Entry> := [];
    NoCandidates();
    assert [] + files[..0] == [];
    for i := 0 to |diff.files|
      invariant scored == Scored([] + files[..i])
    {
      NextCandidate([], files, i);
      scored := Note(scored, FileCandidate(words, diff.files[i], lex));
    }
    assert files + routes[..0] == [] + files[..|files|];
    for i := 0 to |diff.routes|
      invariant scored == Scored(files + routes[..i])
    {
      NextCandidate(files, routes, i);
      scored := Note(scored, RouteCandidate(words, diff.routes[i], diff, lex));
    }
    assert files + routes + schemas[..0] == files + routes[..|routes|];
    for i := 0 to |diff.schemas|
      invariant scored == Scored(files + routes + schemas[..i])
    {
      NextCandidate(files + routes, schemas, i);
      scored := Note(scored, SchemaCandidate(words, diff.schemas[i], diff, lex));
    }
    assert schemas[..|schemas|] == schemas;
    var ranked := Sort(scored, EntryKey);
    var n := if |ranked| < MAX_RELATED_FILES then |ranked| else MAX_RELATED_FILES;
    paths := seq(n, i requires 0 <= i < n => ranked[i].path);
  }

  method CorrelateCriterion(criterion: string, diff: Diff, memory: seq<MemoryHit>, lex: Lexicon)
    returns (r: Outcome<Match>)
    ensures r == MatchOf(criterion, diff, memory, lex)
  {
    hide Candidates, BestOf, MemoryBoost, RelatedFiles;
    var words := lex.words(criterion);
    var state := BestMatch(words, diff, lex);
    var boost := ApplyMemoryBoost(words, diff, memory, lex);
    var score, chunk := state.score, None;
    if boost.Some? {
      score, chunk := Min(1.0, score + boost.value.amount), Some(boost.value.chunk);
    }
    var relatedFiles := CollectRelatedFiles(words, diff, lex);
    if criterion == "" || score < 0.0 || score > 1.0 {
      return Thrown(SchemaInvalid);
    }
    return Ok(Match(criterion, state.file, chunk, score, relatedFiles));
  }

  /** A correlation throws exactly when some chunk touches the criterion and every one that does takes more
      away than the best match has; else its score is between zero and one. */
  lemma MatchThrowsExactly(criterion: string, diff: Diff, memory: seq<MemoryHit>, lex: Lexicon)
    requires criterion != ""
    ensures var words := lex.words(criterion);
      var best := BestOf(Candidates(words, diff, lex)).score;
      MatchOf(criterion, diff, memory, lex).Thrown? <==>
        && (exists h <- memory :: CriterionHit(words, h.chunk, lex))
        && forall h <- memory :: CriterionHit(words, h.chunk, lex) ==> BoostOf(h, diff, lex) < -best
    ensures MatchOf(criterion, diff, memory, lex).Ok? ==>
      0.0 <= MatchOf(criterion, diff, memory, lex).value.score <= 1.0
  {
    hide Candidates, CriterionHit, BoostOf, BestOf, MemoryBoost, RelatedFiles;
    var words := lex.words(criterion);
    var candidates := Candidates(words, diff, lex);
    CandidatesScore(words, diff, lex);
    BestIsFirstMaximum(candidates);
    BoostIsMaximum(words, diff, memory, lex);
    var best := BestOf(candidates);
    if best.score > 0.0 {
      assert best in candidates;
    }
  }

  /** Such memory exists: for any criterion, one chunk that shares a word with it, at relevance -1.0, with
      nothing changed. */
  lemma NegativeMemoryThrows(criterion: string, chunk: Chunk, lex: Lexicon)
    requires criterion != "" && lex.words(criterion) * lex.words(chunk.title + " " + chunk.content) != {}
    ensures MatchOf(criterion, Diff([], [], []), [MemoryHit(chunk, -1.0)], lex) == Thrown(SchemaInvalid)
  {
    hide Overlap, RelatedFiles;
    var words, diff, hit := lex.words(criterion), Diff([], [], []), MemoryHit(chunk, -1.0);
    OverlapExactly(words, lex.words(chunk.title + " " + chunk.content));
    assert Candidates(words, diff, lex) == [];
    NoCandidates();
    assert BoostOf(hit, diff, lex) < 0.0;
    assert hit in [hit];
    MatchThrowsExactly(criterion, diff, [hit], lex);
  }

  /** With relevances that are not negative nothing is thrown. */
  lemma RelevantMemoryNeverThrows(criterion: string, diff: Diff, memory: seq<MemoryHit>, lex: Lexicon)
    requires criterion != "" && forall h <- memory :: h.relevance >= 0.0
    ensures MatchOf(criterion, diff, memory, lex).Ok?
  {
    hide Candidates, CriterionHit, BestOf, MatchOf, RouteHit;
    MatchThrowsExactly(criterion, diff, memory, lex);
    BestIsFirstMaximum(Candidates(lex.words(criterion), diff, lex));
  }
}
