/** What the parts of a correlation mean: the candidates a criterion is compared with, the boosts memory gives,
    and what the required scenarios carry. */
module CorrelationLaws {
  import opened Domain
  import opened Correlation
  import opened Correlator
  import opened MemoryChunks
  import Digits = Text

  // ----- texts

  lemma IncludesExactly(text: string, part: string)
    ensures Includes(text, part) <==> exists before, after :: text == before + part + after
  {
    if Includes(text, part) {
      var i :| 0 <= i <= |text| && part <= text[i..];
      assert text == text[..i] + part + text[i + |part|..];
    }
    if before, after :| text == before + part + after {
      assert text[|before|..] == part + after;
    }
  }

  lemma EndsWithExactly(text: string, part: string)
    ensures EndsWith(text, part) <==> exists before :: text == before + part
  {
    if EndsWith(text, part) {
      assert text == text[..|text| - |part|] + part;
    }
    if before :| text == before + part {
      assert text[|text| - |part|..] == part;
    }
  }

  /** One slash goes, and only at the start. */
  lemma SlashGoes(rest: string)
    ensures WithoutSlash("/" + rest) == rest
    ensures (rest == "" || rest[0] != '/') ==> WithoutSlash(rest) == rest
  {
    assert ("/" + rest)[1..] == rest;
  }

  // ----- the file of a route

  ghost predicate RouteFileSharing(file: ChangedFile, words: set<string>, lex: Lexicon) {
    file.kind == RouteFile && words * lex.pathWords(file.path) != {}
  }

  /** `files[i]` is the first of the route files that share most of the words. */
  ghost predicate FirstBest(files: seq<ChangedFile>, i: nat, words: set<string>, lex: Lexicon) {
    && i < |files| && RouteFileSharing(files[i], words, lex)
    && forall j :: 0 <= j < |files| && RouteFileSharing(files[j], words, lex) ==>
        var mine, other := |words * lex.pathWords(files[i].path)|, |words * lex.pathWords(files[j].path)|;
        other <= mine && (j < i ==> other < mine)
  }

  lemma OverlapOrder(words: set<string>, a: set<string>, b: set<string>)
    requires words * a != {} || words * b != {}
    ensures Overlap(words, a) > Overlap(words, b) <==> |words * a| > |words * b|
  {
    var n, m, w := |words * a| as real, |words * b| as real, |words| as real;
    assert w > 0.0 && (b == {} ==> words * b == {});
    assert b != {} ==> n / w * w == n && m / w * w == m;
    if b != {} {
      assert n / w > m / w <==> n > m;
    } else {
      OverlapExactly(words, a);
    }
  }

  lemma {:induction false} BestRouteFileIsFirstBest(files: seq<ChangedFile>, words: set<string>, lex: Lexicon)
    returns (i: nat)
    ensures var best := BestRouteFile(files, words, lex);
      && (best.None? <==> forall f <- files :: !RouteFileSharing(f, words, lex))
      && (best.Some? ==> FirstBest(files, i, words, lex))
      && (best.Some? ==> best == Some(Candidate(Overlap(words, lex.pathWords(files[i].path)), Some(files[i].path))))
  {
    hide FirstBest, Overlap;
    i := 0;
    if files != [] {
      var before, last := files[..|files| - 1], files[|files| - 1];
      i := BestRouteFileIsFirstBest(before, words, lex);
      assert files == before + [last];
      OverlapExactly(words, lex.pathWords(last.path));
      var earlier := BestRouteFile(before, words, lex);
      if earlier.Some? {
        FirstBestIsFile(before, i, words, lex);
        FirstBestStays(before, i, last, words, lex);
      } else if RouteFileSharing(last, words, lex) {
        OnlyIsFirstBest(before, last, words, lex);
      }
      if RouteFileSharing(last, words, lex)
         && (earlier.None? || Overlap(words, lex.pathWords(last.path)) > earlier.value.score) {
        i := |before|;
      }
    }
  }

  lemma OnlyIsFirstBest(before: seq<ChangedFile>, last: ChangedFile, words: set<string>, lex: Lexicon)
    requires (forall f <- before :: !RouteFileSharing(f, words, lex)) && RouteFileSharing(last, words, lex)
    ensures FirstBest(before + [last], |before|, words, lex)
  {
  }

  lemma FirstBestStays(before: seq<ChangedFile>, i: nat, last: ChangedFile, words: set<string>, lex: Lexicon)
    requires FirstBest(before, i, words, lex)
    ensures var mine, its := Overlap(words, lex.pathWords(before[i].path)), Overlap(words, lex.pathWords(last.path));
      FirstBest(before + [last], if RouteFileSharing(last, words, lex) && its > mine then |before| else i, words, lex)
  {
    OverlapOrder(words, lex.pathWords(last.path), lex.pathWords(before[i].path));
    hide Overlap;
    var files := before + [last];
    assert forall j :: 0 <= j < |before| ==> files[j] == before[j];
  }

  ghost predicate Named(file: ChangedFile, slug: string, lex: Lexicon) {
    file.kind == RouteFile && Includes(lex.lower(file.path), slug)
  }

  ghost predicate IsPathOf(path: string, files: seq<ChangedFile>, i: nat) {
    i < |files| && files[i].path == path
  }

  /** The file of a route is the first route file that shares most words with it; where none shares a word, a
      route file whose path contains the route without its slash. */
  lemma FileForRouteExactly(files: seq<ChangedFile>, route: string, lex: Lexicon)
    ensures var words, slug := lex.pathWords(WithoutSlash(route)), lex.lower(WithoutSlash(route));
      var r := FileForRoute(files, route, lex);
      if exists f <- files :: RouteFileSharing(f, words, lex)
      then r.Some? && exists i: nat :: IsPathOf(r.value, files, i) && FirstBest(files, i, words, lex)
      else if slug != "" && exists f <- files :: Named(f, slug, lex)
      then r.Some? && exists f <- files :: Named(f, slug, lex) && f.path == r.value
      else r == None
  {
    hide BestRouteFile, FirstBest, RouteFileSharing, Includes, WithoutSlash;
    var words, slug := lex.pathWords(WithoutSlash(route)), lex.lower(WithoutSlash(route));
    var i := BestRouteFileIsFirstBest(files, words, lex);
    if BestRouteFile(files, words, lex).Some? {
      FirstBestIsFile(files, i, words, lex);
      assert IsPathOf(files[i].path, files, i);
    }
  }

  lemma FirstBestIsFile(files: seq<ChangedFile>, i: nat, words: set<string>, lex: Lexicon)
    requires FirstBest(files, i, words, lex)
    ensures i < |files| && files[i] in files
  {
  }

  // ----- the file of a schema

  ghost predicate SchemaNamed(file: ChangedFile, schema: string) {
    file.kind == SchemaFile && exists before :: file.path == before + (schema + ".schema.ts")
  }

  ghost predicate SchemaSharing(file: ChangedFile, schema: string, lex: Lexicon) {
    file.kind == SchemaFile && lex.pathWords(schema) * lex.pathWords(file.path) != {}
  }

  /** The file of a schema ends in the name of the schema; where none does, it shares a word with it. */
  lemma FileForSchemaExactly(files: seq<ChangedFile>, schema: string, lex: Lexicon)
    ensures var r := FileForSchema(files, schema, lex);
      if exists f <- files :: SchemaNamed(f, schema)
      then r.Some? && exists f <- files :: SchemaNamed(f, schema) && f.path == r.value
      else if exists f <- files :: SchemaSharing(f, schema, lex)
      then r.Some? && exists f <- files :: SchemaSharing(f, schema, lex) && f.path == r.value
      else r == None
  {
    hide Overlap, EndsWith;
    forall f: ChangedFile | f in files
      ensures SchemaNamed(f, schema) <==> f.kind.SchemaFile? && EndsWith(f.path, schema + ".schema.ts")
      ensures SchemaSharing(f, schema, lex) <==>
        f.kind.SchemaFile? && Overlap(lex.pathWords(schema), lex.pathWords(f.path)) > 0.0
    {
      EndsWithExactly(f.path, schema + ".schema.ts");
      OverlapExactly(lex.pathWords(schema), lex.pathWords(f.path));
    }
  }

  // ----- the candidates

  /** Candidates come in the order of the files, the routes and the schemas. A candidate scores something exactly
      when it shares a word with the criterion, and one exactly when it has all of its words. */
  ghost predicate Compares(c: Candidate, words: set<string>, others: set<string>, file: Option<string>) {
    && c.file == file
    && (c.score > 0.0 <==> words * others != {})
    && (c.score == 1.0 <==> words != {} && words <= others)
  }

  /** What a schema is compared by: the path of its file, and its own words with the word for schemas elsewhere. */
  ghost function SchemaWords(schema: string, file: Option<string>, lex: Lexicon): set<string> {
    if file == None || file == Some("") then lex.words(schema + " schema") else lex.pathWords(file.value)
  }

  lemma CandidatesCompare(words: set<string>, diff: Diff, lex: Lexicon, i: nat)
    requires i < |Candidates(words, diff, lex)|
    ensures |Candidates(words, diff, lex)| == |diff.files| + |diff.routes| + |diff.schemas|
    ensures var c, n, m := Candidates(words, diff, lex)[i], |diff.files|, |diff.files| + |diff.routes|;
      if i < n then Compares(c, words, lex.pathWords(diff.files[i].path), Some(diff.files[i].path))
      else if i < m
      then Compares(c, words, lex.words(diff.routes[i - n]), FileForRoute(diff.files, diff.routes[i - n], lex))
      else
        var file := FileForSchema(diff.files, diff.schemas[i - m], lex);
        Compares(c, words, SchemaWords(diff.schemas[i - m], file, lex), if file == Some("") then None else file)
  {
    hide Overlap, FileForRoute, FileForSchema;
    forall others: set<string>
      ensures Overlap(words, others) > 0.0 <==> words * others != {}
      ensures Overlap(words, others) == 1.0 <==> words != {} && words <= others
    {
      OverlapExactly(words, others);
    }
  }

  // ----- the boosts

  ghost predicate Mentions(chunk: Chunk, route: string, lex: Lexicon) {
    || (exists before, after :: chunk.content == before + route + after)
    || (exists before, after :: chunk.title == before + route + after)
    || lex.words(route) * lex.words(chunk.content) != {}
  }

  ghost predicate Touches(chunk: Chunk, words: set<string>, lex: Lexicon) {
    words * lex.words(chunk.title + " " + chunk.content) != {}
  }

  lemma HitsExactly(chunk: Chunk, words: set<string>, diff: Diff, lex: Lexicon)
    ensures RouteHit(chunk, diff, lex) <==> exists r <- diff.routes :: Mentions(chunk, r, lex)
    ensures CriterionHit(words, chunk, lex) <==> Touches(chunk, words, lex)
  {
    hide Includes, Overlap;
    OverlapExactly(words, lex.words(chunk.title + " " + chunk.content));
    forall r | r in diff.routes
      ensures Mentions(chunk, r, lex) <==>
        Includes(chunk.content, r) || Includes(chunk.title, r) || Overlap(lex.words(r), lex.words(chunk.content)) > 0.0
    {
      IncludesExactly(chunk.content, r);
      IncludesExactly(chunk.title, r);
      OverlapExactly(lex.words(r), lex.words(chunk.content));
    }
  }

  /** A boost grows by a tenth of the relevance. Mentioning a route is worth half a tenth more, however relevant
      the chunk is, up to the caps, which are reached from relevances of 2.5 and 2 on. */
  lemma BoostsExactly(chunk: Chunk, relevance: real, later: real, plain: Chunk, diff: Diff, lex: Lexicon)
    requires (exists r <- diff.routes :: Mentions(chunk, r, lex))
    requires !(exists r <- diff.routes :: Mentions(plain, r, lex))
    ensures var boost, less := BoostOf(MemoryHit(chunk, relevance), diff, lex),
                               BoostOf(MemoryHit(plain, relevance), diff, lex);
      && boost > less
      && (relevance <= 2.0 ==> boost == less + 0.05)
      && (boost < 0.35 <==> relevance < 2.5) && (less < 0.25 <==> relevance < 2.0)
      && (relevance == 0.0 ==> boost == 0.1)
      && (relevance <= later <= 2.5 ==>
            BoostOf(MemoryHit(chunk, later), diff, lex) == boost + (later - relevance) / 10.0)
  {
    HitsExactly(chunk, {}, diff, lex);
    HitsExactly(plain, {}, diff, lex);
    hide RouteHit, Mentions;
  }

  /** One boost beats another by its amount, and by its relevance where the amounts are equal. */
  ghost predicate Beats(a: MemoryHit, b: MemoryHit, diff: Diff, lex: Lexicon) {
    var x, y := BoostOf(a, diff, lex), BoostOf(b, diff, lex);
    x > y || (x == y && a.relevance > b.relevance)
  }

  ghost predicate FirstStrongest(memory: seq<MemoryHit>, i: nat, words: set<string>, diff: Diff, lex: Lexicon) {
    && i < |memory| && CriterionHit(words, memory[i].chunk, lex)
    && forall j :: 0 <= j < |memory| && CriterionHit(words, memory[j].chunk, lex) ==>
        && !Beats(memory[j], memory[i], diff, lex)
        && (j < i ==> Beats(memory[i], memory[j], diff, lex))
  }

  /** The boost of a criterion is the one of the first chunk that none beats. */
  lemma {:induction false} BoostIsFirstStrongest(words: set<string>, diff: Diff, memory: seq<MemoryHit>, lex: Lexicon)
    returns (i: nat)
    ensures var best := MemoryBoost(words, diff, memory, lex);
      && (best.Some? ==> FirstStrongest(memory, i, words, diff, lex))
      && (best.Some? ==>
            best.value == Boost(BoostOf(memory[i], diff, lex), memory[i].chunk.id, memory[i].relevance))
  {
    hide CriterionHit, BoostOf;
    i := 0;
    if memory != [] {
      var before, hit := memory[..|memory| - 1], memory[|memory| - 1];
      i := BoostIsFirstStrongest(words, diff, before, lex);
      BoostIsMaximum(words, diff, before, lex);
      assert memory == before + [hit];
      assert forall j :: 0 <= j < |before| ==> memory[j] == before[j] && before[j] in before;
      var earlier := MemoryBoost(words, diff, before, lex);
      if CriterionHit(words, hit.chunk, lex) && (earlier.None? || Beats(hit, memory[i], diff, lex)) {
        i := |before|;
      }
    }
  }

  // ----- the scenarios

  ghost predicate Regresses(file: string, risks: seq<Risk>) {
    exists k <- risks :: k.kind == Regression && k.relatedFile == Some(file)
  }

  /** Score and risk add up to one, unless a related file regresses, which adds a quarter up to one. */
  lemma RiskExactly(m: Match, risks: seq<Risk>)
    requires 0.0 <= m.score <= 1.0
    ensures var risk := RiskScore(m, risks);
      if exists f <- m.relatedFiles :: Regresses(f, risks)
      then (if m.score <= 0.25 then risk == 1.0 else risk + m.score == 1.25)
      else risk + m.score == 1.0
  {
  }

  /** A long title ends in an ellipsis that counts. */
  lemma TruncatedExactly(s: string, max: nat)
    requires max > 0
    ensures var t := Truncate(s, max);
      if |s| <= max then t == s else |t| == max && t[max - 1] == '\U{2026}' && t[..max - 1] <= s
  {
  }

  /** The required scenarios of a list of criteria are numbered from one, entitled by their criteria cut to a
      hundred characters, and carry the related files and the risk. */
  lemma RequiredExactly(matches: seq<Match>, risks: seq<Risk>, i: nat)
    requires i < |Included(matches)|
    ensures var r, m := ScenariosOf(Included(matches), risks)[i], Included(matches)[i].item;
      && r.id == "required-scenario-" + Digits.Decimal(i + 1)
      && r.title == Truncate(m.criterion, 100)
      && r.relatedFiles == m.relatedFiles && r.riskScore == RiskScore(m, risks)
  {
    hide RankedMatches;
  }

  lemma RequiredIdsAreDistinct(matches: seq<Match>, risks: seq<Risk>, i: nat, j: nat)
    requires i < j < |Included(matches)|
    ensures ScenariosOf(Included(matches), risks)[i].id != ScenariosOf(Included(matches), risks)[j].id
  {
    hide RankedMatches, Digits.Decimal;
    var prefix := "required-scenario-";
    RequiredExactly(matches, risks, i);
    RequiredExactly(matches, risks, j);
    Digits.ValueOfDecimal(i + 1);
    Digits.ValueOfDecimal(j + 1);
    assert (prefix + Digits.Decimal(i + 1))[|prefix|..] == Digits.Decimal(i + 1);
    assert (prefix + Digits.Decimal(j + 1))[|prefix|..] == Digits.Decimal(j + 1);
  }

  ghost predicate Serves(file: ChangedFile, route: string, lex: Lexicon) {
    file.kind == RouteFile || WithoutSlash(route) in lex.pathWords(file.path)
  }

  /** Beside changed files every affected route has one scenario, which relates to every changed route file,
      whatever its route, and is riskier when there is no file at all. */
  lemma RouteScenariosExactly(diff: Diff, lex: Lexicon, i: nat)
    requires diff.files != [] && i < |diff.routes|
    ensures |RouteScenarios(diff, lex)| == |diff.routes|
    ensures var r, route := RouteScenarios(diff, lex)[i], diff.routes[i];
      && r.id == "required-scenario-route-" + Digits.Decimal(i + 1)
      && r.title == "Validate affected route " + route
      && (forall f <- diff.files :: Serves(f, route, lex) ==> f.path in r.relatedFiles)
      && (forall p <- r.relatedFiles :: exists f <- diff.files :: Serves(f, route, lex) && f.path == p)
      && r.riskScore == if r.relatedFiles == [] then 0.8 else 0.6
  {
    hide WithoutSlash;
    var route := diff.routes[i];
    var files := RouteFiles(diff, route, lex);
    var r := RouteScenarios(diff, lex)[i];
    assert |r.relatedFiles| == |files|;
    forall f | f in diff.files && Serves(f, route, lex)
      ensures f.path in r.relatedFiles
    {
      assert f in files;
      var k :| 0 <= k < |files| && files[k] == f;
      assert r.relatedFiles[k] == f.path;
    }
    forall p | p in r.relatedFiles
      ensures exists f <- diff.files :: Serves(f, route, lex) && f.path == p
    {
      var k :| 0 <= k < |files| && r.relatedFiles[k] == p;
      assert files[k] in files;
    }
  }

  /** The notice about weak criteria lists exactly those below the threshold, in order, cut to eighty characters. */
  lemma BelowExactly(matches: seq<Match>)
    ensures |CriteriaBelow(matches)| == |UncoveredRisks(matches)|
    ensures forall i :: 0 <= i < |CriteriaBelow(matches)| ==>
      CriteriaBelow(matches)[i] == Truncate(UncoveredRisks(matches)[i].subject, 80)
    ensures forall m <- matches :: m.score < 0.15 ==> Truncate(m.criterion, 80) in CriteriaBelow(matches)
  {
    var below := Filter(matches, IsUncovered);
    forall m | m in matches && m.score < 0.15
      ensures Truncate(m.criterion, 80) in CriteriaBelow(matches)
    {
      assert m in below;
      var i :| 0 <= i < |below| && below[i] == m;
      assert CriteriaBelow(matches)[i] == Truncate(m.criterion, 80);
    }
  }
}
