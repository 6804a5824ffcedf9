/** The BM25 index over memory chunks (src/application/services/bm25-memory-index.service.ts). */
module Bm25 {
  import opened Domain
  import opened Lines
  import opened MemoryChunks
  import opened Ranking

  const K1: real := 1.5
  const B: real := 0.75

  /** The tokenizer is any function of a text; of the logarithm only its sign above one is used. */
  ghost predicate IsLogarithm(log: real -> real) {
    forall x :: x > 1.0 ==> log(x) > 0.0
  }

  function Text(c: Chunk): string {
    c.title + " " + c.content
  }

  function DocTokens(chunks: seq<Chunk>, tokenize: string -> seq<string>): seq<seq<string>> {
    seq(|chunks|, i requires 0 <= i < |chunks| => tokenize(Text(chunks[i])))
  }

  function Occurrences(tokens: seq<string>, term: string): nat {
    multiset(tokens)[term]
  }

  /** The definition of a document frequency: how many documents contain a term. */
  function DocsWith(docs: seq<seq<string>>, term: string): (n: nat)
    ensures n <= |docs|
  {
    if docs == [] then 0 else (if term in docs[0] then 1 else 0) + DocsWith(docs[1..], term)
  }

  function Lengths(docs: seq<seq<string>>): seq<nat> {
    seq(|docs|, i requires 0 <= i < |docs| => |docs[i]|)
  }

  function TotalLength(docs: seq<seq<string>>): nat {
    if docs == [] then 0 else |docs[0]| + TotalLength(docs[1..])
  }

  function AverageLength(docs: seq<seq<string>>): real {
    TotalLength(docs) as real / (if docs == [] then 1.0 else |docs| as real)
  }

  function Frequency(frequencies: map<string, nat>, term: string): nat {
    if term in frequencies then frequencies[term] else 0
  }

  // ----- scores by definition

  function Idf(documents: nat, df: nat, log: real -> real): real
    requires df <= documents
  {
    log((documents as real - df as real + 0.5) / (df as real + 0.5) + 1.0)
  }

  function Normalization(frequency: nat, length: nat, average: real): (r: real)
    requires frequency > 0 && average >= 0.0
    ensures r > 0.0
  {
    var ratio := length as real / (if average == 0.0 then 1.0 else average);
    assert ratio >= 0.0;
    frequency as real + K1 * (1.0 - B + B * ratio)
  }

  function TermScore(docs: seq<seq<string>>, d: nat, term: string, log: real -> real): real
    requires d < |docs|
  {
    var frequency := Occurrences(docs[d], term);
    if frequency == 0 then 0.0 else
    AverageIsNonNegative(docs);
    Idf(|docs|, DocsWith(docs, term), log)
    * (frequency as real * (K1 + 1.0) / Normalization(frequency, |docs[d]|, AverageLength(docs)))
  }

  function Score(docs: seq<seq<string>>, d: nat, terms: seq<string>, log: real -> real): real
    requires d < |docs|
  {
    if terms == [] then 0.0
    else Score(docs, d, terms[..|terms| - 1], log) + TermScore(docs, d, terms[|terms| - 1], log)
  }

  lemma AverageIsNonNegative(docs: seq<seq<string>>)
    ensures AverageLength(docs) >= 0.0
  {
  }

  lemma PositiveProduct(a: real, b: real, c: real)
    requires a > 0.0 && b > 0.0 && c > 0.0
    ensures a * (b / c) > 0.0
  {
    assert b / c > 0.0;
  }

  lemma TermScoreExactly(docs: seq<seq<string>>, d: nat, term: string, log: real -> real)
    requires d < |docs| && IsLogarithm(log)
    ensures term in docs[d] ==> TermScore(docs, d, term, log) > 0.0
    ensures term !in docs[d] ==> TermScore(docs, d, term, log) == 0.0
  {
    var frequency := Occurrences(docs[d], term);
    if term in docs[d] {
      assert term in multiset(docs[d]);
      var df := DocsWith(docs, term);
      assert (|docs| as real - df as real + 0.5) / (df as real + 0.5) > 0.0;
      AverageIsNonNegative(docs);
      PositiveProduct(Idf(|docs|, df, log), frequency as real * (K1 + 1.0),
                      Normalization(frequency, |docs[d]|, AverageLength(docs)));
    }
  }

  /** A document scores above zero exactly when it shares a token with the query. */
  lemma {:induction false} ScoreExactly(docs: seq<seq<string>>, d: nat, terms: seq<string>, log: real -> real)
    requires d < |docs| && IsLogarithm(log)
    ensures Score(docs, d, terms, log) >= 0.0
    ensures Score(docs, d, terms, log) > 0.0 <==> exists t <- terms :: t in docs[d]
  {
    hide TermScore, IsLogarithm;
    if terms != [] {
      var before, last := terms[..|terms| - 1], terms[|terms| - 1];
      ScoreExactly(docs, d, before, log);
      TermScoreExactly(docs, d, last, log);
      assert terms == before + [last];
      if last in docs[d] {
        assert last in terms;
      }
      forall t | t in before && t in docs[d]
        ensures t in terms
      {
      }
    }
  }

  // ----- search by definition

  /** A result; `doc` tells apart chunks that look the same. */
  datatype Hit = Hit(doc: nat, chunk: Chunk, score: real)

  function HitKey(h: Hit): Key {
    Key(h.score, 0)
  }

  predicate Positive(h: Hit) {
    h.score > 0.0
  }

  function Hits(chunks: seq<Chunk>, docs: seq<seq<string>>, terms: seq<string>, log: real -> real): seq<Hit>
    requires |chunks| == |docs|
  {
    seq(|chunks|, d requires 0 <= d < |chunks| => Hit(d, chunks[d], Score(docs, d, terms, log)))
  }

  /** `slice(0, limit)`: a negative limit counts from the end. */
  function SliceTo<T>(s: seq<T>, limit: int): (r: seq<T>)
    ensures r <= s && (limit >= 0 ==> |r| <= limit)
  {
    if limit >= |s| then s
    else if limit >= 0 then s[..limit]
    else if |s| + limit >= 0 then s[..|s| + limit]
    else []
  }

  function Ranked(hits: seq<Hit>): seq<Hit> {
    Sort(Filter(hits, Positive), HitKey)
  }

  lemma RankedOrder(hits: seq<Hit>)
    ensures forall i, j :: 0 <= i < j < |Ranked(hits)| ==> Ranked(hits)[i].score >= Ranked(hits)[j].score
  {
    hide Sort, Filter;
    var ranked := Ranked(hits);
    SortIsSorted(Filter(hits, Positive), HitKey);
    forall i, j | 0 <= i < j < |ranked|
      ensures ranked[i].score >= ranked[j].score
    {
      assert !Above(HitKey(ranked[j]), HitKey(ranked[i]));
    }
  }

  lemma RankedMember(hits: seq<Hit>, h: Hit)
    ensures h in Ranked(hits) <==> h in hits && h.score > 0.0
  {
    hide Sort, Filter;
    SortKeepsMembers(Filter(hits, Positive), HitKey, h);
  }

  /** What the start of a ranking leaves out scores no more than what it keeps. */
  lemma OmittedScoresLess(ranked: seq<Hit>, limit: int, omitted: Hit, kept: Hit)
    requires forall i, j :: 0 <= i < j < |ranked| ==> ranked[i].score >= ranked[j].score
    requires omitted in ranked && omitted !in SliceTo(ranked, limit) && kept in SliceTo(ranked, limit)
    ensures kept.score >= omitted.score
  {
    var r := SliceTo(ranked, limit);
    var j :| 0 <= j < |ranked| && ranked[j] == omitted;
    var i :| 0 <= i < |r| && r[i] == kept;
    assert ranked[i] == kept;
    assert forall n :: 0 <= n < |r| ==> r[n] == ranked[n];
  }

  /** What a search returns has positive scores in non-increasing order; a hit it omits scores no more than
      any it returns, and is omitted only because it scores nothing or the limit was reached. */
  lemma SearchIsBest(hits: seq<Hit>, limit: int)
    ensures var r := SliceTo(Ranked(hits), limit);
      && (limit >= 0 ==> |r| <= limit)
      && (forall i, j :: 0 <= i < j < |r| ==> r[i].score >= r[j].score)
      && (forall h <- r :: h in hits && h.score > 0.0)
      && (forall h, k :: h in hits && h !in r && h.score > 0.0 && k in r ==> k.score >= h.score)
      && (forall h <- hits :: h !in r && h.score > 0.0 ==> limit < 0 || |r| == limit)
  {
    hide Ranked;
    var ranked := Ranked(hits);
    var r := SliceTo(ranked, limit);
    RankedOrder(hits);
    forall h: Hit
      ensures h in ranked <==> h in hits && h.score > 0.0
    {
      RankedMember(hits, h);
    }
    assert forall i :: 0 <= i < |r| ==> r[i] == ranked[i] && ranked[i] in ranked;
    forall h, k | h in hits && h !in r && h.score > 0.0 && k in r
      ensures k.score >= h.score
    {
      OmittedScoresLess(ranked, limit, h, k);
    }
  }

  // ----- the index

  lemma {:induction false} DocsWithLast(docs: seq<seq<string>>, last: seq<string>, term: string)
    ensures DocsWith(docs + [last], term) == DocsWith(docs, term) + if term in last then 1 else 0
  {
    if docs == [] {
      assert docs + [last] == [last] && [last][1..] == [];
    } else {
      assert (docs + [last])[1..] == docs[1..] + [last];
      DocsWithLast(docs[1..], last, term);
    }
  }

  lemma {:induction false} TotalLengthLast(docs: seq<seq<string>>, last: seq<string>)
    ensures TotalLength(docs + [last]) == TotalLength(docs) + |last|
  {
    if docs == [] {
      assert docs + [last] == [last] && [last][1..] == [];
    } else {
      assert (docs + [last])[1..] == docs[1..] + [last];
      TotalLengthLast(docs[1..], last);
    }
  }

  ghost predicate CountsDocuments(frequencies: map<string, nat>, docs: seq<seq<string>>) {
    forall term :: Frequency(frequencies, term) == DocsWith(docs, term)
  }

  method CountFrequencies(docs: seq<seq<string>>) returns (frequencies: map<string, nat>)
    ensures CountsDocuments(frequencies, docs)
  {
    frequencies := map[];
    for i := 0 to |docs|
      invariant CountsDocuments(frequencies, docs[..i])
    {
      ghost var before := frequencies;
      var left := set t | t in docs[i];
      while left != {}
        invariant left <= set t | t in docs[i]
        invariant forall t ::
          Frequency(frequencies, t) == Frequency(before, t) + if t in docs[i] && t !in left then 1 else 0
        decreases |left|
      {
        var term :| term in left;
        frequencies := frequencies[term := Frequency(frequencies, term) + 1];
        left := left - {term};
      }
      assert docs[..i + 1] == docs[..i] + [docs[i]];
      forall term
        ensures Frequency(frequencies, term) == DocsWith(docs[..i + 1], term)
      {
        DocsWithLast(docs[..i], docs[i], term);
      }
    }
    assert docs[..|docs|] == docs;
  }

  method Sum(docs: seq<seq<string>>, lengths: seq<nat>) returns (total: nat)
    requires lengths == Lengths(docs)
    ensures total == TotalLength(docs)
  {
    total := 0;
    for i := 0 to |lengths|
      invariant total == TotalLength(docs[..i])
    {
      assert docs[..i + 1] == docs[..i] + [docs[i]];
      TotalLengthLast(docs[..i], docs[i]);
      total := total + lengths[i];
    }
    assert docs[..|docs|] == docs;
  }

  ghost predicate CountsTerms(frequencies: map<string, nat>, tokens: seq<string>) {
    forall term :: Frequency(frequencies, term) == Occurrences(tokens, term)
  }

  method CountTerms(tokens: seq<string>) returns (frequencies: map<string, nat>)
    ensures CountsTerms(frequencies, tokens)
  {
    frequencies := map[];
    for i := 0 to |tokens|
      invariant CountsTerms(frequencies, tokens[..i])
    {
      ghost var before := frequencies;
      frequencies := frequencies[tokens[i] := Frequency(frequencies, tokens[i]) + 1];
      assert tokens[..i + 1] == tokens[..i] + [tokens[i]];
      forall term
        ensures Frequency(frequencies, term) == Occurrences(tokens[..i + 1], term)
      {
        assert Frequency(before, term) == Occurrences(tokens[..i], term);
      }
    }
    assert tokens[..|tokens|] == tokens;
  }

  class BM25MemoryIndex {
    const tokenize: string -> seq<string>
    const log: real -> real
    var chunks: seq<Chunk>
    var docTokens: seq<seq<string>>
    var docLengths: seq<nat>
    var avgDocLength: real
    var documentFrequency: map<string, nat>
    var totalDocuments: nat

    /** The stored numbers are the ones the definitions give. */
    ghost predicate Valid()
      reads this
    {
      && docTokens == DocTokens(chunks, tokenize)
      && docLengths == Lengths(docTokens)
      && avgDocLength == AverageLength(docTokens)
      && CountsDocuments(documentFrequency, docTokens)
      && totalDocuments == |chunks|
    }

    constructor (tokenize: string -> seq<string>, log: real -> real)
      ensures Valid() && chunks == []
      ensures this.tokenize == tokenize && this.log == log
    {
      this.tokenize, this.log := tokenize, log;
      chunks, docTokens, docLengths, avgDocLength, documentFrequency, totalDocuments := [], [], [], 0.0, map[], 0;
    }

    method Build(newChunks: seq<Chunk>)
      modifies this
      ensures Valid() && chunks == newChunks
    {
      hide CountsDocuments, TotalLength, Lengths;
      var docs := DocTokens(newChunks, tokenize);
      var lengths := Lengths(docs);
      var total := Sum(docs, lengths);
      var frequencies := CountFrequencies(docs);
      chunks, docTokens, docLengths := newChunks, docs, lengths;
      avgDocLength := total as real / (if newChunks == [] then 1.0 else |newChunks| as real);
      documentFrequency, totalDocuments := frequencies, |newChunks|;
    }

    method ScoreDocument(terms: seq<string>, d: nat) returns (score: real)
      requires Valid() && d < |chunks|
      ensures score == Score(docTokens, d, terms, log)
    {
      hide Occurrences, DocsWith, Idf, Normalization, AverageLength, IsLogarithm, Frequency;
      var frequencies := CountTerms(docTokens[d]);
      AverageIsNonNegative(docTokens);
      score := 0.0;
      for i := 0 to |terms|
        invariant score == Score(docTokens, d, terms[..i], log)
      {
        var term := terms[i];
        assert terms[..i + 1][..i] == terms[..i];
        var frequency := Frequency(frequencies, term);
        assert frequency == Occurrences(docTokens[d], term);
        if frequency == 0 {
          continue;
        }
        var df := Frequency(documentFrequency, term);
        assert df == DocsWith(docTokens, term);
        var idf := Idf(totalDocuments, df, log);
        var normalization := Normalization(frequency, docLengths[d], avgDocLength);
        score := score + idf * (frequency as real * (K1 + 1.0) / normalization);
      }
      assert terms[..|terms|] == terms;
    }

    /** What `SearchIsBest` promises of the ranked hits is what a search returns. */
    method Search(query: string, limit: int) returns (r: seq<Hit>)
      requires Valid()
      ensures r == if chunks == [] || Trim(query) == "" || tokenize(query) == [] then []
                   else SliceTo(Ranked(Hits(chunks, docTokens, tokenize(query), log)), limit)
    {
      if totalDocuments == 0 || Trim(query) == "" {
        return [];
      }
      var terms := tokenize(query);
      if terms == [] {
        return [];
      }
      var scored := [];
      for d := 0 to |chunks|
        invariant scored == Hits(chunks, docTokens, terms, log)[..d]
      {
        var score := ScoreDocument(terms, d);
        scored := scored + [Hit(d, chunks[d], score)];
      }
      assert scored == Hits(chunks, docTokens, terms, log);
      return SliceTo(Sort(Filter(scored, Positive), HitKey), limit);
    }
  }

  /** A search finds every chunk that shares a token with the query, as far as its limit goes. */
  lemma SearchFindsSharers(chunks: seq<Chunk>, docs: seq<seq<string>>, terms: seq<string>, log: real -> real,
                           limit: int, d: nat)
    requires |chunks| == |docs| && d < |docs| && IsLogarithm(log)
    ensures var r := SliceTo(Ranked(Hits(chunks, docs, terms, log)), limit);
      && ((exists h <- r :: h.doc == d) ==> exists t <- terms :: t in docs[d])
      && ((exists t <- terms :: t in docs[d]) && 0 <= limit && |r| < limit ==> exists h <- r :: h.doc == d)
  {
    var hits := Hits(chunks, docs, terms, log);
    ScoreExactly(docs, d, terms, log);
    SearchIsBest(hits, limit);
    assert hits[d] in hits;
    assert forall h <- hits :: h.doc == d ==> h == hits[d];
  }

  // ----- what the scores mean

  /** The places of the documents that contain a term. */
  ghost function PlacesOf(docs: seq<seq<string>>, term: string): set<nat> {
    set d: nat | d < |docs| && term in docs[d]
  }

  lemma PlacesLast(before: seq<seq<string>>, last: seq<string>, term: string)
    ensures |PlacesOf(before + [last], term)| == |PlacesOf(before, term)| + if term in last then 1 else 0
  {
    var docs, n := before + [last], |before|;
    assert docs[n] == last && forall d: nat :: d < n ==> docs[d] == before[d];
    assert PlacesOf(docs, term) == PlacesOf(before, term) + if term in last then {n} else {};
    assert n !in PlacesOf(before, term);
  }

  lemma {:induction false} DocsWithCounts(docs: seq<seq<string>>, term: string)
    ensures DocsWith(docs, term) == |PlacesOf(docs, term)|
  {
    if docs == [] {
      assert PlacesOf(docs, term) == {};
    } else {
      var before, last := docs[..|docs| - 1], docs[|docs| - 1];
      assert docs == before + [last];
      hide PlacesOf, DocsWith;
      DocsWithLast(before, last, term);
      DocsWithCounts(before, term);
      PlacesLast(before, last, term);
    }
  }

  /** How much the length of a document takes off: one and a half times a quarter and three quarters of its length
      over the average. */
  ghost function LengthWeight(length: nat, average: real): real
    requires average > 0.0
  {
    1.5 * (0.25 + 0.75 * (length as real / average))
  }

  lemma NormalizationIsWeighted(frequency: nat, length: nat, average: real)
    requires frequency > 0 && average > 0.0
    ensures Normalization(frequency, length, average) == frequency as real + LengthWeight(length, average)
    ensures LengthWeight(length, average) > 0.0
  {
    assert length as real / average >= 0.0;
  }

  /** How much the rarity of a term weighs. */
  ghost function Rarity(docs: seq<seq<string>>, term: string, log: real -> real): real {
    var n, places := |docs| as real, |PlacesOf(docs, term)| as real;
    log((n - places + 0.5) / (places + 0.5) + 1.0)
  }

  ghost function MeanLength(docs: seq<seq<string>>): real
    requires docs != []
  {
    TotalLength(docs) as real / |docs| as real
  }

  /** The BM25 score: the weight of the rarity, times `f * 2.5` over `f` and what the length takes off. */
  ghost function Weighed(rarity: real, f: real, weight: real): real
    requires f > 0.0 && weight > 0.0
  {
    rarity * (f * 2.5 / (f + weight))
  }

  /** The score of a term is the BM25 one, where `f` is how often the document has it. */
  lemma TermScoreIsBm25(docs: seq<seq<string>>, d: nat, term: string, log: real -> real)
    requires d < |docs| && term in docs[d]
    ensures var f := multiset(docs[d])[term] as real;
      && f > 0.0 && MeanLength(docs) > 0.0 && LengthWeight(|docs[d]|, MeanLength(docs)) > 0.0
      && TermScore(docs, d, term, log)
        == Weighed(Rarity(docs, term, log), f, LengthWeight(|docs[d]|, MeanLength(docs)))
  {
    DocsWithCounts(docs, term);
    LengthIsPart(docs, d);
    assert term in multiset(docs[d]);
    assert AverageLength(docs) == MeanLength(docs) && MeanLength(docs) > 0.0;
    hide DocsWith, PlacesOf, TotalLength, AverageLength, LengthWeight, Normalization, MeanLength;
    NormalizationIsWeighted(Occurrences(docs[d], term), |docs[d]|, MeanLength(docs));
    AverageIsNonNegative(docs);
  }

  lemma {:induction false} LengthIsPart(docs: seq<seq<string>>, d: nat)
    requires d < |docs|
    ensures |docs[d]| <= TotalLength(docs)
  {
    if d > 0 {
      LengthIsPart(docs[1..], d - 1);
    }
  }

  ghost predicate IsGrowing(log: real -> real) {
    forall x, y :: 0.0 < x < y ==> log(x) < log(y)
  }

  /** Of two terms a document has as often, the one that fewer documents have counts for more. */
  lemma RarerTermsCountMore(docs: seq<seq<string>>, d: nat, rare: string, common: string, log: real -> real)
    requires d < |docs| && IsGrowing(log) && rare in docs[d] && common in docs[d]
    requires multiset(docs[d])[rare] == multiset(docs[d])[common]
    requires |PlacesOf(docs, rare)| < |PlacesOf(docs, common)|
    ensures TermScore(docs, d, rare, log) > TermScore(docs, d, common, log)
  {
    TermScoreIsBm25(docs, d, rare, log);
    TermScoreIsBm25(docs, d, common, log);
    RarerWeighsMore(docs, rare, common, log);
    hide TermScore, PlacesOf, LengthWeight, MeanLength, Rarity, IsGrowing, Weighed;
    RarityScales(Rarity(docs, rare, log), Rarity(docs, common, log), multiset(docs[d])[rare] as real,
                 LengthWeight(|docs[d]|, MeanLength(docs)));
  }

  lemma RarerWeighsMore(docs: seq<seq<string>>, rare: string, common: string, log: real -> real)
    requires IsGrowing(log) && |PlacesOf(docs, rare)| < |PlacesOf(docs, common)|
    ensures Rarity(docs, rare, log) > Rarity(docs, common, log)
  {
    DocsWithCounts(docs, rare);
    DocsWithCounts(docs, common);
    hide DocsWith, PlacesOf;
    FewerIsMore(|docs| as real, |PlacesOf(docs, rare)| as real, |PlacesOf(docs, common)| as real);
  }

  lemma RarityScales(a: real, b: real, f: real, weight: real)
    requires a > b && f > 0.0 && weight > 0.0
    ensures Weighed(a, f, weight) > Weighed(b, f, weight)
  {
    var share := f * 2.5 / (f + weight);
    assert share > 0.0;
    assert a * share > b * share;
  }

  lemma FewerIsMore(n: real, r: real, c: real)
    requires 0.0 <= r < c <= n
    ensures (n - r + 0.5) / (r + 0.5) + 1.0 > (n - c + 0.5) / (c + 0.5) + 1.0 > 0.0
  {
    var x, y := (n - r + 0.5) / (r + 0.5), (n - c + 0.5) / (c + 0.5);
    assert x * (r + 0.5) == n - r + 0.5 && y * (c + 0.5) == n - c + 0.5;
    assert y > 0.0;
    assert (y + 1.0) * (r + 0.5) < (y + 1.0) * (c + 0.5) == n + 1.0 == (x + 1.0) * (r + 0.5);
  }

  /** Of two documents as long, the one that repeats a term more often scores higher for it. */
  lemma RepetitionsCountMore(docs: seq<seq<string>>, d: nat, e: nat, term: string, log: real -> real)
    requires d < |docs| && e < |docs| && IsLogarithm(log) && |docs[d]| == |docs[e]|
    requires multiset(docs[d])[term] > multiset(docs[e])[term]
    ensures TermScore(docs, d, term, log) > TermScore(docs, e, term, log)
  {
    TermScoreExactly(docs, d, term, log);
    TermScoreExactly(docs, e, term, log);
    assert term in multiset(docs[d]);
    if term in docs[e] {
      TermScoreIsBm25(docs, d, term, log);
      TermScoreIsBm25(docs, e, term, log);
      RarityIsPositive(docs, term, log);
      hide TermScore, LengthWeight, MeanLength, Rarity, IsLogarithm, Weighed;
      Saturates(Rarity(docs, term, log), multiset(docs[d])[term] as real, multiset(docs[e])[term] as real,
                LengthWeight(|docs[d]|, MeanLength(docs)));
    }
  }

  lemma RarityIsPositive(docs: seq<seq<string>>, term: string, log: real -> real)
    requires IsLogarithm(log)
    ensures Rarity(docs, term, log) > 0.0
  {
    DocsWithCounts(docs, term);
    var n, p := |docs| as real, |PlacesOf(docs, term)| as real;
    assert (n - p + 0.5) / (p + 0.5) > 0.0;
  }

  lemma Saturates(rarity: real, f: real, g: real, c: real)
    requires rarity > 0.0 && f > g > 0.0 && c > 0.0
    ensures Weighed(rarity, f, c) > Weighed(rarity, g, c)
  {
    var x, y := f * 2.5 / (f + c), g * 2.5 / (g + c);
    assert x * (f + c) == f * 2.5 && y * (g + c) == g * 2.5;
    assert y < 2.5 by {
      assert y >= 2.5 ==> y * (g + c) >= 2.5 * (g + c);
    }
    assert y * (f + c) == y * (g + c) + y * (f - g);
    assert y * (f - g) < 2.5 * (f - g);
    assert x * (f + c) > y * (f + c);
    assert rarity * x > rarity * y;
  }

  /** What a search returns with the same score is in the order of the chunks. */
  lemma SearchIsStable(chunks: seq<Chunk>, docs: seq<seq<string>>, terms: seq<string>, log: real -> real, i: nat,
                       j: nat)
    requires |chunks| == |docs| && i < j < |Ranked(Hits(chunks, docs, terms, log))|
    requires var r := Ranked(Hits(chunks, docs, terms, log)); r[i].score == r[j].score
    ensures var r := Ranked(Hits(chunks, docs, terms, log)); r[i].doc < r[j].doc
  {
    hide Sort, Score;
    var hits := Hits(chunks, docs, terms, log);
    var kept, ranked := Filter(hits, Positive), Ranked(hits);
    var score := ranked[i].score;
    var same := (h: Hit) => h.score == score;
    SortIsStable(kept, HitKey, Key(score, 0), same);
    var a, b := FilterPositions(ranked, same, i, j);
    FilterAscends(hits, Positive);
    FilterAscends(kept, same);
  }

  ghost predicate Ascends(s: seq<Hit>) {
    forall i, j :: 0 <= i < j < |s| ==> s[i].doc < s[j].doc
  }

  lemma {:induction false} FilterAscends(s: seq<Hit>, p: Hit -> bool)
    requires Ascends(s)
    ensures Ascends(Filter(s, p))
  {
    if s != [] {
      var rest := Filter(s[1..], p);
      FilterAscends(s[1..], p);
      forall h | h in s[1..]
        ensures s[0].doc < h.doc
      {
        var k :| 0 <= k < |s[1..]| && s[1..][k] == h;
        assert s[k + 1] == h;
      }
      forall j | 0 <= j < |rest|
        ensures s[0].doc < rest[j].doc
      {
        assert rest[j] in rest;
      }
      assert Filter(s, p) == (if p(s[0]) then [s[0]] else []) + rest;
    }
  }

  /** A limit that is not negative gives that many hits, or all; a negative one leaves out as many at the end. */
  lemma SliceExactly<T>(s: seq<T>, limit: int)
    ensures var n := if limit >= 0 then limit else |s| + limit;
      SliceTo(s, limit) == if n <= 0 then [] else if n <= |s| then s[..n] else s
  {
  }

  /** A chunk is searched by its title and its content, with a space in between. */
  lemma IndexedByTitleAndContent(chunks: seq<Chunk>, tokenize: string -> seq<string>, d: nat)
    requires d < |chunks|
    ensures |DocTokens(chunks, tokenize)| == |chunks|
    ensures DocTokens(chunks, tokenize)[d] == tokenize(chunks[d].title + " " + chunks[d].content)
  {
    assert Text(chunks[d]) == chunks[d].title + " " + chunks[d].content;
  }
}
