/** Merging what is known about a project (src/application/services/project-memory-manager.service.ts). */
module Knowledge {

  /** Entries with a key an earlier entry has are dropped. */
  function FirstOfKey<T>(s: seq<T>, key: T -> string): seq<T> {
    if s == [] then [] else
    var before, last := FirstOfKey(s[..|s| - 1], key), s[|s| - 1];
    if HasKey(before, key(last), key) then before else before + [last]
  }

  predicate HasKey<T>(s: seq<T>, k: string, key: T -> string) {
    exists i :: 0 <= i < |s| && key(s[i]) == k
  }

  /** The keep-first union of two lists. */
  function Union<T>(a: seq<T>, b: seq<T>, key: T -> string): seq<T> {
    FirstOfKey(a + b, key)
  }

  ghost predicate DistinctKeys<T>(s: seq<T>, key: T -> string) {
    forall i, j :: 0 <= i < j < |s| ==> key(s[i]) != key(s[j])
  }

  lemma {:induction false} FirstKeepsKeys<T>(s: seq<T>, key: T -> string, k: string)
    ensures HasKey(FirstOfKey(s, key), k, key) <==> HasKey(s, k, key)
  {
    if s != [] {
      var before, last := s[..|s| - 1], s[|s| - 1];
      FirstKeepsKeys(before, key, k);
      HasKeyLast(before, last, k, key);
      HasKeyLast(FirstOfKey(before, key), last, k, key);
      assert s == before + [last];
    }
  }

  lemma HasKeyLast<T>(s: seq<T>, last: T, k: string, key: T -> string)
    ensures HasKey(s + [last], k, key) <==> HasKey(s, k, key) || key(last) == k
  {
    if HasKey(s, k, key) {
      var i :| 0 <= i < |s| && key(s[i]) == k;
      assert key((s + [last])[i]) == k;
    }
    if key(last) == k {
      assert key((s + [last])[|s|]) == k;
    }
  }

  /** Adding more only adds to the end, and what is added is what the first part did not have. */
  lemma {:induction false} FirstOfLonger<T>(a: seq<T>, b: seq<T>, key: T -> string)
    ensures FirstOfKey(a, key) <= FirstOfKey(a + b, key)
    ensures FirstOfKey(FirstOfKey(a, key) + b, key) == FirstOfKey(a + b, key)
  {
    if b == [] {
      assert a + b == a && FirstOfKey(a, key) + b == FirstOfKey(a, key);
      FirstTwice(a, key);
    } else {
      var before, last := b[..|b| - 1], b[|b| - 1];
      FirstOfLonger(a, before, key);
      assert (a + b)[..|a + b| - 1] == a + before;
      assert (FirstOfKey(a, key) + b)[..|FirstOfKey(a, key) + b| - 1] == FirstOfKey(a, key) + before;
    }
  }

  lemma {:induction false} FirstTwice<T>(s: seq<T>, key: T -> string)
    ensures FirstOfKey(FirstOfKey(s, key), key) == FirstOfKey(s, key)
    ensures DistinctKeys(FirstOfKey(s, key), key)
  {
    if s != [] {
      var before, last := FirstOfKey(s[..|s| - 1], key), s[|s| - 1];
      FirstTwice(s[..|s| - 1], key);
      assert (before + [last])[..|before|] == before;
    }
  }

  /** What is dropped at the end is dropped in the middle too. */
  lemma {:induction false} FirstOfTail<T>(a: seq<T>, b: seq<T>, key: T -> string)
    ensures FirstOfKey(a + FirstOfKey(b, key), key) == FirstOfKey(a + b, key)
  {
    if b == [] {
      assert a + b == a;
    } else {
      var before, last := b[..|b| - 1], b[|b| - 1];
      var kept := FirstOfKey(before, key);
      FirstOfTail(a, before, key);
      assert (a + b)[..|a + b| - 1] == a + before;
      if HasKey(kept, key(last), key) {
        KeyInLonger(a, before, key(last), key);
        FirstKeepsKeys(before, key, key(last));
        FirstKeepsKeys(a + before, key, key(last));
      } else {
        assert (a + (kept + [last]))[..|a + kept|] == a + kept;
      }
    }
  }

  lemma KeyInLonger<T>(a: seq<T>, b: seq<T>, k: string, key: T -> string)
    ensures HasKey(a + b, k, key) <==> HasKey(a, k, key) || HasKey(b, k, key)
  {
    if HasKey(a, k, key) {
      var i :| 0 <= i < |a| && key(a[i]) == k;
      assert key((a + b)[i]) == k;
    }
    if HasKey(b, k, key) {
      var i :| 0 <= i < |b| && key(b[i]) == k;
      assert key((a + b)[|a| + i]) == k;
    }
  }

  /** The union is associative, loses no earlier entry, has the keys of both sides once each, and adding a
      side again changes nothing. */
  lemma UnionLaws<T>(a: seq<T>, b: seq<T>, c: seq<T>, key: T -> string)
    ensures Union(Union(a, b, key), c, key) == Union(a, Union(b, c, key), key)
    ensures FirstOfKey(a, key) <= Union(a, b, key) && DistinctKeys(Union(a, b, key), key)
    ensures Union(Union(a, b, key), b, key) == Union(a, b, key) && Union(a, Union(a, b, key), key) == Union(a, b, key)
    ensures forall k :: HasKey(Union(a, b, key), k, key) <==> HasKey(a, k, key) || HasKey(b, k, key)
  {
    hide FirstOfKey, HasKey;
    UnionAssociates(a, b, c, key);
    UnionAbsorbs(a, b, key);
    FirstOfLonger(a, b, key);
    FirstTwice(a + b, key);
    forall k
      ensures HasKey(Union(a, b, key), k, key) <==> HasKey(a, k, key) || HasKey(b, k, key)
    {
      FirstKeepsKeys(a + b, key, k);
      KeyInLonger(a, b, k, key);
    }
  }

  lemma UnionAssociates<T>(a: seq<T>, b: seq<T>, c: seq<T>, key: T -> string)
    ensures Union(Union(a, b, key), c, key) == Union(a, Union(b, c, key), key)
  {
    hide FirstOfKey;
    FirstOfLonger(a + b, c, key);
    FirstOfTail(a, b + c, key);
    assert (a + b) + c == a + (b + c);
  }

  lemma UnionAbsorbs<T>(a: seq<T>, b: seq<T>, key: T -> string)
    ensures Union(Union(a, b, key), b, key) == Union(a, b, key)
    ensures Union(a, Union(a, b, key), key) == Union(a, b, key)
  {
    hide FirstOfKey;
    FirstOfLonger(a + b, b, key);
    Absorbed(a + b, b, key);
    FirstOfTail(a, a + b, key);
    Repeated(a, b, key);
  }

  lemma {:induction false} AbsorbedPart<T>(s: seq<T>, part: seq<T>, key: T -> string)
    requires forall i :: 0 <= i < |part| ==> HasKey(s, key(part[i]), key)
    ensures FirstOfKey(s + part, key) == FirstOfKey(s, key)
  {
    if part == [] {
      assert s + part == s;
    } else {
      var before, last := part[..|part| - 1], part[|part| - 1];
      AbsorbedPart(s, before, key);
      assert (s + part)[..|s + part| - 1] == s + before;
      FirstKeepsKeys(s, key, key(last));
    }
  }

  lemma Absorbed<T>(s: seq<T>, part: seq<T>, key: T -> string)
    requires |part| <= |s| && s[|s| - |part|..] == part
    ensures FirstOfKey(s + part, key) == FirstOfKey(s, key)
  {
    forall i | 0 <= i < |part|
      ensures HasKey(s, key(part[i]), key)
    {
      assert key(s[|s| - |part| + i]) == key(part[i]);
    }
    AbsorbedPart(s, part, key);
  }

  lemma Repeated<T>(a: seq<T>, b: seq<T>, key: T -> string)
    ensures FirstOfKey(a + (a + b), key) == FirstOfKey(a + b, key)
  {
    Absorbed(a, a, key);
    assert a + (a + b) == (a + a) + b;
    FirstOfLonger(a + a, b, key);
    FirstOfLonger(a, b, key);
  }

  method UnionByKey<T>(a: seq<T>, b: seq<T>, key: T -> string) returns (r: seq<T>)
    ensures r == Union(a, b, key)
  {
    var all, seen := a + b, {};
    r := [];
    for i := 0 to |all|
      invariant r == FirstOfKey(all[..i], key)
      invariant forall k :: k in seen <==> HasKey(r, k, key)
    {
      assert all[..i + 1][..i] == all[..i];
      if key(all[i]) in seen {
        continue;
      }
      forall k
        ensures HasKey(r + [all[i]], k, key) <==> k in seen + {key(all[i])}
      {
        HasKeyLast(r, all[i], k, key);
      }
      seen, r := seen + {key(all[i])}, r + [all[i]];
    }
    assert all[..|all|] == all;
  }

  // ----- project knowledge

  /** A structured entry; entries are compared by their JSON text. */
  datatype Record = Record(json: string)

  datatype Auth = UnknownAuth | KnownAuth(kind: string)

  datatype ProjectKnowledge = ProjectKnowledge(
    schemaVersion: string,
    metadata: string,
    auth: Auth,
    modulesRequiringAuth: seq<Record>,
    allModules: seq<Record>,
    businessRules: seq<string>,
    mainFlows: seq<string>,
    externalDependencies: seq<string>,
    uiPatterns: seq<string>,
    testData: seq<Record>,
    consoleNoisePatterns: seq<string>,
    knownTrackingDomains: seq<string>,
    performanceBaselines: seq<Record>,
    notes: seq<string>)

  function Itself(s: string): string {
    s
  }

  function Json(r: Record): string {
    r.json
  }

  function UnionStrings(a: seq<string>, b: seq<string>): seq<string> {
    Union(a, b, Itself)
  }

  function UnionByJson(a: seq<Record>, b: seq<Record>): seq<Record> {
    Union(a, b, Json)
  }

  function MergeKnowledge(existing: ProjectKnowledge, newer: ProjectKnowledge): ProjectKnowledge {
    ProjectKnowledge(
      newer.schemaVersion,
      newer.metadata,
      if newer.auth.UnknownAuth? then existing.auth else newer.auth,
      UnionByJson(existing.modulesRequiringAuth, newer.modulesRequiringAuth),
      UnionByJson(existing.allModules, newer.allModules),
      UnionStrings(existing.businessRules, newer.businessRules),
      UnionStrings(existing.mainFlows, newer.mainFlows),
      UnionStrings(existing.externalDependencies, newer.externalDependencies),
      UnionStrings(existing.uiPatterns, newer.uiPatterns),
      UnionByJson(existing.testData, newer.testData),
      UnionStrings(existing.consoleNoisePatterns, newer.consoleNoisePatterns),
      UnionStrings(existing.knownTrackingDomains, newer.knownTrackingDomains),
      UnionByJson(existing.performanceBaselines, newer.performanceBaselines),
      UnionStrings(existing.notes, newer.notes))
  }

  lemma StringsAssociate(a: seq<string>, b: seq<string>, c: seq<string>)
    ensures UnionStrings(UnionStrings(a, b), c) == UnionStrings(a, UnionStrings(b, c))
    ensures UnionStrings(UnionStrings(a, b), b) == UnionStrings(a, b)
  {
    UnionLaws(a, b, c, Itself);
  }

  lemma RecordsAssociate(a: seq<Record>, b: seq<Record>, c: seq<Record>)
    ensures UnionByJson(UnionByJson(a, b), c) == UnionByJson(a, UnionByJson(b, c))
    ensures UnionByJson(UnionByJson(a, b), b) == UnionByJson(a, b)
  {
    UnionLaws(a, b, c, Json);
  }

  /** Analyses can be merged one by one or together, and merging the same analysis again changes nothing. */
  lemma MergeLaws(a: ProjectKnowledge, b: ProjectKnowledge, c: ProjectKnowledge)
    ensures MergeKnowledge(MergeKnowledge(a, b), c) == MergeKnowledge(a, MergeKnowledge(b, c))
    ensures MergeKnowledge(MergeKnowledge(a, b), b) == MergeKnowledge(a, b)
  {
    hide UnionStrings, UnionByJson;
    RecordsAssociate(a.modulesRequiringAuth, b.modulesRequiringAuth, c.modulesRequiringAuth);
    RecordsAssociate(a.allModules, b.allModules, c.allModules);
    StringsAssociate(a.businessRules, b.businessRules, c.businessRules);
    StringsAssociate(a.mainFlows, b.mainFlows, c.mainFlows);
    StringsAssociate(a.externalDependencies, b.externalDependencies, c.externalDependencies);
    StringsAssociate(a.uiPatterns, b.uiPatterns, c.uiPatterns);
    RecordsAssociate(a.testData, b.testData, c.testData);
    StringsAssociate(a.consoleNoisePatterns, b.consoleNoisePatterns, c.consoleNoisePatterns);
    StringsAssociate(a.knownTrackingDomains, b.knownTrackingDomains, c.knownTrackingDomains);
    RecordsAssociate(a.performanceBaselines, b.performanceBaselines, c.performanceBaselines);
    StringsAssociate(a.notes, b.notes, c.notes);
  }

  // ----- what a merge keeps

  /** `d` lists, in order, the entries of `s` that no earlier entry has the key of; `at` says where they stand. */
  ghost predicate FirstsAt<T>(s: seq<T>, d: seq<T>, at: seq<nat>, key: T -> string) {
    && |at| == |d|
    && (forall i :: 0 <= i < |d| ==> at[i] < |s| && d[i] == s[at[i]] && !HasKey(s[..at[i]], key(d[i]), key))
    && (forall i, j :: 0 <= i < j < |d| ==> at[i] < at[j])
    && forall k :: 0 <= k < |s| ==> HasKey(d, key(s[k]), key)
  }

  /** `r` begins with the distinct entries of `a`, has a key exactly when `a` or `b` has it, and each key once. */
  ghost predicate Merged<T>(a: seq<T>, b: seq<T>, r: seq<T>, key: T -> string) {
    && (exists n: nat, at :: n <= |r| && FirstsAt(a, r[..n], at, key))
    && (forall k :: HasKey(r, k, key) <==> HasKey(a, k, key) || HasKey(b, k, key))
    && (forall i, j :: 0 <= i < j < |r| ==> key(r[i]) != key(r[j]))
    && forall e :: e in r ==> e in a || e in b
  }

  lemma SameFirsts<T>(s: seq<T>, last: T, d: seq<T>, at: seq<nat>, key: T -> string)
    requires FirstsAt(s, d, at, key) && HasKey(d, key(last), key)
    ensures FirstsAt(s + [last], d, at, key)
  {
    hide HasKey;
    forall i | 0 <= i < |d|
      ensures !HasKey((s + [last])[..at[i]], key(d[i]), key)
    {
      assert (s + [last])[..at[i]] == s[..at[i]];
    }
  }

  lemma OneMoreFirst<T>(s: seq<T>, last: T, d: seq<T>, at: seq<nat>, key: T -> string)
    requires FirstsAt(s, d, at, key) && !HasKey(d, key(last), key)
    ensures FirstsAt(s + [last], d + [last], at + [|s|], key)
  {
    var longer, more, places := s + [last], d + [last], at + [|s|];
    assert !HasKey(s, key(last), key);
    assert longer[..|s|] == s;
    hide HasKey;
    forall i | 0 <= i < |more|
      ensures places[i] < |longer| && more[i] == longer[places[i]]
      ensures !HasKey(longer[..places[i]], key(more[i]), key)
    {
      if i < |d| {
        assert longer[..at[i]] == s[..at[i]];
      }
    }
    forall k | 0 <= k < |longer|
      ensures HasKey(more, key(longer[k]), key)
    {
      HasKeyLast(d, last, key(longer[k]), key);
    }
  }

  lemma {:induction false} FirstsOf<T>(s: seq<T>, key: T -> string) returns (at: seq<nat>)
    ensures FirstsAt(s, FirstOfKey(s, key), at, key)
  {
    hide HasKey, FirstsAt;
    if s == [] {
      at := [];
      NoFirsts(key);
    } else {
      var before, last := s[..|s| - 1], s[|s| - 1];
      assert s == before + [last];
      at := FirstsOf(before, key);
      if HasKey(FirstOfKey(before, key), key(last), key) {
        SameFirsts(before, last, FirstOfKey(before, key), at, key);
      } else {
        OneMoreFirst(before, last, FirstOfKey(before, key), at, key);
        at := at + [|before|];
      }
    }
  }

  lemma NoFirsts<T>(key: T -> string)
    ensures FirstsAt([], [], [], key)
  {
  }

  lemma {:induction false} FirstsAreEntries<T>(s: seq<T>, key: T -> string)
    ensures forall e :: e in FirstOfKey(s, key) ==> e in s
  {
    if s != [] {
      FirstsAreEntries(s[..|s| - 1], key);
    }
  }

  lemma UnionMerges<T>(a: seq<T>, b: seq<T>, key: T -> string)
    ensures Merged(a, b, Union(a, b, key), key)
  {
    hide FirstOfKey, HasKey, FirstsAt;
    var r := Union(a, b, key);
    UnionLaws(a, b, b, key);
    FirstsAreEntries(a + b, key);
    var at := FirstsOf(a, key);
    assert r[..|FirstOfKey(a, key)|] == FirstOfKey(a, key);
  }

  /** Of what was known nothing is lost, whatever the newer analysis found: every list of the merged knowledge begins
      with the distinct entries of the earlier one and takes from the newer one exactly what it did not have. What
      describes the analysis itself is the newer one's, and so is the authentication, unless that is unknown. */
  lemma MergeKeeps(existing: ProjectKnowledge, newer: ProjectKnowledge)
    ensures var r := MergeKnowledge(existing, newer);
      && Merged(existing.modulesRequiringAuth, newer.modulesRequiringAuth, r.modulesRequiringAuth, Json)
      && Merged(existing.allModules, newer.allModules, r.allModules, Json)
      && Merged(existing.businessRules, newer.businessRules, r.businessRules, Itself)
      && Merged(existing.mainFlows, newer.mainFlows, r.mainFlows, Itself)
      && Merged(existing.externalDependencies, newer.externalDependencies, r.externalDependencies, Itself)
      && Merged(existing.uiPatterns, newer.uiPatterns, r.uiPatterns, Itself)
      && Merged(existing.testData, newer.testData, r.testData, Json)
      && Merged(existing.consoleNoisePatterns, newer.consoleNoisePatterns, r.consoleNoisePatterns, Itself)
      && Merged(existing.knownTrackingDomains, newer.knownTrackingDomains, r.knownTrackingDomains, Itself)
      && Merged(existing.performanceBaselines, newer.performanceBaselines, r.performanceBaselines, Json)
      && Merged(existing.notes, newer.notes, r.notes, Itself)
    ensures var r := MergeKnowledge(existing, newer);
      && r.schemaVersion == newer.schemaVersion && r.metadata == newer.metadata
      && (newer.auth != UnknownAuth ==> r.auth == newer.auth)
      && (newer.auth == UnknownAuth ==> r.auth == existing.auth)
  {
    hide Merged, Union;
    UnionMerges(existing.modulesRequiringAuth, newer.modulesRequiringAuth, Json);
    UnionMerges(existing.allModules, newer.allModules, Json);
    UnionMerges(existing.businessRules, newer.businessRules, Itself);
    UnionMerges(existing.mainFlows, newer.mainFlows, Itself);
    UnionMerges(existing.externalDependencies, newer.externalDependencies, Itself);
    UnionMerges(existing.uiPatterns, newer.uiPatterns, Itself);
    UnionMerges(existing.testData, newer.testData, Json);
    UnionMerges(existing.consoleNoisePatterns, newer.consoleNoisePatterns, Itself);
    UnionMerges(existing.knownTrackingDomains, newer.knownTrackingDomains, Itself);
    UnionMerges(existing.performanceBaselines, newer.performanceBaselines, Json);
    UnionMerges(existing.notes, newer.notes, Itself);
  }
}
