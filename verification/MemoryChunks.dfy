/** Reading a memory file back into chunks (src/application/services/memory-chunker.service.ts). */
module MemoryChunks {
  import opened Domain
  import opened Lines

  datatype Kind = Project | Route | Flow | SemanticLocator | Scenario | KnownIssue | RuntimeLearning

  function KindName(k: Kind): string {
    match k
    case Project => "project"
    case Route => "route"
    case Flow => "flow"
    case SemanticLocator => "semantic_locator"
    case Scenario => "scenario"
    case KnownIssue => "known_issue"
    case RuntimeLearning => "runtime_learning"
  }

  /** The member of the enumeration a name stands for. */
  function KindOf(name: string): (k: Option<Kind>)
    ensures k.Some? ==> KindName(k.value) == name
    ensures forall kind: Kind :: KindName(kind) == name ==> k == Some(kind)
  {
    if name == "project" then Some(Project)
    else if name == "route" then Some(Route)
    else if name == "flow" then Some(Flow)
    else if name == "semantic_locator" then Some(SemanticLocator)
    else if name == "scenario" then Some(Scenario)
    else if name == "known_issue" then Some(KnownIssue)
    else if name == "runtime_learning" then Some(RuntimeLearning)
    else None
  }

  datatype Chunk = Chunk(id: string, kind: Kind, title: string, content: string)

  // ----- the metadata comment

  predicate IsLower(c: char) {
    'a' <= c <= 'z'
  }

  predicate IsUpper(c: char) {
    'A' <= c <= 'Z'
  }

  predicate IsNumeral(c: char) {
    '0' <= c <= '9'
  }

  function UpperChar(c: char): char {
    if IsLower(c) then (c as int - 'a' as int + 'A' as int) as char else c
  }

  function LowerChar(c: char): char {
    if IsUpper(c) then (c as int - 'A' as int + 'a' as int) as char else c
  }

  function Upper(s: string): (r: string)
    ensures |r| == |s| && forall i :: 0 <= i < |s| ==> r[i] == UpperChar(s[i])
  {
    seq(|s|, i requires 0 <= i < |s| => UpperChar(s[i]))
  }

  function Lower(s: string): (r: string)
    ensures |r| == |s| && forall i :: 0 <= i < |s| ==> r[i] == LowerChar(s[i])
  {
    seq(|s|, i requires 0 <= i < |s| => LowerChar(s[i]))
  }

  predicate IsWord(c: char) {
    IsLower(c) || IsUpper(c) || IsNumeral(c) || c == '_'
  }

  predicate IsIdChar(c: char) {
    IsLower(c) || IsUpper(c) || IsNumeral(c) || c == '-'
  }

  predicate NotClosing(c: char) {
    c != '>'
  }

  /** How many of the first characters have a property. */
  function Run(s: string, p: char -> bool): (n: nat)
    ensures n <= |s|
    ensures forall i :: 0 <= i < n ==> p(s[i])
    ensures n < |s| ==> !p(s[n])
  {
    if s == "" || !p(s[0]) then 0 else
    assert forall i :: 0 < i <= Run(s[1..], p) ==> s[i] == s[1..][i - 1];
    1 + Run(s[1..], p)
  }

  function Skip(s: string): string {
    s[Run(s, IsSpace)..]
  }

  /** The rest after a word, whatever the case it is written in. */
  function After(s: string, word: string): Option<string> {
    if |word| <= |s| && Lower(s[..|word|]) == word then Some(s[|word|..]) else None
  }

  /** What follows the end of the comment, when `s` starts behind the id. */
  function Tail(s: string): Option<string> {
    var t := Skip(s);
    if "|" <= t then
      var n := Run(t, NotClosing);
      if 3 <= n < |t| && t[n - 2..n] == "--" then Some(t[n + 1..]) else None
    else if "-->" <= t then Some(t[3..])
    else None
  }

  /** The longest id of at most `k` characters behind which the comment ends. */
  function IdLength(s: string, k: nat): (n: nat)
    requires k <= |s|
    ensures n <= k
    ensures n > 0 ==> Tail(s[n..]).Some?
  {
    if k == 0 || Tail(s[k..]).Some? then k else IdLength(s, k - 1)
  }

  /** `word` is the type as written; `rest` is what follows the comment. */
  datatype Metadata = Metadata(word: string, id: string, rest: string)

  predicate IsId(s: string) {
    s != "" && forall c <- s :: IsUpper(c) || IsNumeral(c) || c == '-'
  }

  function IdAndRest(s: string, word: string): (m: Option<Metadata>)
    ensures m.Some? ==> IsId(m.value.id)
  {
    var k := IdLength(s, Run(s, IsIdChar));
    if k == 0 then None else Some(Metadata(word, Upper(s[..k]), Tail(s[k..]).value))
  }

  /** What follows `<!-- type:`. */
  function AfterType(s: string): Option<string> {
    if "<!--" <= s then After(Skip(s[4..]), "type:") else None
  }

  /** What follows `| id:`. */
  function AfterBar(s: string): Option<string> {
    var bar := Skip(s);
    if "|" <= bar then After(Skip(bar[1..]), "id:") else None
  }

  /** The comment `<!-- type: word | id: ID -->` at the start of a text, with anything between a further
      bar and the end. */
  function MetadataAt(s: string): Option<Metadata> {
    var typed := AfterType(s);
    if typed.None? then None else
    var t := Skip(typed.value);
    var n := Run(t, IsWord);
    var named := AfterBar(t[n..]);
    if n == 0 || named.None? then None else IdAndRest(Skip(named.value), t[..n])
  }

  datatype Found = Found(before: string, metadata: Metadata)

  /** A comment found behind some more text. */
  function Behind(a: string, found: Option<Found>): Option<Found> {
    match found
    case None => None
    case Some(f) => Some(Found(a + f.before, f.metadata))
  }

  /** The first metadata comment of a text. */
  function FirstMetadata(s: string): Option<Found> {
    if MetadataAt(s).Some? then Some(Found("", MetadataAt(s).value))
    else if s == "" then None
    else Behind([s[0]], FirstMetadata(s[1..]))
  }

  lemma MetadataIdIsId(s: string)
    ensures MetadataAt(s).Some? ==> IsId(MetadataAt(s).value.id)
  {
    hide IsId, AfterType, AfterBar, Run, Skip;
  }

  lemma {:induction false} FoundIdIsId(s: string)
    ensures FirstMetadata(s).Some? ==> IsId(FirstMetadata(s).value.metadata.id)
  {
    hide MetadataAt, IsId;
    MetadataIdIsId(s);
    if MetadataAt(s).None? && s != "" {
      FoundIdIsId(s[1..]);
    }
  }

  // ----- sections

  predicate IsHeading(line: string) {
    "## " <= line
  }

  predicate IsBlank(line: string) {
    Trim(line) == ""
  }

  predicate IsRule(line: string) {
    "---" <= line && IsBlank(line[3..])
  }

  datatype Section = Section(heading: string, text: string)

  function UntilHeading(lines: seq<string>): seq<string> {
    if lines == [] || IsHeading(lines[0]) then [] else [lines[0]] + UntilHeading(lines[1..])
  }

  /** A section goes from its heading to the next one; what comes before the first is in none. */
  function Sections(lines: seq<string>): seq<Section> {
    if lines == [] then []
    else if IsHeading(lines[0]) then
      [Section(lines[0][3..], Join(UntilHeading(lines[1..])))] + Sections(lines[1..])
    else Sections(lines[1..])
  }

  function DropBlank(lines: seq<string>): (r: seq<string>)
    ensures |r| <= |lines|
  {
    if lines == [] || !IsBlank(lines[0]) then lines else DropBlank(lines[1..])
  }

  /** A rule goes, and the blank lines after it. */
  function RemoveRules(lines: seq<string>): seq<string>
    decreases |lines|
  {
    if lines == [] then []
    else if IsRule(lines[0]) then [""] + RemoveRules(DropBlank(lines[1..]))
    else [lines[0]] + RemoveRules(lines[1..])
  }

  function WithoutRules(s: string): string {
    Join(RemoveRules(Split(s)))
  }

  /** What a section says before ids are compared with those of other sections. */
  datatype Reading =
    | NoTitle
    | NoMetadata(title: string)
    | UnknownType(title: string, word: string)
    | Readable(chunk: Chunk)

  function Read(section: Section): Reading {
    var title := Trim(section.heading);
    if title == "" then NoTitle else
    var found := FirstMetadata(Trim(section.text));
    if found.None? then NoMetadata(title) else
    var m := found.value.metadata;
    var kind := KindOf(Lower(m.word));
    if kind.None? then UnknownType(title, m.word)
    else Readable(Chunk(m.id, kind.value, title, Trim(WithoutRules(found.value.before + m.rest))))
  }

  function ReadAll(sections: seq<Section>): seq<Reading> {
    if sections == [] then [] else [Read(sections[0])] + ReadAll(sections[1..])
  }

  function Readings(text: string): seq<Reading> {
    ReadAll(Sections(Split(text)))
  }

  // ----- collecting

  datatype Warning =
    | WithoutTitle
    | WithoutMetadata(title: string)
    | OfUnknownType(title: string, word: string)
    | Duplicate(title: string, id: string)
    | InvalidChunks(count: nat, sections: nat)

  datatype Report = Report(chunks: seq<Chunk>, warnings: seq<Warning>)

  predicate Wanted(c: Chunk, kinds: set<Kind>) {
    kinds == {} || c.kind in kinds
  }

  function IdsOf(r: Reading): set<string> {
    if r.Readable? then {r.chunk.id} else {}
  }

  function SeenAfter(readings: seq<Reading>, seen: set<string>): set<string> {
    if readings == [] then seen else SeenAfter(readings[1..], seen + IdsOf(readings[0]))
  }

  function ChunksOf(r: Reading, seen: set<string>, kinds: set<Kind>): seq<Chunk> {
    if r.Readable? && r.chunk.id !in seen && Wanted(r.chunk, kinds) then [r.chunk] else []
  }

  /** The wanted chunks of the sections whose id no earlier readable section has. */
  function Collected(readings: seq<Reading>, seen: set<string>, kinds: set<Kind>): seq<Chunk> {
    if readings == [] then [] else
    ChunksOf(readings[0], seen, kinds) + Collected(readings[1..], seen + IdsOf(readings[0]), kinds)
  }

  function WarningsOf(r: Reading, seen: set<string>): seq<Warning> {
    match r
    case NoTitle => [WithoutTitle]
    case NoMetadata(title) => [WithoutMetadata(title)]
    case UnknownType(title, word) => [OfUnknownType(title, word)]
    case Readable(c) => if c.id in seen then [Duplicate(c.title, c.id)] else []
  }

  function Warnings(readings: seq<Reading>, seen: set<string>): seq<Warning> {
    if readings == [] then [] else
    WarningsOf(readings[0], seen) + Warnings(readings[1..], seen + IdsOf(readings[0]))
  }

  function ReportOf(readings: seq<Reading>, kinds: set<Kind>): Report {
    var warnings := Warnings(readings, {});
    Report(Collected(readings, {}, kinds),
           warnings + if warnings == [] then [] else [InvalidChunks(|warnings|, |readings|)])
  }

  lemma {:induction false} SeenAppend(a: seq<Reading>, b: seq<Reading>, seen: set<string>)
    ensures SeenAfter(a + b, seen) == SeenAfter(b, SeenAfter(a, seen))
  {
    if a == [] {
      assert a + b == b;
    } else {
      assert (a + b)[1..] == a[1..] + b;
      SeenAppend(a[1..], b, seen + IdsOf(a[0]));
    }
  }

  lemma {:induction false} CollectedAppend(a: seq<Reading>, b: seq<Reading>, seen: set<string>, kinds: set<Kind>)
    ensures Collected(a + b, seen, kinds) == Collected(a, seen, kinds) + Collected(b, SeenAfter(a, seen), kinds)
  {
    if a == [] {
      assert a + b == b;
    } else {
      assert (a + b)[1..] == a[1..] + b;
      CollectedAppend(a[1..], b, seen + IdsOf(a[0]), kinds);
    }
  }

  lemma {:induction false} WarningsAppend(a: seq<Reading>, b: seq<Reading>, seen: set<string>)
    ensures Warnings(a + b, seen) == Warnings(a, seen) + Warnings(b, SeenAfter(a, seen))
  {
    if a == [] {
      assert a + b == b;
    } else {
      assert (a + b)[1..] == a[1..] + b;
      WarningsAppend(a[1..], b, seen + IdsOf(a[0]));
    }
  }

  lemma {:induction false} ReadAllAppend(a: seq<Section>, b: seq<Section>)
    ensures ReadAll(a + b) == ReadAll(a) + ReadAll(b)
    ensures |ReadAll(a)| == |a|
  {
    hide Read;
    if a == [] {
      assert a + b == b;
    } else {
      assert (a + b)[1..] == a[1..] + b;
      ReadAllAppend(a[1..], b);
    }
  }

  /** Without a filter every section is either a chunk or a rejection, and never both. */
  lemma {:induction false} EverySectionCounts(readings: seq<Reading>, seen: set<string>)
    ensures |Collected(readings, seen, {})| + |Warnings(readings, seen)| == |readings|
  {
    if readings != [] {
      EverySectionCounts(readings[1..], seen + IdsOf(readings[0]));
    }
  }

  /** A chunk is collected when it is wanted and no section before its own has its id. */
  lemma {:induction false} CollectedIsFirstOfItsId(readings: seq<Reading>, seen: set<string>, kinds: set<Kind>,
                                                   c: Chunk)
    ensures c in Collected(readings, seen, kinds) <==>
      && Wanted(c, kinds)
      && c.id !in seen
      && exists i :: 0 <= i < |readings| && readings[i] == Readable(c) && c.id !in SeenAfter(readings[..i], seen)
  {
    if readings != [] {
      var first, rest := readings[0], readings[1..];
      var now := seen + IdsOf(first);
      CollectedIsFirstOfItsId(rest, now, kinds, c);
      assert readings[..0] == [];
      forall i | 0 < i <= |rest|
        ensures SeenAfter(readings[..i], seen) == SeenAfter(rest[..i - 1], now)
      {
        assert readings[..i][1..] == rest[..i - 1];
      }
      if c in Collected(rest, now, kinds) {
        var i :| 0 <= i < |rest| && rest[i] == Readable(c) && c.id !in SeenAfter(rest[..i], now);
        assert readings[i + 1] == Readable(c);
      }
      forall i | 0 < i < |readings| && readings[i] == Readable(c) && c.id !in SeenAfter(readings[..i], seen)
        ensures rest[i - 1] == Readable(c) && c.id !in SeenAfter(rest[..i - 1], now) && c.id !in now
      {
        SeenGrows(rest[..i - 1], now);
      }
    }
  }

  lemma {:induction false} SeenGrows(readings: seq<Reading>, seen: set<string>)
    ensures seen <= SeenAfter(readings, seen)
  {
    if readings != [] {
      SeenGrows(readings[1..], seen + IdsOf(readings[0]));
    }
  }

  lemma {:induction false} CollectedIdsAreNew(readings: seq<Reading>, seen: set<string>, kinds: set<Kind>)
    ensures forall c <- Collected(readings, seen, kinds) :: c.id !in seen
    ensures forall i, j :: 0 <= i < j < |Collected(readings, seen, kinds)| ==>
      Collected(readings, seen, kinds)[i].id != Collected(readings, seen, kinds)[j].id
  {
    if readings != [] {
      var first := ChunksOf(readings[0], seen, kinds);
      var rest := Collected(readings[1..], seen + IdsOf(readings[0]), kinds);
      CollectedIdsAreNew(readings[1..], seen + IdsOf(readings[0]), kinds);
      assert Collected(readings, seen, kinds) == first + rest;
      assert forall c <- first + rest :: c in first || c in rest;
    }
  }

  /** The chunker: one pass over the sections with the ids seen so far. The schema of a chunk wants the name of the
      file it is from: without one, parsing throws exactly when there is a chunk to collect. */
  method Parse(text: string, sourceFile: string, kinds: set<Kind>) returns (r: Outcome<Report>)
    ensures r.Thrown? <==> sourceFile == "" && Collected(Readings(text), {}, kinds) != []
    ensures r.Thrown? ==> r.error == SchemaInvalid
    ensures r.Ok? ==> r.value == ReportOf(Readings(text), kinds)
    ensures r.Ok? ==> forall i, j :: 0 <= i < j < |r.value.chunks| ==> r.value.chunks[i].id != r.value.chunks[j].id
  {
    hide Read, Sections, MetadataAt, FirstMetadata, WithoutRules, Trim, Collected, Warnings, SeenAfter, Lower, KindOf;
    var sections := Sections(Split(text));
    var chunks, warnings, seen, rejected := [], [], {}, 0;
    ghost var readings := [];
    NothingRead(kinds);
    for i := 0 to |sections|
      invariant readings == ReadAll(sections[..i])
      invariant chunks == Collected(readings, {}, kinds)
      invariant warnings == Warnings(readings, {})
      invariant seen == SeenAfter(readings, {})
      invariant rejected == |warnings|
      invariant sourceFile == "" ==> chunks == []
    {
      var title := Trim(sections[i].heading);
      ghost var reading := Read(sections[i]);
      NextReading(readings, reading, kinds);
      assert sections[..i + 1] == sections[..i] + [sections[i]];
      ReadAllAppend(sections[..i], [sections[i]]);
      readings := readings + [reading];
      ReadSteps(sections[i]);
      if title == "" {
        warnings, rejected := warnings + [WithoutTitle], rejected + 1;
        continue;
      }
      var found := FirstMetadata(Trim(sections[i].text));
      if found.None? {
        warnings, rejected := warnings + [WithoutMetadata(title)], rejected + 1;
        continue;
      }
      var m := found.value.metadata;
      var kind := KindOf(Lower(m.word));
      if kind.None? {
        warnings, rejected := warnings + [OfUnknownType(title, m.word)], rejected + 1;
        continue;
      }
      if m.id in seen {
        warnings, rejected := warnings + [Duplicate(title, m.id)], rejected + 1;
        continue;
      }
      seen := seen + {m.id};
      if kinds != {} && kind.value !in kinds {
        continue;
      }
      if sourceFile == "" {
        CollectedStays(sections, i + 1, readings, kinds);
        return Thrown(SchemaInvalid);
      }
      chunks := chunks + [Chunk(m.id, kind.value, title, Trim(WithoutRules(found.value.before + m.rest)))];
    }
    if rejected > 0 {
      warnings := warnings + [InvalidChunks(rejected, |sections|)];
    }
    assert sections[..|sections|] == sections;
    ReadAllAppend(sections, []);
    CollectedIdsAreNew(readings, {}, kinds);
    r := Ok(Report(chunks, warnings));
  }

  /** What is collected from the first sections stays. */
  lemma CollectedStays(sections: seq<Section>, i: nat, readings: seq<Reading>, kinds: set<Kind>)
    requires i <= |sections| && readings == ReadAll(sections[..i]) && Collected(readings, {}, kinds) != []
    ensures Collected(ReadAll(sections), {}, kinds) != []
  {
    hide Read, ReadAll, Collected, SeenAfter;
    assert sections == sections[..i] + sections[i..];
    ReadAllAppend(sections[..i], sections[i..]);
    CollectedAppend(readings, ReadAll(sections[i..]), {}, kinds);
  }

  lemma NothingRead(kinds: set<Kind>)
    ensures Collected([], {}, kinds) == [] && Warnings([], {}) == [] && SeenAfter([], {}) == {}
  {
  }

  /** The four ways a section can read, as the chunker tests them. */
  lemma ReadSteps(section: Section)
    ensures var title := Trim(section.heading);
      var found := FirstMetadata(Trim(section.text));
      var reading := Read(section);
      if title == "" then reading == NoTitle
      else if found.None? then reading == NoMetadata(title)
      else
        var m := found.value.metadata;
        var kind := KindOf(Lower(m.word));
        if kind.None? then reading == UnknownType(title, m.word)
        else reading == Readable(Chunk(m.id, kind.value, title, Trim(WithoutRules(found.value.before + m.rest))))
  {
  }

  /** What one more section does to the chunks, the warnings and the ids seen. */
  lemma NextReading(readings: seq<Reading>, next: Reading, kinds: set<Kind>)
    ensures var seen := SeenAfter(readings, {});
      && SeenAfter(readings + [next], {}) == seen + IdsOf(next)
      && Collected(readings + [next], {}, kinds) == Collected(readings, {}, kinds) + Collected([next], seen, kinds)
      && Warnings(readings + [next], {}) == Warnings(readings, {}) + Warnings([next], seen)
    ensures Collected([next], SeenAfter(readings, {}), kinds) == ChunksOf(next, SeenAfter(readings, {}), kinds)
    ensures Warnings([next], SeenAfter(readings, {})) == WarningsOf(next, SeenAfter(readings, {}))
  {
    SeenAppend(readings, [next], {});
    CollectedAppend(readings, [next], {}, kinds);
    WarningsAppend(readings, [next], {});
    assert [next][1..] == [];
  }
}
