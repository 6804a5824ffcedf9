/** Appending promoted chunks to a memory file
    (src/application/use-cases/run-pipeline-promote-learning.usecase.ts). */
module MemoryPromotion {
  import opened Domain
  import opened Lines
  import opened MemoryChunks
  import opened MemoryRendering
  import opened ChunkRenderer

  function FirstNonBlank(lines: seq<string>): string {
    if lines == [] then ""
    else if !IsBlank(lines[0]) then lines[0]
    else FirstNonBlank(lines[1..])
  }

  predicate HasHeader(content: string) {
    Trim(FirstNonBlank(Split(content))) == HEADER
  }

  function EnsureHeader(content: string): string {
    if HasHeader(content) then content
    else if Trim(content) == "" then HEADER
    else HEADER + "\n\n" + Trim(content)
  }

  function JoinBlank(texts: seq<string>): string {
    if texts == [] then ""
    else if |texts| == 1 then texts[0]
    else texts[0] + "\n\n" + JoinBlank(texts[1..])
  }

  function Promoted(existing: string, texts: seq<string>): string {
    EnsureHeader(existing) + "\n\n" + JoinBlank(texts)
  }

  /** The promotion loop: what is approved and can be rendered is appended in order, and without anything
      to append the file is left alone. */
  method Promote(existing: string, candidates: seq<Candidate>, approves: Candidate -> bool)
    returns (written: Option<string>, warnings: seq<Candidate>)
    ensures var texts := RenderedTexts(Filter(candidates, approves));
      written == if texts == [] then None else Some(Promoted(existing, texts))
    ensures warnings == Filter(Filter(candidates, approves), Unconvertible)
  {
    hide ChunkType, Promoted, Filter, RenderedTexts;
    var promoted: seq<string> := [];
    warnings := [];
    NothingPromoted(approves);
    for i := 0 to |candidates|
      invariant promoted == RenderedTexts(Filter(candidates[..i], approves))
      invariant warnings == Filter(Filter(candidates[..i], approves), Unconvertible)
    {
      var c := candidates[i];
      assert candidates[..i + 1] == candidates[..i] + [c];
      OneMoreCandidate(candidates[..i], c, approves);
      if approves(c) {
        var chunk := Render(c);
        match chunk {
          case Some(text) => promoted := promoted + [text];
          case None => warnings := warnings + [c];
        }
      }
    }
    assert candidates[..|candidates|] == candidates;
    written := if promoted == [] then None else Some(Promoted(existing, promoted));
  }

  lemma NothingPromoted(approves: Candidate -> bool)
    ensures RenderedTexts(Filter([], approves)) == [] && Filter(Filter([], approves), Unconvertible) == []
  {
  }

  /** What one more candidate adds: its text or a warning if it is approved, and nothing otherwise. */
  lemma OneMoreCandidate(before: seq<Candidate>, c: Candidate, approves: Candidate -> bool)
    ensures var kept, longer := Filter(before, approves), Filter(before + [c], approves);
      if approves(c) then
        && RenderedTexts(longer)
          == RenderedTexts(kept) + (if ChunkType(c).Some? then [Rendered(c, ChunkType(c).value)] else [])
        && Filter(longer, Unconvertible) == Filter(kept, Unconvertible) + (if ChunkType(c).None? then [c] else [])
      else longer == kept
  {
    FilterAppend(before, [c], approves);
    FilterOne(c, approves);
    var kept := Filter(before, approves);
    if approves(c) {
      FilterAppend(kept, [c], Unconvertible);
      FilterOne(c, Unconvertible);
      RenderedAppend(kept, [c]);
      OneRendered(c);
    }
    hide Filter, RenderedTexts, ChunkType;
  }

  lemma FilterOne(c: Candidate, p: Candidate -> bool)
    ensures Filter([c], p) == if p(c) then [c] else []
  {
    assert [c][1..] == [];
  }

  // ----- trimming a file

  /** One more character at the end of the last line. */
  function Extend(lines: seq<string>, c: char): (r: seq<string>)
    requires lines != []
    ensures r != []
  {
    if c == '\n' then lines + [""] else lines[..|lines| - 1] + [lines[|lines| - 1] + [c]]
  }

  lemma PrependExtend(first: char, lines: seq<string>, c: char)
    requires lines != []
    ensures Prepend(first, Extend(lines, c)) == Extend(Prepend(first, lines), c)
  {
    if c != '\n' && |lines| == 1 {
      assert [first] + (lines[0] + [c]) == [first] + lines[0] + [c];
    }
  }

  lemma PrependToNothing(c: char)
    ensures Prepend(c, [""]) == Extend([""], c)
  {
    assert [c] + "" == [c] && "" + [c] == [c];
  }

  lemma {:induction false} SplitLast(s: string, c: char)
    ensures Split(s + [c]) == Extend(Split(s), c)
  {
    if s == "" {
      assert s + [c] == [c] && [c][1..] == "";
      PrependToNothing(c);
    } else {
      hide Prepend, Extend;
      SplitLast(s[1..], c);
      assert (s + [c])[0] == s[0] && (s + [c])[1..] == s[1..] + [c];
      PrependExtend(s[0], Split(s[1..]), c);
    }
  }

  lemma JoinLast(lines: seq<string>, l: string, c: char)
    ensures Join(lines + [l + [c]]) == Join(lines + [l]) + [c]
  {
    if lines == [] {
      assert lines + [l] == [l] && lines + [l + [c]] == [l + [c]];
    } else {
      JoinAppend(lines, [l]);
      JoinAppend(lines, [l + [c]]);
    }
  }

  lemma {:induction false} UntilHeadingLast(lines: seq<string>, l: string)
    ensures UntilHeading(lines + [l]) ==
      if UntilHeading(lines) == lines && !IsHeading(l) then lines + [l] else UntilHeading(lines)
    ensures |UntilHeading(lines)| <= |lines|
  {
    if lines == [] {
      assert lines + [l] == [l] && [l][1..] == [];
    } else {
      assert (lines + [l])[1..] == lines[1..] + [l];
      UntilHeadingLast(lines[1..], l);
      assert lines == [lines[0]] + lines[1..];
    }
  }

  /** A space at the end of the last line does not change how sections read, unless it makes it a heading. */
  lemma {:induction false} LastLineReads(lines: seq<string>, l: string, c: char)
    requires IsSpace(c)
    requires IsHeading(l + [c]) ==> IsHeading(l)
    ensures ReadAll(Sections(lines + [l + [c]])) == ReadAll(Sections(lines + [l]))
  {
    hide Read, Join, Trim, IsSpace;
    assert IsHeading(l) ==> IsHeading(l + [c]);
    if lines == [] {
      assert lines + [l] == [l] && lines + [l + [c]] == [l + [c]];
      assert [l][1..] == [] && [l + [c]][1..] == [];
      if IsHeading(l) {
        assert (l + [c])[3..] == l[3..] + [c];
        HeadingIgnoresSpaceAfter(l[3..], Join([]), c);
      }
    } else {
      assert (lines + [l])[1..] == lines[1..] + [l];
      assert (lines + [l + [c]])[1..] == lines[1..] + [l + [c]];
      LastLineReads(lines[1..], l, c);
      if IsHeading(lines[0]) {
        UntilHeadingLast(lines[1..], l);
        UntilHeadingLast(lines[1..], l + [c]);
        JoinLast(lines[1..], l, c);
        TextIgnoresSpaceAfter(lines[0][3..], Join(lines[1..] + [l]), c);
      }
    }
  }

  lemma HeadingIgnoresSpaceAfter(heading: string, text: string, c: char)
    requires IsSpace(c)
    ensures Read(Section(heading + [c], text)) == Read(Section(heading, text))
  {
    hide Trim, FirstMetadata, WithoutRules, KindOf, Lower, IsSpace;
    TrimIgnoresSpaceAfter(heading, c);
  }

  lemma TextIgnoresSpaceAfter(heading: string, text: string, c: char)
    requires IsSpace(c)
    ensures Read(Section(heading, text + [c])) == Read(Section(heading, text))
  {
    hide Trim, FirstMetadata, WithoutRules, KindOf, Lower, IsSpace;
    TrimIgnoresSpaceAfter(text, c);
  }

  function LastLine(s: string): string {
    Split(s)[|Split(s)| - 1]
  }

  /** The same sections, but what the last one says may differ below its title. */
  predicate Near(a: seq<Reading>, b: seq<Reading>) {
    && |a| == |b|
    && (forall i :: 0 <= i < |a| - 1 ==> a[i] == b[i])
    && (a != [] ==> (a[|a| - 1].NoTitle? <==> b[|b| - 1].NoTitle?))
  }

  /** The longer list has one more section at the end, without a title. */
  predicate EndsOnUntitled(longer: seq<Reading>, shorter: seq<Reading>) {
    longer != [] && longer[|longer| - 1].NoTitle? && Near(longer[..|longer| - 1], shorter)
  }

  lemma SpaceAfterReads(s: string, c: char)
    requires IsSpace(c)
    ensures !(LastLine(s) == "##" && c == ' ') ==> Readings(s + [c]) == Readings(s)
    ensures LastLine(s) == "##" && c == ' ' ==> EndsOnUntitled(Readings(s + [c]), Readings(s))
  {
    hide Read, Split, ReadAll, IsSpace;
    var lines := Split(s);
    var before, l := lines[..|lines| - 1], LastLine(s);
    assert lines == before + [l];
    SplitLast(s, c);
    if c == '\n' {
      BlankEnd(lines);
    } else if l == "##" && c == ' ' {
      assert l + [c] == "## ";
      NewSection(before);
    } else {
      assert IsHeading(l + [c]) ==> IsHeading(l) by {
        HeadingBySpace(l, c);
      }
      LastLineReads(before, l, c);
    }
  }

  lemma HeadingBySpace(l: string, c: char)
    requires !(l == "##" && c == ' ')
    ensures IsHeading(l + [c]) ==> IsHeading(l)
  {
    if |l| >= 3 {
      assert (l + [c])[..3] == l[..3];
    } else if |l| == 2 {
      var longer := l + [c];
      assert longer[0] == l[0] && longer[1] == l[1] && longer[2] == c;
      assert l == "##" <==> l[0] == '#' && l[1] == '#';
    }
  }

  lemma NewSection(before: seq<string>)
    ensures EndsOnUntitled(ReadAll(Sections(before + ["## "])), ReadAll(Sections(before + ["##"])))
  {
    SectionsAppend(before, ["## "]);
    assert ["## "][1..] == [] && ["## "][0][3..] == "";
    assert Sections(["## "]) == [Section("", "")];
    ReadAllAppend(Sections(before), Sections(["## "]));
    OneReading(Section("", ""));
    hide Sections, ReadAll, Trim;
    MarksAreText(before);
    var longer := ReadAll(Sections(before + ["## "]));
    assert longer[..|longer| - 1] == ReadAll(Sections(before));
  }

  lemma NearBehind(x: Reading, y: Reading, a: seq<Reading>, b: seq<Reading>)
    requires Near(a, b) && (x.NoTitle? <==> y.NoTitle?) && (a != [] ==> x == y)
    ensures Near([x] + a, [y] + b)
  {
  }

  lemma TitleIsOfHeading(heading: string, text: string, other: string)
    ensures Read(Section(heading, text)).NoTitle? <==> Read(Section(heading, other)).NoTitle?
  {
    hide Trim, FirstMetadata, WithoutRules, KindOf, Lower;
  }

  /** Two marks at the end are text of the last section, if there is one. */
  lemma {:induction false} MarksAreText(before: seq<string>)
    ensures Near(ReadAll(Sections(before)), ReadAll(Sections(before + ["##"])))
  {
    hide Join, Read;
    if before == [] {
      assert before + ["##"] == ["##"] && ["##"][1..] == [];
    } else {
      hide Near, UntilHeading;
      var rest := before[1..];
      assert (before + ["##"])[1..] == rest + ["##"];
      MarksAreText(rest);
      if IsHeading(before[0]) {
        MarksStayInSection(rest);
        var first, marked := Section(before[0][3..], Join(UntilHeading(rest))),
          Section(before[0][3..], Join(UntilHeading(rest + ["##"])));
        TitleIsOfHeading(before[0][3..], first.text, marked.text);
        NearBehind(Read(first), Read(marked), ReadAll(Sections(rest)), ReadAll(Sections(rest + ["##"])));
        assert Sections(before) == [first] + Sections(rest);
        assert Sections(before + ["##"]) == [marked] + Sections(rest + ["##"]);
        FirstReading(first, Sections(rest));
        FirstReading(marked, Sections(rest + ["##"]));
      }
    }
  }

  lemma FirstReading(first: Section, rest: seq<Section>)
    ensures ReadAll([first] + rest) == [Read(first)] + ReadAll(rest) && (ReadAll(rest) == [] <==> rest == [])
  {
    assert ([first] + rest)[1..] == rest;
  }

  /** When a heading follows, the text before it does not grow. */
  lemma {:induction false} MarksStayInSection(lines: seq<string>)
    ensures Sections(lines) != [] ==> UntilHeading(lines + ["##"]) == UntilHeading(lines)
  {
    if lines != [] && !IsHeading(lines[0]) {
      assert (lines + ["##"])[1..] == lines[1..] + ["##"];
      MarksStayInSection(lines[1..]);
    }
  }

  /** The file ends in a heading without a title that only its trailing space makes a heading. */
  predicate EndsUntitled(s: string) {
    var t := TrimRight(s);
    |t| < |s| && s[|t|] == ' ' && LastLine(t) == "##"
  }

  lemma {:induction false} LastCharacter(s: string)
    requires s != "" && s[|s| - 1] != '\n'
    ensures LastLine(s) != "" && LastLine(s)[|LastLine(s)| - 1] == s[|s| - 1]
  {
    var before, c := s[..|s| - 1], s[|s| - 1];
    assert s == before + [c];
    SplitLast(before, c);
  }

  lemma EndsUntitledStep(s: string, c: char)
    requires IsSpace(c)
    ensures TrimRight(s + [c]) == TrimRight(s)
    ensures EndsUntitled(s + [c]) <==>
      if s != "" && IsSpace(s[|s| - 1]) then EndsUntitled(s) else c == ' ' && LastLine(s) == "##"
  {
    hide LastLine;
    assert (s + [c])[..|s|] == s;
    if s != "" && IsSpace(s[|s| - 1]) {
      TrimRightIsShorter(s);
      assert (s + [c])[|TrimRight(s)|] == s[|TrimRight(s)|];
    }
  }

  lemma TrimRightIsShorter(s: string)
    requires s != "" && IsSpace(s[|s| - 1])
    ensures |TrimRight(s)| < |s|
  {
  }

  /** Whether trimming the end changes how a file reads, and how. */
  ghost predicate TrimsAsSaid(s: string) {
    if EndsUntitled(s) then EndsOnUntitled(Readings(s), Readings(TrimRight(s)))
    else Readings(TrimRight(s)) == Readings(s)
  }

  lemma TrimRightStep(before: string, c: char)
    requires IsSpace(c) && TrimsAsSaid(before)
    ensures TrimsAsSaid(before + [c])
  {
    hide Readings, LastLine, EndsUntitled, EndsOnUntitled, TrimRight, IsSpace;
    SpaceAfterReads(before, c);
    EndsUntitledStep(before, c);
    if before != "" && IsSpace(before[|before| - 1]) {
      SpaceEndsNoHeading(before);
    } else {
      NothingToTrim(before);
    }
  }

  lemma {:induction false} TrimRightReads(s: string)
    ensures TrimsAsSaid(s)
  {
    hide TrimsAsSaid, IsSpace;
    if s != "" && IsSpace(s[|s| - 1]) {
      TrimRightReads(s[..|s| - 1]);
      TrimRightStep(s[..|s| - 1], s[|s| - 1]);
      assert s == s[..|s| - 1] + [s[|s| - 1]];
    } else {
      NothingTrimmed(s);
    }
  }

  lemma NothingTrimmed(s: string)
    requires s == "" || !IsSpace(s[|s| - 1])
    ensures TrimsAsSaid(s)
  {
    hide Readings;
    NothingToTrim(s);
  }

  lemma NothingToTrim(s: string)
    requires s == "" || !IsSpace(s[|s| - 1])
    ensures TrimRight(s) == s && !EndsUntitled(s)
  {
  }

  lemma SpaceEndsNoHeading(s: string)
    requires s != "" && IsSpace(s[|s| - 1])
    ensures LastLine(s) != "##"
  {
    if s[|s| - 1] == '\n' {
      assert s == s[..|s| - 1] + ['\n'];
      SplitLast(s[..|s| - 1], '\n');
    } else {
      LastCharacter(s);
    }
  }

  /** The first thing in the file is a heading that is indented, and so is none. */
  predicate StartsIndented(s: string) {
    var t := TrimLeft(s);
    IsHeading(t) && |t| < |s| && s[|s| - |t| - 1] != '\n'
  }

  lemma SpaceBeforeReads(c: char, s: string)
    requires IsSpace(c)
    ensures !(c != '\n' && IsHeading(s)) ==> Readings([c] + s) == Readings(s)
    ensures c != '\n' && IsHeading(s) ==> Readings(s) != [] && Readings(s)[1..] == Readings([c] + s)
  {
    hide Read, Join;
    var lines := Split(s);
    assert ([c] + s)[1..] == s;
    FirstLineHeading(s);
    if c == '\n' {
      assert Split([c] + s) == [""] + lines;
      assert ([""] + lines)[1..] == lines;
    } else {
      var first := [c] + lines[0];
      assert Split([c] + s) == [first] + lines[1..];
      assert first[0] == c && c != '#';
      assert ([first] + lines[1..])[1..] == lines[1..];
      ReadAllAppend(Sections(lines[1..]), []);
      ReadAllAppend(Sections(lines), []);
    }
  }

  lemma {:induction false} FirstLineStarts(s: string)
    ensures Split(s)[0] <= s
  {
    if s != "" {
      FirstLineStarts(s[1..]);
    }
  }

  lemma FirstLineHeading(s: string)
    ensures IsHeading(Split(s)[0]) <==> IsHeading(s)
  {
    hide Split;
    FirstLineStarts(s);
    if IsHeading(s) {
      assert s == "## " + s[3..];
      SplitPrefix("## ", s[3..]);
    }
  }

  lemma {:induction false} TrimLeftReads(s: string)
    ensures !StartsIndented(s) ==> Readings(TrimLeft(s)) == Readings(s)
    ensures StartsIndented(s) ==> Readings(TrimLeft(s)) != [] && Readings(TrimLeft(s))[1..] == Readings(s)
  {
    hide Readings;
    if s != "" && IsSpace(s[0]) {
      TrimLeftReads(s[1..]);
      SpaceBeforeReads(s[0], s[1..]);
      assert s == [s[0]] + s[1..];
      TrimLeftIsSuffix(s[1..]);
    }
  }

  lemma {:induction false} TrimLeftIsSuffix(s: string)
    ensures |TrimLeft(s)| <= |s|
    ensures s != "" && IsSpace(s[0]) ==> |TrimLeft(s)| < |s|
    ensures s != "" && !IsSpace(s[0]) ==> TrimLeft(s) == s
  {
    if s != "" && IsSpace(s[0]) {
      TrimLeftIsSuffix(s[1..]);
    }
  }

  // ----- promotion

  /** The header can be put in without any section noticing: there is one, or neither edge matters, or both do
      and no section has a title. */
  ghost predicate HeaderIsHarmless(content: string) {
    var ends, starts := EndsUntitled(content), StartsIndented(TrimRight(content));
    HasHeader(content) || (!ends && !starts) || (ends && starts && Untitled(Readings(Trim(content))))
  }

  ghost predicate Untitled(readings: seq<Reading>) {
    forall r <- readings :: r.NoTitle?
  }

  lemma HeaderReads(core: string)
    ensures Readings(HEADER + "\n\n" + core) == Readings(core)
    ensures Readings(HEADER) == []
  {
    hide Split, Read;
    assert HEADER + "\n\n" + core == HEADER + "\n" + ("" + "\n" + core);
    assert HEADER[0] == '<';
    HeaderIsOneLine();
    SplitLine(HEADER, "" + "\n" + core);
    SplitLine("", core);
    var lines := Split(core);
    assert Split(HEADER + "\n\n" + core) == [HEADER] + ([""] + lines);
    assert ([HEADER] + ([""] + lines))[1..] == [""] + lines && ([""] + lines)[1..] == lines;
    assert !IsHeading("") && !IsHeading(HEADER);
    assert Sections([""] + lines) == Sections(lines);
    assert Sections([HEADER] + ([""] + lines)) == Sections(lines);
    assert [HEADER][1..] == [];
  }

  lemma HeaderIsOneLine()
    ensures OneLine(HEADER) && OneLine("")
  {
  }

  lemma NothingReads()
    ensures Readings("") == []
  {
    assert [""][1..] == [];
    assert !IsHeading("");
  }

  function SectionsGained(content: string): int {
    (if StartsIndented(TrimRight(content)) then 1 else 0) - (if EndsUntitled(content) then 1 else 0)
  }

  /** One section more at the start and one without a title less at the end make the same list only when no
      section has a title. */
  lemma ShiftsExactly(shifted: seq<Reading>, middle: seq<Reading>, all: seq<Reading>)
    requires shifted != [] && shifted[1..] == middle && EndsOnUntitled(all, middle)
    ensures shifted == all <==> Untitled(shifted)
  {
    var n := |middle|;
    assert |shifted| == |all| == n + 1;
    assert forall i :: 0 <= i < n ==> shifted[i + 1] == middle[i];
    assert forall i :: 0 <= i < n ==> all[..n][i] == all[i];
    if shifted == all {
      for k := 0 to n
        invariant forall i :: n - k <= i <= n ==> shifted[i].NoTitle?
      {
        var i := n - k - 1;
        assert shifted[i] == all[i] && (all[i].NoTitle? <==> middle[i].NoTitle?) && middle[i] == shifted[i + 1];
      }
    }
    if Untitled(shifted) {
      assert forall i :: 0 <= i < n ==> middle[i].NoTitle?;
      assert forall i :: 0 <= i <= n ==> all[i] == shifted[i];
    }
  }

  /** What putting the header in does to the sections. They read the same if and only if there is a header
      already, or neither edge matters, or both do and no section has a title: an indented heading at the start
      becomes a section and a heading without a title at the end stops being one. */
  lemma EnsureHeaderReads(content: string)
    ensures Readings(EnsureHeader(content)) == Readings(content) <==> HeaderIsHarmless(content)
    ensures !HasHeader(content) ==> |Readings(EnsureHeader(content))| == |Readings(content)| + SectionsGained(content)
  {
    hide Readings, HasHeader, StartsIndented, EndsUntitled;
    TrimRightReads(content);
    TrimLeftReads(TrimRight(content));
    HeaderReads(Trim(content));
    NothingReads();
    if EndsUntitled(content) && StartsIndented(TrimRight(content)) {
      ShiftsExactly(Readings(Trim(content)), Readings(TrimRight(content)), Readings(content));
    }
  }

  lemma HeaderIsTrimmed()
    ensures Trim(HEADER) == HEADER && OneLine(HEADER)
  {
    assert !IsSpace('<') && !IsSpace('>') && HEADER[|HEADER| - 1] == '>' && HEADER[0] == '<';
    assert TrimRight(HEADER) == HEADER && TrimLeft(HEADER) == HEADER;
  }

  lemma FirstIsFirst(line: string, rest: seq<string>)
    requires !IsBlank(line)
    ensures FirstNonBlank([line] + rest) == line
  {
  }

  lemma HeaderIsHeader(rest: string)
    ensures HasHeader(HEADER) && HasHeader(HEADER + "\n" + rest)
  {
    HeaderIsTrimmed();
    hide Trim, Split, FirstNonBlank;
    SplitLine(HEADER, rest);
    FirstIsFirst(HEADER, Split(rest));
    FirstIsFirst(HEADER, []);
    assert [HEADER] + [] == [HEADER];
  }

  /** Putting the header in puts it first, once, and keeps what there was but for the blanks around it: a file without
      anything else becomes the header alone. */
  lemma HeaderGoesFirst(content: string)
    ensures HasHeader(EnsureHeader(content)) && EnsureHeader(EnsureHeader(content)) == EnsureHeader(content)
    ensures !HasHeader(content) && Trim(content) == "" ==> EnsureHeader(content) == HEADER
    ensures !HasHeader(content) && Trim(content) != "" ==> EnsureHeader(content) == HEADER + "\n\n" + Trim(content)
  {
    hide HasHeader, Trim;
    HeaderIsHeader("\n" + Trim(content));
    assert HEADER + "\n\n" + Trim(content) == HEADER + "\n" + ("\n" + Trim(content));
  }

  /** The header really can change a file: this one gains a section. */
  lemma HeaderCanAddSection()
    ensures !HeaderIsHarmless("  ## A") && |Readings(EnsureHeader("  ## A"))| == |Readings("  ## A")| + 1
  {
    hide Readings, EnsureHeader, HasHeader, EndsUntitled, StartsIndented;
    IndentedStart();
    EnsureHeaderReads("  ## A");
  }

  lemma IndentedStart()
    ensures var s := "  ## A";
      !HasHeader(s) && !EndsUntitled(s) && StartsIndented(TrimRight(s))
  {
    hide IsHeading, Split;
    var s := "  ## A";
    assert s[1..] == " ## A" && s[1..][1..] == "## A" && s[1] == ' ';
    assert |s| == 6 && s[5] == 'A' && !IsSpace('A') && IsSpace(' ') && !IsSpace('#');
    assert "## A"[0] == '#' && TrimLeft("## A") == "## A";
    assert TrimLeft(s[1..]) == "## A" && TrimRight(s) == s && TrimLeft(s) == "## A";
    assert "## A" == "## " + "A";
    HeadingStays("## ", "A") by {
      PlainHeading();
    }
    SpacedIsOneLine();
    SplitLine(s, "");
    assert FirstNonBlank([s]) == s && HEADER[0] == '<';
  }

  lemma PlainHeading()
    ensures IsHeading("## ")
  {
  }

  lemma SpacedIsOneLine()
    ensures OneLine("  ## A")
  {
  }

  function AllReadings(texts: seq<string>): seq<Reading> {
    if texts == [] then [] else Readings(texts[0]) + AllReadings(texts[1..])
  }

  lemma {:induction false} JoinBlankReads(texts: seq<string>)
    requires texts != [] && forall t <- texts :: IsHeading(t)
    ensures Readings(JoinBlank(texts)) == AllReadings(texts)
    ensures IsHeading(JoinBlank(texts))
  {
    hide Readings, IsHeading;
    assert texts[0] in texts;
    if |texts| == 1 {
      assert texts[1..] == [];
    } else {
      JoinBlankReads(texts[1..]);
      FirstLineHeading(JoinBlank(texts[1..]));
      ReadingsAppend(texts[0], JoinBlank(texts[1..]));
      HeadingStays(texts[0], "\n\n" + JoinBlank(texts[1..]));
      assert JoinBlank(texts) == texts[0] + ("\n\n" + JoinBlank(texts[1..]));
    }
  }

  lemma HeadingStays(a: string, b: string)
    requires IsHeading(a)
    ensures IsHeading(a + b)
  {
    assert (a + b)[..3] == a[..3];
  }

  /** A candidate that becomes exactly one section. */
  predicate IsReady(c: Candidate) {
    ChunkType(c).Some? && WellFormed(c) && NoInnerHeading(c.description) && NoInnerHeading(c.content)
  }

  function RenderedReadings(cs: seq<Candidate>): seq<Reading>
    requires forall c <- cs :: IsReady(c)
  {
    if cs == [] then [] else
    assert IsReady(cs[0]);
    [RenderedReading(cs[0], ChunkType(cs[0]).value)] + RenderedReadings(cs[1..])
  }

  lemma {:induction false} RenderedTextsRead(cs: seq<Candidate>)
    requires forall c <- cs :: IsReady(c)
    ensures |RenderedTexts(cs)| == |cs| && forall t <- RenderedTexts(cs) :: IsHeading(t)
    ensures AllReadings(RenderedTexts(cs)) == RenderedReadings(cs)
  {
    hide Readings, Rendered, RenderedReading, ChunkType, WellFormed, NoInnerHeading, IsHeading;
    if cs != [] {
      assert IsReady(cs[0]);
      var kind := ChunkType(cs[0]).value;
      RenderedTextsRead(cs[1..]);
      RenderedReads(cs[0], kind);
      RenderedIsHeading(cs[0], kind);
      assert RenderedTexts(cs) == [Rendered(cs[0], kind)] + RenderedTexts(cs[1..]);
      assert RenderedTexts(cs)[1..] == RenderedTexts(cs[1..]);
    }
  }

  lemma RenderedIsHeading(c: Candidate, kind: Kind)
    ensures IsHeading(Rendered(c, kind))
  {
    hide Rendered, Comment, Body;
    RenderedShape(c, kind);
    assert Rendered(c, kind)[..3] == "## ";
  }

  /** Promotion and parsing: the file then reads as it did before, followed by the promoted chunks, and the
      chunks collected from it are the earlier ones followed by the promoted ones with new ids. */
  lemma PromotionThenParse(existing: string, cs: seq<Candidate>, kinds: set<Kind>)
    requires cs != [] && forall c <- cs :: IsReady(c)
    requires HeaderIsHarmless(existing)
    ensures var before, after := Readings(existing), Readings(Promoted(existing, RenderedTexts(cs)));
      && after == before + RenderedReadings(cs)
      && Collected(after, {}, kinds) ==
         Collected(before, {}, kinds) + Collected(RenderedReadings(cs), SeenAfter(before, {}), kinds)
  {
    hide Readings, HeaderIsHarmless, IsReady, EnsureHeader, JoinBlank, Collected, SeenAfter, RenderedReading;
    var texts := RenderedTexts(cs);
    RenderedTextsRead(cs);
    assert texts != [];
    JoinBlankReads(texts);
    FirstLineHeading(JoinBlank(texts));
    ReadingsAppend(EnsureHeader(existing), JoinBlank(texts));
    EnsureHeaderReads(existing);
    CollectedAppend(Readings(existing), RenderedReadings(cs), {}, kinds);
  }
}
