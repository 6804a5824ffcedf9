/** A freshly generated memory file (src/application/use-cases/run-pipeline-generate-memory.usecase.ts). */
module MemoryGeneration {
  import opened Domain
  import opened Lines
  import opened MemoryChunks
  import opened MemoryRendering

  /** A chunk as the extractor gives it: its type is a word, not always one the chunker knows. */
  datatype FreshChunk = FreshChunk(id: string, word: string, title: string, content: string)

  const FILE_TITLE: string := "# Mem\U{F3}ria do Projeto"

  const FILE_START: seq<string> := [HEADER, "", FILE_TITLE + "\n"]

  function ChunkLines(c: FreshChunk): (r: seq<string>)
    ensures r != []
  {
    ["## " + c.title + "\n", Comment(c.word, c.id) + "\n", c.content, "\n"]
  }

  function FileLines(chunks: seq<FreshChunk>): (r: seq<string>)
    ensures r != []
  {
    if chunks == [] then FILE_START else FileLines(chunks[..|chunks| - 1]) + ChunkLines(chunks[|chunks| - 1])
  }

  function FileText(chunks: seq<FreshChunk>): string {
    Join(FileLines(chunks))
  }

  method RenderMemoryMarkdown(chunks: seq<FreshChunk>) returns (text: string)
    ensures text == FileText(chunks)
  {
    var lines := FILE_START;
    for i := 0 to |chunks|
      invariant lines == FileLines(chunks[..i])
    {
      assert chunks[..i + 1][..i] == chunks[..i];
      lines := lines + ["## " + chunks[i].title + "\n"];
      lines := lines + [Comment(chunks[i].word, chunks[i].id) + "\n"];
      lines := lines + [chunks[i].content];
      lines := lines + ["\n"];
    }
    assert chunks[..|chunks|] == chunks;
    text := Join(lines);
  }

  function ChunkText(c: FreshChunk): string {
    Join(ChunkLines(c))
  }

  function AfterTitle(c: FreshChunk): string {
    "\n" + Comment(c.word, c.id) + AfterComment(c)
  }

  function AfterComment(c: FreshChunk): string {
    "\n\n" + c.content + "\n\n"
  }

  lemma ChunkTextShape(c: FreshChunk)
    ensures ChunkText(c) == "## " + c.title + "\n" + AfterTitle(c)
  {
    hide Comment;
    var lines := ChunkLines(c);
    assert lines[1..][1..][1..] == ["\n"] && lines[1..][1..] == [c.content, "\n"];
    assert Join(lines[1..][1..]) == c.content + "\n" + "\n";
    assert Join(lines[1..]) == Comment(c.word, c.id) + "\n" + "\n" + (c.content + "\n" + "\n");
  }

  /** A section reads as the chunk it was written from. */
  predicate IsChunk(r: Reading, c: FreshChunk) {
    && r.Readable?
    && r.chunk.id == c.id
    && KindName(r.chunk.kind) == c.word
    && r.chunk.title == c.title
    && r.chunk.content == c.content
  }

  /** What the text of a chunk must be for the file to give it back. */
  predicate Faithful(c: FreshChunk) {
    && IsId(c.id)
    && KindOf(c.word).Some?
    && OneLine(c.title) && c.title != "" && Trim(c.title) == c.title
    && Trim(c.content) == c.content && NoHeading(Split(c.content)) && NoRule(Split(c.content))
  }

  // ----- one chunk

  lemma TrimLeftOfNewline(s: string)
    ensures TrimLeft("\n" + s) == TrimLeft(s)
  {
    assert ("\n" + s)[1..] == s;
  }

  lemma TrimEnds(s: string)
    requires Trim(s) == s && s != ""
    ensures !IsSpace(s[0]) && !IsSpace(s[|s| - 1])
    ensures TrimRight(s) == s && TrimLeft(s) == s
  {
    TrimIsTrimmed(s);
  }

  lemma NewlinesTrim(s: string)
    ensures TrimRight(s + "\n") == TrimRight(s)
    ensures TrimRight(s + "\n\n") == TrimRight(s)
  {
    assert (s + "\n")[..|s|] == s;
    assert s + "\n\n" == s + "\n" + "\n";
    assert (s + "\n" + "\n")[..|s| + 1] == s + "\n";
  }

  lemma OnlyNewlinesTrim()
    ensures TrimRight("\n\n") == "" && Trim("") == ""
  {
    assert "\n\n"[..1] == "\n" && "\n"[..0] == "";
  }

  /** The lines of a content with two line breaks before it. */
  lemma LinesBelow(content: string)
    ensures Split("\n\n" + content) == ["", ""] + Split(content)
  {
    hide Split;
    SplitLine("", "\n" + content);
    SplitLine("", content);
    assert "" + "\n" + ("\n" + content) == "\n\n" + content && "" + "\n" + content == "\n" + content;
    assert [""] + ([""] + Split(content)) == ["", ""] + Split(content);
  }

  lemma BlanksAreNoRules(lines: seq<string>)
    ensures NoRule(["", ""] + lines) <==> NoRule(lines)
    ensures NoHeading(["", ""] + lines) <==> NoHeading(lines)
  {
    assert !IsRule("") && !IsHeading("");
    assert forall l <- lines :: l in ["", ""] + lines;
  }

  /** Content comes back exactly when it is trimmed and has no rule. */
  lemma ContentExactly(c: FreshChunk)
    ensures Trim(WithoutRules(TrimLeft("\n") + TrimRight(AfterComment(c)))) == c.content
      <==> Trim(c.content) == c.content && NoRule(Split(c.content))
  {
    hide Trim, WithoutRules, NoRule, Split;
    var content := c.content;
    NewlinesTrim("\n\n" + content);
    TrimLeftOfNewline("");
    assert "\n" + "" == "\n" && TrimLeft("") == "";
    assert "" + TrimRight("\n\n" + content) == TrimRight("\n\n" + content);
    TrimIsTrimmed(WithoutRules(TrimRight("\n\n" + content)));
    if Trim(content) == content {
      TrimmedContentExactly(content);
    }
  }

  lemma TrimmedContentExactly(content: string)
    requires Trim(content) == content
    ensures Trim(WithoutRules(TrimRight("\n\n" + content))) == content <==> NoRule(Split(content))
  {
    hide WithoutRules, NoRule, Split, IsSpace;
    if content == "" {
      OnlyNewlinesTrim();
      assert "\n\n" + content == "\n\n";
      EmptyHasNoRule();
    } else {
      TrimEnds(content);
      assert TrimRight("\n\n" + content) == "\n\n" + content by {
        var s := "\n\n" + content;
        assert s[|s| - 1] == content[|content| - 1];
      }
      WithoutRulesExactly("\n\n" + content);
      LinesBelow(content);
      BlanksAreNoRules(Split(content));
      TrimIsShorter(WithoutRules("\n\n" + content));
      TrimOfBelow(content);
    }
  }

  lemma EmptyHasNoRule()
    ensures WithoutRules("") == "" && NoRule(Split(""))
  {
    assert !IsRule("");
    WithoutRulesExactly("");
  }

  lemma TrimOfBelow(content: string)
    requires content != "" && Trim(content) == content
    ensures Trim("\n\n" + content) == content
  {
    hide IsSpace;
    TrimEnds(content);
    var s := "\n\n" + content;
    assert s[|s| - 1] == content[|content| - 1];
    TrimLeftAppend("\n\n", content);
    TrimLeftOfNewline("\n");
    TrimLeftOfNewline("");
    assert "\n" + "\n" == "\n\n" && "\n" + "" == "\n" && "" + content == content;
  }

  lemma {:induction false} TrimLeftIsShorter(s: string)
    ensures |TrimLeft(s)| <= |s|
  {
    if s != "" && IsSpace(s[0]) {
      TrimLeftIsShorter(s[1..]);
    }
  }

  lemma TrimIsShorter(s: string)
    ensures |Trim(s)| <= |s|
  {
    TrimLeftIsShorter(TrimRight(s));
  }

  lemma {:induction false} FirstLineAndRest(s: string)
    requires !OneLine(s)
    ensures exists first, rest :: OneLine(first) && s == first + "\n" + rest
  {
    if s[0] == '\n' {
      assert OneLine("") && s == "" + "\n" + s[1..];
    } else {
      FirstLineAndRest(s[1..]);
      var first, rest :| OneLine(first) && s[1..] == first + "\n" + rest;
      assert OneLine([s[0]] + first) && s == [s[0]] + first + "\n" + rest;
    }
  }

  lemma {:induction false} TrimOfOneLine(s: string)
    requires OneLine(s)
    ensures OneLine(Trim(s))
  {
    TrimLeftOfOneLine(TrimRight(s));
  }

  lemma {:induction false} TrimLeftOfOneLine(s: string)
    requires OneLine(s)
    ensures OneLine(TrimLeft(s))
  {
    if s != "" && IsSpace(s[0]) {
      TrimLeftOfOneLine(s[1..]);
    }
  }

  lemma LinesOfAfterTitle(c: FreshChunk)
    requires OneLine(Comment(c.word, c.id))
    ensures NoHeading(Split(AfterTitle(c))) <==> NoHeading(Split(c.content))
  {
    hide Split, Comment;
    var comment, content := Comment(c.word, c.id), c.content;
    var rest := "\n" + (content + "\n" + "\n");
    assert AfterTitle(c) == "" + "\n" + (comment + "\n" + rest);
    SplitLine("", comment + "\n" + rest);
    SplitLine(comment, rest);
    assert rest == "" + "\n" + (content + "\n" + "\n");
    SplitLine("", content + "\n" + "\n");
    SplitAppend(content, "\n");
    assert "\n" == "" + "\n" + "";
    SplitLine("", "");
    var lines := Split(content);
    assert Split(AfterTitle(c)) == [""] + ([comment] + ([""] + (lines + ([""] + [""]))));
    CommentEnds(c.word, c.id);
    assert !IsHeading("") && !IsHeading(comment);
    assert forall l <- lines :: l in Split(AfterTitle(c));
  }

  lemma CommentIsOneLine(k: Kind, id: string)
    requires IsId(id)
    ensures OneLine(Comment(KindName(k), id))
  {
    hide KindName;
    KindNameReads(k);
  }

  lemma NewlineHasNoComment()
    ensures NoComment("\n")
  {
  }

  function AsRead(c: FreshChunk): Chunk
    requires KindOf(c.word).Some?
  {
    Chunk(c.id, KindOf(c.word).value, Trim(c.title), Trim(WithoutRules(TrimLeft("\n") + TrimRight(AfterComment(c)))))
  }

  /** A one-line title and a proper comment: what the text of the chunk reads as. */
  lemma ProperChunkReads(c: FreshChunk)
    requires OneLine(c.title) && Trim(c.title) != "" && IsId(c.id) && KindOf(c.word).Some?
    ensures NoHeading(Split(c.content)) <==> |Readings(ChunkText(c))| == 1
    ensures NoHeading(Split(c.content)) ==> Readings(ChunkText(c)) == [Readable(AsRead(c))]
  {
    hide Trim, TrimLeft, TrimRight, WithoutRules, Split, Comment, Readings, KindName, Read;
    var kind := KindOf(c.word).value;
    CommentIsOneLine(kind, c.id);
    LinesOfAfterTitle(c);
    ChunkTextShape(c);
    OneSection(c.title, AfterTitle(c));
    NewlineHasNoComment();
    GoodSectionReads(c.title, "\n", kind, c.id, AfterComment(c));
  }

  /** The text of a chunk reads back as that chunk alone, if and only if the chunk is faithful. */
  lemma ChunkReadsExactly(c: FreshChunk)
    ensures (|Readings(ChunkText(c))| == 1 && IsChunk(Readings(ChunkText(c))[0], c)) <==> Faithful(c)
  {
    hide WithoutRules, Split, Comment, Readings, KindName, Trim, TrimLeft, TrimRight;
    if |Readings(ChunkText(c))| == 1 && IsChunk(Readings(ChunkText(c))[0], c) {
      ReadChunkIsProper(c);
    }
    if Faithful(c) || (|Readings(ChunkText(c))| == 1 && IsChunk(Readings(ChunkText(c))[0], c)) {
      ProperChunkReads(c);
      ContentExactly(c);
    }
  }

  lemma ReadChunkIsProper(c: FreshChunk)
    requires |Readings(ChunkText(c))| == 1 && IsChunk(Readings(ChunkText(c))[0], c)
    ensures OneLine(c.title) && Trim(c.title) == c.title && c.title != "" && IsId(c.id) && KindOf(c.word).Some?
  {
    hide WithoutRules, Split, Comment, Readings, KindName, Trim, FirstMetadata, IsId, OneLine;
    ChunkTextShape(c);
    var r := Readings(ChunkText(c))[0];
    if OneLine(c.title) {
      OneSection(c.title, AfterTitle(c));
      ReadableShape(Section(c.title, AfterTitle(c)));
      TrimIsTrimmed(c.title);
    } else {
      FirstLineAndRest(c.title);
      var first, more :| OneLine(first) && c.title == first + "\n" + more;
      var rest := more + "\n" + AfterTitle(c);
      assert ChunkText(c) == "## " + first + "\n" + rest;
      OneSection(first, rest);
      ReadableShape(Section(first, rest));
      TrimOfOneLine(first);
    }
  }

  lemma ReadableShape(s: Section)
    requires Read(s).Readable?
    ensures var c := Read(s).chunk;
      c.title == Trim(s.heading) && c.title != "" && IsId(c.id)
  {
    FoundIdIsId(Trim(s.text));
  }

  // ----- the file

  function FileReadings(chunks: seq<FreshChunk>): seq<Reading> {
    if chunks == [] then [] else
    FileReadings(chunks[..|chunks| - 1]) + Readings(ChunkText(chunks[|chunks| - 1]))
  }

  lemma ChunkStartsSection(c: FreshChunk)
    ensures IsHeading(Split(ChunkText(c))[0])
    ensures |Readings(ChunkText(c))| > 0
  {
    hide Split;
    ChunkTextShape(c);
    SplitPrefix("## ", c.title + "\n" + AfterTitle(c));
    assert ChunkText(c) == "## " + (c.title + "\n" + AfterTitle(c));
    NoHeadingNoSection(Split(ChunkText(c)));
    ReadAllAppend(Sections(Split(ChunkText(c))), []);
  }

  lemma EmptyIsOneLine()
    ensures OneLine("")
  {
  }

  lemma PlainStartReads(header: string, title: string)
    requires OneLine(header) && OneLine(title) && !IsHeading(header) && !IsHeading(title)
    ensures Readings(Join([header, "", title + "\n"])) == []
  {
    hide Split, OneLine;
    var lines := [header, "", title + "\n"];
    var end := title + "\n" + "";
    assert lines[1..][1..] == [title + "\n"] && end == title + "\n";
    assert Join(lines[1..]) == "" + "\n" + end;
    var text := header + "\n" + ("" + "\n" + (title + "\n" + ""));
    assert Join(lines) == text;
    SplitLine(header, "" + "\n" + (title + "\n" + ""));
    EmptyIsOneLine();
    SplitLine("", title + "\n" + "");
    SplitLine(title, "");
    SplitLine("", "");
    assert Split(text) == [header] + ([""] + ([title] + [""]));
    assert !IsHeading("");
    NoHeadingNoSection(Split(text));
  }

  lemma StartReads()
    ensures Readings(FileText([])) == []
  {
    hide Join, Readings;
    assert HEADER[0] == '<' && FILE_TITLE[1] == ' ';
    PlainStartReads(HEADER, FILE_TITLE);
  }

  lemma {:induction false} FileReads(chunks: seq<FreshChunk>)
    ensures Readings(FileText(chunks)) == FileReadings(chunks)
  {
    hide Readings, ChunkLines, FILE_START;
    if chunks == [] {
      StartReads();
    } else {
      var before, last := chunks[..|chunks| - 1], chunks[|chunks| - 1];
      FileReads(before);
      JoinAppend(FileLines(before), ChunkLines(last));
      ChunkStartsSection(last);
      ReadingsAppend(FileText(before), ChunkText(last));
    }
  }

  lemma {:induction false} EveryChunkReads(chunks: seq<FreshChunk>)
    ensures |FileReadings(chunks)| >= |chunks|
    ensures var rs := FileReadings(chunks);
      (|rs| == |chunks| && forall i :: 0 <= i < |chunks| ==> IsChunk(rs[i], chunks[i]))
      <==> forall c <- chunks :: Faithful(c)
  {
    hide Faithful, IsChunk, Readings, ChunkText;
    if chunks != [] {
      var before, last := chunks[..|chunks| - 1], chunks[|chunks| - 1];
      EveryChunkReads(before);
      ChunkStartsSection(last);
      ChunkReadsExactly(last);
      assert chunks == before + [last];
    }
  }

  /** Reading a freshly generated file gives back its chunks, section by section, if and only if each of
      them is faithful. */
  lemma RoundTripExactly(chunks: seq<FreshChunk>)
    ensures var rs := Readings(FileText(chunks));
      (|rs| == |chunks| && forall i :: 0 <= i < |chunks| ==> IsChunk(rs[i], chunks[i]))
      <==> forall c <- chunks :: Faithful(c)
  {
    FileReads(chunks);
    EveryChunkReads(chunks);
  }

  /** With different ids nothing is rejected either. */
  lemma FileParses(chunks: seq<FreshChunk>)
    requires forall c <- chunks :: Faithful(c)
    requires forall i, j :: 0 <= i < j < |chunks| ==> chunks[i].id != chunks[j].id
    ensures var r := ReportOf(Readings(FileText(chunks)), {});
      && r.warnings == []
      && |r.chunks| == |chunks|
      && forall i :: 0 <= i < |chunks| ==> IsChunk(Readable(r.chunks[i]), chunks[i])
  {
    RoundTripExactly(chunks);
    AllCollected(Readings(FileText(chunks)), chunks, {});
  }

  lemma {:induction false} AllCollected(readings: seq<Reading>, chunks: seq<FreshChunk>, seen: set<string>)
    requires |readings| == |chunks| && forall i :: 0 <= i < |chunks| ==>
      IsChunk(readings[i], chunks[i]) && chunks[i].id !in seen
    requires forall i, j :: 0 <= i < j < |chunks| ==> chunks[i].id != chunks[j].id
    ensures Warnings(readings, seen) == []
    ensures var r := Collected(readings, seen, {});
      |r| == |chunks| && forall i :: 0 <= i < |chunks| ==> IsChunk(Readable(r[i]), chunks[i])
  {
    if chunks != [] {
      AllCollected(readings[1..], chunks[1..], seen + IdsOf(readings[0]));
    }
  }
}
