/** Learning candidates as memory sections, and how those sections read back
    (src/application/services/memory-chunk-renderer.service.ts). */
module ChunkRenderer {
  import opened Domain
  import opened Lines
  import opened MemoryChunks
  import opened MemoryRendering

  /** A candidate; its numbers and enumerated values are the texts they are written as. */
  datatype Candidate = Candidate(id: string, learning: string, description: string, content: string, source: string,
                                 confidence: string, risk: Option<string>, generatedAt: string)

  function ChunkType(c: Candidate): Option<Kind> {
    if c.learning == "semantic_locator" then Some(SemanticLocator)
    else if c.learning == "route_mapping" then Some(Route)
    else if c.learning == "component_behavior" then Some(KnownIssue)
    else if c.learning == "recovery_pattern" then Some(RuntimeLearning)
    else if c.learning == "gap" then Some(KnownIssue)
    else None
  }

  predicate IsMarkup(c: char) {
    c in {'\\', '-', '[', ']', '(', ')', '>'}
  }

  function EscapeChar(c: char): string {
    if IsMarkup(c) then ['\\', c] else [c]
  }

  function EscapeMarkdown(s: string): string {
    if s == "" then "" else EscapeChar(s[0]) + EscapeMarkdown(s[1..])
  }

  function IdChar(c: char): char {
    if IsLower(c) || IsUpper(c) || IsNumeral(c) || c == '_' || c == '-' then UpperChar(c) else '-'
  }

  function ChunkId(c: Candidate): (id: string)
    ensures |id| == |c.id|
  {
    seq(|c.id|, i requires 0 <= i < |c.id| => IdChar(c.id[i]))
  }

  function Field(name: string, value: string): string {
    "- **" + name + "**: " + value
  }

  function BodyLines(c: Candidate): (r: seq<string>)
    ensures r != []
  {
    [Field("Description", EscapeMarkdown(c.description)),
     Field("Content", EscapeMarkdown(c.content)),
     Field("Source", EscapeMarkdown(c.source)),
     Field("Confidence", c.confidence)]
    + (if c.risk.Some? && c.risk.value != "" then [Field("Risk", EscapeMarkdown(c.risk.value))] else [])
    + [Field("Generated", c.generatedAt)]
  }

  function Body(c: Candidate): string {
    Join(BodyLines(c))
  }

  function RenderedLines(c: Candidate, kind: Kind): seq<string> {
    ["## " + EscapeMarkdown(c.description), "", Comment(KindName(kind), ChunkId(c)), Body(c), ""]
  }

  function Rendered(c: Candidate, kind: Kind): string {
    Join(RenderedLines(c, kind))
  }

  method RenderBody(c: Candidate) returns (r: Option<string>)
    ensures r == if ChunkType(c).Some? then Some(Body(c)) else None
  {
    if ChunkType(c).None? {
      return None;
    }
    var lines := [Field("Description", EscapeMarkdown(c.description))];
    lines := lines + [Field("Content", EscapeMarkdown(c.content))];
    lines := lines + [Field("Source", EscapeMarkdown(c.source))];
    lines := lines + [Field("Confidence", c.confidence)];
    if c.risk.Some? && c.risk.value != "" {
      lines := lines + [Field("Risk", EscapeMarkdown(c.risk.value))];
    }
    lines := lines + [Field("Generated", c.generatedAt)];
    assert lines == BodyLines(c);
    return Some(Join(lines));
  }

  method Render(c: Candidate) returns (r: Option<string>)
    ensures r == if ChunkType(c).Some? then Some(Rendered(c, ChunkType(c).value)) else None
  {
    var kind := ChunkType(c);
    var body := RenderBody(c);
    if kind.None? || body.None? {
      return None;
    }
    var lines := ["## " + EscapeMarkdown(c.description)];
    lines := lines + [""];
    lines := lines + [Comment(KindName(kind.value), ChunkId(c))];
    lines := lines + [body.value];
    lines := lines + [""];
    assert lines == RenderedLines(c, kind.value);
    return Some(Join(lines));
  }

  predicate Unconvertible(c: Candidate) {
    ChunkType(c).None?
  }

  function TextsOf(c: Candidate): seq<string> {
    if Unconvertible(c) then [] else [Rendered(c, ChunkType(c).value)]
  }

  function RenderedTexts(cs: seq<Candidate>): seq<string> {
    if cs == [] then [] else TextsOf(cs[0]) + RenderedTexts(cs[1..])
  }

  lemma {:induction false} RenderedAppend(a: seq<Candidate>, b: seq<Candidate>)
    ensures RenderedTexts(a + b) == RenderedTexts(a) + RenderedTexts(b)
  {
    hide TextsOf;
    if a == [] {
      assert a + b == b;
    } else {
      assert (a + b)[1..] == a[1..] + b;
      RenderedAppend(a[1..], b);
    }
  }

  /** Every candidate of a known type is rendered, in order; the others are warned about. */
  method RenderAll(cs: seq<Candidate>) returns (chunks: seq<string>, warnings: seq<Candidate>)
    ensures chunks == RenderedTexts(cs)
    ensures warnings == Filter(cs, Unconvertible)
  {
    hide Rendered, ChunkType;
    chunks, warnings := [], [];
    for i := 0 to |cs|
      invariant chunks == RenderedTexts(cs[..i])
      invariant warnings == Filter(cs[..i], Unconvertible)
    {
      assert cs[..i + 1] == cs[..i] + [cs[i]];
      RenderedAppend(cs[..i], [cs[i]]);
      OneRendered(cs[i]);
      FilterAppend(cs[..i], [cs[i]], Unconvertible);
      var chunk := Render(cs[i]);
      match chunk {
        case Some(text) => chunks := chunks + [text];
        case None => warnings := warnings + [cs[i]];
      }
    }
    assert cs[..|cs|] == cs;
  }

  lemma OneRendered(c: Candidate)
    ensures RenderedTexts([c]) == TextsOf(c)
    ensures Filter([c], Unconvertible) == if Unconvertible(c) then [c] else []
  {
    hide TextsOf, Unconvertible;
    assert [c][1..] == [];
    assert TextsOf(c) + [] == TextsOf(c);
  }

  // ----- escaping

  /** In an escaped text every hyphen has a backslash before it. */
  predicate Escaped(s: string) {
    forall i :: 0 <= i < |s| && s[i] == '-' ==> i > 0 && s[i - 1] == '\\'
  }

  lemma {:induction false} EscapeEscapes(s: string)
    ensures Escaped(EscapeMarkdown(s))
  {
    if s != "" {
      EscapeEscapes(s[1..]);
      var rest := EscapeMarkdown(s[1..]);
      assert rest == "" || rest[0] != '-';
    }
  }

  lemma EscapedHasNoComment(s: string)
    requires Escaped(s)
    ensures NoComment(s)
  {
    forall i | 0 <= i <= |s| - 4
      ensures !("<!--" <= s[i..])
    {
      assert s[i..][3] == s[i + 3] && s[i..][2] == s[i + 2];
    }
  }

  function EscapeLines(lines: seq<string>): seq<string> {
    seq(|lines|, i requires 0 <= i < |lines| => EscapeMarkdown(lines[i]))
  }

  lemma EscapePrepend(c: char, lines: seq<string>)
    requires lines != []
    ensures EscapeLines(Prepend(c, lines)) ==
      if c == '\n' then [""] + EscapeLines(lines)
      else [EscapeChar(c) + EscapeMarkdown(lines[0])] + EscapeLines(lines[1..])
  {
    assert ([c] + lines[0])[1..] == lines[0];
  }

  /** Escaping keeps the lines. */
  lemma {:induction false} EscapeKeepsLines(s: string)
    ensures Split(EscapeMarkdown(s)) == EscapeLines(Split(s))
  {
    hide EscapeLines;
    if s == "" {
      assert EscapeLines([""]) == [""] by {
        EscapeOfNothing();
      }
    } else {
      var c, rest := s[0], EscapeMarkdown(s[1..]);
      EscapeKeepsLines(s[1..]);
      EscapePrepend(c, Split(s[1..]));
      EscapeLinesParts(Split(s[1..]));
      if c == '\n' {
        assert EscapeMarkdown(s) == "" + "\n" + rest;
        SplitLine("", rest);
      } else {
        SplitPrefix(EscapeChar(c), rest);
      }
    }
  }

  lemma EscapeOfNothing()
    ensures EscapeLines([""]) == [""]
  {
  }

  lemma EscapeLinesParts(lines: seq<string>)
    requires lines != []
    ensures EscapeLines(lines) != [] && EscapeLines(lines)[0] == EscapeMarkdown(lines[0])
    ensures EscapeLines(lines)[1..] == EscapeLines(lines[1..])
  {
  }

  lemma NoHyphenFirst(s: string)
    ensures EscapeMarkdown(s) == "" || EscapeMarkdown(s)[0] != '-'
  {
  }

  lemma EscapedLinesKinds(lines: seq<string>)
    ensures NoHeading(EscapeLines(lines)) <==> NoHeading(lines)
    ensures NoRule(EscapeLines(lines))
  {
    var es := EscapeLines(lines);
    forall i | 0 <= i < |lines|
      ensures (IsHeading(es[i]) <==> IsHeading(lines[i])) && !IsRule(es[i])
    {
      EscapeOfHeading(lines[i]);
      NoHyphenFirst(lines[i]);
    }
    forall l <- lines
      ensures NoHeading(es) ==> !IsHeading(l)
    {
      var i :| 0 <= i < |lines| && lines[i] == l;
      assert es[i] in es;
    }
  }

  /** A character that is not escaped starts the escaped text exactly when it starts the text. */
  lemma HeadOfEscape(s: string, c: char)
    requires !IsMarkup(c)
    ensures [c] <= EscapeMarkdown(s) <==> [c] <= s
    ensures [c] <= s ==> EscapeMarkdown(s)[1..] == EscapeMarkdown(s[1..])
  {
  }

  lemma EscapeOfHeading(line: string)
    ensures IsHeading(EscapeMarkdown(line)) <==> IsHeading(line)
  {
    var e := EscapeMarkdown(line);
    HeadOfEscape(line, '#');
    if ['#'] <= line {
      HeadOfEscape(line[1..], '#');
      if ['#'] <= line[1..] {
        HeadOfEscape(line[1..][1..], ' ');
        assert line[1..][1..] == line[2..] && e[1..][1..] == e[2..];
        assert IsHeading(line) <==> [' '] <= line[2..];
        assert IsHeading(e) <==> [' '] <= e[2..];
      }
    }
  }

  // ----- the lines of a rendered chunk

  predicate NoInnerHeading(s: string) {
    NoHeading(Split(s)[1..])
  }

  /** Values written as they are: one line, with nothing that could open a comment. */
  predicate IsPlain(s: string) {
    forall c <- s :: !IsSpace(c) && c != '<'
  }

  lemma {:induction false} JoinLines(parts: seq<string>)
    requires parts != []
    ensures NoHeading(Split(Join(parts))) <==> forall p <- parts :: NoHeading(Split(p))
    ensures (forall p <- parts :: NoRule(Split(p))) ==> NoRule(Split(Join(parts)))
    ensures (forall p <- parts :: NoComment(p)) ==> NoComment(Join(parts))
  {
    hide Split, NoComment, NoHeading, NoRule;
    if |parts| > 1 {
      var rest := parts[1..];
      assert forall p <- parts :: p == parts[0] || p in rest;
      assert parts[0] in parts && forall p <- rest :: p in parts;
      JoinLines(rest);
      SplitAppend(parts[0], Join(rest));
      NoneInBoth(Split(parts[0]), Split(Join(rest)));
      if NoComment(parts[0]) && NoComment(Join(rest)) {
        NoCommentAcross(parts[0], Join(rest));
      }
    } else {
      assert parts == [parts[0]];
    }
  }

  lemma NoneInBoth(a: seq<string>, b: seq<string>)
    ensures NoHeading(a + b) <==> NoHeading(a) && NoHeading(b)
    ensures NoRule(a + b) <==> NoRule(a) && NoRule(b)
  {
    assert forall l <- a :: l in a + b;
    assert forall l <- b :: l in a + b;
  }

  lemma NoCommentAcross(a: string, b: string)
    requires NoComment(a) && NoComment(b)
    ensures NoComment(a + "\n" + b)
  {
    var s := a + "\n" + b;
    forall i | 0 <= i <= |s| - 4
      ensures !("<!--" <= s[i..])
    {
      if i > |a| {
        assert s[i..] == b[i - |a| - 1..];
      } else if i + 4 <= |a| {
        assert s[i..][..4] == a[i..][..4];
      } else {
        assert s[i..][|a| - i] == '\n';
      }
    }
  }

  predicate IsName(name: string) {
    OneLine(name) && '<' !in name
  }

  lemma FieldNames()
    ensures IsName("Description") && IsName("Content") && IsName("Source")
    ensures IsName("Confidence") && IsName("Risk") && IsName("Generated")
  {
  }

  lemma EscapedField(name: string, value: string)
    requires IsName(name)
    ensures var f := Field(name, EscapeMarkdown(value));
      && NoComment(f)
      && NoRule(Split(f))
      && (NoHeading(Split(f)) <==> NoInnerHeading(value))
  {
    hide Split, NoComment;
    var prefix, e := "- **" + name + "**: ", EscapeMarkdown(value);
    var f, lines := Field(name, e), Split(value)[1..];
    EscapeEscapes(value);
    EscapedHasNoComment(e);
    NoCommentBehind(prefix, e);
    SplitPrefix(prefix, e);
    EscapeKeepsLines(value);
    EscapeLinesParts(Split(value));
    EscapedLinesKinds(lines);
    var first := prefix + Split(e)[0];
    assert Split(f) == [first] + EscapeLines(lines);
    assert first[0] == '-' && first[1] == ' ';
    NoneInBoth([first], EscapeLines(lines));
  }

  lemma PlainField(name: string, value: string)
    requires IsName(name) && IsPlain(value)
    ensures var f := Field(name, value);
      NoComment(f) && NoRule(Split(f)) && NoHeading(Split(f))
  {
    hide NoComment;
    var prefix := "- **" + name + "**: ";
    assert '\n' !in value && '<' !in value;
    NothingHasNoComment();
    assert value + "" == value;
    NoCommentBehind(value, "");
    NoCommentBehind(prefix, value);
    SplitLine(Field(name, value), "");
    assert prefix[0] == '-' && prefix[1] == ' ';
  }

  lemma PlainIsOneLine(s: string)
    requires IsPlain(s)
    ensures NoInnerHeading(s)
  {
    assert '\n' !in s;
    SplitLine(s, "");
  }

  lemma NothingHasNoComment()
    ensures NoComment("")
  {
  }

  /** What the schema of a candidate asks for, as far as it matters here. */
  predicate WellFormed(c: Candidate) {
    && c.id != ""
    && IsPlain(c.source)
    && IsPlain(c.confidence)
    && (c.risk.Some? ==> IsPlain(c.risk.value))
    && IsPlain(c.generatedAt) && c.generatedAt != ""
  }

  predicate IsQuiet(part: string) {
    NoComment(part) && NoRule(Split(part))
  }

  lemma BodyFields(c: Candidate)
    requires WellFormed(c)
    ensures forall p <- BodyLines(c) :: IsQuiet(p)
    ensures forall p <- BodyLines(c)[2..] :: NoHeading(Split(p))
    ensures NoHeading(Split(BodyLines(c)[0])) <==> NoInnerHeading(c.description)
    ensures NoHeading(Split(BodyLines(c)[1])) <==> NoInnerHeading(c.content)
  {
    hide Split, NoComment, NoHeading, NoRule, Field, NoInnerHeading, IsPlain, IsName, EscapeMarkdown;
    FieldNames();
    EscapedField("Description", c.description);
    EscapedField("Content", c.content);
    PlainIsOneLine(c.source);
    EscapedField("Source", c.source);
    PlainField("Confidence", c.confidence);
    if c.risk.Some? {
      PlainIsOneLine(c.risk.value);
      EscapedField("Risk", c.risk.value);
    }
    PlainField("Generated", c.generatedAt);
  }

  lemma BodyKinds(c: Candidate)
    requires WellFormed(c)
    ensures NoComment(Body(c)) && NoRule(Split(Body(c)))
    ensures NoHeading(Split(Body(c))) <==> NoInnerHeading(c.description) && NoInnerHeading(c.content)
  {
    hide Split, NoComment, NoHeading, NoRule, NoInnerHeading, WellFormed;
    var parts := BodyLines(c);
    BodyFields(c);
    hide BodyLines;
    assert |parts| > 2 by {
      BodyIsLong(c);
    }
    JoinLines(parts);
    assert parts[0] in parts && parts[1] in parts;
    assert parts == [parts[0], parts[1]] + parts[2..];
  }

  lemma BodyIsLong(c: Candidate)
    ensures |BodyLines(c)| > 2
  {
  }

  // ----- how a rendered chunk reads

  /** A chunk id can be read back exactly when the candidate's id has no underscore. */
  lemma ChunkIdIsIdExactly(c: Candidate)
    requires c.id != ""
    ensures IsRenderedId(ChunkId(c))
    ensures IsId(ChunkId(c)) <==> '_' !in c.id
  {
    var id := ChunkId(c);
    forall i | 0 <= i < |id|
      ensures IsUpper(id[i]) || IsNumeral(id[i]) || id[i] == '-' || id[i] == '_'
      ensures id[i] == '_' <==> c.id[i] == '_'
    {
    }
    forall i | 0 <= i < |id| && c.id[i] == '_'
      ensures !IsId(id)
    {
      assert id[i] in id;
    }
  }

  function Heading(c: Candidate): string {
    Split(EscapeMarkdown(c.description))[0]
  }

  function More(c: Candidate): seq<string> {
    Split(EscapeMarkdown(c.description))[1..]
  }

  function BeforeComment(c: Candidate): string {
    Join(More(c) + [""]) + "\n"
  }

  /** The content a chunk is read with: what stands below the heading, with an empty line for the comment. */
  function RenderedContent(c: Candidate): string {
    Trim(Join(More(c) + ["", "", Body(c)]))
  }

  /** What one promoted chunk reads as. */
  function RenderedReading(c: Candidate, kind: Kind): Reading {
    var title := Trim(Heading(c));
    if title == "" then NoTitle
    else if '_' in c.id then NoMetadata(title)
    else Readable(Chunk(ChunkId(c), kind, title, RenderedContent(c)))
  }

  lemma RenderedShape(c: Candidate, kind: Kind)
    ensures OneLine(Heading(c))
    ensures Rendered(c, kind) ==
      "## " + Heading(c) + "\n" + (BeforeComment(c) + Comment(KindName(kind), ChunkId(c)) + ("\n" + Body(c) + "\n"))
  {
    hide Split, Comment, KindName, Body, EscapeMarkdown, Join;
    var e := EscapeMarkdown(c.description);
    var lines, comment := Split(e), Comment(KindName(kind), ChunkId(c));
    LinesAreOneLine(e);
    assert lines[0] in lines;
    JoinSplit(e);
    var below := ["", comment, Body(c), ""];
    assert RenderedLines(c, kind) == ["## " + e] + below;
    JoinAppend(["## " + e], below);
    JoinOne("## " + e);
    JoinFour("", comment, Body(c), "");
    JoinBelow(lines);
    var rest := "\n" + (comment + "\n" + (Body(c) + "\n"));
    assert Rendered(c, kind) == "## " + (e + "\n") + rest;
    assert BeforeComment(c) + comment + ("\n" + Body(c) + "\n") == Join(More(c) + [""]) + rest;
  }

  lemma JoinOne(s: string)
    ensures Join([s]) == s
  {
  }

  lemma JoinBelow(lines: seq<string>)
    requires lines != []
    ensures Join(lines) + "\n" == lines[0] + "\n" + Join(lines[1..] + [""])
  {
    JoinOne("");
    if |lines| == 1 {
      assert lines[1..] + [""] == [""];
    } else {
      JoinAppend(lines[1..], [""]);
    }
  }

  lemma JoinFour(a: string, b: string, c: string, d: string)
    ensures Join([a, b, c, d]) == a + "\n" + (b + "\n" + (c + "\n" + d))
  {
    assert [a, b, c, d][1..] == [b, c, d] && [b, c, d][1..] == [c, d] && [c, d][1..] == [d];
    assert Join([c, d]) == c + "\n" + d;
    assert Join([b, c, d]) == b + "\n" + (c + "\n" + d);
  }

  lemma {:induction false} EscapedSuffix(s: string)
    requires Escaped(s)
    ensures Escaped(TrimLeft(s))
  {
    if s != "" && IsSpace(s[0]) {
      EscapedTail(s);
      EscapedSuffix(s[1..]);
    }
  }

  lemma EscapedTail(s: string)
    requires Escaped(s) && s != "" && s[0] != '\\'
    ensures Escaped(s[1..])
  {
  }

  /** No line of an escaped text is a rule. */
  lemma {:induction false} EscapedNoRule(s: string)
    requires forall i :: 0 < i < |s| && s[i] == '-' ==> s[i - 1] == '\\'
    ensures NoRule(Split(s)[1..])
    ensures (s == "" || s[0] != '-') ==> NoRule(Split(s))
    ensures s != "" && s[0] != '\n' ==> Split(s)[0] != "" && Split(s)[0][0] == s[0]
  {
    hide IsBlank;
    if s != "" {
      EscapedNoRule(s[1..]);
      var rest := Split(s[1..]);
      assert rest == [rest[0]] + rest[1..];
      if s[0] == '\n' {
        assert Split(s) == [""] + rest;
        assert !IsRule("");
      } else {
        assert Split(s) == [[s[0]] + rest[0]] + rest[1..];
        assert ([s[0]] + rest[0])[0] == s[0];
      }
    }
  }

  lemma EscapedLinesAreNoRules(s: string)
    requires Escaped(s)
    ensures NoRule(Split(s))
  {
    EscapedNoRule(s);
  }

  /** The text before the comment is escaped like the description it comes from. */
  lemma BeforeCommentIsEscaped(c: Candidate)
    ensures Escaped(BeforeComment(c))
  {
    hide Split, EscapeMarkdown, Escaped;
    var e := EscapeMarkdown(c.description);
    var lines := Split(e);
    EscapeEscapes(c.description);
    JoinSplit(e);
    if |lines| == 1 {
      assert More(c) + [""] == [""];
      NewlinesAreEscaped();
    } else {
      JoinAppend([lines[0]], lines[1..]);
      assert lines == [lines[0]] + lines[1..];
      JoinAppend(More(c), [""]);
      EscapedBelow(lines[0], Join(lines[1..]));
    }
  }

  lemma NewlinesAreEscaped()
    ensures Escaped("" + "\n")
  {
  }

  lemma EscapedBelow(a: string, b: string)
    requires Escaped(a + "\n" + b)
    ensures Escaped(b + "\n" + "" + "\n")
  {
    var s := a + "\n" + b;
    forall i | 0 <= i < |b| && b[i] == '-'
      ensures i > 0 && b[i - 1] == '\\'
    {
      assert s[|a| + 1 + i] == '-' && s[|a|] == '\n';
      assert i > 0 ==> s[|a| + i] == b[i - 1];
    }
  }

  lemma {:induction false} TrimLeftTwice(a: string, b: string)
    ensures TrimLeft(TrimLeft(a) + b) == TrimLeft(a + b)
  {
    if a != "" && IsSpace(a[0]) {
      TrimLeftTwice(a[1..], b);
      assert (a + b)[1..] == a[1..] + b;
    }
  }

  lemma {:induction false} JoinEnds(parts: seq<string>)
    requires parts != [] && parts[0] != "" && parts[|parts| - 1] != ""
    ensures var s, last := Join(parts), parts[|parts| - 1];
      s != "" && s[0] == parts[0][0] && s[|s| - 1] == last[|last| - 1]
  {
    if |parts| > 1 {
      var before, last := parts[..|parts| - 1], parts[|parts| - 1];
      assert parts == before + [last];
      JoinAppend(before, [last]);
      assert parts[0] == before[0] && before == [before[0]] + before[1..];
      JoinStart(before);
    }
  }

  lemma JoinStart(parts: seq<string>)
    requires parts != [] && parts[0] != ""
    ensures Join(parts) != "" && Join(parts)[0] == parts[0][0]
  {
  }

  lemma BodyEnds(c: Candidate)
    requires WellFormed(c)
    ensures Body(c) != "" && !IsSpace(Body(c)[0]) && !IsSpace(Body(c)[|Body(c)| - 1])
  {
    var parts := BodyLines(c);
    assert parts[0][0] == '-';
    var last := parts[|parts| - 1];
    assert last[|last| - 1] == c.generatedAt[|c.generatedAt| - 1];
    JoinEnds(parts);
  }

  lemma TrimOfEnded(a: string, b: string)
    requires b != "" && !IsSpace(b[0]) && !IsSpace(b[|b| - 1])
    ensures Trim(a + b) == TrimLeft(a) + b
  {
    assert (a + b)[|a + b| - 1] == b[|b| - 1];
    TrimLeftAppend(a, b);
  }

  lemma NoRuleToRemove(c: Candidate)
    requires WellFormed(c)
    ensures var text := TrimLeft(BeforeComment(c)) + "\n" + Body(c);
      WithoutRules(text) == text
  {
    hide Split, TrimLeft, WithoutRules, Body, WellFormed, BeforeComment, NoRule, Escaped;
    var above := TrimLeft(BeforeComment(c));
    BodyKinds(c);
    SplitAppend(above, Body(c));
    BeforeCommentIsEscaped(c);
    EscapedSuffix(BeforeComment(c));
    EscapedLinesAreNoRules(above);
    NoneInBoth(Split(above), Split(Body(c)));
    WithoutRulesExactly(above + "\n" + Body(c));
  }

  lemma ContentReads(c: Candidate)
    requires WellFormed(c)
    ensures Trim(WithoutRules(TrimLeft(BeforeComment(c)) + TrimRight("\n" + Body(c) + "\n"))) == RenderedContent(c)
  {
    hide Split, TrimLeft, TrimRight, Trim, WithoutRules, Body, WellFormed, More, IsSpace, Join;
    var before, body := BeforeComment(c), Body(c);
    BodyEnds(c);
    TrimRightOfEnded("\n" + body);
    NoRuleToRemove(c);
    assert TrimLeft(before) + ("\n" + body) == TrimLeft(before) + "\n" + body;
    TrimOfEnded(TrimLeft(before) + "\n", body);
    TrimLeftTwice(before, "\n");
    assert More(c) + ["", "", body] == (More(c) + [""]) + ["", body];
    JoinAppend(More(c) + [""], ["", body]);
    JoinTwo(body);
    assert Join(More(c) + ["", "", body]) == before + "\n" + body;
    TrimOfEnded(before + "\n", body);
  }

  lemma JoinTwo(s: string)
    ensures Join(["", s]) == "\n" + s
  {
    assert ["", s][1..] == [s];
  }

  lemma TrimRightOfEnded(s: string)
    requires s != "" && !IsSpace(s[|s| - 1])
    ensures TrimRight(s + "\n") == s
  {
    assert (s + "\n")[..|s|] == s;
  }

  lemma RenderedLinesKinds(c: Candidate, kind: Kind)
    requires WellFormed(c)
    ensures NoHeading(Split(BeforeComment(c) + Comment(KindName(kind), ChunkId(c)) + ("\n" + Body(c) + "\n")))
      <==> NoInnerHeading(c.description) && NoInnerHeading(c.content)
  {
    hide Split, Comment, KindName, Body, WellFormed, EscapeLines, ChunkId, EscapeMarkdown, NoHeading, NoRule;
    var comment, body, above := Comment(KindName(kind), ChunkId(c)), Body(c), More(c) + [""];
    BodyKinds(c);
    EscapeKeepsLines(c.description);
    EscapeLinesParts(Split(c.description));
    EscapedLinesKinds(Split(c.description)[1..]);
    NoneInBoth(More(c), [""]);
    LinesAreOneLine(EscapeMarkdown(c.description));
    BlankLine();
    SplitJoin(above);
    var below := comment + "\n" + (body + "\n" + "");
    assert BeforeComment(c) + comment + ("\n" + body + "\n") == Join(above) + "\n" + below;
    SplitAppend(Join(above), below);
    CommentLine(c, kind);
    SplitLine(comment, body + "\n" + "");
    SplitAppend(body, "");
    NoneInBoth(above, Split(below));
    NoneInBoth([comment], Split(body) + [""]);
    NoneInBoth(Split(body), [""]);
  }

  lemma BlankLine()
    ensures NoHeading([""]) && OneLine("") && Split("") == [""]
  {
    assert !IsHeading("");
  }

  lemma CommentLine(c: Candidate, kind: Kind)
    requires WellFormed(c)
    ensures OneLine(Comment(KindName(kind), ChunkId(c))) && NoHeading([Comment(KindName(kind), ChunkId(c))])
  {
    hide KindName, ChunkId;
    ChunkIdIsIdExactly(c);
    KindNameReads(kind);
    CommentEnds(KindName(kind), ChunkId(c));
  }

  /** A rendered chunk is one section, and reads as promised, exactly when no later line of the
      description or the content is a heading. */
  lemma RenderedReads(c: Candidate, kind: Kind)
    requires WellFormed(c)
    ensures |Readings(Rendered(c, kind))| == 1 <==> NoInnerHeading(c.description) && NoInnerHeading(c.content)
    ensures NoInnerHeading(c.description) && NoInnerHeading(c.content) ==>
      Readings(Rendered(c, kind)) == [RenderedReading(c, kind)]
  {
    hide Split, Comment, KindName, Body, EscapeMarkdown, Rendered, BeforeComment, Heading, ChunkId, Readings, NoComment;
    hide Trim, NoInnerHeading;
    var after := "\n" + Body(c) + "\n";
    RenderedShape(c, kind);
    RenderedLinesKinds(c, kind);
    OneSection(Heading(c), BeforeComment(c) + Comment(KindName(kind), ChunkId(c)) + after);
    ChunkIdIsIdExactly(c);
    BeforeCommentIsEscaped(c);
    EscapedHasNoComment(BeforeComment(c));
    BodyKinds(c);
    AfterHasNoComment(Body(c));
    if Trim(Heading(c)) != "" {
      if IsId(ChunkId(c)) {
        GoodSectionReads(Heading(c), BeforeComment(c), kind, ChunkId(c), after);
        ContentReads(c);
      } else {
        BadSectionReads(Heading(c), BeforeComment(c), kind, ChunkId(c), after);
      }
    }
  }

  lemma AfterHasNoComment(body: string)
    requires NoComment(body)
    ensures NoComment("\n" + body + "\n")
  {
    hide NoComment;
    NothingHasNoComment();
    NoCommentAcross("", body);
    assert "" + "\n" + body == "\n" + body;
    NoCommentAcross("\n" + body, "");
    assert "\n" + body + "\n" + "" == "\n" + body + "\n";
  }

  /** A chunk with a one-line description is read with the rendered body as its content. */
  lemma OneLineContent(c: Candidate)
    requires WellFormed(c) && OneLine(c.description)
    ensures Heading(c) == EscapeMarkdown(c.description) && RenderedContent(c) == Body(c)
  {
    hide Body, WellFormed, TrimLeft;
    EscapeKeepsLines(c.description);
    SplitLine(c.description, "");
    assert More(c) + ["", "", Body(c)] == ["", "", Body(c)];
    assert ["", "", Body(c)][1..] == ["", Body(c)] && ["", Body(c)][1..] == [Body(c)];
    assert Join(["", Body(c)]) == "\n" + Body(c);
    assert Join(["", "", Body(c)]) == "\n\n" + Body(c);
    BodyEnds(c);
    TrimOfEnded("\n\n", Body(c));
    TrimLeftOfBreaks();
    assert "" + Body(c) == Body(c);
  }

  lemma TrimLeftOfBreaks()
    ensures TrimLeft("\n\n") == ""
  {
    assert "\n\n"[1..] == "\n" && "\n"[1..] == "";
  }

  // ----- what escaping and the types mean

  /** Backslashes taken away from in front of what they escape. */
  function Unescape(s: string): string {
    if s == "" then ""
    else if s[0] == '\\' && |s| > 1 then [s[1]] + Unescape(s[2..])
    else [s[0]] + Unescape(s[1..])
  }

  /** Escaping loses nothing. */
  lemma {:induction false} EscapeRoundTrip(s: string)
    ensures Unescape(EscapeMarkdown(s)) == s
  {
    if s != "" {
      EscapeRoundTrip(s[1..]);
      var e := EscapeChar(s[0]);
      assert EscapeMarkdown(s)[|e|..] == EscapeMarkdown(s[1..]);
    }
  }

  /** How many characters of a text have a meaning in Markdown. */
  function MarkupIn(s: string): nat {
    if s == "" then 0
    else MarkupIn(s[1..]) + if s[0] in ['\\', '-', '[', ']', '(', ')', '>'] then 1 else 0
  }

  /** In an escaped text a backslash stands in front of every character that has a meaning, and nothing else is new. */
  lemma {:induction false} EscapesExactly(s: string)
    ensures |EscapeMarkdown(s)| == |s| + MarkupIn(s)
    ensures forall i :: 0 <= i < |EscapeMarkdown(s)| && EscapeMarkdown(s)[i] in ['-', '[', ']', '(', ')', '>'] ==>
      i > 0 && EscapeMarkdown(s)[i - 1] == '\\'
  {
    if s != "" {
      EscapesExactly(s[1..]);
      var e, rest := EscapeChar(s[0]), EscapeMarkdown(s[1..]);
      forall i | 0 <= i < |EscapeMarkdown(s)| && EscapeMarkdown(s)[i] in ['-', '[', ']', '(', ')', '>']
        ensures i > 0 && EscapeMarkdown(s)[i - 1] == '\\'
      {
        if i >= |e| {
          assert EscapeMarkdown(s)[i] == rest[i - |e|];
        }
      }
    }
  }

  /** Gaps and component behaviour are known issues, recovery patterns are runtime learnings, and no other learning than
      these and semantic locators and route mappings is rendered. */
  lemma TypesExactly(c: Candidate)
    ensures ChunkType(c) == Some(KnownIssue) <==> c.learning in ["gap", "component_behavior"]
    ensures ChunkType(c) == Some(RuntimeLearning) <==> c.learning == "recovery_pattern"
    ensures ChunkType(c) == Some(SemanticLocator) <==> c.learning == "semantic_locator"
    ensures ChunkType(c) == Some(Route) <==> c.learning == "route_mapping"
    ensures ChunkType(c).None? <==>
      c.learning !in ["gap", "component_behavior", "recovery_pattern", "semantic_locator", "route_mapping"]
  {
  }
}
