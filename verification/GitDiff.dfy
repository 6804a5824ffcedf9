/** Added lines of a unified diff, and the diffs they come from
    (src/infra/github/git-diff-added-lines.parser.ts, src/infra/github/git-diff.parser.shared.ts). */
module GitDiff {
  import opened Domain
  import opened Lines
  import opened Text

  datatype DiffLine = DiffLine(lineNumber: nat, content: string)

  // ----- the parser

  function LeadingDigits(s: string): (n: nat)
    ensures n <= |s| && AllDigits(s[..n])
  {
    if s == "" || !IsDigit(s[0]) then 0 else
    assert forall i :: 0 < i <= LeadingDigits(s[1..]) ==> s[i] == s[1..][i - 1];
    1 + LeadingDigits(s[1..])
  }

  /** Skip an optional comma and count. */
  function SkipCount(s: string): string {
    if s != "" && s[0] == ',' && LeadingDigits(s[1..]) > 0 then s[1 + LeadingDigits(s[1..])..] else s
  }

  /** The new-side start of a hunk header `@@ -a[,b] +c[,d] @@`. */
  function HunkStart(line: string): Option<nat> {
    if !("@@ -" <= line) then None else
    var before := line[4..];
    if LeadingDigits(before) == 0 then None else
    var middle := SkipCount(before[LeadingDigits(before)..]);
    if !(" +" <= middle) then None else
    var after := middle[2..];
    var n := LeadingDigits(after);
    if n == 0 || !(" @@" <= SkipCount(after[n..])) then None else Some(Value(after[..n]))
  }

  predicate IsFileMetadata(line: string) {
    || "diff --git " <= line
    || "index " <= line
    || "--- " <= line
    || "+++ " <= line
    || "Binary files " <= line
    || "GIT binary patch" <= line
  }

  predicate StartsWith(line: string, c: char) {
    line != "" && line[0] == c
  }

  /** The outcome of reading some lines: whether every added line had a positive number, as its schema
      demands, the added lines, and the number the next new-side line has. */
  datatype Parsed = Parsed(ok: bool, added: seq<DiffLine>, number: Option<nat>)

  function ParseLine(line: string, number: Option<nat>): Parsed {
    if HunkStart(line).Some? then Parsed(true, [], HunkStart(line))
    else if number.None? || IsFileMetadata(line) then Parsed(true, [], number)
    else if StartsWith(line, '+') then
      if number.value == 0 then Parsed(false, [], number)
      else Parsed(true, [DiffLine(number.value, line[1..])], Some(number.value + 1))
    else if StartsWith(line, ' ') then Parsed(true, [], Some(number.value + 1))
    else Parsed(true, [], number)
  }

  function Then(p: Parsed, q: Parsed): Parsed {
    if p.ok then Parsed(q.ok, p.added + q.added, q.number) else p
  }

  function ParseLines(lines: seq<string>, number: Option<nat>): Parsed {
    if lines == [] then Parsed(true, [], number) else
    var first := ParseLine(lines[0], number);
    Then(first, ParseLines(lines[1..], first.number))
  }

  lemma {:induction false} ParseAppend(a: seq<string>, b: seq<string>, number: Option<nat>)
    ensures var p := ParseLines(a, number);
      ParseLines(a + b, number) == Then(p, ParseLines(b, p.number))
  {
    hide ParseLine;
    if a == [] {
      assert a + b == b;
    } else {
      assert (a + b)[1..] == a[1..] + b;
      ParseAppend(a[1..], b, ParseLine(a[0], number).number);
    }
  }

  lemma EmptyDiffReads()
    ensures ParseLines(Split(""), None) == Parsed(true, [], None)
  {
    assert HunkStart("").None?;
    assert ParseLine("", None) == Parsed(true, [], None);
    assert [""][1..] == [];
  }

  /** The parser: one pass over the lines, keeping the number of the next new-side line. */
  method ParseAddedLines(raw: string) returns (r: Outcome<seq<DiffLine>>)
    ensures var p := ParseLines(Split(raw), None);
      r == if p.ok then Ok(p.added) else Thrown(SchemaInvalid)
  {
    hide HunkStart, IsFileMetadata;
    if raw == "" {
      EmptyDiffReads();
      return Ok([]);
    }
    var lines, added, number: Option<nat> := Split(raw), [], None;
    for i := 0 to |lines|
      invariant ParseLines(lines[..i], None) == Parsed(true, added, number)
    {
      var line := lines[i];
      assert lines[..i + 1] == lines[..i] + [line];
      ParseAppend(lines[..i], [line], None);
      assert ParseLines([line], number) == Then(ParseLine(line, number),
                                                Parsed(true, [], ParseLine(line, number).number));
      if HunkStart(line).Some? {
        number := HunkStart(line);
      } else if number.Some? && !IsFileMetadata(line) {
        if StartsWith(line, '+') {
          if number.value == 0 {
            assert lines == lines[..i + 1] + lines[i + 1..];
            ParseAppend(lines[..i + 1], lines[i + 1..], None);
            return Thrown(SchemaInvalid);
          }
          added, number := added + [DiffLine(number.value, line[1..])], Some(number.value + 1);
        } else if StartsWith(line, ' ') {
          number := Some(number.value + 1);
        }
      }
    }
    assert lines[..|lines|] == lines;
    return Ok(added);
  }

  // ----- diffs

  /** One line of an edit script. `Marker` is the note that a file does not end in a newline. */
  datatype Edit = Keep(text: string) | Delete(text: string) | Insert(text: string) | Marker

  /** An edit script covers the whole file, in stretches left out of the diff and stretches shown. */
  datatype Piece = Hidden(lines: seq<string>) | Shown(edits: seq<Edit>, section: string)

  datatype FileDiff = FileDiff(header: seq<string>, pieces: seq<Piece>)

  function OldLines(edits: seq<Edit>): seq<string> {
    if edits == [] then [] else
    (if edits[0].Keep? || edits[0].Delete? then [edits[0].text] else []) + OldLines(edits[1..])
  }

  function NewLines(edits: seq<Edit>): seq<string> {
    if edits == [] then [] else
    (if edits[0].Keep? || edits[0].Insert? then [edits[0].text] else []) + NewLines(edits[1..])
  }

  function OldFile(pieces: seq<Piece>): seq<string> {
    if pieces == [] then [] else
    (match pieces[0] case Hidden(lines) => lines case Shown(edits, _) => OldLines(edits)) + OldFile(pieces[1..])
  }

  function NewFile(pieces: seq<Piece>): seq<string> {
    if pieces == [] then [] else
    (match pieces[0] case Hidden(lines) => lines case Shown(edits, _) => NewLines(edits)) + NewFile(pieces[1..])
  }

  function EditLine(e: Edit): string {
    match e
    case Keep(text) => " " + text
    case Delete(text) => "-" + text
    case Insert(text) => "+" + text
    case Marker => "\\ No newline at end of file"
  }

  function EditLines(edits: seq<Edit>): seq<string> {
    if edits == [] then [] else [EditLine(edits[0])] + EditLines(edits[1..])
  }

  /** A range of `count` lines after the first `before` of a file: the count is left out when it is one,
      and an empty range is named by the line before it. */
  function Range(before: nat, count: nat): string {
    if count == 1 then Decimal(before + 1)
    else if count == 0 then Decimal(before) + ",0"
    else Decimal(before + 1) + "," + Decimal(count)
  }

  function RangeStart(before: nat, count: nat): nat {
    if count == 0 then before else before + 1
  }

  function HunkHeader(edits: seq<Edit>, oldBefore: nat, newBefore: nat, section: string): string {
    "@@ -" + Range(oldBefore, |OldLines(edits)|) + " +" + Range(newBefore, |NewLines(edits)|) + " @@" + section
  }

  function PrintPieces(pieces: seq<Piece>, oldBefore: nat, newBefore: nat): seq<string> {
    if pieces == [] then [] else
    match pieces[0]
    case Hidden(lines) => PrintPieces(pieces[1..], oldBefore + |lines|, newBefore + |lines|)
    case Shown(edits, section) =>
      [HunkHeader(edits, oldBefore, newBefore, section)] + EditLines(edits)
      + PrintPieces(pieces[1..], oldBefore + |OldLines(edits)|, newBefore + |NewLines(edits)|)
  }

  function PrintFiles(files: seq<FileDiff>): seq<string> {
    if files == [] then [] else files[0].header + PrintPieces(files[0].pieces, 0, 0) + PrintFiles(files[1..])
  }

  /** The text of a diff over any number of files; like the tools' output it ends in a newline. */
  function PrintDiff(files: seq<FileDiff>): string {
    Join(PrintFiles(files) + [""])
  }

  /** A header line: neither a hunk header nor something that could be taken for a hunk line. */
  predicate IsHeaderLine(line: string) {
    HunkStart(line).None? && (IsFileMetadata(line) || !(StartsWith(line, '+') || StartsWith(line, ' ')))
  }

  predicate EditIsOneLine(e: Edit) {
    e.Marker? || OneLine(e.text)
  }

  predicate WellFormedPiece(p: Piece) {
    p.Shown? ==> OneLine(p.section) && forall e <- p.edits :: EditIsOneLine(e)
  }

  predicate WellFormedFile(f: FileDiff) {
    && (forall line <- f.header :: IsHeaderLine(line) && OneLine(line))
    && forall p <- f.pieces :: WellFormedPiece(p)
  }

  /** What was added, with the line numbers of the new file. */
  function AddedEdits(edits: seq<Edit>, number: nat): seq<DiffLine> {
    if edits == [] then [] else
    match edits[0]
    case Insert(text) => [DiffLine(number, text)] + AddedEdits(edits[1..], number + 1)
    case Keep(_) => AddedEdits(edits[1..], number + 1)
    case _ => AddedEdits(edits[1..], number)
  }

  function AddedPieces(pieces: seq<Piece>, newBefore: nat): seq<DiffLine> {
    if pieces == [] then [] else
    match pieces[0]
    case Hidden(lines) => AddedPieces(pieces[1..], newBefore + |lines|)
    case Shown(edits, _) => AddedEdits(edits, newBefore + 1) + AddedPieces(pieces[1..], newBefore + |NewLines(edits)|)
  }

  function AddedFiles(files: seq<FileDiff>): seq<DiffLine> {
    if files == [] then [] else AddedPieces(files[0].pieces, 0) + AddedFiles(files[1..])
  }

  lemma {:induction false} AddedEditsAreInNewLines(edits: seq<Edit>, number: nat, a: DiffLine)
    requires a in AddedEdits(edits, number)
    ensures number <= a.lineNumber < number + |NewLines(edits)|
    ensures NewLines(edits)[a.lineNumber - number] == a.content
  {
    match edits[0] {
      case Insert(text) =>
        if a != DiffLine(number, text) {
          AddedEditsAreInNewLines(edits[1..], number + 1, a);
        }
      case Keep(_) => AddedEditsAreInNewLines(edits[1..], number + 1, a);
      case _ => AddedEditsAreInNewLines(edits[1..], number, a);
    }
  }

  /** The numbers are true: each added line stands in the new file where its number says. */
  lemma {:induction false} AddedLinesAreInNewFile(pieces: seq<Piece>, newBefore: nat, a: DiffLine)
    requires a in AddedPieces(pieces, newBefore)
    ensures newBefore < a.lineNumber <= newBefore + |NewFile(pieces)|
    ensures NewFile(pieces)[a.lineNumber - newBefore - 1] == a.content
  {
    match pieces[0] {
      case Hidden(lines) => AddedLinesAreInNewFile(pieces[1..], newBefore + |lines|, a);
      case Shown(edits, _) =>
        if a in AddedEdits(edits, newBefore + 1) {
          AddedEditsAreInNewLines(edits, newBefore + 1, a);
        } else {
          AddedLinesAreInNewFile(pieces[1..], newBefore + |NewLines(edits)|, a);
        }
    }
  }

  // ----- reading a printed diff

  lemma {:induction false} DigitsStop(digits: string, rest: string)
    requires AllDigits(digits) && (rest == "" || !IsDigit(rest[0]))
    ensures LeadingDigits(digits + rest) == |digits|
  {
    if digits == "" {
      assert digits + rest == rest;
    } else {
      assert (digits + rest)[1..] == digits[1..] + rest;
      DigitsStop(digits[1..], rest);
    }
  }

  lemma NumberReads(n: nat, rest: string)
    requires rest != "" && !IsDigit(rest[0])
    ensures var s := Decimal(n) + rest;
      LeadingDigits(s) == |Decimal(n)| > 0 && s[..|Decimal(n)|] == Decimal(n) && s[|Decimal(n)|..] == rest
  {
    DigitsStop(Decimal(n), rest);
  }

  lemma CountIsSkipped(n: nat, rest: string)
    requires rest != "" && !IsDigit(rest[0])
    ensures SkipCount("," + Decimal(n) + rest) == rest
  {
    var s := "," + Decimal(n) + rest;
    NumberReads(n, rest);
    assert s[1..] == Decimal(n) + rest;
    assert s[1 + |Decimal(n)|..] == s[1..][|Decimal(n)|..];
  }

  /** Reading back a printed range: its start, and what follows it. */
  lemma RangeReads(before: nat, count: nat, rest: string)
    requires rest != "" && rest[0] == ' '
    ensures var s := Range(before, count) + rest;
      var n := LeadingDigits(s);
      n > 0 && Value(s[..n]) == RangeStart(before, count) && SkipCount(s[n..]) == rest
  {
    hide Decimal, Value, LeadingDigits;
    var start := RangeStart(before, count);
    ValueOfDecimal(start);
    if count == 1 {
      NumberReads(start, rest);
      assert SkipCount(rest) == rest;
    } else {
      var tail := "," + Decimal(count) + rest;
      ZeroIsZero();
      assert Range(before, count) + rest == Decimal(start) + tail;
      NumberReads(start, tail);
      CountIsSkipped(count, rest);
    }
  }

  lemma ZeroIsZero()
    ensures Decimal(0) == "0"
  {
  }

  lemma HeaderReads(edits: seq<Edit>, oldBefore: nat, newBefore: nat, section: string)
    ensures HunkStart(HunkHeader(edits, oldBefore, newBefore, section))
      == Some(RangeStart(newBefore, |NewLines(edits)|))
  {
    var line := HunkHeader(edits, oldBefore, newBefore, section);
    var after := Range(newBefore, |NewLines(edits)|) + (" @@" + section);
    var middle := " +" + after;
    var before := Range(oldBefore, |OldLines(edits)|) + middle;
    assert line == "@@ -" + before;
    assert line[4..] == before;
    RangeReads(oldBefore, |OldLines(edits)|, middle);
    assert middle[2..] == after;
    RangeReads(newBefore, |NewLines(edits)|, " @@" + section);
  }

  predicate LooksLikeMetadata(e: Edit) {
    e.Insert? && "++ " <= e.text
  }

  /** What the parser sees of a hunk: an added line that starts with `++ ` is taken for metadata and not
      counted. */
  function SeenEdits(edits: seq<Edit>, number: nat): seq<DiffLine> {
    if edits == [] then [] else
    match edits[0]
    case Insert(text) =>
      if LooksLikeMetadata(edits[0]) then SeenEdits(edits[1..], number)
      else [DiffLine(number, text)] + SeenEdits(edits[1..], number + 1)
    case Keep(_) => SeenEdits(edits[1..], number + 1)
    case _ => SeenEdits(edits[1..], number)
  }

  function SeenPieces(pieces: seq<Piece>, newBefore: nat): seq<DiffLine> {
    if pieces == [] then [] else
    match pieces[0]
    case Hidden(lines) => SeenPieces(pieces[1..], newBefore + |lines|)
    case Shown(edits, _) => SeenEdits(edits, newBefore + 1) + SeenPieces(pieces[1..], newBefore + |NewLines(edits)|)
  }

  function SeenFiles(files: seq<FileDiff>): seq<DiffLine> {
    if files == [] then [] else SeenPieces(files[0].pieces, 0) + SeenFiles(files[1..])
  }

  lemma EditLineKinds(e: Edit)
    ensures HunkStart(EditLine(e)).None?
    ensures e.Keep? || e.Marker? ==> !IsFileMetadata(EditLine(e))
    ensures e.Insert? ==> (IsFileMetadata(EditLine(e)) <==> LooksLikeMetadata(e))
  {
    var line := EditLine(e);
    assert line[0] != '@';
    if e.Insert? {
      assert line[1..] == e.text;
      if "+++ " <= line {
        assert line[1..][..3] == "++ ";
      }
      if "++ " <= e.text {
        assert line[..4] == "+" + e.text[..3];
      }
    }
  }

  lemma {:induction false} HunkReads(edits: seq<Edit>, number: nat)
    requires number > 0 || NewLines(edits) == []
    ensures var p := ParseLines(EditLines(edits), Some(number));
      p.ok && p.added == SeenEdits(edits, number) && p.number.Some?
  {
    hide HunkStart, IsFileMetadata;
    if edits != [] {
      var e := edits[0];
      EditLineKinds(e);
      assert EditLine(e)[1..] == if e.Marker? then " No newline at end of file" else e.text;
      var next := ParseLine(EditLine(e), Some(number)).number.value;
      HunkReads(edits[1..], next);
      assert EditLines(edits)[1..] == EditLines(edits[1..]);
    }
  }

  lemma {:induction false} EmptyHunkSeesNothing(edits: seq<Edit>, number: nat, other: nat)
    requires NewLines(edits) == []
    ensures SeenEdits(edits, number) == SeenEdits(edits, other) == []
  {
    if edits != [] {
      EmptyHunkSeesNothing(edits[1..], number, other);
    }
  }

  /** A hunk header only sets the number. */
  lemma HeaderSetsNumber(header: string, body: seq<string>, start: nat, number: Option<nat>)
    requires HunkStart(header) == Some(start)
    ensures ParseLines([header] + body, number) == ParseLines(body, Some(start))
  {
    hide HunkStart;
    assert ParseLine(header, number) == Parsed(true, [], Some(start));
    hide ParseLine;
    assert ([header] + body)[0] == header && ([header] + body)[1..] == body;
    var rest := ParseLines(body, Some(start));
    assert [] + rest.added == rest.added;
  }

  lemma ShownReads(edits: seq<Edit>, section: string, oldBefore: nat, newBefore: nat, number: Option<nat>)
    ensures var p := ParseLines([HunkHeader(edits, oldBefore, newBefore, section)] + EditLines(edits), number);
      p.ok && p.added == SeenEdits(edits, newBefore + 1)
  {
    hide HunkHeader, EditLines, SeenEdits, OldLines, NewLines, HunkStart, ParseLines;
    var start := RangeStart(newBefore, |NewLines(edits)|);
    HeaderReads(edits, oldBefore, newBefore, section);
    HeaderSetsNumber(HunkHeader(edits, oldBefore, newBefore, section), EditLines(edits), start, number);
    HunkReads(edits, start);
    if NewLines(edits) == [] {
      EmptyHunkSeesNothing(edits, start, newBefore + 1);
    }
  }

  lemma {:induction false} PiecesRead(pieces: seq<Piece>, oldBefore: nat, newBefore: nat, number: Option<nat>)
    ensures var p := ParseLines(PrintPieces(pieces, oldBefore, newBefore), number);
      p.ok && p.added == SeenPieces(pieces, newBefore)
  {
    hide HunkHeader, EditLines, NewLines, OldLines, SeenEdits, ParseLine;
    if pieces != [] {
      match pieces[0] {
        case Hidden(lines) => PiecesRead(pieces[1..], oldBefore + |lines|, newBefore + |lines|, number);
        case Shown(edits, section) =>
          var shown := [HunkHeader(edits, oldBefore, newBefore, section)] + EditLines(edits);
          var rest := PrintPieces(pieces[1..], oldBefore + |OldLines(edits)|, newBefore + |NewLines(edits)|);
          ShownReads(edits, section, oldBefore, newBefore, number);
          PiecesRead(pieces[1..], oldBefore + |OldLines(edits)|, newBefore + |NewLines(edits)|,
                     ParseLines(shown, number).number);
          ParseAppend(shown, rest, number);
      }
    }
  }

  lemma {:induction false} HeaderLinesAddNothing(lines: seq<string>, number: Option<nat>)
    requires forall line <- lines :: IsHeaderLine(line)
    ensures ParseLines(lines, number) == Parsed(true, [], number)
  {
    hide HunkStart, IsFileMetadata, StartsWith;
    if lines != [] {
      assert IsHeaderLine(lines[0]);
      HeaderLinesAddNothing(lines[1..], number);
    }
  }

  lemma FileReads(f: FileDiff, number: Option<nat>)
    requires WellFormedFile(f)
    ensures var p := ParseLines(f.header + PrintPieces(f.pieces, 0, 0), number);
      p.ok && p.added == SeenPieces(f.pieces, 0)
  {
    hide HunkStart, PrintPieces, SeenPieces, ParseLine, ParseLines;
    HeaderLinesAddNothing(f.header, number);
    PiecesRead(f.pieces, 0, 0, number);
    ParseAppend(f.header, PrintPieces(f.pieces, 0, 0), number);
  }

  lemma {:induction false} FilesRead(files: seq<FileDiff>, number: Option<nat>)
    requires forall f <- files :: WellFormedFile(f)
    ensures var p := ParseLines(PrintFiles(files), number);
      p.ok && p.added == SeenFiles(files)
  {
    hide WellFormedFile, PrintPieces, SeenPieces, ParseLine;
    if files != [] {
      var text, rest := files[0].header + PrintPieces(files[0].pieces, 0, 0), PrintFiles(files[1..]);
      FileReads(files[0], number);
      FilesRead(files[1..], ParseLines(text, number).number);
      ParseAppend(text, rest, number);
    }
  }

  lemma PiecesAreOneLine(pieces: seq<Piece>, oldBefore: nat, newBefore: nat)
    requires forall p <- pieces :: WellFormedPiece(p)
    ensures forall line <- PrintPieces(pieces, oldBefore, newBefore) :: OneLine(line)
    decreases |pieces|
  {
    if pieces != [] {
      assert WellFormedPiece(pieces[0]);
      match pieces[0] {
        case Hidden(lines) => PiecesAreOneLine(pieces[1..], oldBefore + |lines|, newBefore + |lines|);
        case Shown(edits, section) =>
          EditsAreOneLine(edits);
          DigitsHaveNoNewline(Range(oldBefore, |OldLines(edits)|));
          DigitsHaveNoNewline(Range(newBefore, |NewLines(edits)|));
          PiecesAreOneLine(pieces[1..], oldBefore + |OldLines(edits)|, newBefore + |NewLines(edits)|);
      }
    }
  }

  lemma DigitsHaveNoNewline(range: string)
    requires forall c <- range :: IsDigit(c) || c == ','
    ensures OneLine(range)
  {
  }

  lemma {:induction false} EditsAreOneLine(edits: seq<Edit>)
    requires forall e <- edits :: EditIsOneLine(e)
    ensures forall line <- EditLines(edits) :: OneLine(line)
  {
    if edits != [] {
      assert EditIsOneLine(edits[0]);
      EditsAreOneLine(edits[1..]);
    }
  }

  lemma {:induction false} FilesAreOneLine(files: seq<FileDiff>)
    requires forall f <- files :: WellFormedFile(f)
    ensures forall line <- PrintFiles(files) :: OneLine(line)
  {
    if files != [] {
      assert WellFormedFile(files[0]);
      PiecesAreOneLine(files[0].pieces, 0, 0);
      FilesAreOneLine(files[1..]);
    }
  }

  /** Reading any printed diff gives, in order, the added lines the parser can see. */
  lemma DiffReads(files: seq<FileDiff>)
    requires forall f <- files :: WellFormedFile(f)
    ensures var p := ParseLines(Split(PrintDiff(files)), None);
      p.ok && p.added == SeenFiles(files)
  {
    FilesAreOneLine(files);
    SplitJoin(PrintFiles(files) + [""]);
    FilesRead(files, None);
    ParseAppend(PrintFiles(files), [""], None);
  }

  lemma {:induction false} SeenEditsExactly(edits: seq<Edit>, number: nat)
    ensures |SeenEdits(edits, number)| <= |AddedEdits(edits, number)|
    ensures (forall e <- edits :: !LooksLikeMetadata(e)) ==> SeenEdits(edits, number) == AddedEdits(edits, number)
    ensures (exists e <- edits :: LooksLikeMetadata(e)) ==> |SeenEdits(edits, number)| < |AddedEdits(edits, number)|
  {
    if edits != [] {
      assert edits == [edits[0]] + edits[1..];
      SeenEditsExactly(edits[1..], number);
      SeenEditsExactly(edits[1..], number + 1);
      SeenCount(edits[1..], number, number + 1);
    }
  }

  lemma {:induction false} SeenCount(edits: seq<Edit>, a: nat, b: nat)
    ensures |SeenEdits(edits, a)| == |SeenEdits(edits, b)| && |AddedEdits(edits, a)| == |AddedEdits(edits, b)|
  {
    if edits != [] {
      SeenCount(edits[1..], a, b);
      SeenCount(edits[1..], a + 1, b + 1);
      SeenCount(edits[1..], a, b + 1);
    }
  }

  predicate PieceIsPlain(p: Piece) {
    p.Shown? ==> forall e <- p.edits :: !LooksLikeMetadata(e)
  }

  lemma {:induction false} SeenPiecesExactly(pieces: seq<Piece>, newBefore: nat)
    ensures |SeenPieces(pieces, newBefore)| <= |AddedPieces(pieces, newBefore)|
    ensures (forall p <- pieces :: PieceIsPlain(p)) ==> SeenPieces(pieces, newBefore) == AddedPieces(pieces, newBefore)
    ensures (exists p <- pieces :: !PieceIsPlain(p)) ==>
      |SeenPieces(pieces, newBefore)| < |AddedPieces(pieces, newBefore)|
  {
    hide SeenEdits, AddedEdits, NewLines;
    if pieces != [] {
      var rest := pieces[1..];
      assert forall p <- pieces :: p == pieces[0] || p in rest;
      assert pieces[0] in pieces && forall p <- rest :: p in pieces;
      match pieces[0] {
        case Hidden(lines) => SeenPiecesExactly(rest, newBefore + |lines|);
        case Shown(edits, _) =>
          SeenEditsExactly(edits, newBefore + 1);
          SeenPiecesExactly(rest, newBefore + |NewLines(edits)|);
      }
    }
  }

  predicate FileIsPlain(f: FileDiff) {
    forall p <- f.pieces :: PieceIsPlain(p)
  }

  lemma {:induction false} SeenFilesExactly(files: seq<FileDiff>)
    ensures |SeenFiles(files)| <= |AddedFiles(files)|
    ensures (forall f <- files :: FileIsPlain(f)) ==> SeenFiles(files) == AddedFiles(files)
    ensures (exists f <- files :: !FileIsPlain(f)) ==> |SeenFiles(files)| < |AddedFiles(files)|
  {
    if files != [] {
      assert files == [files[0]] + files[1..];
      assert (forall f <- files :: FileIsPlain(f)) ==> FileIsPlain(files[0]);
      SeenPiecesExactly(files[0].pieces, 0);
      SeenFilesExactly(files[1..]);
    }
  }

  /** For any edit scripts of any number of files, reading the printed diff gives exactly the added lines
      with their numbers in the new files, if and only if no added line starts with `++ `. */
  lemma DiffRoundTripExactly(files: seq<FileDiff>)
    requires forall f <- files :: WellFormedFile(f)
    ensures ParseLines(Split(PrintDiff(files)), None).ok
    ensures ParseLines(Split(PrintDiff(files)), None).added == AddedFiles(files)
      <==> forall f <- files :: FileIsPlain(f)
  {
    DiffReads(files);
    SeenFilesExactly(files);
  }

  /** The header lines git writes are header lines. */
  lemma GitHeadersAreHeaders(path: string)
    ensures IsHeaderLine("diff --git " + path) && IsHeaderLine("index " + path)
    ensures IsHeaderLine("--- " + path) && IsHeaderLine("+++ " + path)
    ensures IsHeaderLine("new file mode " + path) && IsHeaderLine("rename from " + path)
  {
    assert ("diff --git " + path)[0] == 'd' && ("index " + path)[0] == 'i';
    assert ("--- " + path)[0] == '-' && ("+++ " + path)[0] == '+';
    assert ("new file mode " + path)[0] == 'n' && ("rename from " + path)[0] == 'r';
    assert ("diff --git " + path)[..11] == "diff --git " && ("index " + path)[..6] == "index ";
    assert ("--- " + path)[..4] == "--- " && ("+++ " + path)[..4] == "+++ ";
  }
}
