/** How sections written with a heading and a metadata comment read back: the facts behind the round trips
    of MemoryGeneration and MemoryPromotion. */
module MemoryRendering {
  import opened Domain
  import opened Lines
  import opened MemoryChunks

  const HEADER: string := "<!-- agent-qa-memory v1 -->"

  function Comment(word: string, id: string): string {
    "<!-- type: " + word + " | id: " + id + " -->"
  }

  // ----- putting sections together

  predicate StartsSection(lines: seq<string>) {
    lines == [] || IsHeading(lines[0])
  }

  lemma {:induction false} UntilHeadingStops(a: seq<string>, b: seq<string>)
    requires StartsSection(b)
    ensures UntilHeading(a + b) == UntilHeading(a)
  {
    if a == [] {
      assert a + b == b;
    } else {
      assert (a + b)[1..] == a[1..] + b;
      UntilHeadingStops(a[1..], b);
    }
  }

  lemma {:induction false} SectionsAppend(a: seq<string>, b: seq<string>)
    requires StartsSection(b)
    ensures Sections(a + b) == Sections(a) + Sections(b)
  {
    if a == [] {
      assert a + b == b;
    } else {
      assert (a + b)[1..] == a[1..] + b;
      SectionsAppend(a[1..], b);
      UntilHeadingStops(a[1..], b);
    }
  }

  lemma {:induction false} JoinAppend(a: seq<string>, b: seq<string>)
    requires a != [] && b != []
    ensures Join(a + b) == Join(a) + "\n" + Join(b)
  {
    if |a| == 1 {
      assert (a + b)[1..] == b;
    } else {
      assert (a + b)[1..] == a[1..] + b;
      JoinAppend(a[1..], b);
    }
  }

  lemma {:induction false} UntilHeadingOfBlank(a: seq<string>)
    ensures UntilHeading(a + [""]) == UntilHeading(a) || UntilHeading(a + [""]) == UntilHeading(a) + [""]
  {
    if a == [] {
      assert a + [""] == [""];
    } else {
      assert (a + [""])[1..] == a[1..] + [""];
      UntilHeadingOfBlank(a[1..]);
    }
  }

  lemma TextIgnoresBlankEnd(heading: string, lines: seq<string>)
    ensures Read(Section(heading, Join(lines + [""]))) == Read(Section(heading, Join(lines)))
  {
    if lines == [] {
      assert lines + [""] == [""];
    } else {
      JoinAppend(lines, [""]);
      assert Join([""]) == "";
      assert Join(lines) + "\n" + "" == Join(lines) + ['\n'];
      TrimIgnoresSpaceAfter(Join(lines), '\n');
    }
  }

  /** A blank line at the end of a file does not change how its sections read. */
  lemma {:induction false} BlankEnd(a: seq<string>)
    ensures ReadAll(Sections(a + [""])) == ReadAll(Sections(a))
  {
    hide Read, Join;
    if a == [] {
      assert a + [""] == [""];
      assert [""][1..] == [];
      assert !IsHeading("");
    } else {
      assert (a + [""])[1..] == a[1..] + [""];
      BlankEnd(a[1..]);
      if IsHeading(a[0]) {
        UntilHeadingOfBlank(a[1..]);
        TextIgnoresBlankEnd(a[0][3..], UntilHeading(a[1..]));
      }
    }
  }

  /** Sections written after a blank line leave the earlier ones as they were. */
  lemma ReadingsAppend(a: string, b: string)
    requires IsHeading(Split(b)[0])
    ensures Readings(a + "\n" + b) == Readings(a) + Readings(b)
    ensures Readings(a + "\n\n" + b) == Readings(a) + Readings(b)
  {
    hide Read, Split, Sections, ReadAll, IsHeading;
    SplitAppend(a, b);
    SectionsAppend(Split(a), Split(b));
    ReadAllAppend(Sections(Split(a)), Sections(Split(b)));
    assert a + "\n\n" + b == a + "\n" + ("" + "\n" + b);
    SplitAppend(a, "" + "\n" + b);
    SplitAppend("", b);
    SplitLine("", "");
    assert Split(a) + ([""] + Split(b)) == (Split(a) + [""]) + Split(b);
    SectionsAppend(Split(a) + [""], Split(b));
    ReadAllAppend(Sections(Split(a) + [""]), Sections(Split(b)));
    BlankEnd(Split(a));
  }

  predicate NoHeading(lines: seq<string>) {
    forall l <- lines :: !IsHeading(l)
  }

  lemma {:induction false} NoHeadingNoSection(lines: seq<string>)
    ensures NoHeading(lines) ==> Sections(lines) == [] && UntilHeading(lines) == lines
    ensures !NoHeading(lines) ==> |Sections(lines)| > 0
  {
    if lines != [] {
      NoHeadingNoSection(lines[1..]);
      assert lines == [lines[0]] + lines[1..];
    }
  }

  /** A heading and what follows it is one section if and only if nothing that follows is a heading. */
  lemma OneSection(heading: string, rest: string)
    requires OneLine(heading)
    ensures |Readings("## " + heading + "\n" + rest)| == 1 <==> NoHeading(Split(rest))
    ensures NoHeading(Split(rest)) ==> Readings("## " + heading + "\n" + rest) == [Read(Section(heading, rest))]
  {
    var lines := Split(rest);
    SplitLine("## " + heading, rest);
    var all := ["## " + heading] + lines;
    assert all[1..] == lines && all[0][3..] == heading;
    NoHeadingNoSection(lines);
    JoinSplit(rest);
    ReadAllAppend(Sections(all), []);
    if NoHeading(lines) {
      assert Sections(all) == [Section(heading, rest)];
      OneReading(Section(heading, rest));
    }
  }

  lemma OneReading(s: Section)
    ensures ReadAll([s]) == [Read(s)]
  {
    assert [s][1..] == [];
  }

  // ----- reading a metadata comment

  lemma {:induction false} RunStops(a: string, b: string, p: char -> bool)
    requires forall c <- a :: p(c)
    requires b == "" || !p(b[0])
    ensures Run(a + b, p) == |a|
  {
    if a == "" {
      assert a + b == b;
    } else {
      assert (a + b)[1..] == a[1..] + b;
      assert a[0] in a;
      RunStops(a[1..], b, p);
    }
  }

  lemma SkipOne(s: string)
    requires s != "" && !IsSpace(s[0])
    ensures Skip(" " + s) == s && Skip(s) == s
  {
    RunStops(" ", s, IsSpace);
    RunStops("", s, IsSpace);
    assert "" + s == s;
  }

  lemma WordIsRead(word: string, rest: string)
    requires Lower(word) == word
    ensures After(word + rest, word) == Some(rest)
  {
    assert (word + rest)[..|word|] == word;
  }

  predicate IsRenderedId(id: string) {
    id != "" && forall c <- id :: IsUpper(c) || IsNumeral(c) || c == '-' || c == '_'
  }

  lemma TypeReads(rest: string)
    ensures AfterType("<!-- type: " + rest) == Some(" " + rest)
  {
    var s := "<!-- type: " + rest;
    assert s[4..] == " " + ("type: " + rest);
    SkipOne("type: " + rest);
    assert "type: " + rest == "type:" + (" " + rest);
    WordIsRead("type:", " " + rest);
  }

  lemma BarReads(rest: string)
    ensures AfterBar(" | id: " + rest) == Some(" " + rest)
  {
    var bar, named := "| id: " + rest, "id: " + rest;
    assert " | id: " + rest == " " + bar;
    SkipOne(bar);
    assert bar[1..] == " " + named;
    SkipOne(named);
    assert named == "id:" + (" " + rest);
    WordIsRead("id:", " " + rest);
  }

  lemma CommentReads(word: string, id: string, post: string)
    requires word != "" && forall c <- word :: IsWord(c)
    requires IsRenderedId(id)
    ensures MetadataAt(Comment(word, id) + post) == IdAndRest(id + (" -->" + post), word)
  {
    hide IdAndRest, AfterType, AfterBar, Skip, Run;
    var end := id + (" -->" + post);
    var typed := word + (" | id: " + end);
    assert Comment(word, id) + post == "<!-- type: " + typed;
    assert id[0] in id && word[0] in word;
    TypeReads(typed);
    SkipOne(typed);
    RunStops(word, " | id: " + end, IsWord);
    assert typed[..|word|] == word && typed[|word|..] == " | id: " + end;
    BarReads(end);
    SkipOne(end);
  }

  lemma UpperOfId(id: string)
    requires IsId(id)
    ensures Upper(id) == id
  {
    forall i | 0 <= i < |id|
      ensures UpperChar(id[i]) == id[i]
    {
      assert id[i] in id;
    }
  }

  lemma TailReads(post: string)
    ensures Tail(" -->" + post) == Some(post)
  {
    assert " -->" + post == " " + ("-->" + post);
    SkipOne("-->" + post);
    assert ("-->" + post)[3..] == post;
  }

  lemma GoodIdReads(word: string, id: string, post: string)
    requires IsId(id)
    ensures IdAndRest(id + (" -->" + post), word) == Some(Metadata(word, id, post))
  {
    hide Tail, Upper, Run;
    var s := id + (" -->" + post);
    RunStops(id, " -->" + post, IsIdChar);
    assert s[|id|..] == " -->" + post && s[..|id|] == id;
    TailReads(post);
    UpperOfId(id);
  }

  lemma NoEndInId(id: string, post: string, j: nat)
    requires IsRenderedId(id) && j < |id|
    ensures Tail((id + (" -->" + post))[j..]) == None
  {
    var whole := id + (" -->" + post);
    var s := whole[j..];
    assert s[0] == id[j] && id[j] in id;
    RunStops("", s, IsSpace);
    assert "" + s == s;
    assert whole[|id|] == ' ' && whole[|id| + 1] == '-';
    assert s[2] == whole[j + 2];
    if j + 2 < |id| {
      assert id[j + 2] in id;
    }
  }

  lemma {:induction false} NoIdEnds(id: string, post: string, k: nat)
    requires IsRenderedId(id) && k < |id|
    ensures IdLength(id + (" -->" + post), k) == 0
  {
    hide Tail, IsRenderedId;
    NoEndInId(id, post, k);
    if k > 0 {
      NoIdEnds(id, post, k - 1);
    }
  }

  /** An id with an underscore ends the pattern before the id does. */
  lemma BadIdFails(word: string, id: string, post: string)
    requires IsRenderedId(id) && !IsId(id)
    ensures IdAndRest(id + (" -->" + post), word) == None
  {
    hide Tail, IdLength, Upper;
    var s := id + (" -->" + post);
    var k := Run(s, IsIdChar);
    var i :| 0 <= i < |id| && id[i] == '_';
    assert s[i] == '_';
    NoIdEnds(id, post, k);
  }

  // ----- finding the comment

  /** No metadata comment opens in a text. */
  predicate NoComment(s: string) {
    forall i :: 0 <= i <= |s| - 4 ==> !("<!--" <= s[i..])
  }

  lemma NoCommentSuffix(s: string)
    requires NoComment(s) && s != ""
    ensures NoComment(s[1..]) && !("<!--" <= s)
  {
    forall i | 0 <= i <= |s| - 5
      ensures !("<!--" <= s[1..][i..])
    {
      assert s[1..][i..] == s[i + 1..];
    }
    assert s[0..] == s;
  }

  lemma {:induction false} NothingFound(s: string)
    requires NoComment(s)
    ensures FirstMetadata(s) == None
  {
    hide NoComment;
    if s != "" {
      NoCommentSuffix(s);
      NothingFound(s[1..]);
    }
  }

  lemma BehindTwice(a: string, b: string, found: Option<Found>)
    ensures Behind(a, Behind(b, found)) == Behind(a + b, found)
    ensures Behind("", found) == found
  {
    if found.Some? {
      assert a + (b + found.value.before) == a + b + found.value.before;
      assert "" + found.value.before == found.value.before;
    }
  }

  /** A comment is found behind a text in which none opens. */
  lemma {:induction false} FoundBehind(a: string, b: string)
    requires NoComment(a) && b != "" && b[0] == '<'
    ensures FirstMetadata(a + b) == Behind(a, FirstMetadata(b))
  {
    hide NoComment, MetadataAt, Behind;
    if a == "" {
      assert a + b == b;
      BehindTwice("", "", FirstMetadata(b));
    } else {
      var s := a + b;
      assert s[0] == a[0] && s[1..] == a[1..] + b;
      NoOpeningAcross(a, b);
      NoCommentSuffix(a);
      FoundBehind(a[1..], b);
      BehindTwice([a[0]], a[1..], FirstMetadata(b));
      assert [a[0]] + a[1..] == a;
    }
  }

  lemma NoOpeningAcross(a: string, b: string)
    requires NoComment(a) && a != "" && b != "" && b[0] == '<'
    ensures MetadataAt(a + b) == None
  {
    hide AfterBar, IdAndRest, Run, Skip;
    var s := a + b;
    assert s[|a|] == '<' && a[0..] == a;
  }

  lemma KindNameIsWord(k: Kind)
    ensures KindName(k) != "" && forall c <- KindName(k) :: (IsLower(c) || c == '_')
  {
    match k {
      case Project =>
      case Route =>
      case Flow =>
      case SemanticLocator =>
      case Scenario =>
      case KnownIssue =>
      case RuntimeLearning =>
    }
  }

  lemma KindNameReads(k: Kind)
    ensures KindOf(Lower(KindName(k))) == Some(k)
    ensures KindName(k) != "" && OneLine(KindName(k)) && forall c <- KindName(k) :: IsWord(c) && c != '<'
  {
    hide KindName;
    var name := KindName(k);
    KindNameIsWord(k);
    forall i | 0 <= i < |name|
      ensures LowerChar(name[i]) == name[i]
    {
      assert name[i] in name;
    }
    assert Lower(name) == name;
  }

  lemma {:induction false} NoCommentBehind(a: string, b: string)
    requires '<' !in a && NoComment(b)
    ensures NoComment(a + b)
  {
    var s := a + b;
    forall i | 0 <= i <= |s| - 4
      ensures !("<!--" <= s[i..])
    {
      assert s[i..][0] == s[i];
      if i < |a| {
        assert s[i] in a;
      } else {
        assert s[i..] == b[i - |a|..];
      }
    }
  }

  lemma {:induction false} NoCommentTrimLeft(s: string)
    requires NoComment(s)
    ensures NoComment(TrimLeft(s))
  {
    if s != "" && IsSpace(s[0]) {
      NoCommentSuffix(s);
      NoCommentTrimLeft(s[1..]);
    }
  }

  lemma NoCommentPrefix(p: string, s: string)
    requires NoComment(s) && p <= s
    ensures NoComment(p)
  {
    forall i | 0 <= i <= |p| - 4
      ensures !("<!--" <= p[i..])
    {
      assert p[i..][..4] == s[i..][..4];
    }
  }

  lemma TrimAround(pre: string, comment: string, post: string)
    requires comment != "" && !IsSpace(comment[0]) && !IsSpace(comment[|comment| - 1])
    ensures Trim(pre + comment + post) == TrimLeft(pre) + (comment + TrimRight(post))
  {
    TrimRightAppend(pre + comment, post);
    assert pre + comment + TrimRight(post) == pre + (comment + TrimRight(post));
    TrimLeftAppend(pre, comment + TrimRight(post));
  }

  lemma CommentEnds(word: string, id: string)
    ensures var c := Comment(word, id);
      && |c| > 4
      && c[0] == '<'
      && !IsSpace(c[0])
      && !IsSpace(c[|c| - 1])
      && c[1..] == "!-- type: " + word + " | id: " + id + " -->"
  {
  }

  /** The comment of a chunk with a proper id is the one its section is read by. */
  lemma GoodSectionReads(heading: string, pre: string, kind: Kind, id: string, post: string)
    requires Trim(heading) != "" && NoComment(pre) && IsId(id)
    ensures Read(Section(heading, pre + Comment(KindName(kind), id) + post)) ==
      Readable(Chunk(id, kind, Trim(heading), Trim(WithoutRules(TrimLeft(pre) + TrimRight(post)))))
  {
    hide TrimLeft, TrimRight, WithoutRules, MetadataAt, KindName, KindOf, IsSpace, IdAndRest, Comment, NoComment;
    var word, rest := KindName(kind), TrimRight(post);
    var comment := Comment(word, id);
    KindNameReads(kind);
    CommentEnds(word, id);
    TrimAround(pre, comment, post);
    NoCommentTrimLeft(pre);
    FoundBehind(TrimLeft(pre), comment + rest);
    CommentReads(word, id, rest);
    GoodIdReads(word, id, rest);
    assert TrimLeft(pre) + "" == TrimLeft(pre);
  }

  /** A chunk whose id has an underscore has no metadata that could be read. */
  lemma BadSectionReads(heading: string, pre: string, kind: Kind, id: string, post: string)
    requires Trim(heading) != "" && NoComment(pre) && NoComment(post) && IsRenderedId(id) && !IsId(id)
    ensures Read(Section(heading, pre + Comment(KindName(kind), id) + post)) == NoMetadata(Trim(heading))
  {
    hide TrimLeft, TrimRight, WithoutRules, MetadataAt, KindName, KindOf, IsSpace, IdAndRest, Comment, NoComment;
    var word, rest := KindName(kind), TrimRight(post);
    var comment := Comment(word, id);
    KindNameReads(kind);
    CommentEnds(word, id);
    TrimAround(pre, comment, post);
    NoCommentTrimLeft(pre);
    FoundBehind(TrimLeft(pre), comment + rest);
    CommentReads(word, id, rest);
    BadIdFails(word, id, rest);
    NoCommentPrefix(rest, post);
    NoCommentBehind(comment[1..], rest);
    assert (comment + rest)[1..] == comment[1..] + rest;
    NothingFound(comment[1..] + rest);
  }

  // ----- rules

  predicate NoRule(lines: seq<string>) {
    forall l <- lines :: !IsRule(l)
  }

  function Size(lines: seq<string>): nat {
    if lines == [] then 0 else |lines[0]| + 1 + Size(lines[1..])
  }

  lemma {:induction false} JoinSize(lines: seq<string>)
    requires lines != []
    ensures |Join(lines)| == Size(lines) - 1
  {
    if |lines| == 1 {
      assert lines[1..] == [];
    } else {
      JoinSize(lines[1..]);
    }
  }

  lemma {:induction false} DropBlankSize(lines: seq<string>)
    ensures Size(DropBlank(lines)) <= Size(lines)
  {
    if lines != [] && IsBlank(lines[0]) {
      DropBlankSize(lines[1..]);
    }
  }

  /** Removing rules changes nothing exactly when there is none, and else makes the text shorter. */
  lemma {:induction false} RemoveRulesExactly(lines: seq<string>)
    ensures NoRule(lines) ==> RemoveRules(lines) == lines
    ensures Size(RemoveRules(lines)) + (if NoRule(lines) then 0 else 3) <= Size(lines)
    ensures lines != [] ==> RemoveRules(lines) != []
    decreases |lines|
  {
    hide IsBlank, IsRule;
    if lines != [] {
      if IsRule(lines[0]) {
        assert |lines[0]| >= 3 by {
          RuleIsLong(lines[0]);
        }
        DropBlankSize(lines[1..]);
        RemoveRulesExactly(DropBlank(lines[1..]));
        assert lines[0] in lines;
      } else {
        RemoveRulesExactly(lines[1..]);
        assert lines == [lines[0]] + lines[1..];
      }
    }
  }

  lemma RuleIsLong(line: string)
    requires IsRule(line)
    ensures |line| >= 3
  {
  }

  lemma WithoutRulesExactly(s: string)
    ensures NoRule(Split(s)) ==> WithoutRules(s) == s
    ensures |WithoutRules(s)| + (if NoRule(Split(s)) then 0 else 3) <= |s|
  {
    hide Split;
    JoinSplit(s);
    RemoveRulesExactly(Split(s));
    JoinSize(Split(s));
    JoinSize(RemoveRules(Split(s)));
  }
}
