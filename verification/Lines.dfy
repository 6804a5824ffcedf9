/** Texts as lines, and the white space around them. */
module Lines {

  /** Put one more character before a text that is already in lines. */
  function Prepend(c: char, lines: seq<string>): (r: seq<string>)
    requires lines != []
    ensures r != []
  {
    if c == '\n' then [""] + lines else [[c] + lines[0]] + lines[1..]
  }

  function Split(s: string): (r: seq<string>)
    ensures r != []
  {
    if s == "" then [""] else Prepend(s[0], Split(s[1..]))
  }

  function Join(lines: seq<string>): string {
    if lines == [] then ""
    else if |lines| == 1 then lines[0]
    else lines[0] + "\n" + Join(lines[1..])
  }

  predicate OneLine(s: string) {
    '\n' !in s
  }

  lemma {:induction false} SplitLine(line: string, rest: string)
    requires OneLine(line)
    ensures Split(line) == [line]
    ensures Split(line + "\n" + rest) == [line] + Split(rest)
  {
    if line == "" {
      assert ("" + "\n" + rest)[1..] == rest;
    } else {
      SplitLine(line[1..], rest);
      assert (line + "\n" + rest)[1..] == line[1..] + "\n" + rest;
      assert line == [line[0]] + line[1..];
    }
  }

  lemma {:induction false} SplitJoin(lines: seq<string>)
    requires lines != [] && forall l <- lines :: OneLine(l)
    ensures Split(Join(lines)) == lines
  {
    if |lines| == 1 {
      SplitLine(lines[0], "");
    } else {
      SplitJoin(lines[1..]);
      SplitLine(lines[0], Join(lines[1..]));
      assert lines == [lines[0]] + lines[1..];
    }
  }

  lemma JoinPrepend(c: char, lines: seq<string>)
    requires lines != []
    ensures Join(Prepend(c, lines)) == [c] + Join(lines)
  {
    if c == '\n' {
      assert ([""] + lines)[1..] == lines;
    } else {
      assert Prepend(c, lines)[1..] == lines[1..];
    }
  }

  lemma {:induction false} JoinSplit(s: string)
    ensures Join(Split(s)) == s
  {
    hide Prepend;
    if s != "" {
      JoinSplit(s[1..]);
      JoinPrepend(s[0], Split(s[1..]));
    }
  }

  lemma NewlinePrepends(lines: seq<string>)
    requires lines != []
    ensures Prepend('\n', lines) == [""] + lines
  {
  }

  lemma PrependAppend(c: char, a: seq<string>, b: seq<string>)
    requires a != []
    ensures Prepend(c, a + b) == Prepend(c, a) + b
  {
  }

  lemma {:induction false} SplitAppend(a: string, b: string)
    ensures Split(a + "\n" + b) == Split(a) + Split(b)
  {
    hide Prepend;
    var s := a + "\n" + b;
    if a == "" {
      assert s[1..] == b;
      NewlinePrepends(Split(b));
    } else {
      SplitAppend(a[1..], b);
      assert s[0] == a[0] && s[1..] == a[1..] + "\n" + b;
      PrependAppend(a[0], Split(a[1..]), Split(b));
    }
  }

  /** What is written before a text lengthens its first line. */
  lemma {:induction false} SplitPrefix(line: string, s: string)
    requires OneLine(line)
    ensures Split(line + s) == [line + Split(s)[0]] + Split(s)[1..]
  {
    var first := Split(s)[0];
    if line == "" {
      assert line + s == s && line + first == first;
    } else {
      SplitPrefix(line[1..], s);
      assert line[0] in line;
      assert (line + s)[0] == line[0] && (line + s)[1..] == line[1..] + s;
      assert [line[0]] + (line[1..] + first) == line + first;
    }
  }

  lemma {:induction false} LinesAreOneLine(s: string)
    ensures forall l <- Split(s) :: OneLine(l)
  {
    if s != "" {
      LinesAreOneLine(s[1..]);
      var rest := Split(s[1..]);
      assert rest[0] in rest && forall l <- rest[1..] :: l in rest;
    }
  }

  // ----- white space

  predicate IsSpace(c: char) {
    || c in {' ', '\t', '\n', '\r', '\U{B}', '\U{C}', '\U{A0}', '\U{1680}', '\U{2028}', '\U{2029}'}
    || c in {'\U{202F}', '\U{205F}', '\U{3000}', '\U{FEFF}'}
    || '\U{2000}' <= c <= '\U{200A}'
  }

  function TrimLeft(s: string): (r: string)
    ensures r == "" || !IsSpace(r[0])
  {
    if s == "" || !IsSpace(s[0]) then s else TrimLeft(s[1..])
  }

  function TrimRight(s: string): (r: string)
    ensures r == "" || !IsSpace(r[|r| - 1])
    ensures r <= s
  {
    if s == "" || !IsSpace(s[|s| - 1]) then s else TrimRight(s[..|s| - 1])
  }

  function Trim(s: string): string {
    TrimLeft(TrimRight(s))
  }

  lemma {:induction false} TrimRightAppend(a: string, b: string)
    requires a != "" && !IsSpace(a[|a| - 1])
    ensures TrimRight(a + b) == a + TrimRight(b)
  {
    hide IsSpace;
    if b == "" {
      assert a + b == a;
    } else if IsSpace(b[|b| - 1]) {
      TrimRightAppend(a, b[..|b| - 1]);
      assert (a + b)[..|a + b| - 1] == a + b[..|b| - 1];
    }
  }

  lemma {:induction false} TrimLeftAppend(a: string, b: string)
    requires b != "" && !IsSpace(b[0])
    ensures TrimLeft(a + b) == TrimLeft(a) + b
  {
    hide IsSpace;
    if a == "" {
      assert a + b == b;
    } else if IsSpace(a[0]) {
      TrimLeftAppend(a[1..], b);
      assert (a + b)[1..] == a[1..] + b;
    } else {
      assert (a + b)[0] == a[0];
    }
  }

  lemma TrimIgnoresSpaceAfter(s: string, c: char)
    requires IsSpace(c)
    ensures Trim(s + [c]) == Trim(s)
  {
    assert (s + [c])[..|s|] == s;
  }

  lemma {:induction false} TrimIsTrimmed(s: string)
    ensures Trim(Trim(s)) == Trim(s)
    ensures Trim(s) == "" || (!IsSpace(Trim(s)[0]) && !IsSpace(Trim(s)[|Trim(s)| - 1]))
  {
    TrimLeftKeepsEnd(TrimRight(s));
  }

  lemma {:induction false} TrimLeftKeepsEnd(s: string)
    ensures var r := TrimLeft(s); r == "" || (s != "" && r[|r| - 1] == s[|s| - 1])
  {
    if s != "" && IsSpace(s[0]) {
      TrimLeftKeepsEnd(s[1..]);
    }
  }
}
