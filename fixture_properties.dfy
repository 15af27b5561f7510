/** What the fixture reader guarantees about the whole file: where each line
    of a block ends up, when the mode becomes bibliography, that fields only
    grow, and how the marker lines of the format are read. The reference
    definitions here (`BlockAfter`, `ContentOf`, `JoinLines`) describe the
    result without the reader's loop; the lemmas tie them to `ParseLines`. */
module FixtureProperties {
  import opened GoStrings
  import opened FixtureReader

  // ---------------------------------------------------------------------
  // Reading a file in pieces

  /** Reading `a` and then `b` is reading `a + b`. */
  lemma {:induction false} RunAppend(st: ReaderState, a: seq<string>, b: seq<string>)
    ensures Run(st, a + b) == Run(Run(st, a), b)
    decreases |a|
  {
    if a == [] {
      assert a + b == b;
    } else {
      assert (a + b)[0] == a[0];
      assert (a + b)[1..] == a[1..] + b;
      RunAppend(Step(st, a[0]), a[1..], b);
    }
  }

  /** Reading one more line is one more `Step`. */
  lemma RunSnoc(st: ReaderState, a: seq<string>, line: string)
    ensures Run(st, a + [line]) == Step(Run(st, a), line)
  {
    RunAppend(st, a, [line]);
    assert [line][1..] == [];
  }

  // ---------------------------------------------------------------------
  // Reference definitions

  /** The block open after `lines`: the name of the last start marker, or
      `""` if an end marker came after it or there was none. Content, blank
      and comment lines leave it as it is. */
  function BlockAfter(lines: seq<string>): (name: string)
    decreases |lines|
  {
    if lines == [] then ""
    else
      match Classify(lines[|lines| - 1])
      case StartMarker(name) => name
      case EndMarker => ""
      case _ => BlockAfter(lines[..|lines| - 1])
  }

  /** The content lines, untrimmed and in input order, that were read while
      the open block was `name`. */
  function ContentOf(lines: seq<string>, name: string): (content: seq<string>)
    decreases |lines|
  {
    if lines == [] then []
    else
      var prefix, last := lines[..|lines| - 1], lines[|lines| - 1];
      ContentOf(prefix, name)
        + (if Classify(last) == Content && BlockAfter(prefix) == name then [last] else [])
  }

  /** Each line followed by a newline, in order. */
  function JoinLines(ls: seq<string>): (text: string) {
    if ls == [] then "" else ls[0] + "\n" + JoinLines(ls[1..])
  }

  /** The position of the first newline in `t`, or `|t|` if there is none. */
  function FirstNewline(t: string): (k: nat)
    ensures k <= |t|
    ensures k < |t| ==> t[k] == '\n'
    ensures forall j :: 0 <= j < k ==> t[j] != '\n'
  {
    if t == [] || t[0] == '\n' then 0 else 1 + FirstNewline(t[1..])
  }

  /** Cuts a text at its newlines; a last piece without a newline is kept. */
  function SplitLines(t: string): (ls: seq<string>)
    decreases |t|
  {
    if t == [] then []
    else
      var k := FirstNewline(t);
      if k == |t| then [t] else [t[..k]] + SplitLines(t[k + 1..])
  }

  /** True when some content line of a `MODE` block trims to
      `bibliography`. */
  ghost predicate BibliographyRequested(lines: seq<string>) {
    exists l :: l in ContentOf(lines, "MODE") && TrimSpace(l) == "bibliography"
  }

  // ---------------------------------------------------------------------
  // One line at a time

  /** The block after a line depends only on that line and the block
      before it. */
  lemma StepBlock(st: ReaderState, line: string)
    ensures Step(st, line).block ==
      match Classify(line)
      case StartMarker(name) => name
      case EndMarker => ""
      case _ => st.block
  {
    match Classify(line)
    case Content =>
      if st.block == "MODE" {
        ModeLineStep(st, line);
      } else {
        match SectionOf(st.block)
        case Some(sec) => SectionLineStep(st, line, sec);
        case None => UnknownBlockLineIsIgnored(st, line);
      }
    case _ =>
  }

  /** A line adds to section `sec` only when it is a content line read while
      the block of `sec` is open, and then it adds the untrimmed line and a
      newline. Every other section is left as it was. */
  lemma StepSection(st: ReaderState, line: string, sec: Section)
    ensures Get(Step(st, line).data, sec) == Get(st.data, sec)
      + (if Classify(line) == Content && st.block == SectionName(sec) then line + "\n" else "")
  {
    match Classify(line)
    case Content =>
      if st.block == SectionName(sec) {
        SectionLineStep(st, line, sec);
      } else if st.block == "MODE" {
        ModeLineStep(st, line);
      } else {
        match SectionOf(st.block)
        case Some(other) =>
          SectionLineStep(st, line, other);
        case None =>
          UnknownBlockLineIsIgnored(st, line);
      }
    case _ =>
  }

  /** Processing one line changes at most one section. */
  lemma AtMostOneSectionChanges(st: ReaderState, line: string, s1: Section, s2: Section)
    requires s1 != s2
    requires Get(Step(st, line).data, s1) != Get(st.data, s1)
    ensures Get(Step(st, line).data, s2) == Get(st.data, s2)
  {
    StepSection(st, line, s1);
    StepSection(st, line, s2);
    assert st.block == SectionName(s1);
    match s1
    case Result =>
    case Csl =>
    case Input =>
    case Bibentries =>
    case Bibsection =>
    case CitationItems =>
    case Citations =>
  }

  /** The mode becomes bibliography only on a content line of a `MODE` block
      that trims to `bibliography`, and otherwise stays what it was. */
  lemma StepMode(st: ReaderState, line: string)
    ensures Step(st, line).data.mode ==
      if Classify(line) == Content && st.block == "MODE" && TrimSpace(line) == "bibliography"
      then ModeBibliography else st.data.mode
  {
    match Classify(line)
    case Content =>
      if st.block == "MODE" {
        ModeLineStep(st, line);
      } else {
        match SectionOf(st.block)
        case Some(sec) => SectionLineStep(st, line, sec);
        case None => UnknownBlockLineIsIgnored(st, line);
      }
    case _ =>
  }

  // ---------------------------------------------------------------------
  // The whole file

  /** The block open at the end of the file is the one `BlockAfter` names;
      an unterminated block is simply still open. */
  lemma {:induction false} ParseLinesBlock(lines: seq<string>)
    ensures ParseLines(lines).block == BlockAfter(lines)
    decreases |lines|
  {
    if lines != [] {
      var prefix, last := lines[..|lines| - 1], lines[|lines| - 1];
      assert lines == prefix + [last];
      RunSnoc(Initial, prefix, last);
      ParseLinesBlock(prefix);
      StepBlock(ParseLines(prefix), last);
    }
  }

  lemma {:induction false} JoinLinesSnoc(ls: seq<string>, x: string)
    ensures JoinLines(ls + [x]) == JoinLines(ls) + (x + "\n")
    decreases |ls|
  {
    if ls == [] {
      assert [x][1..] == [];
    } else {
      assert (ls + [x])[1..] == ls[1..] + [x];
      JoinLinesSnoc(ls[1..], x);
    }
  }

  lemma ContentOfSnoc(prefix: seq<string>, last: string, name: string)
    ensures ContentOf(prefix + [last], name) == ContentOf(prefix, name)
      + (if Classify(last) == Content && BlockAfter(prefix) == name then [last] else [])
  {
    var lines := prefix + [last];
    assert lines[..|lines| - 1] == prefix && lines[|lines| - 1] == last;
  }

  /** Each text field is the concatenation, in input order, of the untrimmed
      content lines read while its block was open, each with a newline. */
  lemma {:induction false} SectionText(lines: seq<string>, sec: Section)
    ensures Get(ParseLines(lines).data, sec) == JoinLines(ContentOf(lines, SectionName(sec)))
    decreases |lines|
  {
    if lines == [] {
      match sec
      case Result =>
      case Csl =>
      case Input =>
      case Bibentries =>
      case Bibsection =>
      case CitationItems =>
      case Citations =>
    } else {
      var prefix, last := lines[..|lines| - 1], lines[|lines| - 1];
      var name := SectionName(sec);
      var st := ParseLines(prefix);
      assert lines == prefix + [last];
      RunSnoc(Initial, prefix, last);
      assert ParseLines(lines) == Step(st, last);
      SectionText(prefix, sec);
      ParseLinesBlock(prefix);
      StepSection(st, last, sec);
      ContentOfSnoc(prefix, last, name);
      if Classify(last) == Content && BlockAfter(prefix) == name {
        JoinLinesSnoc(ContentOf(prefix, name), last);
      } else {
        assert Get(st.data, sec) + "" == Get(st.data, sec);
        assert ContentOf(prefix, name) + [] == ContentOf(prefix, name);
      }
    }
  }

  /** A joined text is empty or ends in a newline. */
  lemma JoinLinesShape(ls: seq<string>)
    ensures var t := JoinLines(ls); t == "" || t[|t| - 1] == '\n'
  {
    if ls != [] {
      var n := |ls| - 1;
      assert ls == ls[..n] + [ls[n]];
      JoinLinesSnoc(ls[..n], ls[n]);
    }
  }

  /** Every text field of a parsed fixture is empty or ends in a newline. */
  lemma SectionShape(lines: seq<string>, sec: Section)
    ensures var t := Get(ParseLines(lines).data, sec); t == "" || t[|t| - 1] == '\n'
  {
    SectionText(lines, sec);
    JoinLinesShape(ContentOf(lines, SectionName(sec)));
  }

  /** Cutting a joined text at its newlines gives back the lines, as long as
      no line holds a newline of its own (the scanner never yields one). */
  lemma {:induction false} SplitJoinLines(ls: seq<string>)
    requires forall i :: 0 <= i < |ls| ==> '\n' !in ls[i]
    ensures SplitLines(JoinLines(ls)) == ls
    decreases |ls|
  {
    if ls != [] {
      var head, rest := ls[0], JoinLines(ls[1..]);
      var t := JoinLines(ls);
      assert t == head + ("\n" + rest);
      var k := FirstNewline(t);
      assert t[|head|] == '\n';
      assert k == |head|;
      assert t[..k] == head;
      assert t[k + 1..] == rest;
      SplitJoinLines(ls[1..]);
    }
  }

  /** The text of a section gives back exactly its block's content lines. */
  lemma SectionLinesRecovered(lines: seq<string>, sec: Section)
    requires forall i :: 0 <= i < |lines| ==> '\n' !in lines[i]
    ensures SplitLines(Get(ParseLines(lines).data, sec)) == ContentOf(lines, SectionName(sec))
  {
    var content := ContentOf(lines, SectionName(sec));
    SectionText(lines, sec);
    ContentOfLines(lines, SectionName(sec));
    forall i | 0 <= i < |content| ensures '\n' !in content[i] {
      assert content[i] in lines;
    }
    SplitJoinLines(content);
  }

  /** The content lines of a block are lines of the file. */
  lemma {:induction false} ContentOfLines(lines: seq<string>, name: string)
    ensures forall l :: l in ContentOf(lines, name) ==> l in lines
    decreases |lines|
  {
    if lines != [] {
      var prefix := lines[..|lines| - 1];
      ContentOfLines(prefix, name);
      forall l | l in prefix ensures l in lines {
        var j :| 0 <= j < |prefix| && prefix[j] == l;
        assert lines[j] == l;
      }
    }
  }

  /** The mode is bibliography exactly when some content line of a `MODE`
      block trims to `bibliography`, and citation otherwise. */
  lemma {:induction false} ModeOfFile(lines: seq<string>)
    ensures ParseLines(lines).data.mode ==
      if BibliographyRequested(lines) then ModeBibliography else ModeCitation
    decreases |lines|
  {
    if lines != [] {
      var prefix, last := lines[..|lines| - 1], lines[|lines| - 1];
      assert lines == prefix + [last];
      RunSnoc(Initial, prefix, last);
      ModeOfFile(prefix);
      ParseLinesBlock(prefix);
      StepMode(ParseLines(prefix), last);
      var hit := Classify(last) == Content && BlockAfter(prefix) == "MODE";
      var added := if hit then [last] else [];
      assert ContentOf(lines, "MODE") == ContentOf(prefix, "MODE") + added;
      if BibliographyRequested(prefix) {
        var l :| l in ContentOf(prefix, "MODE") && TrimSpace(l) == "bibliography";
        assert l in ContentOf(lines, "MODE");
      }
      if hit && TrimSpace(last) == "bibliography" {
        assert last in ContentOf(lines, "MODE");
      }
      if BibliographyRequested(lines) {
        var l :| l in ContentOf(lines, "MODE") && TrimSpace(l) == "bibliography";
        assert l in ContentOf(prefix, "MODE") || (hit && l == last);
      }
    }
  }

  /** Once the mode is bibliography, no later line resets it. */
  lemma {:induction false} ModeNeverReset(st: ReaderState, lines: seq<string>)
    requires st.data.mode == ModeBibliography
    ensures Run(st, lines).data.mode == ModeBibliography
    decreases |lines|
  {
    if lines != [] {
      StepMode(st, lines[0]);
      ModeNeverReset(Step(st, lines[0]), lines[1..]);
    }
  }

  /** Text is only ever appended: what a section holds before reading more
      lines is a prefix of what it holds after. */
  lemma {:induction false} SectionsOnlyGrow(st: ReaderState, lines: seq<string>, sec: Section)
    ensures Get(st.data, sec) <= Get(Run(st, lines).data, sec)
    decreases |lines|
  {
    if lines != [] {
      var next := Step(st, lines[0]);
      StepSection(st, lines[0], sec);
      SectionsOnlyGrow(next, lines[1..], sec);
    }
  }

  // ---------------------------------------------------------------------
  // The marker lines of the format

  /** A start-marker line as the test-suite writes it. */
  function StartLine(name: string): (line: string) {
    StartBlockLeft + " " + name + " " + StartBlockRight
  }

  /** The name written in a start marker is the name the reader opens, for
      every name without spaces at its ends. */
  lemma StartLineOpens(name: string)
    requires NoEdgeSpace(name)
    ensures Classify(StartLine(name)) == StartMarker(name)
  {
    var line := StartLine(name);
    StartLineTrimmed(name);
    StartLineName(name);
    assert HasPrefix(TrimSpace(line), StartBlockLeft);
  }

  /** A start-marker line is its own trimmed form and starts with the tag. */
  lemma StartLineTrimmed(name: string)
    ensures TrimSpace(StartLine(name)) == StartLine(name)
    ensures HasPrefix(StartLine(name), StartBlockLeft)
  {
    var line := StartLine(name);
    assert line[0] == '>' && line[|line| - 1] == '>';
    assert [] + line + [] == line;
    TrimSpacePadded([], line, []);
    assert line[..TagLength] == StartBlockLeft;
  }

  /** The name between the markers of a start line is read back. */
  lemma StartLineName(name: string)
    requires NoEdgeSpace(name)
    requires HasPrefix(StartLine(name), StartBlockLeft)
    ensures BlockName(StartLine(name)) == name
  {
    var rest := StartLine(name)[TagLength..];
    assert rest == " " + name + " " + StartBlockRight;
    assert HasSuffix(rest, StartBlockRight);
    assert TrimSuffix(rest, StartBlockRight) == " " + name + " ";
    TrimSpacePadded(" ", name, " ");
  }

  /** The end marker closes the block. */
  lemma EndLineCloses()
    ensures Classify(EndBlock) == EndMarker
  {
    assert [] + EndBlock + [] == EndBlock;
    TrimSpacePadded([], EndBlock, []);
  }

  /** A start marker directly followed by an end marker collects nothing,
      whatever came before. */
  lemma EmptyBlockCollectsNothing(pre: seq<string>, name: string)
    requires NoEdgeSpace(name)
    ensures ParseLines(pre + [StartLine(name), EndBlock]) == ReaderState("", ParseLines(pre).data)
  {
    StartLineOpens(name);
    EndLineCloses();
    RunAppend(Initial, pre, [StartLine(name), EndBlock]);
    var st := ParseLines(pre);
    var inBlock := Step(st, StartLine(name));
    assert inBlock == ReaderState(name, st.data);
    assert Step(inBlock, EndBlock) == ReaderState("", st.data);
    assert [StartLine(name), EndBlock][1..] == [EndBlock];
    assert [EndBlock][1..] == [];
    assert Run(st, [StartLine(name), EndBlock]) == Run(inBlock, [EndBlock]);
  }

  /** A line with no spaces at its ends that does not start with `>`, `<`
      or `#` is a content line. */
  lemma PlainLineIsContent(line: string)
    requires PlainText(line)
    ensures TrimSpace(line) == line && Classify(line) == Content
  {
    assert [] + line + [] == line;
    TrimSpacePadded([], line, []);
    if |line| >= |StartBlockLeft| {
      assert line[..|StartBlockLeft|][0] == line[0];
    }
    if |line| >= |EndBlock| {
      assert line[..|EndBlock|][0] == line[0];
    }
    assert line[..1][0] == line[0];
  }

  /** Not blank, no spaces at the ends, and not starting with `>`, `<` or
      `#`. */
  ghost predicate PlainText(line: string) {
    line != [] && NoEdgeSpace(line) && line[0] != '>' && line[0] != '<' && line[0] != '#'
  }

  /** Reading two lines is two steps. */
  lemma RunTwo(st: ReaderState, a: string, b: string)
    ensures Run(st, [a, b]) == Step(Step(st, a), b)
  {
    assert [a, b][1..] == [b];
    assert [b][1..] == [];
    assert Run(Step(st, a), [b]) == Run(Step(Step(st, a), b), []);
  }

  /** Reading three lines is three steps. */
  lemma RunThree(st: ReaderState, a: string, b: string, c: string)
    ensures Run(st, [a, b, c]) == Step(Step(Step(st, a), b), c)
  {
    assert [a, b, c][1..] == [b, c];
    RunTwo(Step(st, a), b, c);
  }

  /** The start line of a section's block opens that block. */
  lemma OpenSection(st: ReaderState, sec: Section)
    ensures Step(st, StartLine(SectionName(sec))) == ReaderState(SectionName(sec), st.data)
  {
    assert NoEdgeSpace(SectionName(sec)) by {
      match sec
      case Result =>
      case Csl =>
      case Input =>
      case Bibentries =>
      case Bibsection =>
      case CitationItems =>
      case Citations =>
    }
    StartLineOpens(SectionName(sec));
  }

  /** The start line of the `MODE` block opens it. */
  lemma OpenMode(st: ReaderState)
    ensures Step(st, StartLine("MODE")) == ReaderState("MODE", st.data)
  {
    StartLineOpens("MODE");
  }

  /** The end marker line closes the block. */
  lemma CloseBlock(st: ReaderState)
    ensures Step(st, EndBlock) == ReaderState("", st.data)
  {
    EndLineCloses();
  }

  /** A block holding one content line: the line and a newline are appended
      to the block's section, and the block is closed. */
  lemma OneLineSectionBlock(st: ReaderState, sec: Section, line: string)
    requires PlainText(line)
    ensures Run(st, [StartLine(SectionName(sec)), line, EndBlock])
      == ReaderState("", Append(st.data, sec, line + "\n"))
  {
    RunThree(st, StartLine(SectionName(sec)), line, EndBlock);
    OpenSection(st, sec);
    var open := ReaderState(SectionName(sec), st.data);
    PlainLineIsContent(line);
    SectionLineStep(open, line, sec);
    CloseBlock(ReaderState(SectionName(sec), Append(st.data, sec, line + "\n")));
  }

  /** A `MODE` block holding one content line: the mode becomes bibliography
      if the line is `bibliography` and is kept otherwise. */
  lemma OneLineModeBlock(st: ReaderState, line: string)
    requires PlainText(line)
    ensures Run(st, [StartLine("MODE"), line, EndBlock]) == ReaderState("",
      if line == "bibliography" then st.data.(mode := ModeBibliography) else st.data)
  {
    RunThree(st, StartLine("MODE"), line, EndBlock);
    OpenMode(st);
    var open := ReaderState("MODE", st.data);
    PlainLineIsContent(line);
    ModeLineStep(open, line);
    CloseBlock(Step(open, line));
  }

  /** An unterminated `RESULT` block at the end of the file is kept as read:
      with a `MODE` block that does not say `bibliography` (say `citation`)
      and a last `RESULT` line `Doe`, the fixture is in citation mode and its
      result is `Doe` and a newline. */
  lemma UnterminatedResultExample(modeLine: string, resultLine: string)
    requires PlainText(modeLine) && modeLine != "bibliography"
    requires PlainText(resultLine)
    ensures var lines := [StartLine("MODE"), modeLine, EndBlock, StartLine("RESULT"), resultLine];
      ParseLines(lines) == ReaderState("RESULT", ZeroFixture.(result := resultLine + "\n"))
  {
    var modeBlock := [StartLine("MODE"), modeLine, EndBlock];
    var rest := [StartLine(SectionName(Result)), resultLine];
    OneLineModeBlock(Initial, modeLine);
    RunAppend(Initial, modeBlock, rest);
    var closed := ReaderState("", ZeroFixture);
    RunTwo(closed, StartLine(SectionName(Result)), resultLine);
    OpenSection(closed, Result);
    PlainLineIsContent(resultLine);
    SectionLineStep(ReaderState("RESULT", ZeroFixture), resultLine, Result);
    assert modeBlock + rest == [StartLine("MODE"), modeLine, EndBlock, StartLine("RESULT"), resultLine];
  }

  /** A `MODE` block saying `bibliography` and a closed `RESULT` block
      holding one line give a bibliography-mode fixture whose result is that
      line and a newline. */
  lemma BibliographyExample(resultLine: string)
    requires PlainText(resultLine)
    ensures var lines := [StartLine("MODE"), "bibliography", EndBlock, StartLine("RESULT"), resultLine, EndBlock];
      ParseLines(lines).data == ZeroFixture.(mode := ModeBibliography, result := resultLine + "\n")
  {
    var modeBlock := [StartLine("MODE"), "bibliography", EndBlock];
    var resultBlock := [StartLine("RESULT"), resultLine, EndBlock];
    OneLineModeBlock(Initial, "bibliography");
    var bib := ReaderState("", ZeroFixture.(mode := ModeBibliography));
    OneLineSectionBlock(bib, Result, resultLine);
    RunAppend(Initial, modeBlock, resultBlock);
    assert modeBlock + resultBlock
      == [StartLine("MODE"), "bibliography", EndBlock, StartLine("RESULT"), resultLine, EndBlock];
  }
}
