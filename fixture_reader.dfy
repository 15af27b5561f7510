/** The reader for the block-tagged fixture files of the CSL processor
    test-suite (`ParseFile` in tests/tester/main.go).

    A fixture file is a sequence of lines. A line whose trimmed form starts
    with `>>=====` opens a block named by the text between the markers, a
    line whose trimmed form starts with `<<=====` closes it, and the other
    lines of a block are collected into the `Fixture` field that the block
    names. `Step` is one turn of the reader's loop as a function, `Run` folds
    it over the lines, and the method `ParseFile` is the loop itself,
    proved to compute that fold. */
module FixtureReader {
  import opened GoStrings

  const StartBlockLeft := ">>====="
  const StartBlockRight := "=====>>"
  const EndBlock := "<<====="
  /** The length of `StartBlockLeft`. */
  const TagLength := 7
  const ModeCitation := 0
  const ModeBibliography := 1

  /** The record the reader fills. Every text field only ever grows. */
  datatype Fixture = Fixture(
    mode: int,
    result: string,
    csl: string,
    input: string,
    bibentries: string,
    bibsection: string,
    citationItems: string,
    citations: string)

  /** Go's zero value of `Fixture`: citation mode and every field empty. */
  const ZeroFixture := Fixture(ModeCitation, "", "", "", "", "", "", "")

  datatype Option<T> = None | Some(value: T)

  /** The text fields of a fixture, one per block name that collects text. */
  datatype Section = Result | Csl | Input | Bibentries | Bibsection | CitationItems | Citations

  /** The block name whose lines go to `sec`. */
  function SectionName(sec: Section): (name: string) {
    match sec
    case Result => "RESULT"
    case Csl => "CSL"
    case Input => "INPUT"
    case Bibentries => "BIBENTRIES"
    case Bibsection => "BIBSECTION"
    case CitationItems => "CITATION-ITEMS"
    case Citations => "CITATIONS"
  }

  /** The section a block collects into, or `None` for `MODE`, for the empty
      name (outside any block) and for every name the reader does not know. */
  function SectionOf(block: string): (r: Option<Section>)
    ensures r.Some? ==> SectionName(r.value) == block
    ensures r.None? ==> forall sec :: SectionName(sec) != block
  {
    match block
    case "RESULT" => Some(Result)
    case "CSL" => Some(Csl)
    case "INPUT" => Some(Input)
    case "BIBENTRIES" => Some(Bibentries)
    case "BIBSECTION" => Some(Bibsection)
    case "CITATION-ITEMS" => Some(CitationItems)
    case "CITATIONS" => Some(Citations)
    case _ => None
  }

  /** The text collected so far for `sec`. */
  function Get(d: Fixture, sec: Section): (text: string) {
    match sec
    case Result => d.result
    case Csl => d.csl
    case Input => d.input
    case Bibentries => d.bibentries
    case Bibsection => d.bibsection
    case CitationItems => d.citationItems
    case Citations => d.citations
  }

  /** `d` with `text` appended to section `sec` and nothing else changed. */
  function Append(d: Fixture, sec: Section, text: string): (r: Fixture)
    ensures Get(r, sec) == Get(d, sec) + text
    ensures forall other :: other != sec ==> Get(r, other) == Get(d, other)
    ensures r.mode == d.mode
  {
    match sec
    case Result => d.(result := d.result + text)
    case Csl => d.(csl := d.csl + text)
    case Input => d.(input := d.input + text)
    case Bibentries => d.(bibentries := d.bibentries + text)
    case Bibsection => d.(bibsection := d.bibsection + text)
    case CitationItems => d.(citationItems := d.citationItems + text)
    case Citations => d.(citations := d.citations + text)
  }

  /** The name a start-marker line opens: the trimmed line without its
      leading tag, without one trailing `=====>>` if present, trimmed again. */
  function BlockName(s: string): (name: string)
    requires HasPrefix(s, StartBlockLeft)
  {
    TrimSpace(TrimSuffix(s[TagLength..], StartBlockRight))
  }

  /** What the reader's first switch makes of a line; the tests are made on
      the trimmed line and in this order. */
  datatype LineKind = Blank | StartMarker(name: string) | EndMarker | Comment | Content

  function Classify(line: string): (kind: LineKind) {
    var s := TrimSpace(line);
    if s == "" then Blank
    else if HasPrefix(s, StartBlockLeft) then StartMarker(BlockName(s))
    else if HasPrefix(s, EndBlock) then EndMarker
    else if HasPrefix(s, "#") then Comment
    else Content
  }

  /** The reader's state between two lines: the current block (`""` outside
      any block) and the fixture filled so far. */
  datatype ReaderState = ReaderState(block: string, data: Fixture)

  const Initial := ReaderState("", ZeroFixture)

  /** One turn of the reader's loop. A content line is collected untrimmed,
      with a newline added; in a `MODE` block only a line that trims to
      `bibliography` has an effect, and it is never undone. */
  function Step(st: ReaderState, line: string): (next: ReaderState) {
    match Classify(line)
    case Blank => st
    case StartMarker(name) => st.(block := name)
    case EndMarker => st.(block := "")
    case Comment => st
    case Content =>
      if st.block == "MODE" then
        if TrimSpace(line) == "bibliography" then st.(data := st.data.(mode := ModeBibliography)) else st
      else
        match SectionOf(st.block)
        case Some(sec) => st.(data := Append(st.data, sec, line + "\n"))
        case None => st
  }

  /** A line that trims to nothing changes neither the block nor any field,
      inside a block or outside one. */
  lemma BlankLineIsSkipped(st: ReaderState, line: string)
    requires TrimSpace(line) == ""
    ensures Step(st, line) == st
  {
  }

  /** A start marker opens the block it names, also when a block is already
      open, and is not collected into any field. */
  lemma StartMarkerOpensBlock(st: ReaderState, line: string)
    requires HasPrefix(TrimSpace(line), StartBlockLeft)
    ensures Step(st, line) == ReaderState(BlockName(TrimSpace(line)), st.data)
  {
  }

  /** A line whose trimmed form merely starts with the end marker closes the
      current block and is not collected. */
  lemma EndMarkerClosesBlock(st: ReaderState, line: string)
    requires HasPrefix(TrimSpace(line), EndBlock)
    ensures Step(st, line) == ReaderState("", st.data)
  {
    var s := TrimSpace(line);
    assert s[0] == '<';
  }

  /** A comment line is dropped, also inside a block. */
  lemma CommentIsSkipped(st: ReaderState, line: string)
    requires HasPrefix(TrimSpace(line), "#")
    ensures Step(st, line) == st
  {
    var s := TrimSpace(line);
    assert s[0] == '#';
  }

  /** Inside a `MODE` block a content line can only switch the mode to
      bibliography, and does so exactly when it trims to `bibliography`. */
  lemma ModeLineStep(st: ReaderState, line: string)
    requires Classify(line) == Content && st.block == "MODE"
    ensures Step(st, line) ==
      if TrimSpace(line) == "bibliography" then st.(data := st.data.(mode := ModeBibliography)) else st
  {
  }

  /** Inside the block of a section, a content line is appended, untrimmed
      and with a newline, to that section and to nothing else. */
  lemma SectionLineStep(st: ReaderState, line: string, sec: Section)
    requires Classify(line) == Content && st.block == SectionName(sec)
    ensures Step(st, line) == st.(data := Append(st.data, sec, line + "\n"))
  {
    assert SectionOf(st.block) == Some(sec) by {
      match sec
      case Result =>
      case Csl =>
      case Input =>
      case Bibentries =>
      case Bibsection =>
      case CitationItems =>
      case Citations =>
    }
  }

  /** Outside any block, and inside a block whose name the reader does not
      know, a content line changes nothing. */
  lemma UnknownBlockLineIsIgnored(st: ReaderState, line: string)
    requires Classify(line) == Content && st.block != "MODE"
    requires forall sec :: SectionName(sec) != st.block
    ensures Step(st, line) == st
  {
    assert SectionOf(st.block) == None;
  }

  /** The state after reading `lines` from `st`, one line at a time. */
  function Run(st: ReaderState, lines: seq<string>): (last: ReaderState)
    decreases |lines|
  {
    if lines == [] then st else Run(Step(st, lines[0]), lines[1..])
  }

  /** The state after reading a whole file. */
  function ParseLines(lines: seq<string>): (last: ReaderState) {
    Run(Initial, lines)
  }

  /** What opening and scanning the file gives: the file cannot be opened,
      or the lines the scanner delivered and whether it stopped on an error. */
  datatype FixtureFile = Unopenable | Opened(lines: seq<string>, scanFailed: bool)

  datatype Error = OpenFailed | ScanFailed

  datatype Parsed = Ok(fixture: Fixture) | Err(error: Error)

  /** Reads a fixture file. An unopenable file and a failed scan are errors
      and give no fixture; otherwise the fixture is the one the lines build,
      whether or not the last block was closed. */
  method ParseFile(file: FixtureFile) returns (r: Parsed)
    ensures file.Unopenable? ==> r == Err(OpenFailed)
    ensures file.Opened? && file.scanFailed ==> r == Err(ScanFailed)
    ensures file.Opened? && !file.scanFailed ==> r == Ok(ParseLines(file.lines).data)
  {
    if file.Unopenable? {
      return Err(OpenFailed);
    }
    var lines := file.lines;
    var data := ZeroFixture;
    var block := "";
    var i := 0;
    while i < |lines|
      invariant 0 <= i <= |lines|
      invariant ParseLines(lines) == Run(ReaderState(block, data), lines[i..])
    {
      var line := lines[i];
      var s := TrimSpace(line);
      ghost var before := ReaderState(block, data);
      if s == "" {
        BlankLineIsSkipped(before, line);
      } else if HasPrefix(s, StartBlockLeft) {
        block := TrimSpace(TrimSuffix(s[TagLength..], StartBlockRight));
        StartMarkerOpensBlock(before, line);
      } else if HasPrefix(s, EndBlock) {
        block := "";
        EndMarkerClosesBlock(before, line);
      } else if HasPrefix(s, "#") {
        CommentIsSkipped(before, line);
      } else {
        assert Classify(line) == Content;
        match block {
          case "MODE" =>
            ModeLineStep(before, line);
            if s == "bibliography" {
              data := data.(mode := ModeBibliography);
            }
          case "RESULT" =>
            SectionLineStep(before, line, Result);
            data := data.(result := data.result + (line + "\n"));
          case "CSL" =>
            SectionLineStep(before, line, Csl);
            data := data.(csl := data.csl + (line + "\n"));
          case "INPUT" =>
            SectionLineStep(before, line, Input);
            data := data.(input := data.input + (line + "\n"));
          case "BIBENTRIES" =>
            SectionLineStep(before, line, Bibentries);
            data := data.(bibentries := data.bibentries + (line + "\n"));
          case "BIBSECTION" =>
            SectionLineStep(before, line, Bibsection);
            data := data.(bibsection := data.bibsection + (line + "\n"));
          case "CITATION-ITEMS" =>
            SectionLineStep(before, line, CitationItems);
            data := data.(citationItems := data.citationItems + (line + "\n"));
          case "CITATIONS" =>
            SectionLineStep(before, line, Citations);
            data := data.(citations := data.citations + (line + "\n"));
          case _ =>
            UnknownBlockLineIsIgnored(before, line);
        }
      }
      assert lines[i..][1..] == lines[i + 1..];
      i := i + 1;
    }
    if file.scanFailed {
      return Err(ScanFailed);
    }
    return Ok(data);
  }
}
