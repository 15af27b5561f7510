# Fixture reader of the CSL test-suite tooling

This project models `ParseFile` of `tests/tester/main.go`, the reader for the
block-tagged fixture files of the Citation Style Language processor
test-suite, and proves what it computes.

A fixture file is read line by line. Every test is made on the line with its
surrounding white space removed (`strings.TrimSpace`):

- a blank line is skipped;
- a line starting with `>>=====` opens the block named between the markers
  (the text after the 7-character tag, without one trailing `=====>>`,
  trimmed again), even when a block is already open;
- a line starting with `<<=====` closes the current block;
- a line starting with `#` is skipped;
- any other line is content. In a `MODE` block a line that trims to
  `bibliography` sets the mode to bibliography (1). In the `RESULT`, `CSL`,
  `INPUT`, `BIBENTRIES`, `BIBSECTION`, `CITATION-ITEMS` and `CITATIONS` blocks
  the untrimmed line and a newline are appended to the matching field. Outside
  any block, and in a block with any other name, the line is dropped.

The model has three modules:

- `GoStrings` (`go_strings.dfy`) holds `TrimSpace`, `HasPrefix`, `HasSuffix`
  and `TrimSuffix` of Go's `strings` package on runes. It uses the white-space
  set of `unicode.IsSpace`.
- `FixtureReader` (`fixture_reader.dfy`) holds the constants and the
  `Fixture` record. `Step` is one turn of the loop as a function, and `Run` /
  `ParseLines` fold it over the lines. The method `ParseFile` is the loop
  itself, which updates `block` and the fields of a local `Fixture`. It is
  proved to return the fold's fixture.
- `FixtureProperties` (`fixture_properties.dfy`) holds reference definitions
  of the result that do not use the loop. `BlockAfter` gives the open block,
  `ContentOf` the content lines read under a block name, `JoinLines` the joined
  text and `SplitLines` its inverse. The module's lemmas connect `ParseLines`
  to these definitions. They cover where each line ends up, when the mode is
  bibliography, that fields only grow, and how the marker lines are read.

The file itself is an input value, `FixtureFile`. It is either `Unopenable`,
or the lines the scanner delivered together with whether the scan stopped on
an error.

Where the format description and the code differ, the model follows the
code:

- blank and `#` lines are dropped inside blocks too;
- any line that merely starts with `<<=====` closes a block;
- a start marker inside an open block switches to the new block;
- only the trimmed text `bibliography` sets the mode, and nothing resets it.

## Model

| member | source | states |
|---|---|---|
| GoStrings.TrimSpace | tests/tester/main.go:44 | `strings.TrimSpace`: the left and then the right run of `unicode.IsSpace` runes removed; its properties are stated by the `TrimSpaceSpec`, `TrimSpaceEmpty`, `TrimSpacePadded` and `TrimSpaceIdempotent` rows |
| GoStrings.HasPrefix | tests/tester/main.go:49-56 | `strings.HasPrefix`, the three marker tests of the first switch; what they decide is stated by the `StartMarkerOpensBlock`, `EndMarkerClosesBlock`, `CommentIsSkipped` and `PlainLineIsContent` rows |
| GoStrings.HasSuffix | tests/tester/main.go:50 | `strings.HasSuffix`, the test inside `strings.TrimSuffix`; used by the `TrimSuffix` row's contract |
| GoStrings.TrimSpaceSpec | tests/tester/main.go:44 | the trimmed line is the infix of the line left when only white space is removed at both ends; it has no white space at either end; it is empty exactly when the line is all white space |
| GoStrings.TrimSpaceEmpty | tests/tester/main.go:44-47 | the trimmed line is empty exactly when the line is all white space, which is when the reader treats it as blank |
| GoStrings.TrimLeftSpaceSpec | tests/tester/main.go:44 | removing leading space leaves a suffix that starts with a non-space, and everything removed is space |
| GoStrings.TrimRightSpaceSpec | tests/tester/main.go:44 | removing trailing space leaves a prefix that ends with a non-space, and everything removed is space |
| GoStrings.TrimLeftSpaceSkips | tests/tester/main.go:44 | spaces in front of a text starting with a non-space are exactly what the left trim removes |
| GoStrings.TrimRightSpaceSkips | tests/tester/main.go:44 | spaces after a text ending with a non-space are exactly what the right trim removes |
| GoStrings.TrimSpacePadded | tests/tester/main.go:44 | trimming white space padding around a text without edge spaces gives that text back |
| GoStrings.TrimSpaceIdempotent | tests/tester/main.go:44 | trimming twice is trimming once |
| GoStrings.TrimSuffix | tests/tester/main.go:50 | if the text ends with the suffix, the result followed by the suffix is the text; otherwise the text is returned unchanged |
| FixtureReader.BlockName | tests/tester/main.go:50 | the block a start-marker line opens: the trimmed line without its 7-character tag and one trailing `=====>>`, trimmed again; the `StartLineName` row states that it reads back the name written between the markers |
| FixtureReader.Classify | tests/tester/main.go:44-58 | the first switch: blank, start marker with its name, end marker, comment, or content, tested on the trimmed line in that order; the `StartLineOpens`, `EndLineCloses` and `PlainLineIsContent` rows state what it makes of each kind of line |
| FixtureReader.Step | tests/tester/main.go:43-83 | one turn of the loop body on the pair (`block`, `data`); the `StepBlock`, `StepSection` and `StepMode` rows give the new block, every section and the mode after any line, and the per-line rows from `BlankLineIsSkipped` to `UnknownBlockLineIsIgnored` give each case of both switches |
| FixtureReader.Run | tests/tester/main.go:42-84 | the loop as a fold of `Step` over the lines; the `RunAppend`, `RunSnoc`, `ModeNeverReset` and `SectionsOnlyGrow` rows state its properties |
| FixtureReader.ParseLines | tests/tester/main.go:39-84 | the fold from the zero `Fixture` and `block = ""`; the `ParseFile` row ties the loop to it, and the `SectionText`, `ModeOfFile` and `ParseLinesBlock` rows state its result against loop-free definitions |
| FixtureReader.SectionOf | tests/tester/main.go:60-83 | a block name maps to a section exactly when it is that section's name; `MODE`, `""` and unknown names map to none |
| FixtureReader.Append | tests/tester/main.go:66-80 | appending to one section extends that section by the text and leaves the other sections and the mode unchanged |
| FixtureReader.BlankLineIsSkipped | tests/tester/main.go:44-48 | a line that trims to nothing changes neither the block nor any field, inside a block or outside one |
| FixtureReader.StartMarkerOpensBlock | tests/tester/main.go:49-52 | a trimmed line starting with `>>=====` sets the block to the trimmed name between the markers, even when a block is open, and no field changes |
| FixtureReader.EndMarkerClosesBlock | tests/tester/main.go:53-55 | a trimmed line that merely starts with `<<=====` closes the block and no field changes |
| FixtureReader.CommentIsSkipped | tests/tester/main.go:56-57 | a trimmed line starting with `#` changes nothing, also inside a block |
| FixtureReader.ModeLineStep | tests/tester/main.go:61-65 | in a `MODE` block a content line sets the mode to bibliography exactly when it trims to `bibliography`, and changes nothing else |
| FixtureReader.SectionLineStep | tests/tester/main.go:66-80 | in a section's block a content line is appended, untrimmed and followed by a newline, to that section only |
| FixtureReader.UnknownBlockLineIsIgnored | tests/tester/main.go:81-83 | outside any block or in a block with an unknown name, a content line changes nothing and is no error |
| FixtureReader.ParseFile | tests/tester/main.go:32-89 | an unopenable file and a failed scan give their errors and no fixture; otherwise the loop returns the fixture of the fold of the per-line step over the lines, whether or not the last block was closed |
| FixtureProperties.RunAppend | tests/tester/main.go:42-84 | reading `a` and then `b` gives the same state as reading `a + b` |
| FixtureProperties.RunSnoc | tests/tester/main.go:42-84 | reading one more line is one more step |
| FixtureProperties.StepBlock | tests/tester/main.go:46-58 | the block after a line is the marker's name for a start marker, empty for an end marker, and unchanged for every other line |
| FixtureProperties.StepSection | tests/tester/main.go:66-80 | a section grows by the untrimmed line and a newline exactly when the line is content read while its block is open, and is unchanged otherwise |
| FixtureProperties.AtMostOneSectionChanges | tests/tester/main.go:60-83 | one line changes at most one section |
| FixtureProperties.StepMode | tests/tester/main.go:61-64 | the mode becomes bibliography only on a `MODE` content line that trims to `bibliography`, and otherwise keeps its value |
| FixtureProperties.ParseLinesBlock | tests/tester/main.go:40-55 | the block open at the end of the file is the name of the last start marker, or empty if an end marker followed it |
| FixtureProperties.SectionText | tests/tester/main.go:66-80 | every field is the concatenation, in input order, of the untrimmed content lines read under its block name, each followed by a newline |
| FixtureProperties.SectionShape | tests/tester/main.go:66-80 | every field is empty or ends in a newline |
| FixtureProperties.SplitJoinLines | tests/tester/main.go:67 | cutting joined lines at their newlines gives the lines back when none of them holds a newline |
| FixtureProperties.SectionLinesRecovered | tests/tester/main.go:66-80 | a field cut at its newlines gives back exactly the content lines of its block |
| FixtureProperties.ContentOfLines | tests/tester/main.go:43 | every collected content line is a line of the file |
| FixtureProperties.ModeOfFile | tests/tester/main.go:61-64 | the mode is bibliography exactly when some content line of a `MODE` block trims to `bibliography`, and citation otherwise |
| FixtureProperties.ModeNeverReset | tests/tester/main.go:62-64 | once the mode is bibliography, no later line resets it |
| FixtureProperties.SectionsOnlyGrow | tests/tester/main.go:66-80 | a field before reading more lines is a prefix of the field after |
| FixtureProperties.StartLineOpens | tests/tester/main.go:49-50 | a start marker written as `>>===== NAME =====>>` opens the block `NAME` for every name without edge spaces |
| FixtureProperties.StartLineTrimmed | tests/tester/main.go:44-49 | a start-marker line is its own trimmed form and starts with `>>=====` |
| FixtureProperties.StartLineName | tests/tester/main.go:50 | slicing off the tag, removing `=====>>` and trimming a start line gives back the name written in it |
| FixtureProperties.EndLineCloses | tests/tester/main.go:53-55 | the end marker line is read as an end marker |
| FixtureProperties.EmptyBlockCollectsNothing | tests/tester/main.go:49-55 | a start marker directly followed by an end marker closes the block and leaves every field as it was, with no error |
| FixtureProperties.PlainLineIsContent | tests/tester/main.go:44-58 | a non-blank line without edge spaces that does not start with `>`, `<` or `#` is its own trimmed form and is a content line |
| FixtureProperties.OpenSection | tests/tester/main.go:49-52 | the start line of a section's block opens that block |
| FixtureProperties.OpenMode | tests/tester/main.go:49-52 | the start line of the `MODE` block opens it |
| FixtureProperties.CloseBlock | tests/tester/main.go:53-55 | the end marker line closes whatever block is open |
| FixtureProperties.OneLineSectionBlock | tests/tester/main.go:49-80 | a section block holding one plain line appends that line and a newline to its section and ends with no block open |
| FixtureProperties.OneLineModeBlock | tests/tester/main.go:49-64 | a `MODE` block holding one plain line sets bibliography mode exactly when the line is `bibliography` |
| FixtureProperties.UnterminatedResultExample | tests/tester/main.go:85-88 | a `MODE` block without `bibliography` and an unterminated one-line `RESULT` block give citation mode and that line with a newline as the result, with the `RESULT` block still open |
| FixtureProperties.BibliographyExample | tests/tester/main.go:61-67 | a `MODE` block saying `bibliography` and a one-line `RESULT` block give bibliography mode and that line with a newline as the result, and leave every other field empty |

## Left out

- Opening and closing the file (`os.Open`, `defer f.Close()`) and the `bufio.Scanner` are not modelled. The file is given as `FixtureFile`: `Unopenable`, or the delivered lines and whether `scanner.Err()` reported an error. The error itself is an opaque `OpenFailed` or `ScanFailed`.
- The scanner's own line splitting is not modelled. It splits at `\n`, drops a `\r` before it and has a maximum token size. Lines are assumed to be delivered already split. `SplitJoinLines` and `SectionLinesRecovered` therefore require lines without `\n`.
- The debug output (`fmt.Println` at lines 45, 51 and 65) has no effect on the result and is not modelled.
- Go strings are byte sequences. The model works on runes (`seq<char>`), so invalid UTF-8, and the byte offset of the 7-character tag when it is not ASCII, are not modelled. The tag is ASCII, so `s[7:]` is the same in both views.
- tests/tester/main_test.go:5-19 expects mode 0 and result `Doe` and a newline from a fixture file of the test-suite. That fixture file is not part of this model. `UnterminatedResultExample` and `BibliographyExample` state such scenarios for any plain mode line and result line.
- types.go, parser.go and parser_test.go hold the style document model and its loading through `encoding/xml`. They are not part of this model.
