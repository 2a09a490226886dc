# A model of the YAML library in Dafny

The service vendors the Go package yaml.v2 under `_tools/src/gopkg.in/yaml.v2`, a translation of libyaml. This project
models its five machines and proves what they promise:

1. **Scalars as text.** The writers of plain, double-quoted, single-quoted and literal scalars and of tags
   (`emitterc.go`) and the scanners that read them (`scannerc.go`). `ScalarText`, `FlowScalar`, `BlockScalar`,
   `PlainScalar` and `TagUri` say on characters what is written and read; the `*RoundTrip` files prove that reading
   inverts writing; the `*Reading` files say what a scalar is without the scanner, in pieces and lines, and prove that
   it reads exactly that; `WrittenText` and `FoldedLines` are about what is written; `EmitterText` and `ScannerText` are
   the loops over octets; `ScalarStyles` is the choice of a style, and `ScalarPipeline` joins all of them.
2. **The event parser** (`parserc.go`). `EventGrammar` is a grammar of event streams and its recognizer. `ParserSpec` is
   the state machine, `EventParser` the class that updates its fields. `ParserSoundness` and `ParserRuns` are about
   arbitrary tokens; `TokenPrinter`, `ParserInverse`, `StreamInverse` and `ResolvedTags` about printed trees and what
   their tags mean; `ParserAccounts`, `ParserLimits` and `ParserLanguage` say exactly which tokens are parsed to the end
   and where the code leaves its documented grammar.
3. **The scanner's bookkeeping** (`scannerc.go`, `apic.go`): simple keys, indents, flow levels and the token queue that
   is compacted in place. `ScannerSpec`, `ScannerSafety` and `ScannerRuns` hold the steps, the invariant and whole runs;
   `ScannerTable` says in one table which token the characters call for and what fetching it changes, and
   `ScannerLexemes` carries that through whole runs; `TokenQueue` and `TokenScanner` are the classes.
4. **The emitter's state machine** (`emitterc.go`) with its bounded lookahead: `EmitterSpec`, `EmitterSoundness`,
   `EmitterRuns`; `EmitterLayout` computes the layout on the trees and proves that the machine follows it; the class is
   in `EventEmitter`.
5. **Reader, composer and decoder** (`readerc.go`, `decode.go`): `Transcoding` and `InputReader`; `ComposerSpec` and
   `Composer`; `DecoderSpec`, `DecodedValues` and `Decoder`; `DecodedDocuments` joins the last two.

Where the Go code changes fields, the model has a class whose methods are proved to do what a function says, and the
properties are lemmas about that function.

## Findings

Three promises do not hold of the code as it stands. For each there is an input and the exact condition.

- **Parsing by the documented grammar.** The comment at `parserc.go:7-43` allows a single pair of a flow sequence to have
  no key, and an entry of a block mapping to have a VALUE without a KEY. The code skips the token that shows the key of a
  single pair to be empty (`parserc.go:833-848`), and answers the second with an error (`parserc.go:675-721`). Inputs:
  `ParserLimits.EmptyKeyIsNotParsed`, `ParserLimits.ValueAloneIsNotParsed`. Exact condition:
  `ParserLimits.ParsesExactlyIfRead`.
- **Block collections are closed at the end of the stream.** `yaml_parser_unroll_indent` does nothing inside a flow
  collection (`scannerc.go:960-964`). Input: `ScannerRuns.UnclosedFlowLeavesBlockOpen`. Exact condition:
  `ScannerRuns.WholeStream`.
- **An alias of a mapping can be merged.** The merge looks the alias's name up in the anchors as they are at the end of
  the document, not at the alias (`decode.go:748-753`). Input: `DecodedDocuments.RedefinedAnchorStopsMerge`. Exact
  conditions: `DecoderSpec.DecodesExactly` for any graph, `DecodedDocuments.DocumentDecodes` for documents that keep
  their anchors.

Smaller departures that the model follows: DOCUMENT-START events of implicit documents are not marked as implicit
(`parserc.go:198-276`); the parser's two states for a flow node and for a node or indentless sequence are never entered;
`is_bom` looks at the start of the value whatever its index (`yamlprivateh.go:81-83`), so a value that starts with a byte
order mark has every character escaped, and still reads back; the analysis refuses plain scalars that begin with three
dashes or dots, and in flow collections all with a colon, whether or not they would read back; otherwise it is exact
(`PlainRoundTrip.AllowedExactly`).

## Model
| member | source | states |
|---|---|---|
| `CharClass.BytesAgree` | _tools/src/gopkg.in/yaml.v2/yamlprivateh.go:26-173 | On the octets of any encoded character each byte predicate (printable, break, blank, hexadecimal digit and the others) accepts exactly the code points of its class, the width is that of the encoding, and a BOM is seen only at the start, where is_bom looks |
| `Utf8.EncodeAllConcat` | _tools/src/gopkg.in/yaml.v2/emitterc.go:52-77 | Encoding is a homomorphism, so that text written piece by piece is the encoding of the whole |
| `DoubleQuotedRoundTrip.RoundTrip` | _tools/src/gopkg.in/yaml.v2/emitterc.go:1429-1548 | For every value, pen, width and line-break setting, scanning the double-quoted text from its opening quote gives the value back and leaves exactly what follows |
| `DoubleQuotedRoundTrip.ReadsFrom` | _tools/src/gopkg.in/yaml.v2/emitterc.go:1451-1543 | The text written from any position on, after blanks that the scanner has collected, reads back as those blanks and the rest of the value |
| `DoubleQuotedRoundTrip.EscapeReadsBack` | _tools/src/gopkg.in/yaml.v2/emitterc.go:1464-1520 | Every escape that the writer chooses, short or with 2, 4 or 8 digits, reads back as its character and nothing more |
| `DoubleQuotedRoundTrip.ReadsFold` | _tools/src/gopkg.in/yaml.v2/emitterc.go:1522-1535 | Where a space is folded into a line break the scanner restores the space, also before a second space, which is escaped |
| `DoubleQuotedRoundTrip.LettersMeant` | _tools/src/gopkg.in/yaml.v2/scannerc.go:2362-2412 | The scanner takes exactly the 18 letters of the listed escapes, each for the character listed with it, and the letters that the writer uses are among them |
| `DoubleQuotedRoundTrip.DigitsMeant` | _tools/src/gopkg.in/yaml.v2/emitterc.go:1464-1520 | Digits are written as 0-9 and A-F, and both cases are read for their values |
| `FlowReading.ReadsExactly` | _tools/src/gopkg.in/yaml.v2/scannerc.go:2299-2552 | Behind the opening quote a value is read if and only if the text is that of pieces (blanks, breaks, characters, doubled quotes, escapes, escaped breaks) and a closing quote, no line beginning with a document indicator, and the value is their folding |
| `FlowReading.MarkerMeant` | _tools/src/gopkg.in/yaml.v2/scannerc.go:2307-2323 | A document indicator is three dashes or three dots before a blank, a break or the end |
| `WrittenText.DoubleQuotedIsRead` | _tools/src/gopkg.in/yaml.v2/emitterc.go:1429-1548 | For every value the reader accepts the double-quoted text and decodes it to itself; it has no characters but printable ones and line breaks, and without the unicode setting only ASCII |
| `WrittenText.SingleQuotedIsRead` | _tools/src/gopkg.in/yaml.v2/emitterc.go:1370-1427 | The same for single quotes, where they are allowed |
| `WrittenText.LiteralIsRead` | _tools/src/gopkg.in/yaml.v2/emitterc.go:1592-1627 | The same for the literal style |
| `WrittenText.EscapedExactly` | _tools/src/gopkg.in/yaml.v2/emitterc.go:1436-1439 | Only characters that cannot stand for themselves are escaped, the others listed by their code points, but all of a value that begins with a byte order mark |
| `WrittenText.WithoutFolds` | _tools/src/gopkg.in/yaml.v2/emitterc.go:1451-1543 | Without line breaks the text of a value is that of its characters one by one, themselves or their escapes |
| `WrittenText.EscapeShape` | _tools/src/gopkg.in/yaml.v2/emitterc.go:1462-1518 | An escape has two characters if there is a letter for it, and otherwise the fewest digits of 2, 4 and 8 |
| `WrittenText.AllowedExactly` | _tools/src/gopkg.in/yaml.v2/readerc.go:346-360 | What the reader allows besides what is written: tabs, NEL, byte order marks and the characters beyond the first plane |
| `WrittenText.SpecialExactly` | _tools/src/gopkg.in/yaml.v2/emitterc.go:1058-1060 | The analysis calls exactly those characters special that must not be written unescaped, and CR |
| `FoldedLines.DoubleQuotedLines` | _tools/src/gopkg.in/yaml.v2/emitterc.go:1519-1536 | Counted on the text, lines are broken only beyond the best width, and beyond it no space is left that can be broken; without allow_breaks there are no breaks |
| `FoldedLines.SingleQuotedLines` | _tools/src/gopkg.in/yaml.v2/emitterc.go:1378-1391 | The same for single-quoted values on one line |
| `FoldedLines.IndentMeant` | _tools/src/gopkg.in/yaml.v2/emitterc.go:1201-1219 | Written indentation ends in its column, sets off what follows, and begins no line where less indentation stands |
| `SingleQuotedRoundTrip.RoundTrip` | _tools/src/gopkg.in/yaml.v2/emitterc.go:1370-1427 | Whenever the analysis allows single quotes, scanning the single-quoted text gives the value back, through doubled quotes, doubled first newlines, LS and PS breaks, and folds |
| `SingleQuotedRoundTrip.AllowedExactly` | _tools/src/gopkg.in/yaml.v2/emitterc.go:1093-1118 | For values without special characters the analysis is exact: it allows single quotes if and only if the single-quoted text reads back as the value |
| `SingleQuotedRoundTrip.ReadsApart` | _tools/src/gopkg.in/yaml.v2/scannerc.go:2515-2533 | No text in single quotes reads as a value with a space next to a break |
| `PlainRoundTrip.RoundTrip` | _tools/src/gopkg.in/yaml.v2/emitterc.go:1313-1368 | Whenever the analysis allows a plain scalar, in a block or in a flow collection, what is written calls for a plain scalar in the token scanner, and scanning it gives the value back, with folds, before whatever ends it |
| `PlainRoundTrip.AllowedExactly` | _tools/src/gopkg.in/yaml.v2/emitterc.go:1020-1130 | For values on one line without special characters that do not begin as a document indicator: plain is allowed in a block if and only if the text calls for a plain scalar and reads back as the value, and in a flow collection if and only if also no colon is in the value |
| `PlainRoundTrip.EndsWithLine` | _tools/src/gopkg.in/yaml.v2/scannerc.go:2676-2679 | A scalar in a block ends before a line that is indented less |
| `PlainReading.ReadsExactly` | _tools/src/gopkg.in/yaml.v2/scannerc.go:2555-2696 | A plain scalar is read as a value if and only if the text is that of pieces none of which ends it, up to one that does, and the value is their folding, what is blank at the end dropped; and whether a line was broken there |
| `LiteralRoundTrip.RoundTrip` | _tools/src/gopkg.in/yaml.v2/emitterc.go:1550-1627 | Whenever the analysis allows a block scalar and the emitter indents by its best indent below the parser, scanning the literal form gives the value back before the end of the input or any less indented line, for all three chomping cases and with the indentation hint |
| `LiteralRoundTrip.HeaderReads` | _tools/src/gopkg.in/yaml.v2/emitterc.go:1550-1590 | The indentation and chomping hints that the writer chooses are the ones that the scanner needs for the value |
| `LiteralRoundTrip.DetectsIndent` | _tools/src/gopkg.in/yaml.v2/scannerc.go:2245-2296 | Without a hint the scanner finds the very indentation that was written |
| `LiteralRoundTrip.HintOnlyIfNeeded` | _tools/src/gopkg.in/yaml.v2/emitterc.go:1550-1558 | The indentation is told exactly if the value begins with a space or a break |
| `BlockReading.ReadsExactly` | _tools/src/gopkg.in/yaml.v2/scannerc.go:2057-2296 | Literal and folded: behind its indicator a block scalar is read as a value if and only if the text is that of a header and of empty and full lines indented as the hint or the first full line says, and the value is their joining, with folding between lines that do not begin with a blank, and chomping at the end |
| `TagUri.RoundTrip` | _tools/src/gopkg.in/yaml.v2/emitterc.go:1259-1311 | Any tag content, percent-encoded octet by octet, is scanned back after whatever handle; only empty content without a handle is an error; the terminator is left alone |
| `TagUri.EscapedReads` | _tools/src/gopkg.in/yaml.v2/scannerc.go:2011-2054 | A multi-byte character in percent escapes is put together from all its octets and no others |
| `TagReading.ReadsExactly` | _tools/src/gopkg.in/yaml.v2/scannerc.go:1953-2054 | Tag content is read if and only if the text is that of characters of a URI and of characters whose octets are escaped one by one, as far as such go, and the octets are theirs behind the handle |
| `TagReading.CharsMeant` | _tools/src/gopkg.in/yaml.v2/scannerc.go:1970-1986 | The characters of a URI, spelled out: the scanner takes exactly these and the percent sign, the writer leaves exactly these but the exclamation mark |
| `ScalarPipeline.DoubleQuoted` | _tools/src/gopkg.in/yaml.v2/emitterc.go:1429-1548 | Method on octets: for any value the double-quoted writer and then the flow scalar scanner give back the same octets without error |
| `ScalarPipeline.SingleQuoted` | _tools/src/gopkg.in/yaml.v2/emitterc.go:984-1130 | Method on octets: analyze_scalar allows single quotes exactly for values without special characters and without a space next to a break, and then writing and scanning give back the same octets |
| `ScalarPipeline.Literal` | _tools/src/gopkg.in/yaml.v2/emitterc.go:1592-1627 | Method on octets: analyze_scalar allows block scalars exactly for non-empty values without special characters, a space at the end or a space before a break, and then writing and scanning give back the same octets |
| `ScalarPipeline.Plain` | _tools/src/gopkg.in/yaml.v2/emitterc.go:984-1130 | Method on octets: analyze_scalar, the plain writer and the plain scanner; where plain is allowed the same octets come back |
| `ScalarStyles.SelectScalarStyle` | _tools/src/gopkg.in/yaml.v2/emitterc.go:798-845 | The style is the first of plain, single-quoted and double-quoted, from the wanted one on, or of the wanted block style and double-quoted, that the analysis and the place allow; a scalar keeps its implicit type or gets the tag "!" |
| `ScalarPipeline.Scalar` | _tools/src/gopkg.in/yaml.v2/emitterc.go:798-910 | Method on octets: whatever style is asked for and wherever the scalar stands, analysis, choice of the style, writing and scanning give back the same octets; the folded style, chosen only for what could be literal, aside |
| `ScalarPipeline.TagContent` | _tools/src/gopkg.in/yaml.v2/emitterc.go:1259-1311 | Method on octets: writing and scanning tag content gives back the same octets, and fails exactly for none |
| `EmitterText.Emitter.WriteDoubleQuoted` | _tools/src/gopkg.in/yaml.v2/emitterc.go:1429-1548 | The loop with its flags appends to the output the octets of exactly the text that the round trip is about, indicator and folds included |
| `EmitterText.Emitter.WriteSingleQuoted` | _tools/src/gopkg.in/yaml.v2/emitterc.go:1370-1427 | The same for single quotes |
| `EmitterText.Emitter.WritePlain` | _tools/src/gopkg.in/yaml.v2/emitterc.go:1313-1368 | The same for plain scalars; the value must not end with a space, because the code looks at the character behind one |
| `EmitterText.Emitter.WriteLiteral` | _tools/src/gopkg.in/yaml.v2/emitterc.go:1592-1627 | The same for the literal style, hints included |
| `EmitterText.Emitter.WriteBlockScalarHints` | _tools/src/gopkg.in/yaml.v2/emitterc.go:1550-1590 | The hints, found by stepping back over continuation octets, are those of the last two characters |
| `EmitterText.Emitter.WriteTagContent` | _tools/src/gopkg.in/yaml.v2/emitterc.go:1259-1311 | Every octet is copied or escaped as the text that the tag round trip is about |
| `EmitterText.Emitter.WriteIndent` | _tools/src/gopkg.in/yaml.v2/emitterc.go:1201-1219 | A line is started unless only indentation stands in it, and the pen ends at the indent |
| `EmitterText.Emitter.WriteIndicator` | _tools/src/gopkg.in/yaml.v2/emitterc.go:1221-1234 | A space goes before the indicator exactly if one is needed and none is there |
| `EmitterText.Emitter.WriteBreak` | _tools/src/gopkg.in/yaml.v2/emitterc.go:90-104 | An LF becomes the configured break, other breaks are copied |
| `EmitterText.Emitter.AnalyzeScalar` | _tools/src/gopkg.in/yaml.v2/emitterc.go:984-1130 | The single pass with its flags decides multiline, the plain contexts, single quotes and blocks exactly by quantified conditions on the characters |
| `ScannerText.Scanner.ScanFlowScalar` | _tools/src/gopkg.in/yaml.v2/scannerc.go:2299-2552 | The nested loops deliver the value and the rest that the recursive scan defines, on which the round trips are proved, or fail exactly when it fails |
| `ScannerText.Scanner.ScanPlainScalar` | _tools/src/gopkg.in/yaml.v2/scannerc.go:2555-2696 | The same for plain scalars, with the flag that allows a simple key behind a broken line |
| `ScannerText.Scanner.ScanBlockScalar` | _tools/src/gopkg.in/yaml.v2/scannerc.go:2057-2241 | The same for block scalars, literal and folded, with hints and detection of the indentation |
| `ScannerText.Scanner.ScanBlockBreaks` | _tools/src/gopkg.in/yaml.v2/scannerc.go:2245-2296 | Blank lines are collected and the indentation is detected as the recursive scan says |
| `ScannerText.Scanner.ScanTagUri` | _tools/src/gopkg.in/yaml.v2/scannerc.go:1953-2008 | The octets of a URI after its handle, or an error exactly for malformed escapes or nothing at all |
| `ScannerText.Scanner.ScanUriEscapes` | _tools/src/gopkg.in/yaml.v2/scannerc.go:2011-2054 | Escapes are taken until the character is complete, checking leading and trailing octets |
| `ScannerText.Scanner.SkipLine` | _tools/src/gopkg.in/yaml.v2/scannerc.go:498-512 | A CR LF pair is one break of two characters; index, line and column move accordingly |
| `ScannerText.Scanner.ReadLine` | _tools/src/gopkg.in/yaml.v2/scannerc.go:538-568 | Breaks are normalized to LF except LS and PS, and the position is kept as in skip_line |
| `ScannerText.Scanner.Skip` | _tools/src/gopkg.in/yaml.v2/scannerc.go:491-496 | One character, whatever its width, is one column and one index |
| `ScannerText.Scanner.Read` | _tools/src/gopkg.in/yaml.v2/scannerc.go:515-535 | All octets of one character are copied, and the position moves by one character |
| `EventGrammar.AcceptedIffFlattening` | _tools/src/gopkg.in/yaml.v2/parserc.go:7-43 | The recognizer accepts exactly the flattenings of streams of documents with one root each and mappings in pairs |
| `EventGrammar.PrefixOfStream` | _tools/src/gopkg.in/yaml.v2/parserc.go:7-43 | What the recognizer has not rejected can be completed to a well-formed stream |
| `ParserSoundness.StepSound` | _tools/src/gopkg.in/yaml.v2/parserc.go:93-169 | From every reachable state and any tokens a call emits an event that the grammar allows next, or an error; no stack underflows, and the marks are as many as the open collections with a mark |
| `ParserRuns.StepDecreases` | _tools/src/gopkg.in/yaml.v2/parserc.go:62-73 | Every call that emits an event lowers a potential of tokens left, stack depth and state |
| `ParserRuns.RunSound` | _tools/src/gopkg.in/yaml.v2/parserc.go:62-73 | The events of a whole run are accepted as a prefix, completely exactly if STREAM-END is reached, and are no more than the potential |
| `ParserRuns.AnyTokens` | _tools/src/gopkg.in/yaml.v2/parserc.go:62-169 | For any token sequence: at most 7 events a token, the events are a prefix of a well-formed stream, and all of one exactly if the parser ends |
| `ParserAccounts.StreamEndEndsParsing` | _tools/src/gopkg.in/yaml.v2/parserc.go:54-73 | A call skips tokens from the front only, and STREAM-END among them exactly on entering the end state |
| `ParserAccounts.StepAccounts` | _tools/src/gopkg.in/yaml.v2/parserc.go:770-826 | Tokens are skipped from the front only, and a flow sequence is closed only by a bracket of its own: the surplus of closing brackets to come over those that open flow sequences need never grows |
| `ParserAccounts.ShortRunFails` | _tools/src/gopkg.in/yaml.v2/parserc.go:770-826 | A stream with fewer closing brackets left than flow sequences need is never parsed to its end |
| `ParserInverse.NodeParsed` | _tools/src/gopkg.in/yaml.v2/parserc.go:359-573 | The tokens printed for any readable node, in any block or flow style and with properties in either order, are parsed to the events of that node, their tags being the prefix of the first directive for the handle and then the suffix; the parser returns to the state that waited |
| `StreamInverse.Inverse` | _tools/src/gopkg.in/yaml.v2/parserc.go:62-992 | The parser inverts the token printer: every readable stream, with directives and repeated document ends, comes back as its own events, tags resolved by the directives in force, and then STREAM-END |
| `ParserInverse.TagIsMeant` | _tools/src/gopkg.in/yaml.v2/parserc.go:431-448 | A tag with a handle is the prefix of the first directive for that handle and the suffix; without a handle it is the suffix; without a directive there is none |
| `StreamInverse.DirectivesRefused` | _tools/src/gopkg.in/yaml.v2/parserc.go:1013-1072 | Directives are refused if a version is repeated or is not 1.1, or if a handle is repeated |
| `StreamInverse.DocumentRefused` | _tools/src/gopkg.in/yaml.v2/parserc.go:198-276 | A document with such directives is an error |
| `ResolvedTags.TagsInForce` | _tools/src/gopkg.in/yaml.v2/parserc.go:1007-1062 | In a document its own directives come first; without one for them "!" stands for itself and "!!" for tag:yaml.org,2002:, and tags with other handles have no meaning |
| `ResolvedTags.UndefinedTagRefused` | _tools/src/gopkg.in/yaml.v2/parserc.go:442-447 | A node whose tag has a handle without directive is refused |
| `ResolvedTags.TagReadsBack` | _tools/src/gopkg.in/yaml.v2/emitterc.go:967-981 | The handle and suffix into which the emitter cuts a tag resolve to that tag again |
| `ResolvedTags.EventTagReadsBack` | _tools/src/gopkg.in/yaml.v2/emitterc.go:1133-1186 | What the analysis of an event keeps of its tag resolves to it, and is nothing exactly if the tag need not be written |
| `ParserLanguage.ParsesExactlyTheGrammar` | _tools/src/gopkg.in/yaml.v2/parserc.go:7-43 | The language of the parser: tokens are parsed to the end without losing one behind an empty key if and only if they are a printing of a readable stream of the grammar, and the events are those of that stream |
| `ParserLimits.ParsesExactlyIfRead` | _tools/src/gopkg.in/yaml.v2/parserc.go:675-992 | A printed stream is parsed to its own events if and only if it has no harmful single pair without a key and no VALUE without KEY in a block mapping; otherwise parsing does not reach the end |
| `ParserLimits.EmptyKeyIsNotParsed` | _tools/src/gopkg.in/yaml.v2/parserc.go:833-848 | The tokens of [? : x] belong to a tree of the documented grammar and are not parsed to the end |
| `ParserLimits.ValueAloneIsNotParsed` | _tools/src/gopkg.in/yaml.v2/parserc.go:675-721 | A VALUE without KEY in a block mapping, which the documented grammar has, is an error |
| `EventParser.Parser.constructor` | _tools/src/gopkg.in/yaml.v2/apic.go:27-33 | A new parser satisfies the invariant of the state machine |
| `EventParser.Parser.Parse` | _tools/src/gopkg.in/yaml.v2/parserc.go:62-73 | An event is emitted that the recognizer takes next, fields change as the step function says, and after an error or the end nothing changes any more |
| `EventParser.Parser.StateMachine` | _tools/src/gopkg.in/yaml.v2/parserc.go:93-169 | Under the invariant the two node states without a case are not reached, and no production pops an empty stack |
| `EventParser.Parser.ParseStreamStart` | _tools/src/gopkg.in/yaml.v2/parserc.go:174-191 | Pops, pushes and reassigns the fields to the result that is proved sound, decreasing and accounted for above; no stack it pops is empty |
| `EventParser.Parser.ParseDocumentStart` | _tools/src/gopkg.in/yaml.v2/parserc.go:198-276 | Reassigns state, stacks and directives to the result that is proved sound; an implicit document leaves the tokens alone, an explicit one takes its DOCUMENT-START |
| `EventParser.Parser.ParseDocumentContent` | _tools/src/gopkg.in/yaml.v2/parserc.go:282-298 | Pops, pushes and reassigns the fields to the result that is proved sound, decreasing and accounted for above; no stack it pops is empty |
| `EventParser.Parser.ParseDocumentEnd` | _tools/src/gopkg.in/yaml.v2/parserc.go:305-331 | Pops, pushes and reassigns the fields to the result that is proved sound, decreasing and accounted for above; no stack it pops is empty |
| `EventParser.Parser.ParseNode` | _tools/src/gopkg.in/yaml.v2/parserc.go:359-573 | Reassigns the fields to the result that is proved sound, through properties, tag resolution and the eight kinds of content |
| `EventParser.Parser.ParseBlockSequenceEntry` | _tools/src/gopkg.in/yaml.v2/parserc.go:579-626 | Pops, pushes and reassigns the fields to the result that is proved sound, decreasing and accounted for above; no stack it pops is empty |
| `EventParser.Parser.ParseIndentlessSequenceEntry` | _tools/src/gopkg.in/yaml.v2/parserc.go:631-663 | Pops, pushes and reassigns the fields to the result that is proved sound, decreasing and accounted for above; no stack it pops is empty |
| `EventParser.Parser.ParseBlockMappingKey` | _tools/src/gopkg.in/yaml.v2/parserc.go:675-721 | Pops, pushes and reassigns the fields to the result that is proved sound, decreasing and accounted for above; no stack it pops is empty |
| `EventParser.Parser.ParseBlockMappingValue` | _tools/src/gopkg.in/yaml.v2/parserc.go:733-756 | Pops, pushes and reassigns the fields to the result that is proved sound, decreasing and accounted for above; no stack it pops is empty |
| `EventParser.Parser.ParseFlowSequenceEntry` | _tools/src/gopkg.in/yaml.v2/parserc.go:770-826 | Pops, pushes and reassigns the fields to the result that is proved sound, decreasing and accounted for above; no stack it pops is empty |
| `EventParser.Parser.ParseFlowSequenceEntryMappingKey` | _tools/src/gopkg.in/yaml.v2/parserc.go:833-848 | Reassigns the fields to the result that is proved sound and shown to lose the token after an empty key |
| `EventParser.Parser.ParseFlowSequenceEntryMappingValue` | _tools/src/gopkg.in/yaml.v2/parserc.go:854-872 | Pops, pushes and reassigns the fields to the result that is proved sound, decreasing and accounted for above; no stack it pops is empty |
| `EventParser.Parser.ParseFlowSequenceEntryMappingEnd` | _tools/src/gopkg.in/yaml.v2/parserc.go:878-890 | Pops, pushes and reassigns the fields to the result that is proved sound, decreasing and accounted for above; no stack it pops is empty |
| `EventParser.Parser.ParseFlowMappingKey` | _tools/src/gopkg.in/yaml.v2/parserc.go:904-964 | Pops, pushes and reassigns the fields to the result that is proved sound, decreasing and accounted for above; no stack it pops is empty |
| `EventParser.Parser.ParseFlowMappingValue` | _tools/src/gopkg.in/yaml.v2/parserc.go:970-992 | Pops, pushes and reassigns the fields to the result that is proved sound, decreasing and accounted for above; no stack it pops is empty |
| `EventParser.Parser.ProcessDirectives` | _tools/src/gopkg.in/yaml.v2/parserc.go:1013-1072 | Collects directives up to the first other token, rejects a second version and repeated handles, and adds the default handles at the end |
| `ScannerSafety.InsertKeyKeeps` | _tools/src/gopkg.in/yaml.v2/scannerc.go:1268-1293 | KEY, and BLOCK-MAPPING-START if the level is new, land directly before the first token of the simple key, which has not been handed out, and the invariant is kept |
| `ScannerSafety.InsertedNested` | _tools/src/gopkg.in/yaml.v2/apic.go:7-24 | A token inserted anywhere that opens a block, or appended to a positive balance, keeps every prefix from closing more blocks than it opens |
| `ScannerSafety.UnrollKeeps` | _tools/src/gopkg.in/yaml.v2/scannerc.go:960-981 | Unrolling keeps the invariant, only appends tokens, stops at a level at or left of the column, and does nothing inside a flow collection |
| `ScannerSafety.SaveKeeps` | _tools/src/gopkg.in/yaml.v2/scannerc.go:867-891 | A saved key points to the token about to be appended, and numbers still rise with the flow level |
| `ScannerSafety.RemoveKeeps` | _tools/src/gopkg.in/yaml.v2/scannerc.go:894-907 | Removing a key keeps the invariant and changes nothing but that key |
| `ScannerSafety.StaleKeeps` | _tools/src/gopkg.in/yaml.v2/scannerc.go:842-863 | Dropping stale keys keeps the invariant, or a required key is lost and that is an error |
| `ScannerRuns.SimpleKeyInserted` | _tools/src/gopkg.in/yaml.v2/scannerc.go:1268-1330 | A possible key is on the line of its colon and at most 1024 characters before it, its first token is still in the queue, and the new tokens are exactly where they belong |
| `ScannerRuns.FetchNextGoes` | _tools/src/gopkg.in/yaml.v2/scannerc.go:665-838 | Any fetch, at any lexeme, keeps indents rising from -1, starts less ends equal to the open levels, numbers of possible keys inside the queue, and all tokens handed out |
| `ScannerTable.FetchesExactly` | _tools/src/gopkg.in/yaml.v2/scannerc.go:665-838 | The whole table: for each kind of token that the characters call for, what fetching does with stale keys, levels, tokens, keys, flow level and mark, the token itself having the kind and the place of the characters, and when it is an error |
| `ScannerTable.FetchesNothing` | _tools/src/gopkg.in/yaml.v2/scannerc.go:828-838 | Where the characters call for no token, fetching fails |
| `ScannerLexemes.LexemeFetched` | _tools/src/gopkg.in/yaml.v2/scannerc.go:665-838 | One fetch adds the token that the lexeme calls for, and besides it only block starts, block ends and inserted keys |
| `ScannerLexemes.DeliversLexemes` | _tools/src/gopkg.in/yaml.v2/scannerc.go:571-838 | The tokens delivered over a whole run are STREAM-START and the tokens that the lexemes call for, in order, with only invented ones between them; a run ends at the NUL |
| `ScannerRuns.FetchMoreGoes` | _tools/src/gopkg.in/yaml.v2/scannerc.go:626-662 | Fetching until the head is final keeps the invariant and ends with a head at which no possible key points |
| `ScannerRuns.TakeKeeps` | _tools/src/gopkg.in/yaml.v2/scannerc.go:571-597 | Handing out such a head keeps the invariant, as no later insertion can come before it |
| `ScannerRuns.DeliveredInOrder` | _tools/src/gopkg.in/yaml.v2/scannerc.go:571-662 | The tokens handed out over a whole run are a prefix of the final order, and at every point block starts are at least as many as block ends |
| `ScannerRuns.BalancedAtEnd` | _tools/src/gopkg.in/yaml.v2/scannerc.go:1010-1038 | At STREAM-END exactly the block collections whose levels are open lack an end, and outside of flow collections there are none |
| `ScannerRuns.WholeStream` | _tools/src/gopkg.in/yaml.v2/scannerc.go:960-1038 | From a new scanner on any input: the tokens nest, and the balance at STREAM-END is zero if and only if no flow collection is open or no block level is |
| `ScannerRuns.UnclosedFlowLeavesBlockOpen` | _tools/src/gopkg.in/yaml.v2/scannerc.go:960-964 | The text "- [" is delivered to STREAM-END with its block sequence never ended |
| `TokenQueue.Queue.Insert` | _tools/src/gopkg.in/yaml.v2/apic.go:7-24 | On the array that is compacted and shifted in place, insertion at a position of the queue is insertion in the sequence of waiting tokens |
| `TokenQueue.Queue.Compact` | _tools/src/gopkg.in/yaml.v2/apic.go:10-16 | Moving the waiting tokens to the front overwrites none of them |
| `TokenQueue.Queue.Shift` | _tools/src/gopkg.in/yaml.v2/apic.go:18-23 | Shifting up and overwriting gives the sequence with the new element in place and the last one dropped |
| `TokenQueue.Queue.Append` | _tools/src/gopkg.in/yaml.v2/apic.go:17-17 | Appending keeps the waiting tokens, also when the array has to grow |
| `TokenScanner.Scanner.constructor` | _tools/src/gopkg.in/yaml.v2/apic.go:27-33 | A new scanner satisfies the invariant |
| `TokenScanner.Scanner.InsertToken` | _tools/src/gopkg.in/yaml.v2/apic.go:7-24 | A position in the compacting queue stands for a place among all tokens ever produced |
| `TokenScanner.Scanner.PeekToken` | _tools/src/gopkg.in/yaml.v2/parserc.go:46-51 | The token returned is the next of the final order, and looking twice changes nothing |
| `TokenScanner.Scanner.SkipToken` | _tools/src/gopkg.in/yaml.v2/parserc.go:54-59 | The head moves into the past, which no later fetch changes |
| `TokenScanner.Scanner.FetchMoreTokens` | _tools/src/gopkg.in/yaml.v2/scannerc.go:626-662 | Ends with the invariant and a final head, or fails exactly when fetching does; the past is not touched |
| `TokenScanner.Scanner.FetchNextToken` | _tools/src/gopkg.in/yaml.v2/scannerc.go:665-838 | One dispatch does what the step that the table describes does, keeps the invariant, uses one lexeme, and leaves the past alone |
| `TokenScanner.Scanner.StaleSimpleKeys` | _tools/src/gopkg.in/yaml.v2/scannerc.go:842-863 | The loop over the stack drops exactly the keys of other lines or more than 1024 characters back, and fails exactly for a required one |
| `TokenScanner.Scanner.SaveSimpleKey` | _tools/src/gopkg.in/yaml.v2/scannerc.go:867-891 | The fields and the queue become those of the step that is proved to keep the invariant, the past is not touched, and the stack of keys is never found empty |
| `TokenScanner.Scanner.RemoveSimpleKey` | _tools/src/gopkg.in/yaml.v2/scannerc.go:894-907 | The fields and the queue become those of the step that is proved to keep the invariant, the past is not touched, and the stack of keys is never found empty |
| `TokenScanner.Scanner.IncreaseFlowLevel` | _tools/src/gopkg.in/yaml.v2/scannerc.go:910-917 | The fields and the queue become those of the step that is proved to keep the invariant, the past is not touched, and the stack of keys is never found empty |
| `TokenScanner.Scanner.DecreaseFlowLevel` | _tools/src/gopkg.in/yaml.v2/scannerc.go:920-926 | The fields and the queue become those of the step that is proved to keep the invariant, the past is not touched, and the stack of keys is never found empty |
| `TokenScanner.Scanner.RollIndent` | _tools/src/gopkg.in/yaml.v2/scannerc.go:931-955 | The fields and the queue become those of the step that is proved to keep the invariant, the past is not touched, and the stack of keys is never found empty |
| `TokenScanner.Scanner.UnrollIndent` | _tools/src/gopkg.in/yaml.v2/scannerc.go:960-981 | The loop appends one BLOCK-END for each level it closes, down to the column |
| `TokenScanner.Scanner.FetchStreamStart` | _tools/src/gopkg.in/yaml.v2/scannerc.go:984-1007 | The fields and the queue become those of the step that is proved to keep the invariant, the past is not touched, and the stack of keys is never found empty |
| `TokenScanner.Scanner.FetchStreamEnd` | _tools/src/gopkg.in/yaml.v2/scannerc.go:1010-1038 | The fields and the queue become those of the step that is proved to keep the invariant, the past is not touched, and the stack of keys is never found empty |
| `TokenScanner.Scanner.FetchDirective` | _tools/src/gopkg.in/yaml.v2/scannerc.go:1041-1062 | The fields and the queue become those of the step that is proved to keep the invariant, the past is not touched, and the stack of keys is never found empty |
| `TokenScanner.Scanner.FetchDocumentIndicator` | _tools/src/gopkg.in/yaml.v2/scannerc.go:1065-1096 | The fields and the queue become those of the step that is proved to keep the invariant, the past is not touched, and the stack of keys is never found empty |
| `TokenScanner.Scanner.FetchFlowCollectionStart` | _tools/src/gopkg.in/yaml.v2/scannerc.go:1099-1127 | The fields and the queue become those of the step that is proved to keep the invariant, the past is not touched, and the stack of keys is never found empty |
| `TokenScanner.Scanner.FetchFlowCollectionEnd` | _tools/src/gopkg.in/yaml.v2/scannerc.go:1130-1159 | The fields and the queue become those of the step that is proved to keep the invariant, the past is not touched, and the stack of keys is never found empty |
| `TokenScanner.Scanner.FetchFlowEntry` | _tools/src/gopkg.in/yaml.v2/scannerc.go:1162-1184 | The fields and the queue become those of the step that is proved to keep the invariant, the past is not touched, and the stack of keys is never found empty |
| `TokenScanner.Scanner.FetchBlockEntry` | _tools/src/gopkg.in/yaml.v2/scannerc.go:1187-1226 | The fields and the queue become those of the step that is proved to keep the invariant, the past is not touched, and the stack of keys is never found empty |
| `TokenScanner.Scanner.FetchKey` | _tools/src/gopkg.in/yaml.v2/scannerc.go:1229-1265 | The fields and the queue become those of the step that is proved to keep the invariant, the past is not touched, and the stack of keys is never found empty |
| `TokenScanner.Scanner.FetchValue` | _tools/src/gopkg.in/yaml.v2/scannerc.go:1268-1330 | With a possible key the tokens go in retroactively, otherwise a VALUE is appended; in both cases the fields become those of the step that keeps the invariant |
| `TokenScanner.Scanner.FetchSaved` | _tools/src/gopkg.in/yaml.v2/scannerc.go:1333-1406 | The fields and the queue become those of the step that is proved to keep the invariant, the past is not touched, and the stack of keys is never found empty |
| `TokenScanner.Scanner.FetchBlockScalar` | _tools/src/gopkg.in/yaml.v2/scannerc.go:1371-1387 | The fields and the queue become those of the step that is proved to keep the invariant, the past is not touched, and the stack of keys is never found empty |
| `TokenScanner.Scanner.FetchPlainScalar` | _tools/src/gopkg.in/yaml.v2/scannerc.go:1409-1425 | The fields and the queue become those of the step that is proved to keep the invariant, the past is not touched, and the stack of keys is never found empty |
| `TokenScanner.Scanner.ScanToNextToken` | _tools/src/gopkg.in/yaml.v2/scannerc.go:1428-1483 | The fields and the queue become those of the step that is proved to keep the invariant, the past is not touched, and the stack of keys is never found empty |
| `EmitterSoundness.StepSound` | _tools/src/gopkg.in/yaml.v2/emitterc.go:212-270 | From every reachable state a step succeeds exactly if the grammar allows the event and the event is well formed in itself; stacks do not underflow |
| `EmitterSoundness.Analyzed` | _tools/src/gopkg.in/yaml.v2/emitterc.go:1133-1186 | The analysis rejects exactly the events with malformed anchors and scalars with neither a tag nor an implicit flag |
| `EmitterSoundness.ValidityMeant` | _tools/src/gopkg.in/yaml.v2/emitterc.go:912-964 | Which anchors, tag directives and versions are well formed, spelled out in characters |
| `EmitterSoundness.DirectivesAppended` | _tools/src/gopkg.in/yaml.v2/emitterc.go:174-194 | Tag directives are accepted exactly if each is well formed and no handle repeats |
| `EmitterSoundness.ScalarLevel` | _tools/src/gopkg.in/yaml.v2/emitterc.go:683-704 | A scalar raises the indent to at least 2 and the end of the scalar takes exactly that back |
| `EmitterSoundness.RestoredBetweenDocuments` | _tools/src/gopkg.in/yaml.v2/emitterc.go:432-454 | Between documents both stacks are empty, indent is -1 and flow_level is 0 |
| `EmitterSoundness.FlowStaysFlow` | _tools/src/gopkg.in/yaml.v2/emitterc.go:707-738 | While flow_level is positive the innermost collection is a flow collection, so no block collection is opened inside one |
| `EmitterSoundness.ScalarsAreIndented` | _tools/src/gopkg.in/yaml.v2/emitterc.go:197-209 | Continuation lines of scalars are indented by at least two |
| `EmitterRuns.HandlesExactly` | _tools/src/gopkg.in/yaml.v2/emitterc.go:114-128 | Any number of events is handled without panic, and without error exactly if the grammar allows them and they are well formed; the state then is that of the grammar |
| `EmitterRuns.SeesNext` | _tools/src/gopkg.in/yaml.v2/emitterc.go:137-171 | A collection start is dispatched only when its following event is queued |
| `EmitterRuns.StepSeesEnough` | _tools/src/gopkg.in/yaml.v2/emitterc.go:746-795 | Whatever further events were queued, the step and its tests for empty collections would come out the same |
| `EmitterLayout.EmptyFound` | _tools/src/gopkg.in/yaml.v2/emitterc.go:746-761 | At the start of a node the tests for empty collections answer yes exactly if it is a sequence without items, or a mapping without pairs |
| `EmitterLayout.SimpleFound` | _tools/src/gopkg.in/yaml.v2/emitterc.go:764-795 | A key is simple exactly if it is an alias, a scalar on one line or an empty collection, and its properties and value have at most 128 octets |
| `EmitterLayout.NodeLaid` | _tools/src/gopkg.in/yaml.v2/emitterc.go:457-738 | Handling the events of a node goes through the states, indents and flow levels that its tree prescribes: a collection is in flow style exactly inside of one, in canonical output, if asked for, or if it is empty |
| `EmitterLayout.LaidOut` | _tools/src/gopkg.in/yaml.v2/emitterc.go:114-270 | For every conforming stream, after any number of calls the emitter is in the state, at the indent and at the flow level that the trees prescribe for the last event handled |
| `EmitterRuns.BoundedQueue` | _tools/src/gopkg.in/yaml.v2/emitterc.go:137-171 | When the emitter asks for more, at most three events wait |
| `EmitterRuns.EmitAllRefines` | _tools/src/gopkg.in/yaml.v2/emitterc.go:114-171 | Emitting event by event with the bounded queue does what handling a prefix of all events with unlimited lookahead does, whatever events are still to come |
| `EmitterRuns.NothingWaits` | _tools/src/gopkg.in/yaml.v2/emitterc.go:137-171 | Nothing is held back at the end of a complete stream |
| `EmitterRuns.EmitsConforming` | _tools/src/gopkg.in/yaml.v2/emitterc.go:114-270 | For any events: no panic, an error only for a non-conforming or malformed stream, and otherwise at most three events are pending |
| `EmitterRuns.EmitsExactlyConforming` | _tools/src/gopkg.in/yaml.v2/emitterc.go:114-270 | The emitter ends in its end state with an empty queue if and only if the events are a complete conforming stream of well-formed events, whatever the text contains |
| `EventEmitter.Emitter.constructor` | _tools/src/gopkg.in/yaml.v2/apic.go:83-90 | A new emitter satisfies the invariant |
| `EventEmitter.Emitter.Emit` | _tools/src/gopkg.in/yaml.v2/emitterc.go:114-128 | One call queues the event and drains the queue as the step function says, keeping the invariant |
| `EventEmitter.Emitter.NeedMoreEvents` | _tools/src/gopkg.in/yaml.v2/emitterc.go:137-171 | The loop with its level counter finds whether the collection or document at the head is followed far enough |
| `EventEmitter.Emitter.AnalyzeEvent` | _tools/src/gopkg.in/yaml.v2/emitterc.go:1133-1186 | Anchor, tag and scalar data are set, with the tag split at the first directive whose prefix it has; or the event is refused |
| `EventEmitter.Emitter.AppendTagDirective` | _tools/src/gopkg.in/yaml.v2/emitterc.go:174-194 | A new handle is appended; a repeated one is an error unless duplicates are allowed |
| `EventEmitter.Emitter.IncreaseIndent` | _tools/src/gopkg.in/yaml.v2/emitterc.go:197-209 | State, states, indents and flow_level become those of the step that is proved sound; nothing is popped from an empty stack |
| `EventEmitter.Emitter.StateMachine` | _tools/src/gopkg.in/yaml.v2/emitterc.go:212-270 | State, states, indents and flow_level become those of the step that is proved sound; nothing is popped from an empty stack |
| `EventEmitter.Emitter.EmitStreamStart` | _tools/src/gopkg.in/yaml.v2/emitterc.go:273-309 | An indent setting outside of 2 to 9 is replaced by 2, on which all bounds on later indents rest |
| `EventEmitter.Emitter.EmitDocumentStart` | _tools/src/gopkg.in/yaml.v2/emitterc.go:312-423 | State, states, indents and flow_level become those of the step that is proved sound; nothing is popped from an empty stack |
| `EventEmitter.Emitter.EmitDocumentContent` | _tools/src/gopkg.in/yaml.v2/emitterc.go:426-429 | State, states, indents and flow_level become those of the step that is proved sound; nothing is popped from an empty stack |
| `EventEmitter.Emitter.EmitDocumentEnd` | _tools/src/gopkg.in/yaml.v2/emitterc.go:432-454 | State, states, indents and flow_level become those of the step that is proved sound; nothing is popped from an empty stack |
| `EventEmitter.Emitter.EmitFlowSequenceItem` | _tools/src/gopkg.in/yaml.v2/emitterc.go:457-502 | State, states, indents and flow_level become those of the step that is proved sound; nothing is popped from an empty stack |
| `EventEmitter.Emitter.EmitFlowMappingKey` | _tools/src/gopkg.in/yaml.v2/emitterc.go:505-556 | State, states, indents and flow_level become those of the step that is proved sound; nothing is popped from an empty stack |
| `EventEmitter.Emitter.EmitFlowMappingValue` | _tools/src/gopkg.in/yaml.v2/emitterc.go:559-576 | State, states, indents and flow_level become those of the step that is proved sound; nothing is popped from an empty stack |
| `EventEmitter.Emitter.EmitBlockSequenceItem` | _tools/src/gopkg.in/yaml.v2/emitterc.go:579-600 | State, states, indents and flow_level become those of the step that is proved sound; nothing is popped from an empty stack |
| `EventEmitter.Emitter.EmitBlockMappingKey` | _tools/src/gopkg.in/yaml.v2/emitterc.go:603-628 | State, states, indents and flow_level become those of the step that is proved sound; nothing is popped from an empty stack |
| `EventEmitter.Emitter.EmitBlockMappingValue` | _tools/src/gopkg.in/yaml.v2/emitterc.go:631-646 | State, states, indents and flow_level become those of the step that is proved sound; nothing is popped from an empty stack |
| `EventEmitter.Emitter.EmitNode` | _tools/src/gopkg.in/yaml.v2/emitterc.go:649-670 | State, states, indents and flow_level become those of the step that is proved sound; nothing is popped from an empty stack |
| `EventEmitter.Emitter.EmitAlias` | _tools/src/gopkg.in/yaml.v2/emitterc.go:673-680 | State, states, indents and flow_level become those of the step that is proved sound; nothing is popped from an empty stack |
| `EventEmitter.Emitter.EmitScalar` | _tools/src/gopkg.in/yaml.v2/emitterc.go:683-704 | A scalar without tag and implicit flags is refused; otherwise the raised level is taken back and the waiting state returns |
| `EventEmitter.Emitter.EmitSequenceStart` | _tools/src/gopkg.in/yaml.v2/emitterc.go:707-721 | State, states, indents and flow_level become those of the step that follows the layout; nothing is popped from an empty stack |
| `EventEmitter.Emitter.EmitMappingStart` | _tools/src/gopkg.in/yaml.v2/emitterc.go:724-738 | State, states, indents and flow_level become those of the step that follows the layout; nothing is popped from an empty stack |
| `EventEmitter.Emitter.CheckSimpleKey` | _tools/src/gopkg.in/yaml.v2/emitterc.go:764-795 | The loop over the cases gives the answer that is proved to find exactly the simple keys |
| `Transcoding.DecodesExactly` | _tools/src/gopkg.in/yaml.v2/readerc.go:151-331 | At any position the decoder finds a character exactly if its shortest-form UTF-8, or its UTF-16 units, stand there |
| `Transcoding.TextExactly` | _tools/src/gopkg.in/yaml.v2/readerc.go:151-391 | A byte sequence decodes to a text exactly if it is the encoding of that text and all characters are in the printable set |
| `Transcoding.AcceptsExactly` | _tools/src/gopkg.in/yaml.v2/readerc.go:25-53 | An input is accepted as a text if and only if all its characters are allowed and it is FE FF and the text in big-endian UTF-16, or FF FE and the text in little-endian UTF-16, or EF BB BF and the text in UTF-8, or the text in UTF-8 and begins with none of the marks |
| `Transcoding.OneText` | _tools/src/gopkg.in/yaml.v2/readerc.go:25-53 | An input is the stream of at most one text, and malformed exactly if of none |
| `Transcoding.TextAfter` | _tools/src/gopkg.in/yaml.v2/readerc.go:151-391 | Decoding goes on after a decoded prefix as if from the start, also into the first error |
| `Transcoding.Utf8IsIdentity` | _tools/src/gopkg.in/yaml.v2/readerc.go:362-391 | UTF-8 input is stored byte for byte |
| `Transcoding.MoreBytes` | _tools/src/gopkg.in/yaml.v2/readerc.go:188-206 | A decision that did not call for more bytes is not changed by them |
| `InputReader.ChunksDoNotMatter` | _tools/src/gopkg.in/yaml.v2/readerc.go:91-412 | Two readers over the same stream of a text, whatever pieces their handlers deliver, give the scanner the same characters |
| `InputReader.Reader.Delivers` | _tools/src/gopkg.in/yaml.v2/readerc.go:91-412 | If the input is the stream of a text, what the scanner has taken is that text and then NULs |
| `InputReader.Reader.constructor` | _tools/src/gopkg.in/yaml.v2/apic.go:56-63 | An empty reader stands at the start of its input with nothing decoded |
| `InputReader.Reader.UpdateBuffer` | _tools/src/gopkg.in/yaml.v2/readerc.go:91-412 | Success leaves at least the asked number of bytes readable, all writes stay inside the 1536-byte array, characters already buffered stay, and it fails only if the input is the stream of no text |
| `InputReader.Reader.UpdateRawBuffer` | _tools/src/gopkg.in/yaml.v2/readerc.go:56-85 | Compacting and reading keep the bytes still to decode, and make progress or find the end |
| `InputReader.Reader.DetermineEncoding` | _tools/src/gopkg.in/yaml.v2/readerc.go:25-53 | The encoding is that of the mark at the start of the whole input, however few bytes came at first, and the mark is skipped; which marks those are the exact acceptance says |
| `InputReader.Reader.DecodeUtf8` | _tools/src/gopkg.in/yaml.v2/readerc.go:154-248 | The loop over octets decides a character, malformed bytes or too few bytes as the function proved exact does |
| `InputReader.Reader.DecodeUtf16` | _tools/src/gopkg.in/yaml.v2/readerc.go:250-331 | The same for units and surrogate pairs in either byte order |
| `InputReader.Reader.DecodeNext` | _tools/src/gopkg.in/yaml.v2/readerc.go:144-391 | One character is stored as UTF-8 and accounted for; an incomplete one waits; an error is reported only for malformed input |
| `InputReader.Reader.PutCharacter` | _tools/src/gopkg.in/yaml.v2/readerc.go:362-391 | The bytes written are the shortest-form UTF-8 of the character |
| `InputReader.Reader.CompactBuffer` | _tools/src/gopkg.in/yaml.v2/readerc.go:114-127 | The unread bytes are moved to the front unchanged |
| `InputReader.Reader.Take` | _tools/src/gopkg.in/yaml.v2/scannerc.go:491-496 | The scanner takes the first character by advancing over its width |
| `ComposerSpec.ComposesFaithfully` | _tools/src/gopkg.in/yaml.v2/decode.go:141-221 | Composition fails exactly for an alias without an earlier node of its anchor; the graph flattens back to the events; every alias points to the latest earlier node with its anchor |
| `ComposerSpec.AnchorsAreLatest` | _tools/src/gopkg.in/yaml.v2/decode.go:135-139 | The anchor table holds for each anchor its last node, and no other names |
| `ComposerSpec.ComposedIsValid` | _tools/src/gopkg.in/yaml.v2/decode.go:170-221 | Children come after their parent, mappings have keys and values, and aliases point to nodes that are no aliases |
| `Composer.Parser.Parse` | _tools/src/gopkg.in/yaml.v2/decode.go:141-160 | On the events of a well-formed node the switch never reaches its panic, and nodes and anchors become those of the faithful composition |
| `Composer.Parser.ParseDocument` | _tools/src/gopkg.in/yaml.v2/decode.go:170-178 | A document is composed with fresh nodes and anchors, and its events are used up |
| `Composer.Parser.ParseAlias` | _tools/src/gopkg.in/yaml.v2/decode.go:180-189 | An alias takes the node that its name has now, or fails |
| `Composer.Parser.ParseScalar` | _tools/src/gopkg.in/yaml.v2/decode.go:191-199 | A scalar keeps its tag, value and implicit flag, and is known by its anchor from now on |
| `Composer.Parser.ParseSequence` | _tools/src/gopkg.in/yaml.v2/decode.go:201-210 | The anchor is known before the items are composed, so that items can refer to the sequence |
| `Composer.Parser.ParseMapping` | _tools/src/gopkg.in/yaml.v2/decode.go:212-221 | The same for a mapping and its keys and values |
| `DecoderSpec.DecodesExactly` | _tools/src/gopkg.in/yaml.v2/decode.go:317-359 | Decoding any graph ends. It gives a clean value exactly if no reached alias reaches itself, keys are scalars, only mappings are merged and the names of merged aliases stand for mappings to the end; and whatever it fails for can be reached |
| `DecoderSpec.ContainsItselfRightly` | _tools/src/gopkg.in/yaml.v2/decode.go:350-359 | "Value contains itself" is reported only if an alias really reaches itself, and such a graph never decodes cleanly |
| `DecoderSpec.UnambiguousDecodes` | _tools/src/gopkg.in/yaml.v2/decode.go:581-641 | If aliases keep the targets of their names, decoding succeeds if and only if there is no cycle, no bad key and no bad merge, and a mapping is the fold of its pairs |
| `DecoderSpec.LessFree` | _tools/src/gopkg.in/yaml.v2/decode.go:350-359 | Following an alias that is not active lowers the number of inactive aliases, the measure by which decoding of cyclic graphs ends |
| `DecoderSpec.MappingIsFold` | _tools/src/gopkg.in/yaml.v2/decode.go:606-641 | A mapping is a left-to-right override of what its pairs contribute: the value of the key, or what is merged; so keys after a merge key win over merged ones and keys before it lose |
| `DecoderSpec.IntoOverrides` | _tools/src/gopkg.in/yaml.v2/decode.go:744-771 | Decoding into a filled map is decoding into an empty one and putting the result over it, through nested merges and aliases |
| `DecoderSpec.EarliestWins` | _tools/src/gopkg.in/yaml.v2/decode.go:755-766 | In a list of mappings to merge, for every key the earliest mapping that has it gives its value |
| `DecoderSpec.NoMappingMerged` | _tools/src/gopkg.in/yaml.v2/decode.go:744-771 | What is no mapping but is merged because of its name leaves the map alone, or empties it if it is nil, and the outcome is not clean |
| `DecodedValues.DecodedIsWhatFits` | _tools/src/gopkg.in/yaml.v2/decode.go:317-641 | A cleanly decoded root has the one value that fits the graph: a scalar is what it resolves to, an alias its target, a sequence the list of its items, and in a mapping each key has what the last pair to set it has set |
| `DecodedValues.MappingSets` | _tools/src/gopkg.in/yaml.v2/decode.go:606-641 | A mapping decoded into any map has what its pairs set last, and else what the map had; a merged list sets a key to the value of its first item that has it |
| `DecodedValues.PairIsDecoded` | _tools/src/gopkg.in/yaml.v2/decode.go:625-637 | A key has the decoded value of its own pair, if it is no merge key and no later pair sets it |
| `DecodedValues.ItemsDecoded` | _tools/src/gopkg.in/yaml.v2/decode.go:543-579 | A decoded list has one item for each child, the decoded child |
| `DecodedValues.MergeKeys` | _tools/src/gopkg.in/yaml.v2/decode.go:773-775 | A merge key is a plain "<<", or one with the tag tag:yaml.org,2002:merge |
| `DecodedDocuments.ComposedGraphIsValid` | _tools/src/gopkg.in/yaml.v2/decode.go:170-221 | Every composed document is a graph to which the decoding theorems apply |
| `DecodedDocuments.UnambiguousIfAnchorsKept` | _tools/src/gopkg.in/yaml.v2/decode.go:135-139 | Aliases keep the targets of their names exactly if no anchor is given to a second node after an alias has used it |
| `DecodedDocuments.DocumentDecodes` | _tools/src/gopkg.in/yaml.v2/decode.go:317-641 | For documents that keep their anchors, the exact condition of decoding, from events to value |
| `DecodedDocuments.RedefinedAnchorStopsMerge` | _tools/src/gopkg.in/yaml.v2/decode.go:748-753 | The document [&a {}, {<<: *a}, &a 1] is refused although nothing is wrong but the redefined anchor |
| `Decoder.Decoder.Unmarshal` | _tools/src/gopkg.in/yaml.v2/decode.go:317-339 | The recursion with its set of active aliases ends, restores the set, and gives the outcome that is characterized exactly |
| `Decoder.Decoder.UnmarshalSequence` | _tools/src/gopkg.in/yaml.v2/decode.go:543-579 | Items are decoded in order into one list, up to the first failure |
| `Decoder.Decoder.FillMapping` | _tools/src/gopkg.in/yaml.v2/decode.go:606-641 | Pairs are set one after the other in the map that is there |
| `Decoder.Decoder.Merge` | _tools/src/gopkg.in/yaml.v2/decode.go:744-771 | What is merged goes over the map, or is refused by the node that the name has at the end |
| `Decoder.Decoder.MergeSequence` | _tools/src/gopkg.in/yaml.v2/decode.go:755-766 | The list is merged from its end |

## Left out
- The writer of folded scalars and its round trip. Folded scalars are scanned, and what is read is exact.
- Comments, directives and anchors as text; `scan_to_next_token` and the token scanners other than those of scalars and
  tag URIs. In the bookkeeping a token of the input is a lexeme with its marks and what the dispatcher looks at, which is
  more than real text can be.
- Whole documents as text: the emitter's state machine and its writers are not joined, nor the scanner's bookkeeping and
  its scanners. What the state machine asks of the text, whether a scalar has breaks and whether only indentation stands
  before the pen, is an arbitrary answer for each event, so its theorems hold for all texts.
- Write handlers and the 128-byte output buffer: the output is a growing sequence of octets.
- Read handlers that fail, or that deliver nothing without the end. A handler delivers at least one byte or the end.
- Marks beyond index, line and column. The event parser's marks are the number of tokens before them.
- Error messages; which error comes first when the reader has decoded ahead of the scanner.
- `Composer.Parser.Parse`: it takes the events of a well-formed node for granted, which `ParserRuns.AnyTokens` provides;
  what the switch does with others is not modelled.
- Go's pointers between nodes: nodes are numbered. The children of a node are set when all are composed, not one by one.
- Go's maps of the decoder are values that methods take and return, so aliasing of a map is not captured.
- Structs, typed targets, `mapSlice`, Unmarshaler calls, strict mode and the resolution of scalars to types. Every scalar
  resolves by an arbitrary function to a number that stands for its value; keys that are not equal to themselves, such as
  NaN, are not captured.
- `DecoderSpec.DecodesExactly`: an outcome that is not clean is one after which the code returns type errors, or none if
  only nil was merged. For which of these graphs the rest of the value is complete is not stated.
- How much room a Go slice grows by beyond what is needed.
- The reservation service itself, its clients, models and user interface, and the other vendored tools.
