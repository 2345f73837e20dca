# xy_grapher configuration parser and series resolver, in Dafny

`xy_grapher.py` draws x/y line graphs from CSV files. It is driven by a
`.xyc` configuration file:

```
__xyc__                                   # the header, before anything else
__file__ : data.csv : t,price ; t,volume,Volume \
           ; t,spread
__params__ : Time, Value, Prices over time
__format__ : r-, b-, g-
__end__
```

This project models the two parts of the program that decide what gets
plotted:

- `_cfparser`, the line-oriented state machine that reads the
  configuration file. It covers:
  - comment cutting, trailing-space trimming and `\` continuations;
  - the `__xyc__` header and the guarded `__end__`;
  - the lookup of the leading token in the token table;
  - the `__file__`, `__params__` and `__format__` grammars;
  - the checks after the loop;
  - the five exception classes it raises.
- The resolution loop of the main block. It walks the parsed file entries,
  keeps the series whose x and y columns both exist in their file, and
  picks each kept series' format specifier by its global index `fsi`.
  With a single specifier, that specifier is broadcast.

The configuration file is a sequence of physical lines without their line
terminators. Running off the end of the sequence is end of file. Each data
file is given by its table of column names, and a path missing from the
tables is a file that cannot be opened.

Modules, one per file:

- `Tokens` (`tokens.dfy`): the `_TOKENS` table and the other constants.
- `Document` (`document.dfy`): the exception classes as a `ParseFailure`
  datatype, and the values the parser builds.
- `PyStr` (`py_str.dfy`): Python's `str.split(sep)`, `strip`, `rstrip`,
  `lstrip` and `"".join(s.split())`, with the laws the parser relies on.
- `LineReader` (`line_reader.dfy`): the line normaliser.
- `Directives` (`directives.dfy`): the three directive grammars.
- `Parser` (`parser.dfy`): the read loop. Its specification is one logical
  line at a time (`StepOf`), iterated by `Run`, with `Finish` for the
  checks after the loop. `ParseConfig` is the `while True` loop itself,
  proved equal to `Parse`.
- `ParserProps` (`parser_props.dfy`): what the parser promises about whole
  files.
- `Resolver` (`resolver.dfy`): the resolution loop.
- `Grapher` (`grapher.dfy`): the main block from the parse to the
  arguments of the plot call.
- `Acceptance` (`acceptance.dfy`): the configuration file written out
  from a document, one `__file__` line per entry followed by the params,
  format and `__end__` lines, and the proof that `_cfparser` reads it back
  as that very document.

Each loop of the source is a method whose `ensures` ties its result to a
specification function. The properties are proved about those functions.

## Model

| member | source | states |
|---|---|---|
| PyStr.Split | xy_grapher.py:398 | `str.split(sep)`: a string with k separators gives k+1 parts, and no part holds the separator |
| PyStr.SplitJoin | xy_grapher.py:398 | joining the parts of a split with the separator gives back the string |
| PyStr.JoinSplit | xy_grapher.py:398 | splitting a join of separator-free parts gives back the parts, so a split is determined by its parts |
| PyStr.RStrip | xy_grapher.py:327 | `rstrip` keeps a prefix, removes only whitespace, and leaves no trailing whitespace |
| PyStr.LStrip | xy_grapher.py:527 | `lstrip` keeps a suffix, removes only whitespace, and leaves no leading whitespace |
| PyStr.Strip | xy_grapher.py:527 | `strip` leaves no whitespace at either end |
| PyStr.StripKeepsText | xy_grapher.py:527 | `strip` loses no character other than whitespace |
| PyStr.RemoveWhitespace | xy_grapher.py:348 | `"".join(s.split())` is never longer than `s` and holds no whitespace |
| PyStr.RemoveWhitespaceAppend | xy_grapher.py:348 | removing whitespace distributes over concatenation |
| PyStr.SplitRemoveWhitespace | xy_grapher.py:348 | splitting the cleaned line on a non-space separator equals cleaning each part of the split raw line |
| PyStr.DropTrailingEmpty | xy_grapher.py:444-446 | the `pop` of an empty last part removes that one part and nothing else |
| PyStr.NonEmptyAfterDrop | xy_grapher.py:452 | a non-empty string never splits into nothing once the empty last part is dropped |
| PyStr.TrailingSepDropped | xy_grapher.py:444-446 | a single trailing separator only adds the empty last part that is dropped again |
| LineReader.Cut | xy_grapher.py:327 | the cut line holds no `#` and ends in no whitespace |
| LineReader.CutIgnoresNewline | xy_grapher.py:314-327 | the line terminator `readline` keeps is removed by the cut, so lines can be given without it |
| LineReader.CommentCutFirst | xy_grapher.py:325-331 | the comment is cut before the trailing spaces and before the test for `\`, so a `\` followed by a comment still continues the line |
| LineReader.ContinuesIsEndsWith | xy_grapher.py:331 | the continuation test is `endswith("\\")` |
| LineReader.ReadLogical | xy_grapher.py:327-345 | a logical line reads at least one physical line and counts every one read; a broken continuation is found after at least two reads |
| LineReader.Continue | xy_grapher.py:333-345 | the continuation loop stops after at least one more physical line, counting each line it reads, or raises past the line it could not continue with |
| LineReader.ReadLogicalLine | xy_grapher.py:327-345 | the normaliser loop computes `ReadLogical` |
| LineReader.JoinedLine | xy_grapher.py:331-345 | a logical line is one cut line not ending in `\`, or the text before the first `\` of each physical line of a run of continued lines |
| LineReader.ContinueJoins | xy_grapher.py:333-345 | the continuation loop appends the text before the first `\` of each line it reads, and every line but the last continues |
| LineReader.ContinueAppends | xy_grapher.py:341 | the continuation loop's text is the text it was given, followed by the text before the first `\` of each line it read |
| LineReader.ContinueRun | xy_grapher.py:343-344 | the continuation loop stops at the first line that does not end in `\` |
| LineReader.BreakBeforeNothing | xy_grapher.py:337-339 | a `\` followed by end of file or by a blank or comment-only line raises, at the line after the `\` |
| LineReader.ReadLogicalExtend | xy_grapher.py:333-345 | a logical line that was read completely does not depend on the lines after it |
| Directives.Clauses | xy_grapher.py:455-466 | the clauses are accepted iff each has 2 or 3 comma fields; each then declares its series, with the label defaulting to y; otherwise the first bad clause is reported with its field count |
| Directives.SeriesLoop | xy_grapher.py:455-466 | the `for se in min_s` loop computes `Clauses` |
| Directives.FileDirective | xy_grapher.py:418-471 | a `__file__` line is accepted iff it has 3 non-empty colon parts, a `.csv` path and well-formed clauses, with no empty clause except one trailing one; the entry holds the path and one series per clause in order; every refusal is a `ParseError` at the line |
| Directives.ParseFileEntry | xy_grapher.py:418-471 | the `__file__` branch computes `FileDirective` |
| Directives.FileTrailingSemicolon | xy_grapher.py:443-446 | a trailing `;` after the last clause does not change the entry |
| Directives.ParamsDirective | xy_grapher.py:474-529 | a `__params__` line is accepted iff it has 2 colon parts, the second non-empty and without an inner `;`, and 3 comma fields; each parameter is trimmed and equal, up to whitespace, to its cleaned field; every refusal is a `ParseError` at the line |
| Directives.RawFieldsMatch | xy_grapher.py:516-524 | the fields re-read from the raw line are the cleaned fields with their whitespace back |
| Directives.ParamsOk | xy_grapher.py:523-527 | an accepted params line gives the stripped raw fields |
| Directives.ParamsKeepSpacing | xy_grapher.py:516-527 | params keep their inner spacing and case, and lose only the whitespace at their ends |
| Directives.ParamsFromClause | xy_grapher.py:509-527 | on a params line of three fields, each parameter is the stripped raw field |
| Directives.ParamsTrailingSemicolon | xy_grapher.py:495-498 | a trailing `;` after the params does not change them |
| Directives.StripEach | xy_grapher.py:526-527 | the strip loop strips every field in place and keeps their number |
| Directives.ParseParams | xy_grapher.py:474-529 | the `__params__` branch computes `ParamsDirective` |
| Directives.SpecCheck | xy_grapher.py:574-581 | the specifiers pass iff each is non-empty and, when there are several, at most 2 characters; a refusal is a `GraphFormatError` at the line |
| Directives.CheckSpecs | xy_grapher.py:574-581 | the `for fp in g_fmt` loop computes `SpecCheck` |
| Directives.FormatDirective | xy_grapher.py:532-591 | a `__format__` line is accepted iff it is well shaped and its specifiers are valid: each non-empty, each at most 2 characters when there are several, and a lone one longer than 2 only if it is `AUTO_FORMAT`; the result is at least one specifier; shape errors are `ParseError` and specifier errors `GraphFormatError`, at the line |
| Directives.FormatTrailingSemicolon | xy_grapher.py:552-555 | a trailing `;` after the specifiers does not change them |
| Directives.ParseFormat | xy_grapher.py:532-591 | the `__format__` branch computes `FormatDirective` |
| Parser.StepOf | xy_grapher.py:312-345 | a turn of the loop that goes on consumes at least one physical line and counts each one; leaving the loop counts the read it stopped at |
| Parser.LineStep | xy_grapher.py:350-391 | acting on a read line reads no further line: going on keeps the position and the line count, and leaving keeps the whole state |
| Parser.Directive | xy_grapher.py:398-591 | a directive never leaves the loop, and changes neither the line count nor the activation |
| Parser.ApplyDirective | xy_grapher.py:398-591 | the token lookup and the directive branches compute `Directive` |
| Parser.LoopTurn | xy_grapher.py:312-591 | one turn of the `while True` body computes `StepOf` |
| Parser.Finish | xy_grapher.py:596-619 | the checks after the loop accept iff the file was activated, a format was read and the specifiers number 1 or the total series count; the document then holds exactly the entries, params and specifiers read, with the terminated flag; it crashes on `len(None)` iff an activated file has no format |
| Parser.FinalChecks | xy_grapher.py:596-619 | the code after the loop computes `Finish` |
| Parser.Run | xy_grapher.py:312-619 | from any state, a parsed document has at least one entry, and params when it was terminated by `__end__` |
| Parser.Parse | xy_grapher.py:287-619 | a parsed document has at least one entry, and params when terminated; an empty file is a premature end of file at line 1 |
| Parser.ParseConfig | xy_grapher.py:287-619 | `_cfparser` computes `Parse` |
| ParserProps.NeverEmptyFileError | xy_grapher.py:596-599 | `EmptyFileError` is never raised, because the end-of-file read is counted before the test |
| ParserProps.BlankFile | xy_grapher.py:316-322 | a file of only blank and comment-only lines, the empty file included, raises "premature EOF" one past its last line |
| ParserProps.EofWithoutFiles | xy_grapher.py:318-322 | end of file before any `__file__` entry raises "premature EOF", with or without the header |
| ParserProps.BlanksRun | xy_grapher.py:350-351 | blank and comment-only lines before the header leave the outcome to the first line after them |
| ParserProps.HeaderRequired | xy_grapher.py:350-362 | when the first logical line that is not blank is not `__xyc__`, the file is rejected with `ActivationError` at the last physical line of that logical line |
| ParserProps.Activates | xy_grapher.py:354-359 | `__xyc__` on a file not yet active activates it, and nothing else changes but the lines read |
| ParserProps.FileAppends | xy_grapher.py:418-471 | an accepted `__file__` line appends its entry after the entries before it, and nothing else changes but the lines read |
| ParserProps.ParamsSet | xy_grapher.py:474-529 | an accepted `__params__` line, the first of the file, sets the params, and nothing else changes but the lines read |
| ParserProps.FormatSet | xy_grapher.py:532-591 | an accepted `__format__` line, the first of the file, sets the specifiers and the format line number, and nothing else changes but the lines read |
| ParserProps.OnlyAccepted | xy_grapher.py:350-591 | a turn goes on only at a blank line, at `__xyc__` before activation, or at an accepted directive line |
| ParserProps.LineLeaves | xy_grapher.py:354-391 | the loop is left exactly at a non-blank line that is not `__xyc__` before activation, or at `__end__` once an entry, the params and the format were read; the state is kept and `is_exited` is set iff the file was active |
| ParserProps.HeaderOnce | xy_grapher.py:365-368 | a second `__xyc__` raises a `ParseError` at the last physical line of its logical line, whatever follows |
| ParserProps.EndGuard | xy_grapher.py:370-391 | `__end__` is accepted only after a file entry, the params and the format; otherwise it raises at the last physical line of its logical line; once accepted, the checks after the loop run on the state as it is, marked terminated, and no later line matters |
| ParserProps.TokenDispatch | xy_grapher.py:398-415 | an unknown leading token is an `IllegalTokenError` and only then; an empty token and only it is "missing token"; other known non-directive tokens are out of place; only the three directives go on; a repeated `__params__` or `__format__` is refused before its fields are looked at |
| ParserProps.SeparatorOutOfPlace | xy_grapher.py:401-412 | a line led by `;`, `,` or `\` is out of place, not an illegal token, because the separators are values of the token table |
| ParserProps.FormatCount | xy_grapher.py:603-617 | after an activated loop, the run crashes iff no format was read; the specifier count must be 1 or the total series count, else `GraphFormatError` at the `__format__` line |
| ParserProps.DirectiveKeepsInv | xy_grapher.py:418-591 | every accepted directive keeps the entries well formed, the params trimmed and the specifiers valid |
| ParserProps.StepKeepsInv | xy_grapher.py:312-591 | every turn keeps that invariant; an active loop is left only with an entry read, and through `__end__` only with the params read |
| ParserProps.RunWellFormed | xy_grapher.py:312-619 | every document the loop returns satisfies the invariant |
| ParserProps.ParsedIsWellFormed | xy_grapher.py:287-619 | a parsed document has at least one entry, each with a `.csv` path and a series; its params are trimmed; its specifiers are valid and number 1 or one per series; a terminated one has params |
| ParserProps.ParsedSeriesCount | xy_grapher.py:607-612 | a parsed document declares at least as many series as entries, and at least one |
| ParserProps.TerminatedIgnoresRest | xy_grapher.py:389-391 | after an accepted `__end__`, appending lines does not change the outcome |
| ParserProps.RunIgnoresRest | xy_grapher.py:389-391 | the same from any state of the loop |
| ParserProps.TrailingSemicolonOptional | xy_grapher.py:443-446 | a trailing `;` is optional on every directive line: the step is the same with or without it |
| ParserProps.TrailingParams | xy_grapher.py:495-498 | a trailing `;` does not change a params line |
| ParserProps.TrailingFile | xy_grapher.py:443-446 | a trailing `;` does not change a file line |
| ParserProps.TrailingFormat | xy_grapher.py:552-555 | a trailing `;` does not change a format line |
| Document.TotalSeries | xy_grapher.py:610-612 | when every entry declares a series, the total series count is at least the number of entries |
| Document.CountSeries | xy_grapher.py:610-612 | the `nent` loop counts the series of all entries |
| Resolver.Refs | xy_grapher.py:752-756 | the series of one entry, in clause order, each with its file's path |
| Resolver.Flatten | xy_grapher.py:744-756 | the series of all entries number the total series count |
| Resolver.Collect | xy_grapher.py:752-779 | there are as many labels as xy pairs, no more than the series; with several specifiers there is one per pair, otherwise none is collected |
| Resolver.ResolveSeries | xy_grapher.py:735-783 | the nested loops compute `Resolve`, and `fsi` ends at the total series count |
| Resolver.ResolveEntry | xy_grapher.py:752-779 | the inner loop adds the entry's series to what was collected and advances `fsi` by one per series, kept or dropped |
| Resolver.CollectKeeps | xy_grapher.py:768-776 | a complete series adds its pair, its label and, with several specifiers, the specifier at its global index |
| Resolver.CollectDrops | xy_grapher.py:757-766 | a series with a missing column adds nothing |
| Resolver.KeptIffComplete | xy_grapher.py:757-768 | a series is kept iff both its columns exist in its file's table |
| Resolver.KeptInOrder | xy_grapher.py:744-773 | kept series stay in their order |
| Resolver.CollectIsKept | xy_grapher.py:768-773 | the j-th pair and label are those of the j-th kept series |
| Resolver.SpecsByGlobalIndex | xy_grapher.py:774-779 | with several specifiers, the j-th one collected is the one at the global index of the j-th kept series |
| Resolver.GlobalIndex | xy_grapher.py:742-779 | series i of entry k has global index "series before entry k, plus i" |
| Resolver.Resolve | xy_grapher.py:735-783 | pairs and labels have equal length, no more than the series; one specifier is broadcast; several give one per pair |
| Resolver.FirstUnreadable | xy_grapher.py:744-746 | the path reported is one of the entries' paths and cannot be opened; when none is reported, every path opens |
| Resolver.UnreadableIsFirst | xy_grapher.py:744-746 | resolution stops iff some path cannot be opened, and it names the first such path |
| Resolver.UnreadableFound | xy_grapher.py:744-746 | the first path that cannot be opened is found iff there is one |
| Resolver.NoneUnreadable | xy_grapher.py:744-746 | when every path opens, nothing is reported |
| Grapher.Graph | xy_grapher.py:722-787 | the run is a configuration error iff the parse fails, a crash iff the parse crashes; a plot takes the parsed params, is flagged unterminated iff the file had no `__end__`, has as many labels as pairs, and broadcasts its format or has one per pair |
| Grapher.RunGrapher | xy_grapher.py:722-787 | the main block computes `Graph` |
| Grapher.ParsedFormatsFit | xy_grapher.py:613-617 | every parsed document has one specifier or one per series, so `g_fmt[fsi]` is in range |
| Grapher.PlotIsConsistent | xy_grapher.py:784-787 | every plotted pair takes both columns from its own file's table; pairs and labels have equal length; the formats are broadcast or one per pair |
| Grapher.TerminatedHasParams | xy_grapher.py:379-382 | a terminated configuration never crashes on `g_params[2]` |
| Acceptance.FileLineDecodes | xy_grapher.py:418-471 | the `__file__` checks accept the line written for an entry and give back that entry, series in order |
| Acceptance.ParamsLineDecodes | xy_grapher.py:474-529 | the `__params__` checks accept the line written for the params and give them back |
| Acceptance.FormatLineDecodes | xy_grapher.py:532-591 | the `__format__` checks accept the line written for the specifiers and give them back |
| Acceptance.ConfigAccepted | xy_grapher.py:312-619 | a configuration file written from a document (entries with a `.csv` path and plain fields, valid specifiers numbering 1 or one per series) parses to exactly that document: the entries in the order of their lines, the params, the specifiers, terminated |

## Left out

- Opening files (`_fopen__r`) and `pd.read_csv` (xy_grapher.py:630-666, 746-750) are I/O. A data file is its set of column names, and a path missing from the tables stands for a file that cannot be opened, which ends the program.
- The column data is out of scope. A plotted pair is the two column names and its path.
- The stderr messages are left out. This covers the "not terminated" warning (xy_grapher.py:604), which is the `terminated` flag of the document, and the missing-column errors (xy_grapher.py:760-765). The y-column message prints the x column's name (xy_grapher.py:765); the model keeps no message text.
- Exception messages are reasons as values, not strings. The three `__end__` refusals share one reason, since they print the same text.
- The `None` argument checks of `_cfparser` and `_fopen__r`, the command line, the extension checks and `HELP_STR` (xy_grapher.py:127-184, 289-291, 669-713) are process plumbing.
- `fast_plot.xy_plot` draws with matplotlib. The model ends with its arguments.
- `PyStr.Strip`: the trim is proved to leave no whitespace at either end and to keep every non-whitespace character. It is not proved to keep inner whitespace.
- `Acceptance.ConfigAccepted`: the round trip is proved for files written with one directive per line, no spacing, comments or continuations, and fields free of whitespace and separators. The other spellings of the same document are covered by the per-line lemmas of `ParserProps` and the trailing-`;` lemmas, not by a round trip.
- `PyStr.IsSpace` is a fixed list of the Unicode whitespace characters `str.split()` and `str.strip()` break on. Nothing else about Unicode is modelled.
- Four checks in the source cannot fail, and the model proves them unreachable rather than carrying them: `len(min_s) == 0` (452), `len(prms) == 0` (500), `len(fmt_s) == 0` (557) and `len(g_fmt) < 1` (568). A non-empty part never splits into nothing, and a split always has a part.
- The code differs from the format's description in three places, and the model follows the code:
  - A blank or comment-only line after a `\` raises "unexpected EOF while parsing line" (337-339), because the test runs after the cut.
  - A file without a header or without any line is rejected as a premature end of file, or with `ActivationError`. It never gets `EmptyFileError`.
  - Text after a `\` never raises, although the help text and the header comment (xy_grapher.py:21-23, 149-150) say it does. On a line that ends in `\`, the text between its first `\` and its last one is dropped silently (332, 341); `LineReader.JoinedLine` states this. On a line that does not end in `\`, nothing continues (331), and the `\` and the text after it stay in the field: `__file__: a.csv: x, y \ z` declares the series `(x, y\z, y\z)` (455-466).
