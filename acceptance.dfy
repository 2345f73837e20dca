/** Which configuration files `_cfparser` accepts, and what it reads from
    them: a file written out from a document — the header, one `__file__`
    line per entry, the params, the format specifiers and `__end__` —
    parses back to that very document, entries in order. */
module Acceptance {
  import opened PyStr
  import opened Tokens
  import opened Document
  import opened LineReader
  import opened Directives
  import opened Parser
  import opened ParserProps

  // ----- characters -----

  /** No character of `s` is whitespace or one of `bad`. */
  predicate Free(s: string, bad: set<char>) {
    forall i :: 0 <= i < |s| ==> !IsSpace(s[i]) && s[i] !in bad
  }

  /** What the line reader acts on: comments and continuations. */
  const ReaderMarks: set<char> := {CommentMark, LineBreak}

  /** What the reader acts on, and the ':' separator. */
  const ListMarks: set<char> := {CommentMark, LineBreak, MajorSep}

  /** What the reader acts on, and the ':' and ';' separators. */
  const ClauseMarks: set<char> := {CommentMark, LineBreak, MajorSep, MinorSep}

  /** Every character with a meaning in a configuration line. */
  const Separators: set<char> := {CommentMark, LineBreak, MajorSep, MinorSep, SeriesSep}

  /** A field written into a configuration line verbatim: no whitespace,
      and no character the reader or the directives would act on. */
  predicate Plain(s: string) {
    Free(s, Separators)
  }

  lemma {:induction false} FreeAppend(a: string, b: string, bad: set<char>)
    requires Free(a, bad) && Free(b, bad)
    ensures Free(a + b, bad)
  {
    forall i | 0 <= i < |a + b|
      ensures !IsSpace((a + b)[i]) && (a + b)[i] !in bad
    {
      if i >= |a| {
        assert (a + b)[i] == b[i - |a|];
      }
    }
  }

  /** Freedom from a set of characters is freedom from any part of it. */
  lemma FreeLess(s: string, bad: set<char>, fewer: set<char>)
    requires Free(s, bad) && fewer <= bad
    ensures Free(s, fewer)
  {
  }

  /** Each separator is free of the marks that may not occur around it. */
  lemma MarksApart()
    ensures !IsSpace(MajorSep) && !IsSpace(MinorSep) && !IsSpace(SeriesSep)
    ensures MajorSep !in ReaderMarks && MinorSep !in ListMarks && SeriesSep !in ClauseMarks
    ensures Free([MajorSep], ReaderMarks) && Free([SeriesSep], ClauseMarks)
  {
  }

  lemma NotIn(s: string, bad: set<char>, c: char)
    requires Free(s, bad) && c in bad
    ensures c !in s
  {
  }

  lemma {:induction false} FreeJoin(parts: seq<string>, sep: char, bad: set<char>)
    requires |parts| >= 1 && !IsSpace(sep) && sep !in bad
    requires forall i :: 0 <= i < |parts| ==> Free(parts[i], bad)
    ensures Free(Join(parts, sep), bad)
  {
    if |parts| > 1 {
      FreeJoin(parts[1..], sep, bad);
      assert Free(parts[0], bad);
      FreeAppend(parts[0], [sep], bad);
      FreeAppend(parts[0] + [sep], Join(parts[1..], sep), bad);
    }
  }

  /** A string without whitespace loses nothing to `"".join(s.split())`. */
  lemma {:induction false} KeepAll(s: string)
    requires Free(s, {})
    ensures RemoveWhitespace(s) == s
  {
    if s != [] {
      KeepAll(s[1..]);
      assert [s[0]] + s[1..] == s;
    }
  }

  /** A string without whitespace is its own `strip()`. */
  lemma {:induction false} StripPlain(s: string)
    requires Free(s, {})
    ensures Strip(s) == s
  {
  }

  /** A non-empty line with no whitespace, '#' or '\' is read alone and
      as written. */
  lemma {:induction false} QuietRead(lines: seq<string>, pos: nat, lnum: nat)
    requires pos < |lines| && lines[pos] != [] && Free(lines[pos], ReaderMarks)
    ensures ReadLogical(lines, pos, lnum) == Line(lines[pos], pos + 1, lnum + 1)
    ensures RemoveWhitespace(lines[pos]) == lines[pos]
  {
    var s := lines[pos];
    SplitNoSep(s, CommentMark);
    assert Cut(s) == s;
    KeepAll(s);
  }

  // ----- the lines of a configuration file -----

  /** The clause `x,y,label` of one series. */
  function ClauseText(s: Series): string {
    s.x + [SeriesSep] + s.y + [SeriesSep] + s.seriesLabel
  }

  function ClauseTexts(series: seq<Series>): (cs: seq<string>)
    ensures |cs| == |series|
    ensures forall i :: 0 <= i < |series| ==> cs[i] == ClauseText(series[i])
  {
    seq(|series|, i requires 0 <= i < |series| => ClauseText(series[i]))
  }

  /** `__file__:path:x,y,label;...` for one entry. */
  function FileLine(e: FileEntry): string
    requires e.series != []
  {
    FileTag + [MajorSep] + e.path + [MajorSep] + Join(ClauseTexts(e.series), MinorSep)
  }

  /** `__params__:xlabel,ylabel,title`. */
  function ParamsLine(p: GraphParams): string {
    ParamsTag + [MajorSep] + p.xLabel + [SeriesSep] + p.yLabel + [SeriesSep] + p.title
  }

  /** `__format__:spec,spec,...`. */
  function FormatLine(g: seq<string>): string
    requires |g| >= 1
  {
    FormatTag + [MajorSep] + Join(g, SeriesSep)
  }

  predicate SeriesWritable(s: Series) {
    Plain(s.x) && Plain(s.y) && Plain(s.seriesLabel)
  }

  /** An entry a `__file__` line can declare: a ".csv" path and at least
      one series, all of them plain. */
  predicate EntryWritable(e: FileEntry) {
    && EndsWith(e.path, CsvExt) && Plain(e.path) && e.series != []
    && forall i :: 0 <= i < |e.series| ==> SeriesWritable(e.series[i])
  }

  /** A document a configuration file can declare: at least one entry,
      plain params, and valid plain format specifiers numbering one or
      one per series. */
  predicate Writable(files: seq<FileEntry>, p: GraphParams, g: seq<string>) {
    && files != []
    && (forall i :: 0 <= i < |files| ==> EntryWritable(files[i]))
    && Plain(p.xLabel) && Plain(p.yLabel) && Plain(p.title)
    && |g| >= 1 && ValidFormats(g) && (forall i :: 0 <= i < |g| ==> Plain(g[i]))
    && (|g| == 1 || |g| == TotalSeries(files))
  }

  function FileLines(files: seq<FileEntry>): (ls: seq<string>)
    requires forall i :: 0 <= i < |files| ==> files[i].series != []
    ensures |ls| == |files|
    ensures forall i :: 0 <= i < |files| ==> ls[i] == FileLine(files[i])
  {
    seq(|files|, i requires 0 <= i < |files| => FileLine(files[i]))
  }

  /** The configuration file declaring `files`, `p` and `g`. */
  function ConfigLines(files: seq<FileEntry>, p: GraphParams, g: seq<string>): seq<string>
    requires Writable(files, p, g)
  {
    [HeadTag] + FileLines(files) + [ParamsLine(p), FormatLine(g), EndTag]
  }

  // ----- each line read back -----

  /** The tags hold nothing the reader or the directives act on. */
  lemma TagsPlain()
    ensures Plain(HeadTag) && Plain(FileTag) && Plain(EndTag) && Plain(ParamsTag) && Plain(FormatTag)
  {
  }

  lemma {:induction false} ClauseReads(s: Series)
    requires SeriesWritable(s)
    ensures Split(ClauseText(s), SeriesSep) == [s.x, s.y, s.seriesLabel]
    ensures |ClauseText(s)| >= 2
    ensures Free(ClauseText(s), ClauseMarks)
  {
    NotIn(s.x, Separators, SeriesSep);
    NotIn(s.y, Separators, SeriesSep);
    NotIn(s.seriesLabel, Separators, SeriesSep);
    ThreeFields(s.x, s.y, s.seriesLabel);
    FreeLess(s.x, Separators, ClauseMarks);
    FreeLess(s.y, Separators, ClauseMarks);
    FreeLess(s.seriesLabel, Separators, ClauseMarks);
    MarksApart();
    FreeAppend(s.x, [SeriesSep], ClauseMarks);
    FreeAppend(s.x + [SeriesSep], s.y, ClauseMarks);
    FreeAppend(s.x + [SeriesSep] + s.y, [SeriesSep], ClauseMarks);
    FreeAppend(s.x + [SeriesSep] + s.y + [SeriesSep], s.seriesLabel, ClauseMarks);
  }

  /** The clause list of an entry splits back into its clauses, and holds
      no ':' and nothing the reader acts on. */
  lemma {:induction false} ClauseListReads(e: FileEntry)
    requires EntryWritable(e)
    ensures var cs := ClauseTexts(e.series); var body := Join(cs, MinorSep);
      && Split(body, MinorSep) == cs
      && Minor(body) == cs
      && body != []
      && Free(body, ListMarks)
      && (forall i :: 0 <= i < |cs| ==> Split(cs[i], SeriesSep) == [e.series[i].x, e.series[i].y, e.series[i].seriesLabel])
      && [] !in cs
  {
    var cs := ClauseTexts(e.series);
    forall i | 0 <= i < |cs|
      ensures Split(cs[i], SeriesSep) == [e.series[i].x, e.series[i].y, e.series[i].seriesLabel]
      ensures |cs[i]| >= 2 && MinorSep !in cs[i] && Free(cs[i], ListMarks)
    {
      ClauseReads(e.series[i]);
      NotIn(cs[i], ClauseMarks, MinorSep);
      FreeLess(cs[i], ClauseMarks, ListMarks);
    }
    JoinSplit(cs, MinorSep);
    var body := Join(cs, MinorSep);
    assert cs[|cs| - 1] != [];
    assert Minor(body) == cs;
    MarksApart();
    FreeJoin(cs, MinorSep, ListMarks);
  }

  /** A `__file__` line splits on ':' into the tag, the path and the
      clause list. */
  lemma {:induction false} FileLineSplits(e: FileEntry)
    requires EntryWritable(e)
    ensures var body := Join(ClauseTexts(e.series), MinorSep);
      Split(FileLine(e), MajorSep) == [FileTag, e.path, body]
  {
    var body := Join(ClauseTexts(e.series), MinorSep);
    ClauseListReads(e);
    TagsPlain();
    NotIn(body, ListMarks, MajorSep);
    NotIn(e.path, Separators, MajorSep);
    NotIn(FileTag, Separators, MajorSep);
    SplitNoSep(body, MajorSep);
    SplitAtSep(e.path, body, MajorSep);
    Regroup(FileTag, e.path, body, [], MajorSep, MajorSep);
    SplitAtSep(FileTag, e.path + [MajorSep] + body, MajorSep);
  }

  /** A `__file__` line holds nothing the reader acts on. */
  lemma {:induction false} FileLineQuiet(e: FileEntry)
    requires EntryWritable(e)
    ensures FileLine(e) != [] && Free(FileLine(e), ReaderMarks)
  {
    var body := Join(ClauseTexts(e.series), MinorSep);
    ClauseListReads(e);
    TagsPlain();
    FreeLess(FileTag, Separators, ReaderMarks);
    FreeLess(e.path, Separators, ReaderMarks);
    FreeLess(body, ListMarks, ReaderMarks);
    MarksApart();
    FreeAppend(FileTag, [MajorSep], ReaderMarks);
    FreeAppend(FileTag + [MajorSep], e.path, ReaderMarks);
    FreeAppend(FileTag + [MajorSep] + e.path, [MajorSep], ReaderMarks);
    FreeAppend(FileTag + [MajorSep] + e.path + [MajorSep], body, ReaderMarks);
  }

  /** The `__file__` checks accept the line of an entry and give back that
      entry. */
  lemma {:induction false} FileLineDecodes(e: FileEntry, lnum: nat)
    requires EntryWritable(e)
    ensures FileDirective(Split(FileLine(e), MajorSep), lnum) == Ok(e)
  {
    var cs := ClauseTexts(e.series);
    var maj := Split(FileLine(e), MajorSep);
    FileLineSplits(e);
    ClauseListReads(e);
    assert maj[2] == Join(cs, MinorSep) && Minor(maj[2]) == cs;
    assert FileLineOk(maj);
    var v := FileDirective(maj, lnum).value;
    forall i | 0 <= i < |e.series|
      ensures v.series[i] == e.series[i]
    {
      assert Declares(cs[i], v.series[i]);
    }
    assert v.series == e.series;
  }

  /** The text after a line's leading tag and ':'. */
  lemma Regroup(tag: string, a: string, b: string, c: string, s: char, t: char)
    ensures tag + [s] + a + [t] + b + [t] + c == tag + [s] + (a + [t] + b + [t] + c)
    ensures tag + [s] + a + [s] + b == tag + [s] + (a + [s] + b)
  {
  }

  lemma {:induction false} ParamsLineQuiet(p: GraphParams)
    requires Plain(p.xLabel) && Plain(p.yLabel) && Plain(p.title)
    ensures ParamsLine(p) != [] && Free(ParamsLine(p), ReaderMarks)
    ensures RemoveWhitespace(ParamsLine(p)) == ParamsLine(p)
  {
    TagsPlain();
    FreeAppend(ParamsTag, [MajorSep], ReaderMarks);
    FreeAppend(ParamsTag + [MajorSep], p.xLabel, ReaderMarks);
    FreeAppend(ParamsTag + [MajorSep] + p.xLabel, [SeriesSep], ReaderMarks);
    FreeAppend(ParamsTag + [MajorSep] + p.xLabel + [SeriesSep], p.yLabel, ReaderMarks);
    FreeAppend(ParamsTag + [MajorSep] + p.xLabel + [SeriesSep] + p.yLabel, [SeriesSep], ReaderMarks);
    FreeAppend(ParamsTag + [MajorSep] + p.xLabel + [SeriesSep] + p.yLabel + [SeriesSep], p.title, ReaderMarks);
    KeepAll(ParamsLine(p));
  }

  lemma {:induction false} ParamsLineSplits(p: GraphParams)
    requires Plain(p.xLabel) && Plain(p.yLabel) && Plain(p.title)
    ensures Split(ParamsLine(p), MajorSep)[0] == ParamsTag
  {
    TagsPlain();
    var t := p.xLabel + [SeriesSep] + p.yLabel + [SeriesSep] + p.title;
    Regroup(ParamsTag, p.xLabel, p.yLabel, p.title, MajorSep, SeriesSep);
    SplitAtSep(ParamsTag, t, MajorSep);
  }

  /** The `__params__` checks accept the params line and give back the
      params. */
  lemma {:induction false} ParamsLineDecodes(p: GraphParams, lnum: nat)
    requires Plain(p.xLabel) && Plain(p.yLabel) && Plain(p.title)
    ensures ParamsDirective(Split(RemoveWhitespace(ParamsLine(p)), MajorSep), ParamsLine(p), lnum) == Ok(p)
  {
    ParamsLineQuiet(p);
    ParamsKeepSpacing(p.xLabel, p.yLabel, p.title, lnum);
    StripPlain(p.xLabel);
    StripPlain(p.yLabel);
    StripPlain(p.title);
  }

  /** The specifiers joined by ',' split back into the specifiers, and
      hold no ':', ';' and nothing the reader acts on. */
  lemma {:induction false} FormatBodyReads(g: seq<string>)
    requires |g| >= 1 && ValidFormats(g) && forall i :: 0 <= i < |g| ==> Plain(g[i])
    ensures var body := Join(g, SeriesSep);
      && Split(body, SeriesSep) == g && body != []
      && Free(body, ClauseMarks)
  {
    forall i | 0 <= i < |g|
      ensures SeriesSep !in g[i] && Free(g[i], ClauseMarks)
    {
      NotIn(g[i], Separators, SeriesSep);
      FreeLess(g[i], Separators, ClauseMarks);
    }
    JoinSplit(g, SeriesSep);
    MarksApart();
    FreeJoin(g, SeriesSep, ClauseMarks);
    assert |g[0]| > 0;
  }

  /** A `__format__` line splits on ':' into the tag and the specifiers. */
  lemma {:induction false} FormatLineSplits(g: seq<string>)
    requires |g| >= 1 && ValidFormats(g) && forall i :: 0 <= i < |g| ==> Plain(g[i])
    ensures Split(FormatLine(g), MajorSep) == [FormatTag, Join(g, SeriesSep)]
  {
    var body := Join(g, SeriesSep);
    TagsPlain();
    NotIn(FormatTag, Separators, MajorSep);
    SplitAtSep(FormatTag, body, MajorSep);
    FormatBodyReads(g);
    NotIn(body, ClauseMarks, MajorSep);
    SplitNoSep(body, MajorSep);
  }

  /** A `__format__` line holds nothing the reader acts on. */
  lemma {:induction false} FormatLineQuiet(g: seq<string>)
    requires |g| >= 1 && ValidFormats(g) && forall i :: 0 <= i < |g| ==> Plain(g[i])
    ensures FormatLine(g) != [] && Free(FormatLine(g), ReaderMarks)
  {
    var body := Join(g, SeriesSep);
    TagsPlain();
    FormatBodyReads(g);
    FreeLess(FormatTag, Separators, ReaderMarks);
    FreeLess(body, ClauseMarks, ReaderMarks);
    MarksApart();
    FreeAppend(FormatTag, [MajorSep], ReaderMarks);
    FreeAppend(FormatTag + [MajorSep], body, ReaderMarks);
  }

  /** The `__format__` checks accept the format line and give back the
      specifiers. */
  lemma {:induction false} FormatLineDecodes(g: seq<string>, lnum: nat)
    requires |g| >= 1 && ValidFormats(g) && forall i :: 0 <= i < |g| ==> Plain(g[i])
    ensures FormatDirective(Split(FormatLine(g), MajorSep), lnum) == Ok(g)
  {
    var body := Join(g, SeriesSep);
    FormatLineSplits(g);
    FormatBodyReads(g);
    NotIn(body, ClauseMarks, MinorSep);
    SplitNoSep(body, MinorSep);
    assert Minor(body) == [body];
  }

  // ----- the whole file -----

  /** The state after the header and the first `i` entry lines. */
  function AfterFiles(files: seq<FileEntry>, i: nat): State
    requires i <= |files|
  {
    State(1 + i, 1 + i, 0, true, files[..i], None, None)
  }

  lemma {:induction false} LinesAt(files: seq<FileEntry>, p: GraphParams, g: seq<string>)
    requires Writable(files, p, g)
    ensures var L := ConfigLines(files, p, g); var n := |files|;
      && |L| == n + 4 && L[0] == HeadTag && L[n + 1] == ParamsLine(p)
      && L[n + 2] == FormatLine(g) && L[n + 3] == EndTag
  {
  }

  lemma {:induction false} EntryLineAt(files: seq<FileEntry>, p: GraphParams, g: seq<string>, i: nat)
    requires Writable(files, p, g) && i < |files|
    ensures var L := ConfigLines(files, p, g);
      |L| == |files| + 4 && L[i + 1] == FileLine(files[i])
  {
  }

  lemma {:induction false} HeaderRead(files: seq<FileEntry>, p: GraphParams, g: seq<string>)
    requires Writable(files, p, g)
    ensures Run(ConfigLines(files, p, g), Start) == Run(ConfigLines(files, p, g), AfterFiles(files, 0))
  {
    var L := ConfigLines(files, p, g);
    LinesAt(files, p, g);
    TagsPlain();
    QuietRead(L, 0, 0);
    Activates(L, Start);
    RunNext(L, Start, AfterFiles(files, 0));
  }

  lemma {:induction false} EntryRead(files: seq<FileEntry>, p: GraphParams, g: seq<string>, i: nat)
    requires Writable(files, p, g) && i < |files|
    ensures StepOf(ConfigLines(files, p, g), AfterFiles(files, i)) == Next(AfterFiles(files, i + 1))
  {
    var L := ConfigLines(files, p, g);
    var st := AfterFiles(files, i);
    EntryLineAt(files, p, g, i);
    FileLineSplits(files[i]);
    FileLineQuiet(files[i]);
    QuietRead(L, 1 + i, 1 + i);
    TagsPlain();
    FileLineDecodes(files[i], 2 + i);
    FileAppends(L, st);
    PrefixStep(files, i);
  }

  lemma PrefixStep<T>(s: seq<T>, i: nat)
    requires i < |s|
    ensures s[..i] + [s[i]] == s[..i + 1]
  {
  }

  lemma {:induction false} EntriesRead(files: seq<FileEntry>, p: GraphParams, g: seq<string>)
    requires Writable(files, p, g)
    ensures var L := ConfigLines(files, p, g);
      Run(L, AfterFiles(files, 0)) == Run(L, AfterFiles(files, |files|))
  {
    var L := ConfigLines(files, p, g);
    LinesAt(files, p, g);
    var f := (i: nat) => if i <= |files| && 1 + i <= |L| then Run(L, AfterFiles(files, i)) else Crashed;
    forall i | 0 <= i < |files|
      ensures f(i) == f(i + 1)
    {
      EntryRead(files, p, g, i);
      RunNext(L, AfterFiles(files, i), AfterFiles(files, i + 1));
    }
    Telescope(f, 0, |files|);
  }

  /** The state after the header, the entry lines and the params line. */
  function AfterParams(files: seq<FileEntry>, p: GraphParams): State {
    State(|files| + 2, |files| + 2, 0, true, files, Some(p), None)
  }

  /** The state after every line but `__end__`. */
  function AfterFormat(files: seq<FileEntry>, p: GraphParams, g: seq<string>): State {
    State(|files| + 3, |files| + 3, |files| + 3, true, files, Some(p), Some(g))
  }

  /** A line read alone whose `__params__` checks give `p` sets the params. */
  lemma {:induction false} ParamsRawStep(lines: seq<string>, st: State, raw: string, p: GraphParams)
    requires st.pos < |lines| && st.active && st.params.None?
    requires ReadLogical(lines, st.pos, st.lnum) == Line(raw, st.pos + 1, st.lnum + 1)
    requires RemoveWhitespace(raw) == raw && Split(raw, MajorSep)[0] == ParamsTag
    requires ParamsDirective(Split(raw, MajorSep), raw, st.lnum + 1) == Ok(p)
    ensures StepOf(lines, st) == Next(st.(pos := st.pos + 1, lnum := st.lnum + 1, params := Some(p)))
  {
    ParamsSet(lines, st);
  }

  /** A line read alone whose `__format__` checks give `g` sets the formats. */
  lemma {:induction false} FormatRawStep(lines: seq<string>, st: State, raw: string, g: seq<string>)
    requires st.pos < |lines| && st.active && st.formats.None?
    requires ReadLogical(lines, st.pos, st.lnum) == Line(raw, st.pos + 1, st.lnum + 1)
    requires RemoveWhitespace(raw) == raw && Split(raw, MajorSep)[0] == FormatTag
    requires FormatDirective(Split(raw, MajorSep), st.lnum + 1) == Ok(g)
    ensures StepOf(lines, st) ==
      Next(st.(pos := st.pos + 1, lnum := st.lnum + 1, formats := Some(g), flnum := st.lnum + 1))
  {
    FormatSet(lines, st);
  }

  /** The params line is read alone and as written. */
  lemma {:induction false} ParamsLineAlone(lines: seq<string>, pos: nat, lnum: nat, p: GraphParams)
    requires pos < |lines| && lines[pos] == ParamsLine(p)
    requires Plain(p.xLabel) && Plain(p.yLabel) && Plain(p.title)
    ensures ReadLogical(lines, pos, lnum) == Line(ParamsLine(p), pos + 1, lnum + 1)
    ensures RemoveWhitespace(ParamsLine(p)) == ParamsLine(p)
  {
    ParamsLineQuiet(p);
    QuietRead(lines, pos, lnum);
  }

  /** The `__params__` checks on the params line give back `p`. */
  lemma {:induction false} ParamsLineReads(p: GraphParams, lnum: nat)
    requires Plain(p.xLabel) && Plain(p.yLabel) && Plain(p.title)
    ensures var raw := ParamsLine(p);
      && RemoveWhitespace(raw) == raw && Split(raw, MajorSep)[0] == ParamsTag
      && ParamsDirective(Split(raw, MajorSep), raw, lnum) == Ok(p)
  {
    ParamsLineQuiet(p);
    ParamsLineSplits(p);
    ParamsLineDecodes(p, lnum);
  }

  /** Any `__params__` line written from `p`, read while the params are
      unset, sets them to `p`. */
  lemma {:induction false} ParamsLineStep(lines: seq<string>, st: State, p: GraphParams)
    requires st.pos < |lines| && st.active && st.params.None? && lines[st.pos] == ParamsLine(p)
    requires Plain(p.xLabel) && Plain(p.yLabel) && Plain(p.title)
    ensures StepOf(lines, st) == Next(st.(pos := st.pos + 1, lnum := st.lnum + 1, params := Some(p)))
  {
    ParamsLineAlone(lines, st.pos, st.lnum, p);
    ParamsLineReads(p, st.lnum + 1);
    ParamsRawStep(lines, st, ParamsLine(p), p);
  }

  /** The format line is read alone and as written. */
  lemma {:induction false} FormatLineAlone(lines: seq<string>, pos: nat, lnum: nat, g: seq<string>)
    requires |g| >= 1 && ValidFormats(g) && forall i :: 0 <= i < |g| ==> Plain(g[i])
    requires pos < |lines| && lines[pos] == FormatLine(g)
    ensures ReadLogical(lines, pos, lnum) == Line(FormatLine(g), pos + 1, lnum + 1)
    ensures RemoveWhitespace(FormatLine(g)) == FormatLine(g)
  {
    FormatLineQuiet(g);
    QuietRead(lines, pos, lnum);
  }

  /** The `__format__` checks on the format line give back `g`. */
  lemma {:induction false} FormatLineReads(g: seq<string>, lnum: nat)
    requires |g| >= 1 && ValidFormats(g) && forall i :: 0 <= i < |g| ==> Plain(g[i])
    ensures var raw := FormatLine(g);
      && Split(raw, MajorSep)[0] == FormatTag
      && FormatDirective(Split(raw, MajorSep), lnum) == Ok(g)
  {
    FormatLineSplits(g);
    FormatLineDecodes(g, lnum);
  }

  /** Any `__format__` line written from `g`, read while the formats are
      unset, sets them to `g` and records its line number. */
  lemma {:induction false} FormatLineStep(lines: seq<string>, st: State, g: seq<string>)
    requires |g| >= 1 && ValidFormats(g) && forall i :: 0 <= i < |g| ==> Plain(g[i])
    requires st.pos < |lines| && st.active && st.formats.None? && lines[st.pos] == FormatLine(g)
    ensures StepOf(lines, st) ==
      Next(st.(pos := st.pos + 1, lnum := st.lnum + 1, formats := Some(g), flnum := st.lnum + 1))
  {
    FormatLineAlone(lines, st.pos, st.lnum, g);
    FormatLineReads(g, st.lnum + 1);
    FormatRawStep(lines, st, FormatLine(g), g);
  }

  lemma {:induction false} ParamsRead(files: seq<FileEntry>, p: GraphParams, g: seq<string>)
    requires Writable(files, p, g)
    ensures StepOf(ConfigLines(files, p, g), AfterFiles(files, |files|)) == Next(AfterParams(files, p))
  {
    var n := |files|;
    LinesAt(files, p, g);
    assert files[..n] == files;
    ParamsLineStep(ConfigLines(files, p, g), AfterFiles(files, n), p);
  }

  lemma {:induction false} FormatRead(files: seq<FileEntry>, p: GraphParams, g: seq<string>)
    requires Writable(files, p, g)
    ensures StepOf(ConfigLines(files, p, g), AfterParams(files, p)) == Next(AfterFormat(files, p, g))
  {
    LinesAt(files, p, g);
    FormatLineStep(ConfigLines(files, p, g), AfterParams(files, p), g);
  }

  lemma {:induction false} EndRead(files: seq<FileEntry>, p: GraphParams, g: seq<string>)
    requires Writable(files, p, g)
    ensures Run(ConfigLines(files, p, g), AfterFormat(files, p, g)) ==
      Parsed(Document(files, Some(p), g, true))
  {
    var L := ConfigLines(files, p, g);
    var n := |files|;
    LinesAt(files, p, g);
    TagsPlain();
    QuietRead(L, n + 3, n + 3);
    EndGuard(L, [], AfterFormat(files, p, g));
  }

  lemma {:induction false} TailRead(files: seq<FileEntry>, p: GraphParams, g: seq<string>)
    requires Writable(files, p, g)
    ensures Run(ConfigLines(files, p, g), AfterFiles(files, |files|)) ==
      Parsed(Document(files, Some(p), g, true))
  {
    var L := ConfigLines(files, p, g);
    LinesAt(files, p, g);
    ParamsRead(files, p, g);
    RunNext(L, AfterFiles(files, |files|), AfterParams(files, p));
    FormatRead(files, p, g);
    RunNext(L, AfterParams(files, p), AfterFormat(files, p, g));
    EndRead(files, p, g);
  }

  /** A configuration file written from a document parses back to that
      document: the entries in the order of their lines, the params, the
      format specifiers, and terminated by `__end__`. */
  lemma {:induction false} ConfigAccepted(files: seq<FileEntry>, p: GraphParams, g: seq<string>)
    requires Writable(files, p, g)
    ensures Parse(ConfigLines(files, p, g)) == Parsed(Document(files, Some(p), g, true))
  {
    HeaderRead(files, p, g);
    EntriesRead(files, p, g);
    TailRead(files, p, g);
  }
}
