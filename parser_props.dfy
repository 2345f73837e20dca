/** What `_cfparser` promises about a whole configuration file: which
    exception an empty or header-less file gets, what a parsed document
    always satisfies, that nothing after `__end__` is read, and that a
    trailing ';' is optional on every directive. */
module ParserProps {
  import opened PyStr
  import opened Tokens
  import opened Document
  import opened LineReader
  import opened Directives
  import opened Parser

  // ----- empty and header-less files -----

  /** No turn of the loop raises `EmptyFileError`. */
  lemma {:induction false} StepNotEmptyFile(lines: seq<string>, st: State)
    requires st.pos <= |lines|
    ensures StepOf(lines, st).Fail? ==> !StepOf(lines, st).failure.EmptyFileError?
  {
    if st.pos < |lines| {
      match ReadLogical(lines, st.pos, st.lnum)
      case BrokenLine(_) =>
      case Line(raw, next, n) => LineStepNotEmptyFile(st.(pos := next, lnum := n), raw);
    }
  }

  lemma {:induction false} LineStepNotEmptyFile(st: State, raw: string)
    ensures LineStep(st, raw).Fail? ==> !LineStep(st, raw).failure.EmptyFileError?
  {
    var clean := RemoveWhitespace(raw);
    if |clean| != 0 && st.active && clean != HeadTag && clean != EndTag {
      DirectiveNotEmptyFile(st, raw, clean);
    }
  }

  lemma {:induction false} DirectiveNotEmptyFile(st: State, raw: string, clean: string)
    requires clean == RemoveWhitespace(raw)
    ensures Directive(st, raw, clean).Fail? ==> !Directive(st, raw, clean).failure.EmptyFileError?
  {
  }

  lemma {:induction false} RunNotEmptyFile(lines: seq<string>, st: State)
    requires st.pos <= |lines|
    ensures Run(lines, st) != Failed(EmptyFileError)
    decreases |lines| - st.pos
  {
    StepNotEmptyFile(lines, st);
    match StepOf(lines, st)
    case Next(st') => RunNotEmptyFile(lines, st');
    case Stop(_, _) =>
    case Fail(_) =>
  }

  /** `EmptyFileError` is never raised: every way out of the loop has read
      at least one line (the end-of-file read counts), so the `lnum == 0`
      test after the loop never holds. */
  lemma {:induction false} NeverEmptyFileError(lines: seq<string>)
    ensures Parse(lines) != Failed(EmptyFileError)
  {
    RunNotEmptyFile(lines, Start);
  }

  /** Lines `j` up to `k` hold nothing but whitespace and comments. */
  predicate AllBlank(lines: seq<string>, j: nat, k: nat)
    requires j <= k <= |lines|
    decreases k - j
  {
    j == k || (Cut(lines[j]) == [] && AllBlank(lines, j + 1, k))
  }

  /** The state before activation with `j` lines read. */
  function Unread(j: nat): State {
    State(j, j, 0, false, [], None, None)
  }

  /** A line holding nothing but whitespace and a comment is skipped and
      counted. */
  lemma {:induction false} SkipBlank(lines: seq<string>, st: State)
    requires st.pos < |lines| && Cut(lines[st.pos]) == []
    ensures StepOf(lines, st) == Next(st.(pos := st.pos + 1, lnum := st.lnum + 1))
  {
    assert ReadLogical(lines, st.pos, st.lnum) == Line([], st.pos + 1, st.lnum + 1);
  }

  /** Blank and comment-only lines before the header leave the outcome to
      the first line after them. */
  lemma {:induction false} BlanksRun(lines: seq<string>, j: nat, k: nat)
    requires j <= k <= |lines| && AllBlank(lines, j, k)
    ensures Run(lines, Unread(j)) == Run(lines, Unread(k))
  {
    var f := (i: nat) => if i <= |lines| then Run(lines, Unread(i)) else Failed(EmptyFileError);
    forall i | j <= i < k
      ensures f(i) == f(i + 1)
    {
      BlankAt(lines, j, i, k);
      SkipBlank(lines, Unread(i));
      RunNext(lines, Unread(i), Unread(i + 1));
    }
    Telescope(f, j, k);
  }

  lemma {:induction false} BlankAt(lines: seq<string>, j: nat, i: nat, k: nat)
    requires j <= i < k <= |lines| && AllBlank(lines, j, k)
    ensures Cut(lines[i]) == []
    decreases i - j
  {
    if j < i {
      BlankAt(lines, j + 1, i, k);
    }
  }

  /** Equal neighbours from `j` up to `k` make the ends equal. */
  lemma {:induction false} Telescope<T>(f: nat -> T, j: nat, k: nat)
    requires j <= k
    requires forall i | j <= i < k :: f(i) == f(i + 1)
    ensures f(j) == f(k)
    decreases k - j
  {
    if j < k {
      Telescope(f, j + 1, k);
    }
  }

  /** A file of nothing but blank and comment-only lines, the empty file
      included, is rejected as a premature end of file one past its last
      line, not as an empty file. */
  lemma {:induction false} BlankFile(lines: seq<string>)
    requires AllBlank(lines, 0, |lines|)
    ensures Parse(lines) == Failed(ParseError(PrematureEof, |lines| + 1))
  {
    BlanksRun(lines, 0, |lines|);
    EofWithoutFiles(lines, Unread(|lines|));
  }

  /** End of file before any file entry raises, one past the last line. */
  lemma {:induction false} EofWithoutFiles(lines: seq<string>, st: State)
    requires st.pos == |lines| && st.files == []
    ensures Run(lines, st) == Failed(ParseError(PrematureEof, st.lnum + 1))
  {
  }

  /** The header must come first: when the first logical line that is not
      blank or a comment is not `__xyc__`, the loop stops there and the
      file is rejected as not activated, at the last physical line of that
      logical line. */
  lemma {:induction false} HeaderRequired(lines: seq<string>, k: nat)
    requires k < |lines|
    requires AllBlank(lines, 0, k)
    requires var line := ReadLogical(lines, k, k);
      line.Line? && RemoveWhitespace(line.raw) != [] && RemoveWhitespace(line.raw) != HeadTag
    ensures Parse(lines) == Failed(ActivationError(ReadLogical(lines, k, k).lnum))
  {
    BlanksRun(lines, 0, k);
    var line := ReadLogical(lines, k, k);
    StepReads(lines, Unread(k), line);
    RunStop(lines, Unread(k), Unread(k).(pos := line.next, lnum := line.lnum), false);
  }

  // ----- activation, `__end__` and the token table -----

  /** `__xyc__` activates a file not yet active; nothing else changes but
      the lines read. */
  lemma {:induction false} Activates(lines: seq<string>, st: State)
    requires st.pos < |lines| && !st.active
    requires var line := ReadLogical(lines, st.pos, st.lnum);
      line.Line? && RemoveWhitespace(line.raw) == HeadTag
    ensures var line := ReadLogical(lines, st.pos, st.lnum);
      StepOf(lines, st) == Next(st.(pos := line.next, lnum := line.lnum, active := true))
  {
    StepReads(lines, st, ReadLogical(lines, st.pos, st.lnum));
  }

  /** An accepted `__file__` line appends its entry after the entries read
      before it; nothing else changes but the lines read. */
  lemma {:induction false} FileAppends(lines: seq<string>, st: State)
    requires st.pos < |lines| && st.active
    requires var line := ReadLogical(lines, st.pos, st.lnum);
      line.Line? &&
      var maj := Split(RemoveWhitespace(line.raw), MajorSep);
      maj[0] == FileTag && FileDirective(maj, line.lnum).Ok?
    ensures var line := ReadLogical(lines, st.pos, st.lnum);
      var maj := Split(RemoveWhitespace(line.raw), MajorSep);
      StepOf(lines, st) ==
        Next(st.(pos := line.next, lnum := line.lnum, files := st.files + [FileDirective(maj, line.lnum).value]))
  {
    var line := ReadLogical(lines, st.pos, st.lnum);
    StepReads(lines, st, line);
    DirectiveLine(st.(pos := line.next, lnum := line.lnum), line.raw);
    DirectiveSets(st.(pos := line.next, lnum := line.lnum), line.raw);
  }

  /** An accepted `__params__` line, the first of the file, sets the
      params; nothing else changes but the lines read. */
  lemma {:induction false} ParamsSet(lines: seq<string>, st: State)
    requires st.pos < |lines| && st.active && st.params.None?
    requires var line := ReadLogical(lines, st.pos, st.lnum);
      line.Line? &&
      var maj := Split(RemoveWhitespace(line.raw), MajorSep);
      maj[0] == ParamsTag && ParamsDirective(maj, line.raw, line.lnum).Ok?
    ensures var line := ReadLogical(lines, st.pos, st.lnum);
      var maj := Split(RemoveWhitespace(line.raw), MajorSep);
      StepOf(lines, st) ==
        Next(st.(pos := line.next, lnum := line.lnum, params := Some(ParamsDirective(maj, line.raw, line.lnum).value)))
  {
    var line := ReadLogical(lines, st.pos, st.lnum);
    StepReads(lines, st, line);
    DirectiveLine(st.(pos := line.next, lnum := line.lnum), line.raw);
    DirectiveSets(st.(pos := line.next, lnum := line.lnum), line.raw);
  }

  /** An accepted `__format__` line, the first of the file, sets the
      specifiers and records its line as the format line; nothing else
      changes but the lines read. */
  lemma {:induction false} FormatSet(lines: seq<string>, st: State)
    requires st.pos < |lines| && st.active && st.formats.None?
    requires var line := ReadLogical(lines, st.pos, st.lnum);
      line.Line? &&
      var maj := Split(RemoveWhitespace(line.raw), MajorSep);
      maj[0] == FormatTag && FormatDirective(maj, line.lnum).Ok?
    ensures var line := ReadLogical(lines, st.pos, st.lnum);
      var maj := Split(RemoveWhitespace(line.raw), MajorSep);
      StepOf(lines, st) ==
        Next(st.(pos := line.next, lnum := line.lnum, formats := Some(FormatDirective(maj, line.lnum).value),
                 flnum := line.lnum))
  {
    var line := ReadLogical(lines, st.pos, st.lnum);
    StepReads(lines, st, line);
    DirectiveLine(st.(pos := line.next, lnum := line.lnum), line.raw);
    DirectiveSets(st.(pos := line.next, lnum := line.lnum), line.raw);
  }

  /** A line led by one of the three directive tags is neither blank,
      `__xyc__` nor `__end__`, so an active file hands it to the
      directives. */
  lemma {:induction false} DirectiveLine(st: State, raw: string)
    requires st.active
    requires var tok := Split(RemoveWhitespace(raw), MajorSep)[0];
      tok == FileTag || tok == ParamsTag || tok == FormatTag
    ensures LineStep(st, raw) == Directive(st, raw, RemoveWhitespace(raw))
  {
    LedByTag(RemoveWhitespace(raw));
  }

  lemma {:induction false} LedByTag(clean: string)
    requires var tok := Split(clean, MajorSep)[0];
      tok == FileTag || tok == ParamsTag || tok == FormatTag
    ensures |clean| != 0 && clean != HeadTag && clean != EndTag
  {
    if clean == HeadTag {
      SplitNoSep(HeadTag, MajorSep);
    } else if clean == EndTag {
      SplitNoSep(EndTag, MajorSep);
    } else if clean == [] {
      SplitNoSep([], MajorSep);
    }
  }

  lemma {:induction false} DirectiveSets(st: State, raw: string)
    ensures var clean := RemoveWhitespace(raw);
      var maj := Split(clean, MajorSep);
      var r := Directive(st, raw, clean);
      && (maj[0] == FileTag && FileDirective(maj, st.lnum).Ok? ==>
            r == Next(st.(files := st.files + [FileDirective(maj, st.lnum).value])))
      && (maj[0] == ParamsTag && st.params.None? && ParamsDirective(maj, raw, st.lnum).Ok? ==>
            r == Next(st.(params := Some(ParamsDirective(maj, raw, st.lnum).value))))
      && (maj[0] == FormatTag && st.formats.None? && FormatDirective(maj, st.lnum).Ok? ==>
            r == Next(st.(formats := Some(FormatDirective(maj, st.lnum).value), flnum := st.lnum)))
  {
  }

  /** Only a blank line, `__xyc__` on a file not yet active, and the
      accepted directive lines of `FileAppends`, `ParamsSet` and
      `FormatSet` let the loop go on. */
  lemma {:induction false} OnlyAccepted(st: State, raw: string)
    ensures var clean := RemoveWhitespace(raw);
      var maj := Split(clean, MajorSep);
      LineStep(st, raw).Next? ==>
        || clean == []
        || (!st.active && clean == HeadTag)
        || (st.active && maj[0] == FileTag && FileDirective(maj, st.lnum).Ok?)
        || (st.active && maj[0] == ParamsTag && st.params.None? && ParamsDirective(maj, raw, st.lnum).Ok?)
        || (st.active && maj[0] == FormatTag && st.formats.None? && FormatDirective(maj, st.lnum).Ok?)
  {
    var clean := RemoveWhitespace(raw);
    if clean != [] && st.active && clean != HeadTag && clean != EndTag {
      DirectiveGoesOn(st, raw, clean);
    }
  }

  lemma {:induction false} DirectiveGoesOn(st: State, raw: string, clean: string)
    requires clean == RemoveWhitespace(raw)
    ensures var maj := Split(clean, MajorSep);
      Directive(st, raw, clean).Next? ==>
        || (maj[0] == FileTag && FileDirective(maj, st.lnum).Ok?)
        || (maj[0] == ParamsTag && st.params.None? && ParamsDirective(maj, raw, st.lnum).Ok?)
        || (maj[0] == FormatTag && st.formats.None? && FormatDirective(maj, st.lnum).Ok?)
  {
  }

  /** The loop is left at a non-blank line before activation, with the
      state kept, and at an `__end__` line once a file entry, the params
      and the format were read; at no other line. */
  lemma {:induction false} LineLeaves(st: State, raw: string)
    ensures var clean := RemoveWhitespace(raw);
      var r := LineStep(st, raw);
      && (r.Stop? <==>
            || (!st.active && clean != [] && clean != HeadTag)
            || (st.active && clean == EndTag && st.files != [] && st.params.Some? && st.formats.Some?))
      && (r.Stop? ==> r == Stop(st, st.active))
  {
    var clean := RemoveWhitespace(raw);
    if clean != [] && st.active && clean != HeadTag && clean != EndTag {
      assert !Directive(st, raw, clean).Stop?;
    }
  }

  /** Once active, a second `__xyc__` raises at the last line of its
      logical line, whatever follows it. */
  lemma {:induction false} HeaderOnce(lines: seq<string>, st: State)
    requires st.pos < |lines| && st.active
    requires var line := ReadLogical(lines, st.pos, st.lnum);
      line.Line? && RemoveWhitespace(line.raw) == HeadTag
    ensures Run(lines, st) == Failed(ParseError(DuplicateHead, ReadLogical(lines, st.pos, st.lnum).lnum))
  {
    StepReads(lines, st, ReadLogical(lines, st.pos, st.lnum));
  }

  /** `__end__` is accepted only once a file entry, the params and the
      format have all been read; otherwise it raises at its own line. When
      accepted, the loop is left at once, marked as terminated, so the
      outcome depends on no line after it. */
  lemma {:induction false} EndGuard(lines: seq<string>, rest: seq<string>, st: State)
    requires st.pos < |lines| && st.active
    requires var line := ReadLogical(lines, st.pos, st.lnum);
      line.Line? && RemoveWhitespace(line.raw) == EndTag
    ensures var line := ReadLogical(lines, st.pos, st.lnum);
      var st' := st.(pos := line.next, lnum := line.lnum);
      Run(lines, st) ==
        if st.files == [] || st.params.None? || st.formats.None? then
          Failed(ParseError(PrematureEnd, line.lnum))
        else Finish(st', true)
    ensures Run(lines + rest, st) == Run(lines, st)
  {
    var line := ReadLogical(lines, st.pos, st.lnum);
    StepReads(lines, st, line);
    ReadLogicalExtend(lines, rest, st.pos, st.lnum);
    StepReads(lines + rest, st, line);
  }

  /** The leading token of a directive line is looked up among the values
      of the token table: an unknown one is an illegal token, an empty one
      a missing token, and any other known one that does not name a
      directive (the separators included) is out of place. Only the three
      directive tags go on, and a repeated `__params__` or `__format__` is
      refused before its fields are looked at. */
  lemma {:induction false} TokenDispatch(st: State, raw: string)
    ensures var clean := RemoveWhitespace(raw);
      var tok := Split(clean, MajorSep)[0];
      var r := Directive(st, raw, clean);
      && (r == Fail(IllegalTokenError(tok, st.lnum)) <==> tok !in TokenValues)
      && (r == Fail(ParseError(MissingToken, st.lnum)) <==> tok == [])
      && (tok in TokenValues && tok != [] && tok != FileTag && tok != ParamsTag && tok != FormatTag ==>
            r == Fail(ParseError(OutOfPlace(tok), st.lnum)))
      && (r.Next? ==> tok == FileTag || tok == ParamsTag || tok == FormatTag)
      && (tok == ParamsTag && st.params.Some? ==> r == Fail(ParseError(DuplicateParams, st.lnum)))
      && (tok == FormatTag && st.formats.Some? ==> r == Fail(ParseError(DuplicateFormat, st.lnum)))
  {
  }

  /** The separators are in the token table, so a line led by one of them
      is out of place rather than an illegal token. */
  lemma {:induction false} SeparatorOutOfPlace(st: State, c: char, body: string)
    requires c == MinorSep || c == SeriesSep || c == LineBreak
    ensures var raw := [c, MajorSep] + body;
      Directive(st, raw, RemoveWhitespace(raw)) == Fail(ParseError(OutOfPlace([c]), st.lnum))
  {
    var raw := [c, MajorSep] + body;
    assert raw == [c] + [MajorSep] + body;
    RemoveWhitespaceAppend([c] + [MajorSep], body);
    RemoveWhitespaceAppend([c], [MajorSep]);
    assert RemoveWhitespace([c]) == [c] && RemoveWhitespace([MajorSep]) == [MajorSep];
    SplitAtSep([c], RemoveWhitespace(body), MajorSep);
    var clean := RemoveWhitespace(raw);
    assert clean == [c] + [MajorSep] + RemoveWhitespace(body);
    assert Split(clean, MajorSep)[0] == [c];
    assert [c] in TokenValues;
  }

  /** After the loop of an activated file, the format specifiers must have
      been read (`len(None)` raises otherwise) and be one or one per
      series; a wrong count is reported at the `__format__` line. */
  lemma {:induction false} FormatCount(st: State, exited: bool)
    requires st.active
    ensures (Finish(st, exited) == Crashed) <==> st.formats.None?
    ensures st.formats.Some? ==>
      var f := st.formats.value; var n := TotalSeries(st.files);
      && (Finish(st, exited).Failed? <==> |f| != 1 && |f| != n)
      && (Finish(st, exited).Failed? ==> Finish(st, exited).failure == GraphFormatError(SpecCount(n, |f|), st.flnum))
      && (Finish(st, exited).Parsed? ==> Finish(st, exited).doc == Document(st.files, st.params, f, exited))
  {
  }

  // ----- parsed documents -----

  /** A file entry as the `__file__` checks leave it. */
  predicate EntryOk(f: FileEntry) {
    EndsWith(f.path, CsvExt) && f.series != []
  }

  /** What the loop keeps true of its variables. */
  predicate Inv(st: State) {
    && (forall i :: 0 <= i < |st.files| ==> EntryOk(st.files[i]))
    && (st.formats.Some? ==> ValidFormats(st.formats.value) && |st.formats.value| >= 1)
    && (st.params.Some? ==> ParamsTrimmed(st.params.value))
  }

  /** Labels and title carry no whitespace at their ends. */
  predicate ParamsTrimmed(p: GraphParams) {
    Trimmed(p.xLabel) && Trimmed(p.yLabel) && Trimmed(p.title)
  }

  /** What every document `_cfparser` returns satisfies: at least one file
      entry, every path a ".csv" path with at least one series, valid format
      specifiers numbering one or one per series, trimmed params, and params
      present whenever `__end__` was reached. */
  predicate WellFormed(doc: Document) {
    && doc.files != []
    && (forall i :: 0 <= i < |doc.files| ==> EntryOk(doc.files[i]))
    && ValidFormats(doc.formats) && |doc.formats| >= 1
    && (|doc.formats| == 1 || |doc.formats| == TotalSeries(doc.files))
    && (doc.params.Some? ==> ParamsTrimmed(doc.params.value))
    && (doc.terminated ==> doc.params.Some?)
  }

  /** A directive keeps the invariant. */
  lemma {:induction false} DirectiveKeepsInv(st: State, raw: string)
    requires Inv(st)
    ensures var r := Directive(st, raw, RemoveWhitespace(raw));
      r.Next? ==> Inv(r.st) && r.st.active == st.active
  {
    var clean := RemoveWhitespace(raw);
    var maj := Split(clean, MajorSep);
    var r := Directive(st, raw, clean);
    if r.Next? && maj[0] == FileTag {
      var e := FileDirective(maj, st.lnum);
      assert r.st.files == st.files + [e.value];
      assert EntryOk(e.value);
    }
  }

  /** Each turn of the loop keeps the invariant, and leaves the loop only
      once a file entry was read (or before activation), with params and
      format present when it leaves through `__end__`. */
  lemma {:induction false} StepKeepsInv(lines: seq<string>, st: State)
    requires st.pos <= |lines| && Inv(st)
    ensures var r := StepOf(lines, st);
      && (r.Next? ==> Inv(r.st))
      && (r.Stop? ==> Inv(r.st) && (r.st.active ==> r.st.files != []))
      && (r.Stop? && r.exited ==> r.st.params.Some?)
  {
    if st.pos < |lines| {
      var line := ReadLogical(lines, st.pos, st.lnum);
      if line.Line? {
        var read := st.(pos := line.next, lnum := line.lnum);
        var clean := RemoveWhitespace(line.raw);
        if |clean| > 0 && read.active && clean != HeadTag && clean != EndTag {
          DirectiveKeepsInv(read, line.raw);
        }
      }
    }
  }

  lemma {:induction false} RunWellFormed(lines: seq<string>, st: State)
    requires st.pos <= |lines| && Inv(st)
    ensures Run(lines, st).Parsed? ==> WellFormed(Run(lines, st).doc)
    decreases |lines| - st.pos
  {
    StepKeepsInv(lines, st);
    match StepOf(lines, st)
    case Next(st') => RunWellFormed(lines, st');
    case Stop(_, _) =>
    case Fail(_) =>
  }

  /** Every document the parser returns is well formed. */
  lemma {:induction false} ParsedIsWellFormed(lines: seq<string>)
    ensures Parse(lines).Parsed? ==> WellFormed(Parse(lines).doc)
  {
    RunWellFormed(lines, Start);
  }

  /** A document never names fewer series than file entries. */
  lemma {:induction false} ParsedSeriesCount(lines: seq<string>)
    ensures Parse(lines).Parsed? ==>
      TotalSeries(Parse(lines).doc.files) >= |Parse(lines).doc.files| >= 1
  {
    ParsedIsWellFormed(lines);
    if Parse(lines).Parsed? {
      var files := Parse(lines).doc.files;
      assert forall i :: 0 <= i < |files| ==> files[i].series != [] by {
        forall i | 0 <= i < |files| ensures files[i].series != [] {
          assert EntryOk(files[i]);
        }
      }
    }
  }

  // ----- __end__ -----

  /** A run that ends through `__end__` gives the same outcome whatever
      follows the lines it read. */
  lemma {:induction false} RunIgnoresRest(lines: seq<string>, rest: seq<string>, st: State)
    requires st.pos <= |lines|
    requires Run(lines, st).Parsed? && Run(lines, st).doc.terminated
    ensures Run(lines + rest, st) == Run(lines, st)
    decreases |lines| - st.pos
  {
    assert st.pos < |lines|;
    var line := ReadLogical(lines, st.pos, st.lnum);
    assert line.Line?;
    ReadLogicalExtend(lines, rest, st.pos, st.lnum);
    assert StepOf(lines + rest, st) == StepOf(lines, st);
    match StepOf(lines, st)
    case Next(st') => RunIgnoresRest(lines, rest, st');
    case Stop(_, _) =>
    case Fail(_) =>
  }

  /** Nothing after `__end__` is read: a file that parses through `__end__`
      parses to the same document whatever lines are appended to it. */
  lemma {:induction false} TerminatedIgnoresRest(lines: seq<string>, rest: seq<string>)
    requires Parse(lines).Parsed? && Parse(lines).doc.terminated
    ensures Parse(lines + rest) == Parse(lines)
  {
    RunIgnoresRest(lines, rest, Start);
  }

  // ----- the optional trailing ';' -----

  /** A ';' at the end of a directive line changes nothing, whichever
      directive it is, provided the line does not already end in ':' or
      ';'. */
  lemma {:induction false} TrailingSemicolonOptional(st: State, raw: string)
    requires var clean := RemoveWhitespace(raw);
      MajorSep in clean && clean[|clean| - 1] != MajorSep && clean[|clean| - 1] != MinorSep
    ensures RemoveWhitespace(raw + [MinorSep]) == RemoveWhitespace(raw) + [MinorSep]
    ensures Directive(st, raw + [MinorSep], RemoveWhitespace(raw) + [MinorSep]) ==
      Directive(st, raw, RemoveWhitespace(raw))
  {
    RemoveWhitespaceAppendChar(raw, MinorSep);
    var clean := RemoveWhitespace(raw);
    TrailingToken(clean);
    var tok := Split(clean, MajorSep)[0];
    if tok == FileTag {
      TrailingFile(clean, st.lnum);
      SameFileDispatch(st, raw, raw + [MinorSep], clean, clean + [MinorSep]);
    } else if tok == ParamsTag {
      TrailingParams(raw, st.lnum);
      SameParamsDispatch(st, raw, raw + [MinorSep], clean, clean + [MinorSep]);
    } else if tok == FormatTag {
      TrailingFormat(clean, st.lnum);
      SameFormatDispatch(st, raw, raw + [MinorSep], clean, clean + [MinorSep]);
    } else {
      SameOtherDispatch(st, raw, raw + [MinorSep], clean, clean + [MinorSep]);
    }
  }

  lemma {:induction false} TrailingToken(clean: string)
    requires MajorSep in clean && clean[|clean| - 1] != MajorSep && clean[|clean| - 1] != MinorSep
    ensures Split(clean + [MinorSep], MajorSep)[0] == Split(clean, MajorSep)[0]
  {
    TrailingSplit(clean);
  }

  lemma {:induction false} TrailingFile(clean: string, lnum: nat)
    requires MajorSep in clean && clean[|clean| - 1] != MajorSep && clean[|clean| - 1] != MinorSep
    ensures FileDirective(Split(clean + [MinorSep], MajorSep), lnum) == FileDirective(Split(clean, MajorSep), lnum)
  {
    TrailingSplit(clean);
    var maj := Split(clean, MajorSep);
    if |maj| == 3 {
      TrailingFile3(maj, Split(clean + [MinorSep], MajorSep), lnum);
    } else {
      CountKept(maj, Split(clean + [MinorSep], MajorSep), lnum);
    }
  }

  lemma {:induction false} TrailingFile3(maj: seq<string>, maj': seq<string>, lnum: nat)
    requires |maj| == 3 && maj[2] != [] && maj[2][|maj[2]| - 1] != MinorSep
    requires maj' == maj[..2] + [maj[2] + [MinorSep]]
    ensures FileDirective(maj', lnum) == FileDirective(maj, lnum)
  {
    assert maj == [maj[0], maj[1], maj[2]];
    assert maj' == [maj[0], maj[1], maj[2] + [MinorSep]];
    FileTrailingSemicolon(maj[0], maj[1], maj[2], lnum);
  }

  lemma {:induction false} TrailingFormat(clean: string, lnum: nat)
    requires MajorSep in clean && clean[|clean| - 1] != MajorSep && clean[|clean| - 1] != MinorSep
    ensures FormatDirective(Split(clean + [MinorSep], MajorSep), lnum) == FormatDirective(Split(clean, MajorSep), lnum)
  {
    TrailingSplit(clean);
    var maj := Split(clean, MajorSep);
    if |maj| == 2 {
      TrailingFormat2(maj, Split(clean + [MinorSep], MajorSep), lnum);
    } else {
      CountKept(maj, Split(clean + [MinorSep], MajorSep), lnum);
    }
  }

  lemma {:induction false} TrailingFormat2(maj: seq<string>, maj': seq<string>, lnum: nat)
    requires |maj| == 2 && maj[1] != [] && maj[1][|maj[1]| - 1] != MinorSep
    requires maj' == maj[..1] + [maj[1] + [MinorSep]]
    ensures FormatDirective(maj', lnum) == FormatDirective(maj, lnum)
  {
    assert maj == [maj[0], maj[1]];
    assert maj' == [maj[0], maj[1] + [MinorSep]];
    FormatTrailingSemicolon(maj[0], maj[1], lnum);
  }

  /** Lines with the same wrong number of ':'-parts raise the same error. */
  lemma {:induction false} CountKept(maj: seq<string>, maj': seq<string>, lnum: nat)
    requires |maj'| == |maj|
    ensures |maj| != 3 ==> FileDirective(maj', lnum) == FileDirective(maj, lnum)
    ensures |maj| != 2 ==> FormatDirective(maj', lnum) == FormatDirective(maj, lnum)
  {
  }

  /** Appending ';' to a line extends its last ':'-part only. */
  lemma {:induction false} TrailingSplit(clean: string)
    requires MajorSep in clean && clean[|clean| - 1] != MajorSep && clean[|clean| - 1] != MinorSep
    ensures var maj := Split(clean, MajorSep);
      && |maj| >= 2 && maj[|maj| - 1] != [] && maj[|maj| - 1][|maj[|maj| - 1]| - 1] != MinorSep
      && Split(clean + [MinorSep], MajorSep) == maj[..|maj| - 1] + [maj[|maj| - 1] + [MinorSep]]
  {
    SplitsInTwo(clean, MajorSep);
    SplitAppend(clean, [MinorSep], MajorSep);
    LastPartEnds(clean, MajorSep);
  }

  lemma {:induction false} TrailingParams(raw: string, lnum: nat)
    requires var clean := RemoveWhitespace(raw);
      MajorSep in clean && clean[|clean| - 1] != MajorSep && clean[|clean| - 1] != MinorSep
    requires RemoveWhitespace(raw + [MinorSep]) == RemoveWhitespace(raw) + [MinorSep]
    ensures ParamsDirective(Split(RemoveWhitespace(raw) + [MinorSep], MajorSep), raw + [MinorSep], lnum) ==
      ParamsDirective(Split(RemoveWhitespace(raw), MajorSep), raw, lnum)
  {
    var clean := RemoveWhitespace(raw);
    TrailingSplit(clean);
    var maj := Split(clean, MajorSep);
    if |maj| == 2 {
      ParamsTrailingSemicolon(maj, raw, lnum);
    } else {
      ParamsCountKept(maj, Split(clean + [MinorSep], MajorSep), raw, raw + [MinorSep], lnum);
    }
  }

  /** Two `__params__` lines with the same wrong number of ':'-parts raise
      the same error. */
  lemma {:induction false} ParamsCountKept(maj: seq<string>, maj': seq<string>, raw: string, raw': string, lnum: nat)
    requires Split(RemoveWhitespace(raw), MajorSep) == maj
    requires Split(RemoveWhitespace(raw'), MajorSep) == maj'
    requires |maj| == |maj'| != 2
    ensures ParamsDirective(maj', raw', lnum) == ParamsDirective(maj, raw, lnum)
  {
  }

  /** Two `__file__` lines whose reads agree take the same turn. */
  lemma {:induction false} SameFileDispatch(st: State, raw: string, raw': string, clean: string, clean': string)
    requires clean == RemoveWhitespace(raw) && clean' == RemoveWhitespace(raw')
    requires Split(clean', MajorSep)[0] == Split(clean, MajorSep)[0] == FileTag
    requires FileDirective(Split(clean', MajorSep), st.lnum) == FileDirective(Split(clean, MajorSep), st.lnum)
    ensures Directive(st, raw', clean') == Directive(st, raw, clean)
  {
  }

  /** Two `__params__` lines whose reads agree take the same turn. */
  lemma {:induction false} SameParamsDispatch(st: State, raw: string, raw': string, clean: string, clean': string)
    requires clean == RemoveWhitespace(raw) && clean' == RemoveWhitespace(raw')
    requires Split(clean', MajorSep)[0] == Split(clean, MajorSep)[0] == ParamsTag
    requires ParamsDirective(Split(clean', MajorSep), raw', st.lnum) == ParamsDirective(Split(clean, MajorSep), raw, st.lnum)
    ensures Directive(st, raw', clean') == Directive(st, raw, clean)
  {
  }

  /** Two `__format__` lines whose reads agree take the same turn. */
  lemma {:induction false} SameFormatDispatch(st: State, raw: string, raw': string, clean: string, clean': string)
    requires clean == RemoveWhitespace(raw) && clean' == RemoveWhitespace(raw')
    requires Split(clean', MajorSep)[0] == Split(clean, MajorSep)[0] == FormatTag
    requires FormatDirective(Split(clean', MajorSep), st.lnum) == FormatDirective(Split(clean, MajorSep), st.lnum)
    ensures Directive(st, raw', clean') == Directive(st, raw, clean)
  {
  }

  /** Two lines with the same leading token that is none of the three
      directives take the same turn. */
  lemma {:induction false} SameOtherDispatch(st: State, raw: string, raw': string, clean: string, clean': string)
    requires clean == RemoveWhitespace(raw) && clean' == RemoveWhitespace(raw')
    requires Split(clean', MajorSep)[0] == Split(clean, MajorSep)[0]
    requires Split(clean, MajorSep)[0] !in {FileTag, ParamsTag, FormatTag}
    ensures Directive(st, raw', clean') == Directive(st, raw, clean)
  {
  }
}
