/** `_cfparser`: the read loop over an .xyc configuration file and the checks
    after it. The loop is specified one logical line at a time by `StepOf`,
    iterated by `Run`; `Finish` is what happens once the loop is left.
    `ParseConfig` is the loop itself, proved equal to `Parse`. */
module Parser {
  import opened PyStr
  import opened Tokens
  import opened Document
  import opened LineReader
  import opened Directives

  /** The parser's variables between two logical lines. `has_params` and
      `has_format` are `params.Some?` and `formats.Some?`. */
  datatype State = State(
    pos: nat,                      // the next physical line to read
    lnum: nat,                     // physical lines read, the final EOF read included
    flnum: nat,                    // the line of the `__format__` directive
    active: bool,                  // `__xyc__` seen
    files: seq<FileEntry>,
    params: Option<GraphParams>,
    formats: Option<seq<string>>)

  /** The state before the first line is read. */
  const Start := State(0, 0, 0, false, [], None, None)

  /** What one turn of the read loop does: go round again, leave the loop
      (`exited` when through `__end__`), or raise. */
  datatype Step = Next(st: State) | Stop(st: State, exited: bool) | Fail(failure: ParseFailure)

  /** One turn of the loop: read a logical line (or meet end of file), then
      act on its whitespace-free form. */
  function StepOf(lines: seq<string>, st: State): (r: Step)
    requires st.pos <= |lines|
    ensures r.Next? ==> st.pos < r.st.pos <= |lines| && r.st.lnum - r.st.pos == st.lnum - st.pos
    ensures r.Stop? ==> r.st.pos <= |lines| && r.st.lnum > st.lnum
    ensures r.Stop? && r.st.active ==> r.st.files != [] && (r.exited ==> r.st.params.Some?)
  {
    if st.pos == |lines| then
      if st.files == [] then Fail(ParseError(PrematureEof, st.lnum + 1))
      else Stop(st.(lnum := st.lnum + 1), false)
    else
      match ReadLogical(lines, st.pos, st.lnum)
      case BrokenLine(n) => Fail(ParseError(EofInContinuedLine, n))
      case Line(raw, next, n) => LineStep(st.(pos := next, lnum := n), raw)
  }

  /** What the loop does with the logical line `raw` once it is read. */
  function LineStep(st: State, raw: string): (r: Step)
    ensures r.Next? ==> r.st.pos == st.pos && r.st.lnum == st.lnum
    ensures r.Stop? ==> r.st == st && (r.exited <==> st.active)
    ensures r.Stop? && r.exited ==> st.files != [] && st.params.Some? && st.formats.Some?
  {
    var clean := RemoveWhitespace(raw);
    if |clean| == 0 then Next(st)
    else if !st.active then
      if clean == HeadTag then Next(st.(active := true)) else Stop(st, false)
    else if clean == HeadTag then Fail(ParseError(DuplicateHead, st.lnum))
    else if clean == EndTag then
      if st.files == [] || st.params.None? || st.formats.None? then
        Fail(ParseError(PrematureEnd, st.lnum))
      else Stop(st, true)
    else Directive(st, raw, clean)
  }

  /** A line of an active file that is neither `__xyc__` nor `__end__`: its
      leading token picks the directive. */
  function Directive(st: State, raw: string, clean: string): (r: Step)
    requires clean == RemoveWhitespace(raw)
    ensures r.Next? ==> r.st.pos == st.pos && r.st.lnum == st.lnum && r.st.active == st.active
    ensures !r.Stop?
  {
    var maj := Split(clean, MajorSep);
    var tok := maj[0];
    if tok !in TokenValues then Fail(IllegalTokenError(tok, st.lnum))
    else if |tok| == 0 then Fail(ParseError(MissingToken, st.lnum))
    else if tok == FileTag then
      match FileDirective(maj, st.lnum)
      case Err(e) => Fail(e)
      case Ok(entry) => Next(st.(files := st.files + [entry]))
    else if tok == ParamsTag then
      if st.params.Some? then Fail(ParseError(DuplicateParams, st.lnum))
      else
        match ParamsDirective(maj, raw, st.lnum)
        case Err(e) => Fail(e)
        case Ok(p) => Next(st.(params := Some(p)))
    else if tok == FormatTag then
      if st.formats.Some? then Fail(ParseError(DuplicateFormat, st.lnum))
      else
        match FormatDirective(maj, st.lnum)
        case Err(e) => Fail(e)
        case Ok(g) => Next(st.(formats := Some(g), flnum := st.lnum))
    else Fail(ParseError(OutOfPlace(tok), st.lnum))
  }

  /** The directive branches of the loop as the source runs them: the
      leading token is checked against the token table, then the duplicate
      check and the directive's own checks run. */
  method ApplyDirective(st: State, raw: string, clean: string) returns (r: Step)
    requires clean == RemoveWhitespace(raw)
    ensures r == Directive(st, raw, clean)
  {
    var lnum := st.lnum;
    var majS := Split(clean, MajorSep);
    if majS[0] in TokenValues {
      if |majS[0]| == 0 {
        return Fail(ParseError(MissingToken, lnum));
      }
      if majS[0] != FileTag && majS[0] != ParamsTag && majS[0] != FormatTag {
        return Fail(ParseError(OutOfPlace(majS[0]), lnum));
      }
    } else {
      return Fail(IllegalTokenError(majS[0], lnum));
    }
    if majS[0] == FileTag {
      var entry := ParseFileEntry(majS, lnum);
      if entry.Err? {
        return Fail(entry.failure);
      }
      r := Next(st.(files := st.files + [entry.value]));
    } else if majS[0] == ParamsTag {
      if st.params.Some? {
        return Fail(ParseError(DuplicateParams, lnum));
      }
      var prms := ParseParams(majS, raw, lnum);
      if prms.Err? {
        return Fail(prms.failure);
      }
      r := Next(st.(params := Some(prms.value)));
    } else {
      if st.formats.Some? {
        return Fail(ParseError(DuplicateFormat, lnum));
      }
      var fmt := ParseFormat(majS, lnum);
      if fmt.Err? {
        return Fail(fmt.failure);
      }
      r := Next(st.(formats := Some(fmt.value), flnum := lnum));
    }
  }

  /** The loop from state `st` on, and the checks after it. */
  function Run(lines: seq<string>, st: State): (r: Outcome)
    requires st.pos <= |lines|
    ensures r.Parsed? ==> r.doc.files != [] && (r.doc.terminated ==> r.doc.params.Some?)
    decreases |lines| - st.pos
  {
    match StepOf(lines, st)
    case Next(st') => Run(lines, st')
    case Stop(st', exited) => Finish(st', exited)
    case Fail(e) => Failed(e)
  }

  lemma {:induction false} StepReads(lines: seq<string>, st: State, line: LineRead)
    requires st.pos < |lines| && line == ReadLogical(lines, st.pos, st.lnum) && line.Line?
    ensures StepOf(lines, st) == LineStep(st.(pos := line.next, lnum := line.lnum), line.raw)
  {
  }

  lemma {:induction false} RunNext(lines: seq<string>, st: State, st': State)
    requires st.pos <= |lines| && StepOf(lines, st) == Next(st')
    ensures st'.pos <= |lines| && Run(lines, st) == Run(lines, st')
  {
  }

  lemma {:induction false} RunStop(lines: seq<string>, st: State, st': State, exited: bool)
    requires st.pos <= |lines| && StepOf(lines, st) == Stop(st', exited)
    ensures Run(lines, st) == Finish(st', exited)
  {
  }

  /** The checks after the loop: the file must have been activated, the
      format specifiers must exist (`len(None)` raises otherwise), and there
      must be one of them or one per series. */
  function Finish(st: State, exited: bool): (r: Outcome)
    ensures r.Parsed? <==>
      st.active && st.formats.Some? &&
      (|st.formats.value| == 1 || |st.formats.value| == TotalSeries(st.files))
    ensures r.Parsed? ==> r.doc == Document(st.files, st.params, st.formats.value, exited)
    ensures r == Crashed <==> st.active && st.formats.None?
  {
    if !st.active then
      if st.lnum == 0 then Failed(EmptyFileError) else Failed(ActivationError(st.lnum))
    else
      match st.formats
      case None => Crashed
      case Some(f) =>
        var nent := TotalSeries(st.files);
        if |f| != 1 && |f| != nent then Failed(GraphFormatError(SpecCount(nent, |f|), st.flnum))
        else Parsed(Document(st.files, st.params, f, exited))
  }

  /** `_cfparser` on the file whose physical lines are `lines`. A parsed
      document has at least one file entry, and params whenever `__end__`
      was reached; an empty file is a premature end of file at line 1. */
  function Parse(lines: seq<string>): (r: Outcome)
    ensures r.Parsed? ==> r.doc.files != [] && (r.doc.terminated ==> r.doc.params.Some?)
    ensures lines == [] ==> r == Failed(ParseError(PrematureEof, 1))
  {
    Run(lines, Start)
  }

  /** `_cfparser` as the source runs it: a `while True` loop over logical
      lines, then the checks after it. The loop's variables are kept in a
      `State`; `has_params` and `has_format` are its `params.Some?` and
      `formats.Some?`. */
  method ParseConfig(lines: seq<string>) returns (r: Outcome)
    ensures r == Parse(lines)
  {
    var st := Start;
    var isExited := false;
    while true
      invariant st.pos <= |lines|
      invariant Run(lines, st) == Parse(lines)
      decreases |lines| - st.pos
    {
      var step := LoopTurn(lines, st);
      match step {
        case Fail(e) =>
          return Failed(e);
        case Stop(st', exited) =>
          st, isExited := st', exited;
          break;
        case Next(st') =>
          st := st';
      }
    }
    r := FinalChecks(st, isExited);
  }

  /** One turn of the read loop as the source runs it: read a line (EOF
      ends the loop, or raises when no file entry was read), join its
      continuations, drop its whitespace, then activate, skip, stop or
      hand it to the directives. */
  method LoopTurn(lines: seq<string>, st: State) returns (step: Step)
    requires st.pos <= |lines|
    ensures step == StepOf(lines, st)
  {
    if st.pos == |lines| {
      var lnum := st.lnum + 1;
      if |st.files| == 0 {
        return Fail(ParseError(PrematureEof, lnum));
      }
      return Stop(st.(lnum := lnum), false);
    }
    var line := ReadLogicalLine(lines, st.pos, st.lnum);
    if line.BrokenLine? {
      return Fail(ParseError(EofInContinuedLine, line.lnum));
    }
    var rawLine := line.raw;
    var read := st.(pos := line.next, lnum := line.lnum);
    StepReads(lines, st, line);
    var cleanLine := RemoveWhitespace(rawLine);
    if |cleanLine| == 0 {
      return Next(read);
    }
    if !read.active {
      if cleanLine == HeadTag {
        return Next(read.(active := true));
      }
      return Stop(read, false);
    }
    if cleanLine == HeadTag {
      return Fail(ParseError(DuplicateHead, read.lnum));
    }
    if cleanLine == EndTag {
      if |read.files| == 0 || read.params.None? || read.formats.None? {
        return Fail(ParseError(PrematureEnd, read.lnum));
      }
      return Stop(read, true);
    }
    step := ApplyDirective(read, rawLine, cleanLine);
  }

  /** The checks after the loop as the source runs them, the series count
      included. */
  method FinalChecks(st: State, exited: bool) returns (r: Outcome)
    ensures r == Finish(st, exited)
  {
    if !st.active {
      if st.lnum == 0 {
        return Failed(EmptyFileError);
      }
      return Failed(ActivationError(st.lnum));
    }
    var nent := CountSeries(st.files);
    if st.formats.None? {
      return Crashed;
    }
    var gFmt := st.formats.value;
    if |gFmt| != 1 && |gFmt| != nent {
      return Failed(GraphFormatError(SpecCount(nent, |gFmt|), st.flnum));
    }
    return Parsed(Document(st.files, st.params, gFmt, exited));
  }
}
