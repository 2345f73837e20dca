/** The parser's error classes and the values it builds: series clauses,
    file entries, graph parameters and the parsed document. */
module Document {

  /** What a `ParseError` complains about (its message, as a value). */
  datatype Reason =
    | PrematureEof                              // EOF before any __file__ entry
    | EofInContinuedLine                        // blank, comment-only or EOF after a '\'
    | DuplicateHead                             // a second __xyc__
    | PrematureEnd                              // __end__ before file, params or format
    | MissingToken                              // the line starts with ':'
    | OutOfPlace(token: string)                 // a recognised token that is not a directive
    | MajorTokenCount(expected: nat, received: nat)
    | EmptyMajorToken                           // an empty part after a directive
    | NotCsv                                    // the path does not end in ".csv"
    | ExtraneousMinorSep                        // an empty series clause
    | SeriesTokenCount(received: nat)           // a clause without 2 or 3 fields
    | DuplicateParams
    | MultipleParams                            // params with a ';' inside
    | ParamCount(received: nat)                 // params without 3 fields
    | DuplicateFormat
    | MultipleFormats                           // format with a ';' inside

  /** What a `GraphFormatError` complains about. */
  datatype FormatReason =
    | EmptySpec                                 // an empty format specifier
    | SpecTooLong                               // more than 2 characters among several specifiers
    | SingleSpecTooLong                         // a lone specifier over 2 characters, not AUTO_FORMAT
    | SpecCount(series: nat, received: nat)     // neither 1 nor one per series

  /** The exceptions `_cfparser` raises, each with the line it was raised at. */
  datatype ParseFailure =
    | ParseError(reason: Reason, line: nat)
    | EmptyFileError
    | ActivationError(line: nat)
    | IllegalTokenError(token: string, line: nat)
    | GraphFormatError(formatReason: FormatReason, line: nat)

  /** A value, or the exception that stopped the parse. */
  datatype Result<T> = Ok(value: T) | Err(failure: ParseFailure)

  /** One series clause `x, y[, label]`. */
  datatype Series = Series(x: string, y: string, seriesLabel: string)

  /** One `__file__` line: the CSV path and its series, in clause order. */
  datatype FileEntry = FileEntry(path: string, series: seq<Series>)

  /** The three `__params__` fields. */
  datatype GraphParams = GraphParams(xLabel: string, yLabel: string, title: string)

  /** What `_cfparser` returns: the file entries, the params (still `None`
      when the file never declared them) and the format specifiers, and
      whether `__end__` was seen (when not, a warning is printed). */
  datatype Document = Document(
    files: seq<FileEntry>,
    params: Option<GraphParams>,
    formats: seq<string>,
    terminated: bool)

  datatype Option<T> = None | Some(value: T)

  /** The end of a parse: a document, an exception, or the `TypeError` of
      `len(g_fmt)` on a file that reached EOF without a `__format__` line. */
  datatype Outcome = Parsed(doc: Document) | Failed(failure: ParseFailure) | Crashed

  /** Number of series over all file entries (`nent`). When every entry
      has a series, there are at least as many series as entries. */
  function TotalSeries(files: seq<FileEntry>): (n: nat)
    ensures (forall i :: 0 <= i < |files| ==> files[i].series != []) ==> n >= |files|
  {
    if files == [] then 0
    else
      var init := files[..|files| - 1];
      assert forall i :: 0 <= i < |init| ==> init[i] == files[i];
      TotalSeries(init) + |files[|files| - 1].series|
  }

  /** The post-loop count of series: a loop over the file entries adding
      each entry's number of clauses. */
  method CountSeries(files: seq<FileEntry>) returns (nent: nat)
    ensures nent == TotalSeries(files)
  {
    nent := 0;
    for i := 0 to |files|
      invariant nent == TotalSeries(files[..i])
    {
      assert files[..i + 1][..i] == files[..i];
      nent := nent + |files[i].series|;
    }
    assert files[..|files|] == files;
  }
}
