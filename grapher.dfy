/** The main block of xy_grapher after its argument checks: parse the
    configuration, resolve the series against the data files, and hand the
    result to the plot. The data files are given as their tables of column
    names; the plot itself is the value handed to it. */
module Grapher {
  import opened Document
  import opened Parser
  import opened ParserProps
  import opened Resolver

  /** How a run ends: an exception out of `_cfparser`, the `TypeError` of
      `len(None)` when no `__format__` line was read, an unreadable data
      file, the `TypeError` of `g_params[2]` when no `__params__` line was
      read, or the call to the plot with its arguments (and whether the
      "not terminated" warning was printed during the parse). */
  datatype RunOutcome =
    | ConfigError(failure: ParseFailure)
    | ConfigCrash
    | SourceUnreadable(path: string)
    | ParamsCrash
    | Plot(xy: seq<XY>, labels: seq<string>, forms: FormSpecs, params: GraphParams, unterminated: bool)

  /** The run on the configuration lines `lines` and the data files
      `tables`. */
  function Graph(lines: seq<string>, tables: Tables): (r: RunOutcome)
    ensures r.ConfigError? <==> Parse(lines).Failed?
    ensures r == ConfigCrash <==> Parse(lines).Crashed?
    ensures r.Plot? ==>
      && Parse(lines).Parsed? && Parse(lines).doc.params == Some(r.params)
      && r.unterminated == !Parse(lines).doc.terminated
      && |r.xy| == |r.labels| && (r.forms.Broadcast? || |r.forms.specs| == |r.xy|)
  {
    match Parse(lines)
    case Failed(e) => ConfigError(e)
    case Crashed => ConfigCrash
    case Parsed(doc) =>
      ParsedIsWellFormed(lines);
      match Resolve(tables, doc.files, doc.formats)
      case Unreadable(p) => SourceUnreadable(p)
      case Resolution(xy, labels, forms) =>
        if doc.params.None? then ParamsCrash
        else Plot(xy, labels, forms, doc.params.value, !doc.terminated)
  }

  /** The main block as the source runs it: `_cfparser`, then the
      resolution loop, then the arguments of the plot call. */
  method RunGrapher(lines: seq<string>, tables: Tables) returns (r: RunOutcome)
    ensures r == Graph(lines, tables)
  {
    var parsed := ParseConfig(lines);
    match parsed {
      case Failed(e) =>
        return ConfigError(e);
      case Crashed =>
        return ConfigCrash;
      case Parsed(doc) =>
        ParsedIsWellFormed(lines);
        var res, _ := ResolveSeries(tables, doc.files, doc.formats);
        if res.Unreadable? {
          return SourceUnreadable(res.path);
        }
        if doc.params.None? {
          return ParamsCrash;
        }
        return Plot(res.xy, res.labels, res.forms, doc.params.value, !doc.terminated);
    }
  }

  /** The parser's guarantee is what the resolution loop needs: there is
      one format specifier, or one per series, so `g_fmt[fsi]` is always
      in range. */
  lemma {:induction false} ParsedFormatsFit(lines: seq<string>)
    requires Parse(lines).Parsed?
    ensures var doc := Parse(lines).doc;
      |doc.formats| == 1 || |doc.formats| == TotalSeries(doc.files)
  {
    ParsedIsWellFormed(lines);
  }

  /** Every plotted series has both its columns in its own file's table,
      the lists handed to the plot have equal lengths, and the formats are
      the single specifier or one per plotted series. */
  lemma {:induction false} PlotIsConsistent(lines: seq<string>, tables: Tables)
    requires Graph(lines, tables).Plot?
    ensures var p := Graph(lines, tables);
      && |p.xy| == |p.labels|
      && (forall j :: 0 <= j < |p.xy| ==>
            p.xy[j].x.path == p.xy[j].y.path && p.xy[j].x.path in tables
            && p.xy[j].x.name in tables[p.xy[j].x.path]
            && p.xy[j].y.name in tables[p.xy[j].y.path])
      && (p.forms.Broadcast? || |p.forms.specs| == |p.xy|)
  {
    var doc := Parse(lines).doc;
    ParsedIsWellFormed(lines);
    var refs := Flatten(doc.files);
    CollectIsKept(tables, refs, doc.formats);
    KeptIffComplete(tables, refs);
    var K := KeptIndices(tables, refs);
    assert forall j :: 0 <= j < |K| ==> K[j] in K;
  }

  /** A configuration that reached `__end__` never crashes on its params:
      `__end__` is only accepted once `__params__` was read. */
  lemma {:induction false} TerminatedHasParams(lines: seq<string>, tables: Tables)
    requires Parse(lines).Parsed? && Parse(lines).doc.terminated
    ensures Graph(lines, tables) != ParamsCrash
  {
    ParsedIsWellFormed(lines);
  }
}
