/** The three directives of an .xyc file, `__file__`, `__params__` and
    `__format__`, each checked and decoded from the major split of its line
    (the line split on ':' once all its whitespace is gone). */
module Directives {
  import opened PyStr
  import opened Tokens
  import opened Document

  /** The clauses of a ';'-separated list, a single trailing ';' ignored. */
  function Minor(body: string): seq<string> {
    DropTrailingEmpty(Split(body, MinorSep))
  }

  /** `Ok(xs + ys)` from `Ok(ys)`; an error is passed on. */
  function Prepend<T>(xs: seq<T>, r: Result<seq<T>>): Result<seq<T>> {
    match r
    case Ok(ys) => Ok(xs + ys)
    case Err(e) => Err(e)
  }

  // ----- __file__ -----

  /** A series clause has two or three ','-separated fields. */
  predicate ClauseOk(se: string) {
    2 <= |Split(se, SeriesSep)| <= 3
  }

  /** `s` is the series the clause `se` declares: x and y are its first two
      fields and the label its last, so a clause without a label is
      labelled with its y column. */
  predicate Declares(se: string, s: Series)
    requires ClauseOk(se)
  {
    var f := Split(se, SeriesSep);
    s.x == f[0] && s.y == f[1] && s.seriesLabel == f[|f| - 1]
  }

  /** The series of a file entry, clause by clause, or the error for the
      first clause with the wrong number of fields. */
  function Clauses(cs: seq<string>, lnum: nat): (r: Result<seq<Series>>)
    ensures r.Ok? <==> forall i :: 0 <= i < |cs| ==> ClauseOk(cs[i])
    ensures r.Ok? ==> |r.value| == |cs| && forall i :: 0 <= i < |cs| ==> Declares(cs[i], r.value[i])
    ensures r.Err? ==> exists i :: (
      && 0 <= i < |cs| && !ClauseOk(cs[i])
      && (forall j :: 0 <= j < i ==> ClauseOk(cs[j]))
      && r.failure == ParseError(SeriesTokenCount(|Split(cs[i], SeriesSep)|), lnum))
  {
    if cs == [] then Ok([])
    else
      var f := Split(cs[0], SeriesSep);
      if |f| < 2 || |f| > 3 then Err(ParseError(SeriesTokenCount(|f|), lnum))
      else
        var rest := Clauses(cs[1..], lnum);
        assert forall i :: 1 <= i < |cs| ==> cs[i] == cs[1..][i - 1];
        assert rest.Err? ==> exists i :: (
          && 1 <= i < |cs| && !ClauseOk(cs[i])
          && (forall j :: 0 <= j < i ==> ClauseOk(cs[j]))
          && rest.failure == ParseError(SeriesTokenCount(|Split(cs[i], SeriesSep)|), lnum));
        Prepend([Series(f[0], f[1], if |f| == 2 then f[1] else f[2])], rest)
  }

  /** What a well-formed `__file__` line looks like: exactly the directive,
      a path and a clause list, none empty; the path ends in ".csv"; no
      clause is empty (one trailing ';' aside) and each has 2 or 3 fields. */
  predicate FileLineOk(maj: seq<string>) {
    |maj| == 3 && |maj[1]| > 0 && |maj[2]| > 0 && EndsWith(maj[1], CsvExt) &&
    [] !in Minor(maj[2]) &&
    forall i :: 0 <= i < |Minor(maj[2])| ==> ClauseOk(Minor(maj[2])[i])
  }

  /** The `__file__` branch of the parser on the major split `maj`. */
  function FileDirective(maj: seq<string>, lnum: nat): (r: Result<FileEntry>)
    ensures r.Ok? <==> FileLineOk(maj)
    ensures r.Ok? ==>
      && r.value.path == maj[1] && r.value.series != []
      && |r.value.series| == |Minor(maj[2])|
      && forall i :: 0 <= i < |r.value.series| ==> Declares(Minor(maj[2])[i], r.value.series[i])
    ensures r.Err? ==> r.failure.ParseError? && r.failure.line == lnum
  {
    if |maj| != 3 then Err(ParseError(MajorTokenCount(3, |maj|), lnum))
    else if |maj[1]| == 0 || |maj[2]| == 0 then Err(ParseError(EmptyMajorToken, lnum))
    else if !EndsWith(maj[1], CsvExt) then Err(ParseError(NotCsv, lnum))
    else
      var cs := Minor(maj[2]);
      if [] in cs then Err(ParseError(ExtraneousMinorSep, lnum))
      else
        NonEmptyAfterDrop(maj[2], MinorSep);
        match Clauses(cs, lnum)
        case Err(e) => Err(e)
        case Ok(series) => Ok(FileEntry(maj[1], series))
  }

  /** The `__file__` branch as the source runs it: the checks in order, then
      a loop splitting each clause and appending its series. */
  method ParseFileEntry(maj: seq<string>, lnum: nat) returns (r: Result<FileEntry>)
    ensures r == FileDirective(maj, lnum)
  {
    if |maj| != 3 {
      return Err(ParseError(MajorTokenCount(3, |maj|), lnum));
    }
    if |maj[1]| == 0 || |maj[2]| == 0 {
      return Err(ParseError(EmptyMajorToken, lnum));
    }
    if !EndsWith(maj[1], CsvExt) {
      return Err(ParseError(NotCsv, lnum));
    }
    var minS := Split(maj[2], MinorSep);
    if minS[|minS| - 1] == [] {
      minS := minS[..|minS| - 1];
    }
    if [] in minS {
      return Err(ParseError(ExtraneousMinorSep, lnum));
    }
    assert minS == Minor(maj[2]);
    NonEmptyAfterDrop(maj[2], MinorSep);
    var series := SeriesLoop(minS, lnum);
    match series
    case Err(e) => return Err(e);
    case Ok(ss) => return Ok(FileEntry(maj[1], ss));
  }

  /** The loop over the clauses of a file entry: split each one, check its
      field count, give it its label and append it. */
  method SeriesLoop(cs: seq<string>, lnum: nat) returns (r: Result<seq<Series>>)
    ensures r == Clauses(cs, lnum)
  {
    var series: seq<Series> := [];
    assert cs[0..] == cs;
    assert Prepend(series, Clauses(cs, lnum)) == Clauses(cs, lnum) by {
      if Clauses(cs, lnum).Ok? {
        assert series + Clauses(cs, lnum).value == Clauses(cs, lnum).value;
      }
    }
    for k := 0 to |cs|
      invariant Clauses(cs, lnum) == Prepend(series, Clauses(cs[k..], lnum))
    {
      var serSe := Split(cs[k], SeriesSep);
      ClausesStep(cs, k, lnum);
      if |serSe| < 2 || |serSe| > 3 {
        return Err(ParseError(SeriesTokenCount(|serSe|), lnum));
      }
      if |serSe| == 2 {
        serSe := serSe + [serSe[1]];
      }
      PrependTwice(series, [Series(serSe[0], serSe[1], serSe[2])], Clauses(cs[k + 1..], lnum));
      series := series + [Series(serSe[0], serSe[1], serSe[2])];
    }
    assert cs[|cs|..] == [];
    assert series + [] == series;
    r := Ok(series);
  }

  /** One step of `Clauses`, from clause `k` on. */
  lemma {:induction false} ClausesStep(cs: seq<string>, k: nat, lnum: nat)
    requires k < |cs|
    ensures var f := Split(cs[k], SeriesSep);
      Clauses(cs[k..], lnum) ==
        if |f| < 2 || |f| > 3 then Err(ParseError(SeriesTokenCount(|f|), lnum))
        else Prepend([Series(f[0], f[1], if |f| == 2 then f[1] else f[2])], Clauses(cs[k + 1..], lnum))
  {
    assert cs[k..][1..] == cs[k + 1..];
  }

  lemma {:induction false} PrependTwice<T>(xs: seq<T>, ys: seq<T>, r: Result<seq<T>>)
    ensures Prepend(xs, Prepend(ys, r)) == Prepend(xs + ys, r)
  {
    if r.Ok? {
      assert xs + (ys + r.value) == (xs + ys) + r.value;
    }
  }

  /** A trailing ';' after the last clause is optional. */
  lemma {:induction false} FileTrailingSemicolon(tag: string, path: string, body: string, lnum: nat)
    requires body != [] && body[|body| - 1] != MinorSep
    ensures FileDirective([tag, path, body + [MinorSep]], lnum) == FileDirective([tag, path, body], lnum)
  {
    TrailingSepDropped(body, MinorSep);
  }

  // ----- __params__ -----

  /** The ','-separated fields of a `__params__` line's single clause. */
  function ParamFields(maj: seq<string>): seq<string>
    requires |maj| == 2 && |Minor(maj[1])| == 1
  {
    Split(Minor(maj[1])[0], SeriesSep)
  }

  /** What a well-formed `__params__` line looks like: the directive and one
      non-empty part holding one clause (a trailing ';' allowed) of exactly
      three fields, which may be empty. */
  predicate ParamsLineOk(maj: seq<string>) {
    |maj| == 2 && |maj[1]| > 0 && |Minor(maj[1])| == 1 && |ParamFields(maj)| == 3
  }

  /** The raw line's fields as the source cuts them once the clean line is
      known to be well formed: the text after the first ':' and before the
      first ';', split on ','. */
  function RawFields(raw: string): seq<string> {
    var parts := Split(raw, MajorSep);
    if |parts| < 2 then [] else Split(Split(parts[1], MinorSep)[0], SeriesSep)
  }

  /** Cutting the raw line gives the clean line's fields with their
      whitespace: the same three fields. */
  lemma {:induction false} RawFieldsMatch(raw: string, maj: seq<string>)
    requires Split(RemoveWhitespace(raw), MajorSep) == maj
    requires ParamsLineOk(maj)
    ensures |RawFields(raw)| == 3
    ensures forall i :: 0 <= i < 3 ==> RemoveWhitespace(RawFields(raw)[i]) == ParamFields(maj)[i]
  {
    SplitRemoveWhitespace(raw, MajorSep);
    var r1 := Split(raw, MajorSep)[1];
    assert maj[1] == RemoveWhitespace(r1);
    SplitRemoveWhitespace(r1, MinorSep);
    var r2 := Split(r1, MinorSep)[0];
    assert Minor(maj[1])[0] == Split(maj[1], MinorSep)[0] == RemoveWhitespace(r2);
    SplitRemoveWhitespace(r2, SeriesSep);
  }

  /** The `__params__` branch of the parser: the clean line `maj` is checked,
      and the labels are then taken from the raw line `raw` so that their
      inner spacing survives. */
  function ParamsDirective(maj: seq<string>, raw: string, lnum: nat): (r: Result<GraphParams>)
    requires Split(RemoveWhitespace(raw), MajorSep) == maj
    ensures r.Ok? <==> ParamsLineOk(maj)
    ensures r.Ok? ==> var f := ParamFields(maj);
      RemoveWhitespace(r.value.xLabel) == f[0] && Trimmed(r.value.xLabel) &&
      RemoveWhitespace(r.value.yLabel) == f[1] && Trimmed(r.value.yLabel) &&
      RemoveWhitespace(r.value.title) == f[2] && Trimmed(r.value.title)
    ensures r.Err? ==> r.failure.ParseError? && r.failure.line == lnum
  {
    if |maj| != 2 then Err(ParseError(MajorTokenCount(2, |maj|), lnum))
    else if |maj[1]| == 0 then Err(ParseError(EmptyMajorToken, lnum))
    else
      NonEmptyAfterDrop(maj[1], MinorSep);
      if |Minor(maj[1])| > 1 then Err(ParseError(MultipleParams, lnum))
      else if |ParamFields(maj)| != 3 then Err(ParseError(ParamCount(|ParamFields(maj)|), lnum))
      else
        RawFieldsMatch(raw, maj);
        var f := RawFields(raw);
        StripKeepsText(f[0]);
        StripKeepsText(f[1]);
        StripKeepsText(f[2]);
        Ok(GraphParams(Strip(f[0]), Strip(f[1]), Strip(f[2])))
  }

  /** Labels and title are the text written between the separators with
      only its surrounding whitespace removed: spaces inside a label
      survive although the line is checked without them. */
  lemma {:induction false} ParamsKeepSpacing(a: string, b: string, c: string, lnum: nat)
    requires MajorSep !in a && MinorSep !in a && SeriesSep !in a
    requires MajorSep !in b && MinorSep !in b && SeriesSep !in b
    requires MajorSep !in c && MinorSep !in c && SeriesSep !in c
    ensures var raw := ParamsTag + [MajorSep] + a + [SeriesSep] + b + [SeriesSep] + c;
      ParamsDirective(Split(RemoveWhitespace(raw), MajorSep), raw, lnum) ==
        Ok(GraphParams(Strip(a), Strip(b), Strip(c)))
  {
    var t := a + [SeriesSep] + b + [SeriesSep] + c;
    assert ParamsTag + [MajorSep] + a + [SeriesSep] + b + [SeriesSep] + c == ParamsTag + [MajorSep] + t;
    ThreeFields(a, b, c);
    assert MajorSep !in t && MinorSep !in t;
    ParamsFromClause(ParamsTag, t, lnum);
  }

  lemma {:induction false} ThreeFields(a: string, b: string, c: string)
    requires SeriesSep !in a && SeriesSep !in b && SeriesSep !in c
    ensures Split(a + [SeriesSep] + b + [SeriesSep] + c, SeriesSep) == [a, b, c]
  {
    SplitNoSep(c, SeriesSep);
    SplitAtSep(b, c, SeriesSep);
    assert a + [SeriesSep] + b + [SeriesSep] + c == a + [SeriesSep] + (b + [SeriesSep] + c);
    SplitAtSep(a, b + [SeriesSep] + c, SeriesSep);
  }

  /** A `__params__` line whose clause `t` has three fields and no ';' gives
      those fields, stripped. */
  lemma {:induction false} ParamsFromClause(tag: string, t: string, lnum: nat)
    requires MajorSep !in tag && MajorSep !in t && MinorSep !in t
    requires |Split(t, SeriesSep)| == 3
    ensures var raw := tag + [MajorSep] + t; var f := Split(t, SeriesSep);
      ParamsDirective(Split(RemoveWhitespace(raw), MajorSep), raw, lnum) ==
        Ok(GraphParams(Strip(f[0]), Strip(f[1]), Strip(f[2])))
  {
    var raw := tag + [MajorSep] + t;
    var maj := Split(RemoveWhitespace(raw), MajorSep);
    assert Split(raw, MajorSep) == [tag, t] by {
      SplitNoSep(t, MajorSep);
      SplitAtSep(tag, t, MajorSep);
    }
    assert maj == [RemoveWhitespace(tag), RemoveWhitespace(t)] by {
      SplitRemoveWhitespace(raw, MajorSep);
    }
    var w := RemoveWhitespace(t);
    assert |Split(w, SeriesSep)| == 3 by {
      SplitRemoveWhitespace(t, SeriesSep);
    }
    assert Split(w, MinorSep) == [w] by {
      SplitNoSep(t, MinorSep);
      SplitRemoveWhitespace(t, MinorSep);
    }
    assert w != [];
    assert ParamsLineOk(maj);
    assert RawFields(raw) == Split(t, SeriesSep) by {
      SplitNoSep(t, MinorSep);
    }
    ParamsOk(maj, raw, lnum);
  }

  /** On a well-formed line the result is the raw fields, stripped. */
  lemma {:induction false} ParamsOk(maj: seq<string>, raw: string, lnum: nat)
    requires Split(RemoveWhitespace(raw), MajorSep) == maj
    requires ParamsLineOk(maj)
    ensures |RawFields(raw)| == 3
    ensures ParamsDirective(maj, raw, lnum) ==
      Ok(GraphParams(Strip(RawFields(raw)[0]), Strip(RawFields(raw)[1]), Strip(RawFields(raw)[2])))
  {
    RawFieldsMatch(raw, maj);
  }

  /** A trailing ';' after the params clause is optional: it reaches the
      raw line too, and is cut off there with everything after the first
      ';'. */
  lemma {:induction false} ParamsTrailingSemicolon(maj: seq<string>, raw: string, lnum: nat)
    requires Split(RemoveWhitespace(raw), MajorSep) == maj
    requires |maj| == 2 && maj[1] != [] && maj[1][|maj[1]| - 1] != MinorSep
    ensures Split(RemoveWhitespace(raw + [MinorSep]), MajorSep) == [maj[0], maj[1] + [MinorSep]]
    ensures ParamsDirective([maj[0], maj[1] + [MinorSep]], raw + [MinorSep], lnum) ==
      ParamsDirective(maj, raw, lnum)
  {
    TrailingClean(maj, raw);
    TrailingSepDropped(maj[1], MinorSep);
    TrailingRaw(maj, raw);
  }

  /** The ';' lands at the end of the clean line's second part. */
  lemma {:induction false} TrailingClean(maj: seq<string>, raw: string)
    requires Split(RemoveWhitespace(raw), MajorSep) == maj
    requires |maj| == 2
    ensures Split(RemoveWhitespace(raw + [MinorSep]), MajorSep) == [maj[0], maj[1] + [MinorSep]]
  {
    RemoveWhitespaceAppendChar(raw, MinorSep);
    SplitAppend(RemoveWhitespace(raw), [MinorSep], MajorSep);
    assert maj[..1] == [maj[0]];
  }

  /** ... and at the end of the raw line's second part, where it is cut off
      with everything after the first ';'. */
  lemma {:induction false} TrailingRaw(maj: seq<string>, raw: string)
    requires Split(RemoveWhitespace(raw), MajorSep) == maj
    requires |maj| == 2
    ensures RawFields(raw + [MinorSep]) == RawFields(raw)
  {
    SplitRemoveWhitespace(raw, MajorSep);
    var parts := Split(raw, MajorSep);
    assert |parts| == 2;
    SplitAppend(raw, [MinorSep], MajorSep);
    assert parts[..1] == [parts[0]];
    assert Split(raw + [MinorSep], MajorSep) == [parts[0], parts[1] + [MinorSep]];
    SplitAppendSep(parts[1], MinorSep);
  }

  /** `for i in range(len(p)): p[i] = p[i].strip()`. */
  method StripEach(fields: seq<string>) returns (r: seq<string>)
    ensures |r| == |fields|
    ensures forall i :: 0 <= i < |r| ==> r[i] == Strip(fields[i])
  {
    r := fields;
    for i := 0 to |r|
      invariant |r| == |fields|
      invariant forall j :: 0 <= j < i ==> r[j] == Strip(fields[j])
      invariant forall j :: i <= j < |r| ==> r[j] == fields[j]
    {
      r := r[i := Strip(r[i])];
    }
  }

  /** The `__params__` branch as the source runs it. */
  method ParseParams(maj: seq<string>, raw: string, lnum: nat) returns (r: Result<GraphParams>)
    requires Split(RemoveWhitespace(raw), MajorSep) == maj
    ensures r == ParamsDirective(maj, raw, lnum)
  {
    if |maj| != 2 {
      return Err(ParseError(MajorTokenCount(2, |maj|), lnum));
    }
    if |maj[1]| == 0 {
      return Err(ParseError(EmptyMajorToken, lnum));
    }
    var prms := Split(maj[1], MinorSep);
    if prms[|prms| - 1] == [] {
      prms := prms[..|prms| - 1];
    }
    NonEmptyAfterDrop(maj[1], MinorSep);
    if |prms| > 1 {
      return Err(ParseError(MultipleParams, lnum));
    }
    var gParams := Split(prms[0], SeriesSep);
    if |gParams| != 3 {
      return Err(ParseError(ParamCount(|gParams|), lnum));
    }
    RawFieldsMatch(raw, maj);
    gParams := Split(Split(Split(raw, MajorSep)[1], MinorSep)[0], SeriesSep);
    gParams := StripEach(gParams);
    r := Ok(GraphParams(gParams[0], gParams[1], gParams[2]));
  }

  // ----- __format__ -----

  /** The format specifiers the parser accepts: none empty; when there are
      several, none longer than two characters; a lone one either at most
      two characters long or `AUTO_FORMAT`. */
  predicate ValidFormats(g: seq<string>) {
    (forall i :: 0 <= i < |g| ==> |g[i]| > 0) &&
    (|g| > 1 ==> forall i :: 0 <= i < |g| ==> |g[i]| <= 2) &&
    (|g| == 1 ==> |g[0]| <= 2 || g[0] == AutoFormat)
  }

  /** The per-specifier loop: the first empty specifier, or the first over
      two characters when `many`, is reported. */
  function SpecCheck(specs: seq<string>, many: bool, lnum: nat): (r: Option<ParseFailure>)
    ensures r.None? <==> forall i :: 0 <= i < |specs| ==> |specs[i]| > 0 && (many ==> |specs[i]| <= 2)
    ensures r.Some? ==>
      && r.value.GraphFormatError? && r.value.line == lnum
      && r.value.formatReason in {EmptySpec, SpecTooLong}
  {
    if specs == [] then None
    else if |specs[0]| == 0 then Some(GraphFormatError(EmptySpec, lnum))
    else if many && |specs[0]| > 2 then Some(GraphFormatError(SpecTooLong, lnum))
    else
      assert forall i :: 1 <= i < |specs| ==> specs[i] == specs[1..][i - 1];
      SpecCheck(specs[1..], many, lnum)
  }

  /** The specifiers of a `__format__` line's single clause. */
  function FormatFields(maj: seq<string>): seq<string>
    requires |maj| == 2 && |Minor(maj[1])| == 1
  {
    Split(Minor(maj[1])[0], SeriesSep)
  }

  /** The `__format__` line has the right shape: the directive and one
      non-empty part holding one clause (a trailing ';' allowed). */
  predicate FormatLineShaped(maj: seq<string>) {
    |maj| == 2 && |maj[1]| > 0 && |Minor(maj[1])| == 1
  }

  /** The `__format__` branch of the parser: the specifiers, or the error. A
      shape error is a `ParseError`; bad specifiers in a well-shaped line
      are a `GraphFormatError`. */
  function FormatDirective(maj: seq<string>, lnum: nat): (r: Result<seq<string>>)
    ensures r.Ok? <==> FormatLineShaped(maj) && ValidFormats(FormatFields(maj))
    ensures r.Ok? ==> r.value == FormatFields(maj) && |r.value| >= 1
    ensures r.Err? ==>
      && (r.failure.GraphFormatError? <==> FormatLineShaped(maj))
      && (r.failure.ParseError? <==> !FormatLineShaped(maj))
      && (r.failure.ParseError? || r.failure.GraphFormatError?)
      && r.failure.line == lnum
  {
    if |maj| != 2 then Err(ParseError(MajorTokenCount(2, |maj|), lnum))
    else if |maj[1]| == 0 then Err(ParseError(EmptyMajorToken, lnum))
    else
      NonEmptyAfterDrop(maj[1], MinorSep);
      if |Minor(maj[1])| > 1 then Err(ParseError(MultipleFormats, lnum))
      else
        var g := FormatFields(maj);
        match SpecCheck(g, |g| > 1, lnum)
        case Some(e) => Err(e)
        case None =>
          if |g| == 1 && g[0] != AutoFormat && |g[0]| > 2 then
            Err(GraphFormatError(SingleSpecTooLong, lnum))
          else Ok(g)
  }

  /** A trailing ';' after the format clause is optional. */
  lemma {:induction false} FormatTrailingSemicolon(tag: string, body: string, lnum: nat)
    requires body != [] && body[|body| - 1] != MinorSep
    ensures FormatDirective([tag, body + [MinorSep]], lnum) == FormatDirective([tag, body], lnum)
  {
    TrailingSepDropped(body, MinorSep);
  }

  /** The per-specifier loop as the source runs it. */
  method CheckSpecs(g: seq<string>, lnum: nat) returns (r: Option<ParseFailure>)
    ensures r == SpecCheck(g, |g| > 1, lnum)
  {
    for k := 0 to |g|
      invariant SpecCheck(g, |g| > 1, lnum) == SpecCheck(g[k..], |g| > 1, lnum)
    {
      assert g[k..][1..] == g[k + 1..];
      if |g[k]| == 0 {
        return Some(GraphFormatError(EmptySpec, lnum));
      }
      if |g| > 1 && |g[k]| > 2 {
        return Some(GraphFormatError(SpecTooLong, lnum));
      }
    }
    return None;
  }

  /** The `__format__` branch as the source runs it. */
  method ParseFormat(maj: seq<string>, lnum: nat) returns (r: Result<seq<string>>)
    ensures r == FormatDirective(maj, lnum)
  {
    if |maj| != 2 {
      return Err(ParseError(MajorTokenCount(2, |maj|), lnum));
    }
    if |maj[1]| == 0 {
      return Err(ParseError(EmptyMajorToken, lnum));
    }
    var fmtS := Split(maj[1], MinorSep);
    if fmtS[|fmtS| - 1] == [] {
      fmtS := fmtS[..|fmtS| - 1];
    }
    NonEmptyAfterDrop(maj[1], MinorSep);
    if |fmtS| > 1 {
      return Err(ParseError(MultipleFormats, lnum));
    }
    var gFmt := Split(fmtS[0], SeriesSep);
    var bad := CheckSpecs(gFmt, lnum);
    if bad.Some? {
      return Err(bad.value);
    }
    if |gFmt| == 1 && gFmt[0] != AutoFormat && |gFmt[0]| > 2 {
      return Err(GraphFormatError(SingleSpecTooLong, lnum));
    }
    r := Ok(gFmt);
  }
}
