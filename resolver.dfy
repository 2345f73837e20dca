/** The series-resolution loop of xy_grapher's main block: every series
    clause of every file entry is looked up in its file's table, complete
    series are kept in order with their labels, and the format specifiers
    are picked per series (by the global series index `fsi`) or one
    specifier is broadcast to all of them. A table is the set of column
    names of one CSV file; a series value stands for the column it is read
    from. */
module Resolver {
  import opened Document

  /** The column names of each readable CSV file, by path. A path that is
      not a key is a file that cannot be opened or read. */
  type Tables = map<string, set<string>>

  /** The values of one column of one file (`df_ent[x_lab]`). */
  datatype Column = Column(path: string, name: string)

  /** One series to plot: its x and y columns. */
  datatype XY = XY(x: Column, y: Column)

  /** `form_specs` as the plot receives it: the single specifier of a
      one-specifier file, or the list picked per kept series. */
  datatype FormSpecs = Broadcast(spec: string) | PerSeries(specs: seq<string>)

  /** The end of the resolution loop: the series, labels and format
      specifiers to plot, or the first data file that could not be read
      (the program exits there). */
  datatype Resolved =
    | Resolution(xy: seq<XY>, labels: seq<string>, forms: FormSpecs)
    | Unreadable(path: string)

  /** One series clause together with the file it names columns of. */
  datatype Ref = Ref(path: string, series: Series)

  /** What the loop has appended so far: `xy_series`, `labels` and
      `form_specs`. */
  datatype Acc = Acc(xy: seq<XY>, labels: seq<string>, specs: seq<string>)

  /** The series clauses of one file entry, in clause order. */
  function Refs(e: FileEntry): (r: seq<Ref>)
    ensures |r| == |e.series|
    ensures forall i :: 0 <= i < |r| ==> r[i] == Ref(e.path, e.series[i])
  {
    seq(|e.series|, i requires 0 <= i < |e.series| => Ref(e.path, e.series[i]))
  }

  /** All series clauses in the order the loop visits them: the position of
      a clause here is its global index, the value `fsi` has when the loop
      reaches it. */
  function Flatten(files: seq<FileEntry>): (r: seq<Ref>)
    ensures |r| == TotalSeries(files)
  {
    if files == [] then []
    else Flatten(files[..|files| - 1]) + Refs(files[|files| - 1])
  }

  /** Both columns of the series exist in its file's table. */
  predicate Complete(tables: Tables, r: Ref) {
    r.path in tables && r.series.x in tables[r.path] && r.series.y in tables[r.path]
  }

  function XYOf(r: Ref): XY {
    XY(Column(r.path, r.series.x), Column(r.path, r.series.y))
  }

  /** The loop over the clauses `refs`: a complete series appends its
      columns and label, and, when there are several specifiers, the
      specifier at its global index; an incomplete one appends nothing. */
  function Collect(tables: Tables, refs: seq<Ref>, g: seq<string>): (a: Acc)
    requires |g| <= 1 || |refs| <= |g|
    ensures |a.xy| == |a.labels| <= |refs|
    ensures |g| > 1 ==> |a.specs| == |a.xy|
    ensures |g| <= 1 ==> a.specs == []
  {
    if refs == [] then Acc([], [], [])
    else
      var n := |refs| - 1;
      var a := Collect(tables, refs[..n], g);
      var r := refs[n];
      if Complete(tables, r) then
        Acc(a.xy + [XYOf(r)], a.labels + [r.series.seriesLabel],
            if |g| > 1 then a.specs + [g[n]] else a.specs)
      else a
  }

  /** The first file entry, in order, whose data file cannot be read: the
      path found is one of the entries' paths and cannot be read, and
      nothing is found only when every path can be read. */
  function FirstUnreadable(tables: Tables, files: seq<FileEntry>): (r: Option<string>)
    ensures r.Some? ==> r.value !in tables && exists k :: 0 <= k < |files| && files[k].path == r.value
    ensures r.None? ==> forall j :: 0 <= j < |files| ==> files[j].path in tables
  {
    if files == [] then None
    else if files[0].path !in tables then Some(files[0].path)
    else FirstUnreadable(tables, files[1..])
  }

  /** The resolution loop and the broadcast after it, on the parsed file
      entries and format specifiers `g`. Once the loop is through, the
      lists have equal lengths, the per-series format list has one
      specifier per kept series, and a single specifier is broadcast as it
      is. */
  function Resolve(tables: Tables, files: seq<FileEntry>, g: seq<string>): (r: Resolved)
    requires |g| <= 1 || TotalSeries(files) <= |g|
    ensures r.Resolution? ==>
      && |r.xy| == |r.labels| <= TotalSeries(files)
      && (|g| == 1 ==> r.forms == Broadcast(g[0]))
      && (|g| > 1 ==> r.forms.PerSeries? && |r.forms.specs| == |r.xy|)
  {
    match FirstUnreadable(tables, files)
    case Some(p) => Unreadable(p)
    case None =>
      var a := Collect(tables, Flatten(files), g);
      Resolution(a.xy, a.labels, if |g| == 1 then Broadcast(g[0]) else PerSeries(a.specs))
  }

  /** The nested loops as the source runs them: each file is opened (an
      unreadable one ends the program), each clause is checked for its x
      and y columns, and `fsi` advances for every clause, kept or not. */
  method ResolveSeries(tables: Tables, files: seq<FileEntry>, g: seq<string>)
    returns (out: Resolved, fsi: nat)
    requires |g| <= 1 || TotalSeries(files) <= |g|
    ensures out == Resolve(tables, files, g)
    ensures out.Resolution? ==> fsi == TotalSeries(files)
  {
    var xySeries: seq<XY> := [];
    var labels: seq<string> := [];
    var formSpecs: seq<string> := [];
    fsi := 0;
    ghost var seen: seq<Ref> := [];
    for k := 0 to |files|
      invariant forall j :: 0 <= j < k ==> files[j].path in tables
      invariant seen == Flatten(files[..k])
      invariant fsi == |seen| <= TotalSeries(files)
      invariant Acc(xySeries, labels, formSpecs) == Collect(tables, seen, g)
    {
      var ent := files[k];
      if ent.path !in tables {
        FirstUnreadableAt(tables, files, k);
        return Unreadable(ent.path), fsi;
      }
      ReadableStep(tables, files, k);
      FlattenStep(files, k);
      xySeries, labels, formSpecs, fsi :=
        ResolveEntry(tables, seen, ent, g, xySeries, labels, formSpecs, fsi);
      seen := seen + Refs(ent);
    }
    assert files[..|files|] == files;
    NoneUnreadable(tables, files);
    var forms := PerSeries(formSpecs);
    if |g| == 1 {
      forms := Broadcast(g[0]);
    }
    out := Resolution(xySeries, labels, forms);
  }

  /** The inner loop over the clauses of one readable file entry, from the
      lists built over the clauses `done` before it. */
  method ResolveEntry(tables: Tables, ghost done: seq<Ref>, ent: FileEntry, g: seq<string>,
                      xy0: seq<XY>, labels0: seq<string>, specs0: seq<string>, fsi0: nat)
    returns (xySeries: seq<XY>, labels: seq<string>, formSpecs: seq<string>, fsi: nat)
    requires ent.path in tables && fsi0 == |done|
    requires |g| <= 1 || |done| + |ent.series| <= |g|
    requires Acc(xy0, labels0, specs0) == Collect(tables, done, g)
    ensures fsi == fsi0 + |ent.series|
    ensures Acc(xySeries, labels, formSpecs) == Collect(tables, done + Refs(ent), g)
  {
    xySeries, labels, formSpecs, fsi := xy0, labels0, specs0, fsi0;
    var cols := tables[ent.path];
    ghost var seen := done;
    assert done + Refs(ent)[..0] == done;
    for i := 0 to |ent.series|
      invariant fsi == |seen| == |done| + i
      invariant seen == done + Refs(ent)[..i]
      invariant Acc(xySeries, labels, formSpecs) == Collect(tables, seen, g)
    {
      var s := ent.series[i];
      var isComplete := true;
      if s.x !in cols {
        isComplete := false;
      }
      if s.y !in cols {
        isComplete := false;
      }
      if isComplete {
        CollectKeeps(tables, seen, Ref(ent.path, s), g);
        xySeries := xySeries + [XY(Column(ent.path, s.x), Column(ent.path, s.y))];
        labels := labels + [s.seriesLabel];
        if |g| > 1 {
          formSpecs := formSpecs + [g[fsi]];
        }
      } else {
        CollectDrops(tables, seen, Ref(ent.path, s), g);
      }
      AppendNext(done, Refs(ent), i);
      seen := seen + [Ref(ent.path, s)];
      fsi := fsi + 1;
    }
    assert Refs(ent)[..|ent.series|] == Refs(ent);
  }

  // ----- helpers for the loop -----

  /** One more clause extends the flattened list by one entry, and the
      list of a prefix of the files never outgrows the whole. */
  lemma {:induction false} FlattenStep(files: seq<FileEntry>, k: nat)
    requires k < |files|
    ensures Flatten(files[..k + 1]) == Flatten(files[..k]) + Refs(files[k])
    ensures |Flatten(files[..k + 1])| <= TotalSeries(files)
  {
    assert files[..k + 1][..k] == files[..k];
    TotalSeriesPrefix(files, k + 1);
  }

  lemma {:induction false} TotalSeriesPrefix(files: seq<FileEntry>, k: nat)
    requires k <= |files|
    ensures TotalSeries(files[..k]) <= TotalSeries(files)
    decreases |files|
  {
    if k < |files| {
      TotalSeriesPrefix(files[..|files| - 1], k);
      assert files[..|files| - 1][..k] == files[..k];
    } else {
      assert files[..k] == files;
    }
  }

  lemma AppendNext<T>(a: seq<T>, b: seq<T>, i: nat)
    requires i < |b|
    ensures a + b[..i + 1] == (a + b[..i]) + [b[i]]
  {
    assert b[..i + 1] == b[..i] + [b[i]];
  }

  /** A complete clause appends its columns, its label and, with several
      specifiers, the one at its global index. */
  lemma {:induction false} CollectKeeps(tables: Tables, refs: seq<Ref>, r: Ref, g: seq<string>)
    requires |g| <= 1 || |refs| < |g|
    requires Complete(tables, r)
    ensures var a := Collect(tables, refs, g);
      Collect(tables, refs + [r], g) ==
        Acc(a.xy + [XYOf(r)], a.labels + [r.series.seriesLabel],
            if |g| > 1 then a.specs + [g[|refs|]] else a.specs)
  {
    assert (refs + [r])[..|refs|] == refs;
  }

  /** An incomplete clause appends nothing. */
  lemma {:induction false} CollectDrops(tables: Tables, refs: seq<Ref>, r: Ref, g: seq<string>)
    requires |g| <= 1 || |refs| < |g|
    requires !Complete(tables, r)
    ensures Collect(tables, refs + [r], g) == Collect(tables, refs, g)
  {
    assert (refs + [r])[..|refs|] == refs;
  }

  lemma ReadableStep(tables: Tables, files: seq<FileEntry>, k: nat)
    requires k < |files| && files[k].path in tables
    requires forall j :: 0 <= j < k ==> files[j].path in tables
    ensures forall j :: 0 <= j < k + 1 ==> files[j].path in tables
  {
  }

  lemma {:induction false} FirstUnreadableAt(tables: Tables, files: seq<FileEntry>, k: nat)
    requires k < |files| && files[k].path !in tables
    requires forall j :: 0 <= j < k ==> files[j].path in tables
    ensures FirstUnreadable(tables, files) == Some(files[k].path)
    decreases k
  {
    if k > 0 {
      FirstUnreadableAt(tables, files[1..], k - 1);
    }
  }

  lemma {:induction false} NoneUnreadable(tables: Tables, files: seq<FileEntry>)
    requires forall j :: 0 <= j < |files| ==> files[j].path in tables
    ensures FirstUnreadable(tables, files) == None
  {
    if files != [] {
      NoneUnreadable(tables, files[1..]);
    }
  }

  // ----- what the loop keeps -----

  /** The positions, in visiting order, of the complete series. */
  function KeptIndices(tables: Tables, refs: seq<Ref>): (K: seq<nat>)
    ensures forall j :: 0 <= j < |K| ==> K[j] < |refs|
  {
    if refs == [] then []
    else
      var n := |refs| - 1;
      KeptIndices(tables, refs[..n]) + (if Complete(tables, refs[n]) then [n] else [])
  }

  /** A series is kept if and only if both its columns exist. */
  lemma {:induction false} KeptIffComplete(tables: Tables, refs: seq<Ref>)
    ensures forall i :: 0 <= i < |refs| ==>
      (i in KeptIndices(tables, refs) <==> Complete(tables, refs[i]))
  {
    if refs != [] {
      var n := |refs| - 1;
      KeptIffComplete(tables, refs[..n]);
      var K := KeptIndices(tables, refs[..n]);
      forall i | 0 <= i < |refs|
        ensures i in KeptIndices(tables, refs) <==> Complete(tables, refs[i])
      {
        if i < n {
          assert refs[..n][i] == refs[i];
        }
      }
    }
  }

  /** Kept series stay in the order of their clauses. */
  lemma {:induction false} KeptInOrder(tables: Tables, refs: seq<Ref>)
    ensures forall a, b :: 0 <= a < b < |KeptIndices(tables, refs)| ==>
      KeptIndices(tables, refs)[a] < KeptIndices(tables, refs)[b]
  {
    if refs != [] {
      var n := |refs| - 1;
      KeptInOrder(tables, refs[..n]);
      var K := KeptIndices(tables, refs[..n]);
      var K' := KeptIndices(tables, refs);
      assert K' == K + (if Complete(tables, refs[n]) then [n] else []);
      forall a, b | 0 <= a < b < |K'|
        ensures K'[a] < K'[b]
      {
        assert K'[a] == K[a] < n;
        if b < |K| {
          assert K'[b] == K[b];
          assert K[a] < K[b];
        } else {
          assert K'[b] == n;
        }
      }
    }
  }

  /** The loop's lists are the kept series, in order, each with its own
      columns and its own label. */
  lemma {:induction false} CollectIsKept(tables: Tables, refs: seq<Ref>, g: seq<string>)
    requires |g| <= 1 || |refs| <= |g|
    ensures var a := Collect(tables, refs, g);
      var K := KeptIndices(tables, refs);
      && |a.xy| == |K|
      && (forall j :: 0 <= j < |K| ==> a.xy[j] == XYOf(refs[K[j]]))
      && (forall j :: 0 <= j < |K| ==> a.labels[j] == refs[K[j]].series.seriesLabel)
  {
    if refs != [] {
      var n := |refs| - 1;
      CollectIsKept(tables, refs[..n], g);
      var a := Collect(tables, refs[..n], g);
      var K := KeptIndices(tables, refs[..n]);
      PrefixAt(refs, n, K);
      if Complete(tables, refs[n]) {
        assert Collect(tables, refs, g).xy == a.xy + [XYOf(refs[n])];
        assert Collect(tables, refs, g).labels == a.labels + [refs[n].series.seriesLabel];
        assert KeptIndices(tables, refs) == K + [n];
      } else {
        assert Collect(tables, refs, g) == a;
        assert KeptIndices(tables, refs) == K;
      }
    }
  }

  /** With several specifiers, each kept series gets the specifier at its
      global index. */
  lemma {:induction false} SpecsByGlobalIndex(tables: Tables, refs: seq<Ref>, g: seq<string>)
    requires |g| > 1 && |refs| <= |g|
    ensures var a := Collect(tables, refs, g);
      var K := KeptIndices(tables, refs);
      |a.specs| == |K| && forall j :: 0 <= j < |K| ==> a.specs[j] == g[K[j]]
  {
    if refs != [] {
      var n := |refs| - 1;
      SpecsByGlobalIndex(tables, refs[..n], g);
      var a := Collect(tables, refs[..n], g);
      var K := KeptIndices(tables, refs[..n]);
      if Complete(tables, refs[n]) {
        assert Collect(tables, refs, g).specs == a.specs + [g[n]];
        assert KeptIndices(tables, refs) == K + [n];
      } else {
        assert Collect(tables, refs, g) == a;
        assert KeptIndices(tables, refs) == K;
      }
    }
  }

  lemma PrefixAt<T>(s: seq<T>, n: nat, K: seq<nat>)
    requires n <= |s|
    requires forall j :: 0 <= j < |K| ==> K[j] < n
    ensures forall j :: 0 <= j < |K| ==> s[..n][K[j]] == s[K[j]]
  {
  }

  /** The flattened clauses of the first entries come first. */
  lemma {:induction false} FlattenPrefix(files: seq<FileEntry>, m: nat)
    requires m <= |files|
    ensures Flatten(files[..m]) <= Flatten(files)
    decreases |files|
  {
    if m < |files| {
      var n := |files| - 1;
      FlattenPrefix(files[..n], m);
      assert files[..n][..m] == files[..m];
      PrefixGrows(Flatten(files[..m]), Flatten(files[..n]), Refs(files[n]));
      assert Flatten(files) == Flatten(files[..n]) + Refs(files[n]);
    } else {
      assert files[..m] == files;
    }
  }

  lemma PrefixGrows<T>(a: seq<T>, b: seq<T>, c: seq<T>)
    requires a <= b
    ensures a <= b + c
  {
    assert (b + c)[..|a|] == b[..|a|];
  }

  /** The global index of the `i`-th clause of file entry `k` is the
      number of clauses of the entries before it plus `i`: the value of
      `fsi` when the loop reaches that clause. */
  lemma {:induction false} GlobalIndex(files: seq<FileEntry>, k: nat, i: nat)
    requires k < |files| && i < |files[k].series|
    ensures TotalSeries(files[..k]) + i < TotalSeries(files)
    ensures Flatten(files)[TotalSeries(files[..k]) + i] == Ref(files[k].path, files[k].series[i])
  {
    IndexInHead(files, k, i);
    FlattenPrefix(files, k + 1);
  }

  lemma {:induction false} IndexInHead(files: seq<FileEntry>, k: nat, i: nat)
    requires k < |files| && i < |files[k].series|
    ensures var idx := TotalSeries(files[..k]) + i;
      && idx < |Flatten(files[..k + 1])| <= TotalSeries(files)
      && Flatten(files[..k + 1])[idx] == Ref(files[k].path, files[k].series[i])
  {
    FlattenStep(files, k);
    var a := Flatten(files[..k]);
    var b := Refs(files[k]);
    assert (a + b)[|a| + i] == b[i];
  }

  /** Unreadable files end the loop at the first of them, and only an
      unreadable file does. */
  lemma {:induction false} UnreadableIsFirst(tables: Tables, files: seq<FileEntry>, g: seq<string>)
    requires |g| <= 1 || TotalSeries(files) <= |g|
    ensures Resolve(tables, files, g).Unreadable? <==>
      exists k :: 0 <= k < |files| && files[k].path !in tables
    ensures var r := Resolve(tables, files, g);
      r.Unreadable? ==> exists k :: 0 <= k < |files| && files[k].path == r.path && r.path !in tables &&
                                   forall j :: 0 <= j < k ==> files[j].path in tables
  {
    UnreadableFound(tables, files);
  }

  lemma {:induction false} UnreadableFound(tables: Tables, files: seq<FileEntry>)
    ensures FirstUnreadable(tables, files).Some? <==>
      exists k :: 0 <= k < |files| && files[k].path !in tables
    ensures var p := FirstUnreadable(tables, files);
      p.Some? ==> exists k :: 0 <= k < |files| && files[k].path == p.value && p.value !in tables &&
                             forall j :: 0 <= j < k ==> files[j].path in tables
  {
    if files != [] && files[0].path in tables {
      UnreadableFound(tables, files[1..]);
      var p := FirstUnreadable(tables, files[1..]);
      if p.Some? {
        var k :| 0 <= k < |files[1..]| && files[1..][k].path == p.value && p.value !in tables &&
          forall j :: 0 <= j < k ==> files[1..][j].path in tables;
        assert files[k + 1].path == p.value;
        assert forall j :: 0 <= j < k + 1 ==> files[j].path in tables by {
          forall j | 0 <= j < k + 1 ensures files[j].path in tables {
            if j > 0 {
              assert files[j] == files[1..][j - 1];
            }
          }
        }
      } else {
        forall k | 0 <= k < |files|
          ensures files[k].path in tables
        {
          if k > 0 {
            assert files[k] == files[1..][k - 1];
          }
        }
      }
    } else if files != [] {
      assert files[0].path !in tables;
    }
  }
}
