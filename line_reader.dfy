/** The line normaliser at the top of `_cfparser`'s read loop: each physical
    line loses its comment and then its trailing whitespace, and a line
    ending in '\' is joined with the lines after it. The file is the
    sequence of its physical lines without their line terminators;
    `pos` is the index of the next line `readline` would return, and
    `pos == |lines|` is end of file. */
module LineReader {
  import opened PyStr
  import opened Tokens

  /** One physical line as the parser sees it: everything from the first
      '#' cut off, then trailing whitespace trimmed. */
  function Cut(line: string): (r: string)
    ensures CommentMark !in r
    ensures r != [] ==> !IsSpace(r[|r| - 1])
  {
    FirstPart(line, CommentMark);
    RStrip(Split(line, CommentMark)[0])
  }

  /** The text of a line before its first '\'. */
  function Piece(s: string): string {
    Split(s, LineBreak)[0]
  }

  /** Whether a cut line asks for the next line to be joined to it:
      `s.endswith("\\")`, see `ContinuesIsEndsWith`. */
  predicate Continues(s: string) {
    |s| > 0 && s[|s| - 1] == LineBreak
  }

  lemma {:induction false} ContinuesIsEndsWith(s: string)
    ensures Continues(s) <==> EndsWith(s, [LineBreak])
  {
    if |s| > 0 {
      assert s[|s| - 1..] == [s[|s| - 1]];
    }
  }

  /** The result of reading one logical line. */
  datatype LineRead =
      /** The joined text, the index of the next unread physical line, and
          the line counter after the last physical line read. */
    | Line(raw: string, next: nat, lnum: nat)
      /** A continuation met end of file or a line that is empty once cut;
          `lnum` counts that read too. */
    | BrokenLine(lnum: nat)

  /** Reads the logical line that starts at physical line `pos`, with `lnum`
      physical lines counted so far. Every physical line read is counted,
      and a broken continuation is only detected after at least two reads. */
  function ReadLogical(lines: seq<string>, pos: nat, lnum: nat): (r: LineRead)
    requires pos < |lines|
    ensures r.Line? ==> pos < r.next <= |lines| && r.lnum == lnum + (r.next - pos)
    ensures r.BrokenLine? ==> r.lnum >= lnum + 2
  {
    var first := Cut(lines[pos]);
    if Continues(first) then Continue(lines, pos + 1, lnum + 1, Piece(first))
    else Line(first, pos + 1, lnum + 1)
  }

  /** The continuation loop: `acc` holds the text joined so far. */
  function Continue(lines: seq<string>, pos: nat, lnum: nat, acc: string): (r: LineRead)
    requires pos <= |lines|
    ensures r.Line? ==> pos < r.next <= |lines| && r.lnum == lnum + (r.next - pos)
    ensures r.BrokenLine? ==> r.lnum > lnum
    decreases |lines| - pos
  {
    var next := if pos < |lines| then Cut(lines[pos]) else [];
    if |next| == 0 then BrokenLine(lnum + 1)
    else if Continues(next) then Continue(lines, pos + 1, lnum + 1, acc + Piece(next))
    else Line(acc + Piece(next), pos + 1, lnum + 1)
  }

  /** The normaliser as the source runs it: read, cut, and while the line
      ends in '\' keep reading and appending. */
  method ReadLogicalLine(lines: seq<string>, pos: nat, lnum: nat) returns (r: LineRead)
    requires pos < |lines|
    ensures r == ReadLogical(lines, pos, lnum)
  {
    var rawLine := Cut(lines[pos]);
    var n: nat := lnum + 1;
    if Continues(rawLine) {
      rawLine := Piece(rawLine);
      var p := pos + 1;
      while true
        invariant p <= |lines|
        invariant Continue(lines, p, n, rawLine) == ReadLogical(lines, pos, lnum)
        decreases |lines| - p
      {
        var rawNext := if p < |lines| then Cut(lines[p]) else [];
        n := n + 1;
        if |rawNext| == 0 {
          return BrokenLine(n);
        }
        rawLine := rawLine + Piece(rawNext);
        p := p + 1;
        if !Continues(rawNext) {
          return Line(rawLine, p, n);
        }
      }
    }
    return Line(rawLine, pos + 1, n);
  }

  // ----- properties of the normaliser -----

  /** Dropping the line terminator changes nothing: the newline `readline`
      keeps is whitespace and goes with the trailing trim. */
  lemma {:induction false} CutIgnoresNewline(s: string)
    ensures Cut(s + "\n") == Cut(s)
  {
    if CommentMark in s {
      SplitAppend(s, "\n", CommentMark);
      var p := Split(s, CommentMark);
      assert |p| > 1 by {
        if |p| == 1 { SplitJoin(s, CommentMark); }
      }
    } else {
      SplitNoSep(s, CommentMark);
      SplitNoSep(s + "\n", CommentMark);
      assert (s + "\n")[..|s|] == s;
    }
  }

  /** The comment goes first: text after '#' is gone before trailing
      whitespace is trimmed, so a '\' followed by spaces and a comment
      still continues the line. */
  lemma {:induction false} CommentCutFirst(p: string, comment: string)
    requires CommentMark !in p
    ensures Cut(p + [CommentMark] + comment) == RStrip(p)
    ensures Continues(RStrip(p)) ==> Continues(Cut(p + [CommentMark] + comment))
  {
    SplitAtSep(p, comment, CommentMark);
  }

  /** The text joined from physical lines `from` up to `to`, each
      contributing only what precedes its first '\'. */
  function Pieces(lines: seq<string>, from: nat, to: nat): string
    requires from <= to <= |lines|
    decreases (to as int) - (from as int)
  {
    if from == to then [] else Piece(Cut(lines[from])) + Pieces(lines, from + 1, to)
  }

  /** Physical lines `from` up to `to` form one continued line: each is
      non-empty once cut, and each but the last ends in '\'. */
  predicate ContinuedRun(lines: seq<string>, from: nat, to: nat)
    requires from < to <= |lines|
  {
    (forall i :: from <= i < to ==> Cut(lines[i]) != []) &&
    (forall i :: from <= i < to - 1 ==> Continues(Cut(lines[i]))) &&
    !Continues(Cut(lines[to - 1]))
  }

  /** A logical line is either one physical line that does not end in '\',
      taken whole, or a run of physical lines each ending in '\' but the
      last, all non-empty after the cut, joined from the text before the
      first '\' of each. */
  lemma {:induction false} JoinedLine(lines: seq<string>, pos: nat, lnum: nat)
    requires pos < |lines|
    ensures var r := ReadLogical(lines, pos, lnum);
      r.Line? ==>
        (r.next == pos + 1 ==> r.raw == Cut(lines[pos]) && !Continues(Cut(lines[pos]))) &&
        (r.next > pos + 1 ==> r.raw == Pieces(lines, pos, r.next) && ContinuedRun(lines, pos, r.next))
  {
    var first := Cut(lines[pos]);
    if Continues(first) {
      var acc := Piece(first);
      ContinueJoins(lines, pos + 1, lnum + 1, acc);
      var r := Continue(lines, pos + 1, lnum + 1, acc);
      if r.Line? {
        PiecesCons(lines, pos, r.next);
        ContinuedRunCons(lines, pos, r.next);
      }
    }
  }

  /** The continuation loop appends the pieces of the lines it reads. */
  lemma {:induction false} ContinueJoins(lines: seq<string>, pos: nat, lnum: nat, acc: string)
    requires pos <= |lines|
    ensures var r := Continue(lines, pos, lnum, acc);
      r.Line? ==> r.raw == acc + Pieces(lines, pos, r.next) && ContinuedRun(lines, pos, r.next)
    decreases |lines| - pos
  {
    ContinueAppends(lines, pos, lnum, acc);
    ContinueRun(lines, pos, lnum, acc);
  }

  lemma {:induction false} ContinueAppends(lines: seq<string>, pos: nat, lnum: nat, acc: string)
    requires pos <= |lines|
    ensures var r := Continue(lines, pos, lnum, acc);
      r.Line? ==> r.raw == acc + Pieces(lines, pos, r.next)
    decreases |lines| - pos
  {
    if pos < |lines| {
      var next := Cut(lines[pos]);
      if |next| > 0 {
        var acc' := acc + Piece(next);
        if Continues(next) {
          ContinueAppends(lines, pos + 1, lnum + 1, acc');
          var r := Continue(lines, pos + 1, lnum + 1, acc');
          if r.Line? {
            PiecesCons(lines, pos, r.next);
            AppendAssoc(acc, Piece(next), Pieces(lines, pos + 1, r.next));
          }
        } else {
          assert Pieces(lines, pos, pos + 1) == Piece(next);
        }
      }
    }
  }

  lemma {:induction false} ContinueRun(lines: seq<string>, pos: nat, lnum: nat, acc: string)
    requires pos <= |lines|
    ensures var r := Continue(lines, pos, lnum, acc);
      r.Line? ==> ContinuedRun(lines, pos, r.next)
    decreases |lines| - pos
  {
    if pos < |lines| {
      var next := Cut(lines[pos]);
      if |next| > 0 && Continues(next) {
        var acc' := acc + Piece(next);
        ContinueRun(lines, pos + 1, lnum + 1, acc');
        var r := Continue(lines, pos + 1, lnum + 1, acc');
        if r.Line? {
          ContinuedRunCons(lines, pos, r.next);
        }
      }
    }
  }

  lemma {:induction false} PiecesCons(lines: seq<string>, from: nat, to: nat)
    requires from < to <= |lines|
    ensures Pieces(lines, from, to) == Piece(Cut(lines[from])) + Pieces(lines, from + 1, to)
  {
  }

  lemma AppendAssoc(a: string, b: string, c: string)
    ensures (a + b) + c == a + (b + c)
  {
  }

  /** A non-empty line ending in '\\' in front of a continued run extends it. */
  lemma {:induction false} ContinuedRunCons(lines: seq<string>, from: nat, to: nat)
    requires from + 1 < to <= |lines|
    requires |Cut(lines[from])| > 0 && Continues(Cut(lines[from]))
    requires ContinuedRun(lines, from + 1, to)
    ensures ContinuedRun(lines, from, to)
  {
  }

  /** A '\' followed by end of file, a blank line or a comment-only line is
      a broken continuation, reported at the line after the '\'. */
  lemma {:induction false} BreakBeforeNothing(lines: seq<string>, pos: nat, lnum: nat)
    requires pos < |lines| && Continues(Cut(lines[pos]))
    requires pos + 1 == |lines| || Cut(lines[pos + 1]) == []
    ensures ReadLogical(lines, pos, lnum) == BrokenLine(lnum + 2)
  {
  }

  /** Reading does not look past the lines it joins: the same read on a
      longer file gives the same logical line. */
  lemma {:induction false} ReadLogicalExtend(lines: seq<string>, rest: seq<string>, pos: nat, lnum: nat)
    requires pos < |lines|
    requires ReadLogical(lines, pos, lnum).Line?
    ensures ReadLogical(lines + rest, pos, lnum) == ReadLogical(lines, pos, lnum)
  {
    assert (lines + rest)[pos] == lines[pos];
    var first := Cut(lines[pos]);
    if Continues(first) {
      ContinueExtend(lines, rest, pos + 1, lnum + 1, Piece(first));
    }
  }

  lemma {:induction false} ContinueExtend(lines: seq<string>, rest: seq<string>, pos: nat, lnum: nat, acc: string)
    requires pos <= |lines|
    requires Continue(lines, pos, lnum, acc).Line?
    ensures Continue(lines + rest, pos, lnum, acc) == Continue(lines, pos, lnum, acc)
    decreases |lines| - pos
  {
    assert pos < |lines|;
    assert (lines + rest)[pos] == lines[pos];
    var next := Cut(lines[pos]);
    if Continues(next) {
      ContinueExtend(lines, rest, pos + 1, lnum + 1, acc + Piece(next));
    }
  }
}
