/** The few Python `str` operations the .xyc parser is built from, on
    strings as sequences of characters: `split` on one separator
    character, `rstrip`, `strip`, `endswith` and the idiom
    `"".join(s.split())` that deletes every whitespace character. */
module PyStr {

  /** `c.isspace()` for one character: the whitespace set of Python's
      argument-less `split()`, `strip()` and `rstrip()`. */
  predicate IsSpace(c: char) {
    ('\t' <= c <= '\r') || ('\U{1C}' <= c <= ' ') || c == '\U{85}' || c == '\U{A0}'
    || c == '\U{1680}' || ('\U{2000}' <= c <= '\U{200A}') || c == '\U{2028}'
    || c == '\U{2029}' || c == '\U{202F}' || c == '\U{205F}' || c == '\U{3000}'
  }

  /** Number of occurrences of `c` in `s`. */
  function Count(s: string, c: char): nat {
    if s == [] then 0 else (if s[0] == c then 1 else 0) + Count(s[1..], c)
  }

  /** `s.split(sep)`: k occurrences of `sep` give k + 1 parts (so never an
      empty list), none of which contains `sep`. */
  function Split(s: string, sep: char): (parts: seq<string>)
    ensures |parts| == Count(s, sep) + 1
    ensures forall i :: 0 <= i < |parts| ==> sep !in parts[i]
  {
    if s == [] then [[]]
    else
      var rest := Split(s[1..], sep);
      if s[0] == sep then [[]] + rest
      else [[s[0]] + rest[0]] + rest[1..]
  }

  /** `sep.join(parts)`, the inverse of `Split`. */
  function Join(parts: seq<string>, sep: char): string
    requires |parts| >= 1
  {
    if |parts| == 1 then parts[0] else parts[0] + [sep] + Join(parts[1..], sep)
  }

  /** `s.endswith(suffix)`. */
  predicate EndsWith(s: string, suffix: string) {
    |suffix| <= |s| && s[|s| - |suffix|..] == suffix
  }

  /** `s.rstrip()`: the longest prefix of `s` that does not end in whitespace;
      everything cut off is whitespace. */
  function RStrip(s: string): (r: string)
    ensures r <= s
    ensures forall i :: |r| <= i < |s| ==> IsSpace(s[i])
    ensures r != [] ==> !IsSpace(r[|r| - 1])
  {
    if s != [] && IsSpace(s[|s| - 1]) then RStrip(s[..|s| - 1]) else s
  }

  /** `s.lstrip()`: the longest suffix of `s` that does not start with
      whitespace; everything cut off is whitespace. */
  function LStrip(s: string): (r: string)
    ensures |r| <= |s| && r == s[|s| - |r|..]
    ensures forall i :: 0 <= i < |s| - |r| ==> IsSpace(s[i])
    ensures r != [] ==> !IsSpace(r[0])
  {
    if s != [] && IsSpace(s[0]) then LStrip(s[1..]) else s
  }

  /** No whitespace at either end. */
  predicate Trimmed(s: string) {
    s == [] || (!IsSpace(s[0]) && !IsSpace(s[|s| - 1]))
  }

  /** `s.strip()`: whitespace removed from both ends; the result has none at
      its ends (and keeps every non-whitespace character of `s`, see
      `StripKeepsText`). */
  function Strip(s: string): (r: string)
    ensures Trimmed(r)
  {
    LStrip(RStrip(s))
  }

  /** Stripping loses nothing but whitespace. */
  lemma {:induction false} StripKeepsText(s: string)
    ensures RemoveWhitespace(Strip(s)) == RemoveWhitespace(s)
  {
    RemoveWhitespaceStrip(s);
  }

  /** `"".join(s.split())`: `s` with every whitespace character deleted. */
  function RemoveWhitespace(s: string): (r: string)
    ensures |r| <= |s|
    ensures forall i :: 0 <= i < |r| ==> !IsSpace(r[i])
  {
    if s == [] then [] else (if IsSpace(s[0]) then [] else [s[0]]) + RemoveWhitespace(s[1..])
  }

  /** `if parts[-1] == "": parts.pop()`: drops one trailing empty part. */
  function DropTrailingEmpty(parts: seq<string>): (r: seq<string>)
    ensures r == parts || (parts != [] && parts[|parts| - 1] == [] && r == parts[..|parts| - 1])
  {
    if parts != [] && parts[|parts| - 1] == [] then parts[..|parts| - 1] else parts
  }

  /** `RemoveWhitespace` applied to every part. */
  function RemoveWhitespaceAll(parts: seq<string>): (r: seq<string>)
    ensures |r| == |parts|
  {
    seq(|parts|, i requires 0 <= i < |parts| => RemoveWhitespace(parts[i]))
  }

  // ----- Split and Join -----

  /** Joining the parts of a split gives back the string. */
  lemma {:induction false} SplitJoin(s: string, sep: char)
    ensures Join(Split(s, sep), sep) == s
  {
    if s != [] {
      SplitJoin(s[1..], sep);
      var rest := Split(s[1..], sep);
      if s[0] == sep {
        assert Split(s, sep) == [[]] + rest;
        assert s == [sep] + s[1..];
      } else {
        assert Split(s, sep) == [[s[0]] + rest[0]] + rest[1..];
        if |rest| > 1 {
          assert rest == [rest[0]] + rest[1..];
        }
        assert s == [s[0]] + s[1..];
      }
    }
  }

  /** Splitting at the first separator: the part before it comes first. */
  lemma {:induction false} SplitAtSep(p: string, t: string, sep: char)
    requires sep !in p
    ensures Split(p + [sep] + t, sep) == [p] + Split(t, sep)
  {
    if p == [] {
      assert p + [sep] + t == [sep] + t;
      assert ([sep] + t)[1..] == t;
    } else {
      SplitAtSep(p[1..], t, sep);
      assert (p + [sep] + t)[1..] == p[1..] + [sep] + t;
      assert [p[0]] + p[1..] == p;
    }
  }

  /** Splitting the join of separator-free parts gives back the parts. */
  lemma {:induction false} JoinSplit(parts: seq<string>, sep: char)
    requires |parts| >= 1
    requires forall i :: 0 <= i < |parts| ==> sep !in parts[i]
    ensures Split(Join(parts, sep), sep) == parts
  {
    if |parts| == 1 {
      SplitNoSep(parts[0], sep);
    } else {
      JoinSplit(parts[1..], sep);
      SplitAtSep(parts[0], Join(parts[1..], sep), sep);
    }
  }

  /** A string without the separator is its own single part. */
  lemma {:induction false} SplitNoSep(s: string, sep: char)
    requires sep !in s
    ensures Split(s, sep) == [s]
  {
    if s != [] {
      SplitNoSep(s[1..], sep);
      assert [s[0]] + s[1..] == s;
    }
  }

  /** The first part of a split is the text before the first separator. */
  lemma {:induction false} FirstPart(s: string, sep: char)
    ensures Split(s, sep)[0] <= s
    ensures |Split(s, sep)[0]| < |s| ==> s[|Split(s, sep)[0]|] == sep
    ensures sep !in s ==> Split(s, sep)[0] == s
  {
    if s != [] {
      FirstPart(s[1..], sep);
    }
  }

  /** A trailing separator adds exactly one empty part. */
  lemma {:induction false} SplitAppendSep(s: string, sep: char)
    ensures Split(s + [sep], sep) == Split(s, sep) + [[]]
  {
    if s == [] {
      assert [] + [sep] == [sep];
    } else {
      SplitAppendSep(s[1..], sep);
      assert (s + [sep])[1..] == s[1..] + [sep];
    }
  }

  /** Text without the separator appended at the end lengthens the last part. */
  lemma {:induction false} SplitAppend(s: string, t: string, sep: char)
    requires sep !in t
    ensures var p := Split(s, sep);
      Split(s + t, sep) == p[..|p| - 1] + [p[|p| - 1] + t]
  {
    if s == [] {
      SplitNoSep(t, sep);
      assert s + t == t;
    } else {
      SplitAppend(s[1..], t, sep);
      assert (s + t)[1..] == s[1..] + t;
      assert (s + t)[0] == s[0];
      var rest := Split(s[1..], sep);
      var restT := Split(s[1..] + t, sep);
      if s[0] == sep {
        assert Split(s, sep) == [[]] + rest;
        assert Split(s + t, sep) == [[]] + restT;
        LastGrowsUnderNewHead([], rest, restT, t);
      } else {
        assert Split(s, sep) == [[s[0]] + rest[0]] + rest[1..];
        assert Split(s + t, sep) == [[s[0]] + restT[0]] + restT[1..];
        LastGrowsUnderLongerHead(s[0], rest, restT, t);
      }
    }
  }

  /** Growing the last part survives a new first part. */
  lemma LastGrowsUnderNewHead(x: string, rest: seq<string>, restT: seq<string>, t: string)
    requires |rest| >= 1 && restT == rest[..|rest| - 1] + [rest[|rest| - 1] + t]
    ensures var p := [x] + rest;
      [x] + restT == p[..|p| - 1] + [p[|p| - 1] + t]
  {
    var p := [x] + rest;
    assert p[..|p| - 1] == [x] + rest[..|rest| - 1];
  }

  /** Growing the last part survives a character put in front of the first
      part. */
  lemma LastGrowsUnderLongerHead(c: char, rest: seq<string>, restT: seq<string>, t: string)
    requires |rest| >= 1 && restT == rest[..|rest| - 1] + [rest[|rest| - 1] + t]
    ensures var p := [[c] + rest[0]] + rest[1..];
      [[c] + restT[0]] + restT[1..] == p[..|p| - 1] + [p[|p| - 1] + t]
  {
    var n := |rest|;
    if n == 1 {
      assert restT == [rest[0] + t];
      assert [c] + (rest[0] + t) == ([c] + rest[0]) + t;
    } else {
      var p := [[c] + rest[0]] + rest[1..];
      assert restT[0] == rest[0];
      assert restT[1..] == rest[1..n - 1] + [rest[n - 1] + t];
      assert p[..|p| - 1] == [[c] + rest[0]] + rest[1..n - 1];
    }
  }

  /** A non-empty string keeps at least one part after the trailing empty
      part is dropped. */
  lemma {:induction false} NonEmptyAfterDrop(s: string, sep: char)
    requires s != []
    ensures DropTrailingEmpty(Split(s, sep)) != []
  {
    var p := Split(s, sep);
    if |p| == 1 {
      SplitJoin(s, sep);
    }
  }

  /** If `s` does not end in the separator, a trailing separator does not
      change the dropped split. */
  lemma {:induction false} TrailingSepDropped(s: string, sep: char)
    requires s != [] && s[|s| - 1] != sep
    ensures DropTrailingEmpty(Split(s + [sep], sep)) == DropTrailingEmpty(Split(s, sep))
    ensures DropTrailingEmpty(Split(s, sep)) == Split(s, sep)
  {
    SplitAppendSep(s, sep);
    LastPartNonEmpty(s, sep);
    var p := Split(s, sep);
    assert (p + [[]])[..|p|] == p;
  }

  /** The last part of a split is the text after the last separator, so it
      is not empty when `s` does not end in the separator. */
  lemma {:induction false} LastPartNonEmpty(s: string, sep: char)
    requires s != [] && s[|s| - 1] != sep
    ensures Split(s, sep)[|Split(s, sep)| - 1] != []
  {
    var rest := Split(s[1..], sep);
    if |s| > 1 {
      assert s[1..][|s[1..]| - 1] == s[|s| - 1];
      LastPartNonEmpty(s[1..], sep);
    }
  }

  /** ... and it ends where `s` ends. */
  lemma {:induction false} LastPartEnds(s: string, sep: char)
    requires s != [] && s[|s| - 1] != sep
    ensures var last := Split(s, sep)[|Split(s, sep)| - 1];
      last != [] && last[|last| - 1] == s[|s| - 1]
  {
    var rest := Split(s[1..], sep);
    var p := Split(s, sep);
    if |s| > 1 {
      assert s[1..][|s[1..]| - 1] == s[|s| - 1];
      LastPartEnds(s[1..], sep);
      var r := rest[|rest| - 1];
      if s[0] == sep {
        assert p[|p| - 1] == r;
      } else if |rest| == 1 {
        assert p[|p| - 1] == [s[0]] + r;
      } else {
        assert p[|p| - 1] == r;
      }
    }
  }

  /** A string holding the separator splits into at least two parts. */
  lemma {:induction false} SplitsInTwo(s: string, sep: char)
    requires sep in s
    ensures |Split(s, sep)| >= 2
  {
    if s[0] != sep {
      assert sep in s[1..] by {
        var i :| 0 <= i < |s| && s[i] == sep;
        assert s[1..][i - 1] == sep;
      }
      SplitsInTwo(s[1..], sep);
    }
  }

  // ----- whitespace -----

  /** Whitespace removal distributes over concatenation. */
  lemma {:induction false} RemoveWhitespaceAppend(a: string, b: string)
    ensures RemoveWhitespace(a + b) == RemoveWhitespace(a) + RemoveWhitespace(b)
  {
    if a == [] {
      assert a + b == b;
    } else {
      var head := if IsSpace(a[0]) then [] else [a[0]];
      var ab := a + b;
      assert ab[0] == a[0];
      assert ab[1..] == a[1..] + b;
      RemoveWhitespaceAppend(a[1..], b);
      calc {
        RemoveWhitespace(ab);
        head + RemoveWhitespace(ab[1..]);
        head + (RemoveWhitespace(a[1..]) + RemoveWhitespace(b));
        (head + RemoveWhitespace(a[1..])) + RemoveWhitespace(b);
      }
    }
  }

  /** Appending a non-space character survives whitespace removal. */
  lemma {:induction false} RemoveWhitespaceAppendChar(s: string, c: char)
    requires !IsSpace(c)
    ensures RemoveWhitespace(s + [c]) == RemoveWhitespace(s) + [c]
  {
    RemoveWhitespaceAppend(s, [c]);
    assert RemoveWhitespace([c]) == [c];
  }

  /** A string ending in a non-space character keeps something, and ends
      with that character, once its whitespace is removed. */
  lemma {:induction false} NonSpaceKept(s: string)
    requires s != [] && !IsSpace(s[|s| - 1])
    ensures RemoveWhitespace(s) != []
    ensures RemoveWhitespace(s)[|RemoveWhitespace(s)| - 1] == s[|s| - 1]
  {
    assert s == s[..|s| - 1] + [s[|s| - 1]];
    RemoveWhitespaceAppendChar(s[..|s| - 1], s[|s| - 1]);
  }

  /** A string made only of whitespace disappears. */
  lemma {:induction false} RemoveAllSpace(s: string)
    requires forall i :: 0 <= i < |s| ==> IsSpace(s[i])
    ensures RemoveWhitespace(s) == []
  {
    if s != [] {
      RemoveAllSpace(s[1..]);
    }
  }

  /** Stripping the ends loses nothing but whitespace. */
  lemma {:induction false} RemoveWhitespaceStrip(s: string)
    ensures RemoveWhitespace(LStrip(RStrip(s))) == RemoveWhitespace(s)
  {
    RemoveWhitespaceRStrip(s);
    RemoveWhitespaceLStrip(RStrip(s));
  }

  lemma {:induction false} RemoveWhitespaceRStrip(s: string)
    ensures RemoveWhitespace(RStrip(s)) == RemoveWhitespace(s)
  {
    var r := RStrip(s);
    var tail := s[|r|..];
    assert s == r + tail;
    RemoveWhitespaceAppend(r, tail);
    RemoveAllSpace(tail);
  }

  lemma {:induction false} RemoveWhitespaceLStrip(s: string)
    ensures RemoveWhitespace(LStrip(s)) == RemoveWhitespace(s)
  {
    var l := LStrip(s);
    var head := s[..|s| - |l|];
    assert s == head + l;
    RemoveWhitespaceAppend(head, l);
    RemoveAllSpace(head);
  }

  /** Deleting whitespace commutes with splitting on a non-space separator:
      the whitespace-free text has the same parts, each without its
      whitespace. */
  lemma {:induction false} SplitRemoveWhitespace(s: string, sep: char)
    requires !IsSpace(sep)
    ensures Split(RemoveWhitespace(s), sep) == RemoveWhitespaceAll(Split(s, sep))
  {
    if s != [] {
      SplitRemoveWhitespace(s[1..], sep);
      var c := s[0];
      var rest := Split(s[1..], sep);
      var w := RemoveWhitespace(s[1..]);
      if IsSpace(c) {
        assert Split(s, sep) == [[c] + rest[0]] + rest[1..];
        assert RemoveWhitespace(s) == w;
        DropSpaceHead(c, rest);
      } else if c == sep {
        assert Split(s, sep) == [[]] + rest;
        assert RemoveWhitespace(s) == [sep] + w;
        assert ([sep] + w)[1..] == w;
        RemoveWhitespaceAllCons([], rest);
      } else {
        assert Split(s, sep) == [[c] + rest[0]] + rest[1..];
        assert RemoveWhitespace(s) == [c] + w;
        assert ([c] + w)[1..] == w;
        KeepHead(c, rest);
      }
    }
  }

  lemma RemoveWhitespaceAllCons(x: string, xs: seq<string>)
    ensures RemoveWhitespaceAll([x] + xs) == [RemoveWhitespace(x)] + RemoveWhitespaceAll(xs)
  {
    assert forall i :: 0 < i <= |xs| ==> ([x] + xs)[i] == xs[i - 1];
  }

  /** A whitespace character in front of the first part disappears. */
  lemma {:induction false} DropSpaceHead(c: char, rest: seq<string>)
    requires IsSpace(c) && |rest| >= 1
    ensures RemoveWhitespaceAll([[c] + rest[0]] + rest[1..]) == RemoveWhitespaceAll(rest)
  {
    assert ([c] + rest[0])[1..] == rest[0];
    assert RemoveWhitespace([c] + rest[0]) == RemoveWhitespace(rest[0]);
    RemoveWhitespaceAllCons([c] + rest[0], rest[1..]);
    RemoveWhitespaceAllCons(rest[0], rest[1..]);
    assert [rest[0]] + rest[1..] == rest;
  }

  /** Any other character in front of the first part stays there. */
  lemma {:induction false} KeepHead(c: char, rest: seq<string>)
    requires !IsSpace(c) && |rest| >= 1
    ensures RemoveWhitespaceAll([[c] + rest[0]] + rest[1..]) ==
      [[c] + RemoveWhitespaceAll(rest)[0]] + RemoveWhitespaceAll(rest)[1..]
  {
    assert ([c] + rest[0])[1..] == rest[0];
    assert RemoveWhitespace([c] + rest[0]) == [c] + RemoveWhitespace(rest[0]);
    RemoveWhitespaceAllCons([c] + rest[0], rest[1..]);
    RemoveWhitespaceAllCons(rest[0], rest[1..]);
    assert [rest[0]] + rest[1..] == rest;
  }
}
