/** The string operations of Rust's standard library that the old-UI list
    parser and the signal check rely on: `split`, `split_terminator`,
    `lines` and `contains`, on strings as sequences of characters. */
module RustStr {

  /** `s.split(sep)` for a one-character separator: the pieces between the
      separators, in order. There is always one piece more than there are
      separators, so the empty string gives one empty piece. */
  function Split(s: string, sep: char): (parts: seq<string>)
    ensures |parts| >= 1
    ensures forall i :: 0 <= i < |parts| ==> sep !in parts[i]
    decreases |s|
  {
    if s == [] then [[]]
    else
      var rest := Split(s[1..], sep);
      if s[0] == sep then [[]] + rest
      else [[s[0]] + rest[0]] + rest[1..]
  }

  /** The pieces glued back together with `sep` between neighbours. */
  function JoinWith(parts: seq<string>, sep: char): string
    requires |parts| >= 1
    decreases |parts|
  {
    if |parts| == 1 then parts[0] else parts[0] + [sep] + JoinWith(parts[1..], sep)
  }

  /** Splitting loses nothing: joining the pieces gives back the string. */
  lemma {:induction false} JoinSplit(s: string, sep: char)
    ensures JoinWith(Split(s, sep), sep) == s
    decreases |s|
  {
    if s != [] {
      JoinSplit(s[1..], sep);
      var rest := Split(s[1..], sep);
      var parts := Split(s, sep);
      if s[0] == sep {
        assert parts[1..] == rest;
      } else if |rest| > 1 {
        assert parts[1..] == rest[1..];
      }
    }
  }

  /** A string without the separator is a single piece. */
  lemma {:induction false} SplitWithoutSep(a: string, sep: char)
    requires sep !in a
    ensures Split(a, sep) == [a]
    decreases |a|
  {
    if a != [] {
      SplitWithoutSep(a[1..], sep);
      assert [a[0]] + a[1..] == a;
    }
  }

  /** The first separator ends the first piece; the rest splits on its own. */
  lemma {:induction false} SplitAtFirstSep(a: string, sep: char, t: string)
    requires sep !in a
    ensures Split(a + [sep] + t, sep) == [a] + Split(t, sep)
    decreases |a|
  {
    var s := a + [sep] + t;
    if a == [] {
      assert s[1..] == t;
    } else {
      assert s[1..] == a[1..] + [sep] + t;
      SplitAtFirstSep(a[1..], sep, t);
      assert [a[0]] + a[1..] == a;
    }
  }

  /** Joining pieces free of the separator and splitting again gives the
      same pieces, in the same order. */
  lemma {:induction false} SplitJoin(parts: seq<string>, sep: char)
    requires |parts| >= 1
    requires forall i :: 0 <= i < |parts| ==> sep !in parts[i]
    ensures Split(JoinWith(parts, sep), sep) == parts
    decreases |parts|
  {
    if |parts| == 1 {
      SplitWithoutSep(parts[0], sep);
    } else {
      assert forall i :: 0 <= i < |parts| - 1 ==> parts[1..][i] == parts[i + 1];
      SplitJoin(parts[1..], sep);
      SplitAtFirstSep(parts[0], sep, JoinWith(parts[1..], sep));
      assert [parts[0]] + parts[1..] == parts;
    }
  }

  /** `field` is the text of `s` up to its first `sep`, or all of `s` when
      there is none. */
  predicate LeadingField(s: string, sep: char, field: string) {
    |field| <= |s| && s[..|field|] == field && sep !in field &&
    (|field| < |s| ==> s[|field|] == sep)
  }

  /** The first piece is the leading field, and it is all of `s` exactly
      when there is a single piece. */
  lemma {:induction false} SplitHead(s: string, sep: char)
    ensures LeadingField(s, sep, Split(s, sep)[0])
    ensures |Split(s, sep)| == 1 <==> Split(s, sep)[0] == s
  {
    var parts := Split(s, sep);
    JoinSplit(s, sep);
    if |parts| > 1 {
      assert s == parts[0] + [sep] + JoinWith(parts[1..], sep);
      assert s[..|parts[0]|] == parts[0];
    }
  }

  /** The last piece of a split is empty exactly when the string is empty
      or ends with the separator. */
  lemma {:induction false} SplitLast(s: string, sep: char)
    ensures var parts := Split(s, sep);
      parts[|parts| - 1] == [] <==> s == [] || s[|s| - 1] == sep
    decreases |s|
  {
    if s != [] {
      var rest := Split(s[1..], sep);
      SplitLast(s[1..], sep);
      if s[0] != sep && |rest| == 1 {
        SplitHead(s[1..], sep);
        assert s[1..] == rest[0];
        if |s| > 1 {
          assert s[|s| - 1] == rest[0][|s| - 2];
        }
      }
    }
  }

  /** `s.split_terminator(sep)`: `split`, except that an empty last piece is
      dropped, so that a trailing separator does not start a new piece and
      the empty string has no pieces at all. */
  function SplitTerminator(s: string, sep: char): (parts: seq<string>)
    ensures parts == [] <==> s == []
    ensures forall i :: 0 <= i < |parts| ==> sep !in parts[i]
    ensures Split(s, sep) == (if s == [] || s[|s| - 1] == sep then parts + [[]] else parts)
  {
    var all := Split(s, sep);
    SplitLast(s, sep);
    SplitHead(s, sep);
    if all[|all| - 1] == [] then
      assert all[..|all| - 1] + [[]] == all;
      all[..|all| - 1]
    else all
  }

  predicate EndsWithCr(line: string) {
    |line| > 0 && line[|line| - 1] == '\r'
  }

  function StripCr(line: string): string {
    if EndsWithCr(line) then line[..|line| - 1] else line
  }

  /** `s.lines()`: the text split at each `\n`, with one `\r` removed before
      each `\n` that ends a line. A final line ending is optional, so a
      trailing `\n` opens no empty last line; a `\r` at the very end, not
      followed by `\n`, is kept. */
  function Lines(s: string): (lines: seq<string>)
    ensures lines == [] <==> s == []
    ensures forall i :: 0 <= i < |lines| ==> '\n' !in lines[i]
  {
    var parts := Split(s, '\n');
    var last := parts[|parts| - 1];
    seq(|parts| - 1, i requires 0 <= i < |parts| - 1 => StripCr(parts[i]))
      + (if last == [] then [] else [last])
  }

  lemma {:induction false} JoinWithEmptyLast(parts: seq<string>, sep: char)
    requires |parts| >= 1
    ensures JoinWith(parts + [[]], sep) == JoinWith(parts, sep) + [sep]
    decreases |parts|
  {
    if |parts| > 1 {
      assert (parts + [[]])[1..] == parts[1..] + [[]];
      JoinWithEmptyLast(parts[1..], sep);
    }
  }

  /** The lines of a text whose `\n`-pieces are known: every piece but the
      last is a line without its `\r`, and the last is a line if not empty. */
  lemma LinesOfPieces(s: string, parts: seq<string>)
    requires |parts| >= 1 && Split(s, '\n') == parts
    requires forall i :: 0 <= i < |parts| - 1 ==> !EndsWithCr(parts[i])
    ensures parts[|parts| - 1] == [] ==> Lines(s) == parts[..|parts| - 1]
    ensures parts[|parts| - 1] != [] ==> Lines(s) == parts
  {
    var n := |parts| - 1;
    var stripped := seq(n, i requires 0 <= i < n => StripCr(parts[i]));
    assert stripped == parts[..n];
    if parts[n] != [] {
      var lines := stripped + [parts[n]];
      assert |lines| == |parts|;
      forall i | 0 <= i < |parts| ensures lines[i] == parts[i] {
        if i < n { assert lines[i] == stripped[i]; }
      }
    }
  }

  /** A text made of lines joined with `\n`, with or without a final `\n`,
      has exactly those lines, provided no line holds a `\n` or ends in `\r`
      and, without a final `\n`, the last line is not empty. */
  lemma LinesOfText(ls: seq<string>, finalNewline: bool)
    requires |ls| >= 1
    requires forall i :: 0 <= i < |ls| ==> '\n' !in ls[i] && !EndsWithCr(ls[i])
    requires !finalNewline ==> ls[|ls| - 1] != []
    ensures Lines(JoinWith(ls, '\n') + (if finalNewline then "\n" else "")) == ls
  {
    if finalNewline {
      LinesOfTerminatedText(ls);
    } else {
      LinesOfUnterminatedText(ls);
      assert JoinWith(ls, '\n') + "" == JoinWith(ls, '\n');
    }
  }

  lemma LinesOfUnterminatedText(ls: seq<string>)
    requires |ls| >= 1
    requires forall i :: 0 <= i < |ls| ==> '\n' !in ls[i] && !EndsWithCr(ls[i])
    requires ls[|ls| - 1] != []
    ensures Lines(JoinWith(ls, '\n')) == ls
  {
    var text := JoinWith(ls, '\n');
    var n := |ls| - 1;
    assert forall i :: 0 <= i < |ls| ==> '\n' !in ls[i];
    SplitJoin(ls, '\n');
    assert Split(text, '\n') == ls;
    assert forall i :: 0 <= i < n ==> !EndsWithCr(ls[i]);
    LinesOfPieces(text, ls);
  }

  lemma LinesOfTerminatedText(ls: seq<string>)
    requires |ls| >= 1
    requires forall i :: 0 <= i < |ls| ==> '\n' !in ls[i] && !EndsWithCr(ls[i])
    ensures Lines(JoinWith(ls, '\n') + "\n") == ls
  {
    var parts := ls + [[]];
    JoinWithEmptyLast(ls, '\n');
    PiecesWithEmptyLast(ls);
    SplitJoin(parts, '\n');
    LinesOfPieces(JoinWith(parts, '\n'), parts);
    assert parts[..|ls|] == ls;
  }

  lemma PiecesWithEmptyLast(ls: seq<string>)
    requires forall i :: 0 <= i < |ls| ==> '\n' !in ls[i] && !EndsWithCr(ls[i])
    ensures forall i :: 0 <= i < |ls + [[]]| ==> '\n' !in (ls + [[]])[i]
    ensures forall i :: 0 <= i < |ls| ==> !EndsWithCr((ls + [[]])[i])
  {
  }

  /** Lines glued together with `\r\n` between neighbours. */
  function JoinCrlf(ls: seq<string>): string
    requires |ls| >= 1
    decreases |ls|
  {
    if |ls| == 1 then ls[0] else ls[0] + "\r\n" + JoinCrlf(ls[1..])
  }

  /** The `\n`-pieces of `JoinCrlf(ls)`: every line but the last carries
      the `\r` of its line ending. */
  function CrPieces(ls: seq<string>): seq<string> {
    seq(|ls|, i requires 0 <= i < |ls| => if i < |ls| - 1 then ls[i] + "\r" else ls[i])
  }

  lemma {:induction false} JoinCrlfPieces(ls: seq<string>)
    requires |ls| >= 1
    ensures JoinCrlf(ls) == JoinWith(CrPieces(ls), '\n')
    decreases |ls|
  {
    if |ls| > 1 {
      JoinCrlfPieces(ls[1..]);
      assert CrPieces(ls)[1..] == CrPieces(ls[1..]);
      assert CrPieces(ls)[0] + ['\n'] == ls[0] + "\r\n";
    }
  }

  lemma {:induction false} JoinCrlfEmptyLast(ls: seq<string>)
    requires |ls| >= 1
    ensures JoinCrlf(ls + [[]]) == JoinCrlf(ls) + "\r\n"
    decreases |ls|
  {
    if |ls| > 1 {
      assert (ls + [[]])[1..] == ls[1..] + [[]];
      JoinCrlfEmptyLast(ls[1..]);
    }
  }

  lemma CrPiecesFree(ls: seq<string>)
    requires forall i :: 0 <= i < |ls| ==> '\n' !in ls[i]
    ensures forall i :: 0 <= i < |CrPieces(ls)| ==> '\n' !in CrPieces(ls)[i]
  {
    forall i | 0 <= i < |ls| ensures '\n' !in CrPieces(ls)[i] {
      if i < |ls| - 1 {
        assert CrPieces(ls)[i] == ls[i] + "\r";
      }
    }
  }

  /** `Lines` in terms of known `\n`-pieces and their stripped forms. */
  lemma LinesBySplit(s: string, parts: seq<string>, stripped: seq<string>)
    requires |parts| >= 1 && Split(s, '\n') == parts
    requires |stripped| == |parts| - 1
    requires forall i :: 0 <= i < |stripped| ==> stripped[i] == StripCr(parts[i])
    ensures Lines(s) == stripped + (if parts[|parts| - 1] == [] then [] else [parts[|parts| - 1]])
  {
    var n := |parts| - 1;
    assert seq(n, i requires 0 <= i < n => StripCr(parts[i])) == stripped;
  }

  lemma StripCrPieces(ls: seq<string>)
    ensures forall i :: 0 <= i < |ls| - 1 ==> StripCr(CrPieces(ls)[i]) == ls[i]
  {
    forall i | 0 <= i < |ls| - 1 ensures StripCr(CrPieces(ls)[i]) == ls[i] {
      var piece := CrPieces(ls)[i];
      assert piece == ls[i] + "\r";
      assert piece[..|piece| - 1] == ls[i];
    }
  }

  /** The lines of a text whose `\n`-pieces are the lines with `\r` on all
      but the last: every line before the last comes back without its `\r`,
      and the last comes back when it is not empty. */
  lemma LinesOfCrPieces(s: string, ls: seq<string>)
    requires |ls| >= 1 && Split(s, '\n') == CrPieces(ls)
    ensures ls[|ls| - 1] == [] ==> Lines(s) == ls[..|ls| - 1]
    ensures ls[|ls| - 1] != [] ==> Lines(s) == ls[..|ls| - 1] + [ls[|ls| - 1]]
  {
    var n := |ls| - 1;
    StripCrPieces(ls);
    assert CrPieces(ls)[n] == ls[n];
    LinesBySplit(s, CrPieces(ls), ls[..n]);
  }

  /** The `\n`-pieces of a `\r\n`-joined text. */
  lemma SplitCrlf(ls: seq<string>)
    requires |ls| >= 1
    requires forall i :: 0 <= i < |ls| ==> '\n' !in ls[i]
    ensures Split(JoinCrlf(ls), '\n') == CrPieces(ls)
  {
    JoinCrlfPieces(ls);
    CrPiecesFree(ls);
    SplitJoin(CrPieces(ls), '\n');
  }

  /** A text made of lines joined with `\r\n`, with or without a final
      `\r\n`, has exactly those lines, provided no line holds a `\n` and,
      without a final line ending, the last line is not empty. A line may
      itself end in `\r`: only the one before each `\n` is removed. */
  lemma LinesOfCrlfText(ls: seq<string>, finalNewline: bool)
    requires |ls| >= 1
    requires forall i :: 0 <= i < |ls| ==> '\n' !in ls[i]
    requires !finalNewline ==> ls[|ls| - 1] != []
    ensures Lines(JoinCrlf(ls) + (if finalNewline then "\r\n" else "")) == ls
  {
    if finalNewline {
      LinesOfTerminatedCrlfText(ls);
    } else {
      LinesOfUnterminatedCrlfText(ls);
      assert JoinCrlf(ls) + "" == JoinCrlf(ls);
    }
  }

  lemma LinesOfTerminatedCrlfText(ls: seq<string>)
    requires |ls| >= 1
    requires forall i :: 0 <= i < |ls| ==> '\n' !in ls[i]
    ensures Lines(JoinCrlf(ls) + "\r\n") == ls
  {
    var padded := ls + [[]];
    JoinCrlfEmptyLast(ls);
    forall i | 0 <= i < |padded| ensures '\n' !in padded[i] {
      if i < |ls| {
        assert padded[i] == ls[i];
      }
    }
    SplitCrlf(padded);
    LinesOfCrPieces(JoinCrlf(padded), padded);
    assert padded[..|ls|] == ls;
  }

  lemma LinesOfUnterminatedCrlfText(ls: seq<string>)
    requires |ls| >= 1
    requires forall i :: 0 <= i < |ls| ==> '\n' !in ls[i]
    requires ls[|ls| - 1] != []
    ensures Lines(JoinCrlf(ls)) == ls
  {
    SplitCrlf(ls);
    LinesOfCrPiecesLastKept(JoinCrlf(ls), ls);
  }

  lemma LinesOfCrPiecesLastKept(s: string, ls: seq<string>)
    requires |ls| >= 1 && Split(s, '\n') == CrPieces(ls)
    requires ls[|ls| - 1] != []
    ensures Lines(s) == ls
  {
    LinesOfCrPieces(s, ls);
    assert ls[..|ls| - 1] + [ls[|ls| - 1]] == ls;
  }

  /** `s` holds `pat` starting at index `i`. */
  predicate OccursAt(s: string, pat: string, i: int) {
    0 <= i <= |s| - |pat| && s[i..i + |pat|] == pat
  }

  /** `s.contains(pat)`: a case-sensitive substring search. */
  function Contains(s: string, pat: string): bool
    decreases |s|
  {
    if |s| < |pat| then false
    else s[..|pat|] == pat || Contains(s[1..], pat)
  }

  /** Contains is true exactly when the pattern occurs somewhere. */
  lemma {:induction false} ContainsSpec(s: string, pat: string)
    ensures Contains(s, pat) <==> exists i :: OccursAt(s, pat, i)
    decreases |s|
  {
    if |s| >= |pat| {
      if s[..|pat|] == pat {
        assert OccursAt(s, pat, 0);
      } else {
        assert s != [];
        ContainsSpec(s[1..], pat);
        if exists i :: OccursAt(s, pat, i) {
          var i :| OccursAt(s, pat, i);
          assert i != 0;
          assert s[1..][i - 1..i - 1 + |pat|] == s[i..i + |pat|];
          assert OccursAt(s[1..], pat, i - 1);
        }
        if Contains(s[1..], pat) {
          var j :| OccursAt(s[1..], pat, j);
          assert s[1..][j..j + |pat|] == s[j + 1..j + 1 + |pat|];
          assert OccursAt(s, pat, j + 1);
        }
      }
    }
  }
}
