/** How `str.splitlines` cuts newline-terminated lines: a line that holds other breaks falls into several pieces. */
module Pieces {
  import opened Text

  /** The pieces of one line. */
  function PiecesOf(line: string): (pieces: seq<string>)
    ensures pieces != []
  {
    SplitLines(line + "\n")
  }

  function AllPieces(lines: seq<string>): seq<string> {
    if lines == [] then [] else PiecesOf(lines[0]) + AllPieces(lines[1..])
  }

  lemma AtBreak(s: string, tail: string)
    requires s != "" && IsLineBreak(s[0]) && (|s| == 1 ==> s[0] != '\r')
    ensures var n := BreakLength(s);
            BreakLength(s + tail) == n && (s + tail)[n..] == s[n..] + tail
            && (s[n..] == "" || s[n..][|s[n..]| - 1] == s[|s| - 1])
  {
    var t := s + tail;
    assert t[0] == s[0] && (|s| > 1 ==> t[1] == s[1]);
  }

  lemma SplitAtBreak(s: string, tail: string)
    requires s != "" && IsLineBreak(s[0]) && (|s| == 1 ==> s[0] != '\r')
    ensures SplitLines(s + tail) == [""] + SplitLines(s[BreakLength(s)..] + tail)
  {
    AtBreak(s, tail);
    assert (s + tail)[0] == s[0];
  }

  lemma AtReturn(rest: string)
    ensures SplitLines("\r" + ("\n" + rest)) == [""] + SplitLines(rest)
  {
    var t := "\r" + ("\n" + rest);
    assert t[0] == '\r' && t[1] == '\n' && t[2..] == rest;
  }

  lemma AtChar(c: char, s: string)
    requires !IsLineBreak(c)
    ensures SplitLines([c] + s) == Prepend(c, SplitLines(s))
  {
    assert ([c] + s)[0] == c && ([c] + s)[1..] == s;
  }

  lemma PrependConcat(c: char, xs: seq<string>, ys: seq<string>)
    requires !IsLineBreak(c) && xs != []
    ensures Prepend(c, xs + ys) == Prepend(c, xs) + ys
  {
    assert (xs + ys)[1..] == xs[1..] + ys;
  }

  lemma BreakThenNewline(a: string, tail: string, xs: seq<string>, ys: seq<string>)
    requires a != "" && a != "\r" && IsLineBreak(a[0])
    requires SplitLines(a[BreakLength(a)..] + tail) == xs + ys
    ensures SplitLines(a + tail) == ([""] + xs) + ys
  {
    SplitAtBreak(a, tail);
    assert [""] + (xs + ys) == ([""] + xs) + ys;
  }

  lemma CharThenNewline(a: string, rest: string)
    requires a != "" && !IsLineBreak(a[0])
    requires SplitLines(a[1..] + ("\n" + rest)) == PiecesOf(a[1..]) + SplitLines(rest)
    ensures SplitLines(a + ("\n" + rest)) == PiecesOf(a) + SplitLines(rest)
  {
    var b := a[1..];
    assert a + ("\n" + rest) == [a[0]] + (b + ("\n" + rest)) && a + "\n" == [a[0]] + (b + "\n");
    AtChar(a[0], b + ("\n" + rest));
    AtChar(a[0], b + "\n");
    PrependConcat(a[0], PiecesOf(b), SplitLines(rest));
  }

  /** A newline always ends a piece, whatever stands before it. */
  lemma {:induction false} SplitAtNewline(a: string, rest: string)
    ensures SplitLines(a + ("\n" + rest)) == PiecesOf(a) + SplitLines(rest)
    decreases |a|
  {
    if a == "" {
      assert ("\n" + rest)[1..] == rest && a + ("\n" + rest) == "\n" + rest;
      PiecesOneLine("");
    } else if a == "\r" {
      AtReturn(rest);
      AtReturn("");
      assert "\n" + "" == "\n";
    } else if IsLineBreak(a[0]) {
      var b := a[BreakLength(a)..];
      SplitAtNewline(b, rest);
      BreakThenNewline(a, "\n" + rest, PiecesOf(b), SplitLines(rest));
      SplitAtBreak(a, "\n");
    } else {
      SplitAtNewline(a[1..], rest);
      CharThenNewline(a, rest);
    }
  }

  lemma Regroup(a: string, b: string, c: string)
    ensures a + b + c == a + (b + c)
  {
  }

  /** Splitting undoes joining, piece by piece. */
  lemma {:induction false} SplitTerminatedLines(lines: seq<string>)
    ensures SplitLines(Terminated(lines)) == AllPieces(lines)
  {
    if lines != [] {
      SplitTerminatedLines(lines[1..]);
      SplitAtNewline(lines[0], Terminated(lines[1..]));
      Regroup(lines[0], "\n", Terminated(lines[1..]));
    }
  }

  lemma {:induction false} AllPiecesConcat(xs: seq<string>, ys: seq<string>)
    ensures AllPieces(xs + ys) == AllPieces(xs) + AllPieces(ys)
  {
    if xs == [] {
      assert xs + ys == ys;
    } else {
      assert (xs + ys)[1..] == xs[1..] + ys;
      AllPiecesConcat(xs[1..], ys);
    }
  }

  lemma PiecesOneLine(s: string)
    requires OneLine(s)
    ensures PiecesOf(s) == [s]
  {
    SplitFirst(s, "");
    assert s + "\n" + "" == s + "\n";
  }

  /** Text before the first break stays with the first piece. */
  lemma {:induction false} PiecesPrefix(p: string, s: string)
    requires OneLine(p)
    ensures PiecesOf(p + s) == [p + PiecesOf(s)[0]] + PiecesOf(s)[1..]
  {
    if p == "" {
      assert p + s == s && p + PiecesOf(s)[0] == PiecesOf(s)[0];
    } else {
      PiecesPrefix(p[1..], s);
      assert p + s + "\n" == [p[0]] + (p[1..] + s + "\n");
      AtChar(p[0], p[1..] + s + "\n");
      assert [p[0]] + (p[1..] + PiecesOf(s)[0]) == p + PiecesOf(s)[0];
      assert p + s == [p[0]] + (p[1..] + s);
    }
  }

  lemma PiecesBreak(h: string, c: char, s: string)
    requires OneLine(h) && IsLineBreak(c) && c != '\r'
    ensures PiecesOf(h + ([c] + s)) == [h] + PiecesOf(s)
  {
    var t := [c] + s + "\n";
    assert t[0] == c && t[1..] == s + "\n";
    assert PiecesOf([c] + s) == [""] + PiecesOf(s);
    PiecesPrefix(h, [c] + s);
    assert h + "" == h;
  }

  lemma PiecesNonBreak(s: string)
    requires s != "" && !IsLineBreak(s[0])
    ensures PiecesOf(s) == Prepend(s[0], PiecesOf(s[1..]))
  {
    assert s + "\n" == [s[0]] + (s[1..] + "\n");
    AtChar(s[0], s[1..] + "\n");
  }

  /** Whether a line starts with a given text shows in its first piece. */
  lemma {:induction false} FirstPiecePrefix(p: string, s: string)
    requires OneLine(p)
    ensures p <= s <==> p <= PiecesOf(s)[0]
  {
    if p != "" {
      if s == "" {
        PiecesOneLine("");
      } else if IsLineBreak(s[0]) {
        assert (s + "\n")[0] == s[0] && PiecesOf(s)[0] == "";
        PrefixTail(p, s);
      } else {
        PiecesNonBreak(s);
        FirstPiecePrefix(p[1..], s[1..]);
        PrefixTail(p, s);
        PrefixTail(p, PiecesOf(s)[0]);
        assert PiecesOf(s)[0][1..] == PiecesOf(s[1..])[0];
      }
    }
  }

  lemma PrefixTail(p: string, s: string)
    requires p != "" && s != ""
    ensures p <= s <==> p[0] == s[0] && p[1..] <= s[1..]
  {
    if p[0] == s[0] && p[1..] <= s[1..] {
      assert forall i | 1 <= i < |p| :: p[i] == p[1..][i - 1] && s[i] == s[1..][i - 1];
    }
    if p <= s {
      assert s == p + s[|p|..];
      assert s[1..] == p[1..] + s[|p|..];
    }
  }

  lemma BreakThenReturn(s: string)
    requires s != "" && s != "\r" && IsLineBreak(s[0])
    requires PiecesOf(s[BreakLength(s)..] + "\r") == PiecesOf(s[BreakLength(s)..])
    ensures PiecesOf(s + "\r") == PiecesOf(s)
  {
    var s' := s[BreakLength(s)..];
    SplitAtBreak(s, "\r\n");
    SplitAtBreak(s, "\n");
    assert s' + "\r" + "\n" == s' + "\r\n" && s + "\r" + "\n" == s + "\r\n";
  }

  /** A carriage return before the newline belongs to the same break. */
  lemma {:induction false} PiecesCr(s: string)
    requires s == "" || s[|s| - 1] != '\r'
    ensures PiecesOf(s + "\r") == PiecesOf(s)
    decreases |s|
  {
    assert s + "\r" + "\n" == s + "\r\n";
    if s == "" {
      AtReturn("");
      assert "\r" + ("\n" + "") == "\r\n" && s + "\r\n" == "\r\n";
      PiecesOneLine("");
    } else if IsLineBreak(s[0]) {
      AtBreak(s, "");
      PiecesCr(s[BreakLength(s)..]);
      BreakThenReturn(s);
    } else {
      PiecesNonBreak(s);
      assert (s + "\r")[0] == s[0] && (s + "\r")[1..] == s[1..] + "\r";
      PiecesNonBreak(s + "\r");
      PiecesCr(s[1..]);
    }
  }
}
