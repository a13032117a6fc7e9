/** The Python string operations the parser and the printer rely on. */
module Text {

  // ---- lines ----

  /** The characters at which `str.splitlines` ends a line. */
  predicate IsLineBreak(c: char) {
    || '\n' <= c <= '\r'
    || '\U{1C}' <= c <= '\U{1E}'
    || c == '\U{85}' || c == '\U{2028}' || c == '\U{2029}'
  }

  predicate OneLine(s: string) {
    forall i | 0 <= i < |s| :: !IsLineBreak(s[i])
  }

  predicate AllOneLine(lines: seq<string>) {
    forall i | 0 <= i < |lines| :: OneLine(lines[i])
  }

  /** Length of the break that s starts with; CR LF counts as one. */
  function BreakLength(s: string): (n: nat)
    requires s != ""
    ensures n <= |s| && (n > 0 <==> IsLineBreak(s[0]))
  {
    if !IsLineBreak(s[0]) then 0 else if s[0] == '\r' && |s| > 1 && s[1] == '\n' then 2 else 1
  }

  /** c, which is no break, put in front of the first line. */
  function Prepend(c: char, lines: seq<string>): (r: seq<string>)
    requires !IsLineBreak(c)
    ensures r != []
  {
    if lines == [] then [[c]] else [[c] + lines[0]] + lines[1..]
  }

  /** `s.splitlines()`: a final break ends the last line. */
  function SplitLines(s: string): (lines: seq<string>)
    ensures s != "" ==> lines != []
    decreases |s|
  {
    if s == "" then []
    else if BreakLength(s) > 0 then [""] + SplitLines(s[BreakLength(s)..])
    else Prepend(s[0], SplitLines(s[1..]))
  }

  lemma {:induction false} SplitIsOneLine(s: string)
    ensures AllOneLine(SplitLines(s))
    decreases |s|
  {
    if s != "" {
      if BreakLength(s) > 0 { SplitIsOneLine(s[BreakLength(s)..]); } else { SplitIsOneLine(s[1..]); }
    }
  }

  /** Every line followed by a newline. */
  function Terminated(lines: seq<string>): string {
    if lines == [] then "" else lines[0] + "\n" + Terminated(lines[1..])
  }

  lemma {:induction false} SplitFirst(line: string, rest: string)
    requires OneLine(line)
    ensures SplitLines(line + "\n" + rest) == [line] + SplitLines(rest)
  {
    var t := line + "\n" + rest;
    if line == "" {
      assert t[0] == '\n' && t[1..] == rest;
    } else {
      assert t[0] == line[0] && t[1..] == line[1..] + "\n" + rest;
      SplitFirst(line[1..], rest);
      assert [line[0]] + line[1..] == line;
    }
  }

  lemma {:induction false} SplitOneLiners(lines: seq<string>)
    requires AllOneLine(lines)
    ensures SplitLines(Terminated(lines)) == lines
  {
    if lines != [] {
      assert OneLine(lines[0]) && AllOneLine(lines[1..]);
      SplitOneLiners(lines[1..]);
      SplitFirst(lines[0], Terminated(lines[1..]));
      assert lines == [lines[0]] + lines[1..];
    }
  }

  /** Splitting undoes joining exactly when no line holds a break of its own. */
  lemma SplitTerminated(lines: seq<string>)
    ensures SplitLines(Terminated(lines)) == lines <==> AllOneLine(lines)
  {
    SplitIsOneLine(Terminated(lines));
    if AllOneLine(lines) { SplitOneLiners(lines); }
  }

  /** Between two letters exactly these characters start a new line. */
  lemma BreakCharacters(c: char, s: string)
    requires s == ['a'] + ([c] + ['b'])
    ensures SplitLines(s) == (if c in "\n\r" + "\U{0B}\U{0C}" + "\U{1C}\U{1D}\U{1E}" + "\U{85}\U{2028}\U{2029}"
                              then ["a", "b"] else [s])
  {
    assert s[1..] == [c] + ['b'] && ([c] + ['b'])[1..] == ['b'];
    assert ['b'][1..] == "" && SplitLines(['b']) == ["b"];
    assert ['a'] + "" == "a" && SplitLines(s) == Prepend('a', SplitLines(s[1..]));
    if IsLineBreak(c) {
      assert BreakLength([c] + ['b']) == 1;
      assert SplitLines([c] + ['b']) == ["", "b"];
    } else {
      assert SplitLines([c] + ['b']) == [[c] + "b"];
    }
  }

  // ---- white space ----

  /** The characters `str.strip` removes. */
  predicate IsSpace(c: char) {
    || '\t' <= c <= '\r' || '\U{1C}' <= c <= ' '
    || c == '\U{85}' || c == '\U{A0}' || c == '\U{1680}'
    || '\U{2000}' <= c <= '\U{200A}' || c == '\U{2028}' || c == '\U{2029}'
    || c == '\U{202F}' || c == '\U{205F}' || c == '\U{3000}'
  }

  function StripRight(s: string): string {
    if s != "" && IsSpace(s[|s| - 1]) then StripRight(s[..|s| - 1]) else s
  }

  function StripLeft(s: string): string {
    if s != "" && IsSpace(s[0]) then StripLeft(s[1..]) else s
  }

  /** `s.strip()` */
  function Strip(s: string): string {
    StripLeft(StripRight(s))
  }

  lemma {:induction false} StripRightPrefix(a: string, s: string)
    requires a != "" && !IsSpace(a[|a| - 1])
    ensures StripRight(a + s) == a + StripRight(s)
  {
    if s == "" {
      assert a + s == a;
    } else if IsSpace(s[|s| - 1]) {
      assert (a + s)[..|a + s| - 1] == a + s[..|s| - 1];
      StripRightPrefix(a, s[..|s| - 1]);
    }
  }

  lemma {:induction false} StripRightFacts(s: string)
    ensures StripRight(s) <= s
    ensures StripRight(s) == "" || !IsSpace(StripRight(s)[|StripRight(s)| - 1])
    ensures StripRight(s) == s <==> s == "" || !IsSpace(s[|s| - 1])
  {
    if s != "" && IsSpace(s[|s| - 1]) {
      StripRightFacts(s[..|s| - 1]);
    }
  }

  /** Exactly these characters are stripped from both ends. */
  lemma SpaceCharacters(c: char, s: string)
    requires s == [c] + (['x'] + [c])
    ensures Strip(s) == if c in " \t\n\r" + "\U{0B}\U{0C}" + "\U{1C}\U{1D}\U{1E}\U{1F}" + "\U{85}\U{A0}\U{1680}"
                             + "\U{2000}\U{2001}\U{2002}\U{2003}\U{2004}\U{2005}"
                             + "\U{2006}\U{2007}\U{2008}\U{2009}\U{200A}"
                             + "\U{2028}\U{2029}\U{202F}\U{205F}\U{3000}"
                        then "x" else s
  {
    StripEnds(c, s);
  }

  lemma StripEnds(c: char, s: string)
    requires s == [c] + (['x'] + [c])
    ensures Strip(s) == if IsSpace(c) then "x" else s
  {
    var t := [c] + ['x'];
    assert s[..2] == t && s[2] == c;
    assert StripRight(t) == t;
    assert t[1..] == "x" && StripLeft("x") == "x";
  }

  // ---- decimal numbers ----

  predicate IsDigit(c: char) {
    '0' <= c <= '9'
  }

  predicate AllDigits(s: string) {
    forall i | 0 <= i < |s| :: IsDigit(s[i])
  }

  function DigitOf(n: nat): (c: char)
    requires n < 10
    ensures IsDigit(c) && c as int == '0' as int + n
  {
    ('0' as int + n) as char
  }

  /** `str(n)` */
  function Decimal(n: nat): (s: string)
    ensures s != "" && AllDigits(s)
  {
    if n < 10 then [DigitOf(n)] else Decimal(n / 10) + [DigitOf(n % 10)]
  }

  /** `int(s)` on decimal digits. */
  function ParseNat(s: string): nat
    requires AllDigits(s)
  {
    if s == "" then 0 else ParseNat(s[..|s| - 1]) * 10 + (s[|s| - 1] as int - '0' as int)
  }

  lemma {:induction false} ParseDecimal(n: nat)
    ensures ParseNat(Decimal(n)) == n
  {
    if n >= 10 {
      ParseDecimal(n / 10);
      assert Decimal(n)[..|Decimal(n)| - 1] == Decimal(n / 10);
    }
  }

  /** How many digits s starts with. */
  function DigitRun(s: string): (k: nat)
    ensures k <= |s| && AllDigits(s[..k]) && (k < |s| ==> !IsDigit(s[k]))
  {
    if s == "" || !IsDigit(s[0]) then 0
    else
      var k := DigitRun(s[1..]);
      assert s[..k + 1] == [s[0]] + s[1..][..k];
      k + 1
  }

  lemma {:induction false} DigitRunAt(s: string, rest: string)
    requires AllDigits(s) && (rest == "" || !IsDigit(rest[0]))
    ensures DigitRun(s + rest) == |s|
  {
    if s == "" {
      assert s + rest == rest;
    } else {
      assert (s + rest)[0] == s[0] && (s + rest)[1..] == s[1..] + rest;
      DigitRunAt(s[1..], rest);
    }
  }
}
