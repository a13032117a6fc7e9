/** What a parsed diff can contain. */
module Parsed {
  import opened Text
  import opened Diff
  import opened UnifiedFormat

  /** Every path and every added line of a parsed diff is one that the printer can print. */
  ghost predicate Printable(files: seq<FileRecord>) {
    forall i | 0 <= i < |files| :: RecordPrintable(files[i])
  }

  ghost predicate RecordPrintable(f: FileRecord) {
    OneLine(f.path) && PathSurvives(f.path) && CleanLines(f.added)
  }

  ghost predicate CleanLines(added: seq<AddedLine>) {
    forall k | 0 <= k < |added| :: OneLine(added[k].text) && !("++ " <= added[k].text)
  }

  /** What classification guarantees about the text it hands over. */
  ghost predicate LineClean(line: Line) {
    && (line.Plus? ==> OneLine(line.text) && !("++ " <= line.text))
    && (line.NewPath? ==> OneLine(line.path) && (line.path == "" || !IsSpace(line.path[|line.path| - 1])))
  }

  lemma {:induction false} StripLeftSuffix(s: string)
    ensures |StripLeft(s)| <= |s| && StripLeft(s) == s[|s| - |StripLeft(s)|..]
  {
    if s != "" && IsSpace(s[0]) { StripLeftSuffix(s[1..]); }
  }

  lemma StripClean(body: string)
    requires OneLine(body)
    ensures OneLine(Strip(body)) && (Strip(body) == "" || !IsSpace(Strip(body)[|Strip(body)| - 1]))
  {
    var right := StripRight(body);
    StripRightFacts(body);
    StripLeftSuffix(right);
    var p := Strip(body);
    assert OneLine(right);
    assert p == "" || p[|p| - 1] == right[|right| - 1];
  }

  lemma HeaderPathClean(raw: string)
    requires "+++ " <= raw && OneLine(raw)
    ensures LineClean(NewPath(HeaderPath(raw)))
  {
    var body := raw[4..];
    assert forall i | 0 <= i < |body| :: body[i] == raw[i + 4];
    StripClean(body);
  }

  lemma ClassifyClean(raw: string)
    requires OneLine(raw)
    ensures LineClean(Classify(raw))
  {
    if "+++ " <= raw {
      HeaderPathClean(raw);
    } else if "+" <= raw {
      assert raw == "+" + raw[1..];
      PrefixAfter('+', "++ ", raw[1..]);
      assert "+++ " == ['+'] + "++ ";
    }
  }

  lemma StepPrintable(st: ParseState, line: Line)
    requires st.Valid() && Printable(st.files) && LineClean(line)
    ensures Printable(Step(st, line).files)
  {
    if st.files != [] { assert RecordPrintable(st.files[|st.files| - 1]); }
  }

  lemma {:induction false} RunPrintable(lines: seq<string>)
    requires AllOneLine(lines)
    ensures Printable(Run(START, Read(lines)).files)
  {
    if lines != [] {
      var before, raw := lines[..|lines| - 1], lines[|lines| - 1];
      RunPrintable(before);
      ClassifyClean(raw);
      assert Read(lines) == Read(before) + [Classify(raw)];
      RunAppend(START, Read(before), Classify(raw));
      StepPrintable(Run(START, Read(before)), Classify(raw));
    }
  }

  lemma ParsedIsPrintable(text: string, maxLines: nat)
    ensures Printable(Parse(text, maxLines))
  {
    SplitIsOneLine(text);
    RunPrintable(FirstLines(text, maxLines));
  }

  // ---- reading no further than the line limit ----

  predicate RecordExtends(f: FileRecord, g: FileRecord) {
    g.path == f.path && g.isNewFile == f.isNewFile && f.added <= g.added && f.removedCount <= g.removedCount
  }

  /** Later records may follow and the last one may grow; the records before it are the same. */
  predicate Extends(files: seq<FileRecord>, more: seq<FileRecord>) {
    && |files| <= |more|
    && (files != [] ==>
          && files[..|files| - 1] == more[..|files| - 1]
          && RecordExtends(files[|files| - 1], more[|files| - 1]))
  }

  lemma ExtendsTransitive(a: seq<FileRecord>, b: seq<FileRecord>, c: seq<FileRecord>)
    requires Extends(a, b) && Extends(b, c)
    ensures Extends(a, c)
  {
    if a != [] {
      var n := |a| - 1;
      assert b[..|b| - 1] == c[..|b| - 1];
      assert b[..n] == b[..|b| - 1][..n] && c[..n] == c[..|b| - 1][..n];
      if |a| < |b| { assert b[..|b| - 1][n] == c[..|b| - 1][n]; }
    }
  }

  lemma GrowExtends(st: ParseState, added: seq<AddedLine>, dels: nat, lines: nat)
    requires st.files != []
    ensures Extends(st.files, Grow(st, added, dels, lines).files)
  {
  }

  lemma StepExtends(st: ParseState, line: Line)
    requires st.Valid()
    ensures Extends(st.files, Step(st, line).files)
  {
    if st.open {
      match line
      case Plus(text) => GrowExtends(st, [AddedLine(st.lineno, text)], 0, 1);
      case Minus => GrowExtends(st, [], 1, 0);
      case Other => GrowExtends(st, [], 0, 1);
      case _ =>
    }
  }

  lemma {:induction false} RunExtends(st: ParseState, lines: seq<Line>)
    requires st.Valid()
    ensures Extends(st.files, Run(st, lines).files)
  {
    if lines != [] {
      var before := lines[..|lines| - 1];
      RunExtends(st, before);
      StepExtends(Run(st, before), lines[|lines| - 1]);
      ExtendsTransitive(st.files, Run(st, before).files, Run(st, lines).files);
    }
  }

  /** The limit is exact: it reads what the parser makes of the text's first m lines alone. */
  lemma LimitReadsFirst(text: string, m: nat, n: nat, lines: seq<string>)
    requires lines == SplitLines(text) && n >= m
    ensures Parse(text, m) == Parse(Terminated(if |lines| <= m then lines else lines[..m]), n)
  {
    var few := if |lines| <= m then lines else lines[..m];
    SplitIsOneLine(text);
    SplitTerminated(few);
  }

  /** A lower line limit loses only the end: later files, and later lines of the last file it reports. */
  lemma LimitCutsTheEnd(text: string, m: nat, n: nat)
    requires m <= n
    ensures Extends(Parse(text, m), Parse(text, n))
  {
    var few, all := FirstLines(text, m), FirstLines(text, n);
    var rest := all[|few|..];
    assert all == few + rest;
    assert Read(all) == Read(few) + Read(rest);
    RunConcat(START, Read(few), Read(rest));
    RunExtends(Run(START, Read(few)), Read(rest));
  }
}
