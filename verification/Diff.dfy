/** The unified-diff parser: a line-driven state machine over the file being filled. */
module Diff {
  import opened Text
  import opened Wrappers

  datatype AddedLine = AddedLine(newLine: nat, text: string)

  datatype FileRecord = FileRecord(path: string, isNewFile: bool, added: seq<AddedLine>, removedCount: nat)

  const MAX_LINES: nat := 200_000

  // ---- one line ----

  /** Drops an optional `,digits`. */
  function SkipCount(s: string): string {
    if "," <= s && DigitRun(s[1..]) > 0 then s[1 + DigitRun(s[1..])..] else s
  }

  /** The new-file start of a hunk header, when `raw` begins with one. Anything may follow the second `@@`. */
  function HunkStart(raw: string): Option<nat> {
    if !("@@ -" <= raw) then None
    else
      var fromOld := raw[4..];
      var afterOld := SkipCount(fromOld[DigitRun(fromOld)..]);
      if DigitRun(fromOld) == 0 || !(" +" <= afterOld) then None
      else
        var fromNew := afterOld[2..];
        var k := DigitRun(fromNew);
        if k > 0 && " @@" <= SkipCount(fromNew[k..]) then Some(ParseNat(fromNew[..k])) else None
  }

  /** The path named by a `+++ ` line. */
  function HeaderPath(raw: string): string
    requires "+++ " <= raw
  {
    var p := Strip(raw[4..]);
    if "b/" <= p then p[2..] else p
  }

  /** `open`: a file is being filled, namely the last one. */
  datatype ParseState = ParseState(files: seq<FileRecord>, open: bool, lineno: nat, pendingNew: bool) {
    predicate Valid() {
      open ==> files != []
    }

    /** The state with the file being filled replaced. */
    function WithLast(f: FileRecord): ParseState
      requires files != []
    {
      this.(files := files[..|files| - 1] + [f])
    }

    function Last(): FileRecord
      requires files != []
    {
      files[|files| - 1]
    }
  }

  const START := ParseState([], false, 0, false)

  /** How the parser reads a line, testing the cases in this order. */
  datatype Line =
    | GitHeader
    | NewFileMode
    | NewPath(path: string)
    | OldPath
    | HunkAt(start: nat)
    | Plus(text: string)
    | Minus
    | Other

  function Classify(raw: string): Line {
    if "diff --git" <= raw then GitHeader
    else if "new file mode" <= raw then NewFileMode
    else if "+++ " <= raw then NewPath(HeaderPath(raw))
    else if "--- " <= raw then OldPath
    else if HunkStart(raw).Some? then HunkAt(HunkStart(raw).value)
    else if "+" <= raw then Plus(raw[1..])
    else if "-" <= raw then Minus
    else Other
  }

  /** What one line does. */
  function Step(st: ParseState, line: Line): (next: ParseState)
    requires st.Valid()
    ensures next.Valid()
  {
    match line
    case GitHeader => st.(open := false, pendingNew := false)
    case NewFileMode => st.(pendingNew := true)
    case NewPath(path) =>
      if path == "/dev/null" then st.(open := false)
      else ParseState(st.files + [FileRecord(path, st.pendingNew, [], 0)], true, st.lineno, false)
    case OldPath => st
    case HunkAt(start) => st.(lineno := start)
    case Plus(text) => if st.open then Grow(st, [AddedLine(st.lineno, text)], 0, 1) else st
    case Minus => if st.open then Grow(st, [], 1, 0) else st
    case Other => if st.open then Grow(st, [], 0, 1) else st
  }

  /** The open file receives `added` and `dels` removals, and the line counter moves by `lines`. */
  function Grow(st: ParseState, added: seq<AddedLine>, dels: nat, lines: nat): (next: ParseState)
    requires st.files != []
    ensures next.files != [] && next.open == st.open && next.lineno == st.lineno + lines
  {
    var f := st.Last();
    st.WithLast(f.(added := f.added + added, removedCount := f.removedCount + dels)).(lineno := st.lineno + lines)
  }

  function Read(lines: seq<string>): (r: seq<Line>)
    ensures |r| == |lines|
  {
    seq(|lines|, i requires 0 <= i < |lines| => Classify(lines[i]))
  }

  /** The state after a run of lines. */
  function Run(st: ParseState, lines: seq<Line>): (next: ParseState)
    requires st.Valid()
    ensures next.Valid()
    decreases |lines|
  {
    if lines == [] then st else Step(Run(st, lines[..|lines| - 1]), lines[|lines| - 1])
  }

  lemma {:induction false} RunConcat(st: ParseState, xs: seq<Line>, ys: seq<Line>)
    requires st.Valid()
    ensures Run(st, xs + ys) == Run(Run(st, xs), ys)
    decreases |ys|
  {
    if ys == [] {
      assert xs + ys == xs;
    } else {
      assert (xs + ys)[..|xs + ys| - 1] == xs + ys[..|ys| - 1];
      RunConcat(st, xs, ys[..|ys| - 1]);
    }
  }

  lemma RunAppend(st: ParseState, lines: seq<Line>, line: Line)
    requires st.Valid()
    ensures Run(st, lines + [line]) == Step(Run(st, lines), line)
  {
    assert (lines + [line])[..|lines|] == lines;
  }

  lemma RunPair(st: ParseState, a: Line, b: Line)
    requires st.Valid()
    ensures Run(st, [a, b]) == Step(Step(st, a), b)
  {
    RunAppend(st, [], a);
    RunAppend(st, [a], b);
    assert [] + [a] == [a] && [a] + [b] == [a, b];
  }

  function FirstLines(text: string, maxLines: nat): seq<string> {
    var lines := SplitLines(text);
    if |lines| <= maxLines then lines else lines[..maxLines]
  }

  function Parse(text: string, maxLines: nat): seq<FileRecord> {
    Run(START, Read(FirstLines(text, maxLines))).files
  }

  // ---- the parser as written: `current` aliases the last entry of the result ----

  class FileDiff {
    const path: string
    const isNewFile: bool
    var added: seq<AddedLine>
    var removedCount: nat

    constructor (path: string, isNewFile: bool)
      ensures View() == FileRecord(path, isNewFile, [], 0)
    {
      this.path, this.isNewFile, added, removedCount := path, isNewFile, [], 0;
    }

    ghost function View(): FileRecord
      reads this
    {
      FileRecord(path, isNewFile, added, removedCount)
    }
  }

  /** The objects in `files` are distinct and show the records `want`. */
  ghost predicate Shows(files: seq<FileDiff>, want: seq<FileRecord>)
    reads files
  {
    && |files| == |want|
    && (forall i | 0 <= i < |files| :: files[i].View() == want[i])
    && (forall i, j | 0 <= i < j < |files| :: files[i] != files[j])
  }

  /** A line inside a file: the object that `current` and the result list share is updated. */
  method TakeLine(files: seq<FileDiff>, current: FileDiff, line: Line, lineno: nat, ghost st: ParseState)
    returns (next: nat)
    requires Shows(files, st.files) && files != [] && current == files[|files| - 1]
    requires st.open && st.lineno == lineno
    requires line.Plus? || line.Minus? || line.Other?
    modifies current
    ensures Shows(files, Step(st, line).files) && next == Step(st, line).lineno
  {
    next := lineno;
    if line.Plus? {
      current.added := current.added + [AddedLine(lineno, line.text)];
      next := lineno + 1;
    } else if line.Minus? {
      current.removedCount := current.removedCount + 1;
    } else {
      next := lineno + 1;
    }
  }

  /** A `+++ ` line: a new file becomes current, unless the header names no file. */
  method OpenFile(files0: seq<FileDiff>, path: string, pendingNew: bool, ghost want: seq<FileRecord>)
    returns (files: seq<FileDiff>)
    requires Shows(files0, want)
    ensures |files| == |files0| + 1 && files[..|files0|] == files0 && fresh(files[|files0|])
    ensures Shows(files, want + [FileRecord(path, pendingNew, [], 0)])
  {
    var made := new FileDiff(path, pendingNew);
    files := files0 + [made];
  }

  method ParseUnifiedDiff(text: string, maxLines: nat := MAX_LINES) returns (files: seq<FileDiff>)
    ensures Shows(files, Parse(text, maxLines))
    ensures forall i | 0 <= i < |files| :: fresh(files[i])
  {
    files := [];
    var hasCurrent := false;  // when set, the current file is the last one
    var lineno: nat := 0;
    var pendingNew := false;
    var lines := FirstLines(text, maxLines);
    ghost var st := START;
    for i := 0 to |lines|
      invariant st == Run(START, Read(lines[..i]))
      invariant Shows(files, st.files)
      invariant forall k | 0 <= k < |files| :: fresh(files[k])
      invariant lineno == st.lineno && pendingNew == st.pendingNew && hasCurrent == st.open
    {
      var raw := lines[i];
      assert Read(lines[..i + 1]) == Read(lines[..i]) + [Classify(raw)];
      RunAppend(START, Read(lines[..i]), Classify(raw));
      files, hasCurrent, lineno, pendingNew := ParseLine(files, hasCurrent, lineno, pendingNew, Classify(raw), st);
      st := Step(st, Classify(raw));
    }
    assert lines[..|lines|] == lines;
  }

  /** The body of the parser's loop. */
  method ParseLine(files0: seq<FileDiff>, hasCurrent0: bool, lineno0: nat, pendingNew0: bool, line: Line,
                   ghost st: ParseState)
    returns (files: seq<FileDiff>, hasCurrent: bool, lineno: nat, pendingNew: bool)
    requires Shows(files0, st.files) && st.Valid()
    requires lineno0 == st.lineno && pendingNew0 == st.pendingNew && hasCurrent0 == st.open
    modifies files0
    ensures var next := Step(st, line);
            Shows(files, next.files) && lineno == next.lineno && pendingNew == next.pendingNew &&
              hasCurrent == next.open
    ensures forall k | 0 <= k < |files| :: files[k] in files0 || fresh(files[k])
  {
    files, hasCurrent, lineno, pendingNew := files0, hasCurrent0, lineno0, pendingNew0;
    match line {
      case GitHeader =>
        hasCurrent := false;
        pendingNew := false;
      case NewFileMode =>
        pendingNew := true;
      case NewPath(path) =>
        if path == "/dev/null" {
          hasCurrent := false;
        } else {
          files := OpenFile(files, path, pendingNew, st.files);
          hasCurrent := true;
          pendingNew := false;
        }
      case OldPath =>
      case HunkAt(start) =>
        lineno := start;
      case _ =>
        if hasCurrent {
          lineno := TakeLine(files, files[|files| - 1], line, lineno, st);
        }
    }
  }
}
