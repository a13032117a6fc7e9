/** Rendering edit scripts and parsing the diff again: exactly when the parser reports what the scripts insert. */
module UnifiedRoundTrip {
  import opened Text
  import opened Pieces
  import opened Diff
  import opened Collections
  import opened UnifiedFormat
  import opened Parsed
  import opened Marks
  import opened UnifiedReading

  // ---- what a file's diff must be like ----

  function FileTokens(f: FilePatch): seq<Line> {
    Tokens(RenderFile(f))
  }

  /** Lines that neither open or close a file nor touch the new-file flag. */
  predicate Quiet(lines: seq<Line>) {
    forall i | 0 <= i < |lines| :: !lines[i].GitHeader? && !lines[i].NewFileMode? && !lines[i].NewPath?
  }

  /** git's extended header lines are none of the lines the parser acts on. */
  predicate WellFormed(f: FilePatch) {
    Quiet(Tokens(f.extra))
  }

  predicate CleanPath(f: FilePatch) {
    OneLine(f.path) && PathSurvives(f.path)
  }

  /** Path and insertions are texts that the parser can report. */
  predicate CleanFile(f: FilePatch) {
    CleanPath(f) && HunksClean(f.hunks)
  }

  /**
   Of a file that is not shown, no line or piece of a line opens a file. Of a shown file, path and
   insertions are clean, nothing in its hunks opens another file, no insertion stands behind a line
   or piece that closes it, no other line or piece is read as added, the line counter is right at
   every insertion, and as many lines and pieces are read as removed as the script deletes.
   */
  predicate Readable(f: FilePatch) {
    if !Shown(f) then Openings(FileTokens(f)) == 0
    else
      var ms := BodyMarks(f.hunks);
      && CleanFile(f)
      && Openings(Lines(ms)) == 0
      && Faithful(ms)
      && Minuses(Live(ms)) == Deletions(ScriptOf(f.hunks))
  }

  /** An insertion is lost and a piece of some other line is read as added. */
  predicate ForgedFile(f: FilePatch) {
    Shown(f) && Forged(BodyMarks(f.hunks))
  }

  predicate AllWellFormed(fs: seq<FilePatch>) {
    forall i | 0 <= i < |fs| :: WellFormed(fs[i])
  }

  predicate AllReadable(fs: seq<FilePatch>) {
    forall i | 0 <= i < |fs| :: Readable(fs[i])
  }

  predicate NoneForged(fs: seq<FilePatch>) {
    forall i | 0 <= i < |fs| :: !ForgedFile(fs[i])
  }

  predicate AllClean(fs: seq<FilePatch>) {
    forall i | 0 <= i < |fs| :: Shown(fs[i]) ==> CleanFile(fs[i])
  }

  // ---- one file, header first ----

  function FirstLine(f: FilePatch): string {
    "diff --git " + ("a/" + f.path + " b/" + f.path)
  }

  function OtherLines(f: FilePatch): seq<string> {
    (if f.change.Created? then ["new file mode 100644"] else [])
    + (f.extra + ((if f.hunks == [] then [] else ["--- " + OldName(f), "+++ " + NewName(f)]) + RenderHunks(f.hunks)))
  }

  lemma FiveParts(a: seq<string>, b: seq<string>, c: seq<string>, d: seq<string>, e: seq<string>)
    ensures (((a + b) + c) + d) + e == a + (b + (c + (d + e)))
  {
  }

  lemma FirstOfFile(f: FilePatch)
    ensures RenderFile(f) == [FirstLine(f)] + OtherLines(f)
  {
    FiveParts([FirstLine(f)], if f.change.Created? then ["new file mode 100644"] else [], f.extra,
              if f.hunks == [] then [] else ["--- " + OldName(f), "+++ " + NewName(f)], RenderHunks(f.hunks));
  }

  /** Every file starts with a line that closes the file before it. */
  lemma FileStarts(f: FilePatch) returns (rest: seq<Line>)
    ensures FileTokens(f) == [GitHeader] + rest
  {
    FirstOfFile(f);
    TokensConcat([FirstLine(f)], OtherLines(f));
    FirstLineIsRead(f);
    rest := Remainder("a/" + f.path + " b/" + f.path) + Tokens(OtherLines(f));
  }

  lemma FirstLineIsRead(f: FilePatch)
    ensures Tokens([FirstLine(f)]) == [GitHeader] + Remainder("a/" + f.path + " b/" + f.path)
  {
    var names := "a/" + f.path + " b/" + f.path;
    TokensPrefix("diff --git ", names);
    GitLine(PiecesOf(names)[0]);
  }

  /** A file's diff leaves the records before it alone and adds one for each line that opens a file. */
  lemma FileAdds(st: ParseState, f: FilePatch)
    requires st.Valid()
    ensures st.files <= Run(st, FileTokens(f)).files
    ensures |Run(st, FileTokens(f)).files| == |st.files| + Openings(FileTokens(f))
  {
    var rest := FileStarts(f);
    StartsClosed(st, rest);
  }

  lemma StartsClosed(st: ParseState, rest: seq<Line>)
    requires st.Valid()
    ensures st.files <= Run(st, [GitHeader] + rest).files
    ensures |Run(st, [GitHeader] + rest).files| == |st.files| + Openings([GitHeader] + rest)
  {
    RunConcat(st, [GitHeader], rest);
    RunOne(st, GitHeader);
    ClosedRun(Step(st, GitHeader), rest);
    OpeningsConcat([GitHeader], rest);
    OpeningsAppend([], GitHeader);
    assert [] + [GitHeader] == [GitHeader];
  }

  lemma RunOne(st: ParseState, line: Line)
    requires st.Valid()
    ensures Run(st, [line]) == Step(st, line)
  {
    RunAppend(st, [], line);
    assert [] + [line] == [line];
  }

  lemma {:induction false} QuietRun(st: ParseState, lines: seq<Line>)
    requires st.Valid() && !st.open && Quiet(lines)
    ensures var next := Run(st, lines); next.files == st.files && !next.open && next.pendingNew == st.pendingNew
  {
    if lines != [] { QuietRun(st, lines[..|lines| - 1]); }
  }

  lemma NamesOneLine(f: FilePatch)
    requires OneLine(f.path)
    ensures OneLine(FirstLine(f)) && OneLine("--- " + OldName(f)) && OneLine("+++ " + NewName(f))
  {
    OneLineConcat("a/", f.path);
    OneLineConcat("a/" + f.path, " b/");
    OneLineConcat("a/" + f.path + " b/", f.path);
    OneLineConcat("diff --git ", "a/" + f.path + " b/" + f.path);
    OneLineConcat(f.path, NameEnd(f.path));
    OneLineConcat("a/", f.path + NameEnd(f.path));
    OneLineConcat("b/", f.path + NameEnd(f.path));
    OneLineConcat("--- ", OldName(f));
    OneLineConcat("+++ ", NewName(f));
  }

  function ModeTokens(f: FilePatch): seq<Line> {
    if f.change.Created? then [NewFileMode] else []
  }

  lemma PreambleIsRead(f: FilePatch)
    requires OneLine(f.path)
    ensures Tokens(Preamble(f)) == ([GitHeader] + ModeTokens(f)) + Tokens(f.extra)
  {
    var mode := if f.change.Created? then ["new file mode 100644"] else [];
    NamesOneLine(f);
    OneLineToken(FirstLine(f));
    GitLine("a/" + f.path + " b/" + f.path);
    ModeLine();
    if f.change.Created? { OneLineToken("new file mode 100644"); }
    assert Tokens(mode) == ModeTokens(f);
    TokensConcat([FirstLine(f)], mode);
    TokensConcat([FirstLine(f)] + mode, f.extra);
  }

  lemma NamesAreRead(f: FilePatch)
    requires OneLine(f.path)
    ensures Tokens(["--- " + OldName(f), "+++ " + NewName(f)]) == [OldPath, NewPath(SeenPath(f))]
  {
    NamesOneLine(f);
    OneLineToken("--- " + OldName(f));
    OneLineToken("+++ " + NewName(f));
    OldPathLine(OldName(f));
    NameIsRead(f);
    TokensConcat(["--- " + OldName(f)], ["+++ " + NewName(f)]);
  }

  lemma PreambleRun(st: ParseState, f: FilePatch)
    requires st.Valid() && WellFormed(f) && OneLine(f.path)
    ensures var next := Run(st, Tokens(Preamble(f)));
            next.files == st.files && !next.open && next.pendingNew == f.change.Created?
  {
    PreambleIsRead(f);
    var start := [GitHeader] + ModeTokens(f);
    RunConcat(st, [GitHeader], ModeTokens(f));
    RunOne(st, GitHeader);
    RunOne(Step(st, GitHeader), NewFileMode);
    RunConcat(st, start, Tokens(f.extra));
    QuietRun(Run(st, start), Tokens(f.extra));
  }

  /** After its header a shown file is open and empty. */
  lemma HeaderRun(st: ParseState, f: FilePatch)
    requires st.Valid() && WellFormed(f) && Shown(f) && CleanPath(f)
    ensures var next := Run(st, Tokens(RenderHeader(f)));
            next.open && next.files == st.files + [FileRecord(f.path, f.change.Created?, [], 0)]
  {
    var names := ["--- " + OldName(f), "+++ " + NewName(f)];
    PreambleRun(st, f);
    NamesAreRead(f);
    PathSurvivesIff(f);
    TokensConcat(Preamble(f), names);
    RunConcat(st, Tokens(Preamble(f)), Tokens(names));
    NamesRun(Run(st, Tokens(Preamble(f))), f.path);
  }

  lemma NamesRun(st: ParseState, path: string)
    requires st.Valid() && path != "/dev/null"
    ensures var next := Run(st, [OldPath, NewPath(path)]);
            next.open && next.files == st.files + [FileRecord(path, st.pendingNew, [], 0)]
  {
    RunPair(st, OldPath, NewPath(path));
  }

  /** The records a file's diff adds. */
  function Records(st: ParseState, f: FilePatch): seq<FileRecord>
    requires st.Valid()
  {
    FileAdds(st, f);
    Run(st, FileTokens(f)).files[|st.files|..]
  }

  lemma RecordsAdded(st: ParseState, f: FilePatch)
    requires st.Valid()
    ensures Run(st, FileTokens(f)).files == st.files + Records(st, f)
  {
    FileAdds(st, f);
  }

  lemma ShownOpens(st: ParseState, f: FilePatch)
    requires st.Valid() && WellFormed(f) && Shown(f) && CleanPath(f)
    ensures |Records(st, f)| == 1 + Openings(Lines(BodyMarks(f.hunks)))
    ensures Run(st, FileTokens(f)) == Run(Run(st, Tokens(RenderHeader(f))), Lines(BodyMarks(f.hunks)))
  {
    BodyIsRead(f.hunks);
    TokensConcat(RenderHeader(f), RenderHunks(f.hunks));
    RunConcat(st, Tokens(RenderHeader(f)), Tokens(RenderHunks(f.hunks)));
    OpeningsConcat(Tokens(RenderHeader(f)), Tokens(RenderHunks(f.hunks)));
    HeaderRun(st, f);
    HeaderOpensOne(st, f);
    FileAdds(st, f);
  }

  lemma HeaderStarts(f: FilePatch) returns (rest: seq<Line>)
    requires Shown(f) && OneLine(f.path)
    ensures Tokens(RenderHeader(f)) == [GitHeader] + rest
  {
    var names := ["--- " + OldName(f), "+++ " + NewName(f)];
    PreambleIsRead(f);
    TokensConcat(Preamble(f), names);
    rest := (ModeTokens(f) + Tokens(f.extra)) + Tokens(names);
    ThreeParts([GitHeader], ModeTokens(f), Tokens(f.extra), Tokens(names));
  }

  lemma ThreeParts(a: seq<Line>, b: seq<Line>, c: seq<Line>, d: seq<Line>)
    ensures ((a + b) + c) + d == a + ((b + c) + d)
  {
  }

  lemma HeaderOpensOne(st: ParseState, f: FilePatch)
    requires st.Valid() && WellFormed(f) && Shown(f) && CleanPath(f)
    ensures Openings(Tokens(RenderHeader(f))) == 1
  {
    var rest := HeaderStarts(f);
    StartsClosed(st, rest);
    HeaderRun(st, f);
  }

  lemma FillEmpty(ready: ParseState, next: ParseState, files: seq<FileRecord>, f: FileRecord, ms: seq<Mark>)
    requires ready.files == files + [f] && f.added == [] && f.removedCount == 0 && Reads(ready, ms, next)
    ensures next.files == files + [f.(added := PlusAt(ready.lineno, Live(ms)), removedCount := Minuses(Live(ms)))]
  {
    assert ready.files[..|ready.files| - 1] == files;
    assert [] + PlusAt(ready.lineno, Live(ms)) == PlusAt(ready.lineno, Live(ms));
  }

  /** What a shown file's diff is read as when nothing in it opens another file. */
  lemma ShownRecord(st: ParseState, f: FilePatch, ms: seq<Mark>) returns (at: nat)
    requires st.Valid() && WellFormed(f) && Shown(f) && CleanPath(f)
    requires ms == BodyMarks(f.hunks) && Openings(Lines(ms)) == 0
    ensures Records(st, f) == [FileRecord(f.path, f.change.Created?, PlusAt(at, Live(ms)), Minuses(Live(ms)))]
  {
    var ready := Run(st, Tokens(RenderHeader(f)));
    ShownOpens(st, f);
    HeaderRun(st, f);
    RunLive(ready, ms);
    FillEmpty(ready, Run(ready, Lines(ms)), st.files, FileRecord(f.path, f.change.Created?, [], 0), ms);
    at := ready.lineno;
  }

  /** One file is read as wanted if it is readable, and only then unless it is forged. */
  lemma FileIsExact(st: ParseState, f: FilePatch)
    requires st.Valid() && WellFormed(f) && (Shown(f) ==> CleanFile(f))
    ensures |Records(st, f)| >= |WantOne(f)|
    ensures Readable(f) ==> Records(st, f) == WantOne(f)
    ensures Records(st, f) == WantOne(f) && !ForgedFile(f) ==> Readable(f)
  {
    FileAdds(st, f);
    if Shown(f) {
      var ms := BodyMarks(f.hunks);
      ShownOpens(st, f);
      if Openings(Lines(ms)) == 0 {
        var at := ShownRecord(st, f, ms);
        BodyExpects(f.hunks);
        BodyStarts(f.hunks);
        LiveIsExact(at, ms);
      }
    }
  }

  // ---- the whole diff ----

  function AllRecords(fs: seq<FilePatch>): seq<FileRecord> {
    Run(START, Tokens(Render(fs))).files
  }

  lemma RenderOfLast(before: seq<FilePatch>, f: FilePatch)
    ensures Render(before + [f]) == Render(before) + RenderFile(f)
    ensures Want(before + [f]) == Want(before) + WantOne(f)
  {
    assert (before + [f])[..|before|] == before;
  }

  lemma RecordsOfLast(before: seq<FilePatch>, f: FilePatch, st: ParseState)
    requires st == Run(START, Tokens(Render(before)))
    ensures AllRecords(before + [f]) == AllRecords(before) + Records(st, f)
  {
    RenderOfLast(before, f);
    TokensConcat(Render(before), RenderFile(f));
    RunConcat(START, Tokens(Render(before)), FileTokens(f));
    RecordsAdded(st, f);
  }

  lemma SameLengths(a: seq<FileRecord>, b: seq<FileRecord>, c: seq<FileRecord>, d: seq<FileRecord>)
    requires |a| >= |c| && |b| >= |d|
    ensures a + b == c + d <==> a == c && b == d
  {
    if |a| == |c| {
      SplitEqual(a, b, c, d);
    } else {
      assert |a + b| > |c + d|;
    }
  }

  lemma AppendedReadable(before: seq<FilePatch>, f: FilePatch)
    ensures AllReadable(before + [f]) <==> AllReadable(before) && Readable(f)
  {
    var fs := before + [f];
    assert fs[|before|] == f && forall i | 0 <= i < |before| :: fs[i] == before[i];
  }

  lemma AppendedForged(before: seq<FilePatch>, f: FilePatch)
    ensures NoneForged(before + [f]) <==> NoneForged(before) && !ForgedFile(f)
  {
    var fs := before + [f];
    assert fs[|before|] == f && forall i | 0 <= i < |before| :: fs[i] == before[i];
  }

  /** Read as wanted if readable, and only then unless forged. */
  predicate Exact(read: seq<FileRecord>, want: seq<FileRecord>, readable: bool, forged: bool) {
    |read| >= |want| && (readable ==> read == want) && (read == want && !forged ==> readable)
  }

  lemma ExactTogether(a: seq<FileRecord>, b: seq<FileRecord>, c: seq<FileRecord>, d: seq<FileRecord>,
                      r1: bool, r2: bool, g1: bool, g2: bool)
    requires Exact(a, c, r1, g1) && Exact(b, d, r2, g2)
    ensures Exact(a + b, c + d, r1 && r2, g1 || g2)
  {
    SameLengths(a, b, c, d);
  }

  predicate ReadExactly(fs: seq<FilePatch>) {
    Exact(AllRecords(fs), Want(fs), AllReadable(fs), !NoneForged(fs))
  }

  lemma OneMoreExact(before: seq<FilePatch>, f: FilePatch)
    requires ReadExactly(before) && WellFormed(f) && (Shown(f) ==> CleanFile(f))
    ensures ReadExactly(before + [f])
  {
    var st := Run(START, Tokens(Render(before)));
    RenderOfLast(before, f);
    RecordsOfLast(before, f, st);
    FileIsExact(st, f);
    AppendedReadable(before, f);
    AppendedForged(before, f);
    ExactTogether(AllRecords(before), Records(st, f), Want(before), WantOne(f),
                  AllReadable(before), Readable(f), !NoneForged(before), ForgedFile(f));
  }

  lemma NothingExact(fs: seq<FilePatch>)
    requires fs == []
    ensures ReadExactly(fs)
  {
    assert AllPieces([]) == [] && Tokens([]) == [];
  }

  lemma LastOfPrefix(fs: seq<FilePatch>, k: nat)
    requires 0 < k <= |fs|
    ensures fs[..k] == fs[..k - 1] + [fs[k - 1]]
  {
  }

  lemma OneMorePrefix(before: seq<FilePatch>, f: FilePatch, gs: seq<FilePatch>)
    requires gs == before + [f] && ReadExactly(before) && WellFormed(f) && (Shown(f) ==> CleanFile(f))
    ensures ReadExactly(gs)
  {
    OneMoreExact(before, f);
  }

  lemma {:induction false} PrefixExact(fs: seq<FilePatch>, k: nat)
    requires AllWellFormed(fs) && AllClean(fs) && k <= |fs|
    ensures ReadExactly(fs[..k])
  {
    if k == 0 {
      NothingExact(fs[..k]);
    } else {
      PrefixExact(fs, k - 1);
      LastOfPrefix(fs, k);
      OneMorePrefix(fs[..k - 1], fs[k - 1], fs[..k]);
    }
  }

  lemma AllExact(fs: seq<FilePatch>)
    requires AllWellFormed(fs) && AllClean(fs)
    ensures ReadExactly(fs)
  {
    PrefixExact(fs, |fs|);
    assert fs[..|fs|] == fs;
  }

  /** Only clean paths and insertions are ever reported. */
  lemma {:induction false} WantedAreClean(fs: seq<FilePatch>)
    requires Printable(Want(fs))
    ensures AllClean(fs)
  {
    if fs != [] {
      var before, f := fs[..|fs| - 1], fs[|fs| - 1];
      assert Want(fs) == Want(before) + WantOne(f);
      assert forall i | 0 <= i < |Want(before)| :: Want(fs)[i] == Want(before)[i];
      WantedAreClean(before);
      if Shown(f) {
        assert RecordPrintable(Want(fs)[|Want(before)|]);
        InsertedClean(f.hunks);
      }
      assert forall i | 0 <= i < |before| :: fs[i] == before[i];
    }
  }

  lemma ParseReadsTokens(lines: seq<string>, maxLines: nat)
    requires |AllPieces(lines)| <= maxLines
    ensures Parse(Terminated(lines), maxLines) == Run(START, Tokens(lines)).files
  {
    SplitTerminatedLines(lines);
  }

  /**
   Parsing a rendered set of edit scripts, whatever their lines hold, yields per shown file and in
   order exactly the inserted lines at their true positions and the exact number of removed lines,
   if every file is readable, and only then unless a file is forged.
   */
  lemma ParseOfRender(fs: seq<FilePatch>, maxLines: nat)
    requires AllWellFormed(fs) && |AllPieces(Render(fs))| <= maxLines
    ensures AllReadable(fs) ==> Parse(Terminated(Render(fs)), maxLines) == Want(fs)
    ensures NoneForged(fs) ==> (Parse(Terminated(Render(fs)), maxLines) == Want(fs) <==> AllReadable(fs))
  {
    ParseReadsTokens(Render(fs), maxLines);
    ParsedIsPrintable(Terminated(Render(fs)), maxLines);
    if Parse(Terminated(Render(fs)), maxLines) == Want(fs) {
      WantedAreClean(fs);
      AllExact(fs);
    }
    if AllReadable(fs) {
      assert AllClean(fs);
      AllExact(fs);
    }
  }
}
