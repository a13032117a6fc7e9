/** CRLF files, and diffs that show what each part of the parser's exact condition is for. */
module UnifiedCases {
  import opened Text
  import opened Pieces
  import opened Wrappers
  import opened Diff
  import opened UnifiedFormat
  import opened Marks
  import opened UnifiedReading
  import opened UnifiedRoundTrip

  // ---- a carriage return at the end of a line is part of the line break ----

  /** The line without the carriage return of its line break. */
  function Chomp(op: Op): Op {
    var t := op.text;
    if t != "" && t[|t| - 1] == '\r' && (|t| == 1 || t[|t| - 2] != '\r') then op.(text := t[..|t| - 1]) else op
  }

  function ChompOps(ops: Script): (gs: Script)
    ensures |gs| == |ops|
  {
    seq(|ops|, i requires 0 <= i < |ops| => Chomp(ops[i]))
  }

  function ChompHunk(h: Hunk): Hunk {
    h.(ops := ChompOps(h.ops))
  }

  function ChompHunks(hunks: seq<Hunk>): (hs: seq<Hunk>)
    ensures |hs| == |hunks|
  {
    seq(|hunks|, i requires 0 <= i < |hunks| => ChompHunk(hunks[i]))
  }

  function ChompFile(f: FilePatch): FilePatch {
    f.(hunks := ChompHunks(f.hunks))
  }

  function ChompAll(fs: seq<FilePatch>): (gs: seq<FilePatch>)
    ensures |gs| == |fs|
  {
    seq(|fs|, i requires 0 <= i < |fs| => ChompFile(fs[i]))
  }

  lemma ChompLine(op: Op)
    ensures PiecesOf(OpLine(Chomp(op))) == PiecesOf(OpLine(op))
  {
    if Chomp(op) != op {
      var s := OpLine(Chomp(op));
      assert op.text == Chomp(op).text + "\r";
      assert OpLine(op) == s + "\r";
      assert s[|s| - 1] != '\r';
      PiecesCr(s);
    }
  }

  lemma SamePieces(xs: seq<string>, ys: seq<string>, a: seq<string>, b: seq<string>, c: seq<string>, d: seq<string>)
    requires xs == a + b && ys == c + d && AllPieces(a) == AllPieces(c) && AllPieces(b) == AllPieces(d)
    ensures AllPieces(xs) == AllPieces(ys)
  {
    AllPiecesConcat(a, b);
    AllPiecesConcat(c, d);
  }

  lemma OnePiece(line: string)
    ensures AllPieces([line]) == PiecesOf(line)
  {
  }

  lemma ChompRender(op: Op)
    ensures AllPieces(RenderOp(Chomp(op))) == AllPieces(RenderOp(op))
  {
    var rest := if op.noEol then [NO_EOL] else [];
    ChompLine(op);
    OnePiece(OpLine(op));
    OnePiece(OpLine(Chomp(op)));
    AllPiecesConcat([OpLine(op)], rest);
    AllPiecesConcat([OpLine(Chomp(op))], rest);
  }

  lemma LastOpOfPrefix(ops: Script, k: nat)
    requires 0 < k <= |ops|
    ensures ops[..k] == ops[..k - 1] + [ops[k - 1]]
  {
  }

  lemma ChompOneOp(ops: Script, gs: Script, before: Script, before': Script, op: Op)
    requires ops == before + [op] && gs == before' + [Chomp(op)]
    requires AllPieces(RenderOps(before')) == AllPieces(RenderOps(before))
    ensures AllPieces(RenderOps(gs)) == AllPieces(RenderOps(ops))
  {
    var op' := Chomp(op);
    ChompRender(op);
    RenderOpsLast(ops, before, op);
    RenderOpsLast(gs, before', op');
    SamePieces(RenderOps(gs), RenderOps(ops), RenderOps(before'), RenderOp(op'), RenderOps(before), RenderOp(op));
  }

  lemma {:induction false} ChompOpsPrefix(ops: Script, gs: Script, k: nat)
    requires k <= |ops| && gs == ChompOps(ops)
    ensures AllPieces(RenderOps(gs[..k])) == AllPieces(RenderOps(ops[..k]))
  {
    if k == 0 {
      assert gs[..0] == ops[..0];
    } else {
      ChompOpsPrefix(ops, gs, k - 1);
      LastOpOfPrefix(ops, k);
      LastOpOfPrefix(gs, k);
      ChompOneOp(ops[..k], gs[..k], ops[..k - 1], gs[..k - 1], ops[k - 1]);
    }
  }

  lemma ChompOpsRender(ops: Script)
    ensures AllPieces(RenderOps(ChompOps(ops))) == AllPieces(RenderOps(ops))
  {
    ChompOpsPrefix(ops, ChompOps(ops), |ops|);
    assert ChompOps(ops)[..|ops|] == ChompOps(ops) && ops[..|ops|] == ops;
  }

  lemma RenderOpsLast(ops: Script, before: Script, op: Op)
    requires ops == before + [op]
    ensures RenderOps(ops) == RenderOps(before) + RenderOp(op)
  {
    assert ops[..|ops| - 1] == before;
  }

  // ---- which leaves the hunk headers alone ----

  /** As many old and new lines. */
  predicate SameSize(a: Script, b: Script) {
    |OldFile(a)| == |OldFile(b)| && |NewFile(a)| == |NewFile(b)|
  }

  lemma {:induction false} SizesConcat(a: Script, b: Script)
    ensures |OldFile(a + b)| == |OldFile(a)| + |OldFile(b)| && |NewFile(a + b)| == |NewFile(a)| + |NewFile(b)|
  {
    if b == [] {
      assert a + b == a;
    } else {
      assert (a + b)[..|a + b| - 1] == a + b[..|b| - 1];
      SizesConcat(a, b[..|b| - 1]);
    }
  }

  lemma {:induction false} ChompOpsSize(ops: Script)
    ensures SameSize(ChompOps(ops), ops)
  {
    if ops != [] {
      ChompOpsSize(ops[..|ops| - 1]);
      assert ChompOps(ops)[..|ops| - 1] == ChompOps(ops[..|ops| - 1]);
    }
  }

  lemma SizeOfHunk(before: seq<Hunk>, h: Hunk)
    ensures |OldFile(ScriptOf(before + [h]))| == |OldFile(ScriptOf(before))| + |OldFile(Gap(h.gap))| + |OldFile(h.ops)|
    ensures |NewFile(ScriptOf(before + [h]))| == |NewFile(ScriptOf(before))| + |NewFile(Gap(h.gap))| + |NewFile(h.ops)|
  {
    ScriptAppend(before, h);
    SizesConcat(ScriptOf(before) + Gap(h.gap), h.ops);
    SizesConcat(ScriptOf(before), Gap(h.gap));
  }

  lemma LastHunkOfPrefix(hs: seq<Hunk>, k: nat)
    requires 0 < k <= |hs|
    ensures hs[..k] == hs[..k - 1] + [hs[k - 1]]
  {
  }

  lemma ChompSizeOfHunk(hs: seq<Hunk>, gs: seq<Hunk>, before: seq<Hunk>, before': seq<Hunk>, h: Hunk)
    requires hs == before + [h] && gs == before' + [ChompHunk(h)] && SameSize(ScriptOf(before'), ScriptOf(before))
    ensures SameSize(ScriptOf(gs), ScriptOf(hs))
  {
    ChompOpsSize(h.ops);
    SizeOfHunk(before, h);
    SizeOfHunk(before', ChompHunk(h));
  }

  lemma {:induction false} ChompHunksSize(hs: seq<Hunk>, gs: seq<Hunk>, k: nat)
    requires k <= |hs| && gs == ChompHunks(hs)
    ensures SameSize(ScriptOf(gs[..k]), ScriptOf(hs[..k]))
  {
    if k > 0 {
      ChompHunksSize(hs, gs, k - 1);
      LastHunkOfPrefix(hs, k);
      LastHunkOfPrefix(gs, k);
      ChompSizeOfHunk(hs[..k], gs[..k], hs[..k - 1], gs[..k - 1], hs[k - 1]);
    }
  }

  lemma SameWithGap(s: Script, t: Script, texts: seq<string>)
    requires SameSize(s, t)
    ensures SameSize(s + Gap(texts), t + Gap(texts))
  {
    SizesConcat(s, Gap(texts));
    SizesConcat(t, Gap(texts));
  }

  lemma SameHeader(s: Script, t: Script, h: Hunk, h': Hunk)
    requires SameSize(s, t) && SameSize(h.ops, h'.ops) && h' == h.(ops := h'.ops)
    ensures HunkHeader(s, h) == HunkHeader(t, h')
  {
    SameWithGap(s, t, h.gap);
  }

  function RenderHunk(s: Script, h: Hunk): seq<string> {
    [HunkHeader(s, h)] + RenderOps(h.ops)
  }

  lemma ChompHunkRender(s: Script, t: Script, h: Hunk)
    requires SameSize(s, t)
    ensures AllPieces(RenderHunk(s, ChompHunk(h))) == AllPieces(RenderHunk(t, h))
  {
    ChompOpsSize(h.ops);
    ChompOpsRender(h.ops);
    SameHeader(t, s, h, ChompHunk(h));
    SamePieces(RenderHunk(s, ChompHunk(h)), RenderHunk(t, h), [HunkHeader(s, ChompHunk(h))], RenderOps(ChompOps(h.ops)),
               [HunkHeader(t, h)], RenderOps(h.ops));
  }

  lemma RenderHunksLast(hunks: seq<Hunk>, before: seq<Hunk>, h: Hunk)
    requires hunks == before + [h]
    ensures RenderHunks(hunks) == RenderHunks(before) + RenderHunk(ScriptOf(before), h)
  {
    assert hunks[..|hunks| - 1] == before;
  }

  lemma ChompOneHunk(hs: seq<Hunk>, gs: seq<Hunk>, before: seq<Hunk>, before': seq<Hunk>, h: Hunk)
    requires hs == before + [h] && gs == before' + [ChompHunk(h)]
    requires AllPieces(RenderHunks(before')) == AllPieces(RenderHunks(before))
    requires SameSize(ScriptOf(before'), ScriptOf(before))
    ensures AllPieces(RenderHunks(gs)) == AllPieces(RenderHunks(hs))
  {
    var h', s', s := ChompHunk(h), ScriptOf(before'), ScriptOf(before);
    ChompHunkRender(s', s, h);
    RenderHunksLast(hs, before, h);
    RenderHunksLast(gs, before', h');
    SamePieces(RenderHunks(gs), RenderHunks(hs), RenderHunks(before'), RenderHunk(s', h'), RenderHunks(before),
      RenderHunk(s, h));
  }

  lemma {:induction false} ChompHunksPrefix(hs: seq<Hunk>, gs: seq<Hunk>, k: nat)
    requires k <= |hs| && gs == ChompHunks(hs)
    ensures AllPieces(RenderHunks(gs[..k])) == AllPieces(RenderHunks(hs[..k]))
  {
    if k == 0 {
      assert gs[..0] == hs[..0];
    } else {
      ChompHunksPrefix(hs, gs, k - 1);
      ChompHunksSize(hs, gs, k - 1);
      LastHunkOfPrefix(hs, k);
      LastHunkOfPrefix(gs, k);
      ChompOneHunk(hs[..k], gs[..k], hs[..k - 1], gs[..k - 1], hs[k - 1]);
    }
  }

  lemma ChompHunksRender(hunks: seq<Hunk>)
    ensures AllPieces(RenderHunks(ChompHunks(hunks))) == AllPieces(RenderHunks(hunks))
  {
    ChompHunksPrefix(hunks, ChompHunks(hunks), |hunks|);
    assert ChompHunks(hunks)[..|hunks|] == ChompHunks(hunks) && hunks[..|hunks|] == hunks;
  }

  lemma ChompFileRender(f: FilePatch)
    ensures AllPieces(RenderFile(ChompFile(f))) == AllPieces(RenderFile(f))
  {
    ChompHunksRender(f.hunks);
    AllPiecesConcat(RenderHeader(f), RenderHunks(f.hunks));
    AllPiecesConcat(RenderHeader(f), RenderHunks(ChompHunks(f.hunks)));
    assert RenderHeader(ChompFile(f)) == RenderHeader(f);
  }

  lemma RenderLast(fs: seq<FilePatch>, before: seq<FilePatch>, f: FilePatch)
    requires fs == before + [f]
    ensures Render(fs) == Render(before) + RenderFile(f)
  {
    assert fs[..|fs| - 1] == before;
  }

  lemma ChompOneFile(fs: seq<FilePatch>, gs: seq<FilePatch>, before: seq<FilePatch>, before': seq<FilePatch>,
                     f: FilePatch)
    requires fs == before + [f] && gs == before' + [ChompFile(f)]
    requires AllPieces(Render(before')) == AllPieces(Render(before))
    ensures AllPieces(Render(gs)) == AllPieces(Render(fs))
  {
    var f' := ChompFile(f);
    ChompFileRender(f);
    RenderLast(fs, before, f);
    RenderLast(gs, before', f');
    SamePieces(Render(gs), Render(fs), Render(before'), RenderFile(f'), Render(before), RenderFile(f));
  }

  lemma {:induction false} ChompPrefix(fs: seq<FilePatch>, gs: seq<FilePatch>, k: nat)
    requires k <= |fs| && gs == ChompAll(fs)
    ensures AllPieces(Render(gs[..k])) == AllPieces(Render(fs[..k]))
  {
    if k == 0 {
      assert gs[..0] == fs[..0];
    } else {
      ChompPrefix(fs, gs, k - 1);
      LastOfPrefix(fs, k);
      LastOfPrefix(gs, k);
      ChompOneFile(fs[..k], gs[..k], fs[..k - 1], gs[..k - 1], fs[k - 1]);
    }
  }

  lemma ChompAllRender(fs: seq<FilePatch>)
    ensures AllPieces(Render(ChompAll(fs))) == AllPieces(Render(fs))
  {
    ChompPrefix(fs, ChompAll(fs), |fs|);
    assert ChompAll(fs)[..|fs|] == ChompAll(fs) && fs[..|fs|] == fs;
  }

  /** The parser does not see whether lines of the files end in LF or in CR LF. */
  lemma CrLfReadsAsLf(fs: seq<FilePatch>, maxLines: nat)
    ensures Parse(Terminated(Render(fs)), maxLines) == Parse(Terminated(Render(ChompAll(fs))), maxLines)
  {
    ChompAllRender(fs);
    SplitTerminatedLines(Render(fs));
    SplitTerminatedLines(Render(ChompAll(fs)));
  }

  /** What is reported of a CRLF file are its lines without their carriage returns, at their true positions. */
  lemma ParseOfCrLf(fs: seq<FilePatch>, maxLines: nat)
    requires AllWellFormed(ChompAll(fs)) && AllReadable(ChompAll(fs)) && |AllPieces(Render(ChompAll(fs)))| <= maxLines
    ensures Parse(Terminated(Render(fs)), maxLines) == Want(ChompAll(fs))
  {
    CrLfReadsAsLf(fs, maxLines);
    ParseOfRender(ChompAll(fs), maxLines);
  }

  // ---- a file with one small hunk ----

  function Small(ops: Script): FilePatch {
    FilePatch("a", Modified, [], [Hunk([], ops, false, "")])
  }

  lemma SmallMarks(ops: Script)
    requires NewFile(ops) != []
    ensures BodyMarks(Small(ops).hunks) == [Mark(HunkAt(1), None)] + OpsMarks(1, ops)
  {
    var h := Small(ops).hunks[0];
    var none: seq<Hunk> := [];
    assert Small(ops).hunks[..0] == none;
    assert ScriptOf(none) + Gap(h.gap) == [];
    assert HunkStartOf(none, h) == 1 == FirstNew(none, h);
    PiecesOneLine("");
    assert Remainder("") == [] && Unplaced(Remainder("")) == [];
  }

  lemma AloneIsRead(f: FilePatch, fs: seq<FilePatch>, maxLines: nat)
    requires fs == [f] && |AllPieces(Render(fs))| <= maxLines
    ensures Parse(Terminated(Render(fs)), maxLines) == Records(START, f) && Want(fs) == WantOne(f)
  {
    var none: seq<FilePatch> := [];
    assert fs == none + [f];
    assert Render(none) == [] && AllPieces([]) == [] && Tokens([]) == [] && Run(START, []) == START;
    ParseReadsTokens(Render(fs), maxLines);
    RecordsOfLast(none, f, START);
    RenderOfLast(none, f);
  }

  lemma SmallIsRead(f: FilePatch, ops: Script, ms: seq<Mark>, l: seq<Mark>)
    requires f == Small(ops) && NewFile(ops) != [] && ms == [Mark(HunkAt(1), None)] + OpsMarks(1, ops)
    requires l == Live(ms) && l != [] && Openings(Lines(ms)) == 0
    ensures Records(START, f) == [FileRecord("a", false, PlusAt(0, l), Minuses(l))]
  {
    SmallMarks(ops);
    assert Tokens(f.extra) == [];
    var at := ShownRecord(START, f, ms);
    StartIrrelevant(at, l);
  }

  lemma SmallScript(ops: Script, hunks: seq<Hunk>)
    requires hunks == Small(ops).hunks
    ensures ScriptOf(hunks) == ops
  {
    var none: seq<Hunk> := [];
    var empty: Script := [];
    assert hunks == none + [hunks[0]];
    ScriptAppend(none, hunks[0]);
    assert ScriptOf(none) + Gap([]) == empty && empty + ops == ops;
  }

  lemma InsertedFromStart(ops: Script, none: Script)
    requires none == []
    ensures Inserted(ops) == Placed(1, ops)
  {
    InsertedConcat(none, ops);
    assert none + ops == ops;
  }

  lemma SmallWant(ops: Script, f: FilePatch)
    requires f == Small(ops)
    ensures WantOne(f) == [FileRecord("a", false, Placed(1, ops), Deletions(ops))]
  {
    SmallScript(ops, f.hunks);
    InsertedFromStart(ops, []);
  }

  /** One more line of a script: its marks and its insertion. */
  lemma OneMoreLine(ops: Script, before: Script, op: Op, ms: seq<Mark>, added: seq<AddedLine>, p: nat)
    requires ops == before + [op] && OpsMarks(1, before) == ms && Placed(1, before) == added &&
             |NewFile(before)| + 1 == p
    ensures OpsMarks(1, ops) == ms + OpMarks(p, op) && Placed(1, ops) == added + AddsOf(p, op)
    ensures |NewFile(ops)| + 1 == p + (if op.kind == Del then 0 else 1)
    ensures Deletions(ops) == Deletions(before) + (if op.kind == Del then 1 else 0)
  {
    assert ops[..|ops| - 1] == before;
    MarksOfLast(1, ops, before, op, p);
    PlacedOfLast(1, ops, before, op, p);
  }

  /** All of ms is read before the file is closed, with this result. */
  predicate IsRead(ms: seq<Mark>, added: seq<AddedLine>, removed: nat, n: nat) {
    && Live(ms) == ms && Openings(Lines(ms)) == 0
    && PlusAt(0, ms) == added && Minuses(ms) == removed && Counter(0, ms) == n
  }

  lemma ReadOne(m: Mark, n: nat)
    requires m.line == HunkAt(n)
    ensures IsRead([m], [], 0, n)
  {
    assert [m][..0] == [] && Lines([m])[..0] == [];
  }

  lemma ReadMore(ms: seq<Mark>, m: Mark, ls: seq<Mark>, added: seq<AddedLine>, removed: nat, n: nat)
    requires IsRead(ms, added, removed, n) && !Ends(m.line) && ls == ms + [m]
    ensures IsRead(ls, added + AddedBy(n, m.line), removed + (if m.line.Minus? then 1 else 0),
            Counter(n, [Mark(m.line, None)]))
  {
    LiveAppend(ms, m);
    AppendMark(0, ms, m);
    assert Lines(ls) == Lines(ms) + [m.line];
    OpeningsAppend(Lines(ms), m.line);
  }

  lemma CounterOne(n: nat, line: Line)
    ensures Counter(n, [Mark(line, None)]) == (match line
                                               case HunkAt(start) => start
                                               case Plus(_) => n + 1
                                               case Other => n + 1
                                               case _ => n)
  {
    assert [Mark(line, None)][..0] == [];
  }

  /** Nothing behind a closing line is read. */
  lemma ClosedFor(ms: seq<Mark>, m: Mark, ls: seq<Mark>, l: seq<Mark>)
    requires ls == ms + [m] && Live(ms) == l && Openings(Lines(ms)) == 0 && !Opens(m.line) && (l == ms ==> Ends(m.line))
    ensures Live(ls) == l && Openings(Lines(ls)) == 0
  {
    LiveAppend(ms, m);
    assert Lines(ls) == Lines(ms) + [m.line];
    OpeningsAppend(Lines(ms), m.line);
  }

  /** A line that the parser reads for what it is. */
  predicate Ordinary(text: string) {
    OneLine(text) && !("++ " <= text) && !("-- " <= text)
  }

  lemma OrdinaryRead(op: Op)
    requires Ordinary(op.text)
    ensures PiecesOf(op.text) == [op.text] && Remainder(op.text) == []
    ensures ReadOp(op) == (match op.kind case Keep => Other case Add => Plus(op.text) case Del => Minus)
  {
    PiecesOneLine(op.text);
  }

  lemma OrdinaryMarks(p: nat, op: Op)
    requires Ordinary(op.text) && !op.noEol && op.kind == Add
    ensures OpMarks(p, op) == [Mark(Plus(op.text), Some(p))]
  {
    OrdinaryRead(op);
    assert Remainder(op.text) + Marker(op) == [] && Unplaced([]) == [];
  }

  /** A line of one kind or another, then an ordinary insertion. */
  lemma ThenInsertion(ops: Script, op: Op, last: Op, ms: seq<Mark>, p: nat)
    requires ops == [op, last] && last.kind == Add && !last.noEol && Ordinary(last.text)
    requires ms == OpMarks(1, op) && p == (if op.kind == Del then 1 else 2)
    ensures OpsMarks(1, ops) == ms + [Mark(Plus(last.text), Some(p))]
    ensures Placed(1, ops) == AddsOf(1, op) + [AddedLine(p, last.text)]
    ensures Deletions(ops) == (if op.kind == Del then 1 else 0) && NewFile(ops) != []
  {
    OrdinaryMarks(p, last);
    OneMoreLine([op], [], op, [], [], 1);
    OneMoreLine(ops, [op], last, ms, AddsOf(1, op), p);
  }

  /** From the marks of a small file to what is reported and what was to be. */
  lemma SmallReport(f: FilePatch, ops: Script, ms: seq<Mark>, l: seq<Mark>, read: seq<AddedLine>, removed: nat,
                    want: seq<AddedLine>, deleted: nat, maxLines: nat)
    requires f == Small(ops) && |AllPieces(Render([f]))| <= maxLines
    ensures Placed(1, ops) == want && Deletions(ops) == deleted ==> Want([f]) == [FileRecord("a", false, want, deleted)]
    ensures NewFile(ops) != [] && ms == [Mark(HunkAt(1), None)] + OpsMarks(1, ops)
            && l == Live(ms) && l != [] && Openings(Lines(ms)) == 0 && PlusAt(0, l) == read && Minuses(l) == removed ==>
              Parse(Terminated(Render([f])), maxLines) == [FileRecord("a", false, read, removed)]
  {
    AloneIsRead(f, [f], maxLines);
    SmallWant(ops, f);
    if NewFile(ops) != [] && ms == [Mark(HunkAt(1), None)] + OpsMarks(1, ops)
       && l == Live(ms) && l != [] && Openings(Lines(ms)) == 0
    {
      SmallIsRead(f, ops, ms, l);
    }
  }

  lemma FourJoined(a: Mark, b: Mark, c: Mark, d: Mark)
    ensures [a] + ([b, c] + [d]) == [a, b, c, d]
  {
  }

  // ---- a no-newline marker is counted as a line ----

  lemma OldLastMarks(op: Op)
    requires op.kind == Del && op.noEol && Ordinary(op.text)
    ensures OpMarks(1, op) == [Mark(Minus, None), Mark(Other, None)]
  {
    OrdinaryRead(op);
    assert Remainder(op.text) + Marker(op) == [Other] && Unplaced([Other]) == [Mark(Other, None)];
  }

  lemma ReplacedIsRead(text: string, a: Mark, b: Mark, c: Mark, d: Mark)
    requires a.line == HunkAt(1) && b.line == Minus && c.line == Other && d.line == Plus(text)
    ensures IsRead([a, b, c, d], [AddedLine(2, text)], 1, 3)
  {
    ReadOne(a, 1);
    CounterOne(1, b.line);
    ReadMore([a], b, [a, b], [], 0, 1);
    CounterOne(1, c.line);
    ReadMore([a, b], c, [a, b, c], [], 1, 1);
    CounterOne(2, d.line);
    ReadMore([a, b, c], d, [a, b, c, d], [], 1, 2);
  }

  lemma ReplacedScript(was: string, now: string, ops: Script, ms: seq<Mark>, want: seq<AddedLine>)
    requires Ordinary(was) && Ordinary(now) && ops == [Op(Del, was, true), Op(Add, now, false)]
    requires ms == [Mark(HunkAt(1), None), Mark(Minus, None), Mark(Other, None), Mark(Plus(now), Some(1))]
    requires want == [AddedLine(1, now)]
    ensures ms == [Mark(HunkAt(1), None)] + OpsMarks(1, ops)
    ensures Placed(1, ops) == want && Deletions(ops) == 1 && NewFile(ops) != []
  {
    OldLastMarks(ops[0]);
    ThenInsertion(ops, ops[0], ops[1], [ms[1], ms[2]], 1);
    FourJoined(ms[0], ms[1], ms[2], ms[3]);
    assert AddsOf(1, ops[0]) + want == want;
  }

  /** Where the last line had no newline, the line replacing it is line 1, and is reported as line 2. */
  lemma MarkerShiftsReplacement(was: string, now: string, ops: Script, f: FilePatch, maxLines: nat)
    requires Ordinary(was) && Ordinary(now) && ops == [Op(Del, was, true), Op(Add, now, false)]
    requires f == Small(ops) && |AllPieces(Render([f]))| <= maxLines
    ensures Want([f]) == [FileRecord("a", false, [AddedLine(1, now)], 1)]
    ensures Parse(Terminated(Render([f])), maxLines) == [FileRecord("a", false, [AddedLine(2, now)], 1)]
  {
    var a, b, c, d := Mark(HunkAt(1), None), Mark(Minus, None), Mark(Other, None), Mark(Plus(now), Some(1));
    var ms, want := [a, b, c, d], [AddedLine(1, now)];
    ReplacedScript(was, now, ops, ms, want);
    ReplacedIsRead(now, a, b, c, d);
    SmallReport(f, ops, ms, ms, [AddedLine(2, now)], 1, want, 1, maxLines);
  }

  // ---- a form feed hides what follows ----

  /** A line in which "diff --git" follows a form feed. */
  function WithFeed(text: string): string {
    text + (['\U{0C}'] + "diff --git")
  }

  lemma FeedPieces(text: string)
    requires OneLine(text)
    ensures PiecesOf(WithFeed(text)) == [text, "diff --git"]
  {
    FixedPieces();
    PiecesBreak(text, '\U{0C}', "diff --git");
    PiecesOneLine("diff --git");
  }

  lemma GitStart()
    ensures Classify("diff --git") == GitHeader
  {
  }

  lemma FixedPieces()
    ensures OneLine("k") && OneLine("diff --git")
  {
  }

  lemma FeedOp(op: Op, text: string)
    requires op.kind == Add && !op.noEol && Ordinary(text) && PiecesOf(op.text) == [text, "diff --git"]
    ensures OpMarks(1, op) == [Mark(Plus(text), Some(1)), Mark(GitHeader, None)]
  {
    GitStart();
    assert Remainder(op.text) + Marker(op) == [GitHeader];
    assert Unplaced([GitHeader]) == [Mark(GitHeader, None)];
  }

  lemma FeedIsRead(text: string, a: Mark, b: Mark, c: Mark, d: Mark)
    requires a.line == HunkAt(1) && b.line == Plus(text) && c.line == GitHeader && d.line.Plus?
    ensures IsRead([a, b], [AddedLine(1, text)], 0, 2)
    ensures Live([a, b, c, d]) == [a, b] && Openings(Lines([a, b, c, d])) == 0
  {
    ReadOne(a, 1);
    CounterOne(1, b.line);
    ReadMore([a], b, [a, b], [], 0, 1);
    ClosedFor([a, b], c, [a, b, c], [a, b]);
    ClosedFor([a, b, c], d, [a, b, c, d], [a, b]);
  }

  lemma FeedScript(text: string, lost: string, ops: Script, ms: seq<Mark>, want: seq<AddedLine>)
    requires Ordinary(text) && Ordinary(lost) && ops == [Op(Add, WithFeed(text), false), Op(Add, lost, false)]
    requires ms == [Mark(HunkAt(1), None), Mark(Plus(text), Some(1)), Mark(GitHeader, None), Mark(Plus(lost), Some(2))]
    requires want == [AddedLine(1, WithFeed(text)), AddedLine(2, lost)]
    ensures ms == [Mark(HunkAt(1), None)] + OpsMarks(1, ops)
    ensures Placed(1, ops) == want && Deletions(ops) == 0 && NewFile(ops) != []
  {
    FeedPieces(text);
    FeedOp(ops[0], text);
    ThenInsertion(ops, ops[0], ops[1], [ms[1], ms[2]], 2);
    FourJoined(ms[0], ms[1], ms[2], ms[3]);
    assert AddsOf(1, ops[0]) + [AddedLine(2, lost)] == want;
  }

  /**
   Two inserted lines, the first with a form feed before "diff --git": half of it is reported, the other
   line is lost.
   */
  lemma FormFeedHidesInsertion(text: string, lost: string, ops: Script, f: FilePatch, maxLines: nat)
    requires Ordinary(text) && Ordinary(lost) && ops == [Op(Add, WithFeed(text), false), Op(Add, lost, false)]
    requires f == Small(ops) && |AllPieces(Render([f]))| <= maxLines
    ensures Want([f]) == [FileRecord("a", false, [AddedLine(1, WithFeed(text)), AddedLine(2, lost)], 0)]
    ensures Parse(Terminated(Render([f])), maxLines) == [FileRecord("a", false, [AddedLine(1, text)], 0)]
  {
    var a, b := Mark(HunkAt(1), None), Mark(Plus(text), Some(1));
    var c, d := Mark(GitHeader, None), Mark(Plus(lost), Some(2));
    var ms, l, want := [a, b, c, d], [a, b], [AddedLine(1, WithFeed(text)), AddedLine(2, lost)];
    FeedScript(text, lost, ops, ms, want);
    FeedIsRead(text, a, b, c, d);
    SmallReport(f, ops, ms, l, [AddedLine(1, text)], 0, want, 0, maxLines);
  }

  // ---- a forged diff is read right although it is not readable ----

  /** A kept line whose pieces renumber the hunk, stand in for the insertion and close the file. */
  function Forgery(renumber: string, text: string): Op {
    Op(Keep, "k" + (['\U{0C}'] + (renumber + (['\U{0C}'] + (("+" + text) + (['\U{0C}'] + "diff --git"))))), false)
  }

  /** The line that is inserted behind it. */
  function Stolen(text: string): Op {
    Op(Add, text, false)
  }

  function Renumber(): string {
    HeaderText(Range(1, 1, false), Range(2, 1, false), "")
  }

  lemma RenumberIsRead()
    ensures OneLine(Renumber()) && Classify(Renumber()) == HunkAt(2)
  {
    RangeOneLine(1, 1, false);
    RangeOneLine(2, 1, false);
    HeaderTextOneLine(Range(1, 1, false), Range(2, 1, false), "");
    HeaderRead(1, 1, 2, 1, false, "");
    AtLine(Renumber(), 2);
  }

  lemma FourPieces(a: string, b: string, c: string, d: string, feed: char)
    requires OneLine(a) && OneLine(b) && OneLine(c) && OneLine(d) && IsLineBreak(feed) && feed != '\r'
    ensures PiecesOf(a + ([feed] + (b + ([feed] + (c + ([feed] + d)))))) == [a, b, c, d]
  {
    PiecesOneLine(d);
    PiecesBreak(c, feed, d);
    PiecesBreak(b, feed, c + ([feed] + d));
    PiecesBreak(a, feed, b + ([feed] + (c + ([feed] + d))));
  }

  lemma ReadFour(ps: seq<string>, a: string, b: string, c: string, d: string)
    requires ps == [a, b, c, d]
    ensures Read(ps[1..]) == [Classify(b), Classify(c), Classify(d)]
  {
  }

  lemma ForgedPieces(renumber: string, text: string)
    ensures OneLine(renumber) && OneLine(text) ==>
              PiecesOf(Forgery(renumber, text).text) == ["k", renumber, "+" + text, "diff --git"]
  {
    if OneLine(renumber) && OneLine(text) {
      FixedPieces();
      OneLineConcat("+", text);
      FourPieces("k", renumber, "+" + text, "diff --git", '\U{0C}');
    }
  }

  lemma ForgedRest(renumber: string, text: string)
    requires Ordinary(text)
    ensures OneLine(renumber) && Classify(renumber) == HunkAt(2) ==>
              Remainder(Forgery(renumber, text).text) == [HunkAt(2), Plus(text), GitHeader]
  {
    ForgedPieces(renumber, text);
    if OneLine(renumber) {
      ReadFour(PiecesOf(Forgery(renumber, text).text), "k", renumber, "+" + text, "diff --git");
      AddedText(text);
      GitStart();
    }
  }

  lemma ThreeUnplaced(a: Line, b: Line, c: Line)
    ensures Unplaced([a, b, c]) == [Mark(a, None), Mark(b, None), Mark(c, None)]
  {
  }

  lemma ForgedOp(at: nat, op: Op, text: string)
    requires op.kind == Keep && !op.noEol && Remainder(op.text) == [HunkAt(2), Plus(text), GitHeader]
    ensures OpMarks(at, op) == [Mark(Other, None), Mark(HunkAt(2), None), Mark(Plus(text), None), Mark(GitHeader, None)]
  {
    var rest := [HunkAt(2), Plus(text), GitHeader];
    assert rest + Marker(op) == rest;
    ThreeUnplaced(HunkAt(2), Plus(text), GitHeader);
  }

  lemma ForgedIsRead(text: string, a: Mark, b: Mark, c: Mark, d: Mark, e: Mark, g: Mark)
    requires a.line == HunkAt(1) && b.line == Other && c.line == HunkAt(2) && d.line == Plus(text)
    requires e.line == GitHeader && g.line == Plus(text)
    ensures IsRead([a, b, c, d], [AddedLine(2, text)], 0, 3)
    ensures Live([a, b, c, d, e, g]) == [a, b, c, d] && Openings(Lines([a, b, c, d, e, g])) == 0
  {
    ReadOne(a, 1);
    CounterOne(1, b.line);
    ReadMore([a], b, [a, b], [], 0, 1);
    CounterOne(2, c.line);
    ReadMore([a, b], c, [a, b, c], [], 0, 2);
    CounterOne(2, d.line);
    ReadMore([a, b, c], d, [a, b, c, d], [], 0, 2);
    ClosedFor([a, b, c, d], e, [a, b, c, d, e], [a, b, c, d]);
    ClosedFor([a, b, c, d, e], g, [a, b, c, d, e, g], [a, b, c, d]);
  }

  function ForgedBody(text: string): seq<Mark> {
    [Mark(HunkAt(1), None), Mark(Other, None), Mark(HunkAt(2), None), Mark(Plus(text), None),
     Mark(GitHeader, None), Mark(Plus(text), Some(2))]
  }

  lemma ForgedBodyIsRead(text: string, ms: seq<Mark>)
    requires ms == ForgedBody(text)
    ensures Live(ms) == ms[..4] && Openings(Lines(ms)) == 0
    ensures PlusAt(0, ms[..4]) == [AddedLine(2, text)] && Minuses(ms[..4]) == 0
    ensures Forged(ms)
  {
    ForgedIsRead(text, ms[0], ms[1], ms[2], ms[3], ms[4], ms[5]);
    assert ms[..4] == [ms[0], ms[1], ms[2], ms[3]] == ms[..3] + [ms[3]];
    assert ms == [ms[0], ms[1], ms[2], ms[3], ms[4], ms[5]];
    FalseAdd(ms[..3], ms[3]);
    assert Late(ms) == [ms[4], ms[5]];
    LostBehind(ms[4], ms[5]);
  }

  lemma SixJoined(a: Mark, body: seq<Mark>, last: Mark)
    requires |body| == 4
    ensures [a] + (body + [last]) == [a, body[0], body[1], body[2], body[3], last]
  {
  }

  lemma ForgedSmall(op: Op, text: string, ops: Script, ms: seq<Mark>)
    requires op.kind == Keep && !op.noEol && Remainder(op.text) == [HunkAt(2), Plus(text), GitHeader]
    requires ops == [op, Stolen(text)] && ms == ForgedBody(text) && Ordinary(text)
    ensures ms == [Mark(HunkAt(1), None)] + OpsMarks(1, ops)
    ensures Placed(1, ops) == [AddedLine(2, text)] && Deletions(ops) == 0 && NewFile(ops) != []
  {
    var body := [Mark(Other, None), Mark(HunkAt(2), None), Mark(Plus(text), None), Mark(GitHeader, None)];
    ForgedOp(1, op, text);
    ThenInsertion(ops, op, Stolen(text), body, 2);
    SixJoined(Mark(HunkAt(1), None), body, Mark(Plus(text), Some(2)));
  }

  lemma ForgedUnreadable(f: FilePatch, ops: Script, ms: seq<Mark>)
    requires f == Small(ops) && NewFile(ops) != [] && ms == [Mark(HunkAt(1), None)] + OpsMarks(1, ops) && Forged(ms)
    ensures ForgedFile(f) && !Readable(f)
  {
    SmallMarks(ops);
  }

  /** A lost insertion and a piece that stands in for it: why the condition is exact only without forgery. */
  lemma ForgedIsReadRight(renumber: string, text: string, f: FilePatch, maxLines: nat)
    requires Ordinary(text) && renumber == Renumber()
    requires f == Small([Forgery(renumber, text), Stolen(text)]) && |AllPieces(Render([f]))| <= maxLines
    ensures Parse(Terminated(Render([f])), maxLines) == Want([f]) == [FileRecord("a", false, [AddedLine(2, text)], 0)]
    ensures ForgedFile(f) && !Readable(f)
  {
    var ops, ms := f.hunks[0].ops, ForgedBody(text);
    RenumberIsRead();
    ForgedRest(renumber, text);
    ForgedSmall(ops[0], text, ops, ms);
    ForgedBodyIsRead(text, ms);
    SmallReport(f, ops, ms, ms[..4], [AddedLine(2, text)], 0, [AddedLine(2, text)], 0, maxLines);
    ForgedUnreadable(f, ops, ms);
  }

  lemma LostBehind(e: Mark, g: Mark)
    requires g.place.Some? && g.line.Plus?
    ensures Expected([e, g]) != []
  {
    assert [e, g][..1] == [e];
  }

  lemma FalseAdd(ms: seq<Mark>, d: Mark)
    requires d.place.None? && d.line.Plus?
    ensures FalseAdds(ms + [d]) > 0
  {
    AppendMark(0, ms, d);
  }
}
