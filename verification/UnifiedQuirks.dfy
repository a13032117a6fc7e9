/**
 What the parser makes of diffs with breaks inside lines, no-newline markers, carriage returns and mimicked
 headers.
 */
module UnifiedQuirks {
  import opened Text
  import opened Pieces
  import opened Wrappers
  import opened Diff
  import opened UnifiedFormat
  import opened Parsed
  import opened Marks
  import opened UnifiedReading
  import opened UnifiedRoundTrip

  // ---- the condition in terms of the lines, when no piece of a line mimics a line of its own ----

  /** Pieces that are read as context or skipped. */
  predicate Tame(ls: seq<Line>) {
    ls == [] || (Tame(ls[..|ls| - 1]) && (ls[|ls| - 1].Other? || ls[|ls| - 1].OldPath?))
  }

  predicate TameOps(ops: Script) {
    ops == [] || (TameOps(ops[..|ops| - 1]) && Tame(Remainder(ops[|ops| - 1].text)))
  }

  predicate TameHunk(h: Hunk) {
    Tame(Remainder(h.section)) && TameOps(h.ops)
  }

  predicate TameFile(f: FilePatch) {
    Shown(f) ==> forall i | 0 <= i < |f.hunks| :: TameHunk(f.hunks[i])
  }

  /** How many of the pieces move the parser's line counter, as if they were lines of the new file. */
  function Shifts(ls: seq<Line>): nat {
    if ls == [] then 0 else Shifts(ls[..|ls| - 1]) + (if ls[|ls| - 1].Other? then 1 else 0)
  }

  function ShiftOf(op: Op): nat {
    Shifts(Remainder(op.text) + Marker(op))
  }

  /** How far the line counter is off after ops, having been off by d. */
  function Drift(d: nat, ops: Script): nat {
    if ops == [] then d else Drift(d, ops[..|ops| - 1]) + ShiftOf(ops[|ops| - 1])
  }

  /** No line is inserted after an extra piece or marker of the same hunk. */
  predicate Steady(d: nat, ops: Script) {
    ops == [] || (Steady(d, ops[..|ops| - 1]) && (ops[|ops| - 1].kind == Add ==> Drift(d, ops[..|ops| - 1]) == 0))
  }

  /** No removed line starts with "-- ". */
  predicate PlainDels(ops: Script) {
    ops == [] || (PlainDels(ops[..|ops| - 1]) && (ops[|ops| - 1].kind == Del ==> !("-- " <= ops[|ops| - 1].text)))
  }

  predicate SimpleHunk(h: Hunk) {
    PlainDels(h.ops) && Steady(Shifts(Remainder(h.section)), h.ops)
  }

  predicate SimpleHunks(hunks: seq<Hunk>) {
    forall i | 0 <= i < |hunks| :: SimpleHunk(hunks[i])
  }

  predicate Simple(f: FilePatch) {
    if Shown(f) then CleanFile(f) && SimpleHunks(f.hunks) else Openings(FileTokens(f)) == 0
  }

  // ---- marks that neither close the file nor add a line of their own ----

  predicate Mild(ms: seq<Mark>) {
    ms == [] || (Mild(ms[..|ms| - 1]) && !Ends(ms[|ms| - 1].line) &&
      (ms[|ms| - 1].line.Plus? ==> ms[|ms| - 1].place.Some?))
  }

  lemma {:induction false} MildConcat(a: seq<Mark>, b: seq<Mark>)
    ensures Mild(a + b) <==> Mild(a) && Mild(b)
  {
    if b == [] {
      assert a + b == a;
    } else {
      assert (a + b)[..|a + b| - 1] == a + b[..|b| - 1];
      MildConcat(a, b[..|b| - 1]);
    }
  }

  lemma {:induction false} MildFacts(ms: seq<Mark>)
    requires Mild(ms)
    ensures Live(ms) == ms && FalseAdds(ms) == 0 && Openings(Lines(ms)) == 0
  {
    if ms != [] {
      MildFacts(ms[..|ms| - 1]);
      assert Lines(ms)[..|ms| - 1] == Lines(ms[..|ms| - 1]);
    }
  }

  lemma {:induction false} TameIsMild(ls: seq<Line>)
    requires Tame(ls)
    ensures Mild(Unplaced(ls)) && Minuses(Unplaced(ls)) == 0
  {
    if ls != [] {
      assert Unplaced(ls)[..|ls| - 1] == Unplaced(ls[..|ls| - 1]);
      TameIsMild(ls[..|ls| - 1]);
    }
  }

  lemma {:induction false} MinusesConcat(a: seq<Mark>, b: seq<Mark>)
    ensures Minuses(a + b) == Minuses(a) + Minuses(b)
  {
    if b == [] {
      assert a + b == a;
    } else {
      assert (a + b)[..|a + b| - 1] == a + b[..|b| - 1];
      MinusesConcat(a, b[..|b| - 1]);
    }
  }

  lemma {:induction false} CounterConcat(at: nat, a: seq<Mark>, b: seq<Mark>)
    ensures Counter(at, a + b) == Counter(Counter(at, a), b)
    ensures Timely(at, a + b) <==> Timely(at, a) && Timely(Counter(at, a), b)
  {
    if b == [] {
      assert a + b == a;
    } else {
      assert (a + b)[..|a + b| - 1] == a + b[..|b| - 1];
      CounterConcat(at, a, b[..|b| - 1]);
    }
  }

  lemma MildJoin(ms: seq<Mark>, a: seq<Mark>, b: seq<Mark>)
    requires ms == a + b
    ensures Mild(ms) <==> Mild(a) && Mild(b)
    ensures Minuses(ms) == Minuses(a) + Minuses(b)
  {
    MildConcat(a, b);
    MinusesConcat(a, b);
  }

  lemma CounterJoin(at: nat, ms: seq<Mark>, a: seq<Mark>, b: seq<Mark>)
    requires ms == a + b
    ensures Counter(at, ms) == Counter(Counter(at, a), b)
    ensures Timely(at, ms) <==> Timely(at, a) && Timely(Counter(at, a), b)
  {
    CounterConcat(at, a, b);
  }

  lemma {:induction false} TameCounter(at: nat, ls: seq<Line>)
    requires Tame(ls)
    ensures Counter(at, Unplaced(ls)) == at + Shifts(ls) && Timely(at, Unplaced(ls))
  {
    if ls != [] {
      assert Unplaced(ls)[..|ls| - 1] == Unplaced(ls[..|ls| - 1]);
      TameCounter(at, ls[..|ls| - 1]);
    }
  }

  lemma OneMark(at: nat, m: Mark)
    ensures Counter(at, [m]) == (match m.line
                                 case HunkAt(start) => start
                                 case Plus(_) => at + 1
                                 case Other => at + 1
                                 case _ => at)
    ensures Timely(at, [m]) <==> (m.place.Some? ==> m.place.value == at)
    ensures Minuses([m]) == if m.line.Minus? then 1 else 0
    ensures Mild([m]) <==> !Ends(m.line) && (m.line.Plus? ==> m.place.Some?)
  {
    assert [m][..0] == [];
  }

  // ---- one line ----

  lemma TameMarker(op: Op)
    requires Tame(Remainder(op.text))
    ensures Tame(Remainder(op.text) + Marker(op))
  {
    var ls := Remainder(op.text) + Marker(op);
    if op.noEol {
      assert ls[..|ls| - 1] == Remainder(op.text);
    } else {
      assert ls == Remainder(op.text);
    }
  }

  function Removed(op: Op): nat {
    if op.kind == Del && !("-- " <= op.text) then 1 else 0
  }

  function Lines1(op: Op): nat {
    if op.kind == Del then 0 else 1
  }

  lemma OpFirst(p: nat, op: Op, m: Mark)
    requires CleanAdd(op) && m == Mark(ReadOp(op), if op.kind == Add then Some(p) else None)
    ensures Mild([m]) && Minuses([m]) == Removed(op)
    ensures forall c: nat :: Counter(c, [m]) == c + Lines1(op) && (Timely(c, [m]) <==> (op.kind == Add ==> c == p))
  {
    forall c: nat ensures Counter(c, [m]) == c + Lines1(op) && (Timely(c, [m]) <==> (op.kind == Add ==> c == p)) {
      if op.kind == Add { PiecesOneLine(op.text); }
      OneMark(c, m);
    }
    OneMark(0, m);
    if op.kind == Add { PiecesOneLine(op.text); }
    FirstPiecePrefix("-- ", op.text);
  }

  lemma OpEffect(c: nat, p: nat, op: Op)
    requires CleanAdd(op) && Tame(Remainder(op.text))
    ensures Mild(OpMarks(p, op)) && Minuses(OpMarks(p, op)) == Removed(op)
    ensures Counter(c, OpMarks(p, op)) == c + Lines1(op) + ShiftOf(op)
    ensures Timely(c, OpMarks(p, op)) <==> (op.kind == Add ==> c == p)
  {
    var rest := Remainder(op.text) + Marker(op);
    var m := Mark(ReadOp(op), if op.kind == Add then Some(p) else None);
    OpFirst(p, op, m);
    TameMarker(op);
    TameIsMild(rest);
    TameCounter(c + Lines1(op), rest);
    MildConcat([m], Unplaced(rest));
    MinusesConcat([m], Unplaced(rest));
    CounterConcat(c, [m], Unplaced(rest));
  }

  // ---- the lines of a hunk ----

  lemma {:induction false} OpsMild(at: nat, ops: Script)
    requires CleanAdds(ops) && TameOps(ops)
    ensures Mild(OpsMarks(at, ops)) && Minuses(OpsMarks(at, ops)) == RemovedBy(ops)
  {
    if ops != [] {
      var before, op := ops[..|ops| - 1], ops[|ops| - 1];
      var p := at + |NewFile(before)|;
      OpsMild(at, before);
      OpEffect(0, p, op);
      MarksOfLast(at, ops, before, op, p);
      MildJoin(OpsMarks(at, ops), OpsMarks(at, before), OpMarks(p, op));
    }
  }

  function RemovedBy(ops: Script): nat {
    if ops == [] then 0 else RemovedBy(ops[..|ops| - 1]) + Removed(ops[|ops| - 1])
  }

  lemma {:induction false} RemovedIsDeleted(ops: Script)
    ensures RemovedBy(ops) <= Deletions(ops)
    ensures RemovedBy(ops) == Deletions(ops) <==> PlainDels(ops)
  {
    if ops != [] { RemovedIsDeleted(ops[..|ops| - 1]); }
  }

  lemma NewFileOfLast(ops: Script, before: Script, op: Op)
    requires ops != [] && before == ops[..|ops| - 1] && op == ops[|ops| - 1]
    ensures |NewFile(ops)| == |NewFile(before)| + Lines1(op)
  {
  }

  lemma DriftOfLast(d: nat, ops: Script, before: Script, op: Op)
    requires ops != [] && before == ops[..|ops| - 1] && op == ops[|ops| - 1]
    ensures Drift(d, ops) == Drift(d, before) + ShiftOf(op)
    ensures Steady(d, ops) <==> Steady(d, before) && (op.kind == Add ==> Drift(d, before) == 0)
  {
  }

  /** From c the marks take the counter to end, and it is right at every insertion exactly when `right`. */
  predicate Takes(ms: seq<Mark>, c: nat, end: nat, right: bool) {
    Counter(c, ms) == end && (Timely(c, ms) <==> right)
  }

  lemma TakesThrough(ms: seq<Mark>, a: seq<Mark>, b: seq<Mark>, c: nat, mid: nat, end: nat, r1: bool, r2: bool)
    requires ms == a + b && Takes(a, c, mid, r1) && Takes(b, mid, end, r2)
    ensures Takes(ms, c, end, r1 && r2)
  {
    CounterConcat(c, a, b);
  }

  lemma OpTakes(d: nat, p: nat, op: Op, c: nat, end: nat)
    requires CleanAdd(op) && Tame(Remainder(op.text)) && c == p + d && end == p + Lines1(op) + d + ShiftOf(op)
    ensures Takes(OpMarks(p, op), c, end, op.kind == Add ==> d == 0)
  {
    OpEffect(c, p, op);
  }

  lemma OneMoreTake(at: nat, ops: Script, before: Script, op: Op, p: nat, c: nat, mid: nat, end: nat, r1: bool,
                    r2: bool)
    requires ops != [] && before == ops[..|ops| - 1] && op == ops[|ops| - 1] && p == at + |NewFile(before)|
    requires Takes(OpsMarks(at, before), c, mid, r1) && Takes(OpMarks(p, op), mid, end, r2)
    ensures Takes(OpsMarks(at, ops), c, end, r1 && r2)
  {
    MarksOfLast(at, ops, before, op, p);
    TakesThrough(OpsMarks(at, ops), OpsMarks(at, before), OpMarks(p, op), c, mid, end, r1, r2);
  }

  /** Started off by d, the counter is off by the drift, and right at every insertion if the hunk is steady. */
  lemma {:induction false} OpsTake(d: nat, at: nat, ops: Script, c: nat, end: nat)
    requires CleanAdds(ops) && TameOps(ops) && c == at + d && end == at + |NewFile(ops)| + Drift(d, ops)
    ensures Takes(OpsMarks(at, ops), c, end, Steady(d, ops))
  {
    if ops != [] {
      var before, op := ops[..|ops| - 1], ops[|ops| - 1];
      var p, off := at + |NewFile(before)|, Drift(d, before);
      var mid, r1, r2 := p + off, Steady(d, before), op.kind == Add ==> off == 0;
      OpsTake(d, at, before, c, mid);
      NewFileOfLast(ops, before, op);
      DriftOfLast(d, ops, before, op);
      OpTakes(off, p, op, mid, end);
      OneMoreTake(at, ops, before, op, p, c, mid, end, r1, r2);
    }
  }

  lemma {:induction false} OnlyDeletions(c: nat, at: nat, d: nat, ops: Script)
    requires CleanAdds(ops) && TameOps(ops)
    ensures NewFile(ops) == [] ==> Timely(c, OpsMarks(at, ops)) && Steady(d, ops)
  {
    if ops != [] && NewFile(ops) == [] {
      var before, op := ops[..|ops| - 1], ops[|ops| - 1];
      var p := at + |NewFile(before)|;
      OnlyDeletions(c, at, d, before);
      OpEffect(Counter(c, OpsMarks(at, before)), p, op);
      MarksOfLast(at, ops, before, op, p);
      CounterJoin(c, OpsMarks(at, ops), OpsMarks(at, before), OpMarks(p, op));
    }
  }

  lemma HeaderMild(before: seq<Hunk>, h: Hunk)
    requires TameHunk(h)
    ensures Mild(HeaderMarks(before, h)) && Minuses(HeaderMarks(before, h)) == 0
  {
    var first, extra := Mark(HunkAt(HunkStartOf(before, h)), None), Remainder(h.section);
    OneMark(0, first);
    TameIsMild(extra);
    MildJoin(HeaderMarks(before, h), [first], Unplaced(extra));
  }

  lemma HeaderTakes(c: nat, before: seq<Hunk>, h: Hunk, end: nat)
    requires Tame(Remainder(h.section)) && end == HunkStartOf(before, h) + Shifts(Remainder(h.section))
    ensures Takes(HeaderMarks(before, h), c, end, true)
  {
    var first, extra := Mark(HunkAt(HunkStartOf(before, h)), None), Remainder(h.section);
    OneMark(c, first);
    TameCounter(HunkStartOf(before, h), extra);
    TakesThrough(HeaderMarks(before, h), [first], Unplaced(extra), c, HunkStartOf(before, h), end, true, true);
  }

  /** A hunk without new lines starts one line early, but inserts nothing. */
  lemma OpsOfHunk(before: seq<Hunk>, h: Hunk, d: nat, start: nat) returns (end: nat)
    requires CleanAdds(h.ops) && TameOps(h.ops) && start == HunkStartOf(before, h) + d
    ensures Takes(OpsMarks(FirstNew(before, h), h.ops), start, end, Steady(d, h.ops))
  {
    var at := FirstNew(before, h);
    if NewFile(h.ops) == [] {
      OnlyDeletions(start, at, d, h.ops);
      end := Counter(start, OpsMarks(at, h.ops));
    } else {
      end := at + |NewFile(h.ops)| + Drift(d, h.ops);
      OpsTake(d, at, h.ops, start, end);
    }
  }

  lemma HunkMild(before: seq<Hunk>, h: Hunk)
    requires CleanAdds(h.ops) && TameHunk(h)
    ensures Mild(HunkMarks(before, h)) && Minuses(HunkMarks(before, h)) == RemovedBy(h.ops)
  {
    HeaderMild(before, h);
    OpsMild(FirstNew(before, h), h.ops);
    MildJoin(HunkMarks(before, h), HeaderMarks(before, h), OpsMarks(FirstNew(before, h), h.ops));
  }

  lemma HunkTakes(c: nat, before: seq<Hunk>, h: Hunk) returns (end: nat)
    requires CleanAdds(h.ops) && TameHunk(h)
    ensures Takes(HunkMarks(before, h), c, end, Steady(Shifts(Remainder(h.section)), h.ops))
  {
    var d := Shifts(Remainder(h.section));
    var start := HunkStartOf(before, h) + d;
    HeaderTakes(c, before, h, start);
    end := OpsOfHunk(before, h, d, start);
    TakesThrough(HunkMarks(before, h), HeaderMarks(before, h), OpsMarks(FirstNew(before, h), h.ops), c, start, end,
                 true, Steady(d, h.ops));
  }

  // ---- the hunks of a file ----

  lemma {:induction false} DeletionsConcat(a: Script, b: Script)
    ensures Deletions(a + b) == Deletions(a) + Deletions(b)
  {
    if b == [] {
      assert a + b == a;
    } else {
      assert (a + b)[..|a + b| - 1] == a + b[..|b| - 1];
      DeletionsConcat(a, b[..|b| - 1]);
    }
  }

  lemma {:induction false} GapDeletesNothing(texts: seq<string>)
    ensures Deletions(Gap(texts)) == 0
  {
    if texts != [] {
      assert Gap(texts)[..|texts| - 1] == Gap(texts[..|texts| - 1]);
      GapDeletesNothing(texts[..|texts| - 1]);
    }
  }

  lemma DeletionsByHunk(before: seq<Hunk>, h: Hunk)
    ensures Deletions(ScriptOf(before + [h])) == Deletions(ScriptOf(before)) + Deletions(h.ops)
  {
    ScriptAppend(before, h);
    DeletionsConcat(ScriptOf(before) + Gap(h.gap), h.ops);
    DeletionsConcat(ScriptOf(before), Gap(h.gap));
    GapDeletesNothing(h.gap);
  }

  predicate TameHunks(hunks: seq<Hunk>) {
    forall i | 0 <= i < |hunks| :: TameHunk(hunks[i])
  }

  /** Mild, and read exactly as far as removed lines and the counter go if and only if the hunks are simple. */
  predicate ReadsSimply(hunks: seq<Hunk>, ms: seq<Mark>) {
    && Mild(ms) && Minuses(ms) <= Deletions(ScriptOf(hunks))
    && (Minuses(ms) == Deletions(ScriptOf(hunks)) && Timely(0, ms) <==> SimpleHunks(hunks))
  }

  lemma SimpleOneMore(before: seq<Hunk>, h: Hunk)
    ensures SimpleHunks(before + [h]) <==> SimpleHunks(before) && SimpleHunk(h)
  {
    var hunks := before + [h];
    assert hunks[|before|] == h && forall i | 0 <= i < |before| :: hunks[i] == before[i];
  }

  lemma BodyOneMore(hunks: seq<Hunk>, before: seq<Hunk>, h: Hunk, ms: seq<Mark>, a: seq<Mark>, b: seq<Mark>)
    requires hunks == before + [h]
    requires ReadsSimply(before, a) && ms == a + b && b == HunkMarks(before, h) && CleanAdds(h.ops) && TameHunk(h)
    ensures ReadsSimply(hunks, ms)
  {
    HunkMild(before, h);
    var end := HunkTakes(Counter(0, a), before, h);
    RemovedIsDeleted(h.ops);
    MildJoin(ms, a, b);
    CounterJoin(0, ms, a, b);
    DeletionsByHunk(before, h);
    SimpleOneMore(before, h);
  }

  lemma {:induction false} BodyEffect(hunks: seq<Hunk>)
    requires HunksClean(hunks) && TameHunks(hunks)
    ensures ReadsSimply(hunks, BodyMarks(hunks))
  {
    if hunks != [] {
      var before, h := hunks[..|hunks| - 1], hunks[|hunks| - 1];
      assert CleanAdds(h.ops) && TameHunk(h);
      BodyEffect(before);
      BodyOfLast(hunks, before, h);
      BodyOneMore(hunks, before, h, BodyMarks(hunks), BodyMarks(before), HunkMarks(before, h));
    }
  }

  lemma TameReadable(f: FilePatch)
    requires TameFile(f) && (Shown(f) ==> CleanFile(f))
    ensures Readable(f) <==> Simple(f)
    ensures !ForgedFile(f)
  {
    if Shown(f) {
      var ms := BodyMarks(f.hunks);
      BodyEffect(f.hunks);
      MildFacts(ms);
      assert Late(ms) == [] && Expected([]) == [];
    }
  }

  /**
   When pieces of lines are at most read as context or skipped: the diff is read exactly if and only
   if every shown file has a clean path and clean insertions, no removed line starts with "-- ", and
   no line is inserted after an extra piece or a no-newline marker of its hunk.
   */
  lemma ParseOfTame(fs: seq<FilePatch>, maxLines: nat)
    requires AllWellFormed(fs) && |AllPieces(Render(fs))| <= maxLines
    requires forall i | 0 <= i < |fs| :: TameFile(fs[i])
    ensures Parse(Terminated(Render(fs)), maxLines) == Want(fs) <==> forall i | 0 <= i < |fs| :: Simple(fs[i])
  {
    ParseOfRender(fs, maxLines);
    ParseReadsTokens(Render(fs), maxLines);
    ParsedIsPrintable(Terminated(Render(fs)), maxLines);
    if Parse(Terminated(Render(fs)), maxLines) == Want(fs) { WantedAreClean(fs); }
    if AllClean(fs) {
      forall i | 0 <= i < |fs| ensures (Readable(fs[i]) <==> Simple(fs[i])) && !ForgedFile(fs[i]) {
        TameReadable(fs[i]);
      }
    }
  }
}
