/** How the parser reads the lines of a rendered hunk, and what it should make of them. */
module UnifiedReading {
  import opened Text
  import opened Pieces
  import opened Wrappers
  import opened Diff
  import opened UnifiedFormat
  import opened Marks
  import opened Parsed

  // ---- lines as the parser reads them ----

  function Tokens(lines: seq<string>): seq<Line> {
    Read(AllPieces(lines))
  }

  lemma ReadConcat(xs: seq<string>, ys: seq<string>)
    ensures Read(xs + ys) == Read(xs) + Read(ys)
  {
  }

  lemma TokensConcat(xs: seq<string>, ys: seq<string>)
    ensures Tokens(xs + ys) == Tokens(xs) + Tokens(ys)
  {
    AllPiecesConcat(xs, ys);
    ReadConcat(AllPieces(xs), AllPieces(ys));
  }

  /** What a break inside the text makes of the rest of the line. */
  function Remainder(text: string): seq<Line> {
    Read(PiecesOf(text)[1..])
  }

  lemma TokensOne(line: string)
    ensures Tokens([line]) == Read(PiecesOf(line)) == [Classify(PiecesOf(line)[0])] + Remainder(line)
  {
    assert AllPieces([line]) == PiecesOf(line) + [];
    assert PiecesOf(line) == [PiecesOf(line)[0]] + PiecesOf(line)[1..];
  }

  lemma OneLineToken(line: string)
    requires OneLine(line)
    ensures Tokens([line]) == [Classify(line)]
  {
    PiecesOneLine(line);
    TokensOne(line);
  }

  /** A line that starts with p, which holds no break. */
  lemma TokensPrefix(p: string, text: string)
    requires OneLine(p)
    ensures Tokens([p + text]) == [Classify(p + PiecesOf(text)[0])] + Remainder(text)
  {
    PiecesPrefix(p, text);
    TokensOne(p + text);
  }

  // ---- one line of a script ----

  /** How the first piece of the line is read. */
  function ReadOp(op: Op): Line {
    var head := PiecesOf(op.text)[0];
    match op.kind
    case Keep => Other
    case Add => if "++ " <= head then NewPath(HeaderPath("+" + head)) else Plus(head)
    case Del => if "-- " <= head then OldPath else Minus
  }

  function Marker(op: Op): seq<Line> {
    if op.noEol then [Other] else []
  }

  /** The line as read; an added line stands for the insertion at position `at`. */
  function OpMarks(at: nat, op: Op): seq<Mark> {
    [Mark(ReadOp(op), if op.kind == Add then Some(at) else None)] + Unplaced(Remainder(op.text) + Marker(op))
  }

  function OpsMarks(at: nat, ops: Script): seq<Mark> {
    if ops == [] then []
    else OpsMarks(at, ops[..|ops| - 1]) + OpMarks(at + |NewFile(ops[..|ops| - 1])|, ops[|ops| - 1])
  }

  lemma OpHead(op: Op)
    ensures Tokens([OpLine(op)]) == [ReadOp(op)] + Remainder(op.text)
  {
    var head := PiecesOf(op.text)[0];
    match op.kind {
      case Keep =>
        TokensPrefix(" ", op.text);
        KeptLine(" " + head);
      case Add =>
        TokensPrefix("+", op.text);
        AddedText(head);
      case Del =>
        TokensPrefix("-", op.text);
        RemovedText(head);
    }
  }

  lemma NoEolToken()
    ensures Tokens([NO_EOL]) == [Other]
  {
    assert OneLine(NO_EOL);
    OneLineToken(NO_EOL);
    KeptLine(NO_EOL);
  }

  lemma MarkerTokens(op: Op)
    ensures Tokens(if op.noEol then [NO_EOL] else []) == Marker(op)
  {
    NoEolToken();
  }

  lemma FirstAndRest(first: Mark, rest: seq<Line>)
    ensures Lines([first] + Unplaced(rest)) == [first.line] + rest
  {
  }

  lemma OpIsRead(at: nat, op: Op)
    ensures Tokens(RenderOp(op)) == Lines(OpMarks(at, op))
  {
    OpHead(op);
    MarkerTokens(op);
    TokensConcat([OpLine(op)], if op.noEol then [NO_EOL] else []);
    var first := [ReadOp(op)];
    assert (first + Remainder(op.text)) + Marker(op) == first + (Remainder(op.text) + Marker(op));
    FirstAndRest(Mark(ReadOp(op), if op.kind == Add then Some(at) else None), Remainder(op.text) + Marker(op));
  }

  lemma {:induction false} OpsAreRead(at: nat, ops: Script)
    ensures Tokens(RenderOps(ops)) == Lines(OpsMarks(at, ops))
  {
    if ops != [] {
      var before, op := ops[..|ops| - 1], ops[|ops| - 1];
      OpsAreRead(at, before);
      OpIsRead(at + |NewFile(before)|, op);
      TokensConcat(RenderOps(before), RenderOp(op));
      LinesConcat(OpsMarks(at, before), OpMarks(at + |NewFile(before)|, op));
    }
  }

  // ---- the hunks of a file ----

  /** Number of the first new line of a hunk, which the parser takes from the header. */
  function FirstNew(before: seq<Hunk>, h: Hunk): nat {
    |NewFile(ScriptOf(before) + Gap(h.gap))| + 1
  }

  function HunkStartOf(before: seq<Hunk>, h: Hunk): nat {
    Start(|NewFile(ScriptOf(before) + Gap(h.gap))|, |NewFile(h.ops)|)
  }

  function HeaderMarks(before: seq<Hunk>, h: Hunk): seq<Mark> {
    [Mark(HunkAt(HunkStartOf(before, h)), None)] + Unplaced(Remainder(h.section))
  }

  function HunkMarks(before: seq<Hunk>, h: Hunk): seq<Mark> {
    HeaderMarks(before, h) + OpsMarks(FirstNew(before, h), h.ops)
  }

  function BodyMarks(hunks: seq<Hunk>): seq<Mark> {
    if hunks == [] then []
    else BodyMarks(hunks[..|hunks| - 1]) + HunkMarks(hunks[..|hunks| - 1], hunks[|hunks| - 1])
  }

  lemma SectionLast(a: string, b: string, section: string)
    ensures HeaderText(a, b, section) == HeaderText(a, b, "") + section
  {
    assert HeaderText(a, b, "") + section == "@@ -" + (a + (" +" + (b + (" @@" + section))));
  }

  lemma HeaderTokens(x: nat, m: nat, y: nat, n: nat, longForm: bool, section: string)
    ensures Tokens([HeaderText(Range(x, m, longForm), Range(y, n, longForm), section)]) ==
            [HunkAt(y)] + Remainder(section)
  {
    var a, b, head := Range(x, m, longForm), Range(y, n, longForm), PiecesOf(section)[0];
    RangeOneLine(x, m, longForm);
    RangeOneLine(y, n, longForm);
    HeaderTextOneLine(a, b, "");
    SectionLast(a, b, section);
    TokensPrefix(HeaderText(a, b, ""), section);
    SectionLast(a, b, head);
    HeaderRead(x, m, y, n, longForm, head);
    AtLine(HeaderText(a, b, head), y);
  }

  lemma HunkHeaderIsRead(before: seq<Hunk>, h: Hunk)
    ensures Tokens([HunkHeader(ScriptOf(before), h)]) == Lines(HeaderMarks(before, h))
  {
    var s := ScriptOf(before) + Gap(h.gap);
    var m, n := |OldFile(h.ops)|, |NewFile(h.ops)|;
    HeaderTokens(Start(|OldFile(s)|, m), m, Start(|NewFile(s)|, n), n, h.longForm, h.section);
    FirstAndRest(Mark(HunkAt(HunkStartOf(before, h)), None), Remainder(h.section));
  }

  lemma HunkIsRead(before: seq<Hunk>, h: Hunk)
    ensures Tokens([HunkHeader(ScriptOf(before), h)] + RenderOps(h.ops)) == Lines(HunkMarks(before, h))
  {
    HunkHeaderIsRead(before, h);
    OpsAreRead(FirstNew(before, h), h.ops);
    TokensConcat([HunkHeader(ScriptOf(before), h)], RenderOps(h.ops));
    LinesConcat(HeaderMarks(before, h), OpsMarks(FirstNew(before, h), h.ops));
  }

  lemma {:induction false} BodyIsRead(hunks: seq<Hunk>)
    ensures Tokens(RenderHunks(hunks)) == Lines(BodyMarks(hunks))
  {
    if hunks != [] {
      var before, h := hunks[..|hunks| - 1], hunks[|hunks| - 1];
      var header, ops := [HunkHeader(ScriptOf(before), h)], RenderOps(h.ops);
      BodyIsRead(before);
      HunkIsRead(before, h);
      TokensConcat(RenderHunks(before), header + ops);
      assert RenderHunks(before) + header + ops == RenderHunks(before) + (header + ops);
      LinesConcat(BodyMarks(before), HunkMarks(before, h));
    }
  }

  lemma {:induction false} BodyStarts(hunks: seq<Hunk>)
    requires hunks != []
    ensures BodyMarks(hunks) != [] && BodyMarks(hunks)[0].line.HunkAt?
  {
    if |hunks| > 1 { BodyStarts(hunks[..|hunks| - 1]); }
  }

  // ---- the insertions they stand for ----

  /** An added line that the parser reports as it is. */
  predicate CleanAdd(op: Op) {
    op.kind == Add ==> OneLine(op.text) && !("++ " <= op.text)
  }

  predicate CleanAdds(ops: Script) {
    ops == [] || (CleanAdds(ops[..|ops| - 1]) && CleanAdd(ops[|ops| - 1]))
  }

  predicate HunksClean(hunks: seq<Hunk>) {
    forall i | 0 <= i < |hunks| :: CleanAdds(hunks[i].ops)
  }

  function AddsOf(at: nat, op: Op): seq<AddedLine> {
    if op.kind == Add then [AddedLine(at, op.text)] else []
  }

  /** The insertions of ops, the first new line of ops being number `at`. */
  function Placed(at: nat, ops: Script): seq<AddedLine> {
    if ops == [] then []
    else Placed(at, ops[..|ops| - 1]) + AddsOf(at + |NewFile(ops[..|ops| - 1])|, ops[|ops| - 1])
  }

  lemma {:induction false} UnplacedExpectNothing(ls: seq<Line>)
    ensures Expected(Unplaced(ls)) == [] && AddsAreRead(Unplaced(ls))
  {
    if ls != [] {
      assert Unplaced(ls)[..|ls| - 1] == Unplaced(ls[..|ls| - 1]);
      UnplacedExpectNothing(ls[..|ls| - 1]);
    }
  }

  lemma ExpectedOne(m: Mark)
    ensures Expected([m]) == ExpectedBy(m) && (AddsAreRead([m]) <==> (m.place.Some? ==> m.line.Plus?))
  {
    assert [m][..0] == [];
  }

  lemma OpExpects(at: nat, op: Op)
    requires CleanAdd(op)
    ensures StandsFor(OpMarks(at, op), AddsOf(at, op))
  {
    var rest := Remainder(op.text) + Marker(op);
    UnplacedExpectNothing(rest);
    var m := Mark(ReadOp(op), if op.kind == Add then Some(at) else None);
    ExpectedOne(m);
    if op.kind == Add { PiecesOneLine(op.text); }
    Together([m], Unplaced(rest));
  }

  lemma SameJoin(ms: seq<Mark>, a: seq<Mark>, b: seq<Mark>, c: seq<Mark>)
    requires ms == a + b && b == c
    ensures ms == a + c
  {
  }

  lemma MarksOfLast(at: nat, ops: Script, before: Script, op: Op, p: nat)
    requires ops != [] && before == ops[..|ops| - 1] && op == ops[|ops| - 1] && p == at + |NewFile(before)|
    ensures OpsMarks(at, ops) == OpsMarks(at, before) + OpMarks(p, op)
  {
    SameJoin(OpsMarks(at, ops), OpsMarks(at, before), OpMarks(at + |NewFile(before)|, op), OpMarks(p, op));
  }

  lemma PlacedOfLast(at: nat, ops: Script, before: Script, op: Op, p: nat)
    requires ops != [] && before == ops[..|ops| - 1] && op == ops[|ops| - 1] && p == at + |NewFile(before)|
    ensures Placed(at, ops) == Placed(at, before) + AddsOf(p, op)
  {
  }

  /** The marks stand for exactly the given insertions. */
  predicate StandsFor(ms: seq<Mark>, added: seq<AddedLine>) {
    Expected(ms) == added && AddsAreRead(ms)
  }

  lemma {:induction false} OpsExpect(at: nat, ops: Script)
    requires CleanAdds(ops)
    ensures StandsFor(OpsMarks(at, ops), Placed(at, ops))
  {
    if ops != [] {
      var before, op := ops[..|ops| - 1], ops[|ops| - 1];
      OpsExpect(at, before);
      var p := at + |NewFile(before)|;
      OpExpects(p, op);
      MarksOfLast(at, ops, before, op, p);
      PlacedOfLast(at, ops, before, op, p);
      Both(OpsMarks(at, ops), OpsMarks(at, before), OpMarks(p, op), Placed(at, before), AddsOf(p, op));
    }
  }

  lemma Both(ms: seq<Mark>, a: seq<Mark>, b: seq<Mark>, x: seq<AddedLine>, y: seq<AddedLine>)
    requires ms == a + b && StandsFor(a, x) && StandsFor(b, y)
    ensures StandsFor(ms, x + y)
  {
    Together(a, b);
  }

  lemma HunkExpects(before: seq<Hunk>, h: Hunk)
    requires CleanAdds(h.ops)
    ensures Expected(HunkMarks(before, h)) == Placed(FirstNew(before, h), h.ops) && AddsAreRead(HunkMarks(before, h))
  {
    var first := Mark(HunkAt(HunkStartOf(before, h)), None);
    var header, ops := HeaderMarks(before, h), OpsMarks(FirstNew(before, h), h.ops);
    UnplacedExpectNothing(Remainder(h.section));
    ExpectedOne(first);
    Together([first], Unplaced(Remainder(h.section)));
    OpsExpect(FirstNew(before, h), h.ops);
    Together(header, ops);
  }

  lemma {:induction false} NewFileConcat(a: Script, b: Script)
    ensures NewFile(a + b) == NewFile(a) + NewFile(b)
  {
    if b == [] {
      assert a + b == a;
    } else {
      assert (a + b)[..|a + b| - 1] == a + b[..|b| - 1];
      NewFileConcat(a, b[..|b| - 1]);
    }
  }

  lemma {:induction false} InsertedConcat(a: Script, ops: Script)
    ensures Inserted(a + ops) == Inserted(a) + Placed(|NewFile(a)| + 1, ops)
  {
    if ops == [] {
      assert a + ops == a;
    } else {
      var before := ops[..|ops| - 1];
      assert (a + ops)[..|a + ops| - 1] == a + before;
      InsertedConcat(a, before);
      NewFileConcat(a, before);
    }
  }

  lemma {:induction false} GapInsertsNothing(at: nat, texts: seq<string>)
    ensures Placed(at, Gap(texts)) == []
  {
    if texts != [] {
      assert Gap(texts)[..|texts| - 1] == Gap(texts[..|texts| - 1]);
      GapInsertsNothing(at, texts[..|texts| - 1]);
    }
  }

  lemma InsertedAfterGap(s: Script, texts: seq<string>)
    ensures Inserted(s + Gap(texts)) == Inserted(s)
  {
    InsertedConcat(s, Gap(texts));
    GapInsertsNothing(|NewFile(s)| + 1, texts);
  }

  lemma ScriptAppend(before: seq<Hunk>, h: Hunk)
    ensures ScriptOf(before + [h]) == (ScriptOf(before) + Gap(h.gap)) + h.ops
  {
    assert (before + [h])[..|before|] == before;
  }

  lemma InsertedByHunk(before: seq<Hunk>, h: Hunk)
    ensures Inserted(ScriptOf(before + [h])) == Inserted(ScriptOf(before)) + Placed(FirstNew(before, h), h.ops)
  {
    ScriptAppend(before, h);
    InsertedConcat(ScriptOf(before) + Gap(h.gap), h.ops);
    InsertedAfterGap(ScriptOf(before), h.gap);
  }

  /** The marks of a file's hunks stand for exactly the insertions of its script. */
  lemma {:induction false} BodyExpects(hunks: seq<Hunk>)
    requires HunksClean(hunks)
    ensures StandsFor(BodyMarks(hunks), Inserted(ScriptOf(hunks)))
  {
    if hunks != [] {
      var before, h := hunks[..|hunks| - 1], hunks[|hunks| - 1];
      assert CleanAdds(h.ops);
      BodyExpects(before);
      BodyOfLast(hunks, before, h);
      BodyExpectsMore(hunks, before, h, BodyMarks(hunks), BodyMarks(before), HunkMarks(before, h));
    }
  }

  lemma BodyExpectsMore(hunks: seq<Hunk>, before: seq<Hunk>, h: Hunk, ms: seq<Mark>, a: seq<Mark>, b: seq<Mark>)
    requires hunks == before + [h] && ms == a + b && b == HunkMarks(before, h) && CleanAdds(h.ops)
    requires StandsFor(a, Inserted(ScriptOf(before)))
    ensures StandsFor(ms, Inserted(ScriptOf(hunks)))
  {
    HunkExpects(before, h);
    InsertedByHunk(before, h);
    Both(ms, a, b, Inserted(ScriptOf(before)), Placed(FirstNew(before, h), h.ops));
  }

  lemma BodyOfLast(hunks: seq<Hunk>, before: seq<Hunk>, h: Hunk)
    requires hunks != [] && before == hunks[..|hunks| - 1] && h == hunks[|hunks| - 1]
    ensures BodyMarks(hunks) == BodyMarks(before) + HunkMarks(before, h) && hunks == before + [h]
  {
  }

  // ---- which insertions can be reported at all ----

  lemma CleanConcat(a: seq<AddedLine>, b: seq<AddedLine>)
    ensures CleanLines(a + b) <==> CleanLines(a) && CleanLines(b)
  {
    if CleanLines(a + b) {
      forall k | 0 <= k < |a| ensures OneLine(a[k].text) && !("++ " <= a[k].text) { assert (a + b)[k] == a[k]; }
      forall k | 0 <= k < |b| ensures OneLine(b[k].text) && !("++ " <= b[k].text) { assert (a + b)[|a| + k] == b[k]; }
    }
  }

  lemma {:induction false} PlacedClean(at: nat, ops: Script)
    ensures CleanLines(Placed(at, ops)) <==> CleanAdds(ops)
  {
    if ops != [] {
      var before, op := ops[..|ops| - 1], ops[|ops| - 1];
      PlacedClean(at, before);
      var last := AddsOf(at + |NewFile(before)|, op);
      assert CleanLines(last) <==> CleanAdd(op) by {
        if op.kind == Add { assert last[0] == AddedLine(at + |NewFile(before)|, op.text); }
      }
      CleanConcat(Placed(at, before), last);
    }
  }

  lemma {:induction false} InsertedClean(hunks: seq<Hunk>)
    ensures CleanLines(Inserted(ScriptOf(hunks))) <==> HunksClean(hunks)
  {
    if hunks != [] {
      var before, h := hunks[..|hunks| - 1], hunks[|hunks| - 1];
      assert hunks == before + [h];
      InsertedClean(before);
      InsertedByHunk(before, h);
      PlacedClean(FirstNew(before, h), h.ops);
      CleanConcat(Inserted(ScriptOf(before)), Placed(FirstNew(before, h), h.ops));
      assert HunksClean(hunks) <==> HunksClean(before) && CleanAdds(h.ops);
    }
  }
}
