/**
 The lines of a file's hunks as the parser reads them, each marked with the position of the insertion
 it stands for, if any; and what the parser makes of such lines.
 */
module Marks {
  import opened Wrappers
  import opened Diff
  import opened Collections

  datatype Mark = Mark(line: Line, place: Option<nat>)

  function Lines(ms: seq<Mark>): (ls: seq<Line>)
    ensures |ls| == |ms|
  {
    seq(|ms|, i requires 0 <= i < |ms| => ms[i].line)
  }

  /** Lines that stand for no insertion. */
  function Unplaced(ls: seq<Line>): (ms: seq<Mark>)
    ensures |ms| == |ls|
  {
    seq(|ls|, i requires 0 <= i < |ls| => Mark(ls[i], None))
  }

  lemma LinesConcat(a: seq<Mark>, b: seq<Mark>)
    ensures Lines(a + b) == Lines(a) + Lines(b)
  {
  }

  // ---- how many files lines open ----

  predicate Opens(line: Line) {
    line.NewPath? && line.path != "/dev/null"
  }

  function Openings(ls: seq<Line>): nat {
    if ls == [] then 0 else Openings(ls[..|ls| - 1]) + (if Opens(ls[|ls| - 1]) then 1 else 0)
  }

  lemma {:induction false} OpeningsConcat(a: seq<Line>, b: seq<Line>)
    ensures Openings(a + b) == Openings(a) + Openings(b)
  {
    if b == [] {
      assert a + b == a;
    } else {
      assert (a + b)[..|a + b| - 1] == a + b[..|b| - 1];
      OpeningsConcat(a, b[..|b| - 1]);
    }
  }

  /** With no file open, lines leave the files there are alone and add one for each that they open. */
  lemma {:induction false} ClosedRun(st: ParseState, ls: seq<Line>)
    requires st.Valid() && !st.open
    ensures var next := Run(st, ls);
            && |next.files| == |st.files| + Openings(ls) && st.files <= next.files
            && (next.open ==> |next.files| > |st.files|)
  {
    if ls != [] {
      ClosedRun(st, ls[..|ls| - 1]);
    }
  }

  // ---- a file that is being filled ----

  /** The line closes the file being filled. */
  predicate Ends(line: Line) {
    line.GitHeader? || line.NewPath?
  }

  /** The marks before the first line that closes the file. */
  function Live(ms: seq<Mark>): (l: seq<Mark>)
    ensures l <= ms && (|l| < |ms| ==> Ends(ms[|l|].line))
  {
    if ms == [] then []
    else
      var l := Live(ms[..|ms| - 1]);
      if |l| == |ms| - 1 && !Ends(ms[|ms| - 1].line) then ms else l
  }

  /** The marks from there on. */
  function Late(ms: seq<Mark>): seq<Mark> {
    ms[|Live(ms)|..]
  }

  /** The parser's line counter after the marks, from `at`. */
  function Counter(at: nat, ms: seq<Mark>): nat {
    if ms == [] then at
    else
      var n := Counter(at, ms[..|ms| - 1]);
      match ms[|ms| - 1].line
      case HunkAt(start) => start
      case Plus(_) => n + 1
      case Other => n + 1
      case _ => n
  }

  /** The added lines the parser records. */
  function PlusAt(at: nat, ms: seq<Mark>): seq<AddedLine> {
    if ms == [] then []
    else
      var before := ms[..|ms| - 1];
      PlusAt(at, before) + AddedBy(Counter(at, before), ms[|ms| - 1].line)
  }

  function AddedBy(at: nat, line: Line): seq<AddedLine> {
    if line.Plus? then [AddedLine(at, line.text)] else []
  }

  /** The removed lines the parser counts. */
  function Minuses(ms: seq<Mark>): nat {
    if ms == [] then 0 else Minuses(ms[..|ms| - 1]) + (if ms[|ms| - 1].line.Minus? then 1 else 0)
  }

  function Filled(f: FileRecord, added: seq<AddedLine>, removed: nat): FileRecord {
    f.(added := f.added + added, removedCount := f.removedCount + removed)
  }

  lemma FilledTwice(f: FileRecord, a: seq<AddedLine>, m: nat, b: seq<AddedLine>, n: nat)
    ensures Filled(Filled(f, a, m), b, n) == Filled(f, a + b, m + n)
  {
    assert (f.added + a) + b == f.added + (a + b);
  }

  lemma OpenStep(st: ParseState, line: Line)
    requires st.Valid() && st.open && !Ends(line)
    ensures var next := Step(st, line);
            && next.open
            && next.files == st.files[..|st.files| - 1]
                             + [Filled(st.Last(), AddedBy(st.lineno, line), if line.Minus? then 1 else 0)]
            && next.lineno == Counter(st.lineno, [Mark(line, None)])
  {
    assert st.Last().added + [] == st.Last().added;
    assert st.files[..|st.files| - 1] + [st.Last()] == st.files;
    assert [Mark(line, None)][..0] == [];
  }

  lemma ClosedStep(st: ParseState, line: Line)
    requires st.Valid() && !Opens(line) && (!st.open || Ends(line))
    ensures Step(st, line).files == st.files && !Step(st, line).open
  {
  }

  lemma LiveAppend(before: seq<Mark>, m: Mark)
    ensures Live(before + [m]) == if Live(before) == before && !Ends(m.line) then before + [m] else Live(before)
  {
    assert (before + [m])[..|before|] == before;
    assert |Live(before)| == |before| <==> Live(before) == before;
  }

  lemma AppendMark(at: nat, before: seq<Mark>, m: Mark)
    ensures PlusAt(at, before + [m]) == PlusAt(at, before) + AddedBy(Counter(at, before), m.line)
    ensures Minuses(before + [m]) == Minuses(before) + (if m.line.Minus? then 1 else 0)
    ensures Counter(at, before + [m]) == Counter(Counter(at, before), [Mark(m.line, None)])
    ensures Expected(before + [m]) == Expected(before) + ExpectedBy(m)
    ensures FalseAdds(before + [m]) == FalseAdds(before) + (if m.place.None? && m.line.Plus? then 1 else 0)
    ensures Timely(at, before + [m]) <==> Timely(at, before) && (m.place.Some? ==> Counter(at, before) == m.place.value)
  {
    assert (before + [m])[..|before|] == before;
    assert [Mark(m.line, None)][..0] == [];
  }

  /** `next` is what the parser, filling a file in st, makes of the marks. */
  predicate Reads(st: ParseState, ms: seq<Mark>, next: ParseState)
    requires st.files != []
  {
    var l := Live(ms);
    && next.files == st.files[..|st.files| - 1] + [Filled(st.Last(), PlusAt(st.lineno, l), Minuses(l))]
    && (next.open <==> l == ms) && (next.open ==> next.lineno == Counter(st.lineno, l))
  }

  lemma ReadsStep(st: ParseState, before: seq<Mark>, m: Mark, mid: ParseState)
    requires st.files != [] && mid.Valid() && Reads(st, before, mid) && !Opens(m.line)
    ensures Reads(st, before + [m], Step(mid, m.line))
  {
    var l := Live(before);
    LiveAppend(before, m);
    if l == before && !Ends(m.line) {
      var d := if m.line.Minus? then 1 else 0;
      OpenStep(mid, m.line);
      AppendMark(st.lineno, before, m);
      FilledTwice(st.Last(), PlusAt(st.lineno, l), Minuses(l), AddedBy(mid.lineno, m.line), d);
    } else {
      assert |l| < |before + [m]|;
      ClosedStep(mid, m.line);
    }
  }

  /** What the parser does with lines none of which opens a file. */
  lemma {:induction false} RunLive(st: ParseState, ms: seq<Mark>)
    requires st.Valid() && st.open && Openings(Lines(ms)) == 0
    ensures Reads(st, ms, Run(st, Lines(ms)))
  {
    if ms == [] {
      assert st.Last().added + [] == st.Last().added;
      assert st.files == st.files[..|st.files| - 1] + [st.Last()];
    } else {
      var before, m := ms[..|ms| - 1], ms[|ms| - 1];
      assert ms == before + [m] && Lines(ms) == Lines(before) + [m.line];
      OpeningsAppend(Lines(before), m.line);
      RunLive(st, before);
      RunAppend(st, Lines(before), m.line);
      ReadsStep(st, before, m, Run(st, Lines(before)));
    }
  }

  lemma OpeningsAppend(ls: seq<Line>, line: Line)
    ensures Openings(ls + [line]) == Openings(ls) + (if Opens(line) then 1 else 0)
  {
    assert (ls + [line])[..|ls|] == ls;
  }

  // ---- when the recorded lines are the inserted ones ----

  function ExpectedBy(m: Mark): seq<AddedLine> {
    if m.place.Some? && m.line.Plus? then [AddedLine(m.place.value, m.line.text)] else []
  }

  /** The insertions the marks stand for, at their true positions. */
  function Expected(ms: seq<Mark>): seq<AddedLine> {
    if ms == [] then [] else Expected(ms[..|ms| - 1]) + ExpectedBy(ms[|ms| - 1])
  }

  /** How many lines are read as added and stand for no insertion. */
  function FalseAdds(ms: seq<Mark>): nat {
    if ms == [] then 0
    else FalseAdds(ms[..|ms| - 1]) + (if ms[|ms| - 1].place.None? && ms[|ms| - 1].line.Plus? then 1 else 0)
  }

  /** At every insertion the line counter is right. */
  predicate Timely(at: nat, ms: seq<Mark>) {
    ms == [] ||
    (Timely(at, ms[..|ms| - 1]) &&
      (ms[|ms| - 1].place.Some? ==> Counter(at, ms[..|ms| - 1]) == ms[|ms| - 1].place.value))
  }

  /** Every insertion is read as an added line. */
  predicate AddsAreRead(ms: seq<Mark>) {
    ms == [] || (AddsAreRead(ms[..|ms| - 1]) && (ms[|ms| - 1].place.Some? ==> ms[|ms| - 1].line.Plus?))
  }

  /** No insertion follows a line that closes the file, no other line is read as added, and the counter is right. */
  predicate Faithful(ms: seq<Mark>) {
    Expected(Late(ms)) == [] && FalseAdds(Live(ms)) == 0 && Timely(0, Live(ms))
  }

  /** An insertion is lost behind a closing line while another line is read as added in its stead. */
  predicate Forged(ms: seq<Mark>) {
    Expected(Late(ms)) != [] && FalseAdds(Live(ms)) > 0
  }

  lemma {:induction false} ExpectedConcat(a: seq<Mark>, b: seq<Mark>)
    ensures Expected(a + b) == Expected(a) + Expected(b)
  {
    if b == [] {
      assert a + b == a;
    } else {
      assert (a + b)[..|a + b| - 1] == a + b[..|b| - 1];
      ExpectedConcat(a, b[..|b| - 1]);
    }
  }

  lemma {:induction false} AddsAreReadConcat(a: seq<Mark>, b: seq<Mark>)
    ensures AddsAreRead(a + b) <==> AddsAreRead(a) && AddsAreRead(b)
  {
    if b == [] {
      assert a + b == a;
    } else {
      assert (a + b)[..|a + b| - 1] == a + b[..|b| - 1];
      AddsAreReadConcat(a, b[..|b| - 1]);
    }
  }

  lemma Together(a: seq<Mark>, b: seq<Mark>)
    requires AddsAreRead(a) && AddsAreRead(b)
    ensures AddsAreRead(a + b) && Expected(a + b) == Expected(a) + Expected(b)
  {
    AddsAreReadConcat(a, b);
    ExpectedConcat(a, b);
  }

  lemma {:induction false} PlusCount(at: nat, ms: seq<Mark>)
    ensures |PlusAt(at, ms)| == |Expected(ms)| + FalseAdds(ms)
  {
    if ms != [] { PlusCount(at, ms[..|ms| - 1]); }
  }

  lemma {:induction false} TimelyIsExact(at: nat, ms: seq<Mark>)
    requires AddsAreRead(ms) && FalseAdds(ms) == 0
    ensures PlusAt(at, ms) == Expected(ms) <==> Timely(at, ms)
  {
    if ms != [] {
      var before, m := ms[..|ms| - 1], ms[|ms| - 1];
      TimelyIsExact(at, before);
      PlusCount(at, before);
      SplitEqual(PlusAt(at, before), AddedBy(Counter(at, before), m.line), Expected(before), ExpectedBy(m));
    }
  }

  /** After a hunk header the counter does not depend on where it started. */
  lemma {:induction false} StartIrrelevant(at: nat, ms: seq<Mark>)
    requires ms != [] && ms[0].line.HunkAt?
    ensures Counter(at, ms) == Counter(0, ms) && PlusAt(at, ms) == PlusAt(0, ms)
  {
    if |ms| > 1 {
      StartIrrelevant(at, ms[..|ms| - 1]);
    } else {
      assert ms[..0] == [];
    }
  }

  /**
   The recorded added lines are the insertions if the marks are faithful, and only then unless they
   are forged.
   */
  lemma LiveIsExact(at: nat, ms: seq<Mark>)
    requires AddsAreRead(ms) && (ms != [] ==> ms[0].line.HunkAt?)
    ensures Faithful(ms) ==> PlusAt(at, Live(ms)) == Expected(ms)
    ensures PlusAt(at, Live(ms)) == Expected(ms) && !Forged(ms) ==> Faithful(ms)
  {
    var l := Live(ms);
    LiveThenLate(ms);
    PlusCount(at, l);
    if ms != [] { StartIrrelevant(at, l); }
    if FalseAdds(l) == 0 { TimelyIsExact(0, l); }
    ExactByCounts(PlusAt(at, l), Expected(l), Expected(Late(ms)), FalseAdds(l), Timely(0, l));
  }

  lemma LiveThenLate(ms: seq<Mark>)
    requires AddsAreRead(ms)
    ensures Expected(ms) == Expected(Live(ms)) + Expected(Late(ms)) && AddsAreRead(Live(ms))
  {
    assert ms == Live(ms) + Late(ms);
    ExpectedConcat(Live(ms), Late(ms));
    AddsAreReadConcat(Live(ms), Late(ms));
  }

  lemma ExactByCounts(read: seq<AddedLine>, live: seq<AddedLine>, late: seq<AddedLine>, others: nat, timely: bool)
    requires |read| == |live| + others && (others == 0 ==> (read == live <==> timely))
    ensures late == [] && others == 0 && timely ==> read == live + late
    ensures read == live + late && (late == [] || others == 0) ==> late == [] && others == 0 && timely
  {
    if late == [] { assert live + late == live; }
  }
}
