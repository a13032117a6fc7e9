/**
 Edit scripts, the files they produce, and their rendering as a unified diff. The parser is
 measured against the positions that applying a script really gives its inserted lines.
 */
module UnifiedFormat {
  import opened Text
  import opened Wrappers
  import opened Diff

  // ---- edit scripts ----

  datatype Kind = Keep | Add | Del

  /** One line of a script. `noEol`: the line ends its file without a newline, which diffs mark. */
  datatype Op = Op(kind: Kind, text: string, noEol: bool)

  type Script = seq<Op>

  /** Unchanged lines the diff does not show, then the lines of the hunk. `section` is the text after `@@`. */
  datatype Hunk = Hunk(gap: seq<string>, ops: Script, longForm: bool, section: string)

  datatype Change = Modified | Created | Deleted

  /** `extra`: git's extended header lines (index, similarity, rename, ...). */
  datatype FilePatch = FilePatch(path: string, change: Change, extra: seq<string>, hunks: seq<Hunk>)

  function Gap(texts: seq<string>): Script {
    seq(|texts|, i requires 0 <= i < |texts| => Op(Keep, texts[i], false))
  }

  /** The whole script of a file up to and including its last hunk. */
  function ScriptOf(hunks: seq<Hunk>): Script {
    if hunks == [] then []
    else ScriptOf(hunks[..|hunks| - 1]) + Gap(hunks[|hunks| - 1].gap) + hunks[|hunks| - 1].ops
  }

  /** The file before the script: what it keeps and deletes. */
  function OldFile(s: Script): seq<string> {
    if s == [] then []
    else OldFile(s[..|s| - 1]) + (if s[|s| - 1].kind == Add then [] else [s[|s| - 1].text])
  }

  /** The file the script produces: what it keeps and adds. */
  function NewFile(s: Script): seq<string> {
    if s == [] then []
    else NewFile(s[..|s| - 1]) + (if s[|s| - 1].kind == Del then [] else [s[|s| - 1].text])
  }

  function Deletions(s: Script): nat {
    if s == [] then 0 else Deletions(s[..|s| - 1]) + (if s[|s| - 1].kind == Del then 1 else 0)
  }

  /** Every inserted line with its 1-based position in the produced file. */
  function Inserted(s: Script): seq<AddedLine> {
    if s == [] then []
    else
      var before := s[..|s| - 1];
      Inserted(before) + (if s[|s| - 1].kind == Add then [AddedLine(|NewFile(before)| + 1, s[|s| - 1].text)] else [])
  }

  /** The positions are right: that line of the produced file is the inserted text. */
  lemma {:induction false} InsertedArePositions(s: Script, k: nat)
    requires k < |Inserted(s)|
    ensures 1 <= Inserted(s)[k].newLine <= |NewFile(s)|
    ensures NewFile(s)[Inserted(s)[k].newLine - 1] == Inserted(s)[k].text
  {
    var before := s[..|s| - 1];
    if k < |Inserted(before)| {
      InsertedArePositions(before, k);
    }
  }

  // ---- rendering (POSIX diff, section "Diff -u or -U Output Format") ----

  /** A range: the start, and the length unless it is one and the short form is used. */
  function Range(start: nat, count: nat, longForm: bool): string {
    Decimal(start) + (if count == 1 && !longForm then "" else "," + Decimal(count))
  }

  /** A range of length zero names the line before it. */
  function Start(before: nat, count: nat): nat {
    if count == 0 then before else before + 1
  }

  function HunkHeader(before: Script, h: Hunk): string {
    var oldLen, newLen := |OldFile(before + Gap(h.gap))|, |NewFile(before + Gap(h.gap))|;
    var m, n := |OldFile(h.ops)|, |NewFile(h.ops)|;
    HeaderText(Range(Start(oldLen, m), m, h.longForm), Range(Start(newLen, n), n, h.longForm), h.section)
  }

  function HeaderText(oldRange: string, newRange: string, section: string): string {
    "@@ -" + (oldRange + (" +" + (newRange + (" @@" + section))))
  }

  const NO_EOL := "\\ No newline at end of file"

  function OpLine(op: Op): string {
    (match op.kind case Keep => " " case Add => "+" case Del => "-") + op.text
  }

  function RenderOp(op: Op): seq<string> {
    [OpLine(op)] + (if op.noEol then [NO_EOL] else [])
  }

  function RenderOps(ops: Script): seq<string> {
    if ops == [] then [] else RenderOps(ops[..|ops| - 1]) + RenderOp(ops[|ops| - 1])
  }

  function RenderHunks(hunks: seq<Hunk>): seq<string> {
    if hunks == [] then []
    else
      var before := hunks[..|hunks| - 1];
      RenderHunks(before) + [HunkHeader(ScriptOf(before), hunks[|hunks| - 1])] + RenderOps(hunks[|hunks| - 1].ops)
  }

  /** git ends a file name that holds a space with a tab. */
  function NameEnd(path: string): string {
    if ' ' in path then "\t" else ""
  }

  function OldName(f: FilePatch): string {
    if f.change.Created? then "/dev/null" else "a/" + (f.path + NameEnd(f.path))
  }

  function NewName(f: FilePatch): string {
    if f.change.Deleted? then "/dev/null" else "b/" + (f.path + NameEnd(f.path))
  }

  function Preamble(f: FilePatch): seq<string> {
    ["diff --git " + ("a/" + f.path + " b/" + f.path)]
    + (if f.change.Created? then ["new file mode 100644"] else [])
    + f.extra
  }

  /** A patch without hunks (a pure rename, a mode change, an empty file) names no old and new file. */
  function RenderHeader(f: FilePatch): seq<string> {
    Preamble(f) + (if f.hunks == [] then [] else ["--- " + OldName(f), "+++ " + NewName(f)])
  }

  function RenderFile(f: FilePatch): seq<string> {
    RenderHeader(f) + RenderHunks(f.hunks)
  }

  function Render(fs: seq<FilePatch>): seq<string> {
    if fs == [] then [] else Render(fs[..|fs| - 1]) + RenderFile(fs[|fs| - 1])
  }

  /** The file still exists and the diff shows lines of it. */
  predicate Shown(f: FilePatch) {
    !f.change.Deleted? && f.hunks != []
  }

  /** What a reader of the diff expects: one record per shown file, in order. */
  function WantFile(f: FilePatch): FileRecord {
    FileRecord(f.path, f.change.Created?, Inserted(ScriptOf(f.hunks)), Deletions(ScriptOf(f.hunks)))
  }

  function WantOne(f: FilePatch): seq<FileRecord> {
    if Shown(f) then [WantFile(f)] else []
  }

  function Want(fs: seq<FilePatch>): seq<FileRecord> {
    if fs == [] then [] else Want(fs[..|fs| - 1]) + WantOne(fs[|fs| - 1])
  }

  // ---- hunk headers ----

  lemma Cut(a: string, b: string)
    ensures (a + b)[|a|..] == b && (a + b)[..|a|] == a && a <= a + b
  {
  }

  lemma DecimalThen(n: nat, rest: string)
    requires rest != "" && !IsDigit(rest[0])
    ensures DigitRun(Decimal(n) + rest) == |Decimal(n)|
  {
    DigitRunAt(Decimal(n), rest);
  }

  lemma NoCount(rest: string)
    requires rest != "" && rest[0] == ' '
    ensures SkipCount(rest) == rest
  {
  }

  lemma CommaCount(digits: string, rest: string)
    requires digits != "" && DigitRun(digits + rest) == |digits|
    ensures SkipCount("," + digits + rest) == rest
  {
    var s := "," + digits + rest;
    assert s[1..] == digits + rest;
    Cut("," + digits, rest);
  }

  lemma CountSkipped(count: nat, rest: string)
    requires rest != "" && rest[0] == ' '
    ensures SkipCount("," + Decimal(count) + rest) == rest && SkipCount(rest) == rest
  {
    DecimalThen(count, rest);
    CommaCount(Decimal(count), rest);
    NoCount(rest);
  }

  lemma RangeRead(start: nat, count: nat, longForm: bool, rest: string)
    requires rest != "" && rest[0] == ' '
    ensures var s := Range(start, count, longForm) + rest; var k := DigitRun(s);
            k == |Decimal(start)| && s[..k] == Decimal(start) && SkipCount(s[k..]) == rest
  {
    var tail := (if count == 1 && !longForm then "" else "," + Decimal(count)) + rest;
    assert Range(start, count, longForm) + rest == Decimal(start) + tail;
    CountSkipped(count, rest);
    assert "" + rest == rest;
    DecimalThen(start, tail);
    Cut(Decimal(start), tail);
  }

  /** The parser reads back the new-file start of any well-formed header. */
  lemma HeaderRead(a: nat, m: nat, b: nat, n: nat, longForm: bool, section: string)
    ensures HunkStart(HeaderText(Range(a, m, longForm), Range(b, n, longForm), section)) == Some(b)
  {
    var tail := " @@" + section;
    var right := Range(b, n, longForm) + tail;
    var mid := " +" + right;
    var left := Range(a, m, longForm) + mid;
    Cut("@@ -", left);
    RangeRead(a, m, longForm, mid);
    Cut(" +", right);
    RangeRead(b, n, longForm, tail);
    ParseDecimal(b);
  }

  predicate Digits(s: string) {
    s != "" && AllDigits(s)
  }

  predicate OptionalCount(s: string) {
    s == "" || (s[0] == ',' && Digits(s[1..]))
  }

  /** The hunk pattern, group by group; anything may follow. */
  ghost predicate IsHunkHeader(raw: string, a: string, m: string, b: string, n: string, rest: string) {
    && Digits(a) && OptionalCount(m) && Digits(b) && OptionalCount(n)
    && raw == "@@ -" + (a + (m + (" +" + (b + (n + (" @@" + rest))))))
  }

  lemma GroupRead(a: string, m: string, rest: string)
    requires Digits(a) && OptionalCount(m) && rest != "" && rest[0] == ' '
    ensures DigitRun(a + (m + rest)) == |a| && (a + (m + rest))[..|a|] == a
    ensures SkipCount((a + (m + rest))[|a|..]) == rest
  {
    DigitRunAt(a, m + rest);
    Cut(a, m + rest);
    if m == "" {
      assert m + rest == rest;
      NoCount(rest);
    } else {
      var digits := m[1..];
      assert m == "," + digits;
      DigitRunAt(digits, rest);
      CommaCount(digits, rest);
      assert m + rest == "," + digits + rest;
    }
  }

  lemma GroupSplit(s: string) returns (a: string, m: string)
    requires DigitRun(s) > 0
    ensures Digits(a) && OptionalCount(m) && a == s[..DigitRun(s)]
    ensures s == a + (m + SkipCount(s[DigitRun(s)..]))
  {
    var k := DigitRun(s);
    a := s[..k];
    PrefixSplit(a, s);
    m := CountSplit(s[k..]);
  }

  lemma CountSplit(s: string) returns (m: string)
    ensures OptionalCount(m) && s == m + SkipCount(s)
  {
    if "," <= s && DigitRun(s[1..]) > 0 {
      var j := DigitRun(s[1..]);
      m := s[..1 + j];
      assert m[1..] == s[1..][..j];
      PrefixSplit(m, s);
    } else {
      m := "";
      assert s == m + s;
    }
  }

  lemma PrefixSplit(p: string, s: string)
    requires p <= s
    ensures s == p + s[|p|..]
  {
  }

  /** Digits, an optional count, and then p. */
  lemma GroupThen(s: string, p: string) returns (a: string, m: string, rest: string)
    requires DigitRun(s) > 0 && p <= SkipCount(s[DigitRun(s)..])
    ensures Digits(a) && OptionalCount(m) && a == s[..DigitRun(s)] && rest == SkipCount(s[DigitRun(s)..])[|p|..]
    ensures s == a + (m + (p + rest))
  {
    a, m := GroupSplit(s);
    rest := SkipCount(s[DigitRun(s)..])[|p|..];
    PrefixSplit(p, SkipCount(s[DigitRun(s)..]));
  }

  /** The steps of reading a header, with their intermediate texts. */
  ghost predicate ReadsHeader(raw: string, fromOld: string, fromNew: string) {
    && "@@ -" <= raw && fromOld == raw[4..]
    && DigitRun(fromOld) > 0 && " +" <= SkipCount(fromOld[DigitRun(fromOld)..])
    && fromNew == SkipCount(fromOld[DigitRun(fromOld)..])[2..]
    && DigitRun(fromNew) > 0 && " @@" <= SkipCount(fromNew[DigitRun(fromNew)..])
  }

  lemma HeaderSteps(raw: string, fromOld: string, fromNew: string)
    requires HunkStart(raw).Some? && fromOld == raw[4..] && fromNew == SkipCount(fromOld[DigitRun(fromOld)..])[2..]
    ensures ReadsHeader(raw, fromOld, fromNew) && HunkStart(raw).value == ParseNat(fromNew[..DigitRun(fromNew)])
  {
  }

  lemma HeaderGroups(raw: string, fromOld: string, fromNew: string)
    returns (a: string, m: string, b: string, n: string, rest: string)
    requires ReadsHeader(raw, fromOld, fromNew)
    ensures IsHunkHeader(raw, a, m, b, n, rest) && b == fromNew[..DigitRun(fromNew)]
  {
    PrefixSplit("@@ -", raw);
    var rest0;
    a, m, rest0 := GroupThen(fromOld, " +");
    b, n, rest := GroupThen(fromNew, " @@");
  }

  /** A line is read as a hunk header exactly when the pattern matches, and the start is the number behind the plus. */
  lemma HunkStartIff(raw: string, start: nat)
    ensures HunkStart(raw) == Some(start) <==>
            exists a, m, b, n, rest :: IsHunkHeader(raw, a, m, b, n, rest) && ParseNat(b) == start
  {
    if HunkStart(raw).Some? {
      var fromOld := raw[4..];
      var fromNew := SkipCount(fromOld[DigitRun(fromOld)..])[2..];
      HeaderSteps(raw, fromOld, fromNew);
      var a, m, b, n, rest := HeaderGroups(raw, fromOld, fromNew);
    }
    forall a, m, b, n, rest | IsHunkHeader(raw, a, m, b, n, rest) ensures HunkStart(raw) == Some(ParseNat(b)) {
      HeaderStart(raw, a, m, b, n, rest);
    }
  }

  lemma HeaderStart(raw: string, a: string, m: string, b: string, n: string, rest: string)
    requires IsHunkHeader(raw, a, m, b, n, rest)
    ensures HunkStart(raw) == Some(ParseNat(b))
  {
    var tail := " @@" + rest;
    var right := b + (n + tail);
    var mid := " +" + right;
    Cut("@@ -", a + (m + mid));
    GroupRead(a, m, mid);
    Cut(" +", right);
    GroupRead(b, n, tail);
  }

  lemma AtLine(raw: string, start: nat)
    requires raw != "" && raw[0] == '@' && HunkStart(raw) == Some(start)
    ensures Classify(raw) == HunkAt(start)
  {
    assert !("diff --git" <= raw) && !("new file mode" <= raw);
    assert !("+++ " <= raw) && !("--- " <= raw);
  }

  // ---- the first characters of a line ----

  lemma KeptLine(raw: string)
    requires raw != "" && (raw[0] == ' ' || raw[0] == '\\')
    ensures Classify(raw) == Other
  {
  }

  lemma AddedText(text: string)
    ensures Classify("+" + text) == if "++ " <= text then NewPath(HeaderPath("+" + text)) else Plus(text)
  {
    var raw := "+" + text;
    assert raw[0] == '+' && raw[1..] == text;
    PrefixAfter('+', "++ ", text);
    assert "+++ " == ['+'] + "++ ";
    assert raw == ['+'] + text;
  }

  lemma RemovedText(text: string)
    ensures Classify("-" + text) == if "-- " <= text then OldPath else Minus
  {
    var raw := "-" + text;
    assert raw[0] == '-';
    PrefixAfter('-', "-- ", text);
    assert "--- " == ['-'] + "-- ";
    assert raw == ['-'] + text;
  }

  lemma PrefixAfter(c: char, p: string, s: string)
    ensures [c] + p <= [c] + s <==> p <= s
  {
    assert p <= s ==> s == p + s[|p|..];
    assert ([c] + s)[1..] == s && ([c] + p)[1..] == p;
    if [c] + p <= [c] + s {
      assert ([c] + s)[..|p| + 1] == [c] + p;
      assert s[..|p|] == ([c] + s)[..|p| + 1][1..];
    }
  }

  // ---- header lines ----

  lemma NewPathLine(body: string)
    ensures Classify("+++ " + body) == NewPath(if "b/" <= Strip(body) then Strip(body)[2..] else Strip(body))
  {
    var raw := "+++ " + body;
    Cut("+++ ", body);
    assert raw[0] == '+';
  }

  lemma StripPath(path: string)
    ensures Strip("b/" + path) == "b/" + StripRight(path)
  {
    StripRightPrefix("b/", path);
    assert ("b/" + StripRight(path))[0] == 'b';
  }

  lemma NullStays()
    ensures Strip("/dev/null") == "/dev/null"
  {
    assert "/dev/null"[0] == '/' && "/dev/null"[8] == 'l';
  }

  lemma OldPathLine(body: string)
    ensures Classify("--- " + body) == OldPath
  {
    Cut("--- ", body);
    assert ("--- " + body)[0] == '-';
  }

  lemma ModeLine()
    ensures Classify("new file mode 100644") == NewFileMode && OneLine("new file mode 100644")
  {
    Cut("new file mode", " 100644");
    assert "new file mode" + " 100644" == "new file mode 100644";
    assert "new file mode 100644"[0] == 'n';
  }

  lemma GitLine(names: string)
    ensures Classify("diff --git " + names) == GitHeader
  {
    Cut("diff --git", " " + names);
    assert "diff --git" + (" " + names) == "diff --git " + names;
  }

  /** The path the parser takes from a file's `+++ ` line. */
  function SeenPath(f: FilePatch): string {
    if f.change.Deleted? then "/dev/null" else StripRight(f.path)
  }

  predicate PathSurvives(path: string) {
    (path == "" || !IsSpace(path[|path| - 1])) && path != "/dev/null"
  }

  lemma PathSurvivesIff(f: FilePatch)
    requires !f.change.Deleted?
    ensures PathSurvives(f.path) <==> SeenPath(f) == f.path != "/dev/null"
  {
    StripRightFacts(f.path);
  }

  lemma NameStripped(path: string)
    ensures Strip("b/" + (path + NameEnd(path))) == "b/" + StripRight(path)
  {
    if ' ' in path {
      assert (path + "\t")[..|path|] == path;
    } else {
      assert path + "" == path;
    }
    StripPath(path + NameEnd(path));
  }

  lemma NameIsRead(f: FilePatch)
    ensures Classify("+++ " + NewName(f)) == NewPath(SeenPath(f))
  {
    NewPathLine(NewName(f));
    if f.change.Deleted? {
      NullStays();
    } else {
      NameStripped(f.path);
      Cut("b/", StripRight(f.path));
    }
  }

  // ---- lines without breaks ----

  lemma OneLineConcat(a: string, b: string)
    ensures OneLine(a + b) <==> OneLine(a) && OneLine(b)
  {
    if OneLine(a + b) {
      forall i | 0 <= i < |a| ensures !IsLineBreak(a[i]) { assert (a + b)[i] == a[i]; }
      forall i | 0 <= i < |b| ensures !IsLineBreak(b[i]) { assert (a + b)[|a| + i] == b[i]; }
    }
  }

  lemma DigitsOneLine(s: string)
    requires AllDigits(s)
    ensures OneLine(s)
  {
    forall i | 0 <= i < |s| ensures !IsLineBreak(s[i]) { assert IsDigit(s[i]); }
  }

  lemma RangeOneLine(start: nat, count: nat, longForm: bool)
    ensures OneLine(Range(start, count, longForm))
  {
    DigitsOneLine(Decimal(start));
    DigitsOneLine(Decimal(count));
    OneLineConcat(",", Decimal(count));
    OneLineConcat(Decimal(start), if count == 1 && !longForm then "" else "," + Decimal(count));
  }

  lemma HeaderTextOneLine(a: string, b: string, section: string)
    requires OneLine(a) && OneLine(b) && OneLine(section)
    ensures OneLine(HeaderText(a, b, section))
  {
    OneLineConcat(" @@", section);
    OneLineConcat(b, " @@" + section);
    OneLineConcat(" +", b + (" @@" + section));
    OneLineConcat(a, " +" + (b + (" @@" + section)));
    OneLineConcat("@@ -", a + (" +" + (b + (" @@" + section))));
  }
}
