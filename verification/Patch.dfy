/** The auto-patch generator: mechanical one-line rewrites, their validation and their printed diff. */
module Patch {
  import opened Text
  import opened Wrappers
  import opened Diff
  import opened UnifiedFormat
  import Delimiters
  import opened Parsed

  // ---- the rewrite rules ----

  datatype Pattern = Md5 | Sha1 | VerifyFalse | RejectUnauthorizedFalse | DebugTrue | YamlLoad | InnerHtml

  /** `_PATCH_RULES`: per category, the patterns in the order they are tried. */
  function Rules(category: string): Option<seq<Pattern>> {
    if category == "weak-hash" then Some([Md5, Sha1])
    else if category == "tls-verification-disabled" then Some([VerifyFalse, RejectUnauthorizedFalse])
    else if category == "debug-enabled" then Some([DebugTrue])
    else if category == "insecure-deserialization" then Some([YamlLoad])
    else if category == "xss-innerhtml" then Some([InnerHtml])
    else None
  }

  /** Every pattern rewrites findings of one category, and of no other. */
  lemma PatternHome(p: Pattern, category: string)
    ensures (Rules(category).Some? && p in Rules(category).value) <==>
            category == match p
                        case Md5 | Sha1 => "weak-hash"
                        case VerifyFalse | RejectUnauthorizedFalse => "tls-verification-disabled"
                        case DebugTrue => "debug-enabled"
                        case YamlLoad => "insecure-deserialization"
                        case InnerHtml => "xss-innerhtml"
  {
  }

  predicate Blank(s: string) {
    forall i | 0 <= i < |s| :: IsSpace(s[i])
  }

  /** Equal up to ASCII case; `lower` is in lower case. */
  predicate SameLetters(s: string, lower: string) {
    && |s| == |lower|
    && forall i | 0 <= i < |s| :: s[i] == lower[i] || (s[i] as int + 32 == lower[i] as int && 'a' <= lower[i] <= 'z')
  }

  /** m is a text the pattern can match, and r what replaces it. */
  ghost predicate Replaces(p: Pattern, m: string, r: string) {
    match p
    case Md5 => m == "md5" && r == "sha256"
    case Sha1 => m == "sha1" && r == "sha256"
    case VerifyFalse =>
      (exists a, b :: Blank(a) && Blank(b) && m == "verify" + (a + ("=" + (b + "False")))) && r == "verify=True"
    case RejectUnauthorizedFalse =>
      (exists a, b :: Blank(a) && Blank(b) && m == "rejectUnauthorized" + (a + (":" + (b + "false"))))
      && r == "rejectUnauthorized: true"
    case DebugTrue =>
      exists d, a, b, t :: SameLetters(d, "debug") && Blank(a) && Blank(b) && SameLetters(t, "true") &&
                           m == d + (a + ("=" + (b + t))) && r == d + (a + ("=" + (b + "False")))
    case YamlLoad => m == "yaml.load(" && r == "yaml.safe_load("
    case InnerHtml =>
      exists a :: Blank(a) && m == ".innerHTML" + (a + "=") && r == ".textContent" + (a + "=")
  }

  lemma VerifyFixed(a: string, b: string)
    ensures "verify=True" != "verify" + (a + ("=" + (b + "False")))
  {
    assert |"verify=True"| == 11;
  }

  lemma RejectFixed(a: string, b: string)
    ensures "rejectUnauthorized: true" != "rejectUnauthorized" + (a + (":" + (b + "false")))
  {
    var s := "rejectUnauthorized" + (a + (":" + (b + "false")));
    assert |s| == 24 + |a| + |b|;
    if a == "" && b == "" { assert s[20] == 'a' && "rejectUnauthorized: true"[20] == 't'; }
  }

  lemma EndOf(x: string, y: string, word: string, k: nat)
    requires k < |word|
    ensures (x + (y + word))[|x| + |y| + k] == word[k]
  {
  }

  /** A text that ends in "False" does not end in "true", in whatever case. */
  lemma DebugFixed(x: string, y: string, z: string, w: string, t: string)
    requires SameLetters(t, "true")
    ensures x + (y + "False") != z + (w + t)
  {
    EndOf(x, y, "False", 3);
    EndOf(z, w, t, 2);
  }

  /** What a pattern puts in place of a match is no match of it: the unsafe text is gone. */
  lemma ReplacementIsFixed(p: Pattern, m: string, r: string, further: string)
    requires Replaces(p, m, r)
    ensures !Replaces(p, r, further)
  {
    match p
    case VerifyFalse => forall a, b ensures r != "verify" + (a + ("=" + (b + "False"))) { VerifyFixed(a, b); }
    case RejectUnauthorizedFalse =>
      forall a, b ensures r != "rejectUnauthorized" + (a + (":" + (b + "false"))) { RejectFixed(a, b); }
    case DebugTrue =>
      var d, a, b :| r == d + (a + ("=" + (b + "False")));
      forall e, c, f, t | SameLetters(t, "true") ensures r != e + (c + ("=" + (f + t))) {
        DebugFixed(d + a + "=", b, e + c + "=", f, t);
        assert r == (d + a + "=") + (b + "False") && e + (c + ("=" + (f + t))) == (e + c + "=") + (f + t);
      }
    case InnerHtml => assert r[1] == 't';
    case _ =>
  }

  /** One replacement: the text before the match, the match, its replacement. */
  datatype Cut = Cut(before: string, matched: string, replacement: string)

  function Before(cuts: seq<Cut>, tail: string): string {
    if cuts == [] then tail else cuts[0].before + (cuts[0].matched + Before(cuts[1..], tail))
  }

  function After(cuts: seq<Cut>, tail: string): string {
    if cuts == [] then tail else cuts[0].before + (cuts[0].replacement + After(cuts[1..], tail))
  }

  ghost predicate RewritesVia(p: Pattern, s: string, t: string, cuts: seq<Cut>, tail: string) {
    && (forall i | 0 <= i < |cuts| :: Replaces(p, cuts[i].matched, cuts[i].replacement))
    && s == Before(cuts, tail) && t == After(cuts, tail)
  }

  /** t arises from s by replacing any number of matches of p. */
  ghost predicate Rewrites(p: Pattern, s: string, t: string) {
    exists cuts, tail :: RewritesVia(p, s, t, cuts, tail)
  }

  // ---- rewriting keeps the delimiters, the line and the first columns ----

  lemma {:induction false} NoDelimiters(s: string)
    requires forall i | 0 <= i < |s| :: !Delimiters.Significant(s[i])
    ensures Delimiters.Skeleton(s) == ""
  {
    if s != "" { NoDelimiters(s[1..]); }
  }

  lemma JoinSkeleton(a: string, b: string, c: string)
    requires forall i | 0 <= i < |a| :: !Delimiters.Significant(a[i])
    requires forall i | 0 <= i < |b| :: !Delimiters.Significant(b[i])
    ensures Delimiters.Skeleton(a + (b + c)) == Delimiters.Skeleton(c)
  {
    NoDelimiters(a);
    NoDelimiters(b);
    Delimiters.SkeletonConcat(a, b + c);
    Delimiters.SkeletonConcat(b, c);
  }

  lemma Md5Skeleton()
    ensures Delimiters.Skeleton("md5") == ""
  {
    NoDelimiters("md5");
  }

  lemma Sha1Skeleton()
    ensures Delimiters.Skeleton("sha1") == ""
  {
    NoDelimiters("sha1");
  }

  lemma Sha256Skeleton()
    ensures Delimiters.Skeleton("sha256") == ""
  {
    NoDelimiters("sha256");
  }

  lemma VerifySkeleton()
    ensures Delimiters.Skeleton("verify=True") == ""
  {
    NoDelimiters("verify=True");
  }

  lemma RejectSkeleton()
    ensures Delimiters.Skeleton("rejectUnauthorized: true") == ""
  {
    NoDelimiters("rejectUnauthorized: true");
  }

  lemma WordSkeleton(word: string, rest: string)
    requires forall i | 0 <= i < |word| :: !Delimiters.Significant(word[i])
    ensures Delimiters.Skeleton(word + rest) == Delimiters.Skeleton(rest)
  {
    NoDelimiters(word);
    Delimiters.SkeletonConcat(word, rest);
  }

  lemma YamlSkeleton(rest: string)
    ensures Delimiters.Skeleton("yaml.load" + rest) == Delimiters.Skeleton(rest)
  {
    WordSkeleton("yaml.load", rest);
  }

  lemma SafeYamlSkeleton(rest: string)
    ensures Delimiters.Skeleton("yaml.safe_load" + rest) == Delimiters.Skeleton(rest)
  {
    WordSkeleton("yaml.safe_load", rest);
  }

  /** A word, blanks, a sign, and a rest: only the rest can hold delimiters. */
  lemma AssignmentSkeleton(word: string, blank: string, sign: string, rest: string)
    requires forall i | 0 <= i < |word| :: !Delimiters.Significant(word[i])
    requires forall i | 0 <= i < |sign| :: !Delimiters.Significant(sign[i])
    requires Blank(blank)
    ensures Delimiters.Skeleton(word + (blank + (sign + rest))) == Delimiters.Skeleton(rest)
  {
    JoinSkeleton(word, blank, sign + rest);
    NoDelimiters(sign);
    Delimiters.SkeletonConcat(sign, rest);
  }

  lemma VerifySame(a: string, b: string)
    requires Blank(a) && Blank(b)
    ensures Delimiters.Skeleton("verify" + (a + ("=" + (b + "False")))) == ""
  {
    AssignmentSkeleton("verify", a, "=", b + "False");
    NoDelimiters(b + "False");
  }

  lemma RejectSame(a: string, b: string)
    requires Blank(a) && Blank(b)
    ensures Delimiters.Skeleton("rejectUnauthorized" + (a + (":" + (b + "false")))) == ""
  {
    AssignmentSkeleton("rejectUnauthorized", a, ":", b + "false");
    NoDelimiters(b + "false");
  }

  lemma DebugSame(d: string, a: string, b: string, t: string)
    requires SameLetters(d, "debug") && Blank(a) && Blank(b) && SameLetters(t, "true")
    ensures Delimiters.Skeleton(d + (a + ("=" + (b + t)))) == "" == Delimiters.Skeleton(d + (a + ("=" + (b + "False"))))
  {
    AssignmentSkeleton(d, a, "=", b + t);
    AssignmentSkeleton(d, a, "=", b + "False");
    NoDelimiters(b + t);
    NoDelimiters(b + "False");
  }

  lemma InnerHtmlSame(a: string)
    requires Blank(a)
    ensures Delimiters.Skeleton(".innerHTML" + (a + "=")) == "" == Delimiters.Skeleton(".textContent" + (a + "="))
  {
    assert "=" == "=" + "";
    AssignmentSkeleton(".innerHTML", a, "=", "");
    AssignmentSkeleton(".textContent", a, "=", "");
  }

  lemma ReplacementSkeleton(p: Pattern, m: string, r: string)
    requires Replaces(p, m, r)
    ensures Delimiters.Skeleton(m) == Delimiters.Skeleton(r)
  {
    match p
    case Md5 => Md5Skeleton(); Sha256Skeleton();
    case Sha1 => Sha1Skeleton(); Sha256Skeleton();
    case VerifyFalse =>
      var a, b :| Blank(a) && Blank(b) && m == "verify" + (a + ("=" + (b + "False")));
      VerifySame(a, b);
      VerifySkeleton();
    case RejectUnauthorizedFalse =>
      var a, b :| Blank(a) && Blank(b) && m == "rejectUnauthorized" + (a + (":" + (b + "false")));
      RejectSame(a, b);
      RejectSkeleton();
    case DebugTrue =>
      var d, a, b, t :| SameLetters(d, "debug") && Blank(a) && Blank(b) && SameLetters(t, "true") &&
                        m == d + (a + ("=" + (b + t))) && r == d + (a + ("=" + (b + "False")));
      DebugSame(d, a, b, t);
    case YamlLoad =>
      YamlSkeleton("(");
      SafeYamlSkeleton("(");
      assert "yaml.load(" == "yaml.load" + "(" && "yaml.safe_load(" == "yaml.safe_load" + "(";
    case InnerHtml =>
      var a :| Blank(a) && m == ".innerHTML" + (a + "=") && r == ".textContent" + (a + "=");
      InnerHtmlSame(a);
  }

  lemma {:induction false} CutsKeepSkeleton(p: Pattern, cuts: seq<Cut>, tail: string)
    requires forall i | 0 <= i < |cuts| :: Replaces(p, cuts[i].matched, cuts[i].replacement)
    ensures Delimiters.Skeleton(Before(cuts, tail)) == Delimiters.Skeleton(After(cuts, tail))
  {
    if cuts != [] {
      var c := cuts[0];
      CutsKeepSkeleton(p, cuts[1..], tail);
      ReplacementSkeleton(p, c.matched, c.replacement);
      Delimiters.SkeletonConcat(c.before, c.matched + Before(cuts[1..], tail));
      Delimiters.SkeletonConcat(c.matched, Before(cuts[1..], tail));
      Delimiters.SkeletonConcat(c.before, c.replacement + After(cuts[1..], tail));
      Delimiters.SkeletonConcat(c.replacement, After(cuts[1..], tail));
    }
  }

  /** No rule, at any number of matches, changes whether the delimiters are balanced. */
  lemma RewriteKeepsBalance(p: Pattern, s: string, t: string)
    requires Rewrites(p, s, t)
    ensures Delimiters.Balanced(s) <==> Delimiters.Balanced(t)
  {
    var cuts, tail :| RewritesVia(p, s, t, cuts, tail);
    CutsKeepSkeleton(p, cuts, tail);
    Delimiters.SameSkeleton(s, t);
  }

  lemma DebugShape(d: string, a: string, b: string, t: string)
    requires SameLetters(d, "debug")
    ensures OneLine(d + (a + ("=" + (b + t)))) ==> OneLine(d + (a + ("=" + (b + "False"))))
    ensures d != "" && d[0] != '+' && d[0] != ' '
  {
    var m, r := b + t, b + "False";
    OneLineConcat(d, a + ("=" + m));
    OneLineConcat(a, "=" + m);
    OneLineConcat("=", m);
    OneLineConcat(b, t);
    OneLineConcat(d, a + ("=" + r));
    OneLineConcat(a, "=" + r);
    OneLineConcat("=", r);
    OneLineConcat(b, "False");
  }

  lemma InnerHtmlShape(a: string)
    ensures OneLine(".innerHTML" + (a + "=")) ==> OneLine(".textContent" + (a + "="))
  {
    OneLineConcat(".innerHTML", a + "=");
    OneLineConcat(".textContent", a + "=");
  }

  /** A replacement stays on one line, and neither it nor what it replaces starts like a header quirk. */
  lemma ReplacementShape(p: Pattern, m: string, r: string)
    requires Replaces(p, m, r)
    ensures OneLine(m) ==> OneLine(r)
    ensures m != "" && r != "" && m[0] != '+' && r[0] != '+' && m[0] != ' ' && r[0] != ' '
  {
    match p
    case Md5 =>
    case Sha1 =>
    case VerifyFalse =>
    case RejectUnauthorizedFalse =>
    case DebugTrue =>
      var d, a, b, t :| SameLetters(d, "debug") && Blank(a) && Blank(b) && SameLetters(t, "true") &&
                        m == d + (a + ("=" + (b + t))) && r == d + (a + ("=" + (b + "False")));
      DebugShape(d, a, b, t);
    case YamlLoad =>
    case InnerHtml =>
      var a :| Blank(a) && m == ".innerHTML" + (a + "=") && r == ".textContent" + (a + "=");
      InnerHtmlShape(a);
  }

  lemma {:induction false} CutsStayOneLine(p: Pattern, cuts: seq<Cut>, tail: string)
    requires forall i | 0 <= i < |cuts| :: Replaces(p, cuts[i].matched, cuts[i].replacement)
    requires OneLine(Before(cuts, tail))
    ensures OneLine(After(cuts, tail))
  {
    if cuts != [] {
      var c := cuts[0];
      ReplacementShape(p, c.matched, c.replacement);
      OneLineConcat(c.before, c.matched + Before(cuts[1..], tail));
      OneLineConcat(c.matched, Before(cuts[1..], tail));
      CutsStayOneLine(p, cuts[1..], tail);
      OneLineConcat(c.before, c.replacement + After(cuts[1..], tail));
      OneLineConcat(c.replacement, After(cuts[1..], tail));
    }
  }

  lemma PlusPlusChars(t: string)
    requires "++ " <= t
    ensures |t| >= 3 && t[0] == '+' && t[1] == '+' && t[2] == ' '
  {
    assert t[..3] == "++ ";
  }

  /** A rewritten line starts with "++ " only if the line did. */
  lemma CutsKeepPlusPlus(p: Pattern, cuts: seq<Cut>, tail: string)
    requires forall i | 0 <= i < |cuts| :: Replaces(p, cuts[i].matched, cuts[i].replacement)
    requires "++ " <= After(cuts, tail)
    ensures "++ " <= Before(cuts, tail)
  {
    if cuts != [] {
      var c := cuts[0];
      var t, s := After(cuts, tail), Before(cuts, tail);
      ReplacementShape(p, c.matched, c.replacement);
      PlusPlusChars(t);
      assert t[|c.before|] == c.replacement[0];
      assert |c.before| >= 3;
      assert s[..3] == c.before[..3] == t[..3];
    }
  }

  lemma RewriteStaysPlain(p: Pattern, s: string, t: string)
    requires Rewrites(p, s, t) && OneLine(s) && !("++ " <= s)
    ensures OneLine(t) && !("++ " <= t)
  {
    var cuts, tail :| RewritesVia(p, s, t, cuts, tail);
    CutsStayOneLine(p, cuts, tail);
    if "++ " <= t { CutsKeepPlusPlus(p, cuts, tail); }
  }

  // ---- the printed diff ----

  /** `_unified_diff`: these five lines, each ended by a newline. */
  function PatchLines(path: string, line: nat, original: string, fixed: string): seq<string> {
    ["--- " + ("a/" + path), "+++ " + ("b/" + path), "@@ -" + Decimal(line) + ",1 +" + Decimal(line) + ",1 @@",
     "-" + original, "+" + fixed]
  }

  function PatchText(path: string, line: nat, original: string, fixed: string): string {
    Terminated(PatchLines(path, line, original, fixed))
  }

  lemma ReplacementFiles(h: Hunk, a: Op, b: Op)
    requires h.ops == [a, b] && a.kind == Del && b.kind == Add
    ensures OldFile(ScriptOf([h])) == h.gap + [a.text] && NewFile(ScriptOf([h])) == h.gap + [b.text]
  {
    GapFiles(h.gap);
    OneHunk(h);
    ReplacementScript(Gap(h.gap), a, b);
  }

  lemma ReplacementRendered(h: Hunk, a: Op, b: Op)
    requires h.ops == [a, b] && a.kind == Del && b.kind == Add && !a.noEol && !b.noEol
    ensures RenderHunks([h]) == [HunkHeader([], h), "-" + a.text, "+" + b.text]
  {
    OneHunk(h);
    ReplacementScript([], a, b);
    assert [] + [a, b] == [a, b];
  }

  lemma ReplacementHeader(h: Hunk, a: Op, b: Op, n: nat)
    requires h.ops == [a, b] && a.kind == Del && b.kind == Add && h.longForm && h.section == "" && n == |h.gap| + 1
    ensures HunkHeader([], h) == "@@ -" + Decimal(n) + ",1 +" + Decimal(n) + ",1 @@"
  {
    GapFiles(h.gap);
    assert [] + Gap(h.gap) == Gap(h.gap);
    ReplacementScript([], a, b);
    assert [] + [a, b] == [a, b];
    PatchHeaderText(n);
  }

  /**
   The printed patch is the unified diff of the file in which that line is replaced: after the lines before it,
   the original goes out and the fixed line comes in.
   */
  lemma PatchIsTheDiff(path: string, before: seq<string>, original: string, fixed: string, h: Hunk)
    requires h == Hunk(before, [Op(Del, original, false), Op(Add, fixed, false)], true, "")
    ensures OldFile(ScriptOf([h])) == before + [original] && NewFile(ScriptOf([h])) == before + [fixed]
    ensures PatchLines(path, |before| + 1, original, fixed) ==
            ["--- " + ("a/" + path), "+++ " + ("b/" + path)] + RenderHunks([h])
  {
    ReplacementFiles(h, h.ops[0], h.ops[1]);
    ReplacementRendered(h, h.ops[0], h.ops[1]);
    ReplacementHeader(h, h.ops[0], h.ops[1], |before| + 1);
  }

  lemma {:induction false} GapFiles(texts: seq<string>)
    ensures OldFile(Gap(texts)) == texts && NewFile(Gap(texts)) == texts
  {
    if texts != [] {
      GapFiles(texts[..|texts| - 1]);
      assert Gap(texts)[..|texts| - 1] == Gap(texts[..|texts| - 1]);
    }
  }

  lemma OneMoreOp(s: Script, op: Op)
    ensures OldFile(s + [op]) == OldFile(s) + (if op.kind == Add then [] else [op.text])
    ensures NewFile(s + [op]) == NewFile(s) + (if op.kind == Del then [] else [op.text])
    ensures RenderOps(s + [op]) == RenderOps(s) + RenderOp(op)
  {
    assert (s + [op])[..|s|] == s;
  }

  lemma ReplacementScript(before: Script, a: Op, b: Op)
    requires a.kind == Del && b.kind == Add
    ensures OldFile(before + [a, b]) == OldFile(before) + [a.text]
    ensures NewFile(before + [a, b]) == NewFile(before) + [b.text]
    ensures RenderOps(before + [a, b]) == RenderOps(before) + RenderOp(a) + RenderOp(b)
  {
    OneMoreOp(before, a);
    OneMoreOp(before + [a], b);
    assert before + [a, b] == (before + [a]) + [b];
  }

  lemma OneHunk(h: Hunk)
    ensures ScriptOf([h]) == Gap(h.gap) + h.ops
    ensures RenderHunks([h]) == [HunkHeader([], h)] + RenderOps(h.ops)
  {
    var hs := [h];
    assert hs[..0] == [] && ScriptOf(hs[..0]) == [] && RenderHunks(hs[..0]) == [];
    assert [] + Gap(h.gap) == Gap(h.gap);
  }

  lemma PatchHeaderText(line: nat)
    ensures "@@ -" + Decimal(line) + ",1 +" + Decimal(line) + ",1 @@" ==
            HeaderText(Range(line, 1, true), Range(line, 1, true), "")
  {
    var d := Decimal(line);
    assert Decimal(1) == "1";
    assert Range(line, 1, true) == d + ",1";
    assert "@@ -" + d + ",1 +" + d + ",1 @@" == "@@ -" + ((d + ",1") + (" +" + ((d + ",1") + (" @@" + ""))));
  }

  function ReadPatch(path: string, line: nat, original: string, fixed: string): seq<Line> {
    [OldPath, NewPath(StripRight(path)), HunkAt(line), if "-- " <= original then OldPath else Minus,
     if "++ " <= fixed then NewPath(HeaderPath("+" + fixed)) else Plus(fixed)]
  }

  lemma PatchHeaderIsRead(line: nat)
    ensures Classify("@@ -" + Decimal(line) + ",1 +" + Decimal(line) + ",1 @@") == HunkAt(line)
  {
    PatchHeaderText(line);
    HeaderRead(line, 1, line, 1, true, "");
    AtLine(HeaderText(Range(line, 1, true), Range(line, 1, true), ""), line);
  }

  lemma ReadFive(a: string, b: string, c: string, d: string, e: string)
    ensures Read([a, b, c, d, e]) == [Classify(a), Classify(b), Classify(c), Classify(d), Classify(e)]
  {
  }

  lemma PatchIsRead(path: string, line: nat, original: string, fixed: string)
    ensures Read(PatchLines(path, line, original, fixed)) == ReadPatch(path, line, original, fixed)
  {
    OldPathLine("a/" + path);
    NewPathLine("b/" + path);
    StripPath(path);
    UnifiedFormat.Cut("b/", StripRight(path));
    PatchHeaderIsRead(line);
    RemovedText(original);
    AddedText(fixed);
    var ls := PatchLines(path, line, original, fixed);
    ReadFive(ls[0], ls[1], ls[2], ls[3], ls[4]);
  }

  lemma RunFive(a: Line, b: Line, c: Line, d: Line, e: Line)
    ensures Run(START, [a, b, c, d, e]) == Step(Step(Step(Step(Step(START, a), b), c), d), e)
  {
    RunPair(START, a, b);
    RunPair(Step(Step(START, a), b), c, d);
    RunConcat(START, [a, b], [c, d]);
    assert [a, b] + [c, d] == [a, b, c, d];
    RunAppend(START, [a, b, c, d], e);
    assert [a, b, c, d] + [e] == [a, b, c, d, e];
  }

  /** What the parser makes of the printed patch when the path survives. */
  lemma PatchRun(path: string, line: nat, original: string, fixed: string)
    requires StripRight(path) == path != "/dev/null"
    ensures var files := Run(START, ReadPatch(path, line, original, fixed)).files;
            var removed := if "-- " <= original then 0 else 1;
            && files != []
            && files[0] == FileRecord(path, false, if "++ " <= fixed then [] else [AddedLine(line, fixed)], removed)
            && (!("++ " <= fixed) ==> |files| == 1)
  {
    var ls := ReadPatch(path, line, original, fixed);
    RunFive(ls[0], ls[1], ls[2], ls[3], ls[4]);
    var none: seq<AddedLine> := [];
    assert none + none == none;
    var st2 := Step(Step(START, ls[0]), ls[1]);
    assert st2.files == [FileRecord(path, false, [], 0)];
    var st4 := Step(Step(st2, ls[2]), ls[3]);
    assert st4.files == [FileRecord(path, false, [], if "-- " <= original then 0 else 1)];
    assert [] + [AddedLine(line, fixed)] == [AddedLine(line, fixed)];
  }

  lemma LostPath(path: string, line: nat, original: string, fixed: string)
    requires !PathSurvives(path)
    ensures var files := Run(START, ReadPatch(path, line, original, fixed)).files;
            files == [] || files[0].path != path || files[0].added == []
  {
    StripRightFacts(path);
    var ls := ReadPatch(path, line, original, fixed);
    RunFive(ls[0], ls[1], ls[2], ls[3], ls[4]);
  }

  lemma PatchOneLine(path: string, line: nat, original: string, fixed: string)
    requires OneLine(path) && OneLine(original) && OneLine(fixed)
    ensures AllOneLine(PatchLines(path, line, original, fixed))
  {
    OneLineConcat("a/", path);
    OneLineConcat("b/", path);
    OneLineConcat("--- ", "a/" + path);
    OneLineConcat("+++ ", "b/" + path);
    OneLineConcat("-", original);
    OneLineConcat("+", fixed);
    PatchHeaderText(line);
    RangeOneLine(line, 1, true);
    HeaderTextOneLine(Range(line, 1, true), Range(line, 1, true), "");
  }

  /**
   Printer and parser agree: reading a printed patch yields one file, one removed line and one added
   line at the patched position, if and only if the path survives and neither line mimics a header.
   */
  lemma PatchParses(path: string, line: nat, original: string, fixed: string, maxLines: nat)
    requires OneLine(path) && OneLine(original) && OneLine(fixed) && maxLines >= 5
    ensures Parse(PatchText(path, line, original, fixed), maxLines) ==
            [FileRecord(path, false, [AddedLine(line, fixed)], 1)]
            <==> PathSurvives(path) && !("-- " <= original) && !("++ " <= fixed)
  {
    PatchOneLine(path, line, original, fixed);
    SplitTerminated(PatchLines(path, line, original, fixed));
    PatchIsRead(path, line, original, fixed);
    StripRightFacts(path);
    if PathSurvives(path) {
      PatchRun(path, line, original, fixed);
    } else {
      LostPath(path, line, original, fixed);
    }
  }

  // ---- the generator ----

  datatype Target = Target(category: string, filePath: Option<string>, line: Option<nat>)

  datatype SuggestedPatch =
    SuggestedPatch(filePath: string, line: nat, original: string, fixed: string, unifiedDiff: string, category: string)

  /** The parts of the generator that lie outside: the regex engine, the Python parser, the language guess. */
  datatype Tools = Tools(sub: (Pattern, string) -> string, parses: string -> bool, isPython: string -> bool)

  ghost predicate SoundTools(tools: Tools) {
    forall p, s :: Rewrites(p, s, tools.sub(p, s))
  }

  predicate IsBlankText(s: string) {
    Strip(s) == ""
  }

  ghost predicate Accepted(tools: Tools, path: string, original: string, fixed: string) {
    && fixed != original
    && !IsBlankText(fixed)
    && Delimiters.Balanced(fixed)
    && (tools.isPython(path) && tools.parses(original) ==> tools.parses(fixed))
  }

  method Validate(tools: Tools, path: string, original: string, fixed: string) returns (ok: bool)
    ensures ok <==> Accepted(tools, path, original, fixed)
  {
    if fixed == original || IsBlankText(fixed) {
      return false;
    }
    var balanced := Delimiters.DelimitersBalanced(fixed);
    if !balanced {
      return false;
    }
    return !tools.isPython(path) || !tools.parses(original) || tools.parses(fixed);
  }

  /** The first file with the path, and its first added line with the number. */
  ghost predicate Locates(files: seq<FileRecord>, path: string, line: nat, i: int, k: int) {
    && 0 <= i < |files| && files[i].path == path
    && (forall j | 0 <= j < i :: files[j].path != path)
    && 0 <= k < |files[i].added| && files[i].added[k].newLine == line
    && (forall j | 0 <= j < k :: files[i].added[j].newLine != line)
  }

  method FindLine(files: seq<FileRecord>, path: string, line: nat) returns (text: Option<string>)
    ensures text.Some? ==> exists i, k :: Locates(files, path, line, i, k) && files[i].added[k].text == text.value
    ensures text.None? ==> forall i, k :: !Locates(files, path, line, i, k)
  {
    var i := 0;
    while i < |files| && files[i].path != path
      invariant 0 <= i <= |files|
      invariant forall j | 0 <= j < i :: files[j].path != path
    {
      i := i + 1;
    }
    if i == |files| {
      return None;
    }
    var k := 0;
    while k < |files[i].added| && files[i].added[k].newLine != line
      invariant 0 <= k <= |files[i].added|
      invariant forall j | 0 <= j < k :: files[i].added[j].newLine != line
    {
      k := k + 1;
    }
    if k == |files[i].added| {
      return None;
    }
    assert Locates(files, path, line, i, k);
    return Some(files[i].added[k].text);
  }

  /** The first rule that changes the line decides; later rules are not tried. */
  ghost predicate FirstChange(tools: Tools, rules: seq<Pattern>, original: string, fixed: string) {
    if rules == [] then fixed == original
    else if tools.sub(rules[0], original) != original then fixed == tools.sub(rules[0], original)
    else FirstChange(tools, rules[1..], original, fixed)
  }

  /** Of two patterns of a category the second is used only where the first changes nothing. */
  lemma SecondRuleWaits(tools: Tools, category: string, original: string, fixed: string)
    requires category == "weak-hash" || category == "tls-verification-disabled"
    requires FirstChange(tools, Rules(category).value, original, fixed)
    ensures var first := if category == "weak-hash" then Md5 else VerifyFalse;
            var second := if category == "weak-hash" then Sha1 else RejectUnauthorizedFalse;
            fixed == if tools.sub(first, original) != original then tools.sub(first, original)
                     else tools.sub(second, original)
  {
    var rules := Rules(category).value;
    assert FirstChange(tools, rules[1..], original, tools.sub(rules[1], original)) by {
      assert FirstChange(tools, rules[1..][1..], original, original);
    }
    if tools.sub(rules[0], original) == original {
      ChangeUnique(tools, rules[1..], original, fixed, tools.sub(rules[1], original));
    }
  }

  method ApplyRules(tools: Tools, rules: seq<Pattern>, original: string) returns (fixed: string)
    ensures FirstChange(tools, rules, original, fixed)
  {
    fixed := original;
    for i := 0 to |rules|
      invariant fixed == original
      invariant forall t :: FirstChange(tools, rules, original, t) <==> FirstChange(tools, rules[i..], original, t)
    {
      assert rules[i..][1..] == rules[i + 1..];
      var next := tools.sub(rules[i], fixed);
      if next != fixed {
        fixed := next;
        break;
      }
    }
  }

  ghost predicate PatchOf(tools: Tools, target: Target, files: seq<FileRecord>, p: SuggestedPatch) {
    && target.filePath == Some(p.filePath) && target.line == Some(p.line) && target.category == p.category
    && Rules(p.category).Some?
    && (exists i, k :: Locates(files, p.filePath, p.line, i, k) && files[i].added[k].text == p.original)
    && FirstChange(tools, Rules(p.category).value, p.original, p.fixed)
    && Accepted(tools, p.filePath, p.original, p.fixed)
    && p.unifiedDiff == PatchText(p.filePath, p.line, p.original, p.fixed)
  }

  method GeneratePatch(tools: Tools, target: Target, files: seq<FileRecord>) returns (patch: Option<SuggestedPatch>)
    ensures patch.Some? ==> PatchOf(tools, target, files, patch.value)
    ensures patch.None? ==> forall p :: !PatchOf(tools, target, files, p)
  {
    var rules := Rules(target.category);
    if rules.None? || target.filePath.None? || target.line.None? {
      return None;
    }
    var path, line := target.filePath.value, target.line.value;
    var text := FindLine(files, path, line);
    if text.None? {
      return None;
    }
    var original := text.value;
    var fixed := ApplyRules(tools, rules.value, original);
    var ok := Validate(tools, path, original, fixed);
    forall p | PatchOf(tools, target, files, p) ensures p.original == original && p.fixed == fixed {
      LineUnique(files, path, line, p.original, original);
      ChangeUnique(tools, rules.value, original, p.fixed, fixed);
    }
    if !ok {
      return None;
    }
    return Some(SuggestedPatch(path, line, original, fixed, PatchText(path, line, original, fixed), target.category));
  }

  lemma LineUnique(files: seq<FileRecord>, path: string, line: nat, s: string, t: string)
    requires exists i, k :: Locates(files, path, line, i, k) && files[i].added[k].text == s
    requires exists i, k :: Locates(files, path, line, i, k) && files[i].added[k].text == t
    ensures s == t
  {
    var i, k :| Locates(files, path, line, i, k) && files[i].added[k].text == s;
    var j, l :| Locates(files, path, line, j, l) && files[j].added[l].text == t;
    assert i == j;
    assert k == l;
  }

  lemma {:induction false} ChangeUnique(tools: Tools, rules: seq<Pattern>, original: string, s: string, t: string)
    requires FirstChange(tools, rules, original, s) && FirstChange(tools, rules, original, t)
    ensures s == t
  {
    if rules != [] && tools.sub(rules[0], original) == original {
      ChangeUnique(tools, rules[1..], original, s, t);
    }
  }

  lemma {:induction false} ChangeIsRewrite(tools: Tools, rules: seq<Pattern>, original: string, fixed: string)
    requires SoundTools(tools) && FirstChange(tools, rules, original, fixed) && fixed != original
    ensures exists p :: Rewrites(p, original, fixed)
  {
    if tools.sub(rules[0], original) != original {
      assert Rewrites(rules[0], original, fixed);
    } else {
      ChangeIsRewrite(tools, rules[1..], original, fixed);
    }
  }

  /**
   A patch generated for any parsed diff: its line was already balanced, and the printed diff reads
   back as that one replacement unless the old line starts with "-- ".
   */
  lemma GeneratedPatchReadsBack(tools: Tools, target: Target, text: string, maxLines: nat, p: SuggestedPatch)
    requires SoundTools(tools) && PatchOf(tools, target, Parse(text, maxLines), p)
    ensures Delimiters.Balanced(p.original) && Delimiters.Balanced(p.fixed)
    ensures Parse(p.unifiedDiff, MAX_LINES) == [FileRecord(p.filePath, false, [AddedLine(p.line, p.fixed)], 1)]
            <==> !("-- " <= p.original)
  {
    var files := Parse(text, maxLines);
    ParsedIsPrintable(text, maxLines);
    var i, k :| Locates(files, p.filePath, p.line, i, k) && files[i].added[k].text == p.original;
    assert RecordPrintable(files[i]);
    ChangeIsRewrite(tools, Rules(p.category).value, p.original, p.fixed);
    var rule :| Rewrites(rule, p.original, p.fixed);
    RewriteKeepsBalance(rule, p.original, p.fixed);
    RewriteStaysPlain(rule, p.original, p.fixed);
    PatchParses(p.filePath, p.line, p.original, p.fixed, MAX_LINES);
  }
}
