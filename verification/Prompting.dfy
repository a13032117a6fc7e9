/** Fencing of untrusted text: after replacement, truncation and wrapping the fence is unambiguous. */
module Prompting {

  const OPEN_MARK := "<<<UNTRUSTED_REPO_CONTENT>>>"
  const CLOSE_MARK := "<<<END_UNTRUSTED_REPO_CONTENT>>>"
  const OPEN_SUBSTITUTE := "\U{AB}uo\U{BB}"
  const CLOSE_SUBSTITUTE := "\U{AB}uc\U{BB}"

  /** m occurs in s at position i. */
  predicate OccursAt(s: string, m: string, i: nat) {
    i + |m| <= |s| && s[i..i + |m|] == m
  }

  ghost predicate Occurs(s: string, m: string) {
    exists i: nat :: OccursAt(s, m, i)
  }

  /** `s.replace(m, r)`: matches are replaced from left to right and do not overlap. */
  function Replace(s: string, m: string, r: string): string
    requires m != ""
    decreases |s|
  {
    if s == "" then ""
    else if m <= s then r + Replace(s[|m|..], m, r)
    else [s[0]] + Replace(s[1..], m, r)
  }

  /** No character of q occurs in r. */
  predicate Apart(q: string, r: string) {
    forall i | 0 <= i < |q| :: q[i] !in r
  }

  /** A match at the front leaves a result that starts with nothing apart from the substitute. */
  lemma SubstituteBlocks(r: string, rest: string, q: string)
    requires r != "" && q != "" && Apart(q, r)
    ensures !(q <= r + rest)
  {
    assert (r + rest)[0] == r[0] && r[0] in r;
  }

  lemma TailPrefix(c: char, rest: string, q: string)
    requires q != ""
    ensures q <= [c] + rest <==> q[0] == c && q[1..] <= rest
  {
    var t := [c] + rest;
    assert t[1..] == rest;
    if q <= t {
      assert q[1..] == t[..|q|][1..] == rest[..|q| - 1];
    }
    if q[0] == c && q[1..] <= rest {
      assert q == [c] + rest[..|q| - 1] == t[..|q|];
    }
  }

  /** What the result starts with, apart from the substitute, the input starts with. */
  lemma {:induction false} PrefixSurvives(s: string, m: string, r: string, q: string)
    requires m != "" && r != "" && Apart(q, r)
    ensures q <= Replace(s, m, r) ==> q <= s
    decreases |s|
  {
    if q != "" && s != "" {
      if m <= s {
        SubstituteBlocks(r, Replace(s[|m|..], m, r), q);
      } else {
        TailPrefix(s[0], Replace(s[1..], m, r), q);
        TailPrefix(s[0], s[1..], q);
        assert s == [s[0]] + s[1..];
        assert forall i | 0 <= i < |q[1..]| :: q[1..][i] == q[i + 1];
        PrefixSurvives(s[1..], m, r, q[1..]);
      }
    }
  }

  lemma CharAt(s: string, m: string, i: nat, k: nat)
    requires k < |m|
    ensures OccursAt(s, m, i) ==> i + k < |s| && s[i + k] == m[k]
  {
    if i + |m| <= |s| { assert s[i..i + |m|][k] == s[i + k]; }
  }

  lemma InsideSubstitute(r: string, rest: string, q: string, i: nat)
    requires i < |r| && q != "" && Apart(q, r)
    ensures !OccursAt(r + rest, q, i)
  {
    assert r[i] in r;
    CharAt(r + rest, q, i, 0);
  }

  lemma ShiftOccurrence(a: string, b: string, q: string, i: nat)
    requires i >= |a|
    ensures OccursAt(a + b, q, i) <==> OccursAt(b, q, i - |a|)
  {
    if i + |q| <= |a + b| {
      assert (a + b)[i..i + |q|] == b[i - |a|..i - |a| + |q|];
    }
  }

  lemma OccursAtFront(s: string, q: string)
    ensures OccursAt(s, q, 0) <==> q <= s
  {
  }

  /** No match is left, and replacing creates none across its seams. */
  lemma {:induction false} NoneLeft(s: string, m: string, r: string, i: nat)
    requires m != "" && r != "" && Apart(m, r)
    ensures !OccursAt(Replace(s, m, r), m, i)
    decreases |s|
  {
    if s != "" {
      if m <= s {
        var rest := Replace(s[|m|..], m, r);
        if i < |r| {
          InsideSubstitute(r, rest, m, i);
        } else {
          ShiftOccurrence(r, rest, m, i);
          NoneLeft(s[|m|..], m, r, i - |r|);
        }
      } else {
        var rest := Replace(s[1..], m, r);
        if i == 0 {
          OccursAtFront([s[0]] + rest, m);
          PrefixSurvives(s, m, r, m);
        } else {
          ShiftOccurrence([s[0]], rest, m, i);
          NoneLeft(s[1..], m, r, i - 1);
        }
      }
    }
  }

  lemma OccursLater(a: string, b: string, q: string)
    requires Occurs(b, q)
    ensures Occurs(a + b, q)
  {
    var i: nat :| OccursAt(b, q, i);
    ShiftOccurrence(a, b, q, i + |a|);
    assert OccursAt(a + b, q, i + |a|);
  }

  /** Anything apart from the substitute that occurs in the result already occurred in the input. */
  lemma {:induction false} NothingNew(s: string, m: string, r: string, q: string, i: nat)
    requires m != "" && r != "" && q != "" && Apart(q, r)
    ensures OccursAt(Replace(s, m, r), q, i) ==> Occurs(s, q)
    decreases |s|
  {
    if s != "" {
      if m <= s {
        var rest := Replace(s[|m|..], m, r);
        if i < |r| {
          InsideSubstitute(r, rest, q, i);
        } else {
          ShiftOccurrence(r, rest, q, i);
          NothingNew(s[|m|..], m, r, q, i - |r|);
          assert s == s[..|m|] + s[|m|..];
          if Occurs(s[|m|..], q) { OccursLater(s[..|m|], s[|m|..], q); }
        }
      } else {
        var rest := Replace(s[1..], m, r);
        assert s == [s[0]] + s[1..];
        if i == 0 {
          OccursAtFront([s[0]] + rest, q);
          PrefixSurvives(s, m, r, q);
          OccursAtFront(s, q);
        } else {
          ShiftOccurrence([s[0]], rest, q, i);
          NothingNew(s[1..], m, r, q, i - 1);
          if Occurs(s[1..], q) { OccursLater([s[0]], s[1..], q); }
        }
      }
    }
  }

  // ---- the fence ----

  /** `_neutralize_delimiters` */
  function Neutralize(text: string): string {
    Replace(Replace(text, OPEN_MARK, OPEN_SUBSTITUTE), CLOSE_MARK, CLOSE_SUBSTITUTE)
  }

  /** `text[:n]`, also for negative n. */
  function Truncate(text: string, n: int): string {
    if n >= |text| then text else if n >= 0 then text[..n] else if |text| + n > 0 then text[..|text| + n] else ""
  }

  function Body(content: string, redact: string -> string, maxChars: int): string {
    Truncate(Neutralize(redact(content)), maxChars)
  }

  function WrapUntrusted(content: string, redact: string -> string, maxChars: int): string {
    OPEN_MARK + ("\n" + (Body(content, redact, maxChars) + ("\n" + CLOSE_MARK)))
  }

  predicate BelowLetters(s: string) {
    forall i | 0 <= i < |s| :: s[i] < 'a'
  }

  predicate FromLetters(s: string) {
    forall i | 0 <= i < |s| :: s[i] >= 'a'
  }

  lemma LettersApart(q: string, r: string)
    requires BelowLetters(q) && FromLetters(r)
    ensures Apart(q, r)
  {
  }

  lemma OpenBelow()
    ensures BelowLetters(OPEN_MARK)
  {
  }

  lemma CloseBelow()
    ensures BelowLetters(CLOSE_MARK)
  {
  }

  lemma MarksApart()
    ensures Apart(OPEN_MARK, OPEN_SUBSTITUTE) && Apart(OPEN_MARK, CLOSE_SUBSTITUTE) &&
            Apart(CLOSE_MARK, CLOSE_SUBSTITUTE)
  {
    OpenBelow();
    CloseBelow();
    LettersApart(OPEN_MARK, OPEN_SUBSTITUTE);
    LettersApart(OPEN_MARK, CLOSE_SUBSTITUTE);
    LettersApart(CLOSE_MARK, CLOSE_SUBSTITUTE);
  }

  lemma NeutralHasNoMarks(text: string)
    ensures !Occurs(Neutralize(text), OPEN_MARK) && !Occurs(Neutralize(text), CLOSE_MARK)
  {
    MarksApart();
    var once := Replace(text, OPEN_MARK, OPEN_SUBSTITUTE);
    forall i: nat ensures !OccursAt(once, OPEN_MARK, i) {
      NoneLeft(text, OPEN_MARK, OPEN_SUBSTITUTE, i);
    }
    forall i: nat ensures !OccursAt(Neutralize(text), OPEN_MARK, i) {
      NothingNew(once, CLOSE_MARK, CLOSE_SUBSTITUTE, OPEN_MARK, i);
    }
    forall i: nat ensures !OccursAt(Neutralize(text), CLOSE_MARK, i) {
      NoneLeft(once, CLOSE_MARK, CLOSE_SUBSTITUTE, i);
    }
  }

  lemma PrefixHasNone(s: string, k: nat, m: string)
    requires k <= |s| && !Occurs(s, m)
    ensures !Occurs(s[..k], m)
  {
    forall i: nat ensures !OccursAt(s[..k], m, i) {
      assert !OccursAt(s, m, i);
      if i + |m| <= k { assert s[..k][i..i + |m|] == s[i..i + |m|]; }
    }
  }

  lemma BodyHasNoMarks(content: string, redact: string -> string, maxChars: int)
    ensures !Occurs(Body(content, redact, maxChars), OPEN_MARK) && !Occurs(Body(content, redact, maxChars), CLOSE_MARK)
  {
    var text := Neutralize(redact(content));
    NeutralHasNoMarks(redact(content));
    var k := |Truncate(text, maxChars)|;
    assert Truncate(text, maxChars) == text[..k];
    PrefixHasNone(text, k, OPEN_MARK);
    PrefixHasNone(text, k, CLOSE_MARK);
  }

  /** A text without newlines occurs on one side of a newline only. */
  lemma NotAcross(a: string, b: string, m: string, i: nat)
    requires '\n' !in m && m != ""
    ensures OccursAt(a + ("\n" + b), m, i) <==>
            if i <= |a| then OccursAt(a, m, i) else OccursAt(b, m, i - |a| - 1)
  {
    var t := a + ("\n" + b);
    assert t[|a|] == '\n';
    if i > |a| {
      assert t == (a + "\n") + b;
      ShiftOccurrence(a + "\n", b, m, i);
    } else if i + |m| <= |a| {
      assert t[i..i + |m|] == a[i..i + |m|];
    } else {
      CharAt(t, m, i, |a| - i);
    }
  }

  lemma OnlyAtZero(m: string, i: nat)
    ensures OccursAt(m, m, i) <==> i == 0
  {
    assert m[0..|m|] == m;
  }

  lemma OpenNotInClose(i: nat)
    ensures !OccursAt(CLOSE_MARK, OPEN_MARK, i)
  {
    CharAt(CLOSE_MARK, OPEN_MARK, i, 0);
    CharAt(CLOSE_MARK, OPEN_MARK, i, if i <= 3 then 3 - i else 0);
    assert CLOSE_MARK[3] == 'E' && CLOSE_MARK[4] == 'N';
  }

  /**
   The open mark stands at the start of the fenced text and nowhere else, the close mark at its end and
   nowhere else.
   */
  lemma FencedOnce(content: string, redact: string -> string, maxChars: int, i: nat)
    ensures var out := WrapUntrusted(content, redact, maxChars);
            && (OccursAt(out, OPEN_MARK, i) <==> i == 0)
            && (OccursAt(out, CLOSE_MARK, i) <==> i == |out| - |CLOSE_MARK|)
  {
    var body := Body(content, redact, maxChars);
    var rest := body + ("\n" + CLOSE_MARK);
    BodyHasNoMarks(content, redact, maxChars);
    NotAcross(OPEN_MARK, rest, OPEN_MARK, i);
    NotAcross(OPEN_MARK, rest, CLOSE_MARK, i);
    OnlyAtZero(OPEN_MARK, i);
    if i > |OPEN_MARK| {
      var j := i - |OPEN_MARK| - 1;
      NotAcross(body, CLOSE_MARK, OPEN_MARK, j);
      NotAcross(body, CLOSE_MARK, CLOSE_MARK, j);
      if j > |body| {
        OpenNotInClose(j - |body| - 1);
        OnlyAtZero(CLOSE_MARK, j - |body| - 1);
      }
    }
  }

  // ---- the user message ----

  const LEAD := "Review the following " + ("untrusted pull-" + "request content:")
  const MAX_CHARS: nat := 200_000

  /** The instruction, which may hold repository memory, goes in as it is; only the content is fenced. */
  function UserMessage(instruction: string, content: string, redact: string -> string): string {
    instruction + ("\n" + ("" + ("\n" + (LEAD + ("\n" + WrapUntrusted(content, redact, MAX_CHARS))))))
  }

  /** Where the fence starts. */
  function FenceAt(instruction: string): nat {
    |instruction| + 2 + |LEAD| + 1
  }

  predicate NoAngle(s: string) {
    forall i | 0 <= i < |s| :: s[i] != '<'
  }

  lemma WithoutAngle(s: string, m: string, i: nat)
    requires NoAngle(s) && m != "" && m[0] == '<'
    ensures !OccursAt(s, m, i)
  {
    CharAt(s, m, i, 0);
  }

  lemma LeadHasNoAngle()
    ensures NoAngle(LEAD)
  {
    assert NoAngle("Review the following ");
    assert NoAngle("untrusted pull-");
    assert NoAngle("request content:");
  }

  lemma NoMarkInLead(i: nat)
    ensures !OccursAt(LEAD, OPEN_MARK, i) && !OccursAt(LEAD, CLOSE_MARK, i)
    ensures !OccursAt("", OPEN_MARK, i) && !OccursAt("", CLOSE_MARK, i)
  {
    LeadHasNoAngle();
    WithoutAngle(LEAD, OPEN_MARK, i);
    WithoutAngle(LEAD, CLOSE_MARK, i);
  }

  lemma BehindInstruction(instruction: string, fenced: string, m: string, i: nat)
    requires '\n' !in m && m != "" && !OccursAt("", m, if i <= |instruction| then 0 else i - |instruction| - 1)
    requires i > |instruction| + 1 ==> !OccursAt(LEAD, m, i - |instruction| - 2)
    ensures OccursAt(instruction + ("\n" + ("" + ("\n" + (LEAD + ("\n" + fenced))))), m, i) <==>
            if i <= |instruction| then OccursAt(instruction, m, i)
            else i >= FenceAt(instruction) && OccursAt(fenced, m, i - FenceAt(instruction))
  {
    var third := LEAD + ("\n" + fenced);
    var second := "" + ("\n" + third);
    NotAcross(instruction, second, m, i);
    if i > |instruction| {
      var j := i - |instruction| - 1;
      NotAcross("", third, m, j);
      if j > 0 { NotAcross(LEAD, fenced, m, j - 1); }
    }
  }

  lemma MarkInMessage(instruction: string, content: string, redact: string -> string, fenced: string, m: string, i: nat)
    requires fenced == WrapUntrusted(content, redact, MAX_CHARS) && (m == OPEN_MARK || m == CLOSE_MARK)
    ensures OccursAt(UserMessage(instruction, content, redact), m, i) <==>
            if i <= |instruction| then OccursAt(instruction, m, i)
            else i >= FenceAt(instruction) && OccursAt(fenced, m, i - FenceAt(instruction))
  {
    NoMarkInLead(if i > |instruction| + 1 then i - |instruction| - 2 else 0);
    NoMarkInLead(if i <= |instruction| then 0 else i - |instruction| - 1);
    BehindInstruction(instruction, fenced, m, i);
  }

  /** A mark occurs in the message where it occurs in the instruction, and where the fence has it. */
  lemma MessageMarks(instruction: string, content: string, redact: string -> string, i: nat)
    ensures OccursAt(UserMessage(instruction, content, redact), OPEN_MARK, i) <==>
            OccursAt(instruction, OPEN_MARK, i) || i == FenceAt(instruction)
    ensures OccursAt(UserMessage(instruction, content, redact), CLOSE_MARK, i) <==>
            OccursAt(instruction, CLOSE_MARK, i)
            || i == |UserMessage(instruction, content, redact)| - |CLOSE_MARK|
  {
    var fenced := WrapUntrusted(content, redact, MAX_CHARS);
    MarkInMessage(instruction, content, redact, fenced, OPEN_MARK, i);
    MarkInMessage(instruction, content, redact, fenced, CLOSE_MARK, i);
    if i >= FenceAt(instruction) { FencedOnce(content, redact, MAX_CHARS, i - FenceAt(instruction)); }
  }

  /** The mark occurs in the message at that position and nowhere else. */
  ghost predicate OnlyAt(message: string, m: string, at: int) {
    forall i: nat :: OccursAt(message, m, i) <==> i == at
  }

  /** The fence of a message is unambiguous exactly when the instruction mentions neither mark. */
  lemma MessageFencedIff(instruction: string, content: string, redact: string -> string, message: string)
    requires message == UserMessage(instruction, content, redact)
    ensures OnlyAt(message, OPEN_MARK, FenceAt(instruction)) <==> !Occurs(instruction, OPEN_MARK)
    ensures OnlyAt(message, CLOSE_MARK, |message| - |CLOSE_MARK|) <==> !Occurs(instruction, CLOSE_MARK)
  {
    forall i: nat
      ensures OccursAt(message, OPEN_MARK, i) <==> OccursAt(instruction, OPEN_MARK, i) || i == FenceAt(instruction)
      ensures OccursAt(message, CLOSE_MARK, i) <==>
              OccursAt(instruction, CLOSE_MARK, i) || i == |message| - |CLOSE_MARK|
    {
      MessageMarks(instruction, content, redact, i);
    }
    if i: nat :| OccursAt(instruction, OPEN_MARK, i) { assert OccursAt(message, OPEN_MARK, i) &&
      i != FenceAt(instruction); }
    if i: nat :| OccursAt(instruction, CLOSE_MARK, i) {
      assert OccursAt(message, CLOSE_MARK, i) && i < |instruction| < |message| - |CLOSE_MARK|;
    }
  }

  /** A reader who cuts at the first close mark gets exactly the body. */
  lemma BodyRecoverable(content: string, redact: string -> string, maxChars: int, i: nat)
    requires OccursAt(WrapUntrusted(content, redact, maxChars), CLOSE_MARK, i)
    ensures |OPEN_MARK| + 1 <= i - 1
    ensures WrapUntrusted(content, redact, maxChars)[|OPEN_MARK| + 1..i - 1] == Body(content, redact, maxChars)
  {
    FencedOnce(content, redact, maxChars, i);
  }

  // ---- what is passed on ----

  /** The pieces with one text between each two of them. */
  function Join(pieces: seq<string>, between: string): string
    requires pieces != []
  {
    if |pieces| == 1 then pieces[0] else pieces[0] + (between + Join(pieces[1..], between))
  }

  /** In a text ending with m, that is the first m. */
  ghost predicate EndsAtFirst(piece: string, m: string) {
    forall i: nat | i < |piece| :: !OccursAt(piece + m, m, i)
  }

  /** The pieces of a text cut at every match, from left to right. */
  ghost predicate CutAt(pieces: seq<string>, m: string) {
    && pieces != []
    && (forall i | 0 <= i < |pieces| - 1 :: EndsAtFirst(pieces[i], m))
    && !Occurs(pieces[|pieces| - 1], m)
  }

  lemma {:induction false} ReplaceNothing(s: string, m: string, r: string)
    requires m != "" && !Occurs(s, m)
    ensures Replace(s, m, r) == s
    decreases |s|
  {
    if s != "" {
      OccursAtFront(s, m);
      assert !OccursAt(s, m, 0);
      assert s == [s[0]] + s[1..];
      if Occurs(s[1..], m) { OccursLater([s[0]], s[1..], m); }
      ReplaceNothing(s[1..], m, r);
    }
  }

  lemma ReplaceStep(c: char, s: string, m: string, r: string)
    requires m != "" && !(m <= [c] + s)
    ensures Replace([c] + s, m, r) == [c] + Replace(s, m, r)
  {
    assert ([c] + s)[1..] == s;
  }

  /** A text in front that no match begins in stays as it is. */
  lemma {:induction false} ReplaceBehind(a: string, b: string, m: string, r: string)
    requires m != "" && forall i: nat | i < |a| :: !OccursAt(a + b, m, i)
    ensures Replace(a + b, m, r) == a + Replace(b, m, r)
  {
    if a == "" {
      assert a + b == b;
    } else {
      var c, t, s := a[0], a[1..], a[1..] + b;
      assert a == [c] + t && a + b == [c] + s;
      assert !OccursAt(a + b, m, 0);
      OccursAtFront(a + b, m);
      ReplaceStep(c, s, m, r);
      forall i: nat | i < |t| ensures !OccursAt(s, m, i) {
        ShiftOccurrence([c], s, m, i + 1);
      }
      ReplaceBehind(t, b, m, r);
    }
  }

  lemma WithinFirst(a: string, m: string, b: string, i: nat)
    requires i < |a|
    ensures OccursAt(a + (m + b), m, i) <==> OccursAt(a + m, m, i)
  {
    var s := a + (m + b);
    assert s[..|a| + |m|] == a + m;
    assert s[i..i + |m|] == (a + m)[i..i + |m|];
  }

  /** The first match is replaced, what stands before it is kept, and what follows is treated alike. */
  lemma ReplaceFirst(a: string, m: string, b: string, r: string)
    requires m != "" && EndsAtFirst(a, m)
    ensures Replace(a + (m + b), m, r) == a + (r + Replace(b, m, r))
  {
    forall i: nat | i < |a| ensures !OccursAt(a + (m + b), m, i) {
      WithinFirst(a, m, b, i);
    }
    ReplaceBehind(a, m + b, m, r);
    assert (m + b)[|m|..] == b;
  }

  /** Replacing keeps the pieces between the matches, in order, and puts the substitute between them. */
  lemma {:induction false} ReplaceIsJoin(pieces: seq<string>, m: string, r: string)
    requires m != "" && CutAt(pieces, m)
    ensures Replace(Join(pieces, m), m, r) == Join(pieces, r)
  {
    if |pieces| == 1 {
      ReplaceNothing(pieces[0], m, r);
    } else {
      ReplaceFirst(pieces[0], m, Join(pieces[1..], m), r);
      assert CutAt(pieces[1..], m);
      ReplaceIsJoin(pieces[1..], m, r);
    }
  }

  lemma FirstMatch(s: string, m: string) returns (i: nat)
    requires Occurs(s, m)
    ensures OccursAt(s, m, i) && forall j: nat | j < i :: !OccursAt(s, m, j)
  {
    var n: nat :| OccursAt(s, m, n);
    i := 0;
    while !OccursAt(s, m, i)
      invariant i <= n && forall j: nat | j < i :: !OccursAt(s, m, j)
      decreases n - i
    {
      i := i + 1;
    }
  }

  lemma SplitMatch(s: string, m: string, i: nat)
    requires OccursAt(s, m, i)
    ensures s == s[..i] + (m + s[i + |m|..])
  {
    assert s == s[..i] + s[i..];
    assert s[i..] == s[i..i + |m|] + s[i + |m|..];
  }

  /** Every text can be cut so. */
  lemma {:induction false} CutExists(s: string, m: string) returns (pieces: seq<string>)
    requires m != ""
    ensures CutAt(pieces, m) && Join(pieces, m) == s
    decreases |s|
  {
    if Occurs(s, m) {
      var i := FirstMatch(s, m);
      var a, b := s[..i], s[i + |m|..];
      SplitMatch(s, m, i);
      forall j: nat | j < |a| ensures !OccursAt(a + m, m, j) {
        WithinFirst(a, m, b, j);
      }
      var rest := CutExists(b, m);
      pieces := [a] + rest;
      assert pieces[1..] == rest;
    } else {
      pieces := [s];
    }
  }

  // ---- both marks ----

  /** The pieces with the open text o or the close text c between each two of them. */
  function Weave(pieces: seq<string>, opens: seq<bool>, o: string, c: string): string
    requires |pieces| == |opens| + 1
  {
    if opens == [] then pieces[0]
    else pieces[0] + ((if opens[0] then o else c) + Weave(pieces[1..], opens[1..], o, c))
  }

  ghost predicate MarkFree(s: string) {
    !Occurs(s, OPEN_MARK) && !Occurs(s, CLOSE_MARK)
  }

  /** Three opening angles, and no other among the first k characters. */
  predicate AnglesFirst(m: string, k: nat) {
    3 <= k <= |m| && forall i | 0 <= i < k :: m[i] == '<' <==> i < 3
  }

  lemma AnglesOfOpen()
    ensures |OPEN_MARK| == 28 && AnglesFirst(OPEN_MARK, 28)
  {
  }

  lemma AnglesOfClose()
    ensures |CLOSE_MARK| == 32 && AnglesFirst(CLOSE_MARK, 32)
  {
  }

  lemma WithinPiece(a: string, b: string, m: string, i: nat)
    requires i + |m| <= |a|
    ensures OccursAt(a + b, m, i) <==> OccursAt(a, m, i)
  {
    assert a[i..i + |m|] == (a + b)[i..i + |m|];
  }

  /** A mark does not begin in one text and end behind the opening angles of the next. */
  lemma NotIntoAngles(a: string, b: string, m: string, i: nat)
    requires |m| > 4 && AnglesFirst(m, |m|) && AnglesFirst(b, 3) && i < |a| && !Occurs(a, m)
    ensures !OccursAt(a + b, m, i)
  {
    var s, d := a + b, |a| - i;
    if |m| <= d {
      WithinPiece(a, b, m, i);
    } else {
      assert s[i + d] == b[0] && s[i + d + 2] == b[2];
      CharAt(s, m, i, d);
      if d + 2 < |m| { CharAt(s, m, i, d + 2); }
    }
  }

  lemma NotIntoSubstitute(a: string, r: string, rest: string, m: string, i: nat)
    requires r != "" && Apart(m, r) && m != "" && i < |a + r| && !Occurs(a, m)
    ensures !OccursAt((a + r) + rest, m, i)
  {
    var s, d := (a + r) + rest, |a| - i;
    if |m| > d {
      var k := if d >= 0 then d else 0;
      assert s[i + k] == r[i + k - |a|];
      CharAt(s, m, i, k);
    } else {
      assert s == a + (r + rest);
      WithinPiece(a, r + rest, m, i);
    }
  }

  /** The open mark does not begin in a close mark. */
  lemma OpenNotFromClose(rest: string, j: nat)
    requires j < |CLOSE_MARK|
    ensures !OccursAt(CLOSE_MARK + rest, OPEN_MARK, j)
  {
    AnglesOfOpen();
    AnglesOfClose();
    OpenNotInClose(j);
    CharAt(CLOSE_MARK + rest, OPEN_MARK, j, 0);
    if j < 3 {
      assert (CLOSE_MARK + rest)[j..j + |OPEN_MARK|] == CLOSE_MARK[j..j + |OPEN_MARK|];
    }
  }

  lemma EndsAtMark(piece: string, m: string)
    requires |m| > 4 && AnglesFirst(m, |m|) && !Occurs(piece, m)
    ensures EndsAtFirst(piece, m)
  {
    forall i: nat | i < |piece| ensures !OccursAt(piece + m, m, i) {
      NotIntoAngles(piece, m, m, i);
    }
  }

  ghost predicate AllMarkFree(pieces: seq<string>) {
    forall i | 0 <= i < |pieces| :: MarkFree(pieces[i])
  }

  lemma OpenSkips(piece: string, rest: string)
    requires MarkFree(piece)
    ensures Replace(piece + (CLOSE_MARK + rest), OPEN_MARK, OPEN_SUBSTITUTE) ==
            piece + (CLOSE_MARK + Replace(rest, OPEN_MARK, OPEN_SUBSTITUTE))
  {
    var a := piece + CLOSE_MARK;
    assert piece + (CLOSE_MARK + rest) == a + rest;
    AnglesOfOpen();
    AnglesOfClose();
    forall i: nat | i < |a| ensures !OccursAt(a + rest, OPEN_MARK, i) {
      if i < |piece| {
        NotIntoAngles(piece, CLOSE_MARK + rest, OPEN_MARK, i);
      } else {
        OpenNotFromClose(rest, i - |piece|);
        ShiftOccurrence(piece, CLOSE_MARK + rest, OPEN_MARK, i);
      }
    }
    ReplaceBehind(a, rest, OPEN_MARK, OPEN_SUBSTITUTE);
  }

  lemma {:induction false} OpensReplaced(pieces: seq<string>, opens: seq<bool>)
    requires |pieces| == |opens| + 1 && AllMarkFree(pieces)
    ensures Replace(Weave(pieces, opens, OPEN_MARK, CLOSE_MARK), OPEN_MARK, OPEN_SUBSTITUTE) ==
            Weave(pieces, opens, OPEN_SUBSTITUTE, CLOSE_MARK)
  {
    assert MarkFree(pieces[0]);
    if opens == [] {
      ReplaceNothing(pieces[0], OPEN_MARK, OPEN_SUBSTITUTE);
    } else {
      OpensReplaced(pieces[1..], opens[1..]);
      var rest := Weave(pieces[1..], opens[1..], OPEN_MARK, CLOSE_MARK);
      if opens[0] {
        AnglesOfOpen();
        EndsAtMark(pieces[0], OPEN_MARK);
        ReplaceFirst(pieces[0], OPEN_MARK, rest, OPEN_SUBSTITUTE);
      } else {
        OpenSkips(pieces[0], rest);
      }
    }
  }

  lemma SubstituteSkips(piece: string, u: string, rest: string, m: string, r: string)
    requires u != "" && m != "" && Apart(m, u) && !Occurs(piece, m)
    ensures Replace(piece + (u + rest), m, r) == piece + (u + Replace(rest, m, r))
  {
    var a := piece + u;
    assert piece + (u + rest) == a + rest;
    forall i: nat | i < |a| ensures !OccursAt(a + rest, m, i) {
      NotIntoSubstitute(piece, u, rest, m, i);
    }
    ReplaceBehind(a, rest, m, r);
  }

  lemma CloseSkips(piece: string, rest: string)
    requires MarkFree(piece)
    ensures Replace(piece + (OPEN_SUBSTITUTE + rest), CLOSE_MARK, CLOSE_SUBSTITUTE) ==
            piece + (OPEN_SUBSTITUTE + Replace(rest, CLOSE_MARK, CLOSE_SUBSTITUTE))
  {
    CloseBelow();
    LettersApart(CLOSE_MARK, OPEN_SUBSTITUTE);
    SubstituteSkips(piece, OPEN_SUBSTITUTE, rest, CLOSE_MARK, CLOSE_SUBSTITUTE);
  }

  lemma {:induction false} ClosesReplaced(pieces: seq<string>, opens: seq<bool>)
    requires |pieces| == |opens| + 1 && AllMarkFree(pieces)
    ensures Replace(Weave(pieces, opens, OPEN_SUBSTITUTE, CLOSE_MARK), CLOSE_MARK, CLOSE_SUBSTITUTE) ==
            Weave(pieces, opens, OPEN_SUBSTITUTE, CLOSE_SUBSTITUTE)
  {
    assert MarkFree(pieces[0]);
    if opens == [] {
      ReplaceNothing(pieces[0], CLOSE_MARK, CLOSE_SUBSTITUTE);
    } else {
      ClosesReplaced(pieces[1..], opens[1..]);
      var rest := Weave(pieces[1..], opens[1..], OPEN_SUBSTITUTE, CLOSE_MARK);
      if opens[0] {
        CloseSkips(pieces[0], rest);
      } else {
        AnglesOfClose();
        EndsAtMark(pieces[0], CLOSE_MARK);
        ReplaceFirst(pieces[0], CLOSE_MARK, rest, CLOSE_SUBSTITUTE);
      }
    }
  }

  lemma FirstMark(s: string) returns (i: nat)
    requires !MarkFree(s)
    ensures OccursAt(s, OPEN_MARK, i) || OccursAt(s, CLOSE_MARK, i)
    ensures MarkFree(s[..i])
  {
    if Occurs(s, OPEN_MARK) && Occurs(s, CLOSE_MARK) {
      var o := FirstMatch(s, OPEN_MARK);
      var c := FirstMatch(s, CLOSE_MARK);
      i := if o < c then o else c;
      BeforeFirst(s, OPEN_MARK, i);
      BeforeFirst(s, CLOSE_MARK, i);
    } else if Occurs(s, OPEN_MARK) {
      i := FirstMatch(s, OPEN_MARK);
      BeforeFirst(s, OPEN_MARK, i);
      PrefixHasNone(s, i, CLOSE_MARK);
    } else {
      i := FirstMatch(s, CLOSE_MARK);
      BeforeFirst(s, CLOSE_MARK, i);
      PrefixHasNone(s, i, OPEN_MARK);
    }
  }

  lemma BeforeFirst(s: string, m: string, i: nat)
    requires m != "" && i <= |s| && forall j: nat | j < i :: !OccursAt(s, m, j)
    ensures !Occurs(s[..i], m)
  {
    forall j: nat ensures !OccursAt(s[..i], m, j) {
      if j + |m| <= i {
        assert !OccursAt(s, m, j);
        assert s[..i][j..j + |m|] == s[j..j + |m|];
      }
    }
  }

  /** Every text is a sequence of pieces without marks, with the marks between them. */
  lemma {:induction false} WeaveExists(s: string) returns (pieces: seq<string>, opens: seq<bool>)
    ensures |pieces| == |opens| + 1 && AllMarkFree(pieces) && Weave(pieces, opens, OPEN_MARK, CLOSE_MARK) == s
    decreases |s|
  {
    if MarkFree(s) {
      pieces, opens := [s], [];
    } else {
      var i := FirstMark(s);
      var m := if OccursAt(s, OPEN_MARK, i) then OPEN_MARK else CLOSE_MARK;
      var b := s[i + |m|..];
      SplitMatch(s, m, i);
      var rest, others := WeaveExists(b);
      pieces, opens := [s[..i]] + rest, [m == OPEN_MARK] + others;
      assert pieces[1..] == rest && opens[1..] == others;
      assert |OPEN_MARK| != |CLOSE_MARK| by { AnglesOfOpen(); AnglesOfClose(); }
    }
  }

  /**
   Of a text cut into pieces at its marks, the body passes every piece on in order with the substitutes
   between them, cut only where that is too long.
   */
  lemma BodyIsLongestPrefix(content: string, redact: string -> string, maxChars: int, pieces: seq<string>,
                            opens: seq<bool>, full: string)
    requires |pieces| == |opens| + 1 && AllMarkFree(pieces)
    requires redact(content) == Weave(pieces, opens, OPEN_MARK, CLOSE_MARK)
    requires full == Weave(pieces, opens, OPEN_SUBSTITUTE, CLOSE_SUBSTITUTE)
    ensures var body := Body(content, redact, maxChars);
            && body <= full
            && (maxChars >= 0 ==> |body| == if |full| < maxChars then |full| else maxChars)
            && (maxChars < 0 ==> |body| == if |full| + maxChars > 0 then |full| + maxChars else 0)
  {
    OpensReplaced(pieces, opens);
    ClosesReplaced(pieces, opens);
  }

  /** Text that mentions neither mark and fits is passed on as redacted. */
  lemma InnocentTextKept(content: string, redact: string -> string, maxChars: int)
    requires !Occurs(redact(content), OPEN_MARK) && !Occurs(redact(content), CLOSE_MARK) &&
             |redact(content)| <= maxChars
    ensures Body(content, redact, maxChars) == redact(content)
  {
    ReplaceNothing(redact(content), OPEN_MARK, OPEN_SUBSTITUTE);
    ReplaceNothing(redact(content), CLOSE_MARK, CLOSE_SUBSTITUTE);
  }
}
