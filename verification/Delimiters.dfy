/** The delimiter check of the patch generator: a stack machine, and the grammar it decides. */
module Delimiters {
  import opened Wrappers

  predicate IsOpen(c: char) {
    c == '(' || c == '[' || c == '{'
  }

  predicate IsClose(c: char) {
    c == ')' || c == ']' || c == '}'
  }

  predicate IsQuote(c: char) {
    c == '\'' || c == '"'
  }

  /** The source's `pairs`. */
  function Opener(c: char): char
    requires IsClose(c)
  {
    if c == ')' then '(' else if c == ']' then '[' else '{'
  }

  function Closer(c: char): char
    requires IsOpen(c)
  {
    if c == '(' then ')' else if c == '[' then ']' else '}'
  }

  predicate Significant(c: char) {
    IsOpen(c) || IsClose(c) || IsQuote(c)
  }

  // ---- the grammar ----

  /** Balanced text: other characters, quoted segments and matching bracket pairs, in sequence. */
  datatype Tree =
    | Empty
    | Plain(c: char, rest: Tree)
    | Quoted(quote: char, body: string, rest: Tree)
    | Nest(opening: char, inner: Tree, rest: Tree)
  {
    predicate Valid() {
      match this
      case Empty => true
      case Plain(c, rest) => !Significant(c) && rest.Valid()
      case Quoted(q, body, rest) => IsQuote(q) && q !in body && rest.Valid()
      case Nest(o, inner, rest) => IsOpen(o) && inner.Valid() && rest.Valid()
    }

    function Yield(): string
      requires Valid()
    {
      match this
      case Empty => ""
      case Plain(c, rest) => [c] + rest.Yield()
      case Quoted(q, body, rest) => [q] + (body + ([q] + rest.Yield()))
      case Nest(o, inner, rest) => [o] + (inner.Yield() + ([Closer(o)] + rest.Yield()))
    }
  }

  ghost predicate Balanced(text: string) {
    exists t: Tree :: t.Valid() && t.Yield() == text
  }

  // ---- the machine ----

  /** Whether the machine accepts the rest of the text from a given stack and open quote. */
  predicate Accepts(s: string, stack: seq<char>, inStr: Option<char>) {
    if s == "" then inStr.None? && stack == []
    else if inStr.Some? then Accepts(s[1..], stack, if s[0] == inStr.value then None else inStr)
    else if IsQuote(s[0]) then Accepts(s[1..], stack, Some(s[0]))
    else if IsOpen(s[0]) then Accepts(s[1..], stack + [s[0]], None)
    else if IsClose(s[0]) then
      stack != [] && stack[|stack| - 1] == Opener(s[0]) && Accepts(s[1..], stack[..|stack| - 1], None)
    else Accepts(s[1..], stack, None)
  }

  lemma Shift(c: char, a: string, b: string)
    ensures ([c] + a) + b == [c] + (a + b) && ([c] + a)[0] == c && ([c] + a)[1..] == a
  {
  }

  lemma Regroup(a: string, b: string, c: string, d: string)
    ensures a + (b + (c + d)) == (a + (b + c)) + d
  {
  }

  lemma {:induction false} QuotePasses(body: string, q: char, after: string, stack: seq<char>)
    requires q !in body
    ensures Accepts(body + ([q] + after), stack, Some(q)) == Accepts(after, stack, None)
  {
    if body == "" {
      assert body + ([q] + after) == [q] + after;
    } else {
      assert body + ([q] + after) == [body[0]] + (body[1..] + ([q] + after));
      QuotePasses(body[1..], q, after, stack);
    }
  }

  /** A balanced text leaves the machine as it found it. */
  lemma {:induction false} TreePasses(t: Tree, after: string, stack: seq<char>)
    requires t.Valid()
    ensures Accepts(t.Yield() + after, stack, None) == Accepts(after, stack, None)
    decreases t
  {
    match t
    case Empty =>
      assert "" + after == after;
    case Plain(c, rest) =>
      Shift(c, rest.Yield(), after);
      TreePasses(rest, after, stack);
    case Quoted(q, body, rest) =>
      var tail := rest.Yield() + after;
      assert t.Yield() + after == [q] + (body + ([q] + tail));
      QuotePasses(body, q, tail, stack);
      TreePasses(rest, after, stack);
    case Nest(o, inner, rest) =>
      var tail := rest.Yield() + after;
      assert t.Yield() + after == [o] + (inner.Yield() + ([Closer(o)] + tail));
      TreePasses(inner, [Closer(o)] + tail, stack + [o]);
      assert (stack + [o])[..|stack|] == stack;
      TreePasses(rest, after, stack);
  }

  lemma {:induction false} QuoteEnds(s: string, q: char, stack: seq<char>) returns (body: string, after: string)
    requires Accepts(s, stack, Some(q))
    ensures s == body + ([q] + after) && q !in body && Accepts(after, stack, None)
    ensures |after| < |s|
  {
    assert s == [s[0]] + s[1..];
    if s[0] == q {
      body, after := "", s[1..];
    } else {
      body, after := QuoteEnds(s[1..], q, stack);
      body := [s[0]] + body;
    }
  }

  /** Accepted text is a balanced part, then the closer of the innermost open bracket, if there is one. */
  lemma {:induction false} Parse(s: string, stack: seq<char>) returns (t: Tree, rest: string)
    requires Accepts(s, stack, None)
    requires forall i | 0 <= i < |stack| :: IsOpen(stack[i])
    ensures t.Valid() && s == t.Yield() + rest
    ensures stack == [] ==> rest == ""
    ensures stack != [] ==>
              && rest != "" && rest[0] == Closer(stack[|stack| - 1])
              && Accepts(rest[1..], stack[..|stack| - 1], None)
    decreases |s|
  {
    if s == "" || IsClose(s[0]) {
      t, rest := Empty, s;
    } else {
      var c := s[0];
      assert s == [c] + s[1..];
      if IsQuote(c) {
        var body, after := QuoteEnds(s[1..], c, stack);
        var t1, r1 := Parse(after, stack);
        t, rest := Quoted(c, body, t1), r1;
        QuotedYield(c, body, t1, r1);
      } else if IsOpen(c) {
        var inner, r0 := Parse(s[1..], stack + [c]);
        assert (stack + [c])[..|stack|] == stack;
        assert r0 == [r0[0]] + r0[1..];
        var t1, r1 := Parse(r0[1..], stack);
        t, rest := Nest(c, inner, t1), r1;
        NestYield(c, inner, t1, r1);
      } else {
        var t1, r1 := Parse(s[1..], stack);
        t, rest := Plain(c, t1), r1;
        Shift(c, t1.Yield(), r1);
      }
    }
  }

  lemma QuotedYield(q: char, body: string, t: Tree, rest: string)
    requires Quoted(q, body, t).Valid()
    ensures [q] + (body + ([q] + (t.Yield() + rest))) == Quoted(q, body, t).Yield() + rest
  {
    Regroup([q] + body, [q], t.Yield(), rest);
  }

  lemma NestYield(o: char, inner: Tree, t: Tree, rest: string)
    requires Nest(o, inner, t).Valid()
    ensures [o] + (inner.Yield() + ([Closer(o)] + (t.Yield() + rest))) == Nest(o, inner, t).Yield() + rest
  {
    Regroup([o] + inner.Yield(), [Closer(o)], t.Yield(), rest);
  }

  /** The machine decides the grammar, in both directions. */
  lemma AcceptsIffBalanced(text: string)
    ensures Accepts(text, [], None) <==> Balanced(text)
  {
    if Accepts(text, [], None) {
      var t, rest := Parse(text, []);
      assert t.Yield() + "" == t.Yield();
    }
    if t: Tree :| t.Valid() && t.Yield() == text {
      TreePasses(t, "", []);
      assert text + "" == text;
    }
  }

  /** The characters the check looks at. */
  const DELIMITERS := "()[]{}" + "'\""

  predicate Pair(o: char, c: char) {
    (o == '(' && c == ')') || (o == '[' && c == ']') || (o == '{' && c == '}')
  }

  /** Behind a balanced part, a closer ends nothing. */
  lemma UnopenedText(x: string, c: char, y: string)
    requires Balanced(x) && c in ")]}"
    ensures !Balanced(x + ([c] + y))
  {
    var t: Tree :| t.Valid() && t.Yield() == x;
    AcceptsIffBalanced(x + ([c] + y));
    TreePasses(t, [c] + y, []);
  }

  /** A balanced part between two brackets is balanced exactly when they are a pair and the rest is balanced. */
  lemma EnclosedText(o: char, x: string, c: char, y: string)
    requires Balanced(x) && o in "([{" && c in ")]}"
    ensures Balanced([o] + (x + ([c] + y))) <==> Pair(o, c) && Balanced(y)
  {
    var t: Tree :| t.Valid() && t.Yield() == x;
    var inside, nested := x + ([c] + y), [o] + (x + ([c] + y));
    assert nested[0] == o && nested[1..] == inside;
    AcceptsIffBalanced(nested);
    AcceptsIffBalanced(y);
    assert Accepts(nested, [], None) == Accepts(inside, [o], None) by { assert [] + [o] == [o]; }
    TreePasses(t, [c] + y, [o]);
    CloserPops(o, c, y);
  }

  lemma CloserPops(o: char, c: char, y: string)
    requires IsOpen(o) && IsClose(c)
    ensures Accepts([c] + y, [o], None) <==> Opener(c) == o && Accepts(y, [], None)
  {
    assert ([c] + y)[1..] == y && [o][..0] == [];
  }

  /** Any other character does not matter. */
  lemma PlainText(c: char, y: string)
    requires c !in DELIMITERS
    ensures Balanced([c] + y) <==> Balanced(y)
  {
    AcceptsIffBalanced([c] + y);
    AcceptsIffBalanced(y);
    assert ([c] + y)[1..] == y;
    assert forall i | 0 <= i < 8 :: c != DELIMITERS[i];
  }

  /** Between two equal quotes anything but that quote is skipped, and an open quote is never balanced. */
  lemma QuotedText(body: string, q: char, y: string)
    requires (q == '\'' || q == '"') && q !in body
    ensures Balanced([q] + (body + ([q] + y))) <==> Balanced(y)
    ensures !Balanced([q] + body)
  {
    AcceptsIffBalanced(y);
    var s := [q] + (body + ([q] + y));
    AcceptsIffBalanced(s);
    assert s[1..] == body + ([q] + y);
    QuotePasses(body, q, y, []);
    AcceptsIffBalanced([q] + body);
    assert ([q] + body)[1..] == body;
    if Accepts(body, [], Some(q)) { var b, after := QuoteEnds(body, q, []); }
  }

  method DelimitersBalanced(text: string) returns (ok: bool)
    ensures ok <==> Balanced(text)
  {
    AcceptsIffBalanced(text);
    var stack: seq<char> := [];
    var inStr: Option<char> := None;
    for i := 0 to |text|
      invariant Accepts(text[i..], stack, inStr) == Accepts(text, [], None)
    {
      var ch := text[i];
      assert text[i..][1..] == text[i + 1..];
      if inStr.Some? {
        if ch == inStr.value {
          inStr := None;
        }
        continue;
      }
      if IsQuote(ch) {
        inStr := Some(ch);
      } else if IsOpen(ch) {
        stack := stack + [ch];
      } else if IsClose(ch) {
        if stack == [] || stack[|stack| - 1] != Opener(ch) {
          return false;
        }
        stack := stack[..|stack| - 1];
      }
    }
    return inStr == None && stack == [];
  }

  // ---- only delimiters and quotes matter ----

  /** The delimiters and quotes of a text, in order. */
  function Skeleton(s: string): string {
    if s == "" then "" else (if Significant(s[0]) then [s[0]] else "") + Skeleton(s[1..])
  }

  lemma SkeletonStep(c: char, s: string)
    ensures Skeleton([c] + s) == (if Significant(c) then [c] else "") + Skeleton(s)
  {
    assert ([c] + s)[1..] == s;
  }

  lemma {:induction false} SkeletonConcat(a: string, b: string)
    ensures Skeleton(a + b) == Skeleton(a) + Skeleton(b)
  {
    if a == "" {
      assert a + b == b;
    } else {
      var c, t := a[0], a[1..];
      assert a == [c] + t && a + b == [c] + (t + b);
      SkeletonStep(c, t);
      SkeletonStep(c, t + b);
      SkeletonConcat(t, b);
    }
  }

  lemma {:induction false} SkeletonAccepts(s: string, stack: seq<char>, inStr: Option<char>)
    requires inStr.Some? ==> IsQuote(inStr.value)
    ensures Accepts(s, stack, inStr) == Accepts(Skeleton(s), stack, inStr)
  {
    if s != "" {
      var c := s[0];
      if Significant(c) {
        assert Skeleton(s) == [c] + Skeleton(s[1..]);
        if inStr.Some? {
          SkeletonAccepts(s[1..], stack, if c == inStr.value then None else inStr);
        } else if IsQuote(c) {
          SkeletonAccepts(s[1..], stack, Some(c));
        } else if IsOpen(c) {
          SkeletonAccepts(s[1..], stack + [c], None);
        } else if stack != [] {
          SkeletonAccepts(s[1..], stack[..|stack| - 1], None);
        }
      } else {
        assert Skeleton(s) == Skeleton(s[1..]);
        SkeletonAccepts(s[1..], stack, inStr);
      }
    }
  }

  /** Texts with the same delimiters and quotes in the same order are balanced together. */
  lemma SameSkeleton(s: string, t: string)
    requires Skeleton(s) == Skeleton(t)
    ensures Balanced(s) <==> Balanced(t)
  {
    SkeletonAccepts(s, [], None);
    SkeletonAccepts(t, [], None);
    AcceptsIffBalanced(s);
    AcceptsIffBalanced(t);
  }
}
