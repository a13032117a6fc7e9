/** Python's ordering of strings and `sorted` on a set of strings. */
module SortedText {

  /** Code-point lexicographic `<`. */
  predicate Less(a: string, b: string) {
    if b == "" then false
    else if a == "" then true
    else a[0] < b[0] || (a[0] == b[0] && Less(a[1..], b[1..]))
  }

  /** At the first position where a and b differ, a has ended or has the smaller character. */
  ghost predicate DecidesAt(a: string, b: string, k: nat) {
    && k <= |a| && k < |b| && a[..k] == b[..k]
    && (k == |a| || a[k] < b[k])
  }

  /** The first difference decides, and a proper prefix comes first. */
  lemma {:induction false} LessIff(a: string, b: string)
    ensures Less(a, b) <==> exists k: nat :: DecidesAt(a, b, k)
  {
    if b != "" && a != "" && a[0] == b[0] {
      LessIff(a[1..], b[1..]);
      assert a == [a[0]] + a[1..] && b == [b[0]] + b[1..];
      if k: nat :| DecidesAt(a[1..], b[1..], k) {
        assert a[..k + 1] == [a[0]] + a[1..][..k] && b[..k + 1] == [b[0]] + b[1..][..k];
        assert DecidesAt(a, b, k + 1);
      }
      if k: nat :| DecidesAt(a, b, k) {
        assert k > 0;
        assert a[1..][..k - 1] == a[..k][1..] && b[1..][..k - 1] == b[..k][1..];
        assert DecidesAt(a[1..], b[1..], k - 1);
      }
    } else if Less(a, b) {
      assert a[..0] == b[..0];
      assert DecidesAt(a, b, 0);
    } else {
      forall k: nat ensures !DecidesAt(a, b, k) {
        if 0 < k <= |a| && k <= |b| { assert a[..k][0] == a[0] && b[..k][0] == b[0]; }
      }
    }
  }

  lemma {:induction false} LessTotal(a: string, b: string)
    ensures a != b ==> Less(a, b) || Less(b, a)
  {
    if a != "" && b != "" && a[0] == b[0] {
      LessTotal(a[1..], b[1..]);
      assert a == [a[0]] + a[1..] && b == [b[0]] + b[1..];
    }
  }

  lemma {:induction false} LessAsymmetric(a: string, b: string)
    requires Less(a, b)
    ensures !Less(b, a) && a != b
  {
    if a != "" && a[0] == b[0] {
      LessAsymmetric(a[1..], b[1..]);
    }
  }

  lemma {:induction false} LessTransitive(a: string, b: string, c: string)
    requires Less(a, b) && Less(b, c)
    ensures Less(a, c)
  {
    if a != "" && a[0] == b[0] == c[0] {
      LessTransitive(a[1..], b[1..], c[1..]);
    }
  }

  /** Strictly ascending, hence free of duplicates. */
  ghost predicate Ascending(xs: seq<string>) {
    forall i, j | 0 <= i < j < |xs| :: Less(xs[i], xs[j])
  }

  /** The elements of a list, as a set. */
  function Elems(xs: seq<string>): (s: set<string>) {
    set x | x in xs
  }

  lemma ElemsAppend(xs: seq<string>, v: string)
    ensures Elems(xs + [v]) == Elems(xs) + {v}
  {
  }

  lemma ElemsHead(xs: seq<string>)
    requires xs != []
    ensures Elems(xs) == {xs[0]} + Elems(xs[1..])
  {
    assert xs == [xs[0]] + xs[1..];
  }

  /** A strictly ascending list is determined by its elements, so "the sorted list" is well defined. */
  lemma {:induction false} AscendingUnique(xs: seq<string>, ys: seq<string>)
    requires Ascending(xs) && Ascending(ys) && Elems(xs) == Elems(ys)
    ensures xs == ys
  {
    assert xs != [] ==> xs[0] in Elems(ys);
    assert ys != [] ==> ys[0] in Elems(xs);
    if xs != [] && ys != [] {
      if xs[0] != ys[0] {
        assert Less(xs[0], ys[0]) && Less(ys[0], xs[0]);
        LessAsymmetric(xs[0], ys[0]);
      }
      assert Elems(xs[1..]) == Elems(xs) - {xs[0]} by { HeadIsLeast(xs); }
      assert Elems(ys[1..]) == Elems(ys) - {ys[0]} by { HeadIsLeast(ys); }
      AscendingUnique(xs[1..], ys[1..]);
      assert xs == [xs[0]] + xs[1..] && ys == [ys[0]] + ys[1..];
    }
  }

  lemma HeadIsLeast(xs: seq<string>)
    requires Ascending(xs) && xs != []
    ensures Elems(xs[1..]) == Elems(xs) - {xs[0]}
  {
    assert xs == [xs[0]] + xs[1..];
    if xs[0] in xs[1..] {
      var k :| 0 <= k < |xs[1..]| && xs[1..][k] == xs[0];
      LessAsymmetric(xs[0], xs[k + 1]);
    }
  }

  /** Puts a new element at its place in a sorted list. */
  method Insert(x: string, xs: seq<string>) returns (ys: seq<string>)
    requires Ascending(xs) && x !in xs
    ensures Ascending(ys) && Elems(ys) == Elems(xs) + {x}
  {
    var k := 0;
    while k < |xs| && Less(xs[k], x)
      invariant 0 <= k <= |xs|
      invariant forall i | 0 <= i < k :: Less(xs[i], x)
    {
      k := k + 1;
    }
    ys := xs[..k] + [x] + xs[k..];
    assert xs == xs[..k] + xs[k..];
    forall i | k <= i < |xs| ensures Less(x, xs[i]) {
      LessTotal(x, xs[k]);
      if k < i { LessTransitive(x, xs[k], xs[i]); }
    }
  }

  /** `sorted(s)`. The set is drained in an arbitrary order, as Python's iteration order is arbitrary. */
  method SortSet(s: set<string>) returns (ys: seq<string>)
    ensures Ascending(ys) && Elems(ys) == s
  {
    ys := [];
    var todo := s;
    while todo != {}
      invariant Ascending(ys) && todo <= s && Elems(ys) == s - todo
      decreases todo
    {
      var x :| x in todo;
      todo := todo - {x};
      assert x !in Elems(ys);
      ys := Insert(x, ys);
    }
  }
}
