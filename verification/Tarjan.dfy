/**
 Tarjan's algorithm as `find_cycles` runs it: a recursive visit that updates a stack, the visit
 numbers, the low links and the list of reported cycles in place.
 */
module Tarjan {
  import opened Reachability
  import opened SortedText

  // ---- the invariant, on a snapshot of the search ----

  /** `on` is what lies on the stack; `gray` are the vertices whose visit is open. */
  datatype Search = Search(counter: nat, on: set<string>, indices: map<string, nat>, gray: set<string>)

  ghost predicate Numbered(s: Search) {
    && s.gray <= s.on <= s.indices.Keys
    && forall x | x in s.indices :: s.indices[x] < s.counter
  }

  /** Visited and already popped: the vertices of finished components. */
  ghost function Done(s: Search): set<string> {
    s.indices.Keys - s.on
  }

  /** Only open vertices may still have unvisited successors. */
  ghost predicate Explored(g: Graph, s: Search) {
    forall x {:trigger Succ(g, x)} | x in s.indices && x !in s.gray :: Succ(g, x) <= s.indices.Keys
  }

  /** An open vertex reaches everything above it on the stack. */
  ghost predicate Downward(g: Graph, s: Search)
    requires Numbered(s)
  {
    forall x, y {:trigger Reach(g, x, y)} | x in s.gray && y in s.on && s.indices[x] <= s.indices[y] :: Reach(g, x, y)
  }

  ghost predicate Anchored(g: Graph, s: Search, x: string, y: string) {
    x in s.gray && x in s.indices && y in s.indices && s.indices[x] <= s.indices[y] && Reach(g, y, x)
  }

  ghost predicate HasAnchor(g: Graph, s: Search, y: string) {
    exists x :: Anchored(g, s, x, y)
  }

  /** Everything on the stack reaches an open vertex at or below it. */
  ghost predicate Upward(g: Graph, s: Search) {
    forall y {:trigger HasAnchor(g, s, y)} | y in s.on :: HasAnchor(g, s, y)
  }

  ghost predicate Inv(g: Graph, s: Search) {
    Numbered(s) && Explored(g, s) && Closed(g, Done(s)) && Downward(g, s) && Upward(g, s)
  }

  /** The stack entries from v upwards. */
  ghost function Top(s: Search, v: string): set<string>
    requires Numbered(s) && v in s.indices
  {
    set x | x in s.on && s.indices[v] <= s.indices[x]
  }

  /** A low link below v's own number belongs to a stack entry that v reaches. */
  ghost predicate LowReal(g: Graph, s: Search, v: string, low: nat)
    requires Numbered(s) && v in s.indices
  {
    && low <= s.indices[v]
    && (low < s.indices[v] ==> exists y :: y in s.on && s.indices[y] == low && Reach(g, v, y))
  }

  /** No stack entry that is a member of ys lies lower than low. */
  ghost predicate LowBounds(s: Search, ys: set<string>, low: nat)
    requires Numbered(s)
  {
    forall y | y in ys && y in s.on :: low <= s.indices[y]
  }

  /** No edge from v's part of the stack leads lower than low. */
  ghost predicate LowComplete(g: Graph, s: Search, v: string, low: nat)
    requires Numbered(s) && v in s.indices
  {
    forall x | x in Top(s, v) :: LowBounds(s, Succ(g, x), low)
  }

  // ---- opening the visit of v ----

  ghost function Pushed(s: Search, v: string): Search {
    Search(s.counter + 1, s.on + {v}, s.indices[v := s.counter], s.gray + {v})
  }

  lemma PushKeepsDownward(g: Graph, s: Search, v: string)
    requires Numbered(s) && Downward(g, s) && v !in s.indices
    requires forall x | x in s.gray :: Reach(g, x, v)
    ensures Numbered(Pushed(s, v)) && Downward(g, Pushed(s, v))
  {
    ReachRefl(g, v);
  }

  lemma PushKeepsUpward(g: Graph, s: Search, v: string)
    requires Upward(g, s) && v !in s.indices
    ensures Upward(g, Pushed(s, v))
  {
    var t := Pushed(s, v);
    forall y | y in t.on ensures HasAnchor(g, t, y) {
      if y == v {
        ReachRefl(g, v);
        assert Anchored(g, t, v, v);
      } else {
        assert HasAnchor(g, s, y);
        var x :| Anchored(g, s, x, y);
        assert Anchored(g, t, x, y);
      }
    }
  }

  lemma PushKeepsInv(g: Graph, s: Search, v: string)
    requires Inv(g, s) && v !in s.indices
    requires forall x | x in s.gray :: Reach(g, x, v)
    ensures Inv(g, Pushed(s, v))
  {
    PushKeepsDownward(g, s, v);
    PushKeepsUpward(g, s, v);
    assert Done(Pushed(s, v)) == Done(s);
  }

  // ---- closing the visit of v ----

  /** v is the newest open vertex and all its successors are visited. */
  ghost predicate ReadyToClose(g: Graph, s: Search, v: string) {
    && Numbered(s)
    && v in s.gray
    && (forall x | x in s.gray && x != v :: s.indices[x] < s.indices[v])
    && Succ(g, v) <= s.indices.Keys
  }

  ghost function Retired(s: Search, v: string): Search {
    s.(gray := s.gray - {v})
  }

  ghost function Popped(s: Search, v: string): Search
    requires Numbered(s) && v in s.indices
  {
    s.(on := s.on - Top(s, v), gray := s.gray - {v})
  }

  /** If nothing above v leads below v, no edge leaves the top of the stack except into Done. */
  lemma TopIsClosed(g: Graph, s: Search, v: string)
    requires ReadyToClose(g, s, v) && Explored(g, s) && Closed(g, Done(s))
    requires LowComplete(g, s, v, s.indices[v])
    ensures Closed(g, Done(s) + Top(s, v))
  {
    forall x | x in Top(s, v) ensures Succ(g, x) <= Done(s) + Top(s, v) {
      assert LowBounds(s, Succ(g, x), s.indices[v]);
      assert Succ(g, x) <= s.indices.Keys;
    }
  }

  lemma TopMeetsHead(g: Graph, s: Search, v: string, y: string)
    requires ReadyToClose(g, s, v) && Downward(g, s) && Upward(g, s)
    requires Closed(g, Done(s) + Top(s, v)) && y in Top(s, v)
    ensures Mutual(g, v, y)
  {
    assert HasAnchor(g, s, y);
    var x :| Anchored(g, s, x, y);
    if x != v {
      ClosedKeepsReach(g, Done(s) + Top(s, v), y, x);
      assert false;
    }
  }

  lemma TopIsComponent(g: Graph, s: Search, v: string)
    requires ReadyToClose(g, s, v) && Closed(g, Done(s)) && Downward(g, s) && Upward(g, s)
    requires Closed(g, Done(s) + Top(s, v))
    ensures IsComponent(g, Top(s, v))
  {
    var c := Top(s, v);
    assert v in c;
    forall x, y | x in c ensures y in c <==> Mutual(g, x, y) {
      TopMeetsHead(g, s, v, x);
      if y in c {
        TopMeetsHead(g, s, v, y);
        ReachTrans(g, x, v, y);
        ReachTrans(g, y, v, x);
      } else if Mutual(g, x, y) {
        ClosedKeepsReach(g, Done(s) + c, x, y);
        ClosedKeepsReach(g, Done(s), y, x);
        assert false;
      }
    }
  }

  lemma PopKeepsUpward(g: Graph, s: Search, v: string)
    requires ReadyToClose(g, s, v) && Upward(g, s)
    ensures Upward(g, Popped(s, v))
  {
    var t := Popped(s, v);
    forall y | y in t.on ensures HasAnchor(g, t, y) {
      assert HasAnchor(g, s, y);
      var x :| Anchored(g, s, x, y);
      assert Anchored(g, t, x, y);
    }
  }

  lemma PopKeepsInv(g: Graph, s: Search, v: string)
    requires ReadyToClose(g, s, v) && Inv(g, s) && Closed(g, Done(s) + Top(s, v))
    ensures Inv(g, Popped(s, v)) && Done(Popped(s, v)) == Done(s) + Top(s, v)
  {
    PopKeepsUpward(g, s, v);
    assert Done(Popped(s, v)) == Done(s) + Top(s, v);
  }

  /** If v can return below itself it stays on the stack, anchored by the vertex it returns to. */
  lemma RetireKeepsUpward(g: Graph, s: Search, v: string, low: nat)
    requires ReadyToClose(g, s, v) && Upward(g, s)
    requires LowReal(g, s, v, low) && low < s.indices[v]
    ensures Upward(g, Retired(s, v))
  {
    var t := Retired(s, v);
    var z :| z in s.on && s.indices[z] == low && Reach(g, v, z);
    assert HasAnchor(g, s, z);
    var a :| Anchored(g, s, a, z);
    ReachTrans(g, v, z, a);
    forall y | y in t.on ensures HasAnchor(g, t, y) {
      assert HasAnchor(g, s, y);
      var x :| Anchored(g, s, x, y);
      if x == v {
        ReachTrans(g, y, v, a);
        assert Anchored(g, t, a, y);
      } else {
        assert Anchored(g, t, x, y);
      }
    }
  }

  lemma RetireKeepsInv(g: Graph, s: Search, v: string, low: nat)
    requires ReadyToClose(g, s, v) && Inv(g, s)
    requires LowReal(g, s, v, low) && low < s.indices[v]
    ensures Inv(g, Retired(s, v)) && Done(Retired(s, v)) == Done(s)
  {
    RetireKeepsUpward(g, s, v, low);
  }

  // ---- the loop over v's successors ----

  /** s1 continues s0: what is new on the stack was numbered later, and nothing else moved. */
  ghost predicate Grown(s0: Search, s1: Search) {
    && s1.gray == s0.gray
    && s0.on <= s1.on
    && s0.counter <= s1.counter
    && s0.indices.Keys <= s1.indices.Keys
    && (forall x | x in s0.indices :: s1.indices[x] == s0.indices[x])
    && (forall x | x in s1.on - s0.on :: x in s1.indices && s0.counter <= s1.indices[x])
  }

  lemma GrownTransitive(s0: Search, s1: Search, s2: Search)
    requires Grown(s0, s1) && Grown(s1, s2)
    ensures Grown(s0, s2)
  {
  }

  /** No edge from an entry of s1 that is new since s0 into the old stack leads lower than low. */
  ghost predicate NewBounds(g: Graph, s0: Search, s1: Search, low: nat) {
    forall x, y {:trigger x in s1.on, y in Succ(g, x)} |
      x in s1.on && x !in s0.on && y in Succ(g, x) && y in s0.on && y in s0.indices :: low <= s0.indices[y]
  }

  /** What the visit of v has done once it is over. */
  ghost predicate Visited(g: Graph, s0: Search, s: Search, v: string, low: nat) {
    && Numbered(s)
    && Grown(s0, s)
    && v in s.indices && s0.counter <= s.indices[v]
    && LowReal(g, s, v, low)
    && NewBounds(g, s0, s, low)
  }

  /** Midway through v's successors: those in `seen` have been handled. */
  ghost predicate Visiting(g: Graph, s0: Search, s: Search, v: string, seen: set<string>, low: nat) {
    && Numbered(s) && Numbered(s0)
    && v !in s0.indices
    && Grown(Pushed(s0, v), s)
    && seen <= s.indices.Keys
    && LowReal(g, s, v, low)
    && LowBounds(s, seen, low)
    && (forall x {:trigger Succ(g, x)} | x in s.on && x !in s0.on && x != v :: LowBounds(s, Succ(g, x), low))
  }

  lemma VisitStarts(g: Graph, s0: Search, v: string)
    requires Numbered(s0) && v !in s0.indices
    ensures Visiting(g, s0, Pushed(s0, v), v, {}, s0.counter)
  {
  }

  lemma OpenReachesSuccessor(g: Graph, s: Search, v: string, w: string)
    requires Numbered(s) && Downward(g, s) && v in s.on && w in Succ(g, v)
    requires forall x | x in s.gray :: s.indices[x] <= s.indices[v]
    ensures forall x | x in s.gray :: Reach(g, x, w)
  {
    ReachEdge(g, v, w);
    forall x | x in s.gray ensures Reach(g, x, w) {
      ReachTrans(g, x, v, w);
    }
  }

  /** After the recursive visit of w. */
  lemma VisitAfterChild(g: Graph, s0: Search, s: Search, t: Search, v: string, w: string, seen: set<string>,
                        low: nat, childLow: nat)
    requires Visiting(g, s0, s, v, seen, low) && w in Succ(g, v)
    requires w !in s.indices && Visited(g, s, t, w, childLow)
    ensures Visiting(g, s0, t, v, seen + {w}, Min(low, childLow))
  {
    var m := Min(low, childLow);
    GrownTransitive(Pushed(s0, v), s, t);
    assert t.indices[v] == s.indices[v] < s.counter;
    if childLow < low {
      assert childLow < t.indices[w];
      var y :| y in t.on && t.indices[y] == childLow && Reach(g, w, y);
      ReachVia(g, v, w, y);
    } else {
      assert LowReal(g, t, v, low);
    }
    forall x | x in t.on && x !in s0.on && x != v ensures LowBounds(t, Succ(g, x), m) {
      if x in s.on {
        assert LowBounds(s, Succ(g, x), low);
      }
    }
  }

  /** After looking at an already visited successor w. */
  lemma VisitAfterVisited(g: Graph, s0: Search, s: Search, v: string, w: string, seen: set<string>, low: nat)
    requires Visiting(g, s0, s, v, seen, low) && w in Succ(g, v) && w in s.indices
    ensures w in s.on ==> Visiting(g, s0, s, v, seen + {w}, Min(low, s.indices[w]))
    ensures w !in s.on ==> Visiting(g, s0, s, v, seen + {w}, low)
  {
    ReachEdge(g, v, w);
    forall x | x in s.on && x !in s0.on && x != v
      ensures w in s.on ==> LowBounds(s, Succ(g, x), Min(low, s.indices[w]))
    {
      assert LowBounds(s, Succ(g, x), low);
    }
  }

  function Min(a: nat, b: nat): nat {
    if a < b then a else b
  }

  lemma VisitIsBound(g: Graph, s0: Search, s: Search, v: string, low: nat)
    requires Visiting(g, s0, s, v, Succ(g, v), low)
    ensures ReadyToClose(g, s, v) && LowComplete(g, s, v, low)
  {
    forall x | x in Top(s, v) ensures LowBounds(s, Succ(g, x), low) {
    }
  }

  /** When all successors are seen, v can be closed and its low link is a bound for its part of the stack. */
  lemma VisitEnds(g: Graph, s0: Search, s: Search, v: string, low: nat)
    requires Visiting(g, s0, s, v, Succ(g, v), low)
    ensures ReadyToClose(g, s, v) && LowComplete(g, s, v, low)
    ensures s.on - Top(s, v) == s0.on
    ensures Numbered(Retired(s, v)) && Visited(g, s0, Retired(s, v), v, low)
    ensures low == s.indices[v] ==> Visited(g, s0, Popped(s, v), v, low)
  {
    VisitIsBound(g, s0, s, v, low);
    forall x, y | x in s.on && x !in s0.on && y in Succ(g, x) && y in s0.on && y in s0.indices
      ensures low <= s0.indices[y]
    {
      assert LowBounds(s, Succ(g, x), low);
    }
  }

  // ---- what the search reports ----

  /** Every member of c lies on a cycle. */
  ghost predicate IsCyclic(g: Graph, c: set<string>) {
    forall x | x in c :: ReachPlus(g, x, x)
  }

  ghost predicate Covered(result: seq<seq<string>>, x: string) {
    exists i :: 0 <= i < |result| && x in result[i]
  }

  /** A sorted list of the members of a component that lies inside `within` and contains a cycle. */
  ghost predicate IsReport(g: Graph, within: set<string>, r: seq<string>) {
    Ascending(r) && Elems(r) <= within && IsComponent(g, Elems(r)) && IsCyclic(g, Elems(r))
  }

  ghost predicate Disjoint(result: seq<seq<string>>) {
    forall i, j | 0 <= i < j < |result| :: Elems(result[i]) !! Elems(result[j])
  }

  /** Every vertex of `within` that lies on a cycle is reported. */
  ghost predicate Complete(g: Graph, within: set<string>, result: seq<seq<string>>) {
    forall x {:trigger Covered(result, x)} | x in within && ReachPlus(g, x, x) :: Covered(result, x)
  }

  /** `result` lists exactly the components inside `within` that contain a cycle, each once. */
  ghost predicate Reports(g: Graph, within: set<string>, result: seq<seq<string>>) {
    && (forall i | 0 <= i < |result| :: IsReport(g, within, result[i]))
    && Disjoint(result)
    && Complete(g, within, result)
  }

  lemma SingletonLoop(g: Graph, c: set<string>, v: string)
    requires IsComponent(g, c) && c == {v} && ReachPlus(g, v, v)
    ensures v in Succ(g, v)
  {
    var z := ReachPlusFirst(g, v, v);
    ReachEdge(g, v, z);
    assert Mutual(g, v, z);
    assert z in c;
  }

  /** The source's test for a real cycle: more than one popped vertex, or an edge from v to itself. */
  lemma CyclicTest(g: Graph, component: seq<string>, v: string)
    requires IsComponent(g, Elems(component)) && Distinct(component) && v in component
    ensures |component| > 1 || v in Succ(g, v) ==> IsCyclic(g, Elems(component))
    ensures !(|component| > 1 || v in Succ(g, v)) ==> Elems(component) == {v} && !ReachPlus(g, v, v)
  {
    if |component| > 1 {
      forall x | x in Elems(component) ensures ReachPlus(g, x, x) {
        var y := if component[0] == x then component[1] else component[0];
        assert y in Elems(component);
        assert Mutual(g, x, y);
        ReachIffEqualOrPlus(g, x, y);
        var z := ReachPlusFirst(g, x, y);
        ReachTrans(g, z, y, x);
        ReachVia(g, x, z, x);
      }
    } else {
      assert component == [v];
      if v in Succ(g, v) {
        ReachEdge(g, v, v);
      } else if ReachPlus(g, v, v) {
        SingletonLoop(g, Elems(component), v);
      }
    }
  }

  lemma CompleteExtends(g: Graph, within: set<string>, result: seq<seq<string>>, r: seq<string>)
    requires Complete(g, within, result)
    ensures Complete(g, within + Elems(r), result + [r])
  {
    var out := result + [r];
    forall x | x in within + Elems(r) && ReachPlus(g, x, x) ensures Covered(out, x) {
      if x in Elems(r) {
        assert x in out[|result|];
      } else {
        assert Covered(result, x);
        var i :| 0 <= i < |result| && x in result[i];
        assert x in out[i];
      }
    }
  }

  lemma ReportExtends(g: Graph, within: set<string>, result: seq<seq<string>>, r: seq<string>)
    requires Reports(g, within, result)
    requires IsReport(g, Elems(r), r) && Elems(r) !! within
    ensures Reports(g, within + Elems(r), result + [r])
  {
    var out := result + [r];
    CompleteExtends(g, within, result, r);
    forall i | 0 <= i < |out| ensures IsReport(g, within + Elems(r), out[i]) {
      assert i < |result| ==> IsReport(g, within, result[i]);
    }
    forall i, j | 0 <= i < j < |out| ensures Elems(out[i]) !! Elems(out[j]) {
      assert IsReport(g, within, result[i]);
    }
  }

  lemma ReportSkips(g: Graph, within: set<string>, result: seq<seq<string>>, v: string)
    requires Reports(g, within, result) && !ReachPlus(g, v, v)
    ensures Reports(g, within + {v}, result)
  {
    forall i | 0 <= i < |result| ensures IsReport(g, within + {v}, result[i]) {
      assert IsReport(g, within, result[i]);
    }
  }

  // ---- the search itself ----

  ghost predicate KeepsLow(low0: map<string, nat>, low1: map<string, nat>, xs: set<string>) {
    xs <= low0.Keys * low1.Keys && forall x {:trigger low1[x]} | x in xs :: low1[x] == low0[x]
  }

  /** The stack list and the stack set agree, and visit numbers increase along the list. */
  ghost predicate StackOrder(stack: seq<string>, on: set<string>, indices: map<string, nat>) {
    && Elems(stack) == on <= indices.Keys
    && forall i, j | 0 <= i < j < |stack| :: indices[stack[i]] < indices[stack[j]]
  }

  lemma EntryTop(stack: seq<string>, s: Search, n: nat, x: string)
    requires Numbered(s) && StackOrder(stack, s.on, s.indices) && n < |stack| && stack[n] in s.indices
    ensures x in stack[n..] <==> x in Top(s, stack[n])
    ensures x in stack[..n] <==> x in s.on && x !in Top(s, stack[n])
  {
    if x in s.on {
      assert x in Elems(stack);
      var i :| 0 <= i < |stack| && stack[i] == x;
      if i < n { assert stack[..n][i] == x; } else { assert stack[n..][i - n] == x; }
    } else {
      assert x !in Elems(stack);
    }
  }

  /** The entries above position n are those numbered at least as high as entry n. */
  lemma StackTop(stack: seq<string>, s: Search, n: nat)
    requires Numbered(s) && StackOrder(stack, s.on, s.indices) && n < |stack|
    ensures stack[n] in s.indices && Elems(stack[n..]) == Top(s, stack[n])
    ensures Elems(stack[..n]) == s.on - Top(s, stack[n])
  {
    assert stack[n] in Elems(stack);
    forall x ensures x in stack[n..] <==> x in Top(s, stack[n]) {
      EntryTop(stack, s, n, x);
    }
    forall x ensures x in stack[..n] <==> x in s.on && x !in Top(s, stack[n]) {
      EntryTop(stack, s, n, x);
    }
  }

  class CycleSearch {
    const deps: Graph
    var counter: nat
    var stack: seq<string>
    var onStack: set<string>
    var indices: map<string, nat>
    var low: map<string, nat>
    var result: seq<seq<string>>
    ghost var gray: set<string>

    constructor (deps: Graph)
      ensures this.deps == deps && Valid() && indices == map[] && gray == {}
    {
      this.deps := deps;
      counter, stack, onStack, indices, low, result := 0, [], {}, map[], map[], [];
      gray := {};
    }

    ghost function State(): Search
      reads this
    {
      Search(counter, onStack, indices, gray)
    }

    ghost predicate Tidy()
      reads this
    {
      && Numbered(State())
      && StackOrder(stack, onStack, indices)
      && low.Keys == indices.Keys
      && Reports(deps, Done(State()), result)
    }

    ghost predicate Valid()
      reads this
    {
      Tidy() && Inv(deps, State())
    }

    /** The visit of v: on return either v's whole component has been popped, or v waits on the stack. */
    method StrongConnect(v: string, ghost files: set<string>)
      requires Valid() && v !in indices
      requires Closed(deps, files) && v in files && indices.Keys <= files
      requires forall x | x in gray :: Reach(deps, x, v)
      modifies this
      ensures Valid() && indices.Keys <= files
      ensures v in low && Visited(deps, old(State()), State(), v, low[v])
      ensures old(stack) <= stack && KeepsLow(old(low), low, old(indices.Keys))
      decreases files - indices.Keys, 2
    {
      ghost var s0 := State();
      Open(v);
      FollowAll(v, s0, files);
      Close(v, |old(stack)|, s0);
    }

    /** The loop over v's successors, taken in any order. */
    method FollowAll(v: string, ghost s0: Search, ghost files: set<string>)
      requires Midway(s0, v, {})
      requires Closed(deps, files) && v in files && indices.Keys <= files
      modifies this
      ensures Midway(s0, v, Succ(deps, v)) && indices.Keys <= files
      ensures old(stack) <= stack
      ensures KeepsLow(old(low), low, old(indices.Keys) - {v})
      decreases files - indices.Keys, 5
    {
      ghost var seen: set<string> := {};
      var todo := Succ(deps, v);
      while todo != {}
        invariant seen + todo == Succ(deps, v)
        invariant Midway(s0, v, seen) && old(indices.Keys) <= indices.Keys <= files
        invariant old(stack) <= stack && KeepsLow(old(low), low, old(indices.Keys) - {v})
        decreases todo
      {
        var w :| w in todo;
        todo := todo - {w};
        Follow(v, w, s0, seen, files);
        seen := seen + {w};
      }
      assert seen == Succ(deps, v);
    }

    ghost predicate Midway(s0: Search, v: string, seen: set<string>)
      reads this
    {
      Valid() && v in low && Visiting(deps, s0, State(), v, seen, low[v])
    }

    /** One round of the loop over v's successors. */
    method Follow(v: string, w: string, ghost s0: Search, ghost seen: set<string>, ghost files: set<string>)
      requires Midway(s0, v, seen) && w in Succ(deps, v)
      requires Closed(deps, files) && v in files && indices.Keys <= files
      modifies this
      ensures Midway(s0, v, seen + {w}) && indices.Keys <= files
      ensures old(stack) <= stack && old(indices.Keys) <= indices.Keys
      ensures KeepsLow(old(low), low, old(indices.Keys) - {v})
      decreases files - indices.Keys, if w in indices then 0 else 4
    {
      if w !in indices {
        FollowNew(v, w, s0, seen, files);
      } else {
        FollowVisited(v, w, s0, seen);
      }
    }

    /** A successor that has not been visited is visited, and its low link is taken over. */
    method FollowNew(v: string, w: string, ghost s0: Search, ghost seen: set<string>, ghost files: set<string>)
      requires Midway(s0, v, seen) && w in Succ(deps, v) && w !in indices
      requires Closed(deps, files) && v in files && indices.Keys <= files
      modifies this
      ensures Midway(s0, v, seen + {w}) && indices.Keys <= files
      ensures old(stack) <= stack && old(indices.Keys) <= indices.Keys
      ensures KeepsLow(old(low), low, old(indices.Keys) - {v})
      decreases files - indices.Keys, 3
    {
      ghost var s := State();
      OpenReachesSuccessor(deps, s, v, w);
      StrongConnect(w, files);
      VisitAfterChild(deps, s0, s, State(), v, w, seen, low[v], low[w]);
      low := low[v := Min(low[v], low[w])];
    }

    /** A visited successor counts only while it is on the stack. */
    method FollowVisited(v: string, w: string, ghost s0: Search, ghost seen: set<string>)
      requires Midway(s0, v, seen) && w in Succ(deps, v) && w in indices
      modifies `low
      ensures Midway(s0, v, seen + {w})
      ensures KeepsLow(old(low), low, indices.Keys - {v})
    {
      VisitAfterVisited(deps, s0, State(), v, w, seen, low[v]);
      if w in onStack {
        low := low[v := Min(low[v], indices[w])];
      }
    }

    /** The end of the visit: v's component is complete, or v stays on the stack below its return point. */
    method Close(v: string, ghost n: nat, ghost s0: Search)
      requires Midway(s0, v, Succ(deps, v))
      requires n < |stack| && stack[n] == v
      modifies this
      ensures Valid() && v in low && Visited(deps, s0, State(), v, low[v])
      ensures indices == old(indices) && low == old(low)
      ensures old(stack[..n]) <= stack
    {
      ghost var s := State();
      VisitEnds(deps, s0, s, v, low[v]);
      if low[v] == indices[v] {
        TopIsClosed(deps, s, v);
        TopIsComponent(deps, s, v);
        PopKeepsInv(deps, s, v);
        PopComponent(v, n);
      } else {
        RetireKeepsInv(deps, s, v, low[v]);
        gray := gray - {v};
      }
    }

    /** Numbers v and puts it on the stack. */
    method Open(v: string)
      requires Valid() && v !in indices
      requires forall x | x in gray :: Reach(deps, x, v)
      modifies this
      ensures Midway(old(State()), v, {}) && State() == Pushed(old(State()), v)
      ensures stack == old(stack) + [v] && low == old(low)[v := old(counter)] && result == old(result)
    {
      PushKeepsInv(deps, State(), v);
      VisitStarts(deps, State(), v);
      PushedStack(stack, State(), v);
      indices := indices[v := counter];
      low := low[v := counter];
      counter := counter + 1;
      stack := stack + [v];
      onStack := onStack + {v};
      gray := gray + {v};
      assert Done(State()) == Done(old(State()));
    }

    /** Pops down to v, and reports the popped component if it contains a cycle. */
    method PopComponent(v: string, ghost n: nat)
      requires Tidy() && n < |stack| && stack[n] == v
      requires v in indices && IsComponent(deps, Top(State(), v)) && Numbered(Popped(State(), v))
      modifies this
      ensures Tidy() && State() == Popped(old(State()), v)
      ensures stack == old(stack[..n]) && low == old(low)
    {
      ghost var s := State();
      StackTop(stack, s, n);
      StackPrefix(stack, onStack, indices, n);
      EntriesDistinct(stack, onStack, indices);
      var component := PopDownTo(v, n);
      gray := gray - {v};
      MirrorElems(component, old(stack[n..]));
      assert Done(State()) == Done(s) + Elems(component);
      CyclicTest(deps, component, v);
      if |component| > 1 || v in Succ(deps, v) {
        var r := SortSet(Elems(component));
        ReportExtends(deps, Done(s), result, r);
        result := result + [r];
      } else {
        ReportSkips(deps, Done(s), result, v);
      }
    }

    method PopDownTo(v: string, ghost n: nat) returns (component: seq<string>)
      requires Distinct(stack) && Elems(stack) == onStack && n < |stack| && stack[n] == v
      modifies `stack, `onStack
      ensures stack == old(stack[..n]) && onStack == Elems(stack)
      ensures Mirrors(component, old(stack[n..])) && v in component
    {
      component := [];
      ghost var full := stack;
      while true
        invariant n < |stack| <= |full| && stack == full[..|stack|]
        invariant onStack == Elems(stack)
        invariant Mirrors(component, full[|stack|..])
        decreases |stack|
      {
        PopOne(full, |stack|, component);
        var w := stack[|stack| - 1];
        stack := stack[..|stack| - 1];
        onStack := onStack - {w};
        component := component + [w];
        if w == v {
          break;
        }
      }
    }
  }

  ghost predicate Distinct(xs: seq<string>) {
    forall i, j | 0 <= i < j < |xs| :: xs[i] != xs[j]
  }

  ghost predicate Mirrors(xs: seq<string>, ys: seq<string>) {
    |xs| == |ys| && forall i | 0 <= i < |xs| :: xs[i] == ys[|ys| - 1 - i]
  }

  lemma EntriesDistinct(stack: seq<string>, on: set<string>, indices: map<string, nat>)
    requires StackOrder(stack, on, indices)
    ensures Distinct(stack)
  {
    forall i, j | 0 <= i < j < |stack| ensures stack[i] != stack[j] {
      assert stack[i] in Elems(stack) && stack[j] in Elems(stack);
    }
  }

  lemma MirrorElems(xs: seq<string>, ys: seq<string>)
    requires Mirrors(xs, ys) && Distinct(ys)
    ensures Elems(xs) == Elems(ys) && Distinct(xs)
  {
    forall y | y in ys ensures y in xs {
      var k :| 0 <= k < |ys| && ys[k] == y;
      assert xs[|ys| - 1 - k] == y;
    }
  }

  /** One pop, seen from the k lowest entries and from the list of popped ones. */
  lemma PopOne(full: seq<string>, k: nat, component: seq<string>)
    requires 0 < k <= |full| && Distinct(full) && Mirrors(component, full[k..])
    ensures Elems(full[..k - 1]) == Elems(full[..k]) - {full[k - 1]}
    ensures full[..k][..k - 1] == full[..k - 1]
    ensures Mirrors(component + [full[k - 1]], full[k - 1..])
  {
    assert full[..k] == full[..k - 1] + [full[k - 1]];
    assert full[k - 1..] == [full[k - 1]] + full[k..];
  }

  lemma StackPrefix(stack: seq<string>, on: set<string>, indices: map<string, nat>, n: nat)
    requires StackOrder(stack, on, indices) && n <= |stack|
    ensures StackOrder(stack[..n], Elems(stack[..n]), indices)
    ensures Distinct(stack[n..])
  {
    EntriesDistinct(stack, on, indices);
    forall i | 0 <= i < |stack| ensures stack[i] in on {
      assert stack[i] in Elems(stack);
    }
  }

  /** With no visit open, everything visited belongs to a finished component. */
  lemma IdleSearchIsDone(g: Graph, s: Search)
    requires Inv(g, s) && s.gray == {}
    ensures Done(s) == s.indices.Keys
  {
    forall y ensures y !in s.on {
      NoAnchor(g, s, y);
    }
  }

  lemma NoAnchor(g: Graph, s: Search, y: string)
    requires s.gray == {}
    ensures !HasAnchor(g, s, y)
  {
  }

  lemma PushedStack(stack: seq<string>, s: Search, v: string)
    requires Numbered(s) && v !in s.indices && StackOrder(stack, s.on, s.indices)
    ensures StackOrder(stack + [v], s.on + {v}, s.indices[v := s.counter])
  {
    forall i | 0 <= i < |stack| ensures stack[i] in s.indices {
      assert stack[i] in Elems(stack);
    }
  }
}
