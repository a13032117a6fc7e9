/** Directed graphs as adjacency maps, walks in them, and their strongly connected components. */
module Reachability {
  type Graph = map<string, set<string>>

  /** `g.get(v, set())`. */
  function Succ(g: Graph, v: string): set<string> {
    if v in g then g[v] else {}
  }

  ghost predicate Walk(g: Graph, p: seq<string>) {
    && p != []
    && forall i | 0 <= i < |p| - 1 :: p[i + 1] in Succ(g, p[i])
  }

  ghost predicate WalkFromTo(g: Graph, p: seq<string>, x: string, y: string) {
    Walk(g, p) && p[0] == x && p[|p| - 1] == y
  }

  /** y can be reached from x in zero or more steps. */
  ghost predicate Reach(g: Graph, x: string, y: string) {
    exists p :: WalkFromTo(g, p, x, y)
  }

  /** y can be reached from x in one or more steps. */
  ghost predicate ReachPlus(g: Graph, x: string, y: string) {
    exists p :: WalkFromTo(g, p, x, y) && |p| > 1
  }

  ghost predicate Mutual(g: Graph, x: string, y: string) {
    Reach(g, x, y) && Reach(g, y, x)
  }

  /** c is a whole class of mutual reachability. */
  ghost predicate IsComponent(g: Graph, c: set<string>) {
    && c != {}
    && forall x, y | x in c :: y in c <==> Mutual(g, x, y)
  }

  ghost predicate Closed(g: Graph, s: set<string>) {
    forall x {:trigger Succ(g, x)} | x in s :: Succ(g, x) <= s
  }

  lemma ReachRefl(g: Graph, x: string)
    ensures Reach(g, x, x)
  {
    assert WalkFromTo(g, [x], x, x);
  }

  lemma ReachTrans(g: Graph, x: string, y: string, z: string)
    requires Reach(g, x, y) && Reach(g, y, z)
    ensures Reach(g, x, z)
  {
    var p :| WalkFromTo(g, p, x, y);
    var q :| WalkFromTo(g, q, y, z);
    var r := p + q[1..];
    forall i | 0 <= i < |r| - 1 ensures r[i + 1] in Succ(g, r[i]) {
      if i >= |p| - 1 {
        assert r[i] == q[i - |p| + 1] && r[i + 1] == q[i - |p| + 2];
      }
    }
    assert WalkFromTo(g, r, x, z);
  }

  lemma ReachEdge(g: Graph, x: string, y: string)
    requires y in Succ(g, x)
    ensures Reach(g, x, y) && ReachPlus(g, x, y)
  {
    assert WalkFromTo(g, [x, y], x, y);
  }

  lemma ReachVia(g: Graph, x: string, y: string, z: string)
    requires y in Succ(g, x) && Reach(g, y, z)
    ensures Reach(g, x, z) && ReachPlus(g, x, z)
  {
    var p :| WalkFromTo(g, p, y, z);
    assert WalkFromTo(g, [x] + p, x, z);
  }

  /** A non-empty walk leaves x along an edge. */
  lemma ReachPlusFirst(g: Graph, x: string, z: string) returns (y: string)
    requires ReachPlus(g, x, z)
    ensures y in Succ(g, x) && Reach(g, y, z)
  {
    var p :| WalkFromTo(g, p, x, z) && |p| > 1;
    y := p[1];
    assert WalkFromTo(g, p[1..], y, z);
  }

  lemma ReachIffEqualOrPlus(g: Graph, x: string, y: string)
    ensures Reach(g, x, y) <==> x == y || ReachPlus(g, x, y)
  {
    if Reach(g, x, y) && x != y {
      var p :| WalkFromTo(g, p, x, y);
    }
    if x == y { ReachRefl(g, x); }
  }

  /** Nothing escapes a set closed under successors. */
  lemma {:induction false} ClosedKeepsReach(g: Graph, s: set<string>, x: string, y: string)
    requires Closed(g, s) && x in s && Reach(g, x, y)
    ensures y in s
  {
    var p :| WalkFromTo(g, p, x, y);
    var i := 0;
    while i < |p| - 1
      invariant 0 <= i < |p| && p[i] in s
    {
      i := i + 1;
    }
  }
}
