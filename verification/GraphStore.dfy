/** The tenant-scoped graph store, and what its two graph queries mean for each other. */
module GraphStore {
  import opened Reachability
  import opened SortedText
  import opened RepoGraphs
  import opened Wrappers
  import Tarjan

  type Key = (string, string)  // tenant, repository

  datatype Logged = Logged(key: Key, update: Update)

  /** The updates a history made to one tenant's repository. */
  function Own(log: seq<Logged>, key: Key): seq<Update> {
    if log == [] then []
    else Own(log[..|log| - 1], key) + (if log[|log| - 1].key == key then [log[|log| - 1].update] else [])
  }

  lemma OwnAppend(log: seq<Logged>, e: Logged, key: Key)
    ensures Own(log + [e], key) == Own(log, key) + (if e.key == key then [e.update] else [])
  {
    assert (log + [e])[..|log|] == log;
  }

  lemma ReplayAppend(us: seq<Update>, u: Update)
    ensures Replay(us + [u]) == Apply(Replay(us), u)
  {
    assert (us + [u])[..|us|] == us;
  }

  class InMemoryGraphStore {
    var graphs: map<Key, RepoGraph>
    ghost var log: seq<Logged>  // every update made so far

    /** Each repository's graph is what its own updates alone produce, and no two share an object. */
    ghost predicate Valid()
      reads this, graphs.Values
    {
      && (forall k, l | k in graphs && l in graphs && k != l :: graphs[k] != graphs[l])
      && (forall k {:trigger Own(log, k)} :: View(k) == Replay(Own(log, k)))
    }

    ghost function View(k: Key): RepoState
      reads this, graphs.Values
    {
      if k in graphs then graphs[k].View() else EMPTY
    }

    constructor ()
      ensures Valid() && log == []
    {
      graphs, log := map[], [];
    }

    /** `_graph`: the repository's graph, created empty on first use. */
    method GraphOf(k: Key) returns (g: RepoGraph)
      requires Valid()
      modifies `graphs
      ensures Valid() && k in graphs && graphs[k] == g
      ensures old(graphs.Keys) <= graphs.Keys
      ensures forall l | l in old(graphs) :: graphs[l] == old(graphs)[l]
      ensures forall l | l in graphs && l !in old(graphs) :: fresh(graphs[l])
    {
      if k !in graphs {
        var made := new RepoGraph();
        graphs := graphs[k := made];
      }
      g := graphs[k];
    }

    method UpsertFiles(tenant: string, repo: string, files: seq<FileNode>)
      requires Valid()
      modifies this, graphs.Values
      ensures Valid() && log == old(log) + [Logged((tenant, repo), Update.UpsertFiles(files))]
      ensures fresh(graphs.Values - old(graphs.Values))
    {
      var g := GraphOf((tenant, repo));
      g.Upsert(files);
      ghost var e := Logged((tenant, repo), Update.UpsertFiles(files));
      LogAppend(log, e);
      log := log + [e];
    }

    method RecordPrTouch(tenant: string, repo: string, prNumber: int, paths: seq<string>)
      requires Valid()
      modifies this, graphs.Values
      ensures Valid() && log == old(log) + [Logged((tenant, repo), RecordTouch(prNumber, paths))]
      ensures fresh(graphs.Values - old(graphs.Values))
    {
      var g := GraphOf((tenant, repo));
      ghost var e := Logged((tenant, repo), RecordTouch(prNumber, paths));
      LogAppend(log, e);
      g.Touch(prNumber, paths);
      log := log + [e];
    }

    method RecordBugAt(tenant: string, repo: string, path: string, prNumber: int)
      requires Valid()
      modifies this, graphs.Values
      ensures Valid() && log == old(log) + [Logged((tenant, repo), RecordBug(path, prNumber))]
      ensures fresh(graphs.Values - old(graphs.Values))
    {
      var g := GraphOf((tenant, repo));
      ghost var e := Logged((tenant, repo), RecordBug(path, prNumber));
      LogAppend(log, e);
      g.Bug(path, prNumber);
      log := log + [e];
    }

    method BlastRadius(tenant: string, repo: string, paths: seq<string>) returns (affected: seq<string>)
      requires Valid()
      modifies `graphs
      ensures Valid() && fresh(graphs.Values - old(graphs.Values))
      ensures Ascending(affected)
      ensures forall f :: f in affected <==> InBlast(Replay(Own(log, (tenant, repo))).dependsOn, Elems(paths), f)
    {
      var g := GraphOf((tenant, repo));
      assert g.View() == View((tenant, repo));
      ReplayInverse(Own(log, (tenant, repo)));
      affected := g.BlastRadius(paths);
    }

    method FindCycles(tenant: string, repo: string) returns (result: seq<seq<string>>)
      requires Valid()
      modifies `graphs
      ensures Valid() && fresh(graphs.Values - old(graphs.Values))
      ensures CycleReport(Replay(Own(log, (tenant, repo))).dependsOn, result)
    {
      var g := GraphOf((tenant, repo));
      assert g.View() == View((tenant, repo));
      result := g.FindCycles();
    }

    method RegressionRisk(tenant: string, repo: string, path: string) returns (info: RegressionInfo)
      requires Valid()
      modifies `graphs
      ensures Valid() && fresh(graphs.Values - old(graphs.Values))
      ensures info == BugHistory(Own(log, (tenant, repo)), path)
    {
      var g := GraphOf((tenant, repo));
      assert g.View() == View((tenant, repo));
      BugHistoryReplay(Own(log, (tenant, repo)), path);
      info := g.Regression(path);
    }
  }

  lemma LogAppend(log: seq<Logged>, e: Logged)
    ensures forall k {:trigger Own(log + [e], k)} :: Replay(Own(log + [e], k)) ==
                        if k == e.key then Apply(Replay(Own(log, k)), e.update) else Replay(Own(log, k))
  {
    forall k ensures Replay(Own(log + [e], k)) ==
                     if k == e.key then Apply(Replay(Own(log, k)), e.update) else Replay(Own(log, k))
    {
      OwnAppend(log, e, k);
      ReplayAppend(Own(log, k), e.update);
      assert Own(log, k) + [] == Own(log, k);
    }
  }

  // ---- what the answers mean ----

  /** No cycle is reported exactly when no file depends on itself, directly or not. */
  lemma NoReportIffAcyclic(g: Graph, result: seq<seq<string>>)
    requires CycleReport(g, result)
    ensures result == [] <==> forall x :: !ReachPlus(g, x, x)
  {
    if result != [] {
      var x :| x in Elems(result[0]);
      assert Tarjan.IsCyclic(g, Elems(result[0]));
      assert ReachPlus(g, x, x);
    }
    if x :| ReachPlus(g, x, x) {
      assert Tarjan.Covered(result, x);
    }
  }

  /** The report does not depend on the order in which files and imports are visited, except for its own order. */
  lemma ReportUnique(g: Graph, r1: seq<seq<string>>, r2: seq<seq<string>>, c: seq<string>)
    requires CycleReport(g, r1) && CycleReport(g, r2) && c in r1
    ensures c in r2
  {
    var x :| x in Elems(c);
    assert Tarjan.IsCyclic(g, Elems(c)) && ReachPlus(g, x, x);
    assert Tarjan.Covered(r2, x);
    var i :| 0 <= i < |r2| && x in r2[i];
    assert x in Elems(r2[i]);
    assert IsComponent(g, Elems(c)) && IsComponent(g, Elems(r2[i]));
    assert forall y :: y in Elems(c) <==> Mutual(g, x, y);
    assert forall y :: y in Elems(r2[i]) <==> Mutual(g, x, y);
    AscendingUnique(c, r2[i]);
  }

  ghost predicate Together(result: seq<seq<string>>, x: string, y: string) {
    exists i :: 0 <= i < |result| && x in result[i] && y in result[i]
  }

  /** Two files share a reported cycle exactly when each lies in the other's blast radius. */
  lemma TogetherIffMutualBlast(g: Graph, result: seq<seq<string>>, x: string, y: string)
    requires CycleReport(g, result) && x != y
    ensures Together(result, x, y) <==> InBlast(g, {x}, y) && InBlast(g, {y}, x)
  {
    ReachIffEqualOrPlus(g, x, y);
    ReachIffEqualOrPlus(g, y, x);
    if Together(result, x, y) {
      var i :| 0 <= i < |result| && x in result[i] && y in result[i];
      assert x in Elems(result[i]) && y in Elems(result[i]);
      assert Mutual(g, x, y);
    }
    if InBlast(g, {x}, y) && InBlast(g, {y}, x) {
      var z := ReachPlusFirst(g, x, y);
      ReachTrans(g, z, y, x);
      ReachVia(g, x, z, x);
      assert Tarjan.Covered(result, x);
      var i :| 0 <= i < |result| && x in result[i];
      assert x in Elems(result[i]) && Mutual(g, x, y);
      assert y in Elems(result[i]);
    }
  }

  /** s contains every file that depends on one of its members. */
  ghost predicate DependentsClosed(g: Graph, s: set<string>) {
    forall f, d {:trigger d in Succ(g, f)} | d in s && d in Succ(g, f) :: f in s
  }

  /** The changed paths together with their blast radius are the least dependents-closed set around the paths. */
  lemma BlastIsLeastClosed(g: Graph, paths: set<string>, affected: set<string>, s: set<string>)
    requires forall f :: f in affected <==> InBlast(g, paths, f)
    ensures DependentsClosed(g, paths + affected)
    ensures paths <= s && DependentsClosed(g, s) ==> paths + affected <= s
  {
    forall f, d | d in paths + affected && d in Succ(g, f) ensures f in paths + affected {
      if d in paths {
        ReachEdge(g, f, d);
      } else {
        var p :| p in paths && ReachPlus(g, d, p);
        ReachIffEqualOrPlus(g, d, p);
        ReachVia(g, f, d, p);
      }
      assert f in paths || InBlast(g, paths, f);
    }
    if paths <= s && DependentsClosed(g, s) {
      forall f | f in affected ensures f in s {
        assert InBlast(g, paths, f);
        var p :| p in paths && ReachPlus(g, f, p);
        var w :| WalkFromTo(g, w, f, p) && |w| > 1;
        WalkBackIn(g, s, w);
      }
    }
  }

  lemma {:induction false} WalkBackIn(g: Graph, s: set<string>, w: seq<string>)
    requires DependentsClosed(g, s) && Walk(g, w) && w[|w| - 1] in s
    ensures w[0] in s
  {
    if |w| > 1 {
      WalkBackIn(g, s, w[1..]);
      assert w[1] in Succ(g, w[0]);
    }
  }

  /** The bug records of a history: how many named the path, and the pull request of the newest one. */
  function BugHistory(us: seq<Update>, path: string): RegressionInfo {
    if us == [] then RegressionInfo(path, 0, None)
    else
      var before := BugHistory(us[..|us| - 1], path);
      match us[|us| - 1]
      case RecordBug(p, pr) => if p == path then RegressionInfo(path, before.pastBugCount + 1, Some(pr)) else before
      case _ => before
  }

  lemma {:induction false} BatchKeepsBugs(s: RepoState, files: seq<FileNode>)
    ensures UpsertAll(s, files).bugCount == s.bugCount && UpsertAll(s, files).lastBugPr == s.lastBugPr
  {
    if files != [] { BatchKeepsBugs(s, files[..|files| - 1]); }
  }

  lemma {:induction false} BugHistoryReplay(us: seq<Update>, path: string)
    ensures BugHistory(us, path) ==
            RegressionInfo(path, BugCount(Replay(us), path),
                           if path in Replay(us).lastBugPr then Some(Replay(us).lastBugPr[path]) else None)
  {
    if us != [] {
      BugHistoryReplay(us[..|us| - 1], path);
      match us[|us| - 1]
      case UpsertFiles(files) => BatchKeepsBugs(Replay(us[..|us| - 1]), files);
      case RecordTouch(_, _) =>
      case RecordBug(_, _) =>
    }
  }
}
