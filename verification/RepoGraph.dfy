/**
 One repository's graph: forward edges, the hand-maintained reverse index, and bug and touch history.
 Specification on values first, then the object the store updates in place.
 */
module RepoGraphs {
  import opened Reachability
  import opened SortedText
  import opened Wrappers
  import Tarjan

  datatype FileNode = FileNode(path: string, moduleName: string, symbols: seq<string>, dependsOn: seq<string>)

  datatype RegressionInfo = RegressionInfo(path: string, pastBugCount: nat, lastBugPr: Option<int>)

  datatype RepoState = RepoState(
    dependsOn: Graph,
    dependents: Graph,
    symbols: map<string, set<string>>,
    modules: map<string, string>,
    touchedBy: map<string, set<int>>,
    bugCount: map<string, nat>,
    lastBugPr: map<string, int>)

  const EMPTY := RepoState(map[], map[], map[], map[], map[], map[], map[])

  datatype Update =
    | UpsertFiles(files: seq<FileNode>)
    | RecordTouch(prNumber: int, paths: seq<string>)
    | RecordBug(path: string, bugPr: int)

  // ---- what each update does ----

  /** Takes `path` out of the entries of `deps`; other entries, and missing ones, stay as they are. */
  function Unlinked(index: Graph, deps: set<string>, path: string): Graph {
    map d | d in index :: if d in deps then index[d] - {path} else index[d]
  }

  /** Puts `path` into the entries of `deps`, creating them where missing. */
  function Linked(index: Graph, deps: set<string>, path: string): Graph {
    map d | d in index.Keys + deps :: if d in deps then Succ(index, d) + {path} else Succ(index, d)
  }

  function UpsertOne(s: RepoState, f: FileNode): RepoState {
    s.(
      modules := s.modules[f.path := f.moduleName],
      symbols := s.symbols[f.path := Elems(f.symbols)],
      dependsOn := s.dependsOn[f.path := Elems(f.dependsOn)],
      dependents := Linked(Unlinked(s.dependents, Succ(s.dependsOn, f.path), f.path), Elems(f.dependsOn), f.path))
  }

  function UpsertAll(s: RepoState, files: seq<FileNode>): RepoState {
    if files == [] then s else UpsertOne(UpsertAll(s, files[..|files| - 1]), files[|files| - 1])
  }

  function Touched(touchedBy: map<string, set<int>>, p: string, pr: int): map<string, set<int>> {
    touchedBy[p := (if p in touchedBy then touchedBy[p] else {}) + {pr}]
  }

  function TouchAll(touchedBy: map<string, set<int>>, paths: seq<string>, pr: int): map<string, set<int>> {
    if paths == [] then touchedBy else Touched(TouchAll(touchedBy, paths[..|paths| - 1], pr), paths[|paths| - 1], pr)
  }

  function BugCount(s: RepoState, path: string): nat {
    if path in s.bugCount then s.bugCount[path] else 0
  }

  function Apply(s: RepoState, u: Update): RepoState {
    match u
    case UpsertFiles(files) => UpsertAll(s, files)
    case RecordTouch(pr, paths) => s.(touchedBy := TouchAll(s.touchedBy, paths, pr))
    case RecordBug(path, pr) =>
      s.(bugCount := s.bugCount[path := BugCount(s, path) + 1], lastBugPr := s.lastBugPr[path := pr])
  }

  /** The state after a history of updates. */
  function Replay(us: seq<Update>): RepoState {
    if us == [] then EMPTY else Apply(Replay(us[..|us| - 1]), us[|us| - 1])
  }

  // ---- the reverse index ----

  /** f is listed under d in the reverse index exactly when f depends on d. */
  ghost predicate Inverse(forward: Graph, index: Graph) {
    forall f, d :: f in Succ(index, d) <==> d in Succ(forward, f)
  }

  lemma UpsertOneKeepsInverse(s: RepoState, f: FileNode)
    requires Inverse(s.dependsOn, s.dependents)
    ensures Inverse(UpsertOne(s, f).dependsOn, UpsertOne(s, f).dependents)
  {
    var t := UpsertOne(s, f);
    var mid := Unlinked(s.dependents, Succ(s.dependsOn, f.path), f.path);
    forall x, d ensures x in Succ(t.dependents, d) <==> d in Succ(t.dependsOn, x) {
      assert x in Succ(s.dependents, d) <==> d in Succ(s.dependsOn, x);
      assert x in Succ(mid, d) <==> x in Succ(s.dependents, d) && x != f.path;
    }
  }

  lemma {:induction false} UpsertAllKeepsInverse(s: RepoState, files: seq<FileNode>)
    requires Inverse(s.dependsOn, s.dependents)
    ensures Inverse(UpsertAll(s, files).dependsOn, UpsertAll(s, files).dependents)
  {
    if files != [] {
      UpsertAllKeepsInverse(s, files[..|files| - 1]);
      UpsertOneKeepsInverse(UpsertAll(s, files[..|files| - 1]), files[|files| - 1]);
    }
  }

  /** After every history of updates the reverse index is the exact inverse of the forward edges. */
  lemma {:induction false} ReplayInverse(us: seq<Update>)
    ensures Inverse(Replay(us).dependsOn, Replay(us).dependents)
  {
    if us != [] {
      ReplayInverse(us[..|us| - 1]);
      match us[|us| - 1]
      case UpsertFiles(files) => UpsertAllKeepsInverse(Replay(us[..|us| - 1]), files);
      case RecordTouch(_, _) =>
      case RecordBug(_, _) =>
    }
  }

  // ---- forward edges are the last snapshot of each file ----

  /** Every file node of the history, oldest first. */
  function Nodes(us: seq<Update>): seq<FileNode> {
    if us == [] then []
    else Nodes(us[..|us| - 1]) + (match us[|us| - 1] case UpsertFiles(files) => files case _ => [])
  }

  /** The newest node for `path`. */
  function LastNode(nodes: seq<FileNode>, path: string): Option<FileNode> {
    if nodes == [] then None
    else if nodes[|nodes| - 1].path == path then Some(nodes[|nodes| - 1])
    else LastNode(nodes[..|nodes| - 1], path)
  }

  function Entry<T>(g: map<string, T>, path: string): Option<T> {
    if path in g then Some(g[path]) else None
  }

  /** The state knows of the file what the node says, and nothing when there is no node. */
  ghost predicate Knows(s: RepoState, path: string, node: Option<FileNode>) {
    match node
    case None => path !in s.dependsOn && path !in s.symbols && path !in s.modules
    case Some(FileNode(_, moduleName, symbols, dependsOn)) =>
      && Entry(s.dependsOn, path) == Some(Elems(dependsOn))
      && Entry(s.symbols, path) == Some(Elems(symbols))
      && Entry(s.modules, path) == Some(moduleName)
  }

  lemma {:induction false} LastNodeOfBatch(s: RepoState, nodes: seq<FileNode>, files: seq<FileNode>, path: string)
    requires Knows(s, path, LastNode(nodes, path))
    ensures Knows(UpsertAll(s, files), path, LastNode(nodes + files, path))
  {
    if files == [] {
      assert nodes + files == nodes;
    } else {
      LastNodeOfBatch(s, nodes, files[..|files| - 1], path);
      assert (nodes + files)[..|nodes + files| - 1] == nodes + files[..|files| - 1];
    }
  }

  /** A later upsert replaces what is known of a file outright, also inside one batch. */
  lemma {:induction false} ReplayKeepsLastSnapshot(us: seq<Update>, path: string)
    ensures Knows(Replay(us), path, LastNode(Nodes(us), path))
  {
    if us != [] {
      var before := us[..|us| - 1];
      ReplayKeepsLastSnapshot(before, path);
      match us[|us| - 1]
      case UpsertFiles(files) => LastNodeOfBatch(Replay(before), Nodes(before), files, path);
      case RecordTouch(_, _) => assert Nodes(us) == Nodes(before);
      case RecordBug(_, _) => assert Nodes(us) == Nodes(before);
    }
  }

  // ---- touches add up ----

  /** Some update of the history recorded that the pull request touched the path. */
  ghost predicate TouchRecorded(us: seq<Update>, path: string, pr: int) {
    exists i :: 0 <= i < |us| && us[i].RecordTouch? && us[i].prNumber == pr && path in us[i].paths
  }

  predicate TouchKnown(touchedBy: map<string, set<int>>, path: string, pr: int) {
    path in touchedBy && pr in touchedBy[path]
  }

  lemma {:induction false} TouchAllAdds(touchedBy: map<string, set<int>>, paths: seq<string>, n: int, path: string,
                                        pr: int)
    ensures TouchKnown(TouchAll(touchedBy, paths, n), path, pr) <==>
            TouchKnown(touchedBy, path, pr) || (pr == n && path in paths)
  {
    if paths != [] {
      assert paths == paths[..|paths| - 1] + [paths[|paths| - 1]];
      TouchAllAdds(touchedBy, paths[..|paths| - 1], n, path, pr);
    }
  }

  lemma {:induction false} BatchKeepsTouches(s: RepoState, files: seq<FileNode>)
    ensures UpsertAll(s, files).touchedBy == s.touchedBy
  {
    if files != [] { BatchKeepsTouches(s, files[..|files| - 1]); }
  }

  lemma TouchRecordedNext(us: seq<Update>, u: Update, path: string, pr: int)
    ensures TouchRecorded(us + [u], path, pr) <==>
            TouchRecorded(us, path, pr) || (u.RecordTouch? && u.prNumber == pr && path in u.paths)
  {
    var next := us + [u];
    assert next[|us|] == u;
    if TouchRecorded(us, path, pr) {
      var i :| 0 <= i < |us| && us[i].RecordTouch? && us[i].prNumber == pr && path in us[i].paths;
      assert next[i] == us[i];
    }
  }

  /** A path's touches are exactly the pull requests recorded for it. */
  lemma {:induction false} TouchesAreRecorded(us: seq<Update>, path: string, pr: int)
    ensures TouchKnown(Replay(us).touchedBy, path, pr) <==> TouchRecorded(us, path, pr)
  {
    if us != [] {
      var before, u := us[..|us| - 1], us[|us| - 1];
      assert us == before + [u];
      TouchesAreRecorded(before, path, pr);
      TouchRecordedNext(before, u, path, pr);
      match u
      case UpsertFiles(files) => BatchKeepsTouches(Replay(before), files);
      case RecordTouch(n, paths) => TouchAllAdds(Replay(before).touchedBy, paths, n, path, pr);
      case RecordBug(_, _) =>
    }
  }

  // ---- queries ----

  /** f is outside `paths` and depends, directly or not, on one of them. */
  ghost predicate InBlast(g: Graph, paths: set<string>, f: string) {
    f !in paths && exists p :: p in paths && ReachPlus(g, f, p)
  }

  /** Every file named in the forward edges. */
  ghost function Files(g: Graph): set<string> {
    g.Keys + set f, d | f in g && d in g[f] :: d
  }

  lemma FilesClosed(g: Graph)
    ensures Closed(g, Files(g))
  {
  }

  /** What `find_cycles` must return: the cyclic components, sorted, disjoint, and all of them. */
  ghost predicate CycleReport(g: Graph, result: seq<seq<string>>) {
    && (forall i | 0 <= i < |result| ::
          Ascending(result[i]) && IsComponent(g, Elems(result[i])) && Tarjan.IsCyclic(g, Elems(result[i])))
    && Tarjan.Disjoint(result)
    && (forall x {:trigger Tarjan.Covered(result, x)} | ReachPlus(g, x, x) :: Tarjan.Covered(result, x))
  }

  lemma ReportOfSearch(g: Graph, done: set<string>, result: seq<seq<string>>)
    requires Tarjan.Reports(g, done, result) && g.Keys <= done
    ensures CycleReport(g, result)
  {
    forall i | 0 <= i < |result|
      ensures Ascending(result[i]) && IsComponent(g, Elems(result[i])) && Tarjan.IsCyclic(g, Elems(result[i]))
    {
      assert Tarjan.IsReport(g, done, result[i]);
    }
    forall x | ReachPlus(g, x, x) ensures Tarjan.Covered(result, x) {
      var y := ReachPlusFirst(g, x, x);
      assert x in g;
    }
  }

  class RepoGraph {
    var dependsOn: Graph
    var dependents: Graph
    var symbols: map<string, set<string>>
    var modules: map<string, string>
    var touchedBy: map<string, set<int>>
    var bugCount: map<string, nat>
    var lastBugPr: map<string, int>

    constructor ()
      ensures View() == EMPTY
    {
      dependsOn, dependents, symbols, modules := map[], map[], map[], map[];
      touchedBy, bugCount, lastBugPr := map[], map[], map[];
    }

    ghost function View(): RepoState
      reads this
    {
      RepoState(dependsOn, dependents, symbols, modules, touchedBy, bugCount, lastBugPr)
    }

    method Upsert(files: seq<FileNode>)
      modifies this
      ensures View() == UpsertAll(old(View()), files)
    {
      for i := 0 to |files|
        invariant View() == UpsertAll(old(View()), files[..i])
      {
        assert files[..i + 1][..i] == files[..i];
        UpsertFile(files[i]);
      }
      assert files[..|files|] == files;
    }

    method UpsertFile(f: FileNode)
      modifies this
      ensures View() == UpsertOne(old(View()), f)
    {
      modules := modules[f.path := f.moduleName];
      symbols := symbols[f.path := Elems(f.symbols)];
      Unlink(Succ(dependsOn, f.path), f.path);
      dependsOn := dependsOn[f.path := Elems(f.dependsOn)];
      Link(f.dependsOn, f.path);
    }

    method Unlink(deps: set<string>, path: string)
      modifies `dependents
      ensures dependents == Unlinked(old(dependents), deps, path)
    {
      var todo := deps;
      while todo != {}
        invariant todo <= deps
        invariant dependents == Unlinked(old(dependents), deps - todo, path)
        decreases todo
      {
        var dep :| dep in todo;
        todo := todo - {dep};
        if dep in dependents {
          dependents := dependents[dep := dependents[dep] - {path}];
        }
      }
    }

    method Link(deps: seq<string>, path: string)
      modifies `dependents
      ensures dependents == Linked(old(dependents), Elems(deps), path)
    {
      for i := 0 to |deps|
        invariant dependents == Linked(old(dependents), Elems(deps[..i]), path)
      {
        assert deps[..i + 1] == deps[..i] + [deps[i]];
        dependents := dependents[deps[i] := Succ(dependents, deps[i]) + {path}];
      }
      assert deps[..|deps|] == deps;
    }

    method Touch(prNumber: int, paths: seq<string>)
      modifies this
      ensures View() == Apply(old(View()), RecordTouch(prNumber, paths))
    {
      for i := 0 to |paths|
        invariant View() == old(View()).(touchedBy := TouchAll(old(touchedBy), paths[..i], prNumber))
      {
        assert paths[..i + 1][..i] == paths[..i];
        touchedBy := Touched(touchedBy, paths[i], prNumber);
      }
      assert paths[..|paths|] == paths;
    }

    method Bug(path: string, prNumber: int)
      modifies this
      ensures View() == Apply(old(View()), RecordBug(path, prNumber))
    {
      bugCount := bugCount[path := (if path in bugCount then bugCount[path] else 0) + 1];
      lastBugPr := lastBugPr[path := prNumber];
    }

    /** Breadth-first search over the reverse index. */
    method BlastRadius(paths: seq<string>) returns (affected: seq<string>)
      requires Inverse(dependsOn, dependents)
      ensures Ascending(affected)
      ensures forall f :: f in affected <==> InBlast(dependsOn, Elems(paths), f)
    {
      var seen: set<string> := {};
      var queue := paths;
      var start := Elems(paths);
      ghost var popped: set<string> := {};
      while queue != []
        invariant start + seen == popped + Elems(queue)
        invariant seen <= dependsOn.Keys
        invariant forall d | d in popped :: Succ(dependents, d) <= seen
        invariant forall f | f in seen :: Hits(dependsOn, start, f)
        decreases dependsOn.Keys - seen, |queue|
      {
        ghost var seen0, queue0, popped0 := seen, queue, popped;
        var node := queue[0];
        ElemsHead(queue);
        queue := queue[1..];
        popped := popped + {node};
        assert node in start || Hits(dependsOn, start, node);
        HitsGrow(dependsOn, dependents, start, node);
        seen, queue := Enqueue(seen, queue, Succ(dependents, node));
        assert start + seen == popped0 + Elems(queue0) + Succ(dependents, node);
      }
      BlastIsExact(dependsOn, dependents, start, seen);
      affected := SortSet(seen - start);
      assert forall f :: f in affected <==> f in Elems(affected);
    }

    /** Tarjan's search from every file that has a forward entry. */
    method FindCycles() returns (result: seq<seq<string>>)
      ensures CycleReport(dependsOn, result)
    {
      var search := new Tarjan.CycleSearch(dependsOn);
      var todo := dependsOn.Keys;
      FilesClosed(dependsOn);
      while todo != {}
        invariant fresh(search) && search.deps == dependsOn
        invariant search.Valid() && search.gray == {} && search.indices.Keys <= Files(dependsOn)
        invariant todo <= dependsOn.Keys <= search.indices.Keys + todo
        decreases todo
      {
        var node :| node in todo;
        todo := todo - {node};
        if node !in search.indices {
          search.StrongConnect(node, Files(dependsOn));
        }
      }
      Tarjan.IdleSearchIsDone(dependsOn, search.State());
      ReportOfSearch(dependsOn, Tarjan.Done(search.State()), search.result);
      result := search.result;
    }

    function Regression(path: string): (info: RegressionInfo)
      reads this
    {
      RegressionInfo(path, if path in bugCount then bugCount[path] else 0,
                     if path in lastBugPr then Some(lastBugPr[path]) else None)
    }
  }

  /** f depends, directly or not, on a member of start. */
  ghost predicate Hits(g: Graph, start: set<string>, f: string) {
    exists p :: p in start && ReachPlus(g, f, p)
  }

  lemma HitsGrow(g: Graph, index: Graph, start: set<string>, node: string)
    requires Inverse(g, index)
    requires node in start || Hits(g, start, node)
    ensures forall f | f in Succ(index, node) :: f in g && Hits(g, start, f)
  {
    forall f | f in Succ(index, node) ensures f in g && Hits(g, start, f) {
      assert node in Succ(g, f);
      if node in start {
        ReachEdge(g, f, node);
      } else {
        var p :| p in start && ReachPlus(g, node, p);
        ReachIffEqualOrPlus(g, node, p);
        ReachVia(g, f, node, p);
      }
    }
  }

  /** The search's inner loop: dependents not seen before are marked and queued, in any order. */
  method Enqueue(seen0: set<string>, queue0: seq<string>, deps: set<string>)
    returns (seen: set<string>, queue: seq<string>)
    ensures seen == seen0 + deps
    ensures Elems(queue) == Elems(queue0) + (deps - seen0)
    ensures deps <= seen0 ==> queue == queue0
  {
    seen, queue := seen0, queue0;
    var todo := deps;
    while todo != {}
      invariant todo <= deps && seen == seen0 + (deps - todo)
      invariant Elems(queue) == Elems(queue0) + (deps - todo - seen0)
      invariant deps <= seen0 ==> queue == queue0
      decreases todo
    {
      var dependent :| dependent in todo;
      todo := todo - {dependent};
      ElemsAppend(queue, dependent);
      if dependent !in seen {
        seen := seen + {dependent};
        queue := queue + [dependent];
      }
    }
  }

  /** A set that holds the dependents of the start and of itself, and only hitting files, is the answer. */
  lemma BlastIsExact(g: Graph, index: Graph, start: set<string>, seen: set<string>)
    requires Inverse(g, index)
    requires forall d | d in start + seen :: Succ(index, d) <= seen
    requires forall f | f in seen :: Hits(g, start, f)
    ensures forall f :: f in seen - start <==> InBlast(g, start, f)
  {
    forall f | Hits(g, start, f) ensures f in seen {
      var p :| p in start && ReachPlus(g, f, p);
      var w :| WalkFromTo(g, w, f, p) && |w| > 1;
      WalkBackStays(g, index, start, seen, w);
    }
  }

  lemma {:induction false} WalkBackStays(g: Graph, index: Graph, start: set<string>, seen: set<string>, w: seq<string>)
    requires Inverse(g, index)
    requires forall d | d in start + seen :: Succ(index, d) <= seen
    requires Walk(g, w) && |w| > 1 && w[|w| - 1] in start + seen
    ensures w[0] in seen
  {
    assert w[1] in Succ(g, w[0]);
    assert w[0] in Succ(index, w[1]);
    if |w| > 2 {
      WalkBackStays(g, index, start, seen, w[1..]);
    }
  }
}
