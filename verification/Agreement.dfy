/** What a finding weighs alone, what agreement adds to it, and when it is posted. */
module Agreement {
  import opened Wrappers
  import opened Findings
  import opened Consensus
  import opened ConsensusLaws

  // ---- one report ----

  /** How much a dimension counts, in percent. */
  function DimensionPercent(d: Dimension): nat {
    match d
    case Security => 130
    case Correctness => 120
    case Architecture | Devops => 100
    case Performance | Testing => 90
    case Accessibility => 80
    case Documentation => 70
  }

  /** How much a source is trusted, in percent. */
  function SourcePercent(s: Source): nat {
    match s
    case Deterministic => 100
    case Hybrid => 95
    case Llm => 85
  }

  lemma LookupNext<K>(table: seq<(K, real)>, k: nat, key: K, default: real)
    requires k < |table| && table[k].0 == key && forall i | 0 <= i < k :: table[i].0 != key
    ensures Lookup(table, key, default) == table[k].1
  {
    if k > 0 { LookupNext(table[1..], k - 1, key, default); }
  }

  lemma DimensionIsPercent(d: Dimension)
    ensures 100.0 * DimensionWeight(d) == DimensionPercent(d) as real
  {
    var k := match d
      case Security => 0
      case Correctness => 1
      case Architecture => 2
      case Devops => 3
      case Performance => 4
      case Testing => 5
      case Accessibility => 6
      case Documentation => 7;
    LookupNext(DIMENSION_WEIGHT, k, d, 1.0);
  }

  lemma SourceIsPercent(s: Source)
    ensures 100.0 * SourceMultiplier(s) == SourcePercent(s) as real
  {
    LookupNext(SOURCE_MULTIPLIER, match s case Deterministic => 0 case Hybrid => 1 case Llm => 2, s, 0.85);
  }

  /** The item of one finding reported by one agent. */
  function Alone(f: Finding, adj: Adjustments): ConsensusItem {
    MakeItem([f], ByFeedback(adj))
  }

  lemma OneAgent(f: Finding)
    ensures Agents([f]) == {f.agent} && |Agents([f])| == 1
  {
    assert [f][0] == f;
    assert Agents([f]) == {f.agent};
  }

  lemma BaseIsPercents(f: Finding)
    ensures 10000.0 * Base(f) ==
            f.confidence * DimensionPercent(f.dimension) as real * SourcePercent(f.source) as real
  {
    DimensionIsPercent(f.dimension);
    SourceIsPercent(f.source);
    Percents(f.confidence, DimensionWeight(f.dimension), SourceMultiplier(f.source),
             DimensionPercent(f.dimension) as real, SourcePercent(f.source) as real);
  }

  lemma Percents(c: real, d: real, s: real, x: real, y: real)
    requires 100.0 * d == x && 100.0 * s == y
    ensures 10000.0 * (c * d * s) == c * x * y
  {
    assert c * x == 100.0 * (c * d);
    var p := c * d;
    assert 100.0 * p * y == 10000.0 * (p * s);
  }

  lemma WeightedOne(b: real, m: real)
    ensures Weighted(b, 1, m) == AtMostOne(b * m)
  {
    assert Boost(1) == 1.0 && b * 1.0 == b;
  }

  lemma CutAtOne(b: real, m: real, p: real)
    requires 10000.0 * b == p
    ensures 10000.0 * AtMostOne(b * m) == if p * m < 10000.0 then p * m else 10000.0
  {
    assert p * m == 10000.0 * (b * m);
  }

  /**
   Alone, a finding weighs its confidence by the percentages of its dimension and source and by what was
   learned of its category, and at most one.
   */
  lemma AloneWeighs(f: Finding, adj: Adjustments, learned: real, p: real)
    requires learned == if f.category in adj then adj[f.category] else 1.0
    requires p == f.confidence * DimensionPercent(f.dimension) as real * SourcePercent(f.source) as real
    ensures Alone(f, adj).finding == f && Alone(f, adj).agreement == 1
    ensures 10000.0 * Alone(f, adj).weighted == if p * learned < 10000.0 then p * learned else 10000.0
  {
    OneAgent(f);
    BaseIsPercents(f);
    WeightedOne(Base(f), learned);
    CutAtOne(Base(f), learned, p);
  }

  // ---- agreement ----

  /** What n agents make of a single agent's confidence: 5% of it more for each further agent, and at most one. */
  function Agreed(alone: real, n: nat): real {
    if (n + 19) as real * alone < 20.0 then (n + 19) as real * alone / 20.0 else 1.0
  }

  lemma Reorder(b: real, g: real, m: real)
    ensures b * g * m == b * m * g
  {
  }

  lemma BoostGrows(a: real, g: real)
    requires a >= 1.0 && g >= 1.0
    ensures a * g >= 1.0
  {
    MulMono(a, 1.0, g);
  }

  lemma CutAgreed(a: real, g: real, n: nat)
    requires n >= 1 && 20.0 * g == (n + 19) as real && (a >= 1.0 ==> a * g >= 1.0)
    ensures AtMostOne(a * g) == Agreed(AtMostOne(a), n)
  {
    if a < 1.0 {
      assert AtMostOne(a) == a;
      TwentyTimes(a, g, (n + 19) as real);
    } else {
      assert AtMostOne(a) == 1.0 && (n + 19) as real * 1.0 >= 20.0;
    }
  }

  lemma TwentyTimes(a: real, g: real, p: real)
    requires 20.0 * g == p
    ensures p * a == 20.0 * (a * g) && p * a / 20.0 == a * g
  {
    assert 20.0 * g * a == 20.0 * (g * a);
  }

  lemma WeightedAgreed(b: real, n: nat, m: real)
    requires n >= 1
    ensures Weighted(b, n, m) == Agreed(Weighted(b, 1, m), n)
  {
    var a, g := b * m, Boost(n);
    Reorder(b, g, m);
    Reorder(b, Boost(1), m);
    assert Boost(1) == 1.0 && a * 1.0 == a;
    assert Weighted(b, 1, m) == AtMostOne(a);
    assert Weighted(b, n, m) == AtMostOne(a * g);
    if a >= 1.0 { BoostGrows(a, g); }
    CutAgreed(a, g, n);
  }

  /**
   An item weighs what its finding weighs alone and 5% of that for every further agent that reported the
   identity, up to one.
   */
  lemma ItemAgreed(fs: seq<Finding>, k: Key, adj: Adjustments)
    requires Group(fs, k) != []
    ensures var x := ItemFor(fs, k, ByFeedback(adj));
            x.weighted == Agreed(Alone(x.finding, adj).weighted, |AgentsFor(fs, k)|)
  {
    var g := Group(fs, k);
    assert g[0].agent in Agents(g);
    AgentsForGroup(fs, k);
    OneAgent(Rep(g));
    WeightedAgreed(Base(Rep(g)), |Agents(g)|, Multiplier(adj, Rep(g).category));
  }

  predicate Grave(s: Severity) {
    s == High || s == Critical
  }

  /** The gate in terms of one report: n agents together need 15 twentieths, or 10 when the impact is high. */
  lemma GateAgreed(s: Severity, alone: real, n: nat)
    ensures GateFor(s, Agreed(alone, n)) == Post <==>
            (n + 19) as real * alone >= if Grave(s) then 10.0 else 15.0
    ensures GateFor(s, Agreed(alone, n)) != Suppress <==> (n + 19) as real * alone >= 8.0
  {
  }

  /**
   Every item of a result against the result for its finding alone: the confidence that agreement adds, and
   exactly when the item is posted, collapsed or suppressed.
   */
  lemma AgreementShows(fs: seq<Finding>, adj: Adjustments, x: ConsensusItem, alone: real, n: nat)
    requires x in ConsensusOf(fs, adj).items
    requires alone == Alone(x.finding, adj).weighted && n == |AgentsFor(fs, x.finding.DedupeKey())|
    ensures ConsensusOf([x.finding], adj).items == [Alone(x.finding, adj)]
    ensures x.agreement == n >= 1 && x.weighted == Agreed(alone, n)
    ensures x.gate == Post <==>
            (n + 19) as real * alone >= if Grave(x.finding.severity) then 10.0 else 15.0
    ensures x.gate == Suppress <==> (n + 19) as real * alone < 8.0
  {
    var k := x.finding.DedupeKey();
    ResultMembers(fs, ByFeedback(adj));
    assert IsItem(fs, k, ByFeedback(adj), x);
    ItemAgreed(fs, k, adj);
    AgentsForGroup(fs, k);
    assert Group(fs, k)[0].agent in Agents(Group(fs, k));
    GateAgreed(x.finding.severity, alone, n);
    SingleResult(x.finding, adj);
  }

  lemma GroupOne(f: Finding, k: Key)
    ensures Group([f], k) == (if f.DedupeKey() == k then [f] else [])
    ensures Keys([f]) == [f.DedupeKey()]
  {
    var fs := [f];
    assert fs[..0] == [] && Group(fs[..0], k) == [] && Keys(fs[..0]) == [];
  }

  lemma SortOne(x: ConsensusItem)
    ensures StableSort([x]) == [x]
  {
    var xs := [x];
    assert xs[..0] == [] && StableSort(xs[..0]) == [];
  }

  lemma ItemsOne(fs: seq<Finding>, k: Key, w: Weigher)
    requires Group(fs, k) != []
    ensures Items(fs, [k], w) == [ItemFor(fs, k, w)]
  {
    var ks: seq<Key> := [k];
    assert ks[..0] == [] && Items(fs, ks[..0], w) == [];
  }

  lemma SingleResult(f: Finding, adj: Adjustments)
    ensures ConsensusOf([f], adj).items == [Alone(f, adj)]
  {
    var k, w := f.DedupeKey(), ByFeedback(adj);
    GroupOne(f, k);
    ItemsOne([f], k, w);
    SortOne(ItemFor([f], k, w));
  }

  lemma AgentsNext(fs: seq<Finding>, f: Finding, k: Key)
    requires k == f.DedupeKey()
    ensures AgentsFor(fs + [f], k) == AgentsFor(fs, k) + {f.agent}
  {
    AgentsForGroup(fs, k);
    AgentsForGroup(fs + [f], k);
    GroupConcat(fs, [f], k);
    GroupOne(f, k);
    AgentsConcat(Group(fs, k), [f]);
    OneAgent(f);
  }

  lemma OneMoreAgent(fs: seq<Finding>, f: Finding, k: Key)
    requires k == f.DedupeKey() && f.agent !in AgentsFor(fs, k) && Group(fs, k) != []
    requires !Outranks(f, Rep(Group(fs, k)))
    ensures Group(fs + [f], k) != [] && Rep(Group(fs + [f], k)) == Rep(Group(fs, k))
    ensures |AgentsFor(fs + [f], k)| == |AgentsFor(fs, k)| + 1
  {
    GroupConcat(fs, [f], k);
    GroupOne(f, k);
    RepAppend(Group(fs, k), [f]);
    AgentsNext(fs, f, k);
  }

  /** One more agent that outranks nothing adds 5% of the single confidence to the item of its identity. */
  lemma AnotherAgentAdds(fs: seq<Finding>, f: Finding, k: Key, adj: Adjustments, alone: real)
    requires k == f.DedupeKey() && f.agent !in AgentsFor(fs, k) && Group(fs, k) != []
    requires !Outranks(f, Rep(Group(fs, k))) && alone == Alone(Rep(Group(fs, k)), adj).weighted
    ensures Group(fs + [f], k) != []
    ensures var x, y := ItemFor(fs, k, ByFeedback(adj)), ItemFor(fs + [f], k, ByFeedback(adj));
            && x in ConsensusOf(fs, adj).items && y in ConsensusOf(fs + [f], adj).items
            && y.finding == x.finding && y.agreement == x.agreement + 1
            && (x.weighted < 1.0 && y.weighted < 1.0 ==> 20.0 * (y.weighted - x.weighted) == alone)
            && (x.weighted == 1.0 ==> y.weighted == 1.0)
  {
    OneMoreAgent(fs, f, k);
    ResultMembers(fs, ByFeedback(adj));
    ResultMembers(fs + [f], ByFeedback(adj));
    AgentsForGroup(fs, k);
    AgentsForGroup(fs + [f], k);
    ItemAgreed(fs, k, adj);
    ItemAgreed(fs + [f], k, adj);
    AgreedNext(alone, |AgentsFor(fs, k)|);
  }

  lemma AgreedNext(alone: real, n: nat)
    ensures Agreed(alone, n) < 1.0 && Agreed(alone, n + 1) < 1.0 ==>
              20.0 * (Agreed(alone, n + 1) - Agreed(alone, n)) == alone
    ensures Agreed(alone, n) == 1.0 ==> Agreed(alone, n + 1) == 1.0
  {
    assert (n + 20) as real * alone == (n + 19) as real * alone + alone;
    if alone <= 0.0 { MulMono((n + 19) as real, alone, 0.0); }
  }

  const LONE := Finding("a", Architecture, "c", Medium, 0.72, "t", None, None, Deterministic)

  lemma LoneItem(f: Finding, x: ConsensusItem)
    requires f == LONE && x in ConsensusOf([f], map[]).items
    ensures x == Alone(f, map[]) && x.weighted == 0.72 && x.gate == Collapse
  {
    SingleResult(f, map[]);
    AloneWeighs(f, map[], 1.0, 7200.0);
  }

  lemma PairAgents(f: Finding, g: Finding, k: Key)
    requires f.agent != g.agent && f.DedupeKey() == k == g.DedupeKey()
    ensures |AgentsFor([f] + [g], k)| == 2
  {
    var fs := [f] + [g];
    assert fs[0] == f && fs[1] == g;
    assert AgentsFor(fs, k) == {f.agent, g.agent};
  }

  lemma PairItem(f: Finding, g: Finding, y: ConsensusItem, k: Key, w: Weigher)
    requires f.agent != g.agent && f.DedupeKey() == k == g.DedupeKey() && y in ConsensusBy([f] + [g], w).items
    ensures y.finding == f || y.finding == g
    ensures y.finding.DedupeKey() == k && |AgentsFor([f] + [g], k)| == 2
  {
    var fs := [f] + [g];
    ResultMembers(fs, w);
    assert IsItem(fs, y.finding.DedupeKey(), w, y);
    RepFacts(Group(fs, y.finding.DedupeKey()));
    GroupFacts(fs, y.finding.DedupeKey());
    PairAgents(f, g, k);
  }

  lemma LoneWeighs(f: Finding)
    requires f == LONE || f == LONE.(agent := "b")
    ensures Alone(f, map[]).weighted == 0.72
  {
    AloneWeighs(f, map[], 1.0, 7200.0);
  }

  lemma TwoOfThem(alone: real, n: nat)
    requires alone == 0.72 && n == 2
    ensures Agreed(alone, n) == 0.756 && (n + 19) as real * alone >= 15.0
  {
  }

  lemma PairAgreed(fs: seq<Finding>, y: ConsensusItem, alone: real, n: nat)
    requires alone == 0.72 && n == 2
    requires y in ConsensusOf(fs, map[]).items && n == |AgentsFor(fs, y.finding.DedupeKey())|
    requires y.finding.severity == Medium && alone == Alone(y.finding, map[]).weighted
    ensures y.weighted == 0.756 && y.gate == Post
  {
    TwoOfThem(alone, n);
    AgreementShows(fs, map[], y, alone, n);
  }

  /** Agreement decides: one agent's report at 0.72 is collapsed, the same from two agents is posted. */
  lemma AgreementPosts(f: Finding, g: Finding, x: ConsensusItem, y: ConsensusItem)
    requires f == LONE && g == f.(agent := "b")
    requires x in ConsensusOf([f], map[]).items && y in ConsensusOf([f] + [g], map[]).items
    ensures x.weighted == 0.72 && x.gate == Collapse
    ensures y.weighted == 0.756 && y.gate == Post
  {
    LoneItem(f, x);
    assert f.agent != g.agent;
    PairItem(f, g, y, f.DedupeKey(), ByFeedback(map[]));
    LoneWeighs(y.finding);
    PairAgreed([f] + [g], y, 0.72, 2);
  }

  // ---- a result in the terms of its findings ----

  function Grade(s: Severity): nat {
    match s
    case Info => 0
    case Low => 1
    case Medium => 2
    case High => 3
    case Critical => 4
  }

  /** Same dimension, category, file and line; an empty path counts as none, and line 0 as no line. */
  predicate SameIssue(f: Finding, g: Finding) {
    && f.dimension == g.dimension && f.category == g.category
    && (f.filePath == g.filePath || (NoPath(f) && NoPath(g)))
    && (f.line == g.line || (NoLine(f) && NoLine(g)))
  }

  predicate NoPath(f: Finding) {
    f.filePath == None || f.filePath == Some("")
  }

  predicate NoLine(f: Finding) {
    f.line == None || f.line == Some(0)
  }

  lemma SameIssueIff(f: Finding, g: Finding)
    ensures SameIssue(f, g) <==> f.DedupeKey() == g.DedupeKey()
  {
  }

  /** Graver, or as grave and surer. */
  predicate Leads(s: Severity, c: real, t: Severity, d: real) {
    Grade(s) > Grade(t) || (s == t && c > d)
  }

  lemma LeadsIff(f: Finding, g: Finding)
    ensures Outranks(f, g) <==> Leads(f.severity, f.confidence, g.severity, g.confidence)
  {
  }

  lemma AboveIff(x: ConsensusItem, y: ConsensusItem)
    ensures Above(x, y) <==> Leads(x.finding.severity, x.weighted, y.finding.severity, y.weighted)
  {
  }

  /** The item stands for the findings of its issue: none of them leads it, and their agents are counted. */
  ghost predicate StandsFor(fs: seq<Finding>, x: ConsensusItem) {
    && x.finding in fs
    && (forall f | f in fs && SameIssue(f, x.finding) ::
          !Leads(f.severity, f.confidence, x.finding.severity, x.finding.confidence))
    && x.agreement == |set f | f in fs && SameIssue(f, x.finding) :: f.agent|
  }

  /** Every finding has an item of its issue, and no issue has two. */
  ghost predicate OneForEachIssue(fs: seq<Finding>, items: seq<ConsensusItem>) {
    && (forall f | f in fs :: exists i :: 0 <= i < |items| && SameIssue(items[i].finding, f))
    && (forall i, j | 0 <= i < j < |items| :: !SameIssue(items[i].finding, items[j].finding))
  }

  lemma IssuesApart(fs: seq<Finding>, items: seq<ConsensusItem>)
    requires forall f | f in fs :: exists x :: x in items && x.finding.DedupeKey() == f.DedupeKey()
    requires DistinctKeys(items)
    ensures OneForEachIssue(fs, items)
  {
    forall f | f in fs ensures exists i :: 0 <= i < |items| && SameIssue(items[i].finding, f) {
      var x :| x in items && x.finding.DedupeKey() == f.DedupeKey();
      var i :| 0 <= i < |items| && items[i] == x;
      SameIssueIff(x.finding, f);
    }
    forall i, j | 0 <= i < j < |items| ensures !SameIssue(items[i].finding, items[j].finding) {
      SameIssueIff(items[i].finding, items[j].finding);
    }
  }

  /** Sorted by severity and then confidence, highest first. */
  ghost predicate GravestFirst(items: seq<ConsensusItem>) {
    forall i, j | 0 <= i < j < |items| ::
      !Leads(items[j].finding.severity, items[j].weighted, items[i].finding.severity, items[i].weighted)
  }

  lemma DescendingIsGravestFirst(items: seq<ConsensusItem>)
    requires Descending(items)
    ensures GravestFirst(items)
  {
    forall i, j | 0 <= i < j < |items|
      ensures !Leads(items[j].finding.severity, items[j].weighted, items[i].finding.severity, items[i].weighted)
    {
      AboveIff(items[j], items[i]);
    }
  }

  predicate PostedAndGrave(x: ConsensusItem) {
    x.gate == Post && Grave(x.finding.severity)
  }

  /**
   One item for each issue, standing for its findings, sorted by severity and then confidence; and the
   verdict blocks exactly when a posted item is critical or high.
   */
  lemma ResultShows(fs: seq<Finding>, adj: Adjustments, result: ConsensusResult)
    requires result == ConsensusOf(fs, adj)
    ensures OneForEachIssue(fs, result.items) && GravestFirst(result.items)
    ensures forall x | x in result.items :: StandsFor(fs, x)
    ensures result.blocking <==> exists i :: 0 <= i < |result.items| && PostedAndGrave(result.items[i])
  {
    ResultApart(fs, ByFeedback(adj), result.items);
    forall x | x in result.items ensures StandsFor(fs, x) {
      ResultStands(fs, ByFeedback(adj), x);
    }
    assert forall x :: PostedAndGrave(x) <==> IsBlocker(x);
  }

  lemma ResultApart(fs: seq<Finding>, w: Weigher, items: seq<ConsensusItem>)
    requires items == ConsensusBy(fs, w).items
    ensures OneForEachIssue(fs, items) && GravestFirst(items)
  {
    ConsensusPartitions(fs, w);
    IssuesApart(fs, items);
    DescendingIsGravestFirst(items);
  }

  lemma ResultStands(fs: seq<Finding>, w: Weigher, x: ConsensusItem)
    requires x in ConsensusBy(fs, w).items
    ensures StandsFor(fs, x)
  {
    var k := x.finding.DedupeKey();
    ResultMembers(fs, w);
    assert IsItem(fs, k, w, x);
    RepUnbeaten(fs, k);
    AgentsForGroup(fs, k);
    ItemStands(fs, x);
  }

  lemma ItemStands(fs: seq<Finding>, x: ConsensusItem)
    requires x.finding in fs
    requires forall f | f in fs && f.DedupeKey() == x.finding.DedupeKey() :: !Outranks(f, x.finding)
    requires x.agreement == |AgentsFor(fs, x.finding.DedupeKey())|
    ensures StandsFor(fs, x)
  {
    forall f ensures SameIssue(f, x.finding) <==> f.DedupeKey() == x.finding.DedupeKey() {
      SameIssueIff(f, x.finding);
    }
    forall f | f in fs && SameIssue(f, x.finding)
      ensures !Leads(f.severity, f.confidence, x.finding.severity, x.finding.confidence)
    {
      LeadsIff(f, x.finding);
    }
    assert (set f | f in fs && SameIssue(f, x.finding) :: f.agent) == AgentsFor(fs, x.finding.DedupeKey());
  }
}
