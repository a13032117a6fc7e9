/** What the consensus engine guarantees: a partition of the findings, stable under order, repetition and growth. */
module ConsensusLaws {
  import opened Wrappers
  import opened Collections
  import opened Findings
  import opened Consensus

  // ---- sorting ----

  ghost predicate Descending(xs: seq<ConsensusItem>) {
    forall i, j | 0 <= i < j < |xs| :: !Above(xs[j], xs[i])
  }

  lemma HeadStaysTop(x: ConsensusItem, xs: seq<ConsensusItem>)
    requires xs != [] && Descending(xs) && !Above(x, xs[0])
    requires multiset(InsertItem(x, xs[1..])) == multiset(xs[1..]) + multiset{x}
    ensures var ys := InsertItem(x, xs[1..]); forall j | 0 <= j < |ys| :: !Above(ys[j], xs[0])
  {
    var ys := InsertItem(x, xs[1..]);
    forall j | 0 <= j < |ys| ensures !Above(ys[j], xs[0]) {
      assert ys[j] in multiset(ys);
      assert ys[j] == x || ys[j] in xs[1..];
    }
  }

  lemma {:induction false} InsertFacts(x: ConsensusItem, xs: seq<ConsensusItem>)
    requires Descending(xs)
    ensures multiset(InsertItem(x, xs)) == multiset(xs) + multiset{x}
    ensures Descending(InsertItem(x, xs))
  {
    if xs != [] {
      assert xs == [xs[0]] + xs[1..];
      if !Above(x, xs[0]) {
        InsertFacts(x, xs[1..]);
        HeadStaysTop(x, xs);
      }
    }
  }

  lemma {:induction false} SortFacts(xs: seq<ConsensusItem>)
    ensures multiset(StableSort(xs)) == multiset(xs) && Descending(StableSort(xs))
  {
    if xs != [] {
      assert xs == xs[..|xs| - 1] + [xs[|xs| - 1]];
      SortFacts(xs[..|xs| - 1]);
      InsertFacts(xs[|xs| - 1], StableSort(xs[..|xs| - 1]));
    }
  }

  /** The items of one sort rank, in order. */
  function OfRank(xs: seq<ConsensusItem>, weight: real, weighted: real): seq<ConsensusItem> {
    if xs == [] then []
    else (if xs[0].finding.severity.Weight() == weight && xs[0].weighted == weighted then [xs[0]] else [])
         + OfRank(xs[1..], weight, weighted)
  }

  lemma {:induction false} OfRankConcat(xs: seq<ConsensusItem>, ys: seq<ConsensusItem>, weight: real, weighted: real)
    ensures OfRank(xs + ys, weight, weighted) == OfRank(xs, weight, weighted) + OfRank(ys, weight, weighted)
  {
    if xs == [] {
      assert xs + ys == ys;
    } else {
      assert (xs + ys)[1..] == xs[1..] + ys;
      OfRankConcat(xs[1..], ys, weight, weighted);
    }
  }

  /** Below an item that x is above there is nothing of x's rank. */
  lemma {:induction false} NoneOfRank(x: ConsensusItem, xs: seq<ConsensusItem>)
    requires forall i | 0 <= i < |xs| :: Above(x, xs[i])
    ensures OfRank(xs, x.finding.severity.Weight(), x.weighted) == []
  {
    if xs != [] { NoneOfRank(x, xs[1..]); }
  }

  lemma {:induction false} InsertStable(x: ConsensusItem, xs: seq<ConsensusItem>, weight: real, weighted: real)
    requires Descending(xs)
    ensures OfRank(InsertItem(x, xs), weight, weighted) == OfRank(xs, weight, weighted) + OfRank([x], weight, weighted)
  {
    assert [x][1..] == [];
    if xs != [] {
      assert xs == [xs[0]] + xs[1..];
      if Above(x, xs[0]) {
        assert forall i | 0 <= i < |xs| :: Above(x, xs[i]) by {
          assert forall i | 0 < i < |xs| :: !Above(xs[i], xs[0]);
        }
        NoneOfRank(x, xs);
        assert ([x] + xs)[1..] == xs;
      } else {
        InsertStable(x, xs[1..], weight, weighted);
        assert ([xs[0]] + InsertItem(x, xs[1..]))[1..] == InsertItem(x, xs[1..]);
      }
    }
  }

  /** Sorting keeps items of equal severity and confidence in their order of first appearance. */
  lemma {:induction false} SortStable(xs: seq<ConsensusItem>, weight: real, weighted: real)
    ensures OfRank(StableSort(xs), weight, weighted) == OfRank(xs, weight, weighted)
  {
    if xs != [] {
      var before, x := xs[..|xs| - 1], xs[|xs| - 1];
      assert xs == before + [x];
      SortStable(before, weight, weighted);
      SortFacts(before);
      InsertStable(x, StableSort(before), weight, weighted);
      OfRankConcat(before, [x], weight, weighted);
    }
  }

  // ---- groups and representatives ----

  lemma {:induction false} GroupFacts(fs: seq<Finding>, k: Key)
    ensures forall f :: f in Group(fs, k) <==> f in fs && f.DedupeKey() == k
  {
    if fs != [] {
      assert fs == fs[..|fs| - 1] + [fs[|fs| - 1]];
      GroupFacts(fs[..|fs| - 1], k);
    }
  }

  lemma {:induction false} GroupConcat(fs: seq<Finding>, gs: seq<Finding>, k: Key)
    ensures Group(fs + gs, k) == Group(fs, k) + Group(gs, k)
  {
    if gs == [] {
      assert fs + gs == fs;
    } else {
      assert (fs + gs)[..|fs + gs| - 1] == fs + gs[..|gs| - 1];
      GroupConcat(fs, gs[..|gs| - 1], k);
    }
  }

  lemma {:induction false} RepFacts(group: seq<Finding>)
    requires group != []
    ensures Rep(group) in group
    ensures forall i | 0 <= i < |group| :: !Outranks(group[i], Rep(group))
  {
    if |group| > 1 {
      assert group == group[..|group| - 1] + [group[|group| - 1]];
      RepFacts(group[..|group| - 1]);
    }
  }

  /** The representative stays unless something appended outranks it. */
  lemma {:induction false} RepAppend(g: seq<Finding>, h: seq<Finding>)
    requires g != []
    ensures (forall i | 0 <= i < |h| :: !Outranks(h[i], Rep(g))) ==> Rep(g + h) == Rep(g)
    ensures !Outranks(Rep(g), Rep(g + h))
  {
    if h == [] {
      assert g + h == g;
    } else {
      assert (g + h)[..|g + h| - 1] == g + h[..|h| - 1];
      RepAppend(g, h[..|h| - 1]);
    }
  }

  lemma AgentsConcat(g: seq<Finding>, h: seq<Finding>)
    ensures Agents(g + h) == Agents(g) + Agents(h)
  {
    assert forall i | 0 <= i < |g| :: (g + h)[i] == g[i];
    assert forall i | 0 <= i < |h| :: (g + h)[|g| + i] == h[i];
  }

  // ---- the items of a result ----

  lemma {:induction false} ItemsAt(fs: seq<Finding>, ks: seq<Key>, w: Weigher)
    requires forall i | 0 <= i < |ks| :: Group(fs, ks[i]) != []
    ensures |Items(fs, ks, w)| == |ks|
    ensures forall i | 0 <= i < |ks| :: Items(fs, ks, w)[i] == ItemFor(fs, ks[i], w)
  {
    if ks != [] {
      var before := ks[..|ks| - 1];
      assert forall i | 0 <= i < |before| :: before[i] == ks[i];
      ItemsAt(fs, before, w);
      assert Items(fs, ks, w) == Items(fs, before, w) + [ItemFor(fs, ks[|ks| - 1], w)];
    }
  }

  ghost predicate IsItem(fs: seq<Finding>, k: Key, w: Weigher, item: ConsensusItem) {
    Group(fs, k) != [] && item == ItemFor(fs, k, w)
  }

  lemma ItemKey(fs: seq<Finding>, k: Key, w: Weigher)
    requires Group(fs, k) != []
    ensures ItemFor(fs, k, w).finding.DedupeKey() == k
  {
    RepFacts(Group(fs, k));
    GroupFacts(fs, k);
  }

  lemma SortMembers(xs: seq<ConsensusItem>)
    ensures |StableSort(xs)| == |xs|
    ensures forall x :: x in StableSort(xs) <==> x in xs
  {
    SortFacts(xs);
    assert |multiset(StableSort(xs))| == |multiset(xs)|;
    assert forall x :: x in StableSort(xs) <==> x in multiset(StableSort(xs));
  }

  lemma PlainMember(fs: seq<Finding>, k: Key, w: Weigher)
    requires Group(fs, k) != [] && forall i | 0 <= i < |Keys(fs)| :: Group(fs, Keys(fs)[i]) != []
    ensures ItemFor(fs, k, w) in Items(fs, Keys(fs), w)
  {
    KeysAreThose(fs);
    ItemsAt(fs, Keys(fs), w);
    var i :| 0 <= i < |Keys(fs)| && Keys(fs)[i] == k;
    assert Items(fs, Keys(fs), w)[i] == ItemFor(fs, k, w);
  }

  lemma PlainOnly(fs: seq<Finding>, w: Weigher, x: ConsensusItem)
    requires forall i | 0 <= i < |Keys(fs)| :: Group(fs, Keys(fs)[i]) != []
    requires x in Items(fs, Keys(fs), w)
    ensures IsItem(fs, x.finding.DedupeKey(), w, x)
  {
    ItemsAt(fs, Keys(fs), w);
    var i :| 0 <= i < |Items(fs, Keys(fs), w)| && Items(fs, Keys(fs), w)[i] == x;
    ItemKey(fs, Keys(fs)[i], w);
  }

  /** A result holds exactly the items of the identities that occur. */
  lemma ResultMembers(fs: seq<Finding>, w: Weigher)
    ensures var items := ConsensusBy(fs, w).items;
            && |items| == |Keys(fs)|
            && (forall k {:trigger ItemFor(fs, k, w)} | Group(fs, k) != [] :: ItemFor(fs, k, w) in items)
            && (forall x {:trigger IsItem(fs, x.finding.DedupeKey(), w, x)} | x in items ::
              IsItem(fs, x.finding.DedupeKey(), w, x))
  {
    KeysAreThose(fs);
    ItemsAt(fs, Keys(fs), w);
    SortMembers(Items(fs, Keys(fs), w));
    forall k | Group(fs, k) != [] ensures ItemFor(fs, k, w) in ConsensusBy(fs, w).items {
      PlainMember(fs, k, w);
    }
    forall x | x in ConsensusBy(fs, w).items ensures IsItem(fs, x.finding.DedupeKey(), w, x) {
      PlainOnly(fs, w, x);
    }
  }

  ghost predicate Blocks(fs: seq<Finding>, k: Key, w: Weigher) {
    Group(fs, k) != [] && IsBlocker(ItemFor(fs, k, w))
  }

  lemma BlockingIff(fs: seq<Finding>, w: Weigher)
    ensures ConsensusBy(fs, w).blocking <==> exists k :: Blocks(fs, k, w)
  {
    ResultMembers(fs, w);
    var items := ConsensusBy(fs, w).items;
    if AnyBlocker(items) {
      var i :| 0 <= i < |items| && IsBlocker(items[i]);
      assert items[i] in items;
      assert IsItem(fs, items[i].finding.DedupeKey(), w, items[i]);
      assert Blocks(fs, items[i].finding.DedupeKey(), w);
    }
    if k :| Blocks(fs, k, w) {
      var i :| 0 <= i < |items| && items[i] == ItemFor(fs, k, w);
    }
  }

  // ---- distinct identities ----

  ghost predicate DistinctKeys(xs: seq<ConsensusItem>) {
    forall i, j | 0 <= i < j < |xs| :: xs[i].finding.DedupeKey() != xs[j].finding.DedupeKey()
  }

  lemma {:induction false} InsertDistinct(x: ConsensusItem, xs: seq<ConsensusItem>)
    requires Descending(xs) && DistinctKeys(xs)
    requires forall i | 0 <= i < |xs| :: xs[i].finding.DedupeKey() != x.finding.DedupeKey()
    ensures DistinctKeys(InsertItem(x, xs))
  {
    if xs != [] && !Above(x, xs[0]) {
      InsertDistinct(x, xs[1..]);
      InsertFacts(x, xs[1..]);
      var ys := InsertItem(x, xs[1..]);
      forall j | 0 <= j < |ys| ensures ys[j].finding.DedupeKey() != xs[0].finding.DedupeKey() {
        assert ys[j] in multiset(xs[1..]) + multiset{x};
      }
    }
  }

  lemma {:induction false} SortDistinct(xs: seq<ConsensusItem>)
    requires DistinctKeys(xs)
    ensures DistinctKeys(StableSort(xs))
  {
    if xs != [] {
      var before := xs[..|xs| - 1];
      SortDistinct(before);
      SortFacts(before);
      SortMembers(before);
      forall i | 0 <= i < |before|
        ensures StableSort(before)[i].finding.DedupeKey() != xs[|xs| - 1].finding.DedupeKey()
      {
        assert StableSort(before)[i] in before;
      }
      InsertDistinct(xs[|xs| - 1], StableSort(before));
    }
  }

  lemma ResultDistinct(fs: seq<Finding>, w: Weigher)
    ensures DistinctKeys(ConsensusBy(fs, w).items)
  {
    KeysAreThose(fs);
    var ks := Keys(fs);
    ItemsAt(fs, ks, w);
    forall i | 0 <= i < |ks| ensures ItemFor(fs, ks[i], w).finding.DedupeKey() == ks[i] {
      ItemKey(fs, ks[i], w);
    }
    SortDistinct(Items(fs, ks, w));
  }

  /** The agents that reported the identity k. */
  ghost function AgentsFor(fs: seq<Finding>, k: Key): set<string> {
    set f | f in fs && f.DedupeKey() == k :: f.agent
  }

  lemma AgentsForGroup(fs: seq<Finding>, k: Key)
    ensures AgentsFor(fs, k) == Agents(Group(fs, k))
  {
    GroupFacts(fs, k);
    var g := Group(fs, k);
    assert forall f :: f in g <==> exists i :: 0 <= i < |g| && g[i] == f;
  }

  /**
   Consensus partitions its input: one item per identity that occurs, carrying a finding of the input
   that no finding of the same identity outranks, the number of agents that reported it, and the gate
   of its confidence; items sorted by severity, then confidence.
   */
  lemma ConsensusPartitions(fs: seq<Finding>, w: Weigher)
    ensures var items := ConsensusBy(fs, w).items;
            && DistinctKeys(items)
            && Descending(items)
            && (forall f | f in fs :: exists x :: x in items && x.finding.DedupeKey() == f.DedupeKey())
            && (forall x | x in items ::
                  && x.finding in fs
                  && (forall f | f in fs && f.DedupeKey() == x.finding.DedupeKey() :: !Outranks(f, x.finding))
                  && x.agreement == |AgentsFor(fs, x.finding.DedupeKey())|
                  && x.weighted == w(x.finding, x.agreement)
                  && x.gate == GateFor(x.finding.severity, x.weighted))
  {
    ResultMembers(fs, w);
    ResultDistinct(fs, w);
    KeysAreThose(fs);
    SortFacts(Items(fs, Keys(fs), w));
    var items := ConsensusBy(fs, w).items;
    forall f | f in fs ensures exists x :: x in items && x.finding.DedupeKey() == f.DedupeKey() {
      var k := f.DedupeKey();
      GroupFacts(fs, k);
      assert f in Group(fs, k);
      ItemKey(fs, k, w);
      assert ItemFor(fs, k, w) in items;
    }
    forall x | x in items
      ensures x.finding in fs && x.agreement == |AgentsFor(fs, x.finding.DedupeKey())|
      ensures forall f | f in fs && f.DedupeKey() == x.finding.DedupeKey() :: !Outranks(f, x.finding)
      ensures x.weighted == w(x.finding, x.agreement) && x.gate == GateFor(x.finding.severity, x.weighted)
    {
      var k := x.finding.DedupeKey();
      assert IsItem(fs, k, w, x);
      GroupFacts(fs, k);
      RepFacts(Group(fs, k));
      AgentsForGroup(fs, k);
    }
  }

  // ---- the order of the findings does not matter ----

  /** What the publisher sees of an item, apart from which of several equal findings stands for it. */
  datatype Summary = Summary(key: Key, severity: Severity, weighted: real, agreement: nat, gate: Gate)

  function Summarize(x: ConsensusItem): Summary {
    Summary(x.finding.DedupeKey(), x.finding.severity, x.weighted, x.agreement, x.gate)
  }

  ghost predicate Unbeaten(fs: seq<Finding>, f: Finding) {
    forall g | g in fs && g.DedupeKey() == f.DedupeKey() :: !Outranks(g, f)
  }

  /** Findings of one identity that nothing outranks come from the same kind of source. */
  ghost predicate TiesShareSource(fs: seq<Finding>) {
    forall f, g | f in fs && g in fs && f.DedupeKey() == g.DedupeKey() && Unbeaten(fs, f) && Unbeaten(fs, g) ::
      f.source == g.source
  }

  ghost predicate SameFindings(fs: seq<Finding>, gs: seq<Finding>) {
    forall f :: f in fs <==> f in gs
  }

  lemma WeighSame(r: Finding, t: Finding, n: nat, adj: Adjustments)
    requires r.DedupeKey() == t.DedupeKey() && r.source == t.source && r.confidence == t.confidence
    ensures Weigh(r, n, adj) == Weigh(t, n, adj)
  {
  }

  lemma RepUnbeaten(fs: seq<Finding>, k: Key)
    requires Group(fs, k) != []
    ensures Rep(Group(fs, k)) in fs && Rep(Group(fs, k)).DedupeKey() == k && Unbeaten(fs, Rep(Group(fs, k)))
  {
    GroupFacts(fs, k);
    RepFacts(Group(fs, k));
  }

  /** Findings of one identity that nothing outranks get the same confidence, whichever of them stands for it. */
  ghost predicate TiesWeighAlike(fs: seq<Finding>, w: Weigher) {
    forall f, g | f in fs && g in fs && f.DedupeKey() == g.DedupeKey() && Unbeaten(fs, f) && Unbeaten(fs, g) ::
      w(f, |AgentsFor(fs, f.DedupeKey())|) == w(g, |AgentsFor(fs, f.DedupeKey())|)
  }

  lemma SharedSourceWeighsAlike(fs: seq<Finding>, adj: Adjustments)
    requires TiesShareSource(fs)
    ensures TiesWeighAlike(fs, ByFeedback(adj))
  {
    forall f, g | f in fs && g in fs && f.DedupeKey() == g.DedupeKey() && Unbeaten(fs, f) && Unbeaten(fs, g)
      ensures ByFeedback(adj)(f, |AgentsFor(fs, f.DedupeKey())|) == ByFeedback(adj)(g, |AgentsFor(fs, f.DedupeKey())|)
    {
      WeighSame(f, g, |AgentsFor(fs, f.DedupeKey())|, adj);
    }
  }

  lemma SummarySame(fs: seq<Finding>, gs: seq<Finding>, k: Key, w: Weigher)
    requires SameFindings(fs, gs) && TiesWeighAlike(fs, w) && Group(fs, k) != []
    ensures Group(gs, k) != [] && Summarize(ItemFor(fs, k, w)) == Summarize(ItemFor(gs, k, w))
  {
    GroupFacts(fs, k);
    GroupFacts(gs, k);
    assert Group(fs, k)[0] in Group(fs, k);
    assert Group(fs, k)[0] in Group(gs, k);
    RepUnbeaten(fs, k);
    RepUnbeaten(gs, k);
    var r, t := Rep(Group(fs, k)), Rep(Group(gs, k));
    assert Unbeaten(fs, t);
    WeightInjective(r.severity, t.severity);
    AgentsForGroup(fs, k);
    AgentsForGroup(gs, k);
    assert AgentsFor(fs, k) == AgentsFor(gs, k);
  }

  ghost predicate Summarizes(r: ConsensusResult, s: Summary) {
    exists x :: x in r.items && Summarize(x) == s
  }

  /** The same summaries and the same verdict. */
  ghost predicate SameOutcome(a: ConsensusResult, b: ConsensusResult) {
    && (forall s :: Summarizes(a, s) <==> Summarizes(b, s))
    && a.blocking == b.blocking
  }

  lemma SummariesCarryOver(fs: seq<Finding>, gs: seq<Finding>, w: Weigher, s: Summary)
    requires SameFindings(fs, gs) && TiesWeighAlike(fs, w) && Summarizes(ConsensusBy(fs, w), s)
    ensures Summarizes(ConsensusBy(gs, w), s)
  {
    ResultMembers(fs, w);
    ResultMembers(gs, w);
    var x :| x in ConsensusBy(fs, w).items && Summarize(x) == s;
    var k := x.finding.DedupeKey();
    assert IsItem(fs, k, w, x);
    SummarySame(fs, gs, k, w);
    assert ItemFor(gs, k, w) in ConsensusBy(gs, w).items;
  }

  lemma TiesCarryOver(fs: seq<Finding>, gs: seq<Finding>, w: Weigher)
    requires SameFindings(fs, gs) && TiesWeighAlike(fs, w)
    ensures TiesWeighAlike(gs, w)
  {
    forall f, g | f in gs && g in gs && f.DedupeKey() == g.DedupeKey() && Unbeaten(gs, f) && Unbeaten(gs, g)
      ensures w(f, |AgentsFor(gs, f.DedupeKey())|) == w(g, |AgentsFor(gs, f.DedupeKey())|)
    {
      assert Unbeaten(fs, f) && Unbeaten(fs, g);
      assert AgentsFor(fs, f.DedupeKey()) == AgentsFor(gs, f.DedupeKey());
    }
  }

  lemma BlockingCarriesOver(fs: seq<Finding>, gs: seq<Finding>, w: Weigher)
    requires SameFindings(fs, gs) && TiesWeighAlike(fs, w) && ConsensusBy(fs, w).blocking
    ensures ConsensusBy(gs, w).blocking
  {
    BlockingIff(fs, w);
    BlockingIff(gs, w);
    var k :| Blocks(fs, k, w);
    SummarySame(fs, gs, k, w);
    assert Blocks(gs, k, w);
  }

  lemma AlikeInAnyOrder(fs: seq<Finding>, gs: seq<Finding>, w: Weigher)
    requires SameFindings(fs, gs) && TiesWeighAlike(fs, w)
    ensures SameOutcome(ConsensusBy(fs, w), ConsensusBy(gs, w))
  {
    TiesCarryOver(fs, gs, w);
    forall s ensures Summarizes(ConsensusBy(fs, w), s) <==> Summarizes(ConsensusBy(gs, w), s) {
      if Summarizes(ConsensusBy(fs, w), s) { SummariesCarryOver(fs, gs, w, s); }
      if Summarizes(ConsensusBy(gs, w), s) { SummariesCarryOver(gs, fs, w, s); }
    }
    if ConsensusBy(fs, w).blocking { BlockingCarriesOver(fs, gs, w); }
    if ConsensusBy(gs, w).blocking { BlockingCarriesOver(gs, fs, w); }
  }

  /** The same findings with finding i reported first. */
  function Leading(fs: seq<Finding>, i: nat): (gs: seq<Finding>)
    requires i < |fs|
    ensures multiset(gs) == multiset(fs)
  {
    assert fs == fs[..i] + [fs[i]] + fs[i + 1..];
    [fs[i]] + (fs[..i] + fs[i + 1..])
  }

  lemma PermutationSame(fs: seq<Finding>, gs: seq<Finding>)
    requires multiset(fs) == multiset(gs)
    ensures SameFindings(fs, gs)
  {
    forall f ensures f in fs <==> f in gs {
      assert f in fs <==> f in multiset(fs);
      assert f in gs <==> f in multiset(gs);
    }
  }

  /** An unbeaten finding that is reported first stands for its identity. */
  lemma LeaderRepresents(fs: seq<Finding>, i: nat, w: Weigher)
    requires i < |fs| && Unbeaten(fs, fs[i])
    ensures var gs, k := Leading(fs, i), fs[i].DedupeKey();
            && Group(gs, k) != [] && Rep(Group(gs, k)) == fs[i]
            && Summarizes(ConsensusBy(gs, w), Summarize(ItemFor(gs, k, w)))
  {
    var gs, k := Leading(fs, i), fs[i].DedupeKey();
    var rest := fs[..i] + fs[i + 1..];
    PermutationSame(fs, gs);
    GroupConcat([fs[i]], rest, k);
    assert Group([fs[i]], k) == [fs[i]];
    var others := Group(rest, k);
    GroupFacts(rest, k);
    forall j | 0 <= j < |others| ensures !Outranks(others[j], fs[i]) {
      assert others[j] in others;
      assert others[j] in gs;
    }
    RepAppend([fs[i]], others);
    ResultMembers(gs, w);
  }

  /** One identity has one summary. */
  lemma SummaryOfKey(gs: seq<Finding>, k: Key, w: Weigher, s: Summary)
    requires Summarizes(ConsensusBy(gs, w), s) && s.key == k
    ensures Group(gs, k) != [] && s == Summarize(ItemFor(gs, k, w))
  {
    ResultMembers(gs, w);
    var x :| x in ConsensusBy(gs, w).items && Summarize(x) == s;
    assert IsItem(gs, x.finding.DedupeKey(), w, x);
  }

  lemma SummaryWeight(gs: seq<Finding>, k: Key, w: Weigher)
    requires Group(gs, k) != []
    ensures Summarize(ItemFor(gs, k, w)).key == k
    ensures Summarize(ItemFor(gs, k, w)).weighted == w(Rep(Group(gs, k)), |AgentsFor(gs, k)|)
  {
    ItemKey(gs, k, w);
    AgentsForGroup(gs, k);
  }

  /** Tied findings of different weight: which one is reported first shows in the outcome. */
  lemma LeaderShows(fs: seq<Finding>, i: nat, j: nat, w: Weigher)
    requires i < |fs| && j < |fs| && Unbeaten(fs, fs[i]) && Unbeaten(fs, fs[j]) &&
             fs[i].DedupeKey() == fs[j].DedupeKey()
    requires w(fs[i], |AgentsFor(fs, fs[i].DedupeKey())|) != w(fs[j], |AgentsFor(fs, fs[i].DedupeKey())|)
    ensures !SameOutcome(ConsensusBy(Leading(fs, i), w), ConsensusBy(Leading(fs, j), w))
  {
    var gs, hs, k := Leading(fs, i), Leading(fs, j), fs[i].DedupeKey();
    PermutationSame(fs, gs);
    PermutationSame(fs, hs);
    assert AgentsFor(gs, k) == AgentsFor(fs, k) == AgentsFor(hs, k);
    LeaderRepresents(fs, i, w);
    LeaderRepresents(fs, j, w);
    SummaryWeight(gs, k, w);
    SummaryWeight(hs, k, w);
    var s := Summarize(ItemFor(gs, k, w));
    if Summarizes(ConsensusBy(hs, w), s) { SummaryOfKey(hs, k, w, s); }
  }

  /**
   Agent scheduling shows in the outcome exactly when an identity has equally ranked findings that
   weigh differently; the outcome is the set of (identity, severity, confidence, agreement, gate)
   and the verdict.
   */
  lemma OrderMattersIff(fs: seq<Finding>, w: Weigher)
    ensures (forall gs | multiset(gs) == multiset(fs) :: SameOutcome(ConsensusBy(fs, w), ConsensusBy(gs, w)))
            <==> TiesWeighAlike(fs, w)
  {
    if TiesWeighAlike(fs, w) {
      forall gs | multiset(gs) == multiset(fs) ensures SameOutcome(ConsensusBy(fs, w), ConsensusBy(gs, w)) {
        PermutationSame(fs, gs);
        AlikeInAnyOrder(fs, gs, w);
      }
    } else {
      var f, g :| f in fs && g in fs && f.DedupeKey() == g.DedupeKey() && Unbeaten(fs, f) && Unbeaten(fs, g) &&
                  w(f, |AgentsFor(fs, f.DedupeKey())|) != w(g, |AgentsFor(fs, f.DedupeKey())|);
      var i :| 0 <= i < |fs| && fs[i] == f;
      var j :| 0 <= j < |fs| && fs[j] == g;
      LeaderShows(fs, i, j, w);
      var gs, hs := Leading(fs, i), Leading(fs, j);
      assert !(SameOutcome(ConsensusBy(fs, w), ConsensusBy(gs, w)) &&
             SameOutcome(ConsensusBy(fs, w), ConsensusBy(hs, w)));
    }
  }

  const SCANNED := Finding("a", Architecture, "c", High, 0.9, "t", None, None, Deterministic)
  const CLAIMED := Finding("b", Architecture, "c", High, 0.9, "t", None, None, Llm)

  lemma TwoAgents(fs: seq<Finding>, k: Key)
    requires fs == [SCANNED, CLAIMED] && k == SCANNED.DedupeKey()
    ensures |AgentsFor(fs, k)| == 2
  {
    assert fs[0] == SCANNED && fs[1] == CLAIMED && CLAIMED.DedupeKey() == k;
    assert SCANNED.agent[0] != CLAIMED.agent[0];
    assert AgentsFor(fs, k) == {SCANNED.agent, CLAIMED.agent};
  }

  lemma BothUnbeaten(fs: seq<Finding>)
    requires fs == [SCANNED, CLAIMED]
    ensures Unbeaten(fs, SCANNED) && Unbeaten(fs, CLAIMED) && SCANNED.DedupeKey() == CLAIMED.DedupeKey()
  {
    assert forall f | f in fs :: f == SCANNED || f == CLAIMED;
  }

  lemma EitherFirst(fs: seq<Finding>)
    requires fs == [SCANNED, CLAIMED]
    ensures Leading(fs, 0) == [SCANNED, CLAIMED] && Leading(fs, 1) == [CLAIMED, SCANNED]
  {
  }

  /** A scanner and the model report the same with the same confidence: who comes first decides the confidence shown. */
  lemma OrderShows(fs: seq<Finding>)
    requires fs == [SCANNED, CLAIMED]
    ensures !SameOutcome(ConsensusOf([SCANNED, CLAIMED], map[]), ConsensusOf([CLAIMED, SCANNED], map[]))
  {
    EitherFirst(fs);
    TwoAgents(fs, SCANNED.DedupeKey());
    BothUnbeaten(fs);
    TiedWeights();
    LeaderShows(fs, 0, 1, ByFeedback(map[]));
  }

  lemma TiedWeights()
    ensures Weigh(SCANNED, 2, map[]) != Weigh(CLAIMED, 2, map[])
  {
    ArchitectureWeights();
    assert Base(SCANNED) == 0.9 && Base(CLAIMED) == 0.765;
    assert Boost(2) == 1.05;
  }

  /** In particular order and repetition do not matter when equally ranked findings of an identity share a source. */
  lemma OrderDoesNotMatter(fs: seq<Finding>, gs: seq<Finding>, adj: Adjustments)
    requires SameFindings(fs, gs) && TiesShareSource(fs)
    ensures SameOutcome(ConsensusOf(fs, adj), ConsensusOf(gs, adj))
  {
    SharedSourceWeighsAlike(fs, adj);
    AlikeInAnyOrder(fs, gs, ByFeedback(adj));
  }

  // ---- reporting everything twice changes nothing at all ----

  lemma {:induction false} KeysKnown(fs: seq<Finding>, gs: seq<Finding>)
    requires forall g | g in gs :: g in fs
    ensures Keys(fs + gs) == Keys(fs)
  {
    if gs == [] {
      assert fs + gs == fs;
    } else {
      assert (fs + gs)[..|fs + gs| - 1] == fs + gs[..|gs| - 1];
      KeysKnown(fs, gs[..|gs| - 1]);
      var k := gs[|gs| - 1].DedupeKey();
      GroupFacts(fs, k);
      KeysAreThose(fs);
      assert gs[|gs| - 1] in Group(fs, k);
    }
  }

  lemma ItemRepeated(fs: seq<Finding>, k: Key, w: Weigher)
    requires Group(fs, k) != []
    ensures Group(fs + fs, k) != [] && ItemFor(fs + fs, k, w) == ItemFor(fs, k, w)
  {
    var g := Group(fs, k);
    GroupConcat(fs, fs, k);
    RepFacts(g);
    RepAppend(g, g);
    AgentsConcat(g, g);
    assert Agents(g) + Agents(g) == Agents(g);
  }

  lemma {:induction false} ItemsRepeated(fs: seq<Finding>, ks: seq<Key>, w: Weigher)
    requires forall i | 0 <= i < |ks| :: Group(fs, ks[i]) != []
    ensures forall i | 0 <= i < |ks| :: Group(fs + fs, ks[i]) != []
    ensures Items(fs + fs, ks, w) == Items(fs, ks, w)
  {
    forall i | 0 <= i < |ks| ensures Group(fs + fs, ks[i]) != [] {
      ItemRepeated(fs, ks[i], w);
    }
    if ks != [] {
      ItemsRepeated(fs, ks[..|ks| - 1], w);
      ItemRepeated(fs, ks[|ks| - 1], w);
    }
  }

  lemma RepeatingChangesNothing(fs: seq<Finding>, adj: Adjustments)
    ensures ConsensusOf(fs + fs, adj) == ConsensusOf(fs, adj)
  {
    KeysKnown(fs, fs);
    KeysAreThose(fs);
    KeysAreThose(fs + fs);
    ItemsRepeated(fs, Keys(fs), ByFeedback(adj));
  }

  // ---- more findings ----

  /** More agents never lower the confidence of a finding of fs. */
  ghost predicate RewardsAgreement(fs: seq<Finding>, w: Weigher) {
    forall f, m: nat, n: nat | f in fs && 1 <= m <= n :: w(f, m) <= w(f, n)
  }

  /** Appended findings: severity and agreement of an identity never fall, and an unbeaten one keeps its finding. */
  lemma GrowthOfItem(fs: seq<Finding>, gs: seq<Finding>, k: Key, w: Weigher)
    requires RewardsAgreement(fs, w) && Group(fs, k) != []
    ensures Group(fs + gs, k) != []
    ensures var x, y := ItemFor(fs, k, w), ItemFor(fs + gs, k, w);
            && x.finding.severity.Weight() <= y.finding.severity.Weight()
            && x.agreement <= y.agreement
            && (Group(gs, k) == [] ==> y == x)
            && ((forall g | g in gs && g.DedupeKey() == k :: !Outranks(g, x.finding)) ==>
                  y.finding == x.finding && x.weighted <= y.weighted && (x.gate == Post ==> y.gate == Post))
  {
    var g, h := Group(fs, k), Group(gs, k);
    GroupConcat(fs, gs, k);
    GroupFacts(gs, k);
    RepAppend(g, h);
    AgentsConcat(g, h);
    SubsetSize(Agents(g), Agents(g + h));
    if h == [] { assert g + h == g; }
    if forall f | f in gs && f.DedupeKey() == k :: !Outranks(f, Rep(g)) {
      assert forall i | 0 <= i < |h| :: h[i] in h;
      RepUnbeaten(fs, k);
      assert g[0].agent in Agents(g);
      assert w(Rep(g), |Agents(g)|) <= w(Rep(g), |Agents(g + h)|);
    }
  }

  /** Findings in range and non-negative multipliers. */
  ghost predicate Sane(fs: seq<Finding>, adj: Adjustments) {
    && (forall f | f in fs :: f.Valid())
    && (forall c | c in adj :: adj[c] >= 0.0)
  }

  lemma MulMono(a: real, b: real, c: real)
    requires a >= 0.0 && b <= c
    ensures a * b <= a * c
  {
  }

  lemma {:induction false} LookupNonNegative<K>(table: seq<(K, real)>, key: K, default: real)
    requires default >= 0.0 && forall i | 0 <= i < |table| :: table[i].1 >= 0.0
    ensures Lookup(table, key, default) >= 0.0
  {
    if table != [] { LookupNonNegative(table[1..], key, default); }
  }

  lemma BaseNonNegative(rep: Finding)
    requires rep.Valid()
    ensures Base(rep) >= 0.0
  {
    LookupNonNegative(DIMENSION_WEIGHT, rep.dimension, 1.0);
    LookupNonNegative(SOURCE_MULTIPLIER, rep.source, 0.85);
    MulMono(rep.confidence, 0.0, DimensionWeight(rep.dimension));
    MulMono(rep.confidence * DimensionWeight(rep.dimension), 0.0, SourceMultiplier(rep.source));
  }

  lemma WeightedRises(b: real, m: nat, n: nat, f: real)
    requires b >= 0.0 && m <= n && f >= 0.0
    ensures Weighted(b, m, f) <= Weighted(b, n, f)
  {
    MulMono(b, Boost(m), Boost(n));
    MulMono(f, b * Boost(m), b * Boost(n));
  }

  lemma AgreementRaises(rep: Finding, m: nat, n: nat, adj: Adjustments)
    requires rep.Valid() && m <= n && Multiplier(adj, rep.category) >= 0.0
    ensures Weigh(rep, m, adj) <= Weigh(rep, n, adj)
  {
    BaseNonNegative(rep);
    WeightedRises(Base(rep), m, n, Multiplier(adj, rep.category));
  }

  lemma FeedbackRewardsAgreement(fs: seq<Finding>, adj: Adjustments)
    requires Sane(fs, adj)
    ensures RewardsAgreement(fs, ByFeedback(adj))
  {
    forall f, m: nat, n: nat | f in fs && 1 <= m <= n ensures ByFeedback(adj)(f, m) <= ByFeedback(adj)(f, n) {
      AgreementRaises(f, m, n, adj);
    }
  }

  /** A blocking verdict survives further findings that outrank no representative. */
  lemma GrowthKeepsBlocking(fs: seq<Finding>, gs: seq<Finding>, adj: Adjustments)
    requires Sane(fs, adj) && ConsensusOf(fs, adj).blocking
    requires forall g, k | g in gs && Group(fs, k) != [] && g.DedupeKey() == k :: !Outranks(g, Rep(Group(fs, k)))
    ensures ConsensusOf(fs + gs, adj).blocking
  {
    FeedbackRewardsAgreement(fs, adj);
    GrowthKeepsBlockingBy(fs, gs, ByFeedback(adj));
  }

  lemma GrowthKeepsBlockingBy(fs: seq<Finding>, gs: seq<Finding>, w: Weigher)
    requires RewardsAgreement(fs, w) && ConsensusBy(fs, w).blocking
    requires forall g, k | g in gs && Group(fs, k) != [] && g.DedupeKey() == k :: !Outranks(g, Rep(Group(fs, k)))
    ensures ConsensusBy(fs + gs, w).blocking
  {
    BlockingIff(fs, w);
    BlockingIff(fs + gs, w);
    var k :| Blocks(fs, k, w);
    GrowthOfItem(fs, gs, k, w);
    WeightInjective(High, ItemFor(fs + gs, k, w).finding.severity);
    assert Blocks(fs + gs, k, w);
  }

  /** Every blocking identity of fs is k. */
  ghost predicate OnlyBlocker(fs: seq<Finding>, k: Key, w: Weigher) {
    forall l {:trigger Blocks(fs, l, w)} | Blocks(fs, l, w) :: l == k
  }

  lemma OthersBlockAsBefore(fs: seq<Finding>, g: Finding, l: Key, w: Weigher)
    requires l != g.DedupeKey()
    ensures Blocks(fs + [g], l, w) <==> Blocks(fs, l, w)
  {
    assert (fs + [g])[..|fs|] == fs;
    assert Group(fs + [g], l) == Group(fs, l);
  }

  lemma GraverLeads(fs: seq<Finding>, g: Finding, w: Weigher)
    requires var k := g.DedupeKey(); Group(fs, k) != [] && Outranks(g, Rep(Group(fs, k)))
    ensures var k := g.DedupeKey();
            Group(fs + [g], k) != [] &&
            var x := ItemFor(fs + [g], k, w);
            x.finding == g && x.weighted == w(g, |AgentsFor(fs + [g], k)|) && x.gate == GateFor(g.severity, x.weighted)
  {
    var k := g.DedupeKey();
    assert (fs + [g])[..|fs|] == fs;
    assert (Group(fs, k) + [g])[..|Group(fs, k)|] == Group(fs, k);
    AgentsForGroup(fs + [g], k);
  }

  lemma GraverIsGrave(g: Finding, r: Finding)
    requires Outranks(g, r) && HighImpact(r.severity)
    ensures HighImpact(g.severity)
  {
  }

  lemma GraveGate(x: ConsensusItem)
    requires x.gate == GateFor(x.finding.severity, x.weighted) && HighImpact(x.finding.severity)
    ensures IsBlocker(x) <==> x.weighted >= HIGH_IMPACT_THRESHOLD
  {
  }

  /** A graver finding of a blocking identity decides whether it goes on blocking. */
  lemma GraverDecides(fs: seq<Finding>, g: Finding, w: Weigher)
    requires Blocks(fs, g.DedupeKey(), w) && Outranks(g, Rep(Group(fs, g.DedupeKey())))
    ensures Blocks(fs + [g], g.DedupeKey(), w) <==> w(g, |AgentsFor(fs + [g], g.DedupeKey())|) >= HIGH_IMPACT_THRESHOLD
  {
    var k := g.DedupeKey();
    GraverLeads(fs, g, w);
    GraverIsGrave(g, Rep(Group(fs, k)));
    GraveGate(ItemFor(fs + [g], k, w));
  }

  lemma OthersKeepBlocking(fs: seq<Finding>, g: Finding, w: Weigher)
    requires RewardsAgreement(fs, w)
    requires Blocks(fs, g.DedupeKey(), w) && !Outranks(g, Rep(Group(fs, g.DedupeKey())))
    ensures Blocks(fs + [g], g.DedupeKey(), w)
  {
    assert forall x | x in [g] :: x == g;
    GrowthOfItem(fs, [g], g.DedupeKey(), w);
  }

  /**
   One more finding lifts a blocking verdict exactly when it outranks the representative of the only
   blocking identity and is itself too doubtful to block.
   */
  lemma LateFindingUnblocksIff(fs: seq<Finding>, g: Finding, w: Weigher)
    requires RewardsAgreement(fs, w) && ConsensusBy(fs, w).blocking
    ensures var k := g.DedupeKey();
            !ConsensusBy(fs + [g], w).blocking <==>
            && OnlyBlocker(fs, k, w)
            && Group(fs, k) != [] && Outranks(g, Rep(Group(fs, k)))
            && w(g, |AgentsFor(fs + [g], k)|) < HIGH_IMPACT_THRESHOLD
  {
    var k := g.DedupeKey();
    BlockingIff(fs, w);
    BlockingIff(fs + [g], w);
    var b :| Blocks(fs, b, w);
    forall l | l != k ensures Blocks(fs + [g], l, w) <==> Blocks(fs, l, w) {
      OthersBlockAsBefore(fs, g, l, w);
    }
    if Blocks(fs, k, w) {
      if Outranks(g, Rep(Group(fs, k))) { GraverDecides(fs, g, w); } else { OthersKeepBlocking(fs, g, w); }
    }
  }

  const SURE := Finding("a", Architecture, "c", High, 0.9, "t", None, None, Deterministic)
  const DOUBTFUL := Finding("b", Architecture, "c", Critical, 0.1, "t", None, None, Llm)

  lemma OnlyIdentity(fs: seq<Finding>, k: Key, j: Key)
    requires Group(fs, k) == fs && Group(fs, j) != []
    ensures j == k
  {
    GroupFacts(fs, j);
    GroupFacts(fs, k);
    assert Group(fs, j)[0] in Group(fs, j);
  }

  lemma OnlyGroup(fs: seq<Finding>, k: Key, w: Weigher)
    requires fs != [] && forall f | f in fs :: f.DedupeKey() == k
    ensures Group(fs, k) == fs
    ensures ConsensusBy(fs, w).blocking <==> IsBlocker(MakeItem(fs, w))
  {
    AllInGroup(fs, k);
    BlockingIff(fs, w);
    forall j ensures Blocks(fs, j, w) ==> j == k {
      if Blocks(fs, j, w) { OnlyIdentity(fs, k, j); }
    }
    assert Blocks(fs, k, w) <==> IsBlocker(MakeItem(fs, w));
  }

  lemma {:induction false} AllInGroup(fs: seq<Finding>, k: Key)
    requires forall f | f in fs :: f.DedupeKey() == k
    ensures Group(fs, k) == fs
  {
    if fs != [] {
      assert fs == fs[..|fs| - 1] + [fs[|fs| - 1]];
      AllInGroup(fs[..|fs| - 1], k);
    }
  }

  lemma ArchitectureWeights()
    ensures DimensionWeight(Architecture) == 1.0 && SourceMultiplier(Deterministic) == 1.0 &&
            SourceMultiplier(Llm) == 0.85
  {
    assert DIMENSION_WEIGHT[1..][1..][0] == (Architecture, 1.00);
    assert Lookup(DIMENSION_WEIGHT[1..][1..], Architecture, 1.0) == 1.0;
    assert SOURCE_MULTIPLIER[1..][1..][0] == (Llm, 0.85);
    assert Lookup(SOURCE_MULTIPLIER[1..][1..], Llm, 0.85) == 0.85;
  }

  lemma SureAndDoubtful()
    ensures IsBlocker(MakeItem([SURE], ByFeedback(map[])))
    ensures !IsBlocker(MakeItem([SURE, DOUBTFUL], ByFeedback(map[])))
  {
    assert Agents([SURE]) == {"a"} by { assert [SURE][0] == SURE; }
    assert Agents([SURE, DOUBTFUL]) == {"a", "b"} by {
      assert [SURE, DOUBTFUL][0].agent == "a" && [SURE, DOUBTFUL][1].agent == "b";
    }
    ArchitectureWeights();
    assert Weigh(SURE, 1, map[]) == 0.9;
    assert [SURE, DOUBTFUL][..1] == [SURE];
    assert Rep([SURE, DOUBTFUL]) == DOUBTFUL;
    assert "a" != "b";
    assert |{"a", "b"}| == 2;
    assert Weigh(DOUBTFUL, 2, map[]) < 0.5;
  }

  /** Without that condition it may not: a graver but doubtful report of the same issue lifts the block. */
  lemma GraverReportCanUnblock()
    ensures ConsensusOf([SURE], map[]).blocking && !ConsensusOf([SURE] + [DOUBTFUL], map[]).blocking
  {
    var k := SURE.DedupeKey();
    assert DOUBTFUL.DedupeKey() == k;
    OnlyGroup([SURE], k, ByFeedback(map[]));
    OnlyGroup([SURE, DOUBTFUL], k, ByFeedback(map[]));
    assert [SURE] + [DOUBTFUL] == [SURE, DOUBTFUL];
    SureAndDoubtful();
  }

  // ---- feedback ----

  /** Every learned multiplier lies between lo and one. */
  ghost predicate Damping(adj: Adjustments, lo: real) {
    0.0 <= lo <= 1.0 && forall c | c in adj :: lo <= adj[c] <= 1.0
  }

  predicate AtLeastAsVisible(a: Gate, b: Gate) {
    a == Post || b == Suppress || (a == Collapse && b == Collapse)
  }

  function Scaled(factor: real, x: real): real {
    factor * x
  }

  lemma ScaledDown(x: real, m: real, lo: real)
    requires x >= 0.0 && 0.0 <= lo <= m <= 1.0
    ensures lo * x <= x * m <= x && (x >= 1.0 ==> m <= x * m)
  {
    MulMono(x, m, 1.0);
    MulMono(x, lo, m);
    if x >= 1.0 { MulMono(m, 1.0, x); }
  }

  /** The linear part of the next lemma: y stands for x * m and z for lo * x. */
  lemma DampLinear(x: real, y: real, z: real, m: real, lo: real)
    requires z <= y <= x && lo <= m <= 1.0 && (x >= 1.0 ==> m <= y)
    ensures (if x < 1.0 then z else lo) <= AtMostOne(y) <= AtMostOne(x)
  {
  }

  lemma ProductNonNegative(a: real, b: real)
    requires a >= 0.0 && b >= 0.0
    ensures a * b >= 0.0
  {
  }

  /** x is the undamped product, y the damped one and z its lower bound. */
  lemma FallsFrom(b: real, n: nat, m: real, lo: real, x: real, y: real, z: real)
    requires x == b * Boost(n) && y == x * m && z == lo * x && 0.0 <= lo <= m <= 1.0
    requires z <= y <= x && (x >= 1.0 ==> m <= y)
    ensures Scaled(lo, Weighted(b, n, 1.0)) <= Weighted(b, n, m) <= Weighted(b, n, 1.0)
  {
    DampLinear(x, y, z, m, lo);
    assert Weighted(b, n, m) == AtMostOne(y);
    assert x * 1.0 == x && Weighted(b, n, 1.0) == AtMostOne(x);
    assert Scaled(lo, AtMostOne(x)) == if x < 1.0 then z else lo;
  }

  lemma WeightedFalls(b: real, n: nat, m: real, lo: real)
    requires b >= 0.0 && n >= 1 && 0.0 <= lo <= m <= 1.0
    ensures Scaled(lo, Weighted(b, n, 1.0)) <= Weighted(b, n, m) <= Weighted(b, n, 1.0)
  {
    ProductNonNegative(b, Boost(n));
    var x := b * Boost(n);
    ScaledDown(x, m, lo);
    FallsFrom(b, n, m, lo, x, x * m, lo * x);
  }

  lemma DampedWeight(rep: Finding, n: nat, adj: Adjustments, lo: real)
    requires rep.Valid() && n >= 1 && Damping(adj, lo)
    ensures Scaled(lo, Weigh(rep, n, map[])) <= Weigh(rep, n, adj) <= Weigh(rep, n, map[])
  {
    BaseNonNegative(rep);
    WeightedFalls(Base(rep), n, Multiplier(adj, rep.category), lo);
  }

  /** w gives every finding of fs between lo times and once what w0 gives it. */
  ghost predicate Damps(fs: seq<Finding>, w0: Weigher, w: Weigher, lo: real) {
    forall f, n: nat | f in fs && n >= 1 :: Scaled(lo, w0(f, n)) <= w(f, n) <= w0(f, n)
  }

  lemma FeedbackDamps(fs: seq<Finding>, adj: Adjustments, lo: real)
    requires Sane(fs, adj) && Damping(adj, lo)
    ensures Damps(fs, ByFeedback(map[]), ByFeedback(adj), lo)
  {
    forall f, n: nat | f in fs && n >= 1
      ensures Scaled(lo, ByFeedback(map[])(f, n)) <= ByFeedback(adj)(f, n) <= ByFeedback(map[])(f, n)
    {
      DampedWeight(f, n, adj, lo);
    }
  }

  lemma GateFalls(s: Severity, v: real, v0: real)
    requires v <= v0
    ensures AtLeastAsVisible(GateFor(s, v0), GateFor(s, v))
  {
  }

  /**
   Damping keeps findings and agreement, scales confidence down to lo at most, and never makes an item more
   visible.
   */
  lemma DampedItem(fs: seq<Finding>, k: Key, w0: Weigher, w: Weigher, lo: real)
    requires Damps(fs, w0, w, lo) && Group(fs, k) != []
    ensures var x, y := ItemFor(fs, k, w0), ItemFor(fs, k, w);
            && y.finding == x.finding && y.agreement == x.agreement
            && Scaled(lo, x.weighted) <= y.weighted <= x.weighted
            && AtLeastAsVisible(x.gate, y.gate)
  {
    var g := Group(fs, k);
    RepUnbeaten(fs, k);
    assert g[0].agent in Agents(g);
    GateFalls(Rep(g).severity, w(Rep(g), |Agents(g)|), w0(Rep(g), |Agents(g)|));
  }

  lemma DampedVerdict(fs: seq<Finding>, w0: Weigher, w: Weigher, lo: real)
    requires Damps(fs, w0, w, lo) && ConsensusBy(fs, w).blocking
    ensures ConsensusBy(fs, w0).blocking
  {
    BlockingIff(fs, w0);
    BlockingIff(fs, w);
    var k :| Blocks(fs, k, w);
    DampedItem(fs, k, w0, w, lo);
    assert Blocks(fs, k, w0);
  }

  /**
   Feedback keeps every item's finding and agreement, scales its confidence by a factor between lo
   and one, and never makes it more visible.
   */
  lemma FeedbackOnlyDamps(fs: seq<Finding>, adj: Adjustments, lo: real, k: Key)
    requires Sane(fs, adj) && Damping(adj, lo) && Group(fs, k) != []
    ensures var x, y := ItemFor(fs, k, ByFeedback(map[])), ItemFor(fs, k, ByFeedback(adj));
            && y.finding == x.finding && y.agreement == x.agreement
            && Scaled(lo, x.weighted) <= y.weighted <= x.weighted
            && AtLeastAsVisible(x.gate, y.gate)
  {
    FeedbackDamps(fs, adj, lo);
    DampedItem(fs, k, ByFeedback(map[]), ByFeedback(adj), lo);
  }

  /** Feedback can lift a block but never create one. */
  lemma FeedbackNeverBlocks(fs: seq<Finding>, adj: Adjustments, lo: real)
    requires Sane(fs, adj) && Damping(adj, lo) && ConsensusOf(fs, adj).blocking
    ensures ConsensusOf(fs, map[]).blocking
  {
    FeedbackDamps(fs, adj, lo);
    DampedVerdict(fs, ByFeedback(map[]), ByFeedback(adj), lo);
  }
}
