/** The consensus engine: group by identity, pick a representative, weigh, gate and sort. */
module Consensus {
  import opened Findings

  datatype Gate = Post | Collapse | Suppress

  datatype ConsensusItem = ConsensusItem(finding: Finding, weighted: real, agreement: nat, gate: Gate)

  datatype ConsensusResult = ConsensusResult(items: seq<ConsensusItem>, blocking: bool) {
    function Posted(): seq<ConsensusItem> {
      PostedOf(items)
    }
  }

  function PostedOf(items: seq<ConsensusItem>): (posted: seq<ConsensusItem>)
    ensures posted == [] <==> forall i | 0 <= i < |items| :: items[i].gate != Post
    ensures forall x :: multiset(posted)[x] == if x.gate == Post then multiset(items)[x] else 0
  {
    if items == [] then []
    else
      assert items == items[..|items| - 1] + [items[|items| - 1]];
      var rest := PostedOf(items[..|items| - 1]);
      if items[|items| - 1].gate == Post then rest + [items[|items| - 1]] else rest
  }

  /** Per-category confidence multipliers; absent categories count fully. */
  type Adjustments = map<string, real>

  const POST_THRESHOLD := 0.75
  const COLLAPSE_THRESHOLD := 0.40
  const HIGH_IMPACT_THRESHOLD := 0.50

  const DIMENSION_WEIGHT: seq<(Dimension, real)> := [
    (Security, 1.30), (Correctness, 1.20), (Architecture, 1.00), (Devops, 1.00),
    (Performance, 0.90), (Testing, 0.90), (Accessibility, 0.80), (Documentation, 0.70)]

  const SOURCE_MULTIPLIER: seq<(Source, real)> := [(Deterministic, 1.00), (Hybrid, 0.95), (Llm, 0.85)]

  /** `table.get(key, default)` */
  function Lookup<K(==)>(table: seq<(K, real)>, key: K, default: real): real {
    if table == [] then default else if table[0].0 == key then table[0].1 else Lookup(table[1..], key, default)
  }

  function DimensionWeight(d: Dimension): real {
    Lookup(DIMENSION_WEIGHT, d, 1.0)
  }

  function SourceMultiplier(s: Source): real {
    Lookup(SOURCE_MULTIPLIER, s, 0.85)
  }

  predicate HighImpact(s: Severity) {
    s == Critical || s == High
  }

  function GateFor(s: Severity, weighted: real): Gate {
    if HighImpact(s) && weighted >= HIGH_IMPACT_THRESHOLD then Post
    else if weighted >= POST_THRESHOLD then Post
    else if weighted >= COLLAPSE_THRESHOLD then Collapse
    else Suppress
  }

  function Multiplier(adjustments: Adjustments, category: string): real {
    if category in adjustments then adjustments[category] else 1.0
  }

  function Boost(agreement: nat): real {
    1.0 + 0.05 * (agreement as real - 1.0)
  }

  function AtMostOne(x: real): real {
    if x < 1.0 then x else 1.0
  }

  /** The confidence before agreement and feedback are counted. */
  function Base(rep: Finding): real {
    rep.confidence * DimensionWeight(rep.dimension) * SourceMultiplier(rep.source)
  }

  function Weighted(base: real, agreement: nat, multiplier: real): real {
    AtMostOne(base * Boost(agreement) * multiplier)
  }

  function Weigh(rep: Finding, agreement: nat, adjustments: Adjustments): real {
    Weighted(Base(rep), agreement, Multiplier(adjustments, rep.category))
  }

  /** Confidence of a representative reported by a number of agents. */
  type Weigher = (Finding, nat) -> real

  function ByFeedback(adjustments: Adjustments): Weigher {
    (rep: Finding, agreement: nat) => Weigh(rep, agreement, adjustments)
  }

  // ---- grouping ----

  /** The distinct identities, in order of first appearance. */
  function Keys(fs: seq<Finding>): seq<Key> {
    if fs == [] then []
    else
      var ks := Keys(fs[..|fs| - 1]);
      var k := fs[|fs| - 1].DedupeKey();
      if k in ks then ks else ks + [k]
  }

  function Group(fs: seq<Finding>, k: Key): seq<Finding> {
    if fs == [] then []
    else Group(fs[..|fs| - 1], k) + (if fs[|fs| - 1].DedupeKey() == k then [fs[|fs| - 1]] else [])
  }

  /** The first finding that nothing outranks. */
  function Rep(group: seq<Finding>): Finding
    requires group != []
  {
    if |group| == 1 then group[0]
    else
      var r := Rep(group[..|group| - 1]);
      if Outranks(group[|group| - 1], r) then group[|group| - 1] else r
  }

  function Agents(group: seq<Finding>): set<string> {
    set i | 0 <= i < |group| :: group[i].agent
  }

  function MakeItem(group: seq<Finding>, weigh: Weigher): ConsensusItem
    requires group != []
  {
    var rep := Rep(group);
    var w := weigh(rep, |Agents(group)|);
    ConsensusItem(rep, w, |Agents(group)|, GateFor(rep.severity, w))
  }

  lemma {:induction false} KeysAreThose(fs: seq<Finding>)
    ensures forall k :: k in Keys(fs) <==> Group(fs, k) != []
    ensures forall i, j | 0 <= i < j < |Keys(fs)| :: Keys(fs)[i] != Keys(fs)[j]
  {
    if fs != [] { KeysAreThose(fs[..|fs| - 1]); }
  }

  function ItemFor(fs: seq<Finding>, k: Key, weigh: Weigher): ConsensusItem
    requires Group(fs, k) != []
  {
    MakeItem(Group(fs, k), weigh)
  }

  /** One item per identity, before sorting. */
  function Items(fs: seq<Finding>, ks: seq<Key>, weigh: Weigher): seq<ConsensusItem>
    requires forall i | 0 <= i < |ks| :: Group(fs, ks[i]) != []
  {
    if ks == [] then [] else Items(fs, ks[..|ks| - 1], weigh) + [ItemFor(fs, ks[|ks| - 1], weigh)]
  }

  // ---- sorting: severity, then weighted confidence, highest first; stable ----

  predicate Above(a: ConsensusItem, b: ConsensusItem) {
    || a.finding.severity.Weight() > b.finding.severity.Weight()
    || (a.finding.severity.Weight() == b.finding.severity.Weight() && a.weighted > b.weighted)
  }

  function InsertItem(x: ConsensusItem, xs: seq<ConsensusItem>): seq<ConsensusItem> {
    if xs == [] then [x] else if Above(x, xs[0]) then [x] + xs else [xs[0]] + InsertItem(x, xs[1..])
  }

  /** `items.sort(key=..., reverse=True)` */
  function StableSort(xs: seq<ConsensusItem>): seq<ConsensusItem> {
    if xs == [] then [] else InsertItem(xs[|xs| - 1], StableSort(xs[..|xs| - 1]))
  }

  predicate IsBlocker(item: ConsensusItem) {
    item.gate == Post && HighImpact(item.finding.severity)
  }

  predicate AnyBlocker(items: seq<ConsensusItem>) {
    exists i | 0 <= i < |items| :: IsBlocker(items[i])
  }

  function ConsensusBy(fs: seq<Finding>, weigh: Weigher): ConsensusResult {
    KeysAreThose(fs);
    var items := StableSort(Items(fs, Keys(fs), weigh));
    ConsensusResult(items, AnyBlocker(items))
  }

  function ConsensusOf(fs: seq<Finding>, adjustments: Adjustments): ConsensusResult {
    ConsensusBy(fs, ByFeedback(adjustments))
  }

  /** The first loop: findings collected per identity, identities in order of first appearance. */
  method GroupFindings(findings: seq<Finding>) returns (groups: map<Key, seq<Finding>>, order: seq<Key>)
    ensures order == Keys(findings)
    ensures forall k | k in order :: k in groups && groups[k] == Group(findings, k)
  {
    groups, order := map[], [];
    for i := 0 to |findings|
      invariant order == Keys(findings[..i])
      invariant forall k :: k in groups <==> k in order
      invariant forall k | k in groups :: groups[k] == Group(findings[..i], k)
    {
      var f := findings[i];
      assert findings[..i + 1][..i] == findings[..i];
      KeysAreThose(findings[..i]);
      var k := f.DedupeKey();
      if k in groups {
        groups := groups[k := groups[k] + [f]];
      } else {
        groups := groups[k := [f]];
        order := order + [k];
      }
    }
    assert findings[..|findings|] == findings;
  }

  /** The second loop: one weighed and gated item per group. */
  method MakeItems(findings: seq<Finding>, groups: map<Key, seq<Finding>>, order: seq<Key>, weigh: Weigher)
    returns (items: seq<ConsensusItem>)
    requires forall k | k in order :: k in groups && groups[k] == Group(findings, k) != []
    ensures items == Items(findings, order, weigh)
  {
    items := [];
    for i := 0 to |order|
      invariant items == Items(findings, order[..i], weigh)
    {
      assert order[..i + 1][..i] == order[..i];
      items := items + [MakeItem(groups[order[i]], weigh)];
    }
    assert order[..|order|] == order;
  }

  method BuildConsensus(findings: seq<Finding>, adjustments: Adjustments) returns (result: ConsensusResult)
    ensures result == ConsensusOf(findings, adjustments)
  {
    KeysAreThose(findings);
    var groups, order := GroupFindings(findings);
    var items := MakeItems(findings, groups, order, ByFeedback(adjustments));
    items := StableSort(items);
    result := ConsensusResult(items, AnyBlocker(items));
  }
}
