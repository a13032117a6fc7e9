/** Developer feedback per category, and the confidence multipliers learned from it. */
module Feedback {
  import opened Wrappers
  import opened Findings
  import opened Consensus
  import opened ConsensusLaws

  datatype Action = Accepted | Rejected | Edited

  datatype CategoryStats = CategoryStats(accepted: nat, rejected: nat, edited: nat) {
    function Total(): nat {
      accepted + rejected + edited
    }

    /** An edit counts as half an acceptance. */
    function AcceptanceRate(): real {
      if Total() == 0 then 1.0 else (accepted as real + 0.5 * edited as real) / Total() as real
    }

    function With(action: Action): CategoryStats {
      match action
      case Accepted => this.(accepted := accepted + 1)
      case Rejected => this.(rejected := rejected + 1)
      case Edited => this.(edited := edited + 1)
    }
  }

  const NO_STATS := CategoryStats(0, 0, 0)

  type Stats = map<string, CategoryStats>

  type Scope = (string, string)  // tenant, repository

  datatype Entry = Entry(scope: Scope, category: string, action: Action)

  function Counted(stats: Stats, category: string, action: Action): Stats {
    stats[category := (if category in stats then stats[category] else NO_STATS).With(action)]
  }

  /** The statistics a scope's own entries add up to. */
  function StatsOf(log: seq<Entry>, scope: Scope): Stats {
    if log == [] then map[]
    else
      var before := StatsOf(log[..|log| - 1], scope);
      var e := log[|log| - 1];
      if e.scope == scope then Counted(before, e.category, e.action) else before
  }

  /** How often an action was recorded for a category of a scope. */
  ghost function Times(log: seq<Entry>, scope: Scope, category: string, action: Action): nat {
    multiset(log)[Entry(scope, category, action)]
  }

  /** Each counter is the number of log entries with its action; a category nobody recorded has none. */
  ghost predicate Counts(log: seq<Entry>, scope: Scope, stats: Stats) {
    forall c {:trigger c in stats} :: CountsOne(log, scope, c, if c in stats then Some(stats[c]) else None)
  }

  ghost predicate CountsOne(log: seq<Entry>, scope: Scope, c: string, counted: Option<CategoryStats>) {
    var a, j, e := Times(log, scope, c, Accepted), Times(log, scope, c, Rejected), Times(log, scope, c, Edited);
    match counted
    case None => a == j == e == 0
    case Some(s) => s.accepted == a && s.rejected == j && s.edited == e && a + j + e > 0
  }

  lemma TimesNext(log: seq<Entry>, e: Entry, scope: Scope, c: string, action: Action)
    ensures Times(log + [e], scope, c, action) ==
            Times(log, scope, c, action) + if e == Entry(scope, c, action) then 1 else 0
  {
  }

  lemma CountsNext(log: seq<Entry>, scope: Scope, stats: Stats, e: Entry, c: string)
    requires CountsOne(log, scope, c, if c in stats then Some(stats[c]) else None)
    ensures var next := if e.scope == scope then Counted(stats, e.category, e.action) else stats;
            CountsOne(log + [e], scope, c, if c in next then Some(next[c]) else None)
  {
    TimesNext(log, e, scope, c, Accepted);
    TimesNext(log, e, scope, c, Rejected);
    TimesNext(log, e, scope, c, Edited);
  }

  lemma {:induction false} StatsCount(log: seq<Entry>, scope: Scope)
    ensures Counts(log, scope, StatsOf(log, scope))
  {
    if log != [] {
      var before, e := log[..|log| - 1], log[|log| - 1];
      assert log == before + [e];
      StatsCount(before, scope);
      var stats := StatsOf(log, scope);
      forall c ensures CountsOne(log, scope, c, if c in stats then Some(stats[c]) else None) {
        CountsNext(before, scope, StatsOf(before, scope), e, c);
      }
    }
  }

  class InMemoryFeedbackStore {
    var data: map<Scope, Stats>
    ghost var log: seq<Entry>

    ghost predicate Valid()
      reads this
    {
      forall s {:trigger StatsOf(log, s)} :: (if s in data then data[s] else map[]) == StatsOf(log, s)
    }

    constructor ()
      ensures Valid() && log == []
    {
      data, log := map[], [];
    }

    method Record(tenant: string, repo: string, category: string, action: Action)
      requires Valid()
      modifies this
      ensures Valid() && log == old(log) + [Entry((tenant, repo), category, action)]
    {
      var scope := (tenant, repo);
      ghost var before := log;
      log := log + [Entry(scope, category, action)];
      data := data[scope := Counted(if scope in data then data[scope] else map[], category, action)];
      assert log[..|before|] == before;
      forall s ensures (if s in data then data[s] else map[]) == StatsOf(log, s) {
        assert (if s in old(data) then old(data)[s] else map[]) == StatsOf(before, s);
      }
    }

    /** What a scope sees depends on its own entries only. */
    method StatsFor(tenant: string, repo: string) returns (stats: Stats)
      requires Valid()
      ensures stats == StatsOf(log, (tenant, repo))
      ensures Counts(log, (tenant, repo), stats)
    {
      StatsCount(log, (tenant, repo));
      assert (if (tenant, repo) in data then data[(tenant, repo)] else map[]) == StatsOf(log, (tenant, repo));
      stats := if (tenant, repo) in data then data[(tenant, repo)] else map[];
    }
  }

  // ---- the learner ----

  const MIN_SAMPLES := 5
  const FLOOR := 0.4

  function Learned(s: CategoryStats): real {
    FLOOR + (1.0 - FLOOR) * s.AcceptanceRate()
  }

  function Adjusted(stats: Stats, minSamples: int): Adjustments {
    map c | c in stats && stats[c].Total() >= minSamples :: Learned(stats[c])
  }

  /** The same for the categories that are not still to do. */
  ghost function AdjustedBut(stats: Stats, minSamples: int, todo: set<string>): Adjustments {
    map c | c in stats && c !in todo && stats[c].Total() >= minSamples :: Learned(stats[c])
  }

  lemma AdjustedNext(stats: Stats, minSamples: int, todo: set<string>, c: string)
    requires c in stats && c in todo
    ensures AdjustedBut(stats, minSamples, todo - {c}) ==
            if stats[c].Total() >= minSamples then AdjustedBut(stats, minSamples, todo)[c := Learned(stats[c])]
            else AdjustedBut(stats, minSamples, todo)
  {
  }

  lemma AdjustedEnds(stats: Stats, minSamples: int)
    ensures AdjustedBut(stats, minSamples, stats.Keys) == map[]
    ensures AdjustedBut(stats, minSamples, {}) == Adjusted(stats, minSamples)
  {
  }

  class GoldenPathLearner {
    const store: InMemoryFeedbackStore
    const minSamples: int

    constructor (store: InMemoryFeedbackStore, minSamples: int := MIN_SAMPLES)
      ensures this.store == store && this.minSamples == minSamples
    {
      this.store, this.minSamples := store, minSamples;
    }

    method AdjustmentsFor(tenant: string, repo: string) returns (out: Adjustments)
      requires store.Valid()
      ensures out == Adjusted(StatsOf(store.log, (tenant, repo)), minSamples)
      ensures Damping(out, FLOOR)
      ensures Averages(store.log, (tenant, repo), minSamples, out)
    {
      var stats := store.StatsFor(tenant, repo);
      out := map[];
      var todo := stats.Keys;
      AdjustedEnds(stats, minSamples);
      while todo != {}
        invariant todo <= stats.Keys
        invariant out == AdjustedBut(stats, minSamples, todo)
        decreases todo
      {
        var c :| c in todo;
        AdjustedNext(stats, minSamples, todo, c);
        todo := todo - {c};
        if stats[c].Total() >= minSamples {
          out := out[c := Learned(stats[c])];
        }
      }
      LearnedDamps(stats, minSamples);
      LearnedAverages(store.log, (tenant, repo), minSamples);
    }
  }

  /** The multiplier averages a acceptances at 1, e edits at 0.7 and j rejections at 0.4. */
  predicate IsAverage(multiplier: real, a: nat, j: nat, e: nat) {
    multiplier * (a + j + e) as real == a as real + 0.7 * e as real + 0.4 * j as real
  }

  /** A category with samples enough gets their average, and no other category gets a multiplier. */
  ghost predicate Averages(log: seq<Entry>, scope: Scope, minSamples: int, out: Adjustments) {
    forall c {:trigger c in out} ::
      var a, j, e := Times(log, scope, c, Accepted), Times(log, scope, c, Rejected), Times(log, scope, c, Edited);
      && (c in out <==> a + j + e >= 1 && a + j + e >= minSamples)
      && (c in out ==> IsAverage(out[c], a, j, e))
  }

  lemma LearnedIsAverage(s: CategoryStats)
    requires s.Total() > 0
    ensures IsAverage(Learned(s), s.accepted, s.rejected, s.edited)
  {
    var n, x := s.Total() as real, s.accepted as real + 0.5 * s.edited as real;
    assert x / n * n == x;
    assert Learned(s) * n == 0.4 * n + 0.6 * (x / n * n);
  }

  lemma LearnedAverages(log: seq<Entry>, scope: Scope, minSamples: int)
    ensures Averages(log, scope, minSamples, Adjusted(StatsOf(log, scope), minSamples))
  {
    var stats := StatsOf(log, scope);
    StatsCount(log, scope);
    var out := Adjusted(stats, minSamples);
    forall c | c in out ensures IsAverage(out[c], stats[c].accepted, stats[c].rejected, stats[c].edited) {
      assert c in stats;
      LearnedIsAverage(stats[c]);
    }
  }

  lemma AverageOfOne(multiplier: real, action: Action, a: nat, j: nat, e: nat)
    requires IsAverage(multiplier, a, j, e) && a + j + e > 0
    requires action != Accepted ==> a == 0
    requires action != Rejected ==> j == 0
    requires action != Edited ==> e == 0
    ensures multiplier == match action case Accepted => 1.0 case Edited => 0.7 case Rejected => 0.4
  {
    var n := (a + j + e) as real;
    match action
    case Accepted => SameFactor(multiplier, 1.0, n);
    case Edited => SameFactor(multiplier, 0.7, n);
    case Rejected => SameFactor(multiplier, 0.4, n);
  }

  lemma SameFactor(x: real, y: real, n: real)
    requires n > 0.0 && x * n == y * n
    ensures x == y
  {
    assert (x - y) * n == 0.0;
  }

  /** Samples of one kind only: acceptances keep the confidence, edits give 0.7 of it, rejections the floor. */
  lemma PureHistories(log: seq<Entry>, scope: Scope, minSamples: int, c: string, action: Action, out: Adjustments)
    requires out == Adjusted(StatsOf(log, scope), minSamples)
    requires Times(log, scope, c, action) >= 1 && Times(log, scope, c, action) >= minSamples
    requires forall other | other != action :: Times(log, scope, c, other) == 0
    ensures c in out && out[c] == match action case Accepted => 1.0 case Edited => 0.7 case Rejected => 0.4
  {
    LearnedAverages(log, scope, minSamples);
    assert c in out;
    AverageOfOne(out[c], action, Times(log, scope, c, Accepted), Times(log, scope, c, Rejected),
                 Times(log, scope, c, Edited));
  }

  lemma RateInRange(s: CategoryStats)
    ensures 0.0 <= s.AcceptanceRate() <= 1.0
    ensures s.Total() > 0 ==> (s.AcceptanceRate() == 1.0 <==> s.rejected == 0 && s.edited == 0)
  {
    if s.Total() > 0 {
      Quotient(s.accepted as real + 0.5 * s.edited as real, s.Total() as real);
    }
  }

  lemma Quotient(a: real, t: real)
    requires 0.0 <= a <= t && t > 0.0
    ensures 0.0 <= a / t <= 1.0 && (a / t == 1.0 <==> a == t)
  {
    assert a / t * t == a;
  }

  /** After every feedback history, every learned multiplier lies between the floor and one. */
  lemma LearnedDamps(stats: Stats, minSamples: int)
    ensures Damping(Adjusted(stats, minSamples), FLOOR)
  {
    forall c | c in stats ensures FLOOR <= Learned(stats[c]) <= 1.0 {
      RateInRange(stats[c]);
    }
  }

  /** The multiplier a category effectively gets. */
  function Effective(s: CategoryStats, minSamples: int): real {
    if s.Total() < minSamples then 1.0 else Learned(s)
  }

  lemma RateRises(a: real, t: real)
    requires 0.0 <= a <= t && t > 0.0
    ensures a / t <= (a + 1.0) / (t + 1.0)
  {
    var q, r := a / t, (a + 1.0) / (t + 1.0);
    Quotient(a, t);
    assert q * t == a && r * (t + 1.0) == a + 1.0;
    assert (t + 1.0) * (q - r) == q * t + q - r * (t + 1.0);
    if q - r > 0.0 {
      PositiveProduct(t + 1.0, q - r);
      assert false;
    }
  }

  lemma PositiveProduct(a: real, b: real)
    requires a > 0.0 && b > 0.0
    ensures a * b > 0.0
  {
  }

  lemma RateAfterAccept(s: CategoryStats)
    ensures s.AcceptanceRate() <= s.With(Accepted).AcceptanceRate()
  {
    if s.Total() > 0 {
      RateRises(s.accepted as real + 0.5 * s.edited as real, s.Total() as real);
    } else {
      RateInRange(s.With(Accepted));
    }
  }

  /**
   An acceptance raises a category's multiplier, or keeps it, except in one case: it is the sample
   that makes the history count, and not all samples are acceptances.
   */
  lemma AcceptanceRaisesIff(s: CategoryStats, minSamples: int)
    ensures Effective(s, minSamples) <= Effective(s.With(Accepted), minSamples)
            <==> !(s.Total() + 1 == minSamples && s.rejected + s.edited > 0)
  {
    var t := s.With(Accepted);
    RateInRange(s);
    RateInRange(t);
    RateAfterAccept(s);
  }

  /** Feedback, whatever was recorded, only damps the consensus of a tenant's repository. */
  lemma HistoryOnlyDamps(fs: seq<Finding>, log: seq<Entry>, scope: Scope, minSamples: int, k: Key)
    requires (forall f | f in fs :: f.Valid()) && Group(fs, k) != []
    ensures var x := ItemFor(fs, k, ByFeedback(map[]));
            var y := ItemFor(fs, k, ByFeedback(Adjusted(StatsOf(log, scope), minSamples)));
            && y.finding == x.finding && y.agreement == x.agreement
            && Scaled(FLOOR, x.weighted) <= y.weighted <= x.weighted
            && AtLeastAsVisible(x.gate, y.gate)
  {
    var stats := StatsOf(log, scope);
    LearnedDamps(stats, minSamples);
    FeedbackOnlyDamps(fs, Adjusted(stats, minSamples), FLOOR, k);
  }
}
