/**
 The per-review token budget. A request is checked before it is sent and charged after it returns,
 so with several agents in flight the check and the charge interleave.
 */
module TokenBudgets {
  import opened Collections

  datatype Usage = Usage(inputTokens: nat, outputTokens: nat) {
    function Total(): nat {
      inputTokens + outputTokens
    }
  }

  type Amounts = map<string, nat>

  datatype Ledger = Ledger(used: nat, costMicros: nat, byAgent: Amounts, costByAgent: Amounts)

  const EMPTY_LEDGER := Ledger(0, 0, map[], map[])

  function Amount(m: Amounts, agent: string): nat {
    if agent in m then m[agent] else 0
  }

  function Credited(m: Amounts, agent: string, n: nat): Amounts {
    m[agent := Amount(m, agent) + n]
  }

  function Charged(l: Ledger, usage: Usage, agent: string, cost: nat): Ledger {
    Ledger(l.used + usage.Total(), l.costMicros + cost,
           Credited(l.byAgent, agent, usage.Total()), Credited(l.costByAgent, agent, cost))
  }

  class TokenBudget {
    const limit: int
    var used: nat
    var costMicros: nat
    var byAgent: Amounts
    var costByAgent: Amounts

    ghost function View(): Ledger
      reads this
    {
      Ledger(used, costMicros, byAgent, costByAgent)
    }

    constructor (limit: int)
      ensures this.limit == limit && View() == EMPTY_LEDGER
    {
      this.limit, used, costMicros, byAgent, costByAgent := limit, 0, 0, map[], map[];
    }

    /** False stands for the raised error; nothing is reserved either way. */
    method Precheck(estimatedTokens: nat) returns (ok: bool)
      ensures ok <==> used + estimatedTokens <= limit
    {
      return used + estimatedTokens <= limit;
    }

    method Charge(usage: Usage, agent: string, cost: nat)
      modifies this
      ensures View() == Charged(old(View()), usage, agent, cost)
    {
      used := used + usage.Total();
      costMicros := costMicros + cost;
      byAgent := Credited(byAgent, agent, usage.Total());
      costByAgent := Credited(costByAgent, agent, cost);
    }
  }

  // ---- sums ----

  ghost function Sum(m: Amounts): nat {
    if m == map[] then 0
    else
      var k :| k in m;
      m[k] + Sum(m - {k})
  }

  lemma {:induction false} SumRemove(m: Amounts, k: string)
    requires k in m
    ensures Sum(m) == m[k] + Sum(m - {k})
    decreases |m|
  {
    var j :| j in m && Sum(m) == m[j] + Sum(m - {j});
    if j != k {
      SumRemove(m - {j}, k);
      SumRemove(m - {k}, j);
      assert m - {j} - {k} == m - {k} - {j};
    }
  }

  lemma SumUpdate(m: Amounts, k: string, v: nat)
    ensures Sum(m[k := v]) == Sum(m - {k}) + v
    ensures Sum(m) == Sum(m - {k}) + Amount(m, k)
  {
    SumRemove(m[k := v], k);
    assert m[k := v] - {k} == m - {k};
    if k in m { SumRemove(m, k); } else { assert m - {k} == m; }
  }

  lemma CreditSum(m: Amounts, k: string, n: nat)
    ensures Sum(Credited(m, k, n)) == Sum(m) + n
  {
    SumUpdate(m, k, Amount(m, k) + n);
  }

  lemma RemoveSize(m: Amounts, k: string)
    requires k in m
    ensures |m - {k}| == |m| - 1
  {
    assert (m - {k}).Keys == m.Keys - {k};
  }

  lemma OneMore(n: int, r: int)
    ensures (n - 1) * r + r == n * r
  {
  }

  lemma {:induction false} SumBound(m: Amounts, r: nat)
    requires forall k | k in m :: m[k] <= r
    ensures Sum(m) <= |m| * r
    decreases |m|
  {
    if m != map[] {
      var k :| k in m;
      SumRemove(m, k);
      RemoveSize(m, k);
      SumBound(m - {k}, r);
      OneMore(|m|, r);
    }
  }

  /** Totals equal the sums of the per-agent entries. */
  ghost predicate Balances(l: Ledger) {
    l.used == Sum(l.byAgent) && l.costMicros == Sum(l.costByAgent)
  }

  lemma ChargeBalances(l: Ledger, usage: Usage, agent: string, cost: nat)
    requires Balances(l)
    ensures Balances(Charged(l, usage, agent, cost))
  {
    CreditSum(l.byAgent, agent, usage.Total());
    CreditSum(l.costByAgent, agent, cost);
  }

  // ---- agents in parallel ----

  /** `inFlight`: what each waiting agent's request was checked for. */
  datatype Shared = Shared(limit: int, ledger: Ledger, inFlight: Amounts)

  datatype Step =
    | Start(agent: string, reserve: nat)   // precheck passed, request sent
    | Refuse(agent: string, reserve: nat)  // precheck raised
    | Fail(agent: string)                  // an error after the request was sent
    | Finish(agent: string, reserve: nat, usage: Usage, cost: nat)  // response charged

  ghost predicate Next(s: Shared, step: Step, t: Shared) {
    match step
    case Start(a, n) =>
      a !in s.inFlight && s.ledger.used + n <= s.limit && t == s.(inFlight := s.inFlight[a := n])
    case Refuse(a, n) =>
      a !in s.inFlight && s.ledger.used + n > s.limit && t == s
    case Fail(a) =>
      a in s.inFlight && t == s.(inFlight := s.inFlight - {a})
    case Finish(a, n, usage, cost) =>
      && a in s.inFlight && s.inFlight[a] == n
      && t == s.(ledger := Charged(s.ledger, usage, a, cost), inFlight := s.inFlight - {a})
  }

  /** The agents taking part and the largest reservation. */
  ghost predicate Within(step: Step, agents: set<string>, r: nat) {
    step.agent in agents && (step.Start? ==> step.reserve <= r)
  }

  ghost predicate Runs(s: Shared, steps: seq<Step>, t: Shared, agents: set<string>, r: nat)
    decreases |steps|
  {
    if steps == [] then s == t
    else exists u :: Next(s, steps[0], u) && Within(steps[0], agents, r) && Runs(u, steps[1..], t, agents, r)
  }

  /** How many tokens a provider used beyond what was reserved for the call. */
  function Over(step: Step): nat {
    if step.Finish? && step.usage.Total() > step.reserve then step.usage.Total() - step.reserve else 0
  }

  function Excess(steps: seq<Step>): nat {
    if steps == [] then 0 else Over(steps[0]) + Excess(steps[1..])
  }

  lemma {:induction false} ExcessConcat(xs: seq<Step>, ys: seq<Step>)
    ensures Excess(xs + ys) == Excess(xs) + Excess(ys)
  {
    if xs == [] {
      assert xs + ys == ys;
    } else {
      assert (xs + ys)[1..] == xs[1..] + ys;
      ExcessConcat(xs[1..], ys);
    }
  }

  function ChargedBy(l: Ledger, step: Step): Ledger {
    if step.Finish? then Charged(l, step.usage, step.agent, step.cost) else l
  }

  /** The ledger once the charges among the steps have been made. */
  function ChargedAll(l: Ledger, steps: seq<Step>): Ledger {
    if steps == [] then l else ChargedBy(ChargedAll(l, steps[..|steps| - 1]), steps[|steps| - 1])
  }

  /** A check that passes reserves no more than the limit. */
  function Cap(limit: int, r: nat): nat {
    if limit < 0 then 0 else if r < limit then r else limit
  }

  /** `over`: what providers used beyond their reservations so far. */
  ghost predicate Safe(s: Shared, agents: set<string>, r: nat, over: nat) {
    && s.inFlight.Keys <= agents
    && (s.inFlight != map[] ==> s.limit >= 0)
    && (forall a | a in s.inFlight :: s.inFlight[a] <= Cap(s.limit, r))
    && Balances(s.ledger)
    && (s.ledger.used + Sum(s.inFlight) == 0
        || s.ledger.used + Sum(s.inFlight) <= s.limit + (|agents| - 1) * Cap(s.limit, r) + over)
  }

  /** The other agents hold at most one reservation each. */
  lemma OthersHold(inFlight: Amounts, a: string, agents: set<string>, r: nat)
    requires inFlight.Keys <= agents - {a} && a in agents
    requires forall b | b in inFlight :: inFlight[b] <= r
    ensures Sum(inFlight) <= (|agents| - 1) * r
  {
    SumBound(inFlight, r);
    SubsetSize(inFlight.Keys, agents - {a});
    assert |inFlight| == |inFlight.Keys|;
    Scale(|inFlight|, |agents| - 1, r);
  }

  lemma StartStaysSafe(s: Shared, a: string, n: nat, agents: set<string>, r: nat, over: nat)
    requires Safe(s, agents, r, over) && a in agents && a !in s.inFlight && n <= r && s.ledger.used + n <= s.limit
    ensures Safe(s.(inFlight := s.inFlight[a := n]), agents, r, over)
  {
    SumUpdate(s.inFlight, a, n);
    assert s.inFlight - {a} == s.inFlight;
    OthersHold(s.inFlight, a, agents, Cap(s.limit, r));
  }

  lemma Scale(m: int, n: int, r: nat)
    requires m <= n
    ensures m * r <= n * r
  {
  }

  lemma FinishStaysSafe(s: Shared, step: Step, t: Shared, agents: set<string>, r: nat, over: nat)
    requires Safe(s, agents, r, over) && step.Finish? && Next(s, step, t)
    ensures Safe(t, agents, r, over + Over(step))
  {
    SumRemove(s.inFlight, step.agent);
    ChargeBalances(s.ledger, step.usage, step.agent, step.cost);
    SubsetSize({step.agent}, agents);
    Scale(0, |agents| - 1, Cap(s.limit, r));
  }

  lemma StepStaysSafe(s: Shared, step: Step, t: Shared, agents: set<string>, r: nat, over: nat)
    requires Safe(s, agents, r, over) && Next(s, step, t) && Within(step, agents, r)
    ensures Safe(t, agents, r, over + Over(step)) && t.limit == s.limit
  {
    match step
    case Start(a, n) => StartStaysSafe(s, a, n, agents, r, over);
    case Refuse(_, _) =>
    case Fail(a) => SumRemove(s.inFlight, a);
    case Finish(_, _, _, _) => FinishStaysSafe(s, step, t, agents, r, over);
  }

  lemma {:induction false} RunStaysSafe(s: Shared, steps: seq<Step>, t: Shared, agents: set<string>, r: nat, over: nat)
    requires Safe(s, agents, r, over) && Runs(s, steps, t, agents, r)
    ensures Safe(t, agents, r, over + Excess(steps)) && t.limit == s.limit
    decreases |steps|
  {
    if steps != [] {
      var u :| Next(s, steps[0], u) && Within(steps[0], agents, r) && Runs(u, steps[1..], t, agents, r);
      StepStaysSafe(s, steps[0], u, agents, r, over);
      RunStaysSafe(u, steps[1..], t, agents, r, over + Over(steps[0]));
    }
  }

  ghost function Fresh(limit: int): Shared {
    Shared(limit, EMPTY_LEDGER, map[])
  }

  /**
   In every interleaving of n agents, tokens used plus tokens in flight never exceed the limit by more
   than n - 1 reservations and what providers used beyond their reservations; and the totals always
   equal the per-agent sums.
   */
  lemma OvershootIsBounded(limit: int, steps: seq<Step>, t: Shared, agents: set<string>, r: nat)
    requires Runs(Fresh(limit), steps, t, agents, r)
    ensures t.ledger.used + Sum(t.inFlight) == 0
            || t.ledger.used + Sum(t.inFlight) <= limit + (|agents| - 1) * Cap(limit, r) + Excess(steps)
    ensures t.ledger.used == Sum(t.ledger.byAgent) && t.ledger.costMicros == Sum(t.ledger.costByAgent)
  {
    RunStaysSafe(Fresh(limit), steps, t, agents, r, 0);
  }

  /** A single agent passes the limit by no more than its provider passed the reservations. */
  lemma OneAgentStaysWithin(limit: nat, steps: seq<Step>, t: Shared, agent: string, r: nat)
    requires Runs(Fresh(limit), steps, t, {agent}, r)
    ensures t.ledger.used + Sum(t.inFlight) <= limit + Excess(steps)
  {
    OvershootIsBounded(limit, steps, t, {agent}, r);
  }

  /** What the answered calls of an agent used, prompt and answer, and what they cost. */
  function Spent(steps: seq<Step>, agent: string): (nat, nat) {
    if steps == [] then (0, 0)
    else
      var rest := Spent(steps[1..], agent);
      match steps[0]
      case Finish(a, _, Usage(prompt, answer), cost) =>
        if a == agent then (rest.0 + prompt + answer, rest.1 + cost) else rest
      case _ => rest
  }

  /** Every agent's entries grow by exactly what its answered calls used and cost, whatever the interleaving. */
  lemma {:induction false} EntriesAreSpent(s: Shared, steps: seq<Step>, t: Shared, agents: set<string>, r: nat,
                                           agent: string)
    requires Runs(s, steps, t, agents, r)
    ensures Amount(t.ledger.byAgent, agent) == Amount(s.ledger.byAgent, agent) + Spent(steps, agent).0
    ensures Amount(t.ledger.costByAgent, agent) == Amount(s.ledger.costByAgent, agent) + Spent(steps, agent).1
    decreases |steps|
  {
    if steps != [] {
      var u :| Next(s, steps[0], u) && Within(steps[0], agents, r) && Runs(u, steps[1..], t, agents, r);
      EntriesAreSpent(u, steps[1..], t, agents, r, agent);
    }
  }

  // ---- the bound is attained ----

  lemma {:induction false} RunsConcat(s: Shared, xs: seq<Step>, t: Shared, ys: seq<Step>, u: Shared,
                                      agents: set<string>, r: nat)
    requires Runs(s, xs, t, agents, r) && Runs(t, ys, u, agents, r)
    ensures Runs(s, xs + ys, u, agents, r)
    decreases |xs|
  {
    if xs == [] {
      assert xs + ys == ys;
    } else {
      var v :| Next(s, xs[0], v) && Within(xs[0], agents, r) && Runs(v, xs[1..], t, agents, r);
      RunsConcat(v, xs[1..], t, ys, u, agents, r);
      assert (xs + ys)[0] == xs[0] && (xs + ys)[1..] == xs[1..] + ys;
    }
  }

  lemma RunsOne(s: Shared, step: Step, t: Shared, agents: set<string>, r: nat)
    requires Next(s, step, t) && Within(step, agents, r)
    ensures Runs(s, [step], t, agents, r)
  {
    assert [step][1..] == [] && Runs(t, [step][1..], t, agents, r);
  }

  /** One agent alone, call by call, can bring the usage to any target within the limit. */
  lemma {:induction false} Climb(s: Shared, a: string, target: nat, agents: set<string>, r: nat)
    returns (steps: seq<Step>, t: Shared)
    requires a in agents && r > 0 && s.inFlight == map[] && s.ledger.used <= target <= s.limit
    ensures Runs(s, steps, t, agents, r)
    ensures t.inFlight == map[] && t.ledger.used == target && t.limit == s.limit && Excess(steps) == 0
    decreases target - s.ledger.used
  {
    if s.ledger.used == target {
      steps, t := [], s;
    } else {
      var n := if target - s.ledger.used < r then target - s.ledger.used else r;
      var u := s.(inFlight := s.inFlight[a := n]);
      var v := u.(ledger := Charged(u.ledger, Usage(n, 0), a, 0), inFlight := u.inFlight - {a});
      RunsOne(s, Start(a, n), u, agents, r);
      RunsOne(u, Finish(a, n, Usage(n, 0), 0), v, agents, r);
      RunsConcat(s, [Start(a, n)], u, [Finish(a, n, Usage(n, 0), 0)], v, agents, r);
      assert v.inFlight == map[];
      var rest;
      rest, t := Climb(v, a, target, agents, r);
      steps := [Start(a, n)] + [Finish(a, n, Usage(n, 0), 0)] + rest;
      ExcessConcat([Start(a, n)] + [Finish(a, n, Usage(n, 0), 0)], rest);
      ExcessConcat([Start(a, n)], [Finish(a, n, Usage(n, 0), 0)]);
      RunsConcat(s, [Start(a, n)] + [Finish(a, n, Usage(n, 0), 0)], v, rest, t, agents, r);
    }
  }

  /** While the check still passes, any set of idle agents can all start. */
  lemma {:induction false} StartAll(s: Shared, idle: set<string>, agents: set<string>, r: nat)
    returns (steps: seq<Step>, t: Shared)
    requires idle <= agents && idle !! s.inFlight.Keys && s.ledger.used + r <= s.limit
    ensures Runs(s, steps, t, agents, r)
    ensures t.ledger == s.ledger && t.limit == s.limit && t.inFlight.Keys == s.inFlight.Keys + idle &&
            Excess(steps) == 0
    ensures forall a | a in t.inFlight :: t.inFlight[a] == if a in idle then r else s.inFlight[a]
    decreases idle
  {
    if idle == {} {
      steps, t := [], s;
    } else {
      var a :| a in idle;
      var u := s.(inFlight := s.inFlight[a := r]);
      RunsOne(s, Start(a, r), u, agents, r);
      var rest;
      rest, t := StartAll(u, idle - {a}, agents, r);
      steps := [Start(a, r)] + rest;
      RunsConcat(s, [Start(a, r)], u, rest, t, agents, r);
      ExcessConcat([Start(a, r)], rest);
    }
  }

  /** All calls in flight return, each using exactly what was reserved for it, but the first `extra` more. */
  lemma {:induction false} FinishAll(s: Shared, agents: set<string>, r: nat, extra: nat)
    returns (steps: seq<Step>, t: Shared)
    requires s.inFlight.Keys <= agents && (s.inFlight != map[] || extra == 0)
    ensures Runs(s, steps, t, agents, r)
    ensures t.inFlight == map[] && t.ledger.used == s.ledger.used + Sum(s.inFlight) + extra && Excess(steps) == extra
    decreases |s.inFlight|
  {
    if s.inFlight == map[] {
      steps, t := [], s;
    } else {
      var a :| a in s.inFlight;
      var n := s.inFlight[a];
      var usage := Usage(n, extra);
      var step := Finish(a, n, usage, 0);
      var u := s.(ledger := Charged(s.ledger, usage, a, 0), inFlight := s.inFlight - {a});
      RemoveSize(s.inFlight, a);
      SumRemove(s.inFlight, a);
      RunsOne(s, step, u, agents, r);
      var rest;
      rest, t := FinishAll(u, agents, r, 0);
      steps := [step] + rest;
      RunsConcat(s, [step], u, rest, t, agents, r);
      ExcessConcat([step], rest);
      assert [step][1..] == [] && Excess([step]) == extra;
    }
  }

  lemma {:induction false} SumOfEqual(m: Amounts, r: nat)
    requires forall k | k in m :: m[k] == r
    ensures Sum(m) == |m| * r
    decreases |m|
  {
    if m != map[] {
      var k :| k in m;
      RemoveSize(m, k);
      SumRemove(m, k);
      SumOfEqual(m - {k}, r);
      OneMore(|m|, r);
    }
  }

  /** All agents pass the check before any of them is charged. */
  lemma Burst(s: Shared, agents: set<string>, r: nat, extra: nat) returns (steps: seq<Step>, t: Shared)
    requires s.inFlight == map[] && s.ledger.used + r <= s.limit && agents != {}
    ensures Runs(s, steps, t, agents, r)
    ensures t.ledger.used == s.ledger.used + |agents| * r + extra && Excess(steps) == extra
  {
    var starts, u := StartAll(s, agents, agents, r);
    assert u.inFlight.Keys == agents && |u.inFlight| == |u.inFlight.Keys|;
    SumOfEqual(u.inFlight, r);
    var finishes;
    finishes, t := FinishAll(u, agents, r, extra);
    steps := starts + finishes;
    RunsConcat(s, starts, u, finishes, t, agents, r);
    ExcessConcat(starts, finishes);
  }

  lemma {:induction false} MoreAllowed(s: Shared, steps: seq<Step>, t: Shared, agents: set<string>, q: nat, r: nat)
    requires Runs(s, steps, t, agents, q) && q <= r
    ensures Runs(s, steps, t, agents, r)
    decreases |steps|
  {
    if steps != [] {
      var u :| Next(s, steps[0], u) && Within(steps[0], agents, q) && Runs(u, steps[1..], t, agents, q);
      MoreAllowed(u, steps[1..], t, agents, q, r);
    }
  }

  /**
   For every number of agents, every largest reservation and every overuse by the providers, some run uses
   exactly the bound.
   */
  lemma OvershootIsAttained(limit: nat, agents: set<string>, r: nat, extra: nat) returns (steps: seq<Step>, t: Shared)
    requires agents != {} && r > 0
    ensures Runs(Fresh(limit), steps, t, agents, r) && Excess(steps) == extra
    ensures t.ledger.used == limit + (|agents| - 1) * Cap(limit, r) + extra
  {
    var q := Cap(limit, r);
    var climb, u := [], Fresh(limit);
    if limit > 0 {
      var a :| a in agents;
      climb, u := Climb(Fresh(limit), a, limit - q, agents, q);
    }
    var burst;
    burst, t := Burst(u, agents, q, extra);
    steps := climb + burst;
    RunsConcat(Fresh(limit), climb, u, burst, t, agents, q);
    ExcessConcat(climb, burst);
    MoreAllowed(Fresh(limit), steps, t, agents, q, r);
    Regroup(limit, |agents|, q);
  }

  lemma Regroup(limit: int, n: int, r: int)
    ensures limit - r + n * r == limit + (n - 1) * r
  {
  }

  /** Every run with honest providers keeps the usage within the limit. */
  ghost predicate LimitHolds(limit: nat, agents: set<string>, r: nat) {
    forall steps, t | Runs(Fresh(limit), steps, t, agents, r) && Excess(steps) == 0 :: t.ledger.used <= limit
  }

  /** The ceiling is hard exactly when at most one agent runs or nothing can be reserved. */
  lemma LimitHoldsIff(limit: nat, agents: set<string>, r: nat)
    ensures LimitHolds(limit, agents, r) <==> |agents| <= 1 || r == 0 || limit == 0
  {
    if |agents| <= 1 || r == 0 || limit == 0 {
      forall steps, t | Runs(Fresh(limit), steps, t, agents, r) && Excess(steps) == 0 ensures t.ledger.used <= limit {
        OvershootIsBounded(limit, steps, t, agents, r);
        NoOvershoot(|agents|, Cap(limit, r));
      }
    } else {
      var steps, t := OvershootIsAttained(limit, agents, r, 0);
      SomeOvershoot(|agents|, Cap(limit, r));
    }
  }

  lemma NoOvershoot(n: nat, q: nat)
    ensures n <= 1 || q == 0 ==> (n - 1) * q <= 0
  {
  }

  lemma SomeOvershoot(n: nat, q: nat)
    requires n > 1 && q > 0
    ensures (n - 1) * q > 0
  {
  }
}
