/** The provider router: failover order, and a completion as a run of the shared-budget step system. */
module Router {
  import opened Wrappers
  import opened TokenBudgets

  datatype Capabilities = Capabilities(inputCost: nat, outputCost: nat) {
    function BlendedCost(): nat {
      inputCost * 3 + outputCost
    }
  }

  datatype Provider = Provider(name: string, capabilities: Capabilities, countTokens: string -> nat)

  datatype Request = Request(system: string, messages: seq<string>, maxTokens: nat)

  function Tokens(p: Provider, messages: seq<string>): nat {
    if messages == [] then 0 else Tokens(p, messages[..|messages| - 1]) + p.countTokens(messages[|messages| - 1])
  }

  /** What a request is checked for at one provider. */
  function Reservation(p: Provider, request: Request): nat {
    p.countTokens(request.system) + Tokens(p, request.messages) + request.maxTokens
  }

  datatype Reply =
    | Answered(name: string, usage: Usage)
    | OverBudget
    | AllFailed
    | UnknownProvider
    | Raised

  /** A response, an error after which the next provider is tried, or any other exception. */
  datatype Response = Response(usage: Usage) | ProviderError | OtherError

  /** What lies outside: answers, prices, and what the other agents do while the k-th provider is awaited. */
  datatype World = World(answer: string -> Response, price: (Usage, Capabilities) -> nat, others: nat -> seq<Step>)

  ghost predicate NoRepeats(xs: seq<string>) {
    forall i, j | 0 <= i < j < |xs| :: xs[i] != xs[j]
  }

  function Without(xs: seq<string>, x: string): seq<string> {
    if xs == [] then []
    else Without(xs[..|xs| - 1], x) + (if xs[|xs| - 1] == x then [] else [xs[|xs| - 1]])
  }

  lemma {:induction false} WithoutFacts(xs: seq<string>, x: string)
    ensures forall y :: y in Without(xs, x) <==> y in xs && y != x
    ensures NoRepeats(xs) ==> NoRepeats(Without(xs, x))
  {
    if xs != [] {
      var before, last := xs[..|xs| - 1], xs[|xs| - 1];
      assert xs == before + [last];
      WithoutFacts(before, x);
      if NoRepeats(xs) {
        assert forall i | 0 <= i < |before| :: before[i] != last;
        assert forall i | 0 <= i < |Without(before, x)| :: Without(before, x)[i] in before;
      }
    }
  }

  /** What is taken out is cut out; the rest keeps its order. */
  lemma {:induction false} WithoutCuts(a: seq<string>, x: string, b: seq<string>)
    requires x !in a && x !in b
    ensures Without(a + ([x] + b), x) == a + b
  {
    if b != [] {
      var before, last := b[..|b| - 1], b[|b| - 1];
      var all := a + ([x] + b);
      assert all[..|all| - 1] == a + ([x] + before);
      WithoutCuts(a, x, before);
      assert a + b == (a + before) + [last];
    } else {
      var all := a + ([x] + b);
      assert all[..|all| - 1] == a;
      WithoutOther(a, x);
    }
  }

  lemma {:induction false} WithoutOther(a: seq<string>, x: string)
    requires x !in a
    ensures Without(a, x) == a
  {
    if a != [] { WithoutOther(a[..|a| - 1], x); }
  }

  lemma CutApart(xs: seq<string>, a: seq<string>, x: string, b: seq<string>)
    requires NoRepeats(xs) && xs == a + ([x] + b)
    ensures x !in a && x !in b && (xs[0] == x ==> a == [])
  {
    assert xs[|a|] == x;
    assert forall i | 0 <= i < |a| :: a[i] == xs[i];
    assert forall i | 0 <= i < |b| :: b[i] == xs[|a| + 1 + i];
  }

  lemma FirstThenOthers(x: string, xs: seq<string>)
    requires NoRepeats(xs)
    ensures NoRepeats([x] + Without(xs, x))
  {
    WithoutFacts(xs, x);
    assert forall i | 0 <= i < |Without(xs, x)| :: Without(xs, x)[i] in Without(xs, x);
  }

  /** The first of the cheapest, in registration order. */
  function CheapestOf(names: seq<string>, providers: map<string, Provider>): (best: string)
    requires names != [] && forall n | n in names :: n in providers
    ensures best in names
  {
    if |names| == 1 then names[0]
    else
      var best := CheapestOf(names[..|names| - 1], providers);
      var last := names[|names| - 1];
      if providers[last].capabilities.BlendedCost() < providers[best].capabilities.BlendedCost() then last else best
  }

  lemma {:induction false} CheapestIsLeast(names: seq<string>, providers: map<string, Provider>)
    requires names != [] && forall n | n in names :: n in providers
    ensures forall i | 0 <= i < |names| ::
              !Cheaper(providers[names[i]].capabilities, providers[CheapestOf(names, providers)].capabilities)
  {
    if |names| > 1 { CheapestIsLeast(names[..|names| - 1], providers); }
  }

  /** It is cheaper than whatever was registered before it. */
  lemma {:induction false} CheapestIsFirst(names: seq<string>, providers: map<string, Provider>) returns (j: nat)
    requires names != [] && forall n | n in names :: n in providers
    ensures j < |names| && names[j] == CheapestOf(names, providers)
    ensures forall i | 0 <= i < j :: Cheaper(providers[names[j]].capabilities, providers[names[i]].capabilities)
  {
    j := 0;
    if |names| > 1 {
      var before, last := names[..|names| - 1], names[|names| - 1];
      CheapestIsLeast(before, providers);
      var best := CheapestOf(before, providers);
      if providers[last].capabilities.BlendedCost() < providers[best].capabilities.BlendedCost() {
        j := |before|;
        assert forall i | 0 <= i < |before| :: names[i] == before[i];
      } else {
        j := CheapestIsFirst(before, providers);
      }
    }
  }

  /** An input token counts three times. */
  predicate Cheaper(a: Capabilities, b: Capabilities) {
    a.inputCost * 3 + a.outputCost < b.inputCost * 3 + b.outputCost
  }

  /** The ledger when the k-th provider is tried: its own call charges nothing before it succeeds. */
  function LedgerAt(start: Ledger, world: World, k: nat): Ledger {
    if k == 0 then start else ChargedAll(LedgerAt(start, world, k - 1), world.others(k - 1))
  }

  ghost predicate Fits(p: Provider, request: Request, ledger: Ledger, limit: int) {
    ledger.used + Reservation(p, request) <= limit
  }

  /** One call: the providers in order, the request, the world, and the budget it starts with. */
  datatype Call = Call(order: seq<string>, providers: map<string, Provider>, request: Request, world: World,
                       start: Ledger, limit: int) {
    function Ledger(k: nat): Ledger {
      LedgerAt(start, world, k)
    }

    /** The provider at position k passes the check and answers so. */
    ghost predicate Replies(k: nat, response: Response) {
      && k < |order| && order[k] in providers
      && Fits(providers[order[k]], request, Ledger(k), limit) && world.answer(order[k]) == response
    }

    /** The providers before position k pass the check and fail. */
    ghost predicate Reached(k: nat) {
      k <= |order| && forall i | 0 <= i < k :: Replies(i, ProviderError)
    }

    /** The provider at position k is the first that does not fail, and the budget has no room for it. */
    ghost predicate StopsAt(k: nat) {
      Reached(k) && k < |order| && order[k] in providers && !Fits(providers[order[k]], request, Ledger(k), limit)
    }

    /** The running token count of the prompt at the provider at position k: the system text, then every message. */
    ghost predicate Tallies(k: nat, sums: seq<nat>) {
      && k < |order| && order[k] in providers && |sums| == |request.messages| + 1
      && sums[0] == providers[order[k]].countTokens(request.system)
      && forall i | 0 <= i < |request.messages| ::
           sums[i + 1] == sums[i] + providers[order[k]].countTokens(request.messages[i])
    }

    /** The whole prompt and the longest answer it allows fit beside what is used at position k. */
    ghost predicate HasRoom(k: nat, sums: seq<nat>)
      requires Tallies(k, sums)
    {
      Ledger(k).used + sums[|request.messages|] + request.maxTokens <= limit
    }

    /** The provider used no more than the prompt was counted for and the request allows. */
    ghost predicate KeepsTo(k: nat, usage: Usage) {
      && usage.outputTokens <= request.maxTokens
      && exists sums :: Tallies(k, sums) && usage.inputTokens <= sums[|request.messages|]
    }

    /** Reservations are at most r, and while a provider is awaited the other agents make a run of their own. */
    ghost predicate Interleaves(agent: string, flights: nat -> Amounts, agents: set<string>, r: nat) {
      && agent in agents
      && forall k: nat {:trigger flights(k)} | k < |order| && order[k] in providers ::
           InterleavesAt(providers[order[k]], request, Shared(limit, Ledger(k), flights(k)), world.others(k), agent,
                         flights(k + 1), agents, r)
    }
  }

  lemma {:induction false} TallyAt(call: Call, k: nat, sums: seq<nat>, j: nat)
    requires call.Tallies(k, sums) && j < |sums|
    ensures var p := call.providers[call.order[k]];
            sums[j] == p.countTokens(call.request.system) + Tokens(p, call.request.messages[..j])
  {
    if j > 0 {
      assert call.request.messages[..j][..j - 1] == call.request.messages[..j - 1];
      TallyAt(call, k, sums, j - 1);
    }
  }

  lemma TallyExists(call: Call, k: nat) returns (sums: seq<nat>)
    requires k < |call.order| && call.order[k] in call.providers
    ensures call.Tallies(k, sums)
  {
    var p, texts := call.providers[call.order[k]], call.request.messages;
    sums := seq(|texts| + 1, j requires 0 <= j <= |texts| =>
      p.countTokens(call.request.system) + Tokens(p, texts[..j]));
    forall i | 0 <= i < |texts| ensures sums[i + 1] == sums[i] + p.countTokens(texts[i]) {
      assert texts[..i + 1][..i] == texts[..i];
    }
  }

  /** The check before a request is sent asks for room for every text of it and for its longest answer. */
  lemma FitsIffRoom(call: Call, k: nat, sums: seq<nat>)
    requires call.Tallies(k, sums)
    ensures Fits(call.providers[call.order[k]], call.request, call.Ledger(k), call.limit) <==> call.HasRoom(k, sums)
  {
    TallyAt(call, k, sums, |call.request.messages|);
    assert call.request.messages[..|call.request.messages|] == call.request.messages;
  }

  /** Every provider asked had room for the whole request; the one at which the call stops had not. */
  lemma RoomWhereAsked(call: Call, k: nat)
    requires call.Reached(k)
    ensures forall i: nat, sums {:trigger call.Tallies(i, sums)} | i < k && call.Tallies(i, sums) ::
              call.HasRoom(i, sums)
    ensures call.StopsAt(k) ==> forall sums | call.Tallies(k, sums) :: !call.HasRoom(k, sums)
    ensures forall response, sums | call.Replies(k, response) && call.Tallies(k, sums) :: call.HasRoom(k, sums)
  {
    forall i: nat, sums | i <= k && call.Tallies(i, sums)
      ensures Fits(call.providers[call.order[i]], call.request, call.Ledger(i), call.limit) <==> call.HasRoom(i, sums)
    {
      FitsIffRoom(call, i, sums);
    }
    forall i: nat, sums | i < k && call.Tallies(i, sums) ensures call.HasRoom(i, sums) {
      assert call.Replies(i, ProviderError);
    }
  }

  /**
   An answer that keeps to the request leaves the usage above the limit by no more than the other agents charged
   while it was awaited.
   */
  lemma AnswerStaysWithin(call: Call, k: nat, usage: Usage, agent: string, cost: nat)
    requires call.Replies(k, Response(usage)) && call.KeepsTo(k, usage)
    ensures Charged(call.Ledger(k + 1), usage, agent, cost).used <=
            call.limit + (call.Ledger(k + 1).used - call.Ledger(k).used)
    ensures call.world.others(k) == [] ==> Charged(call.Ledger(k + 1), usage, agent, cost).used <= call.limit
  {
    var sums :| call.Tallies(k, sums) && usage.inputTokens <= sums[|call.request.messages|];
    FitsIffRoom(call, k, sums);
    assert call.Ledger(k + 1) == ChargedAll(call.Ledger(k), call.world.others(k));
  }

  lemma InterleavesHere(call: Call, k: nat, agent: string, flights: nat -> Amounts, agents: set<string>, r: nat)
    requires call.Interleaves(agent, flights, agents, r) && k < |call.order| && call.order[k] in call.providers
    ensures InterleavesAt(call.providers[call.order[k]], call.request, Shared(call.limit, call.Ledger(k), flights(k)),
                          call.world.others(k), agent, flights(k + 1), agents, r)
  {
  }

  /** A call during which nobody else does anything interleaves, so what is shown of calls is shown of some. */
  lemma QuietInterleaves(call: Call, agent: string, flights: nat -> Amounts, r: nat)
    requires forall k: nat :: call.world.others(k) == [] && flights(k) == map[]
    requires forall k: nat | k < |call.order| && call.order[k] in call.providers ::
               Reservation(call.providers[call.order[k]], call.request) <= r
    ensures call.Interleaves(agent, flights, {agent}, r)
  {
    forall k: nat | k < |call.order| && call.order[k] in call.providers
      ensures InterleavesAt(call.providers[call.order[k]], call.request, Shared(call.limit, call.Ledger(k), flights(k)),
                            call.world.others(k), agent, flights(k + 1), {agent}, r)
    {
      var n := Reservation(call.providers[call.order[k]], call.request);
      var s := Shared(call.limit, call.Ledger(k), map[]);
      assert Runs(s.(inFlight := map[agent := n]), [], s.(inFlight := map[agent := n]), {agent}, r);
      assert n <= r;
    }
  }

  lemma ReachedNext(call: Call, k: nat)
    requires call.Reached(k) && call.Replies(k, ProviderError)
    ensures call.Reached(k + 1)
  {
  }

  /** The other agents go from s to `after` in flight while p is awaited. */
  ghost predicate InterleavesAt(p: Provider, request: Request, s: Shared, others: seq<Step>, agent: string,
                                after: Amounts, agents: set<string>, r: nat) {
    var n := Reservation(p, request);
    && n <= r && agent !in s.inFlight && agent !in after
    && (Fits(p, request, s.ledger, s.limit) ==>
          Runs(s.(inFlight := s.inFlight[agent := n]), others,
               Shared(s.limit, ChargedAll(s.ledger, others), after[agent := n]), agents, r))
  }

  /** Distinct names in order of first registration. */
  function NamesOf(ps: seq<Provider>): seq<string> {
    if ps == [] then []
    else
      var before, n := NamesOf(ps[..|ps| - 1]), ps[|ps| - 1].name;
      if n in before then before else before + [n]
  }

  /** A later provider replaces an earlier one of the same name. */
  function ByName(ps: seq<Provider>): map<string, Provider> {
    if ps == [] then map[] else ByName(ps[..|ps| - 1])[ps[|ps| - 1].name := ps[|ps| - 1]]
  }

  lemma FirstProvider(p: Provider)
    ensures NamesOf([p]) == [p.name] && ByName([p]) == map[p.name := p]
  {
    assert [p][..0] == [];
  }

  lemma RegisteredOne(ps: seq<Provider>, p: Provider)
    ensures NamesOf(ps + [p]) == if p.name in NamesOf(ps) then NamesOf(ps) else NamesOf(ps) + [p.name]
    ensures ByName(ps + [p]) == ByName(ps)[p.name := p]
  {
    assert (ps + [p])[..|ps|] == ps;
  }

  class LLMRouter {
    var providers: map<string, Provider>
    var names: seq<string>  // registration order
    const defaultName: string
    var chain: seq<string>  // failover order, the default first

    ghost predicate Valid()
      reads this
    {
      && NoRepeats(chain) && chain != [] && chain[0] == defaultName
      && (forall n | n in chain :: n in names)
      && NoRepeats(names) && names != []
      && (forall n {:trigger n in providers} :: n in names <==> n in providers)
      && (forall n {:trigger providers[n]} | n in providers :: providers[n].name == n)
    }

    constructor (default: Provider, fallbacks: seq<Provider> := [])
      ensures Valid() && defaultName == default.name
      ensures Lists([default] + fallbacks)
    {
      providers := map[default.name := default];
      names := [default.name];
      defaultName := default.name;
      chain := [default.name];
      FirstProvider(default);
      new;
      RegisterAll(fallbacks, default);
    }

    method RegisterAll(fallbacks: seq<Provider>, ghost default: Provider)
      requires Valid() && Lists([default])
      modifies this
      ensures Valid() && Lists([default] + fallbacks)
    {
      ghost var done := [default];
      for i := 0 to |fallbacks|
        invariant Valid() && Lists(done) && done == [default] + fallbacks[..i]
      {
        RegisterFallback(fallbacks[i], done);
        done := done + [fallbacks[i]];
      }
      assert done == [default] + fallbacks;
    }

    /** Exactly these providers were registered, all of them for failover. */
    ghost predicate Lists(done: seq<Provider>)
      reads this
    {
      chain == names == NamesOf(done) && providers == ByName(done)
    }

    method RegisterFallback(p: Provider, ghost done: seq<Provider>)
      requires Valid() && Lists(done)
      modifies this
      ensures Valid() && Lists(done + [p])
    {
      RegisteredOne(done, p);
      Register(p, true);
    }

    method Register(provider: Provider, fallback: bool)
      requires Valid()
      modifies this
      ensures Valid()
      ensures providers == old(providers)[provider.name := provider]
      ensures names == if provider.name in old(names) then old(names) else old(names) + [provider.name]
      ensures chain == if fallback && provider.name !in old(chain) then old(chain) + [provider.name] else old(chain)
    {
      if provider.name !in providers {
        names := names + [provider.name];
      }
      providers := providers[provider.name := provider];
      if fallback && provider.name !in chain {
        chain := chain + [provider.name];
      }
    }

    /** `_order` */
    function Order(provider: Option<string>, preferCheap: bool): seq<string>
      reads this
      requires Valid()
    {
      if provider.Some? then [provider.value] + Without(chain, provider.value)
      else if preferCheap then
        var first := CheapestOf(names, providers);
        [first] + Without(chain, first)
      else chain
    }

    /** The chosen provider comes first, every provider of the chain is tried, and none twice. */
    lemma OrderFacts(provider: Option<string>, preferCheap: bool)
      requires Valid()
      ensures var order := Order(provider, preferCheap);
              && order != [] && NoRepeats(order)
              && (forall n | n in chain :: n in order)
              && (forall n | n in order :: n in chain || n == order[0])
              && (provider.Some? ==> order[0] == provider.value)
              && (forall n | n in order :: n in providers || provider == Some(n))
              && (provider.None? && !preferCheap ==> order == chain)
              && (provider.None? && preferCheap ==>
                    forall n | n in providers ::
                      !Cheaper(providers[n].capabilities, providers[order[0]].capabilities))
    {
      CheapestIsLeast(names, providers);
      var first := if provider.Some? then provider.value else CheapestOf(names, providers);
      WithoutFacts(chain, first);
      FirstThenOthers(first, chain);
      forall n | n in providers
        ensures !Cheaper(providers[n].capabilities, providers[CheapestOf(names, providers)].capabilities)
      {
        var i :| 0 <= i < |names| && names[i] == n;
      }
    }

    /** Behind the provider that comes first the chain is followed as it stands, without that provider. */
    lemma OrderFollowsChain(provider: Option<string>, preferCheap: bool, order: seq<string>, a: seq<string>,
                            b: seq<string>)
      requires Valid() && order == Order(provider, preferCheap) && order != []
      ensures chain == a + ([order[0]] + b) ==> order == [order[0]] + (a + b)
      ensures order[0] !in chain ==> order == [order[0]] + chain
    {
      var x := order[0];
      if chain == a + ([x] + b) {
        CutApart(chain, a, x, b);
        WithoutCuts(a, x, b);
      }
      if x !in chain { WithoutOther(chain, x); }
    }

    /** Only an explicitly chosen name can be unknown. */
    lemma OrderKnown(provider: Option<string>, preferCheap: bool, order: seq<string>, k: nat)
      requires Valid() && order == Order(provider, preferCheap) && k < |order|
      ensures order[k] in providers ==> providers[order[k]].name == order[k]
      ensures order[k] !in providers ==> provider == Some(order[k])
    {
      OrderFacts(provider, preferCheap);
      assert order[k] in order;
    }

    ghost function CallOf(request: Request, budget: TokenBudget, provider: Option<string>, preferCheap: bool,
                          world: World): Call
      reads this, budget
      requires Valid()
    {
      Call(Order(provider, preferCheap), providers, request, world, budget.View(), budget.limit)
    }

    /**
     One completion, with other agents at work whenever it waits. The budget is charged by this call exactly
     once, for the provider that answered; an over-budget request is never passed on to another provider.
     `steps` shows the call, and what the others did meanwhile, as a run of the shared budget's step system
     that ends with `flights(m)` in flight.
     */
    method Complete(request: Request, budget: TokenBudget, agent: string, provider: Option<string>, preferCheap: bool,
                    world: World, ghost call: Call, ghost flights: nat -> Amounts, ghost agents: set<string>,
                    ghost r: nat)
      returns (reply: Reply, k: nat, ghost steps: seq<Step>, ghost m: nat)
      requires Valid() && call == CallOf(request, budget, provider, preferCheap, world)
      modifies budget
      ensures call.Reached(k)
      ensures reply.Answered? ==>
                && call.Replies(k, Response(reply.usage)) && reply.name == call.order[k]
                && budget.View() == Charged(call.Ledger(k + 1), reply.usage, agent,
                                            world.price(reply.usage, providers[reply.name].capabilities))
      ensures reply.OverBudget? ==> call.StopsAt(k) && budget.View() == call.Ledger(k)
      ensures reply.AllFailed? ==> k == |call.order| && budget.View() == call.Ledger(k)
      ensures reply.Raised? ==> call.Replies(k, OtherError) && budget.View() == call.Ledger(k + 1)
      ensures reply.UnknownProvider? ==>
                && k < |call.order| && provider == Some(call.order[k]) && call.order[k] !in providers
                && budget.View() == call.Ledger(k)
      ensures call.Interleaves(agent, flights, agents, r) ==>
                Runs(Shared(budget.limit, call.start, flights(0)), steps,
                     Shared(budget.limit, budget.View(), flights(m)), agents, r)
      ensures forall i: nat, sums {:trigger call.Tallies(i, sums)} | i <= k && call.Tallies(i, sums) ::
                call.HasRoom(i, sums) <==> !(reply.OverBudget? && i == k)
      ensures reply.Answered? && call.KeepsTo(k, reply.usage) && call.world.others(k) == [] ==>
                budget.used <= budget.limit
    {
      var order := Order(provider, preferCheap);
      ghost var start := Shared(budget.limit, budget.View(), flights(0));
      ghost var fair := call.Interleaves(agent, flights, agents, r);
      steps, k, m := [], 0, 0;
      while k < |order|
        invariant call.Reached(k) && m == k && budget.View() == call.Ledger(k)
        invariant fair ==> Runs(start, steps, Shared(budget.limit, call.Ledger(k), flights(k)), agents, r)
      {
        OrderKnown(provider, preferCheap, order, k);
        if order[k] !in providers {
          RoomWhereAsked(call, k);
          return UnknownProvider, k, steps, m;
        }
        var p := providers[order[k]];
        var attempt;
        attempt, steps, m := Try(p, request, budget, agent, world, k, call, start, steps, flights, agents, r);
        match attempt {
          case NoRoom =>
            RoomWhereAsked(call, k);
            return OverBudget, k, steps, m;
          case Failed =>
            ReachedNext(call, k);
            k := k + 1;
          case Crashed =>
            RoomWhereAsked(call, k);
            return Raised, k, steps, m;
          case Served(usage) =>
            RoomWhereAsked(call, k);
            if call.KeepsTo(k, usage) { AnswerStaysWithin(call, k, usage, agent, world.price(usage, p.capabilities)); }
            return Answered(order[k], usage), k, steps, m;
        }
      }
      RoomWhereAsked(call, k);
      return AllFailed, k, steps, m;
    }
  }

  datatype Attempted = NoRoom | Failed | Crashed | Served(usage: Usage)

  /** One round of the failover loop, in terms of the whole call. */
  method Try(p: Provider, request: Request, budget: TokenBudget, agent: string, world: World, k: nat,
             ghost call: Call, ghost start: Shared, ghost before: seq<Step>,
             ghost flights: nat -> Amounts, ghost agents: set<string>, ghost r: nat)
    returns (attempt: Attempted, ghost steps: seq<Step>, ghost m: nat)
    requires k < |call.order| && call.order[k] in call.providers && call.providers[call.order[k]] == p &&
             p.name == call.order[k]
    requires call.request == request && call.world == world && call.limit == budget.limit &&
             budget.View() == call.Ledger(k)
    requires call.Interleaves(agent, flights, agents, r) ==>
               Runs(start, before, Shared(call.limit, call.Ledger(k), flights(k)), agents, r)
    modifies budget
    ensures attempt == NoRoom ==> !Fits(p, request, call.Ledger(k), call.limit) && budget.View() == call.Ledger(k)
    ensures attempt == Failed ==> call.Replies(k, ProviderError) && budget.View() == call.Ledger(k + 1)
    ensures attempt == Crashed ==> call.Replies(k, OtherError) && budget.View() == call.Ledger(k + 1)
    ensures attempt.Served? ==>
              && call.Replies(k, Response(attempt.usage))
              && budget.View() == Charged(call.Ledger(k + 1), attempt.usage, agent,
                world.price(attempt.usage, p.capabilities))
    ensures m == if attempt == NoRoom then k else k + 1
    ensures call.Interleaves(agent, flights, agents, r) ==>
              Runs(start, steps, Shared(call.limit, budget.View(), flights(m)), agents, r)
  {
    ghost var fair := call.Interleaves(agent, flights, agents, r);
    if fair { InterleavesHere(call, k, agent, flights, agents, r); }
    ghost var here := Shared(budget.limit, budget.View(), flights(k));
    ghost var more;
    attempt, more := Attempt(p, request, budget, agent, world, world.others(k), flights(k), flights(k + 1), agents, r);
    m := if attempt == NoRoom then k else k + 1;
    steps := before + more;
    if fair { RunsConcat(start, before, here, more, Shared(budget.limit, budget.View(), flights(m)), agents, r); }
  }

  /** The other agents' charges while a response is awaited. */
  method Await(budget: TokenBudget, others: seq<Step>)
    modifies budget
    ensures budget.View() == ChargedAll(old(budget.View()), others)
  {
    for i := 0 to |others|
      invariant budget.View() == ChargedAll(old(budget.View()), others[..i])
    {
      assert others[..i + 1][..i] == others[..i];
      if others[i].Finish? {
        budget.Charge(others[i].usage, others[i].agent, others[i].cost);
      }
    }
    assert others[..|others|] == others;
  }

  /** The body of the failover loop: check, send, wait, and charge what came back. */
  method Attempt(p: Provider, request: Request, budget: TokenBudget, agent: string, world: World, others: seq<Step>,
                 ghost inFlight: Amounts, ghost after: Amounts, ghost agents: set<string>, ghost r: nat)
    returns (attempt: Attempted, ghost steps: seq<Step>)
    modifies budget
    ensures attempt == NoRoom <==> !Fits(p, request, old(budget.View()), budget.limit)
    ensures attempt == NoRoom ==> budget.View() == old(budget.View())
    ensures attempt == Failed ==> world.answer(p.name) == ProviderError
    ensures attempt == Crashed ==> world.answer(p.name) == OtherError
    ensures attempt == Failed || attempt == Crashed ==> budget.View() == ChargedAll(old(budget.View()), others)
    ensures attempt.Served? ==>
              && world.answer(p.name) == Response(attempt.usage)
              && budget.View() == Charged(ChargedAll(old(budget.View()), others), attempt.usage, agent,
                                          world.price(attempt.usage, p.capabilities))
    ensures var s := Shared(budget.limit, old(budget.View()), inFlight);
            agent in agents && InterleavesAt(p, request, s, others, agent, after, agents, r) ==>
              Runs(s, steps, Shared(budget.limit, budget.View(), if attempt == NoRoom then inFlight else after),
                agents, r)
  {
    var n := Reservation(p, request);
    ghost var s := Shared(budget.limit, budget.View(), inFlight);
    ghost var fair := agent in agents && InterleavesAt(p, request, s, others, agent, after, agents, r);
    steps := [];
    var ok := budget.Precheck(n);
    if !ok {
      if fair { steps := Then(s, [], s, Refuse(agent, n), s, agents, r); }
      return NoRoom, steps;
    }
    ghost var sent := s.(inFlight := inFlight[agent := n]);
    Await(budget, others);
    ghost var waited := Shared(budget.limit, budget.View(), after[agent := n]);
    if fair {
      steps := Then(s, [], s, Start(agent, n), sent, agents, r);
      RunsConcat(s, steps, sent, others, waited, agents, r);
      steps := steps + others;
      assert waited.inFlight - {agent} == after;
    }
    match world.answer(p.name) {
      case ProviderError =>
        if fair { steps := Then(s, steps, waited, Step.Fail(agent), waited.(inFlight := after), agents, r); }
        return Failed, steps;
      case OtherError =>
        if fair { steps := Then(s, steps, waited, Step.Fail(agent), waited.(inFlight := after), agents, r); }
        return Crashed, steps;
      case Response(usage) =>
        var cost := world.price(usage, p.capabilities);
        budget.Charge(usage, agent, cost);
        if fair {
          ghost var done := Shared(budget.limit, budget.View(), after);
          steps := Then(s, steps, waited, Finish(agent, n, usage, cost), done, agents, r);
        }
        return Served(usage), steps;
    }
  }

  ghost function Then(s: Shared, steps: seq<Step>, t: Shared, step: Step, u: Shared, agents: set<string>, r: nat)
    : (longer: seq<Step>)
    requires Runs(s, steps, t, agents, r) && Next(t, step, u) && Within(step, agents, r)
    ensures Runs(s, longer, u, agents, r)
  {
    RunsOne(t, step, u, agents, r);
    RunsConcat(s, steps, t, [step], u, agents, r);
    steps + [step]
  }
}
