/** The hash-chained audit log, and what its verification detects. */
module AuditLog {
  import opened Collections

  datatype Payload = Payload(tenant: string, actor: string, action: string, ts: string, detail: string)

  datatype AuditEvent = AuditEvent(number: nat, payload: Payload, payloadHash: string, prevHash: string, hash: string)

  /** The canonical encoding and the hash function, as hexadecimal text. */
  datatype Hashing = Hashing(canonical: Payload -> string, sha: string -> string) {
    function PayloadHash(p: Payload): string {
      sha(canonical(p))
    }

    function ChainHash(prevHash: string, payloadHash: string): string {
      sha(prevHash + payloadHash)
    }
  }

  const HASH_LENGTH := 64

  const GENESIS: string := Zeros(HASH_LENGTH)

  function Zeros(n: nat): string {
    seq(n, _ => '0')
  }

  type Chain = seq<AuditEvent>

  function Head(c: Chain): string {
    if c == [] then GENESIS else c[|c| - 1].hash
  }

  predicate Links(h: Hashing, prev: string, e: AuditEvent) {
    && e.payloadHash == h.PayloadHash(e.payload)
    && e.prevHash == prev
    && e.hash == h.ChainHash(e.prevHash, h.PayloadHash(e.payload))
  }

  /** Every event links to the one before it, the first to the genesis value. */
  predicate Verifies(h: Hashing, c: Chain) {
    c == [] || (Verifies(h, c[..|c| - 1]) && Links(h, Head(c[..|c| - 1]), c[|c| - 1]))
  }

  class HashChainedAuditLog {
    const hashing: Hashing
    var chains: map<string, Chain>

    function ChainOf(tenant: string): Chain
      reads this
    {
      if tenant in chains then chains[tenant] else []
    }

    /** Every tenant's chain verifies. */
    ghost predicate Valid()
      reads this
    {
      forall t {:trigger ChainOf(t)} :: Verifies(hashing, ChainOf(t))
    }

    constructor (hashing: Hashing)
      ensures Valid() && chains == map[] && this.hashing == hashing
    {
      this.hashing, chains := hashing, map[];
    }

    method Record(tenant: string, actor: string, action: string, ts: string, detail: string) returns (event: AuditEvent)
      requires Valid()
      modifies this
      ensures Valid()
      ensures ChainOf(tenant) == old(ChainOf(tenant)) + [event]
      ensures event.payload == Payload(tenant, actor, action, ts, detail) && event.number == |old(ChainOf(tenant))|
      ensures forall t | t != tenant :: ChainOf(t) == old(ChainOf(t))
    {
      var chain := ChainOf(tenant);
      var prevHash := Head(chain);
      var p := Payload(tenant, actor, action, ts, detail);
      var ph := hashing.PayloadHash(p);
      event := AuditEvent(|chain|, p, ph, prevHash, hashing.ChainHash(prevHash, ph));
      ghost var before := chains;
      assert (chain + [event])[..|chain|] == chain;
      chains := chains[tenant := chain + [event]];
      forall t ensures Verifies(hashing, ChainOf(t)) {
        assert old(Verifies(hashing, ChainOf(t)));
        assert t != tenant ==> ChainOf(t) == old(ChainOf(t));
      }
    }

    /** Recomputes a chain that may have been tampered with. */
    method Verify(tenant: string) returns (ok: bool)
      ensures ok <==> Verifies(hashing, ChainOf(tenant))
    {
      var chain := ChainOf(tenant);
      var prev := GENESIS;
      for i := 0 to |chain|
        invariant Verifies(hashing, chain[..i]) && prev == Head(chain[..i])
      {
        var e := chain[i];
        assert chain[..i + 1][..i] == chain[..i] && chain[..i + 1][i] == e;
        var ph := hashing.PayloadHash(e.payload);
        if ph != e.payloadHash || e.prevHash != prev || hashing.ChainHash(e.prevHash, ph) != e.hash {
          BrokenLink(hashing, chain, i + 1);
          return false;
        }
        prev := e.hash;
      }
      assert chain[..|chain|] == chain;
      return true;
    }
  }

  lemma {:induction false} PrefixVerifies(h: Hashing, c: Chain, n: nat)
    requires Verifies(h, c) && n <= |c|
    ensures Verifies(h, c[..n])
  {
    if n < |c| {
      assert c[..|c| - 1][..n] == c[..n];
      PrefixVerifies(h, c[..|c| - 1], n);
    } else {
      assert c[..n] == c;
    }
  }

  lemma BrokenLink(h: Hashing, c: Chain, n: nat)
    requires n <= |c| && !Verifies(h, c[..n])
    ensures !Verifies(h, c)
  {
    if Verifies(h, c) { PrefixVerifies(h, c, n); }
  }

  // ---- what a head hash pins down ----

  /** The texts that are hashed when c is verified. */
  function Hashed(h: Hashing, c: Chain): set<string> {
    if c == [] then {}
    else
      var e := c[|c| - 1];
      Hashed(h, c[..|c| - 1]) + {h.canonical(e.payload), e.prevHash + h.PayloadHash(e.payload)}
  }

  ghost predicate ToldApart(h: Hashing, x: string, y: string) {
    h.sha(x) == h.sha(y) ==> x == y
  }

  /** Hashes have a fixed length, and among the given texts none collides or hits the genesis value. */
  ghost predicate CollisionFree(h: Hashing, texts: set<string>) {
    && (forall x {:trigger h.sha(x)} :: |h.sha(x)| == HASH_LENGTH)
    && (forall x, y {:trigger ToldApart(h, x, y)} | x in texts && y in texts :: ToldApart(h, x, y))
    && (forall x {:trigger h.sha(x)} | x in texts :: h.sha(x) != GENESIS)
  }

  ghost predicate Canonical(h: Hashing) {
    forall p, q | h.canonical(p) == h.canonical(q) :: p == q
  }

  lemma LastEvent(h: Hashing, c: Chain, texts: set<string>)
    requires Verifies(h, c) && c != [] && CollisionFree(h, texts) && Hashed(h, c) <= texts
    ensures var e := c[|c| - 1];
            && Links(h, Head(c[..|c| - 1]), e) && |e.prevHash| == HASH_LENGTH
            && {h.canonical(e.payload), e.prevHash + h.PayloadHash(e.payload)} <= texts
  {
  }

  lemma Subfree(h: Hashing, some: set<string>, all: set<string>)
    requires CollisionFree(h, all) && some <= all
    ensures CollisionFree(h, some)
  {
  }

  ghost predicate SamePayloads(c: Chain, d: Chain) {
    |c| == |d| && forall i | 0 <= i < |c| :: c[i].payload == d[i].payload
  }

  lemma Injective(h: Hashing, texts: set<string>, x: string, y: string)
    requires CollisionFree(h, texts) && x in texts && y in texts && h.sha(x) == h.sha(y)
    ensures x == y
  {
    assert ToldApart(h, x, y);
  }

  /** Two linked events with the same hash have the same predecessor hash and the same payload. */
  lemma HashPinsEvent(h: Hashing, e: AuditEvent, f: AuditEvent, texts: set<string>)
    requires Links(h, e.prevHash, e) && Links(h, f.prevHash, f) && e.hash == f.hash && |e.prevHash| == |f.prevHash|
    requires Canonical(h) && CollisionFree(h, texts)
    requires {h.canonical(e.payload), e.prevHash + h.PayloadHash(e.payload)} <= texts
    requires {h.canonical(f.payload), f.prevHash + h.PayloadHash(f.payload)} <= texts
    ensures e.prevHash == f.prevHash && e.payload == f.payload
  {
    Injective(h, texts, e.prevHash + h.PayloadHash(e.payload), f.prevHash + h.PayloadHash(f.payload));
    SplitEqual(e.prevHash, h.PayloadHash(e.payload), f.prevHash, h.PayloadHash(f.payload));
    Injective(h, texts, h.canonical(e.payload), h.canonical(f.payload));
  }

  lemma HeadNotGenesis(h: Hashing, c: Chain, texts: set<string>)
    requires Verifies(h, c) && c != [] && Hashed(h, c) <= texts && CollisionFree(h, texts)
    ensures Head(c) != GENESIS
  {
    var e := c[|c| - 1];
    assert e.prevHash + h.PayloadHash(e.payload) in Hashed(h, c);
  }

  /** Two verified chains with the same head hash tell the same story. */
  lemma {:induction false} HeadPinsHistory(h: Hashing, c: Chain, d: Chain)
    requires Verifies(h, c) && Verifies(h, d) && Head(c) == Head(d)
    requires Canonical(h) && CollisionFree(h, Hashed(h, c) + Hashed(h, d))
    ensures SamePayloads(c, d)
  {
    var all := Hashed(h, c) + Hashed(h, d);
    if c != [] { HeadNotGenesis(h, c, all); }
    if d != [] { HeadNotGenesis(h, d, all); }
    if c != [] && d != [] {
      var c', d' := c[..|c| - 1], d[..|d| - 1];
      LastEvent(h, c, all);
      LastEvent(h, d, all);
      HashPinsEvent(h, c[|c| - 1], d[|d| - 1], all);
      Subfree(h, Hashed(h, c') + Hashed(h, d'), all);
      HeadPinsHistory(h, c', d');
    }
  }

  // ---- deleting, reordering and repeating events ----

  lemma {:induction false} HashedPrefix(h: Hashing, c: Chain, n: nat)
    requires n <= |c|
    ensures Hashed(h, c[..n]) <= Hashed(h, c)
  {
    if n < |c| {
      assert c[..|c| - 1][..n] == c[..n];
      HashedPrefix(h, c[..|c| - 1], n);
    } else {
      assert c[..n] == c;
    }
  }

  lemma LinkAt(h: Hashing, c: Chain, j: nat)
    requires Verifies(h, c) && j < |c|
    ensures c[j].prevHash == Head(c[..j])
  {
    PrefixVerifies(h, c, j + 1);
    assert c[..j + 1][..j] == c[..j] && c[..j + 1][j] == c[j];
  }

  lemma HeadsDiffer(h: Hashing, c: Chain, i: nat, j: nat)
    requires Verifies(h, c) && Canonical(h) && CollisionFree(h, Hashed(h, c)) && i <= |c| && j <= |c|
    ensures Head(c[..i]) == Head(c[..j]) ==> i == j
  {
    PrefixVerifies(h, c, i);
    PrefixVerifies(h, c, j);
    HashedPrefix(h, c, i);
    HashedPrefix(h, c, j);
    Subfree(h, Hashed(h, c[..i]) + Hashed(h, c[..j]), Hashed(h, c));
    if Head(c[..i]) == Head(c[..j]) { HeadPinsHistory(h, c[..i], c[..j]); }
  }

  predicate Member(e: AuditEvent, c: Chain) {
    e in c
  }

  /** d is made of events of c: some deleted, moved or repeated. */
  ghost predicate DrawnFrom(d: Chain, c: Chain) {
    forall i {:trigger Member(d[i], c)} | 0 <= i < |d| :: Member(d[i], c)
  }

  /** An event fits behind k events of its own chain only where it stands already. */
  lemma FitsOnlyInPlace(h: Hashing, c: Chain, k: nat, e: AuditEvent)
    requires Verifies(h, c) && Canonical(h) && CollisionFree(h, Hashed(h, c))
    requires k <= |c| && e in c && e.prevHash == Head(c[..k])
    ensures k < |c| && c[k] == e
  {
    var j :| 0 <= j < |c| && c[j] == e;
    LinkAt(h, c, j);
    HeadsDiffer(h, c, j, k);
  }

  lemma ContinuesOriginal(h: Hashing, c: Chain, d: Chain, k: nat)
    requires Verifies(h, c) && Canonical(h) && CollisionFree(h, Hashed(h, c))
    requires Verifies(h, d) && k < |d| && Member(d[k], c)
    requires k <= |c| && d[..k] == c[..k]
    ensures k < |c| && d[k] == c[k]
  {
    LinkAt(h, d, k);
    FitsOnlyInPlace(h, c, k, d[k]);
  }

  lemma Longer(c: Chain, d: Chain, k: nat)
    requires k < |c| && k < |d| && d[..k] == c[..k] && d[k] == c[k]
    ensures d[..k + 1] == c[..k + 1]
  {
    assert d[..k + 1] == d[..k] + [d[k]] && c[..k + 1] == c[..k] + [c[k]];
  }

  lemma {:induction false} FollowsOriginal(h: Hashing, c: Chain, d: Chain, k: nat)
    requires Verifies(h, c) && Canonical(h) && CollisionFree(h, Hashed(h, c))
    requires Verifies(h, d) && DrawnFrom(d, c) && k <= |d|
    ensures k <= |c| && d[..k] == c[..k]
  {
    if k > 0 {
      FollowsOriginal(h, c, d, k - 1);
      assert Member(d[k - 1], c);
      ContinuesOriginal(h, c, d, k - 1);
      Longer(c, d, k - 1);
    }
  }

  /**
   Of all sequences made of a verified chain's events, by deleting, reordering or repeating, exactly
   its prefixes verify: everything is detected except cutting off the end.
   */
  lemma OnlyPrefixesVerify(h: Hashing, c: Chain, d: Chain)
    requires Verifies(h, c) && Canonical(h) && CollisionFree(h, Hashed(h, c))
    requires DrawnFrom(d, c)
    ensures Verifies(h, d) <==> d <= c
  {
    if d <= c {
      PrefixVerifies(h, c, |d|);
      assert d == c[..|d|];
    }
    if Verifies(h, d) { FollowsOriginal(h, c, d, |d|); }
  }

  lemma EventsDiffer(h: Hashing, c: Chain, i: nat, j: nat)
    requires Verifies(h, c) && Canonical(h) && CollisionFree(h, Hashed(h, c)) && i < j < |c|
    ensures c[i] != c[j]
  {
    LinkAt(h, c, i);
    LinkAt(h, c, j);
    HeadsDiffer(h, c, i, j);
  }

  lemma AtPrefix(d: Chain, c: Chain, i: nat)
    requires i < |d|
    ensures d <= c ==> i < |c| && d[i] == c[i]
  {
  }

  /** Cutting a stretch out of a chain goes unnoticed only at its end. */
  lemma DeletionDetectedIff(h: Hashing, c: Chain, i: nat, j: nat)
    requires Verifies(h, c) && Canonical(h) && CollisionFree(h, Hashed(h, c)) && i <= j <= |c|
    ensures Verifies(h, c[..i] + c[j..]) <==> i == j || j == |c|
  {
    var d := c[..i] + c[j..];
    assert DrawnFrom(d, c);
    OnlyPrefixesVerify(h, c, d);
    if i == j { assert d == c; }
    if j == |c| { assert d == c[..i]; }
    if i < j < |c| {
      EventsDiffer(h, c, i, j);
      AtPrefix(d, c, i);
      assert d[i] == c[j];
    }
  }

  /** Changing what an event says breaks the chain, unless the change collides. */
  lemma TamperingDetected(h: Hashing, c: Chain, i: nat, p: Payload)
    requires i < |c| && p != c[i].payload && Canonical(h)
    requires Verifies(h, c) && CollisionFree(h, {h.canonical(p), h.canonical(c[i].payload)})
    ensures !Verifies(h, c[i := c[i].(payload := p)])
  {
    var d := c[i := c[i].(payload := p)];
    PrefixVerifies(h, c, i + 1);
    assert c[..i + 1][i] == c[i] && d[..i + 1][i] == d[i];
    assert ToldApart(h, h.canonical(p), h.canonical(c[i].payload));
    assert !Links(h, Head(d[..i + 1][..i]), d[i]);
    BrokenLink(h, d, i + 1);
  }

  /** The event number is not covered by any hash. */
  lemma {:induction false} NumbersUncovered(h: Hashing, c: Chain, i: nat, n: nat)
    requires i < |c|
    ensures Verifies(h, c[i := c[i].(number := n)]) <==> Verifies(h, c)
  {
    var d := c[i := c[i].(number := n)];
    var c', d' := c[..|c| - 1], d[..|d| - 1];
    if i < |c'| {
      NumbersUncovered(h, c', i, n);
      assert d' == c'[i := c'[i].(number := n)];
    } else {
      assert d' == c';
    }
    assert Head(d') == Head(c');
  }

  // ---- inserting and changing events ----

  /** The texts that are hashed when e is verified. */
  function EventTexts(h: Hashing, e: AuditEvent): set<string> {
    {h.canonical(e.payload), e.prevHash + h.PayloadHash(e.payload)}
  }

  lemma {:induction false} TextsIn(h: Hashing, c: Chain, i: nat)
    requires i < |c|
    ensures EventTexts(h, c[i]) <= Hashed(h, c)
  {
    if i < |c| - 1 { TextsIn(h, c[..|c| - 1], i); }
  }

  lemma LinkedAt(h: Hashing, c: Chain, j: nat)
    requires Verifies(h, c) && j < |c|
    ensures Links(h, Head(c[..j]), c[j])
  {
    PrefixVerifies(h, c, j + 1);
    assert c[..j + 1][..j] == c[..j] && c[..j + 1][j] == c[j];
  }

  /** Two events at the same place with the same hash differ at most in their numbers. */
  lemma SameHashSameEvent(h: Hashing, c: Chain, i: nat, e: AuditEvent, texts: set<string>)
    requires Verifies(h, c) && i < |c| && Links(h, Head(c[..i]), e) && e.hash == c[i].hash
    requires Canonical(h) && CollisionFree(h, texts) && Hashed(h, c) <= texts && EventTexts(h, e) <= texts
    ensures e == c[i].(number := e.number)
  {
    LinkedAt(h, c, i);
    TextsIn(h, c, i);
    HashPinsEvent(h, e, c[i], texts);
  }

  lemma NextPointsBack(h: Hashing, d: Chain, i: nat)
    requires Verifies(h, d) && i + 1 < |d|
    ensures d[i + 1].prevHash == d[i].hash
  {
    LinkedAt(h, d, i + 1);
    assert d[..i + 1][i] == d[i];
  }

  /**
   Replacing an event goes unnoticed exactly when only its number changes, or when it is the last one and
   the replacement carries the right hashes.
   */
  lemma MutationDetectedIff(h: Hashing, c: Chain, d: Chain, i: nat, e: AuditEvent)
    requires i < |c| && d == c[i := e] && Verifies(h, c)
    requires Canonical(h) && CollisionFree(h, Hashed(h, c) + EventTexts(h, e))
    ensures Verifies(h, d) <==> e == c[i].(number := e.number) || (i == |c| - 1 && Links(h, Head(c[..i]), e))
  {
    assert d[..i] == c[..i] && d[i] == e;
    if Verifies(h, d) {
      LinkedAt(h, d, i);
      if i + 1 < |c| {
        NextPointsBack(h, d, i);
        NextPointsBack(h, c, i);
        SameHashSameEvent(h, c, i, e, Hashed(h, c) + EventTexts(h, e));
      }
    }
    if e == c[i].(number := e.number) { NumbersUncovered(h, c, i, e.number); }
    if i == |c| - 1 { PrefixVerifies(h, c, i); }
  }

  /** An event linked behind the first i never has the hash it links to. */
  lemma HashMovesOn(h: Hashing, c: Chain, i: nat, e: AuditEvent, texts: set<string>)
    requires Verifies(h, c) && i <= |c| && Links(h, Head(c[..i]), e)
    requires Canonical(h) && CollisionFree(h, texts) && Hashed(h, c) <= texts && EventTexts(h, e) <= texts
    ensures e.hash != Head(c[..i])
  {
    assert e.prevHash + h.PayloadHash(e.payload) in EventTexts(h, e);
    if i > 0 {
      assert c[..i][i - 1] == c[i - 1];
      LinkedAt(h, c, i - 1);
      TextsIn(h, c, i - 1);
      Subfree(h, Hashed(h, c), texts);
      HeadHasLength(h, c, i, texts);
      HeadHasLength(h, c, i - 1, texts);
      HeadsDiffer(h, c, i, i - 1);
      if e.hash == c[i - 1].hash { HashPinsEvent(h, e, c[i - 1], texts); }
    }
  }

  lemma HeadHasLength(h: Hashing, c: Chain, i: nat, texts: set<string>)
    requires Verifies(h, c) && CollisionFree(h, texts) && i <= |c|
    ensures |Head(c[..i])| == HASH_LENGTH
  {
    if i > 0 {
      LinkedAt(h, c, i - 1);
      assert c[..i][i - 1] == c[i - 1];
    }
  }

  /** Inserting an event goes unnoticed only at the end, and only if it carries the right hashes. */
  lemma InsertionDetectedIff(h: Hashing, c: Chain, d: Chain, i: nat, e: AuditEvent)
    requires i <= |c| && d == c[..i] + [e] + c[i..] && Verifies(h, c)
    requires Canonical(h) && CollisionFree(h, Hashed(h, c) + EventTexts(h, e))
    ensures Verifies(h, d) <==> i == |c| && Links(h, Head(c), e)
  {
    assert d[..i] == c[..i] && d[i] == e;
    if i == |c| {
      assert c[..i] == c && d[..|d| - 1] == c;
    } else if Verifies(h, d) {
      LinkedAt(h, d, i);
      assert d[i + 1] == c[i];
      NextPointsBack(h, d, i);
      LinkedAt(h, c, i);
      HashMovesOn(h, c, i, e, Hashed(h, c) + EventTexts(h, e));
    }
  }

  /** The event that `record` would append. */
  function EventFor(h: Hashing, c: Chain, p: Payload): AuditEvent {
    AuditEvent(|c|, p, h.PayloadHash(p), Head(c), h.ChainHash(Head(c), h.PayloadHash(p)))
  }

  function Extended(h: Hashing, c: Chain, ps: seq<Payload>): Chain {
    if ps == [] then c
    else
      var before := Extended(h, c, ps[..|ps| - 1]);
      before + [EventFor(h, before, ps[|ps| - 1])]
  }

  lemma {:induction false} ExtendedVerifies(h: Hashing, c: Chain, ps: seq<Payload>)
    requires Verifies(h, c)
    ensures Verifies(h, Extended(h, c, ps))
  {
    if ps != [] {
      var before := Extended(h, c, ps[..|ps| - 1]);
      ExtendedVerifies(h, c, ps[..|ps| - 1]);
      assert Extended(h, c, ps)[..|before|] == before;
    }
  }

  lemma {:induction false} ExtendedShape(h: Hashing, c: Chain, ps: seq<Payload>, d: Chain)
    requires d == Extended(h, c, ps)
    ensures |d| == |c| + |ps| && d[..|c|] == c
    ensures forall i | 0 <= i < |ps| :: d[|c| + i].payload == ps[i]
  {
    if ps != [] {
      var before := Extended(h, c, ps[..|ps| - 1]);
      ExtendedShape(h, c, ps[..|ps| - 1], before);
    }
  }

  /** Whoever can recompute hashes can rewrite a chain behind its first n events, with any payloads, unnoticed. */
  lemma RewrittenEndVerifies(h: Hashing, c: Chain, n: nat, kept: Chain, ps: seq<Payload>)
    requires Verifies(h, c) && n <= |c| && kept == c[..n]
    ensures Verifies(h, Extended(h, kept, ps))
    ensures |Extended(h, kept, ps)| == |kept| + |ps| && Extended(h, kept, ps)[..|kept|] == kept
    ensures forall i | 0 <= i < |ps| :: Extended(h, kept, ps)[|kept| + i].payload == ps[i]
  {
    PrefixVerifies(h, c, n);
    ExtendedVerifies(h, kept, ps);
    ExtendedShape(h, kept, ps, Extended(h, kept, ps));
  }
}
