/** The lazy token bucket, and the sliding-window limiter it computes. */
module RateLimit {

  datatype Call = Call(key: string, time: real, allowed: bool)

  type History = seq<Call>

  /** Tokens earned between two readings of the clock. */
  type Refill = (real, real) -> real

  function AtRate(perSec: real): Refill {
    (since: real, now: real) => (now - since) * perSec
  }

  /** What is earned up to u and from u on is earned in all. */
  ghost predicate Additive(earn: Refill) {
    forall t, u, v :: Adds(earn, t, u, v)
  }

  ghost predicate Adds(earn: Refill, t: real, u: real, v: real) {
    earn(t, u) + earn(u, v) == earn(t, v)
  }

  lemma AtRateAdditive(perSec: real)
    ensures Additive(AtRate(perSec))
  {
    forall t: real, u: real, v: real ensures Adds(AtRate(perSec), t, u, v) {
      Distribute(perSec, t, u, v);
    }
  }

  lemma Distribute(perSec: real, t: real, u: real, v: real)
    ensures (u - t) * perSec + (v - u) * perSec == (v - t) * perSec
  {
  }

  /** How many calls of the key were allowed. */
  function Allowed(h: History, key: string): nat {
    if h == [] then 0
    else Allowed(h[..|h| - 1], key) + (if h[|h| - 1].key == key && h[|h| - 1].allowed then 1 else 0)
  }

  predicate Called(h: History, key: string) {
    exists j :: 0 <= j < |h| && h[j].key == key
  }

  /** What call j of the key leaves at time t: the full capacity then, refilled since, less what was allowed since. */
  ghost function Level(capacity: real, earn: Refill, h: History, key: string, j: nat, t: real): real
    requires j < |h|
  {
    capacity + earn(h[j].time, t) - Allowed(h[j..], key) as real
  }

  /** Room for `calls` more in the window from call j, if that is a call of the key. */
  ghost predicate FitsWindow(capacity: real, earn: Refill, h: History, key: string, now: real, calls: real, j: nat) {
    j < |h| && h[j].key == key ==> calls <= Level(capacity, earn, h, key, j, now)
  }

  ghost predicate FitsAll(capacity: real, earn: Refill, h: History, key: string, now: real, calls: real) {
    forall j: nat :: FitsWindow(capacity, earn, h, key, now, calls, j)
  }

  /** The sliding-window rule: one more call fits in every window that ends now. */
  ghost predicate Admits(capacity: real, earn: Refill, h: History, key: string, now: real) {
    1.0 <= capacity && FitsAll(capacity, earn, h, key, now, 1.0)
  }

  // ---- the bucket ----

  datatype Bucket = Bucket(tokens: real, updated: real)

  ghost predicate Attains(capacity: real, earn: Refill, h: History, key: string, b: Bucket, j: nat) {
    j < |h| && h[j].key == key && b.tokens == Level(capacity, earn, h, key, j, b.updated)
  }

  /** The bucket holds the least level over all calls of its key. */
  ghost predicate Tight(capacity: real, earn: Refill, h: History, key: string, b: Bucket) {
    && FitsAll(capacity, earn, h, key, b.updated, b.tokens)
    && (exists j: nat :: Attains(capacity, earn, h, key, b, j))
  }

  function Least(a: real, b: real): real {
    if a < b then a else b
  }

  function Refilled(capacity: real, earn: Refill, b: Bucket, now: real): real {
    Least(capacity, b.tokens + earn(b.updated, now))
  }

  lemma LevelLater(capacity: real, earn: Refill, h: History, key: string, j: nat, u: real, now: real)
    requires j < |h| && Additive(earn)
    ensures Level(capacity, earn, h, key, j, now) == Level(capacity, earn, h, key, j, u) + earn(u, now)
  {
    assert Adds(earn, h[j].time, u, now);
  }

  lemma RefilledFits(capacity: real, earn: Refill, h: History, key: string, b: Bucket, now: real)
    requires Additive(earn) && FitsAll(capacity, earn, h, key, b.updated, b.tokens)
    ensures FitsAll(capacity, earn, h, key, now, Refilled(capacity, earn, b, now))
  {
    forall j: nat ensures FitsWindow(capacity, earn, h, key, now, Refilled(capacity, earn, b, now), j) {
      if j < |h| && h[j].key == key {
        assert FitsWindow(capacity, earn, h, key, b.updated, b.tokens, j);
        LevelLater(capacity, earn, h, key, j, b.updated, now);
      }
    }
  }

  /** The refilled bucket has room exactly when every window has. */
  lemma RefilledDecides(capacity: real, earn: Refill, h: History, key: string, b: Bucket, now: real)
    requires Additive(earn) && Tight(capacity, earn, h, key, b)
    ensures Refilled(capacity, earn, b, now) >= 1.0 <==> Admits(capacity, earn, h, key, now)
  {
    var r := Refilled(capacity, earn, b, now);
    RefilledFits(capacity, earn, h, key, b, now);
    if r >= 1.0 {
      forall j: nat ensures FitsWindow(capacity, earn, h, key, now, 1.0, j) {
        assert FitsWindow(capacity, earn, h, key, now, r, j);
      }
    }
    if Admits(capacity, earn, h, key, now) {
      var k: nat :| Attains(capacity, earn, h, key, b, k);
      LevelLater(capacity, earn, h, key, k, b.updated, now);
      assert FitsWindow(capacity, earn, h, key, now, 1.0, k);
    }
  }

  lemma AllowedAppend(h: History, c: Call, key: string)
    ensures Allowed(h + [c], key) == Allowed(h, key) + (if c.key == key && c.allowed then 1 else 0)
  {
    assert (h + [c])[..|h|] == h;
  }

  lemma LevelAppend(capacity: real, earn: Refill, h: History, c: Call, key: string, j: nat, t: real)
    requires j < |h|
    ensures Level(capacity, earn, h + [c], key, j, t) ==
            Level(capacity, earn, h, key, j, t) - (if c.key == key && c.allowed then 1.0 else 0.0)
  {
    assert (h + [c])[j..] == h[j..] + [c];
    AllowedAppend(h[j..], c, key);
  }

  lemma LevelOfLast(capacity: real, earn: Refill, h: History, c: Call)
    requires Additive(earn)
    ensures Level(capacity, earn, h + [c], c.key, |h|, c.time) == capacity - (if c.allowed then 1.0 else 0.0)
  {
    assert Adds(earn, c.time, c.time, c.time);
    assert (h + [c])[|h|..] == [] + [c];
    AllowedAppend([], c, c.key);
  }

  /** The bucket after a call of its key. */
  function Spent(capacity: real, earn: Refill, b: Bucket, now: real, allowed: bool): Bucket {
    Bucket(Refilled(capacity, earn, b, now) - (if allowed then 1.0 else 0.0), now)
  }

  lemma SpentFits(capacity: real, earn: Refill, h: History, b: Bucket, c: Call, j: nat)
    requires Additive(earn) && Tight(capacity, earn, h, c.key, b)
    ensures FitsWindow(capacity, earn, h + [c], c.key, c.time, Spent(capacity, earn, b, c.time, c.allowed).tokens, j)
  {
    if j < |h| && h[j].key == c.key {
      RefilledFits(capacity, earn, h, c.key, b, c.time);
      assert FitsWindow(capacity, earn, h, c.key, c.time, Refilled(capacity, earn, b, c.time), j);
      LevelAppend(capacity, earn, h, c, c.key, j, c.time);
    } else if j == |h| {
      LevelOfLast(capacity, earn, h, c);
    }
  }

  lemma SpentAttains(capacity: real, earn: Refill, h: History, b: Bucket, c: Call, k: nat) returns (m: nat)
    requires Additive(earn) && Attains(capacity, earn, h, c.key, b, k)
    ensures Attains(capacity, earn, h + [c], c.key, Spent(capacity, earn, b, c.time, c.allowed), m)
  {
    LevelOfLast(capacity, earn, h, c);
    LevelAppend(capacity, earn, h, c, c.key, k, c.time);
    LevelLater(capacity, earn, h, c.key, k, b.updated, c.time);
    m := if Refilled(capacity, earn, b, c.time) == capacity then |h| else k;
  }

  lemma SpentIsTight(capacity: real, earn: Refill, h: History, b: Bucket, c: Call)
    requires Additive(earn) && Tight(capacity, earn, h, c.key, b)
    ensures Tight(capacity, earn, h + [c], c.key, Spent(capacity, earn, b, c.time, c.allowed))
  {
    forall j: nat
      ensures FitsWindow(capacity, earn, h + [c], c.key, c.time, Spent(capacity, earn, b, c.time, c.allowed).tokens, j)
    {
      SpentFits(capacity, earn, h, b, c, j);
    }
    var k: nat :| Attains(capacity, earn, h, c.key, b, k);
    var m := SpentAttains(capacity, earn, h, b, c, k);
  }

  lemma FirstIsTight(capacity: real, earn: Refill, h: History, c: Call)
    requires Additive(earn) && !Called(h, c.key) && c.allowed
    ensures Tight(capacity, earn, h + [c], c.key, Bucket(capacity - 1.0, c.time))
  {
    LevelOfLast(capacity, earn, h, c);
    assert Attains(capacity, earn, h + [c], c.key, Bucket(capacity - 1.0, c.time), |h|);
    var g, left := h + [c], capacity - 1.0;
    forall j: nat ensures FitsWindow(capacity, earn, g, c.key, c.time, left, j) {
      if j < |h| { assert h[j].key != c.key; }
    }
  }

  lemma OthersStayTight(capacity: real, earn: Refill, h: History, c: Call, key: string, b: Bucket)
    requires Tight(capacity, earn, h, key, b) && c.key != key
    ensures Tight(capacity, earn, h + [c], key, b)
  {
    forall j: nat ensures FitsWindow(capacity, earn, h + [c], key, b.updated, b.tokens, j) {
      assert FitsWindow(capacity, earn, h, key, b.updated, b.tokens, j);
      if j < |h| { LevelAppend(capacity, earn, h, c, key, j, b.updated); }
    }
    var k: nat :| Attains(capacity, earn, h, key, b, k);
    LevelAppend(capacity, earn, h, c, key, k, b.updated);
    assert Attains(capacity, earn, h + [c], key, b, k);
  }

  /** The limiter's rule: the window rule, except that a key's first call always passes. */
  ghost predicate Rule(capacity: real, earn: Refill, h: History, key: string, now: real) {
    Admits(capacity, earn, h, key, now) || !Called(h, key)
  }

  /** Every call of the history was decided by the rule. */
  ghost predicate Served(capacity: real, earn: Refill, h: History) {
    forall n {:trigger h[n]} | 0 <= n < |h| :: h[n].allowed <==> Rule(capacity, earn, h[..n], h[n].key, h[n].time)
  }

  lemma ServedAppend(capacity: real, earn: Refill, h: History, c: Call)
    requires Served(capacity, earn, h) && (c.allowed <==> Rule(capacity, earn, h, c.key, c.time))
    ensures Served(capacity, earn, h + [c])
  {
    var g := h + [c];
    forall n | 0 <= n < |g| ensures g[n].allowed <==> Rule(capacity, earn, g[..n], g[n].key, g[n].time) {
      if n < |h| {
        assert g[..n] == h[..n] && g[n] == h[n];
      } else {
        assert g[..n] == h;
      }
    }
  }

  /** The bucket map is what the history makes it. */
  ghost predicate Mirrors(capacity: real, earn: Refill, buckets: map<string, Bucket>, h: History) {
    && Served(capacity, earn, h)
    && (forall k {:trigger k in buckets} :: k in buckets <==> Called(h, k))
    && (forall k {:trigger buckets[k]} | k in buckets :: Tight(capacity, earn, h, k, buckets[k]))
  }

  lemma CalledAppend(h: History, c: Call, key: string)
    ensures Called(h + [c], key) <==> Called(h, key) || c.key == key
  {
    var g := h + [c];
    if Called(h, key) {
      var j :| 0 <= j < |h| && h[j].key == key;
      assert g[j].key == key;
    }
    if c.key == key { assert g[|h|].key == key; }
  }

  lemma KeysNext(buckets: map<string, Bucket>, h: History, c: Call, b: Bucket)
    requires forall k {:trigger k in buckets} :: k in buckets <==> Called(h, k)
    ensures forall k {:trigger k in buckets[c.key := b]} :: k in buckets[c.key := b] <==> Called(h + [c], k)
  {
    var next := buckets[c.key := b];
    forall k ensures k in next <==> Called(h + [c], k) {
      CalledAppend(h, c, k);
      assert k in buckets <==> Called(h, k);
    }
  }

  lemma MirrorsNext(capacity: real, earn: Refill, buckets: map<string, Bucket>, h: History, c: Call, b: Bucket)
    requires Mirrors(capacity, earn, buckets, h)
    requires c.allowed <==> Rule(capacity, earn, h, c.key, c.time)
    requires Tight(capacity, earn, h + [c], c.key, b)
    ensures Mirrors(capacity, earn, buckets[c.key := b], h + [c])
  {
    var next := buckets[c.key := b];
    ServedAppend(capacity, earn, h, c);
    KeysNext(buckets, h, c, b);
    forall k | k in next ensures Tight(capacity, earn, h + [c], k, next[k]) {
      if k != c.key {
        OthersStayTight(capacity, earn, h, c, k, buckets[k]);
      }
    }
  }

  class InMemoryRateLimiter {
    const capacity: int
    const refillPerSec: real
    var buckets: map<string, Bucket>
    ghost var history: History

    ghost predicate Valid()
      reads this
    {
      Mirrors(capacity as real, AtRate(refillPerSec), buckets, history)
    }

    constructor (capacity: int, refillPerSec: real)
      ensures Valid() && history == [] && this.capacity == capacity && this.refillPerSec == refillPerSec
    {
      this.capacity, this.refillPerSec, buckets := capacity, refillPerSec, map[];
      history := [];
    }

    /** `now` is the clock reading; nothing is assumed about it. */
    method Allow(key: string, now: real) returns (ok: bool)
      requires Valid()
      modifies this
      ensures Valid() && history == old(history) + [Call(key, now, ok)]
      ensures ok <==> Rule(capacity as real, AtRate(refillPerSec), old(history), key, now)
    {
      var full, earn := capacity as real, AtRate(refillPerSec);
      AtRateAdditive(refillPerSec);
      var b: Bucket;
      if key !in buckets {
        b := Bucket(full - 1.0, now);
        ok := true;
        FirstIsTight(full, earn, history, Call(key, now, ok));
      } else {
        b := buckets[key];
        RefilledDecides(full, earn, history, key, b, now);
        ok := Refilled(full, earn, b, now) >= 1.0;
        assert Called(history, key);
        SpentIsTight(full, earn, history, b, Call(key, now, ok));
        b := Spent(full, earn, b, now, ok);
      }
      MirrorsNext(full, earn, buckets, history, Call(key, now, ok), b);
      buckets := buckets[key := b];
      history := history + [Call(key, now, ok)];
    }
  }

  // ---- what the rule guarantees ----

  /** With room for at least one call, the limiter is the sliding-window limiter, neither stricter nor laxer. */
  lemma ExactIffCapacity(capacity: real, earn: Refill, h: History, key: string, now: real)
    ensures (Rule(capacity, earn, h, key, now) <==> Admits(capacity, earn, h, key, now)) <==>
            capacity >= 1.0 || Called(h, key)
  {
    if !Called(h, key) {
      assert forall j | 0 <= j < |h| :: h[j].key != key;
      assert FitsAll(capacity, earn, h, key, now, 1.0);
    }
  }

  lemma {:induction false} AllowedConcat(g: History, h: History, key: string)
    ensures Allowed(g + h, key) == Allowed(g, key) + Allowed(h, key)
  {
    if h == [] {
      assert g + h == g;
    } else {
      assert (g + h)[..|g + h| - 1] == g + h[..|h| - 1];
      AllowedConcat(g, h[..|h| - 1], key);
    }
  }

  lemma AllowedOne(c: Call, key: string)
    ensures Allowed([c], key) == if c.key == key && c.allowed then 1 else 0
  {
    assert [c] == [] + [c];
    AllowedAppend([], c, key);
  }

  lemma WindowCount(h: History, i: nat, n: nat)
    requires i <= n < |h| && h[n].allowed
    ensures Allowed(h[i..n + 1], h[n].key) == Allowed(h[i..n], h[n].key) + 1
  {
    assert h[i..n + 1] == h[i..n] + [h[n]];
    AllowedAppend(h[i..n], h[n], h[n].key);
  }

  lemma AdmittedAt(capacity: real, earn: Refill, h: History, n: nat)
    requires Served(capacity, earn, h) && capacity >= 1.0 && n < |h| && h[n].allowed
    ensures Admits(capacity, earn, h[..n], h[n].key, h[n].time)
  {
    ExactIffCapacity(capacity, earn, h[..n], h[n].key, h[n].time);
  }

  /** Between two calls of a key, the later one allowed, the budget of the window is kept. */
  lemma WindowOfTwo(capacity: real, earn: Refill, h: History, i: nat, n: nat)
    requires Additive(earn) && Served(capacity, earn, h) && capacity >= 1.0
    requires i <= n < |h| && h[i].key == h[n].key && h[n].allowed
    ensures Allowed(h[i..n + 1], h[n].key) as real <= capacity + earn(h[i].time, h[n].time)
  {
    WindowCount(h, i, n);
    if i < n {
      AdmittedAt(capacity, earn, h, n);
      assert FitsWindow(capacity, earn, h[..n], h[n].key, h[n].time, 1.0, i);
      assert h[..n][i] == h[i] && h[..n][i..] == h[i..n];
    } else {
      assert h[i..n] == [];
      assert Adds(earn, h[n].time, h[n].time, h[n].time);
    }
  }

  /** All calls of the key in h have times between a and b. */
  ghost predicate Timed(h: History, key: string, a: real, b: real) {
    forall j | 0 <= j < |h| && h[j].key == key :: a <= h[j].time <= b
  }

  lemma DropLast(h: History, i: nat, m: nat, key: string, a: real, b: real)
    requires i < m <= |h| && Timed(h[i..m], key, a, b) && !(h[m - 1].key == key && h[m - 1].allowed)
    ensures Timed(h[i..m - 1], key, a, b) && Allowed(h[i..m], key) == Allowed(h[i..m - 1], key)
  {
    assert h[i..m] == h[i..m - 1] + [h[m - 1]];
    AllowedAppend(h[i..m - 1], h[m - 1], key);
    assert forall j | 0 <= j < m - 1 - i :: h[i..m - 1][j] == h[i..m][j];
  }

  lemma DropFirst(h: History, i: nat, m: nat, key: string, a: real, b: real)
    requires i < m <= |h| && Timed(h[i..m], key, a, b) && h[i].key != key
    ensures Timed(h[i + 1..m], key, a, b) && Allowed(h[i..m], key) == Allowed(h[i + 1..m], key)
  {
    assert h[i..m] == [h[i]] + h[i + 1..m];
    AllowedConcat([h[i]], h[i + 1..m], key);
    AllowedOne(h[i], key);
    var all, rest := h[i..m], h[i + 1..m];
    assert forall j {:trigger rest[j]} | 0 <= j < |rest| :: rest[j] == all[j + 1];
  }

  lemma Ends(h: History, i: nat, m: nat, key: string, a: real, b: real)
    requires i < m <= |h| && Timed(h[i..m], key, a, b) && h[i].key == key == h[m - 1].key
    ensures h[m - 1].time - h[i].time <= b - a
  {
    assert h[i..m][0] == h[i] && h[i..m][m - 1 - i] == h[m - 1];
  }

  /** A longer stretch of time earns no less. */
  ghost predicate Growing(earn: Refill) {
    forall t, u, a, b :: GrowsFrom(earn, t, u, a, b)
  }

  ghost predicate GrowsFrom(earn: Refill, t: real, u: real, a: real, b: real) {
    u - t <= b - a ==> earn(t, u) <= earn(a, b)
  }

  lemma AtRateGrows(perSec: real)
    requires perSec >= 0.0
    ensures Growing(AtRate(perSec))
  {
    forall t: real, u: real, a: real, b: real ensures GrowsFrom(AtRate(perSec), t, u, a, b) {
      if u - t <= b - a { Monotone(perSec, u - t, b - a); }
    }
  }

  lemma Monotone(perSec: real, d: real, e: real)
    requires perSec >= 0.0 && d <= e
    ensures d * perSec <= e * perSec
  {
  }

  lemma EarnsMore(earn: Refill, t: real, u: real, a: real, b: real)
    requires Growing(earn) && u - t <= b - a
    ensures earn(t, u) <= earn(a, b)
  {
    assert GrowsFrom(earn, t, u, a, b);
  }

  lemma WindowTo(capacity: real, earn: Refill, h: History, key: string, i: nat, m: nat, t: real, u: real)
    requires Additive(earn) && Served(capacity, earn, h) && capacity >= 1.0
    requires i < m <= |h| && h[i].key == key == h[m - 1].key && h[m - 1].allowed
    requires t == h[i].time && u == h[m - 1].time
    ensures Allowed(h[i..m], key) as real <= capacity + earn(t, u)
  {
    var n := m - 1;
    WindowOfTwo(capacity, earn, h, i, n);
    assert n + 1 == m;
  }

  lemma WindowBetween(capacity: real, earn: Refill, h: History, key: string, i: nat, m: nat, a: real, b: real)
    requires Additive(earn) && Served(capacity, earn, h) && capacity >= 1.0 && Growing(earn)
    requires i < m <= |h| && Timed(h[i..m], key, a, b) && h[i].key == key == h[m - 1].key && h[m - 1].allowed
    ensures Allowed(h[i..m], key) as real <= capacity + earn(a, b)
  {
    var t, u := h[i].time, h[m - 1].time;
    WindowTo(capacity, earn, h, key, i, m, t, u);
    Ends(h, i, m, key, a, b);
    EarnsMore(earn, t, u, a, b);
  }

  lemma {:induction false} EveryWindowBy(capacity: real, earn: Refill, h: History, key: string, i: nat, m: nat,
                                         a: real, b: real)
    requires Additive(earn) && Served(capacity, earn, h) && capacity >= 1.0 && Growing(earn) && earn(a, b) >= 0.0
    requires i <= m <= |h| && Timed(h[i..m], key, a, b)
    ensures Allowed(h[i..m], key) as real <= capacity + earn(a, b)
    decreases m - i
  {
    if i == m {
      assert h[i..m] == [];
    } else if !(h[m - 1].key == key && h[m - 1].allowed) {
      DropLast(h, i, m, key, a, b);
      EveryWindowBy(capacity, earn, h, key, i, m - 1, a, b);
    } else if h[i].key != key {
      DropFirst(h, i, m, key, a, b);
      EveryWindowBy(capacity, earn, h, key, i + 1, m, a, b);
    } else {
      WindowBetween(capacity, earn, h, key, i, m, a, b);
    }
  }

  /** Every window of the history, whatever it contains, stays within capacity plus refill. */
  lemma EveryWindow(capacity: real, perSec: real, h: History, key: string, i: nat, m: nat, a: real, b: real)
    requires Served(capacity, AtRate(perSec), h) && capacity >= 1.0 && perSec >= 0.0 && a <= b
    requires i <= m <= |h| && Timed(h[i..m], key, a, b)
    ensures Allowed(h[i..m], key) as real <= capacity + (b - a) * perSec
  {
    AtRateAdditive(perSec);
    AtRateGrows(perSec);
    Monotone(perSec, 0.0, b - a);
    EveryWindowBy(capacity, AtRate(perSec), h, key, i, m, a, b);
  }

  // ---- the rule in seconds and tokens, and what a client can count on ----

  /** The calls of the key allowed since call j, and one more, are at most what was there then and came in since. */
  ghost predicate RoomSince(capacity: real, perSec: real, h: History, key: string, now: real, j: nat) {
    j < |h| && h[j].key == key ==>
      Allowed(h[j..], key) as real + 1.0 <= capacity + (now - h[j].time) * perSec
  }

  /** A call is allowed exactly when it is the first of its key, or it fits in the window since each earlier one. */
  lemma RuleAtRate(capacity: real, perSec: real, h: History, key: string, now: real)
    ensures Rule(capacity, AtRate(perSec), h, key, now) <==>
            || (forall j: nat | j < |h| :: h[j].key != key)
            || (capacity >= 1.0 && forall j: nat :: RoomSince(capacity, perSec, h, key, now, j))
  {
    assert Called(h, key) <==> exists j: nat :: j < |h| && h[j].key == key;
    forall j: nat
      ensures FitsWindow(capacity, AtRate(perSec), h, key, now, 1.0, j) <==>
              RoomSince(capacity, perSec, h, key, now, j)
    {
    }
  }

  /** The readings of the key's calls never ran backwards, and none is later than `last`. */
  ghost predicate InOrder(h: History, key: string, last: real) {
    forall i, k | 0 <= i <= k < |h| && h[i].key == key == h[k].key :: h[i].time <= h[k].time <= last
  }

  /** From call j of the key to the end of the history, times lie between that call's and the last one's. */
  ghost predicate TimedSince(h: History, key: string, j: nat, last: real) {
    j < |h| && h[j].key == key ==> h[j].time <= last && Timed(h[j..], key, h[j].time, last)
  }

  lemma TimedFrom(h: History, key: string, j: nat, last: real)
    requires InOrder(h, key, last)
    ensures TimedSince(h, key, j, last)
  {
    if j < |h| && h[j].key == key {
      forall i | 0 <= i < |h[j..]| && h[j..][i].key == key ensures h[j].time <= h[j..][i].time <= last {
        assert h[j..][i] == h[j + i];
      }
    }
  }

  /** If the calls from j on have times between t and `last`, they keep the window. */
  ghost predicate TailKept(capacity: real, perSec: real, h: History, key: string, last: real, j: nat, t: real) {
    j < |h| && t <= last && Timed(h[j..], key, t, last) ==>
      Allowed(h[j..], key) as real <= capacity + (last - t) * perSec
  }

  lemma TailWindow(capacity: real, perSec: real, h: History, key: string, last: real, j: nat, t: real)
    requires Served(capacity, AtRate(perSec), h) && capacity >= 1.0 && perSec >= 0.0
    ensures TailKept(capacity, perSec, h, key, last, j, t)
  {
    if j < |h| && t <= last && Timed(h[j..], key, t, last) {
      assert h[j..|h|] == h[j..];
      EveryWindow(capacity, perSec, h, key, j, |h|, t, last);
    }
  }

  lemma WaitMakesRoom(capacity: real, perSec: real, h: History, key: string, last: real, now: real, j: nat, t: real)
    requires j < |h| && t == h[j].time && t <= last && Timed(h[j..], key, t, last)
    requires TailKept(capacity, perSec, h, key, last, j, t) && (now - last) * perSec >= 1.0
    ensures RoomSince(capacity, perSec, h, key, now, j)
  {
    Distribute(perSec, t, last, now);
  }

  lemma WaitingHelps(capacity: real, perSec: real, h: History, key: string, last: real, now: real)
    requires forall j: nat, t: real :: TailKept(capacity, perSec, h, key, last, j, t)
    requires InOrder(h, key, last) && (now - last) * perSec >= 1.0
    ensures forall j: nat :: RoomSince(capacity, perSec, h, key, now, j)
  {
    forall j: nat ensures RoomSince(capacity, perSec, h, key, now, j) {
      if j < |h| && h[j].key == key {
        TimedFrom(h, key, j, last);
        WaitMakesRoom(capacity, perSec, h, key, last, now, j, h[j].time);
      }
    }
  }

  /** A client whose readings never ran backwards and who lets one token come in is served. */
  lemma PatienceIsServed(capacity: real, perSec: real, h: History, key: string, last: real, now: real)
    requires Served(capacity, AtRate(perSec), h) && capacity >= 1.0 && perSec >= 0.0
    requires InOrder(h, key, last) && (now - last) * perSec >= 1.0
    ensures Rule(capacity, AtRate(perSec), h, key, now)
  {
    forall j: nat, t: real ensures TailKept(capacity, perSec, h, key, last, j, t) {
      TailWindow(capacity, perSec, h, key, last, j, t);
    }
    WaitingHelps(capacity, perSec, h, key, last, now);
    RuleAtRate(capacity, perSec, h, key, now);
  }

  // ---- keys do not affect each other ----

  function Only(h: History, key: string): History {
    if h == [] then []
    else Only(h[..|h| - 1], key) + (if h[|h| - 1].key == key then [h[|h| - 1]] else [])
  }

  lemma FitsAllAppend(capacity: real, earn: Refill, g: History, c: Call, key: string, now: real, calls: real)
    ensures var n := if c.key == key && c.allowed then 1.0 else 0.0;
            FitsAll(capacity, earn, g + [c], key, now, calls) <==>
            FitsAll(capacity, earn, g, key, now, calls + n) &&
            (c.key == key ==> calls <= capacity + earn(c.time, now) - n)
  {
    var h := g + [c];
    var n := if c.key == key && c.allowed then 1.0 else 0.0;
    forall j: nat | j < |g|
      ensures FitsWindow(capacity, earn, h, key, now, calls, j) <==>
              FitsWindow(capacity, earn, g, key, now, calls + n, j)
    {
      LevelAppend(capacity, earn, g, c, key, j, now);
    }
    assert h[|g|..] == [c];
    AllowedOne(c, key);
    assert FitsWindow(capacity, earn, h, key, now, calls, |g|) <==>
           (c.key == key ==> calls <= capacity + earn(c.time, now) - n);
    if FitsAll(capacity, earn, h, key, now, calls) {
      var more := calls + n;
      forall j: nat ensures FitsWindow(capacity, earn, g, key, now, more, j) {
        assert FitsWindow(capacity, earn, h, key, now, calls, j);
      }
    }
    if FitsAll(capacity, earn, g, key, now, calls + n) && FitsWindow(capacity, earn, h, key, now, calls, |g|) {
      forall j: nat ensures FitsWindow(capacity, earn, h, key, now, calls, j) {
        assert FitsWindow(capacity, earn, g, key, now, calls + n, j);
      }
    }
  }

  lemma {:induction false} FitsOnly(capacity: real, earn: Refill, h: History, key: string, now: real, calls: real)
    ensures FitsAll(capacity, earn, h, key, now, calls) <==> FitsAll(capacity, earn, Only(h, key), key, now, calls)
    decreases |h|
  {
    if h != [] {
      var g, c := h[..|h| - 1], h[|h| - 1];
      var n := if c.key == key && c.allowed then 1.0 else 0.0;
      assert h == g + [c];
      FitsAllAppend(capacity, earn, g, c, key, now, calls);
      FitsOnly(capacity, earn, g, key, now, calls + n);
      if c.key == key {
        FitsAllAppend(capacity, earn, Only(g, key), c, key, now, calls);
      } else {
        assert Only(h, key) == Only(g, key);
      }
    }
  }

  lemma {:induction false} CalledOnly(h: History, key: string)
    ensures Called(h, key) <==> Called(Only(h, key), key)
  {
    if h != [] {
      var g, c := h[..|h| - 1], h[|h| - 1];
      assert h == g + [c];
      CalledOnly(g, key);
      CalledAppend(g, c, key);
      if c.key == key {
        CalledAppend(Only(g, key), c, key);
      } else {
        assert Only(h, key) == Only(g, key);
      }
    }
  }

  /** Decisions about a key depend on its own calls only. */
  lemma KeysAreIndependent(capacity: real, earn: Refill, h: History, key: string, now: real)
    ensures Rule(capacity, earn, h, key, now) <==> Rule(capacity, earn, Only(h, key), key, now)
  {
    FitsOnly(capacity, earn, h, key, now, 1.0);
    CalledOnly(h, key);
  }
}
