/** The webhook replay guard: an evicting map, against the full history of deliveries. */
module ReplayGuard {
  import opened Wrappers

  datatype ReplayError = MissingId | Duplicate

  /** A call with a non-empty id, in the order in which calls held the lock. */
  datatype Delivery = Delivery(id: string, time: real, accepted: bool)

  type Log = seq<Delivery>

  /** Delivery i was accepted and no later call has found it older than the window. */
  ghost predicate Remembered(log: Log, window: real, id: string, i: nat) {
    && i < |log| && log[i].accepted && log[i].id == id
    && forall k {:trigger log[k]} | i < k < |log| :: log[k].time - window <= log[i].time
  }

  ghost predicate SeenBefore(log: Log, window: real, id: string, now: real) {
    exists i: nat :: Remembered(log, window, id, i) && now - window <= log[i].time
  }

  /** The map holds exactly the remembered deliveries, with their times. */
  ghost predicate Mirrors(seen: map<string, real>, log: Log, window: real) {
    && (forall id {:trigger id in seen} | id in seen :: exists i: nat :: Remembered(log, window, id, i))
    && (forall id, i: nat {:trigger Remembered(log, window, id, i)} | Remembered(log, window, id, i) ::
          id in seen && seen[id] == log[i].time)
  }

  function Evicted(seen: map<string, real>, cutoff: real): map<string, real> {
    map id | id in seen && seen[id] >= cutoff :: seen[id]
  }

  lemma RememberedNext(log: Log, window: real, d: Delivery, id: string, i: nat)
    ensures Remembered(log + [d], window, id, i) <==>
            if i == |log| then d.accepted && d.id == id
            else Remembered(log, window, id, i) && d.time - window <= log[i].time
  {
    var next := log + [d];
    if i < |log| {
      assert next[|log|] == d && forall k | 0 <= k < |log| :: next[k] == log[k];
    }
  }

  lemma EvictedDecides(seen: map<string, real>, log: Log, window: real, id: string, now: real)
    requires Mirrors(seen, log, window)
    ensures id in Evicted(seen, now - window) <==> SeenBefore(log, window, id, now)
  {
    if id in seen {
      var i: nat :| Remembered(log, window, id, i);
      assert seen[id] == log[i].time;
    }
  }

  lemma MirrorsAfter(seen: map<string, real>, kept: map<string, real>, after: map<string, real>, log: Log,
                     window: real, d: Delivery)
    requires Mirrors(seen, log, window)
    requires d.accepted <==> d.id !in Evicted(seen, d.time - window)
    requires kept == Evicted(seen, d.time - window) && after == (if d.accepted then kept[d.id := d.time] else kept)
    ensures Mirrors(after, log + [d], window)
  {
    var next := log + [d];
    forall id | id in after ensures exists i: nat :: Remembered(next, window, id, i) {
      if id == d.id && d.accepted {
        RememberedNext(log, window, d, id, |log|);
      } else {
        var i: nat :| Remembered(log, window, id, i);
        RememberedNext(log, window, d, id, i);
      }
    }
    forall id, i: nat | Remembered(next, window, id, i) ensures id in after && after[id] == next[i].time {
      RememberedNext(log, window, d, id, i);
      if i != |log| { assert id in kept; }
    }
  }

  class InMemoryReplayGuard {
    const windowSeconds: int
    var seen: map<string, real>
    ghost var log: Log

    ghost predicate Valid()
      reads this
    {
      Mirrors(seen, log, windowSeconds as real)
    }

    constructor (windowSeconds: int)
      ensures Valid() && log == [] && this.windowSeconds == windowSeconds
    {
      this.windowSeconds, seen, log := windowSeconds, map[], [];
    }

    /** `now` is the clock reading taken before the lock; nothing is assumed about it. */
    method CheckAndRemember(deliveryId: string, now: real) returns (r: Result<(), ReplayError>)
      requires Valid()
      modifies this
      ensures Valid()
      ensures deliveryId == "" ==> r == Err(MissingId) && log == old(log) && seen == old(seen)
      ensures deliveryId != "" ==>
                && log == old(log) + [Delivery(deliveryId, now, r.Ok?)]
                && r == if SeenBefore(old(log), windowSeconds as real, deliveryId, now) then Err(Duplicate) else Ok(())
    {
      if deliveryId == "" {
        return Err(MissingId);
      }
      var window := windowSeconds as real;
      ghost var kept := Evicted(seen, now - window);
      ghost var d := Delivery(deliveryId, now, deliveryId !in kept);
      ghost var after := if d.accepted then kept[deliveryId := now] else kept;
      EvictedDecides(seen, log, window, deliveryId, now);
      MirrorsAfter(seen, kept, after, log, window, d);
      Evict(now);
      log := log + [d];
      if deliveryId in seen {
        return Err(Duplicate);
      }
      seen := seen[deliveryId := now];
      return Ok(());
    }

    method Evict(now: real)
      modifies `seen
      ensures seen == Evicted(old(seen), now - windowSeconds as real)
    {
      var cutoff := now - windowSeconds as real;
      var stale := set k | k in seen && seen[k] < cutoff;
      var todo := stale;
      while todo != {}
        invariant todo <= stale
        invariant seen == old(seen) - (stale - todo)
        decreases todo
      {
        var k :| k in todo;
        todo := todo - {k};
        seen := seen - {k};
      }
    }
  }

  // ---- when the guard is the sliding window ----

  /** Delivery i accepted the id within the window that ends now. */
  ghost predicate AcceptedAt(log: Log, window: real, id: string, now: real, i: int) {
    0 <= i < |log| && log[i].accepted && log[i].id == id && now - log[i].time <= window
  }

  ghost predicate AcceptedWithin(log: Log, window: real, id: string, now: real) {
    exists i :: AcceptedAt(log, window, id, now, i)
  }

  /** A later call read the clock more than a window after delivery i. */
  ghost predicate Overtaken(log: Log, window: real, i: nat)
    requires i < |log|
  {
    exists k :: i < k < |log| && log[k].time - window > log[i].time
  }

  /**
   The guard lets a replay pass inside its window exactly when every acceptance of the id within the window
   has been overtaken; otherwise it decides as the window does.
   */
  lemma WrongIffAllOvertaken(log: Log, window: real, id: string, now: real)
    ensures (SeenBefore(log, window, id, now) <==> AcceptedWithin(log, window, id, now)) <==>
            (AcceptedWithin(log, window, id, now) ==>
               exists i :: AcceptedAt(log, window, id, now, i) && !Overtaken(log, window, i))
  {
    if i: nat :| Remembered(log, window, id, i) && now - window <= log[i].time {
      assert AcceptedAt(log, window, id, now, i) && !Overtaken(log, window, i);
    }
    if i :| AcceptedAt(log, window, id, now, i) && !Overtaken(log, window, i) {
      assert Remembered(log, window, id, i);
    }
  }

  /** No call so far read the clock later than now. */
  ghost predicate NoneAhead(log: Log, now: real) {
    forall k | 0 <= k < |log| :: log[k].time <= now
  }

  /** An acceptance inside the window can only be overtaken by a reading ahead of the present one. */
  lemma OvertakenNeedsAhead(log: Log, window: real, id: string, now: real, i: int)
    requires NoneAhead(log, now) && AcceptedAt(log, window, id, now, i)
    ensures !Overtaken(log, window, i)
  {
  }

  /**
   When no reading lies ahead of the present one, a delivery is a duplicate exactly when its id was accepted
   within the window.
   */
  lemma DuplicateIffWithinWindow(log: Log, window: real, id: string, now: real)
    requires NoneAhead(log, now)
    ensures SeenBefore(log, window, id, now) <==> AcceptedWithin(log, window, id, now)
  {
    WrongIffAllOvertaken(log, window, id, now);
    if i :| AcceptedAt(log, window, id, now, i) {
      OvertakenNeedsAhead(log, window, id, now, i);
    }
  }

  /** When the newest call read the latest time, the map holds exactly the ids accepted within the last window. */
  lemma MapIsTheWindow(seen: map<string, real>, log: Log, window: real, id: string, now: real)
    requires Mirrors(seen, log, window) && log != [] && now == log[|log| - 1].time && NoneAhead(log, now) &&
             window >= 0.0
    ensures id in seen <==> AcceptedWithin(log, window, id, now)
  {
    if id in seen {
      var i: nat :| Remembered(log, window, id, i);
      assert i == |log| - 1 || log[|log| - 1].time - window <= log[i].time;
      assert AcceptedAt(log, window, id, now, i);
    }
    if i :| AcceptedAt(log, window, id, now, i) {
      assert Remembered(log, window, id, i);
    }
  }

  /** Readings taken before the lock can arrive out of order; then an evicted id passes again inside its window. */
  lemma LateReadingLetsReplayPass(log: Log)
    requires log == [Delivery("d", 0.0, true), Delivery("e", 301.0, true)]
    ensures AcceptedWithin(log, 300.0, "d", 299.0) && !SeenBefore(log, 300.0, "d", 299.0)
  {
    assert AcceptedAt(log, 300.0, "d", 299.0, 0);
    forall i: nat ensures !Remembered(log, 300.0, "d", i) {
      if i == 0 { assert log[1].time - 300.0 > log[0].time; }
      if i == 1 { assert log[1].id[0] != "d"[0]; }
    }
  }
}
