/** Exactly which calls the limiter lets through, said without buckets: as many as any window allows. */
module RateAdmission {
  import opened RealArithmetic
  import opened RateLimiting

  /** What the key's bucket holds at an instant, counting a missing one as full. */
  function Held(c: Config, s: Limiter, calls: seq<Call>, k: Key, now: real): real {
    var after := Run(c, s, calls);
    Refilled(c, if k in after.levels then after.levels[k] else Level(c.capacity as real, now), now)
  }

  /** The key has no bucket yet, or one that is full when the calls begin. */
  predicate StartsFull(c: Config, s: Limiter, k: Key, start: real) {
    k in s.levels ==> Refilled(c, s.levels[k], start) == c.capacity as real
  }

  /** The key's calls let through from the `j`th call on. */
  function AdmittedFrom(c: Config, s: Limiter, calls: seq<Call>, k: Key, j: nat): int
    requires j <= |calls|
  {
    AdmittedCount(c, s, calls, k) - AdmittedCount(c, s, calls[..j], k)
  }

  /** What a full bucket and the refill since the `j`th call leave over. */
  function Spare(c: Config, s: Limiter, calls: seq<Call>, k: Key, j: nat, now: real): real
    requires j < |calls|
  {
    c.capacity as real + Gain(c, calls[j].now, now) - AdmittedFrom(c, s, calls, k, j) as real
  }

  lemma RefillIsAdditive(c: Config, b: Level, now: real, later: real)
    requires c.Valid() && now <= later
    ensures Refilled(c, b, later) == Min(c.capacity as real, Refilled(c, b, now) + Gain(c, now, later))
  {
  }

  /** Of a call the key's bucket loses what the call takes, and nothing to the calls of others. */
  lemma HeldAfterCall(c: Config, s: Limiter, calls: seq<Call>, k: Key, now: real)
    requires c.Valid() && calls != [] && calls[|calls| - 1].now <= now
    requires Evictions(c, s, calls, k) == 0
    ensures var last := |calls| - 1;
            var taken := AdmittedCount(c, s, calls, k) - AdmittedCount(c, s, calls[..last], k);
            Held(c, s, calls, k, now) == Min(c.capacity as real,
                                             Held(c, s, calls[..last], k, calls[last].now) - taken as real
                                             + Gain(c, calls[last].now, now))
  {
    var last := |calls| - 1;
    var before, call := Run(c, s, calls[..last]), calls[last];
    if call.key == k {
      AdmitOwnKey(c, before, k, call.now,
                  if k in before.levels then before.levels[k] else Level(c.capacity as real, call.now));
    } else {
      AdmitOtherKey(c, before, call.key, call.now, k);
      if k in before.levels {
        RefillIsAdditive(c, before.levels[k], call.now, now);
      }
    }
  }

  /** The bucket holds the least of what any window so far leaves over, the capacity at most. */
  ghost predicate HoldsLeast(c: Config, s: Limiter, calls: seq<Call>, k: Key, now: real) {
    var held := Held(c, s, calls, k, now);
    && held <= c.capacity as real
    && (forall j :: 0 <= j < |calls| ==> held <= Spare(c, s, calls, k, j, now))
    && (held == c.capacity as real || exists j :: 0 <= j < |calls| && held == Spare(c, s, calls, k, j, now))
  }

  lemma SpareAfterCall(c: Config, s: Limiter, calls: seq<Call>, k: Key, j: nat, now: real)
    requires j < |calls| - 1
    ensures var last := |calls| - 1;
            Spare(c, s, calls, k, j, now) ==
            Spare(c, s, calls[..last], k, j, calls[last].now)
            - (AdmittedCount(c, s, calls, k) - AdmittedCount(c, s, calls[..last], k)) as real
            + Gain(c, calls[last].now, now)
  {
    assert calls[..|calls| - 1][..j] == calls[..j];
  }

  lemma HoldsLeastAfterCall(c: Config, s: Limiter, calls: seq<Call>, k: Key, now: real)
    requires c.Valid() && calls != [] && calls[|calls| - 1].now <= now && Evictions(c, s, calls, k) == 0
    requires HoldsLeast(c, s, calls[..|calls| - 1], k, calls[|calls| - 1].now)
    ensures HoldsLeast(c, s, calls, k, now)
  {
    var last := |calls| - 1;
    var init, t := calls[..last], calls[last].now;
    var held, before := Held(c, s, calls, k, now), Held(c, s, init, k, t);
    HeldAfterCall(c, s, calls, k, now);
    forall j | 0 <= j < |calls| ensures held <= Spare(c, s, calls, k, j, now) {
      if j < last {
        SpareAfterCall(c, s, calls, k, j, now);
        assert before <= Spare(c, s, init, k, j, t);
      }
    }
    if held != c.capacity as real {
      if before == c.capacity as real {
        assert held == Spare(c, s, calls, k, last, now);
      } else {
        var j :| 0 <= j < |init| && before == Spare(c, s, init, k, j, t);
        SpareAfterCall(c, s, calls, k, j, now);
        assert held == Spare(c, s, calls, k, j, now);
      }
    }
  }

  lemma {:induction false} HeldIsLeast(c: Config, s: Limiter, start: real, calls: seq<Call>, k: Key, now: real)
    requires c.Valid() && Ordered(calls, start) && End(calls, start) <= now
    requires StartsFull(c, s, k, start) && Evictions(c, s, calls, k) == 0
    ensures HoldsLeast(c, s, calls, k, now)
  {
    if calls == [] {
      if k in s.levels {
        RefillIsAdditive(c, s.levels[k], start, now);
      }
    } else {
      HeldIsLeast(c, s, start, calls[..|calls| - 1], k, calls[|calls| - 1].now);
      HoldsLeastAfterCall(c, s, calls, k, now);
    }
  }

  /** As long as the key's bucket is not dropped, a call is let through if and only if in every window
      that ends with it, this call included, no more of the key's calls are let through than a full
      bucket and the window's refill allow. */
  lemma LetThroughExactly(c: Config, s: Limiter, start: real, calls: seq<Call>, i: nat)
    requires c.Valid() && Ordered(calls, start) && i < |calls|
    requires StartsFull(c, s, calls[i].key, start) && Evictions(c, s, calls[..i], calls[i].key) == 0
    ensures Decision(c, s, calls, i) <==>
            c.capacity >= 1
            && forall j :: 0 <= j < i ==>
                 (AdmittedFrom(c, s, calls[..i], calls[i].key, j) + 1) as real
                 <= c.capacity as real + Gain(c, calls[j].now, calls[i].now)
  {
    var before, k, now := calls[..i], calls[i].key, calls[i].now;
    HeldIsLeast(c, s, start, before, k, now);
    var held := Held(c, s, before, k, now);
    assert Decision(c, s, calls, i) <==> held >= 1.0;
    forall j | 0 <= j < i
      ensures Spare(c, s, before, k, j, now) >= 1.0 <==>
              (AdmittedFrom(c, s, before, k, j) + 1) as real <= c.capacity as real + Gain(c, calls[j].now, now)
      ensures held <= Spare(c, s, before, k, j, now)
    {
    }
  }

  lemma {:induction false} AdmittedAreCalls(c: Config, s: Limiter, calls: seq<Call>, k: Key, j: nat)
    requires j <= |calls|
    ensures AdmittedFrom(c, s, calls, k, j) <= |KeyTimes(calls, k)|
    ensures AdmittedCount(c, s, calls[..j], k) <= AdmittedCount(c, s, calls, k)
  {
    assert calls[..|calls|] == calls;
    if j < |calls| {
      var init := calls[..|calls| - 1];
      AdmittedAreCalls(c, s, init, k, j);
      assert init[..j] == calls[..j];
    }
  }

  /** A burst passes: as long as its bucket is not dropped, a key's first `capacity` calls are let
      through, however close together and whatever else is called. */
  lemma BurstPasses(c: Config, s: Limiter, start: real, calls: seq<Call>, i: nat)
    requires c.Valid() && Ordered(calls, start) && i < |calls|
    requires StartsFull(c, s, calls[i].key, start) && Evictions(c, s, calls[..i], calls[i].key) == 0
    requires |KeyTimes(calls[..i], calls[i].key)| < c.capacity
    ensures Decision(c, s, calls, i)
  {
    LetThroughExactly(c, s, start, calls, i);
    forall j | 0 <= j < i
      ensures (AdmittedFrom(c, s, calls[..i], calls[i].key, j) + 1) as real
           <= c.capacity as real + Gain(c, calls[j].now, calls[i].now)
    {
      AdmittedAreCalls(c, s, calls[..i], calls[i].key, j);
    }
  }
}
