/** The in-process token-bucket limiter: one bucket per (hashed) key, kept in an ordered
    dictionary of at most `MAX_BUCKETS` entries whose least recently used entry is dropped.

    The value-level functions say what one call does; `RateLimiterInPlace` performs it on
    mutable buckets; the lemmas are about whole histories of calls. Time is a nondecreasing `real`. */
module RateLimiting {
  import opened Wrappers
  import opened RealArithmetic
  import opened Recency

  /** The digest under which a caller's key is filed. */
  type Key = string

  const MAX_BUCKETS: nat := 10_000

  /** `meter(t)` is how many tokens the clock has handed to a bucket by time `t`. */
  datatype Config = Config(capacity: nat, meter: real -> real) {
    ghost predicate Valid() {
      forall s, t :: s <= t ==> meter(s) <= meter(t)
    }
  }

  /** The server's limiters: tokens come in at a fixed rate. */
  function ConstantRate(capacity: nat, refill: real): Config {
    Config(capacity, (t: real) => t * refill)
  }

  /** Tokens that come in between two instants. */
  function Gain(c: Config, from: real, to: real): real {
    c.meter(to) - c.meter(from)
  }

  lemma ConstantRateIsValid(capacity: nat, refill: real)
    requires refill >= 0.0
    ensures ConstantRate(capacity, refill).Valid()
    ensures forall from, to :: Gain(ConstantRate(capacity, refill), from, to) == (to - from) * refill
  {
    var c := ConstantRate(capacity, refill);
    forall s, t | s <= t ensures c.meter(s) <= c.meter(t) {
      MulNonNeg(t - s, refill);
    }
  }

  datatype Level = Level(tokens: real, at: real)

  datatype Limiter = Limiter(order: seq<Key>, levels: map<Key, Level>)

  datatype Call = Call(key: Key, now: real)

  const EMPTY := Limiter([], map[])

  // ---------------------------------------------------------------------------
  // One bucket
  // ---------------------------------------------------------------------------

  function Refilled(c: Config, b: Level, now: real): real {
    Min(c.capacity as real, b.tokens + Gain(c, b.at, now))
  }

  function Decide(c: Config, b: Level, now: real): (r: (Level, bool)) {
    var tokens := Refilled(c, b, now);
    if tokens < 1.0 then (Level(tokens, now), false) else (Level(tokens - 1.0, now), true)
  }

  /** A bucket that a limiter may hold at time `t`. */
  ghost predicate Sound(c: Config, b: Level, t: real) {
    0.0 <= b.tokens <= c.capacity as real && b.at <= t
  }

  lemma DecideSound(c: Config, b: Level, now: real)
    requires c.Valid() && Sound(c, b, now)
    ensures Sound(c, Decide(c, b, now).0, now)
  {
  }

  function One(ok: bool): nat { if ok then 1 else 0 }

  /** No token is made or lost: what a call takes and leaves is what was there before with what came in
      since, as far as it fits the bucket; and a call takes one exactly when there is one. */
  lemma DecideSpends(c: Config, b: Level, now: real)
    ensures var (b', ok) := Decide(c, b, now);
            var full := b.tokens + Gain(c, b.at, now) >= c.capacity as real;
            && b'.at == now
            && One(ok) as real + b'.tokens == (if full then c.capacity as real else b.tokens + Gain(c, b.at, now))
            && (ok <==> c.capacity >= 1 && b.tokens + Gain(c, b.at, now) >= 1.0)
  {
  }

  /** Only refilling happens on a denied call: nothing later can tell it took place. */
  lemma DeniedIsRefill(c: Config, b: Level, now: real, later: real)
    requires c.Valid() && b.at <= now <= later && !Decide(c, b, now).1
    ensures Refilled(c, Decide(c, b, now).0, later) == Refilled(c, b, later)
  {
  }

  // ---------------------------------------------------------------------------
  // The ordered dictionary
  // ---------------------------------------------------------------------------

  function EvictOldestIfFull(s: Limiter): Limiter {
    if |s.order| >= MAX_BUCKETS then Limiter(s.order[1..], s.levels - {s.order[0]}) else s
  }

  /** The dictionary with `key`'s bucket at the newest end, a full one if it had none. */
  function Fetched(c: Config, s: Limiter, key: Key, now: real): (r: Limiter)
    ensures key in r.levels
  {
    if key in s.levels then s.(order := Touch(s.order, key))
    else
      var room := EvictOldestIfFull(s);
      Limiter(room.order + [key], room.levels[key := Level(c.capacity as real, now)])
  }

  function Admit(c: Config, s: Limiter, key: Key, now: real): (r: (Limiter, bool)) {
    var found := Fetched(c, s, key, now);
    var (b, ok) := Decide(c, found.levels[key], now);
    (found.(levels := found.levels[key := b]), ok)
  }

  ghost predicate WellFormed(c: Config, s: Limiter, t: real) {
    && NoDuplicates(s.order)
    && (forall k :: k in s.order <==> k in s.levels)
    && |s.order| <= MAX_BUCKETS
    && (forall k :: k in s.levels ==> Sound(c, s.levels[k], t))
  }

  lemma AdmitOwnKey(c: Config, s: Limiter, k: Key, now: real, b: Level)
    requires k in s.levels ==> s.levels[k] == b
    requires k !in s.levels ==> Decide(c, b, now) == Decide(c, Level(c.capacity as real, now), now)
    ensures k in Admit(c, s, k, now).0.levels
    ensures (Admit(c, s, k, now).0.levels[k], Admit(c, s, k, now).1) == Decide(c, b, now)
  {
  }

  lemma AdmitOtherKey(c: Config, s: Limiter, key: Key, now: real, k: Key)
    requires key != k
    ensures k in Admit(c, s, key, now).0.levels ==> k in s.levels && Admit(c, s, key, now).0.levels[k] == s.levels[k]
  {
  }

  lemma TouchedWellFormed(c: Config, s: Limiter, t: real, key: Key)
    requires WellFormed(c, s, t) && key in s.levels
    ensures WellFormed(c, s.(order := Touch(s.order, key)), t)
  {
    TouchFacts(s.order, key);
    TouchLength(s.order, key);
  }

  lemma EvictedWellFormed(c: Config, s: Limiter, t: real)
    requires WellFormed(c, s, t)
    ensures WellFormed(c, EvictOldestIfFull(s), t) && |EvictOldestIfFull(s).order| < MAX_BUCKETS
  {
    if |s.order| >= MAX_BUCKETS {
      TailFacts(s.order);
    }
  }

  lemma AdmitWellFormed(c: Config, s: Limiter, t: real, key: Key, now: real)
    requires c.Valid() && WellFormed(c, s, t) && t <= now
    ensures WellFormed(c, Admit(c, s, key, now).0, now)
  {
    if key in s.levels {
      TouchedWellFormed(c, s, t, key);
    } else {
      EvictedWellFormed(c, s, t);
    }
    DecideSound(c, Fetched(c, s, key, now).levels[key], now);
  }

  // ---------------------------------------------------------------------------
  // Histories of calls
  // ---------------------------------------------------------------------------

  ghost predicate Ordered(calls: seq<Call>, start: real) {
    && (forall i :: 0 <= i < |calls| ==> start <= calls[i].now)
    && (forall i, j :: 0 <= i < j < |calls| ==> calls[i].now <= calls[j].now)
  }

  function End(calls: seq<Call>, start: real): real {
    if calls == [] then start else calls[|calls| - 1].now
  }

  function Run(c: Config, s: Limiter, calls: seq<Call>): Limiter {
    if calls == [] then s
    else
      var before := Run(c, s, calls[..|calls| - 1]);
      var call := calls[|calls| - 1];
      Admit(c, before, call.key, call.now).0
  }

  function Decision(c: Config, s: Limiter, calls: seq<Call>, i: nat): bool
    requires i < |calls|
  {
    Admit(c, Run(c, s, calls[..i]), calls[i].key, calls[i].now).1
  }

  lemma {:induction false} RunWellFormed(c: Config, s: Limiter, start: real, calls: seq<Call>)
    requires c.Valid() && WellFormed(c, s, start) && Ordered(calls, start)
    ensures WellFormed(c, Run(c, s, calls), End(calls, start))
  {
    if calls != [] {
      var init, call := calls[..|calls| - 1], calls[|calls| - 1];
      RunWellFormed(c, s, start, init);
      AdmitWellFormed(c, Run(c, s, init), End(init, start), call.key, call.now);
    }
  }

  function Keys(calls: seq<Call>): seq<Key> {
    seq(|calls|, i requires 0 <= i < |calls| => calls[i].key)
  }

  /** LRU: the dictionary's order is the newest `MAX_BUCKETS` keys of the recency order. */
  lemma {:induction false} OrderIsRecency(c: Config, calls: seq<Call>)
    requires c.Valid() && Ordered(calls, 0.0)
    ensures Run(c, EMPTY, calls).order == LastN(ByRecency(Keys(calls)), MAX_BUCKETS)
  {
    if calls != [] {
      var init, call := calls[..|calls| - 1], calls[|calls| - 1];
      OrderIsRecency(c, init);
      RunWellFormed(c, EMPTY, 0.0, init);
      assert Keys(calls) == Keys(init) + [call.key];
      assert Keys(calls)[..|calls| - 1] == Keys(init);
      var ranked := ByRecency(Keys(init));
      RecencyFacts(Keys(init));
      LastNTouch(ranked, call.key, MAX_BUCKETS);
    }
  }

  /** A bucket is present exactly when its key was called and fewer than `MAX_BUCKETS` distinct
      other keys have been called since. In particular it is dropped no earlier than that. */
  lemma PresentExactlyWhenRecent(c: Config, calls: seq<Call>, k: Key)
    requires c.Valid() && Ordered(calls, 0.0)
    ensures |Run(c, EMPTY, calls).levels| <= MAX_BUCKETS
    ensures k in Run(c, EMPTY, calls).levels
       <==> k in Keys(calls) && |OthersSince(Keys(calls), k)| < MAX_BUCKETS
  {
    OrderIsRecency(c, calls);
    RunWellFormed(c, EMPTY, 0.0, calls);
    var s := Run(c, EMPTY, calls);
    NoDuplicatesCardinality(s.order);
    assert s.levels.Keys == Elements(s.order);
    RecencyFacts(Keys(calls));
    if k in Keys(calls) {
      var older, newer := RankOf(Keys(calls), k);
      LastNMembership(older, k, newer, MAX_BUCKETS);
    }
  }

  // ---------------------------------------------------------------------------
  // How many calls a key can get through
  // ---------------------------------------------------------------------------

  function AdmittedCount(c: Config, s: Limiter, calls: seq<Call>, k: Key): nat {
    if calls == [] then 0
    else
      var last := |calls| - 1;
      AdmittedCount(c, s, calls[..last], k)
      + One(calls[last].key == k && Admit(c, Run(c, s, calls[..last]), k, calls[last].now).1)
  }

  /** How often `k` is dropped while the calls are made. */
  function Evictions(c: Config, s: Limiter, calls: seq<Call>, k: Key): nat {
    if calls == [] then 0
    else
      var init := calls[..|calls| - 1];
      Evictions(c, s, init, k)
      + One(k in Run(c, s, init).levels && k !in Run(c, s, calls).levels)
  }

  /** `n` full buckets. */
  function Fulls(c: Config, n: nat): real {
    if n == 0 then 0.0 else Fulls(c, n - 1) + c.capacity as real
  }

  lemma {:induction false} FullsNext(c: Config, n: nat)
    ensures Fulls(c, n + 1) == Fulls(c, n) + c.capacity as real
    ensures Fulls(c, n) >= 0.0
  {
    if n > 0 {
      FullsNext(c, n - 1);
    }
  }

  /** What a key's calls let through so far, plus what is still in its bucket, is covered by one
      full bucket per lifetime of the bucket and the refill of the elapsed time. */
  ghost predicate Covered(c: Config, admitted: real, evictions: nat, b: Option<Level>, start: real, end: real) {
    match b
    case None => admitted <= Fulls(c, evictions) + Gain(c, start, end)
    case Some(b) =>
      if b.at < start then admitted == 0.0
      else admitted + b.tokens <= Fulls(c, evictions + 1) + Gain(c, start, b.at)
  }

  function LevelOf(s: Limiter, k: Key): Option<Level> {
    if k in s.levels then Some(s.levels[k]) else None
  }

  ghost predicate Budget(c: Config, s: Limiter, calls: seq<Call>, k: Key, start: real) {
    Covered(c, AdmittedCount(c, s, calls, k) as real, Evictions(c, s, calls, k),
            LevelOf(Run(c, s, calls), k), start, End(calls, start))
  }

  lemma CoveredOwnCall(c: Config, admitted: real, evictions: nat, b: Option<Level>, start: real, end: real, now: real)
    requires c.Valid() && start <= end <= now && Covered(c, admitted, evictions, b, start, end)
    requires b.Some? ==> Sound(c, b.value, end)
    ensures var (b', ok) := Decide(c, if b.Some? then b.value else Level(c.capacity as real, now), now);
            Covered(c, admitted + One(ok) as real, evictions, Some(b'), start, now)
  {
    FullsNext(c, evictions);
  }

  lemma CoveredOtherCall(c: Config, admitted: real, evictions: nat, b: Option<Level>, start: real, end: real, now: real)
    requires c.Valid() && start <= end <= now && Covered(c, admitted, evictions, b, start, end)
    requires b.Some? ==> Sound(c, b.value, end)
    ensures Covered(c, admitted, evictions, b, start, now)
    ensures b.Some? ==> Covered(c, admitted, evictions + 1, None, start, now)
  {
    FullsNext(c, evictions);
  }

  lemma BudgetStep(c: Config, s: Limiter, start: real, calls: seq<Call>, k: Key)
    requires c.Valid() && WellFormed(c, s, start) && Ordered(calls, start) && calls != []
    requires Budget(c, s, calls[..|calls| - 1], k, start)
    ensures Budget(c, s, calls, k, start)
  {
    var init, call := calls[..|calls| - 1], calls[|calls| - 1];
    var before := Run(c, s, init);
    RunWellFormed(c, s, start, init);
    var admitted, evictions := AdmittedCount(c, s, init, k), Evictions(c, s, init, k);
    var b := LevelOf(before, k);
    if call.key == k {
      CoveredOwnCall(c, admitted as real, evictions, b, start, End(init, start), call.now);
      AdmitOwnKey(c, before, k, call.now, if b.Some? then b.value else Level(c.capacity as real, call.now));
    } else {
      CoveredOtherCall(c, admitted as real, evictions, b, start, End(init, start), call.now);
      AdmitOtherKey(c, before, call.key, call.now, k);
    }
  }

  lemma {:induction false} BudgetHolds(c: Config, s: Limiter, start: real, calls: seq<Call>, k: Key)
    requires c.Valid() && WellFormed(c, s, start) && Ordered(calls, start)
    ensures Budget(c, s, calls, k, start)
  {
    if calls == [] {
      assert Fulls(c, 1) == Fulls(c, 0) + c.capacity as real;
    } else {
      BudgetHolds(c, s, start, calls[..|calls| - 1], k);
      BudgetStep(c, s, start, calls, k);
    }
  }

  lemma CoveredBounds(c: Config, admitted: real, evictions: nat, b: Option<Level>, start: real, end: real)
    requires c.Valid() && start <= end && Covered(c, admitted, evictions, b, start, end)
    requires b.Some? ==> Sound(c, b.value, end)
    ensures admitted <= Fulls(c, evictions + 1) + Gain(c, start, end)
  {
    FullsNext(c, evictions);
  }

  /** Over any window of any interleaving, a key gets through at most one full bucket per lifetime
      of its bucket plus the refill of the window's length. Without eviction that is
      `capacity + refill * length`. */
  lemma WindowBound(c: Config, s: Limiter, start: real, calls: seq<Call>, k: Key)
    requires c.Valid() && WellFormed(c, s, start) && Ordered(calls, start)
    ensures AdmittedCount(c, s, calls, k) as real
         <= Fulls(c, Evictions(c, s, calls, k) + 1) + Gain(c, start, End(calls, start))
    ensures Evictions(c, s, calls, k) == 0 ==>
              AdmittedCount(c, s, calls, k) as real <= c.capacity as real + Gain(c, start, End(calls, start))
  {
    BudgetHolds(c, s, start, calls, k);
    RunWellFormed(c, s, start, calls);
    CoveredBounds(c, AdmittedCount(c, s, calls, k) as real, Evictions(c, s, calls, k),
                  LevelOf(Run(c, s, calls), k), start, End(calls, start));
  }

  lemma {:induction false} FullsIsProduct(c: Config, n: nat)
    ensures Fulls(c, n) == c.capacity as real * n as real
  {
    if n > 0 {
      FullsIsProduct(c, n - 1);
      assert n as real == (n - 1) as real + 1.0;
    }
  }

  /** What the server's own configuration makes of the bound: `capacity * lifetimes + refill * seconds`. */
  function ConstantRateBound(capacity: nat, refill: real, lifetimes: nat, seconds: real): real {
    capacity as real * lifetimes as real + seconds * refill
  }

  lemma BoundAtConstantRate(c: Config, refill: real, lifetimes: nat, start: real, end: real)
    requires c == ConstantRate(c.capacity, refill)
    ensures Fulls(c, lifetimes) + Gain(c, start, end) == ConstantRateBound(c.capacity, refill, lifetimes, end - start)
  {
    FullsIsProduct(c, lifetimes);
  }

  lemma WindowBoundAtConstantRate(
    capacity: nat, refill: real, s: Limiter, start: real, calls: seq<Call>, k: Key, lifetimes: nat)
    requires refill >= 0.0
    requires WellFormed(ConstantRate(capacity, refill), s, start) && Ordered(calls, start)
    requires lifetimes == Evictions(ConstantRate(capacity, refill), s, calls, k) + 1
    ensures AdmittedCount(ConstantRate(capacity, refill), s, calls, k) as real
         <= ConstantRateBound(capacity, refill, lifetimes, End(calls, start) - start)
  {
    var c := ConstantRate(capacity, refill);
    ConstantRateIsValid(capacity, refill);
    WindowBound(c, s, start, calls, k);
    BoundAtConstantRate(c, refill, lifetimes, start, End(calls, start));
  }

  /** A bucket never holds less than nothing nor more than its capacity. */
  lemma TokensInRange(c: Config, calls: seq<Call>, k: Key)
    requires c.Valid() && Ordered(calls, 0.0)
    ensures k in Run(c, EMPTY, calls).levels ==>
              0.0 <= Run(c, EMPTY, calls).levels[k].tokens <= c.capacity as real
  {
    RunWellFormed(c, EMPTY, 0.0, calls);
  }

  // ---------------------------------------------------------------------------
  // The limiter without a bound, which the bounded one stands in for
  // ---------------------------------------------------------------------------

  function AdmitUnbounded(c: Config, m: map<Key, Level>, key: Key, now: real): (map<Key, Level>, bool) {
    var b := if key in m then m[key] else Level(c.capacity as real, now);
    var (b', ok) := Decide(c, b, now);
    (m[key := b'], ok)
  }

  function RunUnbounded(c: Config, calls: seq<Call>): map<Key, Level> {
    if calls == [] then map[]
    else
      var call := calls[|calls| - 1];
      AdmitUnbounded(c, RunUnbounded(c, calls[..|calls| - 1]), call.key, call.now).0
  }

  /** `j` is the latest call of `calls[i]`'s key before `i`. */
  ghost predicate PreviousCall(calls: seq<Call>, j: nat, i: nat) {
    && j < i < |calls|
    && calls[j].key == calls[i].key
    && (forall m :: j < m < i ==> calls[m].key != calls[i].key)
  }

  /** Every key that comes back after `MAX_BUCKETS` or more distinct other keys has been idle long
      enough for an empty bucket to fill up. Says nothing about buckets: a condition on traffic. */
  ghost predicate RestedReturns(c: Config, calls: seq<Call>) {
    forall j: nat, i: nat :: PreviousCall(calls, j, i)
      && |OthersSince(Keys(calls[..i]), calls[i].key)| >= MAX_BUCKETS
      ==> Gain(c, calls[j].now, calls[i].now) >= c.capacity as real
  }

  ghost predicate Agree(s: Limiter, m: map<Key, Level>) {
    forall k :: k in s.levels ==> k in m && m[k] == s.levels[k]
  }

  lemma {:induction false} UnboundedFacts(c: Config, calls: seq<Call>, k: Key)
    requires c.Valid() && Ordered(calls, 0.0)
    ensures k in RunUnbounded(c, calls) <==> k in Keys(calls)
    ensures k in RunUnbounded(c, calls) ==>
              && Sound(c, RunUnbounded(c, calls)[k], End(calls, 0.0))
              && exists j :: 0 <= j < |calls| && calls[j].key == k && calls[j].now == RunUnbounded(c, calls)[k].at
                  && forall m :: j < m < |calls| ==> calls[m].key != k
  {
    if calls != [] {
      var init, call := calls[..|calls| - 1], calls[|calls| - 1];
      UnboundedFacts(c, init, k);
      assert Keys(calls) == Keys(init) + [call.key];
      var m := RunUnbounded(c, init);
      if call.key == k {
        DecideSound(c, if k in m then m[k] else Level(c.capacity as real, call.now), call.now);
        assert calls[|calls| - 1].now == RunUnbounded(c, calls)[k].at;
      } else if k in m {
        var j :| 0 <= j < |init| && init[j].key == k && init[j].now == m[k].at
             && forall m :: j < m < |init| ==> init[m].key != k;
        assert calls[j] == init[j];
        assert forall m :: j < m < |calls| ==> calls[m].key != k;
      }
    }
  }

  lemma RestedPrefix(c: Config, calls: seq<Call>, n: nat)
    requires n <= |calls| && RestedReturns(c, calls)
    ensures RestedReturns(c, calls[..n])
  {
    var p := calls[..n];
    forall j: nat, i: nat | PreviousCall(p, j, i) && |OthersSince(Keys(p[..i]), p[i].key)| >= MAX_BUCKETS
      ensures Gain(c, p[j].now, p[i].now) >= c.capacity as real
    {
      assert p[..i] == calls[..i];
      assert PreviousCall(calls, j, i);
    }
  }

  lemma AgreeStep(c: Config, s: Limiter, m: map<Key, Level>, key: Key, now: real)
    requires Agree(s, m)
    requires key in m && key !in s.levels ==> Refilled(c, m[key], now) == c.capacity as real
    ensures Agree(Admit(c, s, key, now).0, AdmitUnbounded(c, m, key, now).0)
    ensures Admit(c, s, key, now).1 == AdmitUnbounded(c, m, key, now).1
  {
    var b := if key in m then m[key] else Level(c.capacity as real, now);
    assert Decide(c, Fetched(c, s, key, now).levels[key], now) == Decide(c, b, now);
  }

  lemma LatestCall(c: Config, calls: seq<Call>, k: Key) returns (j: nat)
    requires c.Valid() && Ordered(calls, 0.0) && k in RunUnbounded(c, calls)
    ensures k in Keys(calls) && j < |calls| && calls[j].key == k
    ensures calls[j].now == RunUnbounded(c, calls)[k].at && RunUnbounded(c, calls)[k].tokens >= 0.0
    ensures forall i :: j < i < |calls| ==> calls[i].key != k
  {
    UnboundedFacts(c, calls, k);
    j :| 0 <= j < |calls| && calls[j].key == k && calls[j].now == RunUnbounded(c, calls)[k].at
         && forall i :: j < i < |calls| ==> calls[i].key != k;
  }

  /** A bucket that was dropped long enough ago would by now be full. */
  lemma RestedIsFull(c: Config, calls: seq<Call>)
    requires c.Valid() && Ordered(calls, 0.0) && RestedReturns(c, calls) && calls != []
    ensures var n := |calls| - 1;
            var m, key := RunUnbounded(c, calls[..n]), calls[n].key;
            key in m && key !in Run(c, EMPTY, calls[..n]).levels ==>
              Refilled(c, m[key], calls[n].now) == c.capacity as real
  {
    var n := |calls| - 1;
    var init, key := calls[..n], calls[n].key;
    var m := RunUnbounded(c, init);
    PresentExactlyWhenRecent(c, init, key);
    if key in m && key !in Run(c, EMPTY, init).levels {
      var j := LatestCall(c, init, key);
      assert PreviousCall(calls, j, n);
    }
  }

  lemma {:induction false} Simulation(c: Config, calls: seq<Call>)
    requires c.Valid() && Ordered(calls, 0.0) && RestedReturns(c, calls)
    ensures Agree(Run(c, EMPTY, calls), RunUnbounded(c, calls))
  {
    if calls != [] {
      var n := |calls| - 1;
      RestedPrefix(c, calls, n);
      Simulation(c, calls[..n]);
      RestedIsFull(c, calls);
      AgreeStep(c, Run(c, EMPTY, calls[..n]), RunUnbounded(c, calls[..n]), calls[n].key, calls[n].now);
    }
  }

  /** Whenever returning keys are rested, the bounded limiter answers every call exactly as the
      unbounded one does. */
  lemma BoundedAnswersAsUnbounded(c: Config, calls: seq<Call>, i: nat)
    requires c.Valid() && Ordered(calls, 0.0) && RestedReturns(c, calls) && i < |calls|
    ensures Decision(c, EMPTY, calls, i)
         == AdmitUnbounded(c, RunUnbounded(c, calls[..i]), calls[i].key, calls[i].now).1
  {
    var upTo := calls[..i + 1];
    assert upTo[..i] == calls[..i];
    RestedPrefix(c, calls, i);
    RestedPrefix(c, calls, i + 1);
    Simulation(c, calls[..i]);
    RestedIsFull(c, upTo);
    AgreeStep(c, Run(c, EMPTY, calls[..i]), RunUnbounded(c, calls[..i]), calls[i].key, calls[i].now);
  }

  // ---------------------------------------------------------------------------
  // One key at a time
  // ---------------------------------------------------------------------------

  function After(c: Config, b: Level, times: seq<real>): Level {
    if times == [] then b
    else Decide(c, After(c, b, times[..|times| - 1]), times[|times| - 1]).0
  }

  function Answers(c: Config, b: Level, times: seq<real>): (answers: seq<bool>)
    ensures |answers| == |times|
  {
    if times == [] then []
    else
      var init := times[..|times| - 1];
      Answers(c, b, init) + [Decide(c, After(c, b, init), times[|times| - 1]).1]
  }

  ghost predicate Rising(times: seq<real>, start: real) {
    && (forall i :: 0 <= i < |times| ==> start <= times[i])
    && (forall i, j :: 0 <= i < j < |times| ==> times[i] <= times[j])
  }

  /** The entries of `s` marked in `keep`. */
  function Kept<T>(s: seq<T>, keep: seq<bool>): seq<T>
    requires |s| == |keep|
  {
    if s == [] then []
    else
      var last := |s| - 1;
      var init := Kept(s[..last], keep[..last]);
      if keep[last] then init + [s[last]] else init
  }

  lemma {:induction false} AfterAt(c: Config, b: Level, times: seq<real>)
    requires Rising(times, b.at)
    ensures After(c, b, times).at == if times == [] then b.at else times[|times| - 1]
  {
  }

  lemma AnswersSnoc(c: Config, b: Level, times: seq<real>, now: real)
    ensures After(c, b, times + [now]) == Decide(c, After(c, b, times), now).0
    ensures Answers(c, b, times + [now]) == Answers(c, b, times) + [Decide(c, After(c, b, times), now).1]
  {
    assert (times + [now])[..|times|] == times;
  }

  lemma KeptSnoc<T>(s: seq<T>, keep: seq<bool>, x: T, kept: bool)
    requires |s| == |keep|
    ensures Kept(s + [x], keep + [kept]) == if kept then Kept(s, keep) + [x] else Kept(s, keep)
  {
    assert (s + [x])[..|s|] == s && (keep + [kept])[..|s|] == keep;
  }

  lemma SameRefillSameDecision(c: Config, b: Level, b': Level, now: real)
    requires Refilled(c, b, now) == Refilled(c, b', now)
    ensures Decide(c, b, now) == Decide(c, b', now)
  {
  }

  /** Without the struck calls the others are answered alike, and the bucket would hold as much later. */
  ghost predicate Alike(c: Config, b: Level, times: seq<real>, keep: seq<bool>, later: real)
    requires |keep| == |times|
  {
    && Answers(c, b, Kept(times, keep)) == Kept(Answers(c, b, times), keep)
    && Refilled(c, After(c, b, Kept(times, keep)), later) == Refilled(c, After(c, b, times), later)
  }

  lemma AlikeWithCall(c: Config, b: Level, times: seq<real>, keep: seq<bool>, now: real, later: real)
    requires |keep| == |times| && Alike(c, b, times, keep, now)
    ensures Alike(c, b, times + [now], keep + [true], later)
  {
    SameRefillSameDecision(c, After(c, b, Kept(times, keep)), After(c, b, times), now);
    AnswersSnoc(c, b, times, now);
    AnswersSnoc(c, b, Kept(times, keep), now);
    KeptSnoc(times, keep, now, true);
    KeptSnoc(Answers(c, b, times), keep, Decide(c, After(c, b, times), now).1, true);
  }

  lemma AlikeWithoutCall(c: Config, b: Level, times: seq<real>, keep: seq<bool>, now: real, later: real)
    requires c.Valid() && |keep| == |times| && Alike(c, b, times, keep, later)
    requires After(c, b, times).at <= now <= later && !Decide(c, After(c, b, times), now).1
    ensures Alike(c, b, times + [now], keep + [false], later)
  {
    DeniedIsRefill(c, After(c, b, times), now, later);
    AnswersSnoc(c, b, times, now);
    KeptSnoc(times, keep, now, false);
    KeptSnoc(Answers(c, b, times), keep, Decide(c, After(c, b, times), now).1, false);
  }

  /** Striking any set of denied calls from a key's history changes no other answer, nor what the
      bucket would hold at any later instant. */
  lemma {:induction false} DeniedCallsAreInvisible(
    c: Config, b: Level, times: seq<real>, keep: seq<bool>, later: real)
    requires c.Valid() && Rising(times, b.at) && |keep| == |times|
    requires b.at <= later && forall i :: 0 <= i < |times| ==> times[i] <= later
    requires forall i :: 0 <= i < |times| && !keep[i] ==> !Answers(c, b, times)[i]
    ensures Answers(c, b, Kept(times, keep)) == Kept(Answers(c, b, times), keep)
    ensures Refilled(c, After(c, b, Kept(times, keep)), later) == Refilled(c, After(c, b, times), later)
  {
    if times != [] {
      var last := |times| - 1;
      var init, keepInit, now := times[..last], keep[..last], times[last];
      assert times == init + [now] && keep == keepInit + [keep[last]];
      AnswersSnoc(c, b, init, now);
      assert forall i :: 0 <= i < last ==> Answers(c, b, init)[i] == Answers(c, b, times)[i];
      DeniedCallsAreInvisible(c, b, init, keepInit, if keep[last] then now else later);
      if keep[last] {
        AlikeWithCall(c, b, init, keepInit, now, later);
      } else {
        AfterAt(c, b, init);
        AlikeWithoutCall(c, b, init, keepInit, now, later);
      }
    }
  }

  function KeyTimes(calls: seq<Call>, k: Key): seq<real> {
    if calls == [] then []
    else
      var last := |calls| - 1;
      var init := KeyTimes(calls[..last], k);
      if calls[last].key == k then init + [calls[last].now] else init
  }

  function KeyAnswers(c: Config, s: Limiter, calls: seq<Call>, k: Key): seq<bool> {
    if calls == [] then []
    else
      var last := |calls| - 1;
      var init := KeyAnswers(c, s, calls[..last], k);
      if calls[last].key == k then init + [Decision(c, s, calls, last)] else init
  }

  /** The bucket a key starts with; a full one when it has none yet. */
  function InitialLevel(c: Config, s: Limiter, k: Key, start: real): Level {
    if k in s.levels then s.levels[k] else Level(c.capacity as real, start)
  }

  /** How much a fresh bucket holds does not depend on when it is thought to have been filled. */
  lemma FreshBucketsAnswerAlike(c: Config, start: real, now: real)
    requires c.Valid() && start <= now
    ensures Decide(c, Level(c.capacity as real, start), now) == Decide(c, Level(c.capacity as real, now), now)
  {
  }

  /** As long as its bucket is not dropped, a key is answered by its own calls alone: neither how
      others interleave nor how often they call matters. */
  lemma {:induction false} KeysAreIsolated(c: Config, s: Limiter, start: real, calls: seq<Call>, k: Key)
    requires c.Valid() && Ordered(calls, start)
    requires Evictions(c, s, calls, k) == 0
    ensures KeyAnswers(c, s, calls, k) == Answers(c, InitialLevel(c, s, k, start), KeyTimes(calls, k))
    ensures k in Run(c, s, calls).levels <==> k in s.levels || KeyTimes(calls, k) != []
    ensures k in Run(c, s, calls).levels ==>
              Run(c, s, calls).levels[k] == After(c, InitialLevel(c, s, k, start), KeyTimes(calls, k))
  {
    if calls != [] {
      var last := |calls| - 1;
      var init, call := calls[..last], calls[last];
      KeysAreIsolated(c, s, start, init, k);
      var b, before := InitialLevel(c, s, k, start), Run(c, s, init);
      if call.key == k {
        AnswersSnoc(c, b, KeyTimes(init, k), call.now);
        FreshBucketsAnswerAlike(c, start, call.now);
        AdmitOwnKey(c, before, k, call.now, After(c, b, KeyTimes(init, k)));
        assert KeyTimes(calls, k) == KeyTimes(init, k) + [call.now];
      } else {
        AdmitOtherKey(c, before, call.key, call.now, k);
      }
    }
  }

  lemma {:induction false} LastRefill(c: Config, calls: seq<Call>, j: nat, n: nat)
    requires j < n <= |calls| && forall m :: j < m < n ==> calls[m].key != calls[j].key
    ensures calls[j].key in Run(c, EMPTY, calls[..n]).levels ==>
              Run(c, EMPTY, calls[..n]).levels[calls[j].key].at == calls[j].now
  {
    assert calls[..n][..n - 1] == calls[..n - 1];
    if n > j + 1 {
      LastRefill(c, calls, j, n - 1);
    }
  }

  /** A call that comes at least one token's refill after the key's previous one is let through,
      whatever else happened in between and whether or not the bucket was dropped. */
  lemma SpacedCallsPass(c: Config, calls: seq<Call>, j: nat, i: nat)
    requires c.Valid() && c.capacity >= 1 && Ordered(calls, 0.0)
    requires PreviousCall(calls, j, i) && Gain(c, calls[j].now, calls[i].now) >= 1.0
    ensures Decision(c, EMPTY, calls, i)
  {
    var before := Run(c, EMPTY, calls[..i]);
    RunWellFormed(c, EMPTY, 0.0, calls[..i]);
    LastRefill(c, calls, j, i);
  }
}
