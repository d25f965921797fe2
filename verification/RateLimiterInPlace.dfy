/** The limiter as the server runs it: buckets are objects, refilled and spent in place; two
    limiters split the MCP traffic; and a middleware picks the rule of a request's path. */
module RateLimiterInPlace {
  import opened Wrappers
  import opened RealArithmetic
  import opened Recency
  import opened RateLimiting

  class Bucket {
    var tokens: real
    var lastRefillAt: real

    constructor (tokens: real, now: real)
      ensures Value() == Level(tokens, now)
    {
      this.tokens := tokens;
      lastRefillAt := now;
    }

    ghost function Value(): Level
      reads this
    {
      Level(tokens, lastRefillAt)
    }

    method Spend(capacity: nat, refillPerSecond: real, now: real) returns (ok: bool)
      modifies this
      ensures (Value(), ok) == Decide(ConstantRate(capacity, refillPerSecond), old(Value()), now)
    {
      var elapsed := now - lastRefillAt;
      Distribute(now, lastRefillAt, refillPerSecond);
      tokens := Min(capacity as real, tokens + elapsed * refillPerSecond);
      lastRefillAt := now;
      if tokens < 1.0 {
        return false;
      }
      tokens := tokens - 1.0;
      return true;
    }
  }

  class TokenBucketRateLimiter {
    const capacity: nat
    const refillPerSecond: real
    var order: seq<Key>
    var buckets: map<Key, Bucket>

    ghost function Limits(): Config { ConstantRate(capacity, refillPerSecond) }

    ghost predicate Valid()
      reads this, buckets.Values
    {
      && NoDuplicates(order)
      && (forall k :: k in order <==> k in buckets)
      && (forall j, k :: j in buckets && k in buckets && j != k ==> buckets[j] != buckets[k])
    }

    ghost function Contents(): Limiter
      reads this, buckets.Values
    {
      Limiter(order, map k | k in buckets :: buckets[k].Value())
    }

    constructor (capacity: nat, refillPerSecond: real)
      ensures Valid() && Contents() == EMPTY
      ensures Limits() == ConstantRate(capacity, refillPerSecond)
    {
      this.capacity := capacity;
      this.refillPerSecond := refillPerSecond;
      order, buckets := [], map[];
    }

    method PopOldest()
      requires Valid() && order != []
      modifies this
      ensures Valid() && order == old(order[1..]) && buckets == old(buckets - {order[0]})
      ensures Contents() == Limiter(old(order)[1..], old(Contents().levels) - {old(order)[0]})
    {
      TailFacts(order);
      var oldest := order[0];
      order := order[1..];
      buckets := buckets - {oldest};
    }

    method EvictIfFull()
      requires Valid()
      modifies this
      ensures Valid() && Contents() == EvictOldestIfFull(old(Contents()))
      ensures buckets.Keys <= old(buckets.Keys) && buckets.Values <= old(buckets.Values)
    {
      if |order| >= MAX_BUCKETS {
        PopOldest();
      }
    }

    method Insert(key: Key, bucket: Bucket)
      requires Valid() && key !in buckets && bucket !in buckets.Values
      modifies this
      ensures Valid() && buckets == old(buckets)[key := bucket]
      ensures Contents() == Limiter(old(order) + [key], old(Contents().levels)[key := bucket.Value()])
    {
      order := order + [key];
      buckets := buckets[key := bucket];
    }

    method MoveToEnd(key: Key)
      requires Valid() && key in buckets
      modifies this`order
      ensures Valid() && Contents() == old(Contents()).(order := Touch(old(order), key))
    {
      TouchFacts(order, key);
      order := Touch(order, key);
    }

    /** The bucket of `key`, now the most recently used; a full one if it had none. */
    method Fetch(key: Key, now: real) returns (bucket: Bucket)
      requires Valid()
      modifies this
      ensures Valid() && fresh(buckets.Values - old(buckets.Values))
      ensures key in buckets && buckets[key] == bucket
      ensures Contents() == Fetched(Limits(), old(Contents()), key, now)
    {
      if key in buckets {
        MoveToEnd(key);
        return buckets[key];
      }
      bucket := new Bucket(capacity as real, now);
      EvictIfFull();
      Insert(key, bucket);
    }

    method Allow(key: Key, now: real) returns (ok: bool)
      requires Valid()
      modifies this, buckets.Values
      ensures Valid() && fresh(buckets.Values - old(buckets.Values))
      ensures (Contents(), ok) == Admit(Limits(), old(Contents()), key, now)
    {
      var bucket := Fetch(key, now);
      ghost var found := Contents();
      ok := bucket.Spend(capacity, refillPerSecond, now);
      assert Contents().levels == found.levels[key := bucket.Value()];
    }
  }

  // ---------------------------------------------------------------------------
  // Two budgets for MCP traffic
  // ---------------------------------------------------------------------------

  const SESSION_PREFIX := "session:"
  const SESSIONLESS_PREFIX := "anon:"

  /** The key of an MCP request: by its session, or else by bearer or address. */
  function McpKey(sessionId: Option<string>, fallback: string): string {
    if sessionId.Some? && sessionId.value != "" then SESSION_PREFIX + sessionId.value
    else SESSIONLESS_PREFIX + fallback
  }

  predicate IsSessionKey(key: string) {
    SESSION_PREFIX <= key
  }

  /** No bearer or address, however chosen, reaches the session budget. */
  lemma OnlySessionsUseTheSessionBudget(sessionId: Option<string>, fallback: string)
    ensures IsSessionKey(McpKey(sessionId, fallback)) <==> sessionId.Some? && sessionId.value != ""
  {
    assert SESSIONLESS_PREFIX[0] != SESSION_PREFIX[0];
    assert McpKey(None, fallback)[0] == SESSIONLESS_PREFIX[0];
  }

  class McpRateLimiter {
    const sessionLimiter: TokenBucketRateLimiter
    const sessionlessLimiter: TokenBucketRateLimiter

    ghost predicate Valid()
      reads this, sessionLimiter, sessionLimiter.buckets.Values
      reads sessionlessLimiter, sessionlessLimiter.buckets.Values
    {
      && sessionLimiter != sessionlessLimiter
      && sessionLimiter.Valid() && sessionlessLimiter.Valid()
      && sessionLimiter.buckets.Values !! sessionlessLimiter.buckets.Values
    }

    constructor (sessionLimiter: TokenBucketRateLimiter, sessionlessLimiter: TokenBucketRateLimiter)
      requires sessionLimiter != sessionlessLimiter
      requires sessionLimiter.Valid() && sessionlessLimiter.Valid()
      requires sessionLimiter.buckets.Values !! sessionlessLimiter.buckets.Values
      ensures Valid()
      ensures this.sessionLimiter == sessionLimiter && this.sessionlessLimiter == sessionlessLimiter
    {
      this.sessionLimiter := sessionLimiter;
      this.sessionlessLimiter := sessionlessLimiter;
    }

    /** Exhausting one budget leaves every bucket of the other as it was. */
    method Allow(key: string, now: real) returns (ok: bool)
      requires Valid()
      modifies sessionLimiter, sessionLimiter.buckets.Values
      modifies sessionlessLimiter, sessionlessLimiter.buckets.Values
      ensures Valid()
      ensures IsSessionKey(key) ==>
                && (sessionLimiter.Contents(), ok) ==
                  Admit(sessionLimiter.Limits(), old(sessionLimiter.Contents()), key, now)
                && sessionlessLimiter.Contents() == old(sessionlessLimiter.Contents())
      ensures !IsSessionKey(key) ==>
                && (sessionlessLimiter.Contents(), ok) ==
                  Admit(sessionlessLimiter.Limits(), old(sessionlessLimiter.Contents()), key, now)
                && sessionLimiter.Contents() == old(sessionLimiter.Contents())
    {
      if IsSessionKey(key) {
        ok := sessionLimiter.Allow(key, now);
      } else {
        ok := sessionlessLimiter.Allow(key, now);
      }
    }
  }

  // ---------------------------------------------------------------------------
  // Which rule a path falls under
  // ---------------------------------------------------------------------------

  ghost predicate Selected(prefixes: seq<string>, path: string, i: nat) {
    i < |prefixes| && prefixes[i] <= path && forall j :: 0 <= j < i ==> !(prefixes[j] <= path)
  }

  /** The first of `prefixes`, in registration order, that `path` starts with. */
  method RuleFor(prefixes: seq<string>, path: string) returns (rule: Option<nat>)
    ensures rule.Some? ==> Selected(prefixes, path, rule.value)
    ensures rule.None? ==> forall i :: 0 <= i < |prefixes| ==> !(prefixes[i] <= path)
  {
    var i := 0;
    while i < |prefixes|
      invariant 0 <= i <= |prefixes|
      invariant forall j :: 0 <= j < i ==> !(prefixes[j] <= path)
    {
      if prefixes[i] <= path {
        return Some(i);
      }
      i := i + 1;
    }
    return None;
  }

  /** A rule governs some path exactly when no rule registered before it has a prefix of its
      prefix; and then it governs its own prefix. */
  lemma RuleReachable(prefixes: seq<string>, i: nat)
    requires i < |prefixes|
    ensures (exists path :: Selected(prefixes, path, i))
       <==> forall j :: 0 <= j < i ==> !(prefixes[j] <= prefixes[i])
  {
    if forall j :: 0 <= j < i ==> !(prefixes[j] <= prefixes[i]) {
      assert Selected(prefixes, prefixes[i], i);
    }
    if exists path :: Selected(prefixes, path, i) {
      var path :| Selected(prefixes, path, i);
      forall j | 0 <= j < i ensures !(prefixes[j] <= prefixes[i]) {
      }
    }
  }
}
