/** The token-bucket rate limiter: integer nanoseconds, tokens in millionths. */
module RateLimiter {
  import opened Numbers

  type Key = string

  /** Micro-tokens in one token. */
  const TOKEN_SCALE := 1_000_000

  /** `maxRate` requests per `per` nanoseconds. */
  datatype Config = Config(maxRate: int, per: int) {
    /** The limiter divides by its period. */
    predicate Defined() {
      per > 0
    }

    predicate Sound() {
      Defined() && maxRate >= 0
    }

    /** What a full bucket holds, in micro-tokens. */
    function Cap(): int {
      maxRate * TOKEN_SCALE
    }

    /** The micro-tokens `elapsed` nanoseconds bring, times `per`. */
    function Inflow(elapsed: int): int {
      elapsed * Cap()
    }
  }

  datatype Bucket = Bucket(tokens: int, lastRefill: int, allows: int, rejects: int, refills: int)

  type Buckets = map<Key, Bucket>

  datatype Op = Allow(key: Key) | Reset(key: Key) | Cleanup

  /** An operation and what the clock said when it held the lock. */
  datatype Event = Event(at: int, op: Op)

  function Min(a: int, b: int): int {
    if a < b then a else b
  }

  /** The micro-tokens after a refill: filled up in proportion to the nanoseconds elapsed, clipped, fraction dropped. */
  function Refilled(cfg: Config, tokens: int, elapsed: int): int
    requires cfg.Defined()
  {
    Quotient(Min(cfg.Cap() * cfg.per, tokens * cfg.per + cfg.Inflow(elapsed)), cfg.per)
  }

  // ------------------------------------------------------------------
  // The refill as the limiter computes it, in exact arithmetic
  // ------------------------------------------------------------------

  function MinReal(a: real, b: real): real {
    if a < b then a else b
  }

  function Seconds(nanos: int): real {
    nanos as real / 1_000_000_000.0
  }

  /** The tokens that `elapsed` nanoseconds bring. */
  function Brought(cfg: Config, elapsed: int): real
    requires cfg.Defined()
  {
    Seconds(elapsed) * (cfg.maxRate as real / Seconds(cfg.per))
  }

  /** The whole and fractional tokens after `elapsed`: filled up in proportion to the seconds elapsed, then clipped. */
  function Filled(cfg: Config, tokens: int, elapsed: int): real
    requires cfg.Defined()
  {
    MinReal(cfg.maxRate as real, tokens as real / TOKEN_SCALE as real + Brought(cfg, elapsed))
  }

  /** The stored micro-tokens: the fraction is cut off. */
  function RefilledInSeconds(cfg: Config, tokens: int, elapsed: int): int
    requires cfg.Defined()
  {
    Truncate(Filled(cfg, tokens, elapsed) * TOKEN_SCALE as real)
  }

  /** What `elapsed` brings, in micro-tokens, is the same proportion in nanoseconds. */
  lemma SecondsCancel(cfg: Config, elapsed: int)
    requires cfg.Defined()
    ensures Brought(cfg, elapsed) * TOKEN_SCALE as real == cfg.Inflow(elapsed) as real / cfg.per as real
  {
    var e, p, m := elapsed as real, cfg.per as real, cfg.maxRate as real;
    var g := 1_000_000_000.0;
    assert m / (p / g) == m * g / p;
    assert (e / g) * (m * g / p) == e * m / p;
    assert (e * m / p) * 1_000_000.0 == (e * (m * 1_000_000.0)) / p;
    assert cfg.Inflow(elapsed) as real == e * (m * 1_000_000.0);
  }

  lemma MinOfQuotients(a: int, b: int, d: int)
    requires d > 0
    ensures MinReal(a as real / d as real, b as real / d as real) == Min(a, b) as real / d as real
  {
    assert a as real / d as real < b as real / d as real <==> a < b;
  }

  lemma SumOfQuotients(a: int, b: int, d: int)
    requires d > 0
    ensures a as real + b as real / d as real == (a * d + b) as real / d as real
  {
    assert (a * d + b) as real == a as real * d as real + b as real;
    assert a as real * d as real / d as real == a as real;
  }

  /** Scaling down, adding and scaling up again. */
  lemma ScaledSum(tokens: real, toAdd: real)
    ensures (tokens / TOKEN_SCALE as real + toAdd) * TOKEN_SCALE as real == tokens + toAdd * TOKEN_SCALE as real
  {
  }

  lemma ScaledMin(a: real, b: real)
    ensures MinReal(a, b) * TOKEN_SCALE as real == MinReal(a * TOKEN_SCALE as real, b * TOKEN_SCALE as real)
  {
  }

  lemma FilledInMicro(cfg: Config, tokens: int, elapsed: int)
    requires cfg.Defined()
    ensures Filled(cfg, tokens, elapsed) * TOKEN_SCALE as real
         == MinReal(cfg.Cap() as real, tokens as real + Brought(cfg, elapsed) * TOKEN_SCALE as real)
  {
    var sum := tokens as real / TOKEN_SCALE as real + Brought(cfg, elapsed);
    ScaledMin(cfg.maxRate as real, sum);
    ScaledSum(tokens as real, Brought(cfg, elapsed));
    assert cfg.maxRate as real * TOKEN_SCALE as real == cfg.Cap() as real;
  }

  /** The two forms of the refill agree on all tokens and all times, also when the clock goes back. */
  lemma RefillFormsAgree(cfg: Config, tokens: int, elapsed: int)
    requires cfg.Defined()
    ensures RefilledInSeconds(cfg, tokens, elapsed) == Refilled(cfg, tokens, elapsed)
  {
    var full, sum := cfg.Cap() * cfg.per, tokens * cfg.per + cfg.Inflow(elapsed);
    calc {
      Filled(cfg, tokens, elapsed) * TOKEN_SCALE as real;
    == { FilledInMicro(cfg, tokens, elapsed); SecondsCancel(cfg, elapsed); }
      MinReal(cfg.Cap() as real, tokens as real + cfg.Inflow(elapsed) as real / cfg.per as real);
    == { SumOfQuotients(cfg.Cap(), 0, cfg.per); SumOfQuotients(tokens, cfg.Inflow(elapsed), cfg.per); }
      MinReal(full as real / cfg.per as real, sum as real / cfg.per as real);
    == { MinOfQuotients(full, sum, cfg.per); }
      Min(full, sum) as real / cfg.per as real;
    }
    TruncateQuotient(Min(full, sum), cfg.per);
  }

  // ------------------------------------------------------------------
  // The operations on the table of buckets
  // ------------------------------------------------------------------

  datatype Reply = Reply(buckets: Buckets, allowed: bool)

  /** A new bucket is full. Its first request is already counted as allowed, and is counted again once decided. */
  function Created(cfg: Config, now: int): Bucket {
    Bucket(cfg.Cap(), now, 1, 0, 0)
  }

  function FindOrCreate(cfg: Config, m: Buckets, key: Key, now: int): Bucket {
    if key in m then m[key] else Created(cfg, now)
  }

  function Refill(cfg: Config, b: Bucket, now: int): Bucket
    requires cfg.Defined()
  {
    b.(tokens := Refilled(cfg, b.tokens, now - b.lastRefill), lastRefill := now, refills := b.refills + 1)
  }

  predicate HasToken(b: Bucket) {
    b.tokens >= TOKEN_SCALE
  }

  function Decide(b: Bucket): Bucket {
    if HasToken(b) then b.(tokens := b.tokens - TOKEN_SCALE, allows := b.allows + 1)
    else b.(rejects := b.rejects + 1)
  }

  predicate Stale(cfg: Config, b: Bucket, now: int) {
    now - b.lastRefill > cfg.per * 2
  }

  function Swept(cfg: Config, m: Buckets, now: int): Buckets {
    map k | k in m && !Stale(cfg, m[k], now) :: m[k]
  }

  /** With `sweeps` off, the limiter never cleans up. */
  function Effect(cfg: Config, sweeps: bool, m: Buckets, e: Event): Reply
    requires e.op.Allow? ==> cfg.Defined()
  {
    match e.op
    case Allow(key) =>
      var b := Refill(cfg, FindOrCreate(cfg, m, key, e.at), e.at);
      Reply(m[key := Decide(b)], HasToken(b))
    case Reset(key) => Reply(m - {key}, false)
    case Cleanup => Reply(if sweeps then Swept(cfg, m, e.at) else m, false)
  }

  function After(cfg: Config, sweeps: bool, events: seq<Event>): Buckets
    requires cfg.Defined()
    decreases |events|
  {
    if events == [] then map[]
    else
      var n := |events| - 1;
      Effect(cfg, sweeps, After(cfg, sweeps, events[..n]), events[n]).buckets
  }

  /** Whether event `i` of the run is a request that was let through. */
  function Allowed(cfg: Config, sweeps: bool, events: seq<Event>, i: nat): bool
    requires cfg.Defined() && i < |events|
  {
    Effect(cfg, sweeps, After(cfg, sweeps, events[..i]), events[i]).allowed
  }

  /** The clock does not go back. */
  ghost predicate Sorted(events: seq<Event>) {
    forall i, j | 0 <= i < j < |events| :: events[i].at <= events[j].at
  }

  // ------------------------------------------------------------------
  // The objects
  // ------------------------------------------------------------------

  class TokenBucket {
    var tokens: int
    var lastRefill: int
    var allowCount: int
    var rejectCount: int
    var refillCount: int

    function Snapshot(): Bucket
      reads this
    {
      Bucket(tokens, lastRefill, allowCount, rejectCount, refillCount)
    }

    constructor (tokens: int, now: int)
      ensures Snapshot() == Bucket(tokens, now, 0, 0, 0)
    {
      this.tokens, lastRefill := tokens, now;
      allowCount, rejectCount, refillCount := 0, 0, 0;
    }
  }

  class DefaultRateLimiter {
    const cfg: Config
    var buckets: map<Key, TokenBucket>

    ghost predicate Valid()
      reads this
    {
      forall j, k | j in buckets && k in buckets && j != k :: buckets[j] != buckets[k]
    }

    ghost function Contents(): Buckets
      reads this, buckets.Values
    {
      map k | k in buckets :: buckets[k].Snapshot()
    }

    constructor (reqs: int, per: int)
      ensures Valid() && Contents() == map[] && cfg == Config(reqs, per)
    {
      cfg := Config(reqs, per);
      buckets := map[];
    }

    method GetOrCreateBucket(key: Key, now: int) returns (bucket: TokenBucket)
      requires Valid()
      modifies this
      ensures Valid()
      ensures key in buckets && bucket == buckets[key]
      ensures key in old(buckets) ==> buckets == old(buckets)
      ensures key !in old(buckets) ==> fresh(bucket) && buckets == old(buckets)[key := bucket]
      ensures Contents() == old(Contents())[key := FindOrCreate(cfg, old(Contents()), key, now)]
      ensures key !in old(buckets) ==>
                bucket.tokens == cfg.maxRate * 1_000_000 && bucket.lastRefill == now && bucket.allowCount == 1
    {
      if key in buckets {
        bucket := buckets[key];
      } else {
        bucket := new TokenBucket(Truncate(cfg.maxRate as real * TOKEN_SCALE as real), now);
        buckets := buckets[key := bucket];
        bucket.allowCount := bucket.allowCount + 1;
      }
    }

    method RefillBucket(bucket: TokenBucket, now: int)
      requires cfg.Defined()
      modifies bucket
      ensures bucket.Snapshot() == Refill(cfg, old(bucket.Snapshot()), now)
    {
      var newTokens := Filled(cfg, bucket.tokens, now - bucket.lastRefill);
      RefillFormsAgree(cfg, bucket.tokens, now - bucket.lastRefill);
      bucket.tokens := Truncate(newTokens * TOKEN_SCALE as real);
      bucket.lastRefill := now;
      bucket.refillCount := bucket.refillCount + 1;
    }

    method Spend(bucket: TokenBucket) returns (allowed: bool)
      modifies bucket
      ensures bucket.Snapshot() == Decide(old(bucket.Snapshot()))
      ensures allowed == HasToken(old(bucket.Snapshot()))
      ensures allowed == (old(bucket.tokens) >= 1_000_000)
      ensures bucket.tokens == old(bucket.tokens) - if allowed then 1_000_000 else 0
    {
      var newTokens := bucket.tokens as real / TOKEN_SCALE as real;
      if newTokens >= 1.0 {
        bucket.tokens := bucket.tokens - TOKEN_SCALE;
        bucket.allowCount := bucket.allowCount + 1;
        return true;
      }
      bucket.rejectCount := bucket.rejectCount + 1;
      return false;
    }

    method Charge(bucket: TokenBucket, now: int) returns (allowed: bool)
      requires cfg.Defined()
      modifies bucket
      ensures var b := Refill(cfg, old(bucket.Snapshot()), now);
              bucket.Snapshot() == Decide(b) && allowed == HasToken(b)
    {
      RefillBucket(bucket, now);
      allowed := Spend(bucket);
    }

    twostate lemma OnlyOneChanged(key: Key)
      requires buckets == old(buckets) && key in buckets
      requires forall k | k in buckets && k != key :: unchanged(buckets[k])
      ensures Contents() == old(Contents())[key := buckets[key].Snapshot()]
    {
    }

    /** One request for a key. */
    method Allow(key: Key, now: int) returns (allowed: bool)
      requires Valid() && cfg.Defined()
      modifies this, buckets.Values
      ensures Valid() && fresh(buckets.Values - old(buckets.Values))
      ensures Reply(Contents(), allowed) == Effect(cfg, true, old(Contents()), Event(now, Op.Allow(key)))
    {
      var bucket := GetOrCreateBucket(key, now);
      assert bucket.Snapshot() == Contents()[key];
      label found:
      allowed := Charge(bucket, now);
      OnlyOneChanged@found(key);
    }

    method Reset(key: Key, now: int)
      requires Valid()
      modifies this
      ensures Valid() && buckets == old(buckets) - {key}
      ensures Contents() == Effect(cfg, true, old(Contents()), Event(now, Op.Reset(key))).buckets
    {
      buckets := buckets - {key};
    }

    /** One tick of the cleanup loop. */
    method Cleanup(now: int)
      requires Valid()
      modifies this
      ensures Valid() && buckets.Values <= old(buckets.Values)
      ensures Contents() == Effect(cfg, true, old(Contents()), Event(now, Op.Cleanup)).buckets
      ensures forall k | k in old(buckets) :: k in buckets <==> now - old(buckets[k].lastRefill) <= 2 * cfg.per
    {
      var todo := buckets.Keys;
      while todo != {}
        invariant todo <= buckets.Keys <= old(buckets.Keys)
        invariant forall k | k in buckets :: buckets[k] == old(buckets)[k]
        invariant forall k | k in old(buckets) && k !in todo ::
                    k in buckets <==> !Stale(cfg, old(buckets)[k].Snapshot(), now)
        decreases todo
      {
        var key :| key in todo;
        todo := todo - {key};
        var lastRefill := buckets[key].lastRefill;
        if now - lastRefill > cfg.per * 2 {
          buckets := buckets - {key};
        }
      }
    }
  }
}
