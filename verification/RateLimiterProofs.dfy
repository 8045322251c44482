/** What the rate limiter promises over whole runs. */
module RateLimiterProofs {
  import opened Numbers
  import opened RateLimiter

  // ------------------------------------------------------------------
  // Arithmetic
  // ------------------------------------------------------------------

  lemma QuotientTimes(a: int, b: int)
    requires b > 0
    ensures a / b * b <= a < (a / b + 1) * b
  {
    assert a == a / b * b + a % b;
  }

  lemma Distribute(a: int, b: int, factor: int)
    ensures (a + b) * factor == a * factor + b * factor
  {
  }

  lemma PositiveFactor(a: int, b: int)
    requires b > 0 && a * b > 0
    ensures a > 0
  {
  }

  lemma QuotientAtLeast(a: int, b: int, q: int)
    requires b > 0 && a >= q * b
    ensures a / b >= q
  {
    QuotientTimes(a, b);
    Distribute(a / b + 1 - q, q, b);
    PositiveFactor(a / b + 1 - q, b);
  }

  /** From a bound on what was paid to a bound on how often. */
  lemma GrantArithmetic(g: int, rate: int, per: int, d: int, scale: int)
    requires per > 0 && scale > 0
    requires g * (scale * per) <= rate * scale * per + d * (rate * scale)
    ensures g <= rate + rate * d / per
  {
    var short := rate * per + rate * d - g * per;
    assert short * scale >= 0;
    Distribute(short, 1, scale);
    PositiveFactor(short + 1, scale);
    Distribute(g - rate, rate, per);
    QuotientAtLeast(rate * d, per, g - rate);
  }

  /** Rounding down once costs the stored amount less than one unit, also where both are clipped. */
  lemma CloseAfterRefill(tokens: int, exact: int, inflow: int, per: int, n: int, full: int)
    requires per > 0 && n >= 1 && full >= 0 && inflow >= 0 && tokens >= 0
    requires tokens * per <= exact <= (tokens + n - 1) * per
    ensures var t := Quotient(Min(full, tokens * per + inflow), per);
            t * per <= Min(full, exact + inflow) <= (t + n) * per
  {
    var sum := Min(full, tokens * per + inflow);
    assert tokens * per >= 0;
    QuotientTimes(sum, per);
    Distribute(sum / per + 1, n - 1, per);
    Distribute(tokens, n - 1, per);
    assert (n - 1) * per >= 0;
  }

  lemma BelowOneToken(tokens: int, exact: int, n: int, per: int)
    requires per > 0 && tokens < TOKEN_SCALE
    requires exact <= (tokens + n - 1) * per
    ensures exact < (TOKEN_SCALE + n) * per
  {
    Distribute(tokens + n - 1, TOKEN_SCALE + 1 - tokens, per);
    assert (TOKEN_SCALE + 1 - tokens) * per > 0;
  }

  lemma SpacedRefill(cfg: Config, tokens: nat, elapsed: nat)
    requires cfg.Sound() && cfg.maxRate >= 1 && elapsed * cfg.maxRate >= cfg.per
    ensures Refilled(cfg, tokens, elapsed) >= TOKEN_SCALE
  {
    assert cfg.Inflow(elapsed) == TOKEN_SCALE * (elapsed * cfg.maxRate);
    assert tokens * cfg.per >= 0;
    assert cfg.maxRate * cfg.per >= cfg.per;
    assert cfg.Cap() * cfg.per == TOKEN_SCALE * (cfg.maxRate * cfg.per);
    QuotientAtLeast(Min(cfg.Cap() * cfg.per, tokens * cfg.per + cfg.Inflow(elapsed)), cfg.per, TOKEN_SCALE);
  }

  // ------------------------------------------------------------------
  // What every operation keeps
  // ------------------------------------------------------------------

  ghost predicate GoodBucket(cfg: Config, b: Bucket, now: int) {
    && 0 <= b.tokens <= cfg.Cap()
    && b.lastRefill <= now
    && b.refills >= 1
    && b.allows + b.rejects == b.refills + 1
  }

  ghost predicate Good(cfg: Config, m: Buckets, now: int) {
    forall k | k in m :: GoodBucket(cfg, m[k], now)
  }

  lemma InflowBounds(cfg: Config, elapsed: int)
    requires cfg.Sound() && elapsed >= 0
    ensures cfg.Inflow(elapsed) >= 0
    ensures elapsed >= cfg.per ==> cfg.Inflow(elapsed) >= cfg.Cap() * cfg.per
  {
    if elapsed >= cfg.per {
      assert elapsed * cfg.Cap() >= cfg.per * cfg.Cap();
    }
  }

  /** A refill never goes back, and stays within the capacity. */
  lemma RefillBounds(cfg: Config, tokens: nat, elapsed: nat)
    requires cfg.Sound() && tokens <= cfg.Cap()
    ensures tokens <= Refilled(cfg, tokens, elapsed) <= cfg.Cap()
    ensures Refilled(cfg, tokens, elapsed) * cfg.per
         <= Min(cfg.Cap() * cfg.per, tokens * cfg.per + cfg.Inflow(elapsed))
  {
    var sum := Min(cfg.Cap() * cfg.per, tokens * cfg.per + cfg.Inflow(elapsed));
    InflowBounds(cfg, elapsed);
    assert 0 <= tokens * cfg.per <= cfg.Cap() * cfg.per;
    QuotientAtLeast(sum, cfg.per, tokens);
    QuotientTimes(sum, cfg.per);
    Distribute(cfg.Cap(), 1, cfg.per);
    Distribute(cfg.Cap() + 1 - sum / cfg.per, sum / cfg.per, cfg.per);
    PositiveFactor(cfg.Cap() + 1 - sum / cfg.per, cfg.per);
  }

  lemma InflowAdds(cfg: Config, a: int, b: int)
    ensures cfg.Inflow(a + b) == cfg.Inflow(a) + cfg.Inflow(b)
  {
  }

  /** What a key could spend at `now`, in micro-tokens times `per`. */
  ghost function Level(cfg: Config, m: Buckets, key: Key, now: int): int {
    var full := cfg.Cap() * cfg.per;
    if key in m then Min(full, m[key].tokens * cfg.per + cfg.Inflow(now - m[key].lastRefill)) else full
  }

  /** The bucket a request finds or creates, filled up. A new one is full already. */
  lemma RefillOnAllow(cfg: Config, m: Buckets, key: Key, now: int)
    requires cfg.Sound() && Good(cfg, m, now)
    ensures var b := Refill(cfg, FindOrCreate(cfg, m, key, now), now);
            && b.lastRefill == now
            && 0 <= b.tokens <= cfg.Cap()
            && (key !in m ==> b.tokens == cfg.Cap())
            && b.tokens * cfg.per <= Level(cfg, m, key, now)
  {
    var found := FindOrCreate(cfg, m, key, now);
    RefillBounds(cfg, found.tokens, now - found.lastRefill);
  }

  lemma EventKeepsGood(cfg: Config, sweeps: bool, m: Buckets, e: Event)
    requires cfg.Sound() && Good(cfg, m, e.at)
    ensures Good(cfg, Effect(cfg, sweeps, m, e).buckets, e.at)
  {
    if e.op.Allow? {
      RefillOnAllow(cfg, m, e.op.key, e.at);
    }
  }

  /** Every bucket of every run holds between nothing and its capacity, and its counters balance. */
  lemma {:induction false} RunsAreGood(cfg: Config, sweeps: bool, events: seq<Event>, now: int)
    requires cfg.Sound() && Sorted(events)
    requires events != [] ==> events[|events| - 1].at <= now
    ensures Good(cfg, After(cfg, sweeps, events), now)
    decreases |events|
  {
    if events == [] {
    } else {
      var n := |events| - 1;
      RunsAreGood(cfg, sweeps, events[..n], events[n].at);
      EventKeepsGood(cfg, sweeps, After(cfg, sweeps, events[..n]), events[n]);
    }
  }

  // ------------------------------------------------------------------
  // Cleaning up cannot be observed
  // ------------------------------------------------------------------

  /** `m` is what is left of `n` after sweeps that removed only idle buckets. */
  ghost predicate SweptFrom(cfg: Config, m: Buckets, n: Buckets, now: int) {
    && m.Keys <= n.Keys
    && (forall k | k in m :: m[k].tokens == n[k].tokens && m[k].lastRefill == n[k].lastRefill)
    && (forall k | k in n && k !in m :: Stale(cfg, n[k], now))
  }

  /** A bucket idle for more than two periods refills to what a new one starts with. */
  lemma StaleRefillsFull(cfg: Config, b: Bucket, now: int)
    requires cfg.Sound() && GoodBucket(cfg, b, now) && Stale(cfg, b, now)
    ensures Refilled(cfg, b.tokens, now - b.lastRefill) == cfg.Cap()
  {
    InflowBounds(cfg, now - b.lastRefill);
    assert b.tokens * cfg.per >= 0;
    QuotientAtLeast(cfg.Cap() * cfg.per, cfg.per, cfg.Cap());
    RefillBounds(cfg, b.tokens, now - b.lastRefill);
  }

  lemma EventKeepsSwept(cfg: Config, m: Buckets, n: Buckets, e: Event)
    requires cfg.Sound() && Good(cfg, m, e.at) && Good(cfg, n, e.at) && SweptFrom(cfg, m, n, e.at)
    ensures Effect(cfg, true, m, e).allowed == Effect(cfg, false, n, e).allowed
    ensures SweptFrom(cfg, Effect(cfg, true, m, e).buckets, Effect(cfg, false, n, e).buckets, e.at)
  {
    if e.op.Allow? {
      var key := e.op.key;
      RefillOnAllow(cfg, m, key, e.at);
      RefillOnAllow(cfg, n, key, e.at);
      if key !in m && key in n {
        StaleRefillsFull(cfg, n[key], e.at);
      }
    }
  }

  lemma {:induction false} RunsStaySwept(cfg: Config, events: seq<Event>, now: int)
    requires cfg.Sound() && Sorted(events)
    requires events != [] ==> events[|events| - 1].at <= now
    ensures SweptFrom(cfg, After(cfg, true, events), After(cfg, false, events), now)
    decreases |events|
  {
    if events == [] {
    } else {
      var n := |events| - 1;
      var e := events[n];
      RunsStaySwept(cfg, events[..n], e.at);
      RunsAreGood(cfg, true, events[..n], e.at);
      RunsAreGood(cfg, false, events[..n], e.at);
      EventKeepsSwept(cfg, After(cfg, true, events[..n]), After(cfg, false, events[..n]), e);
    }
  }

  /** In every run, every request gets the verdict of a limiter that never cleans up. */
  lemma CleanupIsTransparent(cfg: Config, events: seq<Event>)
    requires cfg.Sound() && Sorted(events)
    ensures forall i | 0 <= i < |events| :: Allowed(cfg, true, events, i) == Allowed(cfg, false, events, i)
  {
    forall i | 0 <= i < |events|
      ensures Allowed(cfg, true, events, i) == Allowed(cfg, false, events, i)
    {
      var e := events[i];
      RunsStaySwept(cfg, events[..i], e.at);
      RunsAreGood(cfg, true, events[..i], e.at);
      RunsAreGood(cfg, false, events[..i], e.at);
      EventKeepsSwept(cfg, After(cfg, true, events[..i]), After(cfg, false, events[..i]), e);
    }
  }

  // ------------------------------------------------------------------
  // The rate bound
  // ------------------------------------------------------------------

  /** How many requests for `key` were let through among events `i` to `j`. */
  function Granted(cfg: Config, events: seq<Event>, key: Key, i: nat, j: nat): nat
    requires cfg.Sound() && i <= j <= |events|
    decreases j - i
  {
    if i == j then 0
    else
      Granted(cfg, events, key, i, j - 1)
      + if events[j - 1].op == Allow(key) && Allowed(cfg, true, events, j - 1) then 1 else 0
  }

  lemma LevelOverTime(cfg: Config, m: Buckets, key: Key, from: int, to: int)
    requires cfg.Sound() && from <= to
    ensures Level(cfg, m, key, to) <= Level(cfg, m, key, from) + cfg.Inflow(to - from)
  {
    InflowBounds(cfg, to - from);
    if key in m {
      InflowAdds(cfg, from - m[key].lastRefill, to - from);
    }
  }

  function Price(cfg: Config): int {
    TOKEN_SCALE * cfg.per
  }

  lemma LevelWhenTouched(cfg: Config, m: Buckets, key: Key, now: int)
    requires key in m && m[key].lastRefill == now
    ensures Level(cfg, m, key, now) <= m[key].tokens * cfg.per
  {
    assert cfg.Inflow(0) == 0;
  }

  lemma AllowPaysForGrant(cfg: Config, m: Buckets, key: Key, now: int)
    requires cfg.Sound() && Good(cfg, m, now)
    ensures var r := Effect(cfg, true, m, Event(now, Allow(key)));
            Level(cfg, r.buckets, key, now) + (if r.allowed then Price(cfg) else 0) <= Level(cfg, m, key, now)
  {
    var r := Effect(cfg, true, m, Event(now, Allow(key)));
    var b := Refill(cfg, FindOrCreate(cfg, m, key, now), now);
    RefillOnAllow(cfg, m, key, now);
    LevelWhenTouched(cfg, r.buckets, key, now);
    Distribute(b.tokens - TOKEN_SCALE, TOKEN_SCALE, cfg.per);
  }

  lemma StaleIsFull(cfg: Config, m: Buckets, key: Key, now: int)
    requires cfg.Sound() && key in m && 0 <= m[key].tokens && Stale(cfg, m[key], now)
    ensures Level(cfg, m, key, now) == cfg.Cap() * cfg.per
  {
    InflowBounds(cfg, now - m[key].lastRefill);
    assert m[key].tokens * cfg.per >= 0;
  }

  /** Whatever happens, the level of a key falls by the price of what it was granted. */
  lemma EventPaysForGrant(cfg: Config, m: Buckets, e: Event, key: Key)
    requires cfg.Sound() && Good(cfg, m, e.at)
    requires e.op != Reset(key)
    ensures var r := Effect(cfg, true, m, e);
            var paid := if e.op == Allow(key) && r.allowed then Price(cfg) else 0;
            Level(cfg, r.buckets, key, e.at) + paid <= Level(cfg, m, key, e.at)
  {
    match e.op
    case Allow(k) =>
      if k == key {
        AllowPaysForGrant(cfg, m, key, e.at);
      }
    case Reset(_) =>
    case Cleanup =>
      if key in m && Stale(cfg, m[key], e.at) {
        StaleIsFull(cfg, m, key, e.at);
      }
  }

  /** The price of all that was granted among events `i` to `j`. */
  function Paid(cfg: Config, events: seq<Event>, key: Key, i: nat, j: nat): int
    requires cfg.Sound() && i <= j <= |events|
    decreases j - i
  {
    if i == j then 0
    else
      Paid(cfg, events, key, i, j - 1)
      + if events[j - 1].op == Allow(key) && Allowed(cfg, true, events, j - 1) then Price(cfg) else 0
  }

  lemma {:induction false} PaidIsPriceTimesGranted(cfg: Config, events: seq<Event>, key: Key, i: nat, j: nat)
    requires cfg.Sound() && i <= j <= |events|
    ensures Paid(cfg, events, key, i, j) == Granted(cfg, events, key, i, j) * Price(cfg)
    decreases j - i
  {
    if i == j {
    } else {
      PaidIsPriceTimesGranted(cfg, events, key, i, j - 1);
      Distribute(Granted(cfg, events, key, i, j - 1), 1, Price(cfg));
    }
  }

  lemma {:induction false} GrantsPaid(cfg: Config, events: seq<Event>, key: Key, i: nat, j: nat)
    requires cfg.Sound() && Sorted(events) && i < j <= |events|
    requires forall x | i <= x < j :: events[x].op != Reset(key)
    ensures Level(cfg, After(cfg, true, events[..j]), key, events[j - 1].at) + Paid(cfg, events, key, i, j)
         <= cfg.Cap() * cfg.per + cfg.Inflow(events[j - 1].at - events[i].at)
    decreases j - i
  {
    var e := events[j - 1];
    var before := After(cfg, true, events[..j - 1]);
    assert events[..j][..j - 1] == events[..j - 1];
    RunsAreGood(cfg, true, events[..j - 1], e.at);
    EventPaysForGrant(cfg, before, e, key);
    assert Paid(cfg, events, key, i, j) == Paid(cfg, events, key, i, j - 1)
        + if e.op == Allow(key) && Allowed(cfg, true, events, j - 1) then Price(cfg) else 0;
    if j - 1 == i {
      assert cfg.Inflow(0) == 0;
    } else {
      GrantsPaid(cfg, events, key, i, j - 1);
      LevelOverTime(cfg, before, key, events[j - 2].at, e.at);
      InflowAdds(cfg, events[j - 2].at - events[i].at, e.at - events[j - 2].at);
    }
  }

  lemma LevelIsNotNegative(cfg: Config, m: Buckets, key: Key, now: int)
    requires cfg.Sound() && Good(cfg, m, now)
    ensures Level(cfg, m, key, now) >= 0
  {
    if key in m {
      InflowBounds(cfg, now - m[key].lastRefill);
      assert m[key].tokens * cfg.per >= 0;
    }
  }

  /** In any stretch of any run in which the key is not reset, wherever cleanups fall, at most
      maxRate + maxRate * D / per requests of a key pass within D nanoseconds. */
  lemma RateBound(cfg: Config, events: seq<Event>, key: Key, i: nat, j: nat)
    requires cfg.Sound() && Sorted(events) && i < j <= |events|
    requires forall x | i <= x < j :: events[x].op != Reset(key)
    ensures var d := events[j - 1].at - events[i].at;
            Granted(cfg, events, key, i, j) <= cfg.maxRate + cfg.maxRate * d / cfg.per
  {
    var d := events[j - 1].at - events[i].at;
    var g := Granted(cfg, events, key, i, j);
    GrantsPaid(cfg, events, key, i, j);
    RunsAreGood(cfg, true, events[..j], events[j - 1].at);
    LevelIsNotNegative(cfg, After(cfg, true, events[..j]), key, events[j - 1].at);
    PaidIsPriceTimesGranted(cfg, events, key, i, j);
    GrantArithmetic(g, cfg.maxRate, cfg.per, d, TOKEN_SCALE);
  }

  // ------------------------------------------------------------------
  // Fixed-point drift
  // ------------------------------------------------------------------

  /** A bucket that nothing truncates and nobody cleans up: its whole tokens times `per`, and as of when. */
  datatype Ideal = Ideal(level: int, at: int)

  /** What a key holds at `now`: a token comes every `per` over `maxRate`, up to `maxRate` of them. */
  function IdealLevel(cfg: Config, x: map<Key, Ideal>, key: Key, now: int): int {
    var full := cfg.maxRate * cfg.per;
    if key in x then Min(full, x[key].level + (now - x[key].at) * cfg.maxRate) else full
  }

  /** A request that passes takes one token. */
  function IdealEffect(cfg: Config, x: map<Key, Ideal>, e: Event, allowed: bool): map<Key, Ideal> {
    match e.op
    case Allow(key) =>
      x[key := Ideal(IdealLevel(cfg, x, key, e.at) - if allowed then cfg.per else 0, e.at)]
    case Reset(key) => x - {key}
    case Cleanup => x
  }

  /** The ideal buckets after a run, which pay for the requests that the limiter lets through. */
  function IdealAfter(cfg: Config, events: seq<Event>): map<Key, Ideal>
    requires cfg.Sound()
    decreases |events|
  {
    if events == [] then map[]
    else
      var n := |events| - 1;
      IdealEffect(cfg, IdealAfter(cfg, events[..n]), events[n], Allowed(cfg, true, events, n))
  }

  /** The stored millionths of a token are at most what the ideal bucket holds, and short of it by
      less than one for each refill. */
  ghost predicate Close(cfg: Config, b: Bucket, ideal: int) {
    b.tokens * cfg.per <= 1_000_000 * ideal <= (b.tokens + b.refills - 1) * cfg.per
  }

  /** Ideal buckets are never in debt; they run beside the stored ones, and when a stored bucket was
      cleaned up the ideal one has had two periods to fill up. */
  ghost predicate Tracks(cfg: Config, m: Buckets, x: map<Key, Ideal>, now: int) {
    && m.Keys <= x.Keys
    && (forall k | k in x :: x[k].level >= 0 && x[k].at <= now)
    && (forall k | k in m :: x[k].at == m[k].lastRefill && Close(cfg, m[k], x[k].level))
    && (forall k | k in x && k !in m :: now - x[k].at > cfg.per * 2)
  }

  lemma InMillionths(cfg: Config, level: int, elapsed: int)
    ensures 1_000_000 * Min(cfg.maxRate * cfg.per, level + elapsed * cfg.maxRate)
         == Min(cfg.Cap() * cfg.per, 1_000_000 * level + cfg.Inflow(elapsed))
  {
    assert cfg.Inflow(elapsed) == 1_000_000 * (elapsed * cfg.maxRate);
    assert cfg.Cap() * cfg.per == 1_000_000 * (cfg.maxRate * cfg.per);
  }

  /** After two periods the ideal bucket is full. */
  lemma IdleIdealIsFull(cfg: Config, x: map<Key, Ideal>, key: Key, now: int)
    requires cfg.Sound() && (key in x ==> x[key].level >= 0 && now - x[key].at > cfg.per * 2)
    ensures IdealLevel(cfg, x, key, now) == cfg.maxRate * cfg.per
  {
    if key in x {
      var elapsed := now - x[key].at;
      assert (elapsed - cfg.per) * cfg.maxRate >= 0;
      Distribute(elapsed - cfg.per, cfg.per, cfg.maxRate);
    }
  }

  /** What a request finds, filled up, is close to what the ideal bucket holds. */
  lemma RefillKeepsClose(cfg: Config, m: Buckets, x: map<Key, Ideal>, key: Key, now: int)
    requires cfg.Sound() && Good(cfg, m, now) && Tracks(cfg, m, x, now)
    ensures Close(cfg, Refill(cfg, FindOrCreate(cfg, m, key, now), now), IdealLevel(cfg, x, key, now))
  {
    RefillOnAllow(cfg, m, key, now);
    if key in m {
      var elapsed := now - m[key].lastRefill;
      InMillionths(cfg, x[key].level, elapsed);
      InflowBounds(cfg, elapsed);
      CloseAfterRefill(m[key].tokens, 1_000_000 * x[key].level, cfg.Inflow(elapsed), cfg.per, m[key].refills,
                       cfg.Cap() * cfg.per);
    } else {
      IdleIdealIsFull(cfg, x, key, now);
      assert cfg.Cap() * cfg.per == 1_000_000 * (cfg.maxRate * cfg.per);
    }
  }

  /** A request that takes a token takes the same from both. */
  lemma DecideKeepsClose(cfg: Config, b: Bucket, ideal: int)
    requires cfg.Sound() && Close(cfg, b, ideal)
    ensures Close(cfg, Decide(b), ideal - if HasToken(b) then cfg.per else 0)
    ensures HasToken(b) ==> ideal >= cfg.per
  {
    if HasToken(b) {
      Distribute(b.tokens - 1_000_000, 1_000_000, cfg.per);
      Distribute(b.tokens - 1_000_000 + b.refills - 1, 1_000_000, cfg.per);
      assert (b.tokens - 1_000_000) * cfg.per >= 0;
    }
  }

  lemma IdealIsNotNegative(cfg: Config, m: Buckets, x: map<Key, Ideal>, key: Key, now: int)
    requires cfg.Sound() && Tracks(cfg, m, x, now)
    ensures IdealLevel(cfg, x, key, now) >= 0
  {
    assert cfg.maxRate * cfg.per >= 0;
    assert key in x ==> (now - x[key].at) * cfg.maxRate >= 0;
  }

  lemma EventKeepsTracks(cfg: Config, m: Buckets, x: map<Key, Ideal>, e: Event)
    requires cfg.Sound() && Good(cfg, m, e.at) && Tracks(cfg, m, x, e.at)
    ensures var r := Effect(cfg, true, m, e);
            Tracks(cfg, r.buckets, IdealEffect(cfg, x, e, r.allowed), e.at)
  {
    if e.op.Allow? {
      RefillKeepsClose(cfg, m, x, e.op.key, e.at);
      DecideKeepsClose(cfg, Refill(cfg, FindOrCreate(cfg, m, e.op.key, e.at), e.at), IdealLevel(cfg, x, e.op.key, e.at));
      IdealIsNotNegative(cfg, m, x, e.op.key, e.at);
    }
  }

  lemma {:induction false} RunsTrack(cfg: Config, events: seq<Event>, now: int)
    requires cfg.Sound() && Sorted(events)
    requires events != [] ==> events[|events| - 1].at <= now
    ensures Tracks(cfg, After(cfg, true, events), IdealAfter(cfg, events), now)
    decreases |events|
  {
    if events == [] {
    } else {
      var n := |events| - 1;
      RunsTrack(cfg, events[..n], events[n].at);
      RunsAreGood(cfg, true, events[..n], events[n].at);
      EventKeepsTracks(cfg, After(cfg, true, events[..n]), IdealAfter(cfg, events[..n]), events[n]);
    }
  }

  /** In every run, every stored bucket is below the ideal one, by less than a millionth of a token for each refill. */
  lemma DriftIsBounded(cfg: Config, events: seq<Event>, key: Key)
    requires cfg.Sound() && Sorted(events) && key in After(cfg, true, events)
    ensures key in IdealAfter(cfg, events)
    ensures var b, ideal := After(cfg, true, events)[key], IdealAfter(cfg, events)[key].level;
            b.tokens * cfg.per <= 1_000_000 * ideal <= (b.tokens + b.refills - 1) * cfg.per
  {
    RunsTrack(cfg, events, if events == [] then 0 else events[|events| - 1].at);
  }

  lemma VerdictFollowsIdeal(cfg: Config, b: Bucket, ideal: int)
    requires cfg.Sound() && Close(cfg, b, ideal)
    ensures ideal < cfg.per ==> !HasToken(b)
    ensures !HasToken(b) ==> 1_000_000 * ideal < (1_000_000 + b.refills) * cfg.per
  {
    DecideKeepsClose(cfg, b, ideal);
    if !HasToken(b) {
      BelowOneToken(b.tokens, 1_000_000 * ideal, b.refills, cfg.per);
    }
  }

  /** What a verdict says of the ideal bucket, and the ideal bucket of the verdict. */
  ghost predicate Justified(cfg: Config, allowed: bool, ideal: int, refills: int) {
    && (ideal < cfg.per ==> !allowed)
    && (!allowed ==> 1_000_000 * ideal < (1_000_000 + refills) * cfg.per)
  }

  lemma VerdictIsJustified(cfg: Config, m: Buckets, x: map<Key, Ideal>, key: Key, now: int)
    requires cfg.Sound() && Good(cfg, m, now) && Tracks(cfg, m, x, now)
    ensures Justified(cfg, Effect(cfg, true, m, Event(now, Allow(key))).allowed,
                      IdealLevel(cfg, x, key, now), FindOrCreate(cfg, m, key, now).refills + 1)
  {
    RefillKeepsClose(cfg, m, x, key, now);
    VerdictFollowsIdeal(cfg, Refill(cfg, FindOrCreate(cfg, m, key, now), now), IdealLevel(cfg, x, key, now));
  }

  /** A request that the ideal bucket has no token for is refused, and one is refused only when the
      ideal bucket holds less than one token and a millionth of one for each refill, this one included. */
  lemma RefusalMeansNearlyEmpty(cfg: Config, events: seq<Event>, key: Key, now: int)
    requires cfg.Sound() && Sorted(events)
    requires events != [] ==> events[|events| - 1].at <= now
    ensures Justified(cfg, Effect(cfg, true, After(cfg, true, events), Event(now, Allow(key))).allowed,
                      IdealLevel(cfg, IdealAfter(cfg, events), key, now),
                      FindOrCreate(cfg, After(cfg, true, events), key, now).refills + 1)
  {
    RunsTrack(cfg, events, now);
    RunsAreGood(cfg, true, events, now);
    VerdictIsJustified(cfg, After(cfg, true, events), IdealAfter(cfg, events), key, now);
  }

  // ------------------------------------------------------------------
  // Well-spaced requests
  // ------------------------------------------------------------------

  /** While a key is not asked for, its bucket stays as it is or goes away. */
  lemma {:induction false} UntouchedBucket(cfg: Config, events: seq<Event>, key: Key, i: nat, j: nat)
    requires cfg.Sound() && i < j <= |events|
    requires events[i].op == Allow(key)
    requires forall x | i < x < j :: events[x].op != Allow(key)
    ensures key in After(cfg, true, events[..j]) ==> After(cfg, true, events[..j])[key].lastRefill == events[i].at
    decreases j
  {
    assert events[..j][..j - 1] == events[..j - 1];
    if i == j - 1 {
    } else {
      UntouchedBucket(cfg, events, key, i, j - 1);
    }
  }

  /** A request that comes at least per / maxRate after the key's previous one passes, whatever
      resets, cleanups and other keys come between them. */
  lemma SpacedRequestPasses(cfg: Config, events: seq<Event>, key: Key, i: nat, j: nat)
    requires cfg.Sound() && cfg.maxRate >= 1 && Sorted(events) && i < j < |events|
    requires events[i].op == Allow(key) && events[j].op == Allow(key)
    requires forall x | i < x < j :: events[x].op != Allow(key)
    requires (events[j].at - events[i].at) * cfg.maxRate >= cfg.per
    ensures Allowed(cfg, true, events, j)
  {
    var m, now := After(cfg, true, events[..j]), events[j].at;
    UntouchedBucket(cfg, events, key, i, j);
    RunsAreGood(cfg, true, events[..j], now);
    RefillOnAllow(cfg, m, key, now);
    if key in m {
      SpacedRefill(cfg, m[key].tokens, now - events[i].at);
    }
  }

  /** The first request for a key passes. */
  lemma FirstRequestPasses(cfg: Config, events: seq<Event>, key: Key, j: nat)
    requires cfg.Sound() && cfg.maxRate >= 1 && Sorted(events) && j < |events|
    requires events[j].op == Allow(key)
    requires forall x | 0 <= x < j :: events[x].op != Allow(key)
    ensures Allowed(cfg, true, events, j)
  {
    NeverAskedHasNoBucket(cfg, events, key, j);
    RunsAreGood(cfg, true, events[..j], events[j].at);
    RefillOnAllow(cfg, After(cfg, true, events[..j]), key, events[j].at);
  }

  lemma {:induction false} NeverAskedHasNoBucket(cfg: Config, events: seq<Event>, key: Key, j: nat)
    requires cfg.Sound() && j <= |events|
    requires forall x | 0 <= x < j :: events[x].op != Allow(key)
    ensures key !in After(cfg, true, events[..j])
  {
    if j == 0 {
    } else {
      assert events[..j][..j - 1] == events[..j - 1];
      NeverAskedHasNoBucket(cfg, events, key, j - 1);
    }
  }

  // ------------------------------------------------------------------
  // Statistics
  // ------------------------------------------------------------------

  /** How many requests came for `key` among events `i` to `j`. */
  function Asked(events: seq<Event>, key: Key, i: nat, j: nat): nat
    requires i <= j <= |events|
    decreases j - i
  {
    if i == j then 0
    else Asked(events, key, i, j - 1) + if events[j - 1].op == Allow(key) then 1 else 0
  }

  /** Event `x` of the run takes the bucket of `key` away: a reset of the key, or a cleanup that finds it idle. */
  predicate Removes(cfg: Config, events: seq<Event>, key: Key, x: nat)
    requires cfg.Sound() && x < |events|
  {
    var m := After(cfg, true, events[..x]);
    match events[x].op
    case Allow(_) => false
    case Reset(k) => k == key
    case Cleanup => key in m && Stale(cfg, m[key], events[x].at)
  }

  /** From when a key has no bucket until its bucket is removed, its statistics are its verdicts:
      one more than the requests that passed, those that did not, and all of them. */
  lemma {:induction false} StatisticsRecordVerdicts(cfg: Config, events: seq<Event>, key: Key, i: nat, j: nat)
    requires cfg.Sound() && i <= j <= |events|
    requires key !in After(cfg, true, events[..i])
    requires forall x | i <= x < j :: !Removes(cfg, events, key, x)
    ensures var m := After(cfg, true, events[..j]);
            var asked, granted := Asked(events, key, i, j), Granted(cfg, events, key, i, j);
            if asked == 0 then key !in m && granted == 0
            else key in m && m[key].allows == granted + 1 && m[key].rejects == asked - granted && m[key].refills == asked
    decreases j - i
  {
    if i == j {
    } else {
      StatisticsRecordVerdicts(cfg, events, key, i, j - 1);
      assert events[..j][..j - 1] == events[..j - 1];
      assert !Removes(cfg, events, key, j - 1);
    }
  }

  // ------------------------------------------------------------------
  // Without a rate
  // ------------------------------------------------------------------

  lemma QuotientNotPositive(a: int, b: int)
    requires b > 0 && a <= 0
    ensures Quotient(a, b) <= 0
  {
    QuotientAtLeast(-a, b, 0);
  }

  lemma ProductNotPositive(a: int, b: int)
    requires a <= 0 && b > 0
    ensures a * b <= 0
  {
  }

  lemma RefillWithoutRate(cfg: Config, tokens: int, elapsed: int)
    requires cfg.Defined() && cfg.maxRate <= 0
    ensures Refilled(cfg, tokens, elapsed) <= 0
  {
    ProductNotPositive(cfg.Cap(), cfg.per);
    QuotientNotPositive(Min(cfg.Cap() * cfg.per, tokens * cfg.per + cfg.Inflow(elapsed)), cfg.per);
  }

  /** With no rate, or a negative one, no request ever passes, whatever the clock does. */
  lemma WithoutRateNothingPasses(cfg: Config, events: seq<Event>, i: nat)
    requires cfg.Defined() && cfg.maxRate <= 0 && i < |events|
    ensures !Allowed(cfg, true, events, i)
  {
    if events[i].op.Allow? {
      var found := FindOrCreate(cfg, After(cfg, true, events[..i]), events[i].op.key, events[i].at);
      RefillWithoutRate(cfg, found.tokens, events[i].at - found.lastRefill);
    }
  }

  // ------------------------------------------------------------------
  // Bursts
  // ------------------------------------------------------------------

  function Burst(key: Key, at: int, n: nat): seq<Event> {
    seq(n, _ => Event(at, Allow(key)))
  }

  /** The tokens left when `n` requests came at once. */
  function LeftOver(cfg: Config, n: nat): int {
    if n <= cfg.maxRate then (cfg.maxRate - n) * TOKEN_SCALE else 0
  }

  lemma RefillAtOnce(cfg: Config, tokens: nat)
    requires cfg.Sound() && tokens <= cfg.Cap()
    ensures Refilled(cfg, tokens, 0) == tokens
  {
    RefillBounds(cfg, tokens, 0);
    assert cfg.Inflow(0) == 0;
    var r := Refilled(cfg, tokens, 0);
    Distribute(tokens + 1 - r, r, cfg.per);
    PositiveFactor(tokens + 1 - r, cfg.per);
  }

  lemma {:induction false} BurstLeaves(cfg: Config, key: Key, at: int, n: nat)
    requires cfg.Sound()
    ensures var m := After(cfg, true, Burst(key, at, n));
            if n == 0 then m == map[]
            else key in m && m[key].lastRefill == at && m[key].tokens == LeftOver(cfg, n)
  {
    if n == 0 {
    } else {
      var m := After(cfg, true, Burst(key, at, n - 1));
      assert Burst(key, at, n)[..n - 1] == Burst(key, at, n - 1);
      BurstLeaves(cfg, key, at, n - 1);
      RefillAtOnce(cfg, FindOrCreate(cfg, m, key, at).tokens);
    }
  }

  /** Of requests that come at once for a new key, exactly the first maxRate pass: the rate bound is reached. */
  lemma BurstIsExact(cfg: Config, key: Key, at: int, n: nat)
    requires cfg.Sound()
    ensures forall i | 0 <= i < n :: Allowed(cfg, true, Burst(key, at, n), i) <==> i < cfg.maxRate
  {
    forall i | 0 <= i < n
      ensures Allowed(cfg, true, Burst(key, at, n), i) <==> i < cfg.maxRate
    {
      assert Burst(key, at, n)[..i] == Burst(key, at, i);
      BurstLeaves(cfg, key, at, i);
      RefillAtOnce(cfg, FindOrCreate(cfg, After(cfg, true, Burst(key, at, i)), key, at).tokens);
    }
  }
}
