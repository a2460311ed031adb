/** The token-bucket limiter of `loadbalancer/ratelimiter.go`, over exact reals.

    A caller reads the clock before it takes the lock, so the instants that reach a bucket need not be in order. */
module Limiter {

  datatype Bucket = Bucket(tokens: real, last: real, warmup: int)

  datatype Limits = Limits(capacity: real, refillRate: real, warmup: int)

  function NewLimits(capacity: int, refillPerSecond: int): Limits {
    Limits(capacity as real, refillPerSecond as real, capacity * 3)
  }

  predicate Sane(lim: Limits) {
    0.0 <= lim.capacity && 0.0 <= lim.refillRate
  }

  function NewBucket(lim: Limits, now: real): Bucket {
    Bucket(lim.capacity, now, lim.warmup)
  }

  function Min(x: real, y: real): real {
    if x > y then y else x
  }

  /** The tokens that flow in between two instants. */
  function Inflow(lim: Limits, from: real, to: real): real {
    (to - from) * lim.refillRate
  }

  function Refilled(lim: Limits, b: Bucket, now: real): Bucket {
    if now - b.last > 0.0
    then Bucket(Min(b.tokens + Inflow(lim, b.last, now), lim.capacity), now, b.warmup)
    else b
  }

  /** One call on a bucket: whether it is allowed, and what is left. */
  function Asked(lim: Limits, b: Bucket, now: real): (bool, Bucket) {
    if b.warmup > 0 then (true, Bucket(b.tokens, now, b.warmup - 1))
    else
      var full := Refilled(lim, b, now);
      if full.tokens >= 1.0 then (true, full.(tokens := full.tokens - 1.0)) else (false, full)
  }

  function AskedKey(lim: Limits, buckets: map<string, Bucket>, key: string, now: real): (bool, map<string, Bucket>) {
    var b := if key in buckets then buckets[key] else NewBucket(lim, now);
    var (allowed, b') := Asked(lim, b, now);
    (allowed, buckets[key := b'])
  }

  class TokenBucket {
    var tokens: real
    var last: real
    var warmup: int

    constructor (tokens: real, last: real, warmup: int)
      ensures View() == Bucket(tokens, last, warmup)
    {
      this.tokens, this.last, this.warmup := tokens, last, warmup;
    }

    ghost function View(): Bucket
      reads this
    {
      Bucket(tokens, last, warmup)
    }

    /** The part of `Allow` that works on the bucket of the key. */
    method Ask(limits: Limits, now: real) returns (allowed: bool)
      modifies this
      ensures (allowed, View()) == Asked(limits, old(View()), now)
    {
      if warmup > 0 {
        warmup := warmup - 1;
        last := now;
        return true;
      }
      var elapsed := now - last;
      ghost var inflow := Inflow(limits, last, now);
      if elapsed > 0.0 {
        tokens := tokens + elapsed * limits.refillRate;
        assert tokens == old(tokens) + inflow;
        if tokens > limits.capacity {
          tokens := limits.capacity;
        }
        last := now;
      }
      assert View() == Refilled(limits, old(View()), now);
      allowed := tokens >= 1.0;
      if allowed {
        tokens := tokens - 1.0;
      }
    }
  }

  class RateLimiter {
    const limits: Limits
    var buckets: map<string, TokenBucket>

    /** No two keys share a bucket. */
    ghost predicate Valid()
      reads this
    {
      forall k, l :: k in buckets && l in buckets && k != l ==> buckets[k] != buckets[l]
    }

    ghost function View(): map<string, Bucket>
      reads this, buckets.Values
    {
      map k | k in buckets :: buckets[k].View()
    }

    constructor (capacity: int, refillPerSecond: int)
      ensures Valid() && limits == NewLimits(capacity, refillPerSecond) && View() == map[]
    {
      limits := NewLimits(capacity, refillPerSecond);
      buckets := map[];
    }

    method Allow(key: string, now: real) returns (allowed: bool)
      requires Valid()
      modifies this, buckets.Values
      ensures Valid() && fresh(buckets.Values - old(buckets.Values))
      ensures (allowed, View()) == AskedKey(limits, old(View()), key, now)
    {
      ghost var before := View();
      var bucket;
      if key in buckets {
        bucket := buckets[key];
      } else {
        bucket := new TokenBucket(limits.capacity, now, limits.warmup);
        buckets := buckets[key := bucket];
      }
      allowed := bucket.Ask(limits, now);
      assert View() == before[key := bucket.View()];
    }
  }
}
