/** Token buckets (huddle_cluster_pkg/cluster_rate_limiter.py) over real arithmetic, and the limiter
    that keeps one per node, created on first use. Clock readings are arguments. */
module RateLimiter {
  type Id = nat

  datatype Bucket = Bucket(capacity: real, rate: real, tokens: real, last: real, consumed: nat)

  function NewBucket(capacity: real, rate: real, now: real): Bucket { Bucket(capacity, rate, capacity, now, 0) }

  function MinReal(a: real, b: real): real { if b < a then b else a }

  function Refill(b: Bucket, now: real): Bucket {
    b.(tokens := MinReal(b.capacity, b.tokens + (now - b.last) * b.rate), last := now)
  }

  function Consume(b: Bucket, amount: real, now: real): (Bucket, bool) {
    var b1 := Refill(b, now);
    if b1.tokens >= amount then (b1.(tokens := b1.tokens - amount, consumed := b1.consumed + 1), true)
    else (b1, false)
  }

  function Fill(b: Bucket, now: real): Bucket { b.(tokens := b.capacity, last := now) }

  // ----- The limiter -----

  datatype Limiter = Limiter(capacity: real, rate: real, buckets: map<Id, Bucket>)

  function Get(l: Limiter, id: Id, now: real): Bucket {
    if id in l.buckets then l.buckets[id] else NewBucket(l.capacity, l.rate, now)
  }

  function ConsumeFrom(l: Limiter, id: Id, amount: real, now: real): (Limiter, bool) {
    var (b, ok) := Consume(Get(l, id, now), amount, now);
    (l.(buckets := l.buckets[id := b]), ok)
  }

  /** `is_rate_limited` */
  function Query(l: Limiter, id: Id, now: real): (Limiter, bool) {
    var b := Refill(Get(l, id, now), now);
    (l.(buckets := l.buckets[id := b]), b.tokens < 1.0)
  }

  /** `reset` */
  function Reset(l: Limiter, id: Id, now: real): Limiter {
    if id in l.buckets then l.(buckets := l.buckets[id := Fill(l.buckets[id], now)]) else l
  }

  /** `bucket_for`, through `to_dict` */
  function Show(l: Limiter, id: Id, now: real): Limiter {
    if id in l.buckets then l.(buckets := l.buckets[id := Refill(l.buckets[id], now)]) else l
  }
}

module RateLimiterObject {
  import opened RateLimiter

  class TokenBucket {
    const capacity: real
    const refillRate: real
    var tokens: real
    var lastRefill: real
    var consumed: nat

    ghost function Value(): Bucket
      reads this
    {
      Bucket(capacity, refillRate, tokens, lastRefill, consumed)
    }

    constructor (capacity: real, refillRate: real, now: real)
      ensures Value() == NewBucket(capacity, refillRate, now)
    {
      this.capacity, this.refillRate := capacity, refillRate;
      tokens, lastRefill, consumed := capacity, now, 0;
    }

    method RefillTo(now: real)
      modifies this
      ensures Value() == Refill(old(Value()), now)
    {
      var elapsed := now - lastRefill;
      tokens := MinReal(capacity, tokens + elapsed * refillRate);
      lastRefill := now;
    }

    method ConsumeTokens(amount: real, now: real) returns (ok: bool)
      modifies this
      ensures (Value(), ok) == Consume(old(Value()), amount, now)
    {
      RefillTo(now);
      ok := tokens >= amount;
      if ok {
        tokens := tokens - amount;
        consumed := consumed + 1;
      }
    }

    method FillUp(now: real)
      modifies this
      ensures Value() == Fill(old(Value()), now)
    {
      tokens, lastRefill := capacity, now;
    }
  }

  class ClusterRateLimiter {
    const capacity: real
    const refillRate: real
    var buckets: map<Id, TokenBucket>

    /** The source raises ValueError for anything else. */
    constructor (capacity: real, refillRate: real)
      requires capacity > 0.0 && refillRate > 0.0
      ensures Valid() && State() == Limiter(capacity, refillRate, map[])
    {
      this.capacity, this.refillRate := capacity, refillRate;
      buckets := map[];
    }

    /** No two nodes share a bucket. */
    ghost predicate Valid()
      reads this
    {
      forall a, b :: a in buckets && b in buckets && a != b ==> buckets[a] != buckets[b]
    }

    ghost function State(): Limiter
      reads this, buckets.Values
    {
      Limiter(capacity, refillRate, map id | id in buckets :: buckets[id].Value())
    }

    method GetOrCreate(id: Id, now: real) returns (bucket: TokenBucket)
      requires Valid()
      modifies this
      ensures Valid() && id in buckets && buckets[id] == bucket && bucket.Value() == Get(old(State()), id, now)
      ensures buckets == old(buckets)[id := bucket]
      ensures if id in old(buckets) then bucket == old(buckets)[id] else fresh(bucket)
      ensures forall x :: x in old(buckets) ==> buckets[x].Value() == old(buckets[x].Value())
    {
      if id !in buckets {
        bucket := new TokenBucket(capacity, refillRate, now);
        buckets := buckets[id := bucket];
      }
      bucket := buckets[id];
    }

    method ConsumeTokens(id: Id, amount: real, now: real) returns (ok: bool)
      requires Valid()
      modifies this, buckets.Values
      ensures Valid() && (State(), ok) == ConsumeFrom(old(State()), id, amount, now)
      ensures id in buckets && buckets == old(buckets)[id := buckets[id]]
      ensures if id in old(buckets) then buckets[id] == old(buckets)[id] else fresh(buckets[id])
    {
      var bucket := GetOrCreate(id, now);
      ok := bucket.ConsumeTokens(amount, now);
      assert forall x :: x in old(buckets) && x != id ==> buckets[x].Value() == old(buckets[x].Value());
      assert State().buckets == old(State()).buckets[id := bucket.Value()];
    }

    method IsRateLimited(id: Id, now: real) returns (limited: bool)
      requires Valid()
      modifies this, buckets.Values
      ensures Valid() && (State(), limited) == Query(old(State()), id, now)
      ensures id in buckets && buckets == old(buckets)[id := buckets[id]]
      ensures if id in old(buckets) then buckets[id] == old(buckets)[id] else fresh(buckets[id])
    {
      var bucket := GetOrCreate(id, now);
      bucket.RefillTo(now);
      limited := bucket.tokens < 1.0;
      assert State().buckets == old(State()).buckets[id := bucket.Value()];
    }

    method ResetBucket(id: Id, now: real) returns (known: bool)
      requires Valid()
      modifies buckets.Values
      ensures Valid() && State() == Reset(old(State()), id, now)
      ensures known <==> id in buckets
    {
      known := id in buckets;
      if known {
        buckets[id].FillUp(now);
      }
    }

    method ShowBucket(id: Id, now: real)
      requires Valid()
      modifies buckets.Values
      ensures Valid() && State() == Show(old(State()), id, now)
    {
      if id in buckets {
        buckets[id].RefillTo(now);
      }
    }
  }
}
