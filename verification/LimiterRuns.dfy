/** What a bucket admits over whole runs of calls. */
module LimiterRuns {
  import opened Limiter

  function Decisions(lim: Limits, b: Bucket, times: seq<real>): seq<bool>
    decreases |times|
  {
    if times == [] then []
    else
      var (allowed, b') := Asked(lim, b, times[0]);
      [allowed] + Decisions(lim, b', times[1..])
  }

  function Last(lim: Limits, b: Bucket, times: seq<real>): Bucket
    decreases |times|
  {
    if times == [] then b else Last(lim, Asked(lim, b, times[0]).1, times[1..])
  }

  function Yes(ds: seq<bool>): nat {
    if ds == [] then 0 else (if ds[0] then 1 else 0) + Yes(ds[1..])
  }

  predicate Filled(lim: Limits, b: Bucket) {
    0.0 <= b.tokens <= lim.capacity
  }

  // ---------- The window bound ----------

  /** The tokens of a bucket, less all that the clock has ever poured in. */
  function Level(lim: Limits, b: Bucket): real {
    b.tokens - Inflow(lim, 0.0, b.last)
  }

  lemma {:induction false} Distributes(rate: real, from: real, to: real)
    ensures (to - from) * rate == (to - 0.0) * rate - (from - 0.0) * rate
  {
  }

  lemma {:induction false} NonNegative(rate: real, elapsed: real)
    requires 0.0 <= rate && 0.0 <= elapsed
    ensures 0.0 <= elapsed * rate
  {
  }

  lemma {:induction false} InflowAdds(lim: Limits, from: real, to: real)
    requires 0.0 <= lim.refillRate
    ensures Inflow(lim, from, to) == Inflow(lim, 0.0, to) - Inflow(lim, 0.0, from)
    ensures from <= to ==> 0.0 <= Inflow(lim, from, to)
  {
    Distributes(lim.refillRate, from, to);
    if from <= to {
      NonNegative(lim.refillRate, to - from);
    }
  }

  lemma {:induction false} AskedOnce(lim: Limits, b: Bucket, now: real)
    requires Sane(lim) && Filled(lim, b) && b.warmup <= 0
    ensures var (allowed, b') := Asked(lim, b, now);
      var used := if allowed then 1.0 else 0.0;
      && Filled(lim, b') && b'.warmup == b.warmup && b.last <= b'.last
      && used + Level(lim, b') <= Level(lim, b)
      && used + b'.tokens <= lim.capacity
  {
    var full := Refilled(lim, b, now);
    InflowAdds(lim, b.last, now);
    assert Filled(lim, full) && Level(lim, full) <= Level(lim, b);
  }

  /** After warm-up, whatever the order of the instants: the clock of the bucket never moves back, its tokens stay
      within the capacity, and every admission lowers the level. */
  lemma {:induction false} LevelBound(lim: Limits, b: Bucket, times: seq<real>)
    requires Sane(lim) && Filled(lim, b) && b.warmup <= 0
    ensures var b' := Last(lim, b, times);
      && Filled(lim, b') && b'.warmup == b.warmup && b.last <= b'.last
      && Yes(Decisions(lim, b, times)) as real + Level(lim, b') <= Level(lim, b)
    decreases |times|
  {
    if times != [] {
      var b1 := Asked(lim, b, times[0]).1;
      AskedOnce(lim, b, times[0]);
      LevelBound(lim, b1, times[1..]);
      assert Decisions(lim, b, times)[1..] == Decisions(lim, b1, times[1..]);
    }
  }

  /** What a run admits was there before or flowed in meanwhile. */
  lemma {:induction false} RunBound(lim: Limits, b: Bucket, times: seq<real>)
    requires Sane(lim) && Filled(lim, b) && b.warmup <= 0
    ensures var b' := Last(lim, b, times);
      Yes(Decisions(lim, b, times)) as real <= b.tokens + Inflow(lim, b.last, b'.last) - b'.tokens
  {
    var b' := Last(lim, b, times);
    LevelBound(lim, b, times);
    LevelDrop(lim, Yes(Decisions(lim, b, times)) as real, b, b');
  }

  lemma {:induction false} LevelDrop(lim: Limits, used: real, b: Bucket, b': Bucket)
    requires 0.0 <= lim.refillRate && used + Level(lim, b') <= Level(lim, b)
    ensures used <= b.tokens + Inflow(lim, b.last, b'.last) - b'.tokens
  {
    InflowAdds(lim, b.last, b'.last);
  }

  lemma {:induction false} FirstDecision(lim: Limits, b: Bucket, times: seq<real>)
    requires times != []
    ensures var (allowed, b1) := Asked(lim, b, times[0]);
      && Yes(Decisions(lim, b, times)) == (if allowed then 1 else 0) + Yes(Decisions(lim, b1, times[1..]))
      && Last(lim, b, times) == Last(lim, b1, times[1..])
  {
    assert Decisions(lim, b, times)[1..] == Decisions(lim, Asked(lim, b, times[0]).1, times[1..]);
  }

  /** Any run of calls admits at most the capacity and what flows in after its first call. */
  lemma {:induction false} WindowBound(lim: Limits, b: Bucket, times: seq<real>, first: Bucket, end: Bucket)
    requires Sane(lim) && Filled(lim, b) && b.warmup <= 0 && times != []
    requires first == Asked(lim, b, times[0]).1 && end == Last(lim, b, times)
    ensures Yes(Decisions(lim, b, times)) as real <= lim.capacity + Inflow(lim, first.last, end.last)
  {
    FirstDecision(lim, b, times);
    AskedOnce(lim, b, times[0]);
    RunBound(lim, first, times[1..]);
    LevelBound(lim, first, times[1..]);
  }

  // ---------- The warm-up ----------

  /** A new bucket admits its warm-up allowance without looking at its tokens, and then starts as a full bucket. */
  lemma {:induction false} Warmup(lim: Limits, b: Bucket, times: seq<real>)
    requires 0 <= b.warmup
    ensures var n := if |times| <= b.warmup then |times| else b.warmup;
      var b' := Last(lim, b, times[..n]);
      && b'.tokens == b.tokens && b'.warmup == b.warmup - n
      && b'.last == (if n == 0 then b.last else times[n - 1])
      && Yes(Decisions(lim, b, times)) == n + Yes(Decisions(lim, b', times[n..]))
      && Last(lim, b, times) == Last(lim, b', times[n..])
    decreases |times|
  {
    var n := if |times| <= b.warmup then |times| else b.warmup;
    if n == 0 {
      assert times[n..] == times && times[..n] == [];
    } else {
      var b1 := Asked(lim, b, times[0]).1;
      Warmup(lim, b1, times[1..]);
      assert times[..n][1..] == times[1..][..n - 1];
      assert times[n..] == times[1..][n - 1..];
      assert Decisions(lim, b, times)[1..] == Decisions(lim, b1, times[1..]);
    }
  }

  /** With the settings of `NewRateLimiter`, the first `3 * capacity` calls of a key are all let in. */
  lemma {:induction false} FirstCallsFree(capacity: int, rate: int, now: real, times: seq<real>)
    requires |times| <= 3 * capacity
    ensures var lim := NewLimits(capacity, rate);
      Yes(Decisions(lim, NewBucket(lim, now), times)) == |times|
  {
    var lim := NewLimits(capacity, rate);
    Warmup(lim, NewBucket(lim, now), times);
    assert times[|times|..] == [];
  }

  /** How many of the first calls of a new bucket cost nothing. */
  function Free(lim: Limits, calls: nat): nat {
    if lim.warmup < 0 then 0 else if calls <= lim.warmup then calls else lim.warmup
  }

  /** Admissions since the bucket was created: the warm-up allowance for nothing, then the bound of a full bucket. */
  lemma {:induction false} LifetimeBound(lim: Limits, b: Bucket, times: seq<real>, n: nat, warm: Bucket, end: Bucket)
    requires Sane(lim) && b == NewBucket(lim, b.last) && n == Free(lim, |times|)
    requires warm == Last(lim, b, times[..n]) && end == Last(lim, b, times)
    ensures Yes(Decisions(lim, b, times)) as real <= n as real + lim.capacity + Inflow(lim, warm.last, end.last)
  {
    if lim.warmup < 0 {
      assert times[..0] == [];
      RunBound(lim, b, times);
      LevelBound(lim, b, times);
    } else {
      Warmup(lim, b, times);
      if |times| <= lim.warmup {
        assert times[..n] == times && times[n..] == [];
      } else {
        RunBound(lim, warm, times[n..]);
        LevelBound(lim, warm, times[n..]);
      }
    }
  }

  // ---------- What is admitted for sure ----------

  /** `n` calls at one instant. */
  function Same(n: nat, now: real): seq<real> {
    if n == 0 then [] else [now] + Same(n - 1, now)
  }

  /** `k` of `n` calls are as many as whole tokens allow. */
  predicate AsManyAs(k: nat, n: nat, tokens: real) {
    && k <= n
    && (k != 0 ==> k as real <= tokens)
    && (k < n ==> tokens < (k + 1) as real)
  }

  /** One more call, which takes a token if there is a whole one. */
  lemma {:induction false} OneMoreCall(k: nat, n: nat, tokens: real)
    requires AsManyAs(k, n, if tokens >= 1.0 then tokens - 1.0 else tokens)
    ensures AsManyAs(if tokens >= 1.0 then k + 1 else k, n + 1, tokens)
  {
    assert (k + 1) as real == k as real + 1.0;
    assert (k + 2) as real == k as real + 2.0;
  }

  lemma {:induction false} Drain(lim: Limits, b: Bucket, now: real, n: nat)
    requires b.warmup <= 0 && now <= b.last
    ensures AsManyAs(Yes(Decisions(lim, b, Same(n, now))), n, b.tokens)
    decreases n
  {
    if n != 0 {
      var b1 := Asked(lim, b, now).1;
      assert Same(n, now)[1..] == Same(n - 1, now);
      FirstDecision(lim, b, Same(n, now));
      Drain(lim, b1, now, n - 1);
      OneMoreCall(Yes(Decisions(lim, b1, Same(n - 1, now))), n - 1, b.tokens);
    }
  }

  lemma {:induction false} BurstFrom(lim: Limits, b: Bucket, now: real, n: nat)
    requires b.warmup <= 0
    ensures AsManyAs(Yes(Decisions(lim, b, Same(n, now))), n, Refilled(lim, b, now).tokens)
  {
    if n != 0 {
      var b1 := Asked(lim, b, now).1;
      assert Same(n, now)[1..] == Same(n - 1, now);
      FirstDecision(lim, b, Same(n, now));
      Drain(lim, b1, now, n - 1);
      OneMoreCall(Yes(Decisions(lim, b1, Same(n - 1, now))), n - 1, Refilled(lim, b, now).tokens);
    }
  }

  lemma {:induction false} LevelIs(lim: Limits, b: Bucket, now: real, sum: real)
    requires sum == b.tokens + (now - b.last) * lim.refillRate
    ensures Refilled(lim, b, now).tokens ==
        if now <= b.last then b.tokens else if lim.capacity < sum then lim.capacity else sum
  {
  }

  /** After warm-up, calls at one instant are admitted as long as there are tokens: those that were there and those that
      flowed in since the last call, up to the capacity. */
  lemma {:induction false} BurstExact(lim: Limits, b: Bucket, now: real, n: nat, sum: real)
    requires b.warmup <= 0 && sum == b.tokens + (now - b.last) * lim.refillRate
    ensures AsManyAs(
        Yes(Decisions(lim, b, Same(n, now))), n,
        if now <= b.last then b.tokens else if lim.capacity < sum then lim.capacity else sum)
  {
    LevelIs(lim, b, now, sum);
    BurstFrom(lim, b, now, n);
  }

  /** In particular, whoever leaves the bucket alone for `d` seconds gets what flows in meanwhile. */
  lemma {:induction false} LeftAlone(lim: Limits, b: Bucket, d: real, n: nat)
    requires b.warmup <= 0 && 0.0 <= d
    requires n as real <= lim.capacity && n as real <= b.tokens + d * lim.refillRate
    ensures Yes(Decisions(lim, b, Same(n, b.last + d))) == n
  {
    var sum := b.tokens + d * lim.refillRate;
    assert b.last + d - b.last == d;
    assert d == 0.0 ==> sum == b.tokens;
    BurstExact(lim, b, b.last + d, n, sum);
    var level := if d == 0.0 || sum <= lim.capacity then sum else lim.capacity;
    AllOfThem(Yes(Decisions(lim, b, Same(n, b.last + d))), n, level);
  }

  lemma {:induction false} AllOfThem(k: nat, n: nat, tokens: real)
    requires AsManyAs(k, n, tokens) && n as real <= tokens
    ensures k == n
  {
  }

  lemma {:induction false} SameSplit(n: nat, k: nat, now: real)
    requires k <= n
    ensures |Same(n, now)| == n && Same(n, now)[..k] == Same(k, now) && Same(n, now)[k..] == Same(n - k, now)
  {
    if k != 0 {
      SameSplit(n - 1, k - 1, now);
      assert Same(n, now)[..k] == [now] + Same(n - 1, now)[..k - 1];
      assert Same(n, now)[k..] == Same(n - 1, now)[k - 1..];
    } else if n != 0 {
      SameSplit(n - 1, 0, now);
      assert Same(n, now)[..0] == Same(0, now);
    }
  }

  /** A burst on a new key: three times the capacity for the warm-up and once more for the full bucket, and no more. */
  lemma {:induction false} NewKeyBurst(capacity: nat, rate: int, now: real, n: nat)
    ensures var lim := NewLimits(capacity, rate);
      Yes(Decisions(lim, NewBucket(lim, now), Same(n, now))) == if n <= 4 * capacity then n else 4 * capacity
  {
    var lim := NewLimits(capacity, rate);
    var b := NewBucket(lim, now);
    var free := if n <= 3 * capacity then n else 3 * capacity;
    SameSplit(n, free, now);
    Warmup(lim, b, Same(n, now));
    var warm := Last(lim, b, Same(free, now));
    if free == n {
      assert Same(0, now) == [];
    } else {
      assert free == 0 || Same(n, now)[free - 1] == now by {
        SameAt(n, free - 1, now);
      }
      Drain(lim, warm, now, n - free);
    }
  }

  lemma {:induction false} SameAt(n: nat, k: int, now: real)
    ensures |Same(n, now)| == n
    ensures 0 <= k < n ==> Same(n, now)[k] == now
  {
    if n != 0 {
      SameAt(n - 1, k - 1, now);
    }
  }

  // ---------- Greedy optimality ----------

  /** What somebody else has who serves the same calls from the same bucket. */
  datatype Rival = Rival(tokens: real, last: real)

  /** The tokens there are at an instant: as the limiter promises them, in numbers. */
  function Poured(lim: Limits, tokens: real, last: real, now: real): real {
    if now <= last then tokens
    else
      var sum := tokens + (now - last) * lim.refillRate;
      if lim.capacity < sum then lim.capacity else sum
  }

  lemma {:induction false} PouredIsRefilled(lim: Limits, b: Bucket, now: real)
    ensures Refilled(lim, b, now) ==
      Bucket(Poured(lim, b.tokens, b.last, now), if now <= b.last then b.last else now, b.warmup)
  {
  }

  /** One call: it takes a token exactly where `take` says so. */
  function Taken(lim: Limits, o: Rival, now: real, take: bool): Rival {
    Rival(
      Poured(lim, o.tokens, o.last, now) - if take then 1.0 else 0.0,
      if now <= o.last then o.last else now)
  }

  predicate NeverOverdraws(lim: Limits, o: Rival, times: seq<real>, takes: seq<bool>)
    requires |times| == |takes|
    decreases |times|
  {
    times == [] ||
    (&& (takes[0] ==> Poured(lim, o.tokens, o.last, times[0]) >= 1.0)
     && NeverOverdraws(lim, Taken(lim, o, times[0], takes[0]), times[1..], takes[1..]))
  }

  /** The limiter is ahead by `lead` admissions, and never short by more than its lead. */
  ghost predicate Ahead(g: Bucket, o: Rival, lead: int) {
    && g.warmup <= 0
    && g.last == o.last
    && 0 <= lead
    && o.tokens <= g.tokens + lead as real
  }

  lemma {:induction false} AheadStep(lim: Limits, g: Bucket, o: Rival, lead: int, now: real, take: bool)
    requires Sane(lim) && Ahead(g, o, lead) && (take ==> Poured(lim, o.tokens, o.last, now) >= 1.0)
    ensures var (allowed, g') := Asked(lim, g, now);
      Ahead(g', Taken(lim, o, now, take), lead + (if allowed then 1 else 0) - (if take then 1 else 0))
  {
    var g1, tokens := Refilled(lim, g, now), Poured(lim, o.tokens, o.last, now);
    PouredIsRefilled(lim, g, now);
    StillAhead(g.tokens, o.tokens, Inflow(lim, g.last, now), lim.capacity, lead);
    assert tokens <= g1.tokens + lead as real;
    if take && g1.tokens < 1.0 {
      assert 0.0 < lead as real;
    }
  }

  lemma {:induction false} StillAhead(g: real, o: real, inflow: real, capacity: real, lead: int)
    requires 0 <= lead && o <= g + lead as real
    ensures Min(o + inflow, capacity) <= Min(g + inflow, capacity) + lead as real
  {
  }

  lemma {:induction false} StaysAhead(lim: Limits, g: Bucket, o: Rival, lead: int, times: seq<real>, takes: seq<bool>)
    requires Sane(lim) && Ahead(g, o, lead)
    requires |times| == |takes| && NeverOverdraws(lim, o, times, takes)
    ensures Yes(takes) <= lead + Yes(Decisions(lim, g, times))
    decreases |times|
  {
    if times != [] {
      var (allowed, g') := Asked(lim, g, times[0]);
      var lead' := lead + (if allowed then 1 else 0) - (if takes[0] then 1 else 0);
      AheadStep(lim, g, o, lead, times[0], takes[0]);
      StaysAhead(lim, g', Taken(lim, o, times[0], takes[0]), lead', times[1..], takes[1..]);
      assert Decisions(lim, g, times)[1..] == Decisions(lim, g', times[1..]);
    }
  }

  lemma {:induction false} PrefixDecisions(lim: Limits, b: Bucket, times: seq<real>, n: nat)
    requires n <= |times|
    ensures |Decisions(lim, b, times)| == |times|
    ensures Decisions(lim, b, times)[..n] == Decisions(lim, b, times[..n])
    decreases |times|
  {
    if times != [] {
      var b1 := Asked(lim, b, times[0]).1;
      PrefixDecisions(lim, b1, times[1..], if n == 0 then 0 else n - 1);
      if n != 0 {
        assert times[..n][1..] == times[1..][..n - 1];
      }
    }
  }

  lemma {:induction false} PrefixNeverOverdraws(lim: Limits, o: Rival, times: seq<real>, takes: seq<bool>, n: nat)
    requires |times| == |takes| && NeverOverdraws(lim, o, times, takes) && n <= |times|
    ensures NeverOverdraws(lim, o, times[..n], takes[..n])
    decreases n
  {
    if n != 0 {
      PrefixNeverOverdraws(lim, Taken(lim, o, times[0], takes[0]), times[1..], takes[1..], n - 1);
      assert times[..n][1..] == times[1..][..n - 1] && takes[..n][1..] == takes[1..][..n - 1];
    }
  }

  /** No other way of spending the same bucket is ahead of the limiter after any number of calls,
      whatever the instants. */
  lemma {:induction false} GreedyOptimal(lim: Limits, b: Bucket, times: seq<real>, takes: seq<bool>, n: nat)
    requires Sane(lim) && b.warmup <= 0 && |times| == |takes|
    requires NeverOverdraws(lim, Rival(b.tokens, b.last), times, takes)
    requires n <= |times|
    ensures |Decisions(lim, b, times)| == |times|
    ensures Yes(takes[..n]) <= Yes(Decisions(lim, b, times)[..n])
  {
    PrefixDecisions(lim, b, times, n);
    PrefixNeverOverdraws(lim, Rival(b.tokens, b.last), times, takes, n);
    StaysAhead(lim, b, Rival(b.tokens, b.last), 0, times[..n], takes[..n]);
  }

  // ---------- Keys ----------

  datatype Call = Call(key: string, now: real)

  function AllDecisions(lim: Limits, buckets: map<string, Bucket>, calls: seq<Call>): seq<bool>
    decreases |calls|
  {
    if calls == [] then []
    else
      var (allowed, buckets') := AskedKey(lim, buckets, calls[0].key, calls[0].now);
      [allowed] + AllDecisions(lim, buckets', calls[1..])
  }

  function Times(calls: seq<Call>, key: string): seq<real> {
    if calls == [] then []
    else (if calls[0].key == key then [calls[0].now] else []) + Times(calls[1..], key)
  }

  /** The decisions given to the calls of one key. */
  function Of(calls: seq<Call>, ds: seq<bool>, key: string): seq<bool>
    requires |calls| == |ds|
  {
    if calls == [] then []
    else (if calls[0].key == key then [ds[0]] else []) + Of(calls[1..], ds[1..], key)
  }

  lemma {:induction false} DecisionCount(lim: Limits, buckets: map<string, Bucket>, calls: seq<Call>)
    ensures |AllDecisions(lim, buckets, calls)| == |calls|
    decreases |calls|
  {
    if calls != [] {
      DecisionCount(lim, AskedKey(lim, buckets, calls[0].key, calls[0].now).1, calls[1..]);
    }
  }

  /** The bucket a key has, or will be given by its first call. */
  function BucketOf(lim: Limits, buckets: map<string, Bucket>, key: string, times: seq<real>): Bucket {
    if key in buckets then buckets[key] else NewBucket(lim, if times == [] then 0.0 else times[0])
  }

  /** Whatever the other keys do, a key is served as by a single bucket on its own calls. */
  lemma {:induction false} KeyIsolation(lim: Limits, buckets: map<string, Bucket>, calls: seq<Call>, key: string)
    ensures |AllDecisions(lim, buckets, calls)| == |calls|
    ensures var times := Times(calls, key);
      Of(calls, AllDecisions(lim, buckets, calls), key) ==
      Decisions(lim, BucketOf(lim, buckets, key, times), times)
    decreases |calls|
  {
    DecisionCount(lim, buckets, calls);
    if calls != [] {
      var c, rest := calls[0], calls[1..];
      var (allowed, buckets') := AskedKey(lim, buckets, c.key, c.now);
      KeyIsolation(lim, buckets', rest, key);
      assert AllDecisions(lim, buckets, calls)[1..] == AllDecisions(lim, buckets', rest);
      var times := Times(calls, key);
      if c.key == key {
        assert times[1..] == Times(rest, key);
        var b := BucketOf(lim, buckets, key, times);
        assert buckets'[key] == Asked(lim, b, times[0]).1;
      } else {
        assert times == Times(rest, key);
      }
    }
  }

  /** From an empty limiter on, and whatever the interleaving of keys, no key is admitted more often than its free calls
      and the bound of a full bucket allow. */
  lemma {:induction false} KeyBound(
      lim: Limits, calls: seq<Call>, key: string, times: seq<real>, n: nat, warm: Bucket, end: Bucket)
    requires Sane(lim) && times == Times(calls, key) && n == Free(lim, |times|)
    requires var b := BucketOf(lim, map[], key, times);
      warm == Last(lim, b, times[..n]) && end == Last(lim, b, times)
    ensures |AllDecisions(lim, map[], calls)| == |calls|
    ensures Yes(Of(calls, AllDecisions(lim, map[], calls), key)) as real <=
        n as real + lim.capacity + Inflow(lim, warm.last, end.last)
  {
    KeyIsolation(lim, map[], calls, key);
    LifetimeBound(lim, BucketOf(lim, map[], key, times), times, n, warm, end);
  }
}
