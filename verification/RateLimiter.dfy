/** Token buckets: one for the whole server, and one per principal with idle
    buckets evicted (crates/latlng-http/src/middleware.rs). Times are seconds. */
module RateLimiter {
  import opened Order
  import Types

  datatype Rules = Rules(capacity: real, rate: real)

  datatype Bucket = Bucket(tokens: real, last: real)

  function RulesFor(requestsPerSecond: nat, burst: nat): Rules {
    Rules(Types.AtLeastOne(burst) as real, Types.AtLeastOne(requestsPerSecond) as real)
  }

  predicate Sound(rules: Rules) {
    rules.capacity >= 1.0 && rules.rate >= 1.0
  }

  /** `duration_since` never goes below zero. */
  function Elapsed(now: real, last: real): real {
    if now >= last then now - last else 0.0
  }

  /** Tokens refilled in the given time. */
  function Gain(rules: Rules, seconds: real): real {
    seconds * rules.rate
  }

  lemma GainAdds(rules: Rules, a: real, b: real)
    ensures Gain(rules, a + b) == Gain(rules, a) + Gain(rules, b)
  {
  }

  lemma GainGrows(rules: Rules, a: real, b: real)
    requires Sound(rules) && a <= b
    ensures Gain(rules, a) <= Gain(rules, b) && Gain(rules, 0.0) == 0.0
  {
    var d := b - a;
    assert d * rules.rate >= 0.0;
    GainAdds(rules, a, d);
  }

  function Refilled(rules: Rules, b: Bucket, now: real): real {
    var t := b.tokens + Gain(rules, Elapsed(now, b.last));
    if t <= rules.capacity then t else rules.capacity
  }

  /** `allow_bucket`: the bucket afterwards, and the decision. */
  function Use(rules: Rules, b: Bucket, now: real): (Bucket, bool) {
    var t := Refilled(rules, b, now);
    if t >= 1.0 then (Bucket(t - 1.0, now), true) else (Bucket(t, now), false)
  }

  function Full(rules: Rules, now: real): Bucket {
    Bucket(rules.capacity, now)
  }

  class GlobalRateLimiter {
    const rules: Rules
    var tokens: real
    var lastRefill: real

    constructor (requestsPerSecond: nat, burst: nat, now: real)
      ensures rules == RulesFor(requestsPerSecond, burst) && Bucket(tokens, lastRefill) == Full(rules, now)
    {
      rules := RulesFor(requestsPerSecond, burst);
      tokens, lastRefill := Types.AtLeastOne(burst) as real, now;
    }

    method Allow(now: real) returns (allowed: bool)
      modifies this
      ensures (Bucket(tokens, lastRefill), allowed) == Use(rules, Bucket(old(tokens), old(lastRefill)), now)
    {
      var elapsed := if now >= lastRefill then now - lastRefill else 0.0;
      tokens := tokens + elapsed * rules.rate;
      if tokens > rules.capacity {
        tokens := rules.capacity;
      }
      lastRefill := now;
      if tokens >= 1.0 {
        tokens := tokens - 1.0;
        return true;
      }
      return false;
    }
  }

  // Runs of one bucket.

  predicate Ordered(times: seq<real>) {
    forall i, j :: 0 <= i < j < |times| ==> times[i] <= times[j]
  }

  function After(rules: Rules, b: Bucket, times: seq<real>): Bucket {
    if times == [] then b
    else Use(rules, After(rules, b, times[..|times| - 1]), times[|times| - 1]).0
  }

  /** How many of the calls are allowed. */
  function Allowed(rules: Rules, b: Bucket, times: seq<real>): nat {
    if times == [] then 0
    else
      var init, last := times[..|times| - 1], times[|times| - 1];
      Allowed(rules, b, init) + if Use(rules, After(rules, b, init), last).1 then 1 else 0
  }

  /** Tokens left plus a token spent are at most the capacity, and at most what was
      there and flowed in. */
  lemma UseSpends(rules: Rules, b: Bucket, now: real)
    requires Sound(rules)
    ensures
      var (after, allowed) := Use(rules, b, now);
      var spent := after.tokens + if allowed then 1.0 else 0.0;
      after.last == now && spent <= rules.capacity && spent <= b.tokens + Gain(rules, Elapsed(now, b.last)) &&
      (b.tokens >= 0.0 ==> after.tokens >= 0.0) &&
      (allowed <==> b.tokens + Gain(rules, Elapsed(now, b.last)) >= 1.0)
  {
    GainGrows(rules, 0.0, Elapsed(now, b.last));
    hide Gain;
  }

  lemma {:induction false} Potential(rules: Rules, b: Bucket, times: seq<real>)
    requires Sound(rules) && times != [] && Ordered(times)
    ensures After(rules, b, times).last == times[|times| - 1]
    ensures After(rules, b, times).tokens + Allowed(rules, b, times) as real
         <= rules.capacity + Gain(rules, times[|times| - 1] - times[0])
  {
    var init, last := times[..|times| - 1], times[|times| - 1];
    UseSpends(rules, After(rules, b, init), last);
    GainGrows(rules, 0.0, 0.0);
    hide Gain, Use;
    if init != [] {
      Potential(rules, b, init);
      var before := init[|init| - 1];
      assert before == times[|times| - 2] && init[0] == times[0];
      GainAdds(rules, last - before, before - times[0]);
      assert (last - before) + (before - times[0]) == last - times[0];
    }
  }

  lemma {:induction false} NeverNegative(rules: Rules, b: Bucket, times: seq<real>)
    requires Sound(rules) && b.tokens >= 0.0
    ensures After(rules, b, times).tokens >= 0.0
  {
    if times != [] {
      var init := times[..|times| - 1];
      NeverNegative(rules, b, init);
      UseSpends(rules, After(rules, b, init), times[|times| - 1]);
    }
  }

  /** Between any two calls of any run, at most burst plus rate times elapsed are allowed. */
  lemma WindowBound(rules: Rules, b: Bucket, times: seq<real>, i: nat, j: nat)
    requires Sound(rules) && b.tokens >= 0.0 && Ordered(times) && i <= j < |times|
    ensures Allowed(rules, After(rules, b, times[..i]), times[i..j + 1]) as real
         <= rules.capacity + Gain(rules, times[j] - times[i])
  {
    hide Allowed, After, Gain;
    var window := times[i..j + 1];
    NeverNegative(rules, b, times[..i]);
    NeverNegative(rules, After(rules, b, times[..i]), window);
    Potential(rules, After(rules, b, times[..i]), window);
  }

  /** A caller that never exceeds the rate is never refused. */
  lemma {:induction false} SlowCallersPass(rules: Rules, b: Bucket, times: seq<real>)
    requires Sound(rules) && b.tokens >= 1.0 && Ordered(times)
    requires forall i :: 1 <= i < |times| ==> Gain(rules, times[i] - times[i - 1]) >= 1.0
    ensures Allowed(rules, b, times) == |times|
    ensures After(rules, b, times).tokens >= 0.0
    ensures times != [] ==> After(rules, b, times).last == times[|times| - 1]
  {
    if times != [] {
      var init, last := times[..|times| - 1], times[|times| - 1];
      SlowCallersPass(rules, b, init);
      UseSpends(rules, After(rules, b, init), last);
      GainGrows(rules, 0.0, Elapsed(last, After(rules, b, init).last));
      hide Gain, Use;
      assert init != [] ==> init[|init| - 1] == times[|times| - 2];
    }
  }

  // One bucket per principal.

  const IDLE_TTL: real := 600.0
  const CLEANUP_INTERVAL: real := 60.0
  const MAX_BUCKETS: nat := 16384

  type Buckets = map<string, Bucket>

  datatype Table = Table(buckets: Buckets, lastCleanup: real)

  predicate Busy(b: Bucket, now: real) {
    Elapsed(now, b.last) < IDLE_TTL
  }

  function Retained(buckets: Buckets, now: real): Buckets {
    map k | k in buckets && Busy(buckets[k], now) :: buckets[k]
  }

  function BucketFor(rules: Rules, buckets: Buckets, key: string, now: real): Bucket {
    if key in buckets then buckets[key] else Full(rules, now)
  }

  /** A call on a table that is not over its size limit. */
  function Call(rules: Rules, table: Table, key: string, now: real): (Table, bool) {
    var cleaned := if Elapsed(now, table.lastCleanup) >= CLEANUP_INTERVAL
                   then Table(Retained(table.buckets, now), now) else table;
    var (b, allowed) := Use(rules, BucketFor(rules, cleaned.buckets, key, now), now);
    (cleaned.(buckets := cleaned.buckets[key := b]), allowed)
  }

  lemma InsertGrows(buckets: Buckets, key: string, b: Bucket)
    ensures |buckets[key := b]| <= |buckets| + 1
  {
    assert buckets[key := b].Keys == buckets.Keys + {key};
    assert |buckets.Keys + {key}| <= |buckets.Keys| + 1;
  }

  lemma {:induction false} SubmapSize(small: Buckets, large: Buckets)
    requires small.Keys <= large.Keys
    ensures |small| <= |large|
  {
    SubsetSize(small.Keys, large.Keys);
  }

  /** No bucket outside the kept ones was used later than a kept one. */
  ghost predicate OldestGone(buckets: Buckets, kept: Buckets) {
    (forall k :: k in kept ==> k in buckets && buckets[k] == kept[k]) &&
    (forall k, g :: k in kept && g in buckets && g !in kept ==> buckets[g].last <= kept[k].last)
  }

  /** What a cleanup keeps: of the busy buckets the latest used, up to the limit. */
  ghost predicate Cleaned(buckets: Buckets, kept: Buckets, now: real) {
    OldestGone(Retained(buckets, now), kept) && |kept| == Types.Min(|Retained(buckets, now)|, MAX_BUCKETS)
  }

  /** One call on any table; `kept` are the buckets it finds after its cleanup. */
  ghost predicate Serves(
      rules: Rules, table: Table, key: string, now: real, kept: Buckets, next: Table, allowed: bool) {
    var cleans := Elapsed(now, table.lastCleanup) >= CLEANUP_INTERVAL || |table.buckets| > MAX_BUCKETS;
    (if cleans then Cleaned(table.buckets, kept, now) else kept == table.buckets) &&
    next.lastCleanup == (if cleans then now else table.lastCleanup) &&
    var (b, decision) := Use(rules, BucketFor(rules, kept, key, now), now);
    next.buckets == kept[key := b] && allowed == decision
  }

  lemma {:induction false} SameSizeSameBuckets(all: Buckets, kept: Buckets)
    requires OldestGone(all, kept) && |kept| == |all|
    ensures kept == all
  {
    assert |kept.Keys| == |all.Keys|;
    SameSize(kept.Keys, all.Keys);
  }

  /** Within the limit a call is determined. */
  lemma {:induction false} ServesWithinLimit(
      rules: Rules, table: Table, key: string, now: real, kept: Buckets, next: Table, allowed: bool)
    requires Serves(rules, table, key, now, kept, next, allowed) && |table.buckets| <= MAX_BUCKETS
    ensures (next, allowed) == Call(rules, table, key, now)
  {
    SubmapSize(Retained(table.buckets, now), table.buckets);
    hide Use;
    if Elapsed(now, table.lastCleanup) >= CLEANUP_INTERVAL {
      SameSizeSameBuckets(Retained(table.buckets, now), kept);
    }
  }

  lemma {:induction false} OldestExists(buckets: Buckets, keys: set<string>) returns (oldest: string)
    requires keys != {} && keys <= buckets.Keys
    ensures oldest in keys && forall k :: k in keys ==> buckets[oldest].last <= buckets[k].last
    decreases |keys|
  {
    var x :| x in keys;
    if keys == {x} {
      oldest := x;
    } else {
      assert keys - {x} == {} ==> keys == {x};
      oldest := OldestExists(buckets, keys - {x});
      if buckets[x].last < buckets[oldest].last {
        oldest := x;
      }
      assert forall k :: k in keys ==> k == x || k in keys - {x};
    }
  }

  class PrincipalRateLimiter {
    const rules: Rules
    var buckets: Buckets
    var lastCleanup: real

    /** The table holds at most one bucket more than its limit. */
    predicate Valid()
      reads this
    {
      |buckets| <= MAX_BUCKETS + 1
    }

    constructor (requestsPerSecond: nat, burst: nat, now: real)
      ensures Valid() && rules == RulesFor(requestsPerSecond, burst)
      ensures Table(buckets, lastCleanup) == Table(map[], now)
    {
      rules := RulesFor(requestsPerSecond, burst);
      buckets, lastCleanup := map[], now;
    }

    /** `cleanup_principal_buckets`: idle buckets go, then the oldest over the limit. */
    method Cleanup(now: real)
      modifies this
      ensures lastCleanup == now && Cleaned(old(buckets), buckets, now)
    {
      buckets := Retained(buckets, now);
      ghost var all := buckets;
      while |buckets| > MAX_BUCKETS
        invariant OldestGone(all, buckets)
        invariant Types.Min(|all|, MAX_BUCKETS) <= |buckets| <= |all|
        decreases |buckets|
      {
        assert buckets.Keys != {};
        ghost var witnessed := OldestExists(buckets, buckets.Keys);
        var oldest :| oldest in buckets && forall k :: k in buckets ==> buckets[oldest].last <= buckets[k].last;
        assert |buckets.Keys - {oldest}| == |buckets.Keys| - 1;
        assert (buckets - {oldest}).Keys == buckets.Keys - {oldest};
        buckets := buckets - {oldest};
      }
      lastCleanup := now;
    }

    /** `allow`; the table is never more than one over its limit. */
    method Allow(key: string, now: real) returns (allowed: bool, ghost kept: Buckets)
      requires Valid()
      modifies this
      ensures Valid()
      ensures Serves(rules, old(Table(buckets, lastCleanup)), key, now, kept, Table(buckets, lastCleanup), allowed)
    {
      hide Use;
      if Elapsed(now, lastCleanup) >= CLEANUP_INTERVAL || |buckets| > MAX_BUCKETS {
        Cleanup(now);
      }
      kept := buckets;
      var b := if key in buckets then buckets[key] else Bucket(rules.capacity, now);
      var (used, decision) := Use(rules, b, now);
      InsertGrows(buckets, key, used);
      buckets := buckets[key := used];
      allowed := decision;
    }
  }
}
