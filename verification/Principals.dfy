/** Evicting idle buckets is unobservable exactly when a bucket refills before it
    is evicted (crates/latlng-http/src/middleware.rs). */
module Principals {
  import opened Order
  import opened RateLimiter
  import Types

  datatype Request = Request(key: string, at: real)

  // Runs of the evicting limiter and of one that never evicts.

  function TableAfter(rules: Rules, start: real, requests: seq<Request>): Table {
    if requests == [] then Table(map[], start)
    else
      var last := requests[|requests| - 1];
      Call(rules, TableAfter(rules, start, requests[..|requests| - 1]), last.key, last.at).0
  }

  function Decisions(rules: Rules, start: real, requests: seq<Request>): seq<bool> {
    if requests == [] then []
    else
      var init, last := requests[..|requests| - 1], requests[|requests| - 1];
      Decisions(rules, start, init) + [Call(rules, TableAfter(rules, start, init), last.key, last.at).1]
  }

  function KeepingCall(rules: Rules, buckets: Buckets, key: string, now: real): (Buckets, bool) {
    var (b, allowed) := Use(rules, BucketFor(rules, buckets, key, now), now);
    (buckets[key := b], allowed)
  }

  function BucketsAfter(rules: Rules, requests: seq<Request>): Buckets {
    if requests == [] then map[]
    else
      var last := requests[|requests| - 1];
      KeepingCall(rules, BucketsAfter(rules, requests[..|requests| - 1]), last.key, last.at).0
  }

  function KeepingDecisions(rules: Rules, requests: seq<Request>): seq<bool> {
    if requests == [] then []
    else
      var init, last := requests[..|requests| - 1], requests[|requests| - 1];
      KeepingDecisions(rules, init) + [KeepingCall(rules, BucketsAfter(rules, init), last.key, last.at).1]
  }

  predicate Timely(start: real, requests: seq<Request>) {
    (forall i :: 0 <= i < |requests| ==> start <= requests[i].at) &&
    (forall i, j :: 0 <= i < j < |requests| ==> requests[i].at <= requests[j].at)
  }

  function Clock(start: real, requests: seq<Request>): real {
    if requests == [] then start else requests[|requests| - 1].at
  }

  // The simulation.

  predicate Brimful(rules: Rules, b: Bucket, now: real) {
    b.last <= now && b.tokens >= 0.0 && b.tokens + Gain(rules, now - b.last) >= rules.capacity
  }

  /** The evicting table agrees where it has a bucket; where it has none, the bucket
      it would have had is full again. */
  ghost predicate Simulates(rules: Rules, evicting: Buckets, keeping: Buckets, now: real) {
    (forall k :: k in evicting ==> k in keeping && keeping[k] == evicting[k]) &&
    (forall k :: k in keeping ==> keeping[k].last <= now && keeping[k].tokens >= 0.0) &&
    (forall k :: k in keeping && k !in evicting ==> Brimful(rules, keeping[k], now))
  }

  predicate RefillsInTime(rules: Rules) {
    Gain(rules, IDLE_TTL) >= rules.capacity
  }

  lemma StaysBrimful(rules: Rules, b: Bucket, now: real, later: real)
    requires Sound(rules) && Brimful(rules, b, now) && now <= later
    ensures Brimful(rules, b, later)
  {
    GainGrows(rules, now - b.last, later - b.last);
    hide Gain;
  }

  lemma EvictedIsBrimful(rules: Rules, b: Bucket, now: real)
    requires Sound(rules) && RefillsInTime(rules) && b.last <= now && b.tokens >= 0.0 && !Busy(b, now)
    ensures Brimful(rules, b, now)
  {
    GainGrows(rules, IDLE_TTL, now - b.last);
    hide Gain;
  }

  /** A full bucket and a fresh one cannot be told apart. */
  lemma BrimfulIsFresh(rules: Rules, b: Bucket, now: real)
    requires Sound(rules) && Brimful(rules, b, now)
    ensures Use(rules, b, now) == Use(rules, Full(rules, now), now)
  {
    GainGrows(rules, 0.0, 0.0);
    hide Gain;
  }

  lemma CleanupSimulates(rules: Rules, evicting: Buckets, keeping: Buckets, now: real, later: real)
    requires Sound(rules) && RefillsInTime(rules) && now <= later && Simulates(rules, evicting, keeping, now)
    ensures Simulates(rules, evicting, keeping, later)
    ensures Simulates(rules, Retained(evicting, later), keeping, later)
  {
    forall k | k in keeping && k !in Retained(evicting, later) ensures Brimful(rules, keeping[k], later) {
      if k in evicting {
        EvictedIsBrimful(rules, keeping[k], later);
      } else {
        StaysBrimful(rules, keeping[k], now, later);
      }
    }
  }

  lemma CallSimulates(rules: Rules, table: Table, keeping: Buckets, now: real, key: string, later: real)
    requires Sound(rules) && RefillsInTime(rules) && now <= later && Simulates(rules, table.buckets, keeping, now)
    ensures Call(rules, table, key, later).1 == KeepingCall(rules, keeping, key, later).1
    ensures Simulates(rules, Call(rules, table, key, later).0.buckets, KeepingCall(rules, keeping, key, later).0, later)
  {
    hide Use, Gain, Retained, Sound, RefillsInTime;
    CleanupSimulates(rules, table.buckets, keeping, now, later);
    var cleaned := if Elapsed(later, table.lastCleanup) >= CLEANUP_INTERVAL
                   then Retained(table.buckets, later) else table.buckets;
    UseSimulates(rules, cleaned, keeping, key, later);
    hide Simulates, BucketFor;
  }

  lemma UseSimulates(rules: Rules, evicting: Buckets, keeping: Buckets, key: string, now: real)
    requires Sound(rules) && Simulates(rules, evicting, keeping, now)
    ensures
      var b := Use(rules, BucketFor(rules, evicting, key, now), now);
      b == Use(rules, BucketFor(rules, keeping, key, now), now) &&
      Simulates(rules, evicting[key := b.0], keeping[key := b.0], now)
  {
    hide Use;
    if key in keeping && key !in evicting {
      BrimfulIsFresh(rules, keeping[key], now);
    }
    UseSpends(rules, BucketFor(rules, evicting, key, now), now);
    hide Brimful;
  }

  /** The run never calls on a table over its size limit. */
  ghost predicate Fits(rules: Rules, start: real, requests: seq<Request>) {
    forall i :: 0 <= i < |requests| ==> |TableAfter(rules, start, requests[..i]).buckets| <= MAX_BUCKETS
  }

  lemma FitsPrefix(rules: Rules, start: real, a: seq<Request>, b: seq<Request>)
    requires Fits(rules, start, a + b)
    ensures Fits(rules, start, a)
  {
    hide TableAfter;
    forall i | 0 <= i < |a| ensures |TableAfter(rules, start, a[..i]).buckets| <= MAX_BUCKETS {
      assert (a + b)[..i] == a[..i];
    }
  }

  /** Where buckets refill before they are evicted, a run within the size limit is
      decided as by a limiter that never evicts. */
  lemma {:induction false} RunSimulates(rules: Rules, start: real, requests: seq<Request>)
    requires Sound(rules) && RefillsInTime(rules) && Timely(start, requests) && Fits(rules, start, requests)
    ensures Decisions(rules, start, requests) == KeepingDecisions(rules, requests)
    ensures Simulates(rules, TableAfter(rules, start, requests).buckets, BucketsAfter(rules, requests),
      Clock(start, requests))
  {
    hide Call, KeepingCall, Simulates, RefillsInTime, Fits;
    if requests != [] {
      var init, last := requests[..|requests| - 1], requests[|requests| - 1];
      assert requests == init + [last];
      FitsPrefix(rules, start, init, [last]);
      RunSimulates(rules, start, init);
      assert Clock(start, init) <= last.at by {
        assert init != [] ==> init[|init| - 1] == requests[|requests| - 2];
      }
      CallSimulates(rules, TableAfter(rules, start, init), BucketsAfter(rules, init), Clock(start, init), last.key, last.at);
    } else {
      NothingSimulates(rules, start);
    }
  }

  lemma NothingSimulates(rules: Rules, start: real)
    ensures Simulates(rules, map[], map[], start)
  {
  }

  // One principal's requests.

  function TimesOf(requests: seq<Request>, key: string): seq<real> {
    if requests == [] then []
    else
      var last := requests[|requests| - 1];
      TimesOf(requests[..|requests| - 1], key) + if last.key == key then [last.at] else []
  }

  /** How many requests of one principal are allowed. */
  function Granted(requests: seq<Request>, decisions: seq<bool>, key: string): nat
    requires |decisions| == |requests|
  {
    if requests == [] then 0
    else
      var n := |requests| - 1;
      Granted(requests[..n], decisions[..n], key) + if requests[n].key == key && decisions[n] then 1 else 0
  }

  lemma FreshIsFull(rules: Rules, start: real, now: real)
    requires Sound(rules) && start <= now
    ensures Use(rules, Full(rules, now), now) == Use(rules, Full(rules, start), now)
  {
    GainGrows(rules, 0.0, now - start);
    GainGrows(rules, 0.0, 0.0);
    hide Gain;
  }

  /** Without eviction every principal has a bucket of its own. */
  lemma {:induction false} OwnBucket(rules: Rules, start: real, requests: seq<Request>, key: string)
    requires Sound(rules) && Timely(start, requests)
    ensures |KeepingDecisions(rules, requests)| == |requests|
    ensures key in BucketsAfter(rules, requests) <==> TimesOf(requests, key) != []
    ensures key in BucketsAfter(rules, requests) ==>
      BucketsAfter(rules, requests)[key] == After(rules, Full(rules, start), TimesOf(requests, key))
    ensures Granted(requests, KeepingDecisions(rules, requests), key)
         == Allowed(rules, Full(rules, start), TimesOf(requests, key))
  {
    if requests != [] {
      hide *;
      var init, last := requests[..|requests| - 1], requests[|requests| - 1];
      assert requests == init + [last];
      TimelyPrefix(start, init, last);
      OwnBucket(rules, start, init, key);
      KeepingAppend(rules, init, last);
      TimesAppend(init, last, key);
      GrantedAppend(init, last, KeepingDecisions(rules, init),
        KeepingCall(rules, BucketsAfter(rules, init), last.key, last.at).1, key);
      if last.key == key {
        SameUse(rules, start, init, key, last.at);
        UseAppend(rules, Full(rules, start), TimesOf(init, key), last.at);
      }
      KeepingCallMeans(rules, BucketsAfter(rules, init), last.key, last.at);
    }
  }

  lemma TimelyPrefix(start: real, init: seq<Request>, last: Request)
    requires Timely(start, init + [last])
    ensures Timely(start, init) && Clock(start, init) <= last.at && start <= last.at
  {
    var all := init + [last];
    assert all[|init|] == last;
    assert forall i :: 0 <= i < |init| ==> all[i] == init[i];
  }

  lemma KeepingAppend(rules: Rules, init: seq<Request>, last: Request)
    ensures
      var now := KeepingCall(rules, BucketsAfter(rules, init), last.key, last.at);
      BucketsAfter(rules, init + [last]) == now.0 &&
      KeepingDecisions(rules, init + [last]) == KeepingDecisions(rules, init) + [now.1]
  {
    assert (init + [last])[..|init|] == init;
  }

  lemma KeepingCallMeans(rules: Rules, buckets: Buckets, key: string, now: real)
    ensures
      var used := Use(rules, BucketFor(rules, buckets, key, now), now);
      KeepingCall(rules, buckets, key, now) == (buckets[key := used.0], used.1)
  {
  }

  lemma TimesAppend(init: seq<Request>, last: Request, key: string)
    ensures TimesOf(init + [last], key) == if last.key == key then TimesOf(init, key) + [last.at] else TimesOf(init, key)
  {
    assert (init + [last])[..|init|] == init;
  }

  lemma GrantedAppend(init: seq<Request>, last: Request, decisions: seq<bool>, d: bool, key: string)
    requires |decisions| == |init|
    ensures Granted(init + [last], decisions + [d], key)
         == Granted(init, decisions, key) + if last.key == key && d then 1 else 0
  {
    assert (init + [last])[..|init|] == init && (decisions + [d])[..|init|] == decisions;
  }

  lemma UseAppend(rules: Rules, b: Bucket, times: seq<real>, now: real)
    ensures After(rules, b, times + [now]) == Use(rules, After(rules, b, times), now).0
    ensures Allowed(rules, b, times + [now])
         == Allowed(rules, b, times) + if Use(rules, After(rules, b, times), now).1 then 1 else 0
  {
    assert (times + [now])[..|times|] == times;
  }

  lemma SameUse(rules: Rules, start: real, init: seq<Request>, key: string, now: real)
    requires Sound(rules) && start <= now
    requires key in BucketsAfter(rules, init) <==> TimesOf(init, key) != []
    requires key in BucketsAfter(rules, init) ==>
      BucketsAfter(rules, init)[key] == After(rules, Full(rules, start), TimesOf(init, key))
    ensures Use(rules, BucketFor(rules, BucketsAfter(rules, init), key, now), now)
         == Use(rules, After(rules, Full(rules, start), TimesOf(init, key)), now)
  {
    hide Use;
    FreshIsFull(rules, start, now);
  }

  lemma {:induction false} AllowedConcat(rules: Rules, b: Bucket, a: seq<real>, c: seq<real>)
    ensures After(rules, b, a + c) == After(rules, After(rules, b, a), c)
    ensures Allowed(rules, b, a + c) == Allowed(rules, b, a) + Allowed(rules, After(rules, b, a), c)
  {
    if c == [] {
      assert a + c == a;
    } else {
      hide *;
      var init, last := c[..|c| - 1], c[|c| - 1];
      assert c == init + [last] && a + c == (a + init) + [last];
      AllowedConcat(rules, b, a, init);
      UseAppend(rules, b, a + init, last);
      UseAppend(rules, After(rules, b, a), init, last);
    }
  }

  lemma {:induction false} TimesConcat(a: seq<Request>, b: seq<Request>, key: string)
    ensures TimesOf(a + b, key) == TimesOf(a, key) + TimesOf(b, key)
  {
    if b == [] {
      assert a + b == a;
    } else {
      var init, last := b[..|b| - 1], b[|b| - 1];
      assert b == init + [last] && a + b == (a + init) + [last];
      TimesConcat(a, init, key);
      TimesAppend(a + init, last, key);
      TimesAppend(init, last, key);
      hide TimesOf;
    }
  }

  lemma {:induction false} TimesAreOrdered(start: real, requests: seq<Request>, key: string)
    requires Timely(start, requests)
    ensures Ordered(TimesOf(requests, key))
    ensures forall i :: 0 <= i < |TimesOf(requests, key)| ==>
      start <= TimesOf(requests, key)[i] <= Clock(start, requests)
  {
    if requests != [] {
      var init, last := requests[..|requests| - 1], requests[|requests| - 1];
      assert requests == init + [last];
      TimelyPrefix(start, init, last);
      TimesAreOrdered(start, init, key);
      TimesAppend(init, last, key);
      hide TimesOf;
    }
  }

  /** Where buckets refill before they are evicted, in a run within the size limit, the
      evicting limiter grants a principal, within any stretch of requests, at most
      burst plus rate times the time between its first and last request there. */
  lemma PrincipalBound(rules: Rules, start: real, earlier: seq<Request>, stretch: seq<Request>, key: string)
    requires Sound(rules) && RefillsInTime(rules) && Timely(start, earlier + stretch)
    requires Fits(rules, start, earlier + stretch)
    requires TimesOf(stretch, key) != []
    ensures |Decisions(rules, start, earlier + stretch)| == |earlier + stretch|
    ensures |Decisions(rules, start, earlier)| == |earlier|
    ensures
      var times := TimesOf(stretch, key);
      (Granted(earlier + stretch, Decisions(rules, start, earlier + stretch), key) -
       Granted(earlier, Decisions(rules, start, earlier), key)) as real
        <= rules.capacity + Gain(rules, times[|times| - 1] - times[0])
  {
    hide *;
    var a, c := TimesOf(earlier, key), TimesOf(stretch, key);
    TimelyParts(start, earlier, stretch);
    FitsPrefix(rules, start, earlier, stretch);
    GrantedIsAllowed(rules, start, earlier + stretch, key);
    GrantedIsAllowed(rules, start, earlier, key);
    TimesConcat(earlier, stretch, key);
    TimesAreOrdered(start, stretch, key);
    AllowedConcat(rules, Full(rules, start), a, c);
    StretchBound(rules, start, a, c);
  }

  lemma TimelyParts(start: real, earlier: seq<Request>, stretch: seq<Request>)
    requires Timely(start, earlier + stretch)
    ensures Timely(start, earlier) && Timely(start, stretch)
  {
    var all := earlier + stretch;
    assert forall i :: 0 <= i < |earlier| ==> earlier[i] == all[i];
    assert forall i :: 0 <= i < |stretch| ==> stretch[i] == all[|earlier| + i];
  }

  /** What the evicting limiter grants a principal is what a bucket of its own allows. */
  lemma GrantedIsAllowed(rules: Rules, start: real, requests: seq<Request>, key: string)
    requires Sound(rules) && RefillsInTime(rules) && Timely(start, requests) && Fits(rules, start, requests)
    ensures |Decisions(rules, start, requests)| == |requests|
    ensures Granted(requests, Decisions(rules, start, requests), key)
         == Allowed(rules, Full(rules, start), TimesOf(requests, key))
  {
    hide *;
    RunSimulates(rules, start, requests);
    OwnBucket(rules, start, requests, key);
  }

  lemma StretchBound(rules: Rules, start: real, a: seq<real>, c: seq<real>)
    requires Sound(rules) && c != [] && Ordered(c)
    ensures Allowed(rules, After(rules, Full(rules, start), a), c) as real
         <= rules.capacity + Gain(rules, c[|c| - 1] - c[0])
  {
    FullIsFull(rules, start);
    hide *;
    var b := After(rules, Full(rules, start), a);
    NeverNegative(rules, Full(rules, start), a);
    NeverNegative(rules, b, c);
    Potential(rules, b, c);
  }

  lemma FullIsFull(rules: Rules, start: real)
    requires Sound(rules)
    ensures Full(rules, start).tokens >= 0.0
  {
  }

  // A bucket that is evicted before it has refilled.

  function Repeated(key: string, at: real, n: nat): seq<Request> {
    if n == 0 then [] else Repeated(key, at, n - 1) + [Request(key, at)]
  }

  function AllTrue(n: nat): seq<bool> {
    if n == 0 then [] else AllTrue(n - 1) + [true]
  }

  lemma CallAppend(rules: Rules, start: real, init: seq<Request>, last: Request)
    ensures
      var now := Call(rules, TableAfter(rules, start, init), last.key, last.at);
      TableAfter(rules, start, init + [last]) == now.0 &&
      Decisions(rules, start, init + [last]) == Decisions(rules, start, init) + [now.1]
  {
    assert (init + [last])[..|init|] == init;
  }

  /** A table with one bucket, used `n` times at one moment. */
  function Drained(rules: Rules, key: string, at: real, n: nat): Buckets {
    if n == 0 then map[] else map[key := Bucket(rules.capacity - n as real, at)]
  }

  lemma DrainStep(rules: Rules, key: string, at: real, n: nat)
    requires Sound(rules) && n as real + 1.0 <= rules.capacity
    ensures
      var used := Use(rules, BucketFor(rules, Drained(rules, key, at, n), key, at), at);
      used.1 && Drained(rules, key, at, n)[key := used.0] == Drained(rules, key, at, n + 1)
  {
    GainGrows(rules, 0.0, 0.0);
    hide Gain;
    var b := BucketFor(rules, Drained(rules, key, at, n), key, at);
    assert b == Bucket(rules.capacity - n as real, at);
    assert Refilled(rules, b, at) == rules.capacity - n as real;
    assert Use(rules, b, at).0 == Bucket(rules.capacity - (n + 1) as real, at);
  }

  lemma DrainCall(rules: Rules, key: string, at: real, n: nat, lastCleanup: real)
    requires Sound(rules) && n as real + 1.0 <= rules.capacity
    requires Elapsed(at, lastCleanup) < CLEANUP_INTERVAL
    ensures Call(rules, Table(Drained(rules, key, at, n), lastCleanup), key, at)
         == (Table(Drained(rules, key, at, n + 1), lastCleanup), true)
  {
    DrainStep(rules, key, at, n);
    hide Use, Drained, BucketFor;
  }

  /** Ten minutes idle, the bucket is evicted and the next call finds a fresh one. */
  lemma EvictedCall(rules: Rules, key: string, burst: nat)
    requires Sound(rules) && burst >= 1
    ensures Call(rules, Table(Drained(rules, key, 0.0, burst), 0.0), key, IDLE_TTL)
         == (Table(Drained(rules, key, IDLE_TTL, 1), IDLE_TTL), true)
  {
    assert Retained(Drained(rules, key, 0.0, burst), IDLE_TTL) == map[];
    assert Drained(rules, key, IDLE_TTL, 0) == map[];
    DrainStep(rules, key, IDLE_TTL, 0);
    hide Use, Drained, BucketFor;
  }

  lemma NoBurst(rules: Rules, key: string)
    ensures Decisions(rules, 0.0, Repeated(key, 0.0, 0)) == AllTrue(0)
    ensures TableAfter(rules, 0.0, Repeated(key, 0.0, 0)) == Table(Drained(rules, key, 0.0, 0), 0.0)
    ensures BucketsAfter(rules, Repeated(key, 0.0, 0)) == Drained(rules, key, 0.0, 0)
  {
    assert Repeated(key, 0.0, 0) == [];
  }

  lemma JustNow(at: real)
    ensures Elapsed(at, at) < CLEANUP_INTERVAL
  {
  }

  lemma RepeatedPush(key: string, at: real, n: nat)
    requires n >= 1
    ensures Repeated(key, at, n) == Repeated(key, at, n - 1) + [Request(key, at)] && AllTrue(n) == AllTrue(n - 1) + [true]
  {
  }

  /** From a fresh table a burst of calls empties the bucket, all of them allowed. */
  lemma {:induction false} FirstBurst(rules: Rules, key: string, n: nat)
    requires Sound(rules) && n as real <= rules.capacity
    ensures Decisions(rules, 0.0, Repeated(key, 0.0, n)) == AllTrue(n)
    ensures TableAfter(rules, 0.0, Repeated(key, 0.0, n)) == Table(Drained(rules, key, 0.0, n), 0.0)
  {
    hide *;
    if n == 0 {
      NoBurst(rules, key);
    } else {
      RepeatedPush(key, 0.0, n);
      JustNow(0.0);
      FirstBurst(rules, key, n - 1);
      CallAppend(rules, 0.0, Repeated(key, 0.0, n - 1), Request(key, 0.0));
      DrainCall(rules, key, 0.0, n - 1, 0.0);
    }
  }

  function TwoBursts(key: string, burst: nat, n: nat): seq<Request> {
    Repeated(key, 0.0, burst) + Repeated(key, IDLE_TTL, n)
  }

  /** A second burst ten minutes later is allowed in full. */
  lemma {:induction false} SecondBurst(rules: Rules, key: string, burst: nat, n: nat)
    requires Sound(rules) && 1 <= n <= burst && burst as real == rules.capacity
    ensures Decisions(rules, 0.0, TwoBursts(key, burst, n)) == AllTrue(burst) + AllTrue(n)
    ensures TableAfter(rules, 0.0, TwoBursts(key, burst, n)) == Table(Drained(rules, key, IDLE_TTL, n), IDLE_TTL)
  {
    hide *;
    JustNow(IDLE_TTL);
    TwoBurstsPush(key, burst, n);
    CallAppend(rules, 0.0, TwoBursts(key, burst, n - 1), Request(key, IDLE_TTL));
    if n == 1 {
      FirstBurst(rules, key, burst);
      EvictedCall(rules, key, burst);
    } else {
      SecondBurst(rules, key, burst, n - 1);
      DrainCall(rules, key, IDLE_TTL, n - 1, IDLE_TTL);
    }
  }

  lemma TwoBurstsPush(key: string, burst: nat, n: nat)
    requires n >= 1
    ensures TwoBursts(key, burst, n) == TwoBursts(key, burst, n - 1) + [Request(key, IDLE_TTL)]
    ensures AllTrue(burst) + AllTrue(n) == AllTrue(burst) + AllTrue(n - 1) + [true]
    ensures TwoBursts(key, burst, 0) == Repeated(key, 0.0, burst) && AllTrue(burst) + AllTrue(0) == AllTrue(burst)
  {
    assert Repeated(key, IDLE_TTL, 0) == [] && AllTrue(0) == [];
  }

  predicate AllBy(requests: seq<Request>, key: string) {
    forall i :: 0 <= i < |requests| ==> requests[i].key == key
  }

  lemma {:induction false} RepeatedShape(key: string, at: real, n: nat)
    ensures |Repeated(key, at, n)| == n
    ensures forall i :: 0 <= i < n ==> Repeated(key, at, n)[i] == Request(key, at)
  {
    if n > 0 {
      RepeatedShape(key, at, n - 1);
    }
  }

  lemma {:induction false} TwoBurstsShape(key: string, burst: nat)
    requires burst >= 1
    ensures
      var requests := TwoBursts(key, burst, burst);
      |requests| == 2 * burst && AllBy(requests, key) && Timely(0.0, requests) &&
      requests[0].at == 0.0 && requests[2 * burst - 1].at == IDLE_TTL
  {
    RepeatedShape(key, 0.0, burst);
    RepeatedShape(key, IDLE_TTL, burst);
    hide Repeated;
  }

  lemma {:induction false} TimesOfAll(requests: seq<Request>, key: string)
    requires AllBy(requests, key)
    ensures |TimesOf(requests, key)| == |requests|
    ensures forall i :: 0 <= i < |requests| ==> TimesOf(requests, key)[i] == requests[i].at
  {
    if requests != [] {
      TimesOfAll(requests[..|requests| - 1], key);
    }
  }

  lemma {:induction false} GrantedAll(requests: seq<Request>, key: string, n: nat)
    requires AllBy(requests, key) && |requests| == n
    ensures |AllTrue(n)| == n && Granted(requests, AllTrue(n), key) == n
  {
    if n > 0 {
      var init, last := requests[..n - 1], requests[n - 1];
      GrantedAll(init, key, n - 1);
      GrantedAppend(init, last, AllTrue(n - 1), true, key);
      assert requests == init + [last];
    }
  }

  lemma {:induction false} AllTrueAdds(a: nat, b: nat)
    ensures AllTrue(a) + AllTrue(b) == AllTrue(a + b)
  {
    if b > 0 {
      AllTrueAdds(a, b - 1);
      assert AllTrue(a) + AllTrue(b) == AllTrue(a) + AllTrue(b - 1) + [true];
    } else {
      assert AllTrue(a) + AllTrue(0) == AllTrue(a);
    }
  }

  /** A limiter that keeps its buckets does not allow both bursts in full. */
  lemma KeepingRefuses(rules: Rules, key: string, burst: nat)
    requires Sound(rules) && burst >= 1 && burst as real == rules.capacity && !RefillsInTime(rules)
    ensures KeepingDecisions(rules, TwoBursts(key, burst, burst)) != AllTrue(2 * burst)
  {
    var requests := TwoBursts(key, burst, burst);
    assert Gain(rules, IDLE_TTL) < rules.capacity;
    hide Gain, TwoBursts, TimesOf, Allowed, After, KeepingDecisions, Granted, Full, AllTrue;
    TwoBurstsShape(key, burst);
    OwnBucket(rules, 0.0, requests, key);
    TimesOfAll(requests, key);
    GrantedAll(requests, key, 2 * burst);
    StretchBound(rules, 0.0, [], TimesOf(requests, key));
    NothingUsed(rules, Full(rules, 0.0));
    TimesAreOrdered(0.0, requests, key);
  }

  lemma NothingUsed(rules: Rules, b: Bucket)
    ensures After(rules, b, []) == b
  {
  }

  lemma {:induction false} OnePrincipalOneBucket(rules: Rules, start: real, requests: seq<Request>, key: string)
    requires AllBy(requests, key)
    ensures TableAfter(rules, start, requests).buckets.Keys <= {key}
    ensures |TableAfter(rules, start, requests).buckets| <= 1
  {
    if requests != [] {
      OnePrincipalOneBucket(rules, start, requests[..|requests| - 1], key);
      hide Use;
    }
    SubsetSize(TableAfter(rules, start, requests).buckets.Keys, {key});
  }

  ghost predicate Unobservable(rules: Rules) {
    forall start, requests :: Timely(start, requests) && Fits(rules, start, requests) ==>
      Decisions(rules, start, requests) == KeepingDecisions(rules, requests)
  }

  /** Eviction is unobservable in every run within the size limit if and only if ten
      minutes of refill fill a bucket. */
  lemma EvictionUnobservableIff(requestsPerSecond: nat, burst: nat)
    ensures
      var rules := RulesFor(requestsPerSecond, burst);
      Unobservable(rules) <==> rules.rate * 600.0 >= rules.capacity
  {
    var rules := RulesFor(requestsPerSecond, burst);
    assert Sound(rules) && (RefillsInTime(rules) <==> IDLE_TTL * rules.rate >= rules.capacity);
    hide RefillsInTime, Fits, Decisions, KeepingDecisions, Gain;
    if RefillsInTime(rules) {
      forall start, requests | Timely(start, requests) && Fits(rules, start, requests)
        ensures Decisions(rules, start, requests) == KeepingDecisions(rules, requests)
      {
        RunSimulates(rules, start, requests);
      }
    } else {
      var n := if burst == 0 then 1 else burst;
      var requests := TwoBursts("p", n, n);
      TwoBurstsShape("p", n);
      SecondBurst(rules, "p", n, n);
      AllTrueAdds(n, n);
      KeepingRefuses(rules, "p", n);
      BurstsFit(rules, n);
      assert !Unobservable(rules);
    }
  }

  lemma OnePrincipalFits(rules: Rules, start: real, requests: seq<Request>, key: string)
    requires AllBy(requests, key)
    ensures Fits(rules, start, requests)
  {
    hide TableAfter;
    forall i | 0 <= i < |requests| ensures |TableAfter(rules, start, requests[..i]).buckets| <= MAX_BUCKETS {
      OnePrincipalOneBucket(rules, start, requests[..i], key);
    }
  }

  lemma BurstsFit(rules: Rules, n: nat)
    requires n >= 1
    ensures Fits(rules, 0.0, TwoBursts("p", n, n))
  {
    TwoBurstsShape("p", n);
    hide *;
    OnePrincipalFits(rules, 0.0, TwoBursts("p", n, n), "p");
  }

  /** A new limiter serving a run within the size limit decides as one that never
      evicts, if buckets refill in time. */
  method Serve(limiter: PrincipalRateLimiter, start: real, requests: seq<Request>) returns (decisions: seq<bool>)
    requires Table(limiter.buckets, limiter.lastCleanup) == Table(map[], start)
    requires Sound(limiter.rules) && Timely(start, requests) && Fits(limiter.rules, start, requests)
    modifies limiter
    ensures limiter.Valid() && decisions == Decisions(limiter.rules, start, requests)
    ensures RefillsInTime(limiter.rules) ==> decisions == KeepingDecisions(limiter.rules, requests)
  {
    decisions := [];
    assert requests[..0] == [];
    for i := 0 to |requests|
      invariant Table(limiter.buckets, limiter.lastCleanup) == TableAfter(limiter.rules, start, requests[..i])
      invariant decisions == Decisions(limiter.rules, start, requests[..i]) && limiter.Valid()
    {
      assert requests[..i + 1] == requests[..i] + [requests[i]];
      CallAppend(limiter.rules, start, requests[..i], requests[i]);
      assert |limiter.buckets| <= MAX_BUCKETS;
      hide TableAfter, Decisions, Call, RefillsInTime, Serves;
      ghost var table := Table(limiter.buckets, limiter.lastCleanup);
      var allowed, kept := limiter.Allow(requests[i].key, requests[i].at);
      ServesWithinLimit(limiter.rules, table, requests[i].key, requests[i].at, kept,
                        Table(limiter.buckets, limiter.lastCleanup), allowed);
      decisions := decisions + [allowed];
    }
    assert requests[..|requests|] == requests;
    if RefillsInTime(limiter.rules) {
      RunSimulates(limiter.rules, start, requests);
    }
  }

  // Over the limit.

  /** A principal's name, distinct for every number. */
  function Guest(i: nat): string {
    "g" + seq(i, _ => 'x')
  }

  /** The time in which half a token flows in. */
  function Moment(rules: Rules): real
    requires Sound(rules)
  {
    0.5 / rules.rate
  }

  lemma MomentGains(rules: Rules)
    requires Sound(rules)
    ensures 0.0 < Moment(rules) <= 0.5 && Gain(rules, Moment(rules)) == 0.5
  {
    var m := Moment(rules);
    assert m * rules.rate == 0.5;
    assert m > 0.5 ==> m * rules.rate > 0.5 * rules.rate;
    assert m <= 0.0 ==> m * rules.rate <= 0.0;
  }

  /** One principal spends its burst, then `n` others call once each. */
  function Crowd(rules: Rules, burst: nat, n: nat): seq<Request>
    requires Sound(rules)
  {
    if n == 0 then Repeated("p", 0.0, burst)
    else Crowd(rules, burst, n - 1) + [Request(Guest(n - 1), Moment(rules))]
  }

  function Crowded(rules: Rules, burst: nat, n: nat): Buckets
    requires Sound(rules)
  {
    if n == 0 then Drained(rules, "p", 0.0, burst)
    else Crowded(rules, burst, n - 1)[Guest(n - 1) := Bucket(rules.capacity - 1.0, Moment(rules))]
  }

  lemma {:induction false} CrowdedShape(rules: Rules, burst: nat, n: nat)
    requires Sound(rules) && burst >= 1
    ensures "p" in Crowded(rules, burst, n) && Crowded(rules, burst, n)["p"] == Bucket(rules.capacity - burst as real, 0.0)
    ensures forall k :: k in Crowded(rules, burst, n) && k != "p" ==>
      Crowded(rules, burst, n)[k].last == Moment(rules) && 0 < |k| <= n && k[0] == 'g'
    ensures |Crowded(rules, burst, n)| == n + 1
  {
    if n > 0 {
      CrowdedShape(rules, burst, n - 1);
      var before := Crowded(rules, burst, n - 1);
      assert |Guest(n - 1)| == n && Guest(n - 1)[0] == 'g' && Guest(n - 1) !in before;
      assert Crowded(rules, burst, n).Keys == before.Keys + {Guest(n - 1)};
    }
  }

  /** A first call of a newcomer, with no cleanup due. */
  lemma NewcomerCall(rules: Rules, buckets: Buckets, key: string)
    requires Sound(rules) && key !in buckets
    ensures var m, after := Moment(rules), buckets[key := Bucket(rules.capacity - 1.0, Moment(rules))];
            Call(rules, Table(buckets, 0.0), key, m).0 == Table(after, 0.0) &&
            KeepingCall(rules, buckets, key, m).0 == after
  {
    MomentGains(rules);
    GainGrows(rules, 0.0, 0.0);
    hide Gain, Moment;
  }

  lemma {:induction false} FirstBurstKept(rules: Rules, n: nat)
    requires Sound(rules) && n as real <= rules.capacity
    ensures BucketsAfter(rules, Repeated("p", 0.0, n)) == Drained(rules, "p", 0.0, n)
  {
    hide *;
    if n == 0 {
      NoBurst(rules, "p");
    } else {
      RepeatedPush("p", 0.0, n);
      FirstBurstKept(rules, n - 1);
      KeepingAppend(rules, Repeated("p", 0.0, n - 1), Request("p", 0.0));
      DrainStep(rules, "p", 0.0, n - 1);
      KeepingCallMeans(rules, Drained(rules, "p", 0.0, n - 1), "p", 0.0);
    }
  }

  lemma {:induction false} CrowdFills(rules: Rules, burst: nat, n: nat)
    requires Sound(rules) && burst >= 1 && burst as real == rules.capacity
    ensures TableAfter(rules, 0.0, Crowd(rules, burst, n)) == Table(Crowded(rules, burst, n), 0.0)
    ensures BucketsAfter(rules, Crowd(rules, burst, n)) == Crowded(rules, burst, n)
  {
    hide *;
    if n == 0 {
      FirstBurst(rules, "p", burst);
      FirstBurstKept(rules, burst);
      NoCrowd(rules, burst);
    } else {
      CrowdPush(rules, burst, n);
      CrowdFills(rules, burst, n - 1);
      var init, last := Crowd(rules, burst, n - 1), Request(Guest(n - 1), Moment(rules));
      CallAppend(rules, 0.0, init, last);
      KeepingAppend(rules, init, last);
      NewcomerCall(rules, Crowded(rules, burst, n - 1), Guest(n - 1));
    }
  }

  lemma NoCrowd(rules: Rules, burst: nat)
    requires Sound(rules)
    ensures Crowd(rules, burst, 0) == Repeated("p", 0.0, burst) && AllBy(Repeated("p", 0.0, burst), "p")
    ensures Crowded(rules, burst, 0) == Drained(rules, "p", 0.0, burst)
  {
    RepeatedShape("p", 0.0, burst);
    hide Repeated, Drained;
  }

  lemma CrowdPush(rules: Rules, burst: nat, n: nat)
    requires Sound(rules) && burst >= 1 && n >= 1
    ensures Guest(n - 1) !in Crowded(rules, burst, n - 1)
    ensures Crowd(rules, burst, n) == Crowd(rules, burst, n - 1) + [Request(Guest(n - 1), Moment(rules))]
    ensures Crowded(rules, burst, n)
         == Crowded(rules, burst, n - 1)[Guest(n - 1) := Bucket(rules.capacity - 1.0, Moment(rules))]
  {
    GuestIsNew(rules, burst, n - 1);
    hide Moment, Guest, Repeated, Drained;
  }

  lemma GuestIsNew(rules: Rules, burst: nat, n: nat)
    requires Sound(rules) && burst >= 1
    ensures Guest(n) !in Crowded(rules, burst, n)
  {
    CrowdedShape(rules, burst, n);
    hide Moment, Crowded;
    assert |Guest(n)| == n + 1;
    assert "p"[0] == 'p' && Guest(n)[0] == 'g';
  }

  lemma {:induction false} CrowdFits(rules: Rules, burst: nat, n: nat)
    requires Sound(rules) && burst >= 1 && burst as real == rules.capacity && n <= MAX_BUCKETS
    ensures Fits(rules, 0.0, Crowd(rules, burst, n))
  {
    hide *;
    if n == 0 {
      NoCrowd(rules, burst);
      OnePrincipalFits(rules, 0.0, Repeated("p", 0.0, burst), "p");
    } else {
      CrowdPush(rules, burst, n);
      CrowdFits(rules, burst, n - 1);
      CrowdFills(rules, burst, n - 1);
      CrowdedShape(rules, burst, n - 1);
      FitsOneMore(rules, Crowd(rules, burst, n - 1), Request(Guest(n - 1), Moment(rules)));
    }
  }

  lemma FitsOneMore(rules: Rules, init: seq<Request>, last: Request)
    requires Fits(rules, 0.0, init) && |TableAfter(rules, 0.0, init).buckets| <= MAX_BUCKETS
    ensures Fits(rules, 0.0, init + [last])
  {
    hide TableAfter;
    var all := init + [last];
    forall i | 0 <= i < |all| ensures |TableAfter(rules, 0.0, all[..i]).buckets| <= MAX_BUCKETS {
      if i < |init| {
        assert all[..i] == init[..i];
      } else {
        assert all[..i] == init;
      }
    }
  }

  /** The cleanup over the limit can only drop the bucket that was used first. */
  lemma {:induction false} OldestIsDropped(rules: Rules, burst: nat, kept: Buckets)
    requires Sound(rules) && burst >= 1 && Cleaned(Crowded(rules, burst, MAX_BUCKETS), kept, Moment(rules))
    ensures "p" !in kept
  {
    var all, m := Crowded(rules, burst, MAX_BUCKETS), Moment(rules);
    CrowdedShape(rules, burst, MAX_BUCKETS);
    MomentGains(rules);
    hide Crowded, Moment;
    assert Retained(all, m) == all;
    assert kept.Keys != all.Keys;
    var g :| g in all && g !in kept;
    assert g == "p" || "p" !in kept;
  }

  /** A principal that has spent its burst is granted another call before a token has
      flowed in, whatever the refill rate, once enough others have called: its bucket
      is the oldest of a table over the limit. */
  lemma {:induction false} CrowdingOutGrantsAgain(
      requestsPerSecond: nat, burst: nat, kept: Buckets, next: Table, allowed: bool)
    requires
      var rules := RulesFor(requestsPerSecond, burst);
      var requests := Crowd(rules, Types.AtLeastOne(burst), MAX_BUCKETS);
      Serves(rules, TableAfter(rules, 0.0, requests), "p", Moment(rules), kept, next, allowed)
    ensures
      var rules := RulesFor(requestsPerSecond, burst);
      var requests := Crowd(rules, Types.AtLeastOne(burst), MAX_BUCKETS);
      Fits(rules, 0.0, requests) && allowed &&
      !KeepingCall(rules, BucketsAfter(rules, requests), "p", Moment(rules)).1
  {
    var rules, n := RulesFor(requestsPerSecond, burst), Types.AtLeastOne(burst);
    assert Sound(rules) && n as real == rules.capacity;
    CrowdFits(rules, n, MAX_BUCKETS);
    CrowdFills(rules, n, MAX_BUCKETS);
    CrowdedShape(rules, n, MAX_BUCKETS);
    MomentGains(rules);
    hide Crowd, Crowded, TableAfter, BucketsAfter, Fits, Moment, Cleaned, Gain;
    OldestIsDropped(rules, n, kept);
    GainGrows(rules, 0.0, 0.0);
  }
}
