/**
 * The token bucket kept in Redis, one bucket per limiter key, and what its decisions mean in
 * terms of the calls alone. Clock readings are arbitrary, also ones that go backwards.
 */
module RateLimiter {

  /** One call on a bucket: the caller's clock (seconds) and the decision. */
  datatype Call = Call(now: int, allowed: bool)

  function Max(a: int, b: int): int { if a < b then b else a }

  function Min(a: int, b: int): int { if a < b then a else b }

  /** The running maximum of the clock readings. */
  function Clock(h: seq<Call>, i: nat): int
    requires i < |h|
  {
    if i == 0 then h[0].now else Max(Clock(h, i - 1), h[i].now)
  }

  /** How many of the calls j..i (without i) were allowed. */
  function Admitted(h: seq<Call>, j: nat, i: nat): nat
    requires j <= i <= |h|
    decreases i
  {
    if i == j then 0 else Admitted(h, j, i - 1) + (if h[i - 1].allowed then 1 else 0)
  }

  /** What the window from call j up to call i may still admit at call i. */
  function Room(capacity: int, rate: int, h: seq<Call>, j: nat, i: nat): int
    requires j <= i < |h|
  {
    capacity + rate * (Clock(h, i) - Clock(h, j)) - Admitted(h, j, i)
  }

  /** Admitting call i keeps every window of calls that ends at it within its allowance. */
  predicate Fits(capacity: int, rate: int, h: seq<Call>, i: nat)
    requires i < |h|
  {
    forall j :: 0 <= j <= i ==> Room(capacity, rate, h, j, i) >= 1
  }

  predicate Decided(capacity: int, rate: int, h: seq<Call>, i: nat)
    requires i < |h|
  {
    h[i].allowed <==> Fits(capacity, rate, h, i)
  }

  /** The decisions are exactly those the windows dictate. */
  ghost predicate Exact(capacity: int, rate: int, h: seq<Call>) {
    forall i {:trigger Decided(capacity, rate, h, i)} :: 0 <= i < |h| ==> Decided(capacity, rate, h, i)
  }

  /** `v` is the tightest window at call i. */
  ghost predicate Tightest(capacity: int, rate: int, h: seq<Call>, i: nat, v: int)
    requires i < |h|
  {
    && (forall j :: 0 <= j <= i ==> v <= Room(capacity, rate, h, j, i))
    && (exists j :: 0 <= j <= i && v == Room(capacity, rate, h, j, i))
  }

  // ---------------------------------------------------------------- histories grow at the end

  lemma {:induction false} ClockPrefix(h: seq<Call>, c: Call, i: nat)
    requires i < |h|
    ensures Clock(h + [c], i) == Clock(h, i)
  {
    if i > 0 {
      ClockPrefix(h, c, i - 1);
    }
  }

  lemma {:induction false} AdmittedPrefix(h: seq<Call>, c: Call, j: nat, i: nat)
    requires j <= i <= |h|
    ensures Admitted(h + [c], j, i) == Admitted(h, j, i)
  {
    if j < i {
      AdmittedPrefix(h, c, j, i - 1);
    }
  }

  lemma RoomPrefix(capacity: int, rate: int, h: seq<Call>, c: Call, j: nat, i: nat)
    requires j <= i < |h|
    ensures Room(capacity, rate, h + [c], j, i) == Room(capacity, rate, h, j, i)
  {
    ClockPrefix(h, c, i);
    ClockPrefix(h, c, j);
    AdmittedPrefix(h, c, j, i);
  }

  lemma FitsPrefix(capacity: int, rate: int, h: seq<Call>, c: Call, i: nat)
    requires i < |h|
    ensures Fits(capacity, rate, h + [c], i) <==> Fits(capacity, rate, h, i)
  {
    forall j | 0 <= j <= i ensures Room(capacity, rate, h + [c], j, i) == Room(capacity, rate, h, j, i) {
      RoomPrefix(capacity, rate, h, c, j, i);
    }
  }

  lemma ExactSnoc(capacity: int, rate: int, h: seq<Call>, c: Call)
    requires Exact(capacity, rate, h) && (c.allowed <==> Fits(capacity, rate, h + [c], |h|))
    ensures Exact(capacity, rate, h + [c])
  {
    var g := h + [c];
    forall i | 0 <= i < |g| ensures Decided(capacity, rate, g, i) {
      if i < |h| {
        assert Decided(capacity, rate, h, i);
        FitsPrefix(capacity, rate, h, c, i);
      }
    }
  }

  // ---------------------------------------------------------------- one refill

  lemma RoomStep(capacity: int, rate: int, h: seq<Call>, j: nat, i: nat)
    requires j <= i && i + 1 < |h|
    ensures Room(capacity, rate, h, j, i + 1) ==
      Room(capacity, rate, h, j, i) - (if h[i].allowed then 1 else 0) + rate * (Clock(h, i + 1) - Clock(h, i))
  {
    assert rate * (Clock(h, i + 1) - Clock(h, j)) ==
      rate * (Clock(h, i) - Clock(h, j)) + rate * (Clock(h, i + 1) - Clock(h, i));
  }

  /** The refill, capped at the capacity, is the tightest window at the next call. */
  lemma TightestStep(capacity: int, rate: int, h: seq<Call>, i: nat, v: int)
    requires i + 1 < |h| && Tightest(capacity, rate, h, i, v)
    ensures Tightest(capacity, rate, h, i + 1,
      Min(capacity, v - (if h[i].allowed then 1 else 0) + rate * (Clock(h, i + 1) - Clock(h, i))))
  {
    var w := v - (if h[i].allowed then 1 else 0) + rate * (Clock(h, i + 1) - Clock(h, i));
    assert Room(capacity, rate, h, i + 1, i + 1) == capacity;
    var n := i + 1;
    forall j | 0 <= j <= n ensures Min(capacity, w) <= Room(capacity, rate, h, j, n) {
      if j <= i {
        RoomStep(capacity, rate, h, j, i);
      }
    }
    var k :| 0 <= k <= i && v == Room(capacity, rate, h, k, i);
    RoomStep(capacity, rate, h, k, i);
  }

  lemma TightestDecides(capacity: int, rate: int, h: seq<Call>, i: nat, v: int)
    requires i < |h| && Tightest(capacity, rate, h, i, v)
    ensures v > 0 <==> Fits(capacity, rate, h, i)
  {
  }

  // ---------------------------------------------------------------- the script

  /** A bucket as stored: tokens left and the time of the last refill. */
  datatype Bucket = Bucket(tokens: int, lastRefill: int)

  /** The stored bucket after the calls `h`. */
  ghost predicate BucketOf(capacity: int, rate: int, h: seq<Call>, b: Bucket) {
    && |h| > 0 && 0 <= b.tokens <= capacity
    && b.lastRefill == Clock(h, |h| - 1)
    && Tightest(capacity, rate, h, |h| - 1, b.tokens + (if h[|h| - 1].allowed then 1 else 0))
    && Exact(capacity, rate, h)
  }

  /** Refill and take, as the script does it, from the stored tokens and time. */
  function Take(capacity: int, rate: int, stored: (int, int), now: int): (r: (Bucket, bool)) {
    var (tokens, lastRefill) := stored;
    var refill := Max(0, now - lastRefill) * rate;
    var level := Min(capacity, tokens + refill);
    var last := if refill > 0 then now else lastRefill;
    if level > 0 then (Bucket(level - 1, last), true) else (Bucket(level, last), false)
  }

  lemma FirstTake(capacity: int, rate: int, now: int)
    requires capacity >= 1 && rate >= 1
    ensures var (b, ok) := Take(capacity, rate, (capacity, now), now);
      BucketOf(capacity, rate, [Call(now, ok)], b)
  {
    var h := [Call(now, true)];
    assert Room(capacity, rate, h, 0, 0) == capacity;
    assert Tightest(capacity, rate, h, 0, capacity);
    assert Exact(capacity, rate, h);
  }

  lemma NextTake(capacity: int, rate: int, h: seq<Call>, b: Bucket, now: int)
    requires capacity >= 1 && rate >= 1 && BucketOf(capacity, rate, h, b)
    ensures var (b', ok) := Take(capacity, rate, (b.tokens, b.lastRefill), now);
      BucketOf(capacity, rate, h + [Call(now, ok)], b')
  {
    var (b', ok) := Take(capacity, rate, (b.tokens, b.lastRefill), now);
    var c := Call(now, ok);
    var g := h + [c];
    var i := |h| - 1;
    var v := b.tokens + (if h[i].allowed then 1 else 0);
    ClockPrefix(h, c, i);
    TightestPrefix(capacity, rate, h, c, i, v);
    assert Clock(g, i + 1) == Max(Clock(g, i), now);
    TightestStep(capacity, rate, g, i, v);
    Refill(rate, b.lastRefill, now);
    var level := Min(capacity, b.tokens + rate * (Clock(g, i + 1) - Clock(g, i)));
    assert Tightest(capacity, rate, g, i + 1, level);
    TightestDecides(capacity, rate, g, i + 1, level);
    ExactSnoc(capacity, rate, h, c);
  }

  lemma TightestPrefix(capacity: int, rate: int, h: seq<Call>, c: Call, i: nat, v: int)
    requires i < |h| && Tightest(capacity, rate, h, i, v)
    ensures Tightest(capacity, rate, h + [c], i, v)
  {
    forall j | 0 <= j <= i ensures Room(capacity, rate, h + [c], j, i) == Room(capacity, rate, h, j, i) {
      RoomPrefix(capacity, rate, h, c, j, i);
    }
    var k :| 0 <= k <= i && v == Room(capacity, rate, h, k, i);
    assert v == Room(capacity, rate, h + [c], k, i);
  }

  /** `last_refill` follows the running maximum, because any growth refills at least one token. */
  lemma Refill(rate: int, last: int, now: int)
    requires rate >= 1
    ensures var refill := Max(0, now - last) * rate;
      && refill == rate * (Max(last, now) - last) && refill >= 0
      && (if refill > 0 then now else last) == Max(last, now)
  {
    if now > last {
      assert (now - last) * rate >= 1;
    }
  }

  // ---------------------------------------------------------------- what exactness gives

  lemma {:induction false} RoomLeft(capacity: int, rate: int, h: seq<Call>, j: nat, i: nat)
    requires capacity >= 0 && rate >= 0 && Exact(capacity, rate, h) && j <= i < |h|
    ensures Room(capacity, rate, h, j, i) >= if h[i].allowed then 1 else 0
  {
    assert Decided(capacity, rate, h, i);
    if !h[i].allowed && j < i {
      RoomLeft(capacity, rate, h, j, i - 1);
      RoomStep(capacity, rate, h, j, i - 1);
      NonNegative(rate, Clock(h, i) - Clock(h, i - 1));
    }
  }

  lemma NonNegative(a: int, b: int)
    requires a >= 0 && b >= 0
    ensures a * b >= 0
  {
  }

  /** Every window of calls stays within capacity + rate * growth of the clock over it. */
  lemma WindowsBounded(capacity: int, rate: int, h: seq<Call>)
    requires capacity >= 0 && rate >= 0 && Exact(capacity, rate, h)
    ensures WithinLimit(capacity, rate, h)
  {
    forall j, i | 0 <= j <= i < |h| ensures Admitted(h, j, i + 1) <= capacity + rate * (Clock(h, i) - Clock(h, j)) {
      RoomLeft(capacity, rate, h, j, i);
    }
  }

  /** A sequence of decisions that keeps every window within its allowance. */
  ghost predicate WithinLimit(capacity: int, rate: int, h: seq<Call>) {
    forall j, i :: 0 <= j <= i < |h| ==> Admitted(h, j, i + 1) <= capacity + rate * (Clock(h, i) - Clock(h, j))
  }

  ghost predicate SameClock(g: seq<Call>, h: seq<Call>) {
    |g| == |h| && forall i :: 0 <= i < |h| ==> g[i].now == h[i].now
  }

  lemma {:induction false} SameClockMax(g: seq<Call>, h: seq<Call>, i: nat)
    requires SameClock(g, h) && i < |h|
    ensures Clock(g, i) == Clock(h, i)
  {
    if i > 0 {
      SameClockMax(g, h, i - 1);
    }
  }

  lemma {:induction false} AdmittedSplit(h: seq<Call>, j: nat, i: nat)
    requires j <= i <= |h|
    ensures Admitted(h, 0, i) == Admitted(h, 0, j) + Admitted(h, j, i)
  {
    if j < i {
      AdmittedSplit(h, j, i - 1);
    }
  }

  /** No limiter that respects the windows ever gets ahead of the bucket: it refuses only when it must. */
  lemma {:induction false} BucketAdmitsMost(capacity: int, rate: int, h: seq<Call>, g: seq<Call>, i: nat)
    requires Exact(capacity, rate, h) && SameClock(g, h) && WithinLimit(capacity, rate, g) && i <= |h|
    ensures Admitted(g, 0, i) <= Admitted(h, 0, i)
  {
    if i > 0 {
      BucketAdmitsMost(capacity, rate, h, g, i - 1);
      if !h[i - 1].allowed {
        assert Decided(capacity, rate, h, i - 1);
        assert !Fits(capacity, rate, h, i - 1);
        var j :| 0 <= j <= i - 1 && Room(capacity, rate, h, j, i - 1) < 1;
        BucketAdmitsMost(capacity, rate, h, g, j);
        SameClockMax(g, h, i - 1);
        SameClockMax(g, h, j);
        AdmittedSplit(g, j, i);
        AdmittedSplit(h, j, i);
      }
    }
  }

  /** The clock readings and the window law determine every decision. */
  lemma ExactDetermines(capacity: int, rate: int, g: seq<Call>, h: seq<Call>)
    requires capacity >= 0 && rate >= 0 && SameClock(g, h) && Exact(capacity, rate, g) && Exact(capacity, rate, h)
    ensures g == h
  {
    WindowsBounded(capacity, rate, g);
    WindowsBounded(capacity, rate, h);
    forall i | 0 <= i < |h| ensures g[i] == h[i] {
      BucketAdmitsMost(capacity, rate, g, h, i);
      BucketAdmitsMost(capacity, rate, h, g, i);
      BucketAdmitsMost(capacity, rate, g, h, i + 1);
      BucketAdmitsMost(capacity, rate, h, g, i + 1);
    }
  }

  // ---------------------------------------------------------------- Redis

  const TOKENS: string := ":tokens"
  const TS: string := ":ts"

  lemma KeysApart(a: string, b: string)
    ensures a + TOKENS != b + TS
    ensures a != b ==> a + TOKENS != b + TOKENS && a + TS != b + TS
  {
    var x, y := a + TOKENS, b + TS;
    assert x[|x| - 2] == 'n' && y[|y| - 2] == 't';
    if a + TOKENS == b + TOKENS {
      assert a == (a + TOKENS)[..|a + TOKENS| - |TOKENS|] == b;
    }
    if a + TS == b + TS {
      assert a == (a + TS)[..|a + TS| - |TS|] == b;
    }
  }

  type Redis = map<string, int>
  type Calls = map<string, seq<Call>>

  function CallsOf(calls: Calls, key: string): seq<Call> { if key in calls then calls[key] else [] }

  /** The stored bucket of `key` is the one its calls left; before the first call there is none. */
  ghost predicate Stored(capacity: int, rate: int, redis: Redis, calls: Calls, key: string) {
    if key in calls
    then && key + TOKENS in redis && key + TS in redis
         && BucketOf(capacity, rate, calls[key], Bucket(redis[key + TOKENS], redis[key + TS]))
    else key + TOKENS !in redis && key + TS !in redis
  }

  ghost predicate AllStored(capacity: int, rate: int, redis: Redis, calls: Calls) {
    forall key {:trigger Stored(capacity, rate, redis, calls, key)} :: Stored(capacity, rate, redis, calls, key)
  }

  function GetTokens(capacity: int, redis: Redis, key: string): int {
    if key + TOKENS in redis then redis[key + TOKENS] else capacity
  }

  function GetTs(now: int, redis: Redis, key: string): int {
    if key + TS in redis then redis[key + TS] else now
  }

  /** The script on a stored bucket and its calls. */
  lemma TakeStored(capacity: int, rate: int, redis: Redis, calls: Calls, key: string, now: int)
    requires capacity >= 1 && rate >= 1 && Stored(capacity, rate, redis, calls, key)
    ensures var (b, ok) := Take(capacity, rate, (GetTokens(capacity, redis, key), GetTs(now, redis, key)), now);
      BucketOf(capacity, rate, CallsOf(calls, key) + [Call(now, ok)], b)
  {
    if key in calls {
      NextTake(capacity, rate, calls[key], Bucket(redis[key + TOKENS], redis[key + TS]), now);
    } else {
      FirstTake(capacity, rate, now);
      var (b, ok) := Take(capacity, rate, (capacity, now), now);
      assert [] + [Call(now, ok)] == [Call(now, ok)];
    }
  }

  lemma SetKeeps(capacity: int, rate: int, redis: Redis, calls: Calls, key: string, h: seq<Call>, b: Bucket)
    requires AllStored(capacity, rate, redis, calls) && BucketOf(capacity, rate, h, b)
    ensures AllStored(capacity, rate, redis[key + TOKENS := b.tokens][key + TS := b.lastRefill], calls[key := h])
  {
    var redis' := redis[key + TOKENS := b.tokens][key + TS := b.lastRefill];
    var calls' := calls[key := h];
    forall k ensures Stored(capacity, rate, redis', calls', k) {
      KeysApart(k, key);
      KeysApart(key, k);
      assert Stored(capacity, rate, redis, calls, k);
    }
  }

  lemma BucketDecides(capacity: int, rate: int, h: seq<Call>, b: Bucket)
    requires BucketOf(capacity, rate, h, b)
    ensures h[|h| - 1].allowed <==> Fits(capacity, rate, h, |h| - 1)
  {
    assert Decided(capacity, rate, h, |h| - 1);
  }

  class RateLimiter {
    const capacity: int
    const rate: int
    /** The Redis keys the limiter owns. */
    var redis: Redis
    /** The calls made on each bucket. */
    ghost var calls: Calls

    ghost predicate Valid()
      reads this
    {
      capacity >= 1 && rate >= 1 && AllStored(capacity, rate, redis, calls)
    }

    constructor (capacity: int, rate: int)
      ensures Valid() && calls == map[] && redis == map[]
      ensures capacity >= 1 ==> this.capacity == capacity
      ensures capacity <= 0 ==> this.capacity == this.rate
      ensures this.rate == if rate >= 1 then rate else 1
    {
      var c, r := capacity, rate;
      if c <= 0 {
        c := r;
        if c <= 0 {
          c := 1;
        }
      }
      if r <= 0 {
        r := 1;
      }
      this.capacity := c;
      this.rate := r;
      redis := map[];
      calls := map[];
    }

    /**
     * The script, run atomically. The call is allowed exactly when every window of this
     * bucket's calls that ends at it stays within capacity + rate * (growth of the running
     * maximum of the clock), whatever the clock readings; other buckets are untouched.
     */
    method Allow(key: string, now: int) returns (allowed: bool, remaining: int, reset: int)
      requires Valid()
      modifies this
      ensures Valid() && calls == old(calls)[key := CallsOf(old(calls), key) + [Call(now, allowed)]]
      ensures allowed <==> Fits(capacity, rate, calls[key], |calls[key]| - 1)
      ensures 0 <= remaining <= capacity
      ensures Tightest(capacity, rate, calls[key], |calls[key]| - 1, remaining + (if allowed then 1 else 0))
      ensures reset == Clock(calls[key], |calls[key]| - 1) + 1
      ensures redis == old(redis)[key + TOKENS := remaining][key + TS := reset - 1]
    {
      ghost var redis0, calls0 := redis, calls;
      assert Stored(capacity, rate, redis, calls, key);
      TakeStored(capacity, rate, redis, calls, key, now);
      var tokens := GetTokens(capacity, redis, key);
      var lastRefill := GetTs(now, redis, key);
      ghost var taken := Take(capacity, rate, (tokens, lastRefill), now);
      var refill := Max(0, now - lastRefill) * rate;
      tokens := Min(capacity, tokens + refill);
      if refill > 0 {
        lastRefill := now;
      }
      allowed := false;
      if tokens > 0 {
        allowed := true;
        tokens := tokens - 1;
      }
      assert taken == (Bucket(tokens, lastRefill), allowed);
      redis := redis[key + TOKENS := tokens];
      redis := redis[key + TS := lastRefill];
      remaining := tokens;
      reset := lastRefill + 1;
      ghost var h := CallsOf(calls, key) + [Call(now, allowed)];
      calls := calls[key := h];
      SetKeeps(capacity, rate, redis0, calls0, key, h, Bucket(tokens, lastRefill));
      BucketDecides(capacity, rate, h, Bucket(tokens, lastRefill));
    }
  }
}
