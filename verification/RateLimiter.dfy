/**
  The per-key token bucket that forgets idle keys.

  Tokens and seconds are real numbers. A call's clock was read before the call got the mutex, so readings may come out
  of order.
 */
module RateLimiter {
  import opened Wrappers

  const IDLE_TTL := 1800.0

  datatype Bucket = Bucket(tokens: real, last: real)

  type Buckets = map<string, Bucket>

  datatype Limits = Limits(capacity: real, refill: real, maxKeys: nat) {
    predicate Valid() {
      capacity >= 1.0 && refill > 0.0 && maxKeys >= 1
    }
    /** An idle key has refilled completely by the time it is forgotten, even by a clock reading behind by `skew`. */
    predicate RefillsWithin(skew: real) {
      refill * (IDLE_TTL - skew) >= capacity
    }
  }

  function Min(a: real, b: real): real {
    if a <= b then a else b
  }

  // ---- one call, as a function ----

  function Purged(b: Buckets, now: real): Buckets {
    map k | k in b && now - b[k].last <= IDLE_TTL :: b[k]
  }

  function Refilled(l: Limits, x: Bucket, now: real): Bucket {
    if now > x.last then Bucket(Min(l.capacity, x.tokens + (now - x.last) * l.refill), now) else x
  }

  predicate Served(l: Limits, x: Bucket, now: real) {
    Refilled(l, x, now).tokens >= 1.0
  }

  function AfterServing(l: Limits, x: Bucket, now: real): Bucket {
    var y := Refilled(l, x, now);
    if y.tokens < 1.0 then y else y.(tokens := y.tokens - 1.0)
  }

  /** Removes the victim, unless it is the empty key, which eviction takes for "none found". */
  function Evicted(b: Buckets, victim: Option<string>): Buckets {
    if victim.Some? && victim.value != "" then b - {victim.value} else b
  }

  /** Eviction happens exactly for a new key at full size, and hits a bucket that was used least recently. */
  predicate IsVictim(l: Limits, b: Buckets, key: string, victim: Option<string>) {
    if key in b || |b| < l.maxKeys || b == map[] then victim.None?
    else victim.Some? && victim.value in b && forall k :: k in b ==> b[victim.value].last <= b[k].last
  }

  /** The call's effect on already purged and evicted buckets. */
  function Charged(l: Limits, b: Buckets, key: string, now: real): Buckets {
    b[key := if key in b then AfterServing(l, b[key], now) else Bucket(l.capacity - 1.0, now)]
  }

  predicate Admits(l: Limits, b: Buckets, key: string, now: real) {
    key in b ==> Served(l, b[key], now)
  }

  // ---- the limiter ----

  class Limiter {
    const limits: Limits
    var buckets: Buckets

    constructor (capacity: int, perSecond: real)
      ensures limits.Valid() && buckets == map[] && limits.maxKeys == 4096
      ensures limits.capacity == (if capacity <= 0 then 30.0 else capacity as real)
      ensures limits.refill == (if perSecond <= 0.0 then limits.capacity / 60.0 else perSecond)
    {
      var cap: real := if capacity <= 0 then 30.0 else capacity as real;
      limits := Limits(cap, if perSecond <= 0.0 then cap / 60.0 else perSecond, 4096);
      buckets := map[];
    }

    method Purge(now: real)
      modifies this
      ensures buckets == Purged(old(buckets), now)
    {
      var rest := buckets.Keys;
      ghost var was := buckets;
      while rest != {}
        invariant rest <= was.Keys
        invariant buckets == map k | k in was && (k in rest || now - was[k].last <= IDLE_TTL) :: was[k]
        decreases rest
      {
        var id :| id in rest;
        rest := rest - {id};
        if now - buckets[id].last > IDLE_TTL {
          buckets := buckets - {id};
        }
      }
    }

    /** Scans the buckets in any order for the least recently used one; only a non-empty key is deleted. */
    method EvictOne() returns (ghost victim: Option<string>)
      modifies this
      ensures victim.None? <==> old(buckets) == map[]
      ensures victim.Some? ==>
                victim.value in old(buckets) &&
                forall k :: k in old(buckets) ==> old(buckets)[victim.value].last <= old(buckets)[k].last
      ensures buckets == Evicted(old(buckets), victim)
    {
      var oldestKey := "";
      var oldest := 0.0;
      var first := true;
      var rest := buckets.Keys;
      while rest != {}
        invariant rest <= buckets.Keys
        invariant first <==> rest == buckets.Keys
        invariant first ==> oldestKey == ""
        invariant !first ==> oldestKey in buckets && oldest == buckets[oldestKey].last
        invariant !first ==> forall k :: k in buckets.Keys - rest ==> oldest <= buckets[k].last
        decreases rest
      {
        var k :| k in rest;
        if first || buckets[k].last < oldest {
          oldestKey, oldest := k, buckets[k].last;
          first := false;
        }
        rest := rest - {k};
      }
      victim := if first then None else Some(oldestKey);
      assert first <==> buckets == map[];
      if oldestKey != "" {
        buckets := buckets - {oldestKey};
      }
    }

    method Allow(key: string, now: real) returns (ok: bool, ghost victim: Option<string>)
      modifies this
      ensures IsVictim(limits, Purged(old(buckets), now), key, victim)
      ensures var b := Evicted(Purged(old(buckets), now), victim);
              buckets == Charged(limits, b, key, now) && ok == Admits(limits, b, key, now)
    {
      Purge(now);
      victim := None;
      if key !in buckets {
        if |buckets| >= limits.maxKeys {
          victim := EvictOne();
        }
        buckets := buckets[key := Bucket(limits.capacity - 1.0, now)];
        return true, victim;
      }
      var b := buckets[key];
      var elapsed := now - b.last;
      if elapsed > 0.0 {
        b := b.(tokens := b.tokens + elapsed * limits.refill);
        if b.tokens > limits.capacity {
          b := b.(tokens := limits.capacity);
        }
        b := b.(last := now);
      }
      assert b == Refilled(limits, buckets[key], now);
      if b.tokens < 1.0 {
        buckets := buckets[key := b];
        return false, victim;
      }
      buckets := buckets[key := b.(tokens := b.tokens - 1.0)];
      ok := true;
    }
  }

  // ---- runs ----

  datatype Call = Call(key: string, now: real, victim: Option<string>)

  function Ready(b: Buckets, call: Call): Buckets {
    Evicted(Purged(b, call.now), call.victim)
  }

  function After(l: Limits, b: Buckets, call: Call): Buckets {
    Charged(l, Ready(b, call), call.key, call.now)
  }

  predicate Allowed(l: Limits, b: Buckets, call: Call) {
    Admits(l, Ready(b, call), call.key, call.now)
  }

  /** A run of calls as `Limiter.Allow` serves them, with clock readings in any order. */
  predicate Legal(l: Limits, b: Buckets, calls: seq<Call>)
    decreases |calls|
  {
    calls == [] ||
    (IsVictim(l, Purged(b, calls[0].now), calls[0].key, calls[0].victim) && Legal(l, After(l, b, calls[0]), calls[1..]))
  }

  function End(l: Limits, b: Buckets, calls: seq<Call>): Buckets
    decreases |calls|
  {
    if calls == [] then b else End(l, After(l, b, calls[0]), calls[1..])
  }

  function Max(a: real, b: real): real {
    if a >= b then a else b
  }

  /** The highest clock reading so far. */
  function High(high: real, calls: seq<Call>): real
    decreases |calls|
  {
    if calls == [] then high else High(Max(high, calls[0].now), calls[1..])
  }

  /** No call's clock reading is behind the highest one before it by more than `skew`. */
  predicate Skewed(calls: seq<Call>, high: real, skew: real) {
    calls == [] || (calls[0].now >= high - skew && Skewed(calls[1..], Max(high, calls[0].now), skew))
  }

  /** How many calls for `key` the run admits. */
  function Admitted(l: Limits, b: Buckets, calls: seq<Call>, key: string): nat
    decreases |calls|
  {
    if calls == [] then 0
    else Admitted(l, After(l, b, calls[0]), calls[1..], key)
         + if calls[0].key == key && Allowed(l, b, calls[0]) then 1 else 0
  }

  // ---- tokens stay within bounds ----

  predicate Sane(l: Limits, b: Buckets, high: real) {
    forall k :: k in b ==> 0.0 <= b[k].tokens <= l.capacity && b[k].last <= high
  }

  lemma RefillFacts(l: Limits, x: Bucket, now: real)
    requires l.Valid() && 0.0 <= x.tokens <= l.capacity
    ensures 0.0 <= Refilled(l, x, now).tokens <= l.capacity && x.tokens <= Refilled(l, x, now).tokens
  {
    if now > x.last {
      assert (now - x.last) * l.refill >= 0.0;
    }
  }

  lemma SaneStep(l: Limits, b: Buckets, high: real, call: Call)
    requires l.Valid() && Sane(l, b, high)
    ensures Sane(l, After(l, b, call), Max(high, call.now))
  {
    var r := Ready(b, call);
    if call.key in r {
      RefillFacts(l, r[call.key], call.now);
    }
  }

  /** Tokens stay in [0, capacity], and no bucket is dated past the highest clock reading, in whatever order calls come. */
  lemma {:induction false} SaneRun(l: Limits, b: Buckets, high: real, calls: seq<Call>)
    requires l.Valid() && Sane(l, b, high)
    ensures Sane(l, End(l, b, calls), High(high, calls))
    decreases |calls|
  {
    if calls != [] {
      SaneStep(l, b, high, calls[0]);
      SaneRun(l, After(l, b, calls[0]), Max(high, calls[0].now), calls[1..]);
    }
  }

  lemma IdleRefills(l: Limits, x: Bucket, now: real, skew: real)
    requires l.Valid() && l.RefillsWithin(skew) && 0.0 <= x.tokens && now - x.last > IDLE_TTL - skew
    ensures Refilled(l, x, now) == Bucket(l.capacity, now)
  {
    SkewBelowTtl(l, skew);
    IdleGain(l, now - x.last, skew);
  }

  lemma SkewBelowTtl(l: Limits, skew: real)
    requires l.Valid() && l.RefillsWithin(skew)
    ensures skew < IDLE_TTL
  {
    if skew >= IDLE_TTL {
      Scales(l.refill, IDLE_TTL - skew, 0.0);
    }
  }

  lemma Scales(r: real, a: real, b: real)
    requires r > 0.0 && a <= b
    ensures r * a <= r * b
  {
  }

  // ---- the window bound ----

  /** The time `t` in tokens. */
  function Tick(l: Limits, t: real): real {
    l.refill * t
  }

  lemma TickGrows(l: Limits, a: real, b: real)
    requires l.Valid() && a <= b
    ensures Tick(l, a) <= Tick(l, b)
  {
    Scales(l.refill, a, b);
  }

  lemma TickDiffers(l: Limits, a: real, b: real)
    ensures (b - a) * l.refill == Tick(l, b) - Tick(l, a)
  {
  }

  /** What refills between two clock readings: refill * (to - from). */
  function Gain(l: Limits, from: real, to: real): real {
    if to <= from then 0.0 else Tick(l, to) - Tick(l, from)
  }

  lemma GainFalls(l: Limits, a: real, b: real, to: real)
    requires l.Valid() && a <= b
    ensures 0.0 <= Gain(l, b, to) <= Gain(l, a, to)
  {
    TickGrows(l, a, b);
    if b < to {
      TickGrows(l, b, to);
    } else if a < to {
      TickGrows(l, a, to);
    }
  }

  lemma GainSplits(l: Limits, a: real, b: real, to: real)
    requires a <= b <= to
    ensures Gain(l, a, to) == (b - a) * l.refill + Gain(l, b, to)
  {
    TickDiffers(l, a, b);
  }

  lemma IdleGain(l: Limits, elapsed: real, skew: real)
    requires l.Valid() && l.RefillsWithin(skew) && elapsed >= IDLE_TTL - skew
    ensures elapsed * l.refill >= l.capacity
  {
    Scales(l.refill, IDLE_TTL - skew, elapsed);
  }

  /** What a full bucket that is made no earlier than `at` is worth up to `to`. */
  function Full(l: Limits, at: real, to: real): real {
    if at > to then 0.0 else l.capacity + Gain(l, at, to)
  }

  lemma FullFalls(l: Limits, a: real, b: real, to: real)
    requires l.Valid() && a <= b
    ensures 0.0 <= Full(l, b, to) <= Full(l, a, to) <= l.capacity + Gain(l, a, to)
  {
    GainFalls(l, a, b, to);
  }

  /**
    The most that calls for the key can still be admitted, if their clock readings lie between `from` and `to`. A key
    without a bucket gets a full one, but no earlier than the skew allows.
   */
  function Worth(l: Limits, b: Buckets, key: string, high: real, skew: real, from: real, to: real): real {
    if key !in b then Full(l, Max(from, high - skew), to)
    else if b[key].last < from then l.capacity + Gain(l, from, to)
    else b[key].tokens + Gain(l, b[key].last, to)
  }

  lemma WorthBounds(l: Limits, b: Buckets, key: string, high: real, skew: real, from: real, to: real)
    requires l.Valid() && Sane(l, b, high)
    ensures 0.0 <= Worth(l, b, key, high, skew, from, to) <= l.capacity + Gain(l, from, to)
  {
    FullFalls(l, from, Max(from, high - skew), to);
    if key in b && b[key].last >= from {
      GainFalls(l, from, b[key].last, to);
    }
  }

  /** The clock readings of the key's own calls lie in the window; those of other calls may not. */
  predicate InWindow(calls: seq<Call>, key: string, from: real, to: real) {
    forall i :: 0 <= i < |calls| && calls[i].key == key ==> from <= calls[i].now <= to
  }

  predicate NeverVictim(calls: seq<Call>, key: string) {
    forall i :: 0 <= i < |calls| ==> calls[i].victim != Some(key)
  }

  /** A bucket that is charged is worth what it was before, less the call admitted. */
  lemma ChargeSpends(l: Limits, x: Bucket, now: real, from: real, to: real)
    requires l.Valid() && 0.0 <= x.tokens <= l.capacity && from <= now <= to
    ensures var y := AfterServing(l, x, now);
            y.tokens + Gain(l, y.last, to) + (if Served(l, x, now) then 1.0 else 0.0)
            <= if x.last < from then l.capacity + Gain(l, from, to) else x.tokens + Gain(l, x.last, to)
    ensures AfterServing(l, x, now).last == Max(x.last, now)
  {
    RefillFacts(l, x, now);
    GainFalls(l, from, now, to);
    if now > x.last >= from {
      GainSplits(l, x.last, now, to);
    }
  }

  /** A bucket idle for long enough is worth no less than the full one that replaces it. */
  lemma IdleIsWorth(l: Limits, x: Bucket, at: real, to: real, skew: real)
    requires l.Valid() && l.RefillsWithin(skew) && 0.0 <= x.tokens && at - x.last > IDLE_TTL - skew
    ensures Full(l, at, to) <= x.tokens + Gain(l, x.last, to)
  {
    SkewBelowTtl(l, skew);
    if at <= to {
      IdleSpan(l, x.last, at, to, skew);
    } else {
      GainFalls(l, x.last, at, to);
    }
  }

  lemma IdleSpan(l: Limits, last: real, until: real, to: real, skew: real)
    requires l.Valid() && l.RefillsWithin(skew) && last <= until <= to && until - last >= IDLE_TTL - skew
    ensures Gain(l, last, to) >= l.capacity + Gain(l, until, to)
  {
    IdleGain(l, until - last, skew);
    GainSplits(l, last, until, to);
  }

  /** A call for another key, at any time, does not make the key worth more. */
  lemma OthersSpendNothing(l: Limits, b: Buckets, key: string, high: real, call: Call, skew: real, from: real, to: real)
    requires l.Valid() && l.RefillsWithin(skew) && 0.0 <= skew && Sane(l, b, high)
    requires call.victim != Some(key) && call.key != key
    ensures Worth(l, After(l, b, call), key, Max(high, call.now), skew, from, to) <= Worth(l, b, key, high, skew, from, to)
  {
    var at := Max(from, Max(high, call.now) - skew);
    FullFalls(l, Max(from, high - skew), at, to);
    FullFalls(l, from, at, to);
    if key in b && call.now - b[key].last > IDLE_TTL && from <= b[key].last {
      IdleIsWorth(l, b[key], at, to, skew);
    }
  }

  lemma OwnCallSpends(l: Limits, b: Buckets, high: real, call: Call, skew: real, from: real, to: real)
    requires l.Valid() && l.RefillsWithin(skew) && 0.0 <= skew && Sane(l, b, high)
    requires call.victim != Some(call.key) && from <= call.now <= to && call.now >= high - skew
    ensures Worth(l, After(l, b, call), call.key, Max(high, call.now), skew, from, to)
            + (if Allowed(l, b, call) then 1.0 else 0.0) <= Worth(l, b, call.key, high, skew, from, to)
  {
    if call.key in Ready(b, call) {
      ChargeSpends(l, b[call.key], call.now, from, to);
    } else {
      FullFalls(l, Max(from, high - skew), call.now, to);
      FullFalls(l, from, call.now, to);
      if call.key in b && from <= b[call.key].last {
        IdleIsWorth(l, b[call.key], call.now, to, skew);
      }
    }
  }

  lemma {:induction false} WorthPays(l: Limits, b: Buckets, high: real, calls: seq<Call>, key: string, skew: real, from: real, to: real)
    requires l.Valid() && l.RefillsWithin(skew) && 0.0 <= skew && Sane(l, b, high)
    requires Skewed(calls, high, skew) && InWindow(calls, key, from, to) && NeverVictim(calls, key)
    ensures Admitted(l, b, calls, key) as real <= Worth(l, b, key, high, skew, from, to)
    decreases |calls|
  {
    if calls == [] {
      WorthBounds(l, b, key, high, skew, from, to);
    } else {
      var call, b', high' := calls[0], After(l, b, calls[0]), Max(high, calls[0].now);
      SaneStep(l, b, high, call);
      assert InWindow(calls[1..], key, from, to) && NeverVictim(calls[1..], key) by {
        assert forall i :: 0 <= i < |calls[1..]| ==> calls[1..][i] == calls[i + 1];
      }
      WorthPays(l, b', high', calls[1..], key, skew, from, to);
      if call.key == key {
        OwnCallSpends(l, b, high, call, skew, from, to);
      } else {
        OthersSpendNothing(l, b, key, high, call, skew, from, to);
      }
    }
  }

  /**
    In any reachable state, calls for a key that capacity eviction does not hit, with clock readings between `from` and
    `to`, are admitted at most capacity + refill * (to - from) times. Clock readings may come out of order by at most
    `skew`, and an idle key must refill within the TTL less the skew.
   */
  lemma WindowBound(l: Limits, b: Buckets, high: real, calls: seq<Call>, key: string, skew: real, from: real, to: real)
    requires l.Valid() && l.RefillsWithin(skew) && 0.0 <= skew && Sane(l, b, high)
    requires Skewed(calls, high, skew) && InWindow(calls, key, from, to) && NeverVictim(calls, key)
    ensures Admitted(l, b, calls, key) as real <= l.capacity + Gain(l, from, to)
  {
    WorthPays(l, b, high, calls, key, skew, from, to);
    WorthBounds(l, b, key, high, skew, from, to);
  }

  // ---- without the proviso ----

  function Burst(key: string, now: real, n: nat): seq<Call> {
    if n == 0 then [] else [Call(key, now, None)] + Burst(key, now, n - 1)
  }

  lemma {:induction false} BurstShape(key: string, now: real, n: nat)
    ensures |Burst(key, now, n)| == n && forall i :: 0 <= i < n ==> Burst(key, now, n)[i] == Call(key, now, None)
  {
    if n > 0 {
      BurstShape(key, now, n - 1);
    }
  }

  lemma BurstHead(key: string, now: real, n: nat)
    requires n > 0
    ensures Burst(key, now, n)[0] == Call(key, now, None) && Burst(key, now, n)[1..] == Burst(key, now, n - 1)
  {
  }

  /** With at least n tokens at hand, n simultaneous calls are all admitted. */
  lemma {:induction false} BurstIsAdmitted(l: Limits, b: Buckets, key: string, now: real, n: nat)
    requires l.Valid() && key in b && b[key].last == now && b[key].tokens >= n as real
    ensures Legal(l, b, Burst(key, now, n)) && Admitted(l, b, Burst(key, now, n), key) == n
    decreases n
  {
    if n > 0 {
      BurstHead(key, now, n);
      var b' := After(l, b, Call(key, now, None));
      assert b'[key] == Bucket(b[key].tokens - 1.0, now);
      BurstIsAdmitted(l, b', key, now, n - 1);
    }
  }

  lemma {:induction false} BurstDrains(l: Limits, tokens: real, key: string, now: real, n: nat)
    requires l.Valid() && tokens >= n as real
    ensures End(l, map[key := Bucket(tokens, now)], Burst(key, now, n)) == map[key := Bucket(tokens - n as real, now)]
    decreases n
  {
    if n > 0 {
      BurstHead(key, now, n);
      var b: Buckets := map[key := Bucket(tokens, now)];
      assert Purged(b, now) == b && After(l, b, Call(key, now, None)) == map[key := Bucket(tokens - 1.0, now)];
      BurstDrains(l, tokens - 1.0, key, now, n - 1);
    }
  }

  /** Without a bucket for the key, and with room for one, a burst of the whole capacity is admitted. */
  lemma FreshBurst(l: Limits, b: Buckets, key: string, now: real, n: nat)
    requires l.Valid() && l.capacity == n as real && key !in b
    requires Purged(b, now) == b && (b == map[] || |b| < l.maxKeys)
    ensures Legal(l, b, Burst(key, now, n)) && Admitted(l, b, Burst(key, now, n), key) == n
  {
    BurstHead(key, now, n);
    var b' := After(l, b, Call(key, now, None));
    assert b'[key] == Bucket(l.capacity - 1.0, now);
    BurstIsAdmitted(l, b', key, now, n - 1);
  }

  /** What a full burst at time 0 leaves behind. */
  function Drained(key: string): Buckets {
    map[key := Bucket(0.0, 0.0)]
  }

  lemma FirstBurst(l: Limits, key: string, n: nat)
    requires l.Valid() && l.capacity == n as real
    ensures Legal(l, map[], Burst(key, 0.0, n)) && Admitted(l, map[], Burst(key, 0.0, n), key) == n
    ensures End(l, map[], Burst(key, 0.0, n)) == Drained(key)
  {
    assert Purged(map[], 0.0) == map[];
    FreshBurst(l, map[], key, 0.0, n);
    BurstHead(key, 0.0, n);
    assert After(l, map[], Call(key, 0.0, None)) == map[key := Bucket(l.capacity - 1.0, 0.0)];
    BurstDrains(l, l.capacity - 1.0, key, 0.0, n - 1);
  }

  lemma {:induction false} RunsCompose(l: Limits, b: Buckets, xs: seq<Call>, ys: seq<Call>)
    requires Legal(l, b, xs) && Legal(l, End(l, b, xs), ys)
    ensures Legal(l, b, xs + ys)
    decreases |xs|
  {
    if xs == [] {
      assert xs + ys == ys;
    } else {
      RunsCompose(l, After(l, b, xs[0]), xs[1..], ys);
      PrependIsLegal(l, b, xs, ys);
    }
  }

  lemma PrependIsLegal(l: Limits, b: Buckets, xs: seq<Call>, ys: seq<Call>)
    requires xs != [] && IsVictim(l, Purged(b, xs[0].now), xs[0].key, xs[0].victim)
    requires Legal(l, After(l, b, xs[0]), xs[1..] + ys)
    ensures Legal(l, b, xs + ys)
  {
    assert (xs + ys)[0] == xs[0] && (xs + ys)[1..] == xs[1..] + ys;
  }

  lemma {:induction false} CountsCompose(l: Limits, b: Buckets, xs: seq<Call>, ys: seq<Call>, key: string)
    ensures Admitted(l, b, xs + ys, key) == Admitted(l, b, xs, key) + Admitted(l, End(l, b, xs), ys, key)
    decreases |xs|
  {
    if xs == [] {
      assert xs + ys == ys;
    } else {
      assert (xs + ys)[0] == xs[0] && (xs + ys)[1..] == xs[1..] + ys;
      CountsCompose(l, After(l, b, xs[0]), xs[1..], ys, key);
    }
  }

  lemma {:induction false} SkewsCompose(xs: seq<Call>, ys: seq<Call>, high: real, skew: real)
    requires Skewed(xs, high, skew) && Skewed(ys, High(high, xs), skew)
    ensures Skewed(xs + ys, high, skew)
    decreases |xs|
  {
    if xs == [] {
      assert xs + ys == ys;
    } else {
      assert (xs + ys)[0] == xs[0] && (xs + ys)[1..] == xs[1..] + ys;
      SkewsCompose(xs[1..], ys, Max(high, xs[0].now), skew);
    }
  }

  lemma {:induction false} BurstSkew(key: string, now: real, n: nat, high: real, skew: real)
    requires now >= high - skew && skew >= 0.0
    ensures Skewed(Burst(key, now, n), high, skew)
    ensures High(high, Burst(key, now, n)) <= Max(high, now)
    decreases n
  {
    if n > 0 {
      assert Burst(key, now, n)[1..] == Burst(key, now, n - 1);
      BurstSkew(key, now, n - 1, Max(high, now), skew);
    }
  }

  /** A pause just over the TTL, and a reading late in it, by which the bucket has not refilled. */
  lemma GapWithin(l: Limits, skew: real) returns (gap: real, late: real)
    requires l.Valid() && skew >= 0.0 && !l.RefillsWithin(skew)
    ensures gap > IDLE_TTL && gap - skew <= late <= gap && 0.0 <= late && l.refill * late < l.capacity
  {
    var longest := l.capacity / l.refill;
    assert l.refill * longest == l.capacity;
    CancelFactor(IDLE_TTL - skew, longest, l.refill);
    gap := (longest + IDLE_TTL + skew) / 2.0;
    CancelFactor(0.0, longest, l.refill);
    late := Max(gap - skew, 0.0);
    StrictlyScales(l.refill, late, longest);
  }

  lemma CancelFactor(a: real, b: real, r: real)
    requires r > 0.0 && r * a < r * b
    ensures a < b
  {
  }

  lemma StrictlyScales(r: real, a: real, b: real)
    requires r > 0.0 && a < b
    ensures r * a < r * b
  {
  }

  /** A call for another key that forgets `key`, and then a burst for it with readings behind by the skew. */
  function LateBurst(key: string, gap: real, late: real, n: nat): seq<Call> {
    [Call(key + "x", gap, None)] + Burst(key, late, n)
  }

  /** The state in which the late burst arrives. */
  lemma OtherForgets(l: Limits, key: string, gap: real) returns (b: Buckets, kept: Buckets)
    requires l.Valid() && gap > IDLE_TTL
    ensures var first := Call(key + "x", gap, None);
            && first.key != key && IsVictim(l, Purged(Drained(key), gap), first.key, None)
            && b == After(l, Drained(key), first) && kept == AfterKeeping(l, Drained(key), first)
    ensures key !in b && |b| == 1 && forall k :: k in b ==> b[k].last == gap
    ensures key in kept && kept[key] == Bucket(0.0, 0.0)
  {
    var first := Call(key + "x", gap, None);
    assert |first.key| == |key| + 1;
    assert Purged(Drained(key), gap) == map[];
    b, kept := After(l, Drained(key), first), AfterKeeping(l, Drained(key), first);
    assert b == map[first.key := Bucket(l.capacity - 1.0, gap)];
  }

  lemma LateBurstShape(key: string, gap: real, late: real, skew: real, n: nat)
    requires gap > 0.0 && skew >= 0.0 && gap - skew <= late <= gap && 0.0 <= late
    ensures var calls := LateBurst(key, gap, late, n);
            Skewed(calls, 0.0, skew) && NeverVictim(calls, key) && InWindow(calls, key, 0.0, late)
  {
    BurstShape(key, late, n);
    BurstSkew(key, late, n, gap, skew);
    OneMore(Call(key + "x", gap, None), Burst(key, late, n), key, skew, late);
  }

  lemma OneMore(first: Call, rest: seq<Call>, key: string, skew: real, late: real)
    requires first.now > 0.0 && skew >= 0.0 && first.victim.None? && Skewed(rest, first.now, skew) && NeverVictim(rest, key)
    requires first.key == key + "x" && InWindow(rest, key, 0.0, late)
    ensures Skewed([first] + rest, 0.0, skew) && NeverVictim([first] + rest, key) && InWindow([first] + rest, key, 0.0, late)
  {
    assert |first.key| == |key| + 1;
    assert ([first] + rest)[1..] == rest;
  }

  lemma LateBurstIsAdmitted(l: Limits, n: nat, key: string, gap: real, late: real)
    requires l.Valid() && l.maxKeys >= 2 && l.capacity == n as real && gap > IDLE_TTL && late <= gap
    ensures Legal(l, Drained(key), LateBurst(key, gap, late, n))
    ensures Admitted(l, Drained(key), LateBurst(key, gap, late, n), key) == n
  {
    var b, _ := OtherForgets(l, key, gap);
    assert Purged(b, late) == b;
    FreshBurst(l, b, key, late, n);
    assert LateBurst(key, gap, late, n)[1..] == Burst(key, late, n);
  }

  /**
    The bound fails for every capacity, rate and skew that miss its condition: two bursts are both admitted in full, the
    second after the key was forgotten, although by its clock readings the bucket cannot have refilled in between.
   */
  lemma WindowBoundFails(l: Limits, n: nat, key: string, skew: real) returns (calls: seq<Call>, to: real)
    requires l.Valid() && l.maxKeys >= 2 && l.capacity == n as real && skew >= 0.0 && !l.RefillsWithin(skew)
    ensures Legal(l, map[], calls) && NeverVictim(calls, key) && Skewed(calls, 0.0, skew) && InWindow(calls, key, 0.0, to)
    ensures Admitted(l, map[], calls, key) as real > l.capacity + Gain(l, 0.0, to)
  {
    var gap;
    gap, to := GapWithin(l, skew);
    var xs, ys := Burst(key, 0.0, n), LateBurst(key, gap, to, n);
    calls := xs + ys;
    FirstBurst(l, key, n);
    LateBurstIsAdmitted(l, n, key, gap, to);
    RunsCompose(l, map[], xs, ys);
    CountsCompose(l, map[], xs, ys, key);
    BurstShape(key, 0.0, n);
    BurstSkew(key, 0.0, n, 0.0, skew);
    LateBurstShape(key, gap, to, skew, n);
    JoinShapes(xs, ys, key, skew, to);
    GapGain(l, to);
  }

  lemma JoinShapes(xs: seq<Call>, ys: seq<Call>, key: string, skew: real, to: real)
    requires NeverVictim(xs, key) && NeverVictim(ys, key) && InWindow(xs, key, 0.0, to) && InWindow(ys, key, 0.0, to)
    requires Skewed(xs, 0.0, skew) && High(0.0, xs) <= 0.0 && Skewed(ys, 0.0, skew)
    ensures NeverVictim(xs + ys, key) && InWindow(xs + ys, key, 0.0, to) && Skewed(xs + ys, 0.0, skew)
  {
    HighRises(0.0, xs);
    SkewsCompose(xs, ys, 0.0, skew);
  }

  lemma {:induction false} HighRises(high: real, calls: seq<Call>)
    ensures high <= High(high, calls)
    decreases |calls|
  {
    if calls != [] {
      HighRises(Max(high, calls[0].now), calls[1..]);
    }
  }

  lemma GapGain(l: Limits, gap: real)
    requires l.Valid() && gap >= 0.0 && l.refill * gap < l.capacity
    ensures Gain(l, 0.0, gap) < l.capacity
  {
    TickDiffers(l, 0.0, gap);
  }

  // ---- forgetting is invisible ----

  /** A limiter that never purges and never evicts. */
  function AfterKeeping(l: Limits, b: Buckets, call: Call): Buckets {
    Charged(l, b, call.key, call.now)
  }

  /** The decisions on one key's calls. */
  function Decisions(l: Limits, b: Buckets, calls: seq<Call>, key: string): seq<bool>
    decreases |calls|
  {
    if calls == [] then []
    else (if calls[0].key == key then [Allowed(l, b, calls[0])] else []) + Decisions(l, After(l, b, calls[0]), calls[1..], key)
  }

  function DecisionsKeeping(l: Limits, b: Buckets, calls: seq<Call>, key: string): seq<bool>
    decreases |calls|
  {
    if calls == [] then []
    else (if calls[0].key == key then [Admits(l, b, key, calls[0].now)] else [])
         + DecisionsKeeping(l, AfterKeeping(l, b, calls[0]), calls[1..], key)
  }

  /** `kept` has the key's bucket as `b` has it, or `b` has dropped it after it was idle for longer than the TTL. */
  predicate Remembers(b: Buckets, kept: Buckets, key: string, high: real) {
    if key in b then key in kept && kept[key] == b[key]
    else key in kept ==> high - kept[key].last > IDLE_TTL
  }

  lemma RemembersStep(l: Limits, b: Buckets, kept: Buckets, key: string, high: real, call: Call, skew: real)
    requires l.Valid() && l.RefillsWithin(skew) && 0.0 <= skew && Sane(l, kept, high) && Remembers(b, kept, key, high)
    requires call.now >= high - skew && call.victim != Some(key)
    ensures call.key == key ==> Allowed(l, b, call) == Admits(l, kept, key, call.now)
    ensures Remembers(After(l, b, call), AfterKeeping(l, kept, call), key, Max(high, call.now))
    ensures Sane(l, AfterKeeping(l, kept, call), Max(high, call.now))
  {
    if call.key in kept {
      RefillFacts(l, kept[call.key], call.now);
    }
    if call.key == key && key in kept && key !in Ready(b, call) {
      IdleRefills(l, kept[key], call.now, skew);
    }
  }

  /**
    For a key that is never evicted, whatever happens to others, the limiter decides every call exactly as one that
    never forgets, provided an idle key refills within the TTL less the skew of the clock readings.
   */
  lemma {:induction false} ForgettingIsInvisible(l: Limits, b: Buckets, kept: Buckets, high: real, calls: seq<Call>, key: string, skew: real)
    requires l.Valid() && l.RefillsWithin(skew) && 0.0 <= skew && Sane(l, kept, high) && Remembers(b, kept, key, high)
    requires Skewed(calls, high, skew) && NeverVictim(calls, key)
    ensures Decisions(l, b, calls, key) == DecisionsKeeping(l, kept, calls, key)
    decreases |calls|
  {
    if calls != [] {
      RemembersStep(l, b, kept, key, high, calls[0], skew);
      assert forall i :: 0 <= i < |calls[1..]| ==> calls[1..][i] == calls[i + 1];
      ForgettingIsInvisible(l, After(l, b, calls[0]), AfterKeeping(l, kept, calls[0]), Max(high, calls[0].now), calls[1..], key, skew);
    }
  }

  /** Decision lists differ if their first decisions do, or the lists after them. */
  lemma HeadsDecide(l: Limits, b: Buckets, kept: Buckets, calls: seq<Call>, key: string)
    requires calls != [] && calls[0].key == key
    requires || Allowed(l, b, calls[0]) != Admits(l, kept, key, calls[0].now)
             || Decisions(l, After(l, b, calls[0]), calls[1..], key)
                != DecisionsKeeping(l, AfterKeeping(l, kept, calls[0]), calls[1..], key)
    ensures Decisions(l, b, calls, key) != DecisionsKeeping(l, kept, calls, key)
  {
    var ds, ks := Decisions(l, b, calls, key), DecisionsKeeping(l, kept, calls, key);
    assert ds[0] == Allowed(l, b, calls[0]) && ds[1..] == Decisions(l, After(l, b, calls[0]), calls[1..], key);
    assert ks[0] == Admits(l, kept, key, calls[0].now);
    assert ks[1..] == DecisionsKeeping(l, AfterKeeping(l, kept, calls[0]), calls[1..], key);
  }

  lemma {:induction false} BurstDiffers(l: Limits, b: Buckets, kept: Buckets, key: string, now: real, n: nat)
    requires l.Valid() && key in b && key in kept && b[key].last == now && kept[key].last >= now
    requires 0.0 <= kept[key].tokens < n as real <= b[key].tokens
    ensures Decisions(l, b, Burst(key, now, n), key) != DecisionsKeeping(l, kept, Burst(key, now, n), key)
    decreases n
  {
    var call, rest := Call(key, now, None), Burst(key, now, n - 1);
    assert Burst(key, now, n)[0] == call && Burst(key, now, n)[1..] == rest;
    assert key in Ready(b, call) && Ready(b, call)[key] == b[key];
    var b', kept' := After(l, b, call), AfterKeeping(l, kept, call);
    if n > 1 && kept[key].tokens >= 1.0 {
      BurstDiffers(l, b', kept', key, now, n - 1);
    }
    HeadsDecide(l, b, kept, Burst(key, now, n), key);
  }

  /**
    The proviso is needed here too: for every capacity, rate and skew that miss it, a run that is decided differently by a
    limiter that never forgets, from the state that a full burst leaves behind.
   */
  lemma ForgettingShows(l: Limits, n: nat, key: string, skew: real) returns (calls: seq<Call>)
    requires l.Valid() && l.maxKeys >= 2 && l.capacity == n as real && skew >= 0.0 && !l.RefillsWithin(skew)
    ensures End(l, map[], Burst(key, 0.0, n)) == Drained(key)
    ensures Legal(l, Drained(key), calls) && NeverVictim(calls, key) && Skewed(calls, 0.0, skew)
    ensures Decisions(l, Drained(key), calls, key) != DecisionsKeeping(l, Drained(key), calls, key)
  {
    var gap, late := GapWithin(l, skew);
    calls := LateBurst(key, gap, late, n);
    FirstBurst(l, key, n);
    LateBurstShape(key, gap, late, skew, n);
    LateBurstIsAdmitted(l, n, key, gap, late);
    LateLevel(l, late);
    var b, kept := OtherForgets(l, key, gap);
    LateBurstDiffers(l, b, kept, key, late, n);
    OtherHead(l, Drained(key), Drained(key), Call(key + "x", gap, None), Burst(key, late, n), key);
  }

  /** A call for another key adds no decision. */
  lemma OtherHead(l: Limits, b: Buckets, kept: Buckets, call: Call, rest: seq<Call>, key: string)
    requires call.key != key
    ensures Decisions(l, b, [call] + rest, key) == Decisions(l, After(l, b, call), rest, key)
    ensures DecisionsKeeping(l, kept, [call] + rest, key) == DecisionsKeeping(l, AfterKeeping(l, kept, call), rest, key)
  {
    assert ([call] + rest)[1..] == rest;
  }

  /** An empty bucket does not refill in a time that is too short for it. */
  lemma LateLevel(l: Limits, now: real)
    requires l.Valid() && l.refill * now < l.capacity
    ensures var y := Refilled(l, Bucket(0.0, 0.0), now); 0.0 <= y.tokens < l.capacity && now <= y.last
  {
    RefillFacts(l, Bucket(0.0, 0.0), now);
    if now > 0.0 {
      assert (now - 0.0) * l.refill == l.refill * now;
    }
  }

  /** The first call of the burst gets a fresh bucket, and a refilled one from the limiter that never forgets. */
  lemma LateFirst(l: Limits, b: Buckets, kept: Buckets, key: string, now: real)
    requires l.Valid() && l.maxKeys >= 2 && key !in b && |b| == 1 && (forall k :: k in b ==> b[k].last >= now)
    requires key in kept && 0.0 <= Refilled(l, kept[key], now).tokens && now <= Refilled(l, kept[key], now).last
    ensures var call, y := Call(key, now, None), Refilled(l, kept[key], now);
            var b', kept' := After(l, b, call), AfterKeeping(l, kept, call);
            && IsVictim(l, Purged(b, now), key, None) && Allowed(l, b, call) && (Admits(l, kept, key, now) <==> y.tokens >= 1.0)
            && key in b' && b'[key] == Bucket(l.capacity - 1.0, now)
            && key in kept' && kept'[key].last >= now && kept'[key].tokens == if y.tokens < 1.0 then y.tokens else y.tokens - 1.0
  {
    assert Purged(b, now) == b;
  }

  lemma LateBurstDiffers(l: Limits, b: Buckets, kept: Buckets, key: string, now: real, n: nat)
    requires l.Valid() && l.maxKeys >= 2 && l.capacity == n as real
    requires key !in b && |b| == 1 && (forall k :: k in b ==> b[k].last >= now)
    requires key in kept && 0.0 <= Refilled(l, kept[key], now).tokens < l.capacity && now <= Refilled(l, kept[key], now).last
    ensures Decisions(l, b, Burst(key, now, n), key) != DecisionsKeeping(l, kept, Burst(key, now, n), key)
  {
    LateFirst(l, b, kept, key, now);
    var call := Call(key, now, None);
    FirstOfBurst(l, b, kept, After(l, b, call), AfterKeeping(l, kept, call), key, now, n, Refilled(l, kept[key], now).tokens);
  }

  lemma FirstOfBurst(l: Limits, b: Buckets, kept: Buckets, b': Buckets, kept': Buckets, key: string, now: real, n: nat, left: real)
    requires l.Valid() && l.capacity == n as real && 0.0 <= left < n as real
    requires var call := Call(key, now, None);
             && b' == After(l, b, call) && kept' == AfterKeeping(l, kept, call)
             && Allowed(l, b, call) && (Admits(l, kept, key, now) <==> left >= 1.0)
    requires key in b' && b'[key] == Bucket(n as real - 1.0, now)
    requires key in kept' && kept'[key].last >= now && kept'[key].tokens == if left < 1.0 then left else left - 1.0
    ensures Decisions(l, b, Burst(key, now, n), key) != DecisionsKeeping(l, kept, Burst(key, now, n), key)
  {
    var call, rest, all := Call(key, now, None), Burst(key, now, n - 1), Burst(key, now, n);
    assert all[0] == call && all[1..] == rest;
    if Admits(l, kept, key, now) {
      BurstDiffers(l, b', kept', key, now, n - 1);
    }
    HeadsDecide(l, b, kept, all, key);
  }

  // ---- the number of buckets ----

  lemma PurgeShrinks(b: Buckets, now: real)
    ensures |Purged(b, now)| <= |b|
  {
    SubmapSize(Purged(b, now), b);
  }

  lemma SubmapSize(a: Buckets, b: Buckets)
    requires a.Keys <= b.Keys
    ensures |a| <= |b|
  {
    assert |b.Keys| == |a.Keys| + |b.Keys - a.Keys| by {
      assert b.Keys == a.Keys + (b.Keys - a.Keys);
    }
  }

  /** The empty key has a bucket, and no other bucket was used before it. */
  predicate EmptyIsOldest(b: Buckets) {
    "" in b && forall k :: k in b ==> b[""].last <= b[k].last
  }

  /**
    A call can exceed the limit exactly when its key is new, the limiter is full of buckets that are not idle, and
    the empty key is among the least recently used ones.
   */
  lemma SizeCanBeExceeded(l: Limits, b: Buckets, key: string, now: real)
    requires l.Valid() && |b| <= l.maxKeys
    ensures var p := Purged(b, now);
            (exists victim :: IsVictim(l, p, key, victim) && |After(l, b, Call(key, now, victim))| > l.maxKeys)
            <==> key !in p && |p| == l.maxKeys && EmptyIsOldest(p)
  {
    var p := Purged(b, now);
    PurgeShrinks(b, now);
    if victim :| IsVictim(l, p, key, victim) && |After(l, b, Call(key, now, victim))| > l.maxKeys {
      SizeStep(l, b, Call(key, now, victim));
    }
    if key !in p && |p| == l.maxKeys && EmptyIsOldest(p) {
      assert IsVictim(l, p, key, Some(""));
      SizeStep(l, b, Call(key, now, Some("")));
    }
  }

  /** One call exceeds the limit exactly when it evicts the empty key, which stays. */
  lemma SizeStep(l: Limits, b: Buckets, call: Call)
    requires l.Valid() && |b| <= l.maxKeys && IsVictim(l, Purged(b, call.now), call.key, call.victim)
    ensures |After(l, b, call)| <= l.maxKeys <==> call.victim != Some("")
    ensures |After(l, b, call)| <= l.maxKeys + 1
  {
    var p := Purged(b, call.now);
    var r := Ready(b, call);
    PurgeShrinks(b, call.now);
    assert After(l, b, call).Keys == r.Keys + {call.key};
    if call.victim.Some? && call.victim.value != "" {
      assert r.Keys == p.Keys - {call.victim.value};
    }
  }

  lemma {:induction false} SizeRun(l: Limits, b: Buckets, calls: seq<Call>)
    requires l.Valid() && |b| <= l.maxKeys && "" !in b && Legal(l, b, calls)
    requires forall i :: 0 <= i < |calls| ==> calls[i].key != ""
    ensures |End(l, b, calls)| <= l.maxKeys
    decreases |calls|
  {
    if calls != [] {
      SizeStep(l, b, calls[0]);
      assert forall i :: 0 <= i < |calls[1..]| ==> calls[1..][i] == calls[i + 1];
      SizeRun(l, After(l, b, calls[0]), calls[1..]);
    }
  }
}
