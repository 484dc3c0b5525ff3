/**
  The three-level rate limiter (cli/gateway/rate_limiter.go): token buckets over the reals, created on
  first use and dropped by Cleanup when idle.  Instants and durations are in seconds.
 */
module RateLimiter {
  import opened Text

  datatype Bucket = Bucket(tokens: real, maxTokens: real, refillRate: real, lastRefill: real)

  function NewBucket(maxTokens: real, refillRate: real, now: real): Bucket {
    Bucket(maxTokens, maxTokens, refillRate, now)
  }

  /** What flows in from one instant to another. */
  function Flow(from: real, to: real, rate: real): real { (to - from) * rate }

  /** Tokens at `now`. */
  function Refilled(b: Bucket, now: real): real {
    var t := b.tokens + Flow(b.lastRefill, now, b.refillRate);
    if t > b.maxTokens then b.maxTokens else t
  }

  datatype Taken = Taken(bucket: Bucket, ok: bool)

  /** Allow */
  function Take(b: Bucket, now: real): Taken {
    var t := Refilled(b, now);
    if t < 1.0 then Taken(b.(tokens := t, lastRefill := now), false)
    else Taken(b.(tokens := t - 1.0, lastRefill := now), true)
  }

  class TokenBucket {
    var tokens: real
    const maxTokens: real
    const refillRate: real
    var lastRefill: real

    constructor (maxTokens: real, refillPerSecond: real, now: real)
      ensures State() == NewBucket(maxTokens, refillPerSecond, now)
    {
      this.tokens, this.maxTokens, this.refillRate, this.lastRefill := maxTokens, maxTokens, refillPerSecond, now;
    }

    function State(): Bucket
      reads this
    {
      Bucket(tokens, maxTokens, refillRate, lastRefill)
    }

    method Allow(now: real) returns (ok: bool)
      modifies this
      ensures Taken(State(), ok) == Take(old(State()), now)
    {
      var elapsed := now - lastRefill;
      assert elapsed * refillRate == Flow(lastRefill, now, refillRate);
      tokens := tokens + elapsed * refillRate;
      if tokens > maxTokens {
        tokens := maxTokens;
      }
      lastRefill := now;
      if tokens < 1.0 {
        return false;
      }
      tokens := tokens - 1.0;
      ok := true;
    }
  }

  // ----- one bucket: grants in a window -----

  predicate BucketOk(b: Bucket) { 0.0 <= b.tokens <= b.maxTokens && 0.0 <= b.refillRate }

  predicate Ordered(times: seq<real>) { forall i, j :: 0 <= i < j < |times| ==> times[i] <= times[j] }

  function AfterCalls(b: Bucket, times: seq<real>): Bucket
    decreases |times|
  {
    if times == [] then b else AfterCalls(Take(b, times[0]).bucket, times[1..])
  }

  function Grants(b: Bucket, times: seq<real>): nat
    decreases |times|
  {
    if times == [] then 0
    else (if Take(b, times[0]).ok then 1 else 0) + Grants(Take(b, times[0]).bucket, times[1..])
  }

  lemma ProductIsNatural(a: real, b: real)
    requires 0.0 <= a && 0.0 <= b
    ensures 0.0 <= a * b
  {
  }

  lemma Scale(a: real, b: real, r: real)
    requires a <= b && 0.0 <= r
    ensures a * r <= b * r
  {
    ProductIsNatural(b - a, r);
    assert (b - a) * r == b * r - a * r;
  }

  lemma FlowIsNatural(from: real, to: real, r: real)
    requires from <= to && 0.0 <= r
    ensures 0.0 <= Flow(from, to, r)
  {
    ProductIsNatural(to - from, r);
  }

  lemma NoTimeNoFlow(t: real, r: real)
    ensures Flow(t, t, r) == 0.0
  {
  }

  lemma Chasles(a: real, b: real, c: real, r: real)
    ensures Flow(a, c, r) == Flow(a, b, r) + Flow(b, c, r)
  {
  }

  lemma FlowWithin(from: real, to: real, r: real, w: real)
    requires to - from <= w && 0.0 <= r
    ensures Flow(from, to, r) <= w * r
  {
    Scale(to - from, w, r);
  }

  lemma RefillGrows(b: Bucket, t: real, t': real)
    requires BucketOk(b) && t <= t'
    ensures Refilled(b, t) <= Refilled(b, t') <= Refilled(b, t) + Flow(t, t', b.refillRate)
  {
    Chasles(b.lastRefill, t, t', b.refillRate);
    FlowIsNatural(t, t', b.refillRate);
  }

  lemma TakeKeepsOk(b: Bucket, now: real)
    requires BucketOk(b) && b.lastRefill <= now
    ensures BucketOk(Take(b, now).bucket)
    ensures Refilled(Take(b, now).bucket, now) == Refilled(b, now) - (if Take(b, now).ok then 1.0 else 0.0)
  {
    FlowIsNatural(b.lastRefill, now, b.refillRate);
    NoTimeNoFlow(now, b.refillRate);
  }

  /** g grants from t0 to t: no more than the bucket held at t0 and what flowed in since. */
  predicate Covered(b: Bucket, t0: real, t: real, g: nat) {
    g as real <= Refilled(b, t0) + Flow(t0, t, b.refillRate)
  }

  lemma OrderedTail(times: seq<real>)
    requires Ordered(times) && |times| > 1
    ensures Ordered(times[1..]) && times[0] <= times[1] && times[1..][|times[1..]| - 1] == times[|times| - 1]
  {
  }

  lemma OneGrant(b: Bucket, t0: real)
    requires BucketOk(b) && b.lastRefill <= t0
    ensures Covered(b, t0, t0, if Take(b, t0).ok then 1 else 0)
  {
    TakeKeepsOk(b, t0);
    NoTimeNoFlow(t0, b.refillRate);
    if Take(b, t0).ok {
      assert Refilled(b, t0) >= 1.0;
    } else {
      assert Refilled(b, t0) == Take(b, t0).bucket.tokens;
    }
  }

  /** A run of calls is granted at most what the bucket holds at its start plus what flows in until its end. */
  lemma {:induction false} GrantsAreBounded(b: Bucket, times: seq<real>)
    requires BucketOk(b) && times != [] && b.lastRefill <= times[0] && Ordered(times)
    ensures Covered(b, times[0], times[|times| - 1], Grants(b, times))
    decreases |times|
  {
    var b', rest := Take(b, times[0]).bucket, times[1..];
    TakeKeepsOk(b, times[0]);
    if rest == [] {
      OneGrant(b, times[0]);
      assert Grants(b', rest) == 0;
    } else {
      OrderedTail(times);
      GrantsAreBounded(b', rest);
      FirstThenRest(b, times[0], rest[0], times[|times| - 1], Grants(b', rest));
    }
  }

  lemma FirstThenRest(b: Bucket, t0: real, t1: real, t: real, rest: nat)
    requires BucketOk(b) && b.lastRefill <= t0 <= t1 && Covered(Take(b, t0).bucket, t1, t, rest)
    ensures Covered(b, t0, t, (if Take(b, t0).ok then 1 else 0) + rest)
  {
    var b' := Take(b, t0).bucket;
    TakeKeepsOk(b, t0);
    RefillGrows(b', t0, t1);
    Chasles(t0, t1, t, b.refillRate);
  }

  lemma {:induction false} AfterCallsOk(b: Bucket, times: seq<real>)
    requires BucketOk(b) && Ordered(times) && forall t :: t in times ==> b.lastRefill <= t
    ensures BucketOk(AfterCalls(b, times))
    ensures AfterCalls(b, times).maxTokens == b.maxTokens && AfterCalls(b, times).refillRate == b.refillRate
    ensures AfterCalls(b, times).lastRefill == if times == [] then b.lastRefill else times[|times| - 1]
    decreases |times|
  {
    if times != [] {
      assert times[0] in times;
      TakeKeepsOk(b, times[0]);
      AfterCallsOk(Take(b, times[0]).bucket, times[1..]);
    }
  }

  /** Calls that all fall within w seconds get at most maxTokens + w * refillRate grants. */
  lemma GrantsWithin(b: Bucket, times: seq<real>, w: real)
    requires BucketOk(b) && times != [] && b.lastRefill <= times[0] && Ordered(times)
    requires times[|times| - 1] - times[0] <= w
    ensures Grants(b, times) as real <= b.maxTokens + w * b.refillRate
  {
    GrantsAreBounded(b, times);
    CoveredWithin(b, times[0], times[|times| - 1], Grants(b, times), w);
  }

  lemma CoveredWithin(b: Bucket, t0: real, t: real, g: nat, w: real)
    requires BucketOk(b) && Covered(b, t0, t, g) && t - t0 <= w
    ensures g as real <= b.maxTokens + w * b.refillRate
  {
    FlowWithin(t0, t, b.refillRate, w);
    assert Refilled(b, t0) <= b.maxTokens;
  }

  lemma WindowIsOrdered(times: seq<real>, i: nat, j: nat)
    requires Ordered(times) && i < j <= |times|
    ensures var window := times[i..j];
            Ordered(window) && window != [] && window[0] == times[i] && window[|window| - 1] == times[j - 1]
  {
  }

  lemma StateBefore(b: Bucket, times: seq<real>, i: nat)
    requires BucketOk(b) && Ordered(times) && i < |times| && b.lastRefill <= times[0]
    ensures var s := AfterCalls(b, times[..i]);
            BucketOk(s) && s.maxTokens == b.maxTokens && s.refillRate == b.refillRate && s.lastRefill <= times[i]
  {
    forall t | t in times[..i] ensures b.lastRefill <= t {
      var k :| 0 <= k < i && times[k] == t;
      assert times[0] <= times[k];
    }
    AfterCallsOk(b, times[..i]);
  }

  /** The window bound: in any run, the calls i to j, all within w seconds, get at most maxTokens + w * refillRate grants. */
  lemma WindowBound(b: Bucket, times: seq<real>, i: nat, j: nat, w: real)
    requires BucketOk(b) && Ordered(times) && i < j <= |times| && b.lastRefill <= times[0]
    requires times[j - 1] - times[i] <= w
    ensures Grants(AfterCalls(b, times[..i]), times[i..j]) as real <= b.maxTokens + w * b.refillRate
  {
    hide Grants, AfterCalls;
    WindowIsOrdered(times, i, j);
    StateBefore(b, times, i);
    GrantsWithin(AfterCalls(b, times[..i]), times[i..j], w);
  }

  // ----- the limiter: a bucket per key, three levels per call -----

  type Buckets = map<string, Bucket>

  datatype Call = Call(platform: string, platformLimit: int, tenantID: string, tenantLimit: int,
                       sessionKey: string, sessionLimit: int)

  /** A level that applies to a call: the bucket's key and the limit per minute. */
  datatype Level = Level(key: string, limit: int)

  function PlatformKey(c: Call): string { "platform:" + c.platform }

  function TenantKey(c: Call): string { "tenant:" + c.tenantID + ":" + c.platform }

  function SessionKey(c: Call): string { "session:" + c.sessionKey }

  /** The levels of a call, in the order they are asked. */
  function Levels(c: Call): (levels: seq<Level>)
    ensures forall l :: l in levels ==> l.limit > 0
  {
    (if c.platformLimit > 0 then [Level(PlatformKey(c), c.platformLimit)] else []) +
    (if c.tenantLimit > 0 && c.tenantID != "" then [Level(TenantKey(c), c.tenantLimit)] else []) +
    (if c.sessionLimit > 0 && c.sessionKey != "" then [Level(SessionKey(c), c.sessionLimit)] else [])
  }

  function BucketFor(limit: int, now: real): Bucket { NewBucket(limit as real, limit as real / 60.0, now) }

  function Ensure(m: Buckets, l: Level, now: real): (r: Buckets)
    ensures l.key in r
  {
    if l.key in m then m else m[l.key := BucketFor(l.limit, now)]
  }

  datatype Asked = Asked(buckets: Buckets, ok: bool)

  /** ensureBucket followed by Allow. */
  function Ask(m: Buckets, l: Level, now: real): Asked {
    var m' := Ensure(m, l, now);
    var t := Take(m'[l.key], now);
    Asked(m'[l.key := t.bucket], t.ok)
  }

  /** AllowThreeLevel: ask one level after the other, stop at the first refusal. */
  function AskAll(m: Buckets, levels: seq<Level>, now: real): Asked
    decreases |levels|
  {
    if levels == [] then Asked(m, true) else
      var a := Ask(m, levels[0], now);
      if !a.ok then a else AskAll(a.buckets, levels[1..], now)
  }

  function Idle(b: Bucket, maxAge: real, now: real): bool { now - b.lastRefill > maxAge }

  function Cleaned(m: Buckets, maxAge: real, now: real): Buckets {
    map k | k in m && !Idle(m[k], maxAge, now) :: m[k]
  }

  class Limiter {
    var buckets: Buckets

    constructor ()
      ensures buckets == map[]
    {
      buckets := map[];
    }

    method EnsureBucket(key: string, limit: int, now: real)
      modifies this
      ensures buckets == Ensure(old(buckets), Level(key, limit), now)
    {
      if key !in buckets {
        buckets := buckets[key := NewBucket(limit as real, limit as real / 60.0, now)];
      }
    }

    /**
      None is the code's nil dereference: a missing key gets a bucket of 60 tokens and one per second, but the
      variable that is used next is still nil.  The three levels ensure their bucket first.
     */
    method Allow(key: string, now: real) returns (ok: Option<bool>)
      modifies this
      ensures ok.None? <==> key !in old(buckets)
      ensures ok.None? ==> buckets == old(buckets)[key := NewBucket(60.0, 1.0, now)]
      ensures ok.Some? ==> ok.value == Take(old(buckets)[key], now).ok
      ensures ok.Some? ==> buckets == old(buckets)[key := Take(old(buckets)[key], now).bucket]
    {
      if key !in buckets {
        buckets := buckets[key := NewBucket(60.0, 1.0, now)];
        return None;
      }
      var t := Take(buckets[key], now);
      buckets := buckets[key := t.bucket];
      ok := Some(t.ok);
    }

    /** ensureBucket and then Allow. */
    method AskLevel(l: Level, now: real) returns (ok: bool)
      modifies this
      ensures Asked(buckets, ok) == Ask(old(buckets), l, now)
    {
      EnsureBucket(l.key, l.limit, now);
      var allowed := Allow(l.key, now);
      ok := allowed.value;
    }

    method AllowThreeLevel(c: Call, now: real) returns (ok: bool)
      modifies this
      ensures Asked(buckets, ok) == AskAll(old(buckets), Levels(c), now)
    {
      ghost var m, levels := buckets, Levels(c);
      ghost var rest := levels;
      if c.platformLimit > 0 {
        ok := AskLevel(Level(PlatformKey(c), c.platformLimit), now);
        if !ok {
          return;
        }
        rest := rest[1..];
      }
      assert AskAll(m, levels, now) == AskAll(buckets, rest, now);
      if c.tenantLimit > 0 && c.tenantID != "" {
        ok := AskLevel(Level(TenantKey(c), c.tenantLimit), now);
        if !ok {
          return;
        }
        rest := rest[1..];
      }
      assert AskAll(m, levels, now) == AskAll(buckets, rest, now);
      if c.sessionLimit > 0 && c.sessionKey != "" {
        ok := AskLevel(Level(SessionKey(c), c.sessionLimit), now);
        if !ok {
          return;
        }
        rest := rest[1..];
      }
      assert rest == [] && AskAll(m, levels, now) == AskAll(buckets, rest, now);
      ok := true;
    }

    method Cleanup(maxAge: real, now: real)
      modifies this
      ensures buckets == Cleaned(old(buckets), maxAge, now)
      ensures forall k :: k in buckets <==> k in old(buckets) && now - old(buckets)[k].lastRefill <= maxAge
    {
      var keys := buckets.Keys;
      while keys != {}
        invariant keys <= old(buckets).Keys
        invariant buckets == map k | k in old(buckets) && (k in keys || !Idle(old(buckets)[k], maxAge, now)) :: old(buckets)[k]
        decreases |keys|
      {
        var k :| k in keys;
        if Idle(buckets[k], maxAge, now) {
          buckets := buckets - {k};
        }
        keys := keys - {k};
      }
    }
  }

  /** The levels of a call never share a bucket. */
  lemma LevelsAreApart(c: Call, i: nat, j: nat)
    requires i < j < |Levels(c)|
    ensures Levels(c)[i].key != Levels(c)[j].key
  {
    assert PlatformKey(c)[0] == 'p' && TenantKey(c)[0] == 't' && SessionKey(c)[0] == 's';
  }

  // ----- the bounds of all levels hold together -----

  type Limits = string -> int

  /** Every call states the same limit for the same key. */
  predicate Agree(levels: seq<Level>, limit: Limits) {
    forall l :: l in levels ==> l.limit == limit(l.key) && l.limit > 0
  }

  predicate Fits(b: Bucket, limit: int) {
    BucketOk(b) && limit > 0 && b.maxTokens == limit as real && b.refillRate == limit as real / 60.0
  }

  predicate StateOk(m: Buckets, limit: Limits, now: real) {
    forall k :: k in m ==> Fits(m[k], limit(k)) && m[k].lastRefill <= now
  }

  /** What the bucket of k could grant at `now`; a missing bucket starts full. */
  function Stock(m: Buckets, limit: Limits, k: string, now: real): real {
    if k in m then Refilled(m[k], now) else limit(k) as real
  }

  predicate Names(levels: seq<Level>, k: string) { exists l :: l in levels && l.key == k }

  lemma NewBucketIsFull(limit: int, now: real)
    requires limit > 0
    ensures Fits(BucketFor(limit, now), limit) && Refilled(BucketFor(limit, now), now) == limit as real
  {
    NoTimeNoFlow(now, limit as real / 60.0);
  }

  lemma AskCosts(m: Buckets, l: Level, limit: Limits, k: string, now: real)
    requires StateOk(m, limit, now) && l.limit == limit(l.key) && l.limit > 0
    ensures StateOk(Ask(m, l, now).buckets, limit, now)
    ensures Stock(Ask(m, l, now).buckets, limit, k, now) ==
              Stock(m, limit, k, now) - (if Ask(m, l, now).ok && l.key == k then 1.0 else 0.0)
  {
    NewBucketIsFull(l.limit, now);
    TakeKeepsOk(Ensure(m, l, now)[l.key], now);
  }

  /** A granted call takes a token from each of its levels; a refused one gives none back. */
  lemma {:induction false} AskAllCosts(m: Buckets, levels: seq<Level>, limit: Limits, k: string, now: real)
    requires StateOk(m, limit, now) && Agree(levels, limit)
    ensures var a := AskAll(m, levels, now);
            && StateOk(a.buckets, limit, now)
            && Stock(a.buckets, limit, k, now) <= Stock(m, limit, k, now)
            && (a.ok && Names(levels, k) ==> Stock(a.buckets, limit, k, now) <= Stock(m, limit, k, now) - 1.0)
    decreases |levels|
  {
    if levels != [] {
      assert levels[0] in levels;
      AskCosts(m, levels[0], limit, k, now);
      var a := Ask(m, levels[0], now);
      if a.ok {
        assert Names(levels, k) ==> levels[0].key == k || Names(levels[1..], k);
        AskAllCosts(a.buckets, levels[1..], limit, k, now);
      }
    }
  }

  // ----- which calls are granted -----

  /** Tokens of key k at `now`: a missing bucket starts with the limit, and a minute brings in the limit, which is the most. */
  function TokensAt(m: Buckets, k: string, limit: int, now: real): real {
    var most := limit as real;
    if k !in m then most
    else
      var held := m[k].tokens + (now - m[k].lastRefill) * (most / 60.0);
      if held > most then most else held
  }

  lemma StockIsTokens(m: Buckets, limit: Limits, k: string, now: real)
    requires StateOk(m, limit, now)
    ensures Stock(m, limit, k, now) == TokensAt(m, k, limit(k), now)
  {
  }

  lemma AskedExactly(m: Buckets, l: Level, limit: Limits, now: real)
    requires StateOk(m, limit, now) && l.limit == limit(l.key) && l.limit > 0
    ensures Ask(m, l, now).ok <==> Stock(m, limit, l.key, now) >= 1.0
  {
    NewBucketIsFull(l.limit, now);
  }

  /** A level that applies or not, in front of the others. */
  function Front(applies: bool, l: Level): seq<Level> { if applies then [l] else [] }

  /** What is left after asking it. */
  function AfterFront(m: Buckets, applies: bool, l: Level, now: real): Buckets {
    if applies then Ask(m, l, now).buckets else m
  }

  lemma FrontCosts(m: Buckets, applies: bool, l: Level, rest: seq<Level>, limit: Limits, k: string, now: real)
    requires StateOk(m, limit, now) && Agree(Front(applies, l) + rest, limit)
    ensures var m', pass := AfterFront(m, applies, l, now), !applies || Stock(m, limit, l.key, now) >= 1.0;
            && StateOk(m', limit, now) && Agree(rest, limit)
            && Stock(m', limit, k, now) == Stock(m, limit, k, now) - (if applies && pass && l.key == k then 1.0 else 0.0)
  {
    var levels := Front(applies, l) + rest;
    assert forall x :: x in rest ==> x in levels;
    if applies {
      assert levels[0] == l && l in levels;
      AskedExactly(m, l, limit, now);
      AskCosts(m, l, limit, k, now);
    }
    hide Ask, Stock, StateOk;
  }

  lemma FrontDecides(m: Buckets, applies: bool, l: Level, rest: seq<Level>, limit: Limits, now: real)
    requires StateOk(m, limit, now) && Agree(Front(applies, l) + rest, limit)
    ensures var m', pass := AfterFront(m, applies, l, now), !applies || Stock(m, limit, l.key, now) >= 1.0;
            AskAll(m, Front(applies, l) + rest, now) == if pass then AskAll(m', rest, now) else Asked(m', false)
  {
    var levels := Front(applies, l) + rest;
    if applies {
      assert levels[0] == l && l in levels && levels[1..] == rest;
      AskedExactly(m, l, limit, now);
    } else {
      assert levels == rest;
    }
    hide Ask, Stock, StateOk;
  }

  lemma KeysDiffer(c: Call)
    ensures PlatformKey(c) != TenantKey(c) && PlatformKey(c) != SessionKey(c) && TenantKey(c) != SessionKey(c)
  {
    assert PlatformKey(c)[0] == 'p' && TenantKey(c)[0] == 't' && SessionKey(c)[0] == 's';
  }

  /**
    A call is granted if and only if each of its levels has a token: the platform, the tenant on the platform and the
    session, each if it has a limit and a name.  Each level asked up to the first one without a token loses a token, so
    that a refused call may cost its first levels one.
   */
  lemma GrantedExactly(m: Buckets, c: Call, limit: Limits, k: string, now: real)
    requires StateOk(m, limit, now) && Agree(Levels(c), limit)
    ensures var p, t, s := c.platformLimit > 0, c.tenantLimit > 0 && c.tenantID != "", c.sessionLimit > 0 && c.sessionKey != "";
            var kp, kt, ks := "platform:" + c.platform, "tenant:" + c.tenantID + ":" + c.platform, "session:" + c.sessionKey;
            var hp := !p || TokensAt(m, kp, c.platformLimit, now) >= 1.0;
            var ht := hp && (!t || TokensAt(m, kt, c.tenantLimit, now) >= 1.0);
            var hs := ht && (!s || TokensAt(m, ks, c.sessionLimit, now) >= 1.0);
            var paid := (p && k == kp && hp) || (t && k == kt && ht) || (s && k == ks && hs);
            var a := AskAll(m, Levels(c), now);
            && a.ok == hs
            && TokensAt(a.buckets, k, limit(k), now) == TokensAt(m, k, limit(k), now) - (if paid then 1.0 else 0.0)
  {
    var p, t, s := c.platformLimit > 0, c.tenantLimit > 0 && c.tenantID != "", c.sessionLimit > 0 && c.sessionKey != "";
    var lp, lt, ls := Level(PlatformKey(c), c.platformLimit), Level(TenantKey(c), c.tenantLimit), Level(SessionKey(c), c.sessionLimit);
    KeysDiffer(c);
    LevelsInOrder(c);
    LimitsAgree(c, limit);
    hide Ask, Stock, StateOk, Agree, AskAll, AfterFront, TokensAt, Front;
    var m1 := AfterFront(m, p, lp, now);
    FrontDecides(m, p, lp, Front(t, lt) + Front(s, ls), limit, now);
    FrontCosts(m, p, lp, Front(t, lt) + Front(s, ls), limit, k, now);
    FrontCosts(m, p, lp, Front(t, lt) + Front(s, ls), limit, lt.key, now);
    FrontCosts(m, p, lp, Front(t, lt) + Front(s, ls), limit, ls.key, now);
    var m2 := AfterFront(m1, t, lt, now);
    FrontDecides(m1, t, lt, Front(s, ls), limit, now);
    FrontCosts(m1, t, lt, Front(s, ls), limit, k, now);
    FrontCosts(m1, t, lt, Front(s, ls), limit, ls.key, now);
    var m3 := AfterFront(m2, s, ls, now);
    assert Front(s, ls) + [] == Front(s, ls);
    FrontDecides(m2, s, ls, [], limit, now);
    FrontCosts(m2, s, ls, [], limit, k, now);
    AskNone(m3, now);
    StockIsTokens(m, limit, lp.key, now);
    StockIsTokens(m, limit, lt.key, now);
    StockIsTokens(m, limit, ls.key, now);
    StockIsTokens(m, limit, k, now);
    StockIsTokens(m1, limit, k, now);
    StockIsTokens(m2, limit, k, now);
    StockIsTokens(m3, limit, k, now);
  }

  lemma AskNone(m: Buckets, now: real)
    ensures AskAll(m, [], now) == Asked(m, true)
  {
  }

  lemma LevelsInOrder(c: Call)
    ensures Levels(c) ==
            Front(c.platformLimit > 0, Level("platform:" + c.platform, c.platformLimit)) +
            (Front(c.tenantLimit > 0 && c.tenantID != "", Level("tenant:" + c.tenantID + ":" + c.platform, c.tenantLimit)) +
             Front(c.sessionLimit > 0 && c.sessionKey != "", Level("session:" + c.sessionKey, c.sessionLimit)))
  {
  }

  lemma LimitsAgree(c: Call, limit: Limits)
    requires Agree(Levels(c), limit)
    ensures c.platformLimit > 0 ==> limit(PlatformKey(c)) == c.platformLimit
    ensures c.tenantLimit > 0 && c.tenantID != "" ==> limit(TenantKey(c)) == c.tenantLimit
    ensures c.sessionLimit > 0 && c.sessionKey != "" ==> limit(SessionKey(c)) == c.sessionLimit
  {
    assert c.platformLimit > 0 ==> Level(PlatformKey(c), c.platformLimit) in Levels(c);
    assert c.tenantLimit > 0 && c.tenantID != "" ==> Level(TenantKey(c), c.tenantLimit) in Levels(c);
    assert c.sessionLimit > 0 && c.sessionKey != "" ==> Level(SessionKey(c), c.sessionLimit) in Levels(c);
  }

  // ----- runs, with and without Cleanup -----

  datatype Event = Serve(at: real, call: Call) | Sweep(at: real, maxAge: real)

  function Step(m: Buckets, e: Event): Asked {
    match e
    case Serve(at, call) => AskAll(m, Levels(call), at)
    case Sweep(at, maxAge) => Asked(Cleaned(m, maxAge, at), true)
  }

  /** Events on a clock that does not go back, from `start` on, with one limit per key. */
  predicate Regular(events: seq<Event>, limit: Limits, start: real)
    decreases |events|
  {
    events == [] ||
    (start <= events[0].at && (events[0].Serve? ==> Agree(Levels(events[0].call), limit)) &&
     Regular(events[1..], limit, events[0].at))
  }

  function Reached(m: Buckets, events: seq<Event>): Buckets
    decreases |events|
  {
    if events == [] then m else Reached(Step(m, events[0]).buckets, events[1..])
  }

  /** Granted calls that have a level with key k. */
  function Granted(m: Buckets, events: seq<Event>, k: string): nat
    decreases |events|
  {
    if events == [] then 0 else
      var a := Step(m, events[0]);
      Counts(events[0], a.ok, k) + Granted(a.buckets, events[1..], k)
  }

  /** Sweeps take at least 60 seconds of idleness to drop a bucket. */
  predicate SweepsFrom60(events: seq<Event>) { forall e :: e in events && e.Sweep? ==> e.maxAge >= 60.0 }

  /** A bucket that such a sweep drops is full by then, as the one that replaces it will be. */
  lemma SweepKeepsStock(m: Buckets, maxAge: real, limit: Limits, k: string, now: real)
    requires StateOk(m, limit, now) && maxAge >= 60.0
    ensures StateOk(Cleaned(m, maxAge, now), limit, now)
    ensures Stock(Cleaned(m, maxAge, now), limit, k, now) == Stock(m, limit, k, now)
  {
    if k in m && Idle(m[k], maxAge, now) {
      IdleBucketIsFull(m[k], limit(k), now);
    }
  }

  lemma StockGrows(m: Buckets, limit: Limits, k: string, t: real, t': real)
    requires StateOk(m, limit, t) && t <= t' && limit(k) > 0
    ensures StateOk(m, limit, t')
    ensures Stock(m, limit, k, t') <= Stock(m, limit, k, t) + Flow(t, t', limit(k) as real / 60.0)
  {
    if k in m {
      RefillGrows(m[k], t, t');
    } else {
      FlowIsNatural(t, t', limit(k) as real / 60.0);
    }
  }

  lemma StockIsBounded(m: Buckets, limit: Limits, k: string, t: real)
    requires StateOk(m, limit, t)
    ensures Stock(m, limit, k, t) <= limit(k) as real
    ensures limit(k) > 0 ==> 0.0 <= Stock(m, limit, k, t)
  {
    if k in m {
      RefilledIsNatural(m[k], t);
    }
  }

  lemma RefilledIsNatural(b: Bucket, t: real)
    requires BucketOk(b) && b.lastRefill <= t
    ensures 0.0 <= Refilled(b, t) <= b.maxTokens
  {
    FlowIsNatural(b.lastRefill, t, b.refillRate);
  }

  /** g grants through k from t0 to t: no more than the stock at t0 and what flowed in since. */
  predicate Supplied(m: Buckets, limit: Limits, k: string, t0: real, t: real, g: nat) {
    g as real <= Stock(m, limit, k, t0) + Flow(t0, t, limit(k) as real / 60.0)
  }

  function Counts(e: Event, ok: bool, k: string): nat {
    if e.Serve? && ok && Names(Levels(e.call), k) then 1 else 0
  }

  /** What an event does to the stock of k: a granted call of k costs a token, and nothing adds to it. */
  lemma StepCosts(m: Buckets, e: Event, limit: Limits, k: string)
    requires StateOk(m, limit, e.at) && (if e.Serve? then Agree(Levels(e.call), limit) else e.maxAge >= 60.0)
    ensures StateOk(Step(m, e).buckets, limit, e.at)
    ensures Stock(Step(m, e).buckets, limit, k, e.at) <= Stock(m, limit, k, e.at) - Counts(e, Step(m, e).ok, k) as real
  {
    match e
    case Serve(at, call) => AskAllCosts(m, Levels(call), limit, k, at);
    case Sweep(at, maxAge) => SweepKeepsStock(m, maxAge, limit, k, at);
  }

  lemma SuppliedStep(m: Buckets, e: Event, limit: Limits, k: string, start: real, last: real, g: nat)
    requires StateOk(m, limit, start) && start <= e.at && limit(k) > 0
    requires if e.Serve? then Agree(Levels(e.call), limit) else e.maxAge >= 60.0
    requires Supplied(Step(m, e).buckets, limit, k, e.at, last, g)
    ensures Supplied(m, limit, k, start, last, Counts(e, Step(m, e).ok, k) + g)
  {
    StockGrows(m, limit, k, start, e.at);
    hide Step, Counts, Stock, StateOk;
    StepCosts(m, e, limit, k);
    Chasles(start, e.at, last, limit(k) as real / 60.0);
  }

  lemma StepStateOk(m: Buckets, e: Event, limit: Limits, start: real)
    requires StateOk(m, limit, start) && start <= e.at
    requires if e.Serve? then Agree(Levels(e.call), limit) else e.maxAge >= 60.0
    ensures StateOk(Step(m, e).buckets, limit, e.at)
  {
    StepCosts(m, e, limit, "");
  }

  lemma {:induction false} GrantsFitStock(m: Buckets, events: seq<Event>, limit: Limits, k: string, start: real)
    requires StateOk(m, limit, start) && Regular(events, limit, start) && SweepsFrom60(events) && limit(k) > 0
    ensures Supplied(m, limit, k, start, if events == [] then start else events[|events| - 1].at, Granted(m, events, k))
    decreases |events|
  {
    if events == [] {
      StockIsBounded(m, limit, k, start);
      NoTimeNoFlow(start, limit(k) as real / 60.0);
    } else {
      var e, rest, last := events[0], events[1..], events[|events| - 1].at;
      assert e in events && forall x :: x in rest ==> x in events;
      StepStateOk(m, e, limit, start);
      var m' := Step(m, e).buckets;
      GrantsFitStock(m', rest, limit, k, e.at);
      SuppliedStep(m, e, limit, k, start, last, Granted(m', rest, k));
    }
  }

  lemma {:induction false} RegularParts(m: Buckets, events: seq<Event>, limit: Limits, start: real, i: nat)
    requires StateOk(m, limit, start) && Regular(events, limit, start) && SweepsFrom60(events) && i < |events|
    ensures StateOk(Reached(m, events[..i]), limit, events[i].at)
    ensures Regular(events[i..], limit, events[i].at)
    decreases |events|
  {
    var e := events[0];
    assert e in events;
    if i == 0 {
      assert events[..0] == [] && events[0..] == events;
    } else {
      assert forall x :: x in events[1..] ==> x in events;
      StepStateOk(m, e, limit, start);
      assert events[..i][1..] == events[1..][..i - 1] && events[i..] == events[1..][i - 1..];
      RegularParts(Step(m, e).buckets, events[1..], limit, e.at, i - 1);
    }
  }

  lemma {:induction false} RegularPrefix(events: seq<Event>, limit: Limits, start: real, n: nat)
    requires Regular(events, limit, start) && n <= |events|
    ensures Regular(events[..n], limit, start)
    decreases |events|
  {
    if n > 0 {
      assert events[..n][1..] == events[1..][..n - 1];
      RegularPrefix(events[1..], limit, events[0].at, n - 1);
    }
  }

  /** No more than the limit and what w seconds refill, at the limit per minute. */
  predicate WithinRate(granted: nat, limit: int, w: real) {
    granted as real <= limit as real + w * (limit as real / 60.0)
  }

  /**
    The bounds of all levels hold together: in any run of a new limiter, with sweeps at 60 seconds or more,
    for every key, be it of a platform, a tenant or a session, the calls granted among events i to j, all
    within w seconds, are at most the limit plus w seconds of refill.
   */
  lemma ThreeLevelWindowBound(events: seq<Event>, limit: Limits, k: string, start: real, i: nat, j: nat, w: real)
    requires Regular(events, limit, start) && SweepsFrom60(events) && limit(k) > 0
    requires i < j <= |events| && events[j - 1].at - events[i].at <= w
    ensures WithinRate(Granted(Reached(map[], events[..i]), events[i..j], k), limit(k), w)
  {
    hide Granted, Reached;
    RegularParts(map[], events, limit, start, i);
    RegularPrefix(events[i..], limit, events[i].at, j - i);
    hide Regular, StateOk, SweepsFrom60, WithinRate;
    assert events[i..][..j - i] == events[i..j];
    SweepsInWindow(events, i, j);
    WindowFits(Reached(map[], events[..i]), events[i..j], limit, k, w);
  }

  lemma SweepsInWindow(events: seq<Event>, i: nat, j: nat)
    requires SweepsFrom60(events) && i < j <= |events|
    ensures SweepsFrom60(events[i..j])
  {
    assert forall e :: e in events[i..j] ==> e in events;
  }

  lemma WindowFits(m: Buckets, window: seq<Event>, limit: Limits, k: string, w: real)
    requires window != [] && StateOk(m, limit, window[0].at) && Regular(window, limit, window[0].at) && SweepsFrom60(window)
    requires limit(k) > 0 && window[|window| - 1].at - window[0].at <= w
    ensures WithinRate(Granted(m, window, k), limit(k), w)
  {
    GrantsFitStock(m, window, limit, k, window[0].at);
    SuppliedWithin(m, limit, k, window[0].at, window[|window| - 1].at, Granted(m, window, k), w);
  }

  lemma SuppliedWithin(m: Buckets, limit: Limits, k: string, t0: real, t: real, g: nat, w: real)
    requires StateOk(m, limit, t0) && limit(k) > 0 && Supplied(m, limit, k, t0, t, g) && t - t0 <= w
    ensures g as real <= limit(k) as real + w * (limit(k) as real / 60.0)
  {
    StockIsBounded(m, limit, k, t0);
    FlowWithin(t0, t, limit(k) as real / 60.0, w);
  }

  // ----- Cleanup cannot be observed -----

  function Answers(m: Buckets, events: seq<Event>): seq<bool>
    decreases |events|
  {
    if events == [] then [] else
      var a := Step(m, events[0]);
      (if events[0].Serve? then [a.ok] else []) + Answers(a.buckets, events[1..])
  }

  function WithoutSweeps(events: seq<Event>): seq<Event> {
    if events == [] then [] else (if events[0].Serve? then [events[0]] else []) + WithoutSweeps(events[1..])
  }

  /** The swept limiter has the same buckets, except for some that have been idle for 60 seconds. */
  predicate Like(m: Buckets, n: Buckets, now: real) {
    && (forall k :: k in m ==> k in n && m[k] == n[k])
    && (forall k :: k in n && k !in m ==> n[k].lastRefill + 60.0 <= now)
  }

  lemma SixtySecondsFill(from: real, to: real, rate: real, limit: int)
    requires to - from >= 60.0 && limit > 0 && rate == limit as real / 60.0
    ensures Flow(from, to, rate) >= limit as real
  {
    Scale(60.0, to - from, rate);
    assert 60.0 * rate == limit as real;
  }

  lemma IdleBucketIsFull(b: Bucket, limit: int, now: real)
    requires Fits(b, limit) && b.lastRefill + 60.0 <= now
    ensures Refilled(b, now) == limit as real
  {
    SixtySecondsFill(b.lastRefill, now, b.refillRate, limit);
  }

  lemma AskAlike(m: Buckets, n: Buckets, l: Level, limit: Limits, now: real)
    requires StateOk(m, limit, now) && StateOk(n, limit, now) && Like(m, n, now)
    requires l.limit == limit(l.key) && l.limit > 0
    ensures Ask(m, l, now).ok == Ask(n, l, now).ok && Like(Ask(m, l, now).buckets, Ask(n, l, now).buckets, now)
  {
    NewBucketIsFull(l.limit, now);
    if l.key in n && l.key !in m {
      IdleBucketIsFull(n[l.key], l.limit, now);
    }
  }

  lemma {:induction false} AskAllAlike(m: Buckets, n: Buckets, levels: seq<Level>, limit: Limits, now: real)
    requires StateOk(m, limit, now) && StateOk(n, limit, now) && Like(m, n, now) && Agree(levels, limit)
    ensures AskAll(m, levels, now).ok == AskAll(n, levels, now).ok
    ensures Like(AskAll(m, levels, now).buckets, AskAll(n, levels, now).buckets, now)
    decreases |levels|
  {
    if levels != [] {
      assert levels[0] in levels;
      AskAlike(m, n, levels[0], limit, now);
      AskCosts(m, levels[0], limit, levels[0].key, now);
      AskCosts(n, levels[0], limit, levels[0].key, now);
      if Ask(m, levels[0], now).ok {
        AskAllAlike(Ask(m, levels[0], now).buckets, Ask(n, levels[0], now).buckets, levels[1..], limit, now);
      }
    }
  }

  predicate SweepsAt(events: seq<Event>, maxAge: real) {
    forall e :: e in events && e.Sweep? ==> e.maxAge == maxAge
  }

  lemma {:induction false} SweepingIsUnobservable(m: Buckets, n: Buckets, events: seq<Event>, limit: Limits, start: real, maxAge: real)
    requires maxAge >= 60.0 && Regular(events, limit, start) && SweepsAt(events, maxAge)
    requires StateOk(m, limit, start) && StateOk(n, limit, start) && Like(m, n, start)
    ensures Answers(m, events) == Answers(n, WithoutSweeps(events))
    decreases |events|
  {
    if events != [] {
      var e, rest := events[0], events[1..];
      assert e in events && forall x :: x in rest ==> x in events;
      if e.Serve? {
        AskAllAlike(m, n, Levels(e.call), limit, e.at);
        AskAllCosts(m, Levels(e.call), limit, "", e.at);
        AskAllCosts(n, Levels(e.call), limit, "", e.at);
        SweepingIsUnobservable(Step(m, e).buckets, Step(n, e).buckets, rest, limit, e.at, maxAge);
        assert WithoutSweeps(events)[1..] == WithoutSweeps(rest);
      } else {
        SweepingIsUnobservable(Step(m, e).buckets, n, rest, limit, e.at, maxAge);
        assert WithoutSweeps(events) == WithoutSweeps(rest);
      }
    }
  }

  /** No run of a new limiter, whatever its limits, answers differently because of sweeps with this age. */
  ghost predicate Unobservable(maxAge: real) {
    forall events: seq<Event>, limit: Limits, start: real ::
      Regular(events, limit, start) && SweepsAt(events, maxAge) ==>
        Answers(map[], events) == Answers(map[], WithoutSweeps(events))
  }

  /** A call, a sweep and the same call again, less than a minute later, with a limit of one per minute. */
  function Witness(maxAge: real): seq<Event> {
    var t := ((if maxAge < 0.0 then 0.0 else maxAge) + 60.0) / 2.0;
    var c := Call("p", 1, "", 0, "", 0);
    [Serve(0.0, c), Sweep(t, maxAge), Serve(t, c)]
  }

  function OnePerMinute(): Limits { (key: string) => 1 }

  lemma WitnessIsRegular(maxAge: real)
    requires maxAge < 60.0
    ensures Regular(Witness(maxAge), OnePerMinute(), 0.0) && SweepsAt(Witness(maxAge), maxAge)
  {
    var w := Witness(maxAge);
    var rest := w[1..];
    assert rest[1..] == [w[2]] && [w[2]][1..] == [];
    assert Regular([w[2]], OnePerMinute(), w[1].at);
    assert Regular(rest, OnePerMinute(), w[0].at);
  }

  lemma {:induction false} ServeSweepServe(m: Buckets, e0: Event, e1: Event, e2: Event)
    requires e0.Serve? && e1.Sweep? && e2.Serve?
    ensures var m1 := Step(m, e0).buckets;
            && Answers(m, [e0, e1, e2]) == [Step(m, e0).ok, Step(Step(m1, e1).buckets, e2).ok]
            && Answers(m, WithoutSweeps([e0, e1, e2])) == [Step(m, e0).ok, Step(m1, e2).ok]
  {
    hide Step;
    var m1 := Step(m, e0).buckets;
    assert [e0, e1, e2][1..] == [e1, e2] && [e1, e2][1..] == [e2] && [e2][1..] == [];
    assert Answers(m1, [e2]) == [Step(m1, e2).ok];
    assert Answers(Step(m1, e1).buckets, [e2]) == [Step(Step(m1, e1).buckets, e2).ok];
    assert WithoutSweeps([e2]) == [e2];
    assert WithoutSweeps([e1, e2]) == [e2];
    assert WithoutSweeps([e0, e1, e2]) == [e0, e2] && [e0, e2][1..] == [e2];
  }

  lemma EmptiedBucketRefuses(t: real)
    requires 0.0 <= t < 60.0
    ensures var b1 := Bucket(0.0, 1.0, 1.0 / 60.0, 0.0);
            Take(BucketFor(1, 0.0), 0.0) == Taken(b1, true) && !Take(b1, t).ok
  {
    NewBucketIsFull(1, 0.0);
    assert Flow(0.0, t, 1.0 / 60.0) == t / 60.0;
  }

  lemma StepOfOneLevel(m: Buckets, c: Call, l: Level, t: real)
    requires Levels(c) == [l]
    ensures Step(m, Serve(t, c)) == Ask(m, l, t)
  {
    hide Ask, Levels;
    AskOnly(m, l, t);
  }

  lemma AskNew(k: string, t: real)
    ensures Ask(map[], Level(k, 1), t).ok
    ensures t == 0.0 ==> Ask(map[], Level(k, 1), t).buckets == map[k := Bucket(0.0, 1.0, 1.0 / 60.0, 0.0)]
  {
    hide Flow;
    NoTimeNoFlow(t, 1.0 / 60.0);
  }

  lemma AskEmptied(k: string, t: real)
    requires 0.0 <= t < 60.0
    ensures !Ask(map[k := Bucket(0.0, 1.0, 1.0 / 60.0, 0.0)], Level(k, 1), t).ok
  {
    EmptiedBucketRefuses(t);
  }

  lemma WitnessSteps(c: Call, k: string, t: real, maxAge: real)
    requires Levels(c) == [Level(k, 1)] && 0.0 <= t < 60.0 && t > maxAge
    ensures var m1 := Step(map[], Serve(0.0, c)).buckets;
            && Step(map[], Serve(0.0, c)).ok && !Step(m1, Serve(t, c)).ok
            && Step(Step(m1, Sweep(t, maxAge)).buckets, Serve(t, c)).ok
  {
    hide Levels, Ask, AskAll;
    var m1: Buckets := map[k := Bucket(0.0, 1.0, 1.0 / 60.0, 0.0)];
    StepOfOneLevel(map[], c, Level(k, 1), 0.0);
    StepOfOneLevel(map[], c, Level(k, 1), t);
    StepOfOneLevel(m1, c, Level(k, 1), t);
    AskNew(k, 0.0);
    AskNew(k, t);
    AskEmptied(k, t);
    assert Cleaned(m1, maxAge, t) == map[];
  }

  lemma WitnessTellsTheDifference(maxAge: real)
    requires maxAge < 60.0
    ensures Answers(map[], Witness(maxAge)) == [true, true]
    ensures Answers(map[], WithoutSweeps(Witness(maxAge))) == [true, false]
  {
    var w := Witness(maxAge);
    hide Answers, WithoutSweeps, Step;
    ServeSweepServe(map[], w[0], w[1], w[2]);
    WitnessSteps(w[0].call, PlatformKey(w[0].call), w[2].at, maxAge);
  }

  /** The rate of every key is kept in every run with sweeps of this age. */
  ghost predicate RatesHold(maxAge: real) {
    forall events: seq<Event>, limit: Limits, k: string, start: real, i: nat, j: nat, w: real ::
      (Regular(events, limit, start) && SweepsAt(events, maxAge) && limit(k) > 0 &&
       i < j <= |events| && events[j - 1].at - events[i].at <= w) ==>
        WithinRate(Granted(Reached(map[], events[..i]), events[i..j], k), limit(k), w)
  }

  lemma {:induction false} GrantedTwice(m: Buckets, e0: Event, e1: Event, e2: Event, k: string)
    requires e0.Serve? && e1.Sweep? && e2.Serve? && Names(Levels(e0.call), k) && Names(Levels(e2.call), k)
    requires var m1 := Step(m, e0).buckets; Step(m, e0).ok && Step(Step(m1, e1).buckets, e2).ok
    ensures Granted(m, [e0, e1, e2], k) == 2
  {
    hide Step, Levels, Names;
    var m1 := Step(m, e0).buckets;
    var m2 := Step(m1, e1).buckets;
    assert [e0, e1, e2][1..] == [e1, e2] && [e1, e2][1..] == [e2] && [e2][1..] == [];
    assert Granted(m2, [e2], k) == 1;
    assert Granted(m1, [e1, e2], k) == 1;
  }

  lemma WitnessBreaksTheRate(maxAge: real)
    requires maxAge < 60.0
    ensures var w := Witness(maxAge); var k := PlatformKey(w[0].call);
            Granted(map[], w, k) == 2 && 0.0 <= w[2].at - w[0].at < 60.0
  {
    hide Granted, Step, Levels, Names, PlatformKey;
    var w := Witness(maxAge);
    var c := w[0].call;
    var k := PlatformKey(c);
    PlatformLevelOnly("p");
    WitnessSteps(c, k, w[2].at, maxAge);
    GrantedTwice(map[], w[0], w[1], w[2], k);
  }

  lemma PlatformLevelOnly(p: string)
    ensures var c := Call(p, 1, "", 0, "", 0);
            Levels(c) == [Level(PlatformKey(c), 1)] && Names(Levels(c), PlatformKey(c))
  {
    var c := Call(p, 1, "", 0, "", 0);
    assert Levels(c)[0].key == PlatformKey(c);
  }

  /** The rates hold exactly from an age of 60 seconds on. */
  lemma RatesHoldFrom60(maxAge: real)
    ensures RatesHold(maxAge) <==> maxAge >= 60.0
  {
    hide Granted, Reached, Regular, WithinRate;
    if maxAge >= 60.0 {
      forall events: seq<Event>, limit: Limits, k: string, start: real, i: nat, j: nat, w: real |
        Regular(events, limit, start) && SweepsAt(events, maxAge) && limit(k) > 0 &&
        i < j <= |events| && events[j - 1].at - events[i].at <= w
        ensures WithinRate(Granted(Reached(map[], events[..i]), events[i..j], k), limit(k), w)
      {
        ThreeLevelWindowBound(events, limit, k, start, i, j, w);
      }
    } else if RatesHold(maxAge) {
      RateIsBroken(maxAge);
    }
  }

  lemma RateIsBroken(maxAge: real)
    requires maxAge < 60.0
    ensures !RatesHold(maxAge)
  {
    hide Granted, Regular;
    var events := Witness(maxAge);
    WitnessIsRegular(maxAge);
    WitnessBreaksTheRate(maxAge);
    var k, w := PlatformKey(events[0].call), events[2].at - events[0].at;
    assert events[..0] == [] && events[0..3] == events;
    assert Reached(map[], events[..0]) == map[];
    TooMany(w);
    assert !WithinRate(Granted(Reached(map[], events[..0]), events[0..3], k), OnePerMinute()(k), w);
  }

  lemma TooMany(w: real)
    requires w < 60.0
    ensures !WithinRate(2, 1, w)
  {
    assert 1 as real == 1.0;
    assert w * (1.0 / 60.0) < 1.0;
  }

  lemma AskOnly(m: Buckets, l: Level, now: real)
    ensures AskAll(m, [l], now) == Ask(m, l, now)
  {
    assert [l][1..] == [];
  }

  /** Cleanup is unobservable exactly from an age of 60 seconds on. */
  lemma CleanupIsUnobservableFrom60(maxAge: real)
    ensures Unobservable(maxAge) <==> maxAge >= 60.0
  {
    if maxAge >= 60.0 {
      forall events: seq<Event>, limit: Limits, start: real | Regular(events, limit, start) && SweepsAt(events, maxAge)
        ensures Answers(map[], events) == Answers(map[], WithoutSweeps(events))
      {
        SweepingIsUnobservable(map[], map[], events, limit, start, maxAge);
      }
    } else {
      WitnessIsRegular(maxAge);
      WitnessTellsTheDifference(maxAge);
    }
  }
}
