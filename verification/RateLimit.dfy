/** The in-memory rate limiter: one bucket per key, refilled when its window has passed. */
module RateLimit {
  import opened Common

  datatype Bucket = Bucket(count: nat, resetAt: int)

  datatype Config = Config(windowMs: nat, max: nat)

  datatype Request = Request(key: string, now: int)

  /** The bucket after one more request: a new window if the old one has passed. */
  function Touch(cfg: Config, b: Option<Bucket>, now: int): Bucket {
    var current := if b.None? || b.value.resetAt <= now then Bucket(0, now + cfg.windowMs) else b.value;
    current.(count := current.count + 1)
  }

  function Lookup(buckets: map<string, Bucket>, key: string): Option<Bucket> {
    if key in buckets then Some(buckets[key]) else None
  }

  class Limiter {
    const cfg: Config
    var buckets: map<string, Bucket>

    constructor (cfg: Config)
      ensures this.cfg == cfg && buckets == map[]
    {
      this.cfg, buckets := cfg, map[];
    }

    /** `rateLimit`: lets the request through or answers 429, and says how many are left. */
    method Handle(key: string, now: int) returns (admitted: bool, remaining: nat)
      modifies this
      ensures buckets == old(buckets)[key := Touch(cfg, Lookup(old(buckets), key), now)]
      ensures if key in old(buckets) && now < old(buckets)[key].resetAt
              then buckets[key] == Bucket(old(buckets)[key].count + 1, old(buckets)[key].resetAt)
              else buckets[key] == Bucket(1, now + cfg.windowMs)
      ensures buckets - {key} == old(buckets) - {key}
      ensures admitted <==> buckets[key].count <= cfg.max
      ensures remaining + buckets[key].count == if admitted then cfg.max else buckets[key].count
    {
      if key !in buckets || buckets[key].resetAt <= now {
        buckets := buckets[key := Bucket(0, now + cfg.windowMs)];
      }
      var bucket := buckets[key];
      bucket := bucket.(count := bucket.count + 1);
      buckets := buckets[key := bucket];
      remaining := if cfg.max < bucket.count then 0 else cfg.max - bucket.count;
      admitted := !(bucket.count > cfg.max);
    }
  }

  // ---------------------------------------------------------------------------------------
  // Runs
  // ---------------------------------------------------------------------------------------

  /** The times at which requests of `key` are let through, in a run over requests of any keys. */
  function AdmittedOf(cfg: Config, buckets: map<string, Bucket>, requests: seq<Request>, key: string): seq<int>
    decreases |requests|
  {
    if requests == [] then []
    else
      var r := requests[0];
      var bucket := Touch(cfg, Lookup(buckets, r.key), r.now);
      (if r.key == key && bucket.count <= cfg.max then [r.now] else []) +
      AdmittedOf(cfg, buckets[r.key := bucket], requests[1..], key)
  }

  /** The same for the requests of one key alone. */
  function Admitted(cfg: Config, b: Option<Bucket>, times: seq<int>): seq<int>
    decreases |times|
  {
    if times == [] then []
    else
      var bucket := Touch(cfg, b, times[0]);
      (if bucket.count <= cfg.max then [times[0]] else []) + Admitted(cfg, Some(bucket), times[1..])
  }

  function TimesOf(requests: seq<Request>, key: string): seq<int> {
    if requests == [] then []
    else (if requests[0].key == key then [requests[0].now] else []) + TimesOf(requests[1..], key)
  }

  /** A key's requests are decided as if no other key existed. */
  lemma {:induction false} KeysAreIndependent(cfg: Config, buckets: map<string, Bucket>, requests: seq<Request>,
                                              key: string)
    ensures AdmittedOf(cfg, buckets, requests, key) == Admitted(cfg, Lookup(buckets, key), TimesOf(requests, key))
    decreases |requests|
  {
    if requests != [] {
      var r := requests[0];
      var bucket := Touch(cfg, Lookup(buckets, r.key), r.now);
      KeysAreIndependent(cfg, buckets[r.key := bucket], requests[1..], key);
      var others := TimesOf(requests[1..], key);
      if r.key == key {
        assert TimesOf(requests, key) == [r.now] + others && ([r.now] + others)[1..] == others;
      } else {
        assert TimesOf(requests, key) == others;
      }
    }
  }

  function Within(times: seq<int>, lo: int, hi: int): nat {
    if times == [] then 0 else (if lo <= times[0] <= hi then 1 else 0) + Within(times[1..], lo, hi)
  }

  lemma WithinCons(t: int, times: seq<int>, lo: int, hi: int)
    ensures Within([t] + times, lo, hi) == (if lo <= t <= hi then 1 else 0) + Within(times, lo, hi)
  {
    assert ([t] + times)[1..] == times;
  }

  /** The effect of one more request on the count. */
  lemma OneMore(cfg: Config, b: Option<Bucket>, t: int, later: seq<int>, lo: int, hi: int)
    ensures var bucket := Touch(cfg, b, t);
            Within(Admitted(cfg, b, [t] + later), lo, hi) ==
            (if bucket.count <= cfg.max && lo <= t <= hi then 1 else 0) +
            Within(Admitted(cfg, Some(bucket), later), lo, hi)
  {
    assert ([t] + later)[1..] == later;
    var others := Admitted(cfg, Some(Touch(cfg, b, t)), later);
    WithinCons(t, others, lo, hi);
    assert [] + others == others;
  }

  ghost predicate Ordered(times: seq<int>) {
    forall i, j :: 0 <= i <= j < |times| ==> times[i] <= times[j]
  }

  function Left(cfg: Config, b: Bucket): nat {
    if b.count >= cfg.max then 0 else cfg.max - b.count
  }

  /** How many more requests of `lo..hi` a bucket can still let through. */
  function Budget(cfg: Config, b: Option<Bucket>, lo: int, hi: int): nat {
    if b.None? || b.value.resetAt <= lo then 2 * cfg.max
    else if b.value.resetAt <= hi then Left(cfg, b.value) + cfg.max
    else Left(cfg, b.value)
  }

  lemma {:induction false} WithinBudget(cfg: Config, b: Option<Bucket>, times: seq<int>, lo: int, hi: int)
    requires cfg.windowMs > 0 && Ordered(times) && hi - lo <= cfg.windowMs
    ensures Within(Admitted(cfg, b, times), lo, hi) <= Budget(cfg, b, lo, hi)
    decreases |times|
  {
    if times != [] {
      if times[0] > hi {
        NothingEarly(cfg, b, times, lo, hi);
      } else {
        assert times == [times[0]] + times[1..];
        OneMore(cfg, b, times[0], times[1..], lo, hi);
        WithinBudget(cfg, Some(Touch(cfg, b, times[0])), times[1..], lo, hi);
      }
    }
  }

  lemma {:induction false} NothingEarly(cfg: Config, b: Option<Bucket>, times: seq<int>, lo: int, hi: int)
    requires Ordered(times) && (times != [] ==> times[0] > hi)
    ensures Within(Admitted(cfg, b, times), lo, hi) == 0
    decreases |times|
  {
    if times != [] {
      assert times == [times[0]] + times[1..];
      OneMore(cfg, b, times[0], times[1..], lo, hi);
      NothingEarly(cfg, Some(Touch(cfg, b, times[0])), times[1..], lo, hi);
    }
  }

  ghost predicate InTimeOrder(requests: seq<Request>) {
    forall i, j :: 0 <= i <= j < |requests| ==> requests[i].now <= requests[j].now
  }

  lemma {:induction false} TimesAreOrdered(requests: seq<Request>, key: string, from: int)
    requires InTimeOrder(requests) && (requests != [] ==> from <= requests[0].now)
    ensures Ordered(TimesOf(requests, key))
    ensures forall i :: 0 <= i < |TimesOf(requests, key)| ==> from <= TimesOf(requests, key)[i]
  {
    if requests != [] {
      var now := requests[0].now;
      assert |requests| > 1 ==> now <= requests[1].now;
      TimesAreOrdered(requests[1..], key, now);
    }
  }

  /** Whatever the other keys do, no closed interval as long as the window lets through more than twice the limit. */
  lemma AtMostTwice(cfg: Config, buckets: map<string, Bucket>, requests: seq<Request>, key: string, lo: int)
    requires cfg.windowMs > 0 && InTimeOrder(requests)
    ensures Within(AdmittedOf(cfg, buckets, requests, key), lo, lo + cfg.windowMs) <= 2 * cfg.max
  {
    KeysAreIndependent(cfg, buckets, requests, key);
    TimesAreOrdered(requests, key, if requests == [] then 0 else requests[0].now);
    WithinBudget(cfg, Lookup(buckets, key), TimesOf(requests, key), lo, lo + cfg.windowMs);
  }

  lemma OpeningBudget(cfg: Config, b: Option<Bucket>, t: int, hi: int)
    requires (b.None? || b.value.resetAt <= t) && t <= hi < t + cfg.windowMs
    ensures var bucket := Touch(cfg, b, t);
            (if bucket.count <= cfg.max then 1 else 0) + Budget(cfg, Some(bucket), t, hi) <= cfg.max
  {
  }

  /** From the request at `t` that opens a window until it has passed, at most the limit gets through. */
  lemma WindowAtMostMax(cfg: Config, b: Option<Bucket>, t: int, later: seq<int>, hi: int)
    requires Ordered(later) && (b.None? || b.value.resetAt <= t) && t <= hi < t + cfg.windowMs
    ensures Within(Admitted(cfg, b, [t] + later), t, hi) <= cfg.max
  {
    var bucket := Touch(cfg, b, t);
    OneMore(cfg, b, t, later, t, hi);
    WithinBudget(cfg, Some(bucket), later, t, hi);
    OpeningBudget(cfg, b, t, hi);
  }

  function Burst(t: int, n: nat): seq<int> {
    if n == 0 then [] else [t] + Burst(t, n - 1)
  }

  lemma BurstCons(t: int, n: nat, later: seq<int>)
    requires n > 0
    ensures Burst(t, n) + later == [t] + (Burst(t, n - 1) + later)
  {
  }

  /** A burst that fits into what is left of a window gets through whole. */
  lemma {:induction false} BurstGetsThrough(cfg: Config, b: Bucket, t: int, n: nat, later: seq<int>, lo: int, hi: int)
    requires t < b.resetAt && b.count + n <= cfg.max && lo <= t <= hi
    ensures Within(Admitted(cfg, Some(b), Burst(t, n) + later), lo, hi) ==
            n + Within(Admitted(cfg, Some(Bucket(b.count + n, b.resetAt)), later), lo, hi)
    decreases n
  {
    if n == 0 {
      assert Burst(t, n) + later == later;
    } else {
      var next := Bucket(b.count + 1, b.resetAt);
      BurstCons(t, n, later);
      OneMoreFits(cfg, b, t, Burst(t, n - 1) + later, lo, hi);
      BurstGetsThrough(cfg, next, t, n - 1, later, lo, hi);
    }
  }

  lemma OneMoreFits(cfg: Config, b: Bucket, t: int, later: seq<int>, lo: int, hi: int)
    requires t < b.resetAt && b.count < cfg.max && lo <= t <= hi
    ensures Within(Admitted(cfg, Some(b), [t] + later), lo, hi) ==
            1 + Within(Admitted(cfg, Some(Bucket(b.count + 1, b.resetAt)), later), lo, hi)
  {
    OneMore(cfg, Some(b), t, later, lo, hi);
  }

  lemma OpeningBurst(cfg: Config, b: Option<Bucket>, t: int, later: seq<int>, lo: int, hi: int)
    requires cfg.windowMs > 0 && cfg.max > 0 && lo <= t <= hi && (b.None? || b.value.resetAt <= t)
    ensures Within(Admitted(cfg, b, Burst(t, cfg.max) + later), lo, hi) ==
            cfg.max + Within(Admitted(cfg, Some(Bucket(cfg.max, t + cfg.windowMs)), later), lo, hi)
  {
    var first := Touch(cfg, b, t);
    var more := Burst(t, cfg.max - 1) + later;
    BurstCons(t, cfg.max, later);
    OneMore(cfg, b, t, more, lo, hi);
    assert first == Bucket(1, t + cfg.windowMs);
    BurstGetsThrough(cfg, first, t, cfg.max - 1, later, lo, hi);
  }

  /**
   The bound is reached for every limit, so this is not the sliding window its comment announces:
   a burst at the start of one window and another at the start of the next both get through.
   */
  lemma TwiceIsReached(cfg: Config, t: int)
    requires cfg.windowMs > 0
    ensures Ordered(Burst(t, cfg.max) + Burst(t + cfg.windowMs, cfg.max))
    ensures Within(Admitted(cfg, None, Burst(t, cfg.max) + Burst(t + cfg.windowMs, cfg.max)), t, t + cfg.windowMs) ==
            2 * cfg.max
  {
    BurstIsConstant(t, cfg.max);
    BurstIsConstant(t + cfg.windowMs, cfg.max);
    if cfg.max > 0 {
      var hi := t + cfg.windowMs;
      assert Burst(hi, cfg.max) + [] == Burst(hi, cfg.max);
      OpeningBurst(cfg, None, t, Burst(hi, cfg.max), t, hi);
      OpeningBurst(cfg, Some(Bucket(cfg.max, hi)), hi, [], t, hi);
    }
  }

  lemma {:induction false} BurstIsConstant(t: int, n: nat)
    ensures |Burst(t, n)| == n && forall i :: 0 <= i < n ==> Burst(t, n)[i] == t
  {
    if n > 0 {
      BurstIsConstant(t, n - 1);
    }
  }

  /** No request of `lo..hi` opens a new window after an earlier one of the interval (`seen`). */
  predicate NoRollover(cfg: Config, b: Option<Bucket>, times: seq<int>, lo: int, hi: int, seen: bool)
    decreases |times|
  {
    times == [] ||
    (!(seen && lo <= times[0] <= hi && (b.None? || b.value.resetAt <= times[0])) &&
     NoRollover(cfg, Some(Touch(cfg, b, times[0])), times[1..], lo, hi, seen || lo <= times[0] <= hi))
  }

  /** An interval of any length in which no window rolls over lets through at most the limit. */
  lemma AtMostMaxWithoutRollover(cfg: Config, b: Option<Bucket>, times: seq<int>, lo: int, hi: int)
    requires Ordered(times) && NoRollover(cfg, b, times, lo, hi, false)
    ensures Within(Admitted(cfg, b, times), lo, hi) <= cfg.max
  {
    WithoutRollover(cfg, b, times, lo, hi, false);
  }

  lemma {:induction false} WithoutRollover(cfg: Config, b: Option<Bucket>, times: seq<int>, lo: int, hi: int,
                                           seen: bool)
    requires Ordered(times) && NoRollover(cfg, b, times, lo, hi, seen) && (seen ==> b.Some?)
    requires seen ==> forall i :: 0 <= i < |times| ==> lo <= times[i]
    ensures Within(Admitted(cfg, b, times), lo, hi) <= if seen then Left(cfg, b.value) else cfg.max
    decreases |times|
  {
    if times != [] {
      if times[0] > hi {
        NothingEarly(cfg, b, times, lo, hi);
      } else {
        assert times == [times[0]] + times[1..];
        OneMore(cfg, b, times[0], times[1..], lo, hi);
        assert times[0] >= lo ==> forall i :: 0 <= i < |times[1..]| ==> lo <= times[1..][i];
        WithoutRollover(cfg, Some(Touch(cfg, b, times[0])), times[1..], lo, hi, seen || lo <= times[0] <= hi);
      }
    }
  }

  /** Every later course of requests keeps to the limit in the closed interval from `lo` as long as the window. */
  ghost predicate KeepsLimit(cfg: Config, b: Option<Bucket>, lo: int) {
    forall times :: Ordered(times) ==> Within(Admitted(cfg, b, times), lo, lo + cfg.windowMs) <= cfg.max
  }

  /** Requests that use up all a bucket can still let through in the interval. */
  lemma BudgetIsReached(cfg: Config, b: Option<Bucket>, lo: int) returns (times: seq<int>)
    requires cfg.windowMs > 0 && Budget(cfg, b, lo, lo + cfg.windowMs) > cfg.max
    ensures Ordered(times)
    ensures Within(Admitted(cfg, b, times), lo, lo + cfg.windowMs) == Budget(cfg, b, lo, lo + cfg.windowMs)
  {
    var hi := lo + cfg.windowMs;
    if b.None? || b.value.resetAt <= lo {
      times := TwoBursts(lo, cfg.max, hi, cfg.max);
      OpeningBurst(cfg, b, lo, Burst(hi, cfg.max), lo, hi);
      OneBurst(cfg, Bucket(cfg.max, hi), hi, lo, hi);
    } else {
      var left := Left(cfg, b.value);
      times := TwoBursts(lo, left, b.value.resetAt, cfg.max);
      BurstGetsThrough(cfg, b.value, lo, left, Burst(b.value.resetAt, cfg.max), lo, hi);
      OneBurst(cfg, b.value.(count := cfg.max), b.value.resetAt, lo, hi);
    }
  }

  lemma OneBurst(cfg: Config, b: Bucket, t: int, lo: int, hi: int)
    requires cfg.windowMs > 0 && cfg.max > 0 && b.resetAt <= t && lo <= t <= hi
    ensures Within(Admitted(cfg, Some(b), Burst(t, cfg.max)), lo, hi) == cfg.max
  {
    assert Burst(t, cfg.max) + [] == Burst(t, cfg.max);
    OpeningBurst(cfg, Some(b), t, [], lo, hi);
  }

  lemma TwoBursts(t: int, n: nat, u: int, m: nat) returns (times: seq<int>)
    requires t <= u
    ensures times == Burst(t, n) + Burst(u, m) && Ordered(times)
  {
    times := Burst(t, n) + Burst(u, m);
    BurstIsConstant(t, n);
    BurstIsConstant(u, m);
  }

  /**
   The limiter is a sliding window from `lo` on exactly when the bucket's budget says so: the limit
   is 0, or the bucket is still open at `lo` and is either full or outlives the interval.
   */
  lemma KeepsLimitIff(cfg: Config, b: Option<Bucket>, lo: int)
    requires cfg.windowMs > 0
    ensures KeepsLimit(cfg, b, lo) <==>
            cfg.max == 0 ||
            (b.Some? && b.value.resetAt > lo && (b.value.count >= cfg.max || b.value.resetAt > lo + cfg.windowMs))
  {
    if Budget(cfg, b, lo, lo + cfg.windowMs) <= cfg.max {
      forall times | Ordered(times)
        ensures Within(Admitted(cfg, b, times), lo, lo + cfg.windowMs) <= cfg.max
      {
        WithinBudget(cfg, b, times, lo, lo + cfg.windowMs);
      }
    } else {
      var times := BudgetIsReached(cfg, b, lo);
      assert Ordered(times);
    }
  }

  /** The same of a key among others, in any run of requests of any keys. */
  lemma KeyKeepsLimitIff(cfg: Config, buckets: map<string, Bucket>, key: string, lo: int)
    requires cfg.windowMs > 0
    ensures (forall requests: seq<Request> :: InTimeOrder(requests) ==>
               Within(AdmittedOf(cfg, buckets, requests, key), lo, lo + cfg.windowMs) <= cfg.max) <==>
            KeepsLimit(cfg, Lookup(buckets, key), lo)
  {
    if KeepsLimit(cfg, Lookup(buckets, key), lo) {
      forall requests: seq<Request> | InTimeOrder(requests)
        ensures Within(AdmittedOf(cfg, buckets, requests, key), lo, lo + cfg.windowMs) <= cfg.max
      {
        KeysAreIndependent(cfg, buckets, requests, key);
        TimesAreOrdered(requests, key, if requests == [] then 0 else requests[0].now);
      }
    }
    if forall requests: seq<Request> :: InTimeOrder(requests) ==>
         Within(AdmittedOf(cfg, buckets, requests, key), lo, lo + cfg.windowMs) <= cfg.max {
      forall times | Ordered(times)
        ensures Within(Admitted(cfg, Lookup(buckets, key), times), lo, lo + cfg.windowMs) <= cfg.max
      {
        var requests := seq(|times|, i requires 0 <= i < |times| => Request(key, times[i]));
        TimesOfOneKey(requests, key, times);
        KeysAreIndependent(cfg, buckets, requests, key);
        assert InTimeOrder(requests);
      }
    }
  }

  lemma {:induction false} TimesOfOneKey(requests: seq<Request>, key: string, times: seq<int>)
    requires |requests| == |times| && forall i :: 0 <= i < |times| ==> requests[i] == Request(key, times[i])
    ensures TimesOf(requests, key) == times
  {
    if requests != [] {
      TimesOfOneKey(requests[1..], key, times[1..]);
      assert times == [times[0]] + times[1..];
    }
  }
}
