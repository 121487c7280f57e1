// The per-key token bucket. Clock readings are parameters; they never decrease.
module RateLimiter {
  import opened Vectors

  datatype Config = Config(requestsPerMinute: int, burstSize: int)

  datatype Bucket = Bucket(tokens: real, lastRefill: real)

  type Buckets = map<string, Bucket>

  function Rate(cfg: Config): real {
    cfg.requestsPerMinute as real / 60.0
  }

  function Refill(cfg: Config, b: Bucket, now: real): Bucket {
    Bucket(Min(cfg.burstSize as real, b.tokens + Times(now - b.lastRefill, Rate(cfg))), now)
  }

  // The bucket that a request finds: a full one, created just before, if the key has none.
  function Found(cfg: Config, buckets: Buckets, key: string, created: real): Bucket {
    if key in buckets then buckets[key] else Bucket(cfg.burstSize as real, created)
  }

  function Allows(cfg: Config, buckets: Buckets, key: string, created: real, now: real): bool {
    Refill(cfg, Found(cfg, buckets, key, created), now).tokens >= 1.0
  }

  function After(cfg: Config, buckets: Buckets, key: string, created: real, now: real): Buckets {
    var b := Refill(cfg, Found(cfg, buckets, key, created), now);
    buckets[key := if b.tokens >= 1.0 then b.(tokens := b.tokens - 1.0) else b]
  }

  class RateLimiter {
    const config: Config
    var buckets: Buckets

    constructor (config: Config)
      ensures this.config == config && buckets == map[]
    {
      this.config, buckets := config, map[];
    }

    method IsAllowed(key: string, created: real, now: real) returns (ok: bool)
      modifies this
      ensures ok == Allows(config, old(buckets), key, created, now)
      ensures buckets == After(config, old(buckets), key, created, now)
    {
      if key !in buckets {
        buckets := buckets[key := Bucket(config.burstSize as real, created)];
      }
      RefillBucket(key, now);
      ok := buckets[key].tokens >= 1.0;
      if ok {
        buckets := buckets[key := buckets[key].(tokens := buckets[key].tokens - 1.0)];
      }
    }

    method RefillBucket(key: string, now: real)
      requires key in buckets
      modifies this
      ensures buckets == old(buckets)[key := Refill(config, old(buckets)[key], now)]
    {
      var elapsed := now - buckets[key].lastRefill;
      var refill := Times(elapsed, config.requestsPerMinute as real / 60.0);
      buckets := buckets[key := Bucket(Min(config.burstSize as real, buckets[key].tokens + refill), now)];
    }

    method Reset(key: string)
      modifies this
      ensures buckets == old(buckets) - {key}
    {
      buckets := buckets - {key};
    }
  }

  // ----- runs without reset -----

  datatype Call = Call(key: string, created: real, now: real)

  function Run(cfg: Config, calls: seq<Call>): Buckets {
    if |calls| == 0 then map[]
    else
      var c := calls[|calls| - 1];
      After(cfg, Run(cfg, calls[..|calls| - 1]), c.key, c.created, c.now)
  }

  // How many requests of a key were allowed between two times.
  function Allowed(cfg: Config, calls: seq<Call>, key: string, from: real, to: real): nat {
    if |calls| == 0 then 0
    else
      var before, c := calls[..|calls| - 1], calls[|calls| - 1];
      Allowed(cfg, before, key, from, to) +
      if c.key == key && from <= c.now <= to && Allows(cfg, Run(cfg, before), key, c.created, c.now) then 1 else 0
  }

  ghost predicate Clocked(calls: seq<Call>) {
    && (forall i :: 0 <= i < |calls| ==> calls[i].created <= calls[i].now)
    && (forall i, j :: 0 <= i < j < |calls| ==> calls[i].now <= calls[j].created)
  }

  predicate Sensible(cfg: Config) {
    cfg.requestsPerMinute >= 0 && cfg.burstSize >= 0
  }

  lemma TimesFacts(a: real, b: real, c: real, r: real)
    requires a <= b <= c && r >= 0.0
    ensures Times(b - a, r) >= 0.0
    ensures Times(b - a, r) + Times(c - b, r) == Times(c - a, r)
  {
  }

  ghost predicate InBounds(cfg: Config, b: Bucket, clock: real) {
    0.0 <= b.tokens <= cfg.burstSize as real && b.lastRefill <= clock
  }

  // No bucket ever holds a negative number of tokens, or more than the burst size.
  lemma {:induction false} TokensInBounds(cfg: Config, calls: seq<Call>)
    requires Sensible(cfg) && Clocked(calls)
    ensures forall key :: key in Run(cfg, calls) ==>
            |calls| > 0 && InBounds(cfg, Run(cfg, calls)[key], calls[|calls| - 1].now)
  {
    hide Times, Rate, Refill;
    if |calls| == 0 {
    } else {
      var before, c := calls[..|calls| - 1], calls[|calls| - 1];
      TokensInBounds(cfg, before);
      var found := Found(cfg, Run(cfg, before), c.key, c.created);
      RefillFacts(cfg, found, c.now);
    }
  }

  // What a window has used up and what is left of the bucket never exceed a full bucket and the
  // refill of the window so far.
  ghost predicate WindowAccount(cfg: Config, buckets: Buckets, key: string, from: real, to: real, used: nat) {
    if key !in buckets || buckets[key].lastRefill < from then used == 0
    else if buckets[key].lastRefill <= to then
      used as real + buckets[key].tokens <= cfg.burstSize as real + Times(buckets[key].lastRefill - from, Rate(cfg))
    else used as real <= cfg.burstSize as real + Times(to - from, Rate(cfg))
  }

  lemma RefillFacts(cfg: Config, b: Bucket, now: real)
    requires Sensible(cfg) && InBounds(cfg, b, now)
    ensures InBounds(cfg, Refill(cfg, b, now), now) && Refill(cfg, b, now).lastRefill == now
    ensures b.tokens <= Refill(cfg, b, now).tokens <= b.tokens + Times(now - b.lastRefill, Rate(cfg))
  {
    RateFacts(cfg);
    TimesFacts(b.lastRefill, now, now, Rate(cfg));
    hide Times, Rate;
  }

  lemma RateFacts(cfg: Config)
    requires Sensible(cfg)
    ensures Rate(cfg) >= 0.0
  {
  }

  lemma AccountAfter(cfg: Config, buckets: Buckets, c: Call, from: real, to: real, used: nat)
    requires Sensible(cfg) && from <= to && c.created <= c.now
    requires c.key in buckets ==> InBounds(cfg, buckets[c.key], c.now)
    requires WindowAccount(cfg, buckets, c.key, from, to, used)
    ensures WindowAccount(cfg, After(cfg, buckets, c.key, c.created, c.now), c.key, from, to,
                          used + if from <= c.now <= to && Allows(cfg, buckets, c.key, c.created, c.now) then 1 else 0)
  {
    var found, rate := Found(cfg, buckets, c.key, c.created), Rate(cfg);
    RefillFacts(cfg, found, c.now);
    RateFacts(cfg);
    hide Times, Rate, Refill;
    if from <= c.now {
      TimesFacts(from, c.now, c.now, rate);
      TimesFacts(from, to, to, rate);
      if from <= found.lastRefill {
        TimesFacts(from, found.lastRefill, c.now, rate);
        if found.lastRefill <= to {
          TimesFacts(from, found.lastRefill, to, rate);
          TimesFacts(found.lastRefill, to, to, rate);
        }
      }
    }
  }

  lemma {:induction false} AccountHolds(cfg: Config, calls: seq<Call>, key: string, from: real, to: real)
    requires Sensible(cfg) && Clocked(calls) && from <= to
    ensures WindowAccount(cfg, Run(cfg, calls), key, from, to, Allowed(cfg, calls, key, from, to))
  {
    if |calls| == 0 {
    } else {
      var before, c := calls[..|calls| - 1], calls[|calls| - 1];
      AccountHolds(cfg, before, key, from, to);
      TokensInBounds(cfg, before);
      if c.key == key {
        AccountAfter(cfg, Run(cfg, before), c, from, to, Allowed(cfg, before, key, from, to));
      }
    }
  }

  // In any window, at most a full bucket plus the refill over its length is allowed.
  lemma WindowBound(cfg: Config, calls: seq<Call>, key: string, from: real, to: real)
    requires Sensible(cfg) && Clocked(calls) && from <= to
    ensures Allowed(cfg, calls, key, from, to) as real <=
            cfg.burstSize as real + Times(to - from, cfg.requestsPerMinute as real / 60.0)
  {
    RateIs(cfg);
    AccountHolds(cfg, calls, key, from, to);
    TokensInBounds(cfg, calls);
    RateFacts(cfg);
    hide Times, Rate, Run, Allowed;
    var buckets, rate := Run(cfg, calls), Rate(cfg);
    TimesFacts(from, to, to, rate);
    if key in buckets && from <= buckets[key].lastRefill <= to {
      TimesFacts(from, buckets[key].lastRefill, to, rate);
      TimesFacts(buckets[key].lastRefill, to, to, rate);
    }
  }

  // ----- keys do not affect one another -----

  function Only(calls: seq<Call>, key: string): seq<Call> {
    if |calls| == 0 then []
    else
      var c := calls[|calls| - 1];
      Only(calls[..|calls| - 1], key) + if c.key == key then [c] else []
  }

  ghost predicate SameBucket(a: Buckets, b: Buckets, key: string) {
    (key in a <==> key in b) && (key in a ==> a[key] == b[key])
  }

  lemma AllowsByBucket(cfg: Config, a: Buckets, b: Buckets, key: string, created: real, now: real)
    requires SameBucket(a, b, key)
    ensures Allows(cfg, a, key, created, now) == Allows(cfg, b, key, created, now)
    ensures SameBucket(After(cfg, a, key, created, now), After(cfg, b, key, created, now), key)
  {
    hide Refill;
  }

  lemma BucketOfAnother(cfg: Config, a: Buckets, key: string, other: string, created: real, now: real)
    requires key != other
    ensures SameBucket(After(cfg, a, other, created, now), a, key)
  {
    hide Refill;
  }

  // Over every run, a key's bucket, the decisions on its requests and how many of them were allowed
  // are what they would have been without the other keys' requests.
  lemma {:induction false} OtherKeys(cfg: Config, calls: seq<Call>, key: string)
    ensures SameBucket(Run(cfg, calls), Run(cfg, Only(calls, key)), key)
    ensures forall created, now ::
              Allows(cfg, Run(cfg, calls), key, created, now) ==
                  Allows(cfg, Run(cfg, Only(calls, key)), key, created, now)
    ensures forall from, to :: Allowed(cfg, calls, key, from, to) == Allowed(cfg, Only(calls, key), key, from, to)
  {
    if |calls| == 0 {
    } else {
      var before, c := calls[..|calls| - 1], calls[|calls| - 1];
      OtherKeys(cfg, before, key);
      if c.key == key {
        AllowsByBucket(cfg, Run(cfg, before), Run(cfg, Only(before, key)), key, c.created, c.now);
        var own := Only(calls, key);
        assert own[..|own| - 1] == Only(before, key) && own[|own| - 1] == c;
        hide Allows, After;
      } else {
        BucketOfAnother(cfg, Run(cfg, before), key, c.key, c.created, c.now);
        assert Only(calls, key) == Only(before, key);
        hide Allows, After;
      }
    }
    forall created, now ensures
        Allows(cfg, Run(cfg, calls), key, created, now) == Allows(cfg, Run(cfg, Only(calls, key)), key, created, now) {
      AllowsByBucket(cfg, Run(cfg, calls), Run(cfg, Only(calls, key)), key, created, now);
    }
  }

  // Each request of a key takes at most one token from its bucket.
  lemma {:induction false} TokensLeft(cfg: Config, calls: seq<Call>, key: string)
    requires Sensible(cfg) && Clocked(calls) && |Only(calls, key)| <= cfg.burstSize
    ensures key in Run(cfg, calls) ==> Run(cfg, calls)[key].tokens >= (cfg.burstSize - |Only(calls, key)|) as real
  {
    if |calls| == 0 {
    } else {
      var before, c := calls[..|calls| - 1], calls[|calls| - 1];
      TokensLeft(cfg, before, key);
      TokensInBounds(cfg, before);
      hide Times, Rate, Refill, Clocked;
      if c.key == key {
        RefillFacts(cfg, Found(cfg, Run(cfg, before), key, c.created), c.now);
      }
    }
  }

  // The bound is met: a key's first burstSize requests are allowed, at whatever times and whatever
  // else is asked in between.
  lemma FirstBurst(cfg: Config, calls: seq<Call>, next: Call)
    requires Sensible(cfg) && Clocked(calls + [next]) && |Only(calls, next.key)| < cfg.burstSize
    ensures Allows(cfg, Run(cfg, calls), next.key, next.created, next.now)
  {
    var all := calls + [next];
    assert forall i :: 0 <= i < |calls| ==> all[i] == calls[i];
    assert all[|calls|] == next;
    TokensLeft(cfg, calls, next.key);
    TokensInBounds(cfg, calls);
    hide Times, Rate, Refill, Run;
    RefillFacts(cfg, Found(cfg, Run(cfg, calls), next.key, next.created), next.now);
  }

  // ----- what exactly is refused -----

  // A window over which the bucket was refilled without being full, and was full at its start.
  ghost predicate SinceFull(cfg: Config, b: Bucket, from: real, used: nat) {
    from <= b.lastRefill && used as real + b.tokens >= cfg.burstSize as real + Times(b.lastRefill - from, Rate(cfg))
  }

  lemma {:induction false} AllowedGrows(cfg: Config, calls: seq<Call>, key: string, from: real, to: real, later: real)
    requires to <= later
    ensures Allowed(cfg, calls, key, from, to) <= Allowed(cfg, calls, key, from, later)
  {
    if |calls| == 0 {
    } else {
      AllowedGrows(cfg, calls[..|calls| - 1], key, from, to, later);
    }
  }

  // A refill that does not fill the bucket adds its whole amount, and one that does starts anew.
  lemma SinceFullRefilled(cfg: Config, b: Bucket, now: real, from: real, used: nat) returns (from': real)
    requires Sensible(cfg) && InBounds(cfg, b, now) && SinceFull(cfg, b, from, used)
    ensures from' == from || from' == now
    ensures SinceFull(cfg, Refill(cfg, b, now), from', if from' == from then used else 0)
  {
    var rate := Rate(cfg);
    TimesFacts(from, b.lastRefill, now, rate) by {
      RateFacts(cfg);
    }
    TimesFacts(now, now, now, rate) by {
      RateFacts(cfg);
    }
    hide Times, Rate;
    from' := if Refill(cfg, b, now).tokens == cfg.burstSize as real then now else from;
  }

  lemma {:induction false} FullBefore(cfg: Config, calls: seq<Call>, key: string) returns (from: real)
    requires Sensible(cfg) && Clocked(calls) && key in Run(cfg, calls)
    ensures SinceFull(cfg, Run(cfg, calls)[key], from,
              Allowed(cfg, calls, key, from, Run(cfg, calls)[key].lastRefill))
  {
    if |calls| == 0 {
    } else {
      var before, c := calls[..|calls| - 1], calls[|calls| - 1];
      var earlier := Run(cfg, before);
      TokensInBounds(cfg, before);
      if c.key != key {
        from := FullBefore(cfg, before, key);
      } else {
        var found := Found(cfg, earlier, key, c.created);
        var used := 0;
        if key in earlier {
          from := FullBefore(cfg, before, key);
          AllowedGrows(cfg, before, key, from, found.lastRefill, c.now);
          used := Allowed(cfg, before, key, from, found.lastRefill);
        } else {
          from := c.created;
          TimesFacts(from, from, from, Rate(cfg)) by {
            RateFacts(cfg);
          }
        }
        RefillFacts(cfg, found, c.now);
        hide Times, Rate, Refill;
        from := SinceFullRefilled(cfg, found, c.now, from, used);
      }
    }
  }

  // More was allowed to a key over a window than the burst size less one and the rate per minute.
  ghost predicate UsedUp(cfg: Config, calls: seq<Call>, key: string, from: real, to: real) {
    && from <= to
    && Allowed(cfg, calls, key, from, to) as real >
       (cfg.burstSize - 1) as real + Times(to - from, cfg.requestsPerMinute as real / 60.0)
  }

  // A request is refused exactly if, over some window that ends with it, so much was allowed already.
  lemma RefusedIff(cfg: Config, calls: seq<Call>, next: Call)
    requires Sensible(cfg) && Clocked(calls + [next])
    ensures !Allows(cfg, Run(cfg, calls), next.key, next.created, next.now) <==>
            exists from :: UsedUp(cfg, calls, next.key, from, next.now)
  {
    var all := calls + [next];
    assert all[..|calls|] == calls && all[|calls|] == next;
    assert forall i :: 0 <= i < |calls| ==> all[i] == calls[i];
    if Allows(cfg, Run(cfg, calls), next.key, next.created, next.now) {
      hide Times;
      forall from ensures !UsedUp(cfg, calls, next.key, from, next.now) {
        if from <= next.now {
          WindowBound(cfg, all, next.key, from, next.now);
        }
      }
    } else {
      var from := RefusedAfter(cfg, calls, next);
    }
  }

  lemma RefusedAfter(cfg: Config, calls: seq<Call>, next: Call) returns (from: real)
    requires Sensible(cfg) && Clocked(calls + [next])
    requires !Allows(cfg, Run(cfg, calls), next.key, next.created, next.now)
    ensures UsedUp(cfg, calls, next.key, from, next.now)
  {
    var all := calls + [next];
    assert all[..|calls|] == calls && all[|calls|] == next;
    from := FullBefore(cfg, all, next.key);
    RateIs(cfg);
    hide Times, Rate, Refill, Clocked;
  }

  lemma RateIs(cfg: Config)
    ensures Rate(cfg) == cfg.requestsPerMinute as real / 60.0
  {
  }

  // A key that has waited for one token's worth of time is allowed, unless the burst size is zero.
  lemma AllowedAfterWaiting(cfg: Config, calls: seq<Call>, key: string, created: real, now: real)
    requires Sensible(cfg) && Clocked(calls) && cfg.burstSize >= 1 && key in Run(cfg, calls)
    requires Times(now - Run(cfg, calls)[key].lastRefill, cfg.requestsPerMinute as real / 60.0) >= 1.0
    ensures Allows(cfg, Run(cfg, calls), key, created, now)
  {
    TokensInBounds(cfg, calls);
    RateIs(cfg);
    hide Times, Rate, Run;
  }
}
