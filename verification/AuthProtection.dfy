/**
  The login and registration attempt limiter.

  A bucket summarises the failures of one e-mail or one address: how many since its window began, and until
  when it is locked. Buckets expire lazily, when they are next looked at, and a separate purge drops old ones.
  The first half states each operation as a function of the store; the classes below it change a store in
  place and are proved to compute exactly those functions. One clock reading stands for one call.
*/
module AuthProtection {
  import opened Common

  datatype Config = Config(
    enabled: bool,
    challengeEnabled: bool,
    failureLimit: int,
    challengeThreshold: int,
    window: real,
    lock: real)

  datatype BucketKey = BucketKey(bucketType: string, bucketKey: string)

  datatype Bucket = Bucket(
    failureCount: int,
    windowStartedAt: Instant,
    lockedUntil: Option<Instant>,
    challengeRequiredAt: Option<Instant>,
    lastFailureAt: Option<Instant>)

  /** An action with the already normalised e-mail and address it concerns. */
  datatype Subject = Subject(action: string, email: string, clientIp: string)

  /** How a limiter call ends: normally, or with one of its three exceptions. */
  datatype Outcome = Passed | RateLimited | ChallengeRequired | ChallengeFailed

  type Store = map<BucketKey, Bucket>

  function BucketKeys(who: Subject): seq<BucketKey> {
    var action := if who.action == "register" then "register" else "login";
    [BucketKey(action + ":email", who.email), BucketKey(action + ":ip", who.clientIp)]
  }

  /** The bucket no longer counts: its window is over and so is its lock, if it has one. */
  predicate Dead(cfg: Config, b: Bucket, now: Instant) {
    b.windowStartedAt + cfg.window <= now && (b.lockedUntil.None? || b.lockedUntil.value <= now)
  }

  /** The store after looking at `k`: a dead bucket is dropped on sight. */
  function Looked(cfg: Config, s: Store, k: BucketKey, now: Instant): Store {
    if k in s && Dead(cfg, s[k], now) then s - {k} else s
  }

  predicate Locked(b: Bucket, now: Instant) {
    b.lockedUntil.Some? && b.lockedUntil.value > now
  }

  function Verdict(cfg: Config, b: Bucket, now: Instant, hasToken: bool): Outcome {
    if Locked(b, now) then RateLimited
    else if cfg.challengeEnabled && b.failureCount >= cfg.challengeThreshold then
      if hasToken then ChallengeFailed else ChallengeRequired
    else Passed
  }

  /** `check` over a list of keys: the first bucket that objects ends the scan. */
  function CheckKeys(cfg: Config, s: Store, keys: seq<BucketKey>, now: Instant, hasToken: bool): (Store, Outcome)
    decreases |keys|
  {
    if keys == [] then (s, Passed)
    else
      var s' := Looked(cfg, s, keys[0], now);
      if keys[0] in s' && !Verdict(cfg, s'[keys[0]], now, hasToken).Passed? then
        (s', Verdict(cfg, s'[keys[0]], now, hasToken))
      else CheckKeys(cfg, s', keys[1..], now, hasToken)
  }

  /** A bucket with one more failure. */
  function Bumped(cfg: Config, b: Bucket, now: Instant): Bucket {
    var count := b.failureCount + 1;
    Bucket(
      count,
      b.windowStartedAt,
      if count > cfg.failureLimit then Some(now + cfg.lock) else b.lockedUntil,
      if cfg.challengeEnabled && count >= cfg.challengeThreshold && b.challengeRequiredAt.None? then Some(now)
      else b.challengeRequiredAt,
      Some(now))
  }

  function NewBucket(now: Instant): Bucket {
    Bucket(0, now, None, None, None)
  }

  function RecordKey(cfg: Config, s: Store, k: BucketKey, now: Instant): Store {
    var s' := Looked(cfg, s, k, now);
    s'[k := Bumped(cfg, if k in s' then s'[k] else NewBucket(now), now)]
  }

  /** `record_failure` over a list of keys: a bucket that is now locked ends the scan. */
  function RecordKeys(cfg: Config, s: Store, keys: seq<BucketKey>, now: Instant): (Store, Outcome)
    decreases |keys|
  {
    if keys == [] then (s, Passed)
    else
      var s' := RecordKey(cfg, s, keys[0], now);
      if Locked(s'[keys[0]], now) then (s', RateLimited) else RecordKeys(cfg, s', keys[1..], now)
  }

  function ClearKeys(s: Store, keys: seq<BucketKey>): Store
    decreases |keys|
  {
    if keys == [] then s else ClearKeys(s - {keys[0]}, keys[1..])
  }

  predicate Purgeable(b: Bucket, cutoff: Instant) {
    b.windowStartedAt < cutoff && (b.lockedUntil.None? || b.lockedUntil.value < cutoff)
  }

  function Purged(s: Store, cutoff: Instant): Store {
    map k | k in s && !Purgeable(s[k], cutoff) :: s[k]
  }

  lemma RemovedIsPurged(s: Store, expired: set<BucketKey>, cutoff: Instant)
    requires expired == set k | k in s && Purgeable(s[k], cutoff)
    ensures s - expired == Purged(s, cutoff)
    ensures |expired| == |s| - |Purged(s, cutoff)|
  {
  }

  function Checked(cfg: Config, s: Store, who: Subject, now: Instant, hasToken: bool): (Store, Outcome) {
    if cfg.enabled then CheckKeys(cfg, s, BucketKeys(who), now, hasToken) else (s, Passed)
  }

  function FailureRecorded(cfg: Config, s: Store, who: Subject, now: Instant): (Store, Outcome) {
    if cfg.enabled then RecordKeys(cfg, s, BucketKeys(who), now) else (s, Passed)
  }

  function Cleared(cfg: Config, s: Store, who: Subject): Store {
    if cfg.enabled then ClearKeys(s, BucketKeys(who)) else s
  }

  function PurgedAt(cfg: Config, s: Store, now: Instant): Store {
    Purged(s, now - (cfg.window + cfg.lock))
  }

  class InMemoryAuthAttemptStore {
    var buckets: Store

    constructor ()
      ensures buckets == map[]
    {
      buckets := map[];
    }

    method Get(k: BucketKey) returns (b: Option<Bucket>)
      ensures b == if k in buckets then Some(buckets[k]) else None
    {
      if k in buckets {
        b := Some(buckets[k]);
      } else {
        b := None;
      }
    }

    method Upsert(k: BucketKey, b: Bucket)
      modifies this
      ensures buckets == old(buckets)[k := b]
    {
      buckets := buckets[k := b];
    }

    method Clear(k: BucketKey)
      modifies this
      ensures buckets == old(buckets) - {k}
    {
      buckets := buckets - {k};
    }

    /** Drops what is purgeable, key by key, and says how many buckets went. */
    method PurgeExpired(cutoff: Instant) returns (n: nat)
      modifies this
      ensures buckets == Purged(old(buckets), cutoff)
      ensures n == |old(buckets)| - |buckets|
    {
      var expired := set k | k in buckets && Purgeable(buckets[k], cutoff);
      var todo := expired;
      while todo != {}
        invariant todo <= expired
        invariant buckets == old(buckets) - (expired - todo)
        decreases todo
      {
        var k :| k in todo;
        buckets := buckets - {k};
        todo := todo - {k};
      }
      n := |expired|;
      RemovedIsPurged(old(buckets), expired, cutoff);
    }
  }

  class AuthAttemptLimiter {
    const store: InMemoryAuthAttemptStore
    const config: Config

    constructor (store: InMemoryAuthAttemptStore, config: Config)
      ensures this.store == store && this.config == config
    {
      this.store := store;
      this.config := config;
    }

    method ActiveBucket(k: BucketKey, now: Instant) returns (b: Option<Bucket>)
      modifies store
      ensures store.buckets == Looked(config, old(store.buckets), k, now)
      ensures b == if k in store.buckets then Some(store.buckets[k]) else None
    {
      b := store.Get(k);
      if b.Some? && b.value.windowStartedAt + config.window <= now {
        if b.value.lockedUntil.None? || b.value.lockedUntil.value <= now {
          store.Clear(k);
          b := None;
        }
      }
    }

    method Check(who: Subject, now: Instant, hasToken: bool) returns (outcome: Outcome)
      modifies store
      ensures (store.buckets, outcome) == Checked(config, old(store.buckets), who, now, hasToken)
    {
      if !config.enabled {
        return Passed;
      }
      var keys := BucketKeys(who);
      var i := 0;
      while i < |keys|
        invariant 0 <= i <= |keys|
        invariant CheckKeys(config, old(store.buckets), keys, now, hasToken)
               == CheckKeys(config, store.buckets, keys[i..], now, hasToken)
      {
        var bucket := ActiveBucket(keys[i], now);
        if bucket.Some? {
          if bucket.value.lockedUntil.Some? && bucket.value.lockedUntil.value > now {
            return RateLimited;
          }
          if config.challengeEnabled && bucket.value.failureCount >= config.challengeThreshold {
            if !hasToken {
              return ChallengeRequired;
            }
            return ChallengeFailed;
          }
        }
        i := i + 1;
      }
      outcome := Passed;
    }

    method RecordBucketFailure(k: BucketKey, now: Instant) returns (outcome: Outcome)
      modifies store
      ensures store.buckets == RecordKey(config, old(store.buckets), k, now)
      ensures outcome == if Locked(store.buckets[k], now) then RateLimited else Passed
    {
      var active := ActiveBucket(k, now);
      var bucket := NewBucket(now);
      if active.Some? {
        bucket := active.value;
      }
      bucket := bucket.(failureCount := bucket.failureCount + 1);
      bucket := bucket.(lastFailureAt := Some(now));
      if config.challengeEnabled && bucket.failureCount >= config.challengeThreshold {
        if bucket.challengeRequiredAt.None? {
          bucket := bucket.(challengeRequiredAt := Some(now));
        }
      }
      if bucket.failureCount > config.failureLimit {
        bucket := bucket.(lockedUntil := Some(now + config.lock));
      }
      store.Upsert(k, bucket);
      outcome := Passed;
      if bucket.lockedUntil.Some? && bucket.lockedUntil.value > now {
        outcome := RateLimited;
      }
    }

    method RecordFailure(who: Subject, now: Instant) returns (outcome: Outcome)
      modifies store
      ensures (store.buckets, outcome) == FailureRecorded(config, old(store.buckets), who, now)
    {
      if !config.enabled {
        return Passed;
      }
      var keys := BucketKeys(who);
      var i := 0;
      while i < |keys|
        invariant 0 <= i <= |keys|
        invariant RecordKeys(config, old(store.buckets), keys, now)
               == RecordKeys(config, store.buckets, keys[i..], now)
      {
        outcome := RecordBucketFailure(keys[i], now);
        if outcome.RateLimited? {
          return outcome;
        }
        i := i + 1;
      }
      outcome := Passed;
    }

    method Clear(who: Subject)
      modifies store
      ensures store.buckets == Cleared(config, old(store.buckets), who)
    {
      if !config.enabled {
        return;
      }
      var keys := BucketKeys(who);
      var i := 0;
      while i < |keys|
        invariant 0 <= i <= |keys|
        invariant ClearKeys(old(store.buckets), keys) == ClearKeys(store.buckets, keys[i..])
      {
        store.Clear(keys[i]);
        i := i + 1;
      }
    }

    method PurgeExpired(now: Instant) returns (n: nat)
      modifies store
      ensures store.buckets == PurgedAt(config, old(store.buckets), now)
      ensures n == |old(store.buckets)| - |store.buckets|
    {
      n := store.PurgeExpired(now - (config.window + config.lock));
    }
  }
}
