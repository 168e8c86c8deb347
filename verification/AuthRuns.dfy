/** Whole runs of the attempt limiter: garbage collection is invisible, and a bucket is a summary of a log. */
module AuthRuns {
  import opened Common
  import opened AuthProtection

  datatype Op =
    | Check(who: Subject, at: Instant, hasToken: bool)
    | RecordFailure(who: Subject, at: Instant)
    | Clear(who: Subject, at: Instant)
    | Purge(at: Instant)

  function Step(cfg: Config, s: Store, op: Op): (Store, Outcome) {
    match op
    case Check(who, now, hasToken) => Checked(cfg, s, who, now, hasToken)
    case RecordFailure(who, now) => FailureRecorded(cfg, s, who, now)
    case Clear(who, _) => (Cleared(cfg, s, who), Passed)
    case Purge(now) => (PurgedAt(cfg, s, now), Passed)
  }

  function Run(cfg: Config, s: Store, ops: seq<Op>): Store
    decreases |ops|
  {
    if ops == [] then s else Run(cfg, Step(cfg, s, ops[0]).0, ops[1..])
  }

  /** What the callers of check, record_failure and clear get to see. */
  function Observed(cfg: Config, s: Store, ops: seq<Op>): seq<Outcome>
    decreases |ops|
  {
    if ops == [] then []
    else
      var (s', outcome) := Step(cfg, s, ops[0]);
      (if ops[0].Purge? then [] else [outcome]) + Observed(cfg, s', ops[1..])
  }

  function WithoutPurges(ops: seq<Op>): seq<Op> {
    if ops == [] then []
    else (if ops[0].Purge? then [] else [ops[0]]) + WithoutPurges(ops[1..])
  }

  /** The clock does not run backwards, and every call is made at or after `start`. */
  ghost predicate Chronological(ops: seq<Op>, start: Instant)
    decreases |ops|
  {
    ops != [] ==> start <= ops[0].at && Chronological(ops[1..], ops[0].at)
  }

  function End(ops: seq<Op>, start: Instant): Instant {
    if ops == [] then start else ops[|ops| - 1].at
  }

  // ----- Purging -----------------------------------------------------------------------------------------

  /** Settings do not check the sign of either duration; this is what the purge needs of them. */
  predicate PurgeSafe(cfg: Config) {
    0.0 <= cfg.lock && 0.0 <= cfg.window + cfg.lock
  }

  ghost predicate PurgesOnlyDead(cfg: Config) {
    forall b: Bucket, now: Instant :: Purgeable(b, now - (cfg.window + cfg.lock)) ==> Dead(cfg, b, now)
  }

  /** The purge takes nothing but dead buckets exactly when the durations are safe. */
  lemma {:induction false} PurgesOnlyDeadIffSafe(cfg: Config)
    ensures PurgesOnlyDead(cfg) <==> PurgeSafe(cfg)
  {
    if cfg.lock < 0.0 {
      var open := Bucket(1, 0.0 - cfg.window - cfg.lock / 2.0, None, None, None);
      assert Purgeable(open, 0.0 - (cfg.window + cfg.lock)) && !Dead(cfg, open, 0.0);
    } else if cfg.window + cfg.lock < 0.0 {
      var span := 0.0 - (cfg.window + cfg.lock);
      var locked := Bucket(1, 0.0, Some(span / 2.0), None, None);
      assert Purgeable(locked, 0.0 - (cfg.window + cfg.lock)) && !Dead(cfg, locked, 0.0);
    }
  }

  /** `a` is `b` less some buckets that no caller can tell from absent ones. */
  ghost predicate SameButDead(cfg: Config, a: Store, b: Store, now: Instant) {
    && (forall k :: k in a ==> k in b && a[k] == b[k])
    && (forall k :: k in b && k !in a ==> Dead(cfg, b[k], now))
  }

  lemma {:induction false} CheckAgrees(
    cfg: Config, a: Store, b: Store, keys: seq<BucketKey>, now: Instant, hasToken: bool)
    requires SameButDead(cfg, a, b, now)
    ensures CheckKeys(cfg, a, keys, now, hasToken).1 == CheckKeys(cfg, b, keys, now, hasToken).1
    ensures SameButDead(cfg, CheckKeys(cfg, a, keys, now, hasToken).0, CheckKeys(cfg, b, keys, now, hasToken).0, now)
    decreases |keys|
  {
    if keys == [] {
    } else {
      CheckAgrees(cfg, Looked(cfg, a, keys[0], now), Looked(cfg, b, keys[0], now), keys[1..], now, hasToken);
    }
  }

  lemma {:induction false} RecordAgrees(cfg: Config, a: Store, b: Store, keys: seq<BucketKey>, now: Instant)
    requires SameButDead(cfg, a, b, now)
    ensures RecordKeys(cfg, a, keys, now).1 == RecordKeys(cfg, b, keys, now).1
    ensures SameButDead(cfg, RecordKeys(cfg, a, keys, now).0, RecordKeys(cfg, b, keys, now).0, now)
    decreases |keys|
  {
    if keys == [] {
    } else {
      RecordAgrees(cfg, RecordKey(cfg, a, keys[0], now), RecordKey(cfg, b, keys[0], now), keys[1..], now);
    }
  }

  lemma {:induction false} ClearAgrees(cfg: Config, a: Store, b: Store, keys: seq<BucketKey>, now: Instant)
    requires SameButDead(cfg, a, b, now)
    ensures SameButDead(cfg, ClearKeys(a, keys), ClearKeys(b, keys), now)
    decreases |keys|
  {
    if keys == [] {
    } else {
      ClearAgrees(cfg, a - {keys[0]}, b - {keys[0]}, keys[1..], now);
    }
  }

  /** A step, done with the purges to `a` and without them to `b`. */
  function Unpurged(cfg: Config, b: Store, op: Op): Store {
    if op.Purge? then b else Step(cfg, b, op).0
  }

  /** What one step shows, with and without the purges; the rest of the run follows. */
  lemma ObservedStep(cfg: Config, a: Store, b: Store, ops: seq<Op>)
    requires ops != []
    requires ops[0].Purge? || Step(cfg, a, ops[0]).1 == Step(cfg, b, ops[0]).1
    requires Observed(cfg, Step(cfg, a, ops[0]).0, ops[1..])
          == Observed(cfg, Unpurged(cfg, b, ops[0]), WithoutPurges(ops[1..]))
    ensures Observed(cfg, a, ops) == Observed(cfg, b, WithoutPurges(ops))
  {
    hide Step;
    var kept, rest := WithoutPurges(ops), WithoutPurges(ops[1..]);
    if ops[0].Purge? {
      assert kept == rest;
      assert Observed(cfg, a, ops) == Observed(cfg, Step(cfg, a, ops[0]).0, ops[1..]);
    } else {
      assert kept[0] == ops[0] && kept[1..] == rest;
    }
  }

  lemma {:induction false} SafePurgesAreHidden(cfg: Config, a: Store, b: Store, ops: seq<Op>, start: Instant)
    requires PurgeSafe(cfg) && Chronological(ops, start) && SameButDead(cfg, a, b, start)
    ensures Observed(cfg, a, ops) == Observed(cfg, b, WithoutPurges(ops))
    decreases |ops|
  {
    if ops == [] {
    } else {
      var op := ops[0];
      assert SameButDead(cfg, a, b, op.at);
      match op {
        case Check(who, now, hasToken) => CheckAgrees(cfg, a, b, BucketKeys(who), now, hasToken);
        case RecordFailure(who, now) => RecordAgrees(cfg, a, b, BucketKeys(who), now);
        case Clear(who, now) => ClearAgrees(cfg, a, b, BucketKeys(who), now);
        case Purge(now) => PurgesOnlyDeadIffSafe(cfg);
      }
      SafePurgesAreHidden(cfg, Step(cfg, a, op).0, Unpurged(cfg, b, op), ops[1..], op.at);
      ObservedStep(cfg, a, b, ops);
    }
  }

  // ----- Purging with a negative lock and without challenges ------------------------------------------------

  /** Only locks can be seen, and the stores agree on every bucket that is locked. */
  ghost predicate SameLocks(a: Store, b: Store, now: Instant) {
    && (forall k :: k in a && Locked(a[k], now) ==> k in b && b[k] == a[k])
    && (forall k :: k in b && Locked(b[k], now) ==> k in a && a[k] == b[k])
  }

  lemma {:induction false} CheckSeesLocks(
    cfg: Config, a: Store, b: Store, keys: seq<BucketKey>, now: Instant, hasToken: bool)
    requires !cfg.challengeEnabled && SameLocks(a, b, now)
    ensures CheckKeys(cfg, a, keys, now, hasToken).1 == CheckKeys(cfg, b, keys, now, hasToken).1
    ensures SameLocks(CheckKeys(cfg, a, keys, now, hasToken).0, CheckKeys(cfg, b, keys, now, hasToken).0, now)
    decreases |keys|
  {
    if keys == [] {
    } else {
      CheckSeesLocks(cfg, Looked(cfg, a, keys[0], now), Looked(cfg, b, keys[0], now), keys[1..], now, hasToken);
    }
  }

  lemma {:induction false} RecordSeesLocks(cfg: Config, a: Store, b: Store, keys: seq<BucketKey>, now: Instant)
    requires cfg.lock < 0.0 && !cfg.challengeEnabled && SameLocks(a, b, now)
    ensures RecordKeys(cfg, a, keys, now).1 == RecordKeys(cfg, b, keys, now).1
    ensures SameLocks(RecordKeys(cfg, a, keys, now).0, RecordKeys(cfg, b, keys, now).0, now)
    decreases |keys|
  {
    if keys == [] {
    } else {
      RecordSeesLocks(cfg, RecordKey(cfg, a, keys[0], now), RecordKey(cfg, b, keys[0], now), keys[1..], now);
    }
  }

  lemma {:induction false} ClearSeesLocks(a: Store, b: Store, keys: seq<BucketKey>, now: Instant)
    requires SameLocks(a, b, now)
    ensures SameLocks(ClearKeys(a, keys), ClearKeys(b, keys), now)
    decreases |keys|
  {
    if keys == [] {
    } else {
      ClearSeesLocks(a - {keys[0]}, b - {keys[0]}, keys[1..], now);
    }
  }

  lemma {:induction false} LocksAloneAreSeen(cfg: Config, a: Store, b: Store, ops: seq<Op>, start: Instant)
    requires cfg.lock < 0.0 <= cfg.window + cfg.lock && !cfg.challengeEnabled
    requires Chronological(ops, start) && SameLocks(a, b, start)
    ensures Observed(cfg, a, ops) == Observed(cfg, b, WithoutPurges(ops))
    decreases |ops|
  {
    if ops == [] {
    } else {
      var op := ops[0];
      assert SameLocks(a, b, op.at);
      match op {
        case Check(who, now, hasToken) => CheckSeesLocks(cfg, a, b, BucketKeys(who), now, hasToken);
        case RecordFailure(who, now) => RecordSeesLocks(cfg, a, b, BucketKeys(who), now);
        case Clear(who, now) => ClearSeesLocks(a, b, BucketKeys(who), now);
        case Purge(now) =>
      }
      LocksAloneAreSeen(cfg, Step(cfg, a, op).0, Unpurged(cfg, b, op), ops[1..], op.at);
      ObservedStep(cfg, a, b, ops);
    }
  }

  // ----- When purging can be noticed, whatever the store holds ----------------------------------------------

  lemma {:induction false} DisabledShowsNothing(cfg: Config, a: Store, b: Store, ops: seq<Op>)
    requires !cfg.enabled
    ensures Observed(cfg, a, ops) == Observed(cfg, b, WithoutPurges(ops))
    decreases |ops|
  {
    if ops == [] {
    } else {
      DisabledShowsNothing(cfg, Step(cfg, a, ops[0]).0, Unpurged(cfg, b, ops[0]), ops[1..]);
      ObservedStep(cfg, a, b, ops);
    }
  }

  const SOMEONE := Subject("login", "a@example.com", "192.0.2.1")

  /** The run shows its callers the same with its purges and without them. */
  ghost predicate Hidden(cfg: Config, s: Store, ops: seq<Op>) {
    Observed(cfg, s, ops) == Observed(cfg, s, WithoutPurges(ops))
  }

  /** A purge that empties the store, and then a check that would have objected. */
  lemma TwoStepsTell(cfg: Config, s: Store, now: Instant)
    requires cfg.enabled && BucketKeys(SOMEONE)[0] in s
    requires forall k :: k in s ==> Purgeable(s[k], now - (cfg.window + cfg.lock))
    requires var b := s[BucketKeys(SOMEONE)[0]]; !Dead(cfg, b, now) && !Verdict(cfg, b, now, false).Passed?
    ensures !Hidden(cfg, s, [Purge(now), Check(SOMEONE, now, false)])
  {
    var keys := BucketKeys(SOMEONE);
    var check := Check(SOMEONE, now, false);
    var ops := [Purge(now), check];
    assert ops[1..] == [check] && [check][1..] == [];
    assert WithoutPurges([check]) == [check] + WithoutPurges([]);
    assert PurgedAt(cfg, s, now) == map[];
    assert keys[1..][1..] == [];
    assert CheckKeys(cfg, map[], keys[1..], now, false) == (map[], Passed);
    assert Checked(cfg, map[], SOMEONE, now, false) == (map[], Passed);
    assert Observed(cfg, map[], [check]) == [Passed] + Observed(cfg, map[], []);
    assert Observed(cfg, s, ops) == Observed(cfg, PurgedAt(cfg, s, now), [check]);
    assert WithoutPurges(ops) == [check];
    assert Checked(cfg, s, SOMEONE, now, false).1 == Verdict(cfg, s[keys[0]], now, false);
    assert Observed(cfg, s, [check])[0] == Verdict(cfg, s[keys[0]], now, false);
  }

  /** With these settings a purge can remove a bucket that a check would have objected to. */
  lemma UnsafePurgesShow(cfg: Config) returns (s: Store)
    requires cfg.enabled
    requires cfg.window + cfg.lock < 0.0 || (cfg.lock < 0.0 && cfg.challengeEnabled)
    ensures !Hidden(cfg, s, [Purge(0.0), Check(SOMEONE, 0.0, false)])
  {
    var span := 0.0 - (cfg.window + cfg.lock);
    var b := if span > 0.0 then Bucket(1, 0.0, Some(span / 2.0), None, Some(0.0))
             else Bucket(cfg.challengeThreshold, 0.0 - cfg.window - cfg.lock / 2.0, None, None, None);
    s := map[BucketKeys(SOMEONE)[0] := b];
    TwoStepsTell(cfg, s, 0.0);
  }

  /** A limiter that purges at arbitrary moments answers every call like one that never purges. */
  ghost predicate Unobservable(cfg: Config) {
    forall s: Store, ops: seq<Op>, start: Instant :: Chronological(ops, start) ==> Hidden(cfg, s, ops)
  }

  /** Purging is unobservable, from every store and in every run, exactly with these settings. */
  lemma {:induction false} PurgeIsUnobservable(cfg: Config)
    ensures Unobservable(cfg) <==>
              !cfg.enabled || (0.0 <= cfg.window + cfg.lock && (0.0 <= cfg.lock || !cfg.challengeEnabled))
  {
    if cfg.enabled && (cfg.window + cfg.lock < 0.0 || (cfg.lock < 0.0 && cfg.challengeEnabled)) {
      var s := UnsafePurgesShow(cfg);
      assert Chronological([Purge(0.0), Check(SOMEONE, 0.0, false)], 0.0);
    } else {
      forall s: Store, ops: seq<Op>, start: Instant | Chronological(ops, start)
        ensures Hidden(cfg, s, ops)
      {
        if !cfg.enabled {
          DisabledShowsNothing(cfg, s, s, ops);
        } else if 0.0 <= cfg.lock {
          SafePurgesAreHidden(cfg, s, s, ops, start);
        } else {
          LocksAloneAreSeen(cfg, s, s, ops, start);
        }
      }
    }
  }

  // ----- When purging can be noticed, starting from the empty store -----------------------------------------

  /** No bucket that a run can make ever objects: none stays locked, and none lives to ask for a challenge. */
  predicate Silent(cfg: Config) {
    || (cfg.window <= 0.0 && 1 <= cfg.failureLimit)
    || (cfg.lock <= 0.0 && (cfg.window <= 0.0 || !cfg.challengeEnabled))
  }

  ghost predicate Mute(s: Store, now: Instant) {
    forall k :: k in s ==> s[k].windowStartedAt <= now && !Locked(s[k], now)
  }

  lemma {:induction false} CheckStaysMute(
    cfg: Config, s: Store, keys: seq<BucketKey>, now: Instant, hasToken: bool)
    requires Silent(cfg) && Mute(s, now)
    ensures CheckKeys(cfg, s, keys, now, hasToken).1.Passed? && Mute(CheckKeys(cfg, s, keys, now, hasToken).0, now)
    decreases |keys|
  {
    if keys == [] {
    } else {
      CheckStaysMute(cfg, Looked(cfg, s, keys[0], now), keys[1..], now, hasToken);
    }
  }

  lemma {:induction false} RecordStaysMute(cfg: Config, s: Store, keys: seq<BucketKey>, now: Instant)
    requires Silent(cfg) && Mute(s, now)
    ensures RecordKeys(cfg, s, keys, now).1.Passed? && Mute(RecordKeys(cfg, s, keys, now).0, now)
    decreases |keys|
  {
    if keys == [] {
    } else {
      RecordStaysMute(cfg, RecordKey(cfg, s, keys[0], now), keys[1..], now);
    }
  }

  lemma {:induction false} StepStaysMute(cfg: Config, s: Store, op: Op, start: Instant)
    requires Silent(cfg) && Mute(s, start) && start <= op.at
    ensures Step(cfg, s, op).1.Passed? && Mute(Step(cfg, s, op).0, op.at)
  {
    assert Mute(s, op.at);
    match op {
      case Check(who, now, hasToken) => CheckStaysMute(cfg, s, BucketKeys(who), now, hasToken);
      case RecordFailure(who, now) => RecordStaysMute(cfg, s, BucketKeys(who), now);
      case Clear(who, now) =>
        forall k | k in ClearKeys(s, BucketKeys(who))
          ensures k in s && ClearKeys(s, BucketKeys(who))[k] == s[k]
        {
          ClearRemovesExactly(s, BucketKeys(who), k);
        }
      case Purge(now) =>
    }
  }

  lemma {:induction false} SilenceHides(cfg: Config, a: Store, b: Store, ops: seq<Op>, start: Instant)
    requires Silent(cfg) && Chronological(ops, start) && Mute(a, start) && Mute(b, start)
    ensures Observed(cfg, a, ops) == Observed(cfg, b, WithoutPurges(ops))
    decreases |ops|
  {
    if ops == [] {
    } else {
      StepStaysMute(cfg, a, ops[0], start);
      StepStaysMute(cfg, b, ops[0], start);
      assert Mute(b, ops[0].at);
      SilenceHides(cfg, Step(cfg, a, ops[0]).0, Unpurged(cfg, b, ops[0]), ops[1..], ops[0].at);
      ObservedStep(cfg, a, b, ops);
    }
  }

  function Failures(n: nat): seq<Op> {
    seq(n, _ => RecordFailure(SOMEONE, 0.0))
  }

  /** What `n` failures at time 0 leave behind when none of them locks for longer than an instant. */
  ghost predicate Piled(cfg: Config, s: Store, n: nat) {
    && (forall k :: k in s ==>
          s[k].windowStartedAt == 0.0 && (s[k].lockedUntil.Some? ==> s[k].lockedUntil.value == cfg.lock))
    && (n > 0 ==> BucketKeys(SOMEONE)[0] in s)
    && (BucketKeys(SOMEONE)[0] in s ==> s[BucketKeys(SOMEONE)[0]].failureCount == n)
  }

  lemma {:induction false} FailuresPile(cfg: Config, s: Store, done: nat, n: nat)
    requires cfg.enabled && cfg.lock < 0.0 < cfg.window && Piled(cfg, s, done)
    ensures Piled(cfg, Run(cfg, s, Failures(n)), done + n)
    decreases n
  {
    if n == 0 {
    } else {
      var keys := BucketKeys(SOMEONE);
      var s1 := RecordKey(cfg, s, keys[0], 0.0);
      assert |keys[0].bucketType| != |keys[1].bucketType|;
      assert keys[1..] == [keys[1]] && keys[1..][1..] == [];
      assert RecordKeys(cfg, s1, keys[1..], 0.0).0 == RecordKey(cfg, s1, keys[1], 0.0);
      assert Failures(n)[1..] == Failures(n - 1);
      FailuresPile(cfg, FailureRecorded(cfg, s, SOMEONE, 0.0).0, done + 1, n - 1);
    }
  }

  /** Whatever the failures leave behind, a run from there can be told apart from the empty store too. */
  lemma {:induction false} AfterFailures(cfg: Config, s: Store, n: nat, now: Instant)
    requires !Hidden(cfg, Run(cfg, s, Failures(n)), [Purge(now), Check(SOMEONE, now, false)])
    ensures !Hidden(cfg, s, Failures(n) + [Purge(now), Check(SOMEONE, now, false)])
    decreases n
  {
    var tail := [Purge(now), Check(SOMEONE, now, false)];
    if n == 0 {
      assert Failures(n) + tail == tail;
    } else {
      var ops := Failures(n) + tail;
      assert Failures(n)[1..] == Failures(n - 1) && ops[1..] == Failures(n - 1) + tail;
      var s' := Step(cfg, s, ops[0]).0;
      AfterFailures(cfg, s', n - 1, now);
      assert WithoutPurges(ops)[1..] == WithoutPurges(ops[1..]);
      assert Observed(cfg, s, ops)[1..] == Observed(cfg, s', ops[1..]);
      assert Observed(cfg, s, WithoutPurges(ops))[1..] == Observed(cfg, s', WithoutPurges(ops[1..]));
    }
  }

  lemma {:induction false} FailuresAreChronological(n: nat, now: Instant)
    requires 0.0 <= now
    ensures Chronological(Failures(n) + [Purge(now), Check(SOMEONE, now, false)], 0.0)
  {
    var ops := Failures(n) + [Purge(now), Check(SOMEONE, now, false)];
    if n == 0 {
      assert ops[1..] == [Check(SOMEONE, now, false)] && ops[1..][1..] == [];
    } else {
      assert ops[1..] == Failures(n - 1) + [Purge(now), Check(SOMEONE, now, false)];
      FailuresAreChronological(n - 1, now);
    }
  }

  /** A due challenge is forgotten: enough failures at once, and a purge while their window is still open. */
  lemma ForgottenChallenge(cfg: Config) returns (n: nat, now: Instant)
    requires cfg.enabled && cfg.challengeEnabled && cfg.lock < 0.0 < cfg.window
    ensures 0.0 <= now && !Hidden(cfg, map[], Failures(n) + [Purge(now), Check(SOMEONE, now, false)])
  {
    n := Max(cfg.challengeThreshold, 1);
    now := if cfg.window + cfg.lock > 0.0 then cfg.window + cfg.lock / 2.0 else cfg.window / 2.0;
    FailuresPile(cfg, map[], 0, n);
    TwoStepsTell(cfg, Run(cfg, map[], Failures(n)), now);
    AfterFailures(cfg, map[], n, now);
  }

  /** A lock is forgotten: one failure locks at once, and a purge comes before the lock runs out. */
  lemma ForgottenLock(cfg: Config) returns (n: nat, now: Instant)
    requires cfg.enabled && cfg.failureLimit < 1 && 0.0 < cfg.lock && cfg.window + cfg.lock < 0.0
    ensures 0.0 <= now && !Hidden(cfg, map[], Failures(n) + [Purge(now), Check(SOMEONE, now, false)])
  {
    n := 1;
    var early := cfg.window + 2.0 * cfg.lock;
    now := if early > 0.0 then (early + cfg.lock) / 2.0 else cfg.lock / 2.0;
    assert Failures(1)[1..] == [];
    var s := Run(cfg, map[], Failures(1));
    assert s == map[BucketKeys(SOMEONE)[0] := Bumped(cfg, NewBucket(0.0), 0.0)];
    TwoStepsTell(cfg, s, now);
    AfterFailures(cfg, map[], n, now);
  }

  ghost predicate UnobservableFromScratch(cfg: Config) {
    forall ops: seq<Op>, start: Instant :: Chronological(ops, start) ==> Hidden(cfg, map[], ops)
  }

  /** The same of the stores a run can reach: there it also stays unnoticed with settings that are silent. */
  lemma {:induction false} PurgeIsUnobservableFromScratch(cfg: Config)
    ensures UnobservableFromScratch(cfg) <==> !cfg.enabled || PurgeSafe(cfg) || Silent(cfg)
  {
    if !cfg.enabled || PurgeSafe(cfg) || Silent(cfg) {
      forall ops: seq<Op>, start: Instant | Chronological(ops, start)
        ensures Hidden(cfg, map[], ops)
      {
        if !cfg.enabled {
          DisabledShowsNothing(cfg, map[], map[], ops);
        } else if PurgeSafe(cfg) {
          SafePurgesAreHidden(cfg, map[], map[], ops, start);
        } else {
          SilenceHides(cfg, map[], map[], ops, start);
        }
      }
    } else if cfg.lock < 0.0 {
      var n, now := ForgottenChallenge(cfg);
      FailuresAreChronological(n, now);
    } else {
      var n, now := ForgottenLock(cfg);
      FailuresAreChronological(n, now);
    }
  }

  // ----- A bucket summarises its failure log ---------------------------------------------------------------

  /** Where, in a log of failures, the current epoch begins: a failure opens a new one when all is over. */
  function EpochStart(cfg: Config, log: seq<Instant>): nat
    requires log != []
    ensures EpochStart(cfg, log) < |log|
    decreases |log|, 0
  {
    var n := |log| - 1;
    if n == 0 then 0
    else if EpochOver(cfg, log[..n], log[n]) then n
    else EpochStart(cfg, log[..n])
  }

  /** The window of the current epoch has passed and so has the lock, if there were enough failures for one. */
  predicate EpochOver(cfg: Config, log: seq<Instant>, now: Instant)
    requires log != []
    decreases |log|, 1
  {
    var p := EpochStart(cfg, log);
    log[p] + cfg.window <= now && (|log| - p > cfg.failureLimit ==> log[|log| - 1] + cfg.lock <= now)
  }

  /** The bucket a log of failures amounts to. */
  function Summary(cfg: Config, log: seq<Instant>): Bucket
    requires log != []
  {
    var p := EpochStart(cfg, log);
    var last := log[|log| - 1];
    Bucket(
      |log| - p,
      log[p],
      if |log| - p > cfg.failureLimit then Some(last + cfg.lock) else None,
      if cfg.challengeEnabled && |log| - p >= cfg.challengeThreshold
      then Some(log[p + Max(cfg.challengeThreshold, 1) - 1]) else None,
      Some(last))
  }

  /** Bucket `k` of `s` is what `log`, the failures recorded for `k` since its last clear, says it should be. */
  ghost predicate Summarises(cfg: Config, s: Store, k: BucketKey, log: seq<Instant>, now: Instant) {
    && Sorted(log)
    && (log == [] ==> k !in s)
    && (log != [] ==> log[|log| - 1] <= now)
    && (log != [] && k in s ==> s[k] == Summary(cfg, log))
    && (log != [] && k !in s ==> EpochOver(cfg, log, now))
  }

  /** The log of `k` after `record_failure` over `keys`, which stops at the first bucket that locks. */
  function LogRecorded(
    cfg: Config, s: Store, keys: seq<BucketKey>, now: Instant, k: BucketKey, log: seq<Instant>): seq<Instant>
    decreases |keys|
  {
    if keys == [] then log
    else
      var s' := RecordKey(cfg, s, keys[0], now);
      var log' := if keys[0] == k then log + [now] else log;
      if Locked(s'[keys[0]], now) then log' else LogRecorded(cfg, s', keys[1..], now, k, log')
  }

  /** A purge takes a bucket that still counts; with safe durations there is no such purge. */
  predicate PurgedAlive(cfg: Config, s: Store, k: BucketKey, now: Instant) {
    k in s && Purgeable(s[k], now - (cfg.window + cfg.lock)) && !Dead(cfg, s[k], now)
  }

  function LogStep(cfg: Config, s: Store, op: Op, k: BucketKey, log: seq<Instant>): seq<Instant> {
    match op
    case RecordFailure(who, now) => if cfg.enabled then LogRecorded(cfg, s, BucketKeys(who), now, k, log) else log
    case Clear(who, _) => if cfg.enabled && k in BucketKeys(who) then [] else log
    case Purge(now) => if PurgedAlive(cfg, s, k, now) then [] else log
    case Check(_, _, _) => log
  }

  /** The failures recorded for `k`, in a run, since the last clear that covered it or purge that took it alive. */
  function LogRun(cfg: Config, s: Store, ops: seq<Op>, k: BucketKey, log: seq<Instant>): seq<Instant>
    decreases |ops|
  {
    if ops == [] then log
    else LogRun(cfg, Step(cfg, s, ops[0]).0, ops[1..], k, LogStep(cfg, s, ops[0], k, log))
  }

  lemma {:induction false} LookKeepsSummary(
    cfg: Config, s: Store, seen: BucketKey, now: Instant, k: BucketKey, log: seq<Instant>)
    requires Summarises(cfg, s, k, log, now)
    ensures Summarises(cfg, Looked(cfg, s, seen, now), k, log, now)
    ensures log != [] ==> (k in Looked(cfg, s, k, now) <==> !EpochOver(cfg, log, now))
  {
  }

  /** One more failure: it opens a new epoch if the last is over, and otherwise bumps the summary. */
  lemma {:induction false} SummaryOfOneMore(cfg: Config, log: seq<Instant>, now: Instant)
    ensures log == [] ==> Summary(cfg, log + [now]) == Bumped(cfg, NewBucket(now), now)
    ensures log != [] && EpochOver(cfg, log, now) ==> Summary(cfg, log + [now]) == Bumped(cfg, NewBucket(now), now)
    ensures log != [] && !EpochOver(cfg, log, now) ==> Summary(cfg, log + [now]) == Bumped(cfg, Summary(cfg, log), now)
  {
  }

  lemma {:induction false} RecordKeepsSummary(
    cfg: Config, s: Store, bumped: BucketKey, now: Instant, k: BucketKey, log: seq<Instant>)
    requires Summarises(cfg, s, k, log, now)
    ensures Summarises(cfg, RecordKey(cfg, s, bumped, now), k, if bumped == k then log + [now] else log, now)
  {
    LookKeepsSummary(cfg, s, bumped, now, k, log);
    if bumped == k {
      SummaryOfOneMore(cfg, log, now);
    }
  }

  lemma {:induction false} CheckKeysKeepsSummary(
    cfg: Config, s: Store, keys: seq<BucketKey>, now: Instant, hasToken: bool, k: BucketKey, log: seq<Instant>)
    requires Summarises(cfg, s, k, log, now)
    ensures Summarises(cfg, CheckKeys(cfg, s, keys, now, hasToken).0, k, log, now)
    decreases |keys|
  {
    if keys == [] {
    } else {
      LookKeepsSummary(cfg, s, keys[0], now, k, log);
      CheckKeysKeepsSummary(cfg, Looked(cfg, s, keys[0], now), keys[1..], now, hasToken, k, log);
    }
  }

  lemma {:induction false} RecordKeysKeepsSummary(
    cfg: Config, s: Store, keys: seq<BucketKey>, now: Instant, k: BucketKey, log: seq<Instant>)
    requires Summarises(cfg, s, k, log, now)
    ensures Summarises(cfg, RecordKeys(cfg, s, keys, now).0, k, LogRecorded(cfg, s, keys, now, k, log), now)
    decreases |keys|
  {
    if keys == [] {
    } else {
      RecordKeepsSummary(cfg, s, keys[0], now, k, log);
      var log' := if keys[0] == k then log + [now] else log;
      RecordKeysKeepsSummary(cfg, RecordKey(cfg, s, keys[0], now), keys[1..], now, k, log');
    }
  }

  lemma {:induction false} ClearRemovesExactly(s: Store, keys: seq<BucketKey>, k: BucketKey)
    ensures k in ClearKeys(s, keys) <==> k in s && k !in keys
    ensures k in ClearKeys(s, keys) ==> ClearKeys(s, keys)[k] == s[k]
    decreases |keys|
  {
    if keys == [] {
    } else {
      ClearRemovesExactly(s - {keys[0]}, keys[1..], k);
    }
  }

  lemma {:induction false} StepKeepsSummary(
    cfg: Config, s: Store, op: Op, now: Instant, k: BucketKey, log: seq<Instant>)
    requires now <= op.at && Summarises(cfg, s, k, log, now)
    ensures Summarises(cfg, Step(cfg, s, op).0, k, LogStep(cfg, s, op, k, log), op.at)
  {
    assert Summarises(cfg, s, k, log, op.at);
    match op {
      case Check(who, at, hasToken) => CheckKeysKeepsSummary(cfg, s, BucketKeys(who), at, hasToken, k, log);
      case RecordFailure(who, at) => RecordKeysKeepsSummary(cfg, s, BucketKeys(who), at, k, log);
      case Clear(who, at) => ClearRemovesExactly(s, BucketKeys(who), k);
      case Purge(at) =>
    }
  }

  lemma {:induction false} RunKeepsSummary(
    cfg: Config, s: Store, ops: seq<Op>, now: Instant, k: BucketKey, log: seq<Instant>)
    requires Chronological(ops, now) && Summarises(cfg, s, k, log, now)
    ensures Summarises(cfg, Run(cfg, s, ops), k, LogRun(cfg, s, ops, k, log), End(ops, now))
    decreases |ops|
  {
    if ops == [] {
    } else {
      StepKeepsSummary(cfg, s, ops[0], now, k, log);
      RunKeepsSummary(cfg, Step(cfg, s, ops[0]).0, ops[1..], ops[0].at, k, LogStep(cfg, s, ops[0], k, log));
    }
  }

  /**
    With any settings, in every run from the empty store, a bucket that is present is the summary of its key's
    failure log: its count is the number of failures since its window began, it is locked until `lock` after the
    last failure exactly when the count exceeds the limit, and a challenge is due from the failure that met the
    threshold. A bucket that is absent has nothing to say: no failure since the last clear, or an epoch that is
    over. The log starts afresh when a purge takes a bucket alive.
   */
  lemma {:induction false} BucketIsSummaryOfLog(cfg: Config, ops: seq<Op>, start: Instant, k: BucketKey)
    requires Chronological(ops, start)
    ensures var s, log := Run(cfg, map[], ops), LogRun(cfg, map[], ops, k, []);
            && (k in s ==> log != [] && s[k] == Summary(cfg, log))
            && (k !in s ==> log == [] || EpochOver(cfg, log, End(ops, start)))
  {
    RunKeepsSummary(cfg, map[], ops, start, k, []);
  }
}
