/**
  Login and registration attempts as the HTTP handlers make them, one after the other: check, try the
  credentials, then clear the buckets or record a failure. However the attempts are spread over addresses,
  challenges and purges, one e-mail sees a bounded number of failed attempts in any short interval.
*/
module AuthAttempts {
  import opened Common
  import opened AuthProtection
  import opened AuthRuns

  datatype Event =
    | Attempt(
        who: Subject, hasToken: bool, tokenVerifies: bool, credentialsOk: bool,
        checkedAt: Instant, doneAt: Instant)
    | Collect(at: Instant)

  datatype Answer = Refused | Accepted | Failed | Collected

  /** A failed challenge is forgiven when the token verifies, and then nothing more is checked. */
  predicate Admits(e: Event, verdict: Outcome)
    requires e.Attempt?
  {
    verdict.Passed? || (verdict.ChallengeFailed? && e.tokenVerifies)
  }

  function Handle(cfg: Config, s: Store, e: Event): (Store, Answer) {
    match e
    case Collect(now) => (PurgedAt(cfg, s, now), Collected)
    case Attempt(who, hasToken, _, credentialsOk, checkedAt, doneAt) =>
      var (s', verdict) := Checked(cfg, s, who, checkedAt, hasToken);
      if !Admits(e, verdict) then (s', Refused)
      else if credentialsOk then (Cleared(cfg, s', who), Accepted)
      else (FailureRecorded(cfg, s', who, doneAt).0, Failed)
  }

  /** The handler, as it sequences the limiter's calls around the credential check. */
  method HandleEvent(limiter: AuthAttemptLimiter, e: Event) returns (answer: Answer)
    modifies limiter.store
    ensures (limiter.store.buckets, answer) == Handle(limiter.config, old(limiter.store.buckets), e)
  {
    if e.Collect? {
      var _ := limiter.PurgeExpired(e.at);
      return Collected;
    }
    var verdict := limiter.Check(e.who, e.checkedAt, e.hasToken);
    if verdict.RateLimited? || verdict.ChallengeRequired? {
      return Refused;
    }
    if verdict.ChallengeFailed? && !e.tokenVerifies {
      return Refused;
    }
    if e.credentialsOk {
      limiter.Clear(e.who);
      return Accepted;
    }
    var _ := limiter.RecordFailure(e.who, e.doneAt);
    answer := Failed;
  }

  function EmailKey(who: Subject): BucketKey {
    BucketKeys(who)[0]
  }

  /** The instants of the failed attempts on e-mail bucket `k` since the last accepted one. */
  function FailedAttempts(cfg: Config, s: Store, events: seq<Event>, k: BucketKey, log: seq<Instant>): seq<Instant>
    decreases |events|
  {
    if events == [] then log
    else
      var (s', answer) := Handle(cfg, s, events[0]);
      FailedAttempts(cfg, s', events[1..], k, LogOf(events[0], answer, k, log))
  }

  function LogOf(e: Event, answer: Answer, k: BucketKey, log: seq<Instant>): seq<Instant> {
    if e.Collect? || EmailKey(e.who) != k then log
    else if answer.Accepted? then []
    else if answer.Failed? then log + [e.doneAt]
    else log
  }

  function Finish(e: Event): Instant {
    if e.Collect? then e.at else e.doneAt
  }

  /** Each event finishes before the next begins, and the clock does not run backwards. */
  ghost predicate Serial(events: seq<Event>, start: Instant)
    decreases |events|
  {
    events != [] ==>
      && start <= (if events[0].Collect? then events[0].at else events[0].checkedAt)
      && (events[0].Attempt? ==> events[0].checkedAt <= events[0].doneAt)
      && Serial(events[1..], Finish(events[0]))
  }

  /** No failure was let in while the lock of the one before it still held. */
  ghost predicate LocksRespected(cfg: Config, log: seq<Instant>) {
    forall j :: 0 < j < |log| && j - EpochStart(cfg, log[..j]) > cfg.failureLimit ==> log[j - 1] + cfg.lock <= log[j]
  }

  // ----- Every run respects the locks ----------------------------------------------------------------------

  /** An e-mail bucket is never an address bucket, so only the e-mail part of a subject touches it. */
  lemma {:induction false} EmailIsNotAddress(who: Subject, other: Subject)
    ensures EmailKey(who) != BucketKeys(other)[1]
  {
    var email, address := EmailKey(who).bucketType, BucketKeys(other)[1].bucketType;
    if |email| == |address| {
      assert email[|email| - 1] == 'l' && address[|address| - 1] == 'p';
    }
  }

  /** A check that admits has seen every lock of the e-mail bucket run out. */
  lemma {:induction false} AdmittedMeansUnlocked(
    cfg: Config, s: Store, e: Event, k: BucketKey, log: seq<Instant>)
    requires cfg.enabled && e.Attempt? && EmailKey(e.who) == k
    requires Summarises(cfg, s, k, log, e.checkedAt) && log != []
    requires Admits(e, Checked(cfg, s, e.who, e.checkedAt, e.hasToken).1)
    ensures |log| - EpochStart(cfg, log) > cfg.failureLimit ==> log[|log| - 1] + cfg.lock <= e.checkedAt
  {
  }

  /** Recording on a subject's two buckets adds the failure to its e-mail log, whatever the address bucket does. */
  lemma {:induction false} RecordLogsEmail(
    cfg: Config, s: Store, who: Subject, now: Instant, k: BucketKey, log: seq<Instant>)
    requires k != BucketKeys(who)[1]
    ensures LogRecorded(cfg, s, BucketKeys(who), now, k, log) == if k == EmailKey(who) then log + [now] else log
  {
    var keys := BucketKeys(who);
    var log' := if keys[0] == k then log + [now] else log;
    var s' := RecordKey(cfg, s, keys[0], now);
    assert keys[1..] == [keys[1]];
    assert LogRecorded(cfg, RecordKey(cfg, s', keys[1], now), [], now, k, log') == log';
    assert LogRecorded(cfg, s', [keys[1]], now, k, log') == log';
  }

  ghost predicate Bounded(cfg: Config, s: Store, k: BucketKey, log: seq<Instant>, now: Instant) {
    Summarises(cfg, s, k, log, now) && LocksRespected(cfg, log)
  }

  lemma {:induction false} LocksRespectedByOneMore(cfg: Config, log: seq<Instant>, now: Instant)
    requires LocksRespected(cfg, log)
    requires log != [] && |log| - EpochStart(cfg, log) > cfg.failureLimit ==> log[|log| - 1] + cfg.lock <= now
    ensures LocksRespected(cfg, log + [now])
  {
    var log' := log + [now];
    forall j | 0 < j < |log'| && j - EpochStart(cfg, log'[..j]) > cfg.failureLimit
      ensures log'[j - 1] + cfg.lock <= log'[j]
    {
      assert log'[..j] == log[..j];
      if j == |log| {
        assert log[..j] == log;
      }
    }
  }

  lemma {:induction false} AdmittedFailureKeepsBounded(
    cfg: Config, s: Store, e: Event, who: Subject, log: seq<Instant>)
    requires cfg.enabled && e.Attempt? && e.checkedAt <= e.doneAt
    requires Bounded(cfg, s, EmailKey(who), log, e.checkedAt)
    requires Admits(e, Checked(cfg, s, e.who, e.checkedAt, e.hasToken).1)
    ensures var s' := FailureRecorded(cfg, Checked(cfg, s, e.who, e.checkedAt, e.hasToken).0, e.who, e.doneAt).0;
            Bounded(cfg, s', EmailKey(who), LogOf(e, Failed, EmailKey(who), log), e.doneAt)
  {
    var k := EmailKey(who);
    var s' := Checked(cfg, s, e.who, e.checkedAt, e.hasToken).0;
    StepKeepsSummary(cfg, s, Check(e.who, e.checkedAt, e.hasToken), e.checkedAt, k, log);
    StepKeepsSummary(cfg, s', RecordFailure(e.who, e.doneAt), e.checkedAt, k, log);
    EmailIsNotAddress(who, e.who);
    RecordLogsEmail(cfg, s', e.who, e.doneAt, k, log);
    if EmailKey(e.who) == k {
      if log != [] {
        AdmittedMeansUnlocked(cfg, s, e, k, log);
      }
      LocksRespectedByOneMore(cfg, log, e.doneAt);
    }
  }

  lemma {:induction false} AcceptedKeepsBounded(
    cfg: Config, s: Store, e: Event, who: Subject, log: seq<Instant>)
    requires cfg.enabled && e.Attempt? && e.checkedAt <= e.doneAt
    requires Bounded(cfg, s, EmailKey(who), log, e.checkedAt)
    ensures Bounded(cfg, Cleared(cfg, s, e.who), EmailKey(who), LogOf(e, Accepted, EmailKey(who), log), e.doneAt)
  {
    EmailIsNotAddress(who, e.who);
    StepKeepsSummary(cfg, s, Clear(e.who, e.doneAt), e.checkedAt, EmailKey(who), log);
  }

  lemma {:induction false} CheckKeepsBounded(
    cfg: Config, s: Store, e: Event, start: Instant, who: Subject, log: seq<Instant>)
    requires cfg.enabled && e.Attempt? && start <= e.checkedAt <= e.doneAt
    requires Bounded(cfg, s, EmailKey(who), log, start)
    ensures Bounded(cfg, s, EmailKey(who), log, e.checkedAt)
    ensures Bounded(cfg, Checked(cfg, s, e.who, e.checkedAt, e.hasToken).0, EmailKey(who), log, e.checkedAt)
    ensures Bounded(cfg, Checked(cfg, s, e.who, e.checkedAt, e.hasToken).0, EmailKey(who), log, e.doneAt)
  {
    assert Summarises(cfg, s, EmailKey(who), log, e.checkedAt);
    StepKeepsSummary(cfg, s, Check(e.who, e.checkedAt, e.hasToken), e.checkedAt, EmailKey(who), log);
  }

  lemma {:induction false} HandleKeepsBounded(
    cfg: Config, s: Store, e: Event, start: Instant, who: Subject, log: seq<Instant>)
    requires cfg.enabled && PurgeSafe(cfg) && Serial([e], start)
    requires Bounded(cfg, s, EmailKey(who), log, start)
    ensures var (s', answer) := Handle(cfg, s, e);
            Bounded(cfg, s', EmailKey(who), LogOf(e, answer, EmailKey(who), log), Finish(e))
  {
    if e.Collect? {
      PurgesOnlyDeadIffSafe(cfg);
      StepKeepsSummary(cfg, s, Purge(e.at), start, EmailKey(who), log);
    } else {
      CheckKeepsBounded(cfg, s, e, start, who, log);
      var verdict := Checked(cfg, s, e.who, e.checkedAt, e.hasToken).1;
      if Admits(e, verdict) && !e.credentialsOk {
        AdmittedFailureKeepsBounded(cfg, s, e, who, log);
      } else if Admits(e, verdict) {
        AcceptedKeepsBounded(cfg, Checked(cfg, s, e.who, e.checkedAt, e.hasToken).0, e, who, log);
      }
    }
  }

  lemma {:induction false} RunKeepsBounded(
    cfg: Config, s: Store, events: seq<Event>, start: Instant, who: Subject, log: seq<Instant>)
    requires cfg.enabled && PurgeSafe(cfg) && Serial(events, start)
    requires Bounded(cfg, s, EmailKey(who), log, start)
    ensures Sorted(FailedAttempts(cfg, s, events, EmailKey(who), log))
    ensures LocksRespected(cfg, FailedAttempts(cfg, s, events, EmailKey(who), log))
    decreases |events|
  {
    if events == [] {
    } else {
      HandleKeepsBounded(cfg, s, events[0], start, who, log);
      var (s', answer) := Handle(cfg, s, events[0]);
      RunKeepsBounded(cfg, s', events[1..], Finish(events[0]), who, LogOf(events[0], answer, EmailKey(who), log));
    }
  }

  // ----- Respected locks bound the number of failures --------------------------------------------------------

  /** Where the epoch of entry `j` begins. */
  function StartOf(cfg: Config, log: seq<Instant>, j: nat): (p: nat)
    requires j < |log|
    ensures p <= j
  {
    EpochStart(cfg, log[..j + 1])
  }

  lemma {:induction false} StartStep(cfg: Config, log: seq<Instant>, j: nat)
    requires 0 < j < |log|
    ensures StartOf(cfg, log, j) == j || StartOf(cfg, log, j) == StartOf(cfg, log, j - 1)
    ensures StartOf(cfg, log, j) == j ==> log[StartOf(cfg, log, j - 1)] + cfg.window <= log[j]
  {
    var prefix := log[..j + 1];
    assert prefix[..j] == log[..j] && prefix[j] == log[j];
    assert StartOf(cfg, log, j - 1) == EpochStart(cfg, log[..j]);
    assert StartOf(cfg, log, j) == EpochStart(cfg, prefix);
    if StartOf(cfg, log, j) == j {
      assert EpochOver(cfg, log[..j], log[j]);
    }
  }

  lemma {:induction false} StartOfStart(cfg: Config, log: seq<Instant>, j: nat)
    requires j < |log|
    ensures StartOf(cfg, log, StartOf(cfg, log, j)) == StartOf(cfg, log, j)
  {
    if StartOf(cfg, log, j) < j {
      StartStep(cfg, log, j);
      StartOfStart(cfg, log, j - 1);
    }
  }

  /** One epoch puts at most `limit + 1` failures into a stretch shorter than the lock. */
  lemma {:induction false} EpochBound(cfg: Config, log: seq<Instant>, i: nat, j: nat)
    requires Sorted(log) && LocksRespected(cfg, log)
    requires i <= j < |log| && StartOf(cfg, log, j) <= i && log[j] < log[i] + cfg.lock
    ensures j - i + 1 <= Max(1, cfg.failureLimit + 1)
  {
    if i < j {
      StartStep(cfg, log, j);
      assert log[j - 1] >= log[i];
      assert j - EpochStart(cfg, log[..j]) <= cfg.failureLimit;
    }
  }

  function PerEpoch(cfg: Config): nat {
    Max(1, cfg.failureLimit + 1)
  }

  /** Two epochs at most meet a stretch shorter than the window, so failures are spaced out. */
  lemma {:induction false} FailuresAreSpaced(cfg: Config, log: seq<Instant>)
    requires Sorted(log) && LocksRespected(cfg, log)
    ensures Spaced(log, 2 * PerEpoch(cfg), Min(cfg.window, cfg.lock))
  {
    var n, span := 2 * PerEpoch(cfg), Min(cfg.window, cfg.lock);
    forall i, j | 0 <= i && j == i + n && j < |log|
      ensures log[i] + span <= log[j]
    {
      if log[j] < log[i] + span {
        var p := StartOf(cfg, log, j);
        if p <= i {
          EpochBound(cfg, log, i, j);
        } else {
          StartOfStart(cfg, log, j);
          StartStep(cfg, log, p);
          assert StartOf(cfg, log, p - 1) <= i;
          assert log[p] <= log[j];
          EpochBound(cfg, log, i, p - 1);
          EpochBound(cfg, log, p, j);
        }
        assert false;
      }
    }
  }

  /**
    In every serial run, for every e-mail and action, no interval as long as the shorter of window and lock
    holds more than 2 * (failure_limit + 1) failed attempts, unless an accepted attempt falls among them.
    A negative limit counts as zero.
   */
  lemma {:induction false} FailedAttemptsAreBounded(
    cfg: Config, events: seq<Event>, start: Instant, who: Subject, after: Instant)
    requires cfg.enabled && Serial(events, start)
    ensures var span := Min(cfg.window, cfg.lock);
            CountIn(FailedAttempts(cfg, map[], events, EmailKey(who), []), after, after + span)
              <= 2 * Max(1, cfg.failureLimit + 1)
  {
    var log, span := FailedAttempts(cfg, map[], events, EmailKey(who), []), Min(cfg.window, cfg.lock);
    if span > 0.0 {
      RunKeepsBounded(cfg, map[], events, start, who, []);
      FailuresAreSpaced(cfg, log);
      SpacedBoundsCount(log, 2 * PerEpoch(cfg), span, after);
    } else {
      NothingInEmptyInterval(log, after, after + span);
    }
  }

  lemma {:induction false} NothingInEmptyInterval(log: seq<Instant>, after: Instant, upTo: Instant)
    requires upTo <= after
    ensures CountIn(log, after, upTo) == 0
  {
    if log == [] {
    } else {
      NothingInEmptyInterval(log[..|log| - 1], after, upTo);
    }
  }
}
