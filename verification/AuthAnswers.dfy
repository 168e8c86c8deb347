/**
  What the limiter and the handlers answer, told from the failures recorded for the e-mail and for the address of
  an attempt. Everything here holds in every run of calls, purges included, from the empty store.
*/
module AuthAnswers {
  import opened Common
  import opened AuthProtection
  import opened AuthRuns
  import opened AuthAttempts

  // ----- Whose failures count together -----------------------------------------------------------------------------

  /** Registrations count apart from all other actions, each e-mail and each address for itself. */
  lemma {:induction false} KeysKeepApart(a: Subject, b: Subject)
    ensures |BucketKeys(a)| == 2 && BucketKeys(a)[0] != BucketKeys(b)[1]
    ensures BucketKeys(a)[0] == BucketKeys(b)[0] <==>
              (a.action == "register" <==> b.action == "register") && a.email == b.email
    ensures BucketKeys(a)[1] == BucketKeys(b)[1] <==>
              (a.action == "register" <==> b.action == "register") && a.clientIp == b.clientIp
  {
    EmailIsNotAddress(a, b);
    TypeLengths(a);
    TypeLengths(b);
  }

  lemma TypeLengths(who: Subject)
    ensures |BucketKeys(who)[0].bucketType| == if who.action == "register" then 14 else 11
    ensures |BucketKeys(who)[1].bucketType| == if who.action == "register" then 11 else 8
  {
    assert |"register"| == 8 && |"login"| == 5 && |":email"| == 6 && |":ip"| == 3;
  }

  // ----- What check answers ----------------------------------------------------------------------------------------

  /** How many failures the current epoch of the log has. */
  function InEpoch(cfg: Config, log: seq<Instant>): nat {
    if log == [] then 0 else |log| - EpochStart(cfg, log)
  }

  /** More failures than the limit, and the last of them less than a lock ago. */
  predicate LockHolds(cfg: Config, log: seq<Instant>, now: Instant) {
    log != [] && InEpoch(cfg, log) > cfg.failureLimit && now < log[|log| - 1] + cfg.lock
  }

  /** Enough failures for a challenge, in an epoch that is not over, and no lock. */
  predicate ChallengeDue(cfg: Config, log: seq<Instant>, now: Instant) {
    && cfg.challengeEnabled && log != [] && InEpoch(cfg, log) >= cfg.challengeThreshold
    && !EpochOver(cfg, log, now) && !LockHolds(cfg, log, now)
  }

  predicate Objects(cfg: Config, log: seq<Instant>, now: Instant) {
    LockHolds(cfg, log, now) || ChallengeDue(cfg, log, now)
  }

  /** The failures recorded for the e-mail and for the address of `who`. */
  function EmailLog(cfg: Config, ops: seq<Op>, who: Subject): seq<Instant> {
    LogRun(cfg, map[], ops, BucketKeys(who)[0], [])
  }

  function AddressLog(cfg: Config, ops: seq<Op>, who: Subject): seq<Instant> {
    LogRun(cfg, map[], ops, BucketKeys(who)[1], [])
  }

  /** The first log that objects, the e-mail's before the address's, and else the address's. */
  function Objecting(cfg: Config, ops: seq<Op>, who: Subject, now: Instant): seq<Instant> {
    if Objects(cfg, EmailLog(cfg, ops, who), now) then EmailLog(cfg, ops, who) else AddressLog(cfg, ops, who)
  }

  lemma {:induction false} OneKeyAnswers(
    cfg: Config, s: Store, k: BucketKey, log: seq<Instant>, now: Instant, hasToken: bool)
    requires Summarises(cfg, s, k, log, now)
    ensures var seen := Looked(cfg, s, k, now);
            && (LockHolds(cfg, log, now) ==> k in seen && Verdict(cfg, seen[k], now, hasToken) == RateLimited)
            && (ChallengeDue(cfg, log, now) ==>
                  k in seen
                  && Verdict(cfg, seen[k], now, hasToken) == if hasToken then ChallengeFailed else ChallengeRequired)
            && (!Objects(cfg, log, now) && k in seen ==> Verdict(cfg, seen[k], now, hasToken) == Passed)
  {
    LookKeepsSummary(cfg, s, k, now, k, log);
  }

  lemma {:induction false} KeysAnswer(
    cfg: Config, s: Store, who: Subject, email: seq<Instant>, address: seq<Instant>, now: Instant, hasToken: bool)
    requires Summarises(cfg, s, BucketKeys(who)[0], email, now) && Summarises(cfg, s, BucketKeys(who)[1], address, now)
    ensures var log := if Objects(cfg, email, now) then email else address;
            CheckKeys(cfg, s, BucketKeys(who), now, hasToken).1
            == if LockHolds(cfg, log, now) then RateLimited
               else if !ChallengeDue(cfg, log, now) then Passed
               else if hasToken then ChallengeFailed
               else ChallengeRequired
  {
    var keys := BucketKeys(who);
    OneKeyAnswers(cfg, s, keys[0], email, now, hasToken);
    var s1 := Looked(cfg, s, keys[0], now);
    LookKeepsSummary(cfg, s, keys[0], now, keys[1], address);
    OneKeyAnswers(cfg, s1, keys[1], address, now, hasToken);
    hide Verdict, LockHolds, ChallengeDue, Looked, Summarises;
    assert keys[1..] == [keys[1]] && [keys[1]][1..] == [];
    var s2 := Looked(cfg, s1, keys[1], now);
    assert CheckKeys(cfg, s2, [], now, hasToken) == (s2, Passed);
    assert CheckKeys(cfg, s1, [keys[1]], now, hasToken).1
        == if keys[1] in s2 then Verdict(cfg, s2[keys[1]], now, hasToken) else Passed;
  }

  /**
    In every run, check answers from the first log that objects: rate limited exactly when its lock still holds;
    challenge required, or challenge failed if a token was sent along, exactly when it has met the threshold in an
    epoch that is not over and is not locked; and it passes otherwise.
   */
  lemma {:induction false} CheckAnswers(
    cfg: Config, ops: seq<Op>, start: Instant, who: Subject, now: Instant, hasToken: bool)
    requires Chronological(ops, start) && End(ops, start) <= now
    ensures var log := Objecting(cfg, ops, who, now);
            var answer := Checked(cfg, Run(cfg, map[], ops), who, now, hasToken).1;
            && (answer == RateLimited <==> cfg.enabled && LockHolds(cfg, log, now))
            && (answer == ChallengeRequired <==> cfg.enabled && ChallengeDue(cfg, log, now) && !hasToken)
            && (answer == ChallengeFailed <==> cfg.enabled && ChallengeDue(cfg, log, now) && hasToken)
            && (answer == Passed <==> !(cfg.enabled && Objects(cfg, log, now)))
  {
    RunKeepsSummary(cfg, map[], ops, start, BucketKeys(who)[0], []);
    RunKeepsSummary(cfg, map[], ops, start, BucketKeys(who)[1], []);
    KeysAnswer(cfg, Run(cfg, map[], ops), who, EmailLog(cfg, ops, who), AddressLog(cfg, ops, who), now, hasToken);
  }

  // ----- What record_failure answers -------------------------------------------------------------------------------

  lemma {:induction false} OneKeyRecords(cfg: Config, s: Store, k: BucketKey, log: seq<Instant>, now: Instant)
    requires Summarises(cfg, s, k, log, now)
    ensures Locked(RecordKey(cfg, s, k, now)[k], now) <==>
              0.0 < cfg.lock && InEpoch(cfg, log + [now]) > cfg.failureLimit
  {
    RecordKeepsSummary(cfg, s, k, now, k, log);
  }

  /** In every run, record_failure answers rate limited exactly when this failure takes either log past the limit. */
  lemma {:induction false} RecordAnswers(cfg: Config, ops: seq<Op>, start: Instant, who: Subject, now: Instant)
    requires Chronological(ops, start) && End(ops, start) <= now
    ensures FailureRecorded(cfg, Run(cfg, map[], ops), who, now).1
         == if cfg.enabled && 0.0 < cfg.lock
                 && (InEpoch(cfg, EmailLog(cfg, ops, who) + [now]) > cfg.failureLimit
                     || InEpoch(cfg, AddressLog(cfg, ops, who) + [now]) > cfg.failureLimit)
            then RateLimited else Passed
  {
    var s, keys := Run(cfg, map[], ops), BucketKeys(who);
    var email, address := EmailLog(cfg, ops, who), AddressLog(cfg, ops, who);
    RunKeepsSummary(cfg, map[], ops, start, keys[0], []);
    RunKeepsSummary(cfg, map[], ops, start, keys[1], []);
    assert Summarises(cfg, s, keys[0], email, now) && Summarises(cfg, s, keys[1], address, now);
    OneKeyRecords(cfg, s, keys[0], email, now);
    EmailIsNotAddress(who, who);
    RecordKeepsSummary(cfg, s, keys[0], now, keys[1], address);
    var s1 := RecordKey(cfg, s, keys[0], now);
    OneKeyRecords(cfg, s1, keys[1], address, now);
    hide Summarises, RecordKey, Locked, InEpoch, Run, LogRun;
    assert keys[1..] == [keys[1]] && [keys[1]][1..] == [];
    var s2 := RecordKey(cfg, s1, keys[1], now);
    assert RecordKeys(cfg, s2, [], now) == (s2, Passed);
    assert RecordKeys(cfg, s1, [keys[1]], now).1 == if Locked(s2[keys[1]], now) then RateLimited else Passed;
  }

  // ----- What the handler answers ----------------------------------------------------------------------------------

  /**
    In every run, an attempt is refused exactly when the first log that objects has a lock that holds, or a challenge
    due and no token that verifies; an attempt that is not refused is accepted with the right credentials and fails
    with wrong ones.
   */
  lemma {:induction false} HandlerAnswers(cfg: Config, ops: seq<Op>, start: Instant, e: Event)
    requires Chronological(ops, start) && e.Attempt? && End(ops, start) <= e.checkedAt
    ensures var log := Objecting(cfg, ops, e.who, e.checkedAt);
            var answer := Handle(cfg, Run(cfg, map[], ops), e).1;
            var refused := cfg.enabled
                           && (LockHolds(cfg, log, e.checkedAt)
                               || (ChallengeDue(cfg, log, e.checkedAt) && !(e.hasToken && e.tokenVerifies)));
            && (answer == Refused <==> refused)
            && (answer == Accepted <==> !refused && e.credentialsOk)
            && (answer == Failed <==> !refused && !e.credentialsOk)
  {
    CheckAnswers(cfg, ops, start, e.who, e.checkedAt, e.hasToken);
    hide LockHolds, ChallengeDue, Objecting, Checked, Run, Cleared, FailureRecorded;
  }

  /** What an attempt does to the two buckets: an accepted one empties both, a failed one is recorded. */
  lemma {:induction false} HandlerRecords(cfg: Config, s: Store, e: Event)
    requires cfg.enabled && e.Attempt?
    ensures var (s', answer) := Handle(cfg, s, e);
            var seen := Checked(cfg, s, e.who, e.checkedAt, e.hasToken).0;
            && (answer == Accepted ==> BucketKeys(e.who)[0] !in s' && BucketKeys(e.who)[1] !in s')
            && (answer == Failed ==> s' == FailureRecorded(cfg, seen, e.who, e.doneAt).0
                                     && BucketKeys(e.who)[0] in s'
                                     && s'[BucketKeys(e.who)[0]].lastFailureAt == Some(e.doneAt))
  {
    var keys := BucketKeys(e.who);
    var seen := Checked(cfg, s, e.who, e.checkedAt, e.hasToken).0;
    ClearRemovesExactly(seen, keys, keys[0]);
    ClearRemovesExactly(seen, keys, keys[1]);
    EmailIsNotAddress(e.who, e.who);
    RecordKeysTail(cfg, RecordKey(cfg, seen, keys[0], e.doneAt), keys, e.doneAt);
  }

  lemma RecordKeysTail(cfg: Config, s: Store, keys: seq<BucketKey>, now: Instant)
    requires |keys| == 2 && keys[0] != keys[1] && keys[0] in s
    ensures var s' := RecordKeys(cfg, s, keys[1..], now).0;
            keys[0] in s' && s'[keys[0]] == s[keys[0]]
  {
    assert keys[1..][1..] == [];
    var s' := RecordKey(cfg, s, keys[1], now);
    assert RecordKeys(cfg, s', [], now).0 == s';
  }
}
