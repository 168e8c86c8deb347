/**
  The sliding-window limiter for API keys and addresses.

  Each bucket keeps a queue of recent admissions, pruned from the front at every call. The queue stands in for
  the complete history of admissions: the limiter admits and refuses exactly as if it counted the whole
  history, and the history then obeys a true rate bound. A call reads the clock once to prune and again, if it
  is admitted, to log the admission.
*/
module RateLimit {
  import opened Common

  datatype Rule = Rule(limit: int, window: real)

  datatype Kind = ApiKey | AuthFailure

  datatype BucketId = BucketId(kind: Kind, name: string)

  datatype Rules = Rules(apiKey: Rule, authFailure: Rule)

  function RuleFor(rules: Rules, b: BucketId): Rule {
    if b.kind.ApiKey? then rules.apiKey else rules.authFailure
  }

  /** `_check` only looks; `_add_or_raise` also logs an admission, at `loggedAt`. */
  datatype Call =
    | Look(bucket: BucketId, prunedAt: Instant)
    | Admit(bucket: BucketId, prunedAt: Instant, loggedAt: Instant)

  function Pruned(queue: seq<Instant>, cutoff: Instant): seq<Instant> {
    if queue != [] && queue[0] <= cutoff then Pruned(queue[1..], cutoff) else queue
  }

  type Queues = map<BucketId, seq<Instant>>

  /** A missing bucket reads as empty. */
  function Queue(queues: Queues, b: BucketId): seq<Instant> {
    if b in queues then queues[b] else []
  }

  /** A call on the queues: their new contents, and whether the call goes through. */
  function Called(rules: Rules, queues: Queues, c: Call): (Queues, bool) {
    var rule := RuleFor(rules, c.bucket);
    var queue := Pruned(Queue(queues, c.bucket), c.prunedAt - rule.window);
    var admitted := |queue| < rule.limit;
    (queues[c.bucket := if admitted && c.Admit? then queue + [c.loggedAt] else queue], admitted)
  }

  class InMemoryRateLimiter {
    const rules: Rules
    var events: Queues

    constructor (rules: Rules)
      ensures this.rules == rules && events == map[]
    {
      this.rules := rules;
      events := map[];
    }

    method CheckApiKey(prefix: string, prunedAt: Instant, loggedAt: Instant) returns (admitted: bool)
      modifies this
      ensures (events, admitted) == Called(rules, old(events), Admit(BucketId(ApiKey, prefix), prunedAt, loggedAt))
    {
      admitted := AddOrRaise(BucketId(ApiKey, prefix), rules.apiKey, prunedAt, loggedAt);
    }

    method CheckAuthFailures(clientIp: string, prunedAt: Instant) returns (admitted: bool)
      modifies this
      ensures (events, admitted) == Called(rules, old(events), Look(BucketId(AuthFailure, clientIp), prunedAt))
    {
      Prune(BucketId(AuthFailure, clientIp), rules.authFailure, prunedAt);
      admitted := |events[BucketId(AuthFailure, clientIp)]| < rules.authFailure.limit;
    }

    method RecordAuthFailure(clientIp: string, prunedAt: Instant, loggedAt: Instant) returns (admitted: bool)
      modifies this
      ensures (events, admitted)
           == Called(rules, old(events), Admit(BucketId(AuthFailure, clientIp), prunedAt, loggedAt))
    {
      admitted := AddOrRaise(BucketId(AuthFailure, clientIp), rules.authFailure, prunedAt, loggedAt);
    }

    method AddOrRaise(b: BucketId, rule: Rule, prunedAt: Instant, loggedAt: Instant) returns (admitted: bool)
      requires rule == RuleFor(rules, b)
      modifies this
      ensures (events, admitted) == Called(rules, old(events), Admit(b, prunedAt, loggedAt))
    {
      Prune(b, rule, prunedAt);
      if |events[b]| >= rule.limit {
        return false;
      }
      var queue := events[b] + [loggedAt];
      events := events[b := queue];
      admitted := true;
      assert events == old(events)[b := queue];
    }

    method Prune(b: BucketId, rule: Rule, now: Instant)
      modifies this
      ensures events == old(events)[b := Pruned(Queue(old(events), b), now - rule.window)]
    {
      var queue := Queue(events, b);
      var cutoff := now - rule.window;
      while queue != [] && queue[0] <= cutoff
        invariant Pruned(queue, cutoff) == Pruned(Queue(old(events), b), cutoff)
        decreases |queue|
      {
        queue := queue[1..];
      }
      events := events[b := queue];
    }
  }

  // ----- The history a queue stands in for -------------------------------------------------------------------

  function Decisions(rules: Rules, queues: Queues, calls: seq<Call>): seq<bool>
    decreases |calls|
  {
    if calls == [] then []
    else
      var (queues', admitted) := Called(rules, queues, calls[0]);
      [admitted] + Decisions(rules, queues', calls[1..])
  }

  /** The simple form: count the whole history of the bucket, and never forget an admission. */
  function Recent(history: seq<Instant>, cutoff: Instant): nat {
    if history == [] then 0
    else Recent(history[1..], cutoff) + if history[0] > cutoff then 1 else 0
  }

  function Considered(rules: Rules, histories: Queues, c: Call): (Queues, bool) {
    var rule := RuleFor(rules, c.bucket);
    var history := Queue(histories, c.bucket);
    var admitted := Recent(history, c.prunedAt - rule.window) < rule.limit;
    (if admitted && c.Admit? then histories[c.bucket := history + [c.loggedAt]] else histories, admitted)
  }

  function Histories(rules: Rules, histories: Queues, calls: seq<Call>): Queues
    decreases |calls|
  {
    if calls == [] then histories
    else Histories(rules, Considered(rules, histories, calls[0]).0, calls[1..])
  }

  function Considerations(rules: Rules, histories: Queues, calls: seq<Call>): seq<bool>
    decreases |calls|
  {
    if calls == [] then []
    else
      var (histories', admitted) := Considered(rules, histories, calls[0]);
      [admitted] + Considerations(rules, histories', calls[1..])
  }

  function Finish(c: Call): Instant {
    if c.Admit? then c.loggedAt else c.prunedAt
  }

  /** Calls hold the lock one after the other, on a clock that does not run backwards. */
  ghost predicate Serial(calls: seq<Call>, start: Instant)
    decreases |calls|
  {
    calls != [] ==>
      start <= calls[0].prunedAt <= Finish(calls[0]) && Serial(calls[1..], Finish(calls[0]))
  }

  /** `queue` is the end of `history`, and what it lacks had already left the window at some earlier call. */
  ghost predicate StandsFor(queue: seq<Instant>, history: seq<Instant>, window: real, now: Instant) {
    && Sorted(history)
    && (history != [] ==> history[|history| - 1] <= now)
    && |queue| <= |history|
    && queue == history[|history| - |queue|..]
    && forall i :: 0 <= i < |history| - |queue| ==> history[i] <= now - window
  }

  lemma {:induction false} PruneKeepsSuffix(queue: seq<Instant>, cutoff: Instant) returns (dropped: nat)
    ensures dropped <= |queue| && Pruned(queue, cutoff) == queue[dropped..]
    ensures forall i :: 0 <= i < dropped ==> queue[i] <= cutoff
    ensures dropped < |queue| ==> queue[dropped] > cutoff
  {
    if queue != [] && queue[0] <= cutoff {
      var d := PruneKeepsSuffix(queue[1..], cutoff);
      dropped := d + 1;
      assert forall i :: 0 < i < dropped ==> queue[i] == queue[1..][i - 1];
    } else {
      dropped := 0;
    }
  }

  lemma {:induction false} RecentIsSuffixLength(history: seq<Instant>, cutoff: Instant, from: nat)
    requires Sorted(history) && from <= |history|
    requires forall i :: 0 <= i < from ==> history[i] <= cutoff
    requires from < |history| ==> history[from] > cutoff
    ensures Recent(history, cutoff) == |history| - from
    decreases |history|
  {
    if history == [] {
    } else {
      var rest := history[1..];
      assert forall i :: 0 <= i < |rest| ==> rest[i] == history[i + 1];
      RecentIsSuffixLength(rest, cutoff, if from == 0 then 0 else from - 1);
    }
  }

  /** After pruning, the queue's length is the number of admissions, in the whole history, still in the window. */
  lemma {:induction false} PrunedCountsRecent(
    queue: seq<Instant>, history: seq<Instant>, window: real, before: Instant, now: Instant)
    requires StandsFor(queue, history, window, before) && before <= now
    ensures StandsFor(Pruned(queue, now - window), history, window, now)
    ensures |Pruned(queue, now - window)| == Recent(history, now - window)
  {
    var gone, cutoff := |history| - |queue|, now - window;
    var dropped := PruneKeepsSuffix(queue, cutoff);
    hide Pruned, Recent;
    forall i | 0 <= i < gone + dropped
      ensures history[i] <= cutoff
    {
      if i >= gone {
        assert history[i] == queue[i - gone];
      }
    }
    if dropped < |queue| {
      assert history[gone + dropped] == queue[dropped];
    }
    assert queue[dropped..] == history[gone + dropped..];
    RecentIsSuffixLength(history, cutoff, gone + dropped);
  }

  ghost predicate AllStandFor(rules: Rules, queues: Queues, histories: Queues, now: Instant) {
    forall b: BucketId :: StandsFor(Queue(queues, b), Queue(histories, b), RuleFor(rules, b).window, now)
  }

  lemma {:induction false} StandsForLater(
    queue: seq<Instant>, history: seq<Instant>, window: real, before: Instant, now: Instant)
    requires StandsFor(queue, history, window, before) && before <= now
    ensures StandsFor(queue, history, window, now)
  {
  }

  lemma {:induction false} AppendStandsFor(
    queue: seq<Instant>, history: seq<Instant>, window: real, now: Instant, at: Instant)
    requires StandsFor(queue, history, window, now) && now <= at
    ensures StandsFor(queue + [at], history + [at], window, at)
  {
    var queue', history' := queue + [at], history + [at];
    var gone := |history| - |queue|;
    assert history'[gone..] == history[gone..] + [at];
  }

  lemma {:induction false} BucketAgrees(
    queue: seq<Instant>, history: seq<Instant>, window: real, before: Instant, c: Call)
    requires StandsFor(queue, history, window, before) && before <= c.prunedAt <= Finish(c)
    ensures var pruned := Pruned(queue, c.prunedAt - window);
            && |pruned| == Recent(history, c.prunedAt - window)
            && StandsFor(pruned, history, window, Finish(c))
            && (c.Admit? ==> StandsFor(pruned + [c.loggedAt], history + [c.loggedAt], window, Finish(c)))
  {
    PrunedCountsRecent(queue, history, window, before, c.prunedAt);
    var pruned := Pruned(queue, c.prunedAt - window);
    StandsForLater(pruned, history, window, c.prunedAt, Finish(c));
    if c.Admit? {
      AppendStandsFor(pruned, history, window, c.prunedAt, c.loggedAt);
    }
  }

  lemma {:induction false} CallAgrees(rules: Rules, queues: Queues, histories: Queues, c: Call, before: Instant)
    requires AllStandFor(rules, queues, histories, before) && before <= c.prunedAt <= Finish(c)
    ensures Called(rules, queues, c).1 == Considered(rules, histories, c).1
    ensures AllStandFor(rules, Called(rules, queues, c).0, Considered(rules, histories, c).0, Finish(c))
  {
    hide StandsFor, Pruned, Recent;
    BucketAgrees(
      Queue(queues, c.bucket), Queue(histories, c.bucket), RuleFor(rules, c.bucket).window, before, c);
    var queues', histories' := Called(rules, queues, c).0, Considered(rules, histories, c).0;
    forall b: BucketId
      ensures StandsFor(Queue(queues', b), Queue(histories', b), RuleFor(rules, b).window, Finish(c))
    {
      if b != c.bucket {
        assert Queue(queues', b) == Queue(queues, b) && Queue(histories', b) == Queue(histories, b);
        StandsForLater(Queue(queues, b), Queue(histories, b), RuleFor(rules, b).window, before, Finish(c));
      }
    }
  }

  lemma {:induction false} CallsAgree(
    rules: Rules, queues: Queues, histories: Queues, calls: seq<Call>, start: Instant)
    requires AllStandFor(rules, queues, histories, start) && Serial(calls, start)
    ensures Decisions(rules, queues, calls) == Considerations(rules, histories, calls)
    decreases |calls|
  {
    if calls == [] {
    } else {
      CallAgrees(rules, queues, histories, calls[0], start);
      CallsAgree(
        rules, Called(rules, queues, calls[0]).0, Considered(rules, histories, calls[0]).0,
        calls[1..], Finish(calls[0]));
    }
  }

  /** Every call of every run is refused exactly when the whole history has `limit` admissions in the window. */
  lemma {:induction false} QueueRefinesHistory(rules: Rules, calls: seq<Call>, start: Instant)
    requires Serial(calls, start)
    ensures Decisions(rules, map[], calls) == Considerations(rules, map[], calls)
  {
    assert AllStandFor(rules, map[], map[], start);
    CallsAgree(rules, map[], map[], calls, start);
  }

  // ----- The rate the history obeys ----------------------------------------------------------------------------

  ghost predicate WithinRate(rule: Rule, history: seq<Instant>, now: Instant) {
    && Sorted(history)
    && (history != [] ==> history[|history| - 1] <= now)
    && (rule.limit <= 0 ==> history == [])
    && Spaced(history, Max(rule.limit, 0), rule.window)
  }

  /** If fewer than `n` entries are past the cutoff, the entry `n` places from the end is not. */
  lemma {:induction false} FewRecent(history: seq<Instant>, cutoff: Instant, i: nat)
    requires Sorted(history) && i < |history| && history[i] > cutoff
    ensures Recent(history, cutoff) >= |history| - i
    decreases |history|
  {
    var rest := history[1..];
    assert forall j :: 0 <= j < |rest| ==> rest[j] == history[j + 1];
    if i > 0 {
      FewRecent(rest, cutoff, i - 1);
    } else if rest != [] {
      assert history[0] <= history[1];
      FewRecent(rest, cutoff, 0);
    }
  }

  lemma {:induction false} AdmissionKeepsRate(rule: Rule, history: seq<Instant>, c: Call, before: Instant)
    requires WithinRate(rule, history, before) && c.Admit? && before <= c.prunedAt <= c.loggedAt
    requires Recent(history, c.prunedAt - rule.window) < rule.limit
    ensures WithinRate(rule, history + [c.loggedAt], c.loggedAt)
  {
    var history' := history + [c.loggedAt];
    forall i, j | 0 <= i && j == i + rule.limit && j < |history'|
      ensures history'[i] + rule.window <= history'[j]
    {
      if j == |history| && history[i] > c.prunedAt - rule.window {
        FewRecent(history, c.prunedAt - rule.window, i);
        assert false;
      }
    }
  }

  lemma {:induction false} RunKeepsRate(
    rules: Rules, histories: Queues, calls: seq<Call>, start: Instant, b: BucketId)
    requires Serial(calls, start) && WithinRate(RuleFor(rules, b), Queue(histories, b), start)
    ensures var history := Queue(Histories(rules, histories, calls), b);
            Sorted(history) && (RuleFor(rules, b).limit <= 0 ==> history == [])
            && Spaced(history, Max(RuleFor(rules, b).limit, 0), RuleFor(rules, b).window)
    decreases |calls|
  {
    if calls == [] {
    } else {
      var c := calls[0];
      if c.bucket == b && c.Admit? && Considered(rules, histories, c).1 {
        AdmissionKeepsRate(RuleFor(rules, b), Queue(histories, b), c, start);
      }
      RunKeepsRate(rules, Considered(rules, histories, c).0, calls[1..], Finish(c), b);
    }
  }

  /** `k` times a duration, and `k` times a number of places, step by step. */
  function Windows(k: nat, window: real): real {
    if k == 0 then 0.0 else Windows(k - 1, window) + window
  }

  function Places(k: nat, n: nat): nat {
    if k == 0 then 0 else Places(k - 1, n) + n
  }

  lemma {:induction false} StepsAreMultiples(k: nat, window: real, n: nat)
    ensures Windows(k, window) == k as real * window && Places(k, n) == k * n
  {
    if k > 0 {
      StepsAreMultiples(k - 1, window, n);
      assert k as real == (k - 1) as real + 1.0;
    }
  }

  /** Spacing accumulates: `k` times as many places apart means `k` windows apart. */
  lemma {:induction false} SpacingAccumulates(history: seq<Instant>, n: nat, window: real, k: nat)
    requires Spaced(history, n, window)
    ensures Spaced(history, Places(k, n), Windows(k, window))
  {
    if k > 0 {
      SpacingAccumulates(history, n, window, k - 1);
      forall i, j | 0 <= i && j == i + Places(k, n) && j < |history|
        ensures history[i] + Windows(k, window) <= history[j]
      {
        var mid := i + Places(k - 1, n);
        assert mid + n == j;
        assert history[i] + Windows(k - 1, window) <= history[mid];
      }
    }
  }

  lemma {:induction false} SpacedRate(history: seq<Instant>, n: nat, window: real, k: nat, after: Instant)
    requires Sorted(history) && Spaced(history, n, window)
    ensures CountIn(history, after, after + k as real * window) <= k * n
  {
    StepsAreMultiples(k, window, n);
    SpacingAccumulates(history, n, window, k);
    SpacedBoundsCount(history, Places(k, n), Windows(k, window), after);
  }

  /** In every run, every bucket admits at most k * limit calls in any interval of k windows. */
  lemma {:induction false} AdmissionsAreBounded(
    rules: Rules, calls: seq<Call>, start: Instant, b: BucketId, k: nat, after: Instant)
    requires Serial(calls, start)
    ensures CountIn(
              Queue(Histories(rules, map[], calls), b), after, after + k as real * RuleFor(rules, b).window)
         <= k * Max(RuleFor(rules, b).limit, 0)
  {
    RunKeepsRate(rules, map[], calls, start, b);
    SpacedRate(
      Queue(Histories(rules, map[], calls), b), Max(RuleFor(rules, b).limit, 0), RuleFor(rules, b).window, k, after);
  }

  // ----- The two limits, by name ------------------------------------------------------------------------------------

  function QueuesAfter(rules: Rules, queues: Queues, calls: seq<Call>): Queues
    decreases |calls|
  {
    if calls == [] then queues else QueuesAfter(rules, Called(rules, queues, calls[0]).0, calls[1..])
  }

  /** The instants at which the limiter logged an admission to bucket `b`. */
  function Admissions(rules: Rules, queues: Queues, calls: seq<Call>, b: BucketId): seq<Instant>
    decreases |calls|
  {
    if calls == [] then []
    else
      var (queues', admitted) := Called(rules, queues, calls[0]);
      (if admitted && calls[0].Admit? && calls[0].bucket == b then [calls[0].loggedAt] else [])
      + Admissions(rules, queues', calls[1..], b)
  }

  function End(calls: seq<Call>, start: Instant): Instant {
    if calls == [] then start else Finish(calls[|calls| - 1])
  }

  lemma {:induction false} RunAgrees(
    rules: Rules, queues: Queues, histories: Queues, calls: seq<Call>, start: Instant, b: BucketId)
    requires AllStandFor(rules, queues, histories, start) && Serial(calls, start)
    ensures AllStandFor(
              rules, QueuesAfter(rules, queues, calls), Histories(rules, histories, calls), End(calls, start))
    ensures Queue(Histories(rules, histories, calls), b)
         == Queue(histories, b) + Admissions(rules, queues, calls, b)
    decreases |calls|
  {
    hide AllStandFor, Recent, Pruned, StandsFor;
    if calls == [] {
      assert Queue(histories, b) + [] == Queue(histories, b);
    } else {
      var c := calls[0];
      CallAgrees(rules, queues, histories, c, start);
      var queues', histories' := Called(rules, queues, c).0, Considered(rules, histories, c).0;
      RunAgrees(rules, queues', histories', calls[1..], Finish(c), b);
      var new' := if Called(rules, queues, c).1 && c.Admit? && c.bucket == b then [c.loggedAt] else [];
      HistoryOfCall(rules, histories, c, b);
      hide Called, Considered, Queue;
      assert Admissions(rules, queues, calls, b) == new' + Admissions(rules, queues', calls[1..], b);
      Regroup(Queue(histories, b), new', Admissions(rules, queues', calls[1..], b));
    }
  }

  lemma Regroup(a: seq<Instant>, b: seq<Instant>, c: seq<Instant>)
    ensures (a + b) + c == a + (b + c)
  {
  }

  lemma HistoryOfCall(rules: Rules, histories: Queues, c: Call, b: BucketId)
    ensures Queue(Considered(rules, histories, c).0, b)
         == Queue(histories, b)
            + if Considered(rules, histories, c).1 && c.Admit? && c.bucket == b then [c.loggedAt] else []
  {
    hide Recent;
    assert Queue(histories, b) + [] == Queue(histories, b);
  }

  lemma {:induction false} RecentIsCount(history: seq<Instant>, cutoff: Instant, now: Instant)
    requires forall i :: 0 <= i < |history| ==> history[i] <= now
    ensures Recent(history, cutoff) == CountIn(history, cutoff, now)
  {
    if history == [] {
    } else {
      var older, last := history[..|history| - 1], history[|history| - 1];
      RecentIsCount(older, cutoff, now);
      assert history == older + [last];
      RecentOfAppend(older, last, cutoff);
    }
  }

  lemma {:induction false} RecentOfAppend(history: seq<Instant>, at: Instant, cutoff: Instant)
    ensures Recent(history + [at], cutoff) == Recent(history, cutoff) + if at > cutoff then 1 else 0
  {
    if history == [] {
      assert [] + [at] == [at] && [at][1..] == [];
    } else {
      assert (history + [at])[1..] == history[1..] + [at];
      RecentOfAppend(history[1..], at, cutoff);
    }
  }

  lemma {:induction false} AdmittedIffFewRecent(rules: Rules, calls: seq<Call>, start: Instant, c: Call)
    requires Serial(calls, start) && End(calls, start) <= c.prunedAt <= Finish(c)
    ensures var rule, admissions := RuleFor(rules, c.bucket), Admissions(rules, map[], calls, c.bucket);
            Called(rules, QueuesAfter(rules, map[], calls), c).1 <==>
              CountIn(admissions, c.prunedAt - rule.window, c.prunedAt) < rule.limit
  {
    hide Called, Recent, Pruned, CountIn, Admissions, QueuesAfter, Histories, AllStandFor, StandsFor, Serial;
    var b := c.bucket;
    var queues, histories := QueuesAfter(rules, map[], calls), Histories(rules, map[], calls);
    EmptyStandsFor(rules, start);
    AdmissionsAreSpaced(rules, calls, start, b);
    RunAgrees(rules, map[], map[], calls, start, b);
    CallAgrees(rules, queues, histories, c, End(calls, start));
    HistoryIsPast(rules, queues, histories, b, End(calls, start));
    hide End;
    RecentIsCount(Queue(histories, b), c.prunedAt - RuleFor(rules, b).window, c.prunedAt);
  }

  lemma HistoryIsPast(rules: Rules, queues: Queues, histories: Queues, b: BucketId, now: Instant)
    requires AllStandFor(rules, queues, histories, now)
    ensures forall i :: 0 <= i < |Queue(histories, b)| ==> Queue(histories, b)[i] <= now
  {
    assert StandsFor(Queue(queues, b), Queue(histories, b), RuleFor(rules, b).window, now);
  }

  lemma EmptyStandsFor(rules: Rules, start: Instant)
    ensures AllStandFor(rules, map[], map[], start)
  {
  }

  lemma {:induction false} AdmissionsAreSpaced(rules: Rules, calls: seq<Call>, start: Instant, b: BucketId)
    requires Serial(calls, start)
    ensures Queue(Histories(rules, map[], calls), b) == Admissions(rules, map[], calls, b)
  {
    EmptyStandsFor(rules, start);
    hide AllStandFor, Admissions, Histories;
    RunAgrees(rules, map[], map[], calls, start, b);
    assert [] + Admissions(rules, map[], calls, b) == Admissions(rules, map[], calls, b);
  }

  /**
    In every run: a call of an API key goes through exactly when fewer than the key limit of its admissions lie in
    the last key window, and in any k key windows at most k times the key limit do.
   */
  lemma {:induction false} KeysAreLimited(
    rules: Rules, calls: seq<Call>, start: Instant, prefix: string, prunedAt: Instant, loggedAt: Instant,
    k: nat, after: Instant)
    requires Serial(calls, start) && End(calls, start) <= prunedAt <= loggedAt
    ensures var b := BucketId(ApiKey, prefix);
            var admissions := Admissions(rules, map[], calls, b);
            && (Called(rules, QueuesAfter(rules, map[], calls), Admit(b, prunedAt, loggedAt)).1 <==>
                  CountIn(admissions, prunedAt - rules.apiKey.window, prunedAt) < rules.apiKey.limit)
            && CountIn(admissions, after, after + k as real * rules.apiKey.window) <= k * Max(rules.apiKey.limit, 0)
  {
    hide Called, CountIn, Admissions, QueuesAfter, Histories, Serial, Queue;
    AdmittedIffFewRecent(rules, calls, start, Admit(BucketId(ApiKey, prefix), prunedAt, loggedAt));
    AdmissionsAreSpaced(rules, calls, start, BucketId(ApiKey, prefix));
    AdmissionsAreBounded(rules, calls, start, BucketId(ApiKey, prefix), k, after);
  }

  /** The same of an address, whether its failures are only looked at or one more is recorded. */
  lemma {:induction false} AddressesAreLimited(
    rules: Rules, calls: seq<Call>, start: Instant, address: string, prunedAt: Instant, loggedAt: Instant,
    k: nat, after: Instant)
    requires Serial(calls, start) && End(calls, start) <= prunedAt <= loggedAt
    ensures var b := BucketId(AuthFailure, address);
            var queues, failures := QueuesAfter(rules, map[], calls), Admissions(rules, map[], calls, b);
            var few := CountIn(failures, prunedAt - rules.authFailure.window, prunedAt) < rules.authFailure.limit;
            && (Called(rules, queues, Look(b, prunedAt)).1 <==> few)
            && (Called(rules, queues, Admit(b, prunedAt, loggedAt)).1 <==> few)
            && CountIn(failures, after, after + k as real * rules.authFailure.window)
                 <= k * Max(rules.authFailure.limit, 0)
  {
    hide Called, CountIn, Admissions, QueuesAfter, Histories, Serial, Queue;
    AdmittedIffFewRecent(rules, calls, start, Look(BucketId(AuthFailure, address), prunedAt));
    AdmittedIffFewRecent(rules, calls, start, Admit(BucketId(AuthFailure, address), prunedAt, loggedAt));
    AdmissionsAreSpaced(rules, calls, start, BucketId(AuthFailure, address));
    AdmissionsAreBounded(rules, calls, start, BucketId(AuthFailure, address), k, after);
  }
}
