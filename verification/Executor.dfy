/**
  The IMAP executor: a bounded pool of workers, and one semaphore per account that a worker takes only after it
  has taken a task off the queue. Callers, workers and shutdown interleave; each step below is atomic.
*/
module Executor {
  import opened Common

  /** `Waiting` occupies a worker that is blocked on the semaphore of its account; `Running` holds a permit. */
  datatype Phase = Queued | Waiting | Running | Done | Cancelled

  /** `starts` counts how often the submitted function has been entered. */
  datatype Task = Task(account: int, phase: Phase, starts: nat)

  datatype Pool = Pool(
    maxWorkers: nat, perAccount: nat, permits: map<int, int>, tasks: seq<Task>, accepting: bool)

  datatype Step =
    | Submit(account: int)   // `run`, up to the hand-over to the pool
    | Take(i: nat)           // an idle worker takes the task at the head of the queue
    | Acquire(i: nat)        // the worker gets a permit and enters the function
    | Finish(i: nat)         // the function returns or raises, and the permit goes back
    | TimeOut(i: nat)        // the caller gives up and tries to cancel
    | Shutdown               // no more submissions; queued tasks are cancelled

  // ----- Counting tasks -----------------------------------------------------------------------------------------

  function Sum(tasks: seq<Task>, weight: Task -> nat): nat {
    if tasks == [] then 0 else Sum(tasks[..|tasks| - 1], weight) + weight(tasks[|tasks| - 1])
  }

  function Occupies(): Task -> nat {
    (t: Task) => if t.phase.Waiting? || t.phase.Running? then 1 else 0
  }

  function RunsFor(account: int): Task -> nat {
    (t: Task) => if t.phase.Running? && t.account == account then 1 else 0
  }

  /** How many steps a task still has ahead of it. */
  function Ahead(): Task -> nat {
    (t: Task) => match t.phase
                 case Queued => 3
                 case Waiting => 2
                 case Running => 1
                 case _ => 0
  }

  function Occupied(p: Pool): nat { Sum(p.tasks, Occupies()) }

  function RunningOn(p: Pool, account: int): nat { Sum(p.tasks, RunsFor(account)) }

  function Measure(p: Pool): nat { Sum(p.tasks, Ahead()) }

  lemma {:induction false} SumOfUpdate(tasks: seq<Task>, i: nat, t: Task, weight: Task -> nat)
    requires i < |tasks|
    ensures Sum(tasks[i := t], weight) == Sum(tasks, weight) - weight(tasks[i]) + weight(t)
    ensures Sum(tasks, weight) >= weight(tasks[i])
  {
    var n := |tasks| - 1;
    var updated := tasks[i := t];
    if i == n {
      assert updated[..n] == tasks[..n];
    } else {
      assert updated[..n] == tasks[..n][i := t];
      SumOfUpdate(tasks[..n], i, t, weight);
    }
  }

  lemma {:induction false} PositiveSum(tasks: seq<Task>, weight: Task -> nat) returns (i: nat)
    requires Sum(tasks, weight) > 0
    ensures i < |tasks| && weight(tasks[i]) > 0
  {
    var n := |tasks| - 1;
    if weight(tasks[n]) > 0 {
      i := n;
    } else {
      i := PositiveSum(tasks[..n], weight);
    }
  }

  // ----- The steps ------------------------------------------------------------------------------------------------

  ghost predicate HeadOfQueue(p: Pool, i: nat) {
    i < |p.tasks| && p.tasks[i].phase.Queued? && forall j :: 0 <= j < i ==> !p.tasks[j].phase.Queued?
  }

  ghost predicate Enabled(p: Pool, s: Step) {
    match s
    case Submit(_) => true
    case Take(i) => HeadOfQueue(p, i) && Occupied(p) < p.maxWorkers
    case Acquire(i) =>
      && i < |p.tasks| && p.tasks[i].phase.Waiting?
      && p.tasks[i].account in p.permits && p.permits[p.tasks[i].account] > 0
    case Finish(i) =>
      i < |p.tasks| && p.tasks[i].phase.Running? && p.tasks[i].account in p.permits
    case TimeOut(i) => i < |p.tasks|
    case Shutdown => true
  }

  function Moved(p: Pool, i: nat, phase: Phase): Pool
    requires i < |p.tasks|
  {
    p.(tasks := p.tasks[i := p.tasks[i].(phase := phase)])
  }

  function CancelQueued(tasks: seq<Task>): seq<Task> {
    seq(|tasks|, i requires 0 <= i < |tasks| =>
      if tasks[i].phase.Queued? then tasks[i].(phase := Cancelled) else tasks[i])
  }

  function Next(p: Pool, s: Step): Pool
    requires Enabled(p, s)
  {
    match s
    case Submit(account) =>
      p.(permits := if account in p.permits then p.permits else p.permits[account := p.perAccount],
         tasks := if p.accepting then p.tasks + [Task(account, Queued, 0)] else p.tasks)
    case Take(i) => Moved(p, i, Waiting)
    case Acquire(i) =>
      var t := p.tasks[i];
      p.(permits := p.permits[t.account := p.permits[t.account] - 1],
         tasks := p.tasks[i := Task(t.account, Running, t.starts + 1)])
    case Finish(i) =>
      var account := p.tasks[i].account;
      Moved(p, i, Done).(permits := p.permits[account := p.permits[account] + 1])
    case TimeOut(i) => if p.tasks[i].phase.Queued? then Moved(p, i, Cancelled) else p
    case Shutdown => p.(accepting := false, tasks := CancelQueued(p.tasks))
  }

  function Fresh(maxWorkers: nat, perAccount: nat): Pool {
    Pool(maxWorkers, perAccount, map[], [], true)
  }

  class ImapExecutor {
    var maxWorkers: nat
    var perAccountLimit: nat
    var accountLocks: map<int, int>
    var tasks: seq<Task>
    var accepting: bool

    ghost function State(): Pool
      reads this
    {
      Pool(maxWorkers, perAccountLimit, accountLocks, tasks, accepting)
    }

    constructor (maxWorkers: nat, perAccountLimit: nat)
      ensures State() == Fresh(maxWorkers, perAccountLimit)
    {
      this.maxWorkers := maxWorkers;
      this.perAccountLimit := perAccountLimit;
      accountLocks := map[];
      tasks := [];
      accepting := true;
    }

    /** Finds the semaphore of an account, or makes one with all its permits. */
    method LockFor(account: int)
      modifies this`accountLocks
      ensures accountLocks
           == if account in old(accountLocks) then old(accountLocks) else old(accountLocks)[account := perAccountLimit]
    {
      if account !in accountLocks {
        accountLocks := accountLocks[account := perAccountLimit];
      }
    }

    /** The semaphore is made before the pool gets to refuse a submission after shutdown. */
    method Run(account: int) returns (submitted: bool)
      modifies this
      ensures State() == Next(old(State()), Submit(account))
      ensures submitted == accepting
    {
      LockFor(account);
      if !accepting {
        return false;
      }
      tasks := tasks + [Task(account, Queued, 0)];
      submitted := true;
    }

    /** A worker looks along the queue for the first task that has not been cancelled. */
    method WorkerTakes() returns (taken: Option<nat>)
      requires Occupied(State()) < maxWorkers
      modifies this
      ensures taken.Some? ==> Enabled(old(State()), Take(taken.value))
                              && State() == Next(old(State()), Take(taken.value))
      ensures taken.None? ==> State() == old(State()) && forall t :: t in tasks ==> !t.phase.Queued?
    {
      var i := 0;
      while i < |tasks|
        invariant 0 <= i <= |tasks| && State() == old(State())
        invariant forall j :: 0 <= j < i ==> !tasks[j].phase.Queued?
      {
        if tasks[i].phase.Queued? {
          tasks := tasks[i := tasks[i].(phase := Waiting)];
          return Some(i);
        }
        i := i + 1;
      }
      taken := None;
    }

    method Enter(i: nat)
      requires Enabled(State(), Acquire(i))
      modifies this
      ensures State() == Next(old(State()), Acquire(i))
    {
      var t := tasks[i];
      accountLocks := accountLocks[t.account := accountLocks[t.account] - 1];
      tasks := tasks[i := Task(t.account, Running, t.starts + 1)];
    }

    method Leave(i: nat)
      requires Enabled(State(), Finish(i))
      modifies this
      ensures State() == Next(old(State()), Finish(i))
    {
      var account := tasks[i].account;
      accountLocks := accountLocks[account := accountLocks[account] + 1];
      tasks := tasks[i := tasks[i].(phase := Done)];
    }

    method GiveUp(i: nat)
      requires Enabled(State(), TimeOut(i))
      modifies this
      ensures State() == Next(old(State()), TimeOut(i))
    {
      if tasks[i].phase.Queued? {
        tasks := tasks[i := tasks[i].(phase := Cancelled)];
      }
    }

    /** Closes the pool and cancels what is still queued, task by task. */
    method ShutDown()
      modifies this
      ensures State() == Next(old(State()), Shutdown)
    {
      accepting := false;
      var i := 0;
      while i < |tasks|
        invariant 0 <= i <= |tasks| == |old(tasks)|
        invariant State() == old(State()).(accepting := false, tasks := tasks)
        invariant forall j :: 0 <= j < i ==> tasks[j] == CancelQueued(old(tasks))[j]
        invariant forall j :: i <= j < |tasks| ==> tasks[j] == old(tasks)[j]
      {
        if tasks[i].phase.Queued? {
          tasks := tasks[i := tasks[i].(phase := Cancelled)];
        }
        i := i + 1;
      }
      assert tasks == CancelQueued(old(tasks));
    }
  }

  // ----- What every interleaving keeps -----------------------------------------------------------------------------

  ghost predicate CountsStarts(t: Task) {
    t.starts == if t.phase.Running? || t.phase.Done? then 1 else 0
  }

  ghost predicate Valid(p: Pool) {
    && Occupied(p) <= p.maxWorkers
    && (forall a :: a in p.permits ==> 0 <= p.permits[a] && p.permits[a] + RunningOn(p, a) == p.perAccount)
    && (forall a :: a !in p.permits ==> RunningOn(p, a) == 0)
    && (forall i :: 0 <= i < |p.tasks| ==> p.tasks[i].account in p.permits && CountsStarts(p.tasks[i]))
  }

  /** How one task changing moves all the counts. */
  lemma {:induction false} CountsOfUpdate(p: Pool, i: nat, t: Task)
    requires i < |p.tasks|
    ensures var p' := p.(tasks := p.tasks[i := t]);
            && Occupied(p') == Occupied(p) - Occupies()(p.tasks[i]) + Occupies()(t)
            && Measure(p') == Measure(p) - Ahead()(p.tasks[i]) + Ahead()(t)
            && forall a :: RunningOn(p', a) == RunningOn(p, a) - RunsFor(a)(p.tasks[i]) + RunsFor(a)(t)
  {
    SumOfUpdate(p.tasks, i, t, Occupies());
    SumOfUpdate(p.tasks, i, t, Ahead());
    forall a
      ensures RunningOn(p.(tasks := p.tasks[i := t]), a) == RunningOn(p, a) - RunsFor(a)(p.tasks[i]) + RunsFor(a)(t)
    {
      SumOfUpdate(p.tasks, i, t, RunsFor(a));
    }
  }

  lemma {:induction false} CancellingKeepsCounts(tasks: seq<Task>, weight: Task -> nat)
    requires forall t: Task :: t.phase.Queued? ==> weight(t) == weight(t.(phase := Cancelled))
    ensures Sum(CancelQueued(tasks), weight) == Sum(tasks, weight)
  {
    if tasks == [] {
    } else {
      var n := |tasks| - 1;
      CancellingKeepsCounts(tasks[..n], weight);
      assert CancelQueued(tasks)[..n] == CancelQueued(tasks[..n]);
    }
  }

  lemma {:induction false} LockForKeepsValid(p: Pool, account: int)
    requires Valid(p)
    ensures Valid(p.(permits := if account in p.permits then p.permits else p.permits[account := p.perAccount]))
  {
    hide Sum;
  }

  lemma {:induction false} EnqueueKeepsValid(p: Pool, account: int)
    requires Valid(p) && account in p.permits
    ensures Valid(p.(tasks := p.tasks + [Task(account, Queued, 0)]))
  {
    var t := Task(account, Queued, 0);
    SumOfAppend(p.tasks, t, Occupies());
    forall a
      ensures RunningOn(p.(tasks := p.tasks + [t]), a) == RunningOn(p, a)
    {
      SumOfAppend(p.tasks, t, RunsFor(a));
    }
    hide Sum;
  }

  lemma SumOfAppend(tasks: seq<Task>, t: Task, weight: Task -> nat)
    ensures Sum(tasks + [t], weight) == Sum(tasks, weight) + weight(t)
  {
    assert (tasks + [t])[..|tasks|] == tasks;
  }

  lemma {:induction false} SubmitKeepsValid(p: Pool, account: int)
    requires Valid(p)
    ensures Valid(Next(p, Submit(account)))
  {
    hide Valid;
    var locked := p.(permits := if account in p.permits then p.permits else p.permits[account := p.perAccount]);
    LockForKeepsValid(p, account);
    if p.accepting {
      EnqueueKeepsValid(locked, account);
      assert Next(p, Submit(account)) == locked.(tasks := locked.tasks + [Task(account, Queued, 0)]);
    } else {
      assert Next(p, Submit(account)) == locked;
    }
  }

  lemma {:induction false} ShutdownKeepsValid(p: Pool)
    requires Valid(p)
    ensures Valid(Next(p, Shutdown))
  {
    CancellingKeepsCounts(p.tasks, Occupies());
    forall a
      ensures RunningOn(Next(p, Shutdown), a) == RunningOn(p, a)
    {
      CancellingKeepsCounts(p.tasks, RunsFor(a));
    }
  }

  lemma {:induction false} TakeKeepsValid(p: Pool, i: nat)
    requires Valid(p) && Enabled(p, Take(i))
    ensures Valid(Next(p, Take(i)))
  {
    hide Sum;
    CountsOfUpdate(p, i, p.tasks[i].(phase := Waiting));
  }

  lemma {:induction false} AcquireKeepsValid(p: Pool, i: nat)
    requires Valid(p) && Enabled(p, Acquire(i))
    ensures Valid(Next(p, Acquire(i)))
  {
    hide Sum;
    CountsOfUpdate(p, i, Task(p.tasks[i].account, Running, p.tasks[i].starts + 1));
    assert CountsStarts(p.tasks[i]);
  }

  lemma {:induction false} FinishKeepsValid(p: Pool, i: nat)
    requires Valid(p) && Enabled(p, Finish(i))
    ensures Valid(Next(p, Finish(i)))
  {
    hide Sum;
    CountsOfUpdate(p, i, p.tasks[i].(phase := Done));
    assert CountsStarts(p.tasks[i]);
  }

  lemma {:induction false} TimeOutKeepsValid(p: Pool, i: nat)
    requires Valid(p) && Enabled(p, TimeOut(i))
    ensures Valid(Next(p, TimeOut(i)))
  {
    hide Sum;
    CountsOfUpdate(p, i, p.tasks[i].(phase := Cancelled));
    assert CountsStarts(p.tasks[i]);
  }

  lemma {:induction false} StepKeepsValid(p: Pool, s: Step)
    requires Valid(p) && Enabled(p, s)
    ensures Valid(Next(p, s))
  {
    hide Valid;
    match s {
      case Submit(account) => SubmitKeepsValid(p, account);
      case Shutdown => ShutdownKeepsValid(p);
      case Take(i) => TakeKeepsValid(p, i);
      case Acquire(i) => AcquireKeepsValid(p, i);
      case Finish(i) => FinishKeepsValid(p, i);
      case TimeOut(i) => TimeOutKeepsValid(p, i);
    }
  }

  /** `steps` is an interleaving that can happen from `p`. */
  ghost predicate CanRun(p: Pool, steps: seq<Step>)
    decreases |steps|
  {
    steps != [] ==> Enabled(p, steps[0]) && CanRun(Next(p, steps[0]), steps[1..])
  }

  function After(p: Pool, steps: seq<Step>): Pool
    requires CanRun(p, steps)
    decreases |steps|
  {
    if steps == [] then p else After(Next(p, steps[0]), steps[1..])
  }

  function Entries(steps: seq<Step>, i: nat): nat {
    if steps == [] then 0 else (if steps[0] == Acquire(i) then 1 else 0) + Entries(steps[1..], i)
  }

  function StartsOf(p: Pool, i: nat): nat {
    if i < |p.tasks| then p.tasks[i].starts else 0
  }

  lemma {:induction false} StepCountsEntry(p: Pool, s: Step, i: nat)
    requires Enabled(p, s)
    ensures StartsOf(Next(p, s), i) == StartsOf(p, i) + if s == Acquire(i) then 1 else 0
    ensures i < |p.tasks| ==> i < |Next(p, s).tasks|
    ensures i < |p.tasks| && p.tasks[i].phase.Cancelled? ==> Next(p, s).tasks[i].phase.Cancelled?
  {
  }

  lemma {:induction false} RunKeepsValid(p: Pool, steps: seq<Step>, i: nat)
    requires Valid(p) && CanRun(p, steps)
    ensures Valid(After(p, steps))
    ensures StartsOf(After(p, steps), i) == StartsOf(p, i) + Entries(steps, i)
    ensures i < |p.tasks| && p.tasks[i].phase.Cancelled? ==>
              i < |After(p, steps).tasks| && After(p, steps).tasks[i].phase.Cancelled?
    decreases |steps|
  {
    hide Valid, Enabled, Next;
    if steps == [] {
    } else {
      StepKeepsValid(p, steps[0]);
      StepCountsEntry(p, steps[0], i);
      RunKeepsValid(Next(p, steps[0]), steps[1..], i);
    }
  }

  ghost function RunningTasks(p: Pool, account: int): set<int> {
    set i | 0 <= i < |p.tasks| && p.tasks[i] == Task(account, Running, p.tasks[i].starts)
  }

  /** Adding up ones is counting. */
  lemma {:induction false} SumIsCount(tasks: seq<Task>, weight: Task -> nat)
    requires forall t: Task :: weight(t) <= 1
    ensures Sum(tasks, weight) == |set i | 0 <= i < |tasks| && weight(tasks[i]) == 1|
  {
    if tasks == [] {
    } else {
      var n := |tasks| - 1;
      SumIsCount(tasks[..n], weight);
      var older := set i | 0 <= i < n && weight(tasks[..n][i]) == 1;
      var all := set i | 0 <= i < |tasks| && weight(tasks[i]) == 1;
      assert all == older + if weight(tasks[n]) == 1 then {n} else {};
    }
  }

  lemma OccupiedIsCount(p: Pool)
    ensures Occupied(p) == |set i | 0 <= i < |p.tasks| && p.tasks[i].phase in {Waiting, Running}|
  {
    SumIsCount(p.tasks, Occupies());
    hide Sum;
    assert (set i | 0 <= i < |p.tasks| && p.tasks[i].phase in {Waiting, Running})
        == set i | 0 <= i < |p.tasks| && Occupies()(p.tasks[i]) == 1;
  }

  lemma RunningIsCount(p: Pool, a: int)
    ensures RunningOn(p, a) == |RunningTasks(p, a)|
  {
    SumIsCount(p.tasks, RunsFor(a));
    hide Sum;
    assert RunningTasks(p, a) == set i | 0 <= i < |p.tasks| && RunsFor(a)(p.tasks[i]) == 1;
  }

  /**
    In every interleaving, free permits and running tasks of an account add up to its limit, no more workers are
    occupied than there are, no task is entered twice, and a cancelled one is never entered.
   */
  lemma {:induction false} ExecutorIsSafe(maxWorkers: nat, perAccount: nat, steps: seq<Step>)
    requires CanRun(Fresh(maxWorkers, perAccount), steps)
    ensures var p := After(Fresh(maxWorkers, perAccount), steps);
            && |set i | 0 <= i < |p.tasks| && p.tasks[i].phase in {Waiting, Running}| <= maxWorkers
            && (forall a :: a in p.permits ==> 0 <= p.permits[a] && p.permits[a] + |RunningTasks(p, a)| == perAccount)
            && (forall a :: |RunningTasks(p, a)| <= perAccount)
            && (forall i :: 0 <= i < |p.tasks| ==>
                  Entries(steps, i) == if p.tasks[i].phase.Running? || p.tasks[i].phase.Done? then 1 else 0)
  {
    var idle := Fresh(maxWorkers, perAccount);
    var p := After(idle, steps);
    SizeStays(idle, steps);
    RunKeepsValid(idle, steps, 0);
    OccupiedIsCount(p);
    forall a
      ensures |RunningTasks(p, a)| == RunningOn(p, a)
    {
      RunningIsCount(p, a);
    }
    hide RunningTasks, RunningOn, Occupied;
    hide Sum, CanRun, After, Enabled, Next;
    forall i | 0 <= i < |After(idle, steps).tasks|
      ensures Entries(steps, i) == After(idle, steps).tasks[i].starts
    {
      RunKeepsValid(idle, steps, i);
    }
  }

  lemma {:induction false} CancelledIsNeverEntered(p: Pool, steps: seq<Step>, i: nat)
    requires Valid(p) && CanRun(p, steps) && i < |p.tasks| && p.tasks[i].phase.Cancelled?
    ensures Entries(steps, i) == 0
  {
    RunKeepsValid(p, steps, i);
  }

  // ----- Giving up and shutting down --------------------------------------------------------------------------------

  /** A time-out cancels a task that is still queued, and changes nothing else, whatever task it falls on. */
  lemma {:induction false} TimeOutCancelsQueued(p: Pool, i: nat)
    requires i < |p.tasks|
    ensures var t := p.tasks[i];
            Next(p, TimeOut(i))
            == if t.phase == Queued then p.(tasks := p.tasks[i := Task(t.account, Cancelled, t.starts)]) else p
  {
  }

  /** In every run: once its caller gives up on a queued task, the function is never entered, and ends cancelled. */
  lemma {:induction false} TimedOutIsNeverEntered(
    maxWorkers: nat, perAccount: nat, before: seq<Step>, i: nat, after: seq<Step>)
    requires CanRun(Fresh(maxWorkers, perAccount), before)
    requires var p := After(Fresh(maxWorkers, perAccount), before);
             i < |p.tasks| && p.tasks[i].phase == Queued && CanRun(Next(p, TimeOut(i)), after)
    ensures var p := After(Fresh(maxWorkers, perAccount), before);
            var last := After(Next(p, TimeOut(i)), after);
            Entries(before, i) == 0 && Entries(after, i) == 0
            && i < |last.tasks| && last.tasks[i].phase == Cancelled
  {
    var p := After(Fresh(maxWorkers, perAccount), before);
    ExecutorIsSafe(maxWorkers, perAccount, before);
    RunKeepsValid(Fresh(maxWorkers, perAccount), before, i);
    StepKeepsValid(p, TimeOut(i));
    RunKeepsValid(Next(p, TimeOut(i)), after, i);
    CancelledIsNeverEntered(Next(p, TimeOut(i)), after, i);
  }

  /** A submission queues one new task, at the end, as long as the pool accepts any. */
  lemma {:induction false} SubmitQueuesOne(p: Pool, account: int)
    ensures Next(p, Submit(account)).tasks == if p.accepting then p.tasks + [Task(account, Queued, 0)] else p.tasks
    ensures Next(p, Submit(account)).accepting == p.accepting && account in Next(p, Submit(account)).permits
  {
  }

  /** Tasks are taken in the order in which they were submitted, leaving out those that were cancelled. */
  lemma {:induction false} TakenInOrder(p: Pool, i: nat, j: nat)
    requires i < j < |p.tasks| && Enabled(p, Take(j))
    ensures p.tasks[j].phase == Queued && p.tasks[i].phase != Queued
  {
  }

  lemma {:induction false} ClosedStaysClosed(p: Pool, steps: seq<Step>, i: nat)
    requires CanRun(p, steps) && !p.accepting && i < |p.tasks| && p.tasks[i].phase != Queued
    ensures !After(p, steps).accepting && |After(p, steps).tasks| == |p.tasks|
    ensures After(p, steps).tasks[i].phase != Queued
    decreases |steps|
  {
    if steps == [] {
    } else {
      ClosedStaysClosed(Next(p, steps[0]), steps[1..], i);
    }
  }

  /** In every run: a shutdown cancels the queued tasks for good, leaves the others be, and no task comes after it. */
  lemma {:induction false} ShutdownIsFinal(
    maxWorkers: nat, perAccount: nat, before: seq<Step>, after: seq<Step>, i: nat)
    requires CanRun(Fresh(maxWorkers, perAccount), before)
    requires var p := After(Fresh(maxWorkers, perAccount), before);
             i < |p.tasks| && CanRun(Next(p, Shutdown), after)
    ensures var p := After(Fresh(maxWorkers, perAccount), before);
            var closed, last := Next(p, Shutdown), After(Next(p, Shutdown), after);
            && |last.tasks| == |p.tasks|
            && closed.tasks[i]
               == (if p.tasks[i].phase == Queued then Task(p.tasks[i].account, Cancelled, 0) else p.tasks[i])
            && (p.tasks[i].phase == Queued ==> last.tasks[i].phase == Cancelled && Entries(after, i) == 0)
            && last.tasks[i].phase != Queued
  {
    var p := After(Fresh(maxWorkers, perAccount), before);
    var closed := Next(p, Shutdown);
    RunKeepsValid(Fresh(maxWorkers, perAccount), before, i);
    assert CountsStarts(p.tasks[i]);
    StepKeepsValid(p, Shutdown);
    ClosedStaysClosed(closed, after, i);
    if p.tasks[i].phase == Queued {
      RunKeepsValid(closed, after, i);
      CancelledIsNeverEntered(closed, after, i);
    }
  }

  // ----- Nothing gets stuck, if accounts may run anything at all ---------------------------------------------------

  /** A worker, or the function it runs, can move on its own. */
  predicate IsWork(s: Step) {
    s.Take? || s.Acquire? || s.Finish?
  }

  ghost predicate CanWork(p: Pool) {
    exists s :: IsWork(s) && Enabled(p, s)
  }

  /** A worker that has a task can go on with it. */
  ghost predicate OccupiedCanMove(p: Pool) {
    exists s: Step :: (s.Acquire? || s.Finish?) && Enabled(p, s)
  }

  lemma {:induction false} OccupiedMoves(p: Pool) returns (s: Step)
    requires Valid(p) && p.perAccount >= 1 && Occupied(p) > 0
    ensures (s.Acquire? || s.Finish?) && Enabled(p, s)
  {
    var i := PositiveSum(p.tasks, Occupies());
    var t := p.tasks[i];
    if t.phase.Running? {
      s := Finish(i);
    } else if p.permits[t.account] > 0 {
      s := Acquire(i);
    } else {
      var j := PositiveSum(p.tasks, RunsFor(t.account));
      s := Finish(j);
    }
  }

  /** With a limit of 0 permits nothing is ever running, and nobody can start to. */
  lemma {:induction false} NoPermitsNoMoves(p: Pool, s: Step)
    requires Valid(p) && p.perAccount == 0 && Enabled(p, s)
    ensures !s.Acquire? && !s.Finish?
  {
    if s.Finish? {
      SumOfUpdate(p.tasks, s.i, p.tasks[s.i], RunsFor(p.tasks[s.i].account));
    }
  }

  /** Whenever a worker is occupied some occupied worker can move, exactly if an account may run at least one task. */
  lemma {:induction false} OccupiedWorkersMove(p: Pool)
    requires Valid(p) && Occupied(p) > 0
    ensures OccupiedCanMove(p) <==> p.perAccount >= 1
  {
    if p.perAccount >= 1 {
      var s := OccupiedMoves(p);
    } else if OccupiedCanMove(p) {
      var s: Step :| (s.Acquire? || s.Finish?) && Enabled(p, s);
      NoPermitsNoMoves(p, s);
    }
  }

  lemma {:induction false} HeadExists(p: Pool, i: nat) returns (h: nat)
    requires i < |p.tasks| && p.tasks[i].phase.Queued?
    ensures HeadOfQueue(p, h)
  {
    if j: nat :| j < i && p.tasks[j].phase.Queued? {
      h := HeadExists(p, j);
    } else {
      h := i;
    }
  }

  ghost predicate SomeQueued(p: Pool) {
    exists i :: 0 <= i < |p.tasks| && p.tasks[i].phase.Queued?
  }

  lemma {:induction false} IdleHasQueued(p: Pool)
    requires Measure(p) > 0 && Occupied(p) == 0
    ensures SomeQueued(p)
  {
    var i := PositiveSum(p.tasks, Ahead());
    SumOfUpdate(p.tasks, i, p.tasks[i], Occupies());
  }

  lemma {:induction false} SomeWork(p: Pool) returns (s: Step)
    requires Valid(p) && p.perAccount >= 1 && p.maxWorkers >= 1 && Measure(p) > 0
    ensures IsWork(s) && Enabled(p, s)
  {
    if Occupied(p) > 0 {
      s := OccupiedMoves(p);
    } else {
      IdleHasQueued(p);
      var i :| 0 <= i < |p.tasks| && p.tasks[i].phase.Queued?;
      var h := HeadExists(p, i);
      s := Take(h);
    }
  }

  /**
    Work is possible exactly as long as any task is queued, waiting or running; but if accounts may run nothing,
    only until the workers that are left have taken what is queued.
   */
  lemma {:induction false} WorkIsPossible(p: Pool)
    requires Valid(p) && p.maxWorkers >= 1
    ensures CanWork(p) <==>
              if p.perAccount >= 1 then Measure(p) > 0 else SomeQueued(p) && Occupied(p) < p.maxWorkers
  {
    if p.perAccount >= 1 && Measure(p) > 0 {
      var s := SomeWork(p);
    } else if p.perAccount == 0 && SomeQueued(p) && Occupied(p) < p.maxWorkers {
      var i :| 0 <= i < |p.tasks| && p.tasks[i].phase.Queued?;
      var h := HeadExists(p, i);
      assert IsWork(Take(h)) && Enabled(p, Take(h));
    } else if CanWork(p) {
      var s :| IsWork(s) && Enabled(p, s);
      if p.perAccount == 0 {
        NoPermitsNoMoves(p, s);
      } else {
        SumOfUpdate(p.tasks, s.i, p.tasks[s.i], Ahead());
      }
    }
  }

  ghost predicate Submits(steps: seq<Step>) {
    exists s :: s in steps && s.Submit?
  }

  function WorkIn(steps: seq<Step>): nat {
    if steps == [] then 0 else (if IsWork(steps[0]) then 1 else 0) + WorkIn(steps[1..])
  }

  lemma {:induction false} CancellingLowersMeasure(tasks: seq<Task>)
    ensures Sum(CancelQueued(tasks), Ahead()) <= Sum(tasks, Ahead())
  {
    if tasks == [] {
    } else {
      var n := |tasks| - 1;
      CancellingLowersMeasure(tasks[..n]);
      assert CancelQueued(tasks)[..n] == CancelQueued(tasks[..n]);
    }
  }

  lemma {:induction false} StepLowersMeasure(p: Pool, s: Step)
    requires Enabled(p, s) && !s.Submit?
    ensures Measure(Next(p, s)) + (if IsWork(s) then 1 else 0) <= Measure(p)
  {
    match s {
      case Shutdown => CancellingLowersMeasure(p.tasks);
      case Take(i) => CountsOfUpdate(p, i, p.tasks[i].(phase := Waiting));
      case Acquire(i) => CountsOfUpdate(p, i, Task(p.tasks[i].account, Running, p.tasks[i].starts + 1));
      case Finish(i) => CountsOfUpdate(p, i, p.tasks[i].(phase := Done));
      case TimeOut(i) => CountsOfUpdate(p, i, p.tasks[i].(phase := Cancelled));
    }
  }

  /** Without new submissions only so much work can happen, in whatever order. */
  lemma {:induction false} WorkIsBounded(p: Pool, steps: seq<Step>)
    requires CanRun(p, steps) && !Submits(steps)
    ensures Measure(After(p, steps)) + WorkIn(steps) <= Measure(p)
    decreases |steps|
  {
    if steps == [] {
    } else {
      assert steps[0] in steps;
      StepLowersMeasure(p, steps[0]);
      assert forall s :: s in steps[1..] ==> s in steps;
      WorkIsBounded(Next(p, steps[0]), steps[1..]);
    }
  }

  /** Everything is finished or cancelled, and every permit is back. */
  ghost predicate Drained(p: Pool) {
    && (forall i :: 0 <= i < |p.tasks| ==> p.tasks[i].phase.Done? || p.tasks[i].phase.Cancelled?)
    && (forall a :: a in p.permits ==> p.permits[a] == p.perAccount)
  }

  lemma {:induction false} NoMeasureMeansDrained(p: Pool)
    requires Valid(p)
    ensures Measure(p) == 0 <==> Drained(p)
  {
    if Measure(p) == 0 {
      forall i | 0 <= i < |p.tasks|
        ensures p.tasks[i].phase.Done? || p.tasks[i].phase.Cancelled?
      {
        SumOfUpdate(p.tasks, i, p.tasks[i], Ahead());
      }
      forall a | a in p.permits
        ensures RunningOn(p, a) == 0
      {
        if RunningOn(p, a) > 0 {
          var i := PositiveSum(p.tasks, RunsFor(a));
          assert false;
        }
      }
    } else {
      var i := PositiveSum(p.tasks, Ahead());
    }
  }

  /** A pool where no worker can move is drained, exactly unless tasks sit in workers with no permit to wait for. */
  lemma {:induction false} RestMeansDrained(p: Pool)
    requires Valid(p) && p.maxWorkers >= 1 && !CanWork(p)
    ensures Drained(p) <==> p.perAccount >= 1 || Occupied(p) == 0
  {
    NoMeasureMeansDrained(p);
    if Occupied(p) > 0 {
      var i := PositiveSum(p.tasks, Occupies());
    } else if Measure(p) > 0 {
      IdleHasQueued(p);
    }
    WorkIsPossible(p);
  }

  ghost predicate OnlyWork(steps: seq<Step>) {
    forall i :: 0 <= i < |steps| ==> IsWork(steps[i])
  }

  /** The scheduler that always finds work drains the pool, within the measure. */
  lemma {:induction false} WorkDrains(p: Pool) returns (steps: seq<Step>)
    requires Valid(p) && p.perAccount >= 1 && p.maxWorkers >= 1
    ensures CanRun(p, steps) && OnlyWork(steps) && |steps| <= Measure(p) && Measure(After(p, steps)) == 0
    decreases Measure(p)
  {
    if Measure(p) == 0 {
      steps := [];
    } else {
      var s := SomeWork(p);
      StepKeepsValid(p, s);
      StepLowersMeasure(p, s);
      var rest := WorkDrains(Next(p, s));
      steps := [s] + rest;
      assert steps[1..] == rest;
    }
  }

  lemma {:induction false} NoPermitsNoEnd(p: Pool, steps: seq<Step>)
    requires Valid(p) && p.perAccount == 0 && Measure(p) > 0 && CanRun(p, steps) && OnlyWork(steps)
    ensures Measure(After(p, steps)) > 0
    decreases |steps|
  {
    if steps == [] {
    } else {
      assert IsWork(steps[0]);
      NoPermitsNoMoves(p, steps[0]);
      StepKeepsValid(p, steps[0]);
      CountsOfUpdate(p, steps[0].i, p.tasks[steps[0].i].(phase := Waiting));
      SumOfUpdate(Next(p, steps[0]).tasks, steps[0].i, Next(p, steps[0]).tasks[steps[0].i], Ahead());
      NoPermitsNoEnd(Next(p, steps[0]), steps[1..]);
    }
  }

  ghost predicate CanDrain(p: Pool) {
    exists steps :: CanRun(p, steps) && OnlyWork(steps) && |steps| <= Measure(p) && Measure(After(p, steps)) == 0
  }

  /** The workers alone can drain the pool, within its measure, exactly if accounts may run something. */
  lemma {:induction false} PoolDrains(p: Pool)
    requires Valid(p) && p.maxWorkers >= 1
    ensures CanDrain(p) <==> p.perAccount >= 1 || Measure(p) == 0
  {
    if p.perAccount >= 1 {
      var steps := WorkDrains(p);
    } else if Measure(p) == 0 {
      assert CanRun(p, []) && OnlyWork([]) && After(p, []) == p;
    } else if CanDrain(p) {
      var steps :| CanRun(p, steps) && OnlyWork(steps) && |steps| <= Measure(p) && Measure(After(p, steps)) == 0;
      NoPermitsNoEnd(p, steps);
    }
  }

  // ----- One account can hold every worker -------------------------------------------------------------------------

  function OccupiesFor(account: int): Task -> nat {
    (t: Task) => if t.account == account && (t.phase.Waiting? || t.phase.Running?) then 1 else 0
  }

  function OpenFor(account: int): Task -> nat {
    (t: Task) => if t.account == account && !t.phase.Done? && !t.phase.Cancelled? then 1 else 0
  }

  /** Workers that a task of the account occupies, and tasks of the account that are not over. */
  function HeldBy(p: Pool, account: int): nat { Sum(p.tasks, OccupiesFor(account)) }

  function OpenOf(p: Pool, account: int): nat { Sum(p.tasks, OpenFor(account)) }

  /**
    Account `a` holds every worker, a task of `b` is queued with all the permits of `b` free, and no worker can do
    anything before a function of `a` returns.
   */
  ghost predicate Starves(p: Pool, a: int, b: int) {
    && HeldBy(p, a) == p.maxWorkers
    && b in p.permits && p.permits[b] == p.perAccount
    && (exists i :: 0 <= i < |p.tasks| && p.tasks[i] == Task(b, Queued, 0))
    && (forall s :: IsWork(s) && Enabled(p, s) ==> s.Finish? && p.tasks[s.i].account == a)
  }

  lemma {:induction false} HeldAreOpen(tasks: seq<Task>, a: int)
    ensures Sum(tasks, OccupiesFor(a)) <= Sum(tasks, OpenFor(a))
  {
    if tasks == [] {
    } else {
      HeldAreOpen(tasks[..|tasks| - 1], a);
    }
  }

  /** `k` tasks of `a`: the first `running` are running, the others up to `taken` wait in a worker. */
  function StageTasks(a: int, k: nat, taken: nat, running: nat): seq<Task> {
    seq(k, i =>
      if i < running then Task(a, Running, 1) else if i < taken then Task(a, Waiting, 0) else Task(a, Queued, 0))
  }

  function Stage(maxWorkers: nat, perAccount: nat, a: int, k: nat, taken: nat, running: nat): Pool {
    Pool(maxWorkers, perAccount, map[a := perAccount - running], StageTasks(a, k, taken, running), true)
  }

  lemma {:induction false} StageCounts(a: int, k: nat, taken: nat, running: nat)
    requires running <= taken
    ensures var tasks := StageTasks(a, k, taken, running);
            && Sum(tasks, Occupies()) == Sum(tasks, OccupiesFor(a)) == (if taken < k then taken else k)
            && Sum(tasks, OpenFor(a)) == k
  {
    if k == 0 {
    } else {
      StageCounts(a, k - 1, taken, running);
      assert StageTasks(a, k, taken, running)[..k - 1] == StageTasks(a, k - 1, taken, running);
    }
  }

  ghost predicate Reaches(p: Pool, q: Pool) {
    exists steps :: CanRun(p, steps) && After(p, steps) == q
  }

  lemma {:induction false} RunsOn(p: Pool, steps: seq<Step>, s: Step)
    requires CanRun(p, steps) && Enabled(After(p, steps), s)
    ensures CanRun(p, steps + [s]) && After(p, steps + [s]) == Next(After(p, steps), s)
    decreases |steps|
  {
    hide Enabled, Next;
    if steps == [] {
      assert steps + [s] == [s] && [s][1..] == [];
    } else {
      assert (steps + [s])[1..] == steps[1..] + [s];
      RunsOn(Next(p, steps[0]), steps[1..], s);
    }
  }

  lemma OneMore(p: Pool, q: Pool, s: Step)
    requires Reaches(p, q) && Enabled(q, s)
    ensures Reaches(p, Next(q, s))
  {
    var steps :| CanRun(p, steps) && After(p, steps) == q;
    RunsOn(p, steps, s);
  }

  lemma {:induction false} StageIsReached(
    maxWorkers: nat, perAccount: nat, a: int, k: nat, taken: nat, running: nat)
    requires 1 <= k && running <= taken <= k && taken <= maxWorkers && running <= perAccount
    ensures Reaches(Fresh(maxWorkers, perAccount), Stage(maxWorkers, perAccount, a, k, taken, running))
    decreases running, taken, k
  {
    hide CanRun, After;
    var p := Fresh(maxWorkers, perAccount);
    var q := Stage(maxWorkers, perAccount, a, k, taken, running);
    if running > 0 {
      StageIsReached(maxWorkers, perAccount, a, k, taken, running - 1);
      var before := Stage(maxWorkers, perAccount, a, k, taken, running - 1);
      OneMore(p, before, Acquire(running - 1));
      assert Next(before, Acquire(running - 1)).tasks == q.tasks;
      assert Next(before, Acquire(running - 1)) == q;
    } else if taken > 0 {
      StageIsReached(maxWorkers, perAccount, a, k, taken - 1, 0);
      var before := Stage(maxWorkers, perAccount, a, k, taken - 1, 0);
      StageCounts(a, k, taken - 1, 0);
      OneMore(p, before, Take(taken - 1));
      assert Next(before, Take(taken - 1)).tasks == q.tasks;
    } else if k > 1 {
      StageIsReached(maxWorkers, perAccount, a, k - 1, 0, 0);
      var before := Stage(maxWorkers, perAccount, a, k - 1, 0, 0);
      OneMore(p, before, Submit(a));
      assert Next(before, Submit(a)).tasks == q.tasks;
    } else {
      NothingReached(p);
      OneMore(p, p, Submit(a));
      assert Next(p, Submit(a)) == q;
    }
  }

  lemma NothingReached(p: Pool)
    ensures Reaches(p, p)
  {
    assert CanRun(p, []) && After(p, []) == p;
  }

  /** All workers taken by `a`, as many of them running as its limit allows, and then one submission for `b`. */
  function Crowd(maxWorkers: nat, perAccount: nat, a: int, b: int, k: nat): Pool {
    var running := if perAccount < maxWorkers then perAccount else maxWorkers;
    Pool(maxWorkers, perAccount, map[a := perAccount - running, b := perAccount],
         StageTasks(a, k, maxWorkers, running) + [Task(b, Queued, 0)], true)
  }

  lemma {:induction false} CrowdIsReached(maxWorkers: nat, perAccount: nat, a: int, b: int, k: nat)
    requires a != b && k >= maxWorkers >= 1
    ensures Reaches(Fresh(maxWorkers, perAccount), Crowd(maxWorkers, perAccount, a, b, k))
  {
    hide Reaches, StageTasks;
    var running := if perAccount < maxWorkers then perAccount else maxWorkers;
    StageIsReached(maxWorkers, perAccount, a, k, maxWorkers, running);
    var q := Stage(maxWorkers, perAccount, a, k, maxWorkers, running);
    OneMore(Fresh(maxWorkers, perAccount), q, Submit(b));
    assert Next(q, Submit(b)) == Crowd(maxWorkers, perAccount, a, b, k);
  }

  lemma {:induction false} CrowdCounts(maxWorkers: nat, perAccount: nat, a: int, b: int, k: nat)
    requires a != b && k >= maxWorkers
    ensures var p := Crowd(maxWorkers, perAccount, a, b, k);
            Occupied(p) == maxWorkers && HeldBy(p, a) == maxWorkers && OpenOf(p, a) == k
  {
    var running := if perAccount < maxWorkers then perAccount else maxWorkers;
    var tasks := StageTasks(a, k, maxWorkers, running);
    StageCounts(a, k, maxWorkers, running);
    SumOfAppend(tasks, Task(b, Queued, 0), Occupies());
    SumOfAppend(tasks, Task(b, Queued, 0), OccupiesFor(a));
    SumOfAppend(tasks, Task(b, Queued, 0), OpenFor(a));
  }

  lemma {:induction false} CrowdStarves(maxWorkers: nat, perAccount: nat, a: int, b: int, k: nat)
    requires a != b && k >= maxWorkers
    ensures Starves(Crowd(maxWorkers, perAccount, a, b, k), a, b)
  {
    CrowdCounts(maxWorkers, perAccount, a, b, k);
    hide Sum, HeldBy;
    var p := Crowd(maxWorkers, perAccount, a, b, k);
    assert p.tasks[k] == Task(b, Queued, 0);
  }

  /**
    The semaphores do not keep accounts apart: with `k` unfinished tasks one account can keep every worker from
    another that has all its permits free, exactly when `k` is at least the number of workers.
   */
  lemma {:induction false} StarvationIff(maxWorkers: nat, perAccount: nat, a: int, b: int, k: nat)
    requires a != b && maxWorkers >= 1
    ensures (exists p :: Reaches(Fresh(maxWorkers, perAccount), p) && OpenOf(p, a) == k && Starves(p, a, b))
       <==> k >= maxWorkers
  {
    hide Starves, CanRun, After;
    if k >= maxWorkers {
      CrowdIsReached(maxWorkers, perAccount, a, b, k);
      CrowdCounts(maxWorkers, perAccount, a, b, k);
      CrowdStarves(maxWorkers, perAccount, a, b, k);
    } else {
      forall p | Reaches(Fresh(maxWorkers, perAccount), p) && OpenOf(p, a) == k
        ensures !Starves(p, a, b)
      {
        FewTasksStarveNobody(maxWorkers, perAccount, p, a, b);
      }
    }
  }

  lemma {:induction false} FewTasksStarveNobody(maxWorkers: nat, perAccount: nat, p: Pool, a: int, b: int)
    requires Reaches(Fresh(maxWorkers, perAccount), p) && OpenOf(p, a) < maxWorkers
    ensures !Starves(p, a, b)
  {
    HeldAreOpen(p.tasks, a);
    var steps :| CanRun(Fresh(maxWorkers, perAccount), steps) && After(Fresh(maxWorkers, perAccount), steps) == p;
    SizeStays(Fresh(maxWorkers, perAccount), steps);
  }

  lemma {:induction false} SizeStays(p: Pool, steps: seq<Step>)
    requires CanRun(p, steps)
    ensures After(p, steps).maxWorkers == p.maxWorkers && After(p, steps).perAccount == p.perAccount
    decreases |steps|
  {
    if steps == [] {
    } else {
      SizeStays(Next(p, steps[0]), steps[1..]);
    }
  }

  // ----- Progress from the start -----------------------------------------------------------------------------------

  /** No reachable pool is stuck with unfinished tasks. */
  ghost predicate NeverStuck(maxWorkers: nat, perAccount: nat) {
    forall p :: Reaches(Fresh(maxWorkers, perAccount), p) ==> Drained(p) || CanWork(p)
  }

  /** A limit of 0 per account is accepted, and then the first task taken sits in its worker for ever. */
  lemma {:induction false} NeverStuckIff(maxWorkers: nat, perAccount: nat)
    requires maxWorkers >= 1
    ensures NeverStuck(maxWorkers, perAccount) <==> perAccount >= 1
  {
    hide CanRun, After, Enabled, Next;
    if perAccount >= 1 {
      forall p | Reaches(Fresh(maxWorkers, perAccount), p)
        ensures Drained(p) || CanWork(p)
      {
        ReachedIsValid(maxWorkers, perAccount, p);
        NoMeasureMeansDrained(p);
        WorkIsPossible(p);
      }
    } else {
      var p := Stage(maxWorkers, 0, 1, 1, 1, 0);
      StageIsReached(maxWorkers, 0, 1, 1, 1, 0);
      ReachedIsValid(maxWorkers, 0, p);
      WorkIsPossible(p);
      assert p.tasks[0].phase.Waiting?;
    }
  }

  lemma ReachedIsValid(maxWorkers: nat, perAccount: nat, p: Pool)
    requires Reaches(Fresh(maxWorkers, perAccount), p)
    ensures Valid(p) && p.maxWorkers == maxWorkers && p.perAccount == perAccount
  {
    var steps :| CanRun(Fresh(maxWorkers, perAccount), steps) && After(Fresh(maxWorkers, perAccount), steps) == p;
    SizeStays(Fresh(maxWorkers, perAccount), steps);
    RunKeepsValid(Fresh(maxWorkers, perAccount), steps, 0);
  }
}
